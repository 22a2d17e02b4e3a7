// The I2C front end's command table: one record per command code, giving the
// static parameters, how many argument bytes the master sends after the code,
// how many bytes the slave returns, and the handler to call.

module I2CTable {

  /** An unsigned 8-bit value, as the C code's uint8_t. */
  type Byte = b: nat | b < 256

  /** Slots of the parameter array handed to an I2C handler. */
  const MAX_PARAMS: nat := 20
  /** Bytes a received packet can hold. */
  const I2C_BUFFER_SIZE: nat := 50
  /** Codes at or above this one are not in the table. */
  const MAX_I2C_COMMAND: nat := 0x50
  /** Packets the queue between the interrupt handler and the manager task can hold. */
  const I2C_QUEUE_SIZE: nat := 5

  /** The return count announced by the streaming download command. */
  const STREAMING: Byte := 0xFF

  // Register addresses of the Ethernet controller used by the quick commands.
  // Front-panel port 1 is hardware port 4, and so on.
  const PORT1_OFFSET_HEX: Byte := 0x40
  const PORT2_OFFSET_HEX: Byte := 0x30
  const PORT3_OFFSET_HEX: Byte := 0x20
  const PORT4_OFFSET_HEX: Byte := 0x10
  const PORT_CONTROL2_OFFSET_HEX: Byte := 0x2
  const PORT_CONTROL5_OFFSET_HEX: Byte := 0xC
  const PORT_CONTROL6_OFFSET_HEX: Byte := 0xD

  /** The functions an I2C record can point to. */
  datatype I2CHandler =
    | WriteReadFromEthernetController
    | SaveSwitchConfiguration
    | DownloadSwitchConfiguration
    | ClearSwitchConfiguration
    | SetBitEthernetController
    | ClearBitEthernetController
    | SetSCEthernetController
    | NotImplemented

  /** One record of the table. `staticParameters` lists the initialised bytes; the rest of the C array is zero. */
  datatype I2CCode = I2CCode(
    commandCode: Byte,
    staticPcount: nat,
    customPcount: nat,
    returnPcount: Byte,
    staticParameters: seq<Byte>,
    func: I2CHandler)

  /** A placeholder record: no parameters, nothing returned beyond the count. */
  function Placeholder(code: nat, answers: Byte): I2CCode
    requires code < 256
  {
    I2CCode(code, 0, 0, answers, [], NotImplemented)
  }

  /** A quick port command: one bit of one port register, returning one status byte. */
  function Quick(code: nat, port: Byte, register: Byte, bit: Byte, func: I2CHandler): I2CCode
    requires code < 256
  {
    I2CCode(code, 3, 0, 1, [port, register, bit], func)
  }

  /** Codes 0x00-0x0F: configuration and controller access; only the first four are implemented. */
  const SYSTEM_CODES: seq<I2CCode> := [
    I2CCode(0x00, 0, 3, 1, [], WriteReadFromEthernetController),
    I2CCode(0x01, 0, 0, 1, [], SaveSwitchConfiguration),
    I2CCode(0x02, 0, 0, STREAMING, [], DownloadSwitchConfiguration),
    I2CCode(0x03, 0, 0, 1, [], ClearSwitchConfiguration),
    Placeholder(0x04, 0), Placeholder(0x05, 0), Placeholder(0x06, 0), Placeholder(0x07, 0),
    Placeholder(0x08, 0), Placeholder(0x09, 0), Placeholder(0x0A, 0), Placeholder(0x0B, 0),
    Placeholder(0x0C, 0), Placeholder(0x0D, 0), Placeholder(0x0E, 0), Placeholder(0x0F, 0)
  ]

  /** The sixteen quick commands of one front-panel port, starting at code `base`. */
  function PortBlock(base: nat, port: Byte): (block: seq<I2CCode>)
    requires base + 16 <= 256
    ensures |block| == 16
  {
    [ Quick(base + 0x0, port, PORT_CONTROL6_OFFSET_HEX, 0x03, ClearBitEthernetController),  // turn on
      Quick(base + 0x1, port, PORT_CONTROL6_OFFSET_HEX, 0x03, SetBitEthernetController),    // turn off
      Quick(base + 0x2, port, PORT_CONTROL5_OFFSET_HEX, 0x05, SetBitEthernetController),    // full duplex
      Quick(base + 0x3, port, PORT_CONTROL5_OFFSET_HEX, 0x05, ClearBitEthernetController),  // half duplex
      Quick(base + 0x4, port, PORT_CONTROL5_OFFSET_HEX, 0x06, ClearBitEthernetController),  // 10BaseT
      Quick(base + 0x5, port, PORT_CONTROL5_OFFSET_HEX, 0x06, SetBitEthernetController),    // 100BaseT
      Quick(base + 0x6, port, PORT_CONTROL6_OFFSET_HEX, 0x02, ClearBitEthernetController),  // auto MDI/MDI-X on
      Quick(base + 0x7, port, PORT_CONTROL6_OFFSET_HEX, 0x02, SetBitEthernetController),    // auto MDI/MDI-X off
      Quick(base + 0x8, port, PORT_CONTROL6_OFFSET_HEX, 0x05, SetSCEthernetController),     // restart negotiation
      Quick(base + 0x9, port, PORT_CONTROL2_OFFSET_HEX, 0x02, SetBitEthernetController),    // transmit on
      Quick(base + 0xA, port, PORT_CONTROL2_OFFSET_HEX, 0x02, ClearBitEthernetController),  // transmit off
      Quick(base + 0xB, port, PORT_CONTROL2_OFFSET_HEX, 0x01, SetBitEthernetController),    // receive on
      Quick(base + 0xC, port, PORT_CONTROL2_OFFSET_HEX, 0x01, ClearBitEthernetController),  // receive off
      Placeholder(base + 0xD, 2),  // diagnostics
      Placeholder(base + 0xE, 1),  // set VLAN
      Placeholder(base + 0xF, 1)   // status
    ]
  }

  /** The whole table, indexed by command code. */
  const I2C_MAPPINGS: seq<I2CCode> :=
    SYSTEM_CODES
    + PortBlock(0x10, PORT1_OFFSET_HEX)
    + PortBlock(0x20, PORT2_OFFSET_HEX)
    + PortBlock(0x30, PORT3_OFFSET_HEX)
    + PortBlock(0x40, PORT4_OFFSET_HEX)

  /** The port register address used by the quick commands of front-panel port `p` (1..4). */
  function PortOffset(p: nat): Byte
    requires 1 <= p <= 4
  {
    match p
    case 1 => PORT1_OFFSET_HEX
    case 2 => PORT2_OFFSET_HEX
    case 3 => PORT3_OFFSET_HEX
    case 4 => PORT4_OFFSET_HEX
  }

  /** The sixteen records of block `b`: the system codes for block 0, port `b`'s quick commands otherwise. */
  function Block(b: nat): (block: seq<I2CCode>)
    requires b < 5
    ensures |block| == 16
  {
    if b == 0 then SYSTEM_CODES else PortBlock(16 * b, PortOffset(b))
  }

  /** Record `16 * b + k` of the table is record `k` of block `b`. */
  lemma MappingAt(b: nat, k: nat)
    requires b < 5 && k < 16
    ensures |I2C_MAPPINGS| == MAX_I2C_COMMAND
    ensures I2C_MAPPINGS[16 * b + k] == Block(b)[k]
  {
    assert I2C_MAPPINGS == Block(0) + Block(1) + Block(2) + Block(3) + Block(4);
  }

  /** Shape of one record of the system block. */
  lemma SystemRecord(k: nat)
    requires k < 16
    ensures var c := SYSTEM_CODES[k];
      c.commandCode == k && |c.staticParameters| == c.staticPcount == 0
      && (c.customPcount != 0 <==> k == 0) && c.customPcount <= 3
      && (c.returnPcount == STREAMING <==> k == 0x02)
      && (k in {0x00, 0x01, 0x03} ==> c.returnPcount == 1)
      && (k >= 0x04 ==> c.returnPcount == 0 && c.func == NotImplemented)
  {
  }

  /** Shape of one record of a port block. */
  lemma PortRecord(base: nat, port: Byte, k: nat)
    requires base + 16 <= 256 && k < 16
    ensures var c := PortBlock(base, port)[k];
      c.commandCode == base + k && c.customPcount == 0 && |c.staticParameters| == c.staticPcount <= 3
      && (k <= 0xC ==>
            c.staticPcount == 3 && c.returnPcount == 1 && c.staticParameters[0] == port
            && c.staticParameters[1] in {PORT_CONTROL2_OFFSET_HEX, PORT_CONTROL5_OFFSET_HEX, PORT_CONTROL6_OFFSET_HEX}
            && c.func in {SetBitEthernetController, ClearBitEthernetController, SetSCEthernetController})
      && (k == 0xD ==> c.returnPcount == 2 && c.func == NotImplemented)
      && (k > 0xD ==> c.returnPcount == 1 && c.func == NotImplemented)
  {
  }

  /** Every record sits at the index equal to its own code, and the table covers exactly the codes below MAX_I2C_COMMAND. */
  lemma MappingsIndexedByCode()
    ensures |I2C_MAPPINGS| == MAX_I2C_COMMAND
    ensures forall code :: 0 <= code < MAX_I2C_COMMAND ==> I2C_MAPPINGS[code].commandCode == code
  {
    forall code | 0 <= code < MAX_I2C_COMMAND
      ensures I2C_MAPPINGS[code].commandCode == code
    {
      var b, k := code / 16, code % 16;
      MappingAt(b, k);
      if b == 0 { SystemRecord(k); } else { PortRecord(16 * b, PortOffset(b), k); }
    }
  }

  /** Every record's parameters fit the handler's array: at most three, and the listed static bytes match the count. */
  lemma ParameterCountsFit()
    ensures forall code :: 0 <= code < MAX_I2C_COMMAND ==>
      var c := I2C_MAPPINGS[code];
      c.staticPcount + c.customPcount <= 3 <= MAX_PARAMS && |c.staticParameters| == c.staticPcount
  {
    forall code | 0 <= code < MAX_I2C_COMMAND
      ensures var c := I2C_MAPPINGS[code];
        c.staticPcount + c.customPcount <= 3 <= MAX_PARAMS && |c.staticParameters| == c.staticPcount
    {
      var b, k := code / 16, code % 16;
      MappingAt(b, k);
      if b == 0 { SystemRecord(k); } else { PortRecord(16 * b, PortOffset(b), k); }
    }
  }

  /** Only code 0x00 expects argument bytes from the master, and it expects three. */
  lemma OnlyControllerAccessTakesArguments()
    ensures I2C_MAPPINGS[0x00].customPcount == 3
    ensures forall code :: 0 < code < MAX_I2C_COMMAND ==> I2C_MAPPINGS[code].customPcount == 0
  {
    MappingAt(0, 0);
    forall code | 0 < code < MAX_I2C_COMMAND
      ensures I2C_MAPPINGS[code].customPcount == 0
    {
      var b, k := code / 16, code % 16;
      MappingAt(b, k);
      if b == 0 { SystemRecord(k); } else { PortRecord(16 * b, PortOffset(b), k); }
    }
  }

  /**
   * Codes 0x10-0x1C, 0x20-0x2C, 0x30-0x3C and 0x40-0x4C are the quick port
   * commands: they bind the port's register address, a control register and
   * a bit, and return one byte.
   */
  lemma QuickPortCommands(p: nat, k: nat)
    requires 1 <= p <= 4 && k <= 0xC
    ensures var c := I2C_MAPPINGS[16 * p + k];
      c.staticPcount == 3 && c.customPcount == 0 && c.returnPcount == 1
      && |c.staticParameters| == 3 && c.staticParameters[0] == PortOffset(p)
      && c.staticParameters[1] in {PORT_CONTROL2_OFFSET_HEX, PORT_CONTROL5_OFFSET_HEX, PORT_CONTROL6_OFFSET_HEX}
      && c.func in {SetBitEthernetController, ClearBitEthernetController, SetSCEthernetController}
  {
    MappingAt(p, k);
    PortRecord(16 * p, PortOffset(p), k);
  }

  /** Turning port 1 on clears bit 3 of control register 6 (0xD) at port address 0x40. */
  lemma PortOneOnClearsBitThree()
    ensures I2C_MAPPINGS[0x10] == I2CCode(0x10, 3, 0, 1, [0x40, 0xD, 0x03], ClearBitEthernetController)
  {
    MappingAt(1, 0);
  }

  /**
   * The count announced before a handler runs: the streaming download
   * announces 0xFF, the implemented system commands and all quick port
   * commands one byte, and the placeholders 0 (system), 2 (diagnostics) or 1.
   */
  lemma ReturnCounts(b: nat, k: nat)
    requires b < 5 && k < 16
    ensures var c := I2C_MAPPINGS[16 * b + k];
      (c.returnPcount == STREAMING <==> b == 0 && k == 0x02)
      && (b == 0 && k in {0x00, 0x01, 0x03} ==> c.returnPcount == 1)
      && (b == 0 && k >= 0x04 ==> c.returnPcount == 0 && c.func == NotImplemented)
      && (b > 0 && k <= 0xC ==> c.returnPcount == 1 && c.func != NotImplemented)
      && (b > 0 && k == 0xD ==> c.returnPcount == 2 && c.func == NotImplemented)
      && (b > 0 && k > 0xD ==> c.returnPcount == 1 && c.func == NotImplemented)
  {
    MappingAt(b, k);
    if b == 0 { SystemRecord(k); } else { PortRecord(16 * b, PortOffset(b), k); }
  }
}
