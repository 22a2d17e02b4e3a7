// The I2C manager task: takes a received packet off the queue, looks its code
// up in the command table, binds the handler's parameters, announces how many
// bytes it will return, calls the handler and sends the returned byte.

module I2CManager {
  import opened I2CTable

  /** A received packet: the bytes the master sent (the code first) and the index the receiver had reached. */
  datatype Packet = Packet(buffer: seq<Byte>, index: Byte)

  /** What the manager does with one packet. */
  datatype Service =
    | Dropped                                                     // the code is not in the table: nothing happens
    | CodeMismatch                                                // the record found holds another code: nothing is sent
    | Served(handler: I2CHandler, params: seq<Byte>, written: seq<Byte>)  // one handler call and the bytes sent back

  /** A record whose parameters fit the handler's array, as every table record does. */
  predicate FitsParameters(c: I2CCode)
  {
    c.staticPcount + c.customPcount <= MAX_PARAMS && |c.staticParameters| == c.staticPcount
    && c.customPcount < I2C_BUFFER_SIZE
  }

  /**
   * The handler's parameter array: the record's static bytes first, then the
   * master's argument bytes that followed the code, then zeros.
   */
  function BoundParameters(c: I2CCode, buffer: seq<Byte>): (params: seq<Byte>)
    requires FitsParameters(c) && |buffer| == I2C_BUFFER_SIZE
    ensures |params| == MAX_PARAMS
    ensures forall i :: 0 <= i < c.staticPcount ==> params[i] == c.staticParameters[i]
    ensures forall i :: c.staticPcount <= i < c.staticPcount + c.customPcount ==> params[i] == buffer[i - c.staticPcount + 1]
    ensures forall i :: c.staticPcount + c.customPcount <= i < MAX_PARAMS ==> params[i] == 0
  {
    seq(MAX_PARAMS, i requires 0 <= i < MAX_PARAMS =>
      if i < c.staticPcount then c.staticParameters[i]
      else if i < c.staticPcount + c.customPcount then buffer[i - c.staticPcount + 1]
      else 0)
  }

  /**
   * The byte a handler returns. Only the placeholder handler's body is part of
   * this model (it returns 0); every other handler's answer is the input `answer`.
   */
  function HandlerResult(h: I2CHandler, answer: Byte): (b: Byte)
    ensures h == NotImplemented ==> b == 0
    ensures h != NotImplemented ==> b == answer
  {
    if h == NotImplemented then 0 else answer
  }

  /** A command table the manager can index by code: one record per code below MAX_I2C_COMMAND, each fitting the parameter array. */
  predicate ManagerTable(table: seq<I2CCode>)
  {
    |table| == MAX_I2C_COMMAND && forall code :: 0 <= code < |table| ==> FitsParameters(table[code])
  }

  /** The firmware's table is one. */
  lemma MappingsFit()
    ensures ManagerTable(I2C_MAPPINGS)
  {
    ParameterCountsFit();
  }

  /** What the manager does with packet `p`, looking its code up in `table`, when the called handler would answer `answer`. */
  function Serve(table: seq<I2CCode>, p: Packet, answer: Byte): (s: Service)
    requires ManagerTable(table) && |p.buffer| == I2C_BUFFER_SIZE
    ensures s.Dropped? <==> p.buffer[0] >= MAX_I2C_COMMAND
    ensures s.CodeMismatch? <==> p.buffer[0] < MAX_I2C_COMMAND && table[p.buffer[0]].commandCode != p.buffer[0]
    ensures s.Served? ==>
      (s.handler == table[p.buffer[0]].func && 1 <= |s.written| <= 2 && s.written[0] == table[p.buffer[0]].returnPcount)
  {
    var code := p.buffer[0];
    if code >= MAX_I2C_COMMAND then Dropped
    else
      var c := table[code];
      if c.commandCode != code then CodeMismatch
      else
        var result := HandlerResult(c.func, answer);
        Served(c.func, BoundParameters(c, p.buffer),
               [c.returnPcount] + if c.returnPcount == 1 then [result] else [])
  }

  /** What the firmware's manager task does with packet `p`: the lookup in I2C_MAPPINGS. */
  function TaskServe(p: Packet, answer: Byte): (s: Service)
    requires |p.buffer| == I2C_BUFFER_SIZE
    ensures s.Dropped? <==> p.buffer[0] >= MAX_I2C_COMMAND
    ensures s.Served? <==> p.buffer[0] < MAX_I2C_COMMAND
  {
    MappingsFit();
    MappingsIndexedByCode();
    Serve(I2C_MAPPINGS, p, answer)
  }

  /** Fills the handler's parameter array: static bytes first, then the argument bytes after the code. */
  method BindParameters(c: I2CCode, buffer: seq<Byte>) returns (params: seq<Byte>)
    requires FitsParameters(c) && |buffer| == I2C_BUFFER_SIZE
    ensures params == BoundParameters(c, buffer)
  {
    var slots := new Byte[MAX_PARAMS](_ => 0);
    if c.staticPcount != 0 {
      for i := 0 to c.staticPcount
        invariant forall j :: 0 <= j < i ==> slots[j] == c.staticParameters[j]
        invariant forall j :: i <= j < MAX_PARAMS ==> slots[j] == 0
      {
        slots[i] := c.staticParameters[i];
      }
    }
    if c.customPcount != 0 {
      for i := 0 to c.customPcount
        invariant forall j :: 0 <= j < c.staticPcount ==> slots[j] == c.staticParameters[j]
        invariant forall j :: c.staticPcount <= j < c.staticPcount + i ==> slots[j] == buffer[j - c.staticPcount + 1]
        invariant forall j :: c.staticPcount + i <= j < MAX_PARAMS ==> slots[j] == 0
      {
        slots[i + c.staticPcount] := buffer[i + 1];
      }
    }
    params := slots[..];
    assert params == BoundParameters(c, buffer);
  }

  /** The manager's work on one packet, filling the parameter array the way the manager does. */
  method ServePacket(table: seq<I2CCode>, p: Packet, answer: Byte) returns (s: Service)
    requires ManagerTable(table) && |p.buffer| == I2C_BUFFER_SIZE
    ensures s == Serve(table, p, answer)
  {
    var code := p.buffer[0];
    if code >= MAX_I2C_COMMAND {
      return Dropped;
    }
    var c := table[code];
    var params := BindParameters(c, p.buffer);
    if c.commandCode == code {
      var written := [c.returnPcount];  // announced before the handler runs
      var result := HandlerResult(c.func, answer);
      if c.returnPcount == 1 {
        written := written + [result];
      }
      return Served(c.func, params, written);
    }
    return CodeMismatch;
  }

  /** The services for a queue of packets, taken off in order, the `k`-th handler answering `answers[k]`. */
  function ServeQueue(table: seq<I2CCode>, packets: seq<Packet>, answers: seq<Byte>): (services: seq<Service>)
    requires ManagerTable(table) && |answers| == |packets|
    requires forall k :: 0 <= k < |packets| ==> |packets[k].buffer| == I2C_BUFFER_SIZE
    ensures |services| == |packets|
  {
    if packets == [] then []
    else
      var n := |packets| - 1;
      ServeQueue(table, packets[..n], answers[..n]) + [Serve(table, packets[n], answers[n])]
  }

  /** The `k`-th service is the `k`-th packet's: packets are served one by one, in queue order. */
  lemma {:induction false} ServeQueueInOrder(table: seq<I2CCode>, packets: seq<Packet>, answers: seq<Byte>, k: nat)
    requires ManagerTable(table) && |answers| == |packets| && k < |packets|
    requires forall j :: 0 <= j < |packets| ==> |packets[j].buffer| == I2C_BUFFER_SIZE
    ensures ServeQueue(table, packets, answers)[k] == Serve(table, packets[k], answers[k])
    decreases |packets|
  {
    var n := |packets| - 1;
    if k < n {
      ServeQueueInOrder(table, packets[..n], answers[..n], k);
      assert packets[..n][k] == packets[k] && answers[..n][k] == answers[k];
    }
  }

  /** The manager loop: each packet taken off the queue is served in turn, with the table the manager consults. */
  method ServeAll(table: seq<I2CCode>, packets: seq<Packet>, answers: seq<Byte>) returns (services: seq<Service>)
    requires ManagerTable(table) && |answers| == |packets|
    requires forall k :: 0 <= k < |packets| ==> |packets[k].buffer| == I2C_BUFFER_SIZE
    ensures services == ServeQueue(table, packets, answers)
  {
    services := [];
    for k := 0 to |packets|
      invariant services == ServeQueue(table, packets[..k], answers[..k])
    {
      var s := ServePacket(table, packets[k], answers[k]);
      assert packets[..k + 1][..k] == packets[..k] && answers[..k + 1][..k] == answers[..k];
      services := services + [s];
    }
    assert packets[..|packets|] == packets && answers[..|answers|] == answers;
  }

  /**
   * The first byte sent is the record's return count; the handler's byte
   * follows exactly when that count is 1, and nothing else is sent.
   */
  lemma AnnounceThenReply(p: Packet, answer: Byte)
    requires |p.buffer| == I2C_BUFFER_SIZE && TaskServe(p, answer).Served?
    ensures var s := TaskServe(p, answer); var c := I2C_MAPPINGS[p.buffer[0]];
      s.handler == c.func && 1 <= |s.written| <= 2 && s.written[0] == c.returnPcount
      && (|s.written| == 2 <==> c.returnPcount == 1)
      && (|s.written| == 2 ==> s.written[1] == HandlerResult(c.func, answer))
  {
  }

  /** The controller-access command passes its three argument bytes, in order, as the handler's first parameters. */
  lemma ControllerAccessBindsArguments(p: Packet, answer: Byte)
    requires |p.buffer| == I2C_BUFFER_SIZE && p.buffer[0] == 0x00
    ensures TaskServe(p, answer) ==
      Served(WriteReadFromEthernetController, [p.buffer[1], p.buffer[2], p.buffer[3]] + seq(17, _ => 0), [1, answer])
  {
    MappingAt(0, 0);
    var params := BoundParameters(I2C_MAPPINGS[0], p.buffer);
    assert params == [p.buffer[1], p.buffer[2], p.buffer[3]] + seq(17, _ => 0);
  }

  /** Turning port 1 on calls the bit-clear handler with port address 0x40, register 0xD and bit 3, whatever else the packet holds. */
  lemma PortOneOnCallsClearBit(p: Packet, answer: Byte)
    requires |p.buffer| == I2C_BUFFER_SIZE && p.buffer[0] == 0x10
    ensures TaskServe(p, answer) ==
      Served(ClearBitEthernetController, [0x40, 0xD, 0x03] + seq(17, _ => 0), [1, answer])
  {
    PortOneOnClearsBitThree();
    var params := BoundParameters(I2C_MAPPINGS[0x10], p.buffer);
    assert params == [0x40, 0xD, 0x03] + seq(17, _ => 0);
  }

  /** A placeholder command returns 0: when it announces one byte, the bytes sent are 1 then 0. */
  lemma PlaceholderAnswersZero(p: Packet, answer: Byte)
    requires |p.buffer| == I2C_BUFFER_SIZE && p.buffer[0] < MAX_I2C_COMMAND
    requires I2C_MAPPINGS[p.buffer[0]].func == NotImplemented
    ensures var s := TaskServe(p, answer);
      s.Served? && s.handler == NotImplemented
      && s.written == if I2C_MAPPINGS[p.buffer[0]].returnPcount == 1 then [1, 0] else [I2C_MAPPINGS[p.buffer[0]].returnPcount]
  {
  }
}
