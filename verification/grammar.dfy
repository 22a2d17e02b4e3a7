// The console command grammar: a forest of constant menu tables. Each table is
// a list of command fragments closed by an all-zero sentinel entry; a fragment
// either terminates a command (and names the handler to call) or links to the
// table of fragments that may follow it.

module Grammar {
  import opened SystemTypes

  const MAX_DEPTH_INHERITANCE: nat := 12
  const MAX_MENU_ITEMS: nat := 50
  const MAX_PARAMS: nat := 20

  const NO_PARAMETERS: nat := 0
  const TERMINATING_COMMMAND: bool := true
  const HAS_CHILD: bool := false
  /** The default static parameter list: one empty string, every later slot NULL. */
  const EMPTY_STATIC_PARAMS: seq<string> := [""]

  // Logical port register bases (the hardware numbering is reversed).
  const ETHO_PORT1_HARDWARE: string := "0x10"
  const ETHO_PORT2_HARDWARE: string := "0x20"
  const ETHO_PORT3_HARDWARE: string := "0x30"
  const ETHO_PORT4_HARDWARE: string := "0x40"
  const PORT1_OFFSET: string := ETHO_PORT4_HARDWARE
  const PORT2_OFFSET: string := ETHO_PORT3_HARDWARE
  const PORT3_OFFSET: string := ETHO_PORT2_HARDWARE
  const PORT4_OFFSET: string := ETHO_PORT1_HARDWARE

  // Per-port register offsets and global control registers.
  const PORT_CONTROL0_OFFSET: string := "0x0"
  const PORT_CONTROL1_OFFSET: string := "0x1"
  const PORT_CONTROL2_OFFSET: string := "0x2"
  const PORT_CONTROL5_OFFSET: string := "0xC"
  const PORT_CONTROL6_OFFSET: string := "0xD"
  const GLOBAL_CONTROL_0: string := "0x02"
  const GLOBAL_CONTROL_1: string := "0x03"
  const GLOBAL_CONTROL_9: string := "0x0B"

  /** The handlers a terminating fragment can name. Their bodies are not part of this model. */
  datatype Handler =
    | NotImplementedFunction
    | SetBitEthernetController | ClearBitEthernetController | SetSCBitEthernetController
    | WriteToEEPOM | ReadFromEEPROM | ReinitializeEEPROM
    | ShowVLANTable | ShowStaticMACTable | ShowDynamicMACTable
    | I2CSend | ShowRunningConfig | ResetTivaC
    | WriteToEthernetController | ReadFromEthernetController
    | SaveSwitchConfiguration | DeleteConfig
    | SetVLANEntry | EnableVLANS | DisableVLANS | SetPortVLAN
    | ShowPortStatus | RunCableDiagnostics
    | EventStatus | ManageEvents | ListEvents | DeleteEvents
    | ListUsers | AddUser | DeleteUsersMenu | Logout

  /**
   * One command fragment. `functionParams` is the static initialiser list: slots
   * past its end are NULL. `childCommand` is the table of fragments that may
   * follow this one, None for NO_CHILD_MENU.
   */
  datatype Command =
    | Entry(text: string, help: string, isExecutable: bool, paramsRequired: nat,
            paramsUserProvided: bool, func: Handler, functionParams: seq<string>,
            childCommand: Option<seq<Command>>, permissionsRequired: PermLevel)
    | Sentinel

  /** Static parameter slot `l` of a fragment: NULL past the initialiser list. */
  function StaticParam(c: Command, l: nat): (p: Option<string>)
    requires c.Entry?
    ensures p.Some? <==> l < |c.functionParams|
    ensures p.Some? ==> p.value == c.functionParams[l]
  {
    if l < |c.functionParams| then Some(c.functionParams[l]) else None
  }

  // The menu tables, in declaration order of the firmware; each is closed by its sentinel.

  const EnableDisableOptions: seq<Command> :=
    [ Entry("enable", "enable this option", TERMINATING_COMMMAND, 1, false, SetBitEthernetController, ["Enabling Feature..."], None, ModifyPortsOnly),
      Entry("disable", "disable this option", TERMINATING_COMMMAND, 1, false, ClearBitEthernetController, ["Disabling Feature..."], None, ModifyPortsOnly),
      Sentinel ]

  const InvEnableDisableOptions: seq<Command> :=
    [ Entry("enable", "enable this option", TERMINATING_COMMMAND, 1, false, ClearBitEthernetController, ["Enabling Feature..."], None, ModifyPortsOnly),
      Entry("disable", "disable this option", TERMINATING_COMMMAND, 1, false, SetBitEthernetController, ["Disabling Feature..."], None, ModifyPortsOnly),
      Sentinel ]

  const BitrateSettings: seq<Command> :=
    [ Entry("<speed [bits/sec]>", "manually set the speed for this port", TERMINATING_COMMMAND, 1, true, NotImplementedFunction, EMPTY_STATIC_PARAMS, None, ModifyPortsOnly),
      Sentinel ]

  const WriteEEPROMRegisterOptions2: seq<Command> :=
    [ Entry("<data [0x00000000 - 0xFFFFFFFF]>", "read a setting from a register on the selected KSZ8895MQX", TERMINATING_COMMMAND, 1, true, WriteToEEPOM, EMPTY_STATIC_PARAMS, None, ModifySystem),
      Sentinel ]

  const WriteEEPROMRegisterOptions: seq<Command> :=
    [ Entry("<register-addr [0x00000000 - 0xFFFFFFFF]>", "read a setting from a register on the selected KSZ8895MQX", HAS_CHILD, 1, true, NotImplementedFunction, EMPTY_STATIC_PARAMS, Some(WriteEEPROMRegisterOptions2), ModifySystem),
      Sentinel ]

  const ReadEEPROMRegisterOptions: seq<Command> :=
    [ Entry("<register-addr [0x00 - 0xFF]>", "read a setting from a register on the selected KSZ8895MQX", TERMINATING_COMMMAND, 1, true, ReadFromEEPROM, EMPTY_STATIC_PARAMS, None, ReadOnlyUser),
      Sentinel ]

  const EEPROMOptions: seq<Command> :=
    [ Entry("read-reg", "read a register from the EEPROM", HAS_CHILD, NO_PARAMETERS, false, NotImplementedFunction, EMPTY_STATIC_PARAMS, Some(ReadEEPROMRegisterOptions), ReadOnlyUser),
      Entry("write-reg", "write to a register on the EEPROM", HAS_CHILD, NO_PARAMETERS, false, NotImplementedFunction, EMPTY_STATIC_PARAMS, Some(WriteEEPROMRegisterOptions), ModifySystem),
      Entry("reinitialize", "reset the EEPROM to factory settings [RESTART REQUIRED]", TERMINATING_COMMMAND, NO_PARAMETERS, false, ReinitializeEEPROM, EMPTY_STATIC_PARAMS, None, ModifySystem),
      Sentinel ]

  const LEDOptions: seq<Command> :=
    [ Entry("mode-0", "set port LEDs to use mode 0", TERMINATING_COMMMAND, 1, false, ClearBitEthernetController, ["Setting LEDs To Mode 0"], None, ModifyPortsOnly),
      Entry("mode-1", "set port LEDs to use mode 1", TERMINATING_COMMMAND, 1, false, SetBitEthernetController, ["Setting LEDs To Mode 1"], None, ModifyPortsOnly),
      Sentinel ]

  const TableOptions: seq<Command> :=
    [ Entry("vlan-table", "shows the current VLAN table", TERMINATING_COMMMAND, NO_PARAMETERS, false, ShowVLANTable, EMPTY_STATIC_PARAMS, None, ReadOnlyUser),
      Entry("static-mac-table", "shows the static MAC table", TERMINATING_COMMMAND, NO_PARAMETERS, false, ShowStaticMACTable, EMPTY_STATIC_PARAMS, None, ReadOnlyUser),
      Entry("dyn-mac-table", "shows the dynamic MAC table", TERMINATING_COMMMAND, NO_PARAMETERS, false, ShowDynamicMACTable, EMPTY_STATIC_PARAMS, None, ReadOnlyUser),
      Sentinel ]

  const I2CCommandCode: seq<Command> :=
    [ Entry("<i2c-command [0x00 - 0xFF]>", "command to issue to loopback interface", TERMINATING_COMMMAND, 1, true, I2CSend, EMPTY_STATIC_PARAMS, None, ModifySystem),
      Sentinel ]

  const I2COptions: seq<Command> :=
    [ Entry("send-command", "send an I2C over loopback", HAS_CHILD, NO_PARAMETERS, false, NotImplementedFunction, EMPTY_STATIC_PARAMS, Some(I2CCommandCode), ModifySystem),
      Sentinel ]

  const SystemCommands: seq<Command> :=
    [ Entry("eeprom", "change settings for the EEPROM", HAS_CHILD, NO_PARAMETERS, false, NotImplementedFunction, EMPTY_STATIC_PARAMS, Some(EEPROMOptions), ModifySystem),
      Entry("i2c", "control other layers with I2C", HAS_CHILD, NO_PARAMETERS, false, NotImplementedFunction, EMPTY_STATIC_PARAMS, Some(I2COptions), ModifySystem),
      Entry("status", "show global system information", TERMINATING_COMMMAND, NO_PARAMETERS, false, ShowRunningConfig, EMPTY_STATIC_PARAMS, None, ReadOnlyUser),
      Entry("rapid-link-aging", "enable/disable fast device aging after link change", HAS_CHILD, 3, false, NotImplementedFunction, [GLOBAL_CONTROL_0, "0x00"], Some(EnableDisableOptions), ModifySystem),
      Entry("large-packets", "allow 2KB packets", HAS_CHILD, 3, false, NotImplementedFunction, [GLOBAL_CONTROL_1, "0x06"], Some(EnableDisableOptions), ModifySystem),
      Entry("power-saving", "enable/disable power saving on all PHYs", HAS_CHILD, 3, false, NotImplementedFunction, [GLOBAL_CONTROL_9, "0x03"], Some(InvEnableDisableOptions), ModifySystem),
      Entry("led-mode", "set LED mode 0 or mode 1", HAS_CHILD, 3, false, NotImplementedFunction, [GLOBAL_CONTROL_9, "0x01"], Some(LEDOptions), ModifySystem),
      Entry("show", "access VLAN and MAC tables", HAS_CHILD, NO_PARAMETERS, false, NotImplementedFunction, EMPTY_STATIC_PARAMS, Some(TableOptions), ReadOnlyUser),
      Entry("reset", "performs a soft reset of the system", TERMINATING_COMMMAND, NO_PARAMETERS, false, ResetTivaC, EMPTY_STATIC_PARAMS, None, ModifySystem),
      Sentinel ]

  const WriteRegisterOptions2: seq<Command> :=
    [ Entry("<data [0x00 - 0xFF]>", "read a setting from a register on the selected KSZ8895MQX", TERMINATING_COMMMAND, 1, true, WriteToEthernetController, EMPTY_STATIC_PARAMS, None, ModifySystem),
      Sentinel ]

  const WriteRegisterOptions: seq<Command> :=
    [ Entry("<register-addr [0x00 - 0xFF]>", "read a setting from a register on the selected KSZ8895MQX", HAS_CHILD, 1, true, NotImplementedFunction, EMPTY_STATIC_PARAMS, Some(WriteRegisterOptions2), ModifySystem),
      Sentinel ]

  const ReadRegisterOptions: seq<Command> :=
    [ Entry("<register-addr [0x00 - 0xFF]>", "read a setting from a register on the selected KSZ8895MQX", TERMINATING_COMMMAND, 1, true, ReadFromEthernetController, EMPTY_STATIC_PARAMS, None, ReadOnlyUser),
      Sentinel ]

  const ControllerOptions: seq<Command> :=
    [ Entry("read-reg", "read a setting from a register on the selected KSZ8895MQX", HAS_CHILD, NO_PARAMETERS, false, NotImplementedFunction, EMPTY_STATIC_PARAMS, Some(ReadRegisterOptions), ReadOnlyUser),
      Entry("write-reg", "write to a register on the selected KSZ8895MQX", HAS_CHILD, NO_PARAMETERS, false, NotImplementedFunction, EMPTY_STATIC_PARAMS, Some(WriteRegisterOptions), ModifySystem),
      Sentinel ]

  const ConfigCommands: seq<Command> :=
    [ Entry("save", "move the current configuration to the EEPROM", TERMINATING_COMMMAND, NO_PARAMETERS, false, SaveSwitchConfiguration, EMPTY_STATIC_PARAMS, None, ModifyPortsOnly),
      Entry("delete", "remove the current configuration from the EEPROM", TERMINATING_COMMMAND, 1, false, DeleteConfig, EMPTY_STATIC_PARAMS, None, ModifySystem),
      Sentinel ]

  const SniffingSettings: seq<Command> :=
    [ Entry("disable", "return this port to normal operation", TERMINATING_COMMMAND, 3, false, ClearBitEthernetController, [PORT_CONTROL1_OFFSET, "0x07", "Returning port to normal operational mode..."], None, ModifyPortsOnly),
      Entry("designate", "sets this port as the sniffer port", TERMINATING_COMMMAND, 3, false, SetBitEthernetController, [PORT_CONTROL1_OFFSET, "0x07", "Setting port as sniffer..."], None, ModifyPortsOnly),
      Entry("sniff-tx", "copy all TX packets to sniffer port", HAS_CHILD, 2, false, NotImplementedFunction, [PORT_CONTROL1_OFFSET, "0x05"], Some(EnableDisableOptions), ModifyPortsOnly),
      Entry("sniff-rx", "copy all RX packets to sniffer port", HAS_CHILD, 2, false, NotImplementedFunction, [PORT_CONTROL1_OFFSET, "0x06"], Some(EnableDisableOptions), ModifyPortsOnly),
      Sentinel ]

  const VLANTableSettings: seq<Command> :=
    [ Entry("<vlan-id [1-4096]>", "set the VLAN for this port", TERMINATING_COMMMAND, 1, true, SetVLANEntry, EMPTY_STATIC_PARAMS, None, ModifyPortsOnly),
      Sentinel ]

  const VLANSettings: seq<Command> :=
    [ Entry("enable", "globally enables the use of VLAN filtering", TERMINATING_COMMMAND, 0, false, EnableVLANS, EMPTY_STATIC_PARAMS, None, ModifyPortsOnly),
      Entry("disable", "globally disables the use of VLAN filtering", TERMINATING_COMMMAND, 0, false, DisableVLANS, EMPTY_STATIC_PARAMS, None, ModifyPortsOnly),
      Entry("add", "add an entry to the VLAN table", HAS_CHILD, 0, false, NotImplementedFunction, EMPTY_STATIC_PARAMS, Some(VLANTableSettings), ModifyPortsOnly),
      Entry("<vlan-id [1-4096]>", "set the VLAN for this port", TERMINATING_COMMMAND, 1, true, SetPortVLAN, EMPTY_STATIC_PARAMS, None, ModifyPortsOnly),
      Sentinel ]

  const DuplexSettings: seq<Command> :=
    [ Entry("half-duplex", "set this port to use flow control when managing incoming and outgoing packets", TERMINATING_COMMMAND, 3, false, ClearBitEthernetController, [PORT_CONTROL5_OFFSET, "0x05", "Setting port to HALF-DUPLEX..."], None, ModifyPortsOnly),
      Entry("full-duplex", "set this port to operate bi-directionally", TERMINATING_COMMMAND, 3, false, SetBitEthernetController, [PORT_CONTROL5_OFFSET, "0x05", "Setting port to FULL-DUPLEX..."], None, ModifyPortsOnly),
      Entry("100BT", "set this port to operate at 100BaseT", TERMINATING_COMMMAND, 3, false, SetBitEthernetController, [PORT_CONTROL5_OFFSET, "0x06", "Setting port to 100 Mbps..."], None, ModifyPortsOnly),
      Entry("10BT", "set this port to operate at 10BaseT", TERMINATING_COMMMAND, 3, false, ClearBitEthernetController, [PORT_CONTROL5_OFFSET, "0x06", "Setting port to 10 Mbps..."], None, ModifyPortsOnly),
      Sentinel ]

  const PortOptions: seq<Command> :=
    [ Entry("enable", "turn this port on", TERMINATING_COMMMAND, 3, false, ClearBitEthernetController, [PORT_CONTROL6_OFFSET, "0x03", "Enabling Selected Port..."], None, ModifyPortsOnly),
      Entry("disable", "turn this port off", TERMINATING_COMMMAND, 3, false, SetBitEthernetController, [PORT_CONTROL6_OFFSET, "0x03", "Disabling Selected Port..."], None, ModifyPortsOnly),
      Entry("vlan", "assign a vlan to this port", HAS_CHILD, NO_PARAMETERS, false, NotImplementedFunction, EMPTY_STATIC_PARAMS, Some(VLANSettings), ModifyPortsOnly),
      Entry("speed", "modify the rate at which this port operates", HAS_CHILD, NO_PARAMETERS, false, NotImplementedFunction, EMPTY_STATIC_PARAMS, Some(DuplexSettings), ModifyPortsOnly),
      Entry("status", "information regarding the current state of this port", TERMINATING_COMMMAND, NO_PARAMETERS, false, ShowPortStatus, EMPTY_STATIC_PARAMS, None, ReadOnlyUser),
      Entry("broadcast-storm", "enable/disable broadcast storm protection", HAS_CHILD, 2, false, NotImplementedFunction, [PORT_CONTROL0_OFFSET, "0x07"], Some(EnableDisableOptions), ModifyPortsOnly),
      Entry("sniff-state", "sniffing settings for this port", HAS_CHILD, NO_PARAMETERS, false, NotImplementedFunction, EMPTY_STATIC_PARAMS, Some(SniffingSettings), ModifyPortsOnly),
      Entry("toggle-tx", "enable/disable packet transmission", HAS_CHILD, 2, false, NotImplementedFunction, [PORT_CONTROL2_OFFSET, "0x02"], Some(EnableDisableOptions), ModifyPortsOnly),
      Entry("toggle-rx", "enable/disable packet reception", HAS_CHILD, 2, false, NotImplementedFunction, [PORT_CONTROL2_OFFSET, "0x01"], Some(EnableDisableOptions), ModifyPortsOnly),
      Entry("run-diag", "run cable diagnostics", TERMINATING_COMMMAND, NO_PARAMETERS, false, RunCableDiagnostics, EMPTY_STATIC_PARAMS, None, ReadOnlyUser),
      Entry("auto-neg", "enable/disable auto-negoatiation", HAS_CHILD, 2, false, NotImplementedFunction, [PORT_CONTROL5_OFFSET, "0x07"], Some(InvEnableDisableOptions), ModifyPortsOnly),
      Entry("restart-auto-neg", "restart auto-negotiation", TERMINATING_COMMMAND, 3, false, SetSCBitEthernetController, [PORT_CONTROL6_OFFSET, "0x05", "Restarting Auto-MDI/MDIX"], None, ModifyPortsOnly),
      Entry("auto-mdix", "enable/disable auto MDI/MDI-X", HAS_CHILD, 2, false, NotImplementedFunction, [PORT_CONTROL6_OFFSET, "0x02"], Some(InvEnableDisableOptions), ModifyPortsOnly),
      Entry("force-mdi", "manually enable/disable MDI mode", HAS_CHILD, 2, false, NotImplementedFunction, [PORT_CONTROL6_OFFSET, "0x01"], Some(EnableDisableOptions), ModifyPortsOnly),
      Sentinel ]

  const PortCommands: seq<Command> :=
    [ Entry("f0", "settings for fast-ethernet0", HAS_CHILD, 1, false, NotImplementedFunction, [PORT1_OFFSET], Some(PortOptions), ReadOnlyUser),
      Entry("f1", "settings for fast-ethernet1", HAS_CHILD, 1, false, NotImplementedFunction, [PORT2_OFFSET], Some(PortOptions), ReadOnlyUser),
      Entry("f2", "settings for fast-ethernet2", HAS_CHILD, 1, false, NotImplementedFunction, [PORT3_OFFSET], Some(PortOptions), ReadOnlyUser),
      Entry("f3", "settings for fast-ethernet3", HAS_CHILD, 1, false, NotImplementedFunction, [PORT4_OFFSET], Some(PortOptions), ReadOnlyUser),
      Sentinel ]

  const EventOptions: seq<Command> :=
    [ Entry("status", "list currently enabled/disabled events", TERMINATING_COMMMAND, NO_PARAMETERS, false, EventStatus, EMPTY_STATIC_PARAMS, None, ReadOnlyUser),
      Entry("manage", "add an event to log", TERMINATING_COMMMAND, NO_PARAMETERS, false, ManageEvents, EMPTY_STATIC_PARAMS, None, Administrator),
      Entry("list", "show all logged events", TERMINATING_COMMMAND, NO_PARAMETERS, false, ListEvents, EMPTY_STATIC_PARAMS, None, Administrator),
      Entry("clear", "clear all logged events", TERMINATING_COMMMAND, NO_PARAMETERS, false, DeleteEvents, EMPTY_STATIC_PARAMS, None, Administrator),
      Sentinel ]

  const UserOptions: seq<Command> :=
    [ Entry("list", "list all users allowed to access this switch", TERMINATING_COMMMAND, NO_PARAMETERS, false, ListUsers, EMPTY_STATIC_PARAMS, None, ReadOnlyUser),
      Entry("add", "add a user", TERMINATING_COMMMAND, NO_PARAMETERS, false, AddUser, EMPTY_STATIC_PARAMS, None, Administrator),
      Entry("delete", "delete a user", TERMINATING_COMMMAND, NO_PARAMETERS, false, DeleteUsersMenu, EMPTY_STATIC_PARAMS, None, Administrator),
      Sentinel ]

  const AdminCommands: seq<Command> :=
    [ Entry("users", "manage the users allowed to administrate this switch", HAS_CHILD, NO_PARAMETERS, false, NotImplementedFunction, EMPTY_STATIC_PARAMS, Some(UserOptions), ReadOnlyUser),
      Entry("events", "manage the events logged to EEPROM", HAS_CHILD, NO_PARAMETERS, false, NotImplementedFunction, EMPTY_STATIC_PARAMS, Some(EventOptions), ReadOnlyUser),
      Sentinel ]

  const CommandCategories: seq<Command> :=
    [ Entry("admin", "commands for changing the settings of the switch layer", HAS_CHILD, NO_PARAMETERS, false, NotImplementedFunction, EMPTY_STATIC_PARAMS, Some(AdminCommands), ReadOnlyUser),
      Entry("port", "modify a port on the switch board", HAS_CHILD, NO_PARAMETERS, false, NotImplementedFunction, EMPTY_STATIC_PARAMS, Some(PortCommands), ReadOnlyUser),
      Entry("controller", "modify a setting on the ethernet controller", HAS_CHILD, NO_PARAMETERS, false, NotImplementedFunction, EMPTY_STATIC_PARAMS, Some(ControllerOptions), ReadOnlyUser),
      Entry("system", "advanced settings for changing the operation of this device", HAS_CHILD, NO_PARAMETERS, false, NotImplementedFunction, EMPTY_STATIC_PARAMS, Some(SystemCommands), ReadOnlyUser),
      Entry("config", "save or delete this switch's running configuration", HAS_CHILD, NO_PARAMETERS, false, NotImplementedFunction, EMPTY_STATIC_PARAMS, Some(ConfigCommands), ModifyPortsOnly),
      Entry("logout", "exit this session. Does not automatically save configuration.", TERMINATING_COMMMAND, NO_PARAMETERS, false, Logout, EMPTY_STATIC_PARAMS, None, ReadOnlyUser),
      Sentinel ]

  /** The root menu every command line starts from. */
  const ROOT: seq<Command> := CommandCategories

  /**
   * The structural rules a menu obeys, with `height` bounding how many
   * fragments a command starting in this menu takes and `budget` bounding how
   * many parameter slots it binds: the menu ends with its sentinel within
   * MAX_MENU_ITEMS entries; a fragment links a child exactly when it does not
   * terminate; a user-provided fragment binds one slot; no fragment spells "?".
   */
  ghost predicate WellFormedMenu(menu: seq<Command>, height: nat, budget: nat)
    decreases height
  {
    && 1 <= height
    && 0 < |menu| <= MAX_MENU_ITEMS
    && menu[|menu| - 1] == Sentinel
    && forall j :: 0 <= j < |menu| - 1 ==>
         && menu[j].Entry?
         && (menu[j].isExecutable <==> menu[j].childCommand.None?)
         && menu[j].paramsRequired <= budget
         && (menu[j].paramsUserProvided ==> menu[j].paramsRequired == 1)
         && menu[j].text != "?"
         && (menu[j].childCommand.Some? ==>
               height > 1 && WellFormedMenu(menu[j].childCommand.value, height - 1, budget - menu[j].paramsRequired))
  }

  // One lemma per table, leaves first. Each holds for any bounds at least the
  // table's own height and budget.

  lemma EnableDisableOptionsWellFormed(h: nat, b: nat)
    requires h >= 1 && b >= 1
    ensures WellFormedMenu(EnableDisableOptions, h, b) && WellFormedMenu(InvEnableDisableOptions, h, b)
  {}

  lemma LeafMenusWellFormed(h: nat, b: nat)
    requires h >= 1 && b >= 1
    ensures WellFormedMenu(BitrateSettings, h, b)
    ensures WellFormedMenu(WriteEEPROMRegisterOptions2, h, b)
    ensures WellFormedMenu(ReadEEPROMRegisterOptions, h, b)
    ensures WellFormedMenu(LEDOptions, h, b)
    ensures WellFormedMenu(TableOptions, h, b)
    ensures WellFormedMenu(I2CCommandCode, h, b)
    ensures WellFormedMenu(WriteRegisterOptions2, h, b)
    ensures WellFormedMenu(ReadRegisterOptions, h, b)
    ensures WellFormedMenu(VLANTableSettings, h, b)
    ensures WellFormedMenu(EventOptions, h, b)
    ensures WellFormedMenu(UserOptions, h, b)
  {}

  lemma ConfigCommandsWellFormed(h: nat, b: nat)
    requires h >= 1 && b >= 1
    ensures WellFormedMenu(ConfigCommands, h, b)
  {}

  lemma DuplexSettingsWellFormed(h: nat, b: nat)
    requires h >= 1 && b >= 3
    ensures WellFormedMenu(DuplexSettings, h, b)
  {}

  lemma EEPROMOptionsWellFormed(h: nat, b: nat)
    requires h >= 3 && b >= 2
    ensures WellFormedMenu(EEPROMOptions, h, b)
  {
    LeafMenusWellFormed(h - 2, b - 1);
    LeafMenusWellFormed(h - 1, b);
    assert WellFormedMenu(WriteEEPROMRegisterOptions, h - 1, b);
  }

  lemma ControllerOptionsWellFormed(h: nat, b: nat)
    requires h >= 3 && b >= 2
    ensures WellFormedMenu(ControllerOptions, h, b)
  {
    LeafMenusWellFormed(h - 2, b - 1);
    LeafMenusWellFormed(h - 1, b);
    assert WellFormedMenu(WriteRegisterOptions, h - 1, b);
  }

  lemma SystemCommandsWellFormed(h: nat, b: nat)
    requires h >= 4 && b >= 4
    ensures WellFormedMenu(SystemCommands, h, b)
  {
    EEPROMOptionsWellFormed(h - 1, b);
    LeafMenusWellFormed(h - 1, b);
    LeafMenusWellFormed(h - 2, b);
    assert WellFormedMenu(I2COptions, h - 1, b);
    EnableDisableOptionsWellFormed(h - 1, b - 3);
  }

  lemma SniffingSettingsWellFormed(h: nat, b: nat)
    requires h >= 2 && b >= 3
    ensures WellFormedMenu(SniffingSettings, h, b)
  {
    EnableDisableOptionsWellFormed(h - 1, b - 2);
  }

  lemma VLANSettingsWellFormed(h: nat, b: nat)
    requires h >= 2 && b >= 1
    ensures WellFormedMenu(VLANSettings, h, b)
  {
    LeafMenusWellFormed(h - 1, b);
  }

  lemma PortOptionsWellFormed(h: nat, b: nat)
    requires h >= 3 && b >= 3
    ensures WellFormedMenu(PortOptions, h, b)
  {
    EnableDisableOptionsWellFormed(h - 1, b - 2);
    VLANSettingsWellFormed(h - 1, b);
    DuplexSettingsWellFormed(h - 1, b);
    SniffingSettingsWellFormed(h - 1, b);
  }

  lemma PortCommandsWellFormed(h: nat, b: nat)
    requires h >= 4 && b >= 4
    ensures WellFormedMenu(PortCommands, h, b)
  {
    PortOptionsWellFormed(h - 1, b - 1);
  }

  lemma AdminCommandsWellFormed(h: nat, b: nat)
    requires h >= 2 && b >= 0
    ensures WellFormedMenu(AdminCommands, h, b)
  {
    LeafMenusWellFormed(h - 1, b + 1);
    assert WellFormedMenu(UserOptions, h - 1, b) && WellFormedMenu(EventOptions, h - 1, b);
  }

  /**
   * The whole grammar is well formed: every command takes at most five
   * fragments (so the twelve-level walk never runs out) and binds at most four
   * of the twenty parameter slots.
   */
  lemma GrammarWellFormed()
    ensures WellFormedMenu(ROOT, 5, 4)
  {
    RootWellFormed(5, 4);
  }

  /** One fragment of a well-formed menu, as WellFormedMenu demands it of each entry before the sentinel. */
  ghost predicate EntryFits(c: Command, height: nat, budget: nat)
  {
    && c.Entry?
    && (c.isExecutable <==> c.childCommand.None?)
    && c.paramsRequired <= budget
    && (c.paramsUserProvided ==> c.paramsRequired == 1)
    && c.text != "?"
    && (c.childCommand.Some? ==> height > 1 && WellFormedMenu(c.childCommand.value, height - 1, budget - c.paramsRequired))
  }

  lemma MenuFromEntries(menu: seq<Command>, height: nat, budget: nat)
    requires 1 <= height && 0 < |menu| <= MAX_MENU_ITEMS && menu[|menu| - 1] == Sentinel
    requires forall j :: 0 <= j < |menu| - 1 ==> EntryFits(menu[j], height, budget)
    ensures WellFormedMenu(menu, height, budget)
  {
  }

  lemma RootWellFormed(h: nat, b: nat)
    requires h >= 5 && b >= 4
    ensures WellFormedMenu(ROOT, h, b)
  {
    AdminEntryFits(h, b);
    PortEntryFits(h, b);
    ControllerEntryFits(h, b);
    SystemEntryFits(h, b);
    ConfigEntryFits(h, b);
    assert EntryFits(ROOT[5], h, b);
    MenuFromEntries(ROOT, h, b);
  }

  lemma AdminEntryFits(h: nat, b: nat)
    requires h >= 5 && b >= 4
    ensures EntryFits(ROOT[0], h, b)
  {
    AdminCommandsWellFormed(h - 1, b);
    assert ROOT[0].childCommand == Some(AdminCommands) && ROOT[0].paramsRequired == 0;
  }

  lemma PortEntryFits(h: nat, b: nat)
    requires h >= 5 && b >= 4
    ensures EntryFits(ROOT[1], h, b)
  {
    PortCommandsWellFormed(h - 1, b);
    assert ROOT[1].childCommand == Some(PortCommands) && ROOT[1].paramsRequired == 0;
  }

  lemma ControllerEntryFits(h: nat, b: nat)
    requires h >= 5 && b >= 4
    ensures EntryFits(ROOT[2], h, b)
  {
    ControllerOptionsWellFormed(h - 1, b);
    assert ROOT[2].childCommand == Some(ControllerOptions) && ROOT[2].paramsRequired == 0;
  }

  lemma SystemEntryFits(h: nat, b: nat)
    requires h >= 5 && b >= 4
    ensures EntryFits(ROOT[3], h, b)
  {
    SystemCommandsWellFormed(h - 1, b);
    assert ROOT[3].childCommand == Some(SystemCommands) && ROOT[3].paramsRequired == 0;
  }

  lemma ConfigEntryFits(h: nat, b: nat)
    requires h >= 5 && b >= 4
    ensures EntryFits(ROOT[4], h, b)
  {
    ConfigCommandsWellFormed(h - 1, b);
    assert ROOT[4].childCommand == Some(ConfigCommands) && ROOT[4].paramsRequired == 0;
  }
}
