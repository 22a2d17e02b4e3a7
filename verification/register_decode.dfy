// The status report of the console's "show" commands: each register listed in
// a ConfigBase table is read once, each of its options masks the byte and
// prints the description of the first value equal to the masked byte, with
// the value column aligned past the longest option description.

module RegisterDecode {
  import opened SystemTypes

  /** Capacity of a register's option array and of an option's value array (each ends with a null entry). */
  const MAX_OPTIONS: nat := 9
  const MAX_VALUES: nat := 5
  /** Capacity of the register arrays for the global and per-port tables. */
  const GLOBAL_CONFIG_MAX_MAPPINGS: nat := 7
  const PORT_MAX_MAPPINGS: nat := 10

  /** A value a masked register can hold, and its name. */
  datatype ConfigValue = ConfigValue(value: bv8, valueDescription: string)
  /** A setting held in the bits `mask` of a register. */
  datatype ConfigOption = ConfigOption(mask: bv8, description: string, values: seq<ConfigValue>)
  /** A register: its address (relative to the port for the port table), a title and its settings. */
  datatype ConfigBase = ConfigBase(baseAddr: nat, title: string, options: seq<ConfigOption>)

  /** The entries before the null terminators fit their arrays, leaving room for the terminator. */
  predicate Terminated(table: seq<ConfigBase>, capacity: nat)
  {
    |table| < capacity
    && (forall r :: 0 <= r < |table| ==> |table[r].options| < MAX_OPTIONS)
    && (forall r, o :: 0 <= r < |table| && 0 <= o < |table[r].options| ==> |table[r].options[o].values| < MAX_VALUES)
  }

  function TrueFalse(mask: bv8): seq<ConfigValue>
  {
    [ConfigValue(mask, "True"), ConfigValue(0x00, "False")]
  }

  /** The option "Fast Aging" of Global Control 1 as the firmware lists it: value 0x01 under mask 0x02. */
  const FAST_AGING_AS_WRITTEN: ConfigOption :=
    ConfigOption(0x2, "Fast Aging", [ConfigValue(0x01, "True"), ConfigValue(0x02, "False")])

  /** The same option with the values every other one-bit option uses: the bit set means "True". */
  const FAST_AGING: ConfigOption := ConfigOption(0x2, "Fast Aging", TrueFalse(0x02))

  // The global registers.
  const GLOBAL_SWITCH_INFORMATION: ConfigBase := ConfigBase(0x01, "Global Switch Information", [
    ConfigOption(0xF0, "Chip ID", [ConfigValue(0x40, "KSZ8895MQX/FQX/ML"), ConfigValue(0x60, "KSZ8895RQX")]),
    ConfigOption(0x01, "Switch State", [ConfigValue(0x01, "Started"), ConfigValue(0x00, "Stopped")])])
  function GlobalControl1(fastAging: ConfigOption): ConfigBase
  {
    ConfigBase(0x03, "Global Control 1", [
      ConfigOption(0x80, "Pass All Frames", TrueFalse(0x80)),
      ConfigOption(0x40, "2K Byte Support", TrueFalse(0x40)),
      ConfigOption(0x20, "TX Flow Control Disable", TrueFalse(0x20)),
      ConfigOption(0x10, "RX Flow Control Disable", TrueFalse(0x10)),
      ConfigOption(0x8, "Frame Length Field Check", TrueFalse(0x08)),
      fastAging,
      ConfigOption(0x1, "Agressive Back-Off", TrueFalse(0x01))])
  }
  const GLOBAL_CONTROL_3: ConfigBase := ConfigBase(0x05, "Global Control 3", [
    ConfigOption(0x80, "802.1Q VLANs Enabled", TrueFalse(0x80)),
    ConfigOption(0x1, "Sniff Mode Select", TrueFalse(0x01))])
  const GLOBAL_CONTROL_9: ConfigBase := ConfigBase(0x0B, "Global Control 9", [
    ConfigOption(0x2, "LED Mode", [ConfigValue(0x02, "Mode 1"), ConfigValue(0x00, "Mode 0")]),
    ConfigOption(0x1, "SPI Read Trigger", [ConfigValue(0x01, "Rising Edge"), ConfigValue(0x00, "Falling Edge")])])
  const GLOBAL_CONTROL_10: ConfigBase := ConfigBase(0x0C, "Global Control 10", [
    ConfigOption(0x30, "CPU Interface Speed",
      [ConfigValue(0x00, "41.67 MHz"), ConfigValue(0x10, "83.33 MHz"), ConfigValue(0x20, "125 MHz")])])
  const POWER_MANAGEMENT: ConfigBase := ConfigBase(0x0E, "Power Management", [
    ConfigOption(0x18, "Power Management Mode",
      [ConfigValue(0x00, "Normal Mode"), ConfigValue(0x08, "Energy Detection Mode"),
       ConfigValue(0x10, "Soft Power Down Mode"), ConfigValue(0x18, "Power Saving Mode")])])

  /** The global register table, with the given "Fast Aging" option. */
  function GlobalConfig(fastAging: ConfigOption): seq<ConfigBase>
  {
    [GLOBAL_SWITCH_INFORMATION, GlobalControl1(fastAging), GLOBAL_CONTROL_3, GLOBAL_CONTROL_9, GLOBAL_CONTROL_10, POWER_MANAGEMENT]
  }

  const GLOBAL_CONFIG_AS_WRITTEN: seq<ConfigBase> := GlobalConfig(FAST_AGING_AS_WRITTEN)
  const GLOBAL_CONFIG: seq<ConfigBase> := GlobalConfig(FAST_AGING)

  // The per-port registers, addressed relative to the port's base address.
  const PORT_CONTROL_0: ConfigBase := ConfigBase(0x00, "Port Control 0", [
    ConfigOption(0x80, "Broadcast Storm Protection", TrueFalse(0x80))])
  const PORT_CONTROL_1: ConfigBase := ConfigBase(0x01, "Port Control 1", [
    ConfigOption(0x80, "Sniffer Port", TrueFalse(0x80)),
    ConfigOption(0x40, "Sniffing RX", TrueFalse(0x40)),
    ConfigOption(0x20, "Sniffing TX", TrueFalse(0x20))])
  const PORT_CONTROL_2: ConfigBase := ConfigBase(0x02, "Port Control 2", [
    ConfigOption(0x2, "Transmit Enabled", TrueFalse(0x02)),
    ConfigOption(0x1, "Receive Enabled", TrueFalse(0x01))])
  const PORT_STATUS_0: ConfigBase := ConfigBase(0x09, "Port Status 0", [
    ConfigOption(0x80, "MDI/MDI-X Mode", [ConfigValue(0x80, "HP Auto MDI/MDI-X"), ConfigValue(0x00, "Micrel Auto MDI/MDI-X")]),
    ConfigOption(0x20, "Polarity", [ConfigValue(0x20, "Reversed"), ConfigValue(0x00, "Not Reversed")]),
    ConfigOption(0x10, "TX Flow Control", [ConfigValue(0x10, "Active"), ConfigValue(0x00, "Disabled")]),
    ConfigOption(0x8, "RX Flow Control", [ConfigValue(0x08, "Active"), ConfigValue(0x00, "Disabled")]),
    ConfigOption(0x4, "Port Speed", [ConfigValue(0x04, "100 Mbps"), ConfigValue(0x00, "10 Mbps")]),
    ConfigOption(0x2, "Port Duplex Mode", [ConfigValue(0x02, "Full"), ConfigValue(0x00, "Half")])])
  const PORT_CONTROL_5: ConfigBase := ConfigBase(0x0C, "Port Control 5", [
    ConfigOption(0x80, "Auto-Negotiation", [ConfigValue(0x80, "Disabled"), ConfigValue(0x00, "Enabled")]),
    ConfigOption(0x40, "Forced Speed (AN must be Disabled)", [ConfigValue(0x40, "100 Mbps"), ConfigValue(0x00, "10 Mbps")]),
    ConfigOption(0x20, "Forced Duplex (AN must be Disabled)", [ConfigValue(0x20, "Full"), ConfigValue(0x00, "Half")])])
  const PORT_CONTROL_6: ConfigBase := ConfigBase(0x0D, "Port Control 6", [
    ConfigOption(0x80, "LEDs Disabled", TrueFalse(0x80)),
    ConfigOption(0x8, "Port State", [ConfigValue(0x08, "Administratively Disabled"), ConfigValue(0x00, "ON")]),
    ConfigOption(0x4, "Auto MDI/MDI-X", [ConfigValue(0x04, "Disabled"), ConfigValue(0x00, "Enabled")])])
  const PORT_STATUS_1: ConfigBase := ConfigBase(0x0E, "Port Status 1", [
    ConfigOption(0x80, "MDIX Status", [ConfigValue(0x80, "Port using MDI"), ConfigValue(0x00, "Port using MDI-X")]),
    ConfigOption(0x40, "Auto-Negotiation State", [ConfigValue(0x40, "Done"), ConfigValue(0x00, "In-Progress")]),
    ConfigOption(0x20, "Link Status", [ConfigValue(0x20, "Connected"), ConfigValue(0x00, "Disconnected")])])

  const PORT_CONFIG: seq<ConfigBase> :=
    [PORT_CONTROL_0, PORT_CONTROL_1, PORT_CONTROL_2, PORT_STATUS_0, PORT_CONTROL_5, PORT_CONTROL_6, PORT_STATUS_1]

  // ---------------------------------------------------------------------------
  // Decoding one option
  // ---------------------------------------------------------------------------

  /** The first of `values[from..]` equal to `masked`, if any. */
  function FirstMatch(values: seq<ConfigValue>, masked: bv8, from: nat): (k: Option<nat>)
    requires from <= |values|
    ensures k.Some? ==> (from <= k.value < |values| && values[k.value].value == masked
      && forall j :: from <= j < k.value ==> values[j].value != masked)
    ensures k.None? ==> forall j :: from <= j < |values| ==> values[j].value != masked
    decreases |values| - from
  {
    if from == |values| then None
    else if values[from].value == masked then Some(from)
    else FirstMatch(values, masked, from + 1)
  }

  function Blanks(n: nat): (s: string)
    ensures |s| == n && forall i :: 0 <= i < n ==> s[i] == ' '
  {
    seq(n, _ => ' ')
  }

  /**
   * The text printed for option `o` when its register holds `data`, the value
   * column starting `width` characters after the tab and the colon.
   */
  function OptionLine(o: ConfigOption, data: bv8, width: nat): (line: string)
    requires |o.description| <= width
    ensures |line| > |o.description| + 2 && line[0] == '\t' && line[|line| - 1] == '\n'
  {
    OptionText(o, FirstMatch(o.values, data & o.mask, 0), width)
  }

  /** The text printed for option `o` when the value search ended on `found`. */
  function OptionText(o: ConfigOption, found: Option<nat>, width: nat): string
    requires |o.description| <= width && (found.Some? ==> found.value < |o.values|)
  {
    var head := "\t" + o.description + ":";
    match found
    case Some(k) => head + Blanks(width - |o.description|) + o.values[k].valueDescription + "\n"
    case None => head + "\n"
  }

  /**
   * Alignment: when a listed value equals the masked byte, the line is the
   * tab, the description, the colon and blanks up to column `width + 2`,
   * then the first such value's name; otherwise the description is followed
   * by the newline alone.
   */
  lemma ValueColumnAligned(o: ConfigOption, data: bv8, width: nat)
    requires |o.description| <= width
    ensures var m := FirstMatch(o.values, data & o.mask, 0); var line := OptionLine(o, data, width);
      (m.Some? ==>
         line[..width + 2] == "\t" + o.description + ":" + Blanks(width - |o.description|)
         && line[width + 2..] == o.values[m.value].valueDescription + "\n")
      && (m.None? ==> line == "\t" + o.description + ":\n")
  {
    var m := FirstMatch(o.values, data & o.mask, 0);
    if m.Some? {
      MatchedLine(o, data, width, m.value);
    } else {
      assert "\t" + o.description + ":" + "\n" == "\t" + o.description + ":\n";
    }
  }

  lemma MatchedLine(o: ConfigOption, data: bv8, width: nat, k: nat)
    requires |o.description| <= width && FirstMatch(o.values, data & o.mask, 0) == Some(k)
    ensures var line := OptionLine(o, data, width);
      line[..width + 2] == "\t" + o.description + ":" + Blanks(width - |o.description|)
      && line[width + 2..] == o.values[k].valueDescription + "\n"
  {
    var pad := "\t" + o.description + ":" + Blanks(width - |o.description|);
    var rest := o.values[k].valueDescription + "\n";
    assert |pad| == width + 2;
    assert OptionLine(o, data, width) == pad + rest;
  }

  // ---------------------------------------------------------------------------
  // The whole report
  // ---------------------------------------------------------------------------

  /** The longest description among the options of the first `n` entries of `options`. */
  function LongestOption(options: seq<ConfigOption>, n: nat): (w: nat)
    requires n <= |options|
    ensures forall o :: 0 <= o < n ==> |options[o].description| <= w
  {
    if n == 0 then 0
    else
      var w := LongestOption(options, n - 1);
      if |options[n - 1].description| > w then |options[n - 1].description| else w
  }

  /** The longest option description among the first `n` registers. */
  function Longest(table: seq<ConfigBase>, n: nat): (w: nat)
    requires n <= |table|
    ensures forall r, o :: 0 <= r < n && 0 <= o < |table[r].options| ==> |table[r].options[o].description| <= w
  {
    if n == 0 then 0
    else
      var w := Longest(table, n - 1);
      var v := LongestOption(table[n - 1].options, |table[n - 1].options|);
      if v > w then v else w
  }

  /** The width of the description column: the longest description plus two. */
  function Width(table: seq<ConfigBase>): nat
  {
    Longest(table, |table|) + 2
  }

  /** The lines for the first `n` options of register `reg` holding `data`. */
  function RegisterLines(reg: ConfigBase, data: bv8, width: nat, n: nat): (lines: seq<string>)
    requires n <= |reg.options|
    requires forall o :: 0 <= o < |reg.options| ==> |reg.options[o].description| <= width
    ensures |lines| == n
  {
    if n == 0 then [] else RegisterLines(reg, data, width, n - 1) + [OptionLine(reg.options[n - 1], data, width)]
  }

  /** The lines for the first `n` registers, register `r` read at address `baseAddr + offset`. */
  function ReportLines(table: seq<ConfigBase>, offset: nat, read: nat -> bv8, width: nat, n: nat): seq<string>
    requires n <= |table|
    requires forall r, o :: 0 <= r < |table| && 0 <= o < |table[r].options| ==> |table[r].options[o].description| <= width
  {
    if n == 0 then []
    else
      var reg := table[n - 1];
      ReportLines(table, offset, read, width, n - 1) + RegisterLines(reg, read(reg.baseAddr + offset), width, |reg.options|)
  }

  /** The report for a table whose registers are read through `read`. */
  function Report(table: seq<ConfigBase>, offset: nat, read: nat -> bv8): (lines: seq<string>)
    ensures |lines| == OptionsBefore(table, |table|)
  {
    ReportLength(table, offset, read, Width(table), |table|);
    ReportLines(table, offset, read, Width(table), |table|)
  }

  /** Number of options in the first `n` registers. */
  function OptionsBefore(table: seq<ConfigBase>, n: nat): nat
    requires n <= |table|
  {
    if n == 0 then 0 else OptionsBefore(table, n - 1) + |table[n - 1].options|
  }

  /**
   * The report has one line per option, in table order: option `o` of
   * register `r` is line `OptionsBefore(table, r) + o`, decoded from the
   * byte read at that register's address.
   */
  lemma {:induction false} ReportLayout(table: seq<ConfigBase>, offset: nat, read: nat -> bv8, width: nat, n: nat, r: nat, o: nat)
    requires n <= |table|
    requires forall r, o :: 0 <= r < |table| && 0 <= o < |table[r].options| ==> |table[r].options[o].description| <= width
    requires r < n && o < |table[r].options|
    ensures var lines := ReportLines(table, offset, read, width, n);
      |lines| == OptionsBefore(table, n)
      && OptionsBefore(table, r) + o < OptionsBefore(table, n)
      && lines[OptionsBefore(table, r) + o] == OptionLine(table[r].options[o], read(table[r].baseAddr + offset), width)
    decreases n
  {
    var reg := table[n - 1];
    var head := ReportLines(table, offset, read, width, n - 1);
    var tail := RegisterLines(reg, read(reg.baseAddr + offset), width, |reg.options|);
    ReportLength(table, offset, read, width, n - 1);
    ReportLength(table, offset, read, width, n);
    assert ReportLines(table, offset, read, width, n) == head + tail;
    var at := OptionsBefore(table, r) + o;
    assert OptionsBefore(table, n) == |head| + |reg.options|;
    if r < n - 1 {
      ReportLayout(table, offset, read, width, n - 1, r, o);
      assert at < |head|;
      assert (head + tail)[at] == head[at];
    } else {
      RegisterLineAt(reg, read(reg.baseAddr + offset), width, |reg.options|, o);
      assert r == n - 1 && at == |head| + o;
      assert (head + tail)[at] == tail[o];
    }
  }

  lemma {:induction false} ReportLength(table: seq<ConfigBase>, offset: nat, read: nat -> bv8, width: nat, n: nat)
    requires n <= |table|
    requires forall r, o :: 0 <= r < |table| && 0 <= o < |table[r].options| ==> |table[r].options[o].description| <= width
    ensures |ReportLines(table, offset, read, width, n)| == OptionsBefore(table, n)
    decreases n
  {
    if n > 0 {
      ReportLength(table, offset, read, width, n - 1);
    }
  }

  lemma {:induction false} OptionsMonotone(table: seq<ConfigBase>, a: nat, b: nat)
    requires a <= b <= |table|
    ensures OptionsBefore(table, a) <= OptionsBefore(table, b)
    decreases b - a
  {
    if a < b {
      OptionsMonotone(table, a, b - 1);
    }
  }

  lemma {:induction false} RegisterLineAt(reg: ConfigBase, data: bv8, width: nat, n: nat, o: nat)
    requires n <= |reg.options| && o < n
    requires forall o :: 0 <= o < |reg.options| ==> |reg.options[o].description| <= width
    ensures RegisterLines(reg, data, width, n)[o] == OptionLine(reg.options[o], data, width)
    decreases n
  {
    if o < n - 1 {
      RegisterLineAt(reg, data, width, n - 1, o);
    }
  }

  /** The first loop nest: the longest option description over every register. */
  method LongestDescription(table: seq<ConfigBase>) returns (longest: nat)
    ensures longest == Longest(table, |table|)
  {
    longest := 0;
    for reg := 0 to |table|
      invariant longest == Longest(table, reg)
    {
      var options := table[reg].options;
      var widest: nat := 0;
      for option := 0 to |options|
        invariant widest == LongestOption(options, option)
      {
        if |options[option].description| > widest {
          widest := |options[option].description|;
        }
      }
      if widest > longest {
        longest := widest;
      }
    }
  }

  /** The value search: the first listed value equal to the masked byte. */
  method FindValue(values: seq<ConfigValue>, masked: bv8) returns (found: Option<nat>)
    ensures found == FirstMatch(values, masked, 0)
  {
    var value := 0;
    while value < |values| && values[value].value != masked
      invariant value <= |values|
      invariant forall j :: 0 <= j < value ==> values[j].value != masked
    {
      value := value + 1;
    }
    found := if value == |values| then None else Some(value);
  }

  /** One option: the description, then the blanks and the first value equal to the masked byte, or the newline alone. */
  method DecodeOption(o: ConfigOption, data: bv8, width: nat) returns (line: string)
    requires |o.description| <= width
    ensures line == OptionLine(o, data, width)
  {
    var found := FindValue(o.values, data & o.mask);
    line := OptionText(o, found, width);
  }

  /** The report loops: the widest description first, then one line per option of every register, read once each. */
  method ShowStatus(table: seq<ConfigBase>, offset: nat, read: nat -> bv8) returns (lines: seq<string>)
    ensures lines == Report(table, offset, read)
  {
    var longest := LongestDescription(table);
    var width := longest + 2;
    lines := [];
    for reg := 0 to |table|
      invariant lines == ReportLines(table, offset, read, width, reg)
    {
      var r := table[reg];
      var data := read(r.baseAddr + offset);
      ghost var before := lines;
      for option := 0 to |r.options|
        invariant lines == before + RegisterLines(r, data, width, option)
      {
        var line := DecodeOption(r.options[option], data, width);
        lines := lines + [line];
      }
    }
  }

  /** The per-port report: the port registers read at the port's base address plus their offsets. */
  method ShowPortStatus(portAddr: nat, read: nat -> bv8) returns (lines: seq<string>)
    ensures lines == Report(PORT_CONFIG, portAddr, read)
  {
    lines := ShowStatus(PORT_CONFIG, portAddr, read);
  }

  /** The global report as the firmware prints it: the global registers, as listed, read at their own addresses. */
  method ShowGlobalStatus(read: nat -> bv8) returns (lines: seq<string>)
    ensures lines == Report(GLOBAL_CONFIG_AS_WRITTEN, 0, read)
  {
    lines := ShowStatus(GLOBAL_CONFIG_AS_WRITTEN, 0, read);
  }

  /** The global report with "Fast Aging" listed like every other one-bit option. */
  method ShowGlobalStatusCorrected(read: nat -> bv8) returns (lines: seq<string>)
    ensures lines == Report(GLOBAL_CONFIG, 0, read)
  {
    lines := ShowStatus(GLOBAL_CONFIG, 0, read);
  }

  // ---------------------------------------------------------------------------
  // Facts about the tables
  // ---------------------------------------------------------------------------

  /** Every table leaves room for its null terminators, so the loops stop at them. */
  lemma TablesTerminated()
    ensures Terminated(GLOBAL_CONFIG, GLOBAL_CONFIG_MAX_MAPPINGS)
    ensures Terminated(GLOBAL_CONFIG_AS_WRITTEN, GLOBAL_CONFIG_MAX_MAPPINGS)
    ensures Terminated(PORT_CONFIG, PORT_MAX_MAPPINGS)
  {
  }

  /** The longest description of each port register. */
  lemma PortOptionWidths()
    ensures LongestOption(PORT_CONTROL_0.options, 1) == 26
    ensures LongestOption(PORT_CONTROL_1.options, 3) == 12
    ensures LongestOption(PORT_CONTROL_2.options, 2) == 16
    ensures LongestOption(PORT_STATUS_0.options, 6) == 16
    ensures LongestOption(PORT_CONTROL_5.options, 3) == 35
    ensures LongestOption(PORT_CONTROL_6.options, 3) == 14
    ensures LongestOption(PORT_STATUS_1.options, 3) == 22
  {
  }

  /** The description column of the port report: the longest description has 35 characters. */
  lemma PortReportWidth()
    ensures Width(PORT_CONFIG) == 37
  {
    PortOptionWidths();
    assert Longest(PORT_CONFIG, 1) == 26;
    assert Longest(PORT_CONFIG, 2) == 26;
    assert Longest(PORT_CONFIG, 3) == 26;
    assert Longest(PORT_CONFIG, 4) == 26;
    assert Longest(PORT_CONFIG, 5) == 35;
    assert Longest(PORT_CONFIG, 6) == 35;
  }

  /** The longest description of each global register. */
  lemma GlobalOptionWidths()
    ensures LongestOption(GLOBAL_SWITCH_INFORMATION.options, 2) == 12
    ensures LongestOption(GlobalControl1(FAST_AGING).options, 7) == 24
    ensures LongestOption(GlobalControl1(FAST_AGING_AS_WRITTEN).options, 7) == 24
    ensures LongestOption(GLOBAL_CONTROL_3.options, 2) == 20
    ensures LongestOption(GLOBAL_CONTROL_9.options, 2) == 16
    ensures LongestOption(GLOBAL_CONTROL_10.options, 1) == 19
    ensures LongestOption(POWER_MANAGEMENT.options, 1) == 21
  {
  }

  /** The description column of the global report, as listed and corrected: the longest description has 24 characters. */
  lemma GlobalReportWidth()
    ensures Width(GLOBAL_CONFIG) == 26
    ensures Width(GLOBAL_CONFIG_AS_WRITTEN) == 26
  {
    GlobalOptionWidths();
    assert Longest(GLOBAL_CONFIG, 1) == 12;
    assert Longest(GLOBAL_CONFIG, 2) == 24;
    assert Longest(GLOBAL_CONFIG, 3) == 24;
    assert Longest(GLOBAL_CONFIG, 4) == 24;
    assert Longest(GLOBAL_CONFIG, 5) == 24;
    assert Longest(GLOBAL_CONFIG_AS_WRITTEN, 1) == 12;
    assert Longest(GLOBAL_CONFIG_AS_WRITTEN, 2) == 24;
    assert Longest(GLOBAL_CONFIG_AS_WRITTEN, 3) == 24;
    assert Longest(GLOBAL_CONFIG_AS_WRITTEN, 4) == 24;
    assert Longest(GLOBAL_CONFIG_AS_WRITTEN, 5) == 24;
  }

  /** Every value listed for the register's options lies within the option's mask. */
  predicate RegisterWithinMask(reg: ConfigBase)
  {
    forall o :: 0 <= o < |reg.options| ==> OptionWithinMask(reg.options[o])
  }

  /** Every value listed for the option lies within its mask. */
  predicate OptionWithinMask(o: ConfigOption)
  {
    forall v :: 0 <= v < |o.values| ==> o.values[v].value & o.mask == o.values[v].value
  }

  /** Every listed value lies within its option's mask, so some register byte shows it. */
  predicate ValuesWithinMask(table: seq<ConfigBase>)
  {
    forall r :: 0 <= r < |table| ==> RegisterWithinMask(table[r])
  }

  /** A value within the mask is shown for the byte equal to it, unless an earlier entry lists the same value. */
  lemma ListedValueShown(o: ConfigOption, v: nat)
    requires v < |o.values| && o.values[v].value & o.mask == o.values[v].value
    requires forall j :: 0 <= j < v ==> o.values[j].value != o.values[v].value
    ensures FirstMatch(o.values, o.values[v].value & o.mask, 0) == Some(v)
  {
  }

  /** A one-setting option: the mask itself names the setting on, zero names it off. */
  predicate OnOff(o: ConfigOption)
  {
    |o.values| == 2 && o.values[0].value == o.mask && o.values[1].value == 0
  }

  lemma OnOffWithinMask(reg: ConfigBase)
    requires forall o :: 0 <= o < |reg.options| ==> OnOff(reg.options[o])
    ensures RegisterWithinMask(reg)
  {
    forall o | 0 <= o < |reg.options|
      ensures OptionWithinMask(reg.options[o])
    {
      var m := reg.options[o].mask;
      assert m & m == m && 0 & m == 0;
    }
  }

  lemma ChipIdWithinMask()
    ensures RegisterWithinMask(GLOBAL_SWITCH_INFORMATION)
  {
    var o := GLOBAL_SWITCH_INFORMATION.options;
    assert OptionWithinMask(o[0]) by {
      assert o[0].values[0].value & 0xF0 == 0x40 && o[0].values[1].value & 0xF0 == 0x60;
    }
    assert OptionWithinMask(o[1]);
  }

  lemma FieldOptionsWithinMask()
    ensures RegisterWithinMask(GLOBAL_CONTROL_10) && RegisterWithinMask(POWER_MANAGEMENT)
  {
    assert OptionWithinMask(GLOBAL_CONTROL_10.options[0]);
    assert OptionWithinMask(POWER_MANAGEMENT.options[0]);
  }

  lemma GlobalRegistersWithinMask()
    ensures RegisterWithinMask(GLOBAL_SWITCH_INFORMATION) && RegisterWithinMask(GlobalControl1(FAST_AGING))
    ensures RegisterWithinMask(GLOBAL_CONTROL_3) && RegisterWithinMask(GLOBAL_CONTROL_9)
    ensures RegisterWithinMask(GLOBAL_CONTROL_10) && RegisterWithinMask(POWER_MANAGEMENT)
  {
    ChipIdWithinMask();
    FieldOptionsWithinMask();
    OnOffWithinMask(GlobalControl1(FAST_AGING));
    OnOffWithinMask(GLOBAL_CONTROL_3);
    OnOffWithinMask(GLOBAL_CONTROL_9);
  }

  lemma PortRegistersWithinMask()
    ensures RegisterWithinMask(PORT_CONTROL_0) && RegisterWithinMask(PORT_CONTROL_1)
    ensures RegisterWithinMask(PORT_CONTROL_2) && RegisterWithinMask(PORT_STATUS_0)
    ensures RegisterWithinMask(PORT_CONTROL_5) && RegisterWithinMask(PORT_CONTROL_6)
    ensures RegisterWithinMask(PORT_STATUS_1)
  {
    OnOffWithinMask(PORT_CONTROL_0);
    OnOffWithinMask(PORT_CONTROL_1);
    OnOffWithinMask(PORT_CONTROL_2);
    OnOffWithinMask(PORT_STATUS_0);
    OnOffWithinMask(PORT_CONTROL_5);
    OnOffWithinMask(PORT_CONTROL_6);
    OnOffWithinMask(PORT_STATUS_1);
  }

  /** The corrected tables list only values their masks can produce. */
  lemma TablesWithinMasks()
    ensures ValuesWithinMask(GLOBAL_CONFIG)
    ensures ValuesWithinMask(PORT_CONFIG)
  {
    GlobalRegistersWithinMask();
    PortRegistersWithinMask();
  }

  /**
   * As written, "Fast Aging" never shows "True": with bit 1 set the masked
   * byte is 0x02 and shows "False"; with it clear no value matches and only
   * the newline follows the description.
   */
  lemma FastAgingNeverTrue(data: bv8)
    ensures FirstMatch(FAST_AGING_AS_WRITTEN.values, data & FAST_AGING_AS_WRITTEN.mask, 0)
      == if data & 0x02 == 0x02 then Some(1) else None
    ensures !ValuesWithinMask(GLOBAL_CONFIG_AS_WRITTEN)
  {
    assert GLOBAL_CONFIG_AS_WRITTEN[1].options[5] == FAST_AGING_AS_WRITTEN;
    assert FAST_AGING_AS_WRITTEN.values[0].value & FAST_AGING_AS_WRITTEN.mask != FAST_AGING_AS_WRITTEN.values[0].value;
  }

  /** Corrected, "Fast Aging" names a value for every byte: "True" exactly when bit 1 is set. */
  lemma FastAgingDecodes(data: bv8)
    ensures FirstMatch(FAST_AGING.values, data & FAST_AGING.mask, 0) == if data & 0x02 == 0x02 then Some(0) else Some(1)
    ensures GLOBAL_CONFIG[1].options[5] == FAST_AGING
  {
  }

  /** The global report has 15 lines, two of them before Global Control 1. */
  lemma GlobalOptionCounts(fastAging: ConfigOption)
    ensures OptionsBefore(GlobalConfig(fastAging), 1) == 2
    ensures OptionsBefore(GlobalConfig(fastAging), 6) == 15
  {
    var table := GlobalConfig(fastAging);
    assert |table[0].options| == 2 && |table[1].options| == 7;
    assert OptionsBefore(table, 1) == 2;
    assert OptionsBefore(table, 2) == 9;
    assert OptionsBefore(table, 3) == 11;
    assert OptionsBefore(table, 4) == 13;
    assert OptionsBefore(table, 5) == 14;
  }

  /** Either listing of Fast Aging puts it on line 7 of the 15-line global report. */
  lemma GlobalFastAgingLine(fastAging: ConfigOption, read: nat -> bv8)
    requires fastAging == FAST_AGING_AS_WRITTEN || fastAging == FAST_AGING
    ensures var lines := Report(GlobalConfig(fastAging), 0, read);
      |lines| == 15 && lines[7] == OptionLine(fastAging, read(0x03), 26)
  {
    var table := GlobalConfig(fastAging);
    GlobalReportWidth();
    GlobalOptionCounts(fastAging);
    assert table[1].options[5] == fastAging && table[1].baseAddr == 0x03;
    ReportLayout(table, 0, read, 26, 6, 1, 5);
  }

  /** The text of the Fast Aging line in a 26-character description column, as listed and corrected. */
  lemma FastAgingLineText(data: bv8)
    ensures OptionLine(FAST_AGING_AS_WRITTEN, data, 26) ==
      if data & 0x02 == 0x02 then "\t" + "Fast Aging" + ":" + Blanks(16) + "False" + "\n"
      else "\t" + "Fast Aging" + ":" + "\n"
    ensures OptionLine(FAST_AGING, data, 26) ==
      "\t" + "Fast Aging" + ":" + Blanks(16) + (if data & 0x02 == 0x02 then "True" else "False") + "\n"
  {
    FastAgingNeverTrue(data);
    FastAgingDecodes(data);
  }

  /**
   * The Fast Aging line of the global report: line 7, after the two Switch
   * Information lines and five Global Control 1 options, decoded from the
   * byte at address 0x03. As listed it reads "False" when bit 1 is set and
   * shows no value otherwise; corrected, "True" when bit 1 is set and
   * "False" otherwise.
   */
  lemma FastAgingReportLine(read: nat -> bv8)
    ensures var lines := Report(GLOBAL_CONFIG_AS_WRITTEN, 0, read);
      |lines| == 15 &&
      lines[7] == if read(0x03) & 0x02 == 0x02 then "\t" + "Fast Aging" + ":" + Blanks(16) + "False" + "\n"
                  else "\t" + "Fast Aging" + ":" + "\n"
    ensures var lines := Report(GLOBAL_CONFIG, 0, read);
      |lines| == 15 &&
      lines[7] == "\t" + "Fast Aging" + ":" + Blanks(16) + (if read(0x03) & 0x02 == 0x02 then "True" else "False") + "\n"
  {
    FastAgingLineText(read(0x03));
    GlobalFastAgingLine(FAST_AGING_AS_WRITTEN, read);
    GlobalFastAgingLine(FAST_AGING, read);
  }
}
