// What the console dispatcher guarantees for every line and every user, and
// what it does on a few representative command lines of the switch's grammar.

module DispatchProperties {
  import opened SystemTypes
  import opened Grammar
  import opened Interpreter

  /** The slots of an outcome that the handler sees as non-NULL all lie below `limit`. */
  predicate SlotsBelow(o: Outcome, limit: nat)
  {
    o.Executed? ==> |o.params| == MAX_PARAMS && forall m :: limit <= m < MAX_PARAMS ==> o.params[m] == None
  }

  // ---------------------------------------------------------------------------
  // In a well-formed grammar the walk always ends in a defined answer
  // ---------------------------------------------------------------------------

  lemma {:induction false} WalkAnswers(tokens: seq<string>, perm: PermLevel, menu: seq<Command>, i: nat,
                                       found: bool, bound: seq<Option<string>>, height: nat, budget: nat)
    requires WellFormedMenu(menu, height, budget)
    requires i + height <= MAX_DEPTH_INHERITANCE && |bound| + budget <= 4
    ensures var o := Walk(tokens, perm, menu, i, found, bound);
      o != Undefined && o != NoResponse && SlotsBelow(o, 4)
    decreases MAX_DEPTH_INHERITANCE - i, MAX_MENU_ITEMS + 1
  {
    ScanAnswers(tokens, perm, menu, i, 0, found, bound, height, budget);
  }

  lemma {:induction false} ScanAnswers(tokens: seq<string>, perm: PermLevel, menu: seq<Command>, i: nat, j: nat,
                                       found: bool, bound: seq<Option<string>>, height: nat, budget: nat)
    requires WellFormedMenu(menu, height, budget) && j < |menu|
    requires i + height <= MAX_DEPTH_INHERITANCE && |bound| + budget <= 4
    ensures var o := Scan(tokens, perm, menu, i, j, found, bound);
      o != Undefined && o != NoResponse && SlotsBelow(o, 4)
    decreases MAX_DEPTH_INHERITANCE - i, MAX_MENU_ITEMS - j
  {
    MenuEntry(menu, height, budget, j);
    if menu[j].Entry? {
      if Matches(menu[j], tokens, i) {
        TakeAnswers(tokens, perm, menu[j], i, bound, height, budget);
      } else if !IsHelpRequest(tokens, i) {
        ScanAnswers(tokens, perm, menu, i, j + 1, found, bound, height, budget);
      }
    }
  }

  lemma {:induction false} TakeAnswers(tokens: seq<string>, perm: PermLevel, c: Command, i: nat,
                                       bound: seq<Option<string>>, height: nat, budget: nat)
    requires c.Entry? && i < |tokens| && i + height <= MAX_DEPTH_INHERITANCE && |bound| + budget <= 4
    requires c.paramsRequired <= budget && height >= 1
    requires c.isExecutable <==> c.childCommand.None?
    requires c.childCommand.Some? ==> height > 1 && WellFormedMenu(c.childCommand.value, height - 1, budget - c.paramsRequired)
    ensures var o := Take(tokens, perm, c, i, bound);
      o != Undefined && o != NoResponse && SlotsBelow(o, 4)
    decreases MAX_DEPTH_INHERITANCE - i, 0
  {
    var bound' := bound + Bind(c, tokens[i]);
    if c.childCommand.Some? {
      WalkAnswers(tokens, perm, c.childCommand.value, i + 1, true, bound', height - 1, budget - c.paramsRequired);
    }
  }

  /**
   * Every line gets an answer: the walk never runs off a table, never follows
   * a missing child and never exhausts MAX_DEPTH_INHERITANCE, and a handler
   * never sees more than four bound slots.
   */
  lemma DispatchAlwaysAnswers(tokens: seq<string>, perm: PermLevel)
    ensures var o := Dispatch(tokens, perm);
      o != Undefined && o != NoResponse && SlotsBelow(o, 4)
  {
    if tokens != [] {
      GrammarWellFormed();
      WalkAnswers(tokens, perm, ROOT, 0, false, [], 5, 4);
    }
  }

  // ---------------------------------------------------------------------------
  // The active user's permission only gates execution and marks help
  // ---------------------------------------------------------------------------

  /** The outcomes whose form depends on who is logged in. */
  predicate PermissionSensitive(o: Outcome)
  {
    o.Executed? || o.Unauthorized? || o.Help?
  }

  lemma {:induction false} WalkPermission(tokens: seq<string>, p: PermLevel, q: PermLevel, menu: seq<Command>,
                                          i: nat, found: bool, bound: seq<Option<string>>)
    ensures var op, oq := Walk(tokens, p, menu, i, found, bound), Walk(tokens, q, menu, i, found, bound);
      && (!PermissionSensitive(op) && op != Undefined ==> oq == op)
      && (op.Executed? && Level(p) <= Level(q) ==> oq == op)
      && (op.Unauthorized? && q == Administrator ==> oq.Executed? || oq == Undefined)
      && (op.Help? <==> oq.Help?)
    decreases MAX_DEPTH_INHERITANCE - i, MAX_MENU_ITEMS + 1
  {
    if i < MAX_DEPTH_INHERITANCE {
      ScanPermission(tokens, p, q, menu, i, 0, found, bound);
    }
  }

  lemma {:induction false} ScanPermission(tokens: seq<string>, p: PermLevel, q: PermLevel, menu: seq<Command>,
                                          i: nat, j: nat, found: bool, bound: seq<Option<string>>)
    requires i < MAX_DEPTH_INHERITANCE
    ensures var op, oq := Scan(tokens, p, menu, i, j, found, bound), Scan(tokens, q, menu, i, j, found, bound);
      && (!PermissionSensitive(op) && op != Undefined ==> oq == op)
      && (op.Executed? && Level(p) <= Level(q) ==> oq == op)
      && (op.Unauthorized? && q == Administrator ==> oq.Executed? || oq == Undefined)
      && (op.Help? <==> oq.Help?)
    decreases MAX_DEPTH_INHERITANCE - i, MAX_MENU_ITEMS - j
  {
    if j >= MAX_MENU_ITEMS {
      WalkPermission(tokens, p, q, menu, i + 1, found, bound);
    } else if j < |menu| && menu[j].Entry? {
      if Matches(menu[j], tokens, i) {
        TakePermission(tokens, p, q, menu[j], i, bound);
      } else if !IsHelpRequest(tokens, i) {
        ScanPermission(tokens, p, q, menu, i, j + 1, found, bound);
      }
    }
  }

  lemma {:induction false} TakePermission(tokens: seq<string>, p: PermLevel, q: PermLevel, c: Command, i: nat,
                                          bound: seq<Option<string>>)
    requires c.Entry? && i < |tokens| && i < MAX_DEPTH_INHERITANCE
    ensures var op, oq := Take(tokens, p, c, i, bound), Take(tokens, q, c, i, bound);
      && (!PermissionSensitive(op) && op != Undefined ==> oq == op)
      && (op.Executed? && Level(p) <= Level(q) ==> oq == op)
      && (op.Unauthorized? && q == Administrator ==> oq.Executed? || oq == Undefined)
      && (op.Help? <==> oq.Help?)
    decreases MAX_DEPTH_INHERITANCE - i, 0
  {
    if !c.isExecutable && c.childCommand.Some? {
      WalkPermission(tokens, p, q, c.childCommand.value, i + 1, true, bound + Bind(c, tokens[i]));
    }
  }

  /** Whatever runs for a user runs, with the same slots, for every more privileged user. */
  lemma MorePrivilegeKeepsExecution(tokens: seq<string>, p: PermLevel, q: PermLevel)
    requires Level(p) <= Level(q) && Dispatch(tokens, p).Executed?
    ensures Dispatch(tokens, q) == Dispatch(tokens, p)
  {
    WalkPermission(tokens, p, q, ROOT, 0, false, []);
  }

  /** A refusal is only ever about privilege: the same line runs for an Administrator, who is never refused. */
  lemma UnauthorizedOnlyForLackOfPrivilege(tokens: seq<string>, p: PermLevel)
    requires Dispatch(tokens, p) == Unauthorized
    ensures Dispatch(tokens, Administrator).Executed?
    ensures p != Administrator
  {
    WalkPermission(tokens, p, Administrator, ROOT, 0, false, []);
    DispatchAlwaysAnswers(tokens, Administrator);
  }

  /** Rejections for shape (unknown word, incomplete line, extra words) do not depend on the user. */
  lemma ShapeErrorsIgnoreUser(tokens: seq<string>, p: PermLevel, q: PermLevel)
    requires !PermissionSensitive(Dispatch(tokens, p))
    ensures Dispatch(tokens, q) == Dispatch(tokens, p)
  {
    if tokens != [] {
      DispatchAlwaysAnswers(tokens, p);
      WalkPermission(tokens, p, q, ROOT, 0, false, []);
    }
  }

  // ---------------------------------------------------------------------------
  // Representative lines
  // ---------------------------------------------------------------------------

  /** The walk takes the first entry of the menu that matches the word: earlier non-matching entries are passed over. */
  lemma {:induction false} FirstMatchTaken(tokens: seq<string>, perm: PermLevel, menu: seq<Command>, i: nat,
                                           found: bool, bound: seq<Option<string>>, m: nat)
    requires i < MAX_DEPTH_INHERITANCE && m < |menu| && m < MAX_MENU_ITEMS
    requires forall j :: 0 <= j < m ==> menu[j].Entry? && !Matches(menu[j], tokens, i)
    requires !IsHelpRequest(tokens, i)
    requires menu[m].Entry? && Matches(menu[m], tokens, i)
    ensures Walk(tokens, perm, menu, i, found, bound) == Take(tokens, perm, menu[m], i, bound)
  {
    var j := m;
    while j > 0
      invariant 0 <= j <= m
      invariant Scan(tokens, perm, menu, i, j, found, bound) == Take(tokens, perm, menu[m], i, bound)
    {
      ScanSkips(tokens, perm, menu, i, j - 1, found, bound);
      j := j - 1;
    }
    WalkEntersScan(tokens, perm, menu, i, found, bound);
  }

  /** A line that runs out of words inside a menu is incomplete (or unrecognised at the root). */
  lemma {:induction false} LineEndsInsideMenu(tokens: seq<string>, perm: PermLevel, menu: seq<Command>, i: nat,
                                              found: bool, bound: seq<Option<string>>, height: nat, budget: nat)
    requires |tokens| <= i < MAX_DEPTH_INHERITANCE && WellFormedMenu(menu, height, budget)
    ensures Walk(tokens, perm, menu, i, found, bound) == if found then Incomplete(tokens) else NotRecognized
  {
    var j := |menu| - 1;
    MenuEntry(menu, height, budget, j);
    assert tokens[..Min(i, |tokens|)] == tokens;
    while j > 0
      invariant 0 <= j < |menu|
      invariant Scan(tokens, perm, menu, i, j, found, bound) == if found then Incomplete(tokens) else NotRecognized
    {
      MenuEntry(menu, height, budget, j - 1);
      ScanSkips(tokens, perm, menu, i, j - 1, found, bound);
      j := j - 1;
    }
    WalkEntersScan(tokens, perm, menu, i, found, bound);
  }

  /** The root words that lead into the port, system and config menus. */
  lemma RootDescends(tokens: seq<string>, perm: PermLevel)
    requires tokens != []
    ensures tokens[0] == "port" ==> Dispatch(tokens, perm) == Walk(tokens, perm, PortCommands, 1, true, [])
    ensures tokens[0] == "system" ==> Dispatch(tokens, perm) == Walk(tokens, perm, SystemCommands, 1, true, [])
    ensures tokens[0] == "config" ==> Dispatch(tokens, perm) == Walk(tokens, perm, ConfigCommands, 1, true, [])
  {
    if tokens[0] == "port" {
      FirstMatchTaken(tokens, perm, ROOT, 0, false, [], 1);
    } else if tokens[0] == "system" {
      FirstMatchTaken(tokens, perm, ROOT, 0, false, [], 3);
    } else if tokens[0] == "config" {
      FirstMatchTaken(tokens, perm, ROOT, 0, false, [], 4);
    }
  }

  /** "port f0 enable": the port's base register, then the static slots of "enable", in that order. */
  lemma PortEnableBindsInOrder()
    ensures var t := ["port", "f0", "enable"];
      Walk(t, ModifyPortsOnly, PortCommands, 1, true, [])
      == Executed(ClearBitEthernetController,
                  Padded([Some("0x40"), Some("0xD"), Some("0x03"), Some("Enabling Selected Port...")]))
  {
    var t, p := ["port", "f0", "enable"], ModifyPortsOnly;
    FirstMatchTaken(t, p, PortCommands, 1, true, [], 0);
    FirstMatchTaken(t, p, PortOptions, 2, true, [Some("0x40")], 0);
  }

  /** "port f1" binds the port's base register; "vlan" then leads into the VLAN menu. */
  lemma VLANMenuReached(word: string)
    ensures var t := ["port", "f1", "vlan", word];
      Walk(t, ModifyPortsOnly, PortCommands, 1, true, []) == Walk(t, ModifyPortsOnly, VLANSettings, 3, true, [Some("0x30")])
  {
    var t, p := ["port", "f1", "vlan", word], ModifyPortsOnly;
    PortOptionsReached(word);
    FirstMatchTaken(t, p, PortOptions, 2, true, [Some("0x30")], 2);
    assert [Some("0x30")] + Bind(PortOptions[2], "vlan") == [Some("0x30")];
  }

  lemma PortOptionsReached(word: string)
    ensures var t := ["port", "f1", "vlan", word];
      Walk(t, ModifyPortsOnly, PortCommands, 1, true, []) == Walk(t, ModifyPortsOnly, PortOptions, 2, true, [Some("0x30")])
  {
    FirstMatchTaken(["port", "f1", "vlan", word], ModifyPortsOnly, PortCommands, 1, true, [], 1);
    assert [] + Bind(PortCommands[1], "f1") == [Some("0x30")];
  }

  /** Under first match the literals of the VLAN menu win over the vlan-id wildcard that follows them. */
  lemma VLANLiteralBeforeWildcard()
    ensures var t := ["port", "f1", "vlan", "enable"];
      Walk(t, ModifyPortsOnly, PortCommands, 1, true, []) == Executed(EnableVLANS, Padded([Some("0x30")]))
  {
    var t, p := ["port", "f1", "vlan", "enable"], ModifyPortsOnly;
    VLANMenuReached("enable");
    FirstMatchTaken(t, p, VLANSettings, 3, true, [Some("0x30")], 0);
  }

  /** Any other word after "vlan" is taken by the wildcard and bound as the VLAN id. */
  lemma VLANWildcardBindsWord()
    ensures var t := ["port", "f1", "vlan", "42"];
      Walk(t, ModifyPortsOnly, PortCommands, 1, true, []) == Executed(SetPortVLAN, Padded([Some("0x30"), Some("42")]))
  {
    var t, p := ["port", "f1", "vlan", "42"], ModifyPortsOnly;
    VLANMenuReached("42");
    FirstMatchTaken(t, p, VLANSettings, 3, true, [Some("0x30")], 3);
  }

  /** A soft reset needs ModifySystem: a read-only user is refused. */
  lemma ResetNeedsModifySystem()
    ensures Walk(["system", "reset"], ReadOnlyUser, SystemCommands, 1, true, []) == Unauthorized
    ensures Walk(["system", "reset"], ModifySystem, SystemCommands, 1, true, []) == Executed(ResetTivaC, Padded([]))
  {
    var t := ["system", "reset"];
    FirstMatchTaken(t, ReadOnlyUser, SystemCommands, 1, true, [], 8);
    FirstMatchTaken(t, ModifySystem, SystemCommands, 1, true, [], 8);
  }

  /**
   * The global feature switches declare three slots but supply two static
   * values, so the handler finds NULL in the slot it reads the bit number from.
   */
  lemma GlobalFeatureLeavesNullSlot()
    ensures var t := ["system", "large-packets", "enable"];
      Walk(t, ModifySystem, SystemCommands, 1, true, [])
      == Executed(SetBitEthernetController, Padded([Some("0x03"), Some("0x06"), None, Some("Enabling Feature...")]))
  {
    var t, p := ["system", "large-packets", "enable"], ModifySystem;
    FirstMatchTaken(t, p, SystemCommands, 1, true, [], 4);
    FirstMatchTaken(t, p, EnableDisableOptions, 2, true, [Some("0x03"), Some("0x06"), None], 0);
  }

  /** "config delete" binds its single static value, the empty string. */
  lemma ConfigDeleteBindsEmptyString()
    ensures Walk(["config", "delete"], ModifySystem, ConfigCommands, 1, true, [])
      == Executed(DeleteConfig, Padded([Some("")]))
  {
    FirstMatchTaken(["config", "delete"], ModifySystem, ConfigCommands, 1, true, [], 1);
  }

  /** Stopping inside the grammar echoes the words so far. */
  lemma IncompleteLineEchoed(perm: PermLevel)
    ensures Walk(["port", "f0"], perm, PortCommands, 1, true, []) == Incomplete(["port", "f0"])
  {
    var t := ["port", "f0"];
    FirstMatchTaken(t, perm, PortCommands, 1, true, [], 0);
    assert [] + Bind(PortCommands[0], "f0") == [Some("0x40")];
    PortOptionsWellFormed(3, 3);
    LineEndsInsideMenu(t, perm, PortOptions, 2, true, [Some("0x40")], 3, 3);
  }

  /** A word after a terminating fragment rejects the line before permission is looked at. */
  lemma TrailingWordRejectedFirst()
    ensures Walk(["system", "reset", "now"], ReadOnlyUser, SystemCommands, 1, true, []) == TooManyParameters
  {
    FirstMatchTaken(["system", "reset", "now"], ReadOnlyUser, SystemCommands, 1, true, [], 8);
  }

  /** "?" as the second word shows the help of the menu the first word leads to. */
  lemma HelpForCurrentMenu(perm: PermLevel)
    ensures Walk(["port", "?"], perm, PortCommands, 1, true, []) == Help(HelpText(PortCommands, perm))
  {
    WalkEntersScan(["port", "?"], perm, PortCommands, 1, true, []);
  }
}
