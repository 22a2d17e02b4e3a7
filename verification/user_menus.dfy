// The two console menus that edit the user table in place: marking users for
// deletion, and adding a user at the next free slot. Typed keys and lines are
// inputs; the table is the global array of USER_SLOTS records.

module UserMenus {
  import opened SystemTypes
  import opened Authentication
  import opened CommandFunctions

  // ---------------------------------------------------------------------------
  // Delete-users menu
  // ---------------------------------------------------------------------------

  /** Number of named users among the first `n` slots. */
  function NamedAmong(users: seq<UserData>, n: nat): (count: nat)
    requires n <= |users|
    ensures count <= n
    ensures n >= 1 && users[0].username != "" ==> count >= 1
  {
    if n == 0 then 0 else NamedAmong(users, n - 1) + (if users[n - 1].username != "" then 1 else 0)
  }

  /** The menu's state: the table, the highlighted row, and whether the menu still reads keys. */
  datatype UsersMenu = UsersMenu(users: seq<UserData>, cursor: nat, open: bool)

  /** A slot after the confirmation: marked users are to be deleted, other named users rewritten. */
  function Confirmed(u: UserData): UserData
  {
    if u.isMarked then u.(nextAction := Delete)
    else if u.username != "" then u.(nextAction := Update)
    else u
  }

  /** The confirmation pass over the addable slots; the root slot is not visited. */
  function ConfirmDeletions(users: seq<UserData>): (r: seq<UserData>)
    requires |users| == USER_SLOTS
    ensures |r| == USER_SLOTS
  {
    seq(USER_SLOTS, i requires 0 <= i < USER_SLOTS => if i < MAX_USERS then Confirmed(users[i]) else users[i])
  }

  /** One key in a menu of `total` rows: arrows move, Enter toggles the row's mark, 'E' leaves, 'C' confirms. */
  function UsersKey(m: UsersMenu, total: nat, key: char): (r: UsersMenu)
    requires |m.users| == USER_SLOTS && m.cursor < total <= MAX_USERS
    ensures |r.users| == USER_SLOTS && r.cursor < total
  {
    if !m.open then m
    else if IsEnter(key) then m.(users := m.users[m.cursor := m.users[m.cursor].(isMarked := !m.users[m.cursor].isMarked)])
    else if IsExit(key) then m.(open := false)
    else if IsConfirm(key) then UsersMenu(ConfirmDeletions(m.users), m.cursor, false)
    else m.(cursor := MoveCursor(m.cursor, total, key))
  }

  /** The menu after the keys `keys`, in order. */
  function UsersRun(m: UsersMenu, total: nat, keys: seq<char>): (r: UsersMenu)
    requires |m.users| == USER_SLOTS && m.cursor < total <= MAX_USERS
    ensures |r.users| == USER_SLOTS && r.cursor < total
  {
    if keys == [] then m else UsersKey(UsersRun(m, total, keys[..|keys| - 1]), total, keys[|keys| - 1])
  }

  /** The account of a slot: everything except its mark and its pending action. */
  predicate SameAccount(u: UserData, v: UserData)
  {
    u.username == v.username && u.firstName == v.firstName && u.lastName == v.lastName
    && u.password == v.password && u.permissions == v.permissions
  }

  /**
   * Whatever is typed, the menu changes no account, never touches the root
   * slot, and only marks rows the cursor can reach.
   */
  lemma {:induction false} DeleteMenuKeepsAccounts(m: UsersMenu, total: nat, keys: seq<char>, i: nat)
    requires |m.users| == USER_SLOTS && m.cursor < total <= MAX_USERS && i < USER_SLOTS
    ensures var r := UsersRun(m, total, keys);
      SameAccount(r.users[i], m.users[i]) && r.users[MAX_USERS] == m.users[MAX_USERS]
      && (i >= total ==> r.users[i].isMarked == m.users[i].isMarked)
    decreases |keys|
  {
    if keys != [] {
      DeleteMenuKeepsAccounts(m, total, keys[..|keys| - 1], i);
      DeleteMenuKeepsAccounts(m, total, keys[..|keys| - 1], MAX_USERS);
    }
  }

  /** Keys without a confirmation leave every pending action as it was: leaving with 'E' schedules nothing. */
  lemma {:induction false} NoConfirmNoActions(m: UsersMenu, total: nat, keys: seq<char>, i: nat)
    requires |m.users| == USER_SLOTS && m.cursor < total <= MAX_USERS && i < USER_SLOTS
    requires forall k :: 0 <= k < |keys| ==> !IsConfirm(keys[k])
    ensures UsersRun(m, total, keys).users[i].nextAction == m.users[i].nextAction
    decreases |keys|
  {
    if keys != [] {
      NoConfirmNoActions(m, total, keys[..|keys| - 1], i);
    }
  }

  /**
   * Confirming schedules every named addable slot: marked ones for deletion,
   * the others for an update; an unnamed unmarked slot keeps its action, and
   * only the pending actions change.
   */
  lemma ConfirmSchedulesNamedSlots(m: UsersMenu, total: nat, key: char, i: nat)
    requires |m.users| == USER_SLOTS && m.cursor < total <= MAX_USERS && i < USER_SLOTS
    requires m.open && IsConfirm(key)
    ensures var r := UsersKey(m, total, key); var u := m.users[i]; var v := r.users[i];
      !r.open && v == u.(nextAction := v.nextAction)
      && (i < MAX_USERS && u.isMarked ==> v.nextAction == Delete)
      && (i < MAX_USERS && !u.isMarked && u.username != "" ==> v.nextAction == Update)
      && (i < MAX_USERS && u.username != "" ==> (v.nextAction == Delete <==> u.isMarked))
      && (!u.isMarked && u.username == "" ==> v == u)
      && (i == MAX_USERS ==> v == u)
  {
  }

  /**
   * The delete-users menu on the table `users`: refuses an empty table
   * (slot 0 unnamed), otherwise counts the named addable slots, starts on
   * the first row and reads keys until 'E' or 'C'. `reply` is the handler's
   * result, or None while it is still waiting for keys.
   */
  method DeleteUsersMenu(users: array<UserData>, keys: seq<char>) returns (reply: Option<bool>)
    requires users.Length == USER_SLOTS
    modifies users
    ensures old(users[0].username) == "" ==> reply == Some(false) && users[..] == old(users[..])
    ensures old(users[0].username) != "" ==>
      var r := UsersRun(UsersMenu(old(users[..]), 0, true), NamedAmong(old(users[..]), MAX_USERS), keys);
      users[..] == r.users && reply == (if r.open then None else Some(true))
  {
    if users[0].username == "" {
      return Some(false);
    }
    var total: nat := 0;
    for i := 0 to MAX_USERS
      invariant total == NamedAmong(users[..], i)
    {
      if users[i].username != "" {
        total := total + 1;
      }
    }
    var cursor: nat := 0;
    var open := true;
    var k := 0;
    ghost var start := UsersMenu(users[..], 0, true);
    while k < |keys| && open
      invariant k <= |keys| && cursor < total
      invariant UsersRun(start, total, keys[..k]) == UsersMenu(users[..], cursor, open)
      invariant !open ==> UsersRun(start, total, keys) == UsersRun(start, total, keys[..k])
    {
      assert keys[..k + 1][..k] == keys[..k];
      var key := keys[k];
      if IsEnter(key) {
        users[cursor] := users[cursor].(isMarked := !users[cursor].isMarked);
      } else if IsExit(key) {
        open := false;
      } else if IsConfirm(key) {
        MarkForDeletion(users);
        open := false;
      } else {
        cursor := MoveCursor(cursor, total, key);
      }
      k := k + 1;
      if !open {
        UsersClosedReadsNothing(start, total, keys, k);
      }
    }
    if open {
      assert keys[..k] == keys;
      return None;
    }
    return Some(true);
  }

  /** The confirmation loop over the addable slots, in place. */
  method MarkForDeletion(users: array<UserData>)
    requires users.Length == USER_SLOTS
    modifies users
    ensures users[..] == ConfirmDeletions(old(users[..]))
  {
    for i := 0 to MAX_USERS
      invariant forall j :: 0 <= j < i ==> users[j] == Confirmed(old(users[j]))
      invariant forall j :: i <= j < USER_SLOTS ==> users[j] == old(users[j])
    {
      if users[i].isMarked {
        users[i] := users[i].(nextAction := Delete);
      } else if users[i].username != "" {
        users[i] := users[i].(nextAction := Update);
      }
    }
  }

  /** Once closed, the menu ignores the rest of the keys. */
  lemma {:induction false} UsersClosedReadsNothing(m: UsersMenu, total: nat, keys: seq<char>, k: nat)
    requires |m.users| == USER_SLOTS && m.cursor < total <= MAX_USERS
    requires k <= |keys| && !UsersRun(m, total, keys[..k]).open
    ensures UsersRun(m, total, keys) == UsersRun(m, total, keys[..k])
    decreases |keys|
  {
    if |keys| == k {
      assert keys[..k] == keys;
    } else {
      var front := keys[..|keys| - 1];
      assert front[..k] == keys[..k];
      UsersClosedReadsNothing(m, total, front, k);
    }
  }

  // ---------------------------------------------------------------------------
  // Add-user dialogue
  // ---------------------------------------------------------------------------

  /**
   * The slot a new user goes to when the slots below `i` are scanned from
   * the top: one past the highest slot with a first name, or 0.
   */
  function SlotAbove(users: seq<UserData>, i: nat): (slot: nat)
    requires i <= |users|
    ensures slot <= i
    ensures forall j :: slot <= j < i ==> users[j].firstName == ""
    ensures slot == 0 || users[slot - 1].firstName != ""
  {
    if i == 0 then 0
    else if users[i - 1].firstName != "" then i
    else SlotAbove(users, i - 1)
  }

  /** The slot chosen for a new user: scanned down from the last addable slot. */
  function AvailableSlot(users: seq<UserData>): (slot: nat)
    requires |users| == USER_SLOTS
    ensures slot <= MAX_USERS
  {
    SlotAbove(users, MAX_USERS)
  }

  /** The scan for the next available slot, downward from the last addable slot. */
  method FindAvailableSlot(users: array<UserData>) returns (slot: nat)
    requires users.Length == USER_SLOTS
    ensures slot == AvailableSlot(users[..])
  {
    var s: int := MAX_USERS - 1;
    while s > -1
      invariant -1 <= s < MAX_USERS
      invariant forall j :: s < j < MAX_USERS ==> users[j].firstName == ""
    {
      if users[s].firstName != "" {
        s := s + 1;
        break;
      }
      s := s - 1;
    }
    if s == -1 {
      s := 0;
    }
    slot := s;
  }

  /** The prompts of the dialogue, in the order they are asked. */
  datatype Stage = AskUsername | AskFirstName | AskLastName | AskPassword | AskPermission | Complete

  function StageRank(s: Stage): nat
  {
    match s
    case AskUsername => 0
    case AskFirstName => 1
    case AskLastName => 2
    case AskPassword => 3
    case AskPermission => 4
    case Complete => 5
  }

  /** The record being filled in and the prompt currently shown. */
  datatype Draft = Draft(stage: Stage, user: UserData)

  /** Some addable slot already holds this username. */
  predicate Taken(users: seq<UserData>, name: string)
    requires |users| == USER_SLOTS
  {
    exists i :: 0 <= i < MAX_USERS && users[i].username == name
  }

  /** The permission chosen by the first character typed: '0' to '3'. */
  function PermissionKey(c: char): Option<PermLevel>
  {
    if c == '0' then Some(ReadOnlyUser)
    else if c == '1' then Some(ModifyPortsOnly)
    else if c == '2' then Some(ModifySystem)
    else if c == '3' then Some(Administrator)
    else None
  }

  /**
   * One typed line: a prompt is repeated until it gets an answer it accepts
   * (at most 15 characters are kept; an empty answer or a username already
   * in use is refused; the permission is the line's first character).
   */
  function AcceptLine(users: seq<UserData>, d: Draft, line: string): (d': Draft)
    requires |users| == USER_SLOTS
    ensures d' == d || StageRank(d'.stage) == StageRank(d.stage) + 1
  {
    var text := Truncate(line);
    match d.stage
    case AskUsername =>
      if text == "" || Taken(users, text) then d else Draft(AskFirstName, d.user.(username := text))
    case AskFirstName =>
      if text == "" then d else Draft(AskLastName, d.user.(firstName := text))
    case AskLastName =>
      if text == "" then d else Draft(AskPassword, d.user.(lastName := text))
    case AskPassword =>
      if text == "" then d else Draft(AskPermission, d.user.(password := text))
    case AskPermission =>
      var key := if line == [] then '\n' else line[0];
      if PermissionKey(key).None? then d else Draft(Complete, d.user.(permissions := PermissionKey(key).value))
    case Complete => d
  }

  /** The dialogue after the lines `lines`, starting from a zeroed record. */
  function Drafting(users: seq<UserData>, lines: seq<string>): (d: Draft)
    requires |users| == USER_SLOTS
    ensures StageRank(d.stage) <= |lines|
  {
    if lines == [] then Draft(AskUsername, EmptyUser)
    else AcceptLine(users, Drafting(users, lines[..|lines| - 1]), lines[|lines| - 1])
  }

  /** What the fields filled in so far satisfy, prompt by prompt. */
  predicate DraftValid(users: seq<UserData>, d: Draft)
    requires |users| == USER_SLOTS
  {
    var r := StageRank(d.stage);
    !d.user.isMarked && d.user.nextAction == NoAction
    && (r > 0 ==> d.user.username != "" && |d.user.username| <= LINE_CAPACITY && !Taken(users, d.user.username))
    && (r > 1 ==> d.user.firstName != "" && |d.user.firstName| <= LINE_CAPACITY)
    && (r > 2 ==> d.user.lastName != "" && |d.user.lastName| <= LINE_CAPACITY)
    && (r > 3 ==> d.user.password != "" && |d.user.password| <= LINE_CAPACITY)
  }

  /** Every reachable draft is valid: no prompt is passed with an empty, over-long or duplicate answer. */
  lemma {:induction false} DraftingValid(users: seq<UserData>, lines: seq<string>)
    requires |users| == USER_SLOTS
    ensures DraftValid(users, Drafting(users, lines))
    decreases |lines|
  {
    if lines != [] {
      DraftingValid(users, lines[..|lines| - 1]);
    }
  }

  /** The outcome of the handler. */
  datatype AddReply = TableFull | Pending | Added(slot: nat)

  /** The table and the reply after the add-user handler read the lines `lines`. */
  function AddUserWith(users: seq<UserData>, lines: seq<string>): (result: (seq<UserData>, AddReply))
    requires |users| == USER_SLOTS
    ensures |result.0| == USER_SLOTS
  {
    if users[MAX_USERS - 1].username != "" then (users, TableFull)
    else
      var d := Drafting(users, lines);
      if d.stage != Complete then (users, Pending)
      else
        var slot := AvailableSlot(users);
        (users[slot := d.user.(nextAction := Add)], Added(slot))
  }

  /**
   * The handler refuses exactly when the last addable slot has a username.
   * Otherwise, once every prompt is answered, the new record lands one past
   * the highest slot with a first name and nothing else changes; it has a
   * fresh non-empty username of at most 15 characters, non-empty names and
   * password, no mark, and is tagged for adding. The chosen slot is the root
   * slot exactly when the last addable slot has a first name.
   */
  lemma AddUserPlacesRecord(users: seq<UserData>, lines: seq<string>)
    requires |users| == USER_SLOTS
    ensures var (table, reply) := AddUserWith(users, lines);
      (reply == TableFull <==> users[MAX_USERS - 1].username != "")
      && (!reply.Added? ==> table == users)
      && (reply.Added? ==>
            var s := reply.slot; var u := table[s];
            s <= MAX_USERS && |table| == USER_SLOTS
            && (forall j :: s <= j < MAX_USERS ==> users[j].firstName == "")
            && (s == 0 || users[s - 1].firstName != "")
            && (s == MAX_USERS <==> users[MAX_USERS - 1].firstName != "")
            && (forall j :: 0 <= j < USER_SLOTS && j != s ==> table[j] == users[j])
            && u.username != "" && |u.username| <= LINE_CAPACITY && !Taken(users, u.username)
            && u.firstName != "" && u.lastName != "" && u.password != ""
            && !u.isMarked && u.nextAction == Add)
  {
    DraftingValid(users, lines);
  }

  /** Whether some addable slot holds `name`: the duplicate check over the table. */
  method IsTaken(users: array<UserData>, name: string) returns (taken: bool)
    requires users.Length == USER_SLOTS
    ensures taken == Taken(users[..], name)
  {
    for i := 0 to MAX_USERS
      invariant forall j :: 0 <= j < i ==> users[j].username != name
    {
      if users[i].username == name {
        assert users[..][i].username == name;
        return true;
      }
    }
    return false;
  }

  /**
   * The add-user handler on the table `users`: the full-table check, the slot
   * scan, the prompts fed with the typed lines, and the store of the record
   * tagged for adding. A dialogue still missing answers changes nothing.
   */
  method AddUser(users: array<UserData>, lines: seq<string>) returns (reply: AddReply)
    requires users.Length == USER_SLOTS
    modifies users
    ensures (users[..], reply) == AddUserWith(old(users[..]), lines)
  {
    if users[MAX_USERS - 1].username != "" {
      return TableFull;
    }
    var slot := FindAvailableSlot(users);
    var d := Draft(AskUsername, EmptyUser);
    var k := 0;
    while k < |lines| && d.stage != Complete
      invariant k <= |lines|
      invariant d == Drafting(users[..], lines[..k])
      invariant d.stage == Complete ==> Drafting(users[..], lines) == d
      invariant users[..] == old(users[..])
    {
      assert lines[..k + 1][..k] == lines[..k];
      var line := lines[k];
      var text := Truncate(line);
      match d.stage {
        case AskUsername =>
          var taken := IsTaken(users, text);
          if text != "" && !taken {
            d := Draft(AskFirstName, d.user.(username := text));
          }
        case AskFirstName =>
          if text != "" {
            d := Draft(AskLastName, d.user.(firstName := text));
          }
        case AskLastName =>
          if text != "" {
            d := Draft(AskPassword, d.user.(lastName := text));
          }
        case AskPassword =>
          if text != "" {
            d := Draft(AskPermission, d.user.(password := text));
          }
        case AskPermission =>
          var key := if line == [] then '\n' else line[0];
          var level := PermissionKey(key);
          if level.Some? {
            d := Draft(Complete, d.user.(permissions := level.value));
          }
      }
      k := k + 1;
      if d.stage == Complete {
        DraftingCompleteStays(users[..], lines, k);
      }
    }
    if d.stage != Complete {
      assert lines[..k] == lines;
      return Pending;
    }
    users[slot] := d.user.(nextAction := Add);
    return Added(slot);
  }

  /** A finished dialogue reads no more lines. */
  lemma {:induction false} DraftingCompleteStays(users: seq<UserData>, lines: seq<string>, k: nat)
    requires |users| == USER_SLOTS && k <= |lines| && Drafting(users, lines[..k]).stage == Complete
    ensures Drafting(users, lines) == Drafting(users, lines[..k])
    decreases |lines|
  {
    if |lines| == k {
      assert lines[..k] == lines;
    } else {
      var front := lines[..|lines| - 1];
      assert front[..k] == lines[..k];
      DraftingCompleteStays(users, front, k);
    }
  }
}
