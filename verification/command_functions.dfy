// Small state machines inside the console handlers: the array search used by
// the port commands, the two-step system reset, the progress-bar counter and
// the event-flag toggle menu. Keystrokes are inputs; drawn text is abstracted
// to what it shows.

module CommandFunctions {
  import opened SystemTypes
  import opened EventLogger

  // ---------------------------------------------------------------------------
  // FindIndex
  // ---------------------------------------------------------------------------

  /** Linear search of the first `size` cells of `a`: the first index holding `value`, or `size` when none does. */
  method FindIndex(a: array<int>, size: nat, value: int) returns (index: nat)
    requires size <= a.Length
    ensures index <= size
    ensures forall i :: 0 <= i < index ==> a[i] != value
    ensures index < size ==> a[index] == value
  {
    index := 0;
    while index < size && a[index] != value
      invariant index <= size
      invariant forall i :: 0 <= i < index ==> a[i] != value
    {
      index := index + 1;
    }
  }

  // ---------------------------------------------------------------------------
  // The two-step reset
  // ---------------------------------------------------------------------------

  /** What one `system reset` command does: ask for confirmation, or restart the controller. */
  datatype ResetOutcome = AskedToConfirm | Restarted

  /** The outcome of a call, from whether an earlier call already asked for confirmation. */
  function ResetReply(resetIssued: bool): (r: ResetOutcome)
    ensures r == Restarted <==> resetIssued
  {
    if resetIssued then Restarted else AskedToConfirm
  }

  /** The outcomes of `n` successive calls starting from the given flag (the flag is never cleared). */
  function ResetReplies(resetIssued: bool, n: nat): (replies: seq<ResetOutcome>)
    ensures |replies| == n
    decreases n
  {
    if n == 0 then [] else [ResetReply(resetIssued)] + ResetReplies(true, n - 1)
  }

  /** From power-on, the first call only asks, and every later call restarts. */
  lemma {:induction false} ResetNeedsTwoCalls(n: nat, i: nat)
    requires i < n
    ensures ResetReplies(false, n)[i] == if i == 0 then AskedToConfirm else Restarted
  {
    if i > 0 {
      RepliesOnceIssued(n - 1, i - 1);
    }
  }

  /** Once a confirmation was asked for, every call restarts. */
  lemma {:induction false} RepliesOnceIssued(n: nat, i: nat)
    requires i < n
    ensures ResetReplies(true, n)[i] == Restarted
  {
    if i > 0 {
      RepliesOnceIssued(n - 1, i - 1);
    }
  }

  /** The handler and its static confirmation flag. */
  class ResetCommand {
    var resetIssued: bool

    constructor ()
      ensures !resetIssued
    {
      resetIssued := false;
    }

    /** The handler: its boolean result is false while asking and true once the restart is requested. */
    method Run() returns (ok: bool, outcome: ResetOutcome)
      modifies this
      ensures outcome == ResetReply(old(resetIssued)) && resetIssued
      ensures ok <==> outcome == Restarted
    {
      if !resetIssued {
        resetIssued := true;
        return false, AskedToConfirm;
      }
      return true, Restarted;
    }
  }

  // ---------------------------------------------------------------------------
  // Progress bar
  // ---------------------------------------------------------------------------

  /** The actions a caller can ask of the bar (Decrement is handled like Increment). */
  datatype BarAction = Increment | Decrement | Reset | Fill | FillError

  /**
   * What one update draws after the saved cursor: nothing; a run of `marks`
   * '#' then `blanks` spaces (after a fresh "Task Progress: [" header when
   * `header`); or a header and fifty '!'.
   */
  datatype BarDrawing = Untouched | Drawn(header: bool, marks: nat, blanks: nat) | ErrorBar

  /** The stored progress value after an update and what the update drew. */
  datatype BarStep = BarStep(last: int, drawing: BarDrawing)

  /** The C quotient `x / 2` on an int, rounded toward zero. */
  function Half(x: int): (h: int)
    ensures x >= 0 ==> h == x / 2
    ensures x < 0 ==> h == -((-x) / 2)
  {
    if x >= 0 then x / 2 else -((-x) / 2)
  }

  /** The number of passes of `for (i = 0; i < n; i++)`. */
  function Passes(n: int): (k: nat)
    ensures n <= 0 ==> k == 0
    ensures n > 0 ==> k == n
  {
    if n <= 0 then 0 else n
  }

  /** One update of the bar stored in `last`, with `newvalue` the caller's new percentage. */
  function UpdateBar(last: int, action: BarAction, newvalue: int): (b: BarStep)
    ensures b.last == last || b.last == newvalue
  {
    if last >= 100 && action != Fill then BarStep(last, Untouched)
    else
      var from := if action == Reset then 0 else if action == Fill then 100 else last;
      if action == FillError then BarStep(from, ErrorBar)
      else BarStep(newvalue, Drawn(action == Reset, Passes(Half(newvalue) - Half(from)), Passes(50 - Half(newvalue))))
  }

  /** A full bar ignores every action except Fill. */
  lemma FullBarFrozen(last: int, action: BarAction, newvalue: int)
    requires last >= 100 && action != Fill
    ensures UpdateBar(last, action, newvalue) == BarStep(last, Untouched)
  {
  }

  /** Every drawing update that is not ignored stores the new value; an error fill keeps the old one. */
  lemma BarStoresNewValue(last: int, action: BarAction, newvalue: int)
    requires last < 100 || action == Fill
    ensures action != FillError ==> UpdateBar(last, action, newvalue).last == newvalue
    ensures action == FillError ==> UpdateBar(last, action, newvalue) == BarStep(last, ErrorBar)
  {
  }

  /**
   * A redraw always reaches the bar's closing bracket: after a reset the
   * marks and blanks fill all 50 cells, and an advance fills the cells to
   * the right of the marks already drawn for `last`.
   */
  lemma BarKeepsItsWidth(last: int, action: BarAction, newvalue: int)
    requires 0 <= last < 100 && 0 <= newvalue <= 100
    requires action == Reset || (action == Increment && last <= newvalue)
    ensures var d := UpdateBar(last, action, newvalue).drawing;
      d.Drawn? && d.header == (action == Reset)
      && d.marks + d.blanks == if action == Reset then 50 else 50 - last / 2
  {
  }

  /** Increments to the percentages `values`, in turn: the stored value at the end and the marks drawn on the way. */
  function Advance(last: int, values: seq<int>): (int, nat)
    decreases |values|
  {
    if values == [] then (last, 0)
    else
      var step := UpdateBar(last, Increment, values[0]);
      var rest := Advance(step.last, values[1..]);
      (rest.0, (if step.drawing.Drawn? then step.drawing.marks else 0) + rest.1)
  }

  /** Percentages that never go down and stay within 0..100. */
  predicate Rising(last: int, values: seq<int>)
  {
    0 <= last <= 100
    && (forall i :: 0 <= i < |values| ==> last <= values[i] <= 100)
    && (forall i, j :: 0 <= i < j < |values| ==> values[i] <= values[j])
  }

  /**
   * For a task that reports rising percentages, the marks drawn add up to
   * the distance between the first and last value: the bar shows half the
   * final percentage after a reset to 0.
   */
  lemma {:induction false} MarksAddUp(last: int, values: seq<int>)
    requires Rising(last, values)
    ensures Advance(last, values).1 == (if values == [] then 0 else values[|values| - 1] / 2 - last / 2)
    ensures Advance(last, values).0 == if values == [] then last else values[|values| - 1]
    decreases |values|
  {
    if values != [] {
      var step := UpdateBar(last, Increment, values[0]);
      if last >= 100 {
        assert forall i :: 0 <= i < |values| ==> values[i] == 100;
        AdvanceAtFull(values[1..]);
      } else {
        assert step.last == values[0];
        assert Rising(values[0], values[1..]);
        MarksAddUp(values[0], values[1..]);
      }
    }
  }

  /** A bar at 100 draws nothing more and keeps its value. */
  lemma {:induction false} AdvanceAtFull(values: seq<int>)
    ensures Advance(100, values) == (100, 0)
    decreases |values|
  {
    if values != [] {
      AdvanceAtFull(values[1..]);
    }
  }

  /** The caller's progress counter, updated in place through a pointer. */
  class ProgressBar {
    var lastProgress: int

    constructor (start: int)
      ensures lastProgress == start
    {
      lastProgress := start;
    }

    /** One update: counts the marks and blanks it draws, the way the drawing loops run. */
    method Update(action: BarAction, newvalue: int) returns (drawing: BarDrawing)
      modifies this
      ensures BarStep(lastProgress, drawing) == UpdateBar(old(lastProgress), action, newvalue)
    {
      if lastProgress >= 100 && action != Fill {
        return Untouched;
      }
      var header := false;
      if action == Reset {
        header := true;
        lastProgress := 0;
      } else if action == Fill {
        lastProgress := 100;
      }
      if action != FillError {
        var marks: nat := 0;
        var i := 0;
        while i < Half(newvalue) - Half(lastProgress)
          invariant marks == Passes(i) && (i > 0 ==> i <= Half(newvalue) - Half(lastProgress))
          decreases Half(newvalue) - Half(lastProgress) - i
        {
          marks := marks + 1;
          i := i + 1;
        }
        lastProgress := newvalue;
        var blanks: nat := 0;
        i := 0;
        while i < 50 - Half(lastProgress)
          invariant blanks == Passes(i) && (i > 0 ==> i <= 50 - Half(lastProgress))
          decreases 50 - Half(lastProgress) - i
        {
          blanks := blanks + 1;
          i := i + 1;
        }
        return Drawn(header, marks, blanks);
      }
      return ErrorBar;
    }
  }

  // ---------------------------------------------------------------------------
  // Menu cursor, shared by the event and the delete-users menus
  // ---------------------------------------------------------------------------

  /** The last byte of the up-arrow escape sequence ('A'); the other bytes of the sequence are ignored. */
  const UP_KEY: char := 'A'
  /** The last byte of the down-arrow escape sequence ('B'). */
  const DOWN_KEY: char := 'B'

  /** The highlighted row after key `key`, in a menu of `total` rows. */
  function MoveCursor(cursor: nat, total: nat, key: char): (moved: nat)
    ensures cursor < total ==> moved < total
  {
    if key == UP_KEY && cursor > 0 then cursor - 1
    else if key == DOWN_KEY && cursor < total - 1 then cursor + 1
    else cursor
  }

  /** Arrows never take the cursor off a non-empty menu and move it by at most one row. */
  lemma CursorStaysOnMenu(cursor: nat, total: nat, key: char)
    requires cursor < total
    ensures MoveCursor(cursor, total, key) < total
    ensures key != UP_KEY && key != DOWN_KEY ==> MoveCursor(cursor, total, key) == cursor
    ensures key == UP_KEY ==> MoveCursor(cursor, total, key) == if cursor == 0 then 0 else cursor - 1
    ensures key == DOWN_KEY ==> MoveCursor(cursor, total, key) == if cursor == total - 1 then cursor else cursor + 1
  {
  }

  /** Enter (either line ending) toggles the highlighted row. */
  predicate IsEnter(key: char)
  {
    key == '\n' || key == '\r'
  }

  /** 'E' leaves the menu, 'C' confirms it; either case. */
  predicate IsExit(key: char)
  {
    key == 'E' || key == 'e'
  }

  predicate IsConfirm(key: char)
  {
    key == 'C' || key == 'c'
  }

  // ---------------------------------------------------------------------------
  // The event-flag menu
  // ---------------------------------------------------------------------------

  /** The menu's state: the global flag word, the highlighted row, and whether the menu still reads keys. */
  datatype EventsMenu = EventsMenu(flags: nat, cursor: nat, open: bool)

  /** One key in a menu of `total` event rows; a closed menu reads no more keys. */
  function EventsKey(m: EventsMenu, total: nat, key: char): (m': EventsMenu)
    ensures m'.open ==> m.open
    ensures m'.flags != m.flags ==> m.open && IsEnter(key)
  {
    if !m.open then m
    else if IsEnter(key) then m.(flags := FlipBit(m.flags, m.cursor))
    else if IsExit(key) || IsConfirm(key) then m.(open := false)
    else m.(cursor := MoveCursor(m.cursor, total, key))
  }

  /** The menu after the keys `keys`, in order. */
  function EventsRun(m: EventsMenu, total: nat, keys: seq<char>): EventsMenu
  {
    if keys == [] then m else EventsKey(EventsRun(m, total, keys[..|keys| - 1]), total, keys[|keys| - 1])
  }

  /** Enter flips exactly the highlighted event's bit and moves nothing. */
  lemma EnterFlipsHighlightedBit(m: EventsMenu, total: nat, key: char, j: nat)
    requires m.open && IsEnter(key)
    ensures var m' := EventsKey(m, total, key);
      m'.cursor == m.cursor && m'.open && (Bit(m'.flags, j) <==> (Bit(m.flags, j) != (j == m.cursor)))
  {
    FlipBitExact(m.flags, m.cursor, j);
  }

  /**
   * Over any keys, the cursor stays on one of the `total` rows, and the bits
   * of the flag word past the last row (events without a name) never change.
   */
  lemma {:induction false} EventsMenuInvariant(m: EventsMenu, total: nat, keys: seq<char>, j: nat)
    requires 0 < total && m.cursor < total && j >= total
    ensures EventsRun(m, total, keys).cursor < total
    ensures Bit(EventsRun(m, total, keys).flags, j) == Bit(m.flags, j)
    decreases |keys|
  {
    if keys != [] {
      var before := EventsRun(m, total, keys[..|keys| - 1]);
      EventsMenuInvariant(m, total, keys[..|keys| - 1], j);
      CursorStaysOnMenu(before.cursor, total, keys[|keys| - 1]);
      FlipBitExact(before.flags, before.cursor, j);
    }
  }

  /** Leaving with 'E' does not undo the toggles: they were made on the live flag word. */
  lemma ExitKeepsToggles(m: EventsMenu, total: nat, keys: seq<char>)
    ensures EventsRun(m, total, keys + ['E']).flags == EventsRun(m, total, keys).flags
    ensures !EventsRun(m, total, keys + ['E']).open
  {
    assert (keys + ['E'])[..|keys|] == keys;
  }

  /** A flag word within 32 bits stays within 32 bits. */
  lemma {:induction false} EventsMenuKeepsWord(m: EventsMenu, total: nat, keys: seq<char>)
    requires 0 < total <= MAX_LOG_TYPES && m.cursor < total && m.flags < UINT32_MODULUS
    ensures EventsRun(m, total, keys).flags < UINT32_MODULUS
    decreases |keys|
  {
    Pow2Word();
    if keys != [] {
      var before := EventsRun(m, total, keys[..|keys| - 1]);
      EventsMenuKeepsWord(m, total, keys[..|keys| - 1]);
      EventsMenuInvariant(m, total, keys[..|keys| - 1], total);
      FlipBitBounded(before.flags, before.cursor, 32);
    }
  }

  /**
   * The events menu on the logger's flag word: counts the named event kinds,
   * starts on the first row and reads keys until 'E' or 'C'. Returns whether
   * the menu closed; keys after the closing one are not read.
   */
  method ManageEvents(logger: Logger, keys: seq<char>) returns (closed: bool)
    modifies logger
    ensures var m := EventsRun(EventsMenu(old(logger.logStatusFlags), 0, true), |LOG_TYPE_NAMES|, keys);
      logger.logStatusFlags == m.flags && closed == !m.open
    ensures logger.nextLogSlot == old(logger.nextLogSlot) && logger.lastCode == old(logger.lastCode)
    ensures logger.eeprom == old(logger.eeprom)
  {
    var total: nat := 0;
    for i := 0 to MAX_LOG_TYPES
      invariant total == if i < |LOG_TYPE_NAMES| then i else |LOG_TYPE_NAMES|
    {
      if i < |LOG_TYPE_NAMES| {
        total := total + 1;
      }
    }
    var cursor: nat := 0;
    var k := 0;
    closed := false;
    ghost var start := EventsMenu(logger.logStatusFlags, 0, true);
    while k < |keys| && !closed
      invariant k <= |keys|
      invariant EventsRun(start, total, keys[..k]) == EventsMenu(logger.logStatusFlags, cursor, !closed)
      invariant closed ==> EventsRun(start, total, keys[..k]) == EventsRun(start, total, keys)
      invariant logger.nextLogSlot == old(logger.nextLogSlot) && logger.lastCode == old(logger.lastCode)
      invariant logger.eeprom == old(logger.eeprom)
    {
      assert keys[..k + 1][..k] == keys[..k];
      var key := keys[k];
      if IsEnter(key) {
        logger.logStatusFlags := FlipBit(logger.logStatusFlags, cursor);
      } else if IsExit(key) || IsConfirm(key) {
        closed := true;
        ClosedMenuReadsNothing(start, total, keys, k + 1);
      } else {
        cursor := MoveCursor(cursor, total, key);
      }
      k := k + 1;
    }
    if !closed {
      assert keys[..k] == keys;
    }
  }

  /** Once closed, the menu ignores the rest of the keys. */
  lemma {:induction false} ClosedMenuReadsNothing(m: EventsMenu, total: nat, keys: seq<char>, k: nat)
    requires k <= |keys| && !EventsRun(m, total, keys[..k]).open
    ensures EventsRun(m, total, keys) == EventsRun(m, total, keys[..k])
    decreases |keys|
  {
    if |keys| == k {
      assert keys[..k] == keys;
    } else {
      var front := keys[..|keys| - 1];
      assert front[..k] == keys[..k];
      ClosedMenuReadsNothing(m, total, front, k);
    }
  }
}
