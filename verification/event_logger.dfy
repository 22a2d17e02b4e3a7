// The logger task: filters queued event codes by the run-time flag word, skips a
// code equal to the last one written, and writes 5-byte entries (a big-endian
// tick count, then the code) into a ring of EEPROM slots.

module EventLogger {
  import opened SystemTypes

  /** The event kinds, in declaration order. */
  datatype LoggerCode =
    | SystemRestarted
    | StackOverflow
    | EEPROMWriteOP
    | EEPROMReadOP
    | EEPROMIOException
    | EthoControllerReadOP
    | EthoControllerWriteOP
    | EthoControlIOException
    | UserLoggedIn
    | UserLoggedOut

  /** Number of event kinds the 32-bit flag word can enable. */
  const MAX_LOG_TYPES: nat := 32
  /** Entries the log region is meant to hold. */
  const MAX_LOG_ENTRIES: nat := 400
  /** Bytes per entry: four tick-count bytes and the code. */
  const ENTRY_SIZE: nat := 5

  /** The C enumerator value of a code. */
  function Ordinal(c: LoggerCode): (n: nat)
    ensures n < 10 <= MAX_LOG_TYPES
  {
    match c
    case SystemRestarted => 0
    case StackOverflow => 1
    case EEPROMWriteOP => 2
    case EEPROMReadOP => 3
    case EEPROMIOException => 4
    case EthoControllerReadOP => 5
    case EthoControllerWriteOP => 6
    case EthoControlIOException => 7
    case UserLoggedIn => 8
    case UserLoggedOut => 9
  }

  /** The display names of the event kinds, in code order; the remaining slots of the 32-entry name table are null. */
  const LOG_TYPE_NAMES: seq<string> := ["System Restarted", "Stack Overflow", "EEPROM Write Operations",
    "EEPROM Read Operations", "EEPROM Read/Write Errors", "Ethernet Controller Read Operations",
    "Ethernet Controller Write Operations", "Ethernet Controller Read/Write Errors", "User Logged In", "User Logged Out"]

  /** Bit `k` of a flag word, as `(flags >> k) & 1`. */
  predicate Bit(flags: nat, k: nat)
  {
    if k == 0 then flags % 2 == 1 else Bit(flags / 2, k - 1)
  }

  /** The flag word with bit `k` inverted: cleared as `flags & ~(1 << k)` when set, set as `flags | (1 << k)` when clear. */
  function FlipBit(flags: nat, k: nat): nat
  {
    if k == 0 then (if flags % 2 == 1 then flags - 1 else flags + 1)
    else 2 * FlipBit(flags / 2, k - 1) + flags % 2
  }

  /** Flipping bit `k` inverts that bit and keeps every other one. */
  lemma {:induction false} FlipBitExact(flags: nat, k: nat, j: nat)
    ensures Bit(FlipBit(flags, k), j) <==> (Bit(flags, j) != (j == k))
    decreases k
  {
    var f := FlipBit(flags, k);
    if k == 0 {
      if j > 0 {
        assert f / 2 == flags / 2;
      }
    } else {
      assert f % 2 == flags % 2 && f / 2 == FlipBit(flags / 2, k - 1);
      if j > 0 {
        FlipBitExact(flags / 2, k - 1, j - 1);
      }
    }
  }

  /** Flipping the same bit twice gives the word back. */
  lemma {:induction false} FlipBitTwice(flags: nat, k: nat)
    ensures FlipBit(FlipBit(flags, k), k) == flags
    decreases k
  {
    if k > 0 {
      var f := FlipBit(flags, k);
      assert f % 2 == flags % 2 && f / 2 == FlipBit(flags / 2, k - 1);
      FlipBitTwice(flags / 2, k - 1);
    }
  }

  /** Powers of two, the bounds of `w`-bit words. */
  function Pow2(n: nat): (p: nat)
    ensures p >= 1
  {
    if n == 0 then 1 else 2 * Pow2(n - 1)
  }

  lemma {:induction false} Pow2Add(a: nat, b: nat)
    ensures Pow2(a + b) == Pow2(a) * Pow2(b)
    decreases a
  {
    if a > 0 {
      Pow2Add(a - 1, b);
    }
  }

  /** 2^32 is the modulus of the 32-bit flag word. */
  lemma Pow2Word()
    ensures Pow2(32) == UINT32_MODULUS
  {
    assert Pow2(8) == 0x100;
    Pow2Add(8, 8);
    Pow2Add(16, 16);
  }

  /** A flipped bit inside a `w`-bit word keeps the word within `w` bits (so a 32-bit flag word stays below 2^32). */
  lemma {:induction false} FlipBitBounded(flags: nat, k: nat, w: nat)
    requires k < w && flags < Pow2(w)
    ensures FlipBit(flags, k) < Pow2(w)
    decreases k
  {
    var half := Pow2(w - 1);
    assert Pow2(w) == 2 * half;
    if k == 0 {
      assert flags % 2 == 0 ==> flags + 1 < 2 * half;
    } else {
      assert flags / 2 < half;
      FlipBitBounded(flags / 2, k - 1, w - 1);
      var f := FlipBit(flags / 2, k - 1);
      assert f + 1 <= half;
      assert FlipBit(flags, k) == 2 * f + flags % 2;
    }
  }

  /** Bit `Ordinal(c)` of the flag word: the code is enabled for logging. */
  predicate Enabled(flags: nat, c: LoggerCode)
  {
    Bit(flags, Ordinal(c))
  }

  /** The four bytes of a 32-bit value, most significant first (shifts by 24, 16, 8 and 0, masked to a byte). */
  function Split32(t: nat): (bytes: seq<nat>)
    ensures |bytes| == 4 && forall i :: 0 <= i < 4 ==> bytes[i] < 256
  {
    [t / 256 / 256 / 256 % 256, t / 256 / 256 % 256, t / 256 % 256, t % 256]
  }

  /** Four bytes read back as a 32-bit value, the first one most significant. */
  function Join32(bytes: seq<nat>): nat
    requires |bytes| == 4
  {
    ((bytes[0] * 256 + bytes[1]) * 256 + bytes[2]) * 256 + bytes[3]
  }

  /** Joining the bytes of a 32-bit value gives the value back. */
  lemma JoinSplit(t: nat)
    requires t < UINT32_MODULUS
    ensures Join32(Split32(t)) == t
  {
    var q1 := t / 256;
    var q2 := q1 / 256;
    var q3 := q2 / 256;
    assert t == q1 * 256 + t % 256;
    assert q1 == q2 * 256 + q1 % 256;
    assert q2 == q3 * 256 + q2 % 256;
    assert q3 < 256 by {
      assert q1 < 0x100_0000;
      assert q2 < 0x1_0000;
    }
  }

  /** Splitting the value four bytes join to gives the bytes back. */
  lemma SplitJoin(bytes: seq<nat>)
    requires |bytes| == 4 && forall i :: 0 <= i < 4 ==> bytes[i] < 256
    ensures Join32(bytes) < UINT32_MODULUS && Split32(Join32(bytes)) == bytes
  {
    var a := bytes[0] * 256 + bytes[1];
    var b := a * 256 + bytes[2];
    var t := b * 256 + bytes[3];
    assert t / 256 == b && t % 256 == bytes[3];
    assert b / 256 == a && b % 256 == bytes[2];
    assert a / 256 == bytes[0] && a % 256 == bytes[1];
    assert a < 0x1_0000 && b < 0x100_0000;
  }

  /** The logger's state: the flag word, the next entry address, the last code written, and the EEPROM bytes it wrote. */
  datatype LogState = LogState(flags: nat, nextLogSlot: nat, lastCode: nat, eeprom: map<nat, nat>)

  /** `eeprom` with `bytes` stored from address `addr` on. */
  function Store(eeprom: map<nat, nat>, addr: nat, bytes: seq<nat>): map<nat, nat>
    decreases |bytes|
  {
    if bytes == [] then eeprom else Store(eeprom[addr := bytes[0]], addr + 1, bytes[1..])
  }

  /** Storing writes exactly the addresses `addr .. addr + |bytes| - 1`, with the given bytes, and keeps every other byte. */
  lemma {:induction false} StoreContents(eeprom: map<nat, nat>, addr: nat, bytes: seq<nat>)
    decreases |bytes|
    ensures var m := Store(eeprom, addr, bytes);
      (forall a :: a in m <==> a in eeprom || addr <= a < addr + |bytes|)
      && (forall i :: 0 <= i < |bytes| ==> m[addr + i] == bytes[i])
      && (forall a :: a in eeprom && !(addr <= a < addr + |bytes|) ==> m[a] == eeprom[a])
  {
    if bytes != [] {
      StoreContents(eeprom[addr := bytes[0]], addr + 1, bytes[1..]);
      var m := Store(eeprom, addr, bytes);
      assert m == Store(eeprom[addr := bytes[0]], addr + 1, bytes[1..]);
      forall i | 0 <= i < |bytes|
        ensures addr + i in m && m[addr + i] == bytes[i]
      {
        if i > 0 {
          assert addr + i == (addr + 1) + (i - 1);
        } else {
          assert addr in eeprom[addr := bytes[0]];
        }
      }
    }
  }

  /** One entry: the tick count's four bytes, most significant first, then the code. */
  function Entry(time: nat, code: LoggerCode): (e: seq<nat>)
    ensures |e| == ENTRY_SIZE
  {
    Split32(time) + [Ordinal(code)]
  }

  /** The slot after `slot` as written: the wrap test compares against 400 bytes past the base, not 400 entries. */
  function NextSlotAsWritten(slot: nat): (next: nat)
    ensures next <= EEPROM_LOG_BASE + MAX_LOG_ENTRIES
  {
    if Add32(slot, ENTRY_SIZE) > EEPROM_LOG_BASE + MAX_LOG_ENTRIES then EEPROM_LOG_BASE else Add32(slot, ENTRY_SIZE)
  }

  /**
   * The slot after `slot` when the region holds MAX_LOG_ENTRIES entries of
   * ENTRY_SIZE bytes: the pointer returns to the base when the next entry
   * would not fit before the region's end.
   */
  function NextSlot(slot: nat): (next: nat)
    ensures next + ENTRY_SIZE <= EEPROM_LOG_BASE + MAX_LOG_ENTRIES * ENTRY_SIZE
  {
    var next := Add32(slot, ENTRY_SIZE);
    if next + ENTRY_SIZE > EEPROM_LOG_BASE + MAX_LOG_ENTRIES * ENTRY_SIZE then EEPROM_LOG_BASE else next
  }

  /** One code taken off the queue at tick `time`, given the slot-advance rule `corrected` selects. */
  function LogEventWith(s: LogState, code: LoggerCode, time: nat, corrected: bool): (s': LogState)
    ensures s'.flags == s.flags
    ensures !Enabled(s.flags, code) || Ordinal(code) == s.lastCode ==> s' == s
    ensures Enabled(s.flags, code) && Ordinal(code) != s.lastCode ==>
      (s'.lastCode == Ordinal(code) && s.eeprom.Keys <= s'.eeprom.Keys)
  {
    if !Enabled(s.flags, code) || Ordinal(code) == s.lastCode then s
    else
      var next := if corrected then NextSlot(s.nextLogSlot) else NextSlotAsWritten(s.nextLogSlot);
      StoreContents(s.eeprom, s.nextLogSlot, Entry(time, code));
      LogState(s.flags, next, Ordinal(code), Store(s.eeprom, s.nextLogSlot, Entry(time, code)))
  }

  /** One code taken off the queue, slots advancing as the firmware does. */
  function LogEventAsWritten(s: LogState, code: LoggerCode, time: nat): (s': LogState)
    ensures Enabled(s.flags, code) && Ordinal(code) != s.lastCode ==> s'.nextLogSlot <= EEPROM_LOG_BASE + MAX_LOG_ENTRIES
  {
    LogEventWith(s, code, time, false)
  }

  /** One code taken off the queue, slots advancing over the full 400-entry ring. */
  function LogEvent(s: LogState, code: LoggerCode, time: nat): (s': LogState)
    ensures InRing(s.nextLogSlot) ==> InRing(s'.nextLogSlot)
  {
    LogEventWith(s, code, time, true)
  }

  /** A code that is disabled, or equal to the last one written, changes nothing: no bytes, same slot, same last code. */
  lemma SkippedCodeChangesNothing(s: LogState, code: LoggerCode, time: nat, corrected: bool)
    requires !Enabled(s.flags, code) || Ordinal(code) == s.lastCode
    ensures LogEventWith(s, code, time, corrected) == s
  {
  }

  /**
   * An enabled code different from the last one writes exactly its entry at
   * the current slot, leaves every other byte alone, and becomes the last code;
   * the tick count reads back from the four bytes written.
   */
  lemma WrittenEntry(s: LogState, code: LoggerCode, time: nat)
    requires Enabled(s.flags, code) && Ordinal(code) != s.lastCode && time < UINT32_MODULUS
    ensures var s' := LogEvent(s, code, time); var a := s.nextLogSlot;
      s'.flags == s.flags && s'.lastCode == Ordinal(code) && s'.nextLogSlot == NextSlot(a)
      && (forall b :: b in s'.eeprom <==> b in s.eeprom || a <= b < a + ENTRY_SIZE)
      && (forall b :: b in s.eeprom && !(a <= b < a + ENTRY_SIZE) ==> s'.eeprom[b] == s.eeprom[b])
      && s'.eeprom[a + 4] == Ordinal(code)
      && Join32([s'.eeprom[a], s'.eeprom[a + 1], s'.eeprom[a + 2], s'.eeprom[a + 3]]) == time
  {
    var a := s.nextLogSlot;
    var e := Entry(time, code);
    StoreContents(s.eeprom, a, e);
    var m := Store(s.eeprom, a, e);
    assert m[a + 0] == e[0] && m[a + 1] == e[1] && m[a + 2] == e[2] && m[a + 3] == e[3] && m[a + 4] == e[4];
    assert [m[a], m[a + 1], m[a + 2], m[a + 3]] == Split32(time);
    JoinSplit(time);
  }

  /** The entry slots of the full ring: the base and every fifth address after it, 400 of them. */
  predicate InRing(slot: nat)
  {
    EEPROM_LOG_BASE <= slot < EEPROM_LOG_BASE + MAX_LOG_ENTRIES * ENTRY_SIZE && (slot - EEPROM_LOG_BASE) % ENTRY_SIZE == 0
  }

  /** The slot reached after `k` advances from `slot`. */
  function Advance(slot: nat, k: nat, corrected: bool): nat
    decreases k
  {
    if k == 0 then slot
    else Advance(if corrected then NextSlot(slot) else NextSlotAsWritten(slot), k - 1, corrected)
  }

  /** With the corrected rule, a slot of the ring advances to a slot of the ring, and every entry fits inside the region. */
  lemma NextSlotStaysInRing(slot: nat)
    requires InRing(slot)
    ensures InRing(NextSlot(slot)) && slot + ENTRY_SIZE <= EEPROM_LOG_BASE + MAX_LOG_ENTRIES * ENTRY_SIZE
  {
  }

  /** With the corrected rule, the k-th advance from the base is entry k, for every k below 400. */
  lemma {:induction false} AdvanceFromBase(k: nat)
    requires k < MAX_LOG_ENTRIES
    ensures Advance(EEPROM_LOG_BASE, k, true) == EEPROM_LOG_BASE + k * ENTRY_SIZE
  {
    if k > 0 {
      AdvanceSplit(EEPROM_LOG_BASE, k - 1, true);
      AdvanceFromBase(k - 1);
    }
  }

  /** k + 1 advances are k advances followed by one more. */
  lemma {:induction false} AdvanceSplit(slot: nat, k: nat, corrected: bool)
    ensures Advance(slot, k + 1, corrected)
      == var m := Advance(slot, k, corrected); if corrected then NextSlot(m) else NextSlotAsWritten(m)
    decreases k
  {
    if k > 0 {
      var n := if corrected then NextSlot(slot) else NextSlotAsWritten(slot);
      AdvanceSplit(n, k - 1, corrected);
    }
  }

  /** With the corrected rule, 400 entries are written before the ring returns to its base. */
  lemma RingHoldsAllEntries()
    ensures forall k :: 0 < k < MAX_LOG_ENTRIES ==> Advance(EEPROM_LOG_BASE, k, true) != EEPROM_LOG_BASE
    ensures Advance(EEPROM_LOG_BASE, MAX_LOG_ENTRIES, true) == EEPROM_LOG_BASE
  {
    forall k | 0 < k < MAX_LOG_ENTRIES
      ensures Advance(EEPROM_LOG_BASE, k, true) != EEPROM_LOG_BASE
    {
      AdvanceFromBase(k);
    }
    AdvanceFromBase(MAX_LOG_ENTRIES - 1);
    AdvanceSplit(EEPROM_LOG_BASE, MAX_LOG_ENTRIES - 1, true);
  }

  /** As written, the k-th advance from the base is entry k for every k up to 80. */
  lemma {:induction false} AdvanceFromBaseAsWritten(k: nat)
    requires k <= MAX_LOG_ENTRIES / ENTRY_SIZE
    ensures Advance(EEPROM_LOG_BASE, k, false) == EEPROM_LOG_BASE + k * ENTRY_SIZE
  {
    if k > 0 {
      AdvanceSplit(EEPROM_LOG_BASE, k - 1, false);
      AdvanceFromBaseAsWritten(k - 1);
    }
  }

  /**
   * As written, the ring returns to its base after 81 entries instead of 400:
   * the 82nd entry overwrites the first, and the last one written before the
   * wrap starts 400 bytes past the base.
   */
  lemma AsWrittenRingHolds81Entries()
    ensures Advance(EEPROM_LOG_BASE, 80, false) == EEPROM_LOG_BASE + 400
    ensures Advance(EEPROM_LOG_BASE, 81, false) == EEPROM_LOG_BASE
    ensures forall k :: 0 < k <= 80 ==> Advance(EEPROM_LOG_BASE, k, false) != EEPROM_LOG_BASE
  {
    forall k | 0 < k <= 80
      ensures Advance(EEPROM_LOG_BASE, k, false) != EEPROM_LOG_BASE
    {
      AdvanceFromBaseAsWritten(k);
    }
    AdvanceFromBaseAsWritten(80);
    AdvanceSplit(EEPROM_LOG_BASE, 80, false);
  }

  /** The logger task's state, updated in place as codes come off the queue. */
  class Logger {
    var logStatusFlags: nat
    var nextLogSlot: nat
    var lastCode: nat
    var eeprom: map<nat, nat>

    ghost function State(): LogState
      reads this
    {
      LogState(logStatusFlags, nextLogSlot, lastCode, eeprom)
    }

    /**
     * The logger starting with the flag word and slot the boot left, and with
     * `stale` as the never-initialised last-code variable.
     */
    constructor (flags: nat, slot: nat, stale: nat)
      ensures State() == LogState(flags, slot, stale, map[])
    {
      logStatusFlags := flags;
      nextLogSlot := slot;
      lastCode := stale;
      eeprom := map[];
    }

    /** Writes `bytes` from address `addr` on, one byte at a time. */
    method Write(addr: nat, bytes: seq<nat>)
      modifies this
      ensures eeprom == Store(old(eeprom), addr, bytes)
      ensures logStatusFlags == old(logStatusFlags) && nextLogSlot == old(nextLogSlot) && lastCode == old(lastCode)
    {
      var i := 0;
      while i < |bytes|
        invariant 0 <= i <= |bytes|
        invariant Store(eeprom, addr + i, bytes[i..]) == Store(old(eeprom), addr, bytes)
        invariant logStatusFlags == old(logStatusFlags) && nextLogSlot == old(nextLogSlot) && lastCode == old(lastCode)
      {
        assert bytes[i..][1..] == bytes[i + 1..];
        eeprom := eeprom[addr + i := bytes[i]];
        i := i + 1;
      }
      assert bytes[i..] == [];
    }

    /** One pass of the logger loop that received `code` at tick `time`, advancing the slot as the firmware does. */
    method LogAsWritten(code: LoggerCode, time: nat)
      modifies this
      ensures State() == LogEventAsWritten(old(State()), code, time)
    {
      if Bit(logStatusFlags, Ordinal(code)) {
        if Ordinal(code) != lastCode {
          Write(nextLogSlot, Split32(time) + [Ordinal(code)]);
          nextLogSlot := NextSlotAsWritten(nextLogSlot);
          lastCode := Ordinal(code);
        }
      }
    }

    /** One pass of the logger loop that received `code` at tick `time`, over the full 400-entry ring. */
    method Log(code: LoggerCode, time: nat)
      modifies this
      ensures State() == LogEvent(old(State()), code, time)
    {
      if Bit(logStatusFlags, Ordinal(code)) {
        if Ordinal(code) != lastCode {
          Write(nextLogSlot, Split32(time) + [Ordinal(code)]);
          nextLogSlot := NextSlot(nextLogSlot);
          lastCode := Ordinal(code);
        }
      }
    }

    /** The logger loop over the codes received, the k-th at tick `times[k]`. */
    method Drain(codes: seq<LoggerCode>, times: seq<nat>)
      requires |times| == |codes|
      modifies this
      ensures State() == LogAll(old(State()), codes, times)
    {
      var k := 0;
      while k < |codes|
        invariant 0 <= k <= |codes|
        invariant LogAll(State(), codes[k..], times[k..]) == LogAll(old(State()), codes, times)
      {
        assert codes[k..][1..] == codes[k + 1..] && times[k..][1..] == times[k + 1..];
        Log(codes[k], times[k]);
        k := k + 1;
      }
      assert codes[k..] == [] && times[k..] == [];
    }
  }

  /** The state after logging every code in turn. */
  function LogAll(s: LogState, codes: seq<LoggerCode>, times: seq<nat>): LogState
    requires |times| == |codes|
    decreases |codes|
  {
    if codes == [] then s else LogAll(LogEvent(s, codes[0], times[0]), codes[1..], times[1..])
  }

  /** The same code queued twice in a row is written at most once. */
  lemma RepeatedCodeWrittenOnce(s: LogState, code: LoggerCode, t1: nat, t2: nat)
    ensures LogEvent(LogEvent(s, code, t1), code, t2) == LogEvent(s, code, t1)
  {
  }

  /** Logging keeps the slot on the ring: from a ring slot, any number of codes leaves the slot on the ring. */
  lemma {:induction false} LogAllStaysInRing(s: LogState, codes: seq<LoggerCode>, times: seq<nat>)
    requires |times| == |codes| && InRing(s.nextLogSlot)
    ensures InRing(LogAll(s, codes, times).nextLogSlot)
    decreases |codes|
  {
    if codes != [] {
      var s1 := LogEvent(s, codes[0], times[0]);
      if s1 != s {
        NextSlotStaysInRing(s.nextLogSlot);
      }
      LogAllStaysInRing(s1, codes[1..], times[1..]);
    }
  }
}
