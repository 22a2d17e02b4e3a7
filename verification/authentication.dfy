// The console's login dialogue: what the interpreter task reads while nobody is
// authenticated, and which user slot it lets in.

module Authentication {
  import opened SystemTypes

  /** Number of entries of the global user table (slots 0..MAX_USERS). */
  const USER_SLOTS: nat := MAX_USERS + 1

  /** A stored user accepts a username/password pair when its slot is in use and both strings are equal. */
  predicate Accepts(u: UserData, name: string, pass: string)
    ensures u.username == "" ==> !Accepts(u, name, pass)
    ensures Accepts(u, name, pass) ==> name != "" && name == u.username && pass == u.password
  {
    u.username != "" && u.username == name && u.password == pass
  }

  /** The first slot at or after `k` that accepts the pair. */
  function FindUserFrom(users: seq<UserData>, name: string, pass: string, k: nat): (r: Option<nat>)
    requires |users| == USER_SLOTS
    decreases USER_SLOTS - k
    ensures r.Some? ==> k <= r.value < USER_SLOTS && Accepts(users[r.value], name, pass)
  {
    if k >= USER_SLOTS then None
    else if Accepts(users[k], name, pass) then Some(k)
    else FindUserFrom(users, name, pass, k + 1)
  }

  /** The check answers the lowest accepting slot, and answers nothing exactly when no slot accepts. */
  lemma {:induction false} FindUserIsFirstMatch(users: seq<UserData>, name: string, pass: string, k: nat)
    requires |users| == USER_SLOTS
    decreases USER_SLOTS - k
    ensures var r := FindUserFrom(users, name, pass, k);
      (r.Some? ==> forall s :: k <= s < r.value ==> !Accepts(users[s], name, pass)) &&
      (r.None? <==> forall s :: k <= s < USER_SLOTS ==> !Accepts(users[s], name, pass))
  {
    if k < USER_SLOTS && !Accepts(users[k], name, pass) {
      FindUserIsFirstMatch(users, name, pass, k + 1);
    }
  }

  /** The slot the login check picks: the lowest one that accepts the pair. */
  function FindUser(users: seq<UserData>, name: string, pass: string): (r: Option<nat>)
    requires |users| == USER_SLOTS
    ensures r.Some? ==> r.value < USER_SLOTS && Accepts(users[r.value], name, pass)
  {
    FindUserFrom(users, name, pass, 0)
  }

  /** The first input line at or after `p` that leaves the 16-byte buffer non-empty (|lines| when there is none): empty lines re-prompt. */
  function NextEntry(lines: seq<string>, p: nat): (q: nat)
    requires p <= |lines|
    decreases |lines| - p
    ensures p <= q <= |lines|
    ensures q < |lines| ==> Truncate(lines[q]) != ""
  {
    if p == |lines| || Truncate(lines[p]) != "" then p else NextEntry(lines, p + 1)
  }

  datatype LoginResult =
    | LoggedIn(slot: nat, nameLine: nat, passLine: nat, failures: nat)  // authenticated by these two input lines
    | Waiting(failures: nat)                             // the input ran out: the login loop keeps waiting

  /**
   * The login dialogue from line `p` on, after `failures` rejected attempts: a
   * username line, a password line (each truncated to the 16-byte buffer, empty
   * lines re-prompted), then the table check; a rejected pair starts over.
   */
  function LoginFrom(users: seq<UserData>, lines: seq<string>, p: nat, failures: nat): (r: LoginResult)
    requires |users| == USER_SLOTS && p <= |lines|
    decreases |lines| - p
    ensures r.failures >= failures
    ensures r.LoggedIn? ==> p <= r.nameLine < r.passLine < |lines| && r.slot < USER_SLOTS
    ensures r.LoggedIn? ==> Accepts(users[r.slot], Truncate(lines[r.nameLine]), Truncate(lines[r.passLine]))
  {
    var u := NextEntry(lines, p);
    if u == |lines| then Waiting(failures)
    else
      var w := NextEntry(lines, u + 1);
      if w == |lines| then Waiting(failures)
      else
        var found := FindUser(users, Truncate(lines[u]), Truncate(lines[w]));
        if found.Some? then LoggedIn(found.value, u, w, failures)
        else LoginFrom(users, lines, w + 1, failures + 1)
  }

  /** LoginFrom one round on, in the terms the login loop reads its two entries in. */
  lemma LoginStep(users: seq<UserData>, lines: seq<string>, p: nat, failures: nat, u: nat, w: nat)
    requires |users| == USER_SLOTS && p <= |lines|
    requires u == NextEntry(lines, p) && u < |lines| && w == NextEntry(lines, u + 1)
    ensures w == |lines| ==> LoginFrom(users, lines, p, failures) == Waiting(failures)
    ensures w < |lines| ==> var found := FindUser(users, Truncate(lines[u]), Truncate(lines[w]));
      LoginFrom(users, lines, p, failures) ==
        if found.Some? then LoggedIn(found.value, u, w, failures) else LoginFrom(users, lines, w + 1, failures + 1)
  {
    if w < |lines| {
      var found := FindUser(users, Truncate(lines[u]), Truncate(lines[w]));
      if found.Some? {
        assert LoginFrom(users, lines, p, failures) == LoggedIn(found.value, u, w, failures);
      } else {
        assert LoginFrom(users, lines, p, failures) == LoginFrom(users, lines, w + 1, failures + 1);
      }
    }
  }

  /** LoginFrom once no username is left to read. */
  lemma LoginEnds(users: seq<UserData>, lines: seq<string>, p: nat, failures: nat)
    requires |users| == USER_SLOTS && p <= |lines| && NextEntry(lines, p) == |lines|
    ensures LoginFrom(users, lines, p, failures) == Waiting(failures)
  {
  }

  /** One round of the dialogue: the input lines it took the username and the password from. */
  datatype Round = Round(nameLine: nat, passLine: nat)

  /** The complete rounds the dialogue would read from line `p` on if every pair were rejected; the table plays no part. */
  function Rounds(lines: seq<string>, p: nat): (rs: seq<Round>)
    requires p <= |lines|
    decreases |lines| - p
    ensures forall k :: 0 <= k < |rs| ==> p <= rs[k].nameLine < rs[k].passLine < |lines|
  {
    var u := NextEntry(lines, p);
    if u == |lines| then []
    else
      var w := NextEntry(lines, u + 1);
      if w == |lines| then [] else [Round(u, w)] + Rounds(lines, w + 1)
  }

  /** The table's answer to round `rd`: the lowest slot that accepts its pair, if any (a round past the input is rejected). */
  function Verdict(users: seq<UserData>, lines: seq<string>, rd: Round): Option<nat>
    requires |users| == USER_SLOTS
  {
    if rd.nameLine < |lines| && rd.passLine < |lines| then
      FindUser(users, Truncate(lines[rd.nameLine]), Truncate(lines[rd.passLine]))
    else None
  }

  /** Reference definition: the result of the first round of `rs` the table accepts, `failures` counting the ones before it. */
  function FirstAccepted(users: seq<UserData>, lines: seq<string>, rs: seq<Round>, failures: nat): LoginResult
    requires |users| == USER_SLOTS
    decreases |rs|
  {
    if rs == [] then Waiting(failures)
    else
      var v := Verdict(users, lines, rs[0]);
      if v.Some? then LoggedIn(v.value, rs[0].nameLine, rs[0].passLine, failures)
      else FirstAccepted(users, lines, rs[1..], failures + 1)
  }

  /** Rounds one round on, in the terms LoginStep states the dialogue in. */
  lemma RoundsStep(lines: seq<string>, p: nat, u: nat, w: nat)
    requires p <= |lines| && u == NextEntry(lines, p) && u < |lines| && w == NextEntry(lines, u + 1)
    ensures w == |lines| ==> Rounds(lines, p) == []
    ensures w < |lines| ==> Rounds(lines, p) == [Round(u, w)] + Rounds(lines, w + 1)
  {
    if w < |lines| {
      assert Rounds(lines, p) == [Round(u, w)] + Rounds(lines, w + 1);
    }
  }

  /** FirstAccepted on a round followed by the rest. */
  lemma FirstAcceptedCons(users: seq<UserData>, lines: seq<string>, rd: Round, rest: seq<Round>, failures: nat)
    requires |users| == USER_SLOTS
    ensures var v := Verdict(users, lines, rd);
      FirstAccepted(users, lines, [rd] + rest, failures) ==
        if v.Some? then LoggedIn(v.value, rd.nameLine, rd.passLine, failures) else FirstAccepted(users, lines, rest, failures + 1)
  {
    var rs := [rd] + rest;
    assert rs[0] == rd && rs[1..] == rest;
  }

  /** The login dialogue is the first accepted round of the rounds it reads. */
  lemma {:induction false} LoginIsFirstAcceptedRound(users: seq<UserData>, lines: seq<string>, p: nat, failures: nat)
    requires |users| == USER_SLOTS && p <= |lines|
    decreases |lines| - p
    ensures LoginFrom(users, lines, p, failures) == FirstAccepted(users, lines, Rounds(lines, p), failures)
  {
    var u := NextEntry(lines, p);
    if u < |lines| {
      var w := NextEntry(lines, u + 1);
      RoundsStep(lines, p, u, w);
      if w < |lines| {
        var rest := Rounds(lines, w + 1);
        var v := Verdict(users, lines, Round(u, w));
        calc {
          LoginFrom(users, lines, p, failures);
          == { LoginStep(users, lines, p, failures, u, w); }
          if v.Some? then LoggedIn(v.value, u, w, failures) else LoginFrom(users, lines, w + 1, failures + 1);
          == { LoginIsFirstAcceptedRound(users, lines, w + 1, failures + 1); }
          if v.Some? then LoggedIn(v.value, u, w, failures) else FirstAccepted(users, lines, rest, failures + 1);
          == { FirstAcceptedCons(users, lines, Round(u, w), rest, failures); }
          FirstAccepted(users, lines, Rounds(lines, p), failures);
        }
      } else {
        LoginStep(users, lines, p, failures, u, w);
      }
    }
  }

  /** Every round of `rs` is rejected by the table. */
  predicate AllRejected(users: seq<UserData>, lines: seq<string>, rs: seq<Round>)
    requires |users| == USER_SLOTS
    decreases |rs|
  {
    rs == [] || (Verdict(users, lines, rs[0]).None? && AllRejected(users, lines, rs[1..]))
  }

  /**
   * In the reference: the failure count is the number of rounds before the
   * login, every one of them rejected, and the login is the round at that
   * position with the slot the table answers; waiting means every round was
   * rejected and counted.
   */
  lemma {:induction false} FailuresCountRejectedRounds(users: seq<UserData>, lines: seq<string>, rs: seq<Round>, failures: nat)
    requires |users| == USER_SLOTS
    decreases |rs|
    ensures var r := FirstAccepted(users, lines, rs, failures); var k := r.failures - failures;
      r.failures >= failures && k <= |rs| && AllRejected(users, lines, rs[..k])
      && (r.LoggedIn? ==> k < |rs| && rs[k] == Round(r.nameLine, r.passLine) && Verdict(users, lines, rs[k]) == Some(r.slot))
      && (r.Waiting? ==> k == |rs|)
  {
    if rs == [] {
      assert rs[..0] == [];
    } else if Verdict(users, lines, rs[0]).Some? {
      assert rs[..0] == [];
    } else {
      var rest := rs[1..];
      FailuresCountRejectedRounds(users, lines, rest, failures + 1);
      var r := FirstAccepted(users, lines, rs, failures);
      assert r == FirstAccepted(users, lines, rest, failures + 1);
      var k' := r.failures - (failures + 1);
      var taken := rs[..k' + 1];
      assert taken[1..] == rest[..k'] by {
        assert |taken[1..]| == k';
        forall i | 0 <= i < k'
          ensures taken[1..][i] == rest[..k'][i]
        {
          assert taken[1..][i] == rs[i + 1];
        }
      }
      assert taken[0] == rs[0];
      if r.LoggedIn? {
        assert rs[k' + 1] == rest[k'];
      }
    }
  }

  /** A line holding a pair no stored user accepts never logs anybody in by itself: the attempt counts as a failure. */
  lemma RejectedPairCounts(users: seq<UserData>, name: string, pass: string, rest: seq<string>)
    requires |users| == USER_SLOTS && name != "" && pass != ""
    requires |name| <= LINE_CAPACITY && |pass| <= LINE_CAPACITY
    requires forall s :: 0 <= s < USER_SLOTS ==> !Accepts(users[s], name, pass)
    ensures LoginFrom(users, [name, pass] + rest, 0, 0) == LoginFrom(users, [name, pass] + rest, 2, 1)
  {
    var lines := [name, pass] + rest;
    FindUserIsFirstMatch(users, name, pass, 0);
    assert NextEntry(lines, 0) == 0;
    assert NextEntry(lines, 1) == 1;
  }

  /** A first attempt with a pair some slot accepts logs in at once, as the lowest such slot. */
  lemma AcceptedPairLogsIn(users: seq<UserData>, name: string, pass: string, rest: seq<string>, s: nat)
    requires |users| == USER_SLOTS && s < USER_SLOTS && Accepts(users[s], name, pass)
    requires pass != "" && |name| <= LINE_CAPACITY && |pass| <= LINE_CAPACITY
    ensures var r := LoginFrom(users, [name, pass] + rest, 0, 0);
      r.LoggedIn? && r.nameLine == 0 && r.passLine == 1 && r.failures == 0 && r.slot <= s
  {
    var lines := [name, pass] + rest;
    FindUserIsFirstMatch(users, name, pass, 0);
    assert NextEntry(lines, 0) == 0;
    assert NextEntry(lines, 1) == 1;
  }

  /** The credential check: scans every slot in order and stops at the first that accepts the pair. */
  method CheckCredentials(users: seq<UserData>, name: string, pass: string) returns (slot: Option<nat>)
    requires |users| == USER_SLOTS
    ensures slot == FindUser(users, name, pass)
  {
    var i := 0;
    while i < USER_SLOTS
      invariant 0 <= i <= USER_SLOTS
      invariant FindUserFrom(users, name, pass, i) == FindUser(users, name, pass)
    {
      if users[i].username != "" && users[i].username == name && users[i].password == pass {
        return Some(i);
      }
      i := i + 1;
    }
    return None;
  }

  /** Reads lines from `from` until a non-empty one, keeping at most 15 characters of it. */
  method ReadEntry(lines: seq<string>, from: nat) returns (entry: string, next: nat)
    requires from <= |lines|
    ensures next <= |lines|
    ensures NextEntry(lines, from) == |lines| ==> entry == "" && next == |lines|
    ensures NextEntry(lines, from) < |lines| ==>
      entry == Truncate(lines[NextEntry(lines, from)]) && entry != "" && next == NextEntry(lines, from) + 1
  {
    entry := "";
    next := from;
    while entry == ""
      invariant from <= next <= |lines|
      invariant entry == "" ==> NextEntry(lines, next) == NextEntry(lines, from)
      invariant entry != "" ==> next - 1 == NextEntry(lines, from) && entry == Truncate(lines[next - 1])
      decreases |lines| - next, if entry == "" then 1 else 0
    {
      if next == |lines| {
        return;
      }
      entry := Truncate(lines[next]);
      next := next + 1;
    }
  }

  /**
   * One round of the login loop from line `pos`: a username, a password, the
   * table check. `finished` says the loop stops here: it let a slot in, or the
   * input ran out; otherwise the pair was rejected and the loop goes on at `next`.
   */
  method LoginRound(users: seq<UserData>, lines: seq<string>, pos: nat, ghost failures: nat)
    returns (slot: Option<nat>, next: nat, finished: bool)
    requires |users| == USER_SLOTS && pos <= |lines|
    ensures slot.Some? ==> finished
    ensures finished && slot.None? ==> next == |lines| && LoginFrom(users, lines, pos, failures) == Waiting(failures)
    ensures slot.Some? ==> var r := LoginFrom(users, lines, pos, failures);
      r.LoggedIn? && r.slot == slot.value && r.passLine == next - 1 && r.failures == failures
    ensures !finished ==>
      (pos < next <= |lines| && LoginFrom(users, lines, pos, failures) == LoginFrom(users, lines, next, failures + 1))
  {
    var name, afterName := ReadEntry(lines, pos);
    if name == "" {
      assert LoginFrom(users, lines, pos, failures) == Waiting(failures) by {
        LoginEnds(users, lines, pos, failures);
      }
      return None, afterName, true;
    }
    var pass, afterPass := ReadEntry(lines, afterName);
    ghost var u, w := afterName - 1, NextEntry(lines, afterName);
    if pass == "" {
      assert LoginFrom(users, lines, pos, failures) == Waiting(failures) by {
        LoginStep(users, lines, pos, failures, u, w);
      }
      return None, afterPass, true;
    }
    slot := CheckCredentials(users, name, pass);
    assert LoginFrom(users, lines, pos, failures) ==
      if slot.Some? then LoggedIn(slot.value, u, w, failures) else LoginFrom(users, lines, afterPass, failures + 1)
    by {
      assert afterPass == w + 1 && name == Truncate(lines[u]) && pass == Truncate(lines[w]);
      LoginStep(users, lines, pos, failures, u, w);
    }
    return slot, afterPass, slot.Some?;
  }

  /**
   * The login loop run while nobody is authenticated: returns the slot it let in
   * (None when the input ran out first), how many input lines it read and how
   * many attempts were rejected.
   */
  method Authenticate(users: seq<UserData>, lines: seq<string>) returns (slot: Option<nat>, consumed: nat, failures: nat)
    requires |users| == USER_SLOTS
    ensures var r := LoginFrom(users, lines, 0, 0);
      slot.Some? == r.LoggedIn? && failures == r.failures &&
      (r.LoggedIn? ==> slot.value == r.slot && consumed == r.passLine + 1) &&
      (r.Waiting? ==> consumed == |lines|)
  {
    ghost var r := LoginFrom(users, lines, 0, 0);
    var pos := 0;
    failures := 0;
    while true
      invariant pos <= |lines|
      invariant LoginFrom(users, lines, pos, failures) == r
      decreases |lines| - pos
    {
      var finished;
      slot, consumed, finished := LoginRound(users, lines, pos, failures);
      if finished {
        return;
      }
      pos := consumed;
      failures := failures + 1;
    }
  }

}
