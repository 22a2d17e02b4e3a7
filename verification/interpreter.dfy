// The console front end: splits a line into words, walks the command grammar
// word by word binding parameters, and either runs the handler of the
// terminating fragment, prints help for the current menu, or reports why the
// line was rejected. Also the login loop that precedes it.

module Interpreter {
  import opened SystemTypes
  import opened Grammar

  // ---------------------------------------------------------------------------
  // Splitting a line into words (strtok on " ")
  // ---------------------------------------------------------------------------

  /** The end of the run of non-space characters starting at `from`. */
  function WordEnd(s: string, from: nat): (e: nat)
    requires from <= |s|
    ensures from <= e <= |s|
    ensures forall k :: from <= k < e ==> s[k] != ' '
    ensures e < |s| ==> s[e] == ' '
    decreases |s| - from
  {
    if from == |s| || s[from] == ' ' then from else WordEnd(s, from + 1)
  }

  /** The words of `s` from position `p` on: maximal runs of non-space characters, in order. */
  function WordsFrom(s: string, p: nat): (ws: seq<string>)
    requires p <= |s|
    ensures forall w | w in ws :: w != [] && ' ' !in w
    decreases |s| - p
  {
    if p == |s| then []
    else if s[p] == ' ' then WordsFrom(s, p + 1)
    else
      var e := WordEnd(s, p);
      assert ' ' !in s[p..e] by {
        forall k | 0 <= k < e - p ensures s[p..e][k] != ' ' {
          assert s[p..e][k] == s[p + k];
        }
      }
      [s[p..e]] + WordsFrom(s, e)
  }

  function Words(s: string): (ws: seq<string>)
    ensures forall w | w in ws :: w != [] && ' ' !in w
  {
    WordsFrom(s, 0)
  }

  /** Words separated by single spaces. */
  function Join(ws: seq<string>): string
  {
    if ws == [] then []
    else if |ws| == 1 then ws[0]
    else ws[0] + " " + Join(ws[1..])
  }

  /** `s` with every space removed. */
  function Squeeze(s: string): (r: string)
    ensures ' ' !in r
  {
    if s == [] then []
    else if s[0] == ' ' then Squeeze(s[1..])
    else [s[0]] + Squeeze(s[1..])
  }

  function Concat(ws: seq<string>): string
  {
    if ws == [] then [] else ws[0] + Concat(ws[1..])
  }

  lemma WordEndAt(s: string, from: nat, e: nat)
    requires from <= e <= |s|
    requires forall k :: from <= k < e ==> s[k] != ' '
    requires e == |s| || s[e] == ' '
    ensures WordEnd(s, from) == e
    decreases e - from
  {
    if from < e {
      WordEndAt(s, from + 1, e);
    }
  }

  lemma {:induction false} ConcatAppend(a: seq<string>, b: seq<string>)
    ensures Concat(a + b) == Concat(a) + Concat(b)
    decreases |a|
  {
    if a == [] {
      assert a + b == b;
    } else {
      assert (a + b)[0] == a[0];
      assert (a + b)[1..] == a[1..] + b;
      ConcatAppend(a[1..], b);
    }
  }

  lemma {:induction false} SqueezeAppend(a: string, b: string)
    ensures Squeeze(a + b) == Squeeze(a) + Squeeze(b)
    decreases |a|
  {
    if a == [] {
      assert a + b == b;
    } else {
      assert (a + b)[0] == a[0];
      assert (a + b)[1..] == a[1..] + b;
      SqueezeAppend(a[1..], b);
    }
  }

  lemma {:induction false} SqueezeOfWord(w: string)
    requires ' ' !in w
    ensures Squeeze(w) == w
    decreases |w|
  {
    if w != [] {
      SqueezeOfWord(w[1..]);
      assert w == [w[0]] + w[1..];
    }
  }

  /** Splitting keeps every non-space character, in order. */
  lemma {:induction false} WordsKeepCharacters(s: string, p: nat)
    requires p <= |s|
    ensures Concat(WordsFrom(s, p)) == Squeeze(s[p..])
    decreases |s| - p
  {
    if p == |s| {
    } else if s[p] == ' ' {
      WordsKeepCharacters(s, p + 1);
      assert s[p..] == [s[p]] + s[p + 1..];
    } else {
      var e := WordEnd(s, p);
      WordsKeepCharacters(s, e);
      assert s[p..] == s[p..e] + s[e..];
      SqueezeAppend(s[p..e], s[e..]);
      SqueezeOfWord(s[p..e]);
      ConcatAppend([s[p..e]], WordsFrom(s, e));
    }
  }

  /** Joining non-empty space-free words with single spaces and splitting again gives the words back. */
  lemma {:induction false} WordsOfJoin(ws: seq<string>)
    requires forall w | w in ws :: w != [] && ' ' !in w
    ensures Words(Join(ws)) == ws
    decreases |ws|
  {
    if ws != [] {
      var w := ws[0];
      assert w in ws;
      var s := Join(ws);
      var rest: string := if |ws| == 1 then [] else Join(ws[1..]);
      assert s == if |ws| == 1 then w else w + " " + rest;
      assert s[..|w|] == w;
      assert forall k :: 0 <= k < |w| ==> s[k] != ' ' by {
        forall k | 0 <= k < |w| ensures s[k] != ' ' {
          assert s[k] == w[k];
        }
      }
      assert s[0] != ' ';
      WordEndAt(s, 0, |w|);
      assert Words(s) == [w] + WordsFrom(s, |w|);
      if |ws| == 1 {
        assert WordsFrom(s, |w|) == [];
      } else {
        assert forall v | v in ws[1..] :: v in ws;
        WordsOfJoin(ws[1..]);
        WordsFromShift(w + " ", rest);
        assert s[|w|] == ' ';
        assert WordsFrom(s, |w|) == WordsFrom(s, |w| + 1);
        assert ws == [w] + ws[1..];
      }
    }
  }

  /** The words after a prefix that ends in a space are the words of what follows it. */
  lemma {:induction false} WordsFromShift(prefix: string, rest: string)
    requires |prefix| > 0 && prefix[|prefix| - 1] == ' '
    ensures WordsFrom(prefix + rest, |prefix|) == WordsFrom(rest, 0)
  {
    WordsFromSuffix(prefix + rest, |prefix|, rest);
  }

  lemma {:induction false} WordsFromSuffix(s: string, p: nat, rest: string)
    requires p <= |s| && s[p..] == rest
    ensures WordsFrom(s, p) == WordsFrom(rest, 0)
    decreases |s| - p
  {
    assert Shifted(s, p, rest) by {
      forall k | 0 <= k < |rest| ensures s[p + k] == rest[k] {
        assert s[p..][k] == s[p + k];
      }
    }
    WordsFromOffset(s, p, rest, 0);
  }

  lemma {:induction false} WordsFromOffset(s: string, p: nat, rest: string, q: nat)
    requires Shifted(s, p, rest) && q <= |rest|
    ensures WordsFrom(s, p + q) == WordsFrom(rest, q)
    decreases |rest| - q
  {
    if q == |rest| {
    } else if rest[q] == ' ' {
      assert s[p + q] == rest[q];
      WordsFromOffset(s, p, rest, q + 1);
    } else {
      assert s[p + q] == rest[q];
      var e := WordEnd(rest, q);
      WordEndShift(s, p, rest, q);
      assert s[p + q..p + e] == rest[q..e] by {
        forall k | 0 <= k < e - q ensures s[p + q..p + e][k] == rest[q..e][k] {
          assert s[p + q + k] == rest[q + k];
        }
      }
      WordsFromOffset(s, p, rest, e);
    }
  }

  /** `rest` is what `s` holds from position `p` on. */
  predicate Shifted(s: string, p: nat, rest: string)
  {
    |s| == p + |rest| && forall k :: 0 <= k < |rest| ==> s[p + k] == rest[k]
  }

  /** A word of the suffix ends where the same word of the whole string does, shifted by the prefix length. */
  lemma WordEndShift(s: string, p: nat, rest: string, q: nat)
    requires Shifted(s, p, rest) && q <= |rest|
    ensures WordEnd(s, p + q) == p + WordEnd(rest, q)
  {
    var e := WordEnd(rest, q);
    forall k | p + q <= k < p + e
      ensures s[k] != ' '
    {
      assert s[p + (k - p)] == rest[k - p];
    }
    assert p + e < |s| ==> s[p + e] == rest[e];
    WordEndAt(s, p + q, p + e);
  }

  /** Number of "line too long" warnings printed: one per word past the 126th. */
  function TooLongWarnings(wordCount: nat): nat
  {
    if wordCount > 126 then wordCount - 126 else 0
  }

  /** The tokenising loop at the top of the interpreter task. */
  method Tokenize(line: string) returns (tokens: seq<string>, warnings: nat)
    ensures tokens == Words(line)
    ensures warnings == TooLongWarnings(|tokens|)
  {
    tokens := [];
    warnings := 0;
    var p := 0;
    while p < |line|
      invariant p <= |line|
      invariant Words(line) == tokens + WordsFrom(line, p)
      invariant warnings == TooLongWarnings(|tokens|)
      decreases |line| - p
    {
      if line[p] == ' ' {
        p := p + 1;
      } else {
        var e := p;
        while e < |line| && line[e] != ' '
          invariant p <= e <= |line|
          invariant forall k :: p <= k < e ==> line[k] != ' '
          decreases |line| - e
        {
          e := e + 1;
        }
        WordEndAt(line, p, e);
        tokens := tokens + [line[p..e]];
        p := e;
        if |tokens| > 126 {
          warnings := warnings + 1;
        }
      }
    }
  }

  // ---------------------------------------------------------------------------
  // Walking the grammar
  // ---------------------------------------------------------------------------

  /** What the interpreter does with one line. */
  datatype Outcome =
    | NoInput                                  // empty line: only the prompt is printed again
    | NotRecognized                            // "Command Not Recognized."
    | Incomplete(echoed: seq<string>)          // "Incomplete Command Entered:" and the words so far
    | TooManyParameters                        // "Invalid Command, too many parameters entered!"
    | Unauthorized                             // "[UNAUTHORIZED]: ..."
    | Executed(handler: Handler, params: seq<Option<string>>)  // the handler is called with these slots
    | Help(lines: seq<string>)                 // help for the current menu
    | NoResponse                               // the walk ran out of depth: nothing is printed
    | Undefined                                // the walk would read past a table or follow a NULL child

  /** Word `i` matches fragment `c`: its text, or any word for a user-provided fragment, but never "?". */
  predicate Matches(c: Command, tokens: seq<string>, i: nat)
    requires c.Entry?
    ensures Matches(c, tokens, i) ==> !IsHelpRequest(tokens, i)
    ensures c.paramsUserProvided && i < |tokens| && tokens[i] != "?" ==> Matches(c, tokens, i)
  {
    i < |tokens| && (c.text == tokens[i] || c.paramsUserProvided) && tokens[i] != "?"
  }

  predicate IsHelpRequest(tokens: seq<string>, i: nat)
  {
    i < |tokens| && tokens[i] == "?"
  }

  /** The slots a matched fragment binds: the word itself, or its static parameters. */
  function Bind(c: Command, word: string): (slots: seq<Option<string>>)
    requires c.Entry?
    ensures |slots| == c.paramsRequired
    ensures c.paramsUserProvided ==> forall l :: 0 <= l < |slots| ==> slots[l] == Some(word)
    ensures !c.paramsUserProvided ==> forall l :: 0 <= l < |slots| ==> slots[l] == StaticParam(c, l)
  {
    if c.paramsUserProvided then seq(c.paramsRequired, _ => Some(word))
    else seq(c.paramsRequired, l requires 0 <= l < c.paramsRequired => StaticParam(c, l))
  }

  /** The twenty-slot parameter array handed to a handler: the bound slots, then NULLs. */
  function Padded(bound: seq<Option<string>>): (params: seq<Option<string>>)
    requires |bound| <= MAX_PARAMS
    ensures |params| == MAX_PARAMS
    ensures params[..|bound|] == bound
    ensures forall m :: |bound| <= m < MAX_PARAMS ==> params[m] == None
  {
    bound + seq(MAX_PARAMS - |bound|, _ => None)
  }

  function Min(a: nat, b: nat): nat { if a < b then a else b }

  /** The whole line: nothing for an empty line, else the walk from the root menu. */
  function Dispatch(tokens: seq<string>, perm: PermLevel): (r: Outcome)
    ensures r == NoInput <==> tokens == []
    ensures r.Executed? ==> |r.params| == MAX_PARAMS
    ensures r.Incomplete? ==> |r.echoed| <= |tokens|
  {
    if tokens == [] then NoInput else Walk(tokens, perm, ROOT, 0, false, [])
  }

  /** Depth `i` of the walk, in `menu`, with `bound` the slots bound so far. */
  function Walk(tokens: seq<string>, perm: PermLevel, menu: seq<Command>, i: nat, found: bool,
                bound: seq<Option<string>>): (r: Outcome)
    decreases MAX_DEPTH_INHERITANCE - i, MAX_MENU_ITEMS + 1
    ensures r != NoInput
    ensures r.Executed? ==> |r.params| == MAX_PARAMS
    ensures r.Incomplete? ==> |r.echoed| <= |tokens|
  {
    if i >= MAX_DEPTH_INHERITANCE then NoResponse
    else Scan(tokens, perm, menu, i, 0, found, bound)
  }

  /** Entry `j` of `menu` at depth `i`. */
  function Scan(tokens: seq<string>, perm: PermLevel, menu: seq<Command>, i: nat, j: nat, found: bool,
                bound: seq<Option<string>>): (r: Outcome)
    requires i < MAX_DEPTH_INHERITANCE
    decreases MAX_DEPTH_INHERITANCE - i, MAX_MENU_ITEMS - j
    ensures r != NoInput
    ensures r.Executed? ==> |r.params| == MAX_PARAMS
    ensures r.Incomplete? ==> |r.echoed| <= |tokens|
  {
    if j >= MAX_MENU_ITEMS then Walk(tokens, perm, menu, i + 1, found, bound)
    else if j >= |menu| then Undefined
    else if menu[j].Sentinel? then
      (if found then Incomplete(tokens[..Min(i, |tokens|)]) else NotRecognized)
    else if Matches(menu[j], tokens, i) then Take(tokens, perm, menu[j], i, bound)
    else if IsHelpRequest(tokens, i) then Help(HelpText(menu, perm))
    else Scan(tokens, perm, menu, i, j + 1, found, bound)
  }

  /** Fragment `c` matched word `i`: bind its slots, then run it or descend into its child menu. */
  function Take(tokens: seq<string>, perm: PermLevel, c: Command, i: nat, bound: seq<Option<string>>): (r: Outcome)
    requires c.Entry? && i < |tokens| && i < MAX_DEPTH_INHERITANCE
    decreases MAX_DEPTH_INHERITANCE - i, 0
    ensures r != NoInput
    ensures r.Executed? ==> |r.params| == MAX_PARAMS
    ensures r.Incomplete? ==> |r.echoed| <= |tokens|
  {
    var bound' := bound + Bind(c, tokens[i]);
    if c.isExecutable then
      if i + 1 < |tokens| then TooManyParameters
      else if Level(c.permissionsRequired) > Level(perm) then Unauthorized
      else if |bound'| > MAX_PARAMS then Undefined
      else Executed(c.func, Padded(bound'))
    else if c.childCommand.None? then Undefined
    else Walk(tokens, perm, c.childCommand.value, i + 1, true, bound')
  }

  // ---------------------------------------------------------------------------
  // Help for a menu
  // ---------------------------------------------------------------------------

  /** Index of the first sentinel of `menu` at or after `k` (bounded by the table and MAX_MENU_ITEMS). */
  function ListEnd(menu: seq<Command>, k: nat): (e: nat)
    requires k <= |menu|
    ensures k <= e <= |menu| && (e <= MAX_MENU_ITEMS || e == k)
    ensures forall m :: k <= m < e ==> menu[m].Entry?
    ensures e < |menu| && e < MAX_MENU_ITEMS ==> menu[e].Sentinel?
    decreases |menu| - k
  {
    if k == |menu| || k >= MAX_MENU_ITEMS || menu[k].Sentinel? then k else ListEnd(menu, k + 1)
  }

  /** The fragments help lists: those before the sentinel. */
  function Listed(menu: seq<Command>): (entries: seq<Command>)
    ensures |entries| <= MAX_MENU_ITEMS && |entries| <= |menu|
    ensures forall m :: 0 <= m < |entries| ==> entries[m].Entry?
    ensures entries == menu[..|entries|]
    ensures |entries| < |menu| && |entries| < MAX_MENU_ITEMS ==> menu[|entries|].Sentinel?
  {
    menu[..ListEnd(menu, 0)]
  }

  predicate AllEntries(entries: seq<Command>)
  {
    forall m :: 0 <= m < |entries| ==> entries[m].Entry?
  }

  /** Length of the longest fragment text. */
  function Longest(entries: seq<Command>): (n: nat)
    requires AllEntries(entries)
    ensures forall m :: 0 <= m < |entries| ==> |entries[m].text| <= n
    ensures entries != [] ==> exists m :: 0 <= m < |entries| && |entries[m].text| == n
    ensures entries == [] ==> n == 0
  {
    if entries == [] then 0
    else
      var last := |entries| - 1;
      var before := Longest(entries[..last]);
      assert forall m :: 0 <= m < last ==> entries[..last][m] == entries[m];
      if |entries[last].text| > before then |entries[last].text| else before
  }

  predicate Restricted(c: Command, perm: PermLevel)
    requires c.Entry?
  {
    Level(c.permissionsRequired) > Level(perm)
  }

  /** Some listed fragment needs more privilege than `perm`. */
  predicate AnyRestricted(entries: seq<Command>, perm: PermLevel)
    requires AllEntries(entries)
  {
    exists m :: 0 <= m < |entries| && Restricted(entries[m], perm)
  }

  function Spaces(n: nat): (s: string)
    ensures |s| == n && forall k :: 0 <= k < n ==> s[k] == ' '
  {
    seq(n, _ => ' ')
  }

  /** Everything of a help line before the tab that introduces the help text. */
  function HelpLead(c: Command, longest: nat, perm: PermLevel): string
    requires c.Entry? && |c.text| <= longest
  {
    "\t" + c.text + (if Restricted(c, perm) then "*" else "")
      + Spaces(longest - |c.text|) + (if Restricted(c, perm) then "\U{0008}" else "")
  }

  function HelpLine(c: Command, longest: nat, perm: PermLevel): string
    requires c.Entry? && |c.text| <= longest
  {
    HelpLead(c, longest, perm) + "\t" + c.help + "\n"
  }

  predicate FitsIn(entries: seq<Command>, longest: nat)
  {
    AllEntries(entries) && forall m :: 0 <= m < |entries| ==> |entries[m].text| <= longest
  }

  /** One help line per fragment, in table order. */
  function HelpLines(entries: seq<Command>, longest: nat, perm: PermLevel): (lines: seq<string>)
    requires FitsIn(entries, longest)
    ensures |lines| == |entries|
    ensures forall m :: 0 <= m < |entries| ==> lines[m] == HelpLine(entries[m], longest, perm)
  {
    if entries == [] then []
    else
      var last := |entries| - 1;
      assert forall m :: 0 <= m < last ==> entries[..last][m] == entries[m];
      HelpLines(entries[..last], longest, perm) + [HelpLine(entries[last], longest, perm)]
  }

  const ELEVATED_FOOTER: string := "\n[*] Command requires elevated priviledges!\n"

  /** One line per listed fragment, then the footer when any of them needs more privilege. */
  function HelpText(menu: seq<Command>, perm: PermLevel): (lines: seq<string>)
    ensures |lines| == |Listed(menu)| || |lines| == |Listed(menu)| + 1
    ensures |lines| == |Listed(menu)| + 1 <==> AnyRestricted(Listed(menu), perm)
    ensures |lines| == |Listed(menu)| + 1 ==> lines[|Listed(menu)|] == ELEVATED_FOOTER
  {
    var entries := Listed(menu);
    HelpLines(entries, Longest(entries), perm)
      + (if AnyRestricted(entries, perm) then [ELEVATED_FOOTER] else [])
  }

  /** Display width of a string: a backspace moves the cursor back one column. */
  function Width(s: string): int
  {
    if s == [] then 0 else (if s[0] == '\U{0008}' then -1 else 1) + Width(s[1..])
  }

  lemma {:induction false} WidthAppend(a: string, b: string)
    ensures Width(a + b) == Width(a) + Width(b)
    decreases |a|
  {
    if a == [] {
      assert a + b == b;
    } else {
      assert (a + b)[0] == a[0];
      assert (a + b)[1..] == a[1..] + b;
      WidthAppend(a[1..], b);
    }
  }

  lemma {:induction false} WidthPlain(s: string)
    requires '\U{0008}' !in s
    ensures Width(s) == |s|
    decreases |s|
  {
    if s != [] {
      assert s[1..] == s[1..];
      assert '\U{0008}' !in s[1..] by {
        forall k | 0 <= k < |s| - 1 ensures s[1..][k] != '\U{0008}' { assert s[1..][k] == s[k + 1]; }
      }
      WidthPlain(s[1..]);
    }
  }

  /** A help line's lead is one column wider than the longest text, whether or not the fragment is restricted. */
  lemma HelpLeadWidth(c: Command, longest: nat, perm: PermLevel)
    requires c.Entry? && |c.text| <= longest && '\U{0008}' !in c.text
    ensures Width(HelpLead(c, longest, perm)) == 1 + longest
  {
    var star: string := if Restricted(c, perm) then "*" else "";
    var back: string := if Restricted(c, perm) then "\U{0008}" else "";
    var pad := Spaces(longest - |c.text|);
    assert HelpLead(c, longest, perm) == "\t" + c.text + star + pad + back;
    WidthAppend("\t" + c.text + star + pad, back);
    WidthAppend("\t" + c.text + star, pad);
    WidthAppend("\t" + c.text, star);
    WidthAppend("\t", c.text);
    WidthPlain(c.text);
    WidthPlain(pad);
    assert Width("\t") == 1;
    assert Width(star) == (if Restricted(c, perm) then 1 else 0);
    assert Width(back) == (if Restricted(c, perm) then -1 else 0);
  }

  /**
   * Help is aligned: for every listed fragment (whose text holds no backspace),
   * the help text starts at the same display column, one past the longest
   * fragment text. The "*" of a restricted fragment is taken back by a backspace.
   */
  lemma HelpColumnsAligned(menu: seq<Command>, perm: PermLevel, m: nat)
    requires m < |Listed(menu)|
    requires '\U{0008}' !in Listed(menu)[m].text
    ensures var entries := Listed(menu);
      HelpText(menu, perm)[m] == HelpLead(entries[m], Longest(entries), perm) + "\t" + entries[m].help + "\n"
      && Width(HelpLead(entries[m], Longest(entries), perm)) == 1 + Longest(entries)
  {
    var entries := Listed(menu);
    HelpLeadWidth(entries[m], Longest(entries), perm);
  }

  /** The help loops: find the longest text, then print one line per fragment and the footer. */
  method RenderHelp(menu: seq<Command>, perm: PermLevel) returns (lines: seq<string>)
    ensures lines == HelpText(menu, perm)
  {
    var entries := Listed(menu);
    var longest := LongestText(entries);
    var elevated;
    lines, elevated := PrintHelpLines(entries, longest, perm);
    if elevated {
      lines := lines + [ELEVATED_FOOTER];
    }
  }

  /** The second help loop: one line per fragment, noting whether any of them is restricted. */
  method PrintHelpLines(entries: seq<Command>, longest: nat, perm: PermLevel)
    returns (lines: seq<string>, elevated: bool)
    requires FitsIn(entries, longest)
    ensures lines == HelpLines(entries, longest, perm)
    ensures elevated == AnyRestricted(entries, perm)
  {
    lines := [];
    elevated := false;
    var k := 0;
    while k < |entries|
      invariant k <= |entries|
      invariant FitsIn(entries[..k], longest)
      invariant lines == HelpLines(entries[..k], longest, perm)
      invariant elevated == AnyRestricted(entries[..k], perm)
    {
      HelpLinesSnoc(entries, k, longest, perm);
      lines := lines + [HelpLine(entries[k], longest, perm)];
      if Restricted(entries[k], perm) {
        elevated := true;
      }
      k := k + 1;
    }
    assert entries[..k] == entries;
  }

  lemma HelpLinesSnoc(entries: seq<Command>, k: nat, longest: nat, perm: PermLevel)
    requires k < |entries| && FitsIn(entries, longest)
    ensures FitsIn(entries[..k], longest) && FitsIn(entries[..k + 1], longest)
    ensures HelpLines(entries[..k + 1], longest, perm)
      == HelpLines(entries[..k], longest, perm) + [HelpLine(entries[k], longest, perm)]
    ensures AnyRestricted(entries[..k + 1], perm)
      == (AnyRestricted(entries[..k], perm) || Restricted(entries[k], perm))
  {
    assert entries[..k + 1][..k] == entries[..k];
    assert entries[..k + 1][k] == entries[k];
    if AnyRestricted(entries[..k + 1], perm) && !Restricted(entries[k], perm) {
      var m :| 0 <= m < k + 1 && Restricted(entries[..k + 1][m], perm);
      assert entries[..k][m] == entries[m];
    }
  }

  /** The first help loop: the length of the longest fragment text. */
  method LongestText(entries: seq<Command>) returns (longest: nat)
    requires AllEntries(entries)
    ensures longest == Longest(entries)
  {
    longest := 0;
    var k := 0;
    while k < |entries|
      invariant k <= |entries|
      invariant longest == Longest(entries[..k])
    {
      assert entries[..k + 1][..k] == entries[..k];
      if |entries[k].text| > longest {
        longest := |entries[k].text|;
      }
      k := k + 1;
    }
    assert entries[..k] == entries;
  }

  // ---------------------------------------------------------------------------
  // The dispatch loop
  // ---------------------------------------------------------------------------

  /** The line handler of the interpreter task: nothing for an empty line, else the walk from the root menu. */
  method Interpret(tokens: seq<string>, perm: PermLevel) returns (outcome: Outcome)
    ensures outcome == Dispatch(tokens, perm)
  {
    if tokens == [] {
      return NoInput;
    }
    GrammarWellFormed();
    outcome := WalkMenus(ROOT, tokens, perm);
  }

  /**
   * The nested search of the interpreter task: at each depth scan the current
   * menu for the first fragment the word matches, bind its parameters into the
   * twenty-slot array, then run the handler, descend into the child menu, or
   * print help. A well-formed grammar keeps the walk within the menus, within
   * five levels and within four parameter slots.
   */
  method WalkMenus(root: seq<Command>, tokens: seq<string>, perm: PermLevel) returns (outcome: Outcome)
    requires WellFormedMenu(root, 5, 4)
    ensures outcome == Walk(tokens, perm, root, 0, false, [])
  {
    var params := new Option<string>[MAX_PARAMS](_ => None);
    var k := 0;
    var menu := root;
    var foundChild := false;
    var i := 0;
    ghost var bound: seq<Option<string>> := [];
    ghost var height: nat, budget: nat := 5, 4;
    assert params[..] == Padded(bound);
    while true
      invariant WellFormedMenu(menu, height, budget)
      invariant i + height == 5 && k + budget == 4 && k == |bound|
      invariant params.Length == MAX_PARAMS && params[..] == Padded(bound)
      invariant Walk(tokens, perm, menu, i, foundChild, bound) == Walk(tokens, perm, root, 0, false, [])
      decreases height
    {
      WalkEntersScan(tokens, perm, menu, i, foundChild, bound);
      var j := FindFragment(tokens, perm, menu, i, foundChild, bound, height, budget);
      MenuEntry(menu, height, budget, j);
      if menu[j].Sentinel? || !Matches(menu[j], tokens, i) || menu[j].isExecutable {
        outcome := Conclude(tokens, perm, menu, i, j, foundChild, params, k, bound);
        return;
      }
      var c := menu[j];
      k := BindSlots(params, k, c, tokens[i], bound);
      Descends(tokens, perm, menu, i, j, foundChild, bound, height, budget);
      bound := bound + Bind(c, tokens[i]);
      menu := c.childCommand.value;
      foundChild := true;
      i := i + 1;
      height, budget := height - 1, budget - c.paramsRequired;
    }
  }

  /** The walk goes on in the child menu of the matched fragment, which is well formed one level down. */
  lemma Descends(tokens: seq<string>, perm: PermLevel, menu: seq<Command>, i: nat, j: nat, found: bool,
                 bound: seq<Option<string>>, height: nat, budget: nat)
    requires WellFormedMenu(menu, height, budget) && i < MAX_DEPTH_INHERITANCE && j < |menu| && j < MAX_MENU_ITEMS
    requires menu[j].Entry? && Matches(menu[j], tokens, i) && !menu[j].isExecutable
    requires Scan(tokens, perm, menu, i, j, found, bound) == Walk(tokens, perm, menu, i, found, bound)
    ensures var c := menu[j];
      && c.childCommand.Some? && height > 1 && c.paramsRequired <= budget
      && WellFormedMenu(c.childCommand.value, height - 1, budget - c.paramsRequired)
      && Walk(tokens, perm, menu, i, found, bound) == Walk(tokens, perm, c.childCommand.value, i + 1, true, bound + Bind(c, tokens[i]))
  {
    MenuEntry(menu, height, budget, j);
    ScanDescends(tokens, perm, menu, i, j, found, bound);
  }

  /** The fragment's slots are copied into the array only when it declares some. */
  method BindSlots(params: array<Option<string>>, k: nat, c: Command, word: string,
                   ghost bound: seq<Option<string>>) returns (next: nat)
    requires c.Entry? && k == |bound| && k + c.paramsRequired <= MAX_PARAMS
    requires params.Length == MAX_PARAMS && params[..] == Padded(bound)
    modifies params
    ensures next == k + c.paramsRequired
    ensures params[..] == Padded(bound + Bind(c, word))
  {
    if c.paramsRequired != NO_PARAMETERS {
      next := SaveParams(params, k, c, word, bound);
    } else {
      assert bound + Bind(c, word) == bound;
      next := k;
    }
  }

  /** Entry `j` ends the walk: the sentinel, a help request, or a terminating fragment. */
  method Conclude(tokens: seq<string>, perm: PermLevel, menu: seq<Command>, i: nat, j: nat, found: bool,
                  params: array<Option<string>>, k: nat, ghost bound: seq<Option<string>>)
    returns (outcome: Outcome)
    requires i < MAX_DEPTH_INHERITANCE && j < |menu| && j < MAX_MENU_ITEMS
    requires menu[j].Sentinel? || Matches(menu[j], tokens, i) || IsHelpRequest(tokens, i)
    requires menu[j].Sentinel? || !Matches(menu[j], tokens, i) || menu[j].isExecutable
    requires menu[j].Entry? ==> k + menu[j].paramsRequired <= MAX_PARAMS
    requires k == |bound| && k <= MAX_PARAMS && params.Length == MAX_PARAMS && params[..] == Padded(bound)
    modifies params
    ensures outcome == Scan(tokens, perm, menu, i, j, found, bound)
  {
    if menu[j].Sentinel? {
      if found {
        return Incomplete(tokens[..Min(i, |tokens|)]);
      }
      return NotRecognized;
    }
    if !Matches(menu[j], tokens, i) {
      var lines := RenderHelp(menu, perm);
      return Help(lines);
    }
    var c := menu[j];
    var next := BindSlots(params, k, c, tokens[i], bound);
    if i + 1 < |tokens| {
      return TooManyParameters;
    }
    if Level(c.permissionsRequired) > Level(perm) {
      return Unauthorized;
    }
    return Executed(c.func, params[..]);
  }

  /** The inner loop: the first entry that is the sentinel, matches word `i`, or answers a help request. */
  method FindFragment(tokens: seq<string>, perm: PermLevel, menu: seq<Command>, i: nat, ghost found: bool,
                      ghost bound: seq<Option<string>>, ghost height: nat, ghost budget: nat) returns (j: nat)
    requires WellFormedMenu(menu, height, budget) && i < MAX_DEPTH_INHERITANCE
    ensures j < |menu| && j < MAX_MENU_ITEMS
    ensures menu[j].Sentinel? || Matches(menu[j], tokens, i) || IsHelpRequest(tokens, i)
    ensures Scan(tokens, perm, menu, i, j, found, bound) == Scan(tokens, perm, menu, i, 0, found, bound)
  {
    j := 0;
    MenuEntry(menu, height, budget, j);
    while menu[j].Entry? && !Matches(menu[j], tokens, i) && !IsHelpRequest(tokens, i)
      invariant j < |menu| <= MAX_MENU_ITEMS
      invariant Scan(tokens, perm, menu, i, j, found, bound) == Scan(tokens, perm, menu, i, 0, found, bound)
      decreases |menu| - j
    {
      MenuEntry(menu, height, budget, j);
      ScanSkips(tokens, perm, menu, i, j, found, bound);
      j := j + 1;
    }
  }

  /** What a well-formed menu guarantees about its entry `j`. */
  lemma MenuEntry(menu: seq<Command>, height: nat, budget: nat, j: nat)
    requires WellFormedMenu(menu, height, budget) && j < |menu|
    ensures |menu| <= MAX_MENU_ITEMS
    ensures menu[j].Sentinel? <==> j == |menu| - 1
    ensures menu[j].Entry? ==> menu[j].paramsRequired <= budget
    ensures menu[j].Entry? ==> (menu[j].isExecutable <==> menu[j].childCommand.None?)
    ensures menu[j].Entry? && menu[j].childCommand.Some? ==>
      height > 1 && WellFormedMenu(menu[j].childCommand.value, height - 1, budget - menu[j].paramsRequired)
  {}

  lemma WalkEntersScan(tokens: seq<string>, perm: PermLevel, menu: seq<Command>, i: nat, found: bool,
                       bound: seq<Option<string>>)
    requires i < MAX_DEPTH_INHERITANCE
    ensures Walk(tokens, perm, menu, i, found, bound) == Scan(tokens, perm, menu, i, 0, found, bound)
  {}

  lemma ScanSkips(tokens: seq<string>, perm: PermLevel, menu: seq<Command>, i: nat, j: nat, found: bool,
                  bound: seq<Option<string>>)
    requires i < MAX_DEPTH_INHERITANCE && j < |menu| && j < MAX_MENU_ITEMS
    requires menu[j].Entry? && !Matches(menu[j], tokens, i) && !IsHelpRequest(tokens, i)
    ensures Scan(tokens, perm, menu, i, j, found, bound) == Scan(tokens, perm, menu, i, j + 1, found, bound)
  {}

  lemma ScanDescends(tokens: seq<string>, perm: PermLevel, menu: seq<Command>, i: nat, j: nat, found: bool,
                     bound: seq<Option<string>>)
    requires i < MAX_DEPTH_INHERITANCE && j < |menu| && j < MAX_MENU_ITEMS
    requires menu[j].Entry? && Matches(menu[j], tokens, i)
    requires !menu[j].isExecutable && menu[j].childCommand.Some?
    ensures Scan(tokens, perm, menu, i, j, found, bound)
      == Walk(tokens, perm, menu[j].childCommand.value, i + 1, true, bound + Bind(menu[j], tokens[i]))
  {
    assert Scan(tokens, perm, menu, i, j, found, bound) == Take(tokens, perm, menu[j], i, bound);
  }

  lemma PaddedSnoc(bound: seq<Option<string>>, v: Option<string>)
    requires |bound| < MAX_PARAMS
    ensures Padded(bound + [v]) == Padded(bound)[|bound| := v]
  {
    var l, r := Padded(bound + [v]), Padded(bound)[|bound| := v];
    forall m | 0 <= m < MAX_PARAMS ensures l[m] == r[m] {
      if m < |bound| {
        assert l[m] == l[..|bound| + 1][m] == (bound + [v])[m];
        assert r[m] == Padded(bound)[..|bound|][m];
      }
    }
  }

  /** Copies the slots fragment `c` binds for `word` into `params` from slot `k` on. */
  method SaveParams(params: array<Option<string>>, k: nat, c: Command, word: string,
                    ghost bound: seq<Option<string>>) returns (next: nat)
    requires c.Entry? && k == |bound| && k + c.paramsRequired <= MAX_PARAMS
    requires params.Length == MAX_PARAMS && params[..] == Padded(bound)
    modifies params
    ensures next == k + c.paramsRequired
    ensures params[..] == Padded(bound + Bind(c, word))
  {
    next := k;
    var l := 0;
    assert bound + Bind(c, word)[..l] == bound;
    while l < c.paramsRequired
      invariant 0 <= l <= c.paramsRequired
      invariant next == k + l
      invariant params[..] == Padded(bound + Bind(c, word)[..l])
    {
      ghost var prefix := bound + Bind(c, word)[..l];
      if c.paramsUserProvided {
        params[next] := Some(word);
      } else {
        params[next] := StaticParam(c, l);
      }
      PaddedSnoc(prefix, Bind(c, word)[l]);
      assert bound + Bind(c, word)[..l + 1] == prefix + [Bind(c, word)[l]];
      next := next + 1;
      l := l + 1;
    }
    assert Bind(c, word)[..l] == Bind(c, word);
  }
}
