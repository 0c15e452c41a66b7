/**
 The text files the stages exchange: how a word count is written as a line, how Python
 splits a file into lines, and how a line is read back.
 */
module TextFile {
  import opened Sequences
  import opened Decimal
  import opened Dictionary
  import opened WordText
  import opened WordRuns

  // ----- lines -----

  /** The position of the first c in s, or the length of s. */
  function IndexOf(s: string, c: char): (r: nat)
    ensures r <= |s| && (forall k :: 0 <= k < r ==> s[k] != c) && (r < |s| ==> s[r] == c)
  {
    if s == "" || s[0] == c then 0 else 1 + IndexOf(s[1..], c)
  }

  lemma {:induction false} IndexOfUnique(s: string, c: char, r: nat)
    requires r <= |s| && (forall k :: 0 <= k < r ==> s[k] != c) && (r < |s| ==> s[r] == c)
    ensures IndexOf(s, c) == r
  {
    if r > 0 {
      IndexOfUnique(s[1..], c, r - 1);
    }
  }

  /** The position after the last c in s, as `find_last_of(c) + 1` and `rfind(c) + 1` give it; zero without one. */
  function AfterLast(s: string, c: char): (r: nat)
    ensures r <= |s| && c !in s[r..] && (r > 0 ==> s[r - 1] == c)
  {
    if s == "" || s[|s| - 1] == c then |s| else AfterLast(s[..|s| - 1], c)
  }

  lemma {:induction false} AfterLastIs(a: string, c: char, d: string)
    requires c !in d
    ensures AfterLast(a + [c] + d, c) == |a| + 1
    decreases |d|
  {
    var s := a + [c] + d;
    if d != "" {
      assert s[|s| - 1] == d[|d| - 1] && d[|d| - 1] in d;
      assert s[..|s| - 1] == a + [c] + d[..|d| - 1];
      AfterLastIs(a, c, d[..|d| - 1]);
    }
  }

  /** The lines of a text file, each with its newline. */
  function Lines(s: string): seq<string> {
    if s == "" then []
    else
      var i := IndexOf(s, '\n');
      if i == |s| then [s] else [s[..i + 1]] + Lines(s[i + 1..])
  }

  /** A newline at the end and nowhere else. */
  predicate IsLine(s: string) {
    s != "" && s[|s| - 1] == '\n' && forall k :: 0 <= k < |s| - 1 ==> s[k] != '\n'
  }

  predicate AllLines(ls: seq<string>) {
    forall i :: 0 <= i < |ls| ==> IsLine(ls[i])
  }

  lemma {:induction false} LinesOfFlatten(ls: seq<string>)
    requires AllLines(ls)
    ensures Lines(Flatten(ls)) == ls
  {
    if ls != [] {
      var s := Flatten(ls);
      assert s == ls[0] + Flatten(ls[1..]);
      assert forall k :: 0 <= k < |ls[0]| ==> s[k] == ls[0][k];
      IndexOfUnique(s, '\n', |ls[0]| - 1);
      LinesOfFlatten(ls[1..]);
      assert s[..|ls[0]|] == ls[0] && s[|ls[0]|..] == Flatten(ls[1..]);
    }
  }

  // ----- white space -----

  predicate IsSpace(c: char) {
    c == ' ' || c == '\n'
  }

  function LStrip(s: string): string {
    if s != "" && IsSpace(s[0]) then LStrip(s[1..]) else s
  }

  function RStrip(s: string): string {
    if s != "" && IsSpace(s[|s| - 1]) then RStrip(s[..|s| - 1]) else s
  }

  function Strip(s: string): string {
    RStrip(LStrip(s))
  }

  lemma {:induction false} StripNewline(s: string)
    requires s != "" && !IsSpace(s[0]) && !IsSpace(s[|s| - 1])
    ensures Strip(s + "\n") == s
  {
    assert LStrip(s + "\n") == s + "\n";
    assert (s + "\n")[..|s|] == s;
    assert RStrip(s + "\n") == RStrip(s);
  }

  // ----- one line per word -----

  /** The key as Python's `repr` shows it. */
  function Quoted(w: string): string {
    "'" + w + "'"
  }

  function FormatLine(e: Entry): string {
    Quoted(e.key) + ":" + ToString(e.n) + "\n"
  }

  function FormatLines(d: Dict): seq<string> {
    if d == [] then [] else [FormatLine(d[0])] + FormatLines(d[1..])
  }

  function Format(d: Dict): string {
    Flatten(FormatLines(d))
  }

  /** Python's `key.translate` with a table that deletes punctuation. */
  function DropPunct(s: string): string {
    if s == "" then "" else (if IsPunct(s[0]) then "" else [s[0]]) + DropPunct(s[1..])
  }

  /** `key, value = line.rsplit(':')`, `int(value)`; None stands for the ValueError. */
  function ParseLine(line: string): Option<Entry> {
    var i := IndexOf(line, ':');
    if i == |line| || IndexOf(line[i + 1..], ':') != |line[i + 1..]| then None
    else
      var value := Strip(line[i + 1..]);
      if IsNumber(value) then Some(Entry(DropPunct(line[..i]), Parse(value))) else None
  }

  lemma {:induction false} DropPunctConcat(a: string, b: string)
    ensures DropPunct(a + b) == DropPunct(a) + DropPunct(b)
  {
    if a == "" {
      assert a + b == b;
    } else {
      assert (a + b)[1..] == a[1..] + b;
      DropPunctConcat(a[1..], b);
    }
  }

  /** What `translate` deletes: printable characters that are neither letters nor digits nor blanks. */
  lemma {:induction false} DropPunctAt(a: string, c: char, b: string)
    ensures DropPunct(a + [c] + b) == DropPunct(a) + (if ' ' < c <= '~' && !IsAlnum(c) then "" else [c]) + DropPunct(b)
  {
    PunctuationIs(c);
    DropPunctConcat(a + [c], b);
    DropPunctConcat(a, [c]);
    assert [c][1..] == "";
    assert DropPunct([c]) == (if IsPunct(c) then "" else [c]) + DropPunct("");
  }

  lemma {:induction false} DropPunctKeeps(s: string)
    requires forall i :: 0 <= i < |s| ==> !IsPunct(s[i])
    ensures DropPunct(s) == s
  {
    if s != "" {
      DropPunctKeeps(s[1..]);
    }
  }

  lemma {:induction false} UnquoteQuoted(w: string)
    requires IsWord(w)
    ensures DropPunct(Quoted(w)) == w
  {
    DropPunctConcat("'" + w, "'");
    DropPunctConcat("'", w);
    DropPunctKeeps(w);
    assert DropPunct("'") == "" + DropPunct("'"[1..]);
  }

  lemma {:induction false} NumberIsStripped(n: nat)
    ensures Strip(ToString(n) + "\n") == ToString(n)
    ensures forall k :: 0 <= k < |ToString(n)| ==> IsDigit(ToString(n)[k])
  {
    var t := ToString(n);
    assert forall k :: 0 <= k < |t| ==> t[k] in t;
    StripNewline(t);
  }

  lemma {:induction false} FormatLineShape(e: Entry)
    requires IsWord(e.key)
    ensures var q, t, line := Quoted(e.key), ToString(e.n), FormatLine(e);
            && |line| == |q| + |t| + 2 && line[..|q|] == q && line[|q|] == ':' && line[|q| + 1..] == t + "\n"
            && (forall k :: 0 <= k < |q| ==> line[k] != ':') && IsLine(line)
  {
    var q, t, line := Quoted(e.key), ToString(e.n), FormatLine(e);
    NumberIsStripped(e.n);
    assert line == q + (":" + (t + "\n"));
    assert line[|q| + 1..] == t + "\n";
    forall k | 0 <= k < |q| ensures q[k] != ':' && q[k] != '\n' {
      if 0 < k < |q| - 1 {
        assert q[k] == e.key[k - 1];
      }
    }
    forall k | |q| < k < |line| - 1 ensures line[k] != '\n' {
      assert line[k] == t[k - |q| - 1];
    }
  }

  /** Reading a line back gives the entry it was written for. */
  lemma {:induction false} ParseFormat(e: Entry)
    requires IsWord(e.key)
    ensures IsLine(FormatLine(e)) && ParseLine(FormatLine(e)) == Some(e)
  {
    var q, t := Quoted(e.key), ToString(e.n);
    var line := FormatLine(e);
    FormatLineShape(e);
    IndexOfUnique(line, ':', |q|);
    NumberIsStripped(e.n);
    IndexOfUnique(t + "\n", ':', |t| + 1);
    ParseToString(e.n);
    UnquoteQuoted(e.key);
  }

  predicate AllBlank(s: string) {
    forall i :: 0 <= i < |s| ==> s[i] == ' ' || s[i] == '\n'
  }

  lemma {:induction false} StripBlanks(a: string, s: string, b: string)
    requires AllBlank(a) && AllBlank(b) && s != "" && !IsSpace(s[0]) && !IsSpace(s[|s| - 1])
    ensures Strip(a + s + b) == s
  {
    if a != "" {
      assert (a + s + b)[1..] == a[1..] + s + b;
      StripBlanks(a[1..], s, b);
    } else {
      assert a + s + b == s + b && LStrip(s + b) == s + b;
      RStripBlanks(s, b);
    }
  }

  lemma {:induction false} RStripBlanks(s: string, b: string)
    requires AllBlank(b) && s != "" && !IsSpace(s[|s| - 1])
    ensures RStrip(s + b) == s
  {
    if b == "" {
      assert s + b == s;
    } else {
      assert (s + b)[..|s + b| - 1] == s + b[..|b| - 1];
      RStripBlanks(s, b[..|b| - 1]);
    }
  }

  /** A number may have blanks around it; any key without colon is read, and loses its punctuation. */
  lemma {:induction false} ParseAnyKey(key: string, before: string, n: nat, after: string)
    requires ':' !in key && AllBlank(before) && AllBlank(after)
    ensures ParseLine(key + ":" + before + ToString(n) + after) == Some(Entry(DropPunct(key), n))
  {
    var t := ToString(n);
    var value := before + t + after;
    var line := key + ":" + before + t + after;
    assert line == key + (":" + value) && line[|key| + 1..] == value;
    assert forall k :: 0 <= k < |t| ==> t[k] in t;
    IndexOfUnique(line, ':', |key|);
    IndexOfUnique(value, ':', |value|);
    StripBlanks(before, t, after);
    ParseToString(n);
  }

  /** A line is refused unless it has exactly one colon and only digits behind it, but for blanks at either end. */
  lemma {:induction false} ReadableExactly(line: string)
    ensures ParseLine(line).Some? <==>
        exists i :: 0 <= i < |line| && OnlyColon(line, i) && IsNumber(Strip(line[i + 1..]))
  {
    if ParseLine(line).Some? {
      OneColon(line);
    }
    if exists i :: 0 <= i < |line| && OnlyColon(line, i) && IsNumber(Strip(line[i + 1..])) {
      var i :| 0 <= i < |line| && OnlyColon(line, i) && IsNumber(Strip(line[i + 1..]));
      NumberIsRead(line, i);
    }
  }

  lemma {:induction false} NumberIsRead(line: string, i: nat)
    requires i < |line| && OnlyColon(line, i) && IsNumber(Strip(line[i + 1..]))
    ensures ParseLine(line).Some?
  {
    IndexOfUnique(line, ':', i);
    IndexOfUnique(line[i + 1..], ':', |line[i + 1..]|);
  }

  lemma {:induction false} OneColon(line: string)
    requires ParseLine(line).Some?
    ensures var i := IndexOf(line, ':'); i < |line| && OnlyColon(line, i) && IsNumber(Strip(line[i + 1..]))
  {
    var i := IndexOf(line, ':');
    forall k | 0 <= k < |line| ensures line[k] == ':' <==> k == i {
      if k > i {
        assert line[k] == line[i + 1..][k - i - 1];
      }
    }
  }

  predicate OnlyColon(line: string, i: nat)
    requires i < |line|
  {
    forall k :: 0 <= k < |line| ==> (line[k] == ':' <==> k == i)
  }

  // ----- what a file of such lines says about a word -----

  function LineValue(line: string, w: string): nat {
    match ParseLine(line)
    case None => 0
    case Some(e) => if e.key == w then e.n else 0
  }

  function LinesSum(ls: seq<string>, w: string): nat {
    if ls == [] then 0 else LineValue(ls[0], w) + LinesSum(ls[1..], w)
  }

  lemma {:induction false} LinesSumConcat(a: seq<string>, b: seq<string>, w: string)
    ensures LinesSum(a + b, w) == LinesSum(a, w) + LinesSum(b, w)
  {
    if a == [] {
      assert a + b == b;
    } else {
      assert (a + b)[1..] == a[1..] + b;
      LinesSumConcat(a[1..], b, w);
    }
  }

  /** The order of the lines does not matter. */
  lemma {:induction false} LinesSumPermutes(a: seq<string>, b: seq<string>, w: string)
    requires multiset(a) == multiset(b)
    ensures LinesSum(a, w) == LinesSum(b, w)
  {
    if a == [] {
      assert |b| == |multiset(b)| == 0;
    } else {
      var k := MatchFirst(a, b);
      LinesSumPermutes(a[1..], b[..k] + b[k + 1..], w);
      LinesSumAt(b, k, w);
    }
  }

  lemma {:induction false} LinesSumAt(ls: seq<string>, k: nat, w: string)
    requires k < |ls|
    ensures LinesSum(ls, w) == LineValue(ls[k], w) + LinesSum(ls[..k] + ls[k + 1..], w)
  {
    assert ls == ls[..k] + ls[k..] && ls[k..][1..] == ls[k + 1..];
    LinesSumConcat(ls[..k], ls[k..], w);
    LinesSumConcat(ls[..k], ls[k + 1..], w);
  }

  predicate WordKeys(d: Dict) {
    forall i :: 0 <= i < |d| ==> IsWord(d[i].key)
  }

  lemma {:induction false} FormattedSum(d: Dict, w: string)
    requires WordKeys(d)
    ensures AllLines(FormatLines(d)) && LinesSum(FormatLines(d), w) == Sum(d, w)
  {
    if d != [] {
      ParseFormat(d[0]);
      FormattedSum(d[1..], w);
      assert FormatLines(d)[1..] == FormatLines(d[1..]);
    }
  }

  lemma {:induction false} FormattedLines(d: Dict)
    requires WordKeys(d)
    ensures AllLines(FormatLines(d)) && Lines(Format(d)) == FormatLines(d)
  {
    FormattedSum(d, "");
    LinesOfFlatten(FormatLines(d));
  }
}
