/**
 The words of a text, without the function that collects them: the maximal runs of letters
 and digits, in lower case; and how often a word occurs, as the number of its runs.
 */
module WordRuns {
  import opened WordText
  import opened Dictionary

  predicate IsAlnum(c: char) {
    '0' <= c <= '9' || 'A' <= c <= 'Z' || 'a' <= c <= 'z'
  }

  /** Python's `string.punctuation`: everything printable that is no letter, digit or blank. */
  lemma {:induction false} PunctuationIs(c: char)
    ensures IsPunct(c) <==> ' ' < c <= '~' && !IsAlnum(c)
    ensures c == '\n' || ' ' <= c <= '~' ==> (IsWordChar(c) <==> IsAlnum(c))
  {
  }

  datatype Run = Run(from: nat, to: nat)

  /** Letters and digits that no letter or digit comes before or after. */
  predicate MaximalRun(s: string, x: Run) {
    && x.from < x.to <= |s|
    && (forall k :: x.from <= k < x.to ==> IsAlnum(s[k]))
    && (x.from > 0 ==> !IsAlnum(s[x.from - 1]))
    && (x.to < |s| ==> !IsAlnum(s[x.to]))
  }

  /** w is t in lower case. */
  predicate LowerCaseOf(w: string, t: string) {
    && |w| == |t|
    && forall k :: 0 <= k < |t| ==> w[k] as int == t[k] as int + if 'A' <= t[k] <= 'Z' then 32 else 0
  }

  /** One word a run, in order. */
  predicate InOrder(runs: seq<Run>) {
    forall i, j :: 0 <= i < j < |runs| ==> runs[i].to < runs[j].from
  }

  predicate Spelt(s: string, runs: seq<Run>, ws: seq<string>) {
    |runs| == |ws| && forall i :: 0 <= i < |runs| ==>
      MaximalRun(s, runs[i]) && LowerCaseOf(ws[i], s[runs[i].from..runs[i].to])
  }

  predicate InRun(x: Run, k: nat) {
    x.from <= k < x.to
  }

  /** Every letter and digit from position a on is in one of the runs. */
  predicate Covered(s: string, runs: seq<Run>, a: nat) {
    forall k :: a <= k < |s| && IsAlnum(s[k]) ==> CoveredAt(runs, k)
  }

  predicate CoveredAt(runs: seq<Run>, k: nat) {
    exists i :: 0 <= i < |runs| && InRun(runs[i], k)
  }

  lemma {:induction false} CoveredCons(s: string, x: Run, runs: seq<Run>)
    requires Covered(s, runs, x.to)
    ensures Covered(s, [x] + runs, x.from)
  {
    var all := [x] + runs;
    forall k | x.from <= k < |s| && IsAlnum(s[k]) ensures CoveredAt(all, k) {
      if k < x.to {
        assert InRun(all[0], k);
      } else {
        var i :| 0 <= i < |runs| && InRun(runs[i], k);
        assert all[i + 1] == runs[i];
      }
    }
  }

  lemma {:induction false} SpeltCons(s: string, x: Run, runs: seq<Run>, w: string, ws: seq<string>)
    requires MaximalRun(s, x) && LowerCaseOf(w, s[x.from..x.to])
    requires Spelt(s, runs, ws)
    ensures Spelt(s, [x] + runs, [w] + ws)
  {
    var all := [x] + runs;
    forall i | 0 <= i < |all|
      ensures MaximalRun(s, all[i]) && LowerCaseOf(([w] + ws)[i], s[all[i].from..all[i].to])
    {
      if i > 0 {
        assert all[i] == runs[i - 1] && ([w] + ws)[i] == ws[i - 1];
      }
    }
  }

  lemma {:induction false} InOrderCons(x: Run, runs: seq<Run>)
    requires InOrder(runs) && forall i :: 0 <= i < |runs| ==> x.to < runs[i].from
    ensures InOrder([x] + runs)
  {
  }

  /** At position n a run that began at a is under way and spells `cur` so far; none, if a is n. */
  predicate UnderWay(s: string, a: nat, n: nat, cur: string) {
    && a <= n <= |s| && LowerCaseOf(cur, s[a..n])
    && (forall k :: a <= k < n ==> IsAlnum(s[k])) && (a > 0 ==> !IsAlnum(s[a - 1]))
  }

  lemma {:induction false} RunGoesOn(s: string, a: nat, n: nat, cur: string)
    requires IsText(s) && UnderWay(s, a, n, cur) && n < |s| && IsAlnum(s[n])
    ensures UnderWay(s, a, n + 1, cur + [Lower(s[n])])
    ensures WordsFrom(cur, s[n..]) == WordsFrom(cur + [Lower(s[n])], s[n + 1..])
  {
    PunctuationIs(s[n]);
    assert s[n..][1..] == s[n + 1..];
    assert s[a..n + 1] == s[a..n] + [s[n]];
  }

  /** The runs found from position n on, in order, spell the words and leave nothing out behind a. */
  predicate Found(s: string, a: nat, runs: seq<Run>, ws: seq<string>) {
    Spelt(s, runs, ws) && InOrder(runs) && Covered(s, runs, a) && forall i :: 0 <= i < |runs| ==> a <= runs[i].from
  }

  /** The runs from position n on, the one that is under way included. */
  lemma {:induction false} RunsFrom(s: string, a: nat, n: nat, cur: string) returns (runs: seq<Run>)
    requires IsText(s) && UnderWay(s, a, n, cur)
    ensures Found(s, a, runs, WordsFrom(cur, s[n..]))
    decreases |s| - n, 1
  {
    if n < |s| && IsAlnum(s[n]) {
      RunGoesOn(s, a, n, cur);
      runs := RunsFrom(s, a, n + 1, cur + [Lower(s[n])]);
    } else {
      runs := RunsBehind(s, n);
      RunEnds(s, a, n, cur, runs);
      runs := if cur == "" then runs else [Run(a, n)] + runs;
    }
  }

  /** The run that is under way, if any, has ended at position n. */
  lemma {:induction false} RunEnds(s: string, a: nat, n: nat, cur: string, runs: seq<Run>)
    requires IsText(s) && UnderWay(s, a, n, cur) && (n < |s| ==> !IsAlnum(s[n]))
    requires Found(s, n, runs, WordsAt(s, n)) && forall i :: 0 <= i < |runs| ==> n < runs[i].from
    ensures Found(s, a, if cur == "" then runs else [Run(a, n)] + runs, WordsFrom(cur, s[n..]))
  {
    var ws := WordsAt(s, n);
    WordsAtBorder(s, n, cur);
    if cur == "" {
      assert a == n && Flush(cur) + ws == ws;
    } else {
      RunIsMaximal(s, a, n, cur);
      FoundCons(s, Run(a, n), runs, cur, ws);
      assert Flush(cur) + ws == [cur] + ws;
    }
  }

  lemma {:induction false} RunIsMaximal(s: string, a: nat, n: nat, cur: string)
    requires UnderWay(s, a, n, cur) && cur != "" && (n < |s| ==> !IsAlnum(s[n]))
    ensures MaximalRun(s, Run(a, n)) && LowerCaseOf(cur, s[a..n])
  {
  }

  lemma {:induction false} FoundCons(s: string, x: Run, runs: seq<Run>, w: string, ws: seq<string>)
    requires MaximalRun(s, x) && LowerCaseOf(w, s[x.from..x.to])
    requires Found(s, x.to, runs, ws) && forall i :: 0 <= i < |runs| ==> x.to < runs[i].from
    ensures Found(s, x.from, [x] + runs, [w] + ws)
  {
    SpeltCons(s, x, runs, w, ws);
    InOrderCons(x, runs);
    CoveredCons(s, x, runs);
  }

  /** The words behind a position where no word is under way. */
  function WordsAt(s: string, n: nat): seq<string>
    requires n <= |s|
  {
    if n < |s| then WordsFrom("", s[n + 1..]) else []
  }

  lemma {:induction false} WordsAtBorder(s: string, n: nat, cur: string)
    requires IsText(s) && n <= |s| && (n < |s| ==> !IsAlnum(s[n]))
    ensures WordsFrom(cur, s[n..]) == Flush(cur) + WordsAt(s, n)
  {
    if n < |s| {
      PunctuationIs(s[n]);
      assert s[n..][1..] == s[n + 1..];
    }
  }

  /** The runs behind a position where none is under way. */
  lemma {:induction false} RunsBehind(s: string, n: nat) returns (runs: seq<Run>)
    requires IsText(s) && n <= |s| && (n < |s| ==> !IsAlnum(s[n]))
    ensures Found(s, n, runs, WordsAt(s, n)) && forall i :: 0 <= i < |runs| ==> n < runs[i].from
    decreases |s| - n, 0
  {
    runs := [];
    if n < |s| {
      runs := RunsFrom(s, n + 1, n + 1, "");
      CoveredEarlier(s, runs, n);
    }
  }

  lemma {:induction false} CoveredEarlier(s: string, runs: seq<Run>, n: nat)
    requires n < |s| && !IsAlnum(s[n]) && Covered(s, runs, n + 1)
    ensures Covered(s, runs, n)
  {
    forall k | n <= k < |s| && IsAlnum(s[k]) ensures CoveredAt(runs, k) {
      assert k >= n + 1;
    }
  }

  /** The words of a text are its maximal runs of letters and digits, all of them, in order and in lower case. */
  lemma {:induction false} WordsAreRuns(s: string) returns (runs: seq<Run>)
    requires IsText(s)
    ensures Spelt(s, runs, Words(s)) && InOrder(runs) && Covered(s, runs, 0)
  {
    assert s[0..] == s;
    runs := RunsFrom(s, 0, 0, "");
  }

  // ----- how often a word occurs -----

  /** The places of a text where the word is found. */
  function Occurrences(s: string, w: string): set<Run> {
    set a: nat, b: nat | a < b <= |s| && MaximalRun(s, Run(a, b)) && LowerCaseOf(w, s[a..b]) :: Run(a, b)
  }

  lemma {:induction false} StartsNoLater(s: string, x: Run, y: Run, k: nat)
    requires MaximalRun(s, x) && MaximalRun(s, y) && InRun(x, k) && InRun(y, k)
    ensures y.from <= x.from && x.to <= y.to
  {
    assert y.from > 0 ==> !IsAlnum(s[y.from - 1]);
    assert y.to < |s| ==> !IsAlnum(s[y.to]);
  }

  /** Two maximal runs that share a position are the same. */
  lemma {:induction false} SameRun(s: string, x: Run, y: Run, k: nat)
    requires MaximalRun(s, x) && MaximalRun(s, y) && InRun(x, k) && InRun(y, k)
    ensures x == y
  {
    StartsNoLater(s, x, y, k);
    StartsNoLater(s, y, x, k);
  }

  lemma {:induction false} LowerCaseUnique(w: string, w': string, t: string)
    requires LowerCaseOf(w, t) && LowerCaseOf(w', t)
    ensures w == w'
  {
  }

  /** The runs among the first n that spell w. */
  function RunsOf(runs: seq<Run>, ws: seq<string>, w: string, n: nat): set<Run>
    requires n <= |runs| == |ws|
  {
    set i | 0 <= i < n && ws[i] == w :: runs[i]
  }

  lemma {:induction false} RunsOfNext(runs: seq<Run>, ws: seq<string>, w: string, n: nat)
    requires n < |runs| == |ws|
    ensures RunsOf(runs, ws, w, n + 1) == RunsOf(runs, ws, w, n) + if ws[n] == w then {runs[n]} else {}
  {
    var a, b := RunsOf(runs, ws, w, n + 1), RunsOf(runs, ws, w, n) + if ws[n] == w then {runs[n]} else {};
    forall x ensures x in a <==> x in b {
      if x in a {
        var i :| 0 <= i < n + 1 && ws[i] == w && runs[i] == x;
        assert i < n || i == n;
      }
    }
  }

  lemma {:induction false} RunIsNew(runs: seq<Run>, ws: seq<string>, w: string, n: nat)
    requires n < |runs| == |ws| && InOrder(runs) && runs[n].from < runs[n].to
    ensures runs[n] !in RunsOf(runs, ws, w, n)
  {
  }

  lemma {:induction false} RunsCounted(runs: seq<Run>, ws: seq<string>, w: string, n: nat)
    requires n <= |runs| == |ws| && InOrder(runs)
    requires forall i :: 0 <= i < |runs| ==> runs[i].from < runs[i].to
    ensures |RunsOf(runs, ws, w, n)| == Count(ws[..n], w)
    decreases n
  {
    if n == 0 {
      assert RunsOf(runs, ws, w, 0) == {};
    } else {
      RunsCounted(runs, ws, w, n - 1);
      RunCounted(runs, ws, w, n - 1);
      CountNext(ws, n - 1, w);
    }
  }

  lemma {:induction false} RunCounted(runs: seq<Run>, ws: seq<string>, w: string, n: nat)
    requires n < |runs| == |ws| && InOrder(runs) && runs[n].from < runs[n].to
    ensures |RunsOf(runs, ws, w, n + 1)| == |RunsOf(runs, ws, w, n)| + if ws[n] == w then 1 else 0
  {
    RunsOfNext(runs, ws, w, n);
    RunIsNew(runs, ws, w, n);
  }

  lemma {:induction false} CountNext(ws: seq<string>, n: nat, w: string)
    requires n < |ws|
    ensures Count(ws[..n + 1], w) == Count(ws[..n], w) + if ws[n] == w then 1 else 0
  {
    assert ws[..n + 1] == ws[..n] + [ws[n]];
  }

  lemma {:induction false} RunIsFound(s: string, runs: seq<Run>, ws: seq<string>, w: string, x: Run)
    requires Spelt(s, runs, ws) && Covered(s, runs, 0)
    requires MaximalRun(s, x) && LowerCaseOf(w, s[x.from..x.to])
    ensures x in RunsOf(runs, ws, w, |runs|)
  {
    assert InRun(x, x.from) && IsAlnum(s[x.from]);
    var i :| 0 <= i < |runs| && InRun(runs[i], x.from);
    SameRun(s, x, runs[i], x.from);
    LowerCaseUnique(w, ws[i], s[x.from..x.to]);
  }

  lemma {:induction false} OccurrencesAreRuns(s: string, runs: seq<Run>, ws: seq<string>, w: string)
    requires Spelt(s, runs, ws) && Covered(s, runs, 0)
    ensures Occurrences(s, w) == RunsOf(runs, ws, w, |runs|)
  {
    forall x | x in Occurrences(s, w) ensures x in RunsOf(runs, ws, w, |runs|) {
      RunIsFound(s, runs, ws, w, x);
    }
  }

  /** The count of a word is the number of places where it stands. */
  lemma {:induction false} CountIsOccurrences(s: string, w: string)
    requires IsText(s)
    ensures Count(Words(s), w) == |Occurrences(s, w)|
  {
    var runs := WordsAreRuns(s);
    var ws := Words(s);
    OccurrencesAreRuns(s, runs, ws, w);
    RunsCounted(runs, ws, w, |runs|);
    assert ws[..|ws|] == ws;
  }

  // ----- upper and lower case -----

  lemma {:induction false} CaseDoesNotMatterFrom(cur: string, s: string, t: string)
    requires LowerCaseOf(t, s)
    ensures WordsFrom(cur, s) == WordsFrom(cur, t)
    decreases s
  {
    if s != "" {
      if IsWordChar(s[0]) {
        CaseDoesNotMatterFrom(cur + [Lower(s[0])], s[1..], t[1..]);
      } else {
        CaseDoesNotMatterFrom("", s[1..], t[1..]);
      }
    }
  }

  /** A text and the same in lower case have the same words, and map.py returns the same dictionary. */
  lemma {:induction false} CaseDoesNotMatter(s: string, t: string)
    requires LowerCaseOf(t, s)
    ensures Words(s) == Words(t) && CountInto([], Words(s)) == CountInto([], Words(t))
  {
    CaseDoesNotMatterFrom("", s, t);
  }
}
