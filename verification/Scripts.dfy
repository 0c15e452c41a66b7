/** w7/src/python/map.py and w7/src/python/reduce.py: the two user functions. */
module Scripts {
  import opened Sequences
  import opened Lexicographic
  import opened WordText
  import opened Dictionary
  import opened TextFile

  // ----- what Python's string functions do to a line -----

  /** `line.lower()` and then `translate` with a table that maps punctuation to blanks. */
  function Clean(s: string): (t: string)
    ensures |t| == |s|
  {
    if s == "" then "" else [if IsPunct(Lower(s[0])) then ' ' else Lower(s[0])] + Clean(s[1..])
  }

  /** `line.split(' ')`, where `cur` is the field under way. */
  function SplitFrom(cur: string, s: string): seq<string>
    decreases s
  {
    if s == "" then [cur]
    else if s[0] == ' ' then [cur] + SplitFrom("", s[1..])
    else SplitFrom(cur + [s[0]], s[1..])
  }

  function NonEmpty(ws: seq<string>): seq<string> {
    if ws == [] then [] else Flush(ws[0]) + NonEmpty(ws[1..])
  }

  lemma {:induction false} NonEmptyConcat(a: seq<string>, b: seq<string>)
    ensures NonEmpty(a + b) == NonEmpty(a) + NonEmpty(b)
  {
    if a == [] {
      assert a + b == b;
    } else {
      assert (a + b)[1..] == a[1..] + b;
      NonEmptyConcat(a[1..], b);
    }
  }

  /** The non-empty fields of a cleaned line are its words. */
  lemma {:induction false} FieldsAreWords(cur: string, s: string)
    requires '\n' !in s
    ensures NonEmpty(SplitFrom(cur, Clean(s))) == WordsFrom(cur, s)
    decreases s
  {
    if s == "" {
      assert NonEmpty([cur]) == Flush(cur) + NonEmpty([cur][1..]);
    } else {
      var c := Clean(s);
      assert c[1..] == Clean(s[1..]);
      if c[0] == ' ' {
        FieldsAreWords("", s[1..]);
        assert ([cur] + SplitFrom("", c[1..]))[1..] == SplitFrom("", c[1..]);
      } else {
        FieldsAreWords(cur + [c[0]], s[1..]);
      }
    }
  }

  lemma {:induction false} StripKeepsWords(s: string)
    ensures Words(LStrip(s)) == Words(s) && Words(RStrip(s)) == Words(s)
  {
    if s != "" {
      if IsSpace(s[0]) {
        StripKeepsWords(s[1..]);
      }
      if IsSpace(s[|s| - 1]) {
        var front, last := s[..|s| - 1], s[|s| - 1..];
        StripKeepsWords(front);
        assert s == front + last;
        WordsSplit(front, last);
        NoWords(last);
      }
    }
  }

  lemma {:induction false} RStripNewline(s: string)
    requires forall k :: 0 <= k < |s| - 1 ==> s[k] != '\n'
    ensures '\n' !in RStrip(s)
  {
    if s != "" && IsSpace(s[|s| - 1]) {
      RStripNewline(s[..|s| - 1]);
    }
  }

  lemma {:induction false} LStripNewline(s: string)
    requires forall k :: 0 <= k < |s| - 1 ==> s[k] != '\n'
    ensures forall k :: 0 <= k < |LStrip(s)| - 1 ==> LStrip(s)[k] != '\n'
  {
    if s != "" && IsSpace(s[0]) {
      LStripNewline(s[1..]);
    }
  }

  /** What map.py makes of one line. */
  lemma {:induction false} LineWords(line: string)
    requires forall k :: 0 <= k < |line| - 1 ==> line[k] != '\n'
    ensures NonEmpty(SplitFrom("", Clean(Strip(line)))) == Words(line)
  {
    LStripNewline(line);
    RStripNewline(LStrip(line));
    StripKeepsWords(line);
    StripKeepsWords(LStrip(line));
    FieldsAreWords("", Strip(line));
  }

  /** No word runs across a line end. */
  lemma {:induction false} WordsByLine(s: string)
    ensures forall i :: 0 <= i < |Lines(s)| ==>
              forall k :: 0 <= k < |Lines(s)[i]| - 1 ==> Lines(s)[i][k] != '\n'
    ensures s != "" ==> Lines(s) != [] && Lines(s)[0] + Flatten(Lines(s)[1..]) == s
    ensures Flatten(Lines(s)) == s
    ensures s != "" ==> Words(s) == Words(Lines(s)[0]) + Words(Flatten(Lines(s)[1..]))
  {
    if s != "" {
      var i := IndexOf(s, '\n');
      if i == |s| {
        assert [s][1..] == [];
        assert Flatten([s]) == s + Flatten<char>([]);
        assert s + Flatten<char>([]) == s;
        WordsSplit(s, "");
      } else {
        var line, rest := s[..i + 1], s[i + 1..];
        WordsByLine(rest);
        assert s == line + rest;
        assert Lines(s)[1..] == Lines(rest);
        WordsSplit(line, rest);
      }
    }
  }

  /** mapfunc: the count of every word of the file, in order of first appearance. */
  method MapFunc(file: string) returns (kvPair: Dict)
    ensures kvPair == CountInto([], Words(file))
  {
    kvPair := [];
    var lines := Lines(file);
    ghost var rest := file;
    WordsByLine(file);
    for i := 0 to |lines|
      invariant lines[i..] == Lines(rest)
      invariant CountInto(kvPair, Words(rest)) == CountInto([], Words(file))
    {
      WordsByLine(rest);
      assert lines[i] == Lines(rest)[0];
      assert Lines(rest) != [] ==> rest != "";
      var line := Strip(lines[i]);
      line := Clean(line);
      ghost var before := kvPair;
      kvPair := CountFields(kvPair, SplitFrom("", line));
      LineWords(lines[i]);
      ghost var tail := Flatten(Lines(rest)[1..]);
      CountIntoConcat(before, Words(lines[i]), Words(tail));
      LinesTail(rest);
      assert lines[i + 1..] == Lines(rest)[1..];
      rest := tail;
    }
    assert rest == "";
  }

  lemma {:induction false} LinesTail(s: string)
    requires s != ""
    ensures Lines(s) != [] && Lines(Flatten(Lines(s)[1..])) == Lines(s)[1..]
  {
    var i := IndexOf(s, '\n');
    if i < |s| {
      WordsByLine(s[i + 1..]);
      assert Lines(s)[1..] == Lines(s[i + 1..]);
    } else {
      assert [s][1..] == [];
    }
  }

  /** The inner loop of mapfunc. */
  method CountFields(d: Dict, words: seq<string>) returns (kvPair: Dict)
    ensures kvPair == CountInto(d, NonEmpty(words))
  {
    kvPair := d;
    for i := 0 to |words|
      invariant CountInto(kvPair, NonEmpty(words[i..])) == CountInto(d, NonEmpty(words))
    {
      assert words[i..][1..] == words[i + 1..];
      ghost var ws := NonEmpty(words[i..]);
      assert ws == Flush(words[i]) + NonEmpty(words[i + 1..]);
      if words[i] == "" {
        assert ws == NonEmpty(words[i + 1..]);
        continue;
      }
      assert ws[0] == words[i] && ws[1..] == NonEmpty(words[i + 1..]);
      kvPair := Bump(kvPair, words[i], 1);
    }
  }

  // ----- reduce.py -----

  /** Adding up a list of lines; None stands for an exception on a malformed line. */
  function AddLines(d: Dict, lines: seq<string>): Option<Dict>
    decreases lines
  {
    if lines == [] then Some(d)
    else match ParseLine(lines[0])
      case None => None
      case Some(e) => AddLines(Bump(d, e.key, e.n), lines[1..])
  }

  function ReduceDict(file: string): Option<Dict> {
    AddLines([], Sort(Lines(file)))
  }

  method ReduceFunc(file: string) returns (kvPair: Option<Dict>)
    ensures kvPair == ReduceDict(file)
  {
    var d: Dict := [];
    var lines := Sort(Lines(file));
    for i := 0 to |lines|
      invariant AddLines(d, lines[i..]) == ReduceDict(file)
    {
      assert lines[i..][1..] == lines[i + 1..];
      match ParseLine(lines[i]) {
        case None =>
          return None;
        case Some(e) =>
          d := Bump(d, e.key, e.n);
      }
    }
    kvPair := Some(d);
  }

  predicate WellFormed(lines: seq<string>) {
    forall i :: 0 <= i < |lines| ==>
      ParseLine(lines[i]).Some? && ParseLine(lines[i]).value.n > 0 && IsWord(ParseLine(lines[i]).value.key)
  }

  lemma {:induction false} AddLinesSums(d: Dict, lines: seq<string>, w: string)
    requires WellFormed(lines) && Proper(d) && WordKeys(d)
    ensures AddLines(d, lines).Some?
    ensures Proper(AddLines(d, lines).value) && WordKeys(AddLines(d, lines).value)
    ensures Sum(AddLines(d, lines).value, w) == Sum(d, w) + LinesSum(lines, w)
    decreases lines
  {
    if lines != [] {
      var e := ParseLine(lines[0]).value;
      BumpProper(d, e.key, e.n);
      BumpSum(d, e.key, e.n, w);
      BumpWordKeys(d, e);
      AddLinesSums(Bump(d, e.key, e.n), lines[1..], w);
    }
  }

  lemma {:induction false} BumpWordKeys(d: Dict, e: Entry)
    requires WordKeys(d) && IsWord(e.key)
    ensures WordKeys(Bump(d, e.key, e.n))
  {
    if d != [] && d[0].key != e.key {
      BumpWordKeys(d[1..], e);
    }
  }

  lemma {:induction false} CountIntoWordKeys(d: Dict, ws: seq<string>)
    requires WordKeys(d) && forall w :: w in ws ==> IsWord(w)
    ensures WordKeys(CountInto(d, ws))
    decreases ws
  {
    if ws != [] {
      BumpWordKeys(d, Entry(ws[0], 1));
      CountIntoWordKeys(Bump(d, ws[0], 1), ws[1..]);
    }
  }

  lemma {:induction false} WellFormedPermutes(a: seq<string>, b: seq<string>)
    requires multiset(a) == multiset(b) && WellFormed(a)
    ensures WellFormed(b)
  {
    forall i | 0 <= i < |b|
      ensures ParseLine(b[i]).Some? && ParseLine(b[i]).value.n > 0 && IsWord(ParseLine(b[i]).value.key)
    {
      assert b[i] in multiset(a);
      var j :| 0 <= j < |a| && a[j] == b[i];
    }
  }

  /** The dictionary of a well-formed file: one entry a word, with the sum of its lines. */
  lemma {:induction false} ReduceSums(file: string, w: string)
    requires WellFormed(Lines(file))
    ensures ReduceDict(file).Some?
    ensures Proper(ReduceDict(file).value) && WordKeys(ReduceDict(file).value)
    ensures Sum(ReduceDict(file).value, w) == LinesSum(Lines(file), w)
  {
    SortSorts(Lines(file));
    WellFormedPermutes(Lines(file), Sort(Lines(file)));
    AddLinesSums([], Sort(Lines(file)), w);
    LinesSumPermutes(Sort(Lines(file)), Lines(file), w);
  }

  /** Order independence: only which lines there are, and how often, reaches the output. */
  lemma {:induction false} ReduceOrderIndependent(file: string, file': string)
    requires multiset(Lines(file)) == multiset(Lines(file'))
    ensures ReduceDict(file) == ReduceDict(file')
  {
    SortCanonical(Lines(file), Lines(file'));
  }
}
