/**
 The output of a finished job, byte for byte: which lines a reducer's file has, in which order,
 and where in the input the number on each line comes from.
 */
module OutputText {
  import opened Arithmetic
  import opened Sequences
  import opened Lexicographic
  import opened Decimal
  import opened WordText
  import opened WordRuns
  import opened Dictionary
  import opened TextFile
  import opened Scripts
  import opened Sharding
  import opened Intermediate
  import opened WordCount
  import opened Cluster
  import opened EndToEnd

  // ----- the input -----

  /** Where a word stands: the blob's position in the list, and the run of letters and digits. */
  function Places(blobs: seq<Blob>, w: string): set<(nat, Run)> {
    PlacesFrom(blobs, w, 0)
  }

  /** The same, from blob n on. */
  function PlacesFrom(blobs: seq<Blob>, w: string, n: nat): set<(nat, Run)> {
    set i: nat, x: Run | n <= i < |blobs| && x in Occurrences(blobs[i].data, w) :: (i, x)
  }

  function Tagged(n: nat, xs: set<Run>): set<(nat, Run)> {
    set x | x in xs :: (n, x)
  }

  lemma {:induction false} TaggedSize(n: nat, xs: set<Run>)
    ensures |Tagged(n, xs)| == |xs|
  {
    if xs == {} {
      assert Tagged(n, xs) == {};
    } else {
      var x :| x in xs;
      TaggedSize(n, xs - {x});
      assert Tagged(n, xs) == Tagged(n, xs - {x}) + {(n, x)};
    }
  }

  lemma {:induction false} PlacesNext(blobs: seq<Blob>, w: string, n: nat)
    requires n < |blobs|
    ensures |PlacesFrom(blobs, w, n)| == |Occurrences(blobs[n].data, w)| + |PlacesFrom(blobs, w, n + 1)|
  {
    var here, later := Tagged(n, Occurrences(blobs[n].data, w)), PlacesFrom(blobs, w, n + 1);
    TaggedSize(n, Occurrences(blobs[n].data, w));
    PlacesSplit(blobs, w, n);
    forall p | p in here ensures p !in later {
    }
  }

  lemma {:induction false} PlacesSplit(blobs: seq<Blob>, w: string, n: nat)
    requires n < |blobs|
    ensures PlacesFrom(blobs, w, n) == Tagged(n, Occurrences(blobs[n].data, w)) + PlacesFrom(blobs, w, n + 1)
  {
    var all, later := PlacesFrom(blobs, w, n), PlacesFrom(blobs, w, n + 1);
    var here := Tagged(n, Occurrences(blobs[n].data, w));
    forall p: (nat, Run) ensures p in all <==> p in here + later {
      assert p in here <==> p.0 == n && p.1 in Occurrences(blobs[n].data, w);
      assert p in later <==> n + 1 <= p.0 < |blobs| && p.1 in Occurrences(blobs[p.0].data, w);
      assert p in all <==> n <= p.0 < |blobs| && p.1 in Occurrences(blobs[p.0].data, w);
    }
  }

  lemma {:induction false} InputCountFrom(blobs: seq<Blob>, w: string, n: nat)
    requires n <= |blobs| && forall i :: 0 <= i < |blobs| ==> IsText(blobs[i].data)
    ensures InputCount(blobs[n..], w) == |PlacesFrom(blobs, w, n)|
    decreases |blobs| - n
  {
    if n == |blobs| {
      assert PlacesFrom(blobs, w, n) == {};
    } else {
      InputCountFrom(blobs, w, n + 1);
      CountIsOccurrences(blobs[n].data, w);
      PlacesNext(blobs, w, n);
      assert blobs[n..][1..] == blobs[n + 1..];
    }
  }

  /** The count of a word is the number of its places in all blobs. */
  lemma {:induction false} InputCountIsPlaces(blobs: seq<Blob>, w: string)
    requires forall i :: 0 <= i < |blobs| ==> IsText(blobs[i].data)
    ensures InputCount(blobs, w) == |Places(blobs, w)|
  {
    assert blobs[0..] == blobs;
    InputCountFrom(blobs, w, 0);
  }

  // ----- lines in order -----

  /** A line as a worker writes it. */
  predicate Canonical(line: string) {
    ParseLine(line).Some? && IsWord(ParseLine(line).value.key) && FormatLine(ParseLine(line).value) == line
  }

  predicate AllCanonical(lines: seq<string>) {
    lines == [] || (Canonical(lines[0]) && AllCanonical(lines[1..]))
  }

  lemma {:induction false} CanonicalIn(lines: seq<string>, line: string)
    requires AllCanonical(lines) && line in lines
    ensures Canonical(line)
  {
    if line != lines[0] {
      CanonicalIn(lines[1..], line);
    }
  }

  lemma {:induction false} CanonicalAmong(some: seq<string>, lines: seq<string>)
    requires AllCanonical(lines) && forall i :: 0 <= i < |some| ==> some[i] in lines
    ensures AllCanonical(some)
  {
    if some != [] {
      CanonicalIn(lines, some[0]);
      CanonicalAmong(some[1..], lines);
    }
  }

  function KeyOf(line: string): string
    requires Canonical(line)
  {
    ParseLine(line).value.key
  }

  lemma {:induction false} FormattedCanonical(d: Dict)
    requires WordKeys(d)
    ensures AllCanonical(FormatLines(d))
  {
    if d != [] {
      ParseFormat(d[0]);
      FormattedCanonical(d[1..]);
      assert FormatLines(d)[1..] == FormatLines(d[1..]);
    }
  }

  /** The quote behind a word comes before every letter and digit, so lines are in the order of their words. */
  lemma {:induction false} WordOrderIsLineOrder(a: Entry, b: Entry)
    requires IsWord(a.key) && IsWord(b.key) && Less(a.key, b.key)
    ensures Less(FormatLine(a), FormatLine(b))
  {
    var k := Difference(a.key, b.key);
    var s, t := FormatLine(a), FormatLine(b);
    LineStart(a, k);
    LineStart(b, k);
    assert s[..k + 1] == t[..k + 1];
    DifferenceIsLess(s, t, k + 1);
  }

  lemma {:induction false} LineStart(e: Entry, k: nat)
    requires k <= |e.key|
    ensures k + 1 < |FormatLine(e)| && FormatLine(e)[..k + 1] == "'" + e.key[..k]
    ensures FormatLine(e)[k + 1] == if k < |e.key| then e.key[k] else '\''
  {
    var rest := "'" + ":" + ToString(e.n) + "\n";
    assert FormatLine(e) == "'" + e.key + rest;
  }

  lemma {:induction false} KeysInOrder(a: string, b: string)
    requires Canonical(a) && Canonical(b) && !Less(b, a)
    ensures KeyOf(a) == KeyOf(b) || Less(KeyOf(a), KeyOf(b))
  {
    LessTotal(KeyOf(a), KeyOf(b));
    if Less(KeyOf(b), KeyOf(a)) {
      WordOrderIsLineOrder(ParseLine(b).value, ParseLine(a).value);
    }
  }

  /** The keys come in alphabetical order. */
  predicate Increasing(d: Dict) {
    forall i, j :: 0 <= i < j < |d| ==> Less(d[i].key, d[j].key)
  }

  /** Nothing in the dictionary comes after w. */
  predicate UpTo(d: Dict, w: string) {
    forall i :: 0 <= i < |d| ==> d[i].key == w || Less(d[i].key, w)
  }

  lemma {:induction false} UpToMore(d: Dict, v: string, w: string)
    requires UpTo(d, v) && (v == w || Less(v, w))
    ensures UpTo(d, w)
  {
    forall i | 0 <= i < |d| ensures d[i].key == w || Less(d[i].key, w) {
      if d[i].key != v && v != w {
        LessTransitive(d[i].key, v, w);
      }
    }
  }

  predicate AllAfter(first: string, d: Dict) {
    forall i :: 0 <= i < |d| ==> Less(first, d[i].key)
  }

  /** A word that comes after all keys goes to the end. */
  lemma {:induction false} BumpKeepsOrder(d: Dict, w: string, n: nat)
    requires Increasing(d) && UpTo(d, w)
    ensures Increasing(Bump(d, w, n)) && UpTo(Bump(d, w, n), w)
    decreases |d|
  {
    if d != [] {
      if d[0].key == w {
        NothingAfter(d, w);
      } else {
        BumpKeepsOrder(d[1..], w, n);
        RestAfter(d);
        BumpedKeys(d[1..], w, n, d[0].key);
        InFront(d[0], Bump(d[1..], w, n), w);
      }
    }
  }

  lemma {:induction false} RestAfter(d: Dict)
    requires Increasing(d) && d != []
    ensures AllAfter(d[0].key, d[1..])
  {
  }

  lemma {:induction false} InFront(e: Entry, d: Dict, w: string)
    requires Increasing(d) && UpTo(d, w) && Less(e.key, w) && AllAfter(e.key, d)
    ensures Increasing([e] + d) && UpTo([e] + d, w)
  {
  }

  lemma {:induction false} NothingAfter(d: Dict, w: string)
    requires Increasing(d) && UpTo(d, w) && d != [] && d[0].key == w
    ensures |d| == 1
  {
    if |d| > 1 {
      LessTotal(d[0].key, d[1].key);
    }
  }

  lemma {:induction false} BumpedKeys(d: Dict, w: string, n: nat, first: string)
    requires Less(first, w) && AllAfter(first, d)
    ensures AllAfter(first, Bump(d, w, n))
    decreases |d|
  {
    if d != [] && d[0].key != w {
      BumpedKeys(d[1..], w, n, first);
    }
    var b := Bump(d, w, n);
    forall i | 0 <= i < |b| ensures Less(first, b[i].key) {
      if d != [] && i > 0 {
        assert b[i] == if d[0].key == w then d[i] else Bump(d[1..], w, n)[i - 1];
      }
    }
  }

  lemma {:induction false} FirstKeys(lines: seq<string>)
    requires AllCanonical(lines) && Sorted(lines) && |lines| > 1
    ensures Canonical(lines[0]) && Canonical(lines[1])
    ensures KeyOf(lines[0]) == KeyOf(lines[1]) || Less(KeyOf(lines[0]), KeyOf(lines[1]))
  {
    KeysInOrder(lines[0], lines[1]);
  }

  /** Adding up sorted lines gives a dictionary in alphabetical order. */
  lemma {:induction false} SortedLinesAddUp(d: Dict, lines: seq<string>)
    requires AllCanonical(lines) && Sorted(lines) && Increasing(d)
    requires lines != [] ==> UpTo(d, KeyOf(lines[0]))
    ensures AddLines(d, lines).Some? && Increasing(AddLines(d, lines).value)
    decreases lines
  {
    if lines != [] {
      var e := ParseLine(lines[0]).value;
      BumpKeepsOrder(d, e.key, e.n);
      if |lines| > 1 {
        FirstKeys(lines);
        UpToMore(Bump(d, e.key, e.n), e.key, KeyOf(lines[1]));
      }
      SortedLinesAddUp(Bump(d, e.key, e.n), lines[1..]);
    }
  }

  /** reduce.py returns its words in alphabetical order. */
  lemma {:induction false} ReducedInOrder(file: string)
    requires AllCanonical(Lines(file))
    ensures ReduceDict(file).Some? && Increasing(ReduceDict(file).value)
  {
    var lines, sorted := Lines(file), Sort(Lines(file));
    SortSorts(lines);
    forall i | 0 <= i < |sorted| ensures sorted[i] in lines {
      assert sorted[i] in multiset(sorted) && sorted[i] in multiset(lines);
    }
    CanonicalAmong(sorted, lines);
    SortedLinesAddUp([], sorted);
  }

  // ----- the files a reducer reads -----

  /** The lines are those of some entries, as workers write them. */
  ghost predicate Written(lines: seq<string>) {
    exists es: Dict :: WordKeys(es) && lines == FormatLines(es)
  }

  lemma {:induction false} WrittenConcat(a: seq<string>, b: seq<string>)
    requires Written(a) && Written(b)
    ensures Written(a + b)
  {
    var d: Dict :| WordKeys(d) && a == FormatLines(d);
    var e: Dict :| WordKeys(e) && b == FormatLines(e);
    FormatConcat(d, e);
    assert WordKeys(d + e);
  }

  lemma {:induction false} NothingWritten()
    ensures Lines("") == [] && Written([])
  {
    assert WordKeys([]) && FormatLines([]) == [];
  }

  lemma {:induction false} WrittenIsCanonical(lines: seq<string>)
    requires Written(lines)
    ensures AllCanonical(lines)
  {
    var es: Dict :| WordKeys(es) && lines == FormatLines(es);
    FormattedCanonical(es);
  }

  lemma {:induction false} PieceWritten(job: Job, x: ShardData, r: nat)
    requires Readable(job)
    ensures Written(Lines(PieceContent(job, x, r)))
  {
    if x.begin <= x.end {
      var data := DataOf(job.blobs, x.blobName);
      DataOfIsText(job.blobs, x.blobName);
      PieceIsText(data, x.begin, x.end);
      var d := CountInto([], WordBoundary.PieceWords(data, x.begin, x.end));
      CountIntoWordKeys([], WordBoundary.PieceWords(data, x.begin, x.end));
      PartitionSum(d, job.hash, job.nreducers, r, "");
      FormattedLines(Partition(d, job.hash, job.nreducers, r));
    } else {
      NothingWritten();
    }
  }

  lemma {:induction false} TaskWritten(job: Job, sets: seq<ShardData>, n: nat, r: nat)
    requires Readable(job) && n <= |sets|
    ensures Written(Lines(TaskText(job, sets, n, r)))
    decreases n
  {
    if n == 0 {
      NothingWritten();
    } else {
      TaskWritten(job, sets, n - 1, r);
      TaskWrittenNext(job, sets, n, r);
    }
  }

  lemma {:induction false} TaskWrittenNext(job: Job, sets: seq<ShardData>, n: nat, r: nat)
    requires Readable(job) && 0 < n <= |sets| && Written(Lines(TaskText(job, sets, n - 1, r)))
    ensures Written(Lines(TaskText(job, sets, n, r)))
  {
    PieceWritten(job, sets[n - 1], r);
    TaskLines(job, sets, n, r);
    WrittenConcat(Lines(TaskText(job, sets, n - 1, r)), Lines(PieceContent(job, sets[n - 1], r)));
  }

  lemma {:induction false} TaskLines(job: Job, sets: seq<ShardData>, n: nat, r: nat)
    requires Readable(job) && 0 < n <= |sets|
    ensures Lines(TaskText(job, sets, n, r))
         == Lines(TaskText(job, sets, n - 1, r)) + Lines(PieceContent(job, sets[n - 1], r))
  {
    TaskSays(job, sets, n - 1, r, "");
    PieceSays(job, sets[n - 1], r, "");
    SharesConcat(job, TaskText(job, sets, n - 1, r), PieceContent(job, sets[n - 1], r), r, "",
                 CountTo(job, sets, n - 1, ""), PieceCount(job, sets[n - 1], ""));
  }

  lemma {:induction false} ShardsWritten(job: Job, ids: seq<int>, r: nat)
    requires Readable(job)
    ensures Written(ShardsLines(job, ids, r))
  {
    NothingWritten();
    if ids != [] {
      ShardsWritten(job, ids[1..], r);
      if 0 <= ids[0] < |job.shards| {
        TaskWritten(job, job.shards[ids[0]].sets, |job.shards[ids[0]].sets|, r);
      }
      WrittenConcat(Lines(ShardText(job, ids[0], r)), ShardsLines(job, ids[1..], r));
    }
  }

  // ----- the output -----

  /** A file with one line a word: the word in quotes, a colon, and the number of its places. */
  function Report(blobs: seq<Blob>, words: seq<string>): string {
    if words == [] then ""
    else "'" + words[0] + "':" + ToString(|Places(blobs, words[0])|) + "\n" + Report(blobs, words[1..])
  }

  /** Each word has the smaller character where it first differs from a later one, or ends there. */
  ghost predicate Alphabetical(words: seq<string>) {
    forall i, j :: 0 <= i < j < |words| ==> ComesBefore(words[i], words[j])
  }

  ghost predicate ComesBefore(v: string, w: string) {
    exists k: nat :: DiffersAt(v, w, k)
  }

  function Keys(d: Dict): (r: seq<string>)
    ensures |r| == |d| && forall i :: 0 <= i < |d| ==> r[i] == d[i].key
  {
    seq(|d|, i requires 0 <= i < |d| => d[i].key)
  }

  lemma {:induction false} FormatIsReport(d: Dict, blobs: seq<Blob>)
    requires forall i :: 0 <= i < |d| ==> d[i].n == |Places(blobs, d[i].key)|
    ensures Format(d) == Report(blobs, Keys(d))
  {
    if d != [] {
      FormatIsReport(d[1..], blobs);
      LineIs(d[0]);
      assert Keys(d)[1..] == Keys(d[1..]);
      assert FormatLines(d)[1..] == FormatLines(d[1..]);
    }
  }

  lemma {:induction false} IncreasingIsAlphabetical(d: Dict)
    requires Increasing(d)
    ensures Alphabetical(Keys(d))
  {
    var words := Keys(d);
    forall i, j | 0 <= i < j < |words| ensures ComesBefore(words[i], words[j]) {
      LessIs(words[i], words[j]);
      assert Less(d[i].key, d[j].key);
    }
  }

  /** What the dictionary of a reducer holds. */
  lemma {:induction false} ExpectedDict(job: Job, r: nat) returns (d: Dict)
    requires ValidJob(job)
    ensures ExpectedOut(job, r) == Format(d) && Increasing(d) && Proper(d)
    ensures forall w: string :: Sum(d, w) == Share(job, r, w, InputCount(job.blobs, w))
  {
    var n := |job.shards|;
    var input := ShardsText(job, Range(n), r);
    ShardsTextLines(job, Range(n), r);
    ShardsWritten(job, Range(n), r);
    WrittenIsCanonical(Lines(input));
    ReducedInOrder(input);
    ExpectedSum(job, r, "");
    d := ReduceDict(input).value;
    forall w: string ensures Sum(d, w) == Share(job, r, w, InputCount(job.blobs, w)) {
      ExpectedSum(job, r, w);
    }
  }

  lemma {:induction false} DictOfPlaces(job: Job, r: nat, d: Dict, w: string)
    requires ValidJob(job) && Proper(d)
    requires Sum(d, w) == Share(job, r, w, InputCount(job.blobs, w))
    ensures w in Keys(d) <==> Places(job.blobs, w) != {} && job.hash("'" + w + "'") % job.nreducers == r
    ensures forall i :: 0 <= i < |d| && d[i].key == w ==> d[i].n == |Places(job.blobs, w)|
  {
    InputCountIsPlaces(job.blobs, w);
    ProperSum(d, w, 0);
    assert HasKey(d, w) <==> w in Keys(d) by {
      if w in Keys(d) {
        var i :| 0 <= i < |d| && Keys(d)[i] == w;
        assert d[i].key == w;
      }
      if HasKey(d, w) {
        var i :| 0 <= i < |d| && d[i].key == w;
        assert Keys(d)[i] == w;
      }
    }
    forall i | 0 <= i < |d| && d[i].key == w ensures d[i].n == |Places(job.blobs, w)| {
      ProperSum(d, w, d[i].n);
      assert d[i] == Entry(w, d[i].n);
    }
  }

  /** The expected output of a reducer, from the input alone. */
  lemma {:induction false} ExpectedIsReport(job: Job, r: nat) returns (words: seq<string>)
    requires ValidJob(job)
    ensures ExpectedOut(job, r) == Report(job.blobs, words) && Alphabetical(words)
    ensures forall w: string :: w in words <==>
        Places(job.blobs, w) != {} && job.hash("'" + w + "'") % job.nreducers == r
  {
    var d := ExpectedDict(job, r);
    words := Keys(d);
    forall w: string
      ensures w in words <==> Places(job.blobs, w) != {} && job.hash("'" + w + "'") % job.nreducers == r
      ensures forall i :: 0 <= i < |d| && d[i].key == w ==> d[i].n == |Places(job.blobs, w)|
    {
      DictOfPlaces(job, r, d, w);
    }
    FormatIsReport(d, job.blobs);
    IncreasingIsAlphabetical(d);
  }

  /**
   Each output file of a finished run is, byte for byte, the list of the words that stand
   somewhere in the input and hash to its reducer, in alphabetical order, one a line, each with
   the number of places where it stands as a whole run of letters and digits, in any case.
   */
  lemma {:induction false} OutputIsReport(job: Job, run: seq<World>, i: nat, r: nat) returns (words: seq<string>)
    requires Supported(job) && IsRun(job, run) && i < |run| && run[i].stage.Finished? && r < job.nreducers
    ensures r in run[i].outs && run[i].outs[r] == Report(job.blobs, words) && Alphabetical(words)
    ensures forall w: string :: w in words <==>
        Places(job.blobs, w) != {} && job.hash("'" + w + "'") % job.nreducers == r
  {
    FinishedRunCountsWords(job, run, i);
    words := ExpectedIsReport(job, r);
  }

  /** Printable text with a blank, a full stop or a comma in every 17 bytes. */
  predicate Ordinary(data: string) {
    && (forall k :: 0 <= k < |data| ==> data[k] == '\n' || ' ' <= data[k] <= '~')
    && forall p :: 16 <= p < |data| ==> WordBoundary.DelimAround(data, p)
  }

  lemma {:induction false} OrdinaryIsGood(data: string)
    requires Ordinary(data)
    ensures IsText(data) && WordBoundary.NoLongRun(data)
  {
    forall p | 16 < p < |data| ensures !WordBoundary.LongRunAt(data, p) {
      assert WordBoundary.DelimAround(data, p);
    }
  }

  /** An input that needs no more thought: enough bytes for the mappers, and few enough for `float`. */
  predicate OrdinaryInput(blobs: seq<Blob>, n: nat) {
    && (forall i, j :: 0 <= i < j < |blobs| ==> blobs[i].name != blobs[j].name)
    && (forall i :: 0 <= i < |blobs| ==> Ordinary(blobs[i].data))
    && blobs != [] && blobs[|blobs| - 1].data != ""
    && n <= 16777216 && (n - 1) * (n - 1) < TotalSize(blobs) < 16777216
  }

  lemma {:induction false} OrdinaryIsGoodInput(blobs: seq<Blob>, n: nat)
    requires OrdinaryInput(blobs, n)
    ensures GoodInput(blobs) && SmallBlobs(blobs)
  {
    forall i | 0 <= i < |blobs| ensures IsText(blobs[i].data) && WordBoundary.NoLongRun(blobs[i].data) {
      OrdinaryIsGood(blobs[i].data);
    }
    SizeAtMostTotal(blobs);
  }

  lemma {:induction false} OrdinaryIsEnough(blobs: seq<Blob>, n: nat)
    requires n > 0 && OrdinaryInput(blobs, n)
    ensures EnoughInput(blobs, n, CeilDiv(TotalSize(blobs), n))
  {
    var total := TotalSize(blobs);
    EnoughBytes(total, n);
    CeilDivBounds(total, n);
    assert n * CeilDiv(total, n) == CeilDiv(total, n) * n;
  }

  lemma {:induction false} OrdinaryIsSupported(job: Job, round: real -> real)
    requires JobFor(job, round) && OrdinaryInput(job.blobs, job.nmappers) && job.nreducers > 0
    ensures Supported(job)
  {
    OrdinaryIsGoodInput(job.blobs, job.nmappers);
    OrdinaryIsEnough(job.blobs, job.nmappers);
    SupportedBelow2To24(job, round);
  }

  /** The jobs the framework was made for: whatever fails on the way, the files are the right ones. */
  lemma {:induction false} OrdinaryJobIsCounted(job: Job, round: real -> real, run: seq<World>, i: nat, r: nat)
    returns (words: seq<string>)
    requires JobFor(job, round) && OrdinaryInput(job.blobs, job.nmappers)
    requires IsRun(job, run) && i < |run| && run[i].stage.Finished? && r < job.nreducers
    ensures r in run[i].outs && run[i].outs[r] == Report(job.blobs, words) && Alphabetical(words)
    ensures forall w: string :: w in words <==>
        Places(job.blobs, w) != {} && job.hash("'" + w + "'") % job.nreducers == r
  {
    OrdinaryIsSupported(job, round);
    words := OutputIsReport(job, run, i, r);
  }
}
