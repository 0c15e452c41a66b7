/**
 What a job should compute, and why the files it exchanges add up to it: from the words of
 the input blobs, over shards, pieces and intermediate files, to the output of a reducer.
 */
module WordCount {
  import opened Sequences
  import opened WordText
  import opened WordBoundary
  import opened Dictionary
  import opened TextFile
  import opened Scripts
  import opened Sharding
  import opened Intermediate

  datatype Job = Job(
    blobs: seq<Blob>,
    shards: seq<FileShard>,
    nmappers: nat,
    nreducers: nat,
    nclients: nat,
    container: string,
    hash: HashFunction)

  /** The plain word count of the input: how often w occurs in all blobs together. */
  function InputCount(blobs: seq<Blob>, w: string): nat {
    if blobs == [] then 0 else Count(Words(blobs[0].data), w) + InputCount(blobs[1..], w)
  }

  predicate DistinctNames(blobs: seq<Blob>) {
    forall i, j :: 0 <= i < j < |blobs| ==> blobs[i].name != blobs[j].name
  }

  /** Printable input without a word character after 16 undelimited bytes. */
  predicate GoodInput(blobs: seq<Blob>) {
    DistinctNames(blobs) && forall i :: 0 <= i < |blobs| ==> IsText(blobs[i].data) && NoLongRun(blobs[i].data)
  }

  ghost predicate Tiled(job: Job) {
    exists groups :: TilesAll(groups, job.blobs) && AllSets(job.shards) == Flatten(groups)
  }

  ghost predicate ValidJob(job: Job) {
    GoodInput(job.blobs) && job.nreducers > 0 && Numbered(job.shards) && Tiled(job)
  }

  // ----- what the pieces count -----

  /** How often w occurs in a repaired piece. */
  function PieceCount(job: Job, x: ShardData, w: string): nat {
    if x.begin <= x.end then Count(PieceWords(DataOf(job.blobs, x.blobName), x.begin, x.end), w) else 0
  }

  function PiecesCount(job: Job, sets: seq<ShardData>, w: string): nat {
    if sets == [] then 0 else PieceCount(job, sets[0], w) + PiecesCount(job, sets[1..], w)
  }

  lemma {:induction false} PiecesCountConcat(job: Job, a: seq<ShardData>, b: seq<ShardData>, w: string)
    ensures PiecesCount(job, a + b, w) == PiecesCount(job, a, w) + PiecesCount(job, b, w)
  {
    if a == [] {
      assert a + b == b;
    } else {
      assert (a + b)[1..] == a[1..] + b;
      PiecesCountConcat(job, a[1..], b, w);
    }
  }

  lemma {:induction false} DataOfBlob(blobs: seq<Blob>, i: nat)
    requires DistinctNames(blobs) && i < |blobs|
    ensures DataOf(blobs, blobs[i].name) == blobs[i].data
  {
    if i > 0 {
      DataOfBlob(blobs[1..], i - 1);
    }
  }

  function Cuts(ps: seq<ShardData>): (r: seq<nat>)
    ensures |r| == |ps| && forall i :: 0 <= i < |ps| ==> r[i] == ps[i].end
  {
    seq(|ps|, i requires 0 <= i < |ps| => ps[i].end)
  }

  /** The pieces of a chain count what their repaired words are. */
  lemma {:induction false} ChainCount(job: Job, ps: seq<ShardData>, name: string, from: nat, w: string)
    requires var data := DataOf(job.blobs, name); Chain(ps, name, from, |data|) && from <= |data|
    ensures var data := DataOf(job.blobs, name);
            && ValidCuts(data, from, Cuts(ps))
            && PiecesCount(job, ps, w) == Count(RepairedWords(data, from, Cuts(ps)), w)
    decreases ps
  {
    var data := DataOf(job.blobs, name);
    if ps != [] {
      ChainBounds(ps[1..], name, ps[0].end, |data|);
      ChainCount(job, ps[1..], name, ps[0].end, w);
      assert Cuts(ps)[1..] == Cuts(ps[1..]);
      assert RepairedWords(data, from, Cuts(ps))
          == PieceWords(data, from, ps[0].end) + RepairedWords(data, ps[0].end, Cuts(ps[1..]));
    }
  }

  lemma {:induction false} ChainBounds(ps: seq<ShardData>, name: string, from: nat, to: nat)
    requires Chain(ps, name, from, to)
    ensures from <= to
    decreases ps
  {
    if ps != [] {
      ChainBounds(ps[1..], name, ps[0].end, to);
    }
  }

  lemma {:induction false} TileCount(job: Job, ps: seq<ShardData>, i: nat, w: string)
    requires GoodInput(job.blobs) && i < |job.blobs| && Tiles(ps, job.blobs[i])
    ensures PiecesCount(job, ps, w) == Count(Words(job.blobs[i].data), w)
  {
    var blob := job.blobs[i];
    DataOfBlob(job.blobs, i);
    if blob.data == "" {
      assert ps[1..] == [];
      assert PieceWords("", 0, 0) == [];
    } else {
      ChainCount(job, ps, blob.name, 0, w);
      RepairKeepsWords(blob.data, Cuts(ps));
    }
  }

  lemma {:induction false} TilesCount(job: Job, groups: seq<seq<ShardData>>, i: nat, w: string)
    requires GoodInput(job.blobs) && i <= |job.blobs| && TilesAll(groups, job.blobs)
    ensures PiecesCount(job, Flatten(groups[i..]), w) == InputCount(job.blobs[i..], w)
    decreases |job.blobs| - i
  {
    if i < |job.blobs| {
      TilesCount(job, groups, i + 1, w);
      TileCount(job, groups[i], i, w);
      assert groups[i..][1..] == groups[i + 1..] && job.blobs[i..][1..] == job.blobs[i + 1..];
      PiecesCountConcat(job, groups[i], Flatten(groups[i + 1..]), w);
    }
  }

  /** The pieces of all shards, each repaired on its own, count what the input contains. */
  lemma {:induction false} ShardsCountInput(job: Job, w: string)
    requires ValidJob(job)
    ensures PiecesCount(job, AllSets(job.shards), w) == InputCount(job.blobs, w)
  {
    var groups :| TilesAll(groups, job.blobs) && AllSets(job.shards) == Flatten(groups);
    TilesCount(job, groups, 0, w);
    assert groups[0..] == groups && job.blobs[0..] == job.blobs;
  }

  // ----- what the intermediate files say -----

  /** The intermediate file of one piece for reducer r. */
  function PieceContent(job: Job, x: ShardData, r: nat): string
    requires job.nreducers > 0
  {
    if x.begin > x.end then ""
    else PieceText(DataOf(job.blobs, x.blobName), x.begin, x.end, job.hash, job.nreducers, r)
  }

  /** The files of the first n pieces of a task, one after the other. */
  function TaskText(job: Job, sets: seq<ShardData>, n: nat, r: nat): string
    requires n <= |sets| && job.nreducers > 0
  {
    if n == 0 then "" else TaskText(job, sets, n - 1, r) + PieceContent(job, sets[n - 1], r)
  }

  function ShardText(job: Job, id: int, r: nat): string
    requires job.nreducers > 0
  {
    if 0 <= id < |job.shards| then TaskText(job, job.shards[id].sets, |job.shards[id].sets|, r) else ""
  }

  /** The files of the given shards. */
  function ShardsText(job: Job, ids: seq<int>, r: nat): string
    requires job.nreducers > 0
  {
    if ids == [] then "" else ShardText(job, ids[0], r) + ShardsText(job, ids[1..], r)
  }

  /** A text made of whole, well-formed lines that say v about w. */
  predicate Says(text: string, w: string, v: nat) {
    && AllLines(Lines(text)) && Flatten(Lines(text)) == text && WellFormed(Lines(text))
    && LinesSum(Lines(text), w) == v
  }

  lemma {:induction false} SaysConcat(a: string, b: string, w: string, u: nat, v: nat)
    requires Says(a, w, u) && Says(b, w, v)
    ensures Lines(a + b) == Lines(a) + Lines(b) && Says(a + b, w, u + v)
  {
    FlattenConcat(Lines(a), Lines(b));
    LinesOfFlatten(Lines(a) + Lines(b));
    LinesSumConcat(Lines(a), Lines(b), w);
  }

  /** v, if w belongs to reducer r. */
  function Share(job: Job, r: nat, w: string, v: nat): nat
    requires job.nreducers > 0
  {
    if job.hash("'" + w + "'") % job.nreducers == r then v else 0
  }

  lemma {:induction false} DataOfIsText(blobs: seq<Blob>, name: string)
    requires forall i :: 0 <= i < |blobs| ==> IsText(blobs[i].data)
    ensures IsText(DataOf(blobs, name))
  {
    if blobs != [] && blobs[0].name != name {
      DataOfIsText(blobs[1..], name);
    }
  }

  predicate Readable(job: Job) {
    job.nreducers > 0 && forall i :: 0 <= i < |job.blobs| ==> IsText(job.blobs[i].data)
  }

  lemma {:induction false} PieceSays(job: Job, x: ShardData, r: nat, w: string)
    requires Readable(job)
    ensures Says(PieceContent(job, x, r), w, Share(job, r, w, PieceCount(job, x, w)))
  {
    DataOfIsText(job.blobs, x.blobName);
    if x.begin <= x.end {
      PieceTextMeaning(DataOf(job.blobs, x.blobName), x.begin, x.end, job.hash, job.nreducers, r, w);
    }
  }

  lemma {:induction false} PiecesCountSnoc(job: Job, sets: seq<ShardData>, n: nat, w: string)
    requires 0 < n <= |sets|
    ensures PiecesCount(job, sets[..n], w) == PiecesCount(job, sets[..n - 1], w) + PieceCount(job, sets[n - 1], w)
  {
    var last := [sets[n - 1]];
    assert sets[..n] == sets[..n - 1] + last;
    PiecesCountConcat(job, sets[..n - 1], last, w);
    assert PiecesCount(job, last, w) == PieceCount(job, last[0], w) + PiecesCount(job, last[1..], w);
  }

  /** What the first n pieces of a task count. */
  function CountTo(job: Job, sets: seq<ShardData>, n: nat, w: string): nat
    requires n <= |sets|
  {
    if n == 0 then 0 else CountTo(job, sets, n - 1, w) + PieceCount(job, sets[n - 1], w)
  }

  lemma {:induction false} CountToIs(job: Job, sets: seq<ShardData>, n: nat, w: string)
    requires n <= |sets|
    ensures CountTo(job, sets, n, w) == PiecesCount(job, sets[..n], w)
  {
    if n > 0 {
      CountToIs(job, sets, n - 1, w);
      PiecesCountSnoc(job, sets, n, w);
    }
  }

  lemma {:induction false} TaskSays(job: Job, sets: seq<ShardData>, n: nat, r: nat, w: string)
    requires Readable(job) && n <= |sets|
    ensures Says(TaskText(job, sets, n, r), w, Share(job, r, w, CountTo(job, sets, n, w)))
    decreases n
  {
    if n == 0 {
      NothingSaid(w);
    } else {
      TaskSays(job, sets, n - 1, r, w);
      PieceSays(job, sets[n - 1], r, w);
      SharesConcat(job, TaskText(job, sets, n - 1, r), PieceContent(job, sets[n - 1], r), r, w,
                   CountTo(job, sets, n - 1, w), PieceCount(job, sets[n - 1], w));
    }
  }

  lemma {:induction false} NothingSaid(w: string)
    ensures Lines("") == [] && Says("", w, 0)
  {
  }

  lemma {:induction false} SharesConcat(job: Job, a: string, b: string, r: nat, w: string, u: nat, v: nat)
    requires job.nreducers > 0 && Says(a, w, Share(job, r, w, u)) && Says(b, w, Share(job, r, w, v))
    ensures Lines(a + b) == Lines(a) + Lines(b) && Says(a + b, w, Share(job, r, w, u + v))
  {
    SaysConcat(a, b, w, Share(job, r, w, u), Share(job, r, w, v));
  }

  function ShardCountOf(job: Job, id: int, w: string): nat {
    if 0 <= id < |job.shards| then PiecesCount(job, job.shards[id].sets, w) else 0
  }

  lemma {:induction false} ShardSays(job: Job, id: int, r: nat, w: string)
    requires Readable(job)
    ensures Says(ShardText(job, id, r), w, Share(job, r, w, ShardCountOf(job, id, w)))
  {
    if 0 <= id < |job.shards| {
      var sets := job.shards[id].sets;
      TaskSays(job, sets, |sets|, r, w);
      CountToIs(job, sets, |sets|, w);
      assert sets[..|sets|] == sets;
    }
  }

  function ShardsCountOf(job: Job, ids: seq<int>, w: string): nat {
    if ids == [] then 0 else ShardCountOf(job, ids[0], w) + ShardsCountOf(job, ids[1..], w)
  }

  lemma {:induction false} ShardsSay(job: Job, ids: seq<int>, r: nat, w: string)
    requires Readable(job)
    ensures Says(ShardsText(job, ids, r), w, Share(job, r, w, ShardsCountOf(job, ids, w)))
  {
    if ids == [] {
      NothingSaid(w);
    } else {
      ShardSays(job, ids[0], r, w);
      ShardsSay(job, ids[1..], r, w);
      SharesConcat(job, ShardText(job, ids[0], r), ShardsText(job, ids[1..], r), r, w,
                   ShardCountOf(job, ids[0], w), ShardsCountOf(job, ids[1..], w));
    }
  }

  /** The lines of the given shards, shard by shard. */
  function ShardsLines(job: Job, ids: seq<int>, r: nat): seq<string>
    requires job.nreducers > 0
  {
    if ids == [] then [] else Lines(ShardText(job, ids[0], r)) + ShardsLines(job, ids[1..], r)
  }

  lemma {:induction false} ShardsTextLines(job: Job, ids: seq<int>, r: nat)
    requires Readable(job)
    ensures Lines(ShardsText(job, ids, r)) == ShardsLines(job, ids, r)
  {
    if ids == [] {
      NothingSaid("");
    } else {
      ShardsTextLines(job, ids[1..], r);
      ShardSays(job, ids[0], r, "");
      ShardsSay(job, ids[1..], r, "");
      SharesConcat(job, ShardText(job, ids[0], r), ShardsText(job, ids[1..], r), r, "",
                   ShardCountOf(job, ids[0], ""), ShardsCountOf(job, ids[1..], ""));
    }
  }

  lemma {:induction false} ShardsLinesConcat(job: Job, a: seq<int>, b: seq<int>, r: nat)
    requires job.nreducers > 0
    ensures ShardsLines(job, a + b, r) == ShardsLines(job, a, r) + ShardsLines(job, b, r)
  {
    if a == [] {
      assert a + b == b;
    } else {
      assert (a + b)[1..] == a[1..] + b;
      ShardsLinesConcat(job, a[1..], b, r);
    }
  }

  lemma {:induction false} MoveToFront(job: Job, b: seq<int>, k: nat, r: nat)
    requires job.nreducers > 0 && k < |b|
    ensures multiset(ShardsLines(job, b, r))
         == multiset(Lines(ShardText(job, b[k], r))) + multiset(ShardsLines(job, b[..k] + b[k + 1..], r))
  {
    var front, one, back := b[..k], [b[k]], b[k + 1..];
    assert b == front + (one + back);
    ShardsLinesConcat(job, front, one + back, r);
    ShardsLinesConcat(job, front, back, r);
    assert (one + back)[1..] == back;
  }

  /** Any two orders of the shards give the same lines, each equally often. */
  lemma {:induction false} ShardLinesPermute(job: Job, a: seq<int>, b: seq<int>, r: nat)
    requires job.nreducers > 0 && multiset(a) == multiset(b)
    ensures multiset(ShardsLines(job, a, r)) == multiset(ShardsLines(job, b, r))
  {
    if a == [] {
      assert |b| == |multiset(b)| == 0;
    } else {
      var k := MatchFirst(a, b);
      ShardLinesPermute(job, a[1..], b[..k] + b[k + 1..], r);
      MoveToFront(job, b, k, r);
    }
  }

  /** The output of a reducer does not depend on the order in which the shards come. */
  lemma {:induction false} ShardOrderIrrelevant(job: Job, a: seq<int>, b: seq<int>, r: nat)
    requires ValidJob(job) && multiset(a) == multiset(b)
    ensures OutText(ShardsText(job, a, r)) == OutText(ShardsText(job, b, r))
  {
    ShardsTextLines(job, a, r);
    ShardsTextLines(job, b, r);
    ShardLinesPermute(job, a, b, r);
    ReduceOrderIndependent(ShardsText(job, a, r), ShardsText(job, b, r));
  }

  // ----- what a reducer should write -----

  /** The output file of reducer r, as a function of the job alone. */
  function ExpectedOut(job: Job, r: nat): string
    requires job.nreducers > 0
  {
    OutText(ShardsText(job, Range(|job.shards|), r))
  }

  lemma {:induction false} AllSetsCount(job: Job, n: nat, w: string)
    requires 0 < n <= |job.shards|
    ensures PiecesCount(job, AllSets(job.shards[..n]), w)
         == PiecesCount(job, AllSets(job.shards[..n - 1]), w) + ShardCountOf(job, n - 1, w)
  {
    assert job.shards[..n] == job.shards[..n - 1] + [job.shards[n - 1]];
    AllSetsSnoc(job.shards[..n - 1], job.shards[n - 1]);
    PiecesCountConcat(job, AllSets(job.shards[..n - 1]), job.shards[n - 1].sets, w);
  }

  lemma {:induction false} RangeCount(job: Job, n: nat, w: string)
    requires n <= |job.shards|
    ensures ShardsCountOf(job, Range(n), w) == PiecesCount(job, AllSets(job.shards[..n]), w)
  {
    if n == 0 {
      assert job.shards[..0] == [] && Range(0) == [];
      assert AllSets([]) == [];
    } else {
      RangeCount(job, n - 1, w);
      RangeSnoc(n - 1);
      ShardsCountSnoc(job, Range(n - 1), n - 1, w);
      AllSetsCount(job, n, w);
    }
  }

  lemma {:induction false} ShardsCountSnoc(job: Job, ids: seq<int>, id: int, w: string)
    ensures ShardsCountOf(job, ids + [id], w) == ShardsCountOf(job, ids, w) + ShardCountOf(job, id, w)
  {
    if ids == [] {
      assert [id][1..] == [];
      assert ShardsCountOf(job, [id], w) == ShardCountOf(job, id, w) + ShardsCountOf(job, [id][1..], w);
      assert [] + [id] == [id];
    } else {
      assert (ids + [id])[1..] == ids[1..] + [id];
      ShardsCountSnoc(job, ids[1..], id, w);
    }
  }

  /** An output file with exactly one line for every word of reducer r that occurs, with its count. */
  ghost predicate IsWordCount(job: Job, r: nat, text: string)
    requires job.nreducers > 0
  {
    exists d: Dict :: text == Format(d) && Proper(d) && WordKeys(d) && CountsFor(job, r, d)
  }

  ghost predicate CountsFor(job: Job, r: nat, d: Dict)
    requires job.nreducers > 0
  {
    forall w: string, n: nat :: Entry(w, n) in d <==> n > 0 && n == Share(job, r, w, InputCount(job.blobs, w))
  }

  /** The reduction of all shards' files counts each word of the reducer as the input does. */
  lemma {:induction false} ExpectedSum(job: Job, r: nat, w: string)
    requires ValidJob(job)
    ensures var input := ShardsText(job, Range(|job.shards|), r);
            && ReduceDict(input).Some? && Proper(ReduceDict(input).value)
            && Sum(ReduceDict(input).value, w) == Share(job, r, w, InputCount(job.blobs, w))
  {
    var n := |job.shards|;
    ShardsSay(job, Range(n), r, w);
    ReduceSums(ShardsText(job, Range(n), r), w);
    RangeCount(job, n, w);
    assert job.shards[..n] == job.shards;
    ShardsCountInput(job, w);
  }

  /** The expected output is the plain word count of the input, restricted to the reducer's words. */
  lemma {:induction false} ExpectedIsWordCount(job: Job, r: nat)
    requires ValidJob(job)
    ensures IsWordCount(job, r, ExpectedOut(job, r))
  {
    var n := |job.shards|;
    var input := ShardsText(job, Range(n), r);
    ShardsSay(job, Range(n), r, "");
    ReduceSums(input, "");
    var d := ReduceDict(input).value;
    forall w: string, n': nat
      ensures Entry(w, n') in d <==> n' > 0 && n' == Share(job, r, w, InputCount(job.blobs, w))
    {
      ExpectedSum(job, r, w);
      ProperSum(d, w, n');
    }
    assert CountsFor(job, r, d);
  }

  /** Every word is the business of exactly one reducer. */
  lemma {:induction false} OneReducerPerWord(job: Job, w: string)
    requires job.nreducers > 0
    ensures var t := job.hash("'" + w + "'") % job.nreducers;
            0 <= t < job.nreducers && forall r: nat, v :: v > 0 ==> (Share(job, r, w, v) == v <==> r == t)
  {
  }
}
