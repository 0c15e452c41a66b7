/**
 The main results about whole jobs: whatever fails, times out, is retried or taken over, a
 finished job has counted every word of the input once.
 */
module EndToEnd {
  import opened Arithmetic
  import opened FloatArithmetic
  import opened Sequences
  import opened Status
  import opened WordText
  import opened Decimal
  import opened Dictionary
  import opened TextFile
  import opened Sharding
  import opened Intermediate
  import opened WordCount
  import opened Checkpoint
  import opened Cluster
  import M = MapDispatch
  import R = ReduceDispatch

  // ----- the outputs of a finished run -----

  lemma {:induction false} AllWritten(job: Job, w: World, r: nat)
    requires Supported(job) && Inv(job, w) && w.stage.Finished? && r < job.nreducers
    ensures r in w.outs
  {
    var c, s := ReduceConfigOf(job, w), w.redState;
    assert R.CallJobs([]) == [];
    RangeOnce(c.nreducers, r);
    assert multiset(R.ResponseJobs(s.responseList))[r] == 1;
    var i :| 0 <= i < |s.responseList| && R.ResponseJobs(s.responseList)[i] == r;
    assert s.responseList[i].status.SUCCESS?;
  }

  /**
   Every finishing run, with any schedule, any failed, timed-out or repeated calls and any
   number of failovers, leaves exactly the files out_0 .. out_{R-1}, each the word count of
   the input for the words of its reducer.
   */
  lemma {:induction false} FinishedRunCountsWords(job: Job, run: seq<World>, i: nat)
    requires Supported(job) && IsRun(job, run) && i < |run| && run[i].stage.Finished?
    ensures forall r :: r in run[i].outs <==> 0 <= r < job.nreducers
    ensures forall r :: 0 <= r < job.nreducers ==>
        run[i].outs[r] == ExpectedOut(job, r) && IsWordCount(job, r, run[i].outs[r])
  {
    InvRun(job, run, i);
    forall r | 0 <= r < job.nreducers
      ensures r in run[i].outs && run[i].outs[r] == ExpectedOut(job, r) && IsWordCount(job, r, run[i].outs[r])
    {
      AllWritten(job, run[i], r);
      ExpectedIsWordCount(job, r);
    }
  }

  /** Failures and scheduling cannot be seen in the output: any two finished runs agree byte for byte. */
  lemma {:induction false} OutputIsDeterministic(job: Job, run: seq<World>, i: nat, run': seq<World>, i': nat)
    requires Supported(job)
    requires IsRun(job, run) && i < |run| && run[i].stage.Finished?
    requires IsRun(job, run') && i' < |run'| && run'[i'].stage.Finished?
    ensures run[i].outs == run'[i'].outs
  {
    FinishedRunCountsWords(job, run, i);
    FinishedRunCountsWords(job, run', i');
    var a, b := run[i].outs, run'[i'].outs;
    forall r ensures r in a <==> r in b
             ensures r in a ==> r in b && a[r] == b[r]
    {
    }
  }

  /** Where the containers are recorded: the intermediate one as such, the other in place of the blob names. */
  lemma {:induction false} Containers(job: Job, run: seq<World>, i: nat)
    requires Supported(job) && IsRun(job, run) && i < |run|
    ensures run[i].mapState.accepted != [] ==> run[i].mapState.intContainer == job.container + "int"
    ensures run[i].stage.Finished? ==> forall k :: 0 <= k < |run[i].redState.responseList| ==>
              var res := run[i].redState.responseList[k];
              res == R.ReduceResult(SUCCESS, "", job.container + "out", res.jobid)
  {
    InvRun(job, run, i);
    if run[i].stage.Finished? {
      ResponseContainers(job, run[i]);
    }
  }

  lemma {:induction false} ResponseContainers(job: Job, w: World)
    requires w.leader == FirstLeader(job) && R.Inv(ReduceConfigOf(job, w), w.redState) && w.redState.phase.Done?
    ensures forall k :: 0 <= k < |w.redState.responseList| ==>
              var res := w.redState.responseList[k];
              res == R.ReduceResult(SUCCESS, "", job.container + "out", res.jobid)
  {
    forall k | 0 <= k < |w.redState.responseList|
      ensures var res := w.redState.responseList[k];
              res == R.ReduceResult(SUCCESS, "", job.container + "out", res.jobid)
    {
      assert R.Answered(ReduceConfigOf(job, w), w.redState.responseList[k]);
    }
  }

  /** The leader stops handing out reduce tasks when none is left or one call more than clients is out. */
  lemma {:induction false} ReduceCallsFillUp(job: Job, run: seq<World>, i: nat)
    requires Supported(job) && IsRun(job, run) && i < |run| && Enabled(job, run[i], ReduceStep(R.EndDispatch))
    ensures run[i].redState.jobQ == [] || |run[i].redState.inFlight| == job.nclients + 1
  {
    InvRun(job, run, i);
  }

  /** The file has the line `'w':n`. */
  predicate HasLine(text: string, w: string, n: nat) {
    "'" + w + "':" + ToString(n) + "\n" in Lines(text)
  }

  lemma {:induction false} LineOfEntry(d: Dict, e: Entry)
    requires WordKeys(d) && IsWord(e.key)
    ensures FormatLine(e) in FormatLines(d) <==> e in d
  {
    if d != [] {
      LineOfEntry(d[1..], e);
      ParseFormat(e);
      ParseFormat(d[0]);
      assert d == [d[0]] + d[1..];
    }
  }

  lemma {:induction false} LineIs(e: Entry)
    ensures FormatLine(e) == "'" + e.key + "':" + ToString(e.n) + "\n"
  {
    assert FormatLine(e) == ("'" + e.key + "'") + ":" + ToString(e.n) + "\n";
    assert "'" + ":" == "':";
  }

  lemma {:induction false} WordCountLines(job: Job, r: nat, text: string, w: string, n: nat)
    requires job.nreducers > 0 && IsWordCount(job, r, text) && IsWord(w)
    ensures HasLine(text, w, n) <==> n > 0 && n == Share(job, r, w, InputCount(job.blobs, w))
  {
    var d: Dict :| text == Format(d) && Proper(d) && WordKeys(d) && CountsFor(job, r, d);
    FormattedLines(d);
    LineIs(Entry(w, n));
    LineOfEntry(d, Entry(w, n));
  }

  /** A word is listed by the one reducer it hashes to and by no other, with its number of occurrences. */
  lemma {:induction false} EveryWordInOneOutput(job: Job, run: seq<World>, i: nat, w: string, r: nat, n: nat)
    requires Supported(job) && IsRun(job, run) && i < |run| && run[i].stage.Finished?
    requires IsWord(w) && r < job.nreducers
    ensures r in run[i].outs
    ensures HasLine(run[i].outs[r], w, n)
            <==> r == job.hash("'" + w + "'") % job.nreducers && n == InputCount(job.blobs, w) && n > 0
  {
    FinishedRunCountsWords(job, run, i);
    WordCountLines(job, r, run[i].outs[r], w, n);
  }

  /** A word that occurs is listed exactly once in the whole output, by a reducer found from its hash. */
  lemma {:induction false} WordIsListedOnce(job: Job, run: seq<World>, i: nat, w: string) returns (r: nat)
    requires Supported(job) && IsRun(job, run) && i < |run| && run[i].stage.Finished?
    requires IsWord(w) && InputCount(job.blobs, w) > 0
    ensures r == job.hash("'" + w + "'") % job.nreducers
    ensures r in run[i].outs && HasLine(run[i].outs[r], w, InputCount(job.blobs, w))
    ensures forall r': nat, n :: r' in run[i].outs && HasLine(run[i].outs[r'], w, n) ==>
              r' == r && n == InputCount(job.blobs, w)
  {
    r := job.hash("'" + w + "'") % job.nreducers;
    OneReducerPerWord(job, w);
    FinishedRunCountsWords(job, run, i);
    EveryWordInOneOutput(job, run, i, w, r, InputCount(job.blobs, w));
    forall r': nat, n | r' in run[i].outs && HasLine(run[i].outs[r'], w, n)
      ensures r' == r && n == InputCount(job.blobs, w)
    {
      EveryWordInOneOutput(job, run, i, w, r', n);
    }
  }

  // ----- which jobs are supported -----

  lemma {:induction false} ChainWithin(ps: seq<ShardData>, name: string, from: nat, to: nat)
    requires Chain(ps, name, from, to)
    ensures from <= to && forall i :: 0 <= i < |ps| ==> ps[i].begin <= ps[i].end <= to
    decreases ps
  {
    if ps != [] {
      ChainWithin(ps[1..], name, ps[0].end, to);
      assert forall i :: 1 <= i < |ps| ==> ps[i] == ps[1..][i - 1];
    }
  }

  predicate SmallPieces(ps: seq<ShardData>) {
    forall i :: 0 <= i < |ps| ==> ps[i].begin < TWO_31 && ps[i].end < TWO_31
  }

  predicate SmallBlobs(blobs: seq<Blob>) {
    forall i :: 0 <= i < |blobs| ==> |blobs[i].data| < TWO_31
  }

  lemma {:induction false} TilesAreSmall(groups: seq<seq<ShardData>>, blobs: seq<Blob>)
    requires TilesAll(groups, blobs) && SmallBlobs(blobs)
    ensures SmallPieces(Flatten(groups))
  {
    if blobs != [] {
      TilesAreSmall(groups[1..], blobs[1..]);
      if blobs[0].data != "" {
        ChainWithin(groups[0], blobs[0].name, 0, |blobs[0].data|);
      }
    }
  }

  lemma {:induction false} ShardsAreSmall(shards: seq<FileShard>)
    requires SmallPieces(AllSets(shards))
    ensures SmallOffsets(shards)
  {
    if shards != [] {
      var all := AllSets(shards);
      assert forall j :: 0 <= j < |shards[0].sets| ==> shards[0].sets[j] == all[j];
      assert forall j :: 0 <= j < |AllSets(shards[1..])| ==> AllSets(shards[1..])[j] == all[|shards[0].sets| + j];
      ShardsAreSmall(shards[1..]);
      assert forall i :: 1 <= i < |shards| ==> shards[i] == shards[1..][i - 1];
    }
  }

  /** The job that create_sharding_data makes of an input, with the rounding of the machine at hand. */
  ghost predicate JobFor(job: Job, round: real -> real) {
    && job.nmappers > 0 && IsRounding(round) && round(job.nmappers as real) > 0.0
    && Sharded(job.blobs, job.shards, FloatShardSz(round, job.blobs, job.nmappers))
  }

  /**
   Shards of this size are as many as the n mappers: the bytes need n of them, or n - 1 when
   an empty blob behind full shards makes one more; without any bytes, one empty blob a mapper.
   */
  predicate EnoughInput(blobs: seq<Blob>, n: nat, size: int) {
    var total := TotalSize(blobs);
    if size <= 0 then |blobs| == n
    else if blobs != [] && blobs[|blobs| - 1].data == "" && total % size == 0 then total == (n - 1) * size
    else (n - 1) * size < total <= n * size
  }

  lemma {:induction false} CountIsRight(blobs: seq<Blob>, shards: seq<FileShard>, n: nat, size: nat)
    requires Sharded(blobs, shards, size) && (size == 0 <==> TotalSize(blobs) == 0)
    ensures |shards| == n <==> EnoughInput(blobs, n, size)
  {
    if size > 0 {
      CeilDivIsExactly(TotalSize(blobs), size, n);
      if TotalSize(blobs) % size == 0 {
        CountWithEmptyTail(TotalSize(blobs), size, n);
      }
    }
  }

  /**
   For a request with n mappers, the exact condition on the input and the computed shard size
   under which a job built by the sharding code has the shard count that map dispatch waits for.
   */
  lemma {:induction false} SupportedExactly(job: Job, round: real -> real)
    requires JobFor(job, round) && GoodInput(job.blobs) && SmallBlobs(job.blobs) && job.nreducers > 0
    ensures Supported(job) <==> EnoughInput(job.blobs, job.nmappers, FloatShardSz(round, job.blobs, job.nmappers))
  {
    FloatShardSzZero(round, job.blobs, job.nmappers);
    CountIsRight(job.blobs, job.shards, job.nmappers, FloatShardSz(round, job.blobs, job.nmappers));
    var groups :| TilesAll(groups, job.blobs) && AllSets(job.shards) == Flatten(groups);
    TilesAreSmall(groups, job.blobs);
    ShardsAreSmall(job.shards);
    assert Tiled(job);
  }

  /** Below 2^24 bytes the computed size is the exact ceiling, and n shards of it always hold all bytes. */
  lemma {:induction false} SupportedBelow2To24(job: Job, round: real -> real)
    requires JobFor(job, round) && GoodInput(job.blobs) && SmallBlobs(job.blobs) && job.nreducers > 0
    requires TotalSize(job.blobs) < TWO_24 && job.nmappers <= TWO_24
    ensures Supported(job) <==> EnoughInput(job.blobs, job.nmappers, CeilDiv(TotalSize(job.blobs), job.nmappers))
    ensures TotalSize(job.blobs) <= job.nmappers * CeilDiv(TotalSize(job.blobs), job.nmappers)
  {
    SupportedExactly(job, round);
    FloatShardSzExact(round, job.blobs, job.nmappers);
    CeilDivBounds(TotalSize(job.blobs), job.nmappers);
  }

  // ----- exactly once -----

  lemma {:induction false} PieceBlobCount(a: string, s: nat, p: nat, n: nat, a': string, s': nat, p': nat, r: nat)
    ensures multiset(PieceBlobs(a, s, p, n))[BlobName(a', s', p', r)]
         == if a == a' && s == s' && p == p' && r < n then 1 else 0
  {
    var names, name := PieceBlobs(a, s, p, n), BlobName(a', s', p', r);
    forall i, j | 0 <= i < j < n ensures names[i] != names[j] {
      if names[i] == names[j] {
        BlobNameInjective(a, s, p, i, a, s, p, j);
      }
    }
    DistinctMultiset(names);
    if a == a' && s == s' && p == p' && r < n {
      assert names[r] == name;
    } else if name in names {
      var i :| 0 <= i < n && names[i] == name;
      BlobNameInjective(a, s, p, i, a', s', p', r);
    }
    assert name in names <==> name in Elements(names);
  }

  lemma {:induction false} TaskBlobCount(a: string, s: nat, pieces: nat, n: nat, a': string, s': nat, p: nat, r: nat)
    ensures multiset(TaskBlobs(a, s, pieces, n))[BlobName(a', s', p, r)]
         == if a == a' && s == s' && p < pieces && r < n then 1 else 0
  {
    if pieces > 0 {
      var before, last := TaskBlobs(a, s, pieces - 1, n), PieceBlobs(a, s, pieces - 1, n);
      TaskBlobCount(a, s, pieces - 1, n, a', s', p, r);
      PieceBlobCount(a, s, pieces - 1, n, a', s', p, r);
      CountInBoth(before, last, BlobName(a', s', p, r));
    }
  }

  lemma {:induction false} CountInBoth(a: seq<string>, b: seq<string>, x: string)
    ensures multiset(a + b)[x] == multiset(a)[x] + multiset(b)[x]
  {
  }

  /** How many of the results are the answer of this worker for this shard. */
  function ResultCount(job: Job, acc: seq<M.MapperResult>, a: string, s: nat): nat {
    if acc == [] then 0 else (if acc[0] == TaskResult(job, a, s) then 1 else 0) + ResultCount(job, acc[1..], a, s)
  }

  lemma {:induction false} ResultBlobCount(job: Job, res: M.MapperResult, a: string, s: nat, p: nat, r: nat)
    requires Made(job, res) && InJob(job, s, p, r)
    ensures multiset(res.blobList)[BlobName(a, s, p, r)] == if res == TaskResult(job, a, s) then 1 else 0
  {
    var a' :| res == TaskResult(job, a', res.shardId);
    TaskBlobCount(a', res.shardId, |job.shards[res.shardId].sets|, job.nreducers, a, s, p, r);
    TaskBlobCount(a, s, |job.shards[s].sets|, job.nreducers, a, s, p, r);
    if res == TaskResult(job, a, s) {
      assert res.blobList == TaskBlobs(a, s, |job.shards[s].sets|, job.nreducers);
    }
  }

  lemma {:induction false} BlobCount(job: Job, acc: seq<M.MapperResult>, a: string, s: nat, p: nat, r: nat)
    requires AllMade(job, acc) && InJob(job, s, p, r)
    ensures multiset(M.BlobsOf(acc))[BlobName(a, s, p, r)] == ResultCount(job, acc, a, s)
  {
    if acc != [] {
      BlobCount(job, acc[1..], a, s, p, r);
      ResultBlobCount(job, acc[0], a, s, p, r);
    }
  }

  lemma {:induction false} NoResult(job: Job, acc: seq<M.MapperResult>, a: string, s: nat)
    requires s !in M.ResultIds(acc)
    ensures ResultCount(job, acc, a, s) == 0
  {
    if acc != [] {
      assert acc[0].shardId == M.ResultIds(acc)[0];
      assert M.ResultIds(acc[1..]) == M.ResultIds(acc)[1..];
      NoResult(job, acc[1..], a, s);
    }
  }

  /** Among results with distinct shards, only one worker has answered for a shard. */
  lemma {:induction false} OneResult(job: Job, acc: seq<M.MapperResult>, s: nat) returns (a: string)
    requires AllMade(job, acc) && Distinct(M.ResultIds(acc)) && s in M.ResultIds(acc)
    ensures forall b: string :: ResultCount(job, acc, b, s) == 0 || TaskResult(job, b, s) == TaskResult(job, a, s)
    ensures ResultCount(job, acc, a, s) == 1
  {
    var ids := M.ResultIds(acc);
    assert M.ResultIds(acc[1..]) == ids[1..];
    if acc[0].shardId == s {
      a :| acc[0] == TaskResult(job, a, acc[0].shardId);
      assert s !in ids[1..];
      forall b: string ensures ResultCount(job, acc[1..], b, s) == 0 {
        NoResult(job, acc[1..], b, s);
      }
    } else {
      assert s in ids[1..];
      a := OneResult(job, acc[1..], s);
    }
  }

  lemma {:induction false} CompleteIds(job: Job, store: map<string, string>, acc: seq<M.MapperResult>)
    requires Complete(job, store, acc)
    ensures Distinct(M.ResultIds(acc)) && forall s :: 0 <= s < |job.shards| ==> s in M.ResultIds(acc)
  {
    var ids := M.ResultIds(acc);
    forall x ensures multiset(ids)[x] == if 0 <= x < |job.shards| then 1 else 0 {
      RangeOnce(|job.shards|, x);
    }
    M.DistinctIfOnce(ids);
    forall s | 0 <= s < |job.shards| ensures s in ids {
      assert s in multiset(ids);
    }
  }

  /** In a complete set of results, every piece has one blob for every reducer, from a single worker. */
  lemma {:induction false} OneBlobEach(job: Job, store: map<string, string>, acc: seq<M.MapperResult>, s: nat,
      p: nat, r: nat) returns (a: string)
    requires Complete(job, store, acc) && InJob(job, s, p, r)
    ensures forall b: string :: multiset(M.BlobsOf(acc))[BlobName(b, s, p, r)] == if b == a then 1 else 0
  {
    CompleteIds(job, store, acc);
    a := OneResult(job, acc, s);
    forall b: string ensures multiset(M.BlobsOf(acc))[BlobName(b, s, p, r)] == if b == a then 1 else 0 {
      BlobCount(job, acc, b, s, p, r);
      if TaskResult(job, b, s) == TaskResult(job, a, s) {
        TaskBlobCount(a, s, |job.shards[s].sets|, job.nreducers, b, s, p, r);
        TaskBlobCount(b, s, |job.shards[s].sets|, job.nreducers, b, s, p, r);
      }
    }
  }

  /**
   When mapping ends, however often tasks were executed and by whichever leaders: one accepted
   result a shard, the recovered ones among them; in the intermediate list one blob for every
   shard, piece and reducer and no others; and the reducers' lists partition it.
   */
  lemma {:induction false} MappingIsExactlyOnce(job: Job, run: seq<World>, i: nat)
    requires Supported(job) && IsRun(job, run) && i < |run| && run[i].mapState.phase.Done?
    ensures var s := run[i].mapState;
            && run[i].recovered <= s.accepted && s.resultMap == M.MapOf(s.accepted)
            && multiset(M.ResultIds(s.accepted)) == multiset(Range(|job.shards|))
    ensures forall id, p, r :: InJob(job, id, p, r) ==>
              exists a: string :: OnlyBlob(run[i].mapState.intBlobs, a, id, p, r)
    ensures forall k :: 0 <= k < |run[i].mapState.intBlobs| ==> OfJob(job, run[i].mapState.intBlobs[k])
    ensures forall x :: HandedOut(run[i].mapState.intBlobs, job.nreducers, x) == multiset(run[i].mapState.intBlobs)[x]
  {
    InvRun(job, run, i);
    var w := run[i];
    MappedIsComplete(job, w);
    ListIsOfJob(job, w.mapState.accepted);
    OfJobPartition(job, w.mapState.intBlobs);
    forall id, p, r | InJob(job, id, p, r) ensures exists a: string :: OnlyBlob(w.mapState.intBlobs, a, id, p, r) {
      var a := OneBlobEach(job, w.store, w.mapState.accepted, id, p, r);
      assert OnlyBlob(w.mapState.intBlobs, a, id, p, r);
    }
  }

  /** The name of some worker's blob for a piece and a reducer of the job. */
  ghost predicate OfJob(job: Job, name: string) {
    exists a: string, s: nat, p: nat, r: nat :: InJob(job, s, p, r) && name == BlobName(a, s, p, r)
  }

  lemma {:induction false} TaskIsOfJob(job: Job, a: string, s: nat, pieces: nat)
    requires s < |job.shards| && pieces <= |job.shards[s].sets|
    ensures forall k :: 0 <= k < |TaskBlobs(a, s, pieces, job.nreducers)| ==>
              OfJob(job, TaskBlobs(a, s, pieces, job.nreducers)[k])
  {
    if pieces > 0 {
      var before := TaskBlobs(a, s, pieces - 1, job.nreducers);
      TaskIsOfJob(job, a, s, pieces - 1);
      forall k | 0 <= k < |TaskBlobs(a, s, pieces, job.nreducers)|
        ensures OfJob(job, TaskBlobs(a, s, pieces, job.nreducers)[k])
      {
        if k >= |before| {
          assert InJob(job, s, pieces - 1, k - |before|);
        }
      }
    }
  }

  lemma {:induction false} ListIsOfJob(job: Job, acc: seq<M.MapperResult>)
    requires AllMade(job, acc)
    ensures forall k :: 0 <= k < |M.BlobsOf(acc)| ==> OfJob(job, M.BlobsOf(acc)[k])
  {
    if acc != [] {
      ListIsOfJob(job, acc[1..]);
      var a :| acc[0] == TaskResult(job, a, acc[0].shardId);
      TaskIsOfJob(job, a, acc[0].shardId, |job.shards[acc[0].shardId].sets|);
    }
  }

  lemma {:induction false} OfJobPartition(job: Job, names: seq<string>)
    requires forall k :: 0 <= k < |names| ==> OfJob(job, names[k])
    ensures forall x :: HandedOut(names, job.nreducers, x) == multiset(names)[x]
  {
    forall k | 0 <= k < |names|
      ensures ReducerOf(names[k]).Some? && 0 <= ReducerOf(names[k]).value < job.nreducers
    {
      assert OfJob(job, names[k]);
      var a: string, s: nat, p: nat, r: nat :| InJob(job, s, p, r) && names[k] == BlobName(a, s, p, r);
      ReducerOfBlobName(a, s, p, r);
    }
    forall x ensures HandedOut(names, job.nreducers, x) == multiset(names)[x] {
      ListsPartition(names, job.nreducers, x);
    }
  }

  /** The list names one blob of this piece for this reducer, once, and it comes from worker a. */
  ghost predicate OnlyBlob(names: seq<string>, a: string, s: int, p: int, r: int) {
    && s >= 0 && p >= 0 && r >= 0
    && forall b: string :: multiset(names)[BlobName(b, s, p, r)] == if b == a then 1 else 0
  }

  // ----- failover -----

  ghost predicate LeaderStep(job: Job, w: World, w': World) {
    exists e: Event :: !e.Failover? && Enabled(job, w, e) && w' == Apply(job, w, e)
  }

  /** From world i to world j the same leader leads. */
  ghost predicate SameLeader(job: Job, run: seq<World>, i: nat, j: nat)
    requires i <= j < |run|
  {
    forall k :: i <= k < j ==> LeaderStep(job, run[k], run[k + 1])
  }

  lemma {:induction false} LogKept(job: Job, w: World, w': World)
    requires LeaderStep(job, w, w')
    ensures w.mapState.replList <= w'.mapState.replList
  {
    var e: Event :| !e.Failover? && Enabled(job, w, e) && w' == Apply(job, w, e);
    if e.MapStep? {
      M.LogAppends(MapConfigOf(w), w.mapState, e.l);
    }
  }

  lemma {:induction false} PrefixChain<T>(logs: seq<seq<T>>, i: nat, j: nat)
    requires i <= j < |logs| && forall k :: i <= k < j ==> logs[k] <= logs[k + 1]
    ensures logs[i] <= logs[j]
    decreases j
  {
    if i < j {
      PrefixChain(logs, i, j - 1);
      assert logs[j - 1] <= logs[j - 1 + 1];
      PrefixTransitive(logs[i], logs[j - 1], logs[j]);
    }
  }

  lemma {:induction false} LogKeptAt(job: Job, run: seq<World>, i: nat, j: nat, k: nat)
    requires i <= k < j < |run| && SameLeader(job, run, i, j)
    ensures run[k].mapState.replList <= run[k + 1].mapState.replList
  {
    LogKept(job, run[k], run[k + 1]);
  }

  function LogsOf(run: seq<World>): (r: seq<seq<M.MapperResult>>)
    ensures |r| == |run| && forall k :: 0 <= k < |run| ==> r[k] == run[k].mapState.replList
  {
    seq(|run|, k requires 0 <= k < |run| => run[k].mapState.replList)
  }

  lemma {:induction false} LogGrows(job: Job, run: seq<World>, i: nat, j: nat)
    requires i <= j < |run| && SameLeader(job, run, i, j)
    ensures run[i].mapState.replList <= run[j].mapState.replList
  {
    var logs := LogsOf(run);
    forall k | i <= k < j ensures logs[k] <= logs[k + 1] {
      LogKeptAt(job, run, i, j, k);
    }
    PrefixChain(logs, i, j);
  }

  /** A checkpoint holds a prefix of its leader's completion log, however long the leader works on. */
  lemma {:induction false} CheckpointIsPrefix(job: Job, run: seq<World>, i: nat, j: nat, ck: CheckPointData)
    requires Supported(job) && IsRun(job, run) && i <= j < |run| && SameLeader(job, run, i, j)
    requires Enabled(job, run[i], Push(ck))
    ensures DecodeLog(ck.jobList) <= run[j].mapState.replList
  {
    InvRun(job, run, i);
    var log := run[i].mapState.replList;
    LogGrows(job, run, i, j);
    forall k | 0 <= k < |log| ensures log[k].status.SUCCESS? {
      M.LoggedGenuine(MapConfigOf(run[i]), run[i].mapState, k);
    }
    assert DecodeLog(ck.jobList) == log;
  }

  /** A new leader starts from exactly the checkpointed results and queues exactly the other shards. */
  lemma {:induction false} NewLeaderRunsWhatIsMissing(job: Job, run: seq<World>, i: nat, ck: CheckPointData, id: int)
    requires Supported(job) && IsRun(job, run) && i < |run| && Enabled(job, run[i], Failover(ck))
    ensures var w := Apply(job, run[i], Failover(ck));
            && w.leader == run[i].leader == FirstLeader(job)
            && w.recovered == w.mapState.accepted == DecodeLog(ck.jobList)
            && multiset(w.mapState.jobQ)[id] + multiset(M.ResultIds(w.recovered))[id]
                == (if 0 <= id < |job.shards| then 1 else 0)
            && (id in w.mapState.resultMap <==> id in M.ResultIds(w.recovered))
  {
    InvRun(job, run, i);
    var w := Apply(job, run[i], Failover(ck));
    InvStep(job, run[i], Failover(ck));
    M.StartConserved(MapConfigOf(w));
    RangeOnce(|job.shards|, id);
    assert M.CallIds(w.mapState.inFlight) == [] && M.ResultIds(w.mapState.responseList) == [];
    M.MapOfKeys(w.recovered, id);
  }
}
