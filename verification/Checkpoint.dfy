/**
 Master::serialize_data, deserialize_data and processReplicatedData: the leader pushes its
 job and its log of completed map tasks; a follower rebuilds its own state from them.
 */
module Checkpoint {
  import opened Sequences
  import opened Status
  import opened Sharding
  import opened MapDispatch

  // ----- w7/src/protos/mr.proto -----

  datatype ShardTuple = ShardTuple(blobname: string, startoffset: int, endoffset: int)
  datatype FileShardSet = FileShardSet(shardId: int, stuples: seq<ShardTuple>)
  datatype JobStatus = JobStatus(shardId: int, intContainer: string, blobList: seq<string>)
  datatype ReduceJobStatus = ReduceJobStatus(jobid: int, outContainer: string)
  datatype CheckPointData = CheckPointData(
    reqId: int,
    nMappers: int,
    nReducers: int,
    inContainer: string,
    shardList: seq<FileShardSet>,
    jobList: seq<JobStatus>,
    reduceJobList: seq<ReduceJobStatus>)

  const TWO_31: int := 0x8000_0000
  const TWO_32: int := 0x1_0000_0000
  const TWO_64: int := 0x1_0000_0000_0000_0000

  /** Storing a size_t in an int32 field keeps the low 32 bits, read as a signed number. */
  function ToInt32(x: nat): int {
    if x % TWO_32 < TWO_31 then x % TWO_32 else x % TWO_32 - TWO_32
  }

  /** Converting it back to size_t wraps negative numbers around at 2^64. */
  function ToSize(i: int): nat
    requires -TWO_31 <= i < TWO_31
  {
    if i >= 0 then i else i + TWO_64
  }

  /** Both conversions keep the value modulo 2^32 and modulo 2^64, within the range of their type. */
  lemma {:induction false} ConversionsWrap(x: nat, i: int)
    requires -0x8000_0000 <= i < 0x8000_0000
    ensures -0x8000_0000 <= ToInt32(x) < 0x8000_0000 && (x - ToInt32(x)) % 0x1_0000_0000 == 0
    ensures 0 <= ToSize(i) < 0x1_0000_0000_0000_0000 && (ToSize(i) - i) % 0x1_0000_0000_0000_0000 == 0
  {
    assert x == x / TWO_32 * TWO_32 + x % TWO_32;
  }

  /** Exactly which offsets survive the wire. */
  lemma {:induction false} OffsetSurvives(x: nat)
    requires x < 0x1_0000_0000_0000_0000
    ensures -0x8000_0000 <= ToInt32(x) < 0x8000_0000
    ensures ToSize(ToInt32(x)) == x <==> x < 0x8000_0000 || 0xFFFF_FFFF_8000_0000 <= x
  {
  }

  /** 3 GiB into a blob, an offset comes back as a different one. */
  lemma {:induction false} LargeOffsetIsLost()
    ensures ToSize(ToInt32(0xC000_0000)) != 0xC000_0000
  {
    OffsetSurvives(0xC000_0000);
  }

  function EncodePiece(x: ShardData): ShardTuple {
    ShardTuple(x.blobName, ToInt32(x.begin), ToInt32(x.end))
  }

  function DecodePiece(t: ShardTuple): ShardData
    requires -TWO_31 <= t.startoffset < TWO_31 && -TWO_31 <= t.endoffset < TWO_31
  {
    ShardData(t.blobname, ToSize(t.startoffset), ToSize(t.endoffset))
  }

  function EncodePieces(sets: seq<ShardData>): (r: seq<ShardTuple>)
    ensures |r| == |sets| && forall i :: 0 <= i < |sets| ==> r[i] == EncodePiece(sets[i])
  {
    seq(|sets|, i requires 0 <= i < |sets| => EncodePiece(sets[i]))
  }

  predicate InRange(ts: seq<ShardTuple>) {
    forall i :: 0 <= i < |ts| ==> -TWO_31 <= ts[i].startoffset < TWO_31 && -TWO_31 <= ts[i].endoffset < TWO_31
  }

  function DecodePieces(ts: seq<ShardTuple>): (r: seq<ShardData>)
    requires InRange(ts)
    ensures |r| == |ts| && forall i :: 0 <= i < |ts| ==> r[i] == DecodePiece(ts[i])
  {
    seq(|ts|, i requires 0 <= i < |ts| && InRange(ts) => DecodePiece(ts[i]))
  }

  function EncodeShards(shards: seq<FileShard>): (r: seq<FileShardSet>)
    ensures |r| == |shards|
    ensures forall i :: 0 <= i < |shards| ==> r[i] == FileShardSet(shards[i].shardId, EncodePieces(shards[i].sets))
  {
    seq(|shards|, i requires 0 <= i < |shards| => FileShardSet(shards[i].shardId, EncodePieces(shards[i].sets)))
  }

  predicate AllInRange(fs: seq<FileShardSet>) {
    forall i :: 0 <= i < |fs| ==> InRange(fs[i].stuples)
  }

  function DecodeShards(fs: seq<FileShardSet>): (r: seq<FileShard>)
    requires AllInRange(fs)
    ensures |r| == |fs|
    ensures forall i :: 0 <= i < |fs| ==> r[i] == FileShard(fs[i].shardId, DecodePieces(fs[i].stuples))
  {
    seq(|fs|, i requires 0 <= i < |fs| && AllInRange(fs) => FileShard(fs[i].shardId, DecodePieces(fs[i].stuples)))
  }

  function EncodeLog(log: seq<MapperResult>): (r: seq<JobStatus>)
    ensures |r| == |log|
    ensures forall i :: 0 <= i < |log| ==> r[i] == JobStatus(log[i].shardId, log[i].cname, log[i].blobList)
  {
    seq(|log|, i requires 0 <= i < |log| => JobStatus(log[i].shardId, log[i].cname, log[i].blobList))
  }

  /** The results a follower rebuilds; a replicated result counts as a success. */
  function DecodeLog(js: seq<JobStatus>): (r: seq<MapperResult>)
    ensures |r| == |js|
    ensures forall i :: 0 <= i < |js| ==>
        r[i] == MapperResult(SUCCESS, js[i].shardId, js[i].intContainer, js[i].blobList)
  {
    seq(|js|, i requires 0 <= i < |js| => MapperResult(SUCCESS, js[i].shardId, js[i].intContainer, js[i].blobList))
  }

  /** The list holds the map's entries in the order of the keys, as iterating a std::map does. */
  predicate Lists(rs: seq<ReduceJobStatus>, m: map<int, string>) {
    && (forall i, j :: 0 <= i < j < |rs| ==> rs[i].jobid < rs[j].jobid)
    && (forall i :: 0 <= i < |rs| ==> rs[i].jobid in m && m[rs[i].jobid] == rs[i].outContainer)
    && forall k :: k in m ==> exists i :: 0 <= i < |rs| && rs[i].jobid == k
  }

  lemma {:induction false} ListsSnoc(rs: seq<ReduceJobStatus>, m: map<int, string>, k: int, v: string)
    requires Lists(rs, m) && forall i :: 0 <= i < |rs| ==> rs[i].jobid < k
    ensures Lists(rs + [ReduceJobStatus(k, v)], m[k := v])
  {
    var r := rs + [ReduceJobStatus(k, v)];
    forall x | x in m || x == k ensures exists i :: 0 <= i < |r| && r[i].jobid == x {
      if x == k {
        assert r[|rs|].jobid == x;
      } else {
        var i :| 0 <= i < |rs| && rs[i].jobid == x;
        assert r[i].jobid == x;
      }
    }
  }

  function DecodeOutputs(rs: seq<ReduceJobStatus>): map<int, string> {
    if rs == [] then map[]
    else
      var m := DecodeOutputs(rs[..|rs| - 1]);
      var r := rs[|rs| - 1];
      if r.jobid in m then m else m[r.jobid := r.outContainer]
  }

  lemma {:induction false} DecodedOutputs(rs: seq<ReduceJobStatus>, k: int)
    requires forall i, j :: 0 <= i < j < |rs| ==> rs[i].jobid < rs[j].jobid
    ensures k in DecodeOutputs(rs) <==> exists i :: 0 <= i < |rs| && rs[i].jobid == k
    ensures forall i :: 0 <= i < |rs| && rs[i].jobid == k ==>
        k in DecodeOutputs(rs) && DecodeOutputs(rs)[k] == rs[i].outContainer
  {
    if rs != [] {
      var n := |rs| - 1;
      DecodedOutputs(rs[..n], k);
      DecodedOutputs(rs[..n], rs[n].jobid);
      if k in DecodeOutputs(rs[..n]) {
        var i :| 0 <= i < n && rs[..n][i].jobid == k;
        assert rs[i].jobid == k;
      } else if rs[n].jobid == k {
        assert rs[n].jobid == k;
      }
      forall i | 0 <= i < |rs| && rs[i].jobid == k
        ensures k in DecodeOutputs(rs) && DecodeOutputs(rs)[k] == rs[i].outContainer
      {
        if i < n {
          assert rs[..n][i].jobid == k;
        }
      }
    }
  }

  lemma {:induction false} OutputsSurvive(rs: seq<ReduceJobStatus>, m: map<int, string>)
    requires Lists(rs, m)
    ensures DecodeOutputs(rs) == m
  {
    forall k ensures k in DecodeOutputs(rs) <==> k in m
             ensures k in m ==> k in DecodeOutputs(rs) && DecodeOutputs(rs)[k] == m[k]
    {
      DecodedOutputs(rs, k);
    }
  }

  // ----- the master's job state -----

  datatype JobState = JobState(
    rid: int,
    nmappers: int,
    nreducers: int,
    containername: string,
    shards: seq<FileShard>,
    resultMap: map<int, MapperResult>,
    intBlobs: seq<string>,
    intContainer: string,
    outputMap: map<int, string>,
    replicated: bool)

  /** What a serialized state and log look like on the wire. */
  predicate Serialized(m: JobState, log: seq<MapperResult>, ck: CheckPointData) {
    && ck.reqId == m.rid && ck.nMappers == m.nmappers && ck.nReducers == m.nreducers
    && ck.inContainer == m.containername
    && ck.shardList == EncodeShards(m.shards)
    && ck.jobList == EncodeLog(log)
    && Lists(ck.reduceJobList, m.outputMap)
  }

  function Deserialized(before: JobState, ck: CheckPointData): JobState
    requires AllInRange(ck.shardList)
  {
    var log := DecodeLog(ck.jobList);
    JobState(ck.reqId, ck.nMappers, ck.nReducers, ck.inContainer, DecodeShards(ck.shardList), MapOf(log), BlobsOf(log),
             if log == [] then before.intContainer else log[|log| - 1].cname, DecodeOutputs(ck.reduceJobList), true)
  }

  class Master {
    var rid: int
    var nmappers: int
    var nreducers: int
    var containername: string
    var shards: seq<FileShard>
    var intermediateResultMap: map<int, MapperResult>
    var intblobList: seq<string>
    var intcontainer: string
    var outputResultMap: map<int, string>
    var bReplicated: bool

    constructor ()
      ensures View() == JobState(0, 0, 0, "", [], map[], [], "", map[], false)
    {
      rid, nmappers, nreducers, containername, shards := 0, 0, 0, "", [];
      intermediateResultMap, intblobList, intcontainer, outputResultMap, bReplicated := map[], [], "", map[], false;
    }

    ghost function View(): JobState
      reads this
    {
      JobState(rid, nmappers, nreducers, containername, shards, intermediateResultMap, intblobList, intcontainer,
               outputResultMap, bReplicated)
    }

    method SerializeData(replList: seq<MapperResult>) returns (reply: CheckPointData)
      ensures Serialized(View(), replList, reply)
    {
      var jobList := EncodeJobList(replList);
      var shardList := EncodeShardList(shards);
      var reduceJobList := SerializeOutputs();
      reply := CheckPointData(rid, nmappers, nreducers, containername, shardList, jobList, reduceJobList);
    }

    /** Iterates m_OutputResultMap in key order. */
    method SerializeOutputs() returns (list: seq<ReduceJobStatus>)
      ensures Lists(list, outputResultMap)
    {
      list := [];
      var rest := outputResultMap.Keys;
      while rest != {}
        invariant rest <= outputResultMap.Keys
        invariant forall i, k :: 0 <= i < |list| && k in rest ==> list[i].jobid < k
        invariant Lists(list, outputResultMap - rest)
        decreases rest
      {
        ghost var least := LeastExists(rest);
        var k :| k in rest && forall j :: j in rest ==> k <= j;
        ListsSnoc(list, outputResultMap - rest, k, outputResultMap[k]);
        assert outputResultMap - (rest - {k}) == (outputResultMap - rest)[k := outputResultMap[k]];
        list := list + [ReduceJobStatus(k, outputResultMap[k])];
        rest := rest - {k};
      }
      assert outputResultMap - {} == outputResultMap;
    }

    method DeserializeData(reply: CheckPointData)
      requires AllInRange(reply.shardList)
      modifies this
      ensures View() == Deserialized(old(View()), reply)
    {
      rid := reply.reqId;
      nmappers := reply.nMappers;
      nreducers := reply.nReducers;
      containername := reply.inContainer;
      shards := DecodeShardList(reply.shardList);
      intermediateResultMap, intblobList, intcontainer := DecodeJobList(reply.jobList, intcontainer);
      outputResultMap := DecodeReduceJobs(reply.reduceJobList);
      bReplicated := true;
    }

    /** The loop of processReplicatedData that fills the job queue. */
    method QueueMissing() returns (jobQ: seq<int>)
      requires Numbered(shards)
      ensures jobQ == Missing(|shards|, intermediateResultMap)
    {
      jobQ := [];
      for i := 0 to |shards|
        invariant jobQ == Missing(i, intermediateResultMap)
      {
        var shardId := shards[i].shardId;
        if shardId in intermediateResultMap {
          continue;
        }
        jobQ := jobQ + [shardId];
      }
    }
  }

  method EncodeJobList(replList: seq<MapperResult>) returns (jobList: seq<JobStatus>)
    ensures jobList == EncodeLog(replList)
  {
    jobList := [];
    for i := 0 to |replList|
      invariant jobList == EncodeLog(replList)[..i]
    {
      jobList := jobList + [JobStatus(replList[i].shardId, replList[i].cname, replList[i].blobList)];
    }
  }

  method EncodeShardList(shards: seq<FileShard>) returns (list: seq<FileShardSet>)
    ensures list == EncodeShards(shards)
  {
    list := [];
    for i := 0 to |shards|
      invariant list == EncodeShards(shards)[..i]
    {
      var s := shards[i];
      var stuples: seq<ShardTuple> := [];
      for j := 0 to |s.sets|
        invariant stuples == EncodePieces(s.sets)[..j]
      {
        stuples := stuples + [ShardTuple(s.sets[j].blobName, ToInt32(s.sets[j].begin), ToInt32(s.sets[j].end))];
      }
      assert stuples == EncodePieces(s.sets);
      list := list + [FileShardSet(s.shardId, stuples)];
    }
  }

  method DecodeShardList(list: seq<FileShardSet>) returns (shards: seq<FileShard>)
    requires AllInRange(list)
    ensures shards == DecodeShards(list)
  {
    shards := [];
    for i := 0 to |list|
      invariant shards == DecodeShards(list)[..i]
    {
      var fsdata := list[i];
      var sets: seq<ShardData> := [];
      for j := 0 to |fsdata.stuples|
        invariant sets == DecodePieces(fsdata.stuples)[..j]
      {
        var x := fsdata.stuples[j];
        sets := sets + [ShardData(x.blobname, ToSize(x.startoffset), ToSize(x.endoffset))];
      }
      assert FileShard(fsdata.shardId, sets) == DecodeShards(list)[i];
      shards := shards + [FileShard(fsdata.shardId, sets)];
    }
  }

  /** The container name of the last job stays behind; without jobs it is the old one. */
  method DecodeJobList(jobs: seq<JobStatus>, container: string)
    returns (m: map<int, MapperResult>, blobs: seq<string>, intContainer: string)
    ensures m == MapOf(DecodeLog(jobs)) && blobs == BlobsOf(DecodeLog(jobs))
    ensures intContainer == if jobs == [] then container else jobs[|jobs| - 1].intContainer
  {
    m, blobs, intContainer := map[], [], container;
    ghost var log := DecodeLog(jobs);
    for i := 0 to |jobs|
      invariant m == MapOf(log[..i]) && blobs == BlobsOf(log[..i])
      invariant intContainer == if i == 0 then container else jobs[i - 1].intContainer
    {
      var js := jobs[i];
      intContainer := js.intContainer;
      var res := MapperResult(SUCCESS, js.shardId, intContainer, js.blobList);
      assert log[..i + 1] == log[..i] + [res];
      assert log[..i + 1][..i] == log[..i];
      BlobsOfSnoc(log[..i], res);
      if js.shardId !in m {
        m := m[js.shardId := res];
      }
      blobs := blobs + js.blobList;
    }
    assert log[..|log|] == log;
  }

  method DecodeReduceJobs(rs: seq<ReduceJobStatus>) returns (m: map<int, string>)
    ensures m == DecodeOutputs(rs)
  {
    m := map[];
    for i := 0 to |rs|
      invariant m == DecodeOutputs(rs[..i])
    {
      assert rs[..i + 1][..i] == rs[..i];
      if rs[i].jobid !in m {
        m := m[rs[i].jobid := rs[i].outContainer];
      }
    }
    assert rs[..|rs|] == rs;
  }

  lemma {:induction false} LeastExists(s: set<int>) returns (k: int)
    requires s != {}
    ensures k in s && forall j :: j in s ==> k <= j
  {
    assert (forall x: int :: x !in s) ==> s == {};
    var x :| x in s;
    k := x;
    var rest := s - {k};
    if rest != {} {
      var m := LeastExists(rest);
      assert forall j :: j in s ==> j == k || j in rest;
      k := if k < m then k else m;
    } else {
      assert forall j :: j in s ==> j == k || j in rest;
    }
  }

  // ----- the round trip -----

  predicate SmallOffsets(shards: seq<FileShard>) {
    forall i :: 0 <= i < |shards| ==> forall j :: 0 <= j < |shards[i].sets| ==>
      shards[i].sets[j].begin < TWO_31 && shards[i].sets[j].end < TWO_31
  }

  lemma {:induction false} EncodedInRange(shards: seq<FileShard>)
    requires SmallOffsets(shards)
    ensures AllInRange(EncodeShards(shards)) && DecodeShards(EncodeShards(shards)) == shards
  {
    forall i | 0 <= i < |shards|
      ensures InRange(EncodePieces(shards[i].sets)) && DecodePieces(EncodePieces(shards[i].sets)) == shards[i].sets
    {
      var sets := shards[i].sets;
      forall j | 0 <= j < |sets|
        ensures ToInt32(sets[j].begin) == sets[j].begin && ToInt32(sets[j].end) == sets[j].end
      {
        OffsetSurvives(sets[j].begin);
        OffsetSurvives(sets[j].end);
      }
    }
  }

  predicate AllSuccess(log: seq<MapperResult>) {
    forall i :: 0 <= i < |log| ==> log[i].status.SUCCESS?
  }

  lemma {:induction false} MapOfEach(rs: seq<MapperResult>, i: nat)
    requires Distinct(ResultIds(rs)) && i < |rs|
    ensures rs[i].shardId in MapOf(rs) && MapOf(rs)[rs[i].shardId] == rs[i]
  {
    var front, r := rs[..|rs| - 1], rs[|rs| - 1];
    assert ResultIds(rs) == ResultIds(front) + [r.shardId];
    MapOfKeys(front, r.shardId);
    if i < |front| {
      MapOfEach(front, i);
    }
  }

  /**
   What a follower knows after a push: the leader's job, unchanged, and one result for every
   log entry; the blob list is the one that goes with those results.
   */
  lemma {:induction false} RoundTrip(m: JobState, log: seq<MapperResult>, ck: CheckPointData, follower: JobState)
    requires Serialized(m, log, ck) && SmallOffsets(m.shards) && AllSuccess(log) && Distinct(ResultIds(log))
    ensures AllInRange(ck.shardList)
    ensures var f := Deserialized(follower, ck);
            && f.rid == m.rid && f.nmappers == m.nmappers && f.nreducers == m.nreducers
            && f.containername == m.containername && f.shards == m.shards && f.outputMap == m.outputMap && f.replicated
            && f.resultMap == MapOf(log) && |f.resultMap| == |log|
            && (forall i :: 0 <= i < |log| ==> log[i].shardId in f.resultMap && f.resultMap[log[i].shardId] == log[i])
            && f.intBlobs == BlobsOf(log)
            && (Numbered(m.shards) ==> Numbered(f.shards))
  {
    EncodedInRange(m.shards);
    OutputsSurvive(ck.reduceJobList, m.outputMap);
    assert DecodeLog(EncodeLog(log)) == log;
    MapOfSize(log);
    forall i | 0 <= i < |log| ensures log[i].shardId in MapOf(log) && MapOf(log)[log[i].shardId] == log[i] {
      MapOfEach(log, i);
    }
  }

  lemma {:induction false} BlobsOfSome(log: seq<MapperResult>)
    requires log != [] && forall i :: 0 <= i < |log| ==> log[i].blobList != []
    ensures BlobsOf(log) != []
  {
    assert log[0].blobList != [];
  }

  /**
   Results carried over from an earlier job spoil the follower's state whatever they are: it
   has the results and blobs of this job alone exactly when the log was empty at the start.
   Every successful task reports at least one blob.
   */
  lemma {:induction false} StaleLogExactly(stale: seq<MapperResult>, newer: seq<MapperResult>)
    requires forall i :: 0 <= i < |stale| ==> stale[i].blobList != []
    ensures MapOf(stale + newer) == MapOf(newer) && BlobsOf(stale + newer) == BlobsOf(newer) <==> stale == []
  {
    if stale == [] {
      assert stale + newer == newer;
    } else {
      BlobsOfConcat(stale, newer);
      BlobsOfSome(stale);
    }
  }

  /** The same for a pushed checkpoint and the state a follower makes of it. */
  lemma {:induction false} FollowerRebuildsExactly(m: JobState, stale: seq<MapperResult>, newer: seq<MapperResult>,
    ck: CheckPointData, follower: JobState)
    requires Serialized(m, stale + newer, ck) && SmallOffsets(m.shards) && AllSuccess(stale + newer)
    requires forall i :: 0 <= i < |stale| ==> stale[i].blobList != []
    ensures AllInRange(ck.shardList)
    ensures var f := Deserialized(follower, ck);
            f.resultMap == MapOf(newer) && f.intBlobs == BlobsOf(newer) <==> stale == []
  {
    EncodedInRange(m.shards);
    assert DecodeLog(EncodeLog(stale + newer)) == stale + newer;
    StaleLogExactly(stale, newer);
  }

  /** With a log left over from an earlier job, the follower keeps the old result and both jobs' blobs. */
  lemma {:induction false} StaleLogMixesJobs()
    ensures var stale := MapperResult(SUCCESS, 0, "oneint", ["int_w_0_0_0"]);
            var newer := MapperResult(SUCCESS, 0, "twoint", ["int_v_0_0_0"]);
            var log := [stale, newer];
            MapOf(log) == map[0 := stale] && BlobsOf(log) == ["int_w_0_0_0", "int_v_0_0_0"]
  {
    var stale := MapperResult(SUCCESS, 0, "oneint", ["int_w_0_0_0"]);
    var newer := MapperResult(SUCCESS, 0, "twoint", ["int_v_0_0_0"]);
    var log := [stale, newer];
    assert log[..1] == [stale] && [stale][..0] == [];
    assert MapOf([stale]) == map[0 := stale];
    assert log[1..] == [newer] && [newer][1..] == [];
    assert BlobsOf([newer]) == ["int_v_0_0_0"];
  }
}
