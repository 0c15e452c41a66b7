/**
 Master::dispatchMapTasks and AsyncCompleteMapRpc of w7/src/master/masterimpl.cc as a state
 machine. The main thread and the completion thread share a task queue, a response list, a
 call counter, the result map and the replication log; their steps interleave freely, and
 every call may succeed, fail or time out.
 */
module MapDispatch {
  import opened Sequences
  import opened Status

  datatype MapperResult = MapperResult(status: ReturnStatus, shardId: int, cname: string, blobList: seq<string>)

  /** An AsyncClientMapCall whose completion event is still to come. */
  datatype Call = Call(shardId: int, address: string)

  /** Where the main thread is: filling the queue, spinning, working off responses, or out of the loop. */
  datatype Phase = Dispatching | Waiting | Processing | Done

  /** The parts of the job that dispatch never changes. */
  datatype Config = Config(
    nmappers: int,
    nshards: nat,
    container: string,              // where workers put intermediate blobs
    reply: Call -> seq<string>,     // the blob names a successful worker reports
    recovered: seq<MapperResult>)   // results taken over from a checkpoint

  datatype State = State(
    jobQ: seq<int>,
    inFlight: seq<Call>,
    responseList: seq<MapperResult>,
    unlogged: seq<MapperResult>,    // at most one: pushed to responseList, not yet to g_repl_list
    replList: seq<MapperResult>,    // g_repl_list
    resultMap: map<int, MapperResult>,
    intBlobs: seq<string>,
    intContainer: string,
    nrpcs: int,
    phase: Phase,
    // history: the results in the order they were accepted, and two counters
    accepted: seq<MapperResult>,
    dispatched: nat,
    failed: nat)

  datatype Label =
    | Dispatch(address: string)
    | EndDispatch
    | Wake
    | Process
    | EndPass
    | Complete(k: nat, status: ReturnStatus)
    | Log

  const MAX_RPCS: int := 10

  predicate Enabled(c: Config, s: State, l: Label) {
    match l
    case Dispatch(_) => s.phase.Dispatching? && s.jobQ != [] && s.nrpcs <= MAX_RPCS
    case EndDispatch => s.phase.Dispatching? && (s.jobQ == [] || s.nrpcs > MAX_RPCS)
    case Wake => s.phase.Waiting? && s.responseList != []
    case Process => s.phase.Processing? && s.responseList != []
    case EndPass => s.phase.Processing? && s.responseList == []
    case Complete(k, _) => s.nrpcs > |s.responseList| && k < |s.inFlight| && s.unlogged == []
    case Log => s.unlogged != []
  }

  function Success(c: Config, call: Call): MapperResult {
    MapperResult(SUCCESS, call.shardId, c.container, c.reply(call))
  }

  function Apply(c: Config, s: State, l: Label): State
    requires Enabled(c, s, l)
  {
    match l
    case Dispatch(address) =>
      s.(inFlight := s.inFlight + [Call(s.jobQ[0], address)], nrpcs := s.nrpcs + 1, jobQ := s.jobQ[1..],
         dispatched := s.dispatched + 1)
    case EndDispatch => s.(phase := Waiting)
    case Wake => s.(phase := Processing)
    case Process => ProcessFirst(s)
    case EndPass => s.(phase := if |s.resultMap| == c.nmappers then Done else Dispatching)
    case Complete(k, status) =>
      var call := s.inFlight[k];
      var rest := s.(inFlight := s.inFlight[..k] + s.inFlight[k + 1..]);
      if status.SUCCESS? then
        rest.(responseList := s.responseList + [Success(c, call)], unlogged := [Success(c, call)])
      else
        rest.(responseList := s.responseList + [MapperResult(status, call.shardId, "", [])], failed := s.failed + 1)
    case Log => s.(replList := s.replList + s.unlogged, unlogged := [])
  }

  /** The body of the loop over responses; both branches erase the response and count the call down. */
  function ProcessFirst(s: State): State
    requires s.responseList != []
  {
    var res := s.responseList[0];
    var rest := s.(responseList := s.responseList[1..], nrpcs := s.nrpcs - 1);
    if !res.status.SUCCESS? then rest.(jobQ := s.jobQ + [res.shardId])
    else if res.shardId in s.resultMap then rest
    else rest.(resultMap := s.resultMap[res.shardId := res], intBlobs := s.intBlobs + res.blobList,
               intContainer := res.cname, accepted := s.accepted + [res])
  }

  ghost predicate Step(c: Config, s: State, s': State) {
    exists l :: Enabled(c, s, l) && s' == Apply(c, s, l)
  }

  // ----- the starting states: a new job, and a job taken over from a checkpoint -----

  function ResultIds(rs: seq<MapperResult>): (ids: seq<int>)
    ensures |ids| == |rs| && forall i :: 0 <= i < |rs| ==> ids[i] == rs[i].shardId
  {
    seq(|rs|, i requires 0 <= i < |rs| => rs[i].shardId)
  }

  function CallIds(cs: seq<Call>): (ids: seq<int>)
    ensures |ids| == |cs| && forall i :: 0 <= i < |cs| ==> ids[i] == cs[i].shardId
  {
    seq(|cs|, i requires 0 <= i < |cs| => cs[i].shardId)
  }

  function BlobsOf(rs: seq<MapperResult>): seq<string> {
    if rs == [] then [] else rs[0].blobList + BlobsOf(rs[1..])
  }

  lemma {:induction false} BlobsOfConcat(a: seq<MapperResult>, b: seq<MapperResult>)
    ensures BlobsOf(a + b) == BlobsOf(a) + BlobsOf(b)
  {
    if a == [] {
      assert a + b == b;
    } else {
      assert (a + b)[1..] == a[1..] + b;
      BlobsOfConcat(a[1..], b);
    }
  }

  lemma {:induction false} BlobsOfSnoc(a: seq<MapperResult>, r: MapperResult)
    ensures BlobsOf(a + [r]) == BlobsOf(a) + r.blobList
  {
    BlobsOfConcat(a, [r]);
    assert BlobsOf([r]) == r.blobList + BlobsOf([r][1..]);
  }

  /** The result map of distinct results, as emplace builds it. */
  function MapOf(rs: seq<MapperResult>): map<int, MapperResult> {
    if rs == [] then map[]
    else
      var m := MapOf(rs[..|rs| - 1]);
      var r := rs[|rs| - 1];
      if r.shardId in m then m else m[r.shardId := r]
  }

  /** The shards that have no result yet, in order. */
  function Missing(nshards: nat, m: map<int, MapperResult>): seq<int> {
    if nshards == 0 then []
    else Missing(nshards - 1, m) + if nshards - 1 in m then [] else [nshards - 1]
  }

  function Start(c: Config): State {
    State(Missing(c.nshards, MapOf(c.recovered)), [], [], [], [], MapOf(c.recovered), BlobsOf(c.recovered),
          if c.recovered == [] then "" else c.recovered[|c.recovered| - 1].cname, 0, Dispatching, c.recovered, 0, 0)
  }

  /** The answer of some worker to a call for the same shard. */
  ghost predicate Genuine(c: Config, r: MapperResult) {
    exists address: string :: r == Success(c, Call(r.shardId, address))
  }

  ghost predicate AllGenuine(c: Config, rs: seq<MapperResult>) {
    forall i :: 0 <= i < |rs| ==> Genuine(c, rs[i])
  }

  /** Recovered results are genuine, of this job's shards, and one a shard. */
  ghost predicate ValidConfig(c: Config) {
    && AllGenuine(c, c.recovered)
    && Distinct(ResultIds(c.recovered))
    && forall i :: 0 <= i < |c.recovered| ==> 0 <= c.recovered[i].shardId < c.nshards
  }

  ghost predicate IsRun(c: Config, run: seq<State>) {
    && run != [] && run[0] == Start(c)
    && forall i :: 0 <= i < |run| - 1 ==> Step(c, run[i], run[i + 1])
  }

  // ----- what every step keeps -----

  function Successes(rs: seq<MapperResult>): seq<MapperResult> {
    if rs == [] then []
    else (if rs[0].status.SUCCESS? then [rs[0]] else []) + Successes(rs[1..])
  }

  lemma {:induction false} SuccessesSnoc(rs: seq<MapperResult>, r: MapperResult)
    ensures Successes(rs + [r]) == Successes(rs) + if r.status.SUCCESS? then [r] else []
  {
    if rs != [] {
      assert (rs + [r])[1..] == rs[1..] + [r];
      SuccessesSnoc(rs[1..], r);
    }
  }

  /** Every shard is in exactly one place: queue, call in flight, unprocessed response or result map. */
  predicate Conserved(c: Config, s: State) {
    multiset(s.jobQ) + multiset(CallIds(s.inFlight)) + multiset(ResultIds(s.responseList))
        + multiset(ResultIds(s.accepted))
    == multiset(Range(c.nshards))
  }

  predicate Counted(c: Config, s: State) {
    && s.nrpcs == |s.inFlight| + |s.responseList|
    && s.nrpcs <= MAX_RPCS + 1
    && s.dispatched == |s.inFlight| + |Successes(s.responseList)| + (|s.accepted| - |c.recovered|) + s.failed
  }

  ghost predicate ResultsKept(c: Config, s: State) {
    && s.resultMap == MapOf(s.accepted)
    && s.intBlobs == BlobsOf(s.accepted)
    && AllGenuine(c, s.accepted) && AllGenuine(c, Successes(s.responseList))
    && c.recovered <= s.accepted
    && s.intContainer == (if s.accepted == [] then "" else c.container)
  }

  /** The log holds each new success exactly once, in the order of completion. */
  ghost predicate Logged(c: Config, s: State) {
    && |s.unlogged| <= 1 && |c.recovered| <= |s.accepted|
    && s.replList + s.unlogged == s.accepted[|c.recovered|..] + Successes(s.responseList)
  }

  predicate Positioned(c: Config, s: State) {
    && (s.phase.Waiting? ==> s.jobQ == [] || s.nrpcs > MAX_RPCS)
    && (s.phase.Dispatching? || s.phase.Waiting? ==> |s.accepted| == |c.recovered| || |s.accepted| != c.nmappers)
    && (s.phase.Done? ==> |s.accepted| == c.nmappers)
  }

  ghost predicate Inv(c: Config, s: State) {
    Conserved(c, s) && Counted(c, s) && ResultsKept(c, s) && Logged(c, s) && Positioned(c, s)
  }

  // ----- multisets of shard ids -----

  lemma {:induction false} ResultIdsConcat(a: seq<MapperResult>, b: seq<MapperResult>)
    ensures multiset(ResultIds(a + b)) == multiset(ResultIds(a)) + multiset(ResultIds(b))
  {
    assert ResultIds(a + b) == ResultIds(a) + ResultIds(b);
  }

  lemma {:induction false} ResultIdsFirst(a: seq<MapperResult>)
    requires a != []
    ensures multiset(ResultIds(a)) == multiset{a[0].shardId} + multiset(ResultIds(a[1..]))
  {
    assert ResultIds(a) == [a[0].shardId] + ResultIds(a[1..]);
  }

  lemma {:induction false} CallIdsSnoc(a: seq<Call>, call: Call)
    ensures multiset(CallIds(a + [call])) == multiset(CallIds(a)) + multiset{call.shardId}
  {
    assert CallIds(a + [call]) == CallIds(a) + [call.shardId];
  }

  lemma {:induction false} CallIdsRemove(a: seq<Call>, k: nat)
    requires k < |a|
    ensures multiset(CallIds(a)) == multiset(CallIds(a[..k] + a[k + 1..])) + multiset{a[k].shardId}
  {
    RemoveAt(CallIds(a), k);
    assert CallIds(a[..k] + a[k + 1..]) == CallIds(a)[..k] + CallIds(a)[k + 1..];
  }

  lemma {:induction false} DistinctIfOnce(s: seq<int>)
    requires forall x :: multiset(s)[x] <= 1
    ensures Distinct(s)
  {
    forall i, j | 0 <= i < j < |s| ensures s[i] != s[j] {
      assert s == s[..j] + [s[j]] + s[j + 1..];
      assert s[..j][i] == s[i] && multiset(s[..j])[s[i]] > 0;
      assert multiset(s)[s[j]] >= multiset(s[..j])[s[j]] + 1;
    }
  }

  // ----- the result map -----

  lemma {:induction false} MapOfKeys(rs: seq<MapperResult>, id: int)
    ensures id in MapOf(rs) <==> id in ResultIds(rs)
  {
    if rs != [] {
      MapOfKeys(rs[..|rs| - 1], id);
      assert ResultIds(rs) == ResultIds(rs[..|rs| - 1]) + [rs[|rs| - 1].shardId];
    }
  }

  lemma {:induction false} MapOfSize(rs: seq<MapperResult>)
    requires Distinct(ResultIds(rs))
    ensures |MapOf(rs)| == |rs|
  {
    if rs != [] {
      var front, r := rs[..|rs| - 1], rs[|rs| - 1];
      assert ResultIds(rs) == ResultIds(front) + [r.shardId];
      MapOfSize(front);
      MapOfKeys(front, r.shardId);
      assert MapOf(rs).Keys == MapOf(front).Keys + {r.shardId};
    }
  }

  /** Conservation keeps the shards of the accepted results distinct and apart from all others. */
  lemma {:induction false} AcceptedOnce(c: Config, s: State)
    requires Conserved(c, s)
    ensures Distinct(ResultIds(s.accepted)) && |s.accepted| <= c.nshards
    ensures forall i :: 0 <= i < |s.responseList| ==> s.responseList[i].shardId !in ResultIds(s.accepted)
    ensures |s.jobQ| + |s.inFlight| + |s.responseList| + |s.accepted| == c.nshards
    ensures forall i :: 0 <= i < |s.accepted| ==> 0 <= s.accepted[i].shardId < c.nshards
  {
    var all := multiset(Range(c.nshards));
    var a := ResultIds(s.accepted);
    forall x ensures multiset(a)[x] + multiset(ResultIds(s.responseList))[x] <= 1
             ensures multiset(a)[x] > 0 ==> 0 <= x < c.nshards
    {
      RangeOnce(c.nshards, x);
      assert all[x] == multiset(s.jobQ)[x] + multiset(CallIds(s.inFlight))[x]
          + multiset(ResultIds(s.responseList))[x] + multiset(a)[x];
    }
    DistinctIfOnce(a);
    forall i | 0 <= i < |s.responseList| ensures s.responseList[i].shardId !in a {
      assert ResultIds(s.responseList)[i] in multiset(ResultIds(s.responseList));
    }
    forall i | 0 <= i < |s.accepted| ensures 0 <= s.accepted[i].shardId < c.nshards {
      assert a[i] in multiset(a);
    }
    assert |all| == |Range(c.nshards)|;
    assert |all| == |multiset(s.jobQ)| + |multiset(CallIds(s.inFlight))| + |multiset(ResultIds(s.responseList))|
        + |multiset(a)|;
  }

  /** A response that is about to be processed has no result yet, so every success is accepted. */
  lemma {:induction false} NoDuplicate(c: Config, s: State)
    requires Inv(c, s) && s.responseList != []
    ensures s.responseList[0].shardId !in s.resultMap
  {
    AcceptedOnce(c, s);
    MapOfKeys(s.accepted, s.responseList[0].shardId);
  }

  lemma {:induction false} SuccessIds(rs: seq<MapperResult>)
    ensures multiset(ResultIds(Successes(rs))) <= multiset(ResultIds(rs))
  {
    if rs != [] {
      SuccessIds(rs[1..]);
      ResultIdsFirst(rs);
      FirstSuccess(rs);
      if rs[0].status.SUCCESS? {
        ResultIdsFirst(Successes(rs));
      }
    }
  }

  lemma {:induction false} LoggedIds(c: Config, s: State)
    requires Inv(c, s)
    ensures multiset(ResultIds(s.replList)) <= multiset(Range(c.nshards))
  {
    var k := |c.recovered|;
    var log := s.accepted[k..] + Successes(s.responseList);
    ResultIdsConcat(s.replList, s.unlogged);
    ResultIdsConcat(s.accepted[k..], Successes(s.responseList));
    ResultIdsConcat(s.accepted[..k], s.accepted[k..]);
    assert s.accepted == s.accepted[..k] + s.accepted[k..];
    SuccessIds(s.responseList);
    assert multiset(ResultIds(s.replList)) <= multiset(ResultIds(log));
    assert multiset(ResultIds(log)) <= multiset(ResultIds(s.responseList)) + multiset(ResultIds(s.accepted));
  }

  lemma {:induction false} LoggedGenuine(c: Config, s: State, i: nat)
    requires Inv(c, s) && i < |s.replList|
    ensures Genuine(c, s.replList[i])
    ensures s.replList[i] in s.accepted || s.replList[i] in Successes(s.responseList)
  {
    var rest, ok := s.accepted[|c.recovered|..], Successes(s.responseList);
    assert (s.replList + s.unlogged)[i] == s.replList[i] == (rest + ok)[i];
    if i < |rest| {
      assert rest[i] == s.accepted[|c.recovered| + i];
    } else {
      assert ok[i - |rest|] == s.replList[i];
    }
  }

  /** At any moment the log could be handed to a new leader: genuine results, at most one a shard. */
  lemma {:induction false} LogIsDuplicateFree(c: Config, s: State)
    requires Inv(c, s)
    ensures ValidConfig(c.(recovered := s.replList))
  {
    var ids := ResultIds(s.replList);
    var c' := c.(recovered := s.replList);
    LoggedIds(c, s);
    forall x ensures multiset(ids)[x] <= 1 && (multiset(ids)[x] > 0 ==> 0 <= x < c.nshards) {
      RangeOnce(c.nshards, x);
    }
    DistinctIfOnce(ids);
    forall i | 0 <= i < |s.replList| ensures Genuine(c', s.replList[i]) && 0 <= s.replList[i].shardId < c.nshards {
      LoggedGenuine(c, s, i);
      var r := s.replList[i];
      var address: string :| r == Success(c, Call(r.shardId, address));
      assert r == Success(c', Call(r.shardId, address));
      assert ids[i] in multiset(ids);
    }
  }

  // ----- the invariant holds at the start -----

  lemma {:induction false} MissingIsRest(n: nat, m: map<int, MapperResult>, x: int)
    ensures multiset(Missing(n, m))[x] == if 0 <= x < n && x !in m then 1 else 0
  {
    if n > 0 {
      MissingIsRest(n - 1, m, x);
    }
  }

  lemma {:induction false} StartConserved(c: Config)
    requires ValidConfig(c)
    ensures Conserved(c, Start(c))
  {
    var s := Start(c);
    var a := ResultIds(c.recovered);
    DistinctMultiset(a);
    forall x ensures multiset(s.jobQ)[x] + multiset(a)[x] == multiset(Range(c.nshards))[x] {
      RangeOnce(c.nshards, x);
      MissingIsRest(c.nshards, s.resultMap, x);
      MapOfKeys(c.recovered, x);
      assert x in a <==> x in Elements(a);
    }
    assert CallIds([]) == [] && ResultIds([]) == [];
  }

  lemma {:induction false} InvStart(c: Config)
    requires ValidConfig(c)
    ensures Inv(c, Start(c))
  {
    StartConserved(c);
    assert c.recovered[|c.recovered|..] == [];
  }

  // ----- the invariant is kept, label by label -----

  lemma {:induction false} InvDispatch(c: Config, s: State, l: Label)
    requires Inv(c, s) && l.Dispatch? && Enabled(c, s, l)
    ensures Inv(c, Apply(c, s, l))
  {
    CallIdsSnoc(s.inFlight, Call(s.jobQ[0], l.address));
    assert s.jobQ == [s.jobQ[0]] + s.jobQ[1..];
  }

  lemma {:induction false} AllGenuineSnoc(c: Config, rs: seq<MapperResult>, r: MapperResult)
    requires AllGenuine(c, rs) && Genuine(c, r)
    ensures AllGenuine(c, rs + [r])
  {
  }

  lemma {:induction false} CompleteConserves(c: Config, s: State, l: Label)
    requires Conserved(c, s) && l.Complete? && Enabled(c, s, l)
    ensures Conserved(c, Apply(c, s, l))
  {
    var call := s.inFlight[l.k];
    var r := Apply(c, s, l).responseList[|s.responseList|];
    CallIdsRemove(s.inFlight, l.k);
    ResultIdsConcat(s.responseList, [r]);
    assert ResultIds([r]) == [call.shardId];
  }

  lemma {:induction false} CompleteKeepsLog(c: Config, s: State, l: Label)
    requires Logged(c, s) && l.Complete? && Enabled(c, s, l)
    ensures Logged(c, Apply(c, s, l))
  {
    var s' := Apply(c, s, l);
    var r := s'.responseList[|s.responseList|];
    SuccessesSnoc(s.responseList, r);
    if l.status.SUCCESS? {
      assert s.unlogged == [] && s'.unlogged == [r];
      assert s'.replList + s'.unlogged == (s.replList + s.unlogged) + [r];
    }
  }

  lemma {:induction false} CompleteKeepsResults(c: Config, s: State, l: Label)
    requires ResultsKept(c, s) && l.Complete? && Enabled(c, s, l)
    ensures ResultsKept(c, Apply(c, s, l))
  {
    var call, s' := s.inFlight[l.k], Apply(c, s, l);
    var r := s'.responseList[|s.responseList|];
    SuccessesSnoc(s.responseList, r);
    if l.status.SUCCESS? {
      assert r == Success(c, Call(r.shardId, call.address));
      AllGenuineSnoc(c, Successes(s.responseList), r);
    }
  }

  lemma {:induction false} CompleteKeepsCounts(c: Config, s: State, l: Label)
    requires Counted(c, s) && Positioned(c, s) && l.Complete? && Enabled(c, s, l)
    ensures Counted(c, Apply(c, s, l)) && Positioned(c, Apply(c, s, l))
  {
    SuccessesSnoc(s.responseList, Apply(c, s, l).responseList[|s.responseList|]);
  }

  lemma {:induction false} InvComplete(c: Config, s: State, l: Label)
    requires Inv(c, s) && l.Complete? && Enabled(c, s, l)
    ensures Inv(c, Apply(c, s, l))
  {
    CompleteConserves(c, s, l);
    CompleteKeepsLog(c, s, l);
    CompleteKeepsResults(c, s, l);
    CompleteKeepsCounts(c, s, l);
  }

  lemma {:induction false} ProcessConserves(c: Config, s: State, l: Label)
    requires Inv(c, s) && l.Process? && Enabled(c, s, l)
    ensures Conserved(c, Apply(c, s, l))
  {
    var res := s.responseList[0];
    NoDuplicate(c, s);
    ResultIdsFirst(s.responseList);
    ResultIdsConcat(s.accepted, [res]);
    assert ResultIds([res]) == [res.shardId];
  }

  lemma {:induction false} ProcessKeepsResults(c: Config, s: State, l: Label)
    requires Inv(c, s) && l.Process? && Enabled(c, s, l)
    ensures ResultsKept(c, Apply(c, s, l))
  {
    var res := s.responseList[0];
    var ok := Successes(s.responseList);
    NoDuplicate(c, s);
    FirstSuccess(s.responseList);
    if res.status.SUCCESS? {
      AllGenuineRest(c, ok);
      BlobsOfSnoc(s.accepted, res);
      AllGenuineSnoc(c, s.accepted, res);
      MapOfSnoc(s.accepted, res);
    }
  }

  lemma {:induction false} MapOfSnoc(rs: seq<MapperResult>, r: MapperResult)
    requires r.shardId !in MapOf(rs)
    ensures MapOf(rs + [r]) == MapOf(rs)[r.shardId := r]
  {
    assert (rs + [r])[..|rs|] == rs;
  }

  lemma {:induction false} AllGenuineRest(c: Config, rs: seq<MapperResult>)
    requires rs != [] && AllGenuine(c, rs)
    ensures Genuine(c, rs[0]) && AllGenuine(c, rs[1..])
  {
  }

  lemma {:induction false} FirstSuccess(rs: seq<MapperResult>)
    requires rs != []
    ensures if rs[0].status.SUCCESS? then Successes(rs) != [] && Successes(rs)[0] == rs[0] &&
        Successes(rs)[1..] == Successes(rs[1..])
            else Successes(rs) == Successes(rs[1..])
  {
  }

  lemma {:induction false} ProcessKeepsLog(c: Config, s: State, l: Label)
    requires Inv(c, s) && l.Process? && Enabled(c, s, l)
    ensures Logged(c, Apply(c, s, l))
  {
    var res := s.responseList[0];
    NoDuplicate(c, s);
    FirstSuccess(s.responseList);
    if res.status.SUCCESS? {
      MoveAccepted(s.accepted, |c.recovered|, Successes(s.responseList));
    }
  }

  /** Accepting the first success only moves it over the border between accepted and waiting. */
  lemma {:induction false} MoveAccepted(accepted: seq<MapperResult>, k: nat, ok: seq<MapperResult>)
    requires k <= |accepted| && ok != []
    ensures accepted[k..] + ok == (accepted + [ok[0]])[k..] + ok[1..]
  {
    assert ok == [ok[0]] + ok[1..];
  }

  lemma {:induction false} InvProcess(c: Config, s: State, l: Label)
    requires Inv(c, s) && l.Process? && Enabled(c, s, l)
    ensures Inv(c, Apply(c, s, l))
  {
    NoDuplicate(c, s);
    ProcessConserves(c, s, l);
    ProcessKeepsResults(c, s, l);
    ProcessKeepsLog(c, s, l);
    FirstSuccess(s.responseList);
  }

  lemma {:induction false} InvEndPass(c: Config, s: State, l: Label)
    requires Inv(c, s) && l.EndPass? && Enabled(c, s, l)
    ensures Inv(c, Apply(c, s, l))
  {
    AcceptedOnce(c, s);
    MapOfSize(s.accepted);
  }

  lemma {:induction false} InvLog(c: Config, s: State, l: Label)
    requires Inv(c, s) && l.Log? && Enabled(c, s, l)
    ensures Inv(c, Apply(c, s, l))
  {
    assert Apply(c, s, l).replList + [] == s.replList + s.unlogged;
  }

  lemma {:induction false} InvStep(c: Config, s: State, l: Label)
    requires Inv(c, s) && Enabled(c, s, l)
    ensures Inv(c, Apply(c, s, l))
  {
    match l
    case Dispatch(_) => InvDispatch(c, s, l);
    case EndDispatch =>
    case Wake =>
    case Process => InvProcess(c, s, l);
    case EndPass => InvEndPass(c, s, l);
    case Complete(_, _) => InvComplete(c, s, l);
    case Log => InvLog(c, s, l);
  }

  lemma {:induction false} InvRun(c: Config, run: seq<State>, i: nat)
    requires ValidConfig(c) && IsRun(c, run) && i < |run|
    ensures Inv(c, run[i])
  {
    if i == 0 {
      InvStart(c);
    } else {
      InvRun(c, run, i - 1);
      assert Step(c, run[i - 1], run[i - 1 + 1]);
      var l :| Enabled(c, run[i - 1], l) && run[i] == Apply(c, run[i - 1], l);
      InvStep(c, run[i - 1], l);
    }
  }

  // ----- the main results about every run -----

  /** In how many places a shard id is: waiting, in flight, answered, or done. */
  function Places(s: State, id: int): nat {
    multiset(s.jobQ)[id] + multiset(CallIds(s.inFlight))[id] + multiset(ResultIds(s.responseList))[id]
    + if id in s.resultMap then 1 else 0
  }

  /**
   Every shard of the job is always in exactly one place, and the call counter never exceeds 11;
   the main thread waits only when nothing is queued or 11 calls are out.
   */
  lemma {:induction false} TasksAreConserved(c: Config, run: seq<State>, i: nat, id: int)
    requires ValidConfig(c) && IsRun(c, run) && i < |run|
    ensures Places(run[i], id) == if 0 <= id < c.nshards then 1 else 0
    ensures run[i].nrpcs == |run[i].inFlight| + |run[i].responseList| <= 11
    ensures run[i].phase.Waiting? ==> run[i].jobQ == [] || run[i].nrpcs == 11
  {
    InvRun(c, run, i);
    OnePlace(c, run[i], id);
  }

  lemma {:induction false} OnePlace(c: Config, s: State, id: int)
    requires Conserved(c, s) && s.resultMap == MapOf(s.accepted)
    ensures Places(s, id) == if 0 <= id < c.nshards then 1 else 0
  {
    RangeOnce(c.nshards, id);
    AcceptedOnce(c, s);
    MapOfKeys(s.accepted, id);
    DistinctMultiset(ResultIds(s.accepted));
    assert id in ResultIds(s.accepted) <==> id in Elements(ResultIds(s.accepted));
  }

  predicate SomethingToDo(c: Config) {
    c.nmappers == c.nshards && |c.recovered| < c.nshards
  }

  /** Whenever the main thread spins on an empty response list, a call is in flight and can complete. */
  lemma {:induction false} NeverWaitsOnNothing(c: Config, run: seq<State>, i: nat)
    requires ValidConfig(c) && SomethingToDo(c) && IsRun(c, run) && i < |run|
    requires run[i].phase.Waiting? && run[i].responseList == []
    ensures run[i].inFlight != [] && run[i].nrpcs > |run[i].responseList|
  {
    InvRun(c, run, i);
    AcceptedOnce(c, run[i]);
  }

  /** On exit every shard has its one result, nothing is left over, and failures cost one dispatch each. */
  lemma {:induction false} ExitIsComplete(c: Config, run: seq<State>, i: nat)
    requires ValidConfig(c) && SomethingToDo(c) && IsRun(c, run) && i < |run| && run[i].phase.Done?
    ensures forall id :: id in run[i].resultMap <==> 0 <= id < c.nshards
    ensures forall id :: id in run[i].resultMap ==>
        run[i].resultMap[id].shardId == id && Genuine(c, run[i].resultMap[id])
    ensures run[i].jobQ == [] && run[i].inFlight == [] && run[i].responseList == []
    ensures run[i].dispatched == |Start(c).jobQ| + run[i].failed
    ensures run[i].intContainer == c.container
  {
    InvRun(c, run, i);
    InvRun(c, run, 0);
    var s := run[i];
    AcceptedOnce(c, s);
    AcceptedOnce(c, Start(c));
    forall id ensures id in s.resultMap <==> 0 <= id < c.nshards {
      TasksAreConserved(c, run, i, id);
      assert multiset(s.jobQ)[id] == 0 && CallIds(s.inFlight) == [] && ResultIds(s.responseList) == [];
    }
    forall id | id in s.resultMap ensures s.resultMap[id].shardId == id && Genuine(c, s.resultMap[id]) {
      MapOfEntries(s.accepted, id);
    }
  }

  lemma {:induction false} MapOfEntries(rs: seq<MapperResult>, id: int)
    requires id in MapOf(rs)
    ensures MapOf(rs)[id].shardId == id && exists i :: 0 <= i < |rs| && rs[i] == MapOf(rs)[id]
  {
    var front, r := rs[..|rs| - 1], rs[|rs| - 1];
    if id in MapOf(front) {
      MapOfEntries(front, id);
      var i :| 0 <= i < |front| && front[i] == MapOf(front)[id];
      assert rs[i] == MapOf(rs)[id];
    } else {
      assert rs[|rs| - 1] == MapOf(rs)[id];
    }
  }

  lemma {:induction false} LogAppends(c: Config, s: State, l: Label)
    requires Enabled(c, s, l)
    ensures s.replList <= Apply(c, s, l).replList
  {
  }

  /** Whatever a follower was sent stays a prefix of the leader's log. */
  lemma {:induction false} LogOnlyGrows(c: Config, run: seq<State>, i: nat, j: nat)
    requires IsRun(c, run) && i <= j < |run|
    ensures run[i].replList <= run[j].replList
    decreases j
  {
    if i < j {
      LogOnlyGrows(c, run, i, j - 1);
      assert Step(c, run[j - 1], run[j - 1 + 1]);
      var l :| Enabled(c, run[j - 1], l) && run[j] == Apply(c, run[j - 1], l);
      LogAppends(c, run[j - 1], l);
    }
  }

  predicate AllMapped(c: Config, s: State) {
    forall id :: 0 <= id < c.nshards ==> id in s.resultMap
  }

  /** With fewer shards than mappers the loop never ends; with more, it ends with shards missing or never. */
  lemma {:induction false} WrongCount(c: Config, run: seq<State>, i: nat)
    requires ValidConfig(c) && c.nmappers != c.nshards && IsRun(c, run) && i < |run| && run[i].phase.Done?
    ensures c.nshards > c.nmappers
    ensures !AllMapped(c, run[i])
  {
    InvRun(c, run, i);
    var s := run[i];
    AcceptedOnce(c, s);
    var open := s.jobQ + CallIds(s.inFlight) + ResultIds(s.responseList);
    TasksAreConserved(c, run, i, open[0]);
    assert open[0] in multiset(s.jobQ) + multiset(CallIds(s.inFlight)) + multiset(ResultIds(s.responseList)) by {
      assert multiset(open) == multiset(s.jobQ) + multiset(CallIds(s.inFlight)) + multiset(ResultIds(s.responseList));
      assert open[0] in multiset(open);
    }
  }

  lemma {:induction false} AcceptedGrows(c: Config, run: seq<State>, i: nat, j: nat)
    requires IsRun(c, run) && i <= j < |run|
    ensures |run[i].accepted| <= |run[j].accepted|
    decreases j
  {
    if i < j {
      AcceptedGrows(c, run, i, j - 1);
      assert Step(c, run[j - 1], run[j - 1 + 1]);
    }
  }

  /** A pass that takes the results beyond the number of mappers has missed the exit for good. */
  lemma {:induction false} OvershootNeverEnds(c: Config, run: seq<State>, i: nat, j: nat)
    requires ValidConfig(c) && IsRun(c, run) && i <= j < |run| && |run[i].resultMap| > c.nmappers
    ensures !run[j].phase.Done?
  {
    InvRun(c, run, i);
    InvRun(c, run, j);
    AcceptedOnce(c, run[i]);
    MapOfSize(run[i].accepted);
    AcceptedGrows(c, run, i, j);
  }

  lemma {:induction false} StepOfRun(c: Config, run: seq<State>, i: nat)
    requires IsRun(c, run) && 0 < i < |run|
    ensures Step(c, run[i - 1], run[i])
  {
    assert Step(c, run[i - 1], run[i - 1 + 1]);
  }

  lemma {:induction false} IdleStep(c: Config, s: State, s': State)
    requires s.jobQ == [] && s.inFlight == [] && s.responseList == [] && (s.phase.Dispatching? || s.phase.Waiting?)
    requires Step(c, s, s')
    ensures s'.jobQ == [] && s'.inFlight == [] && s'.responseList == [] && (s'.phase.Dispatching? || s'.phase.Waiting?)
  {
  }

  /** When the checkpoint already holds every result, the queue is empty and the loop spins for ever. */
  lemma {:induction false} NothingMissingNeverEnds(c: Config, run: seq<State>, i: nat)
    requires ValidConfig(c) && |c.recovered| == c.nshards && IsRun(c, run) && i < |run|
    ensures run[i].jobQ == [] && run[i].inFlight == [] && run[i].responseList == []
    ensures run[i].phase.Dispatching? || run[i].phase.Waiting?
  {
    if i == 0 {
      InvStart(c);
      AcceptedOnce(c, Start(c));
    } else {
      NothingMissingNeverEnds(c, run, i - 1);
      StepOfRun(c, run, i);
      IdleStep(c, run[i - 1], run[i]);
    }
  }

  // ----- termination -----

  function ResponseWeight(rs: seq<MapperResult>): nat {
    if rs == [] then 0 else (if rs[0].status.SUCCESS? then 2 else 6) + ResponseWeight(rs[1..])
  }

  lemma {:induction false} ResponseWeightSnoc(rs: seq<MapperResult>, r: MapperResult)
    ensures ResponseWeight(rs + [r]) == ResponseWeight(rs) + if r.status.SUCCESS? then 2 else 6
  {
    if rs != [] {
      assert (rs + [r])[1..] == rs[1..] + [r];
      ResponseWeightSnoc(rs[1..], r);
    }
  }

  function PhaseWeight(s: State): nat {
    match s.phase
    case Processing => if s.responseList == [] then 3 else 0
    case Dispatching => 2
    case Waiting => 1
    case Done => 0
  }

  /** How many steps can still follow if at most `budget` calls fail in the whole run. */
  function Rank(s: State, budget: int): int {
    4 * (5 * |s.jobQ| + 4 * |s.inFlight| + ResponseWeight(s.responseList) + |s.unlogged| + 3 * (budget - s.failed))
    + PhaseWeight(s)
  }

  /** Every step of either thread, whatever the schedule, uses some of it up. */
  lemma {:induction false} RankDecreases(c: Config, s: State, l: Label, budget: int)
    requires Enabled(c, s, l) && |s.unlogged| <= 1
    ensures Rank(Apply(c, s, l), budget) < Rank(s, budget)
    ensures Apply(c, s, l).failed >= s.failed
  {
    if l.Complete? {
      ResponseWeightSnoc(s.responseList, Apply(c, s, l).responseList[|s.responseList|]);
    }
  }

  lemma {:induction false} StepRank(c: Config, s: State, s': State, budget: int)
    requires Inv(c, s) && Step(c, s, s')
    ensures Rank(s', budget) < Rank(s, budget)
  {
    var l :| Enabled(c, s, l) && s' == Apply(c, s, l);
    RankDecreases(c, s, l, budget);
  }

  lemma {:induction false} RunStepRank(c: Config, run: seq<State>, i: nat, budget: int)
    requires ValidConfig(c) && IsRun(c, run) && 0 < i < |run|
    ensures Rank(run[i], budget) < Rank(run[i - 1], budget)
  {
    InvRun(c, run, i - 1);
    StepOfRun(c, run, i);
    StepRank(c, run[i - 1], run[i], budget);
  }

  lemma {:induction false} RunRank(c: Config, run: seq<State>, i: nat, budget: int)
    requires ValidConfig(c) && IsRun(c, run) && i < |run|
    ensures Rank(run[i], budget) <= Rank(Start(c), budget) - i
  {
    if i > 0 {
      RunRank(c, run, i - 1, budget);
      RunStepRank(c, run, i, budget);
    }
  }

  /** No run is longer than a bound that depends on the queue and the number of failed calls only. */
  lemma {:induction false} RunsAreFinite(c: Config, run: seq<State>)
    requires ValidConfig(c) && IsRun(c, run)
    ensures |run| <= 20 * |Start(c).jobQ| + 12 * run[|run| - 1].failed + 3
  {
    RunRank(c, run, |run| - 1, run[|run| - 1].failed);
  }

  /** A step that brings the job forward; only a successful completion is ever assumed of the workers. */
  function NextLabel(s: State, address: string): Label {
    if s.unlogged != [] then Log
    else match s.phase
      case Processing => if s.responseList != [] then Process else EndPass
      case Dispatching => if s.jobQ != [] && s.nrpcs <= MAX_RPCS then Dispatch(address) else EndDispatch
      case Waiting => if s.responseList != [] then Wake else Complete(0, SUCCESS)
      case Done => EndPass
  }

  /** While something is missing, the main thread or a worker's answer can always go on. */
  lemma {:induction false} NextLabelEnabled(c: Config, s: State, address: string)
    requires SomethingToDo(c) && Inv(c, s) && !s.phase.Done?
    ensures Enabled(c, s, NextLabel(s, address))
    ensures Apply(c, s, NextLabel(s, address)).failed == s.failed
  {
    AcceptedOnce(c, s);
  }

  function Last(run: seq<State>): State
    requires run != []
  {
    run[|run| - 1]
  }

  lemma {:induction false} ExtendRun(c: Config, run: seq<State>, l: Label)
    requires IsRun(c, run) && Enabled(c, Last(run), l)
    ensures IsRun(c, run + [Apply(c, Last(run), l)])
  {
    var next := run + [Apply(c, Last(run), l)];
    forall i | 0 <= i < |next| - 1 ensures Step(c, next[i], next[i + 1]) {
      if i < |run| - 1 {
        assert next[i] == run[i] && next[i + 1] == run[i + 1];
      }
    }
  }

  /** No reachable state is a dead end: every run can be continued until the loop exits. */
  lemma {:induction false} EveryRunCanFinish(c: Config, run: seq<State>, address: string) returns (longer: seq<State>)
    requires ValidConfig(c) && SomethingToDo(c) && IsRun(c, run)
    ensures IsRun(c, longer) && run <= longer && Last(longer).phase.Done?
    ensures Last(longer).failed == Last(run).failed
    decreases Rank(Last(run), Last(run).failed)
  {
    var s := Last(run);
    if s.phase.Done? {
      longer := run;
    } else {
      var l := NextLabel(s, address);
      InvRun(c, run, |run| - 1);
      NextLabelEnabled(c, s, address);
      RankDecreases(c, s, l, s.failed);
      ExtendRun(c, run, l);
      longer := EveryRunCanFinish(c, run + [Apply(c, s, l)], address);
    }
  }

  ghost predicate CanComplete(c: Config) {
    exists run: seq<State> :: IsRun(c, run) && Last(run).phase.Done? && AllMapped(c, Last(run))
  }

  /** Exactly when map dispatch can exit with every shard mapped. */
  lemma {:induction false} CanCompleteExactly(c: Config)
    requires ValidConfig(c)
    ensures CanComplete(c) <==> SomethingToDo(c)
  {
    if SomethingToDo(c) {
      var run := EveryRunCanFinish(c, [Start(c)], "");
      ExitIsComplete(c, run, |run| - 1);
    }
    if CanComplete(c) {
      var run: seq<State> :| IsRun(c, run) && Last(run).phase.Done? && AllMapped(c, Last(run));
      if c.nmappers != c.nshards {
        WrongCount(c, run, |run| - 1);
      } else {
        InvStart(c);
        AcceptedOnce(c, Start(c));
        if |c.recovered| == c.nshards {
          NothingMissingNeverEnds(c, run, |run| - 1);
        }
      }
    }
  }
}
