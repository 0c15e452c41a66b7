/**
 Master::dispatchReduceTasks and AsyncCompleteReduceRpc of w7/src/master/masterimpl.cc as a
 state machine. Unlike map dispatch, the main thread waits for every call of a round, and
 successful responses stay in the list until the loop is left.
 */
module ReduceDispatch {
  import opened Arithmetic
  import opened Sequences
  import opened Status
  import opened Intermediate

  /** class ReduceResult */
  datatype ReduceResult = ReduceResult(status: ReturnStatus, cname: string, blobname: string, jobid: int)

  /** The constructor of class ReduceResult: the second argument is the blob name, the third the container. */
  function MakeReduceResult(s: ReturnStatus, b: string, c: string, j: int): ReduceResult {
    ReduceResult(s, c, b, j)
  }

  /** message FinalResult */
  datatype FinalResult = FinalResult(blobname: string, containername: string)

  /** What ReduceCallData::do_work answers: it sets the container only. */
  function WorkerReply(outContainer: string): FinalResult {
    FinalResult("", outContainer)
  }

  datatype ReduceCall = ReduceCall(jobid: int, blobs: seq<string>, address: string)

  datatype ReducePhase = Dispatching | Waiting | Scanning | Done

  datatype ReduceConfig = ReduceConfig(nreducers: nat, nclients: nat, intBlobs: seq<string>, outContainer: string)

  datatype ReduceState = ReduceState(
    jobQ: seq<int>,
    inFlight: seq<ReduceCall>,
    responseList: seq<ReduceResult>,
    nrpcs: int,
    itr: nat,
    phase: ReducePhase,
    outputMap: map<int, string>,
    dispatched: nat,
    failed: nat)

  datatype ReduceLabel =
    | Dispatch(address: string)
    | EndDispatch
    | Scan
    | Inspect
    | EndScan
    | Complete(k: nat, status: ReturnStatus)

  predicate Enabled(c: ReduceConfig, s: ReduceState, l: ReduceLabel) {
    match l
    case Dispatch(_) => s.phase.Dispatching? && s.jobQ != [] && s.nrpcs - |s.responseList| <= c.nclients
    case EndDispatch => s.phase.Dispatching? && (s.jobQ == [] || s.nrpcs - |s.responseList| > c.nclients)
    case Scan => s.phase.Waiting? && |s.responseList| == s.nrpcs
    case Inspect => s.phase.Scanning? && s.itr < |s.responseList|
    case EndScan => s.phase.Scanning? && s.itr == |s.responseList|
    case Complete(k, _) => s.nrpcs > |s.responseList| && k < |s.inFlight|
  }

  function Response(c: ReduceConfig, jobid: int, status: ReturnStatus): ReduceResult {
    if status.SUCCESS? then
      var reply := WorkerReply(c.outContainer);
      MakeReduceResult(SUCCESS, reply.containername, reply.blobname, jobid)
    else MakeReduceResult(status, "", "", jobid)
  }

  /** The loop that fills m_OutputResultMap after the main loop; emplace keeps the first value of a key. */
  function Collect(rs: seq<ReduceResult>): map<int, string> {
    if rs == [] then map[]
    else
      var m := Collect(rs[..|rs| - 1]);
      var r := rs[|rs| - 1];
      if r.status.SUCCESS? && r.jobid !in m then m[r.jobid := r.cname] else m
  }

  function Apply(c: ReduceConfig, s: ReduceState, l: ReduceLabel): ReduceState
    requires Enabled(c, s, l)
  {
    match l
    case Dispatch(address) =>
      s.(inFlight := s.inFlight + [ReduceCall(s.jobQ[0], ForReducer(c.intBlobs, s.jobQ[0]), address)],
         nrpcs := s.nrpcs + 1, jobQ := s.jobQ[1..],
         dispatched := s.dispatched + 1)
    case EndDispatch => s.(phase := Waiting)
    case Scan => s.(phase := Scanning, itr := 0)
    case Inspect =>
      var res := s.responseList[s.itr];
      if !res.status.SUCCESS? then
        s.(jobQ := s.jobQ + [res.jobid], responseList := s.responseList[..s.itr] + s.responseList[s.itr + 1..],
           nrpcs := s.nrpcs - 1)
      else s.(itr := s.itr + 1)
    case EndScan =>
      if s.jobQ == [] then s.(phase := Done, outputMap := Collect(s.responseList)) else s.(phase := Dispatching)
    case Complete(k, status) =>
      s.(inFlight := s.inFlight[..k] + s.inFlight[k + 1..],
         responseList := s.responseList + [Response(c, s.inFlight[k].jobid, status)],
         failed := s.failed + if status.SUCCESS? then 0 else 1)
  }

  ghost predicate Step(c: ReduceConfig, s: ReduceState, s': ReduceState) {
    exists l :: Enabled(c, s, l) && s' == Apply(c, s, l)
  }

  /** runReducer: one task for every reducer. */
  function Start(c: ReduceConfig): ReduceState {
    ReduceState(Range(c.nreducers), [], [], 0, 0, Dispatching, map[], 0, 0)
  }

  ghost predicate IsRun(c: ReduceConfig, run: seq<ReduceState>) {
    && run != [] && run[0] == Start(c)
    && forall i :: 0 <= i < |run| - 1 ==> Step(c, run[i], run[i + 1])
  }

  // ----- what every step keeps -----

  function CallJobs(cs: seq<ReduceCall>): (ids: seq<int>)
    ensures |ids| == |cs| && forall i :: 0 <= i < |cs| ==> ids[i] == cs[i].jobid
  {
    seq(|cs|, i requires 0 <= i < |cs| => cs[i].jobid)
  }

  function ResponseJobs(rs: seq<ReduceResult>): (ids: seq<int>)
    ensures |ids| == |rs| && forall i :: 0 <= i < |rs| ==> ids[i] == rs[i].jobid
  {
    seq(|rs|, i requires 0 <= i < |rs| => rs[i].jobid)
  }

  function SuccessCount(rs: seq<ReduceResult>): nat {
    if rs == [] then 0 else (if rs[0].status.SUCCESS? then 1 else 0) + SuccessCount(rs[1..])
  }

  lemma {:induction false} SuccessCountConcat(a: seq<ReduceResult>, b: seq<ReduceResult>)
    ensures SuccessCount(a + b) == SuccessCount(a) + SuccessCount(b)
  {
    if a == [] {
      assert a + b == b;
    } else {
      assert (a + b)[1..] == a[1..] + b;
      SuccessCountConcat(a[1..], b);
    }
  }

  lemma {:induction false} SuccessCountAt(rs: seq<ReduceResult>, k: nat)
    requires k < |rs|
    ensures SuccessCount(rs) == SuccessCount(rs[..k] + rs[k + 1..]) + if rs[k].status.SUCCESS? then 1 else 0
  {
    assert rs == rs[..k] + rs[k..];
    SuccessCountConcat(rs[..k], rs[k..]);
    assert rs[k..][1..] == rs[k + 1..];
    SuccessCountConcat(rs[..k], rs[k + 1..]);
  }

  /** Every reduce task is in exactly one of queue, calls in flight and response list. */
  predicate Conserved(c: ReduceConfig, s: ReduceState) {
    multiset(s.jobQ) + multiset(CallJobs(s.inFlight)) + multiset(ResponseJobs(s.responseList))
        == multiset(Range(c.nreducers))
  }

  predicate Answered(c: ReduceConfig, r: ReduceResult) {
    r == Response(c, r.jobid, r.status)
  }

  predicate AllAnswered(c: ReduceConfig, rs: seq<ReduceResult>) {
    forall i :: 0 <= i < |rs| ==> Answered(c, rs[i])
  }

  predicate Counted(c: ReduceConfig, s: ReduceState) {
    && s.nrpcs == |s.inFlight| + |s.responseList|
    && |s.inFlight| <= c.nclients + 1
    && s.dispatched == |s.inFlight| + SuccessCount(s.responseList) + s.failed
  }

  predicate ScannedSuccesses(s: ReduceState) {
    s.itr <= |s.responseList| && forall i :: 0 <= i < s.itr ==> s.responseList[i].status.SUCCESS?
  }

  predicate AllSuccesses(s: ReduceState) {
    forall i :: 0 <= i < |s.responseList| ==> s.responseList[i].status.SUCCESS?
  }

  predicate Positioned(s: ReduceState) {
    && (s.phase.Scanning? ==> s.inFlight == [] && ScannedSuccesses(s))
    && (!s.phase.Done? ==> s.outputMap == map[])
    && (s.phase.Done? ==> s.inFlight == [] && s.jobQ == [] && AllSuccesses(s) && s.outputMap == Collect(s.responseList))
  }

  predicate Inv(c: ReduceConfig, s: ReduceState) {
    Conserved(c, s) && Counted(c, s) && AllAnswered(c, s.responseList) && Positioned(s)
  }

  lemma {:induction false} InvStart(c: ReduceConfig)
    ensures Inv(c, Start(c))
  {
    assert CallJobs([]) == [] && ResponseJobs([]) == [];
  }

  lemma {:induction false} DispatchConserves(c: ReduceConfig, s: ReduceState, l: ReduceLabel)
    requires Conserved(c, s) && Enabled(c, s, l) && l.Dispatch?
    ensures Conserved(c, Apply(c, s, l))
  {
    var s' := Apply(c, s, l);
    assert CallJobs(s'.inFlight) == CallJobs(s.inFlight) + [s.jobQ[0]];
    assert s.jobQ == [s.jobQ[0]] + s.jobQ[1..];
  }

  lemma {:induction false} InspectConserves(c: ReduceConfig, s: ReduceState, l: ReduceLabel)
    requires Conserved(c, s) && Enabled(c, s, l) && l.Inspect?
    ensures Conserved(c, Apply(c, s, l))
  {
    var rs := s.responseList;
    RemoveAt(ResponseJobs(rs), s.itr);
    assert ResponseJobs(rs[..s.itr] + rs[s.itr + 1..]) == ResponseJobs(rs)[..s.itr] + ResponseJobs(rs)[s.itr + 1..];
  }

  lemma {:induction false} CompleteConserves(c: ReduceConfig, s: ReduceState, l: ReduceLabel)
    requires Conserved(c, s) && Enabled(c, s, l) && l.Complete?
    ensures Conserved(c, Apply(c, s, l))
  {
    var cs := s.inFlight;
    var s' := Apply(c, s, l);
    RemoveAt(CallJobs(cs), l.k);
    assert CallJobs(cs[..l.k] + cs[l.k + 1..]) == CallJobs(cs)[..l.k] + CallJobs(cs)[l.k + 1..];
    assert ResponseJobs(s'.responseList) == ResponseJobs(s.responseList) + [cs[l.k].jobid];
  }

  lemma {:induction false} InvInspect(c: ReduceConfig, s: ReduceState, l: ReduceLabel)
    requires Inv(c, s) && Enabled(c, s, l) && l.Inspect?
    ensures Inv(c, Apply(c, s, l))
  {
    InspectConserves(c, s, l);
    SuccessCountAt(s.responseList, s.itr);
  }

  lemma {:induction false} InvComplete(c: ReduceConfig, s: ReduceState, l: ReduceLabel)
    requires Inv(c, s) && Enabled(c, s, l) && l.Complete?
    ensures Inv(c, Apply(c, s, l))
  {
    var r := Response(c, s.inFlight[l.k].jobid, l.status);
    CompleteConserves(c, s, l);
    SuccessCountConcat(s.responseList, [r]);
    assert SuccessCount([r]) == (if r.status.SUCCESS? then 1 else 0) + SuccessCount([r][1..]);
  }

  lemma {:induction false} InvStep(c: ReduceConfig, s: ReduceState, l: ReduceLabel)
    requires Inv(c, s) && Enabled(c, s, l)
    ensures Inv(c, Apply(c, s, l))
  {
    match l
    case Dispatch(_) => DispatchConserves(c, s, l);
    case EndDispatch =>
    case Scan =>
    case Inspect => InvInspect(c, s, l);
    case EndScan =>
    case Complete(_, _) => InvComplete(c, s, l);
  }

  lemma {:induction false} InvRun(c: ReduceConfig, run: seq<ReduceState>, i: nat)
    requires IsRun(c, run) && i < |run|
    ensures Inv(c, run[i])
  {
    if i == 0 {
      InvStart(c);
    } else {
      InvRun(c, run, i - 1);
      assert Step(c, run[i - 1], run[i - 1 + 1]);
      var l :| Enabled(c, run[i - 1], l) && run[i] == Apply(c, run[i - 1], l);
      InvStep(c, run[i - 1], l);
    }
  }

  lemma {:induction false} ExtendRun(c: ReduceConfig, run: seq<ReduceState>, l: ReduceLabel)
    requires IsRun(c, run) && Enabled(c, Last(run), l)
    ensures IsRun(c, run + [Apply(c, Last(run), l)])
  {
    var next := run + [Apply(c, Last(run), l)];
    forall i | 0 <= i < |next| - 1 ensures Step(c, next[i], next[i + 1]) {
      if i < |run| - 1 {
        assert next[i] == run[i] && next[i + 1] == run[i + 1];
      }
    }
  }

  // ----- the main results about every run -----

  function Last(run: seq<ReduceState>): ReduceState
    requires run != []
  {
    run[|run| - 1]
  }

  function Places(s: ReduceState, id: int): nat {
    multiset(s.jobQ)[id] + multiset(CallJobs(s.inFlight))[id] + multiset(ResponseJobs(s.responseList))[id]
  }

  /** Every reduce task is in one place, the counter never falls below the responses, calls are bounded. */
  lemma {:induction false} TasksAreConserved(c: ReduceConfig, run: seq<ReduceState>, i: nat, id: int)
    requires IsRun(c, run) && i < |run|
    ensures Places(run[i], id) == if 0 <= id < c.nreducers then 1 else 0
    ensures run[i].nrpcs - |run[i].responseList| == |run[i].inFlight| <= c.nclients + 1
  {
    InvRun(c, run, i);
    RangeOnce(c.nreducers, id);
    var s := run[i];
    assert multiset(Range(c.nreducers))[id] == Places(s, id);
  }

  lemma {:induction false} ConservedSize(c: ReduceConfig, s: ReduceState)
    requires Conserved(c, s)
    ensures |s.jobQ| + |s.inFlight| + |s.responseList| == c.nreducers
  {
    assert |multiset(Range(c.nreducers))|
        == |multiset(s.jobQ)| + |multiset(CallJobs(s.inFlight))| + |multiset(ResponseJobs(s.responseList))|;
  }

  lemma {:induction false} CollectKeys(rs: seq<ReduceResult>, id: int)
    requires forall i :: 0 <= i < |rs| ==> rs[i].status.SUCCESS?
    ensures id in Collect(rs) <==> id in ResponseJobs(rs)
    ensures id in Collect(rs) ==> exists i :: 0 <= i < |rs| && rs[i].jobid == id && Collect(rs)[id] == rs[i].cname
  {
    if rs != [] {
      var n := |rs| - 1;
      CollectKeys(rs[..n], id);
      assert ResponseJobs(rs) == ResponseJobs(rs[..n]) + [rs[n].jobid];
      if id in Collect(rs[..n]) {
        var i :| 0 <= i < n && rs[..n][i].jobid == id && Collect(rs[..n])[id] == rs[..n][i].cname;
        assert rs[i].jobid == id && Collect(rs)[id] == rs[i].cname;
      } else if rs[n].jobid == id {
        assert rs[n].jobid == id && Collect(rs)[id] == rs[n].cname;
      }
    }
  }

  lemma {:induction false} AllSuccessCount(rs: seq<ReduceResult>)
    requires forall i :: 0 <= i < |rs| ==> rs[i].status.SUCCESS?
    ensures SuccessCount(rs) == |rs|
  {
    if rs != [] {
      AllSuccessCount(rs[1..]);
    }
  }

  /**
   On exit every reducer has one success, and a failure cost one more call. The recorded
   values are the blob names of the replies, which workers leave empty, not the container.
   */
  lemma {:induction false} ExitIsComplete(c: ReduceConfig, run: seq<ReduceState>, i: nat)
    requires IsRun(c, run) && i < |run| && run[i].phase.Done?
    ensures forall id :: id in run[i].outputMap <==> 0 <= id < c.nreducers
    ensures forall id :: id in run[i].outputMap ==> run[i].outputMap[id] == ""
    ensures run[i].inFlight == [] && |run[i].responseList| == c.nreducers
    ensures forall k :: 0 <= k < c.nreducers ==>
        run[i].responseList[k] == ReduceResult(SUCCESS, "", c.outContainer, run[i].responseList[k].jobid)
    ensures run[i].dispatched == c.nreducers + run[i].failed
  {
    InvRun(c, run, i);
    var s := run[i];
    ConservedSize(c, s);
    AllSuccessCount(s.responseList);
    forall id ensures id in s.outputMap <==> 0 <= id < c.nreducers
              ensures id in s.outputMap ==> s.outputMap[id] == ""
    {
      CollectKeys(s.responseList, id);
      TasksAreConserved(c, run, i, id);
      assert CallJobs(s.inFlight) == [];
      assert id in ResponseJobs(s.responseList) <==> multiset(ResponseJobs(s.responseList))[id] > 0;
    }
  }

  /** The wait for a round always has a call in flight to wait for. */
  lemma {:induction false} NeverWaitsOnNothing(c: ReduceConfig, run: seq<ReduceState>, i: nat)
    requires IsRun(c, run) && i < |run| && run[i].phase.Waiting? && |run[i].responseList| != run[i].nrpcs
    ensures run[i].inFlight != [] && run[i].nrpcs > |run[i].responseList|
  {
    InvRun(c, run, i);
  }

  // ----- termination -----

  function ResponseWeight(rs: seq<ReduceResult>): nat {
    if rs == [] then 0 else (if rs[0].status.SUCCESS? then 2 else 6) + ResponseWeight(rs[1..])
  }

  lemma {:induction false} ResponseWeightConcat(a: seq<ReduceResult>, b: seq<ReduceResult>)
    ensures ResponseWeight(a + b) == ResponseWeight(a) + ResponseWeight(b)
  {
    if a == [] {
      assert a + b == b;
    } else {
      assert (a + b)[1..] == a[1..] + b;
      ResponseWeightConcat(a[1..], b);
    }
  }

  lemma {:induction false} ResponseWeightAt(rs: seq<ReduceResult>, k: nat)
    requires k < |rs|
    ensures ResponseWeight(rs) == ResponseWeight(rs[..k] + rs[k + 1..]) + if rs[k].status.SUCCESS? then 2 else 6
  {
    assert rs == rs[..k] + rs[k..];
    ResponseWeightConcat(rs[..k], rs[k..]);
    assert rs[k..][1..] == rs[k + 1..];
    ResponseWeightConcat(rs[..k], rs[k + 1..]);
  }

  /** The work left when at most `left` more calls fail. */
  function Weight(s: ReduceState, left: nat): nat {
    5 * |s.jobQ| + 4 * |s.inFlight| + ResponseWeight(s.responseList) + 3 * left
  }

  function PhaseWeight(c: ReduceConfig, s: ReduceState): int {
    match s.phase
    case Dispatching => if s.inFlight == [] && s.jobQ != [] then 0 else c.nreducers + 3
    case Waiting => c.nreducers + 2
    case Scanning => 1 + |s.responseList| - s.itr
    case Done => 0
  }

  /** One unit of weight outweighs all that the phase can add. */
  function Rank(c: ReduceConfig, s: ReduceState, left: nat): int {
    Times(Weight(s, left), c.nreducers + 4) + PhaseWeight(c, s)
  }

  predicate MovesWork(s: ReduceState, l: ReduceLabel) {
    l.Complete? || l.Dispatch? || (l.Inspect? && s.itr < |s.responseList| && !s.responseList[s.itr].status.SUCCESS?)
  }

  lemma {:induction false} WeightDecreases(c: ReduceConfig, s: ReduceState, l: ReduceLabel, left: nat, left': nat)
    requires Enabled(c, s, l) && MovesWork(s, l)
    requires s.failed + left == Apply(c, s, l).failed + left'
    ensures Weight(Apply(c, s, l), left') < Weight(s, left)
  {
    if l.Complete? {
      var r := Response(c, s.inFlight[l.k].jobid, l.status);
      ResponseWeightConcat(s.responseList, [r]);
      assert ResponseWeight([r]) == (if r.status.SUCCESS? then 2 else 6) + ResponseWeight([r][1..]);
    } else if l.Inspect? {
      ResponseWeightAt(s.responseList, s.itr);
    }
  }

  lemma {:induction false} PhaseWeightBounded(c: ReduceConfig, s: ReduceState)
    requires Inv(c, s)
    ensures 0 <= PhaseWeight(c, s) <= c.nreducers + 3
  {
    ConservedSize(c, s);
  }

  lemma {:induction false} PhaseDecreases(c: ReduceConfig, s: ReduceState, l: ReduceLabel, left: nat)
    requires Inv(c, s) && Enabled(c, s, l) && !MovesWork(s, l)
    ensures Weight(Apply(c, s, l), left) == Weight(s, left)
    ensures PhaseWeight(c, Apply(c, s, l)) < PhaseWeight(c, s)
    ensures Apply(c, s, l).failed == s.failed
  {
    ConservedSize(c, s);
  }

  /** Every step of either thread brings the end of the loop closer, whatever the schedule. */
  lemma {:induction false} RankDecreases(c: ReduceConfig, s: ReduceState, l: ReduceLabel, left: nat, left': nat)
    requires Inv(c, s) && Enabled(c, s, l)
    requires s.failed + left == Apply(c, s, l).failed + left'
    ensures 0 <= Rank(c, Apply(c, s, l), left') < Rank(c, s, left)
  {
    InvStep(c, s, l);
    PhaseWeightBounded(c, s);
    PhaseWeightBounded(c, Apply(c, s, l));
    if MovesWork(s, l) {
      WeightDecreases(c, s, l, left, left');
      TimesDrops(Weight(Apply(c, s, l), left'), Weight(s, left), c.nreducers + 4);
    } else {
      PhaseDecreases(c, s, l, left);
    }
  }

  lemma {:induction false} RankNonNegative(c: ReduceConfig, s: ReduceState, left: nat)
    requires Inv(c, s)
    ensures Rank(c, s, left) >= 0
  {
  }

  lemma {:induction false} StepRank(c: ReduceConfig, s: ReduceState, s': ReduceState, left: nat)
    requires Inv(c, s) && Step(c, s, s') && s'.failed <= left
    ensures s.failed <= s'.failed && Rank(c, s', left - s'.failed) < Rank(c, s, left - s.failed)
  {
    var l :| Enabled(c, s, l) && s' == Apply(c, s, l);
    StepRankBy(c, s, l, left);
  }

  lemma {:induction false} StepRankBy(c: ReduceConfig, s: ReduceState, l: ReduceLabel, left: nat)
    requires Inv(c, s) && Enabled(c, s, l) && Apply(c, s, l).failed <= left
    ensures var s' := Apply(c, s, l);
            s.failed <= s'.failed && Rank(c, s', left - s'.failed) < Rank(c, s, left - s.failed)
  {
    FailedGrows(c, s, l);
    RankDecreases(c, s, l, left - s.failed, left - Apply(c, s, l).failed);
  }

  lemma {:induction false} FailedGrows(c: ReduceConfig, s: ReduceState, l: ReduceLabel)
    requires Enabled(c, s, l)
    ensures s.failed <= Apply(c, s, l).failed
  {
  }

  lemma {:induction false} StepOfRun(c: ReduceConfig, run: seq<ReduceState>, i: nat)
    requires IsRun(c, run) && 0 < i < |run|
    ensures Step(c, run[i - 1], run[i])
  {
    assert Step(c, run[i - 1], run[i - 1 + 1]);
  }

  lemma {:induction false} RunStepRank(c: ReduceConfig, run: seq<ReduceState>, i: nat, left: nat)
    requires IsRun(c, run) && 0 < i < |run| && run[i].failed <= left
    ensures run[i - 1].failed <= left
    ensures Rank(c, run[i], left - run[i].failed) < Rank(c, run[i - 1], left - run[i - 1].failed)
  {
    InvRun(c, run, i - 1);
    StepOfRun(c, run, i);
    StepRank(c, run[i - 1], run[i], left);
  }

  lemma {:induction false} RunRank(c: ReduceConfig, run: seq<ReduceState>, i: nat, left: nat)
    requires IsRun(c, run) && i < |run| && run[i].failed <= left
    ensures Rank(c, run[i], left - run[i].failed) <= Rank(c, Start(c), left) - i
  {
    if i > 0 {
      RunStepRank(c, run, i, left);
      RunRank(c, run, i - 1, left);
    }
  }

  /** No run is longer than a bound on the reducers and the failed calls. */
  lemma {:induction false} RunsAreFinite(c: ReduceConfig, run: seq<ReduceState>)
    requires IsRun(c, run)
    ensures |run| <= (5 * c.nreducers + 3 * Last(run).failed) * (c.nreducers + 4) + c.nreducers + 4
  {
    var f := Last(run).failed;
    RunRank(c, run, |run| - 1, f);
    InvRun(c, run, |run| - 1);
    RankNonNegative(c, Last(run), 0);
    TimesIsProduct(5 * c.nreducers + 3 * f, c.nreducers + 4);
    assert Weight(Start(c), f) == 5 * c.nreducers + 3 * f;
  }
}
