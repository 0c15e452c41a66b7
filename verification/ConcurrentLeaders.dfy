/**
 Several leaders at once. A master whose session has ended without its noticing goes on
 dispatching, pushing and finishing while its successors do the same from whatever checkpoint
 they hold. They share the workers, the containers and the followers; everything else is
 their own. Each step of one of them is a step of the single-leader machine on its own view.
 */
module ConcurrentLeaders {
  import opened WordCount
  import opened Checkpoint
  import opened Cluster
  import opened EndToEnd
  import M = MapDispatch
  import R = ReduceDispatch

  /** What one leader has for itself. */
  datatype Local = Local(
    stage: Stage,
    leader: Leader,
    recovered: seq<M.MapperResult>,
    mapState: M.State,
    redState: R.ReduceState)

  /** What all leaders and workers share. */
  datatype Shared = Shared(
    mapTasks: set<MapTask>,
    reduceCalls: set<R.ReduceCall>,
    store: map<string, string>,
    outs: map<int, string>,
    pushed: set<CheckPointData>)

  datatype Deployment = Deployment(leaders: map<nat, Local>, shared: Shared)

  datatype Label =
    | Act(id: nat, e: Event)
    | TakeCharge(id: nat, ck: CheckPointData)
    | Stop(id: nat)

  function View(l: Local, s: Shared): World {
    World(l.stage, l.leader, l.recovered, l.mapState, l.redState, s.mapTasks, s.reduceCalls, s.store, s.outs, s.pushed)
  }

  function LocalOf(w: World): Local {
    Local(w.stage, w.leader, w.recovered, w.mapState, w.redState)
  }

  function SharedOf(w: World): Shared {
    Shared(w.mapTasks, w.reduceCalls, w.store, w.outs, w.pushed)
  }

  /** What a leader sees before its first step. */
  function FreshView(job: Job, s: Shared): World {
    View(LocalOf(Init(job)), s)
  }

  predicate StepEnabled(job: Job, d: Deployment, l: Label) {
    match l
    case Act(id, e) => id in d.leaders && !e.Failover? && Enabled(job, View(d.leaders[id], d.shared), e)
    case TakeCharge(_, ck) => Enabled(job, FreshView(job, d.shared), Failover(ck))
    case Stop(id) => id in d.leaders
  }

  function Next(job: Job, d: Deployment, l: Label): Deployment
    requires StepEnabled(job, d, l)
  {
    match l
    case Act(id, e) =>
      var w := Apply(job, View(d.leaders[id], d.shared), e);
      Deployment(d.leaders[id := LocalOf(w)], SharedOf(w))
    case TakeCharge(id, ck) =>
      var w := Apply(job, FreshView(job, d.shared), Failover(ck));
      Deployment(d.leaders[id := LocalOf(w)], SharedOf(w))
    case Stop(id) => Deployment(d.leaders - {id}, d.shared)
  }

  ghost predicate DeploymentStep(job: Job, d: Deployment, d': Deployment) {
    exists l: Label :: StepEnabled(job, d, l) && d' == Next(job, d, l)
  }

  function FirstDeployment(job: Job): Deployment {
    Deployment(map[0 := LocalOf(Init(job))], SharedOf(Init(job)))
  }

  ghost predicate IsDeploymentRun(job: Job, run: seq<Deployment>) {
    && run != [] && run[0] == FirstDeployment(job)
    && forall i :: 0 <= i < |run| - 1 ==> DeploymentStep(job, run[i], run[i + 1])
  }

  // ----- what every step keeps -----

  /** Every leader's view keeps the invariant of the single-leader machine, a newcomer's included. */
  ghost predicate AllGood(job: Job, d: Deployment) {
    && Inv(job, FreshView(job, d.shared))
    && forall id :: id in d.leaders ==> Inv(job, View(d.leaders[id], d.shared))
  }

  predicate Grows(s: Shared, s': Shared) {
    s.store.Keys <= s'.store.Keys && s.outs.Keys <= s'.outs.Keys
  }

  lemma {:induction false} StepGrows(job: Job, w: World, e: Event)
    requires Enabled(job, w, e)
    ensures Grows(SharedOf(w), SharedOf(Apply(job, w, e)))
  {
  }

  lemma {:induction false} SharedCallsGood(job: Job, w: World, w': World)
    requires SharedOf(w) == SharedOf(w') && CallsGood(job, w) && CheckpointsGood(job, w)
    ensures CallsGood(job, w') && CheckpointsGood(job, w')
  {
  }

  lemma {:induction false} StageKept(job: Job, l: Local, s: Shared, s': Shared)
    requires Grows(s, s') && StageGood(job, View(l, s))
    ensures StageGood(job, View(l, s'))
  {
    var w, w' := View(l, s), View(l, s');
    assert ReduceConfigOf(job, w) == ReduceConfigOf(job, w');
    assert forall k :: k in s.outs ==> k in s'.outs.Keys;
  }

  /** What one leader shares does not disturb another: `other` is any view with the new shared part. */
  lemma {:induction false} OthersUndisturbed(job: Job, l: Local, s: Shared, other: World)
    requires Inv(job, View(l, s)) && Inv(job, other) && Grows(s, SharedOf(other))
    ensures Inv(job, View(l, SharedOf(other)))
  {
    var s' := SharedOf(other);
    var w' := View(l, s');
    BackedGrows(s.store, s'.store, l.mapState.accepted);
    BackedGrows(s.store, s'.store, M.Successes(l.mapState.responseList));
    SharedCallsGood(job, other, w');
    StageKept(job, l, s, s');
  }

  lemma {:induction false} ActingLeaderGood(job: Job, d: Deployment, l: Label) returns (next: World)
    requires Supported(job) && AllGood(job, d) && l.Act? && StepEnabled(job, d, l)
    ensures next == Apply(job, View(d.leaders[l.id], d.shared), l.e)
    ensures Inv(job, next) && Grows(d.shared, SharedOf(next))
    ensures View(LocalOf(next), SharedOf(next)) == next
  {
    var w := View(d.leaders[l.id], d.shared);
    next := Apply(job, w, l.e);
    InvStep(job, w, l.e);
    StepGrows(job, w, l.e);
  }

  lemma {:induction false} ActKeepsGood(job: Job, d: Deployment, l: Label)
    requires Supported(job) && AllGood(job, d) && l.Act? && StepEnabled(job, d, l)
    ensures AllGood(job, Next(job, d, l))
  {
    var next := ActingLeaderGood(job, d, l);
    var s' := SharedOf(next);
    assert Inv(job, FreshView(job, s')) by {
      OthersUndisturbed(job, LocalOf(Init(job)), d.shared, next);
    }
    forall id | id in d.leaders && id != l.id ensures Inv(job, View(d.leaders[id], s')) {
      OthersUndisturbed(job, d.leaders[id], d.shared, next);
    }
    AllGoodWith(job, d.leaders, l.id, next);
  }

  lemma {:induction false} AllGoodWith(job: Job, leaders: map<nat, Local>, id: nat, next: World)
    requires Inv(job, next) && Inv(job, FreshView(job, SharedOf(next)))
    requires forall j :: j in leaders && j != id ==> Inv(job, View(leaders[j], SharedOf(next)))
    ensures AllGood(job, Deployment(leaders[id := LocalOf(next)], SharedOf(next)))
  {
    assert View(LocalOf(next), SharedOf(next)) == next;
  }

  lemma {:induction false} NewLeaderGood(job: Job, s: Shared, ck: CheckPointData) returns (next: World)
    requires Supported(job) && Inv(job, FreshView(job, s)) && Enabled(job, FreshView(job, s), Failover(ck))
    ensures next == Apply(job, FreshView(job, s), Failover(ck)) && Inv(job, next) && SharedOf(next) == s
  {
    next := Apply(job, FreshView(job, s), Failover(ck));
    InvStep(job, FreshView(job, s), Failover(ck));
  }

  lemma {:induction false} TakeChargeKeepsGood(job: Job, d: Deployment, l: Label)
    requires Supported(job) && AllGood(job, d) && l.TakeCharge? && StepEnabled(job, d, l)
    ensures AllGood(job, Next(job, d, l))
  {
    var next := NewLeaderGood(job, d.shared, l.ck);
    AllGoodWith(job, d.leaders, l.id, next);
  }

  lemma {:induction false} GoodStep(job: Job, d: Deployment, l: Label)
    requires Supported(job) && AllGood(job, d) && StepEnabled(job, d, l)
    ensures AllGood(job, Next(job, d, l))
  {
    match l
    case Act(_, _) => ActKeepsGood(job, d, l);
    case TakeCharge(_, _) => TakeChargeKeepsGood(job, d, l);
    case Stop(_) =>
  }

  lemma {:induction false} GoodNext(job: Job, d: Deployment, d': Deployment)
    requires Supported(job) && AllGood(job, d) && DeploymentStep(job, d, d')
    ensures AllGood(job, d')
  {
    var l: Label :| StepEnabled(job, d, l) && d' == Next(job, d, l);
    GoodStep(job, d, l);
  }

  lemma {:induction false} GoodStart(job: Job)
    requires Supported(job)
    ensures AllGood(job, FirstDeployment(job))
  {
    InvInit(job);
    assert FreshView(job, SharedOf(Init(job))) == Init(job);
  }

  lemma {:induction false} StepOfRun(job: Job, run: seq<Deployment>, i: nat)
    requires IsDeploymentRun(job, run) && 0 < i < |run|
    ensures DeploymentStep(job, run[i - 1], run[i])
  {
    assert DeploymentStep(job, run[i - 1], run[i - 1 + 1]);
  }

  lemma {:induction false} GoodRun(job: Job, run: seq<Deployment>, i: nat)
    requires Supported(job) && IsDeploymentRun(job, run) && i < |run|
    ensures AllGood(job, run[i])
  {
    if i == 0 {
      GoodStart(job);
    } else {
      GoodRun(job, run, i - 1);
      StepOfRun(job, run, i);
      GoodNext(job, run[i - 1], run[i]);
    }
  }

  /** Nothing but the presence of leader id has changed. */
  predicate OthersStay(d: Deployment, d': Deployment, id: nat) {
    d'.shared == d.shared && d'.leaders - {id} == d.leaders - {id}
  }

  lemma {:induction false} ChargeAllowed(job: Job, d: Deployment, id: nat, ck: CheckPointData)
    requires Supported(job) && AllGood(job, d) && ck in d.shared.pushed
    ensures StepEnabled(job, d, TakeCharge(id, ck)) && CheckpointGood(job, d.shared.store, ck)
  {
    TakeoversAllowed(job, FreshView(job, d.shared));
  }

  /** The newcomer knows the job and has the results of the checkpoint. */
  predicate InCharge(job: Job, d: Deployment, id: nat, ck: CheckPointData) {
    && id in d.leaders && d.leaders[id].stage.Mapping?
    && d.leaders[id].leader == FirstLeader(job) && d.leaders[id].recovered == DecodeLog(ck.jobList)
  }

  lemma {:induction false} ChargeTaken(job: Job, d: Deployment, id: nat, ck: CheckPointData)
    requires Supported(job) && StepEnabled(job, d, TakeCharge(id, ck)) && CheckpointGood(job, d.shared.store, ck)
    ensures OthersStay(d, Next(job, d, TakeCharge(id, ck)), id)
    ensures InCharge(job, Next(job, d, TakeCharge(id, ck)), id, ck)
  {
    var w := Apply(job, FreshView(job, d.shared), Failover(ck));
    TakesOver(job, FreshView(job, d.shared), ck);
    OneReplaced(d.leaders, id, LocalOf(w));
  }

  lemma {:induction false} OneReplaced(m: map<nat, Local>, id: nat, l: Local)
    ensures m[id := l] - {id} == m - {id}
  {
    var a, b := m[id := l] - {id}, m - {id};
    forall k ensures k in a <==> k in b
             ensures k in a ==> k in b && a[k] == b[k]
    {
    }
  }

  /** At any moment anybody may take charge from any checkpoint ever pushed, and begins with its results. */
  lemma {:induction false} AnybodyMayTakeCharge(job: Job, run: seq<Deployment>, i: nat, id: nat, ck: CheckPointData)
    requires Supported(job) && IsDeploymentRun(job, run) && i < |run| && ck in run[i].shared.pushed
    ensures StepEnabled(job, run[i], TakeCharge(id, ck))
    ensures OthersStay(run[i], Next(job, run[i], TakeCharge(id, ck)), id)
    ensures InCharge(job, Next(job, run[i], TakeCharge(id, ck)), id, ck)
  {
    GoodRun(job, run, i);
    ChargeAllowed(job, run[i], id, ck);
    ChargeTaken(job, run[i], id, ck);
  }

  /** A leader that acts takes a step of the single-leader machine on what it sees; the others keep what they know. */
  lemma {:induction false} ActIsOwnStep(job: Job, d: Deployment, id: nat, e: Event)
    requires id in d.leaders && !e.Failover? && Enabled(job, View(d.leaders[id], d.shared), e)
    ensures StepEnabled(job, d, Act(id, e))
    ensures var d' := Next(job, d, Act(id, e));
            && id in d'.leaders && View(d'.leaders[id], d'.shared) == Apply(job, View(d.leaders[id], d.shared), e)
            && d'.leaders - {id} == d.leaders - {id}
  {
    OneReplaced(d.leaders, id, LocalOf(Apply(job, View(d.leaders[id], d.shared), e)));
  }

  /** At any moment any leader may stop, and nobody else notices. */
  lemma {:induction false} AnyLeaderMayStop(job: Job, d: Deployment, id: nat)
    requires id in d.leaders
    ensures StepEnabled(job, d, Stop(id)) && OthersStay(d, Next(job, d, Stop(id)), id)
    ensures id !in Next(job, d, Stop(id)).leaders
  {
  }

  // ----- the main results -----

  /**
   However many leaders are at work, as soon as any of them has finished, the output is
   complete and right, whatever the others have done so far.
   */
  lemma {:induction false} AnyFinishedLeaderCountsWords(job: Job, run: seq<Deployment>, i: nat, id: nat)
    requires Supported(job) && IsDeploymentRun(job, run) && i < |run|
    requires id in run[i].leaders && run[i].leaders[id].stage.Finished?
    ensures forall r :: r in run[i].shared.outs <==> 0 <= r < job.nreducers
    ensures forall r :: 0 <= r < job.nreducers ==>
              run[i].shared.outs[r] == ExpectedOut(job, r) && IsWordCount(job, r, run[i].shared.outs[r])
  {
    GoodRun(job, run, i);
    var w := View(run[i].leaders[id], run[i].shared);
    forall r | 0 <= r < job.nreducers
      ensures r in w.outs && w.outs[r] == ExpectedOut(job, r) && IsWordCount(job, r, w.outs[r])
    {
      AllWritten(job, w, r);
      ExpectedIsWordCount(job, r);
    }
  }

  /** No file is ever wrong, not even while leaders compete, and none becomes wrong later. */
  lemma {:induction false} NoOutputIsEverWrong(job: Job, run: seq<Deployment>, i: nat, r: int)
    requires Supported(job) && IsDeploymentRun(job, run) && i < |run| && r in run[i].shared.outs
    ensures 0 <= r < job.nreducers && run[i].shared.outs[r] == ExpectedOut(job, r)
    ensures IsWordCount(job, r, run[i].shared.outs[r])
  {
    GoodRun(job, run, i);
    ExpectedIsWordCount(job, r);
  }

  /** Each leader that is done mapping has its own complete set of results, one a shard. */
  lemma {:induction false} EachLeaderMapsExactlyOnce(job: Job, run: seq<Deployment>, i: nat, id: nat)
    requires Supported(job) && IsDeploymentRun(job, run) && i < |run|
    requires id in run[i].leaders && run[i].leaders[id].mapState.phase.Done?
    ensures Complete(job, run[i].shared.store, run[i].leaders[id].mapState.accepted)
    ensures run[i].leaders[id].mapState.intBlobs == M.BlobsOf(run[i].leaders[id].mapState.accepted)
  {
    GoodRun(job, run, i);
    MappedIsComplete(job, View(run[i].leaders[id], run[i].shared));
  }
}
