/** Several leaders at once make progress too: each of them can finish as if it were alone. */
module ConcurrentProgress {
  import opened Sequences
  import opened WordCount
  import opened Cluster
  import opened Progress
  import opened ConcurrentLeaders

  /** Tasks and calls handed out and checkpoints pushed by one leader stay known when another one acts. */
  predicate KeepsCalls(s: Shared, s': Shared) {
    s.mapTasks <= s'.mapTasks && s.reduceCalls <= s'.reduceCalls && s.pushed <= s'.pushed
  }

  lemma {:induction false} EventKeepsCalls(job: Job, w: World, e: Event)
    requires Enabled(job, w, e)
    ensures KeepsCalls(SharedOf(w), SharedOf(Apply(job, w, e)))
  {
  }

  lemma {:induction false} LiveUndisturbed(l: Local, s: Shared, s': Shared)
    requires Live(View(l, s)) && KeepsCalls(s, s')
    ensures Live(View(l, s'))
  {
  }

  ghost predicate AllLive(job: Job, d: Deployment) {
    AllGood(job, d) && forall id :: id in d.leaders ==> Live(View(d.leaders[id], d.shared))
  }

  lemma {:induction false} FreshIsLive(job: Job, s: Shared)
    requires job.shards != []
    ensures Live(FreshView(job, s))
  {
  }

  lemma {:induction false} ActKeepsLive(job: Job, d: Deployment, id: nat, e: Event)
    requires Supported(job) && AllLive(job, d) && StepEnabled(job, d, Act(id, e))
    ensures AllLive(job, Next(job, d, Act(id, e)))
  {
    var w := View(d.leaders[id], d.shared);
    var next := Apply(job, w, e);
    GoodStep(job, d, Act(id, e));
    LiveStep(job, w, e);
    EventKeepsCalls(job, w, e);
    AllLiveWith(job, d, id, next);
  }

  lemma {:induction false} AllLiveWith(job: Job, d: Deployment, id: nat, next: World)
    requires forall j :: j in d.leaders ==> Live(View(d.leaders[j], d.shared))
    requires KeepsCalls(d.shared, SharedOf(next)) && Live(next)
    requires AllGood(job, Deployment(d.leaders[id := LocalOf(next)], SharedOf(next)))
    ensures AllLive(job, Deployment(d.leaders[id := LocalOf(next)], SharedOf(next)))
  {
    var d' := Deployment(d.leaders[id := LocalOf(next)], SharedOf(next));
    forall j | j in d'.leaders ensures Live(View(d'.leaders[j], d'.shared)) {
      if j == id {
        assert View(LocalOf(next), SharedOf(next)) == next;
      } else {
        LiveUndisturbed(d.leaders[j], d.shared, d'.shared);
      }
    }
  }

  lemma {:induction false} TakeChargeKeepsLive(job: Job, d: Deployment, l: Label)
    requires Supported(job) && job.shards != [] && AllLive(job, d) && l.TakeCharge? && StepEnabled(job, d, l)
    ensures AllLive(job, Next(job, d, l))
  {
    var w := FreshView(job, d.shared);
    var next := Apply(job, w, Failover(l.ck));
    GoodStep(job, d, l);
    FreshIsLive(job, d.shared);
    LiveStep(job, w, Failover(l.ck));
    AllLiveWith(job, d, l.id, next);
  }

  lemma {:induction false} LiveDeploymentStep(job: Job, d: Deployment, d': Deployment)
    requires Supported(job) && job.shards != [] && AllLive(job, d) && DeploymentStep(job, d, d')
    ensures AllLive(job, d')
  {
    var l: Label :| StepEnabled(job, d, l) && d' == Next(job, d, l);
    match l
    case Act(id, e) => ActKeepsLive(job, d, id, e);
    case TakeCharge(_, _) => TakeChargeKeepsLive(job, d, l);
    case Stop(_) => GoodStep(job, d, l);
  }

  lemma {:induction false} LiveStart(job: Job)
    requires Supported(job) && job.shards != []
    ensures AllLive(job, FirstDeployment(job))
  {
    GoodStart(job);
    LiveInit(job);
    assert View(LocalOf(Init(job)), SharedOf(Init(job))) == Init(job);
  }

  lemma {:induction false} LiveAfter(job: Job, run: seq<Deployment>, i: nat)
    requires Supported(job) && job.shards != [] && IsDeploymentRun(job, run) && 0 < i < |run|
    requires AllLive(job, run[i - 1])
    ensures AllLive(job, run[i])
  {
    ConcurrentLeaders.StepOfRun(job, run, i);
    LiveDeploymentStep(job, run[i - 1], run[i]);
  }

  lemma {:induction false} LiveDeployments(job: Job, run: seq<Deployment>, i: nat)
    requires Supported(job) && job.shards != [] && IsDeploymentRun(job, run) && i < |run|
    ensures AllLive(job, run[i])
  {
    if i == 0 {
      LiveStart(job);
    } else {
      LiveDeployments(job, run, i - 1);
      LiveAfter(job, run, i);
    }
  }

  function LastOf(run: seq<Deployment>): Deployment
    requires run != []
  {
    run[|run| - 1]
  }

  /** What leader id sees at the end of a run. */
  function ViewOf(run: seq<Deployment>, id: nat): World
    requires run != [] && id in LastOf(run).leaders
  {
    View(LastOf(run).leaders[id], LastOf(run).shared)
  }

  lemma {:induction false} ExtendDeployment(job: Job, run: seq<Deployment>, next: Deployment)
    requires IsDeploymentRun(job, run) && DeploymentStep(job, LastOf(run), next)
    ensures IsDeploymentRun(job, run + [next])
  {
    var longer := run + [next];
    forall i | 0 <= i < |longer| - 1 ensures DeploymentStep(job, longer[i], longer[i + 1]) {
      if i < |run| - 1 {
        assert longer[i] == run[i] && longer[i + 1] == run[i + 1];
      }
    }
  }

  /** Leader id itself takes the step, and stays the leader it is. */
  ghost predicate ActsAlone(job: Job, d: Deployment, d': Deployment, id: nat) {
    exists e: Event :: StepEnabled(job, d, Act(id, e)) && d' == Next(job, d, Act(id, e))
  }

  /** From deployment i to deployment j nobody but leader id takes steps. */
  ghost predicate OnlyActs(job: Job, run: seq<Deployment>, id: nat, i: nat, j: nat)
    requires i <= j < |run|
  {
    forall k :: i <= k < j ==> ActsAlone(job, run[k], run[k + 1], id)
  }

  lemma {:induction false} OnlyActsStep(job: Job, run: seq<Deployment>, next: Deployment, id: nat)
    requires run != [] && ActsAlone(job, LastOf(run), next, id)
    ensures OnlyActs(job, run + [next], id, |run| - 1, |run|)
  {
    var longer := run + [next];
    assert longer[|run| - 1] == LastOf(run) && longer[|run|] == next;
  }

  lemma {:induction false} OnlyActsInPrefix(job: Job, run: seq<Deployment>, longer: seq<Deployment>, id: nat,
      i: nat, j: nat)
    requires run <= longer && i <= j < |run| && OnlyActs(job, run, id, i, j)
    ensures OnlyActs(job, longer, id, i, j)
  {
    assert forall k :: 0 <= k < |run| ==> longer[k] == run[k];
  }

  lemma {:induction false} OnlyActsFrom(job: Job, run: seq<Deployment>, more: seq<Deployment>,
      longer: seq<Deployment>, id: nat)
    requires run != [] && |more| == |run| + 1 && OnlyActs(job, more, id, |run| - 1, |run|)
    requires more <= longer && OnlyActs(job, longer, id, |run|, |longer| - 1)
    ensures OnlyActs(job, longer, id, |run| - 1, |longer| - 1)
  {
    OnlyActsInPrefix(job, more, longer, id, |run| - 1, |run|);
  }

  lemma {:induction false} GoodEventFor(job: Job, d: Deployment, id: nat, address: string) returns (e: Event)
    requires Supported(job) && AllLive(job, d) && id in d.leaders
    requires HasWork(View(d.leaders[id], d.shared)) && !View(d.leaders[id], d.shared).stage.Finished?
    ensures GoodEvent(job, View(d.leaders[id], d.shared), e) && StepEnabled(job, d, Act(id, e))
    ensures WorkLeft(job, View(d.leaders[id], d.shared)) >= 0
  {
    WorkLeftNonNegative(job, View(d.leaders[id], d.shared));
    e := NextEvent(job, View(d.leaders[id], d.shared), address);
  }

  /** What leader id sees after its own step. */
  lemma {:induction false} ViewAfterAct(job: Job, d: Deployment, id: nat, e: Event)
    requires StepEnabled(job, d, Act(id, e)) && GoodEvent(job, View(d.leaders[id], d.shared), e)
    ensures ActsAlone(job, d, Next(job, d, Act(id, e)), id) && id in Next(job, d, Act(id, e)).leaders
    ensures var d' := Next(job, d, Act(id, e)); var w' := View(d'.leaders[id], d'.shared);
            HasWork(w') && Closer(job, View(d.leaders[id], d.shared), w')
  {
    var d' := Next(job, d, Act(id, e));
    assert View(d'.leaders[id], d'.shared) == Apply(job, View(d.leaders[id], d.shared), e);
  }

  /** Leader id has taken a step that brings it closer to the end. */
  ghost predicate Advances(job: Job, d: Deployment, d': Deployment, id: nat)
    requires id in d.leaders
  {
    && id in d'.leaders && DeploymentStep(job, d, d') && ActsAlone(job, d, d', id)
    && WorkLeft(job, View(d.leaders[id], d.shared)) >= 0
    && HasWork(View(d'.leaders[id], d'.shared))
    && Closer(job, View(d.leaders[id], d.shared), View(d'.leaders[id], d'.shared))
  }

  /** One more step of leader id brings it closer to the end. */
  lemma {:induction false} NextAct(job: Job, d: Deployment, id: nat, address: string) returns (d': Deployment)
    requires Supported(job) && AllLive(job, d) && id in d.leaders
    requires HasWork(View(d.leaders[id], d.shared)) && !View(d.leaders[id], d.shared).stage.Finished?
    ensures Advances(job, d, d', id)
  {
    var e := GoodEventFor(job, d, id, address);
    ViewAfterAct(job, d, id, e);
    d' := Next(job, d, Act(id, e));
  }

  /** A run with one more step of leader id. */
  lemma {:induction false} OneMoreAct(job: Job, run: seq<Deployment>, id: nat, address: string)
    returns (more: seq<Deployment>)
    requires Supported(job) && job.shards != [] && IsDeploymentRun(job, run) && id in LastOf(run).leaders
    requires HasWork(ViewOf(run, id)) && !ViewOf(run, id).stage.Finished?
    ensures IsDeploymentRun(job, more) && run <= more && |more| == |run| + 1 && id in LastOf(more).leaders
    ensures OnlyActs(job, more, id, |run| - 1, |run|)
    ensures HasWork(ViewOf(more, id)) && Closer(job, ViewOf(run, id), ViewOf(more, id))
    ensures WorkLeft(job, ViewOf(run, id)) >= 0
  {
    var next := NextOfRun(job, run, id, address);
    ExtendDeployment(job, run, next);
    OnlyActsStep(job, run, next, id);
    more := run + [next];
  }

  lemma {:induction false} NextOfRun(job: Job, run: seq<Deployment>, id: nat, address: string)
    returns (next: Deployment)
    requires Supported(job) && job.shards != [] && IsDeploymentRun(job, run) && id in LastOf(run).leaders
    requires HasWork(ViewOf(run, id)) && !ViewOf(run, id).stage.Finished?
    ensures Advances(job, LastOf(run), next, id)
  {
    LiveDeployments(job, run, |run| - 1);
    next := NextAct(job, LastOf(run), id, address);
  }

  /**
   In every run of a deployment, each present leader with work left can finish by steps of its own,
   whatever the others have done.
   */
  lemma {:induction false} AnyLeaderCanFinish(job: Job, run: seq<Deployment>, id: nat, address: string)
    returns (longer: seq<Deployment>)
    requires Supported(job) && job.shards != [] && IsDeploymentRun(job, run) && id in LastOf(run).leaders
    requires HasWork(ViewOf(run, id))
    ensures IsDeploymentRun(job, longer) && run <= longer && OnlyActs(job, longer, id, |run| - 1, |longer| - 1)
    ensures id in LastOf(longer).leaders && ViewOf(longer, id).stage.Finished?
    decreases StageRank(ViewOf(run, id)), WorkLeft(job, ViewOf(run, id)), UploadsLeft(ViewOf(run, id))
  {
    if ViewOf(run, id).stage.Finished? {
      longer := run;
    } else {
      var more := OneMoreAct(job, run, id, address);
      longer := AnyLeaderCanFinish(job, more, id, address);
      PrefixTransitive(run, more, longer);
      OnlyActsFrom(job, run, more, longer, id);
    }
  }

  /** Every supported job can be finished by its first leader, from the first moment on. */
  lemma {:induction false} FirstLeaderFinishes(job: Job, address: string) returns (run: seq<Deployment>)
    requires Supported(job) && job.shards != []
    ensures IsDeploymentRun(job, run) && 0 in LastOf(run).leaders && ViewOf(run, 0).stage.Finished?
  {
    var start := [FirstDeployment(job)];
    LiveStart(job);
    run := AnyLeaderCanFinish(job, start, 0, address);
  }
}
