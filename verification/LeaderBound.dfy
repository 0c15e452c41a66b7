/**
 How long a leader can be busy: while it leads, the steps of its own threads are bounded by
 the work it started with and the calls that fail, whatever workers and followers do meanwhile.
 */
module LeaderBound {
  import opened Arithmetic
  import opened WordCount
  import opened Cluster
  import M = MapDispatch
  import R = ReduceDispatch

  /** A step of the leader's main or completion thread. */
  predicate IsLeaderStep(e: Event) {
    e.MapStep? || e.StartReduce? || e.ReduceStep? || e.Finish?
  }

  /** A call that fails or times out. */
  predicate IsFailure(e: Event) {
    || (e.MapStep? && e.l.Complete? && !e.l.status.SUCCESS?)
    || (e.ReduceStep? && e.rl.Complete? && !e.rl.status.SUCCESS?)
  }

  function One(b: bool): nat {
    if b then 1 else 0
  }

  function LeaderSteps(events: seq<Event>): nat {
    if events == [] then 0 else One(IsLeaderStep(events[0])) + LeaderSteps(events[1..])
  }

  function Failures(events: seq<Event>): nat {
    if events == [] then 0 else One(IsFailure(events[0])) + Failures(events[1..])
  }

  /** The events can happen one after the other under one leader, starting from w. */
  predicate IsTrace(job: Job, w: World, events: seq<Event>)
    decreases events
  {
    events == []
    || (!events[0].Failover? && Enabled(job, w, events[0]) && IsTrace(job, Apply(job, w, events[0]), events[1..]))
  }

  /** A bound on the rank of any reduce stage with r reducers and `left` failures to come. */
  function ReduceBound(r: nat, left: nat): nat {
    Times(5 * r + 3 * left, r + 4) + r + 4
  }

  function MapPart(w: World, left: nat): int {
    M.Rank(w.mapState, w.mapState.failed + left)
  }

  function ReducePart(job: Job, w: World, left: nat): int {
    match w.stage
    case Mapping => ReduceBound(w.leader.nreducers, left) + 2
    case Reducing => R.Rank(ReduceConfigOf(job, w), w.redState, left) + 1
    case Finished => 0
  }

  /** What bounds the leader's steps if at most `left` more of its calls fail. */
  function Potential(job: Job, w: World, left: nat): int {
    MapPart(w, left) + ReducePart(job, w, left)
  }

  lemma {:induction false} TimesMonotone(m: nat, n: nat, b: nat)
    requires m <= n
    ensures Times(m, b) <= Times(n, b)
  {
    if m < n {
      TimesDrops(m, n, b);
    }
  }

  lemma {:induction false} ReduceRankMonotone(c: R.ReduceConfig, s: R.ReduceState, left: nat, left': nat)
    requires left' <= left
    ensures R.Rank(c, s, left') <= R.Rank(c, s, left)
  {
    TimesMonotone(R.Weight(s, left'), R.Weight(s, left), c.nreducers + 4);
  }

  lemma {:induction false} ReducePartMonotone(job: Job, w: World, left: nat, left': nat)
    requires left' <= left
    ensures ReducePart(job, w, left') <= ReducePart(job, w, left)
  {
    TimesMonotone(5 * w.leader.nreducers + 3 * left', 5 * w.leader.nreducers + 3 * left, w.leader.nreducers + 4);
    if w.stage.Reducing? {
      ReduceRankMonotone(ReduceConfigOf(job, w), w.redState, left, left');
    }
  }

  lemma {:induction false} PotentialNonNegative(job: Job, w: World)
    requires Inv(job, w)
    ensures Potential(job, w, 0) >= 0
  {
    if w.stage.Reducing? {
      R.RankNonNegative(ReduceConfigOf(job, w), w.redState, 0);
    }
  }

  /** Map steps do not change what the reduce stage works on. */
  lemma {:induction false} MapStepKeepsReduce(job: Job, w: World, l: M.Label, left: nat)
    requires Inv(job, w) && Enabled(job, w, MapStep(l))
    ensures ReducePart(job, Apply(job, w, MapStep(l)), left) == ReducePart(job, w, left)
  {
  }

  lemma {:induction false} MapStepDrops(job: Job, w: World, l: M.Label, left: nat, left': nat)
    requires Inv(job, w) && Enabled(job, w, MapStep(l)) && left == left' + One(IsFailure(MapStep(l)))
    ensures MapPart(Apply(job, w, MapStep(l)), left') < MapPart(w, left)
  {
    M.RankDecreases(MapConfigOf(w), w.mapState, l, w.mapState.failed + left);
  }

  lemma {:induction false} MapPotential(job: Job, w: World, l: M.Label, left: nat, left': nat)
    requires Inv(job, w) && Enabled(job, w, MapStep(l)) && left == left' + One(IsFailure(MapStep(l)))
    ensures Potential(job, Apply(job, w, MapStep(l)), left') < Potential(job, w, left)
  {
    MapStepDrops(job, w, l, left, left');
    MapStepKeepsReduce(job, w, l, left');
    ReducePartMonotone(job, w, left, left');
  }

  lemma {:induction false} ReducePotential(job: Job, w: World, l: R.ReduceLabel, left: nat, left': nat)
    requires Inv(job, w) && Enabled(job, w, ReduceStep(l)) && left == left' + One(IsFailure(ReduceStep(l)))
    ensures Potential(job, Apply(job, w, ReduceStep(l)), left') < Potential(job, w, left)
  {
    R.RankDecreases(ReduceConfigOf(job, w), w.redState, l, left, left');
  }

  lemma {:induction false} StartPotential(job: Job, w: World, left: nat)
    requires Inv(job, w) && Enabled(job, w, StartReduce)
    ensures Potential(job, Apply(job, w, StartReduce), left) < Potential(job, w, left)
  {
    StartRank(ReduceConfigOf(job, w), left);
    StartParts(job, w, left);
  }

  lemma {:induction false} StartParts(job: Job, w: World, left: nat)
    requires Enabled(job, w, StartReduce)
    ensures var w' := Apply(job, w, StartReduce);
            && MapPart(w', left) == MapPart(w, left)
            && ReducePart(job, w', left) == R.Rank(ReduceConfigOf(job, w), R.Start(ReduceConfigOf(job, w)), left) + 1
  {
    var w' := Apply(job, w, StartReduce);
    assert ReduceConfigOf(job, w') == ReduceConfigOf(job, w);
  }

  lemma {:induction false} StartRank(c: R.ReduceConfig, left: nat)
    ensures R.Rank(c, R.Start(c), left) < ReduceBound(c.nreducers, left)
  {
    assert R.Weight(R.Start(c), left) == 5 * c.nreducers + 3 * left;
    R.InvStart(c);
    R.PhaseWeightBounded(c, R.Start(c));
  }

  lemma {:induction false} FinishPotential(job: Job, w: World, left: nat)
    requires R.Inv(ReduceConfigOf(job, w), w.redState) && Enabled(job, w, Finish)
    ensures Potential(job, Apply(job, w, Finish), left) < Potential(job, w, left)
  {
    R.RankNonNegative(ReduceConfigOf(job, w), w.redState, left);
  }

  /** Each step of the leader uses up potential, and nobody else's step adds any. */
  lemma {:induction false} PotentialDrops(job: Job, w: World, e: Event, left: nat, left': nat)
    requires Inv(job, w) && Enabled(job, w, e) && !e.Failover? && left == left' + One(IsFailure(e))
    ensures Potential(job, Apply(job, w, e), left') + One(IsLeaderStep(e)) <= Potential(job, w, left)
  {
    match e
    case MapStep(l) => MapPotential(job, w, l, left, left');
    case ReduceStep(l) => ReducePotential(job, w, l, left, left');
    case StartReduce => StartPotential(job, w, left);
    case Finish => FinishPotential(job, w, left);
    case Upload(_, _, _) =>
    case WriteOutput(_) =>
    case Push(_) =>
  }

  /** However long it leads and whatever the schedule, a leader takes no more steps than its potential. */
  lemma {:induction false} LeaderStepsAreBounded(job: Job, w: World, events: seq<Event>)
    requires Supported(job) && Inv(job, w) && IsTrace(job, w, events)
    ensures LeaderSteps(events) <= Potential(job, w, Failures(events))
    decreases events
  {
    if events == [] {
      PotentialNonNegative(job, w);
    } else {
      var e := events[0];
      InvStep(job, w, e);
      LeaderStepsAreBounded(job, Apply(job, w, e), events[1..]);
      PotentialDrops(job, w, e, Failures(events), Failures(events[1..]));
    }
  }

  function FirstLeaderBound(n: nat, r: nat, f: nat): nat {
    20 * n + 12 * f + (5 * r + 3 * f) * (r + 4) + r + 8
  }

  /** For the first leader of a job the bound is a formula in shards, reducers and failed calls. */
  lemma {:induction false} FirstLeaderIsBounded(job: Job, events: seq<Event>)
    requires Supported(job) && IsTrace(job, Init(job), events)
    ensures LeaderSteps(events) <= FirstLeaderBound(|job.shards|, job.nreducers, Failures(events))
  {
    InvInit(job);
    LeaderStepsAreBounded(job, Init(job), events);
    InitBound(job, Failures(events));
  }

  lemma {:induction false} InitBound(job: Job, f: nat)
    requires Inv(job, Init(job))
    ensures Potential(job, Init(job), f) <= FirstLeaderBound(|job.shards|, job.nreducers, f)
  {
    InitPotential(job, f);
    ReduceBoundIs(job.nreducers, f);
  }

  lemma {:induction false} ReduceBoundIs(r: nat, f: nat)
    ensures ReduceBound(r, f) == (5 * r + 3 * f) * (r + 4) + r + 4
  {
    TimesIsProduct(5 * r + 3 * f, r + 4);
  }

  lemma {:induction false} InitPotential(job: Job, f: nat)
    requires Inv(job, Init(job))
    ensures Potential(job, Init(job), f) <= 20 * |job.shards| + 12 * f + ReduceBound(job.nreducers, f) + 4
  {
    InitParts(job, f);
    MapStartRank(MapConfigOf(Init(job)), f);
  }

  lemma {:induction false} InitParts(job: Job, f: nat)
    ensures Potential(job, Init(job), f)
         == M.Rank(M.Start(MapConfigOf(Init(job))), f) + ReduceBound(job.nreducers, f) + 2
  {
  }

  lemma {:induction false} MapStartRank(c: M.Config, f: nat)
    requires M.ValidConfig(c)
    ensures M.Rank(M.Start(c), f) <= 20 * c.nshards + 12 * f + 2
  {
    M.InvStart(c);
    M.AcceptedOnce(c, M.Start(c));
  }
}
