/**
 Whole jobs make progress: as long as workers answer, the leader of the moment finishes the
 job, except a new leader whose checkpoint already holds every map result.
 */
module Progress {
  import opened Sequences
  import opened Status
  import opened Intermediate
  import opened WordCount
  import opened Checkpoint
  import opened Cluster
  import opened EndToEnd
  import M = MapDispatch
  import R = ReduceDispatch

  // ----- every open call can still be answered -----

  predicate AllSent(leader: Leader, calls: seq<M.Call>, tasks: set<MapTask>) {
    forall i :: 0 <= i < |calls| ==> TaskFor(leader, calls[i].shardId, calls[i].address) in tasks
  }

  predicate CallsSent(w: World) {
    AllSent(w.leader, w.mapState.inFlight, w.mapTasks)
  }

  lemma {:induction false} SentSnoc(leader: Leader, calls: seq<M.Call>, tasks: set<MapTask>, call: M.Call)
    requires AllSent(leader, calls, tasks)
    ensures AllSent(leader, calls + [call], tasks + {TaskFor(leader, call.shardId, call.address)})
  {
  }

  lemma {:induction false} SentRemove(leader: Leader, calls: seq<M.Call>, tasks: set<MapTask>, k: nat)
    requires AllSent(leader, calls, tasks) && k < |calls|
    ensures AllSent(leader, calls[..k] + calls[k + 1..], tasks)
  {
  }

  predicate ReduceCallsSent(w: World) {
    w.stage.Reducing? ==> forall i :: 0 <= i < |w.redState.inFlight| ==> w.redState.inFlight[i] in w.reduceCalls
  }

  /** With every result in the checkpoint the main thread stays in its wait loop. */
  predicate NothingQueued(w: World) {
    |w.recovered| == |w.leader.shards| ==>
      w.stage.Mapping? && (w.mapState.phase.Dispatching? || w.mapState.phase.Waiting?)
  }

  predicate Live(w: World) {
    CallsSent(w) && ReduceCallsSent(w) && NothingQueued(w)
  }

  lemma {:induction false} MapStepKeepsCallsSent(job: Job, w: World, l: M.Label)
    requires CallsSent(w) && Enabled(job, w, MapStep(l))
    ensures CallsSent(Apply(job, w, MapStep(l)))
  {
    var calls := w.mapState.inFlight;
    match l
    case Dispatch(address) => SentSnoc(w.leader, calls, w.mapTasks, M.Call(w.mapState.jobQ[0], address));
    case Complete(k, _) => SentRemove(w.leader, calls, w.mapTasks, k);
    case EndDispatch =>
    case Wake =>
    case Process =>
    case EndPass =>
    case Log =>
  }

  lemma {:induction false} NothingToProcess(job: Job, w: World)
    requires Inv(job, w) && |w.recovered| == |w.leader.shards|
    ensures w.mapState.jobQ == [] && w.mapState.inFlight == [] && w.mapState.responseList == []
  {
    M.AcceptedOnce(MapConfigOf(w), w.mapState);
  }

  lemma {:induction false} MapStepKeepsNothingQueued(job: Job, w: World, l: M.Label)
    requires Inv(job, w) && NothingQueued(w) && Enabled(job, w, MapStep(l))
    ensures NothingQueued(Apply(job, w, MapStep(l)))
  {
    if |w.recovered| == |w.leader.shards| {
      NothingToProcess(job, w);
    }
  }

  lemma {:induction false} ReduceStepKeepsCallsSent(job: Job, w: World, l: R.ReduceLabel)
    requires ReduceCallsSent(w) && Enabled(job, w, ReduceStep(l))
    ensures ReduceCallsSent(Apply(job, w, ReduceStep(l)))
  {
  }

  lemma {:induction false} LiveStep(job: Job, w: World, e: Event)
    requires Supported(job) && Inv(job, w) && Live(w) && Enabled(job, w, e)
    ensures Live(Apply(job, w, e))
  {
    match e
    case MapStep(l) =>
      MapStepKeepsCallsSent(job, w, l);
      MapStepKeepsNothingQueued(job, w, l);
    case ReduceStep(l) => ReduceStepKeepsCallsSent(job, w, l);
    case Failover(ck) => TakesOver(job, w, ck);
    case Upload(_, _, _) =>
    case StartReduce =>
    case WriteOutput(_) =>
    case Finish =>
    case Push(_) =>
  }

  lemma {:induction false} LiveNext(job: Job, w: World, w': World)
    requires Supported(job) && Inv(job, w) && Live(w) && Step(job, w, w')
    ensures Inv(job, w') && Live(w')
  {
    var e :| Enabled(job, w, e) && w' == Apply(job, w, e);
    LiveStep(job, w, e);
    InvStep(job, w, e);
  }

  lemma {:induction false} LiveInit(job: Job)
    requires Supported(job) && job.shards != []
    ensures Live(Init(job))
  {
  }

  lemma {:induction false} StepOfRun(job: Job, run: seq<World>, i: nat)
    requires IsRun(job, run) && 0 < i < |run|
    ensures Step(job, run[i - 1], run[i])
  {
    assert Step(job, run[i - 1], run[i - 1 + 1]);
  }

  lemma {:induction false} LiveRun(job: Job, run: seq<World>, i: nat)
    requires Supported(job) && job.shards != [] && IsRun(job, run) && i < |run|
    ensures Inv(job, run[i]) && Live(run[i])
  {
    if i == 0 {
      InvInit(job);
      LiveInit(job);
    } else {
      LiveRun(job, run, i - 1);
      StepOfRun(job, run, i);
      LiveNext(job, run[i - 1], run[i]);
    }
  }

  // ----- uploads that are still to be made -----

  function MissingCount(store: map<string, string>, names: seq<string>): nat {
    if names == [] then 0 else (if names[0] in store then 0 else 1) + MissingCount(store, names[1..])
  }

  lemma {:induction false} MissingDrops(store: map<string, string>, name: string, text: string, names: seq<string>)
    requires name !in store
    ensures MissingCount(store[name := text], names) <= MissingCount(store, names)
    ensures name in names ==> MissingCount(store[name := text], names) < MissingCount(store, names)
  {
    if names != [] {
      MissingDrops(store, name, text, names[1..]);
    }
  }

  /** Every name a worker reports belongs to a piece it can upload. */
  lemma {:induction false} TaskBlobOwner(a: string, s: nat, pieces: nat, n: nat, i: nat) returns (p: nat, r: nat)
    requires i < |TaskBlobs(a, s, pieces, n)|
    ensures p < pieces && r < n && TaskBlobs(a, s, pieces, n)[i] == BlobName(a, s, p, r)
  {
    var before := TaskBlobs(a, s, pieces - 1, n);
    if i < |before| {
      p, r := TaskBlobOwner(a, s, pieces - 1, n, i);
    } else {
      p, r := pieces - 1, i - |before|;
    }
  }

  // ----- the next event -----

  function NextReduce(s: R.ReduceState, c: R.ReduceConfig, address: string): R.ReduceLabel {
    match s.phase
    case Dispatching =>
      if s.jobQ != [] && s.nrpcs - |s.responseList| <= c.nclients then R.Dispatch(address) else R.EndDispatch
    case Waiting => if |s.responseList| == s.nrpcs then R.Scan else R.Complete(0, SUCCESS)
    case Scanning => if s.itr < |s.responseList| then R.Inspect else R.EndScan
    case Done => R.EndScan
  }

  lemma {:induction false} NextReduceEnabled(c: R.ReduceConfig, s: R.ReduceState, address: string)
    requires R.Inv(c, s) && !s.phase.Done?
    ensures R.Enabled(c, s, NextReduce(s, c, address))
    ensures R.Apply(c, s, NextReduce(s, c, address)).failed == s.failed
  {
  }

  predicate HasWork(w: World) {
    !w.stage.Mapping? || |w.recovered| < |w.leader.shards|
  }

  function StageRank(w: World): nat {
    match w.stage
    case Mapping => 2
    case Reducing => 1
    case Finished => 0
  }

  function WorkLeft(job: Job, w: World): int {
    match w.stage
    case Mapping => M.Rank(w.mapState, w.mapState.failed)
    case Reducing => R.Rank(ReduceConfigOf(job, w), w.redState, 0)
    case Finished => 0
  }

  /** The uploads the next answer is waiting for. */
  function UploadsLeft(w: World): nat {
    match w.stage
    case Mapping => if w.mapState.inFlight == [] then 0
        else MissingCount(w.store, MapReply(w.leader, w.mapState.inFlight[0]))
    case Reducing => if w.redState.inFlight == [] || w.redState.inFlight[0].jobid in w.outs then 0 else 1
    case Finished => 0
  }

  predicate Closer(job: Job, w: World, w': World) {
    || StageRank(w') < StageRank(w)
    || (StageRank(w') == StageRank(w) && 0 <= WorkLeft(job, w') < WorkLeft(job, w))
    || (StageRank(w') == StageRank(w) && WorkLeft(job, w') == WorkLeft(job, w) && UploadsLeft(w') < UploadsLeft(w))
  }

  ghost predicate GoodEvent(job: Job, w: World, e: Event) {
    !e.Failover? && Enabled(job, w, e) && Closer(job, w, Apply(job, w, e)) && HasWork(Apply(job, w, e))
  }

  lemma {:induction false} UploadCloser(job: Job, w: World, e: Event)
    requires HasWork(w) && w.stage.Mapping? && w.mapState.inFlight != [] && e.Upload? && Enabled(job, w, e)
    requires var name := BlobName(e.task.address, e.task.shardId, e.piece, e.r);
             name !in w.store && name in MapReply(w.leader, w.mapState.inFlight[0])
    ensures GoodEvent(job, w, e)
  {
    var name := BlobName(e.task.address, e.task.shardId, e.piece, e.r);
    MissingDrops(w.store, name, UploadedText(job, e.task, e.piece, e.r), MapReply(w.leader, w.mapState.inFlight[0]));
  }

  lemma {:induction false} TasksInRange(job: Job, t: MapTask)
    requires Supported(job) && Sent(job, t)
    ensures InRange(t.tuples)
  {
    EncodedInRange(job.shards);
    assert EncodeShards(job.shards)[t.shardId].stuples == t.tuples;
  }

  /** The oldest call in flight is still waiting for an upload: that upload can happen. */
  lemma {:induction false} UploadNext(job: Job, w: World) returns (e: Event)
    requires Supported(job) && TasksGood(job, w.mapTasks) && CallsSent(w) && HasWork(w) && w.stage.Mapping?
    requires w.leader == FirstLeader(job) && w.mapState.inFlight != []
    requires !AllIn(w.store, MapReply(w.leader, w.mapState.inFlight[0]))
    ensures GoodEvent(job, w, e)
  {
    var call := w.mapState.inFlight[0];
    var names := MapReply(w.leader, call);
    var i :| 0 <= i < |names| && names[i] !in w.store;
    var task := TaskFor(w.leader, call.shardId, call.address);
    var p, r := TaskBlobOwner(call.address, call.shardId, |w.leader.shards[call.shardId].sets|, w.leader.nreducers, i);
    e := Upload(task, p, r);
    assert Sent(job, task);
    TasksInRange(job, task);
    UploadCloser(job, w, e);
  }

  lemma {:induction false} MapNext(job: Job, w: World, address: string) returns (e: Event)
    requires Supported(job) && Inv(job, w) && Live(w) && HasWork(w) && w.stage.Mapping? && !w.mapState.phase.Done?
    ensures GoodEvent(job, w, e)
  {
    var c, s := MapConfigOf(w), w.mapState;
    var l := M.NextLabel(s, address);
    M.NextLabelEnabled(c, s, address);
    M.RankDecreases(c, s, l, s.failed);
    if l.Complete? && !AllIn(w.store, MapReply(w.leader, s.inFlight[0])) {
      e := UploadNext(job, w);
    } else {
      e := MapStep(l);
    }
  }

  lemma {:induction false} ReduceStepCloser(job: Job, w: World, l: R.ReduceLabel)
    requires Inv(job, w) && Enabled(job, w, ReduceStep(l))
    requires R.Apply(ReduceConfigOf(job, w), w.redState, l).failed == w.redState.failed
    ensures GoodEvent(job, w, ReduceStep(l))
  {
    R.RankDecreases(ReduceConfigOf(job, w), w.redState, l, 0, 0);
  }

  lemma {:induction false} WriteCloser(job: Job, w: World)
    requires ReduceCallsSent(w) && w.stage.Reducing? && w.redState.inFlight != [] &&
        w.redState.inFlight[0].jobid !in w.outs
    ensures GoodEvent(job, w, WriteOutput(w.redState.inFlight[0]))
  {
    var w' := Apply(job, w, WriteOutput(w.redState.inFlight[0]));
    assert ReduceConfigOf(job, w') == ReduceConfigOf(job, w) && w'.redState == w.redState;
  }

  lemma {:induction false} ReduceStepAllowed(job: Job, w: World, l: R.ReduceLabel)
    requires w.stage.Reducing? && R.Enabled(ReduceConfigOf(job, w), w.redState, l)
    requires l.Complete? ==> w.redState.inFlight[l.k].jobid in w.outs
    ensures Enabled(job, w, ReduceStep(l))
  {
  }

  lemma {:induction false} NextReduceLabel(job: Job, w: World, address: string) returns (l: R.ReduceLabel)
    requires R.Inv(ReduceConfigOf(job, w), w.redState) && !w.redState.phase.Done?
    ensures R.Enabled(ReduceConfigOf(job, w), w.redState, l)
    ensures R.Apply(ReduceConfigOf(job, w), w.redState, l).failed == w.redState.failed
    ensures l.Complete? ==> l.k == 0
  {
    l := NextReduce(w.redState, ReduceConfigOf(job, w), address);
    NextReduceEnabled(ReduceConfigOf(job, w), w.redState, address);
  }

  lemma {:induction false} ReduceNext(job: Job, w: World, address: string) returns (e: Event)
    requires Supported(job) && Inv(job, w) && Live(w) && w.stage.Reducing? && !w.redState.phase.Done?
    ensures GoodEvent(job, w, e)
  {
    var l := NextReduceLabel(job, w, address);
    if l.Complete? && w.redState.inFlight[0].jobid !in w.outs {
      e := WriteOutput(w.redState.inFlight[0]);
      WriteCloser(job, w);
    } else {
      e := ReduceStep(l);
      ReduceStepAllowed(job, w, l);
      ReduceStepCloser(job, w, l);
    }
  }

  lemma {:induction false} StageDrops(job: Job, w: World, e: Event)
    requires (e.StartReduce? || e.Finish?) && Enabled(job, w, e)
    ensures GoodEvent(job, w, e)
  {
  }

  lemma {:induction false} NextEvent(job: Job, w: World, address: string) returns (e: Event)
    requires Supported(job) && Inv(job, w) && Live(w) && HasWork(w) && !w.stage.Finished?
    ensures GoodEvent(job, w, e)
  {
    if w.stage.Mapping? {
      if w.mapState.phase.Done? {
        e := StartReduce;
        StageDrops(job, w, e);
      } else {
        e := MapNext(job, w, address);
      }
    } else if w.redState.phase.Done? {
      e := Finish;
      StageDrops(job, w, e);
    } else {
      e := ReduceNext(job, w, address);
    }
  }

  // ----- the main results -----

  function Last(run: seq<World>): World
    requires run != []
  {
    run[|run| - 1]
  }

  lemma {:induction false} ExtendRun(job: Job, run: seq<World>, e: Event)
    requires IsRun(job, run) && Enabled(job, Last(run), e)
    ensures IsRun(job, run + [Apply(job, Last(run), e)])
  {
    var longer := run + [Apply(job, Last(run), e)];
    forall i | 0 <= i < |longer| - 1 ensures Step(job, longer[i], longer[i + 1]) {
      if i < |run| - 1 {
        assert longer[i] == run[i] && longer[i + 1] == run[i + 1];
      }
    }
  }

  lemma {:induction false} WorkLeftNonNegative(job: Job, w: World)
    requires Inv(job, w)
    ensures WorkLeft(job, w) >= 0
  {
  }

  /** One more event, whoever takes it but for a takeover, leaves the leader in charge. */
  lemma {:induction false} SameLeaderStep(job: Job, run: seq<World>, e: Event)
    requires run != [] && !e.Failover? && Enabled(job, Last(run), e)
    ensures SameLeader(job, run + [Apply(job, Last(run), e)], |run| - 1, |run|)
  {
    var longer := run + [Apply(job, Last(run), e)];
    LeaderStepBy(job, Last(run), e);
    assert longer[|run| - 1] == Last(run) && longer[|run|] == Apply(job, Last(run), e);
  }

  lemma {:induction false} LeaderStepBy(job: Job, w: World, e: Event)
    requires !e.Failover? && Enabled(job, w, e)
    ensures LeaderStep(job, w, Apply(job, w, e))
  {
  }

  lemma {:induction false} SameLeaderInPrefix(job: Job, run: seq<World>, longer: seq<World>, i: nat, j: nat)
    requires run <= longer && i <= j < |run| && SameLeader(job, run, i, j)
    ensures SameLeader(job, longer, i, j)
  {
    assert forall k :: 0 <= k < |run| ==> longer[k] == run[k];
  }

  lemma {:induction false} SameLeaderFrom(job: Job, run: seq<World>, next: World, longer: seq<World>)
    requires run != [] && SameLeader(job, run + [next], |run| - 1, |run|)
    requires run + [next] <= longer && SameLeader(job, longer, |run|, |longer| - 1)
    ensures run <= longer && SameLeader(job, longer, |run| - 1, |longer| - 1)
  {
    PrefixTransitive(run, run + [next], longer);
    SameLeaderInPrefix(job, run + [next], longer, |run| - 1, |run|);
    SameLeaderJoined(job, longer, |run| - 1, |run|, |longer| - 1);
  }

  lemma {:induction false} SameLeaderJoined(job: Job, run: seq<World>, i: nat, j: nat, k: nat)
    requires i <= j <= k < |run| && SameLeader(job, run, i, j) && SameLeader(job, run, j, k)
    ensures SameLeader(job, run, i, k)
  {
  }

  /** A reachable world with work to do is never a dead end: the present leader can finish the job. */
  lemma {:induction false} LeaderCanFinish(job: Job, run: seq<World>, address: string) returns (longer: seq<World>)
    requires Supported(job) && job.shards != [] && IsRun(job, run) && HasWork(Last(run))
    ensures IsRun(job, longer) && run <= longer && Last(longer).stage.Finished?
    ensures SameLeader(job, longer, |run| - 1, |longer| - 1)
    decreases StageRank(Last(run)), WorkLeft(job, Last(run)), UploadsLeft(Last(run))
  {
    var w := Last(run);
    if w.stage.Finished? {
      longer := run;
    } else {
      LiveRun(job, run, |run| - 1);
      var e := NextEvent(job, w, address);
      var next := Apply(job, w, e);
      ExtendRun(job, run, e);
      WorkLeftNonNegative(job, w);
      longer := LeaderCanFinish(job, run + [next], address);
      SameLeaderStep(job, run, e);
      SameLeaderFrom(job, run, next, longer);
    }
  }

  ghost predicate CanFinish(job: Job, run: seq<World>)
    requires run != []
  {
    exists longer: seq<World> ::
      && IsRun(job, longer) && run <= longer && Last(longer).stage.Finished?
      && SameLeader(job, longer, |run| - 1, |longer| - 1)
  }

  lemma {:induction false} StillMapping(job: Job, w: World)
    requires Inv(job, w) && Live(w) && |w.recovered| == |job.shards|
    ensures w.stage.Mapping?
  {
  }

  lemma {:induction false} RecoveredKept(job: Job, w: World, w': World)
    requires LeaderStep(job, w, w')
    ensures w'.recovered == w.recovered
  {
  }

  lemma {:induction false} RecoveredStays(job: Job, run: seq<World>, i: nat, j: nat)
    requires i <= j < |run| && SameLeader(job, run, i, j)
    ensures run[j].recovered == run[i].recovered
    decreases j
  {
    if i < j {
      RecoveredStays(job, run, i, j - 1);
      assert LeaderStep(job, run[j - 1], run[j - 1 + 1]);
      RecoveredKept(job, run[j - 1], run[j]);
    }
  }

  /** A leader that took over a complete set of results never leaves its wait loop. */
  lemma {:induction false} StuckStays(job: Job, run: seq<World>, i: nat, j: nat)
    requires Supported(job) && job.shards != [] && IsRun(job, run) && i <= j < |run| && SameLeader(job, run, i, j)
    requires |run[i].recovered| == |job.shards|
    ensures run[j].stage.Mapping? && run[j].recovered == run[i].recovered
  {
    RecoveredStays(job, run, i, j);
    LiveRun(job, run, j);
    StillMapping(job, run[j]);
  }

  lemma {:induction false} RecoveredFits(job: Job, w: World)
    requires Inv(job, w)
    ensures |w.recovered| <= |job.shards| == |w.leader.shards|
  {
    M.AcceptedOnce(MapConfigOf(w), w.mapState);
  }

  lemma {:induction false} StuckCannotFinish(job: Job, run: seq<World>)
    requires Supported(job) && job.shards != [] && IsRun(job, run) && |Last(run).recovered| == |job.shards|
    ensures !CanFinish(job, run)
  {
    if CanFinish(job, run) {
      var k := |run| - 1;
      var longer: seq<World> :|
        && IsRun(job, longer) && run <= longer && Last(longer).stage.Finished?
        && SameLeader(job, longer, k, |longer| - 1);
      assert longer[k] == run[k];
      StuckStays(job, longer, k, |longer| - 1);
    }
  }

  /** Exactly when the present leader can finish: its checkpoint, if any, left a shard to map. */
  lemma {:induction false} CanFinishExactly(job: Job, run: seq<World>)
    requires Supported(job) && job.shards != [] && IsRun(job, run)
    ensures CanFinish(job, run) <==> |Last(run).recovered| < |job.shards|
  {
    InvRun(job, run, |run| - 1);
    RecoveredFits(job, Last(run));
    if |Last(run).recovered| < |job.shards| {
      var longer := LeaderCanFinish(job, run, "");
    } else {
      StuckCannotFinish(job, run);
    }
  }

  // ----- a leader can get stuck -----

  /** Some list holds the entries of a map in key order. */
  lemma {:induction false} ListExists(m: map<int, string>) returns (rs: seq<ReduceJobStatus>)
    ensures Lists(rs, m)
    decreases |m|
  {
    if m.Keys == {} {
      rs := [];
    } else {
      var k := GreatestExists(m.Keys);
      var front := m - {k};
      assert front.Keys == m.Keys - {k};
      rs := ListExists(front);
      ListsSnoc(rs, front, k, m[k]);
      assert front[k := m[k]] == m;
      rs := rs + [ReduceJobStatus(k, m[k])];
    }
  }

  lemma {:induction false} GreatestExists(s: set<int>) returns (k: int)
    requires s != {}
    ensures k in s && forall j :: j in s ==> j <= k
  {
    var negated := set j | j in s :: -j;
    assert forall j :: j in s ==> -j in negated;
    assert (forall x: int :: x !in s) ==> s == {};
    var least := LeastExists(negated);
    k := -least;
  }

  /** A first leader that is done mapping has logged every result, but for one step at most. */
  lemma {:induction false} DoneIsLogged(c: M.Config, s: M.State)
    requires M.Inv(c, s) && c.recovered == [] && s.phase.Done? && c.nmappers == c.nshards
    ensures s.replList + s.unlogged == s.accepted && |s.accepted| == c.nshards
  {
    M.AcceptedOnce(c, s);
    assert s.responseList == [] && s.accepted[0..] == s.accepted;
  }

  ghost predicate FirstLeaderMapped(job: Job, w: World) {
    var c := MapConfigOf(w);
    && M.Inv(c, w.mapState) && w.mapState.phase.Done?
    && c.recovered == [] && c.nmappers == c.nshards == |job.shards|
  }

  lemma {:induction false} FinishedIsMapped(job: Job, w: World)
    requires Supported(job) && Inv(job, w) && w.stage.Finished? && w.recovered == []
    ensures FirstLeaderMapped(job, w)
  {
  }

  lemma {:induction false} LogPending(job: Job, run: seq<World>) returns (longer: seq<World>)
    requires IsRun(job, run) && FirstLeaderMapped(job, Last(run))
    ensures IsRun(job, longer) && |Last(longer).mapState.replList| == |job.shards|
  {
    var w := Last(run);
    DoneIsLogged(MapConfigOf(w), w.mapState);
    longer := run;
    if w.mapState.unlogged != [] {
      ExtendRun(job, run, MapStep(M.Log));
      longer := run + [Apply(job, w, MapStep(M.Log))];
    }
  }

  /** Continues a run until a first leader has mapped and logged every shard. */
  lemma {:induction false} LogAll(job: Job, address: string) returns (run: seq<World>)
    requires Supported(job) && job.shards != []
    ensures IsRun(job, run) && |Last(run).mapState.replList| == |job.shards|
  {
    var start := [Init(job)];
    run := LeaderCanFinish(job, start, address);
    RecoveredStays(job, run, 0, |run| - 1);
    LiveRun(job, run, |run| - 1);
    FinishedIsMapped(job, Last(run));
    run := LogPending(job, run);
  }

  /** A checkpoint of any reachable leader can be pushed and taken over. */
  lemma {:induction false} PushAndTakeOver(job: Job, run: seq<World>) returns (longer: seq<World>)
    requires Supported(job) && IsRun(job, run)
    ensures IsRun(job, longer) && |Last(longer).recovered| == |Last(run).mapState.replList|
  {
    var w := Last(run);
    var rs := ListExists(w.redState.outputMap);
    var ck := CheckPointData(w.leader.rid, w.leader.nmappers, w.leader.nreducers, w.leader.container,
                             EncodeShards(w.leader.shards), EncodeLog(w.mapState.replList), rs);
    InvRun(job, run, |run| - 1);
    EncodedInRange(job.shards);
    assert Serialized(JobStateOf(w), w.mapState.replList, ck);
    ExtendRun(job, run, Push(ck));
    var pushed := run + [Apply(job, w, Push(ck))];
    ExtendRun(job, pushed, Failover(ck));
    longer := pushed + [Apply(job, Last(pushed), Failover(ck))];
  }

  /** For every supported job some run leads to a leader that can never finish. */
  lemma {:induction false} StuckIsReachable(job: Job) returns (run: seq<World>)
    requires Supported(job) && job.shards != []
    ensures IsRun(job, run) && |Last(run).recovered| == |job.shards| && !CanFinish(job, run)
  {
    var logged := LogAll(job, "");
    run := PushAndTakeOver(job, logged);
    StuckCannotFinish(job, run);
  }
}
