/**
 A whole job as one state machine: the leader of the moment runs map dispatch and then reduce
 dispatch, workers upload files at their own pace, the leader pushes checkpoints, and a new
 leader may take over from any checkpoint at any time. A worker that has been given a task may
 carry it out early, late, several times, or in parts, whatever became of the call.
 */
module Cluster {
  import opened Sequences
  import opened Status
  import opened Sharding
  import opened Intermediate
  import opened WordCount
  import opened Checkpoint
  import M = MapDispatch
  import R = ReduceDispatch

  /** What a leader knows about the job. */
  datatype Leader = Leader(rid: int, nmappers: int, nreducers: nat, container: string, shards: seq<FileShard>)

  /** The MapperInput message of invokeMapTaskAsync; offsets travel as int32. */
  datatype MapTask = MapTask(address: string, shardId: int, tuples: seq<ShardTuple>, nReducers: nat)

  datatype Stage = Mapping | Reducing | Finished

  datatype World = World(
    stage: Stage,
    leader: Leader,
    recovered: seq<M.MapperResult>,
    mapState: M.State,
    redState: R.ReduceState,
    mapTasks: set<MapTask>,         // every map task a worker was ever given
    reduceCalls: set<R.ReduceCall>, // every reduce task a worker was ever given
    store: map<string, string>,     // the intermediate container
    outs: map<int, string>,         // the output container: out_0, out_1, ...
    pushed: set<CheckPointData>)    // every checkpoint a follower was ever sent

  datatype Event =
    | MapStep(l: M.Label)
    | Upload(task: MapTask, piece: nat, r: nat)
    | StartReduce
    | ReduceStep(rl: R.ReduceLabel)
    | WriteOutput(call: R.ReduceCall)
    | Finish
    | Push(ck: CheckPointData)
    | Failover(ck: CheckPointData)

  function FirstLeader(job: Job): Leader {
    Leader(0, job.nmappers, job.nreducers, job.container, job.shards)
  }

  /** The blob names a worker reports for a call. */
  function MapReply(leader: Leader, call: M.Call): seq<string> {
    if 0 <= call.shardId < |leader.shards| then
      TaskBlobs(call.address, call.shardId, |leader.shards[call.shardId].sets|, leader.nreducers)
    else []
  }

  function MapConfig(leader: Leader, recovered: seq<M.MapperResult>): M.Config {
    M.Config(leader.nmappers, |leader.shards|, leader.container + "int", call => MapReply(leader, call), recovered)
  }

  function MapConfigOf(w: World): M.Config {
    MapConfig(w.leader, w.recovered)
  }

  function ReduceConfigOf(job: Job, w: World): R.ReduceConfig {
    R.ReduceConfig(w.leader.nreducers, job.nclients, w.mapState.intBlobs, w.leader.container + "out")
  }

  function TaskFor(leader: Leader, id: int, address: string): MapTask {
    var tuples := if 0 <= id < |leader.shards| then EncodePieces(leader.shards[id].sets) else [];
    MapTask(address, id, tuples, leader.nreducers)
  }

  function ReduceCallFor(c: R.ReduceConfig, jobid: int, address: string): R.ReduceCall {
    R.ReduceCall(jobid, ForReducer(c.intBlobs, jobid), address)
  }

  /** What serialize_data sees of the leader. */
  function JobStateOf(w: World): JobState {
    JobState(w.leader.rid, w.leader.nmappers, w.leader.nreducers, w.leader.container, w.leader.shards,
             w.mapState.resultMap, w.mapState.intBlobs, w.mapState.intContainer, w.redState.outputMap, false)
  }

  /** A master that has not led yet. */
  const FRESH_MASTER := JobState(0, 0, 0, "", [], map[], [], "", map[], false)

  predicate AllIn(store: map<string, string>, names: seq<string>) {
    forall i :: 0 <= i < |names| ==> names[i] in store
  }

  // ----- steps -----

  /** A worker answers with success after its files are in the container. */
  predicate MapStepEnabled(w: World, l: M.Label) {
    && M.Enabled(MapConfigOf(w), w.mapState, l)
    && (l.Complete? && l.status.SUCCESS? ==> AllIn(w.store, MapReply(w.leader, w.mapState.inFlight[l.k])))
  }

  /** A worker answers with success after its output file is in the container. */
  predicate ReduceStepEnabled(job: Job, w: World, l: R.ReduceLabel) {
    && w.stage.Reducing? && R.Enabled(ReduceConfigOf(job, w), w.redState, l)
    && (l.Complete? && l.status.SUCCESS? ==> w.redState.inFlight[l.k].jobid in w.outs)
  }

  predicate Enabled(job: Job, w: World, e: Event) {
    match e
    case MapStep(l) => MapStepEnabled(w, l)
    case Upload(task, piece, r) =>
      task in w.mapTasks && piece < |task.tuples| && r < task.nReducers && task.shardId >= 0 && InRange(task.tuples)
    case StartReduce => w.stage.Mapping? && w.mapState.phase.Done?
    case ReduceStep(l) => ReduceStepEnabled(job, w, l)
    case WriteOutput(call) => call in w.reduceCalls
    case Finish => w.stage.Reducing? && w.redState.phase.Done?
    case Push(ck) => Serialized(JobStateOf(w), w.mapState.replList, ck)
    case Failover(ck) => ck in w.pushed && AllInRange(ck.shardList)
  }

  function Apply(job: Job, w: World, e: Event): World
    requires Enabled(job, w, e)
  {
    match e
    case MapStep(l) =>
      w.(mapState := M.Apply(MapConfigOf(w), w.mapState, l),
         mapTasks := w.mapTasks + if l.Dispatch? then {TaskFor(w.leader, w.mapState.jobQ[0], l.address)} else {})
    case Upload(task, piece, r) =>
      w.(store := w.store[BlobName(task.address, task.shardId, piece, r) := UploadedText(job, task, piece, r)])
    case StartReduce => w.(stage := Reducing, redState := R.Start(ReduceConfigOf(job, w)))
    case ReduceStep(l) =>
      var c := ReduceConfigOf(job, w);
      w.(redState := R.Apply(c, w.redState, l),
         reduceCalls := w.reduceCalls
                        + if l.Dispatch? then {ReduceCallFor(c, w.redState.jobQ[0], l.address)} else {})
    case WriteOutput(call) => w.(outs := w.outs[call.jobid := OutText(Gather(w.store, call.blobs))])
    case Finish => w.(stage := Finished)
    case Push(ck) => w.(pushed := w.pushed + {ck})
    case Failover(ck) => TakeOver(job, w, ck)
  }

  /** The file of one piece, from the message the worker received. */
  function UploadedText(job: Job, task: MapTask, piece: nat, r: nat): string
    requires piece < |task.tuples| && r < task.nReducers && InRange(task.tuples)
  {
    PieceContent(job.(nreducers := task.nReducers), DecodePiece(task.tuples[piece]), r)
  }

  /** deserialize_data and processReplicatedData on a follower that becomes the leader. */
  function TakeOver(job: Job, w: World, ck: CheckPointData): World
    requires AllInRange(ck.shardList)
  {
    var d := Deserialized(FRESH_MASTER, ck);
    var leader := Leader(d.rid, d.nmappers, if d.nreducers >= 0 then d.nreducers else 0, d.containername, d.shards);
    var recovered := DecodeLog(ck.jobList);
    var begun := w.(stage := Mapping, leader := leader, recovered := recovered,
                    mapState := M.Start(MapConfig(leader, recovered)));
    begun.(redState := R.Start(ReduceConfigOf(job, begun)).(outputMap := d.outputMap))
  }

  ghost predicate Step(job: Job, w: World, w': World) {
    exists e :: Enabled(job, w, e) && w' == Apply(job, w, e)
  }

  function Init(job: Job): World {
    var leader := FirstLeader(job);
    World(Mapping, leader, [], M.Start(MapConfig(leader, [])), R.Start(R.ReduceConfig(0, job.nclients, [], "")),
          {}, {}, map[], map[], {})
  }

  ghost predicate IsRun(job: Job, run: seq<World>) {
    && run != [] && run[0] == Init(job)
    && forall i :: 0 <= i < |run| - 1 ==> Step(job, run[i], run[i + 1])
  }

  /** Jobs whose input, offsets and shard count are within what the code can handle. */
  ghost predicate Supported(job: Job) {
    ValidJob(job) && SmallOffsets(job.shards) && job.nmappers == |job.shards|
  }

  // ----- results -----

  /** What a worker at some address reports for a shard. */
  function TaskResult(job: Job, address: string, id: int): M.MapperResult {
    M.MapperResult(SUCCESS, id, job.container + "int", MapReply(FirstLeader(job), M.Call(id, address)))
  }

  ghost predicate Made(job: Job, r: M.MapperResult) {
    0 <= r.shardId < |job.shards| && exists address: string :: r == TaskResult(job, address, r.shardId)
  }

  ghost predicate AllMade(job: Job, rs: seq<M.MapperResult>) {
    forall i :: 0 <= i < |rs| ==> Made(job, rs[i])
  }

  predicate Backed(store: map<string, string>, rs: seq<M.MapperResult>) {
    forall i :: 0 <= i < |rs| ==> AllIn(store, rs[i].blobList)
  }

  lemma {:induction false} GenuineIsMade(job: Job, recovered: seq<M.MapperResult>, r: M.MapperResult)
    requires 0 <= r.shardId < |job.shards| && M.Genuine(MapConfig(FirstLeader(job), recovered), r)
    ensures Made(job, r)
  {
    var c := MapConfig(FirstLeader(job), recovered);
    var address: string :| r == M.Success(c, M.Call(r.shardId, address));
    assert r == TaskResult(job, address, r.shardId);
  }

  lemma {:induction false} MadeIsGenuine(job: Job, recovered: seq<M.MapperResult>, r: M.MapperResult)
    requires Made(job, r)
    ensures M.Genuine(MapConfig(FirstLeader(job), recovered), r)
  {
    var c := MapConfig(FirstLeader(job), recovered);
    var address: string :| r == TaskResult(job, address, r.shardId);
    assert r == M.Success(c, M.Call(r.shardId, address));
  }

  // ----- what every step keeps -----

  predicate Sent(job: Job, t: MapTask) {
    && 0 <= t.shardId < |job.shards| && t.nReducers == job.nreducers
    && t.tuples == EncodePieces(job.shards[t.shardId].sets)
  }

  predicate TasksGood(job: Job, tasks: set<MapTask>) {
    forall t :: t in tasks ==> Sent(job, t)
  }

  predicate InJob(job: Job, s: int, p: int, r: int) {
    0 <= s < |job.shards| && 0 <= p < |job.shards[s].sets| && 0 <= r < job.nreducers
  }

  /** Every intermediate blob of the job holds the one right content, whoever uploaded it. */
  ghost predicate StoreGood(job: Job, store: map<string, string>) {
    forall a: string, s: nat, p: nat, r: nat :: InJob(job, s, p, r) && BlobName(a, s, p, r) in store ==>
      store[BlobName(a, s, p, r)] == PieceContent(job, job.shards[s].sets[p], r)
  }

  predicate ResultsBacked(w: World) {
    Backed(w.store, w.mapState.accepted) && Backed(w.store, M.Successes(w.mapState.responseList))
  }

  /** Results that a new leader can build on: right, at most one a shard, and with their blobs in place. */
  ghost predicate Usable(job: Job, store: map<string, string>, log: seq<M.MapperResult>) {
    AllMade(job, log) && Distinct(M.ResultIds(log)) && Backed(store, log)
  }

  ghost predicate CheckpointGood(job: Job, store: map<string, string>, ck: CheckPointData) {
    && ck.reqId == 0 && ck.nMappers == job.nmappers && ck.nReducers == job.nreducers && ck.inContainer == job.container
    && ck.shardList == EncodeShards(job.shards)
    && Usable(job, store, DecodeLog(ck.jobList))
  }

  ghost predicate CheckpointsGood(job: Job, w: World) {
    forall ck :: ck in w.pushed ==> CheckpointGood(job, w.store, ck)
  }

  /** One result for every shard. */
  ghost predicate Complete(job: Job, store: map<string, string>, acc: seq<M.MapperResult>) {
    AllMade(job, acc) && Backed(store, acc) && multiset(M.ResultIds(acc)) == multiset(Range(|job.shards|))
  }

  /** A reducer is given its blobs of a complete set of results. */
  ghost predicate CallGood(job: Job, store: map<string, string>, call: R.ReduceCall) {
    && 0 <= call.jobid < job.nreducers
    && exists acc :: Complete(job, store, acc) && call.blobs == ForReducer(M.BlobsOf(acc), call.jobid)
  }

  ghost predicate CallsGood(job: Job, w: World) {
    forall call :: call in w.reduceCalls ==> CallGood(job, w.store, call)
  }

  predicate OutputsGood(job: Job, outs: map<int, string>)
    requires job.nreducers > 0
  {
    forall r :: r in outs ==> 0 <= r < job.nreducers && outs[r] == ExpectedOut(job, r)
  }

  predicate Written(outs: map<int, string>, rs: seq<R.ReduceResult>) {
    forall i :: 0 <= i < |rs| && rs[i].status.SUCCESS? ==> rs[i].jobid in outs
  }

  predicate StageGood(job: Job, w: World) {
    !w.stage.Mapping? ==>
      && w.mapState.phase.Done?
      && R.Inv(ReduceConfigOf(job, w), w.redState) && Written(w.outs, w.redState.responseList)
      && (w.stage.Finished? ==> w.redState.phase.Done?)
  }

  ghost predicate MapGood(job: Job, w: World) {
    w.leader == FirstLeader(job) && M.ValidConfig(MapConfigOf(w)) && M.Inv(MapConfigOf(w), w.mapState)
  }

  ghost predicate Inv(job: Job, w: World) {
    && job.nreducers > 0
    && MapGood(job, w) && TasksGood(job, w.mapTasks) && StoreGood(job, w.store) && ResultsBacked(w)
    && CheckpointsGood(job, w) && CallsGood(job, w) && OutputsGood(job, w.outs) && StageGood(job, w)
  }

  lemma {:induction false} InvInit(job: Job)
    requires Supported(job)
    ensures Inv(job, Init(job))
  {
    MapGoodInit(job);
  }

  lemma {:induction false} MapGoodInit(job: Job)
    ensures MapGood(job, Init(job)) && ResultsBacked(Init(job))
  {
    M.InvStart(MapConfigOf(Init(job)));
  }

  // ----- the store only grows -----

  lemma {:induction false} BackedGrows(store: map<string, string>, store': map<string, string>, rs: seq<M.MapperResult>)
    requires store.Keys <= store'.Keys && Backed(store, rs)
    ensures Backed(store', rs)
  {
    forall i | 0 <= i < |rs| ensures AllIn(store', rs[i].blobList) {
      assert AllIn(store, rs[i].blobList);
    }
  }

  lemma {:induction false} CheckpointsGrow(job: Job, w: World, w': World)
    requires w.store.Keys <= w'.store.Keys && w'.pushed <= w.pushed && CheckpointsGood(job, w)
    ensures CheckpointsGood(job, w')
  {
    forall ck | ck in w'.pushed ensures CheckpointGood(job, w'.store, ck) {
      BackedGrows(w.store, w'.store, DecodeLog(ck.jobList));
    }
  }

  lemma {:induction false} CallsGrow(job: Job, w: World, w': World)
    requires w.store.Keys <= w'.store.Keys && w'.reduceCalls <= w.reduceCalls && CallsGood(job, w)
    ensures CallsGood(job, w')
  {
    forall call | call in w'.reduceCalls ensures CallGood(job, w'.store, call) {
      var acc :| Complete(job, w.store, acc) && call.blobs == ForReducer(M.BlobsOf(acc), call.jobid);
      BackedGrows(w.store, w'.store, acc);
      assert Complete(job, w'.store, acc);
    }
  }

  // ----- map steps -----

  lemma {:induction false} CompleteKeepsBacked(w: World, l: M.Label)
    requires ResultsBacked(w) && MapStepEnabled(w, l) && l.Complete?
    ensures var s' := M.Apply(MapConfigOf(w), w.mapState, l);
            Backed(w.store, s'.accepted) && Backed(w.store, M.Successes(s'.responseList))
  {
    var s, s' := w.mapState, M.Apply(MapConfigOf(w), w.mapState, l);
    M.SuccessesSnoc(s.responseList, s'.responseList[|s.responseList|]);
  }

  lemma {:induction false} ProcessKeepsBacked(store: map<string, string>, s: M.State)
    requires Backed(store, s.accepted) && Backed(store, M.Successes(s.responseList)) && s.responseList != []
    ensures var s' := M.ProcessFirst(s); Backed(store, s'.accepted) && Backed(store, M.Successes(s'.responseList))
  {
    M.FirstSuccess(s.responseList);
    if s.responseList[0].status.SUCCESS? {
      BackedSplit(store, M.Successes(s.responseList));
    }
  }

  lemma {:induction false} MapStepKeepsBacked(w: World, l: M.Label)
    requires ResultsBacked(w) && MapStepEnabled(w, l)
    ensures var s' := M.Apply(MapConfigOf(w), w.mapState, l);
            Backed(w.store, s'.accepted) && Backed(w.store, M.Successes(s'.responseList))
  {
    match l
    case Complete(_, _) => CompleteKeepsBacked(w, l);
    case Process => ProcessKeepsBacked(w.store, w.mapState);
    case Dispatch(_) =>
    case EndDispatch =>
    case Wake =>
    case EndPass =>
    case Log =>
  }

  lemma {:induction false} BackedSplit(store: map<string, string>, rs: seq<M.MapperResult>)
    requires Backed(store, rs) && rs != []
    ensures AllIn(store, rs[0].blobList) && Backed(store, rs[1..])
  {
  }

  lemma {:induction false} MapStepKeepsTasks(job: Job, w: World, l: M.Label)
    requires Inv(job, w) && Enabled(job, w, MapStep(l))
    ensures TasksGood(job, Apply(job, w, MapStep(l)).mapTasks)
  {
    if l.Dispatch? {
      var ids := w.mapState.jobQ;
      RangeOnce(|job.shards|, ids[0]);
      assert ids[0] in multiset(ids);
      assert Sent(job, TaskFor(w.leader, ids[0], l.address));
    }
  }

  lemma {:induction false} MapStepKeepsStage(job: Job, w: World, l: M.Label)
    requires Inv(job, w) && Enabled(job, w, MapStep(l))
    ensures StageGood(job, Apply(job, w, MapStep(l)))
  {
  }

  lemma {:induction false} InvMapStep(job: Job, w: World, l: M.Label)
    requires Supported(job) && Inv(job, w) && Enabled(job, w, MapStep(l))
    ensures Inv(job, Apply(job, w, MapStep(l)))
  {
    var w' := Apply(job, w, MapStep(l));
    M.InvStep(MapConfigOf(w), w.mapState, l);
    MapStepKeepsBacked(w, l);
    MapStepKeepsTasks(job, w, l);
    MapStepKeepsStage(job, w, l);
    CheckpointsGrow(job, w, w');
    CallsGrow(job, w, w');
  }

  // ----- uploads -----

  lemma {:induction false} UploadedRight(job: Job, t: MapTask, piece: nat, r: nat)
    requires Supported(job) && Sent(job, t) && piece < |t.tuples| && r < t.nReducers && InRange(t.tuples)
    ensures UploadedText(job, t, piece, r) == PieceContent(job, job.shards[t.shardId].sets[piece], r)
  {
    var x := job.shards[t.shardId].sets[piece];
    OffsetSurvives(x.begin);
    OffsetSurvives(x.end);
    assert DecodePiece(t.tuples[piece]) == x;
    assert job.(nreducers := t.nReducers) == job;
  }

  lemma {:induction false} UploadKeepsStore(job: Job, w: World, e: Event)
    requires Supported(job) && StoreGood(job, w.store) && TasksGood(job, w.mapTasks) && e.Upload? && Enabled(job, w, e)
    ensures StoreGood(job, Apply(job, w, e).store)
  {
    var t := e.task;
    var name := BlobName(t.address, t.shardId, e.piece, e.r);
    var store' := Apply(job, w, e).store;
    forall a: string, s: nat, p: nat, r: nat | InJob(job, s, p, r) && BlobName(a, s, p, r) in store'
      ensures store'[BlobName(a, s, p, r)] == PieceContent(job, job.shards[s].sets[p], r)
    {
      if BlobName(a, s, p, r) == name {
        BlobNameInjective(a, s, p, r, t.address, t.shardId, e.piece, e.r);
        UploadedRight(job, t, e.piece, e.r);
      } else {
        assert store'[BlobName(a, s, p, r)] == w.store[BlobName(a, s, p, r)];
      }
    }
  }

  lemma {:induction false} InvUpload(job: Job, w: World, e: Event)
    requires Supported(job) && Inv(job, w) && e.Upload? && Enabled(job, w, e)
    ensures Inv(job, Apply(job, w, e))
  {
    var w' := Apply(job, w, e);
    UploadKeepsStore(job, w, e);
    BackedGrows(w.store, w'.store, w.mapState.accepted);
    BackedGrows(w.store, w'.store, M.Successes(w.mapState.responseList));
    CheckpointsGrow(job, w, w');
    CallsGrow(job, w, w');
  }

  // ----- from mapping to reducing -----

  lemma {:induction false} AcceptedMade(job: Job, w: World)
    requires Inv(job, w)
    ensures AllMade(job, w.mapState.accepted)
  {
    var s := w.mapState;
    M.AcceptedOnce(MapConfigOf(w), s);
    forall i | 0 <= i < |s.accepted| ensures Made(job, s.accepted[i]) {
      GenuineIsMade(job, w.recovered, s.accepted[i]);
    }
  }

  lemma {:induction false} NothingLeft(c: M.Config, s: M.State)
    requires M.Conserved(c, s) && |s.accepted| == c.nshards
    ensures multiset(M.ResultIds(s.accepted)) == multiset(Range(c.nshards))
  {
    M.AcceptedOnce(c, s);
    assert s.jobQ == [] && M.CallIds(s.inFlight) == [] && M.ResultIds(s.responseList) == [];
  }

  /** Once map dispatch has left its loop, exactly one result of every shard has been accepted. */
  lemma {:induction false} MappedIsComplete(job: Job, w: World)
    requires Supported(job) && Inv(job, w) && w.mapState.phase.Done?
    ensures Complete(job, w.store, w.mapState.accepted) && w.mapState.intBlobs == M.BlobsOf(w.mapState.accepted)
  {
    AcceptedMade(job, w);
    NothingLeft(MapConfigOf(w), w.mapState);
  }

  lemma {:induction false} InvStartReduce(job: Job, w: World)
    requires Supported(job) && Inv(job, w) && Enabled(job, w, StartReduce)
    ensures Inv(job, Apply(job, w, StartReduce))
  {
    var w' := Apply(job, w, StartReduce);
    R.InvStart(ReduceConfigOf(job, w'));
    CheckpointsGrow(job, w, w');
    CallsGrow(job, w, w');
  }

  // ----- reduce steps -----

  lemma {:induction false} QueuedJob(c: R.ReduceConfig, s: R.ReduceState, i: nat)
    requires R.Conserved(c, s) && i < |s.jobQ|
    ensures 0 <= s.jobQ[i] < c.nreducers
  {
    RangeOnce(c.nreducers, s.jobQ[i]);
    assert s.jobQ[i] in multiset(s.jobQ);
  }

  lemma {:induction false} ReduceStepKeepsCalls(job: Job, w: World, l: R.ReduceLabel)
    requires Supported(job) && Inv(job, w) && Enabled(job, w, ReduceStep(l))
    ensures CallsGood(job, Apply(job, w, ReduceStep(l)))
  {
    var w' := Apply(job, w, ReduceStep(l));
    forall call | call in w'.reduceCalls ensures CallGood(job, w'.store, call) {
      if call !in w.reduceCalls {
        MappedIsComplete(job, w);
        QueuedJob(ReduceConfigOf(job, w), w.redState, 0);
        assert Complete(job, w'.store, w.mapState.accepted);
      }
    }
  }

  lemma {:induction false} ReduceStepKeepsWritten(c: R.ReduceConfig, s: R.ReduceState, l: R.ReduceLabel,
      outs: map<int, string>)
    requires R.Enabled(c, s, l) && Written(outs, s.responseList)
    requires l.Complete? && l.status.SUCCESS? ==> s.inFlight[l.k].jobid in outs
    ensures Written(outs, R.Apply(c, s, l).responseList)
  {
  }

  lemma {:induction false} ReduceStepKeepsStage(job: Job, w: World, l: R.ReduceLabel)
    requires Inv(job, w) && Enabled(job, w, ReduceStep(l))
    ensures StageGood(job, Apply(job, w, ReduceStep(l)))
  {
    R.InvStep(ReduceConfigOf(job, w), w.redState, l);
    ReduceStepKeepsWritten(ReduceConfigOf(job, w), w.redState, l, w.outs);
  }

  lemma {:induction false} InvReduceStep(job: Job, w: World, l: R.ReduceLabel)
    requires Supported(job) && Inv(job, w) && Enabled(job, w, ReduceStep(l))
    ensures Inv(job, Apply(job, w, ReduceStep(l)))
  {
    ReduceStepKeepsCalls(job, w, l);
    ReduceStepKeepsStage(job, w, l);
    CheckpointsGrow(job, w, Apply(job, w, ReduceStep(l)));
  }

  // ----- what a reducer reads -----

  lemma {:induction false} AllInConcat(store: map<string, string>, a: seq<string>, b: seq<string>)
    ensures AllIn(store, a + b) <==> AllIn(store, a) && AllIn(store, b)
  {
    if AllIn(store, a + b) {
      assert forall i :: 0 <= i < |a| ==> a[i] == (a + b)[i];
      assert forall i :: 0 <= i < |b| ==> b[i] == (a + b)[|a| + i];
    }
  }

  /** A task's blobs in the container include the one of any piece and reducer. */
  lemma {:induction false} TaskBlobIn(store: map<string, string>, a: string, s: nat, pieces: nat, n: nat,
      p: nat, r: nat)
    requires AllIn(store, TaskBlobs(a, s, pieces, n)) && p < pieces && r < n
    ensures BlobName(a, s, p, r) in store
  {
    AllInConcat(store, TaskBlobs(a, s, pieces - 1, n), PieceBlobs(a, s, pieces - 1, n));
    if p < pieces - 1 {
      TaskBlobIn(store, a, s, pieces - 1, n, p, r);
    } else {
      assert PieceBlobs(a, s, p, n)[r] == BlobName(a, s, p, r);
    }
  }

  lemma {:induction false} GatherTask(job: Job, store: map<string, string>, a: string, s: nat, pieces: nat, r: nat)
    requires StoreGood(job, store) && s < |job.shards| && pieces <= |job.shards[s].sets| && r < job.nreducers
    requires forall p :: 0 <= p < pieces ==> BlobName(a, s, p, r) in store
    ensures Gather(store, TaskBlobsFor(a, s, pieces, r)) == TaskText(job, job.shards[s].sets, pieces, r)
  {
    if pieces > 0 {
      var p := pieces - 1;
      GatherTask(job, store, a, s, p, r);
      var last := [BlobName(a, s, p, r)];
      GatherConcat(store, TaskBlobsFor(a, s, p, r), last);
      assert Gather(store, last) == Fetch(store, last[0]) + Gather(store, last[1..]);
      assert InJob(job, s, p, r);
    }
  }

  /** Of one result, a reducer reads exactly its share of the shard. */
  lemma {:induction false} GatherResult(job: Job, store: map<string, string>, res: M.MapperResult, r: nat)
    requires StoreGood(job, store) && Made(job, res) && AllIn(store, res.blobList) && r < job.nreducers
    ensures Gather(store, ForReducer(res.blobList, r)) == ShardText(job, res.shardId, r)
  {
    var address: string :| res == TaskResult(job, address, res.shardId);
    var pieces := |job.shards[res.shardId].sets|;
    TaskBlobsForReducer(address, res.shardId, pieces, job.nreducers, r);
    forall p | 0 <= p < pieces ensures BlobName(address, res.shardId, p, r) in store {
      TaskBlobIn(store, address, res.shardId, pieces, job.nreducers, p, r);
    }
    GatherTask(job, store, address, res.shardId, pieces, r);
  }

  lemma {:induction false} GatherResults(job: Job, store: map<string, string>, acc: seq<M.MapperResult>, r: nat)
    requires StoreGood(job, store) && AllMade(job, acc) && Backed(store, acc) && r < job.nreducers
    ensures Gather(store, ForReducer(M.BlobsOf(acc), r)) == ShardsText(job, M.ResultIds(acc), r)
  {
    if acc != [] {
      var rest := acc[1..];
      GatherResults(job, store, rest, r);
      GatherResult(job, store, acc[0], r);
      ForReducerConcat(acc[0].blobList, M.BlobsOf(rest), r);
      GatherConcat(store, ForReducer(acc[0].blobList, r), ForReducer(M.BlobsOf(rest), r));
      assert M.ResultIds(acc)[1..] == M.ResultIds(rest);
    }
  }

  /** Whoever runs a reduce task, and whenever, writes the same file. */
  lemma {:induction false} CallWritesExpected(job: Job, store: map<string, string>, call: R.ReduceCall)
    requires Supported(job) && StoreGood(job, store) && CallGood(job, store, call)
    ensures OutText(Gather(store, call.blobs)) == ExpectedOut(job, call.jobid)
  {
    var acc :| Complete(job, store, acc) && call.blobs == ForReducer(M.BlobsOf(acc), call.jobid);
    GatherResults(job, store, acc, call.jobid);
    ShardOrderIrrelevant(job, M.ResultIds(acc), Range(|job.shards|), call.jobid);
  }

  lemma {:induction false} OutputKeepsStage(job: Job, w: World, e: Event)
    requires StageGood(job, w) && e.WriteOutput? && Enabled(job, w, e)
    ensures StageGood(job, Apply(job, w, e))
  {
  }

  lemma {:induction false} WriteKeepsOutputs(job: Job, w: World, call: R.ReduceCall)
    requires Supported(job) && StoreGood(job, w.store) && CallGood(job, w.store, call) && OutputsGood(job, w.outs)
    ensures OutputsGood(job, w.outs[call.jobid := OutText(Gather(w.store, call.blobs))])
  {
    CallWritesExpected(job, w.store, call);
    OutputsWith(job, w.outs, call.jobid, OutText(Gather(w.store, call.blobs)));
  }

  lemma {:induction false} OutputsWith(job: Job, outs: map<int, string>, r: int, text: string)
    requires job.nreducers > 0 && OutputsGood(job, outs) && 0 <= r < job.nreducers && text == ExpectedOut(job, r)
    ensures OutputsGood(job, outs[r := text])
  {
  }

  lemma {:induction false} InvWriteOutput(job: Job, w: World, e: Event)
    requires Supported(job) && Inv(job, w) && e.WriteOutput? && Enabled(job, w, e)
    ensures Inv(job, Apply(job, w, e))
  {
    WriteKeepsOutputs(job, w, e.call);
    CheckpointsGrow(job, w, Apply(job, w, e));
    CallsGrow(job, w, Apply(job, w, e));
    OutputKeepsStage(job, w, e);
  }

  // ----- checkpoints -----

  lemma {:induction false} LogBacked(job: Job, w: World)
    requires Inv(job, w)
    ensures Backed(w.store, w.mapState.replList)
  {
    var s := w.mapState;
    forall i | 0 <= i < |s.replList| ensures AllIn(w.store, s.replList[i].blobList) {
      M.LoggedGenuine(MapConfigOf(w), s, i);
    }
  }

  lemma {:induction false} LogIsMade(job: Job, w: World)
    requires Supported(job) && MapGood(job, w)
    ensures AllMade(job, w.mapState.replList) && Distinct(M.ResultIds(w.mapState.replList))
    ensures forall i :: 0 <= i < |w.mapState.replList| ==> w.mapState.replList[i].status.SUCCESS?
  {
    var c, log := MapConfigOf(w), w.mapState.replList;
    M.LogIsDuplicateFree(c, w.mapState);
    assert c.(recovered := log) == MapConfig(w.leader, log) by {
      assert c.reply == MapConfig(w.leader, log).reply;
    }
    forall i | 0 <= i < |log| ensures Made(job, log[i]) && log[i].status.SUCCESS? {
      GenuineIsMade(job, log, log[i]);
    }
  }

  lemma {:induction false} PushedLog(w: World, ck: CheckPointData)
    requires Serialized(JobStateOf(w), w.mapState.replList, ck)
    requires forall i :: 0 <= i < |w.mapState.replList| ==> w.mapState.replList[i].status.SUCCESS?
    ensures DecodeLog(ck.jobList) == w.mapState.replList
  {
  }

  /** What the leader pushes, a follower can build on. */
  lemma {:induction false} PushedIsGood(job: Job, w: World, ck: CheckPointData)
    requires Supported(job) && Inv(job, w) && Enabled(job, w, Push(ck))
    ensures CheckpointGood(job, w.store, ck)
    ensures DecodeLog(ck.jobList) == w.mapState.replList && DecodeOutputs(ck.reduceJobList) == w.redState.outputMap
  {
    PushedOutputs(w, ck);
    LogIsMade(job, w);
    PushedLog(w, ck);
    LogBacked(job, w);
  }

  lemma {:induction false} PushedOutputs(w: World, ck: CheckPointData)
    requires Serialized(JobStateOf(w), w.mapState.replList, ck)
    ensures DecodeOutputs(ck.reduceJobList) == w.redState.outputMap
  {
    OutputsSurvive(ck.reduceJobList, w.redState.outputMap);
  }

  lemma {:induction false} InvPush(job: Job, w: World, e: Event)
    requires Supported(job) && Inv(job, w) && e.Push? && Enabled(job, w, e)
    ensures Inv(job, Apply(job, w, e))
  {
    PushedIsGood(job, w, e.ck);
    CallsGrow(job, w, Apply(job, w, e));
  }

  // ----- failover -----

  /** The new leader knows the job as the first one did, and its result set is the checkpoint's log. */
  lemma {:induction false} TakesOver(job: Job, w: World, ck: CheckPointData)
    requires Supported(job) && CheckpointGood(job, w.store, ck) && AllInRange(ck.shardList)
    ensures var w' := TakeOver(job, w, ck);
            && w'.stage.Mapping? && w'.leader == FirstLeader(job) && w'.recovered == DecodeLog(ck.jobList)
            && w'.redState.outputMap == DecodeOutputs(ck.reduceJobList)
            && M.ValidConfig(MapConfigOf(w'))
  {
    EncodedInRange(job.shards);
    var w' := TakeOver(job, w, ck);
    var log := DecodeLog(ck.jobList);
    assert w'.leader == FirstLeader(job);
    forall i | 0 <= i < |log| ensures M.Genuine(MapConfigOf(w'), log[i]) {
      MadeIsGenuine(job, log, log[i]);
    }
  }

  /** The fields deserialize_data leaves behind are the ones map dispatch starts from. */
  lemma {:induction false} StartsFromCheckpoint(job: Job, w: World, ck: CheckPointData)
    requires AllInRange(ck.shardList)
    ensures var d, s := Deserialized(FRESH_MASTER, ck), TakeOver(job, w, ck).mapState;
            && s.resultMap == d.resultMap && s.intBlobs == d.intBlobs && s.intContainer == d.intContainer
            && s.jobQ == M.Missing(|d.shards|, d.resultMap) && s.replList == []
  {
  }

  lemma {:induction false} InvFailover(job: Job, w: World, e: Event)
    requires Supported(job) && Inv(job, w) && e.Failover? && Enabled(job, w, e)
    ensures Inv(job, Apply(job, w, e))
  {
    var w' := Apply(job, w, e);
    TakesOver(job, w, e.ck);
    M.InvStart(MapConfigOf(w'));
    assert w'.mapState.accepted == DecodeLog(e.ck.jobList);
    CheckpointsGrow(job, w, w');
    CallsGrow(job, w, w');
  }

  lemma {:induction false} SentInRange(job: Job, t: MapTask)
    requires Supported(job) && Sent(job, t)
    ensures InRange(t.tuples)
  {
    EncodedInRange(job.shards);
    assert EncodeShards(job.shards)[t.shardId].stuples == t.tuples;
  }

  /**
   Workers, failures and takeovers are not restricted: any piece of any task ever given may be
   uploaded, any reduce call may be carried out, any call may fail or time out, and any
   checkpoint ever pushed may be taken over, at any time.
   */
  lemma {:induction false} NothingIsRuledOut(job: Job, w: World)
    requires Supported(job) && MapGood(job, w) && TasksGood(job, w.mapTasks)
    requires CheckpointsGood(job, w) && StageGood(job, w)
    ensures MayUpload(job, w) && MayWrite(job, w) && MayTakeOver(job, w) && MayFail(job, w)
  {
    UploadsAllowed(job, w);
    WritesAllowed(job, w);
    TakeoversAllowed(job, w);
    CallsAreCounted(job, w);
    FailuresAllowed(job, w);
  }

  lemma {:induction false} CallsAreCounted(job: Job, w: World)
    requires MapGood(job, w) && StageGood(job, w)
    ensures M.Counted(MapConfigOf(w), w.mapState)
    ensures w.stage.Reducing? ==> R.Counted(ReduceConfigOf(job, w), w.redState)
  {
  }

  ghost predicate MayWrite(job: Job, w: World) {
    forall call :: call in w.reduceCalls ==> Enabled(job, w, WriteOutput(call))
  }

  lemma {:induction false} WritesAllowed(job: Job, w: World)
    ensures MayWrite(job, w)
  {
  }

  ghost predicate MayUpload(job: Job, w: World) {
    forall t, p: nat, r: nat :: t in w.mapTasks && p < |t.tuples| && r < t.nReducers ==>
      Enabled(job, w, Upload(t, p, r))
  }

  ghost predicate MayTakeOver(job: Job, w: World) {
    forall ck :: ck in w.pushed ==> Enabled(job, w, Failover(ck))
  }

  ghost predicate MayFail(job: Job, w: World) {
    && (forall k: nat, status :: k < |w.mapState.inFlight| && w.mapState.unlogged == [] && status != SUCCESS ==>
          Enabled(job, w, MapStep(M.Complete(k, status))))
    && forall k: nat, status :: w.stage.Reducing? && k < |w.redState.inFlight| && status != SUCCESS ==>
          Enabled(job, w, ReduceStep(R.Complete(k, status)))
  }

  lemma {:induction false} UploadsAllowed(job: Job, w: World)
    requires Supported(job) && TasksGood(job, w.mapTasks)
    ensures MayUpload(job, w)
  {
    forall t, p: nat, r: nat | t in w.mapTasks && p < |t.tuples| && r < t.nReducers
      ensures Enabled(job, w, Upload(t, p, r))
    {
      SentInRange(job, t);
    }
  }

  lemma {:induction false} TakeoversAllowed(job: Job, w: World)
    requires Supported(job) && CheckpointsGood(job, w)
    ensures MayTakeOver(job, w)
  {
    EncodedInRange(job.shards);
  }

  lemma {:induction false} FailuresAllowed(job: Job, w: World)
    requires M.Counted(MapConfigOf(w), w.mapState)
    requires w.stage.Reducing? ==> R.Counted(ReduceConfigOf(job, w), w.redState)
    ensures MayFail(job, w)
  {
  }

  // ----- all steps -----

  lemma {:induction false} InvFinish(job: Job, w: World)
    requires Supported(job) && Inv(job, w) && Enabled(job, w, Finish)
    ensures Inv(job, Apply(job, w, Finish))
  {
    CheckpointsGrow(job, w, Apply(job, w, Finish));
    CallsGrow(job, w, Apply(job, w, Finish));
  }

  lemma {:induction false} InvStep(job: Job, w: World, e: Event)
    requires Supported(job) && Inv(job, w) && Enabled(job, w, e)
    ensures Inv(job, Apply(job, w, e))
  {
    match e
    case MapStep(l) => InvMapStep(job, w, l);
    case Upload(_, _, _) => InvUpload(job, w, e);
    case StartReduce => InvStartReduce(job, w);
    case ReduceStep(l) => InvReduceStep(job, w, l);
    case WriteOutput(_) => InvWriteOutput(job, w, e);
    case Finish => InvFinish(job, w);
    case Push(_) => InvPush(job, w, e);
    case Failover(_) => InvFailover(job, w, e);
  }

  lemma {:induction false} InvRun(job: Job, run: seq<World>, i: nat)
    requires Supported(job) && IsRun(job, run) && i < |run|
    ensures Inv(job, run[i])
  {
    if i == 0 {
      InvInit(job);
    } else {
      InvRun(job, run, i - 1);
      assert Step(job, run[i - 1], run[i - 1 + 1]);
      var e :| Enabled(job, run[i - 1], e) && run[i] == Apply(job, run[i - 1], e);
      InvStep(job, run[i - 1], e);
    }
  }
}
