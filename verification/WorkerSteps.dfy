/**
 The worker's code and the job machine: a run of MapCallData::do_work is a sequence of the
 machine's upload steps, and a run of ReduceCallData::do_work is its output step.
 */
module WorkerSteps {
  import opened Sharding
  import opened Intermediate
  import opened WordCount
  import opened Checkpoint
  import opened Cluster
  import R = ReduceDispatch

  ghost predicate UploadStep(job: Job, w: World, w': World) {
    exists e: Event :: e.Upload? && Enabled(job, w, e) && w' == Apply(job, w, e)
  }

  ghost predicate Uploads(job: Job, run: seq<World>, from: World, to: World) {
    && run != [] && run[0] == from && run[|run| - 1] == to
    && forall i :: 0 <= i < |run| - 1 ==> UploadStep(job, run[i], run[i + 1])
  }

  lemma {:induction false} OneMoreUpload(job: Job, run: seq<World>, from: World, mid: World, e: Event)
    requires Uploads(job, run, from, mid) && e.Upload? && Enabled(job, mid, e)
    ensures Uploads(job, run + [Apply(job, mid, e)], from, Apply(job, mid, e))
  {
    var longer := run + [Apply(job, mid, e)];
    forall i | 0 <= i < |longer| - 1 ensures UploadStep(job, longer[i], longer[i + 1]) {
      if i < |run| - 1 {
        assert longer[i] == run[i] && longer[i + 1] == run[i + 1];
      } else {
        assert longer[i] == mid && longer[i + 1] == Apply(job, mid, e);
      }
    }
  }

  lemma {:induction false} JoinUploads(job: Job, a: seq<World>, b: seq<World>, from: World, mid: World, to: World)
    requires Uploads(job, a, from, mid) && Uploads(job, b, mid, to)
    ensures Uploads(job, a + b[1..], from, to)
  {
    var run := a + b[1..];
    forall i | 0 <= i < |run| - 1 ensures UploadStep(job, run[i], run[i + 1]) {
      if i < |a| - 1 {
        assert run[i] == a[i] && run[i + 1] == a[i + 1];
      } else {
        assert run[i] == b[i - (|a| - 1)] && run[i + 1] == b[i - (|a| - 1) + 1];
      }
    }
  }

  /** A task that arrived at a worker of this job, with readable offsets. */
  predicate Received(job: Job, w: World, task: MapTask) {
    && task in w.mapTasks && task.shardId >= 0 && task.nReducers == job.nreducers > 0
    && InRange(task.tuples) && Forward(DecodePieces(task.tuples))
  }

  function FilesOf(job: Job, task: MapTask, p: nat): seq<string>
    requires p < |task.tuples| && job.nreducers > 0 && InRange(task.tuples) && Forward(DecodePieces(task.tuples))
  {
    var x := DecodePieces(task.tuples)[p];
    PieceFiles(DataOf(job.blobs, x.blobName), x, job.hash, job.nreducers)
  }

  lemma {:induction false} SameFile(job: Job, task: MapTask, p: nat, r: nat)
    requires p < |task.tuples| && task.nReducers == job.nreducers > 0 && r < job.nreducers
    requires InRange(task.tuples) && Forward(DecodePieces(task.tuples))
    ensures FilesOf(job, task, p)[r] == UploadedText(job, task, p, r)
  {
    assert job.(nreducers := task.nReducers) == job;
    assert DecodePieces(task.tuples)[p] == DecodePiece(task.tuples[p]);
  }

  lemma {:induction false} UploadsOfPiece(job: Job, w: World, task: MapTask, p: nat, n: nat) returns (run: seq<World>)
    requires Received(job, w, task) && p < |task.tuples| && n <= job.nreducers
    ensures Uploads(job, run, w,
        w.(store := Uploaded(w.store, task.address, task.shardId, p, FilesOf(job, task, p), n)))
  {
    if n == 0 {
      run := [w];
    } else {
      var before := UploadsOfPiece(job, w, task, p, n - 1);
      var mid := w.(store := Uploaded(w.store, task.address, task.shardId, p, FilesOf(job, task, p), n - 1));
      var e := Upload(task, p, n - 1);
      SameFile(job, task, p, n - 1);
      OneMoreUpload(job, before, w, mid, e);
      run := before + [Apply(job, mid, e)];
    }
  }

  /** What DoMapWork does to the container, the machine can do step by step. */
  lemma {:induction false} MapWorkIsUploads(job: Job, w: World, task: MapTask, n: nat) returns (run: seq<World>)
    requires Received(job, w, task) && n <= |task.tuples|
    ensures Uploads(job, run, w, w.(store := TaskUploaded(w.store, job.blobs, task.address, task.shardId,
                                                          DecodePieces(task.tuples), job.hash, job.nreducers, n)))
  {
    if n == 0 {
      run := [w];
    } else {
      var before := MapWorkIsUploads(job, w, task, n - 1);
      var sets := DecodePieces(task.tuples);
      var mid := w.(store := TaskUploaded(w.store, job.blobs, task.address, task.shardId, sets, job.hash,
          job.nreducers, n - 1));
      var last := UploadsOfPiece(job, mid, task, n - 1, job.nreducers);
      var end := w.(store := TaskUploaded(w.store, job.blobs, task.address, task.shardId, sets, job.hash,
          job.nreducers, n));
      JoinUploads(job, before, last, w, mid, end);
      run := before + last[1..];
    }
  }

  lemma {:induction false} UploadedHas(blobs: map<string, string>, a: string, s: nat, p: nat,
      files: seq<string>, n: nat)
    requires n <= |files|
    ensures var b := Uploaded(blobs, a, s, p, files, n);
            blobs.Keys <= b.Keys && forall r :: 0 <= r < n ==> BlobName(a, s, p, r) in b
  {
    if n > 0 {
      UploadedHas(blobs, a, s, p, files, n - 1);
    }
  }

  lemma {:induction false} AllInGrows(blobs: map<string, string>, blobs': map<string, string>, names: seq<string>)
    requires AllIn(blobs, names) && blobs.Keys <= blobs'.Keys
    ensures AllIn(blobs', names)
  {
    assert forall i :: 0 <= i < |names| ==> names[i] in blobs.Keys;
  }

  /** After DoMapWork everything the worker reports is in the container. */
  lemma {:induction false} MapWorkBacksReply(blobs: map<string, string>, input: seq<Blob>, a: string, s: nat,
      sets: seq<ShardData>,
                                             hash: HashFunction, nReducers: nat, n: nat)
    requires n <= |sets| && Forward(sets) && nReducers > 0
    ensures AllIn(TaskUploaded(blobs, input, a, s, sets, hash, nReducers, n), TaskBlobs(a, s, n, nReducers))
  {
    if n > 0 {
      var before := TaskUploaded(blobs, input, a, s, sets, hash, nReducers, n - 1);
      var after := TaskUploaded(blobs, input, a, s, sets, hash, nReducers, n);
      MapWorkBacksReply(blobs, input, a, s, sets, hash, nReducers, n - 1);
      UploadedHas(before, a, s, n - 1,
          PieceFiles(DataOf(input, sets[n - 1].blobName), sets[n - 1], hash, nReducers), nReducers);
      AllInGrows(before, after, TaskBlobs(a, s, n - 1, nReducers));
      AllInConcat(after, TaskBlobs(a, s, n - 1, nReducers), PieceBlobs(a, s, n - 1, nReducers));
    }
  }

  /** Carries out a task, and shows the machine steps that match. */
  method RunMapTask(job: Job, ghost w: World, task: MapTask, store: BlobStore)
    returns (blobList: seq<string>, ghost run: seq<World>)
    requires Received(job, w, task) && store.blobs == w.store
    modifies store
    ensures Uploads(job, run, w, w.(store := store.blobs))
    ensures blobList == TaskBlobs(task.address, task.shardId, |task.tuples|, task.nReducers) &&
        AllIn(store.blobs, blobList)
  {
    var worker := new Worker(task.address, job.hash);
    var sets := DecodePieces(task.tuples);
    run := MapWorkIsUploads(job, w, task, |task.tuples|);
    MapWorkBacksReply(w.store, job.blobs, task.address, task.shardId, sets, job.hash, task.nReducers, |sets|);
    blobList := worker.DoMapWork(job.blobs, task.shardId, sets, task.nReducers, store);
  }

  method RunReduceTask(job: Job, ghost w: World, call: R.ReduceCall, store: BlobStore) returns (text: string)
    requires call in w.reduceCalls && store.blobs == w.store
    ensures w.(outs := w.outs[call.jobid := text]) == Apply(job, w, WriteOutput(call))
  {
    var worker := new Worker(call.address, job.hash);
    text := worker.DoReduceWork(call.blobs, store);
  }
}
