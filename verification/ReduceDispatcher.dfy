/**
 The code of Master::dispatchReduceTasks and AsyncCompleteReduceRpc, on the fields it
 updates, interleaved with the completion thread; `run` records the state machine's run.
 */
module ReduceDispatcher {
  import opened Sequences
  import opened Status
  import opened Intermediate
  import opened ReduceDispatch

  class Dispatcher {
    const c: ReduceConfig
    var jobQ: seq<int>
    var inFlight: seq<ReduceCall>
    var responseList: seq<ReduceResult>
    var nrpcs: int
    var itr: nat
    var outputResultMap: map<int, string>
    ghost var phase: ReducePhase
    ghost var dispatched: nat
    ghost var failed: nat
    ghost var run: seq<ReduceState>

    ghost function View(): ReduceState
      reads this
    {
      ReduceState(jobQ, inFlight, responseList, nrpcs, itr, phase, outputResultMap, dispatched, failed)
    }

    ghost predicate Valid()
      reads this
    {
      IsRun(c, run) && Last(run) == View()
    }

    /** runReducer */
    constructor (c: ReduceConfig)
      ensures this.c == c && Valid() && View() == Start(c)
    {
      this.c := c;
      jobQ, inFlight, responseList, nrpcs, itr, outputResultMap := Range(c.nreducers), [], [], 0, 0, map[];
      phase, dispatched, failed := ReducePhase.Dispatching, 0, 0;
      run := [Start(c)];
    }

    ghost method Record(l: ReduceLabel)
      requires IsRun(c, run) && Enabled(c, Last(run), l) && View() == Apply(c, Last(run), l)
      modifies this`run
      ensures Valid() && run == old(run) + [View()]
    {
      ExtendRun(c, run, l);
      run := run + [View()];
    }

    method InvokeReduceTask(address: string)
      requires Valid() && Enabled(c, View(), Dispatch(address))
      modifies this
      ensures Valid() && View() == Apply(c, old(View()), Dispatch(address))
    {
      var jobid := jobQ[0];
      var reduceBlobs := SelectBlobs(c.intBlobs, jobid);
      inFlight := inFlight + [ReduceCall(jobid, reduceBlobs, address)];
      nrpcs := nrpcs + 1;
      jobQ := jobQ[1..];
      dispatched := dispatched + 1;
      Record(Dispatch(address));
    }

    method AsyncCompleteReduceRpc(k: nat, status: ReturnStatus)
      requires Valid() && Enabled(c, View(), Complete(k, status))
      modifies this
      ensures Valid() && View() == Apply(c, old(View()), Complete(k, status))
    {
      var call := inFlight[k];
      inFlight := inFlight[..k] + inFlight[k + 1..];
      if status.SUCCESS? {
        var reply := WorkerReply(c.outContainer);
        responseList := responseList + [MakeReduceResult(SUCCESS, reply.containername, reply.blobname, call.jobid)];
      } else {
        responseList := responseList + [MakeReduceResult(status, "", "", call.jobid)];
        failed := failed + 1;
      }
      Record(Complete(k, status));
    }

    /** One turn of the loop over responses. */
    method InspectResponse()
      requires Valid() && Enabled(c, View(), Inspect)
      modifies this
      ensures Valid() && View() == Apply(c, old(View()), Inspect)
    {
      var res := responseList[itr];
      if !res.status.SUCCESS? {
        jobQ := jobQ + [res.jobid];
        responseList := responseList[..itr] + responseList[itr + 1..];
        nrpcs := nrpcs - 1;
      } else {
        itr := itr + 1;
      }
      Record(Inspect);
    }

    ghost predicate MainUnchanged(s: ReduceState)
      reads this
    {
      jobQ == s.jobQ && nrpcs == s.nrpcs && itr == s.itr && phase == s.phase && outputResultMap == s.outputMap
    }

    method OtherThread(leftIn: nat) returns (left: nat)
      requires Valid()
      modifies this
      ensures Valid() && MainUnchanged(old(View())) && failed + left == old(failed) + leftIn
      ensures Rank(c, View(), left) <= Rank(c, old(View()), leftIn)
      ensures old(inFlight) != [] ==> Rank(c, View(), left) < Rank(c, old(View()), leftIn)
    {
      left := leftIn;
      InvRun(c, run, |run| - 1);
      if nrpcs > |responseList| {
        var k: nat :| k < |inFlight|;
        var status: ReturnStatus := *;
        if left == 0 {
          status := SUCCESS;
        }
        RankDecreases(c, View(), Complete(k, status), left, if status.SUCCESS? then left else left - 1);
        AsyncCompleteReduceRpc(k, status);
        left := if status.SUCCESS? then left else left - 1;
      }
    }

    method Interleave(leftIn: nat) returns (left: nat)
      requires Valid()
      modifies this
      ensures Valid() && MainUnchanged(old(View())) && failed + left == old(failed) + leftIn
      ensures Rank(c, View(), left) <= Rank(c, old(View()), leftIn)
    {
      left := leftIn;
      var turns: nat :| true;
      for t := 0 to turns
        invariant Valid() && MainUnchanged(old(View())) && failed + left == old(failed) + leftIn
        invariant Rank(c, View(), left) <= Rank(c, old(View()), leftIn)
      {
        left := OtherThread(left);
      }
    }

    /** Dispatch until the queue is empty or there are more calls out than clients. */
    method DispatchQueue(leftIn: nat) returns (left: nat)
      requires Valid() && phase.Dispatching?
      modifies this
      ensures Valid() && phase.Waiting? && failed + left == old(failed) + leftIn
      ensures Rank(c, View(), left) < Rank(c, old(View()), leftIn)
    {
      left := leftIn;
      ghost var before := View();
      while |jobQ| > 0
        invariant Valid() && phase.Dispatching? && failed + left == before.failed + leftIn
        invariant Rank(c, View(), left) <= Rank(c, before, leftIn)
        decreases |jobQ|
      {
        if nrpcs - |responseList| > c.nclients {
          break;
        }
        var address: string := *;
        InvRun(c, run, |run| - 1);
        RankDecreases(c, View(), Dispatch(address), left, left);
        InvokeReduceTask(address);
        left := Interleave(left);
      }
      InvRun(c, run, |run| - 1);
      RankDecreases(c, View(), EndDispatch, left, left);
      phase := ReducePhase.Waiting;
      Record(EndDispatch);
    }

    /** `while(responseList.size() != nrpcs);` */
    method WaitForRound(leftIn: nat) returns (left: nat)
      requires Valid() && phase.Waiting?
      modifies this
      ensures Valid() && phase.Scanning? && failed + left == old(failed) + leftIn
      ensures Rank(c, View(), left) < Rank(c, old(View()), leftIn)
    {
      left := leftIn;
      ghost var before := View();
      while |responseList| != nrpcs
        invariant Valid() && phase.Waiting? && failed + left == before.failed + leftIn
        invariant Rank(c, View(), left) <= Rank(c, before, leftIn)
        decreases Rank(c, View(), left)
      {
        NeverWaitsOnNothing(c, run, |run| - 1);
        InvRun(c, run, |run| - 1);
        RankNonNegative(c, View(), left);
        left := OtherThread(left);
      }
      InvRun(c, run, |run| - 1);
      RankDecreases(c, View(), Scan, left, left);
      itr := 0;
      phase := Scanning;
      Record(Scan);
    }

    method InspectResponses(ghost left: nat)
      requires Valid() && phase.Scanning?
      modifies this
      ensures Valid() && phase.Scanning? && itr == |responseList| && failed == old(failed)
      ensures Rank(c, View(), left) <= Rank(c, old(View()), left)
    {
      InvRun(c, run, |run| - 1);
      while itr != |responseList|
        invariant Valid() && Inv(c, View()) && phase.Scanning? && failed == old(failed)
        invariant Rank(c, View(), left) <= Rank(c, old(View()), left)
        decreases Rank(c, View(), left)
      {
        RankNonNegative(c, View(), left);
        RankDecreases(c, View(), Inspect, left, left);
        InvStep(c, View(), Inspect);
        InspectResponse();
      }
    }

    method CollectOutputs() returns (m: map<int, string>)
      ensures m == Collect(responseList)
    {
      m := map[];
      for i := 0 to |responseList|
        invariant m == Collect(responseList[..i])
      {
        var res := responseList[i];
        assert responseList[..i + 1][..i] == responseList[..i];
        if !res.status.SUCCESS? {
          continue;
        }
        if res.jobid !in m {
          m := m[res.jobid := res.cname];
        }
      }
      assert responseList[..|responseList|] == responseList;
    }

    /** One round: dispatch, wait for all answers, look for failures. */
    method Round(leftIn: nat) returns (left: nat, done: bool)
      requires Valid() && phase.Dispatching?
      modifies this
      ensures Valid() && phase == (if done then ReducePhase.Done else ReducePhase.Dispatching)
      ensures failed + left == old(failed) + leftIn
      ensures 0 <= Rank(c, View(), left) < Rank(c, old(View()), leftIn)
    {
      left := DispatchQueue(leftIn);
      left := WaitForRound(left);
      InspectResponses(left);
      InvRun(c, run, |run| - 1);
      RankDecreases(c, View(), EndScan, left, left);
      done := |jobQ| == 0;
      if done {
        outputResultMap := CollectOutputs();
        phase := ReducePhase.Done;
      } else {
        phase := ReducePhase.Dispatching;
      }
      Record(EndScan);
    }

    /** The loop ends for every schedule with at most `budget` failed calls, each reducer done. */
    method DispatchReduceTasks(budget: nat)
      requires Valid() && View() == Start(c)
      modifies this
      ensures Valid() && phase.Done?
      ensures forall id :: id in outputResultMap <==> 0 <= id < c.nreducers
      ensures forall id :: id in outputResultMap ==> outputResultMap[id] == ""
      ensures dispatched == c.nreducers + failed && failed <= budget
    {
      var left, done := Round(budget);
      while !done
        invariant Valid() && phase == (if done then ReducePhase.Done else ReducePhase.Dispatching)
        invariant failed + left == budget && Rank(c, View(), left) >= 0
        decreases Rank(c, View(), left)
      {
        left, done := Round(left);
      }
      ExitIsComplete(c, run, |run| - 1);
    }
  }
}
