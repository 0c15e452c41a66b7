/**
 The code of Master::dispatchMapTasks and AsyncCompleteMapRpc, on the fields it updates.
 Between any two steps of the main thread the completion thread may take any number of
 steps; finding the response list empty and testing for the exit are one step. The history
 `run` shows that every execution is a run of the state machine.
 */
module MapDispatcher {
  import opened Status
  import opened MapDispatch

  class Dispatcher {
    const c: Config
    var jobQ: seq<int>
    var inFlight: seq<Call>
    var responseList: seq<MapperResult>
    var unlogged: seq<MapperResult>
    var replList: seq<MapperResult>
    var intermediateResultMap: map<int, MapperResult>
    var intblobList: seq<string>
    var intcontainer: string
    var nrpcs: int
    ghost var phase: Phase
    ghost var accepted: seq<MapperResult>
    ghost var dispatched: nat
    ghost var failed: nat
    ghost var run: seq<State>

    ghost function View(): State
      reads this
    {
      State(jobQ, inFlight, responseList, unlogged, replList, intermediateResultMap, intblobList, intcontainer, nrpcs,
            phase, accepted, dispatched, failed)
    }

    ghost predicate Valid()
      reads this
    {
      ValidConfig(c) && IsRun(c, run) && Last(run) == View()
    }

    /** runMapper for a new job, processReplicatedData for a recovered one. */
    constructor (c: Config)
      requires ValidConfig(c)
      ensures this.c == c && Valid() && View() == Start(c)
    {
      this.c := c;
      var s := Start(c);
      jobQ, inFlight, responseList, unlogged, replList := s.jobQ, [], [], [], [];
      intermediateResultMap, intblobList, intcontainer, nrpcs := s.resultMap, s.intBlobs, s.intContainer, 0;
      phase, accepted, dispatched, failed := Dispatching, c.recovered, 0, 0;
      run := [s];
    }

    /** Records that the fields have just taken step l. */
    ghost method Record(l: Label)
      requires ValidConfig(c) && IsRun(c, run) && Enabled(c, Last(run), l) && View() == Apply(c, Last(run), l)
      modifies this`run
      ensures Valid() && run == old(run) + [View()]
    {
      ExtendRun(c, run, l);
      run := run + [View()];
    }

    /** Invoke the task at the front of the queue on some healthy client, and pop it. */
    method InvokeMapTask(address: string)
      requires Valid() && Enabled(c, View(), Dispatch(address))
      modifies this
      ensures Valid() && View() == Apply(c, old(View()), Dispatch(address))
    {
      var i := jobQ[0];
      inFlight := inFlight + [Call(i, address)];
      nrpcs := nrpcs + 1;
      jobQ := jobQ[1..];
      dispatched := dispatched + 1;
      Record(Dispatch(address));
    }

    /** The completion thread handles the event of call k. */
    method AsyncCompleteMapRpc(k: nat, status: ReturnStatus)
      requires Valid() && Enabled(c, View(), Complete(k, status))
      modifies this
      ensures Valid() && View() == Apply(c, old(View()), Complete(k, status))
    {
      var call := inFlight[k];
      inFlight := inFlight[..k] + inFlight[k + 1..];
      if status.SUCCESS? {
        var res := MapperResult(SUCCESS, call.shardId, c.container, c.reply(call));
        responseList := responseList + [res];
        unlogged := [res];
      } else {
        responseList := responseList + [MapperResult(status, call.shardId, "", [])];
        failed := failed + 1;
      }
      Record(Complete(k, status));
    }

    /** The completion thread appends the success it has just reported to g_repl_list. */
    method AppendToReplList()
      requires Valid() && Enabled(c, View(), Log)
      modifies this
      ensures Valid() && View() == Apply(c, old(View()), Log)
    {
      replList := replList + unlogged;
      unlogged := [];
      Record(Log);
    }

    /** One turn of the loop over responses. */
    method ProcessResponse()
      requires Valid() && Enabled(c, View(), Process)
      modifies this
      ensures Valid() && View() == Apply(c, old(View()), Process)
    {
      ghost var s := View();
      var res := responseList[0];
      if !res.status.SUCCESS? {
        jobQ := jobQ + [res.shardId];
      } else {
        AcceptResult(res);
      }
      responseList := responseList[1..];
      nrpcs := nrpcs - 1;
      assert View() == ProcessFirst(s);
      Record(Process);
    }

    /** The first success of a shard counts; later ones are dropped. */
    method AcceptResult(res: MapperResult)
      modifies this`intermediateResultMap, this`intblobList, this`intcontainer, this`accepted
      ensures View() == if res.shardId in old(intermediateResultMap) then old(View())
                        else old(View()).(resultMap := old(intermediateResultMap)[res.shardId := res],
                                          intBlobs := old(intblobList) + res.blobList, intContainer := res.cname,
                                          accepted := old(accepted) + [res])
    {
      if res.shardId !in intermediateResultMap {
        intermediateResultMap := intermediateResultMap[res.shardId := res];
        for i := 0 to |res.blobList|
          modifies this`intblobList
          invariant intblobList == old(intblobList) + res.blobList[..i]
        {
          assert res.blobList[..i + 1] == res.blobList[..i] + [res.blobList[i]];
          intblobList := intblobList + [res.blobList[i]];
        }
        assert res.blobList[..|res.blobList|] == res.blobList;
        intcontainer := res.cname;
        accepted := accepted + [res];
      }
    }

    /** The parts of the state that the completion thread leaves alone. */
    ghost predicate MainUnchanged(s: State)
      reads this
    {
      jobQ == s.jobQ && intermediateResultMap == s.resultMap && nrpcs == s.nrpcs && phase == s.phase
      && s.responseList <= responseList
    }

    /** One step of the completion thread, if there is one; at most `left` more calls may fail. */
    method OtherThread(leftIn: nat) returns (left: nat)
      requires Valid()
      modifies this
      ensures Valid() && MainUnchanged(old(View())) && failed + left == old(failed) + leftIn
      ensures Rank(View(), failed + left) <= Rank(old(View()), old(failed) + leftIn)
      ensures old(inFlight) != [] && old(phase).Waiting? && old(responseList) == [] ==>
                Rank(View(), failed + left) < Rank(old(View()), old(failed) + leftIn)
    {
      left := leftIn;
      InvRun(c, run, |run| - 1);
      if unlogged != [] {
        RankDecreases(c, View(), Log, failed + left);
        AppendToReplList();
      } else if nrpcs > |responseList| {
        var k: nat :| k < |inFlight|;
        var status: ReturnStatus := *;
        if left == 0 {
          status := SUCCESS;
        }
        RankDecreases(c, View(), Complete(k, status), failed + left);
        AsyncCompleteMapRpc(k, status);
        left := if status.SUCCESS? then left else left - 1;
      }
    }

    /** The completion thread runs for as long as it likes. */
    method Interleave(leftIn: nat) returns (left: nat)
      requires Valid()
      modifies this
      ensures Valid() && MainUnchanged(old(View())) && failed + left == old(failed) + leftIn
      ensures Rank(View(), failed + left) <= Rank(old(View()), old(failed) + leftIn)
    {
      left := leftIn;
      var turns: nat :| true;
      for t := 0 to turns
        invariant Valid() && MainUnchanged(old(View())) && failed + left == old(failed) + leftIn
        invariant Rank(View(), failed + left) <= Rank(old(View()), old(failed) + leftIn)
      {
        left := OtherThread(left);
      }
    }

    /** Dispatch until the queue is empty or 11 calls are out. */
    method DispatchQueue(leftIn: nat) returns (left: nat)
      requires Valid() && phase.Dispatching?
      modifies this
      ensures Valid() && phase.Waiting? && failed + left == old(failed) + leftIn && (jobQ == [] || nrpcs == 11)
      ensures Rank(View(), failed + left) < Rank(old(View()), old(failed) + leftIn)
    {
      ghost var budget := failed + leftIn;
      ghost var before := View();
      left := Interleave(leftIn);
      while |jobQ| > 0
        invariant Valid() && phase.Dispatching? && failed + left == budget
        invariant Rank(View(), budget) <= Rank(before, budget)
        decreases |jobQ|
      {
        if nrpcs > 10 {
          break;
        }
        left := DispatchFirst(left);
      }
      LeaveQueue(budget);
    }

    /** One turn of the inner loop. */
    method DispatchFirst(leftIn: nat) returns (left: nat)
      requires Valid() && phase.Dispatching? && jobQ != [] && nrpcs <= 10
      modifies this
      ensures Valid() && phase.Dispatching? && jobQ == old(jobQ)[1..] && nrpcs == old(nrpcs) + 1
      ensures failed + left == old(failed) + leftIn
      ensures Rank(View(), failed + left) <= Rank(old(View()), old(failed) + leftIn)
    {
      var address: string := *;
      InvRun(c, run, |run| - 1);
      RankDecreases(c, View(), Dispatch(address), failed + leftIn);
      InvokeMapTask(address);
      left := Interleave(leftIn);
    }

    /** The inner loop has ended: nothing is queued or enough calls are out. */
    ghost method LeaveQueue(budget: int)
      requires Valid() && Enabled(c, View(), EndDispatch)
      modifies this`phase, this`run
      ensures Valid() && phase.Waiting? && Rank(View(), budget) < Rank(old(View()), budget)
      ensures jobQ == [] || nrpcs == 11
    {
      QuietRank(c, View(), EndDispatch, budget);
      phase := Waiting;
      Record(EndDispatch);
      TasksAreConserved(c, run, |run| - 1, 0);
    }

    /** `while(responseList.size() == 0);` ends because a call is in flight. */
    method WaitForResponse(leftIn: nat) returns (left: nat)
      requires Valid() && phase.Waiting? && SomethingToDo(c)
      modifies this
      ensures Valid() && phase.Processing? && responseList != [] && failed + left == old(failed) + leftIn
      ensures Rank(View(), failed + left) < Rank(old(View()), old(failed) + leftIn)
    {
      ghost var budget := failed + leftIn;
      ghost var before := View();
      left := Interleave(leftIn);
      while |responseList| == 0
        invariant Valid() && phase.Waiting? && failed + left == budget
        invariant Rank(View(), budget) <= Rank(before, budget)
        decreases Rank(View(), budget)
      {
        NeverWaitsOnNothing(c, run, |run| - 1);
        RankNonNegative(View(), budget);
        left := OtherThread(left);
      }
      StopWaiting(budget);
    }

    /** The busy wait has seen a response. */
    ghost method StopWaiting(budget: int)
      requires Valid() && Enabled(c, View(), Wake)
      modifies this`phase, this`run
      ensures Valid() && phase.Processing? && Rank(View(), budget) < Rank(old(View()), budget)
    {
      QuietRank(c, View(), Wake, budget);
      phase := Processing;
      Record(Wake);
    }

    method ProcessResponses(leftIn: nat) returns (left: nat)
      requires Valid() && phase.Processing?
      modifies this
      ensures Valid() && phase.Processing? && responseList == [] && failed + left == old(failed) + leftIn
      ensures Rank(View(), failed + left) <= Rank(old(View()), old(failed) + leftIn)
    {
      ghost var budget := failed + leftIn;
      ghost var before := View();
      left := Interleave(leftIn);
      while responseList != []
        invariant Valid() && phase.Processing? && failed + left == budget
        invariant Rank(View(), budget) <= Rank(before, budget)
        decreases Rank(View(), budget)
      {
        RankNonNegative(View(), budget);
        InvRun(c, run, |run| - 1);
        RankDecreases(c, View(), Process, budget);
        ProcessResponse();
        left := Interleave(left);
      }
    }

    /** One turn of the outer loop; done when there are as many results as mappers. */
    method Pass(leftIn: nat) returns (left: nat, done: bool)
      requires Valid() && phase.Dispatching? && SomethingToDo(c)
      modifies this
      ensures Valid() && phase == (if done then Done else Dispatching) && failed + left == old(failed) + leftIn
      ensures Rank(View(), failed + left) < Rank(old(View()), old(failed) + leftIn)
    {
      left := DispatchQueue(leftIn);
      left := WaitForResponse(left);
      left := ProcessResponses(left);
      done := |intermediateResultMap| == c.nmappers;
      QuietRank(c, View(), EndPass, failed + left);
      phase := if done then Done else Dispatching;
      Record(EndPass);
    }

    /** The whole loop ends, for every schedule in which at most `budget` calls fail, with every shard mapped. */
    method DispatchMapTasks(budget: nat)
      requires Valid() && View() == Start(c) && SomethingToDo(c)
      modifies this
      ensures Valid() && phase.Done?
      ensures forall id :: id in intermediateResultMap <==> 0 <= id < c.nshards
      ensures forall id :: id in intermediateResultMap ==>
                intermediateResultMap[id].shardId == id && Genuine(c, intermediateResultMap[id])
      ensures intblobList == BlobsOf(accepted) && intermediateResultMap == MapOf(accepted) &&
          intcontainer == c.container
      ensures jobQ == [] && inFlight == [] && responseList == []
      ensures dispatched == old(|jobQ|) + failed && failed <= budget
    {
      var left, done := budget, false;
      while !done
        invariant Valid() && phase == (if done then Done else Dispatching) && failed + left == budget
        decreases Rank(View(), budget)
      {
        RankNonNegative(View(), budget);
        left, done := Pass(left);
      }
      InvRun(c, run, |run| - 1);
      ExitIsComplete(c, run, |run| - 1);
    }
  }

  /** The main thread's moves between its loops use up rank on their own. */
  lemma {:induction false} QuietRank(c: Config, s: State, l: Label, budget: int)
    requires Enabled(c, s, l) && (l.EndDispatch? || l.Wake? || l.EndPass?)
    ensures Rank(Apply(c, s, l), budget) < Rank(s, budget)
  {
  }

  lemma {:induction false} RankNonNegative(s: State, budget: int)
    requires s.failed <= budget
    ensures Rank(s, budget) >= 0
  {
  }
}
