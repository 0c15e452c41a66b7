/**
 The call objects of w7/src/worker/mrservice.h: one object per remote call, which registers
 itself with the completion queue, handles its request, answers, and deletes itself.
 */
module CallObjects {

  datatype Kind = ExchangeInfo | Ping | MapTask | ReduceTask

  datatype CallStatus = CREATE | PROCESS | FINISH

  class CallData {
    const kind: Kind
    var status: CallStatus
    var request: nat

    constructor (kind: Kind)
      ensures this.kind == kind && status == CREATE
    {
      this.kind := kind;
      status := CREATE;
    }
  }

  /** A request that reached the server, and the answer it is owed. */
  datatype Rpc = Rpc(kind: Kind, id: nat)

  class Server {
    var live: set<CallData>      // not yet deleted
    var waiting: set<CallData>   // registered for the next request of their kind
    var replying: set<CallData>  // answered, the completion event still to come
    var accepted: seq<Rpc>       // history: requests in the order of their events
    var answered: seq<Rpc>       // history: answers in the order they were sent

    /** One object of each kind waits; all others await their reply event; nothing else is registered. */
    ghost predicate Valid()
      reads this, live
    {
      && waiting !! replying && waiting + replying == live
      && (forall o :: o in waiting ==> o.status == PROCESS)
      && (forall o :: o in replying ==> o.status == FINISH)
      && OneOfEach(waiting)
      && answered == accepted
    }

    /** handleRpcs before its loop. */
    constructor ()
      ensures Valid() && fresh(live) && replying == {} && accepted == []
    {
      var a := new CallData(ExchangeInfo);
      var b := new CallData(Ping);
      var c := new CallData(MapTask);
      var d := new CallData(ReduceTask);
      live, waiting, replying, accepted, answered := {a, b, c, d}, {a, b, c, d}, {}, [], [];
      new;
      a.status, b.status, c.status, d.status := PROCESS, PROCESS, PROCESS, PROCESS;
      assert IsThe(waiting, ExchangeInfo, a) && IsThe(waiting, Ping, b);
      assert IsThe(waiting, MapTask, c) && IsThe(waiting, ReduceTask, d);
    }

    /** The constructor of a call object runs Proceed once, which registers it. */
    method AddNextToCompletionQueue(kind: Kind) returns (o: CallData)
      modifies this`live, this`waiting
      ensures fresh(o) && o.kind == kind && o.status == PROCESS
      ensures live == old(live) + {o} && waiting == old(waiting) + {o}
    {
      o := new CallData(kind);
      live := live + {o};
      o.status := PROCESS;
      waiting := waiting + {o};
    }

    /** The PROCESS branch of Proceed: a new object takes over the waiting, this one answers. */
    method HandleAndReply(o: CallData, id: nat)
      requires Valid() && o in waiting
      modifies this, o
      ensures Valid() && fresh(live - old(live))
      ensures accepted == old(accepted) + [Rpc(o.kind, id)] && replying == old(replying) + {o}
    {
      accepted := accepted + [Rpc(o.kind, id)];
      waiting := waiting - {o};
      var next := AddNextToCompletionQueue(o.kind);
      o.request := id;
      // HandleRequest, then responder_.Finish
      o.status := FINISH;
      answered := answered + [Rpc(o.kind, o.request)];
      replying := replying + {o};
      Replaced(old(waiting), o, next);
    }

    /** Proceed, called with the tag of an event; `id` is the request the event has brought, if any. */
    method Proceed(o: CallData, id: nat)
      requires Valid() && o in live
      modifies this, o
      ensures Valid() && fresh(live - old(live))
      ensures old(o in waiting) ==> accepted == old(accepted) + [Rpc(o.kind, id)] && replying == old(replying) + {o}
      ensures old(o in replying) ==>
          accepted == old(accepted) && live == old(live) - {o} && replying == old(replying) - {o}
    {
      if o.status == PROCESS {
        HandleAndReply(o, id);
      } else {
        // delete this
        replying := replying - {o};
        live := live - {o};
      }
    }

    /** The queue delivers some tag that is registered with it. */
    method HandleEvent()
      requires Valid()
      modifies this, live
      ensures Valid() && fresh(live - old(live))
      ensures || (|accepted| == |old(accepted)| + 1 && |replying| == |old(replying)| + 1)
              || (|accepted| == |old(accepted)| && |replying| == |old(replying)| - 1)
      ensures old(accepted) <= accepted
    {
      FourWaiting(waiting);
      assert waiting + replying != {};
      var tag: CallData :| tag in waiting + replying;
      var id: nat := *;
      Proceed(tag, id);
    }

    /** The event loop for any number of events: a request for a waiting object, or the end of a reply. */
    method HandleRpcs(events: nat)
      requires Valid()
      modifies this, live
      ensures Valid() && |live| == 4 + |replying|
      ensures old(accepted) <= accepted && answered == accepted
      // each event is a request, which is answered, or the end of a reply, which deletes an object
      ensures events == 2 * (|accepted| - |old(accepted)|) + |old(replying)| - |replying|
    {
      for i := 0 to events
        invariant Valid() && fresh(live - old(live))
        invariant old(accepted) <= accepted
        invariant i == 2 * (|accepted| - |old(accepted)|) + |old(replying)| - |replying|
      {
        HandleEvent();
      }
      FourWaiting(waiting);
      assert |waiting + replying| == |waiting| + |replying|;
    }
  }

  ghost predicate IsThe(waiting: set<CallData>, k: Kind, o: CallData) {
    o in waiting && forall p :: p in waiting ==> (p.kind == k <==> p == o)
  }

  /** Exactly one of the waiting objects is of kind k. */
  ghost predicate OneOf(waiting: set<CallData>, k: Kind) {
    exists o :: o in waiting && IsThe(waiting, k, o)
  }

  ghost predicate OneOfEach(waiting: set<CallData>) {
    OneOf(waiting, ExchangeInfo) && OneOf(waiting, Ping) && OneOf(waiting, MapTask) && OneOf(waiting, ReduceTask)
  }

  lemma {:induction false} ReplacedOne(waiting: set<CallData>, o: CallData, next: CallData, k: Kind)
    requires OneOf(waiting, k) && OneOf(waiting, o.kind) && o in waiting && next !in waiting && next.kind == o.kind
    ensures OneOf(waiting - {o} + {next}, k)
  {
    var p :| p in waiting && IsThe(waiting, k, p);
    var after := waiting - {o} + {next};
    if k == o.kind {
      assert p == o;
      assert IsThe(after, k, next);
    } else {
      assert IsThe(after, k, p);
    }
  }

  lemma {:induction false} Replaced(waiting: set<CallData>, o: CallData, next: CallData)
    requires OneOfEach(waiting) && o in waiting && next !in waiting && next.kind == o.kind
    ensures OneOfEach(waiting - {o} + {next})
  {
    ReplacedOne(waiting, o, next, ExchangeInfo);
    ReplacedOne(waiting, o, next, Ping);
    ReplacedOne(waiting, o, next, MapTask);
    ReplacedOne(waiting, o, next, ReduceTask);
  }

  lemma {:induction false} FourWaiting(waiting: set<CallData>)
    requires OneOfEach(waiting)
    ensures |waiting| == 4
  {
    var a :| a in waiting && IsThe(waiting, ExchangeInfo, a);
    var b :| b in waiting && IsThe(waiting, Ping, b);
    var c :| c in waiting && IsThe(waiting, MapTask, c);
    var d :| d in waiting && IsThe(waiting, ReduceTask, d);
    assert waiting == {a, b, c, d};
  }
}
