/**
 The code of elect_leader (w7) and of the polling loop in main (w6), call by call on the
 shared store. Between two calls other masters may do anything, new ones may join, and any
 session may end, the caller's included.
 */
module LeaderElector {
  import opened Sequences
  import opened Decimal
  import opened Lexicographic
  import opened LeaderElection

  /** The master that takes a step; None for steps that are nobody's own. */
  function Actor(l: Label): Option<nat> {
    match l
    case Join => None
    case Expire(_) => None
    case Read(s) => Some(s)
    case Check(s) => Some(s)
    case Wait(s) => Some(s)
    case List(s, _) => Some(s)
    case Compare(s) => Some(s)
    case Create(s) => Some(s)
    case SetData(s) => Some(s)
  }

  lemma {:induction false} ExtendRun(p: Protocol, run: seq<World>, l: Label)
    requires IsRun(p, run) && Enabled(p, run[|run| - 1], l)
    ensures IsRun(p, run + [Apply(p, run[|run| - 1], l)])
  {
    var w := run[|run| - 1];
    var longer := run + [Apply(p, w, l)];
    forall i | 0 <= i < |longer| - 1 ensures Step(p, longer[i], longer[i + 1]) {
      if i < |run| - 1 {
        assert longer[i] == run[i] && longer[i + 1] == run[i + 1];
      }
    }
  }

  /** The master whose node is at a position of a child list. */
  lemma {:induction false} ListedMaster(live: set<nat>, children: seq<string>, i: nat) returns (t: nat)
    requires IsListing(live, children) && i < |children|
    ensures t in live && children[i] == Node(t)
  {
    var name := children[i];
    assert exists s :: s in live && name == Node(s);
    t :| t in live && name == Node(t);
  }

  /** The reason not to become the leader: an older master is alive. */
  predicate Hindered(w: World, me: nat) {
    exists t :: t in w.live && t < me
  }

  /** At some moment from position `from` of the run on, the master was hindered. */
  ghost predicate HinderedSince(run: seq<World>, from: int, me: nat) {
    exists i :: 0 <= from <= i < |run| && Hindered(run[i], me)
  }

  lemma {:induction false} HinderedLater(run: seq<World>, longer: seq<World>, from: int, me: nat)
    requires run <= longer && HinderedSince(run, from, me)
    ensures HinderedSince(longer, from, me)
  {
    var i :| 0 <= from <= i < |run| && Hindered(run[i], me);
    assert longer[i] == run[i];
  }

  lemma {:induction false} HinderedEarlier(run: seq<World>, from: int, from': int, me: nat)
    requires 0 <= from <= from' && HinderedSince(run, from', me)
    ensures HinderedSince(run, from, me)
  {
  }

  /** Whoever is not first in the child list it reads is not the oldest at that moment. */
  lemma {:induction false} NotFirstIsHindered(w: World, children: seq<string>, me: nat)
    requires Registered(w) && IsListing(w.live, children) && me in w.live && !Smallest(children, me)
    ensures Hindered(w, me)
  {
    SortKeepsSome(children, Node(me));
    SortSorts(children);
    var sorted := Sort(children);
    assert sorted[0] in multiset(sorted) && sorted[0] in multiset(children);
    var i :| 0 <= i < |children| && children[i] == sorted[0];
    var t := ListedMaster(w.live, children, i);
    assert Node(me) in multiset(children) && Node(me) in multiset(sorted);
    SortedFirst(sorted, Node(me));
    NodeOrder(me, t);
  }

  /** A leader whose node exists is older than any master that waits for it. */
  lemma {:induction false} LiveLeaderHinders(p: Protocol, w: World, me: nat)
    requires Inv(p, w) && Enabled(p, w, Wait(me))
    ensures Hindered(w, me)
  {
    var t :| t in w.at && w.at[t].Leading? && w.at[me].data == "/masters/" + Node(t);
    var u :| u in w.live && w.at[me].data == Path(u);
    assert ("/masters/" + Node(t))[9..] == Node(t) && Path(u)[9..] == Node(u);
    NodeOrder(t, u);
    assert Claims(w, t);
  }

  lemma {:induction false} LeaderIsRecorded(p: Protocol, run: seq<World>, me: nat)
    requires p.Polling? && IsRun(p, run) && var w := run[|run| - 1]; me in w.at && w.at[me].Leading?
    ensures var w := run[|run| - 1];
            me in w.live ==> (forall t :: t in w.live ==> me <= t) && w.mastersData == "/masters/" + Node(me)
  {
    InvRun(p, run, |run| - 1);
    assert me in run[|run| - 1].live ==> Claims(run[|run| - 1], me);
  }

  class Ensemble {
    const p: Protocol
    var world: World
    ghost var run: seq<World>

    ghost predicate Valid()
      reads this
    {
      IsRun(p, run) && run[|run| - 1] == world
    }

    constructor (p: Protocol)
      ensures Valid() && this.p == p && world == INITIAL
    {
      this.p := p;
      world := INITIAL;
      run := [INITIAL];
    }

    method Take(l: Label)
      requires Valid() && Enabled(p, world, l)
      modifies this
      ensures Valid() && world == Apply(p, old(world), l) && run == old(run) + [world]
    {
      ExtendRun(p, run, l);
      world := Apply(p, world, l);
      run := run + [world];
    }

    /** Any number of steps of anyone but `me`. */
    method Others(me: nat)
      requires Valid() && me in world.at
      modifies this
      ensures Valid() && me in world.at && world.at[me] == old(world).at[me] && old(run) <= run
    {
      var turns: nat :| true;
      for i := 0 to turns
        invariant Valid() && me in world.at && world.at[me] == old(world).at[me] && old(run) <= run
      {
        var l: Label := *;
        if Enabled(p, world, l) && Actor(l) != Some(me) {
          InvRun(p, run, |run| - 1);
          Take(l);
        }
      }
    }

    method GetChildren() returns (children: seq<string>)
      requires Valid()
      ensures IsListing(world.live, children)
    {
      InvRun(p, run, |run| - 1);
      children := [];
      var rest := world.live;
      while rest != {}
        invariant rest <= world.live && IsListing(world.live - rest, children)
        decreases rest
      {
        var s: nat :| s in rest;
        AddToListing(world.live - rest, children, s);
        assert world.live - (rest - {s}) == (world.live - rest) + {s};
        children := children + [Node(s)];
        rest := rest - {s};
      }
      assert world.live - {} == world.live;
    }

    /** Reads the children of /masters; others go on before the list is used. */
    method ReadChildren(me: nat) returns (children: seq<string>)
      requires Valid() && CanAct(world, me) && (if p.Polling? then world.at[me].Checked? else world.at[me].Idle?)
      modifies this
      ensures Valid() && old(run) <= run && me in world.at && world.at[me] == Listed(children) && Sort(children) != []
      ensures !Smallest(children, me) ==> HinderedSince(run, old(|run|) - 1, me)
    {
      InvRun(p, run, |run| - 1);
      children := GetChildren();
      SortKeepsSome(children, Node(me));
      ghost var before := run;
      ghost var hindered := !Smallest(children, me);
      if hindered {
        NotFirstIsHindered(world, children, me);
        assert Hindered(before[|before| - 1], me);
      }
      Take(List(me, children));
      Others(me);
      if hindered {
        HinderedLater(before, run, |before| - 1, me);
      }
    }

    /** The part both versions share: is the first child in order the caller's own node? */
    method IsFirst(me: nat) returns (matched: bool)
      requires Valid() && CanAct(world, me) && (if p.Polling? then world.at[me].Checked? else world.at[me].Idle?)
      modifies this
      ensures Valid() && old(run) <= run && me in world.at
      ensures matched ==> world.at[me].Matched? && me in world.live
      ensures !matched && me in world.live ==> world.at[me].Idle? && HinderedSince(run, old(|run|) - 1, me)
    {
      var children := ReadChildren(me);
      if me !in world.live {
        return false;
      }
      var path := "/masters/" + Sort(children)[0];
      matched := path == Path(me);
      ghost var before := run;
      Take(Compare(me));
      if !matched {
        HinderedLater(before, run, old(|run|) - 1, me);
      }
    }

    /** Creates /leader and writes the own name to it; false when the session ends first. */
    method ClaimLeader(me: nat) returns (done: bool)
      requires Valid() && p.Watching? && me in world.at && world.at[me].Matched?
      modifies this
      ensures Valid() && me in world.at
      ensures done && me in world.live ==>
                (forall t :: t in world.live ==> me <= t) && world.leader == Some(LeaderNode(me, Node(me)))
      ensures !done ==> me !in world.live
    {
      Others(me);
      if me !in world.live {
        return false;
      }
      Take(Create(me));
      Others(me);
      if me !in world.live {
        return false;
      }
      Take(SetData(me));
      Others(me);
      InvRun(p, run, |run| - 1);
      assert me in world.live ==> Claims(world, me);
      done := true;
    }

    /** True when the master has made itself the leader; false also when its session ended on the way. */
    method ElectLeader(me: nat) returns (isLeader: bool)
      requires Valid() && p.Watching? && me in world.at && world.at[me].Idle?
      modifies this
      ensures Valid() && me in world.at
      ensures isLeader && me in world.live ==>
                (forall t :: t in world.live ==> me <= t) && world.leader == Some(LeaderNode(me, Node(me)))
      ensures !isLeader && me in world.live ==> !Claims(world, me) && HinderedSince(run, old(|run|) - 1, me)
    {
      Others(me);
      if me !in world.live {
        return false;
      }
      ghost var from := |run| - 1;
      var matched := IsFirst(me);
      if matched {
        isLeader := ClaimLeader(me);
      } else {
        isLeader := false;
        if me in world.live {
          HinderedEarlier(run, old(|run|) - 1, from, me);
        }
      }
    }

    /** `getData` and `checkExists`: is there no current leader? */
    method NoCurrentLeader(me: nat) returns (free: bool)
      requires Valid() && p.Polling? && me in world.at && world.at[me].Idle?
      modifies this
      ensures Valid() && me in world.at && old(run) <= run
      ensures free ==> world.at[me].Checked? && me in world.live
      ensures !free && me in world.live ==> world.at[me].Idle? && HinderedSince(run, old(|run|) - 1, me)
    {
      free := false;
      if me !in world.live {
        return;
      }
      var curLeader := world.mastersData;
      Take(Read(me));
      Others(me);
      if me !in world.live {
        return;
      }
      free := curLeader == "" || !Exists(world, curLeader);
      if free {
        Take(Check(me));
      } else {
        StopTrying(me, old(|run|) - 1);
      }
    }

    /** The recorded leader is alive: the next round begins. */
    method StopTrying(me: nat, ghost from: int)
      requires Valid() && Enabled(p, world, Wait(me)) && 0 <= from < |run|
      modifies this
      ensures Valid() && world == Apply(p, old(world), Wait(me)) && run == old(run) + [world]
      ensures HinderedSince(run, from, me)
    {
      InvRun(p, run, |run| - 1);
      LiveLeaderHinders(p, world, me);
      ghost var before := run;
      assert Hindered(before[|before| - 1], me);
      Take(Wait(me));
      HinderedLater(before, run, from, me);
    }

    /** One round of the loop: if there is no leader, the child list and the comparison. */
    method FindNextLeader(me: nat) returns (matched: bool)
      requires Valid() && p.Polling? && me in world.at && world.at[me].Idle?
      modifies this
      ensures Valid() && me in world.at && old(run) <= run
      ensures matched ==> world.at[me].Matched?
      ensures !matched && me in world.live ==> world.at[me].Idle? && HinderedSince(run, old(|run|) - 1, me)
    {
      matched := false;
      var free := NoCurrentLeader(me);
      if !free {
        return;
      }
      Others(me);
      if me !in world.live {
        return;
      }
      ghost var from := |run| - 1;
      matched := IsFirst(me);
      if !matched && me in world.live {
        HinderedEarlier(run, old(|run|) - 1, from, me);
      }
    }

    /** Writes the own path to /masters; false when the session ends first. */
    method ClaimMasters(me: nat) returns (done: bool)
      requires Valid() && p.Polling? && me in world.at && world.at[me].Matched?
      modifies this
      ensures Valid() && me in world.at
      ensures done && me in world.live ==>
                (forall t :: t in world.live ==> me <= t) && world.mastersData == "/masters/" + Node(me)
      ensures !done ==> me !in world.live
    {
      Others(me);
      if me !in world.live {
        return false;
      }
      Take(SetData(me));
      Others(me);
      LeaderIsRecorded(p, run, me);
      done := true;
    }

    /** One round of the loop that does not lead to a claim. */
    method PollOnce(me: nat) returns (matched: bool)
      requires Valid() && p.Polling? && me in world.at && world.at[me].Idle?
      modifies this
      ensures Valid() && me in world.at && old(run) <= run
      ensures matched ==> world.at[me].Matched?
      ensures !matched && me in world.live ==> world.at[me].Idle? && HinderedSince(run, old(|run|) - 1, me)
    {
      Others(me);
      ghost var from := |run| - 1;
      matched := FindNextLeader(me);
      if !matched && me in world.live {
        HinderedEarlier(run, old(|run|) - 1, from, me);
      }
    }

    /** The loop `while (!amLeader)` of w6, for any number of rounds. */
    method PollForLeadership(me: nat, rounds: nat) returns (amLeader: bool)
      requires Valid() && p.Polling? && me in world.at && world.at[me].Idle?
      modifies this
      ensures Valid() && me in world.at
      ensures amLeader && me in world.live ==>
                (forall t :: t in world.live ==> me <= t) && world.mastersData == "/masters/" + Node(me)
      ensures !amLeader && me in world.live ==>
                !Claims(world, me) && (rounds > 0 ==> HinderedSince(run, old(|run|) - 1, me))
    {
      amLeader := false;
      ghost var start := |run| - 1;
      for round := 0 to rounds
        invariant Valid() && me in world.at && world.at[me].Idle? && !amLeader && start < |run|
        invariant round > 0 ==> HinderedSince(run, start, me)
      {
        ghost var from := |run| - 1;
        var matched := PollOnce(me);
        if matched {
          amLeader := ClaimMasters(me);
          return;
        }
        if me !in world.live {
          return;
        }
        HinderedEarlier(run, start, from, me);
      }
    }
  }

  lemma {:induction false} SortKeepsSome(children: seq<string>, name: string)
    requires name in children
    ensures Sort(children) != []
  {
    SortSorts(children);
    assert name in multiset(children) && name in multiset(Sort(children));
  }

  lemma {:induction false} AddToListing(live: set<nat>, children: seq<string>, s: nat)
    requires IsListing(live, children) && s !in live && s < Pow10(WIDTH)
    requires forall t :: t in live ==> t < Pow10(WIDTH)
    ensures IsListing(live + {s}, children + [Node(s)])
  {
    var longer := children + [Node(s)];
    forall i | 0 <= i < |children| ensures children[i] != Node(s) {
      var t := ListedMaster(live, children, i);
      NodeOrder(s, t);
    }
    forall i | 0 <= i < |longer| ensures exists t :: t in live + {s} && longer[i] == Node(t) {
      if i < |children| {
        assert longer[i] == children[i];
        var t := ListedMaster(live, children, i);
        assert t in live + {s} && longer[i] == Node(t);
      } else {
        assert s in live + {s} && longer[i] == Node(s);
      }
    }
    forall t | t in live + {s} ensures Node(t) in longer {
      if t == s {
        assert longer[|children|] == Node(t);
      } else {
        assert Node(t) in children;
      }
    }
  }
}
