/** What holds in every run of joins, session ends and elections, with child lists of any age. */
module LeaderSafety {
  import opened Sequences
  import opened LeaderElection

  /**
   At any moment at most one master with a live session acts as the leader, and it is the one
   with the smallest live sequence number. In w7, /leader belongs to it and names it; in w6 the
   data of /masters is its path.
   */
  lemma {:induction false} AtMostOneLeader(p: Protocol, run: seq<World>, i: nat, s: nat, t: nat)
    requires IsRun(p, run) && i < |run| && Claims(run[i], s)
    ensures Claims(run[i], t) ==> s == t
    ensures t in run[i].live ==> s <= t
    ensures p.Watching? && run[i].at[s].Leading? ==> run[i].leader == Some(LeaderNode(s, Node(s)))
    ensures p.Polling? && run[i].at[s].Leading? ==> run[i].mastersData == "/masters/" + Node(s)
  {
    InvRun(p, run, i);
  }

  /** The node /leader never exists already when a master is about to create it. */
  lemma {:induction false} CreateNeverCollides(p: Protocol, run: seq<World>, i: nat, s: nat)
    requires IsRun(p, run) && i < |run| && Enabled(p, run[i], Create(s))
    ensures run[i].leader == None
  {
    InvRun(p, run, i);
    NoLeaderYet(p, run[i], s);
  }

  /** w6: a master goes on to an election exactly when the leader it has read of is not alive, or there was none. */
  lemma {:induction false} NoElectionBesideLeader(p: Protocol, w: World, s: nat)
    requires s in w.live && s in w.at && w.at[s].HasRead?
    ensures Enabled(p, w, Check(s)) <==>
        w.at[s].data == "" || forall t :: t in w.live ==> w.at[s].data != "/masters/" + Node(t)
    ensures Enabled(p, w, Wait(s)) <==> !Enabled(p, w, Check(s))
  {
  }

  /** A new master may join at any time; it is younger than all others, and none of them notices. */
  lemma {:induction false} AnybodyMayJoin(p: Protocol, run: seq<World>, i: nat)
    requires IsRun(p, run) && i < |run| && run[i].counter < 10_000_000_000
    ensures Enabled(p, run[i], Join)
    ensures var w, w' := run[i], Apply(p, run[i], Join);
            && w'.live == w.live + {w.counter} && (forall t :: t in w.live ==> t < w.counter)
            && w.counter in w'.at && w'.at[w.counter].Idle? && w'.at - {w.counter} == w.at
            && w'.leader == w.leader && w'.mastersData == w.mastersData
  {
    TenDigits();
    InvRun(p, run, i);
  }

  /** Any session may end at any time. */
  lemma {:induction false} AnySessionMayEnd(p: Protocol, w: World, s: nat)
    requires s in w.live
    ensures Enabled(p, w, Expire(s)) && Apply(p, w, Expire(s)).live == w.live - {s}
    ensures Apply(p, w, Expire(s)).at == w.at && Apply(p, w, Expire(s)).mastersData == w.mastersData
    ensures Apply(p, w, Expire(s)).leader == if w.leader.Some? && w.leader.value.owner == s then None else w.leader
  {
  }

  /** ZooKeeper lists each master alive exactly once. */
  lemma {:induction false} ListedOnce(live: set<nat>, children: seq<string>, s: nat)
    requires IsListing(live, children) && s in live
    ensures multiset(children)[Node(s)] == 1
  {
    DistinctMultiset(children);
    assert Node(s) in Elements(children);
  }

  lemma {:induction false} NewcomersAreLater(p: Protocol, run: seq<World>, i: nat, j: nat, t: nat)
    requires IsRun(p, run) && i <= j < |run| && t in run[j].live
    ensures run[i].counter <= run[j].counter
    ensures t in run[i].live || run[i].counter <= t
    decreases j
  {
    if i < j {
      assert Step(p, run[j - 1], run[j - 1 + 1]);
      var l :| Enabled(p, run[j - 1], l) && run[j] == Apply(p, run[j - 1], l);
      if t in run[j - 1].live {
        NewcomersAreLater(p, run, i, j - 1, t);
      } else {
        CounterGrows(p, run, i, j - 1);
      }
    }
  }

  lemma {:induction false} CounterGrows(p: Protocol, run: seq<World>, i: nat, j: nat)
    requires IsRun(p, run) && i <= j < |run|
    ensures run[i].counter <= run[j].counter
    decreases j
  {
    if i < j {
      assert Step(p, run[j - 1], run[j - 1 + 1]);
      CounterGrows(p, run, i, j - 1);
    }
  }

  /** Over time leadership only passes to younger masters; nobody leads again after a successor. */
  lemma {:induction false} LeadershipMovesForward(p: Protocol, run: seq<World>, i: nat, j: nat, s: nat, t: nat)
    requires IsRun(p, run) && i <= j < |run| && Claims(run[i], s) && Claims(run[j], t)
    ensures s <= t
    ensures s < t ==> s !in run[j].live
  {
    InvRun(p, run, i);
    InvRun(p, run, j);
    NewcomersAreLater(p, run, i, j, t);
  }
}
