/**
 Elections can make progress: the oldest master alive can always make itself the leader, and
 when a leader's session ends the next master can take its place.
 */
module LeaderProgress {
  import opened Sequences
  import opened Decimal
  import opened LeaderElection
  import opened LeaderElector

  function Last(run: seq<World>): World
    requires run != []
  {
    run[|run| - 1]
  }

  function Then(p: Protocol, run: seq<World>, l: Label): seq<World>
    requires run != [] && Enabled(p, Last(run), l)
  {
    run + [Apply(p, Last(run), l)]
  }

  lemma {:induction false} StepOn(p: Protocol, run: seq<World>, l: Label)
    requires IsRun(p, run) && Enabled(p, Last(run), l)
    ensures IsRun(p, Then(p, run, l)) && Last(Then(p, run, l)) == Apply(p, Last(run), l)
  {
    ExtendRun(p, run, l);
  }

  /** ZooKeeper can always list the masters alive. */
  lemma {:induction false} ListingExists(live: set<nat>) returns (children: seq<string>)
    requires forall t :: t in live ==> t < Pow10(WIDTH)
    ensures IsListing(live, children)
  {
    children := [];
    if live != {} {
      var s :| s in live;
      var rest := ListingExists(live - {s});
      AddToListing(live - {s}, rest, s);
      assert live - {s} + {s} == live;
      children := rest + [Node(s)];
    }
  }

  /** s is the oldest master alive, has not begun to act, and in w6 no recorded leader is alive. */
  ghost predicate CanBegin(p: Protocol, w: World, s: nat) {
    && CanAct(w, s) && w.at[s].Idle? && (forall t :: t in w.live ==> s <= t)
    && (p.Polling? ==> forall t :: t in w.live ==> w.mastersData != "/masters/" + Node(t))
  }

  /** Nobody has joined or left. */
  predicate SameMasters(w: World, w': World) {
    w.live == w'.live && w.counter == w'.counter
  }

  /** s leads, and everybody can see it. */
  predicate Leads(p: Protocol, w: World, s: nat) {
    && s in w.live && s in w.at && w.at[s].Leading?
    && (p.Watching? ==> w.leader == Some(LeaderNode(s, Node(s))))
    && (p.Polling? ==> w.mastersData == "/masters/" + Node(s))
  }

  /** The first steps of the master, up to the child list. */
  lemma {:induction false} Prepare(p: Protocol, run: seq<World>, s: nat) returns (longer: seq<World>)
    requires IsRun(p, run) && CanBegin(p, Last(run), s)
    ensures IsRun(p, longer) && run <= longer && SameMasters(Last(run), Last(longer)) && s in Last(longer).at
    ensures if p.Polling? then Last(longer).at[s].Checked? else Last(longer).at[s].Idle?
  {
    longer := run;
    if p.Polling? {
      StepOn(p, run, Read(s));
      var read := Then(p, run, Read(s));
      StepOn(p, read, Check(s));
      longer := Then(p, read, Check(s));
    }
  }

  /** The oldest master finds itself first in the list. */
  lemma {:induction false} Match(p: Protocol, run: seq<World>, s: nat) returns (longer: seq<World>)
    requires IsRun(p, run) && CanAct(Last(run), s) && forall t :: t in Last(run).live ==> s <= t
    requires if p.Polling? then Last(run).at[s].Checked? else Last(run).at[s].Idle?
    ensures IsRun(p, longer) && run <= longer && SameMasters(Last(run), Last(longer)) && s in Last(longer).at
    ensures Last(longer).at[s].Matched?
  {
    InvRun(p, run, |run| - 1);
    var children := ListingExists(Last(run).live);
    if !Smallest(children, s) {
      NotFirstIsHindered(Last(run), children, s);
    }
    StepOn(p, run, List(s, children));
    var listed := Then(p, run, List(s, children));
    StepOn(p, listed, Compare(s));
    longer := Then(p, listed, Compare(s));
  }

  lemma {:induction false} Claim(p: Protocol, run: seq<World>, s: nat) returns (longer: seq<World>)
    requires IsRun(p, run) && CanAct(Last(run), s) && Last(run).at[s].Matched?
    ensures IsRun(p, longer) && run <= longer && SameMasters(Last(run), Last(longer)) && Leads(p, Last(longer), s)
  {
    longer := run;
    if p.Watching? {
      StepOn(p, run, Create(s));
      longer := Then(p, run, Create(s));
    }
    StepOn(p, longer, SetData(s));
    longer := Then(p, longer, SetData(s));
    InvRun(p, longer, |longer| - 1);
    assert Claims(Last(longer), s);
  }

  /** At any moment the oldest master alive can make itself the leader by steps of its own. */
  lemma {:induction false} OldestCanLead(p: Protocol, run: seq<World>, s: nat) returns (longer: seq<World>)
    requires IsRun(p, run) && CanBegin(p, Last(run), s)
    ensures IsRun(p, longer) && run <= longer && SameMasters(Last(run), Last(longer)) && Leads(p, Last(longer), s)
  {
    var prepared := Prepare(p, run, s);
    var matched := Match(p, prepared, s);
    longer := Claim(p, matched, s);
    PrefixTransitive(run, prepared, matched);
    PrefixTransitive(run, matched, longer);
  }

  /** A new master joins when the session of the last one alive has ended. */
  lemma {:induction false} Replace(p: Protocol, run: seq<World>, n: nat) returns (longer: seq<World>)
    requires IsRun(p, run) && n + 1 < 10_000_000_000
    requires Last(run).live == {n} && Last(run).counter == n + 1 && Leads(p, Last(run), n)
    ensures IsRun(p, longer) && run <= longer
    ensures Last(longer).live == {n + 1} && Last(longer).counter == n + 2 && CanBegin(p, Last(longer), n + 1)
  {
    TenDigits();
    StepOn(p, run, Expire(n));
    var ended := Then(p, run, Expire(n));
    StepOn(p, ended, Join);
    longer := Then(p, ended, Join);
    NodeOrder(n, n + 1);
    assert ("/masters/" + Node(n))[9..] == Node(n) && ("/masters/" + Node(n + 1))[9..] == Node(n + 1);
  }

  lemma {:induction false} FirstJoins(p: Protocol) returns (run: seq<World>)
    ensures IsRun(p, run) && Last(run).live == {0} && Last(run).counter == 1 && CanBegin(p, Last(run), 0)
  {
    TenDigits();
    StepOn(p, [INITIAL], Join);
    run := Then(p, [INITIAL], Join);
  }

  /** However many leaders have been lost before, the next master to join can lead. */
  lemma {:induction false} SuccessionGoesOn(p: Protocol, n: nat) returns (run: seq<World>)
    requires n < 10_000_000_000
    ensures IsRun(p, run) && Last(run).live == {n} && Last(run).counter == n + 1 && Leads(p, Last(run), n)
    decreases n
  {
    var start: seq<World>;
    if n == 0 {
      start := FirstJoins(p);
    } else {
      var before := SuccessionGoesOn(p, n - 1);
      start := Replace(p, before, n - 1);
    }
    run := OldestCanLead(p, start, n);
  }
}
