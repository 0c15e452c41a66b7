/**
 Leader election: elect_leader and wait_until_leader of w7/src/master/masterimpl.cc, and the
 polling loop of w6/src/master/master.cc. ZooKeeper is an atomic store; every call on it is one
 step, so a child list may be out of date by the time a master acts on it. A master is known
 by the sequence number of its ephemeral node, and the end of its session removes all its nodes.
 */
module LeaderElection {
  import opened Sequences
  import opened Decimal
  import opened Lexicographic

  /** w7 claims /leader when a watch fires; w6 polls and writes its path to /masters. */
  datatype Protocol = Watching | Polling

  datatype Position =
    | Idle
    | HasRead(data: string)          // w6: has read the data of /masters
    | Checked                        // w6: has seen that there is no leader
    | Listed(children: seq<string>)  // has read the children of /masters
    | Matched                        // found its own node first in order
    | Created                        // w7: has created /leader
    | Leading

  datatype LeaderNode = LeaderNode(owner: nat, data: string)

  datatype World = World(
    counter: nat,                    // of the sequential nodes under /masters
    live: set<nat>,                  // the masters whose session is alive
    leader: Option<LeaderNode>,      // /leader
    mastersData: string,             // the data of /masters
    at: map<nat, Position>)          // what each master that ever joined is doing

  datatype Label =
    | Join
    | Expire(s: nat)
    | Read(s: nat)
    | Check(s: nat)
    | Wait(s: nat)
    | List(s: nat, found: seq<string>)
    | Compare(s: nat)
    | Create(s: nat)
    | SetData(s: nat)

  /** Sequential nodes have ten digits. */
  const WIDTH: nat := 10

  function Node(s: nat): string {
    "master_" + Pad(s, WIDTH)
  }

  function Path(s: nat): string {
    "/masters/" + Node(s)
  }

  /** getChildren returns every live node once, in no particular order. */
  predicate IsListing(live: set<nat>, children: seq<string>) {
    && Distinct(children)
    && (forall i :: 0 <= i < |children| ==> exists s :: s in live && children[i] == Node(s))
    && forall s :: s in live ==> Node(s) in children
  }

  predicate Exists(w: World, path: string) {
    exists s :: s in w.live && path == Path(s)
  }

  predicate CanAct(w: World, s: nat) {
    s in w.live && s in w.at
  }

  predicate Enabled(p: Protocol, w: World, l: Label) {
    match l
    case Join => w.counter < Pow10(WIDTH)
    case Expire(s) => s in w.live
    case Read(s) => p.Polling? && CanAct(w, s) && w.at[s].Idle?
    case Check(s) => CanAct(w, s) && w.at[s].HasRead? && (w.at[s].data == "" || !Exists(w, w.at[s].data))
    case Wait(s) => CanAct(w, s) && w.at[s].HasRead? && w.at[s].data != "" && Exists(w, w.at[s].data)
    case List(s, found) => CanAct(w, s) && (if p.Polling? then w.at[s].Checked? else w.at[s].Idle?) &&
        IsListing(w.live, found)
    case Compare(s) => CanAct(w, s) && w.at[s].Listed?
    case Create(s) => p.Watching? && CanAct(w, s) && w.at[s].Matched?
    case SetData(s) => CanAct(w, s) && (if p.Polling? then w.at[s].Matched? else w.at[s].Created?)
  }

  /** `children.at(0)` after sorting is the master's own node. */
  predicate Smallest(children: seq<string>, s: nat) {
    children != [] && Sort(children) != [] && "/masters/" + Sort(children)[0] == Path(s)
  }

  function Apply(p: Protocol, w: World, l: Label): World
    requires Enabled(p, w, l)
  {
    match l
    case Join => w.(counter := w.counter + 1, live := w.live + {w.counter}, at := w.at[w.counter := Idle])
    case Expire(s) =>
      w.(live := w.live - {s}, leader := if w.leader.Some? && w.leader.value.owner == s then None else w.leader)
    case Read(s) => w.(at := w.at[s := HasRead(w.mastersData)])
    case Check(s) => w.(at := w.at[s := Checked])
    case Wait(s) => w.(at := w.at[s := Idle])
    case List(s, found) => w.(at := w.at[s := Listed(found)])
    case Compare(s) => w.(at := w.at[s := if Smallest(w.at[s].children, s) then Matched else Idle])
    case Create(s) =>
      // creating a node that exists already is an error and changes nothing
      w.(leader := if w.leader.None? then Some(LeaderNode(s, "")) else w.leader, at := w.at[s := Created])
    case SetData(s) =>
      if p.Polling? then w.(mastersData := Path(s), at := w.at[s := Leading])
      else
        w.(leader := if w.leader.Some? then Some(w.leader.value.(data := Node(s))) else None, at := w.at[s := Leading])
  }

  ghost predicate Step(p: Protocol, w: World, w': World) {
    exists l :: Enabled(p, w, l) && w' == Apply(p, w, l)
  }

  const INITIAL := World(0, {}, None, "", map[])

  ghost predicate IsRun(p: Protocol, run: seq<World>) {
    && run != [] && run[0] == INITIAL
    && forall i :: 0 <= i < |run| - 1 ==> Step(p, run[i], run[i + 1])
  }

  /** From its comparison on, a master acts as the leader. */
  predicate Claims(w: World, s: nat) {
    s in w.live && s in w.at && (w.at[s].Matched? || w.at[s].Created? || w.at[s].Leading?)
  }

  // ----- names -----

  lemma {:induction false} TenDigits()
    ensures Pow10(WIDTH) == 10_000_000_000
  {
    assert Pow10(1) == 10 && Pow10(2) == 100 && Pow10(3) == 1000 && Pow10(4) == 10_000 && Pow10(5) == 100_000;
    assert Pow10(6) == 1_000_000 && Pow10(7) == 10_000_000 && Pow10(8) == 100_000_000 && Pow10(9) == 1_000_000_000;
  }

  /** A node is named by its number with ten digits, as ZooKeeper names sequential nodes. */
  lemma {:induction false} NodeName(s: nat)
    requires s < 10_000_000_000
    ensures |ToString(s)| <= 10 && Node(s) == "master_" + Zeros(10 - |ToString(s)|) + ToString(s)
  {
    TenDigits();
    PadIs(s, WIDTH);
  }

  /** Zero padding makes the order of names the order of sequence numbers. */
  lemma {:induction false} NodeOrder(s: nat, t: nat)
    requires s < Pow10(WIDTH) && t < Pow10(WIDTH)
    ensures Less(Node(s), Node(t)) <==> s < t
    ensures Node(s) == Node(t) <==> s == t
  {
    PadOrder(s, t, WIDTH);
    LessPrefix("master_", Pad(s, WIDTH), Pad(t, WIDTH));
    assert Node(s)[7..] == Pad(s, WIDTH) && Node(t)[7..] == Pad(t, WIDTH);
  }

  lemma {:induction false} SmallestIsLeast(children: seq<string>, s: nat, t: nat)
    requires Smallest(children, s) && Node(t) in children && s < Pow10(WIDTH) && t < Pow10(WIDTH)
    ensures s <= t
  {
    var sorted := Sort(children);
    SortSorts(children);
    assert Node(t) in multiset(children) && Node(t) in multiset(sorted);
    assert ("/masters/" + sorted[0])[9..] == sorted[0] && Path(s)[9..] == Node(s);
    SortedFirst(sorted, Node(t));
    NodeOrder(t, s);
  }

  lemma {:induction false} SmallestIsListed(children: seq<string>, s: nat)
    requires Smallest(children, s)
    ensures Node(s) in children
  {
    var sorted := Sort(children);
    SortSorts(children);
    assert ("/masters/" + sorted[0])[9..] == sorted[0] && Path(s)[9..] == Node(s);
    assert sorted[0] in multiset(sorted);
    assert Node(s) in multiset(children);
  }

  // ----- what every step keeps -----

  predicate Registered(w: World) {
    && w.counter <= Pow10(WIDTH)
    && (forall s :: s in w.live ==> s < w.counter && s in w.at)
    && forall s :: s in w.at ==> s < w.counter
  }

  /** However old a child list is: who is alive and not in it came later than all who are in it. */
  ghost predicate ListOk(w: World, children: seq<string>) {
    forall t, u: nat :: t in w.live && Node(t) !in children && u < Pow10(WIDTH) && Node(u) in children ==> u < t
  }

  ghost predicate ListsOk(w: World) {
    forall s :: s in w.live && s in w.at && w.at[s].Listed? ==> ListOk(w, w.at[s].children)
  }

  ghost predicate ClaimsAreLeast(w: World) {
    forall s, t :: Claims(w, s) && t in w.live ==> s <= t
  }

  ghost predicate LeaderNodeOk(p: Protocol, w: World) {
    && (w.leader.Some? ==> p.Watching? && Claims(w, w.leader.value.owner) && !w.at[w.leader.value.owner].Matched?)
    && (p.Watching? ==> forall s :: Claims(w, s) && !w.at[s].Matched? ==>
          && w.leader.Some? && w.leader.value.owner == s
          && (w.at[s].Leading? ==> w.leader.value.data == Node(s)))
    && (p.Polling? ==> forall s :: Claims(w, s) && w.at[s].Leading? ==> w.mastersData == "/masters/" + Node(s))
  }

  /** The path is that of a master that has made itself the leader. */
  predicate LeaderPath(w: World, path: string) {
    exists t :: t in w.at && w.at[t].Leading? && path == "/masters/" + Node(t)
  }

  /** w6: whatever stands in /masters, or has been read from there, is empty or the path of a leader. */
  ghost predicate RecordsOk(p: Protocol, w: World) {
    && (w.mastersData != "" ==> LeaderPath(w, w.mastersData))
    && forall s :: s in w.at && w.at[s].HasRead? ==> p.Polling? && (w.at[s].data != "" ==> LeaderPath(w, w.at[s].data))
  }

  ghost predicate Inv(p: Protocol, w: World) {
    Registered(w) && ListsOk(w) && ClaimsAreLeast(w) && LeaderNodeOk(p, w) && RecordsOk(p, w)
  }

  lemma {:induction false} LeaderPathKept(p: Protocol, w: World, l: Label, path: string)
    requires Registered(w) && Enabled(p, w, l) && LeaderPath(w, path)
    ensures LeaderPath(Apply(p, w, l), path)
  {
    var t :| t in w.at && w.at[t].Leading? && path == "/masters/" + Node(t);
    assert Apply(p, w, l).at[t].Leading?;
  }

  lemma {:induction false} StepKeepsRecords(p: Protocol, w: World, l: Label)
    requires Inv(p, w) && Enabled(p, w, l)
    ensures RecordsOk(p, Apply(p, w, l))
  {
    var w' := Apply(p, w, l);
    if w'.mastersData != "" {
      if w'.mastersData == w.mastersData {
        LeaderPathKept(p, w, l, w.mastersData);
      } else {
        assert w'.at[l.s].Leading? && w'.mastersData == "/masters/" + Node(l.s);
      }
    }
    forall s | s in w'.at && w'.at[s].HasRead?
      ensures p.Polling? && (w'.at[s].data != "" ==> LeaderPath(w', w'.at[s].data))
    {
      if w'.at[s].data != "" {
        LeaderPathKept(p, w, l, w'.at[s].data);
      }
    }
  }

  lemma {:induction false} ListingNamesLive(w: World, found: seq<string>, u: nat)
    requires Registered(w) && IsListing(w.live, found) && u < Pow10(WIDTH) && Node(u) in found
    ensures u in w.live
  {
    var i :| 0 <= i < |found| && found[i] == Node(u);
    var s :| s in w.live && found[i] == Node(s);
    NodeOrder(s, u);
  }

  lemma {:induction false} JoinKeepsLists(p: Protocol, w: World)
    requires Inv(p, w) && Enabled(p, w, Join) && ListsNameJoined(w)
    ensures ListsOk(Apply(p, w, Join))
  {
    var w' := Apply(p, w, Join);
    forall s | s in w'.live && s in w'.at && w'.at[s].Listed? ensures ListOk(w', w'.at[s].children) {
      assert ListOk(w, w.at[s].children);
    }
  }

  /** A child list holds no number that has not been given out yet. */
  ghost predicate ListsNameJoined(w: World) {
    forall s, u: nat :: s in w.at && w.at[s].Listed? && u < Pow10(WIDTH) && Node(u) in w.at[s].children ==>
        u < w.counter
  }

  lemma {:induction false} NameJoinedStep(p: Protocol, w: World, l: Label)
    requires Inv(p, w) && ListsNameJoined(w) && Enabled(p, w, l)
    ensures ListsNameJoined(Apply(p, w, l))
  {
    if l.List? {
      forall u: nat | u < Pow10(WIDTH) && Node(u) in l.found ensures u < w.counter {
        ListingNamesLive(w, l.found, u);
      }
    }
  }

  lemma {:induction false} ListKeepsLists(p: Protocol, w: World, l: Label)
    requires Inv(p, w) && l.List? && Enabled(p, w, l)
    ensures ListsOk(Apply(p, w, l))
  {
    var w' := Apply(p, w, l);
    forall s | s in w'.live && s in w'.at && w'.at[s].Listed? ensures ListOk(w', w'.at[s].children) {
      if s != l.s {
        assert ListOk(w, w.at[s].children);
      }
    }
  }

  lemma {:induction false} OtherKeepsLists(p: Protocol, w: World, l: Label)
    requires Inv(p, w) && !l.List? && !l.Join? && Enabled(p, w, l)
    ensures ListsOk(Apply(p, w, l))
  {
    var w' := Apply(p, w, l);
    forall s | s in w'.live && s in w'.at && w'.at[s].Listed? ensures ListOk(w', w'.at[s].children) {
      assert w.at[s] == w'.at[s] && ListOk(w, w.at[s].children);
    }
  }

  /** Being first in a list, however old, means being the oldest master alive. */
  lemma {:induction false} MatchIsLeast(p: Protocol, w: World, s: nat, t: nat)
    requires Inv(p, w) && s in w.live && w.at[s].Listed? && Smallest(w.at[s].children, s) && t in w.live
    ensures s <= t
  {
    var children := w.at[s].children;
    SmallestIsListed(children, s);
    assert ListOk(w, children);
    if Node(t) in children {
      SmallestIsLeast(children, s, t);
    }
  }

  lemma {:induction false} CompareKeepsClaims(p: Protocol, w: World, l: Label)
    requires Inv(p, w) && l.Compare? && Enabled(p, w, l)
    ensures ClaimsAreLeast(Apply(p, w, l)) && LeaderNodeOk(p, Apply(p, w, l))
  {
    var w' := Apply(p, w, l);
    forall s, t | Claims(w', s) && t in w'.live ensures s <= t {
      if s == l.s {
        MatchIsLeast(p, w, s, t);
      } else {
        assert Claims(w, s);
      }
    }
    forall s | Claims(w', s) && !w'.at[s].Matched? ensures Claims(w, s) && w.at[s] == w'.at[s] {
    }
  }

  /** /leader does not exist when a master creates it. */
  lemma {:induction false} NoLeaderYet(p: Protocol, w: World, s: nat)
    requires Inv(p, w) && Enabled(p, w, Create(s))
    ensures w.leader.None?
  {
    if w.leader.Some? {
      var o := w.leader.value.owner;
      assert Claims(w, s) && Claims(w, o);
    }
  }

  lemma {:induction false} CreateKeepsClaims(p: Protocol, w: World, l: Label)
    requires Inv(p, w) && l.Create? && Enabled(p, w, l)
    ensures ClaimsAreLeast(Apply(p, w, l)) && LeaderNodeOk(p, Apply(p, w, l))
  {
    var w' := Apply(p, w, l);
    NoLeaderYet(p, w, l.s);
    forall s ensures Claims(w', s) <==> Claims(w, s) {
    }
    forall s | Claims(w, s) ensures s == l.s {
      assert Claims(w, l.s);
    }
  }

  lemma {:induction false} SetDataKeepsClaims(p: Protocol, w: World, l: Label)
    requires Inv(p, w) && l.SetData? && Enabled(p, w, l)
    ensures ClaimsAreLeast(Apply(p, w, l)) && LeaderNodeOk(p, Apply(p, w, l))
  {
    var w' := Apply(p, w, l);
    forall s ensures Claims(w', s) <==> Claims(w, s) {
    }
    forall s | Claims(w, s) ensures s == l.s {
      assert Claims(w, l.s);
    }
  }

  lemma {:induction false} QuietKeepsClaims(p: Protocol, w: World, l: Label)
    requires Inv(p, w) && (l.Join? || l.Expire? || l.Read? || l.Check? || l.Wait? || l.List?) && Enabled(p, w, l)
    ensures ClaimsAreLeast(Apply(p, w, l)) && LeaderNodeOk(p, Apply(p, w, l))
  {
    var w' := Apply(p, w, l);
    forall s | Claims(w', s) ensures Claims(w, s) && w'.at[s] == w.at[s] {
    }
  }

  lemma {:induction false} InvStep(p: Protocol, w: World, l: Label)
    requires Inv(p, w) && ListsNameJoined(w) && Enabled(p, w, l)
    ensures Inv(p, Apply(p, w, l)) && ListsNameJoined(Apply(p, w, l))
  {
    NameJoinedStep(p, w, l);
    StepKeepsRecords(p, w, l);
    match l {
      case Join =>
        JoinKeepsLists(p, w);
        QuietKeepsClaims(p, w, l);
      case List(_, _) =>
        ListKeepsLists(p, w, l);
        QuietKeepsClaims(p, w, l);
      case Compare(_) =>
        OtherKeepsLists(p, w, l);
        CompareKeepsClaims(p, w, l);
      case Create(_) =>
        OtherKeepsLists(p, w, l);
        CreateKeepsClaims(p, w, l);
      case SetData(_) =>
        OtherKeepsLists(p, w, l);
        SetDataKeepsClaims(p, w, l);
      case Expire(_) =>
        OtherKeepsLists(p, w, l);
        QuietKeepsClaims(p, w, l);
      case Read(_) =>
        OtherKeepsLists(p, w, l);
        QuietKeepsClaims(p, w, l);
      case Check(_) =>
        OtherKeepsLists(p, w, l);
        QuietKeepsClaims(p, w, l);
      case Wait(_) =>
        OtherKeepsLists(p, w, l);
        QuietKeepsClaims(p, w, l);
    }
  }

  lemma {:induction false} InvRun(p: Protocol, run: seq<World>, i: nat)
    requires IsRun(p, run) && i < |run|
    ensures Inv(p, run[i]) && ListsNameJoined(run[i])
  {
    if i > 0 {
      InvRun(p, run, i - 1);
      assert Step(p, run[i - 1], run[i - 1 + 1]);
      var l :| Enabled(p, run[i - 1], l) && run[i] == Apply(p, run[i - 1], l);
      InvStep(p, run[i - 1], l);
    }
  }
}
