/**
 The leader's list of workers: update_workers and findMinReqHealthyClient of
 w7/src/master/masterimpl.cc on the clients of w7/src/master/mrclient.h.
 */
module Clients {
  import opened Arithmetic
  import opened Sequences
  import opened TextFile

  datatype PingStatus = PING_CHECK | PING_SUCCESS | PING_FAIL

  /** struct client_info */
  datatype ClientInfo = ClientInfo(address: string, nodeid: string)

  class MapReduceClient {
    var pingStatus: PingStatus
    var nMapRequests: int
    var nReduceRequests: int

    constructor ()
      ensures nMapRequests == 0 && nReduceRequests == 0
    {
      nMapRequests, nReduceRequests := 0, 0;
    }

    function Requests(bReduce: bool): int
      reads this
    {
      if bReduce then nReduceRequests else nMapRequests
    }

    function Healthy(): bool
      reads this
    {
      pingStatus.PING_SUCCESS?
    }

    /** The counting part of invokeMapTaskAsync and invokeReduceTaskAsync; answers never count down. */
    method Invoke(bReduce: bool)
      modifies this`nMapRequests, this`nReduceRequests
      ensures nMapRequests == old(nMapRequests) + if bReduce then 0 else 1
      ensures nReduceRequests == old(nReduceRequests) + if bReduce then 1 else 0
    {
      if bReduce {
        nReduceRequests := nReduceRequests + 1;
      } else {
        nMapRequests := nMapRequests + 1;
      }
    }
  }

  type Entry = (MapReduceClient, ClientInfo)

  function Suffix(path: string): string {
    path[AfterLast(path, '/')..]
  }

  function WorkerPath(w: string): string {
    "/workers/" + w
  }

  lemma {:induction false} SuffixOfPath(w: string)
    requires '/' !in w
    ensures Suffix(WorkerPath(w)) == w
  {
    assert WorkerPath(w) == "/workers" + ['/'] + w;
    AfterLastIs("/workers", '/', w);
  }

  /** The clients whose node is still listed, in their old order. */
  function Surviving(es: seq<Entry>, wrkrs: seq<string>): seq<Entry> {
    if es == [] then []
    else (if Suffix(es[0].1.nodeid) in wrkrs then [es[0]] else []) + Surviving(es[1..], wrkrs)
  }

  lemma {:induction false} SurvivingConcat(a: seq<Entry>, b: seq<Entry>, wrkrs: seq<string>)
    ensures Surviving(a + b, wrkrs) == Surviving(a, wrkrs) + Surviving(b, wrkrs)
  {
    if a == [] {
      assert a + b == b;
    } else {
      var one := if Suffix(a[0].1.nodeid) in wrkrs then [a[0]] else [];
      assert (a + b)[1..] == a[1..] + b && (a + b)[0] == a[0];
      SurvivingConcat(a[1..], b, wrkrs);
      assert one + (Surviving(a[1..], wrkrs) + Surviving(b, wrkrs))
          == (one + Surviving(a[1..], wrkrs)) + Surviving(b, wrkrs);
    }
  }

  lemma {:induction false} SurvivingAll(es: seq<Entry>, wrkrs: seq<string>)
    requires forall i :: 0 <= i < |es| ==> Suffix(es[i].1.nodeid) in wrkrs
    ensures Surviving(es, wrkrs) == es
  {
    if es != [] {
      SurvivingAll(es[1..], wrkrs);
    }
  }

  lemma {:induction false} SurvivingMember(es: seq<Entry>, wrkrs: seq<string>, e: Entry)
    ensures e in Surviving(es, wrkrs) <==> e in es && Suffix(e.1.nodeid) in wrkrs
  {
    if es != [] {
      SurvivingMember(es[1..], wrkrs, e);
      assert es == [es[0]] + es[1..];
    }
  }

  predicate HasNode(es: seq<Entry>, path: string) {
    exists i :: 0 <= i < |es| && es[i].1.nodeid == path
  }

  /** There is an entry for each of the first n workers. */
  predicate HasNodes(es: seq<Entry>, wrkrs: seq<string>, n: nat)
    requires n <= |wrkrs|
  {
    forall k :: 0 <= k < n ==> HasNode(es, WorkerPath(wrkrs[k]))
  }

  predicate Apart(e: Entry, es: seq<Entry>) {
    forall i :: 0 <= i < |es| ==> es[i].0 != e.0 && es[i].1.nodeid != e.1.nodeid
  }

  /** One client a node, one entry a client, and paths as ZooKeeper builds them. */
  predicate Listed(es: seq<Entry>) {
    es == [] || (es[0].1.nodeid == WorkerPath(Suffix(es[0].1.nodeid)) && Apart(es[0], es[1..]) && Listed(es[1..]))
  }

  lemma {:induction false} ListedAt(es: seq<Entry>, k: nat)
    requires Listed(es) && k < |es|
    ensures es[k].1.nodeid == WorkerPath(Suffix(es[k].1.nodeid))
  {
    if k > 0 {
      ListedAt(es[1..], k - 1);
    }
  }

  lemma {:induction false} ListedApart(es: seq<Entry>, i: nat, j: nat)
    requires Listed(es) && i < j < |es|
    ensures es[i].0 != es[j].0 && es[i].1.nodeid != es[j].1.nodeid
  {
    if i > 0 {
      ListedApart(es[1..], i - 1, j - 1);
    } else {
      assert es[j] == es[1..][j - 1];
    }
  }

  lemma {:induction false} SurvivingApart(e: Entry, es: seq<Entry>, wrkrs: seq<string>)
    requires Apart(e, es)
    ensures Apart(e, Surviving(es, wrkrs))
  {
    if es != [] {
      SurvivingApart(e, es[1..], wrkrs);
    }
  }

  lemma {:induction false} SurvivingListed(es: seq<Entry>, wrkrs: seq<string>)
    requires Listed(es)
    ensures Listed(Surviving(es, wrkrs))
  {
    if es != [] {
      var rest := Surviving(es[1..], wrkrs);
      SurvivingListed(es[1..], wrkrs);
      SurvivingApart(es[0], es[1..], wrkrs);
      assert ([es[0]] + rest)[1..] == rest && [] + rest == rest;
    }
  }

  predicate NewEntry(e: Entry)
    reads e.0
  {
    e.0.nMapRequests == 0 && e.0.nReduceRequests == 0
  }

  /** Clients without requests, of listed nodes, with the data of their nodes as addresses. */
  ghost predicate AllNew(es: seq<Entry>, wrkrs: seq<string>, addresses: map<string, string>)
    reads set e | e in es :: e.0
  {
    forall k :: 0 <= k < |es| ==>
      && NewEntry(es[k]) && Suffix(es[k].1.nodeid) in wrkrs
      && (es[k].1.nodeid in addresses ==> es[k].1.address == addresses[es[k].1.nodeid])
  }

  lemma {:induction false} AllNewConcat(a: seq<Entry>, b: seq<Entry>, wrkrs: seq<string>,
      addresses: map<string, string>)
    requires AllNew(a, wrkrs, addresses) && AllNew(b, wrkrs, addresses)
    ensures AllNew(a + b, wrkrs, addresses)
  {
  }

  /** Children of a ZooKeeper node: distinct names without slashes. */
  predicate IsChildList(wrkrs: seq<string>) {
    Distinct(wrkrs) && forall i :: 0 <= i < |wrkrs| ==> '/' !in wrkrs[i]
  }

  class WorkerList {
    var clients: seq<MapReduceClient>
    var clientMap: map<MapReduceClient, ClientInfo>

    constructor ()
      ensures Valid() && clients == []
    {
      clients, clientMap := [], map[];
    }

    ghost predicate Mapped()
      reads this
    {
      clientMap.Keys == Elements(clients)
    }

    ghost function Entries(): (r: seq<Entry>)
      requires Mapped()
      reads this
      ensures |r| == |clients| && forall i :: 0 <= i < |clients| ==> r[i] == (clients[i], clientMap[clients[i]])
    {
      seq(|clients|, i requires 0 <= i < |clients| && clients[i] in clientMap reads this =>
                       (clients[i], clientMap[clients[i]]))
    }

    ghost predicate Valid()
      reads this
    {
      Mapped() && Listed(Entries())
    }

    method WorkerClientAlreadyAdded(path: string) returns (added: bool)
      requires Mapped()
      ensures added == HasNode(Entries(), path)
    {
      for i := 0 to |clients|
        invariant forall j :: 0 <= j < i ==> Entries()[j].1.nodeid != path
      {
        assert Entries()[i] == (clients[i], clientMap[clients[i]]);
        if clientMap[clients[i]].nodeid == path {
          return true;
        }
      }
      added := false;
    }

    method AddClient(client: MapReduceClient, address: string, path: string)
      requires Mapped() && client !in clientMap
      modifies this
      ensures Mapped() && Entries() == old(Entries()) + [(client, ClientInfo(address, path))]
    {
      ghost var before := clients;
      clientMap := clientMap[client := ClientInfo(address, path)];
      clients := clients + [client];
      assert Elements(clients) == Elements(before) + {client};
    }

    /** Erases client i from the vector and from the map. */
    method RemoveClient(i: nat)
      requires Valid() && i < |clients|
      modifies this
      ensures Valid() && Entries() == old(Entries())[..i] + old(Entries())[i + 1..]
    {
      ghost var es := Entries();
      DistinctClients(clients, es);
      ElementsWithout(clients, i);
      RemovedEntries(clients, clientMap, es, i);
      RemovalListed(es, i);
      clientMap := clientMap - {clients[i]};
      clients := clients[..i] + clients[i + 1..];
      assert Entries() == es[..i] + es[i + 1..];
    }

    /** One turn of the loop that adds clients; `soFar` are the entries it has added already. */
    method AddWorker(w: string, wrkrs: seq<string>, addresses: map<string, string>,
                     ghost before: seq<Entry>, ghost soFar: seq<Entry>)
      returns (ghost added: seq<Entry>)
      requires Valid() && '/' !in w && w in wrkrs && Entries() == before + soFar && AllNew(soFar, wrkrs, addresses)
      modifies this
      ensures Valid() && Entries() == before + added && AllNew(added, wrkrs, addresses)
      ensures soFar <= added && HasNode(Entries(), WorkerPath(w))
    {
      var path := "/workers/" + w;
      var already := WorkerClientAlreadyAdded(path);
      added := soFar;
      if !already {
        // a node whose data cannot be read gives no address
        var address := if path in addresses then addresses[path] else "";
        ghost var e := NewWorker(w, address);
        AllNewConcat(soFar, [e], wrkrs, addresses);
        Associate(before, soFar, [e]);
        added := soFar + [e];
      }
    }

    /** A client for a node that has none. */
    method NewWorker(w: string, address: string) returns (ghost e: Entry)
      requires Valid() && '/' !in w && !HasNode(Entries(), WorkerPath(w))
      modifies this
      ensures Valid() && Entries() == old(Entries()) + [e] && HasNode(Entries(), WorkerPath(w))
      ensures fresh(e.0) && NewEntry(e) && e.1 == ClientInfo(address, "/workers/" + w) && Suffix(e.1.nodeid) == w
    {
      ghost var es := Entries();
      var path := "/workers/" + w;
      var client := new MapReduceClient();
      e := (client, ClientInfo(address, path));
      AddClient(client, address, path);
      SuffixOfPath(w);
      ListedSnoc(es, e);
      HasNodeSnoc(es, e, path);
    }

    /** Adds a client for every listed node that has none. */
    method AddMissing(wrkrs: seq<string>, addresses: map<string, string>) returns (ghost added: seq<Entry>)
      requires Valid() && IsChildList(wrkrs)
      modifies this
      ensures Valid() && Entries() == old(Entries()) + added && AllNew(added, wrkrs, addresses)
      ensures HasNodes(Entries(), wrkrs, |wrkrs|)
    {
      added := [];
      ghost var before := Entries();
      for i := 0 to |wrkrs|
        invariant Valid() && Entries() == before + added && AllNew(added, wrkrs, addresses)
        invariant HasNodes(before + added, wrkrs, i)
      {
        ghost var more := AddWorker(wrkrs[i], wrkrs, addresses, before, added);
        NodesKept(before, added, more, wrkrs, i);
        added := more;
      }
    }

    /** Looks at client i, which is entry j of the original list, and moves on. */
    method KeepOrRemove(i: nat, wrkrs: seq<string>, ghost es: seq<Entry>, ghost j: nat) returns (next: nat)
      requires Valid() && i < |clients| && j < |es|
      requires i == |Surviving(es[..j], wrkrs)| && Entries() == Surviving(es[..j], wrkrs) + es[j..]
      modifies this
      ensures Valid() && |clients| - next < old(|clients|) - i
      ensures next == |Surviving(es[..j + 1], wrkrs)| && Entries() == Surviving(es[..j + 1], wrkrs) + es[j + 1..]
    {
      RemovalStep(es, j, wrkrs);
      SurvivingSnoc(es, j, wrkrs);
      assert Entries()[i] == (clients[i], clientMap[clients[i]]);
      var stored := Suffix(clientMap[clients[i]].nodeid);
      if stored in wrkrs {
        next := i + 1;
      } else {
        RemoveClient(i);
        next := i;
      }
    }

    /** Removes every client whose node is not listed, while iterating over the vector. */
    method RemoveMissing(wrkrs: seq<string>)
      requires Valid()
      modifies this
      ensures Valid() && Entries() == Surviving(old(Entries()), wrkrs)
    {
      ghost var es := Entries();
      ghost var j := 0;
      var i := 0;
      NothingLookedAt(es, wrkrs);
      while i < |clients|
        invariant Valid() && 0 <= j <= |es|
        invariant i == |Surviving(es[..j], wrkrs)| && Entries() == Surviving(es[..j], wrkrs) + es[j..]
        decreases |clients| - i
      {
        i := KeepOrRemove(i, wrkrs, es, j);
        j := j + 1;
      }
      AllLookedAt(es, j, wrkrs);
    }

    /** update_workers: the list becomes what ZooKeeper lists; who stays keeps place, entry and counters. */
    method UpdateWorkers(wrkrs: seq<string>, addresses: map<string, string>) returns (ghost added: seq<Entry>)
      requires Valid() && IsChildList(wrkrs)
      modifies this
      ensures Valid() && Entries() == Surviving(old(Entries()), wrkrs) + added
      ensures AllNew(added, wrkrs, addresses)
      ensures forall path :: HasNode(Entries(), path) <==>
                exists i :: 0 <= i < |wrkrs| && path == "/workers/" + wrkrs[i]
    {
      ghost var before := Entries();
      added := AddMissing(wrkrs, addresses);
      RemoveMissing(wrkrs);
      SurvivingConcat(before, added, wrkrs);
      SurvivingAll(added, wrkrs);
      forall path
        ensures HasNode(Entries(), path) <==> exists i :: 0 <= i < |wrkrs| && path == "/workers/" + wrkrs[i]
      {
        UpdatedNodes(before, added, wrkrs, path);
      }
    }
  }

  predicate EntriesAre(cs: seq<MapReduceClient>, m: map<MapReduceClient, ClientInfo>, es: seq<Entry>) {
    |es| == |cs| && forall k :: 0 <= k < |cs| ==> cs[k] in m && es[k] == (cs[k], m[cs[k]])
  }

  lemma {:induction false} RemovedEntries(cs: seq<MapReduceClient>, m: map<MapReduceClient, ClientInfo>,
      es: seq<Entry>, i: nat)
    requires EntriesAre(cs, m, es) && Distinct(cs) && i < |cs|
    ensures EntriesAre(cs[..i] + cs[i + 1..], m - {cs[i]}, es[..i] + es[i + 1..])
  {
  }

  lemma {:induction false} ApartWithout(e: Entry, es: seq<Entry>, i: nat)
    requires Apart(e, es) && i < |es|
    ensures Apart(e, es[..i] + es[i + 1..])
  {
  }

  lemma {:induction false} RemovalListed(es: seq<Entry>, i: nat)
    requires Listed(es) && i < |es|
    ensures Listed(es[..i] + es[i + 1..])
  {
    var rest := es[..i] + es[i + 1..];
    if i == 0 {
      assert rest == es[1..];
    } else {
      RemovalListed(es[1..], i - 1);
      ApartWithout(es[0], es[1..], i - 1);
      assert rest[1..] == es[1..][..i - 1] + es[1..][i..];
    }
  }

  lemma {:induction false} DistinctClients(cs: seq<MapReduceClient>, es: seq<Entry>)
    requires |es| == |cs| && (forall k :: 0 <= k < |cs| ==> es[k].0 == cs[k]) && Listed(es)
    ensures Distinct(cs)
  {
    forall i, j | 0 <= i < j < |cs| ensures cs[i] != cs[j] {
      ListedApart(es, i, j);
    }
  }

  lemma {:induction false} ElementsWithout(cs: seq<MapReduceClient>, i: nat)
    requires Distinct(cs) && i < |cs|
    ensures Elements(cs[..i] + cs[i + 1..]) == Elements(cs) - {cs[i]}
  {
    var rest := cs[..i] + cs[i + 1..];
    forall c ensures c in rest <==> c in cs && c != cs[i] {
      if c in cs && c != cs[i] {
        var k :| 0 <= k < |cs| && cs[k] == c;
        assert c == rest[if k < i then k else k - 1];
      }
    }
  }

  lemma {:induction false} ApartSnoc(e: Entry, es: seq<Entry>, last: Entry)
    requires Apart(e, es) && last.0 != e.0 && last.1.nodeid != e.1.nodeid
    ensures Apart(e, es + [last])
  {
  }

  lemma {:induction false} ListedSnoc(es: seq<Entry>, e: Entry)
    requires Listed(es) && Apart(e, es) && e.1.nodeid == WorkerPath(Suffix(e.1.nodeid))
    ensures Listed(es + [e])
  {
    if es == [] {
      assert ([] + [e])[1..] == [];
    } else {
      assert (es + [e])[1..] == es[1..] + [e];
      assert Apart(e, es[1..]);
      ListedSnoc(es[1..], e);
      ApartSnoc(es[0], es[1..], e);
    }
  }

  lemma {:induction false} HasNodeSnoc(es: seq<Entry>, e: Entry, path: string)
    ensures HasNode(es + [e], path) <==> HasNode(es, path) || e.1.nodeid == path
  {
    var longer := es + [e];
    if HasNode(es, path) {
      var i :| 0 <= i < |es| && es[i].1.nodeid == path;
      assert longer[i].1.nodeid == path;
    } else if e.1.nodeid == path {
      assert longer[|es|].1.nodeid == path;
    }
  }

  lemma {:induction false} HasNodeConcat(a: seq<Entry>, b: seq<Entry>, path: string)
    requires HasNode(a, path)
    ensures HasNode(a + b, path)
  {
    var i :| 0 <= i < |a| && a[i].1.nodeid == path;
    assert (a + b)[i].1.nodeid == path;
  }

  lemma {:induction false} NodesKept(before: seq<Entry>, added: seq<Entry>, more: seq<Entry>,
      wrkrs: seq<string>, n: nat)
    requires n < |wrkrs| && added <= more && HasNodes(before + added, wrkrs, n) &&
        HasNode(before + more, WorkerPath(wrkrs[n]))
    ensures HasNodes(before + more, wrkrs, n + 1)
  {
    assert before + more == (before + added) + more[|added|..];
    forall k | 0 <= k < n ensures HasNode(before + more, WorkerPath(wrkrs[k])) {
      HasNodeConcat(before + added, more[|added|..], WorkerPath(wrkrs[k]));
    }
  }

  lemma {:induction false} SurvivingSnoc(es: seq<Entry>, j: nat, wrkrs: seq<string>)
    requires j < |es|
    ensures Surviving(es[..j + 1], wrkrs)
         == Surviving(es[..j], wrkrs) + if Suffix(es[j].1.nodeid) in wrkrs then [es[j]] else []
  {
    assert es[..j + 1] == es[..j] + [es[j]];
    SurvivingConcat(es[..j], [es[j]], wrkrs);
    var one: seq<Entry> := [es[j]];
    assert one[1..] == [] && Surviving([], wrkrs) == [];
  }

  lemma {:induction false} NothingLookedAt(es: seq<Entry>, wrkrs: seq<string>)
    ensures Surviving(es[..0], wrkrs) == [] && Surviving(es[..0], wrkrs) + es[0..] == es
  {
  }

  lemma {:induction false} AllLookedAt(es: seq<Entry>, j: nat, wrkrs: seq<string>)
    requires j <= |es| && |Surviving(es[..j], wrkrs) + es[j..]| <= |Surviving(es[..j], wrkrs)|
    ensures Surviving(es[..j], wrkrs) + es[j..] == Surviving(es, wrkrs)
  {
    assert es[..j] == es;
  }

  /** The next step of the removal loop, on the list of entries. */
  lemma {:induction false} RemovalStep(es: seq<Entry>, j: nat, wrkrs: seq<string>)
    requires j < |es|
    ensures var now, i := Surviving(es[..j], wrkrs) + es[j..], |Surviving(es[..j], wrkrs)|;
            && i < |now| && now[i] == es[j]
            && (if Suffix(es[j].1.nodeid) in wrkrs then now else now[..i] + now[i + 1..])
               == Surviving(es[..j + 1], wrkrs) + es[j + 1..]
  {
    SurvivingSnoc(es, j, wrkrs);
    assert es[j..] == [es[j]] + es[j + 1..];
  }

  /** Who is listed after the update: exactly the workers ZooKeeper lists. */
  lemma {:induction false} UpdatedNodes(before: seq<Entry>, added: seq<Entry>, wrkrs: seq<string>, path: string)
    requires Listed(before + added) && IsChildList(wrkrs)
    requires HasNodes(before + added, wrkrs, |wrkrs|)
    ensures HasNode(Surviving(before + added, wrkrs), path) <==>
        exists i :: 0 <= i < |wrkrs| && path == "/workers/" + wrkrs[i]
  {
    var all := before + added;
    if HasNode(Surviving(all, wrkrs), path) {
      KeptIsListed(all, wrkrs, path);
    }
    if exists i :: 0 <= i < |wrkrs| && path == "/workers/" + wrkrs[i] {
      var i :| 0 <= i < |wrkrs| && path == "/workers/" + wrkrs[i];
      ListedIsKept(all, wrkrs, i);
    }
  }

  lemma {:induction false} KeptIsListed(all: seq<Entry>, wrkrs: seq<string>, path: string)
    requires Listed(all) && HasNode(Surviving(all, wrkrs), path)
    ensures exists i :: 0 <= i < |wrkrs| && path == "/workers/" + wrkrs[i]
  {
    var kept := Surviving(all, wrkrs);
    var k :| 0 <= k < |kept| && kept[k].1.nodeid == path;
    SurvivingMember(all, wrkrs, kept[k]);
    var m :| 0 <= m < |all| && all[m] == kept[k];
    ListedAt(all, m);
    var i :| 0 <= i < |wrkrs| && wrkrs[i] == Suffix(path);
    assert path == "/workers/" + wrkrs[i];
  }

  lemma {:induction false} ListedIsKept(all: seq<Entry>, wrkrs: seq<string>, i: nat)
    requires IsChildList(wrkrs) && HasNodes(all, wrkrs, |wrkrs|) && i < |wrkrs|
    ensures HasNode(Surviving(all, wrkrs), "/workers/" + wrkrs[i])
  {
    var path, kept := WorkerPath(wrkrs[i]), Surviving(all, wrkrs);
    var k :| 0 <= k < |all| && all[k].1.nodeid == path;
    SuffixOfPath(wrkrs[i]);
    SurvivingMember(all, wrkrs, all[k]);
    var m :| 0 <= m < |kept| && kept[m] == all[k];
    assert kept[m].1.nodeid == path;
  }

  // ----- load balance -----

  /** Client k is healthy, no healthy client has fewer requests, and none before it has as few. */
  ghost predicate LeastLoaded(cs: seq<MapReduceClient>, k: int, bReduce: bool)
    reads cs
  {
    && 0 <= k < |cs| && cs[k].pingStatus == PING_SUCCESS
    && forall j :: 0 <= j < |cs| && cs[j].pingStatus == PING_SUCCESS ==>
         if bReduce then
           cs[k].nReduceRequests <= cs[j].nReduceRequests && (cs[k].nReduceRequests == cs[j].nReduceRequests ==> k <= j)
         else
           cs[k].nMapRequests <= cs[j].nMapRequests && (cs[k].nMapRequests == cs[j].nMapRequests ==> k <= j)
  }

  /** One scan of the clients; without a healthy one the leader waits for the next ping. */
  method FindMinReqHealthyClient(cs: seq<MapReduceClient>, bReduce: bool) returns (found: Option<nat>)
    ensures found.None? <==> forall j :: 0 <= j < |cs| ==> cs[j].pingStatus != PING_SUCCESS
    ensures found.Some? ==> LeastLoaded(cs, found.value, bReduce)
  {
    found := None;
    for i := 0 to |cs|
      invariant found.None? <==> forall j :: 0 <= j < i ==> cs[j].pingStatus != PING_SUCCESS
      invariant found.Some? ==> found.value < i && LeastLoaded(cs[..i], found.value, bReduce)
    {
      assert cs[..i + 1] == cs[..i] + [cs[i]];
      if cs[i].Healthy() {
        if found.None? {
          found := Some(i);
          continue;
        }
        var nCurRequest := cs[i].Requests(bReduce);
        var nMinRequest := cs[found.value].Requests(bReduce);
        if nCurRequest < nMinRequest {
          found := Some(i);
        }
      }
    }
    assert cs[..|cs|] == cs;
  }

  /** The share of client i when k requests are dealt out to n clients. */
  function FairShare(n: nat, k: nat, i: nat): nat
    requires n > 0
  {
    k / n + if i < k % n then 1 else 0
  }

  lemma {:induction false} NextShare(n: nat, k: nat)
    requires n > 0
    ensures forall i :: 0 <= i < n ==> FairShare(n, k + 1, i) == FairShare(n, k, i) + if i == k % n then 1 else 0
  {
    var q, m := k / n, k % n;
    assert k == q * n + m;
    if m + 1 < n {
      DivIs(k + 1, q, m + 1, n);
    } else {
      assert (q + 1) * n == q * n + n;
      DivIs(k + 1, q + 1, 0, n);
    }
  }

  ghost predicate Dealt(cs: seq<MapReduceClient>, bReduce: bool, base: int, k: nat)
    requires cs != []
    reads cs
  {
    forall i :: 0 <= i < |cs| ==>
      && cs[i].pingStatus == PING_SUCCESS
      && (if bReduce then cs[i].nReduceRequests else cs[i].nMapRequests) == base + FairShare(|cs|, k, i)
  }

  /** Whoever was dealt the fewest so far is the client at position k modulo n. */
  lemma {:induction false} NextIsRoundRobin(cs: seq<MapReduceClient>, bReduce: bool, base: int, k: nat, j: nat)
    requires cs != [] && Dealt(cs, bReduce, base, k) && LeastLoaded(cs, j, bReduce)
    ensures j == k % |cs|
  {
    var m := k % |cs|;
    assert cs[m].pingStatus == PING_SUCCESS && cs[j].pingStatus == PING_SUCCESS;
    var x, y := FairShare(|cs|, k, m), FairShare(|cs|, k, j);
    assert x <= y && (x == y ==> m <= j);
  }

  /** Requests dealt to clients that stay healthy and start level: each gets the floor or the ceiling of its share. */
  method DealOut(cs: seq<MapReduceClient>, bReduce: bool, k: nat, ghost base: int)
    requires cs != [] && (forall i, j :: 0 <= i < j < |cs| ==> cs[i] != cs[j])
    requires forall i :: 0 <= i < |cs| ==>
      cs[i].pingStatus == PING_SUCCESS && (if bReduce then cs[i].nReduceRequests else cs[i].nMapRequests) == base
    modifies cs
    ensures Dealt(cs, bReduce, base, k)
  {
    for t := 0 to k
      invariant Dealt(cs, bReduce, base, t)
    {
      var found := FindMinReqHealthyClient(cs, bReduce);
      assert cs[0].pingStatus == PING_SUCCESS;
      NextIsRoundRobin(cs, bReduce, base, t, found.value);
      NextShare(|cs|, t);
      cs[found.value].Invoke(bReduce);
    }
  }

  /** Each share is the floor or the ceiling of k / n, so no two differ by more than one. */
  lemma {:induction false} SharesAreFair(n: nat, k: nat, i: nat, j: nat)
    requires n > 0 && i < n && j < n
    ensures FairShare(n, k, i) == k / n || FairShare(n, k, i) == (k + n - 1) / n
    ensures FairShare(n, k, i) <= FairShare(n, k, j) + 1
  {
    var q, m := k / n, k % n;
    assert k == q * n + m;
    if m > 0 {
      assert (q + 1) * n == q * n + n;
      DivIs(k + n - 1, q + 1, m - 1, n);
    }
  }
}
