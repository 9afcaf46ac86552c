/** Which connections to the server block a retirement. */
module WatchClients {
  import opened Wrappers
  import opened WatchWorld

  datatype Client = Client(pid: nat, self: bool, server: bool, gone: bool, unexamined: bool)

  lemma {:induction false} LookedUpGrows(pids: seq<nat>, self: nat, server: nat, max: nat, i: nat)
    requires i <= |pids|
    ensures LookedUp(pids[..i], self, server, max) <= LookedUp(pids, self, server, max)
    ensures |LookedUp(pids[..i], self, server, max)| == max ==>
              LookedUp(pids, self, server, max) == LookedUp(pids[..i], self, server, max)
    decreases |pids|
  {
    if i < |pids| {
      LookedUpGrows(pids[..|pids| - 1], self, server, max, i);
      assert pids[..|pids| - 1][..i] == pids[..i];
    } else {
      assert pids[..i] == pids;
    }
  }

  lemma NothingLookedUp(self: nat, server: nat, max: nat)
    ensures LookedUp([], self, server, max) == []
  {
  }

  lemma LookUpNext(pids: seq<nat>, self: nat, server: nat, max: nat, i: nat)
    requires i < |pids|
    ensures var before, p := LookedUp(pids[..i], self, server, max), pids[i];
      LookedUp(pids[..i + 1], self, server, max)
      == if p == 0 || p == self || p == server || p in before || |before| >= max then before else before + [p]
  {
    assert pids[..i + 1][..i] == pids[..i];
  }

  predicate Foreign(pid: nat, self: nat, server: nat) { pid != 0 && pid != self && pid != server }

  /** The i-th connection is p's, foreign, and fewer than the bound of processes were taken before it. */
  ghost predicate TakenAt(pids: seq<nat>, self: nat, server: nat, max: nat, p: nat, i: nat) {
    i < |pids| && pids[i] == p && Foreign(p, self, server) && |LookedUp(pids[..i], self, server, max)| < max
  }

  lemma TakenLonger(pids: seq<nat>, self: nat, server: nat, max: nat, p: nat)
    requires pids != []
    ensures var n := |pids| - 1;
            (exists i: nat :: TakenAt(pids, self, server, max, p, i)) <==>
              TakenAt(pids, self, server, max, p, n) || exists i: nat :: TakenAt(pids[..n], self, server, max, p, i)
  {
    hide LookedUp;
    var n := |pids| - 1;
    forall i: nat | i < n
      ensures TakenAt(pids, self, server, max, p, i) == TakenAt(pids[..n], self, server, max, p, i)
    {
      assert pids[..n][..i] == pids[..i] && pids[..n][i] == pids[i];
    }
  }

  /** A process is looked up exactly when it is foreign and comes, among the connections, while fewer than the bound
      of distinct processes have been taken; and once. */
  lemma {:induction false} LookedUpAre(pids: seq<nat>, self: nat, server: nat, max: nat, p: nat)
    ensures p in LookedUp(pids, self, server, max) <==> exists i: nat :: TakenAt(pids, self, server, max, p, i)
    ensures forall i, j :: 0 <= i < j < |LookedUp(pids, self, server, max)| ==>
              LookedUp(pids, self, server, max)[i] != LookedUp(pids, self, server, max)[j]
    decreases |pids|
  {
    hide LookedUp;
    if pids == [] {
      NothingLookedUp(self, server, max);
    } else {
      var n := |pids| - 1;
      LookedUpAre(pids[..n], self, server, max, p);
      LookUpNext(pids, self, server, max, n);
      TakenLonger(pids, self, server, max, p);
      assert pids[..n + 1] == pids;
    }
  }

  /** The i-th root's consumers list the subscription. */
  ghost predicate SeenOn(w: World, t: nat, roots: seq<RawRoot>, i: nat, e: Sighting) {
    && i < |roots| && roots[i].path == e.path && w.consumers(t + i, e.path).Consumers?
    && Subscription(e.pid, e.client) in w.consumers(t + i, e.path).subs
  }

  lemma SeenHere(path: Path, c: Consumers, e: Sighting)
    ensures e in SightingsOn(path, c) <==> e.path == path && Subscription(e.pid, e.client) in SubsOf(c)
  {
    var here := SightingsOn(path, c);
    if e.path == path && Subscription(e.pid, e.client) in SubsOf(c) {
      var j :| 0 <= j < |SubsOf(c)| && SubsOf(c)[j] == Subscription(e.pid, e.client);
      assert here[j] == e;
    }
  }

  /** The subscriptions seen are those the examined roots' consumers list, and no others. */
  lemma {:induction false} SightingsAre(w: World, t: nat, roots: seq<RawRoot>, k: nat, e: Sighting)
    requires k <= |Examined(w, roots)|
    ensures e in Sightings(w, t, roots, k) <==>
              exists i: nat :: i < k && SeenOn(w, t, roots, i, e)
    ensures |Examined(w, roots)| == if |roots| <= w.maxRoots then |roots| else w.maxRoots
  {
    if k > 0 {
      SightingsAre(w, t, roots, k - 1, e);
      var path := Examined(w, roots)[k - 1].path;
      SeenHere(path, w.consumers(t + k - 1, path), e);
      assert SeenOn(w, t, roots, k - 1, e) <==> e in SightingsOn(path, w.consumers(t + k - 1, path));
    }
  }

  lemma {:induction false} ConnectionsAre(clients: seq<nat>, pid: nat)
    ensures Connections(clients, pid) == multiset(clients)[pid]
    decreases |clients|
  {
    if clients != [] {
      var n := |clients| - 1;
      ConnectionsAre(clients[..n], pid);
      assert clients == clients[..n] + [clients[n]];
    }
  }

  /** How inspectClients marks one connection, from the final lookup list. */
  ghost predicate Marked(c: Client, pid: nat, status: Status, server: nat, lookup: seq<nat>, live: set<nat>) {
    && c.pid == pid
    && (c.self <==> pid != 0 && pid == status.self)
    && (c.server <==> pid != 0 && pid != status.self && pid == server)
    && (c.unexamined <==> pid != 0 && pid != status.self && pid != server && pid !in lookup)
    && (c.gone <==> pid in lookup && pid !in live)
  }

  /** How one connection is marked before anything is known to have exited. */
  ghost predicate Sorted(c: Client, pid: nat, status: Status, server: nat, lookup: seq<nat>) {
    Marked(c, pid, status, server, lookup, set p | p in lookup)
  }

  /** The first pass over the connections: at most maxClients distinct foreign pids to look up. */
  method SortClients(w: World, status: Status, server: nat) returns (clients: seq<Client>, lookup: seq<nat>)
    ensures lookup == LookedUp(status.clients, status.self, server, w.maxClients)
    ensures |clients| == |status.clients|
    ensures forall i :: 0 <= i < |clients| ==> Sorted(clients[i], status.clients[i], status, server, lookup)
  {
    hide LookedUp;
    NothingLookedUp(status.self, server, w.maxClients);
    lookup, clients := [], [];
    ghost var final := LookedUp(status.clients, status.self, server, w.maxClients);
    var i := 0;
    while i < |status.clients|
      invariant 0 <= i == |clients| <= |status.clients|
      invariant lookup == LookedUp(status.clients[..i], status.self, server, w.maxClients)
      invariant forall j :: 0 <= j < i ==> Sorted(clients[j], status.clients[j], status, server, final)
    {
      var pid := status.clients[i];
      assert status.clients[..i + 1][..i] == status.clients[..i];
      LookedUpGrows(status.clients, status.self, server, w.maxClients, i);
      LookedUpGrows(status.clients, status.self, server, w.maxClients, i + 1);
      LookUpNext(status.clients, status.self, server, w.maxClients, i);
      var c := Client(pid, false, false, false, false);
      if pid == 0 {
        assert pid !in final;
      } else if pid == status.self {
        c := c.(self := true);
      } else if pid == server {
        c := c.(server := true);
      } else if pid in lookup {
        assert pid in final;
      } else if |lookup| < w.maxClients {
        lookup := lookup + [pid];
        assert lookup == LookedUp(status.clients[..i + 1], status.self, server, w.maxClients);
        assert pid in lookup;
      } else {
        c := c.(unexamined := true);
      }
      clients := clients + [c];
      i := i + 1;
    }
    assert status.clients[..i] == status.clients;
  }

  /** inspectClients: look up at most maxClients distinct foreign pids, and mark every connection. */
  method InspectClients(w: World, t: nat, status: Status, server: nat) returns (r: Option<seq<Client>>)
    ensures var lookup := LookedUp(status.clients, status.self, server, w.maxClients);
            match w.alive(t, lookup)
            case None => r.None?
            case Some(live) =>
              r.Some? && |r.value| == |status.clients|
              && forall i :: 0 <= i < |status.clients| ==>
                  Marked(r.value[i], status.clients[i], status, server, lookup, live)
  {
    var clients, lookup := SortClients(w, status, server);
    var procs := w.alive(t, lookup);
    if procs.None? {
      return None;
    }
    var i := 0;
    while i < |clients|
      invariant 0 <= i <= |clients| == |status.clients|
      invariant forall j :: 0 <= j < i ==> Marked(clients[j], status.clients[j], status, server, lookup, procs.value)
      invariant forall j :: i <= j < |clients| ==> Sorted(clients[j], status.clients[j], status, server, lookup)
    {
      var c := clients[i];
      if !(c.pid == 0 || c.self || c.server || c.unexamined) && c.pid !in procs.value {
        clients := clients[i := c.(gone := true)];
      }
      i := i + 1;
    }
    return Some(clients);
  }

  datatype Placement = Placement(roots: set<Path>, clients: set<string>)

  /** The table holds, for each real process seen, the roots and clients the sightings place it on. */
  ghost predicate Tabulates(placed: map<nat, Placement>, seen: seq<Sighting>) {
    && (forall pid :: pid in placed <==> pid != 0 && ClientsOf(seen, pid) != {})
    && forall pid :: pid in placed ==> placed[pid] == Placement(RootsOf(seen, pid), ClientsOf(seen, pid))
  }

  function Tabulated(placed: map<nat, Placement>, e: Sighting): map<nat, Placement> {
    if e.pid == 0 then placed
    else
      var p := if e.pid in placed then placed[e.pid] else Placement({}, {});
      placed[e.pid := Placement(p.roots + {e.path}, p.clients + {e.client})]
  }

  lemma TabulateOne(placed: map<nat, Placement>, seen: seq<Sighting>, e: Sighting)
    requires Tabulates(placed, seen)
    ensures Tabulates(Tabulated(placed, e), seen + [e])
  {
    var after, next := seen + [e], Tabulated(placed, e);
    NoClientsNoRoots(seen, e.pid);
    forall pid: nat
      ensures pid in next <==> pid != 0 && ClientsOf(after, pid) != {}
      ensures pid in next ==> next[pid] == Placement(RootsOf(after, pid), ClientsOf(after, pid))
    {
      OneMoreSighting(seen, e, pid);
    }
  }

  lemma OneMoreSighting(seen: seq<Sighting>, e: Sighting, pid: nat)
    ensures ClientsOf(seen + [e], pid) == ClientsOf(seen, pid) + if e.pid == pid then {e.client} else {}
    ensures RootsOf(seen + [e], pid) == RootsOf(seen, pid) + if e.pid == pid then {e.path} else {}
  {
    assert forall x :: x in seen + [e] <==> x in seen || x == e;
  }

  lemma NoClientsNoRoots(seen: seq<Sighting>, pid: nat)
    ensures ClientsOf(seen, pid) == {} <==> RootsOf(seen, pid) == {}
  {
    if e :| e in seen && e.pid == pid {
      assert e.client in ClientsOf(seen, pid) && e.path in RootsOf(seen, pid);
    }
  }

  /** Reading some examined root's consumers fails with anything but an error reply. */
  ghost predicate LosesConsumers(w: World, t: nat, roots: seq<RawRoot>) {
    exists k :: 0 <= k < |Examined(w, roots)| && w.consumers(t + k, Examined(w, roots)[k].path).Lost?
  }

  /** placements: what each process subscribes to, over at most maxRoots roots. An error reply places
      nothing; any other failure fails the whole. */
  method Placements(w: World, t: nat, roots: seq<RawRoot>) returns (r: Option<map<nat, Placement>>)
    ensures r.Some? ==> Tabulates(r.value, AllSightings(w, t, roots))
    ensures r.None? <==> LosesConsumers(w, t, roots)
  {
    hide Tabulates;
    var examined := Examined(w, roots);
    var placed: map<nat, Placement> := map[];
    NothingTabulated();
    var k := 0;
    while k < |examined|
      invariant 0 <= k <= |examined| && Tabulates(placed, Sightings(w, t, roots, k))
      invariant forall j :: 0 <= j < k ==> !w.consumers(t + j, examined[j].path).Lost?
    {
      var path := examined[k].path;
      var answer := w.consumers(t + k, path);
      if answer.Lost? {
        return None;
      }
      ghost var before, here := Sightings(w, t, roots, k), SightingsOn(path, answer);
      var subs := SubsOf(answer);
      var j := 0;
      assert before + here[..0] == before;
      while j < |subs|
        invariant 0 <= j <= |subs| && Tabulates(placed, before + here[..j])
      {
        var s := subs[j];
        assert before + here[..j + 1] == before + here[..j] + [Sighting(path, s.pid, s.client)];
        TabulateOne(placed, before + here[..j], Sighting(path, s.pid, s.client));
        placed := Tabulated(placed, Sighting(path, s.pid, s.client));
        j := j + 1;
      }
      assert here[..j] == here;
      k := k + 1;
    }
    return Some(placed);
  }

  lemma NothingTabulated()
    ensures Tabulates(map[], [])
  {
  }

  /** A process neither the census's own nor the server's, alive or without a pid. */
  ghost predicate ForeignPid(status: Status, server: nat, lookup: seq<nat>, live: set<nat>, pid: nat) {
    pid == 0 || (pid != status.self && pid != server && pid in lookup && pid in live)
  }

  ghost predicate UnexaminedPid(status: Status, server: nat, lookup: seq<nat>, pid: nat) {
    pid != 0 && pid != status.self && pid != server && pid !in lookup
  }

  lemma {:induction false} ConnectionsOfAbsent(pids: seq<nat>, pid: nat)
    requires pid !in pids
    ensures Connections(pids, pid) == 0
    decreases |pids|
  {
    if pids != [] {
      ConnectionsOfAbsent(pids[..|pids| - 1], pid);
    }
  }

  /** The foreign processes, how many connections each holds, and how many connections went unexamined. */
  method CountForeign(status: Status, server: nat, clients: seq<Client>, ghost lookup: seq<nat>, ghost live: set<nat>)
    returns (foreign: seq<nat>, conns: map<nat, nat>, unexamined: nat)
    requires |clients| == |status.clients|
    requires forall p :: p in lookup ==> p != 0 && p != status.self && p != server
    requires forall i :: 0 <= i < |clients| ==> Marked(clients[i], status.clients[i], status, server, lookup, live)
    ensures forall p :: p in foreign <==> p in status.clients && ForeignPid(status, server, lookup, live, p)
    ensures forall p :: p in foreign ==> p in conns && conns[p] == Connections(status.clients, p)
    ensures unexamined > 0 <==> exists p :: p in status.clients && UnexaminedPid(status, server, lookup, p)
  {
    hide Connections, ForeignPid, UnexaminedPid, Marked;
    foreign, conns, unexamined := [], map[], 0;
    ghost var seen: seq<nat> := [];
    var i := 0;
    while i < |clients|
      invariant 0 <= i <= |clients| && seen == status.clients[..i]
      invariant forall p :: p in foreign <==> p in seen && ForeignPid(status, server, lookup, live, p)
      invariant forall p :: p in conns <==> p in foreign
      invariant forall p :: p in conns ==> conns[p] == Connections(seen, p)
      invariant unexamined > 0 <==> exists p :: p in seen && UnexaminedPid(status, server, lookup, p)
    {
      var c := clients[i];
      assert Marked(c, status.clients[i], status, server, lookup, live);
      MarkMeans(c, status.clients[i], status, server, lookup, live);
      OneMoreConnection(seen, c.pid);
      ghost var before := seen;
      seen := seen + [c.pid];
      assert seen == status.clients[..i + 1];
      i := i + 1;
      if c.self || c.server || c.gone {
        continue;
      }
      if c.unexamined {
        unexamined := unexamined + 1;
        continue;
      }
      if c.pid !in conns {
        ConnectionsOfAbsent(before, c.pid);
        foreign := foreign + [c.pid];
        conns := conns[c.pid := 1];
      } else {
        conns := conns[c.pid := conns[c.pid] + 1];
      }
    }
    assert status.clients[..i] == status.clients;
  }

  lemma OneMoreConnection(pids: seq<nat>, pid: nat)
    ensures forall p :: Connections(pids + [pid], p) == Connections(pids, p) + if pid == p then 1 else 0
  {
    assert (pids + [pid])[..|pids|] == pids;
  }

  /** What the marks of a connection say of its process. */
  lemma MarkMeans(c: Client, pid: nat, status: Status, server: nat, lookup: seq<nat>, live: set<nat>)
    requires Marked(c, pid, status, server, lookup, live)
    requires forall p :: p in lookup ==> p != 0 && p != status.self && p != server
    ensures c.pid == pid
    ensures UnexaminedPid(status, server, lookup, pid) <==> !c.self && !c.server && !c.gone && c.unexamined
    ensures ForeignPid(status, server, lookup, live, pid) <==> !c.self && !c.server && !c.gone && !c.unexamined
  {
  }

  /** clientBlockers cannot tell: the processes cannot be looked up, or there is one whose subscriptions have to
      place it and they cannot be read. */
  ghost predicate ClientsUnread(w: World, t: nat, status: Status, server: nat) {
    var lookup := LookedUp(status.clients, status.self, server, w.maxClients);
    match w.alive(t, lookup)
    case None => true
    case Some(live) =>
      && (exists p :: p in status.clients && ForeignPid(status, server, lookup, live, p))
      && LosesConsumers(w, t + 1, status.roots)
  }

  /** Whether clientBlockers finds any reason to refuse: some connection it cannot account for. */
  method ClientsBlock(w: World, t: nat, status: Status, server: nat, targets: seq<Path>) returns (blocked: Option<bool>)
    ensures blocked.None? <==> ClientsUnread(w, t, status, server)
    ensures blocked.Some? ==>
              var live := w.alive(t, LookedUp(status.clients, status.self, server, w.maxClients));
              live.Some?
              && (blocked.value <==>
                    exists p :: p in status.clients && !Accounted(w, t + 1, status, server, targets, live.value, p))
  {
    hide LookedUp, AllSightings, Accounted, PlacedElsewhere, Tabulates, Marked, Refuses, LosesConsumers, ForeignPid;
    var inspected := InspectClients(w, t, status, server);
    if inspected.None? {
      return None;
    }
    ghost var lookup := LookedUp(status.clients, status.self, server, w.maxClients);
    ghost var live := w.alive(t, lookup).value;
    var foreign, conns, unexamined := CountForeign(status, server, inspected.value, lookup, live);
    forall p | p in status.clients
      ensures Accounted(w, t + 1, status, server, targets, live, p) <==>
              !UnexaminedPid(status, server, lookup, p)
              && !(p in foreign && Unplaced(AllSightings(w, t + 1, status.roots), status.clients, targets, p))
    {
      AccountedMeans(w, t + 1, status, server, targets, live, p);
    }
    assert foreign != [] ==> foreign[0] in foreign;
    if |foreign| == 0 {
      return Some(unexamined > 0);
    }
    var placed := Placements(w, t + 1, status.roots);
    if placed.None? {
      return None;
    }
    ghost var seen := AllSightings(w, t + 1, status.roots);
    var reasons: nat := unexamined;
    var i := 0;
    while i < |foreign|
      invariant 0 <= i <= |foreign|
      invariant reasons > 0 <==>
                unexamined > 0 || exists p :: p in foreign[..i] && Unplaced(seen, status.clients, targets, p)
    {
      var pid := foreign[i];
      assert foreign[..i + 1] == foreign[..i] + [pid];
      assert pid in foreign && conns[pid] == Connections(status.clients, pid);
      RefusalMeans(placed.value, seen, status.clients, targets, pid);
      if pid == 0 || Refuses(placed.value, conns[pid], targets, pid) {
        reasons := reasons + 1;
      }
      i := i + 1;
    }
    assert foreign[..i] == foreign;
    return Some(reasons > 0);
  }

  /** A foreign process without a pid, or one its subscriptions do not place clear of the targets. */
  ghost predicate Unplaced(seen: seq<Sighting>, clients: seq<nat>, targets: seq<Path>, pid: nat) {
    pid == 0 || !PlacedElsewhere(seen, clients, targets, pid)
  }

  /** clientBlockers' reasons to refuse one foreign process that has a pid. */
  predicate Refuses(placed: map<nat, Placement>, connections: nat, targets: seq<Path>, pid: nat) {
    pid !in placed || connections > |placed[pid].clients| || exists r :: r in placed[pid].roots && r in targets
  }

  lemma RefusalMeans(placed: map<nat, Placement>, seen: seq<Sighting>, clients: seq<nat>, targets: seq<Path>, pid: nat)
    requires Tabulates(placed, seen)
    ensures (pid == 0 || Refuses(placed, Connections(clients, pid), targets, pid)) <==>
              Unplaced(seen, clients, targets, pid)
  {
  }

  lemma AccountedMeans(w: World, t: nat, status: Status, server: nat, targets: seq<Path>, live: set<nat>, p: nat)
    ensures var lookup := LookedUp(status.clients, status.self, server, w.maxClients);
            Accounted(w, t, status, server, targets, live, p) <==>
              !UnexaminedPid(status, server, lookup, p)
              && !(ForeignPid(status, server, lookup, live, p)
                   && Unplaced(AllSightings(w, t, status.roots), status.clients, targets, p))
  {
    hide LookedUp, AllSightings, PlacedElsewhere;
  }
}
