/** What a watcher retirement can observe. The world answers each request at the moment it is asked,
    and nothing ties one answer to the next: anything may have changed in between. */
module WatchWorld {
  import opened Wrappers

  type Path = string

  datatype Identity = Identity(path: Path, dev: nat, ino: nat)

  datatype Server = Absent | Running(pid: nat)

  datatype RawRoot = RawRoot(path: Path, queries: nat)

  /** clients lists each connection's peer pid, 0 when it has none; self is the request's own pid. */
  datatype Status = Status(roots: seq<RawRoot>, clients: seq<nat>, self: nat)

  datatype Subscription = Subscription(pid: nat, client: string)

  /** A root's consumers; Unanswered is an error reply from the server, Lost any other failure. */
  datatype Consumers = Consumers(subs: seq<Subscription>, triggers: nat) | Unanswered | Lost

  datatype Daemon = Daemon(pid: nat, start: string, command: string, socket: Path, unresolved: bool)

  datatype Ownership = Ownership(gitDir: Path, owner: Option<Daemon>, sockets: seq<Path>, blocked: bool)

  datatype World = World(
    maxRoots: nat,
    maxClients: nat,
    probe: nat -> Option<Server>,
    status: nat -> Option<Status>,
    consumers: (nat, Path) -> Consumers,
    ignored: (nat, Path, Path) -> Option<bool>,
    alive: (nat, seq<nat>) -> Option<set<nat>>,
    under: (nat, Path, Path) -> bool,
    resolve: (nat, Path) -> Option<Identity>,
    guard: (nat, Path) -> bool,
    watchDel: (nat, Path) -> bool,
    watchList: nat -> Option<seq<Path>>,
    ownership: (nat, Path) -> Option<Ownership>,
    daemons: nat -> Option<seq<Daemon>>,
    ownsSocket: (nat, seq<Path>, Daemon) -> bool,
    stop: nat -> bool)

  /** Nothing uses the root: no query in flight, no subscription, no trigger. */
  predicate Idle(raw: RawRoot, c: Consumers) {
    raw.queries == 0 && c.Consumers? && c.subs == [] && c.triggers == 0
  }

  /** The pids inspectClients looks up: the first maxClients distinct foreign ones, in order. */
  function LookedUp(pids: seq<nat>, self: nat, server: nat, max: nat): (found: seq<nat>)
    ensures |found| <= max
    ensures forall p :: p in found ==> p in pids && p != 0 && p != self && p != server
    decreases |pids|
  {
    if pids == [] then []
    else
      var before, p := LookedUp(pids[..|pids| - 1], self, server, max), pids[|pids| - 1];
      if p == 0 || p == self || p == server || p in before || |before| >= max then before else before + [p]
  }

  /** What the examined roots' subscriptions answered, root by root, from the given moment on. */
  function Examined(w: World, roots: seq<RawRoot>): seq<RawRoot> {
    if |roots| > w.maxRoots then roots[..w.maxRoots] else roots
  }

  function SubsOf(c: Consumers): seq<Subscription> {
    if c.Consumers? then c.subs else []
  }

  /** A subscription seen on an examined root. */
  datatype Sighting = Sighting(path: Path, pid: nat, client: string)

  function SightingsOn(path: Path, c: Consumers): (seen: seq<Sighting>)
    ensures |seen| == |SubsOf(c)|
  {
    seq(|SubsOf(c)|, j requires 0 <= j < |SubsOf(c)| => Sighting(path, SubsOf(c)[j].pid, SubsOf(c)[j].client))
  }

  /** Every subscription on the first k examined roots, asked one after the other from moment t. */
  function Sightings(w: World, t: nat, roots: seq<RawRoot>, k: nat): seq<Sighting>
    requires k <= |Examined(w, roots)|
  {
    if k == 0 then []
    else
      var path := Examined(w, roots)[k - 1].path;
      Sightings(w, t, roots, k - 1) + SightingsOn(path, w.consumers(t + k - 1, path))
  }

  function AllSightings(w: World, t: nat, roots: seq<RawRoot>): seq<Sighting> {
    Sightings(w, t, roots, |Examined(w, roots)|)
  }

  /** The distinct watchman clients, and the roots, that the sightings place a process on. */
  function ClientsOf(seen: seq<Sighting>, pid: nat): set<string> {
    set e | e in seen && e.pid == pid :: e.client
  }

  function RootsOf(seen: seq<Sighting>, pid: nat): set<Path> {
    set e | e in seen && e.pid == pid :: e.path
  }

  /** The live connections of one process. */
  function Connections(clients: seq<nat>, pid: nat): nat {
    if clients == [] then 0
    else Connections(clients[..|clients| - 1], pid) + if clients[|clients| - 1] == pid then 1 else 0
  }

  /** Every connection of pid is explained: it is the census's own, the server's, or gone; or it is
      looked up and alive, its subscriptions place it, on none of the targets, and there is a
      subscribing client for each of its connections. */
  ghost predicate Accounted(w: World, t: nat, status: Status, server: nat, targets: seq<Path>, live: set<nat>,
                            pid: nat) {
    pid != 0
    && (pid == status.self || pid == server
        || (pid in LookedUp(status.clients, status.self, server, w.maxClients)
            && (pid !in live || PlacedElsewhere(AllSightings(w, t, status.roots), status.clients, targets, pid))))
  }

  ghost predicate PlacedElsewhere(seen: seq<Sighting>, clients: seq<nat>, targets: seq<Path>, pid: nat) {
    && ClientsOf(seen, pid) != {}
    && Connections(clients, pid) <= |ClientsOf(seen, pid)|
    && forall path :: path in RootsOf(seen, pid) ==> path !in targets
  }
}
