/** Retiring the watchers of one authorized worktree removal: check, guard, re-pin, check again,
    delete, and look again, while the outside world may change between any two requests. */
module Retire {
  import opened Wrappers
  import opened WatchWorld
  import opened WatchClients
  import opened Picks

  /** When each step behind a mutation was taken: a check begun, the guard asked, the worktree and the
      root resolved, and the last check begun. */
  datatype Steps = Steps(first: nat, guarded: nat, pinned: nat, rootPinned: nat, last: nat)

  /** What a retirement did, in order, and when. */
  datatype Event =
    | Deleted(at: nat, root: Path, steps: Steps)
    | Gone(at: nat, root: Path)
    | StopSent(at: nat, owner: Daemon, steps: Steps)

  /** One root as a check of worktree sees it: the root being retired must be idle, and so must every
      root above the worktree that does not ignore it. */
  ghost predicate RootClear(w: World, slot: nat, raw: RawRoot, worktree: Path, root: Path) {
    if root != "" && raw.path == root then Idle(raw, w.consumers(slot, root))
    else
      (!w.under(slot, raw.path, worktree) && w.under(slot, worktree, raw.path)) ==>
        w.ignored(slot, raw.path, worktree) == Some(true) || Idle(raw, w.consumers(slot, raw.path))
  }

  /** A check begun at t: the answers it was given leave no consumer and no unaccounted client. */
  ghost predicate ClearAt(w: World, t: nat, worktree: Path, root: Path, targets: seq<Path>) {
    && w.probe(t).Some? && w.probe(t).value.Running? && w.status(t + 1).Some?
    && var server, status := w.probe(t).value.pid, w.status(t + 1).value;
    && (forall k :: 0 <= k < |status.roots| ==> RootClear(w, t + 2 + k, status.roots[k], worktree, root))
    && var live := w.alive(t + 2 + |status.roots|, LookedUp(status.clients, status.self, server, w.maxClients));
    && live.Some?
    && forall p :: p in status.clients ==> Accounted(w, t + 3 + |status.roots|, status, server, targets, live.value, p)
  }

  /** The status the check saw lists root as watched. */
  ghost predicate WatchedAt(w: World, t: nat, root: Path) {
    w.status(t + 1).Some? && Lists(w.status(t + 1).value.roots, root)
  }

  ghost predicate Lists(roots: seq<RawRoot>, root: Path) {
    root != "" && exists k :: 0 <= k < |roots| && roots[k].path == root
  }

  /** The moment a check or a gate begun at t is over, when it is answered. */
  function CheckEnd(w: World, t: nat): (end: nat)
    ensures end > t
  {
    if w.probe(t) == Some(Absent) then t + 1
    else
      match w.status(t + 1)
      case None => t + 2
      case Some(status) => t + 3 + 2 * |status.roots|
  }

  /** Whether a root above the worktree ignores it cannot be read, or it does not and its consumers cannot. */
  predicate AncestorUnread(w: World, slot: nat, raw: RawRoot, worktree: Path) {
    match w.ignored(slot, raw.path, worktree)
    case None => true
    case Some(ignored) => !ignored && !w.consumers(slot, raw.path).Consumers?
  }

  predicate RootUnread(w: World, slot: nat, raw: RawRoot, worktree: Path, root: Path) {
    if root != "" && raw.path == root then !w.consumers(slot, root).Consumers?
    else
      !w.under(slot, raw.path, worktree) && w.under(slot, worktree, raw.path)
      && AncestorUnread(w, slot, raw, worktree)
  }

  /** Some request a check begun at t makes goes unanswered. */
  ghost predicate CheckFails(w: World, t: nat, worktree: Path, root: Path) {
    match w.probe(t)
    case None => true
    case Some(Absent) => false
    case Some(Running(server)) =>
      match w.status(t + 1)
      case None => true
      case Some(status) =>
        || (exists k :: 0 <= k < |status.roots| && RootUnread(w, t + 2 + k, status.roots[k], worktree, root))
        || ClientsUnread(w, t + 2 + |status.roots|, status, server)
  }

  /** A check begun at t stands in the way: it is not answered, or there is a server and it is not clear. */
  ghost predicate Blocked(w: World, t: nat, plan: Plan, root: Path) {
    || CheckFails(w, t, plan.worktree.path, root)
    || (w.probe(t) != Some(Absent) && !ClearAt(w, t, plan.worktree.path, root, Targets(plan.roots)))
  }

  /** A check begun at t finds a server that watches root. */
  ghost predicate Sees(w: World, t: nat, root: Path) {
    w.probe(t) != Some(Absent) && WatchedAt(w, t, root)
  }

  /** From g on: the guard passes, and worktree and root resolve as planned, the root at or below the worktree. */
  predicate Repinned(w: World, plan: Plan, k: nat, g: nat)
    requires k < |plan.roots|
  {
    var root, worktree := plan.roots[k], plan.worktree;
    && w.guard(g, worktree.path) && w.resolve(g + 1, worktree.path) == Some(worktree)
    && w.resolve(g + 2, root.path) == Some(root) && w.under(g + 2, root.path, worktree.path)
  }

  /** Retiring a root from t on gets as far as its last check, which begins at LastCheck. */
  ghost predicate Rechecked(w: World, plan: Plan, k: nat, t: nat)
    requires k < |plan.roots|
  {
    var root := plan.roots[k].path;
    !Blocked(w, t, plan, root) && Sees(w, t, root) && Repinned(w, plan, k, CheckEnd(w, t))
  }

  function LastCheck(w: World, t: nat): nat { CheckEnd(w, t) + 3 }

  /** Retiring a root from t on is refused: by a check, the guard or a re-pin. */
  ghost predicate RootRefused(w: World, plan: Plan, k: nat, t: nat)
    requires k < |plan.roots|
  {
    var root := plan.roots[k].path;
    || Blocked(w, t, plan, root)
    || (Sees(w, t, root) && !Repinned(w, plan, k, CheckEnd(w, t)))
    || (Rechecked(w, plan, k, t) && Blocked(w, LastCheck(w, t), plan, root))
  }

  /** Retiring a root from t on finds it no longer watched, in a check with nothing in the way. */
  ghost predicate RootUnwatched(w: World, plan: Plan, k: nat, t: nat)
    requires k < |plan.roots|
  {
    var root := plan.roots[k].path;
    !Blocked(w, t, plan, root)
    && (!Sees(w, t, root)
        || (Rechecked(w, plan, k, t) && !Blocked(w, LastCheck(w, t), plan, root) && !Sees(w, LastCheck(w, t), root)))
  }

  /** A watch-del sent at a moment fails, or the list taken next still holds the root or is not answered. */
  predicate NotSeenGone(w: World, at: nat, root: Path) {
    !w.watchDel(at, root) || w.watchList(at + 1).None? || root in w.watchList(at + 1).value
  }

  ghost predicate RootUnconfirmed(w: World, plan: Plan, k: nat, t: nat)
    requires k < |plan.roots|
  {
    var root, last := plan.roots[k].path, LastCheck(w, t);
    Rechecked(w, plan, k, t) && !Blocked(w, last, plan, root) && Sees(w, last, root)
    && NotSeenGone(w, CheckEnd(w, last), root)
  }

  ghost predicate RootStops(w: World, plan: Plan, k: nat, t: nat, why: Stop)
    requires k < |plan.roots|
  {
    match why
    case Refused => RootRefused(w, plan, k, t)
    case Unconfirmed => RootUnconfirmed(w, plan, k, t)
  }

  /** The daemon that owns the worktree cannot be told, or is not the planned one any more. */
  ghost predicate OwnershipBlocks(w: World, plan: Plan, t: nat) {
    match w.ownership(t, plan.worktree.path)
    case None => true
    case Some(own) => own.blocked || own.gitDir != plan.gitDir || !SameOwners(plan.fsmonitor, own.owner)
  }

  /** Stopping the daemon from t on is refused: by its ownership, a check, and when there is a daemon by the
      guard, the re-pin, or a daemon that is not the sole owner. */
  ghost predicate StopRefused(w: World, plan: Plan, t: nat) {
    var g := CheckEnd(w, t + 1);
    || OwnershipBlocks(w, plan, t) || Blocked(w, t + 1, plan, "")
    || (plan.fsmonitor.Some?
        && (!w.guard(g, plan.worktree.path) || w.resolve(g + 1, plan.worktree.path) != Some(plan.worktree)
            || !SoleOwner(w, g + 2, plan.sockets, plan.fsmonitor.value)))
  }

  ghost predicate DaemonStops(w: World, plan: Plan, t: nat, why: Stop) {
    match why
    case Refused => StopRefused(w, plan, t)
    case Unconfirmed => !StopRefused(w, plan, t) && plan.fsmonitor.Some? && !w.stop(CheckEnd(w, t + 1) + 3)
  }

  /** Why a plan being carried out between two moments stopped: it was refused to begin with, or one of its
      roots or its daemon stopped it. */
  ghost predicate StoppedBy(w: World, plan: Plan, from: nat, to: nat, why: Stop) {
    || (plan.refused && why == Refused)
    || RootStoppedBy(w, plan, from, to, why)
    || exists t :: from <= t < to && DaemonStops(w, plan, t, why)
  }

  ghost predicate RootStoppedBy(w: World, plan: Plan, from: nat, to: nat, why: Stop) {
    exists k, t: nat :: 0 <= k < |plan.roots| && from <= t < to && RootStops(w, plan, k, t, why)
  }

  /** Between two moments the root was found no longer watched. */
  ghost predicate FoundUnwatched(w: World, plan: Plan, k: nat, from: nat, to: nat)
    requires k < |plan.roots|
  {
    exists t: nat :: from <= t < to && RootUnwatched(w, plan, k, t)
  }

  /** Every planned root was retired, or found no longer watched between two moments. */
  ghost predicate AllGone(w: World, plan: Plan, retired: seq<Path>, from: nat, to: nat) {
    forall k :: 0 <= k < |plan.roots| ==> plan.roots[k].path in retired || FoundUnwatched(w, plan, k, from, to)
  }

  /** The plan being carried out: the worktree's identity, and its roots with theirs, deepest first. */
  datatype Plan = Plan(worktree: Identity, gitDir: Path, roots: seq<Identity>, fsmonitor: Option<Daemon>,
                       sockets: seq<Path>, refused: bool)

  function Targets(roots: seq<Identity>): seq<Path> {
    seq(|roots|, i requires 0 <= i < |roots| => roots[i].path)
  }

  datatype Outcome = Outcome(retired: seq<Path>, stopped: Option<Daemon>)

  /** Why one step stopped: refused or failed before it sent anything, or sent and not confirmed. */
  datatype Stop = Refused | Unconfirmed

  /** How a retirement ended: to the end, stopped by a step, or done but watched again. */
  datatype Ending = Complete | Stopped(why: Stop) | Rewatched

  predicate AtOrBelow(w: World, slot: nat, path: Path, target: Path) {
    path == target || w.under(slot, path, target)
  }

  /** The listed roots at or below the target. */
  function Below(w: World, t: nat, roots: seq<RawRoot>, target: Path): seq<Path> {
    if roots == [] then []
    else
      var n := |roots| - 1;
      Below(w, t, roots[..n], target) + if AtOrBelow(w, t + n, roots[n].path, target) then [roots[n].path] else []
  }

  lemma NoneBelow(w: World, t: nat, roots: seq<RawRoot>, target: Path)
    ensures Below(w, t, roots[..0], target) == []
  {
  }

  lemma BelowOneMore(w: World, t: nat, roots: seq<RawRoot>, k: nat, target: Path)
    requires k < |roots|
    ensures Below(w, t, roots[..k + 1], target)
            == Below(w, t, roots[..k], target)
               + if AtOrBelow(w, t + k, roots[k].path, target) then [roots[k].path] else []
  {
    assert roots[..k + 1][..k] == roots[..k];
  }

  ghost function IsBelow(w: World, t: nat, roots: seq<RawRoot>, target: Path): nat -> bool {
    (k: nat) => k < |roots| && (roots[k].path == target || w.under(t + k, roots[k].path, target))
  }

  ghost function PathOf(roots: seq<RawRoot>): nat -> Path { (k: nat) => if k < |roots| then roots[k].path else "" }

  /** The roots picked are the target and those the world puts under it, each where the list has it. */
  lemma BelowPicks(w: World, t: nat, roots: seq<RawRoot>, target: Path) returns (at: seq<nat>)
    ensures Picked(|roots|, IsBelow(w, t, roots, target), at) && Along(PathOf(roots), at, Below(w, t, roots, target))
  {
    at := BelowUpTo(w, t, roots, |roots|, target);
    assert roots[..|roots|] == roots;
  }

  lemma {:induction false} BelowUpTo(w: World, t: nat, roots: seq<RawRoot>, n: nat, target: Path)
    returns (at: seq<nat>)
    requires n <= |roots|
    ensures Picked(n, IsBelow(w, t, roots, target), at) && Along(PathOf(roots), at, Below(w, t, roots[..n], target))
  {
    hide Below, Picked, Along;
    at := [];
    NoneBelow(w, t, roots, target);
    NothingPicked(IsBelow(w, t, roots, target), PathOf(roots));
    if n > 0 {
      var k := n - 1;
      at := BelowUpTo(w, t, roots, k, target);
      BelowOneMore(w, t, roots, k, target);
      PickedOneMore(k, IsBelow(w, t, roots, target), at);
      AlongOneMore(PathOf(roots), at, Below(w, t, roots[..k], target), k);
      if AtOrBelow(w, t + k, roots[k].path, target) {
        at := at + [k];
      } else {
        assert Below(w, t, roots[..k], target) + [] == Below(w, t, roots[..k], target);
      }
    }
  }

  /** The paths of one length, in order. */
  function OfLength(paths: seq<Path>, n: nat): seq<Path> {
    if paths == [] then []
    else
      var last := paths[|paths| - 1];
      OfLength(paths[..|paths| - 1], n) + if |last| == n then [last] else []
  }

  lemma OneMoreOfLength(paths: seq<Path>, x: Path, n: nat)
    ensures OfLength(paths + [x], n) == OfLength(paths, n) + if |x| == n then [x] else []
  {
    assert (paths + [x])[..|paths|] == paths;
  }

  lemma {:induction false} InsertKeepsLengths(x: Path, sorted: seq<Path>, n: nat)
    requires DeepestFirst(sorted)
    ensures OfLength(InsertDeepest(x, sorted), n) == OfLength(sorted + [x], n)
    decreases |sorted|
  {
    if sorted != [] {
      var front, last := sorted[..|sorted| - 1], sorted[|sorted| - 1];
      assert sorted == front + [last];
      OneMoreOfLength(sorted, x, n);
      OneMoreOfLength(front, last, n);
      if |last| < |x| {
        InsertKeepsLengths(x, front, n);
        OneMoreOfLength(front, x, n);
        OneMoreOfLength(InsertDeepest(x, front), last, n);
      }
    }
  }

  /** Sorting keeps paths of one length in the order they came. */
  lemma {:induction false} DeepestIsStable(paths: seq<Path>, n: nat)
    ensures OfLength(Deepest(paths), n) == OfLength(paths, n)
    decreases |paths|
  {
    if paths != [] {
      var front, last := paths[..|paths| - 1], paths[|paths| - 1];
      assert paths == front + [last];
      DeepestIsStable(front, n);
      DeepestSorts(front);
      InsertKeepsLengths(last, Deepest(front), n);
      OneMoreOfLength(Deepest(front), last, n);
    }
  }

  /** x goes after every path at least as long. */
  function InsertDeepest(x: Path, sorted: seq<Path>): seq<Path> {
    if sorted == [] then [x]
    else if |sorted[|sorted| - 1]| >= |x| then sorted + [x]
    else InsertDeepest(x, sorted[..|sorted| - 1]) + [sorted[|sorted| - 1]]
  }

  /** The paths sorted deepest first, equals kept in order. */
  function Deepest(paths: seq<Path>): seq<Path> {
    if paths == [] then [] else InsertDeepest(paths[|paths| - 1], Deepest(paths[..|paths| - 1]))
  }

  ghost predicate DeepestFirst(paths: seq<Path>) {
    forall i, j :: 0 <= i < j < |paths| ==> |paths[i]| >= |paths[j]|
  }

  lemma {:induction false} InsertAddsOne(x: Path, sorted: seq<Path>)
    ensures multiset(InsertDeepest(x, sorted)) == multiset(sorted) + multiset{x}
    decreases |sorted|
  {
    if sorted != [] {
      var front, last := sorted[..|sorted| - 1], sorted[|sorted| - 1];
      assert sorted == front + [last];
      InsertAddsOne(x, front);
    }
  }

  lemma {:induction false} InsertKeepsDeepest(x: Path, sorted: seq<Path>)
    requires DeepestFirst(sorted)
    ensures DeepestFirst(InsertDeepest(x, sorted))
    decreases |sorted|
  {
    if sorted != [] {
      var front, last := sorted[..|sorted| - 1], sorted[|sorted| - 1];
      if |last| < |x| {
        InsertKeepsDeepest(x, front);
        InsertAddsOne(x, front);
        var inserted := InsertDeepest(x, front);
        forall i | 0 <= i < |inserted| ensures |inserted[i]| >= |last| {
          assert inserted[i] in multiset(inserted);
          assert inserted[i] in front || inserted[i] == x;
        }
      }
    }
  }

  /** Sorting keeps every root, and puts no root before one nested in it. */
  lemma {:induction false} DeepestSorts(paths: seq<Path>)
    ensures DeepestFirst(Deepest(paths)) && multiset(Deepest(paths)) == multiset(paths)
    decreases |paths|
  {
    if paths != [] {
      var front, last := paths[..|paths| - 1], paths[|paths| - 1];
      assert paths == front + [last];
      DeepestSorts(front);
      InsertKeepsDeepest(last, Deepest(front));
      InsertAddsOne(last, Deepest(front));
    }
  }

  /** One root as a plan for target sees it: at or below the target it must be idle; above it, idle or
      ignoring the target. */
  ghost predicate GateRootClear(w: World, slot: nat, raw: RawRoot, target: Path) {
    if AtOrBelow(w, slot, raw.path, target) then Idle(raw, w.consumers(slot, raw.path))
    else w.under(slot, target, raw.path) ==>
      w.ignored(slot, raw.path, target) == Some(true) || Idle(raw, w.consumers(slot, raw.path))
  }

  ghost predicate GateClear(w: World, t: nat, target: Path, targets: seq<Path>) {
    && w.probe(t).Some? && w.probe(t).value.Running? && w.status(t + 1).Some?
    && var server, status := w.probe(t).value.pid, w.status(t + 1).value;
    && (forall k :: 0 <= k < |status.roots| ==> GateRootClear(w, t + 2 + k, status.roots[k], target))
    && var live := w.alive(t + 2 + |status.roots|, LookedUp(status.clients, status.self, server, w.maxClients));
    && live.Some?
    && forall p :: p in status.clients ==> Accounted(w, t + 3 + |status.roots|, status, server, targets, live.value, p)
  }

  ghost predicate PinnedAs(w: World, t: nat, path: Path, id: Identity) {
    w.resolve(t, path) == Some(id) && id.path == path
  }

  /** The identities of the paths that still resolve to themselves, each read at its own moment. */
  function Pins(w: World, t: nat, paths: seq<Path>): (pins: seq<Identity>)
    ensures |pins| <= |paths|
  {
    if paths == [] then []
    else
      var n := |paths| - 1;
      var now := w.resolve(t + n, paths[n]);
      Pins(w, t, paths[..n]) + if now.Some? && now.value.path == paths[n] then [now.value] else []
  }

  ghost function ResolvesToItself(w: World, t: nat, paths: seq<Path>): nat -> bool {
    (k: nat) => k < |paths| && w.resolve(t + k, paths[k]).Some? && w.resolve(t + k, paths[k]).value.path == paths[k]
  }

  ghost function ResolvedAt(w: World, t: nat, paths: seq<Path>): nat -> Identity {
    (k: nat) => if k < |paths| && w.resolve(t + k, paths[k]).Some? then w.resolve(t + k, paths[k]).value
                else Identity("", 0, 0)
  }

  /** The pins are the identities of exactly the paths that resolve to themselves, in order. */
  lemma PinsAre(w: World, t: nat, paths: seq<Path>) returns (at: seq<nat>)
    ensures Picked(|paths|, ResolvesToItself(w, t, paths), at) && Along(ResolvedAt(w, t, paths), at, Pins(w, t, paths))
  {
    at := PinsUpTo(w, t, paths, |paths|);
    assert paths[..|paths|] == paths;
  }

  lemma {:induction false} PinsUpTo(w: World, t: nat, paths: seq<Path>, n: nat) returns (at: seq<nat>)
    requires n <= |paths|
    ensures Picked(n, ResolvesToItself(w, t, paths), at) && Along(ResolvedAt(w, t, paths), at, Pins(w, t, paths[..n]))
  {
    hide Pins, Picked, Along;
    at := [];
    NothingPinned(w, t, paths);
    NothingPicked(ResolvesToItself(w, t, paths), ResolvedAt(w, t, paths));
    if n > 0 {
      var k := n - 1;
      at := PinsUpTo(w, t, paths, k);
      PinsOneMore(w, t, paths, k);
      PickedOneMore(k, ResolvesToItself(w, t, paths), at);
      AlongOneMore(ResolvedAt(w, t, paths), at, Pins(w, t, paths[..k]), k);
      if ResolvesToItself(w, t, paths)(k) {
        at := at + [k];
      } else {
        assert Pins(w, t, paths[..k]) + [] == Pins(w, t, paths[..k]);
      }
    }
  }

  lemma NothingPinned(w: World, t: nat, paths: seq<Path>)
    ensures Pins(w, t, paths[..0]) == []
  {
  }

  lemma PinsOneMore(w: World, t: nat, paths: seq<Path>, k: nat)
    requires k < |paths|
    ensures Pins(w, t, paths[..k + 1])
            == Pins(w, t, paths[..k])
               + if ResolvesToItself(w, t, paths)(k) then [ResolvedAt(w, t, paths)(k)] else []
  {
    assert paths[..k + 1][..k] == paths[..k];
  }

  /** When no path failed, each pin is its path's. */
  lemma {:induction false} AllPinned(w: World, t: nat, paths: seq<Path>)
    requires |Pins(w, t, paths)| == |paths|
    ensures forall k :: 0 <= k < |paths| ==> PinnedAs(w, t + k, paths[k], Pins(w, t, paths)[k])
    decreases |paths|
  {
    if paths != [] {
      var n := |paths| - 1;
      AllPinned(w, t, paths[..n]);
      forall k | 0 <= k < |paths| ensures PinnedAs(w, t + k, paths[k], Pins(w, t, paths)[k]) {
        assert k < n ==> paths[..n][k] == paths[k];
      }
    }
  }

  lemma AllTargets(w: World, t: nat, paths: seq<Path>)
    requires |Pins(w, t, paths)| == |paths|
    ensures Targets(Pins(w, t, paths)) == paths
    ensures forall k :: 0 <= k < |paths| ==> PinnedAs(w, t + k, paths[k], Pins(w, t, paths)[k])
  {
    AllPinned(w, t, paths);
    hide Pins;
  }

  predicate GateRootUnread(w: World, slot: nat, raw: RawRoot, target: Path) {
    if AtOrBelow(w, slot, raw.path, target) then !w.consumers(slot, raw.path).Consumers?
    else w.under(slot, target, raw.path) && AncestorUnread(w, slot, raw, target)
  }

  /** Some request a gate begun at t makes goes unanswered. */
  ghost predicate GateFails(w: World, t: nat, target: Path) {
    match w.probe(t)
    case None => true
    case Some(Absent) => false
    case Some(Running(server)) =>
      match w.status(t + 1)
      case None => true
      case Some(status) =>
        || (exists k :: 0 <= k < |status.roots| && GateRootUnread(w, t + 2 + k, status.roots[k], target))
        || ClientsUnread(w, t + 2 + |status.roots|, status, server)
  }

  /** The roots a gate begun at t finds at or below the target, deepest first. */
  function GateRoots(w: World, t: nat, target: Path): seq<Path> {
    if w.probe(t) == Some(Absent) || w.status(t + 1).None? then []
    else Deepest(Below(w, t + 2, w.status(t + 1).value.roots, target))
  }

  /** Planning from t on fails: the worktree does not resolve, or the gate or the ownership is not answered. */
  ghost predicate PlanFails(w: World, t: nat, worktree: Path) {
    match w.resolve(t, worktree)
    case None => true
    case Some(id) => GateFails(w, t + 1, id.path) || w.ownership(CheckEnd(w, t + 1), id.path).None?
  }

  /** The plan taken from t on, and exactly when it is refused: something is in the way, a root does not resolve
      to itself, or the ownership is in doubt. */
  ghost predicate PlanOf(w: World, t: nat, worktree: Path, plan: Plan) {
    var target, owned := plan.worktree.path, CheckEnd(w, t + 1);
    var paths := GateRoots(w, t + 1, target);
    && w.resolve(t, worktree) == Some(plan.worktree) && w.ownership(owned, target).Some?
    && var own := w.ownership(owned, target).value;
    && plan.gitDir == own.gitDir && plan.fsmonitor == own.owner && plan.sockets == own.sockets
    && plan.roots == Pins(w, owned + 1, paths)
    && (plan.refused <==>
          (w.probe(t + 1) != Some(Absent) && !GateClear(w, t + 1, target, paths))
          || |plan.roots| < |paths| || own.blocked)
  }

  /** No plan taken from t on matches the one handed in. */
  ghost predicate PlanGone(w: World, t: nat, p: Plan) {
    || p.refused || PlanFails(w, t, p.worktree.path)
    || exists now: Plan :: PlanOf(w, t, p.worktree.path, now) && !Unchanged(p, now)
  }

  /** A plan nothing refused: exactly the roots listed at or below the worktree, deepest first, each
      pinned as it was found, under a gate with nothing in the way. */
  ghost predicate Planned(w: World, t: nat, plan: Plan) {
    var paths, owned := Targets(plan.roots), CheckEnd(w, t);
    && (if w.probe(t) == Some(Absent) then paths == []
        else
          && w.status(t + 1).Some? && GateClear(w, t, plan.worktree.path, paths)
          && paths == Deepest(Below(w, t + 2, w.status(t + 1).value.roots, plan.worktree.path)))
    && (forall k :: 0 <= k < |plan.roots| ==> PinnedAs(w, owned + 1 + k, paths[k], plan.roots[k]))
    && w.ownership(owned, plan.worktree.path).Some?
    && plan.fsmonitor == w.ownership(owned, plan.worktree.path).value.owner
  }

  lemma UnrefusedIsPlanned(w: World, t: nat, worktree: Path, plan: Plan)
    requires PlanOf(w, t, worktree, plan) && !PlanFails(w, t, worktree) && !plan.refused
    ensures Planned(w, t + 1, plan)
  {
    hide Pins, Deepest, Below, GateClear, GateFails, Targets, CheckEnd, GateRoots, PinnedAs;
    var target, owned := plan.worktree.path, CheckEnd(w, t + 1);
    var paths := GateRoots(w, t + 1, target);
    GateAnswered(w, t + 1, target);
    AllTargets(w, owned + 1, paths);
    assert Targets(plan.roots) == paths;
  }

  lemma GateAnswered(w: World, t: nat, target: Path)
    requires !GateFails(w, t, target)
    ensures w.probe(t) == Some(Absent) || w.status(t + 1).Some?
    ensures GateRoots(w, t, target) ==
              if w.probe(t) == Some(Absent) then []
              else Deepest(Below(w, t + 2, w.status(t + 1).value.roots, target))
  {
    hide Deepest, Below;
  }

  /** A root may be deleted at a moment when a check of it, just over, was clear and saw it watched;
      before that check the worktree and the root resolved to the planned identities, the root at or
      below the worktree; before that the guard passed, and before that another check was clear. */
  ghost predicate MayDelete(w: World, plan: Plan, at: nat, root: Path, s: Steps) {
    && (exists k ::
          0 <= k < |plan.roots| && plan.roots[k].path == root && w.resolve(s.rootPinned, root) == Some(plan.roots[k]))
    && ClearAt(w, s.last, plan.worktree.path, root, Targets(plan.roots))
    && WatchedAt(w, s.last, root) && CheckEnd(w, s.last) == at
    && w.under(s.rootPinned, root, plan.worktree.path)
    && w.resolve(s.pinned, plan.worktree.path) == Some(plan.worktree)
    && w.guard(s.guarded, plan.worktree.path)
    && ClearAt(w, s.first, plan.worktree.path, root, Targets(plan.roots)) && WatchedAt(w, s.first, root)
    && CheckEnd(w, s.first) <= s.guarded < s.pinned < s.rootPinned < s.last
  }

  /** A daemon may be stopped at a moment when it is the planned owner, just confirmed the only one;
      before that the worktree resolved to its planned identity, before that the guard passed, and
      before that a check found nothing in the way. */
  ghost predicate MayStop(w: World, plan: Plan, at: nat, owner: Daemon, s: Steps) {
    && plan.fsmonitor == Some(owner)
    && SoleOwner(w, s.last, plan.sockets, owner) && s.last + 1 == at
    && w.resolve(s.pinned, plan.worktree.path) == Some(plan.worktree)
    && w.guard(s.guarded, plan.worktree.path)
    && (w.probe(s.first) == Some(Absent) || ClearAt(w, s.first, plan.worktree.path, "", Targets(plan.roots)))
    && CheckEnd(w, s.first) <= s.guarded < s.pinned < s.last
  }

  /** One daemon: the same process, begun at the same time by the same command, on the same socket. */
  ghost predicate SameDaemon(a: Daemon, b: Daemon) {
    a.pid == b.pid && a.start == b.start && a.command == b.command && a.socket == b.socket
  }

  /** The same daemon both times, or none both times. */
  ghost predicate SameOwners(planned: Option<Daemon>, now: Option<Daemon>) {
    match planned
    case None => now.None?
    case Some(daemon) => now.Some? && SameDaemon(now.value, daemon)
  }

  /** The daemons that could be the owner: by process, or by a socket of the worktree. */
  ghost predicate Claims(w: World, t: nat, sockets: seq<Path>, planned: Daemon, d: Daemon) {
    d.pid == planned.pid || w.ownsSocket(t, sockets, d)
  }

  /** Among the daemons listed at t exactly one could be the owner, it is the planned one, and no other
      is unresolved. */
  ghost predicate SoleOwner(w: World, t: nat, sockets: seq<Path>, planned: Daemon) {
    && w.daemons(t).Some?
    && (exists k :: IsOwner(w, t, sockets, planned, w.daemons(t).value, k)
                    && forall j :: 0 <= j < |w.daemons(t).value| && j != k ==>
                        !Claims(w, t, sockets, planned, w.daemons(t).value[j]))
    && forall d :: d in w.daemons(t).value && d.unresolved ==> Claims(w, t, sockets, planned, d)
  }

  ghost predicate IsOwner(w: World, t: nat, sockets: seq<Path>, planned: Daemon, all: seq<Daemon>, k: int) {
    0 <= k < |all| && Claims(w, t, sockets, planned, all[k]) && SameDaemon(all[k], planned)
  }

  /** A look begun at t found no server, or none of its roots at or below the worktree. */
  ghost predicate NoneWithin(w: World, t: nat, worktree: Path) {
    w.probe(t) == Some(Absent)
    || (w.probe(t).Some? && w.watchList(t + 1).Some?
        && AllOutside(w, t + 2, w.watchList(t + 1).value, worktree))
  }

  ghost predicate AllOutside(w: World, t: nat, roots: seq<Path>, worktree: Path) {
    forall k :: 0 <= k < |roots| ==> !w.under(t, roots[k], worktree)
  }

  /** A look taken after every event of the log, between two moments, found the worktree unwatched, or did not. */
  ghost predicate LookedAfter(w: World, log: seq<Event>, from: nat, to: nat, worktree: Path, none: bool) {
    exists t: nat :: from <= t < to && Sequenced(log, t) && (NoneWithin(w, t, worktree) <==> none)
  }

  /** One event, lawful on its own. A root is only seen gone in a list that does not hold it. */
  ghost predicate LawfulEvent(w: World, plan: Plan, e: Event) {
    match e
    case Deleted(at, root, s) => MayDelete(w, plan, at, root, s)
    case Gone(at, root) => w.watchList(at).Some? && root !in w.watchList(at).value
    case StopSent(at, owner, s) => MayStop(w, plan, at, owner, s)
  }

  /** When the steps behind an event began. */
  function Begun(e: Event): nat {
    if e.Gone? then e.at else e.steps.first
  }

  /** The events came one after another, each one's first step after the event before it, and all before now. */
  ghost predicate Sequenced(log: seq<Event>, now: nat) {
    && (forall i, j :: 0 <= i < j < |log| ==> log[i].at < Begun(log[j]))
    && forall i :: 0 <= i < |log| ==> log[i].at < now
  }

  /** The steps behind a stop begun at t. */
  function StopSteps(w: World, t: nat): Steps {
    var g := CheckEnd(w, t + 1);
    Steps(t + 1, g, g + 1, g + 1, g + 2)
  }

  lemma MayStopNow(w: World, plan: Plan, t: nat)
    requires !StopRefused(w, plan, t) && plan.fsmonitor.Some?
    ensures MayStop(w, plan, CheckEnd(w, t + 1) + 3, plan.fsmonitor.value, StopSteps(w, t))
  {
    hide ClearAt, CheckFails, SoleOwner;
  }

  /** A root rechecked may be deleted when the last check is clear and sees it. */
  lemma MayDeleteNext(w: World, plan: Plan, k: nat, t: nat)
    requires k < |plan.roots| && Rechecked(w, plan, k, t)
    ensures var root, g, last := plan.roots[k].path, CheckEnd(w, t), LastCheck(w, t);
            ClearAt(w, last, plan.worktree.path, root, Targets(plan.roots)) && WatchedAt(w, last, root)
            ==> MayDelete(w, plan, CheckEnd(w, last), root, Steps(t, g, g + 1, g + 2, last))
  {
    hide ClearAt, CheckFails, WatchedAt;
    var g := CheckEnd(w, t);
    assert w.resolve(g + 2, plan.roots[k].path) == Some(plan.roots[k]);
  }

  lemma NothingRetired(w: World, plan: Plan, now: nat)
    ensures Lawful(w, plan, []) && Sequenced([], now) && Within([], Targets(plan.roots)[..0])
  {
  }

  lemma LaterStill(w: World, plan: Plan, retired: seq<Path>, from: nat, to: nat, later: nat)
    requires AllGone(w, plan, retired, from, to) && to <= later
    ensures AllGone(w, plan, retired, from, later)
  {
    hide RootUnwatched;
    forall k | 0 <= k < |plan.roots| && plan.roots[k].path !in retired
      ensures FoundUnwatched(w, plan, k, from, later)
    {
      assert FoundUnwatched(w, plan, k, from, to);
    }
  }

  lemma SequencedLater(log: seq<Event>, now: nat, later: nat)
    requires Sequenced(log, now) && now <= later
    ensures Sequenced(log, later)
  {
  }

  lemma SequencedOneMore(log: seq<Event>, begun: nat, e: Event, now: nat)
    requires Sequenced(log, begun) && begun <= Begun(e) && begun <= e.at < now
    ensures Sequenced(log + [e], now)
  {
  }

  ghost predicate Lawful(w: World, plan: Plan, log: seq<Event>) {
    forall e :: e in log ==> LawfulEvent(w, plan, e)
  }

  predicate SameDirectory(w: World, t: nat, a: Path, b: Path) {
    && w.resolve(t, a).Some? && w.resolve(t, b).Some?
    && w.resolve(t, a).value.dev == w.resolve(t, b).value.dev && w.resolve(t, a).value.ino == w.resolve(t, b).value.ino
  }

  /** At one moment two paths are under each other only when they are one directory. */
  ghost predicate IsTree(w: World, t: nat) {
    forall a, b :: w.under(t, a, b) && w.under(t, b, a) ==> SameDirectory(w, t, a, b)
  }

  predicate ProperAncestor(w: World, t: nat, root: Path, worktree: Path) {
    w.under(t, worktree, root) && !SameDirectory(w, t, root, worktree)
  }

  /** No root above the worktree is ever deleted: at the moment it was re-pinned it was not one. */
  lemma NoAncestorIsDeleted(w: World, plan: Plan, log: seq<Event>, e: Event)
    requires Lawful(w, plan, log) && e in log && e.Deleted? && IsTree(w, e.steps.rootPinned)
    ensures !ProperAncestor(w, e.steps.rootPinned, e.root, plan.worktree.path)
  {
    assert LawfulEvent(w, plan, e);
    hide ClearAt, WatchedAt, CheckEnd;
  }

  /** root was deleted, the server said so, and the list taken next no longer held it. */
  ghost predicate DeletedThenGone(w: World, log: seq<Event>, root: Path) {
    exists i :: 0 <= i < |log| - 1 && log[i].Deleted? && log[i].root == root && w.watchDel(log[i].at, root)
                && log[i + 1] == Gone(log[i].at + 1, root)
  }

  /** The entries of part are entries of whole, in whole's order. */
  predicate Within(part: seq<Path>, whole: seq<Path>) {
    part == []
    || (whole != []
        && ((part[|part| - 1] == whole[|whole| - 1] && Within(part[..|part| - 1], whole[..|whole| - 1]))
            || Within(part, whole[..|whole| - 1])))
  }

  /** The part's entries sit at ascending places of the whole. */
  lemma {:induction false} WithinMeans(part: seq<Path>, whole: seq<Path>) returns (at: seq<nat>)
    requires Within(part, whole)
    ensures |at| == |part| && forall i :: 0 <= i < |at| ==> at[i] < |whole| && whole[at[i]] == part[i]
    ensures forall i, j :: 0 <= i < j < |at| ==> at[i] < at[j]
    decreases |whole|
  {
    at := [];
    if part != [] {
      var n, k := |whole| - 1, |part| - 1;
      if part[k] == whole[n] && Within(part[..k], whole[..n]) {
        at := WithinMeans(part[..k], whole[..n]);
        at := at + [n];
      } else {
        at := WithinMeans(part, whole[..n]);
      }
    }
  }

  lemma WithinOneMore(part: seq<Path>, whole: seq<Path>, x: Path)
    requires Within(part, whole)
    ensures Within(part, whole + [x]) && Within(part + [x], whole + [x])
  {
    assert (whole + [x])[..|whole|] == whole && (part + [x])[..|part|] == part;
  }

  lemma {:induction false} WithinLonger(part: seq<Path>, whole: seq<Path>, k: nat)
    requires k <= |whole| && Within(part, whole[..k])
    ensures Within(part, whole)
    decreases |whole|
  {
    if k < |whole| {
      assert whole[..|whole| - 1][..k] == whole[..k];
      WithinLonger(part, whole[..|whole| - 1], k);
    } else {
      assert whole[..k] == whole;
    }
  }

  /** The roots deleted, in order. */
  function DeletedRoots(log: seq<Event>): seq<Path> {
    if log == [] then []
    else DeletedRoots(log[..|log| - 1]) + if log[|log| - 1].Deleted? then [log[|log| - 1].root] else []
  }

  lemma OneMoreEvent(log: seq<Event>, e: Event)
    ensures DeletedRoots(log + [e]) == DeletedRoots(log) + if e.Deleted? then [e.root] else []
  {
    assert (log + [e])[..|log|] == log;
  }

  lemma GoneStays(w: World, log: seq<Event>, e: Event, root: Path)
    requires DeletedThenGone(w, log, root)
    ensures DeletedThenGone(w, log + [e], root)
  {
    var i :| 0 <= i < |log| - 1 && log[i].Deleted? && log[i].root == root && w.watchDel(log[i].at, root)
             && log[i + 1] == Gone(log[i].at + 1, root);
    var after := log + [e];
    assert after[i] == log[i] && after[i + 1] == log[i + 1];
  }

  /** One retirement in progress. Every request takes a moment, so the clock only moves forward. */
  class Session {
    const world: World
    var clock: nat
    ghost var log: seq<Event>

    constructor (world: World, start: nat)
      ensures this.world == world && clock == start && log == []
    {
      this.world, this.clock, this.log := world, start, [];
    }

    /** gate and pinRoots: the plan for one worktree. None when any request fails. */
    method TakePlan(worktree: Path) returns (r: Option<Plan>)
      modifies this`clock
      ensures clock > old(clock)
      ensures r.None? <==> PlanFails(world, old(clock), worktree)
      ensures r.Some? ==> PlanOf(world, old(clock), worktree, r.value)
      ensures r.Some? && !r.value.refused ==> Planned(world, old(clock) + 1, r.value)
    {
      hide Deepest, Below, GateClear, GateFails, Pins, Targets, Planned;
      var t := clock;
      clock := t + 1;
      var id := world.resolve(t, worktree);
      if id.None? {
        return None;
      }
      var target := id.value.path;
      var gate := Gate(target);
      if gate.None? {
        return None;
      }
      var (roots, blocked) := gate.value;
      var asked := clock;
      var own := world.ownership(asked, target);
      clock := asked + 1;
      if own.None? {
        return None;
      }
      var pinned, unpinned := PinRoots(roots);
      var refused := blocked || unpinned > 0 || own.value.blocked;
      var plan := Plan(id.value, own.value.gitDir, pinned, own.value.owner, own.value.sockets, refused);
      if !plan.refused {
        UnrefusedIsPlanned(world, t, worktree, plan);
      }
      return Some(plan);
    }

    /** pinRoots: each root's identity, and how many no longer resolve to themselves. */
    method PinRoots(paths: seq<Path>) returns (pinned: seq<Identity>, unpinned: nat)
      modifies this`clock
      ensures clock == old(clock) + |paths|
      ensures pinned == Pins(world, old(clock), paths) && unpinned == |paths| - |pinned|
    {
      pinned, unpinned := [], 0;
      var t := clock;
      var k := 0;
      while k < |paths|
        invariant 0 <= k <= |paths|
        invariant pinned == Pins(world, t, paths[..k]) && unpinned == k - |pinned|
      {
        assert paths[..k + 1][..k] == paths[..k];
        var now := world.resolve(t + k, paths[k]);
        if now.None? || now.value.path != paths[k] {
          unpinned := unpinned + 1;
        } else {
          pinned := pinned + [now.value];
        }
        k := k + 1;
      }
      assert paths[..k] == paths;
      clock := t + |paths|;
    }

    /** gate: the roots at or below the target, deepest first, and whether anything is in the way. */
    method Gate(target: Path) returns (r: Option<(seq<Path>, bool)>)
      modifies this`clock
      ensures clock > old(clock)
      ensures r.None? <==> GateFails(world, old(clock), target)
      ensures r.Some? ==> clock == CheckEnd(world, old(clock)) && r.value.0 == GateRoots(world, old(clock), target)
      ensures r.Some? ==>
                (r.value.1 <==>
                   world.probe(old(clock)) != Some(Absent) && !GateClear(world, old(clock), target, r.value.0))
    {
      hide GateRootClear, GateRootUnread, Accounted, LookedUp, Deepest, Below, AtOrBelow, ClientsUnread;
      var t := clock;
      clock := t + 1;
      var srv := world.probe(t);
      if srv.None? {
        return None;
      }
      if srv.value.Absent? {
        return Some(([], false));
      }
      clock := t + 2;
      var answer := world.status(t + 1);
      if answer.None? {
        return None;
      }
      var status := answer.value;
      var roots: seq<Path> := [];
      NoneBelow(world, t + 2, status.roots, target);
      var blockers: nat := 0;
      var k := 0;
      while k < |status.roots|
        invariant 0 <= k <= |status.roots| && clock == t + 2
        invariant roots == Below(world, t + 2, status.roots[..k], target)
        invariant blockers > 0 <==> exists j :: 0 <= j < k && !GateRootClear(world, t + 2 + j, status.roots[j], target)
        invariant forall j :: 0 <= j < k ==> !GateRootUnread(world, t + 2 + j, status.roots[j], target)
      {
        var raw := status.roots[k];
        BelowOneMore(world, t + 2, status.roots, k, target);
        if AtOrBelow(world, t + 2 + k, raw.path, target) {
          roots := roots + [raw.path];
        }
        var blocks := GateRootBlocks(t + 2 + k, raw, target);
        if blocks.None? {
          return None;
        }
        if blocks.value {
          blockers := blockers + 1;
        }
        k := k + 1;
      }
      assert status.roots[..k] == status.roots;
      roots := Deepest(roots);
      var clients := ClientsBlock(world, t + 2 + |status.roots|, status, srv.value.pid, roots);
      clock := t + 3 + 2 * |status.roots|;
      if clients.None? {
        return None;
      }
      return Some((roots, blockers > 0 || clients.value));
    }

    /** Whether one root of the status is in the way of a plan for target. */
    method GateRootBlocks(slot: nat, raw: RawRoot, target: Path) returns (r: Option<bool>)
      ensures r.None? <==> GateRootUnread(world, slot, raw, target)
      ensures r.Some? ==> (r.value <==> !GateRootClear(world, slot, raw, target))
    {
      if AtOrBelow(world, slot, raw.path, target) {
        r := ConsumersBlock(slot, raw);
      } else if world.under(slot, target, raw.path) {
        r := AncestorBlocks(slot, raw, target);
      } else {
        r := Some(false);
      }
    }

    /** consumers and blockers: whether anything uses the root. */
    method ConsumersBlock(slot: nat, raw: RawRoot) returns (r: Option<bool>)
      ensures r.None? <==> !world.consumers(slot, raw.path).Consumers?
      ensures r.Some? ==> (r.value <==> !Idle(raw, world.consumers(slot, raw.path)))
    {
      var c := world.consumers(slot, raw.path);
      if !c.Consumers? {
        return None;
      }
      var blockers: nat := raw.queries + |c.subs| + c.triggers;
      return Some(blockers > 0);
    }

    /** ancestor: whether a root above the worktree is in the way of it. */
    method AncestorBlocks(slot: nat, raw: RawRoot, worktree: Path) returns (r: Option<bool>)
      ensures r.None? <==> AncestorUnread(world, slot, raw, worktree)
      ensures r.Some? ==>
                (r.value <==>
                   world.ignored(slot, raw.path, worktree) != Some(true)
                   && !Idle(raw, world.consumers(slot, raw.path)))
    {
      var ignored := world.ignored(slot, raw.path, worktree);
      if ignored.None? {
        return None;
      }
      if ignored.value {
        return Some(false);
      }
      r := ConsumersBlock(slot, raw);
    }

    /** Whether one root of the status is in the way; None when what it takes to tell could not be read. */
    method RootBlocks(slot: nat, raw: RawRoot, worktree: Path, root: Path) returns (r: Option<bool>)
      ensures r.None? <==> RootUnread(world, slot, raw, worktree, root)
      ensures r.Some? ==> (r.value <==> !RootClear(world, slot, raw, worktree, root))
    {
      if root != "" && raw.path == root {
        r := ConsumersBlock(slot, raw);
      } else if !world.under(slot, raw.path, worktree) && world.under(slot, worktree, raw.path) {
        r := AncestorBlocks(slot, raw, worktree);
      } else {
        r := Some(false);
      }
    }

    /** freshBlockers: whether anything is in the way, and whether root is watched. */
    method FreshBlockers(worktree: Path, root: Path, targets: seq<Path>) returns (r: Option<(bool, bool)>)
      modifies this`clock
      ensures clock > old(clock)
      ensures r.None? <==> CheckFails(world, old(clock), worktree, root)
      ensures r.Some? ==> clock == CheckEnd(world, old(clock)) && (r.value.1 <==> Sees(world, old(clock), root))
      ensures r.Some? ==>
                (r.value.0 <==>
                   world.probe(old(clock)) != Some(Absent) && !ClearAt(world, old(clock), worktree, root, targets))
    {
      hide RootClear, RootUnread, Accounted, LookedUp, Lists, ClientsUnread;
      var t := clock;
      clock := t + 1;
      var srv := world.probe(t);
      if srv.None? {
        return None;
      }
      if srv.value.Absent? {
        return Some((false, false));
      }
      clock := t + 2;
      var answer := world.status(t + 1);
      if answer.None? {
        return None;
      }
      var status := answer.value;
      var blockers: nat := 0;
      var watched := false;
      var k := 0;
      NoneListed(status.roots, root);
      while k < |status.roots|
        invariant 0 <= k <= |status.roots|
        invariant clock == t + 2
        invariant watched <==> Lists(status.roots[..k], root)
        invariant blockers > 0 <==>
                    exists j :: 0 <= j < k && !RootClear(world, t + 2 + j, status.roots[j], worktree, root)
        invariant forall j :: 0 <= j < k ==> !RootUnread(world, t + 2 + j, status.roots[j], worktree, root)
      {
        var raw := status.roots[k];
        if root != "" && raw.path == root {
          watched := true;
        }
        var blocks := RootBlocks(t + 2 + k, raw, worktree, root);
        if blocks.None? {
          return None;
        }
        if blocks.value {
          blockers := blockers + 1;
        }
        ListsOneMore(status.roots, k, root);
        k := k + 1;
      }
      assert status.roots[..k] == status.roots;
      var clients := ClientsBlock(world, t + 2 + |status.roots|, status, srv.value.pid, targets);
      clock := t + 3 + 2 * |status.roots|;
      if clients.None? {
        return None;
      }
      return Some((blockers > 0 || clients.value, watched));
    }

    /** deleteRoot: one last check, the watch-del, and a list that must no longer hold the root. */
    method DeleteRoot(plan: Plan, root: Path, ghost steps: Steps) returns (r: Result<bool, Stop>)
      requires Lawful(world, plan, log) && Sequenced(log, steps.first) && steps.first <= clock == steps.last
      requires ClearAt(world, clock, plan.worktree.path, root, Targets(plan.roots)) && WatchedAt(world, clock, root)
               ==> MayDelete(world, plan, CheckEnd(world, clock), root, steps)
      modifies this`clock, this`log
      ensures Lawful(world, plan, log) && Sequenced(log, clock) && clock > old(clock)
      ensures r == Failure(Refused) <==> Blocked(world, old(clock), plan, root)
      ensures r == Success(false) <==> !Blocked(world, old(clock), plan, root) && !Sees(world, old(clock), root)
      ensures r == Failure(Unconfirmed) <==>
                !Blocked(world, old(clock), plan, root) && Sees(world, old(clock), root)
                && NotSeenGone(world, CheckEnd(world, old(clock)), root)
      ensures r == Success(true) ==>
                DeletedThenGone(world, log, root) && DeletedRoots(log) == DeletedRoots(old(log)) + [root]
      ensures r == Success(false) || r == Failure(Refused) ==> log == old(log)
      ensures r == Failure(Unconfirmed) ==>
                DeletedRoots(log) == DeletedRoots(old(log)) + [root] && old(log) < log
      ensures log == old(log) || (DeletedRoots(log) == DeletedRoots(old(log)) + [root] && old(log) < log)
      ensures forall p :: DeletedThenGone(world, old(log), p) ==> DeletedThenGone(world, log, p)
    {
      hide MayDelete, ClearAt, WatchedAt, MayStop, DeletedRoots, CheckFails, Sequenced, DeletedThenGone, CheckEnd;
      ghost var before, t := log, clock;
      var check := FreshBlockers(plan.worktree.path, root, Targets(plan.roots));
      SequencedLater(before, steps.first, clock);
      if check.None? || check.value.0 {
        return Failure(Refused);
      }
      if !check.value.1 {
        return Success(false);
      }
      var at := clock;
      var deleted := world.watchDel(at, root);
      clock := at + 1;
      OneMoreEvent(log, Deleted(at, root, steps));
      SequencedOneMore(log, steps.first, Deleted(at, root, steps), at + 1);
      log := log + [Deleted(at, root, steps)];
      GoneStaysForAll(world, before, Deleted(at, root, steps));
      if !deleted {
        return Failure(Unconfirmed);
      }
      var roots := world.watchList(at + 1);
      clock := at + 2;
      SequencedLater(log, at + 1, at + 2);
      if roots.None? || root in roots.value {
        return Failure(Unconfirmed);
      }
      OneMoreEvent(log, Gone(at + 1, root));
      GoneStaysForAll(world, log, Gone(at + 1, root));
      SequencedOneMore(log, at + 1, Gone(at + 1, root), at + 2);
      log := log + [Gone(at + 1, root)];
      JustGone(world, before, at, root, steps);
      return Success(true);
    }

    /** repinWorktree. */
    method RepinWorktree(pin: Identity) returns (ok: bool)
      modifies this`clock
      ensures clock == old(clock) + 1
      ensures ok <==> world.resolve(old(clock), pin.path) == Some(pin)
    {
      ok := world.resolve(clock, pin.path) == Some(pin);
      clock := clock + 1;
    }

    /** retireRoot: check, guard, re-pin, then delete. Success(false) is a root no longer watched. */
    method RetireRoot(plan: Plan, k: nat) returns (r: Result<bool, Stop>)
      requires Lawful(world, plan, log) && Sequenced(log, clock) && k < |plan.roots|
      modifies this`clock, this`log
      ensures Lawful(world, plan, log) && Sequenced(log, clock) && clock > old(clock)
      ensures r == Failure(Refused) <==> RootRefused(world, plan, k, old(clock))
      ensures r == Failure(Unconfirmed) <==> RootUnconfirmed(world, plan, k, old(clock))
      ensures r == Success(false) <==> RootUnwatched(world, plan, k, old(clock))
      ensures r == Success(true) ==>
                DeletedThenGone(world, log, plan.roots[k].path)
                  && DeletedRoots(log) == DeletedRoots(old(log)) + [plan.roots[k].path]
      ensures r == Success(false) || r == Failure(Refused) ==> log == old(log)
      ensures r == Failure(Unconfirmed) ==>
                DeletedRoots(log) == DeletedRoots(old(log)) + [plan.roots[k].path] && old(log) < log
      ensures log == old(log) || (DeletedRoots(log) == DeletedRoots(old(log)) + [plan.roots[k].path] && old(log) < log)
      ensures forall p :: DeletedThenGone(world, old(log), p) ==> DeletedThenGone(world, log, p)
    {
      hide CheckFails, ClearAt, WatchedAt, MayDelete, DeletedRoots, DeletedThenGone, CheckEnd, Lawful;
      var root := plan.roots[k];
      ghost var first := clock;
      var check := FreshBlockers(plan.worktree.path, root.path, Targets(plan.roots));
      SequencedLater(log, first, clock);
      if check.None? || check.value.0 {
        return Failure(Refused);
      }
      if !check.value.1 {
        return Success(false);
      }
      ghost var g := clock;
      SequencedLater(log, first, g + 3);
      if !world.guard(clock, plan.worktree.path) {
        clock := clock + 1;
        SequencedLater(log, first, clock);
        return Failure(Refused);
      }
      clock := clock + 1;
      var same := RepinWorktree(plan.worktree);
      SequencedLater(log, first, clock);
      if !same {
        return Failure(Refused);
      }
      var now := world.resolve(clock, root.path);
      var below := world.under(clock, root.path, plan.worktree.path);
      clock := clock + 1;
      if now != Some(root) || !below {
        return Failure(Refused);
      }
      assert Rechecked(world, plan, k, first) && clock == LastCheck(world, first);
      MayDeleteNext(world, plan, k, first);
      r := DeleteRoot(plan, root.path, Steps(first, g, g + 1, g + 2, clock));
    }

    /** sameOwner: the owners among the daemons now, and the unresolved ones that might be. */
    method SameOwner(planned: Daemon, sockets: seq<Path>) returns (ok: bool)
      modifies this`clock
      ensures clock == old(clock) + 1
      ensures ok <==> SoleOwner(world, old(clock), sockets, planned)
    {
      var t := clock;
      clock := t + 1;
      var answer := world.daemons(t);
      if answer.None? {
        return false;
      }
      var all := answer.value;
      var owners: set<nat> := {};
      var unresolved: nat := 0;
      var k := 0;
      while k < |all|
        invariant 0 <= k <= |all|
        invariant forall i: nat :: i in owners <==> i < k && Claims(world, t, sockets, planned, all[i])
        invariant unresolved > 0 <==>
                    exists d :: d in all[..k] && d.unresolved && !Claims(world, t, sockets, planned, d)
      {
        assert all[..k + 1] == all[..k] + [all[k]];
        if all[k].pid == planned.pid || world.ownsSocket(t, sockets, all[k]) {
          owners := owners + {k};
        } else if all[k].unresolved {
          unresolved := unresolved + 1;
        }
        k := k + 1;
      }
      assert all[..k] == all;
      if |owners| != 1 {
        NotOneNotSole(world, t, sockets, planned, all, owners);
        return false;
      }
      var only :| only in owners;
      OnlyElement(owners, only);
      ok := unresolved == 0 && SameProcess(all[only], planned) && all[only].socket == planned.socket;
      assert ok ==> IsOwner(world, t, sockets, planned, all, only);
    }

    /** retireFSMonitor. Success(None) is a worktree no daemon owns. */
    method RetireFSMonitor(plan: Plan) returns (r: Result<Option<Daemon>, Stop>)
      requires Lawful(world, plan, log) && Sequenced(log, clock)
      modifies this`clock, this`log
      ensures Lawful(world, plan, log) && Sequenced(log, clock) && clock > old(clock)
      ensures r == Failure(Refused) <==> StopRefused(world, plan, old(clock))
      ensures r == Success(None) <==> !StopRefused(world, plan, old(clock)) && plan.fsmonitor.None?
      ensures r == Failure(Unconfirmed) <==> DaemonStops(world, plan, old(clock), Unconfirmed)
      ensures DeletedRoots(log) == DeletedRoots(old(log))
      ensures r.Success? && r.value.Some? ==> r.value == plan.fsmonitor && old(log) < log && log[|log| - 1].StopSent?
      ensures r == Success(None) ==> log == old(log) && plan.fsmonitor == None
      ensures r == Failure(Refused) ==> log == old(log)
      ensures r == Failure(Unconfirmed) ==> old(log) < log && log[|log| - 1].StopSent?
      ensures forall p :: DeletedThenGone(world, old(log), p) ==> DeletedThenGone(world, log, p)
    {
      hide MayDelete, MayStop, DeletedRoots, DeletedThenGone, Sequenced, StopRefused;
      ghost var t := clock;
      var clear := ClearToStop(plan);
      SequencedLater(log, t, clock);
      if !clear {
        return Failure(Refused);
      }
      if plan.fsmonitor.None? {
        return Success(None);
      }
      var owner := plan.fsmonitor.value;
      MayStopNow(world, plan, t);
      ghost var e := StopSent(clock, owner, StopSteps(world, t));
      OneMoreEvent(log, e);
      GoneStaysForAll(world, log, e);
      SequencedLater(log, t, t + 1);
      SequencedOneMore(log, t + 1, e, clock + 1);
      log := log + [e];
      var stopped := world.stop(clock);
      clock := clock + 1;
      return if stopped then Success(Some(owner)) else Failure(Unconfirmed);
    }

    /** Everything retireFSMonitor asks before it stops a daemon, or finds there is none. */
    method ClearToStop(plan: Plan) returns (ok: bool)
      modifies this`clock
      ensures clock > old(clock)
      ensures ok <==> !StopRefused(world, plan, old(clock))
      ensures ok && plan.fsmonitor.Some? ==> clock == CheckEnd(world, old(clock) + 1) + 3
    {
      hide WatchedAt, ClearAt, CheckFails, SoleOwner, CheckEnd;
      var own := world.ownership(clock, plan.worktree.path);
      clock := clock + 1;
      if own.None? {
        return false;
      }
      var blocked := own.value.blocked || own.value.gitDir != plan.gitDir
        || OwnerDrift(plan.fsmonitor, own.value.owner);
      var check := FreshBlockers(plan.worktree.path, "", Targets(plan.roots));
      if check.None? || check.value.0 || blocked {
        return false;
      }
      if own.value.owner.None? {
        return true;
      }
      if !world.guard(clock, plan.worktree.path) {
        clock := clock + 1;
        return false;
      }
      clock := clock + 1;
      var same := RepinWorktree(plan.worktree);
      if !same {
        return false;
      }
      ok := SameOwner(plan.fsmonitor.value, plan.sockets);
    }

    /** verifyNoRootsWithin: nothing at or below the worktree is watched again. */
    method VerifyNoRootsWithin(worktree: Path) returns (ok: bool)
      modifies this`clock
      ensures clock > old(clock)
      ensures ok <==> NoneWithin(world, old(clock), worktree)
    {
      var t := clock;
      clock := t + 3;
      var srv := world.probe(t);
      if srv.None? {
        return false;
      }
      if srv.value.Absent? {
        return true;
      }
      var roots := world.watchList(t + 1);
      if roots.None? {
        return false;
      }
      var late: nat := 0;
      var k := 0;
      while k < |roots.value|
        invariant 0 <= k <= |roots.value|
        invariant late == 0 <==> forall j :: 0 <= j < k ==> !world.under(t + 2, roots.value[j], worktree)
      {
        if world.under(t + 2, roots.value[k], worktree) {
          late := late + 1;
        }
        k := k + 1;
      }
      return late == 0;
    }

    /** The loop of retire: each planned root in turn, up to the first that stops it. */
    method RetireRoots(plan: Plan) returns (retired: seq<Path>, stop: Option<Stop>)
      requires log == []
      modifies this`clock, this`log
      ensures Lawful(world, plan, log) && Sequenced(log, clock) && clock >= old(clock)
      ensures stop.Some? ==> RootStoppedBy(world, plan, old(clock), clock, stop.value)
      ensures stop.None? ==> AllGone(world, plan, retired, old(clock), clock)
      ensures Within(retired, Targets(plan.roots))
      ensures forall p :: p in retired ==> DeletedThenGone(world, log, p)
      ensures stop != Some(Unconfirmed) ==> DeletedRoots(log) == retired && (retired == [] ==> log == [])
      ensures stop == Some(Unconfirmed) ==>
                exists k :: 0 <= k < |plan.roots| && DeletedRoots(log) == retired + [plan.roots[k].path]
    {
      hide Lawful, Sequenced, Within, DeletedThenGone, RootRefused, RootUnconfirmed, RootUnwatched;
      retired, stop := [], None;
      ghost var from := clock;
      NothingRetired(world, plan, clock);
      var k := 0;
      while k < |plan.roots|
        invariant 0 <= k <= |plan.roots| && from <= clock
        invariant Lawful(world, plan, log) && Sequenced(log, clock)
        invariant DeletedRoots(log) == retired && (retired == [] ==> log == [])
        invariant Within(retired, Targets(plan.roots)[..k])
        invariant forall p :: p in retired ==> DeletedThenGone(world, log, p)
        invariant forall j :: 0 <= j < k ==>
                    plan.roots[j].path in retired || FoundUnwatched(world, plan, j, from, clock)
      {
        WithinLonger(retired, Targets(plan.roots), k);
        ghost var t := clock;
        var gone := RetireRoot(plan, k);
        if gone.Failure? {
          match gone.error {
            case Refused => assert RootStops(world, plan, k, t, Refused);
            case Unconfirmed => assert RootStops(world, plan, k, t, Unconfirmed);
          }
          return retired, Some(gone.error);
        }
        assert Targets(plan.roots)[..k + 1] == Targets(plan.roots)[..k] + [plan.roots[k].path];
        WithinOneMore(retired, Targets(plan.roots)[..k], plan.roots[k].path);
        if gone.value {
          retired := retired + [plan.roots[k].path];
        } else {
          assert RootUnwatched(world, plan, k, t);
        }
        k := k + 1;
      }
      WithinLonger(retired, Targets(plan.roots), k);
    }

    /** retire: each planned root in turn, then the daemon, then a last look. A refusal leaves nothing
        deleted but the roots reported, and nothing at all when none is. */
    method RetirePlan(plan: Plan) returns (out: Outcome, end: Ending)
      requires log == []
      modifies this`clock, this`log
      ensures Lawful(world, plan, log) && Sequenced(log, clock) && clock >= old(clock)
      ensures end.Stopped? ==> StoppedBy(world, plan, old(clock), clock, end.why)
      ensures !end.Stopped? ==> LookedAfter(world, log, old(clock), clock, plan.worktree.path, end == Complete)
      ensures !end.Stopped? ==> AllGone(world, plan, out.retired, old(clock), clock)
      ensures plan.refused ==> end == Stopped(Refused) && log == []
      ensures Within(out.retired, Targets(plan.roots))
      ensures forall p :: p in out.retired ==> DeletedThenGone(world, log, p)
      ensures end != Stopped(Unconfirmed) ==> DeletedRoots(log) == out.retired
      ensures DeletedRoots(log) == out.retired
              || exists k :: 0 <= k < |plan.roots| && DeletedRoots(log) == out.retired + [plan.roots[k].path]
      ensures end == Stopped(Refused) ==> out.stopped == None && (out.retired == [] ==> log == [])
      ensures out.stopped.Some? ==> out.stopped == plan.fsmonitor && exists e :: e in log && e.StopSent?
      ensures end == Complete ==>
                !plan.refused && out.stopped == plan.fsmonitor
    {
      out := Outcome([], None);
      if plan.refused {
        return out, Stopped(Refused);
      }
      hide Lawful, DeletedThenGone, Sequenced, Within, DeletedRoots, RootStoppedBy, FoundUnwatched, StopRefused;
      ghost var from := clock;
      var retired, stop := RetireRoots(plan);
      out := out.(retired := retired);
      if stop.Some? {
        return out, Stopped(stop.value);
      }
      ghost var t := clock;
      var stopped := RetireFSMonitor(plan);
      LaterStill(world, plan, retired, from, t, clock);
      if stopped.Failure? {
        assert DaemonStops(world, plan, t, stopped.error);
        return out, Stopped(stopped.error);
      }
      out := out.(stopped := stopped.value);
      ghost var looked := clock;
      var ok := VerifyNoRootsWithin(plan.worktree.path);
      LaterStill(world, plan, retired, from, looked, clock);
      SequencedLater(log, looked, clock);
      assert NoneWithin(world, looked, plan.worktree.path) <==> ok;
      end := if ok then Complete else Rewatched;
    }
  }

  /** Every root of the new plan is in the old one, in the same place, and nothing else changed. */
  ghost predicate Unchanged(planned: Plan, latest: Plan) {
    && latest.worktree == planned.worktree && !latest.refused && latest.gitDir == planned.gitDir
    && SameOwners(planned.fsmonitor, latest.fsmonitor)
    && forall r :: r in latest.roots ==> IsFirstAt(planned.roots, r)
  }

  /** r is in the list, and no root before it has its path. */
  ghost predicate IsFirstAt(roots: seq<Identity>, r: Identity) {
    exists i :: 0 <= i < |roots| && roots[i] == r && forall j :: 0 <= j < i ==> roots[j].path != r.path
  }

  lemma {:induction false} FirstAtIs(roots: seq<Identity>, r: Identity)
    ensures FirstAt(roots, r.path) == Some(r) <==> IsFirstAt(roots, r)
  {
    if roots != [] {
      FirstAtIs(roots[1..], r);
      FirstOrLater(roots[0], roots[1..], r);
      assert [roots[0]] + roots[1..] == roots;
      hide IsFirstAt;
    }
  }

  lemma FirstOrLater(first: Identity, rest: seq<Identity>, r: Identity)
    ensures IsFirstAt([first] + rest, r) <==> first == r || (first.path != r.path && IsFirstAt(rest, r))
  {
    if first.path == r.path {
      FirstOfItsPath([first] + rest, r);
    } else {
      LaterOfItsPath(first, rest, r);
    }
  }

  lemma FirstOfItsPath(roots: seq<Identity>, r: Identity)
    requires roots != [] && roots[0].path == r.path
    ensures IsFirstAt(roots, r) <==> roots[0] == r
  {
    var i := 0;
    assert 0 <= i < |roots| && (roots[i] == r <==> roots[0] == r);
  }

  lemma LaterOfItsPath(first: Identity, rest: seq<Identity>, r: Identity)
    requires first.path != r.path
    ensures IsFirstAt([first] + rest, r) <==> IsFirstAt(rest, r)
  {
    if IsFirstAt(rest, r) {
      OnePlaceOn(first, rest, r);
    }
    if IsFirstAt([first] + rest, r) {
      OnePlaceBack(first, rest, r);
    }
  }

  lemma OnePlaceOn(first: Identity, rest: seq<Identity>, r: Identity)
    requires first.path != r.path && IsFirstAt(rest, r)
    ensures IsFirstAt([first] + rest, r)
  {
    var roots := [first] + rest;
    var i :| 0 <= i < |rest| && rest[i] == r && forall j :: 0 <= j < i ==> rest[j].path != r.path;
    forall j | 0 <= j < i + 1 ensures roots[j].path != r.path {
      assert j > 0 ==> roots[j] == rest[j - 1];
    }
    assert roots[i + 1] == r;
  }

  lemma OnePlaceBack(first: Identity, rest: seq<Identity>, r: Identity)
    requires first.path != r.path && IsFirstAt([first] + rest, r)
    ensures IsFirstAt(rest, r)
  {
    var roots := [first] + rest;
    var i :| 0 <= i < |roots| && roots[i] == r && forall j :: 0 <= j < i ==> roots[j].path != r.path;
    forall j | 0 <= j < i - 1 ensures rest[j].path != r.path {
      assert rest[j] == roots[j + 1];
    }
    assert rest[i - 1] == r;
  }

  function FirstAt(roots: seq<Identity>, path: Path): (first: Option<Identity>)
    ensures first.Some? ==> first.value in roots
  {
    if roots == [] then None
    else if roots[0].path == path then Some(roots[0])
    else FirstAt(roots[1..], path)
  }

  /** planDrift. */
  method Drifted(planned: Plan, latest: Plan) returns (drift: bool)
    ensures drift <==> !Unchanged(planned, latest)
  {
    var reasons: nat := if latest.worktree != planned.worktree then 1 else 0;
    if latest.refused {
      reasons := reasons + 1;
    }
    var k := 0;
    while k < |latest.roots|
      invariant 0 <= k <= |latest.roots|
      invariant reasons > 0 <==>
                latest.worktree != planned.worktree || latest.refused
                || exists j :: 0 <= j < k && !IsFirstAt(planned.roots, latest.roots[j])
    {
      hide FirstAt, IsFirstAt;
      FirstAtIs(planned.roots, latest.roots[k]);
      if FirstAt(planned.roots, latest.roots[k].path) != Some(latest.roots[k]) {
        reasons := reasons + 1;
      }
      k := k + 1;
    }
    return reasons > 0 || latest.gitDir != planned.gitDir || OwnerDrift(planned.fsmonitor, latest.fsmonitor);
  }

  /** The daemon is the one the approved plan names: the same pid, start, command and socket. */
  ghost predicate IsApproved(p: Plan, d: Daemon) {
    && p.fsmonitor.Some? && d.pid == p.fsmonitor.value.pid && d.start == p.fsmonitor.value.start
    && d.command == p.fsmonitor.value.command && d.socket == p.fsmonitor.value.socket
  }

  lemma OnePlanOf(w: World, t: nat, worktree: Path, a: Plan, b: Plan)
    requires PlanOf(w, t, worktree, a) && PlanOf(w, t, worktree, b)
    ensures a.fsmonitor == b.fsmonitor
  {
    hide Pins, GateRoots, GateClear, CheckEnd;
  }

  /** The events of a lawful log under an unchanged plan are the approved plan's. */
  lemma EventIsApproved(w: World, p: Plan, latest: Plan, e: Event)
    requires Unchanged(p, latest) && LawfulEvent(w, latest, e)
    ensures e.Deleted? ==>
              exists r :: r in p.roots && r.path == e.root && w.resolve(e.steps.rootPinned, e.root) == Some(r)
    ensures !e.Gone? ==>
              && w.guard(e.steps.guarded, p.worktree.path)
              && w.resolve(e.steps.pinned, p.worktree.path) == Some(p.worktree)
    ensures e.StopSent? ==> IsApproved(p, e.owner)
  {
    hide ClearAt, WatchedAt, CheckEnd, SoleOwner;
    if e.Deleted? {
      var k :| 0 <= k < |latest.roots| && latest.roots[k].path == e.root
               && w.resolve(e.steps.rootPinned, e.root) == Some(latest.roots[k]);
      assert latest.roots[k] in latest.roots;
    }
  }

  /** Retire: a plan taken anew must match the one handed in; then it is carried out. */
  method Retire(session: Session, p: Plan) returns (out: Outcome, end: Ending, ghost latest: Option<Plan>)
    requires session.log == []
    modifies session`clock, session`log
    ensures latest.None? ==>
              && PlanGone(session.world, old(session.clock), p)
              && end == Stopped(Refused) && out == Outcome([], None) && session.log == []
    ensures latest.Some? ==>
              && !p.refused && PlanOf(session.world, old(session.clock), p.worktree.path, latest.value)
              && Unchanged(p, latest.value)
    ensures latest.Some? ==>
              && Lawful(session.world, latest.value, session.log) && Sequenced(session.log, session.clock)
    ensures latest.Some? && end.Stopped? ==>
              StoppedBy(session.world, latest.value, old(session.clock), session.clock, end.why)
    ensures !end.Stopped? ==>
              && latest.Some?
              && AllGone(session.world, latest.value, out.retired, old(session.clock), session.clock)
              && LookedAfter(session.world, session.log, old(session.clock), session.clock, p.worktree.path,
                             end == Complete)
    ensures latest.Some? ==> Within(out.retired, Targets(latest.value.roots))
    ensures forall e :: e in session.log && e.Deleted? ==>
              exists r :: r in p.roots && r.path == e.root
                && session.world.resolve(e.steps.rootPinned, e.root) == Some(r)
    ensures forall e :: e in session.log && !e.Gone? ==>
              && session.world.guard(e.steps.guarded, p.worktree.path)
              && session.world.resolve(e.steps.pinned, p.worktree.path) == Some(p.worktree)
    ensures forall e :: e in session.log && e.StopSent? ==> IsApproved(p, e.owner)
    ensures out.stopped.Some? ==> IsApproved(p, out.stopped.value)
    ensures latest.Some? ==> forall now: Plan :: PlanOf(session.world, old(session.clock), p.worktree.path, now) ==>
              now.fsmonitor.Some? == p.fsmonitor.Some? && (now.fsmonitor.Some? ==> IsApproved(p, now.fsmonitor.value))
    ensures forall path :: path in out.retired ==> DeletedThenGone(session.world, session.log, path)
    ensures end != Stopped(Unconfirmed) ==> DeletedRoots(session.log) == out.retired
    ensures end == Stopped(Refused) ==> out.stopped == None && (out.retired == [] ==> session.log == [])
    ensures out.stopped.Some? ==> latest.Some? && out.stopped == latest.value.fsmonitor
  {
    out, end, latest := Outcome([], None), Stopped(Refused), None;
    if p.refused {
      return;
    }
    hide PlanFails, PlanOf, Planned, StoppedBy, AllGone, LookedAfter, Sequenced, DeletedRoots, Within;
    ghost var from := session.clock;
    var plan := session.TakePlan(p.worktree.path);
    if plan.None? {
      return;
    }
    var drift := Drifted(p, plan.value);
    if drift {
      return;
    }
    latest := Some(plan.value);
    ghost var t := session.clock;
    out, end := session.RetirePlan(plan.value);
    Wider(session.world, plan.value, session.log, out.retired, from, t, session.clock, end);
    forall e | e in session.log
      ensures e.Deleted? ==>
                exists r :: r in p.roots && r.path == e.root
                  && session.world.resolve(e.steps.rootPinned, e.root) == Some(r)
      ensures !e.Gone? ==>
                && session.world.guard(e.steps.guarded, p.worktree.path)
                && session.world.resolve(e.steps.pinned, p.worktree.path) == Some(p.worktree)
      ensures e.StopSent? ==> IsApproved(p, e.owner)
    {
      EventIsApproved(session.world, p, plan.value, e);
    }
    forall now: Plan | PlanOf(session.world, from, p.worktree.path, now)
      ensures now.fsmonitor == plan.value.fsmonitor
    {
      OnePlanOf(session.world, from, p.worktree.path, now, plan.value);
    }
  }

  lemma Wider(w: World, plan: Plan, log: seq<Event>, retired: seq<Path>, from: nat, t: nat, now: nat, end: Ending)
    requires from <= t
    ensures end.Stopped? && StoppedBy(w, plan, t, now, end.why) ==> StoppedBy(w, plan, from, now, end.why)
    ensures AllGone(w, plan, retired, t, now) ==> AllGone(w, plan, retired, from, now)
    ensures LookedAfter(w, log, t, now, plan.worktree.path, end == Complete) ==>
              LookedAfter(w, log, from, now, plan.worktree.path, end == Complete)
  {
    hide Sequenced, NoneWithin, RootStops, DaemonStops, RootUnwatched;
    if AllGone(w, plan, retired, t, now) {
      forall k | 0 <= k < |plan.roots| && plan.roots[k].path !in retired
        ensures FoundUnwatched(w, plan, k, from, now)
      {
        assert FoundUnwatched(w, plan, k, t, now);
      }
    }
  }

  /** ownerDrift: another process or socket owns the worktree now, or none does, or one newly does. */
  predicate OwnerDrift(planned: Option<Daemon>, now: Option<Daemon>): (drift: bool)
    ensures drift <==> !SameOwners(planned, now)
  {
    planned.Some? != now.Some?
    || (planned.Some? && (!SameProcess(planned.value, now.value) || planned.value.socket != now.value.socket))
  }

  predicate SameProcess(a: Daemon, b: Daemon) {
    a.pid == b.pid && a.start == b.start && a.command == b.command
  }

  lemma OnlyElement(s: set<nat>, k: nat)
    requires |s| == 1 && k in s
    ensures s == {k}
  {
    assert |s - {k}| == 0;
  }

  lemma NotOneNotSole(w: World, t: nat, sockets: seq<Path>, planned: Daemon, all: seq<Daemon>, owners: set<nat>)
    requires w.daemons(t) == Some(all) && |owners| != 1
    requires forall i: nat :: i in owners <==> i < |all| && Claims(w, t, sockets, planned, all[i])
    ensures !SoleOwner(w, t, sockets, planned)
  {
    forall k | IsOwner(w, t, sockets, planned, all, k)
      ensures exists j :: 0 <= j < |all| && j != k && Claims(w, t, sockets, planned, all[j])
    {
      assert k in owners && owners != {k};
      assert owners - {k} != {};
      var j :| j in owners - {k};
    }
  }

  lemma JustGone(w: World, log: seq<Event>, at: nat, root: Path, steps: Steps)
    requires w.watchDel(at, root)
    ensures DeletedThenGone(w, log + [Deleted(at, root, steps)] + [Gone(at + 1, root)], root)
  {
    var after := log + [Deleted(at, root, steps)] + [Gone(at + 1, root)];
    assert after[|log|] == Deleted(at, root, steps) && after[|log| + 1] == Gone(at + 1, root);
  }

  lemma GoneStaysForAll(w: World, log: seq<Event>, e: Event)
    ensures forall p :: DeletedThenGone(w, log, p) ==> DeletedThenGone(w, log + [e], p)
  {
    forall p | DeletedThenGone(w, log, p) ensures DeletedThenGone(w, log + [e], p) {
      GoneStays(w, log, e, p);
    }
  }

  lemma NoneListed(roots: seq<RawRoot>, root: Path)
    ensures !Lists(roots[..0], root)
  {
  }

  lemma ListsOneMore(roots: seq<RawRoot>, k: nat, root: Path)
    requires k < |roots|
    ensures Lists(roots[..k + 1], root) <==> Lists(roots[..k], root) || (root != "" && roots[k].path == root)
  {
    if Lists(roots[..k], root) {
      var i :| 0 <= i < k && roots[..k][i].path == root;
      assert roots[..k + 1][i].path == root;
    }
    if Lists(roots[..k + 1], root) {
      var i :| 0 <= i < k + 1 && roots[..k + 1][i].path == root;
      assert i < k ==> roots[..k][i].path == root;
    }
    assert roots[..k + 1][k] == roots[k];
  }
}
