/** One restack from end to end: plan, hold, replay, publish the refs in one transaction, then
    rewrite the recorded parents and revisions. */
module Restack {
  import opened Wrappers
  import opened Forest
  import opened CommitGraph
  import opened RestackPlan
  import opened Replay
  import opened ReplayChain
  import opened RestackTheorem

  /** What gt records a branch's validation as; any other value keeps the branch out of the state. */
  datatype Validation = Valid | BadParentRevision | InvalidParent | OtherVerdict

  datatype Row = Row(parent: Name, revision: nat, validation: Validation, hold: string)

  /** readStateRows for one trunk: trunk itself, and every live branch gt resolved whose parent is live. */
  function ReadState(rows: map<Name, Row>, refs: map<Name, nat>, trunk: Name): State {
    map b | b in rows && b in refs && (b == trunk || (rows[b].validation != OtherVerdict && rows[b].parent in refs)) ::
      if b == trunk then Branch(true, false, refs[b], "", [])
      else Branch(false, OffParent(rows[b], refs), refs[b], rows[b].hold, [Parent(rows[b].parent, rows[b].revision)])
  }

  /** A stale verdict, or a recorded revision that is no longer the parent's head. */
  predicate OffParent(row: Row, refs: map<Name, nat>)
    requires row.parent in refs
  {
    row.validation == BadParentRevision || row.validation == InvalidParent || row.revision != refs[row.parent]
  }

  datatype Update = Update(branch: Name, head: nat, expected: nat)

  function Updates(state: State, moves: seq<Move>): (u: seq<Update>)
    requires forall m :: m in moves ==> m.branch in state
    ensures |u| == |moves|
    ensures forall i :: 0 <= i < |moves| ==> u[i] == Update(moves[i].branch, moves[i].head, state[moves[i].branch].head)
  {
    if moves == [] then []
    else Updates(state, moves[..|moves| - 1])
         + [Update(moves[|moves| - 1].branch, moves[|moves| - 1].head, state[moves[|moves| - 1].branch].head)]
  }

  /** Every update still finds the head it expects. */
  predicate Unmoved(refs: map<Name, nat>, updates: seq<Update>) {
    forall u :: u in updates ==> u.branch in refs && refs[u.branch] == u.expected
  }

  function Applied(refs: map<Name, nat>, updates: seq<Update>): map<Name, nat> {
    if updates == [] then refs
    else Applied(refs, updates[..|updates| - 1])[updates[|updates| - 1].branch := updates[|updates| - 1].head]
  }

  function Reparents(moves: seq<Move>): map<Name, Name> {
    if moves == [] then map[]
    else
      var m := moves[|moves| - 1];
      var rest := Reparents(moves[..|moves| - 1]);
      if m.onto.Some? then rest[m.branch := m.onto.value] else rest
  }

  function Revisions(moves: seq<Move>): map<Name, nat> {
    if moves == [] then map[]
    else Revisions(moves[..|moves| - 1])[moves[|moves| - 1].branch := moves[|moves| - 1].parent]
  }

  /** Rows after gtmeta.Reparent and gtmeta.RecordRestacked. */
  function Recorded(rows: map<Name, Row>, reparents: map<Name, Name>, revisions: map<Name, nat>): map<Name, Row> {
    map b | b in rows ::
      var row := if b in reparents then rows[b].(parent := reparents[b]) else rows[b];
      if b in revisions then row.(revision := revisions[b], validation := Valid) else row
  }

  /** b has a row, and either it names parent already or parent has a row to move under. */
  predicate CanMove(rows: map<Name, Row>, b: Name, parent: Name) {
    b in rows && (rows[b].parent == parent || parent in rows)
  }

  /** The rows with only the branches of todo still to move. */
  ghost predicate PartlyMoved(before: map<Name, Row>, now: map<Name, Row>, parents: map<Name, Name>, todo: set<Name>) {
    && now.Keys == before.Keys
    && forall b :: b in before ==>
         now[b] == if b in parents && b !in todo then before[b].(parent := parents[b]) else before[b]
  }

  lemma NothingMovedYet(before: map<Name, Row>, parents: map<Name, Name>)
    ensures PartlyMoved(before, before, parents, parents.Keys)
  {
  }

  lemma MovesOneMore(before: map<Name, Row>, now: map<Name, Row>, parents: map<Name, Name>, todo: set<Name>, b: Name)
    requires PartlyMoved(before, now, parents, todo) && b in todo && b in parents
    ensures CanMove(now, b, parents[b]) == CanMove(before, b, parents[b])
    ensures CanMove(now, b, parents[b]) ==>
              b in now && PartlyMoved(before, now[b := now[b].(parent := parents[b])], parents, todo - {b})
  {
  }

  lemma AllMoved(before: map<Name, Row>, now: map<Name, Row>, parents: map<Name, Name>)
    requires PartlyMoved(before, now, parents, {})
    ensures now == Recorded(before, parents, map[])
  {
  }

  /** The rows with only the branches of todo still to record. */
  ghost predicate PartlyRecorded(before: map<Name, Row>, now: map<Name, Row>, revisions: map<Name, nat>,
                                 todo: set<Name>) {
    && now.Keys == before.Keys
    && forall b :: b in before ==>
         now[b] == if b in revisions && b !in todo
                   then before[b].(revision := revisions[b], validation := Valid) else before[b]
  }

  lemma NothingRecordedYet(before: map<Name, Row>, revisions: map<Name, nat>)
    ensures PartlyRecorded(before, before, revisions, revisions.Keys)
  {
  }

  lemma RecordsOneMore(before: map<Name, Row>, now: map<Name, Row>, revisions: map<Name, nat>, todo: set<Name>,
                       b: Name)
    requires PartlyRecorded(before, now, revisions, todo) && b in todo && b in revisions
    ensures b in now <==> b in before
    ensures b in now ==>
              var row := now[b].(revision := revisions[b], validation := Valid);
              PartlyRecorded(before, now[b := row], revisions, todo - {b})
  {
  }

  lemma AllRecorded(before: map<Name, Row>, now: map<Name, Row>, revisions: map<Name, nat>)
    requires PartlyRecorded(before, now, revisions, {})
    ensures now == Recorded(before, map[], revisions)
  {
  }

  /** How one transaction on gt's store goes: whether it opens and commits, and each branch's statements. */
  datatype Store = Store(commits: bool, writes: Name -> bool)

  /** The clone's refs and gt's rows. */
  class Clone {
    var refs: map<Name, nat>
    var rows: map<Name, Row>

    constructor (refs: map<Name, nat>, rows: map<Name, Row>)
      ensures this.refs == refs && this.rows == rows
    {
      this.refs, this.rows := refs, rows;
    }

    /** git update-ref --stdin: prepare checks every expected head, commit then moves every ref. */
    method Transaction(updates: seq<Update>) returns (ok: bool)
      modifies this`refs
      ensures ok <==> Unmoved(old(refs), updates)
      ensures refs == if ok then Applied(old(refs), updates) else old(refs)
    {
      var i := 0;
      while i < |updates|
        invariant 0 <= i <= |updates| && refs == old(refs)
        invariant forall u :: u in updates[..i] ==> u.branch in refs && refs[u.branch] == u.expected
      {
        var u := updates[i];
        if u.branch !in refs || refs[u.branch] != u.expected {
          return false;
        }
        assert updates[..i + 1] == updates[..i] + [u];
        i := i + 1;
      }
      assert updates[..i] == updates;
      i := 0;
      while i < |updates|
        invariant 0 <= i <= |updates| && refs == Applied(old(refs), updates[..i])
      {
        assert updates[..i + 1][..i] == updates[..i];
        refs := refs[updates[i].branch := updates[i].head];
        i := i + 1;
      }
      assert updates[..i] == updates;
      return true;
    }

    /** gtmeta.Reparent: one transaction over the branches, rolled back at the first that fails. A branch
        fails when its statements do, when it has no row, or when the parent it moves to has none. */
    method Reparent(parents: map<Name, Name>, store: Store) returns (ok: bool)
      modifies this`rows
      ensures ok <==>
                parents == map[]
                || (store.commits
                    && forall b :: b in parents ==>
                         && store.writes(b) && b in old(rows)
                         && (old(rows[b].parent) == parents[b] || parents[b] in old(rows)))
      ensures rows == if ok then Recorded(old(rows), parents, map[]) else old(rows)
    {
      if parents == map[] {
        return true;
      }
      var before := rows;
      var todo := parents.Keys;
      hide CanMove, Recorded, PartlyMoved;
      NothingMovedYet(before, parents);
      while todo != {}
        invariant todo <= parents.Keys && PartlyMoved(before, rows, parents, todo)
        invariant forall b :: b in parents && b !in todo ==> store.writes(b) && CanMove(before, b, parents[b])
        decreases |todo|
      {
        var b :| b in todo;
        MovesOneMore(before, rows, parents, todo, b);
        if !store.writes(b) || !CanMove(rows, b, parents[b]) {
          rows := before;
          return false;
        }
        rows := rows[b := rows[b].(parent := parents[b])];
        todo := todo - {b};
      }
      AllMoved(before, rows, parents);
      ok := store.commits;
      if !ok {
        rows := before;
      }
    }

    /** gtmeta.RecordRestacked: one transaction over the branches, rolled back at the first without a row. */
    method RecordRestacked(revisions: map<Name, nat>, store: Store) returns (ok: bool)
      modifies this`rows
      ensures ok <==>
                revisions == map[]
                || (store.commits && forall b :: b in revisions ==> store.writes(b) && b in old(rows))
      ensures rows == if ok then Recorded(old(rows), map[], revisions) else old(rows)
    {
      if revisions == map[] {
        return true;
      }
      var before := rows;
      var todo := revisions.Keys;
      hide Recorded, PartlyRecorded;
      NothingRecordedYet(before, revisions);
      while todo != {}
        invariant todo <= revisions.Keys && PartlyRecorded(before, rows, revisions, todo)
        invariant forall b :: b in revisions && b !in todo ==> store.writes(b) && b in before
        decreases |todo|
      {
        var b :| b in todo;
        RecordsOneMore(before, rows, revisions, todo, b);
        if !store.writes(b) || b !in rows {
          rows := before;
          return false;
        }
        rows := rows[b := rows[b].(revision := revisions[b], validation := Valid)];
        todo := todo - {b};
      }
      AllRecorded(before, rows, revisions);
      ok := store.commits;
      if !ok {
        rows := before;
      }
    }
  }

  /** The answers a restack gets from everything but git's commit graph. */
  datatype World = World(
    holders: Option<map<Name, string>>,
    dirty: string -> Option<bool>,
    clean: seq<Name> -> bool,
    clobbers: seq<Move> -> bool,
    aligns: seq<Move> -> bool,
    reparents: Store,
    records: Store)

  datatype Outcome =
    | Nothing(held: map<Name, string>)
    | Refused
    | Restacked(done: Done, aligned: bool, reparented: bool, recorded: bool)

  /** A finished replay: the state it was planned over, its movers, what was held, and the pass. */
  datatype Done = Done(setting: Setting, movers: seq<Name>, held: map<Name, string>, pass: Pass)

  /** What gtRestackChain is handed: every chain branch tracked with a parent, parents first, and
      every head, recorded revision and ref naming a commit of the graph. No trunk has a parent. */
  ghost predicate Given(git: Git, graph: Graph, state: State, live: map<Name, nat>, chain: seq<Name>) {
    && WellFormed(graph) && Honest(git)
    && Walkable(state, chain) && Distinct(chain) && ParentsFirst(state, chain)
    && (forall b :: b in state ==> state[b].head < |graph| && (state[b].trunk ==> state[b].parents == []))
    && (forall b, i :: b in state && 0 <= i < |state[b].parents| ==> state[b].parents[i].sha < |graph|)
    && (forall b :: b in live ==> live[b] < |graph|)
  }

  lemma GivenSurvivesHolds(git: Git, graph: Graph, state: State, held: State, live: map<Name, nat>, chain: seq<Name>)
    requires Given(git, graph, state, live, chain) && OnlyAddsHolds(state, held)
    ensures Given(git, graph, held, live, chain)
  {
  }

  lemma GivenIsReady(git: Git, graph: Graph, state: State, live: map<Name, nat>, chain: seq<Name>, trunk: Name)
    requires Given(git, graph, state, live, chain) && trunk in state && state[trunk].trunk
    ensures Ready(Setting(git, graph, state, Pin(trunk, state[trunk].head), live), Movers(state, chain))
  {
    MoversKeepOrder(state, chain);
    assert trunk !in chain;
  }

  /** gtTrunkBranch: a branch marked trunk. */
  method TrunkBranch(state: State) returns (trunk: Option<Name>)
    ensures trunk.Some? ==> trunk.value in state && state[trunk.value].trunk
    ensures trunk.None? ==> forall b :: b in state ==> !state[b].trunk
  {
    var todo := state.Keys;
    while todo != {}
      invariant todo <= state.Keys
      invariant forall b :: b in state && b !in todo ==> !state[b].trunk
      decreases |todo|
    {
      var b :| b in todo;
      if state[b].trunk {
        return Some(b);
      }
      todo := todo - {b};
    }
    return None;
  }

  /** b has commits of its own, or no working copy, or one with nothing uncommitted. */
  predicate CleanWhenEmpty(world: World, state: State, b: Name)
    requires b in state && |state[b].parents| > 0 && world.holders.Some?
  {
    var holders := world.holders.value;
    EmptyUnderHolder(state, holders, b) ==> world.dirty(holders[b]) == Some(false)
  }

  lemma NothingHeld(state: State)
    ensures OnlyAddsHolds(state, state)
  {
  }

  /** The state once the branches other working copies have are held, when they are to be. */
  ghost function FirstHolds(state: State, world: World, chain: seq<Name>, origin: string, elsewhere: bool): State {
    if elsewhere || world.holders.None? then state else ElsewhereHeld(state, chain, world.holders.value, origin)
  }

  /** Planning fails: there is something to move and no telling who has what checked out, or an empty mover's
      working copy cannot be read. */
  ghost predicate PlanningFails(state: State, world: World, chain: seq<Name>, origin: string, elsewhere: bool)
    requires Walkable(state, chain)
  {
    var first := FirstHolds(state, world, chain, origin, elsewhere);
    && Movers(state, chain) != []
    && (world.holders.None?
        || exists b :: b in first && |first[b].parents| > 0 && Walkable(first, chain) && b in Movers(first, chain)
             && EmptyUnderHolder(first, world.holders.value, b) && world.dirty(world.holders.value[b]).None?)
  }

  /** The state a plan that does not fail ends with. */
  ghost predicate PlannedState(state: State, world: World, chain: seq<Name>, origin: string, elsewhere: bool,
                               after: State)
    requires Walkable(state, chain)
  {
    var first := FirstHolds(state, world, chain, origin, elsewhere);
    if Movers(state, chain) == [] then after == state
    else
      && world.holders.Some? && Walkable(first, chain)
      && (forall b :: b in Movers(first, chain) ==> b in first && |first[b].parents| > 0)
      && after == WorkHeld(first, Movers(first, chain), world.holders.value, world.dirty)
  }

  /** The planning half: plan, hold what other working copies own, and plan again. None when some
      read fails; no movers when everything left is where it belongs or held. */
  method PlanWithHolds(state: State, world: World, chain: seq<Name>, origin: string, elsewhere: bool)
    returns (planned: Option<(State, seq<Name>, map<Name, string>)>)
    requires Walkable(state, chain) && Distinct(chain) && ParentsFirst(state, chain)
    ensures planned.None? <==> PlanningFails(state, world, chain, origin, elsewhere)
    ensures planned.Some? ==> PlannedState(state, world, chain, origin, elsewhere, planned.value.0)
    ensures planned.Some? ==>
              var (after, movers, held) := planned.value;
              && OnlyAddsHolds(state, after) && Walkable(after, chain) && movers == Movers(after, chain)
              && (forall b :: b in held <==> HeldBack(after, chain, b))
              && (forall b :: b in movers ==> b in Movers(state, chain))
              && (movers != [] ==> world.holders.Some?)
              && (movers != [] && !elsewhere ==>
                    forall b :: b in movers ==> !Elsewhere(chain, world.holders.value, origin, b))
              && (movers != [] ==> forall b :: b in movers ==> CleanWhenEmpty(world, state, b))
  {
    hide CleanWhenEmpty, OnlyAddsHolds, ParentsFirst, Distinct, Elsewhere, Movers, HeldBack, ElsewhereHeld, WorkHeld,
         EmptyUnderHolder;
    NothingHeld(state);
    var after := state;
    var movers, held := Plan(after, chain);
    if |movers| == 0 {
      return Some((after, movers, held));
    }
    if world.holders.None? {
      return None;
    }
    var holders := world.holders.value;
    if !elsewhere {
      after := HoldElsewhere(state, chain, holders, origin);
      HeldOnlyElsewhere(state, chain, holders, origin, after);
      HoldsKeepOrder(state, after, chain);
      HoldsShrinkThePlan(state, after, chain);
      movers, held := Plan(after, chain);
      if |movers| == 0 {
        NoWork(after, holders, world.dirty);
        return Some((after, movers, held));
      }
    }
    var worked := HoldWork(after, world, chain, movers);
    if worked.None? {
      return None;
    }
    HoldsAddUp(state, after, worked.value);
    HoldsKeepOrder(after, worked.value, chain);
    HoldsShrinkThePlan(after, worked.value, chain);
    movers, held := Plan(worked.value, chain);
    forall b | b in movers ensures CleanWhenEmpty(world, state, b) {
      assert CleanWhenEmpty(world, after, b);
      SameEmptiness(world, state, after, b);
    }
    return Some((worked.value, movers, held));
  }

  lemma NoWork(state: State, holders: map<Name, string>, dirty: string -> Option<bool>)
    ensures WorkHeld(state, [], holders, dirty) == state
  {
  }

  lemma HoldsAddUp(state: State, after: State, last: State)
    requires OnlyAddsHolds(state, after) && OnlyAddsHolds(after, last)
    ensures OnlyAddsHolds(state, last)
  {
  }

  lemma SameEmptiness(world: World, state: State, after: State, b: Name)
    requires OnlyAddsHolds(state, after) && world.holders.Some? && b in after && |after[b].parents| > 0
    requires CleanWhenEmpty(world, after, b)
    ensures b in state && |state[b].parents| > 0 && CleanWhenEmpty(world, state, b)
  {
  }

  /** The round of holds that keeps empty movers over uncommitted work where they are. */
  method HoldWork(state: State, world: World, chain: seq<Name>, movers: seq<Name>) returns (held: Option<State>)
    requires Walkable(state, chain) && Distinct(chain) && ParentsFirst(state, chain)
    requires movers == Movers(state, chain) && world.holders.Some?
    ensures held.None? <==>
              exists b :: b in movers && EmptyUnderHolder(state, world.holders.value, b)
                          && world.dirty(world.holders.value[b]).None?
    ensures held.Some? ==> held.value == WorkHeld(state, movers, world.holders.value, world.dirty)
    ensures held.Some? ==>
              && OnlyAddsHolds(state, held.value) && Walkable(held.value, chain)
              && forall b :: b in Movers(held.value, chain) ==> b in movers && CleanWhenEmpty(world, state, b)
  {
    MoversKeepOrder(state, chain);
    hide WorkHold, ParentsFirst, Distinct;
    held := HoldEmptyUnderWork(state, movers, world.holders.value, world.dirty);
    if held.Some? {
      HeldOnlyWork(state, movers, world.holders.value, world.dirty, held.value);
      HoldsShrinkThePlan(state, held.value, chain);
      forall b | b in Movers(held.value, chain) ensures b in movers && CleanWhenEmpty(world, state, b) {
        assert b in state && held.value[b].hold == "";
        if EmptyUnderHolder(state, world.holders.value, b) {
          match world.dirty(world.holders.value[b]) {
            case Some(work) =>
              if work {
                assert false;
              }
          }
        }
      }
    }
  }

  lemma HoldsKeepOrder(state: State, held: State, chain: seq<Name>)
    requires Walkable(state, chain) && Distinct(chain) && ParentsFirst(state, chain) && OnlyAddsHolds(state, held)
    ensures Walkable(held, chain) && ParentsFirst(held, chain)
  {
  }

  /** done is a replay of chain, settled, over a plan that only added holds to state. */
  ghost predicate Finished(git: Git, graph: Graph, state: State, live: map<Name, nat>, chain: seq<Name>, done: Done) {
    var planned, pin := done.setting.state, done.setting.pin;
    && done.setting == Setting(git, graph, planned, pin, live)
    && OnlyAddsHolds(state, planned) && Walkable(planned, chain) && done.movers == Movers(planned, chain)
    && pin.name in planned && planned[pin.name].trunk && pin.sha == planned[pin.name].head
    && (forall b :: b in done.held <==> HeldBack(planned, chain, b))
    && AllSettled(done.setting, done.movers, |done.movers|, done.pass)
  }

  /** The replay of the movers fails, would clobber work, or one of the refs it moves has moved meanwhile. */
  ghost predicate ReplayStops(world: World, s: Setting, movers: seq<Name>, refs: map<Name, nat>) {
    && Sound(s) && Walkable(s.state, movers)
    && ((exists e :: PassFails(s, movers, e))
        || exists pass :: PassEnds(s, movers, |movers|, pass)
             && (|| world.clobbers(pass.moves)
                 || ((forall m :: m in pass.moves ==> m.branch in s.state)
                     && !Unmoved(refs, Updates(s.state, pass.moves)))))
  }

  /** With something to move, the restack stops before it publishes: there is no trunk, a mover's working copy
      is not clean, or the replay onto trunk's head stops. */
  ghost predicate StopsShort(world: World, git: Git, graph: Graph, planned: State, live: map<Name, nat>,
                             movers: seq<Name>, refs: map<Name, nat>) {
    movers != []
    && (|| (forall b :: b in planned ==> !planned[b].trunk)
        || !world.clean(movers)
        || exists trunk :: trunk in planned && planned[trunk].trunk
             && ReplayStops(world, Setting(git, graph, planned, Pin(trunk, planned[trunk].head), live), movers, refs))
  }

  /** Why a restack is refused. */
  ghost predicate RefusedOver(world: World, git: Git, graph: Graph, state: State, live: map<Name, nat>,
                              chain: seq<Name>, origin: string, elsewhere: bool, refs: map<Name, nat>)
    requires Walkable(state, chain)
  {
    || PlanningFails(state, world, chain, origin, elsewhere)
    || exists planned :: PlannedState(state, world, chain, origin, elsewhere, planned)
         && StopsShort(world, git, graph, planned, live, Movers(planned, chain), refs)
  }

  /** Nothing is left to move once the holds are in. */
  ghost predicate NothingLeft(state: State, world: World, chain: seq<Name>, origin: string, elsewhere: bool,
                              held: map<Name, string>)
    requires Walkable(state, chain)
  {
    && !PlanningFails(state, world, chain, origin, elsewhere)
    && exists planned :: PlannedState(state, world, chain, origin, elsewhere, planned)
         && Movers(planned, chain) == [] && forall b :: b in held <==> HeldBack(planned, chain, b)
  }

  /** The pass is the whole replay of the movers. */
  ghost predicate Replayed(done: Done) {
    && Sound(done.setting) && Walkable(done.setting.state, done.movers)
    && PassEnds(done.setting, done.movers, |done.movers|, done.pass)
  }

  /** gtRestackChain. live is where the refs stand while the replay runs, and clone.refs where they
      stand once it is done: whoever else works in the clone may have moved them in between. */
  method RestackChain(clone: Clone, world: World, git: Git, graph: Graph, state: State, live: map<Name, nat>,
                      chain: seq<Name>, origin: string, elsewhere: bool)
    returns (out: Outcome)
    requires Given(git, graph, state, live, chain)
    modifies clone
    ensures !out.Restacked? ==> clone.refs == old(clone.refs) && clone.rows == old(clone.rows)
    ensures out.Refused? ==> RefusedOver(world, git, graph, state, live, chain, origin, elsewhere, old(clone.refs))
    ensures out.Nothing? ==> NothingLeft(state, world, chain, origin, elsewhere, out.held)
    ensures out.Restacked? ==>
              && !PlanningFails(state, world, chain, origin, elsewhere)
              && PlannedState(state, world, chain, origin, elsewhere, out.done.setting.state)
              && out.done.movers != [] && world.clean(out.done.movers) && !world.clobbers(out.done.pass.moves)
              && Replayed(out.done)
    ensures out.Restacked? ==>
              && Finished(git, graph, state, live, chain, out.done)
              && (forall m :: m in out.done.pass.moves ==> m.branch in out.done.setting.state)
              && Unmoved(old(clone.refs), Updates(out.done.setting.state, out.done.pass.moves))
              && clone.refs == Applied(old(clone.refs), Updates(out.done.setting.state, out.done.pass.moves))
    ensures out.Restacked? ==>
              var moves := out.done.pass.moves;
              var was := old(clone.rows);
              var moved := if out.reparented then Recorded(was, Reparents(moves), map[]) else was;
              clone.rows == if out.recorded then Recorded(moved, map[], Revisions(moves)) else moved
    ensures out.Restacked? && !elsewhere ==>
              world.holders.Some?
              && forall b :: b in out.done.movers ==> !Elsewhere(chain, world.holders.value, origin, b)
    ensures out.Restacked? ==>
              world.holders.Some?
              && forall b :: b in out.done.movers ==>
                   b in state && |state[b].parents| > 0 && CleanWhenEmpty(world, state, b)
  {
    hide AllSettled, Movers, ParentsFirst, Applied, Unmoved, Updates, Recorded, HeldBack, CleanWhenEmpty, Elsewhere,
         PlanningFails, PlannedState, StopsShort, OnlyAddsHolds, Replayed, DoneSettles, Distinct, Reparents, Revisions;
    var planning := PlanWithHolds(state, world, chain, origin, elsewhere);
    if planning.None? {
      return Refused;
    }
    var (planned, movers, held) := planning.value;
    if |movers| == 0 {
      return Nothing(held);
    }
    GivenSurvivesHolds(git, graph, state, planned, live, chain);
    var replayed := ReplayPlanned(world, git, graph, planned, live, chain, movers, held);
    if replayed.None? {
      assert StopsShort(world, git, graph, planned, live, movers, clone.refs);
      return Refused;
    }
    var done := replayed.value;
    FinishedFrom(git, graph, state, live, chain, done);
    var ok := clone.Transaction(Updates(planned, done.pass.moves));
    if !ok {
      NotPublished(world, git, graph, planned, live, movers, clone.refs, done);
      return Refused;
    }
    var reparented := clone.Reparent(Reparents(done.pass.moves), world.reparents);
    var recorded := clone.RecordRestacked(Revisions(done.pass.moves), world.records);
    return Restacked(done, world.aligns(done.pass.moves), reparented, recorded);
  }

  /** Trunk's head pinned, the movers' working copies clean, and every mover replayed with nothing clobbered. */
  method ReplayPlanned(world: World, git: Git, graph: Graph, planned: State, live: map<Name, nat>, chain: seq<Name>,
                       movers: seq<Name>, held: map<Name, string>)
    returns (r: Option<Done>)
    requires Given(git, graph, planned, live, chain) && movers == Movers(planned, chain) && movers != []
    ensures r.None? ==> forall refs :: StopsShort(world, git, graph, planned, live, movers, refs)
    ensures r.Some? ==>
              && DoneSettles(git, graph, planned, live, movers, held, r.value)
              && r.value.setting.state == planned && r.value.movers == movers && r.value.held == held
    ensures r.Some? ==> Replayed(r.value) && world.clean(movers) && !world.clobbers(r.value.pass.moves)
  {
    hide ReplayUpTo, AllSettled, Movers, ParentsFirst, Unmoved, Updates, PassEnds, PassFails;
    var trunk := TrunkBranch(planned);
    if trunk.None? || !world.clean(movers) {
      return None;
    }
    var setting := Setting(git, graph, planned, Pin(trunk.value, planned[trunk.value].head), live);
    GivenIsReady(git, graph, planned, live, chain, trunk.value);
    var pass := Run(setting, movers);
    if pass.Failure? || world.clobbers(pass.value.moves) {
      assert forall refs :: ReplayStops(world, setting, movers, refs);
      return None;
    }
    PassSettles(setting, movers, |movers|, pass.value);
    MovesAreTracked(setting, movers, pass.value);
    return Some(Done(setting, movers, held, pass.value));
  }

  /** done replayed the movers of the planned state onto its trunk. */
  ghost predicate DoneSettles(git: Git, graph: Graph, planned: State, live: map<Name, nat>, movers: seq<Name>,
                              held: map<Name, string>, done: Done) {
    var pin := done.setting.pin;
    && done.setting == Setting(git, graph, planned, pin, live) && done.movers == movers && done.held == held
    && pin.name in planned && planned[pin.name].trunk && pin.sha == planned[pin.name].head
    && AllSettled(done.setting, movers, |movers|, done.pass)
    && forall m :: m in done.pass.moves ==> m.branch in planned
  }

  lemma FinishedFrom(git: Git, graph: Graph, state: State, live: map<Name, nat>, chain: seq<Name>, done: Done)
    requires var planned := done.setting.state;
             && OnlyAddsHolds(state, planned) && Walkable(planned, chain)
             && DoneSettles(git, graph, planned, live, Movers(planned, chain), done.held, done)
             && forall b :: b in done.held <==> HeldBack(planned, chain, b)
    ensures Finished(git, graph, state, live, chain, done)
    ensures forall m :: m in done.pass.moves ==> m.branch in done.setting.state
  {
    hide AllSettled, OnlyAddsHolds, HeldBack, Movers;
  }

  /** A replay whose refs moved meanwhile stops the restack. */
  lemma NotPublished(world: World, git: Git, graph: Graph, planned: State, live: map<Name, nat>, movers: seq<Name>,
                     refs: map<Name, nat>, done: Done)
    requires DoneSettles(git, graph, planned, live, movers, done.held, done) && Replayed(done) && movers != []
    requires !Unmoved(refs, Updates(planned, done.pass.moves))
    ensures StopsShort(world, git, graph, planned, live, movers, refs)
  {
    hide AllSettled, ReplayUpTo, Updates, Unmoved, PassEnds, PassFails;
    assert ReplayStops(world, done.setting, movers, refs);
  }

  lemma MovesAreTracked(s: Setting, movers: seq<Name>, pass: Pass)
    requires AllSettled(s, movers, |movers|, pass)
    ensures forall m :: m in pass.moves ==> m.branch in s.state
  {
  }
}
