/** What a second restack finds after a first one. */
module RestackAgain {
  import opened Forest
  import opened CommitGraph
  import opened RestackPlan
  import opened Replay
  import opened ReplayChain
  import opened RestackTheorem
  import opened Restack
  import opened RestackReread

  lemma OnlyMoversMove(movers: seq<Name>, moves: seq<Move>, n: Name)
    requires MovesAmong(movers, |movers|, moves) && n !in movers
    ensures !Moved(moves, n)
  {
  }

  lemma NotMoverStaysPut(state: State, chain: seq<Name>, done: Done, b: Name)
    requires Walkable(state, chain) && Distinct(chain) && ParentsFirst(state, chain) && b in chain
    requires done.movers == Movers(state, chain) && b !in done.movers
    requires forall n :: n in done.held <==> HeldBack(state, chain, n)
    requires b !in done.held
    ensures !state[b].needsRestack && ParentRef(state, b) !in done.movers
  {
    PlanIsTheUniqueSolution(state, chain, MoverSet(state, chain));
    assert b !in MoverSet(state, chain);
  }

  /** What the plan says of a chain branch that neither moved nor was held back. */
  lemma LeftAlone(rows: map<Name, Row>, read: map<Name, nat>, trunk: Name,
                  git: Git, graph: Graph, live: map<Name, nat>, chain: seq<Name>, done: Done, b: Name)
    requires RanOver(rows, read, trunk, git, graph, live, chain, done) && b in chain && b !in done.held
    requires b !in done.movers
    ensures b in done.setting.state && |done.setting.state[b].parents| > 0
    ensures !done.setting.state[b].needsRestack && ParentRef(done.setting.state, b) !in done.movers
    ensures !Moved(done.pass.moves, b) && !Moved(done.pass.moves, ParentRef(done.setting.state, b))
  {
    hide ReadState, HeldBack, Movers, Spent, Settled;
    var s := done.setting;
    HoldsKeepOrder(ReadState(rows, read, trunk), s.state, chain);
    NotMoverStaysPut(s.state, chain, done, b);
    OnlyMoversMove(done.movers, done.pass.moves, b);
    OnlyMoversMove(done.movers, done.pass.moves, ParentRef(s.state, b));
  }

  lemma UnmovedMoverIsSpent(rows: map<Name, Row>, read: map<Name, nat>, trunk: Name,
                            git: Git, graph: Graph, live: map<Name, nat>, chain: seq<Name>, done: Done, b: Name)
    requires RanOver(rows, read, trunk, git, graph, live, chain, done) && b in done.movers
    requires !Moved(done.pass.moves, b)
    ensures Sound(done.setting) && Walkable(done.setting.state, done.movers)
    ensures Spent(done.setting, done.movers, done.pass.moves, b)
  {
    hide ReadState, HeldBack, Movers, Settled;
    var j :| 0 <= j < |done.movers| && done.movers[j] == b;
  }

  /** The parent a branch is recorded on once the restack has written its rows. */
  ghost function ParentAfter(rows: map<Name, Row>, done: Done, b: Name): Name
    requires b in rows
  {
    RowsAfter(rows, done, true, true)[b].parent
  }

  /** A chain branch that reads back off its parent sits under one somebody else moved, or was held back, or
      was skipped because it is already in trunk. */
  lemma RereadChainBranch(rows: map<Name, Row>, read: map<Name, nat>, now: map<Name, Row>, at: map<Name, nat>,
                          trunk: Name, git: Git, graph: Graph, live: map<Name, nat>, chain: seq<Name>, done: Done,
                          b: Name)
    requires RanOver(rows, read, trunk, git, graph, live, chain, done) && b in chain
    requires b in now && b in rows && now[b] == rows[b]
    requires var after := Reread(now, at, trunk, done, true, true); b in after && after[b].needsRestack
    ensures Sound(done.setting) && Walkable(done.setting.state, done.movers)
    ensures !Steady(read, done.pass.moves, at, ParentAfter(now, done, b))
            || (!Moved(done.pass.moves, b)
                && (b in done.held || Spent(done.setting, done.movers, done.pass.moves, b)))
  {
    hide ReadState, RowsAfter, Applied, HeldBack, Movers, Spent, Settled, OnlyAddsHolds, Given;
    var moves := done.pass.moves;
    if Moved(moves, b) {
      var i :| 0 <= i < |moves| && moves[i].branch == b;
      MoveWasRead(rows, read, trunk, git, graph, live, chain, done, i);
      MovedRow(now, done, true, true, i);
      WrittenReadsBack(rows, read, now, at, trunk, git, graph, live, chain, done, true, i);
    } else {
      UnmovedRow(now, done, true, true, b);
      UnmovedReadsBack(rows, read, now, at, trunk, git, graph, live, chain, done, true, true, b);
      if b in done.movers {
        UnmovedMoverIsSpent(rows, read, trunk, git, graph, live, chain, done, b);
      } else if b !in done.held {
        LeftAlone(rows, read, trunk, git, graph, live, chain, done, b);
      }
    }
  }

  // ---------------------------------------------------------------------------
  // A second restack after one that moved every mover
  // ---------------------------------------------------------------------------

  /** A branch the next restack has no cause to move: it and its recorded parent have refs, and it is held, or
      on its parent. That is where the restack put it unless somebody else moved the parent; a branch held back
      from the restack has to be on its parent by itself. */
  ghost predicate Quiet(rows: map<Name, Row>, read: map<Name, nat>, now: map<Name, Row>, at: map<Name, nat>,
                        done: Done, again: State, b: Name)
    requires b in now && b in rows && forall m :: m in done.pass.moves ==> m.branch in done.setting.state
  {
    var moves, p := done.pass.moves, ParentAfter(now, done, b);
    && (Moved(moves, b) || b in at) && (Moved(moves, p) || p in at)
    && ((b in again && again[b].hold != "")
        || if b in done.held
           then p in RefsAfter(at, done) && now[b].parent == p && !OffParent(now[b], RefsAfter(at, done))
           else Steady(read, moves, at, p))
  }

  lemma RefsHold(done: Done, at: map<Name, nat>, n: Name)
    requires forall m :: m in done.pass.moves ==> m.branch in done.setting.state
    ensures n in RefsAfter(at, done) <==> Moved(done.pass.moves, n) || n in at
  {
    AppliedLookup(done.setting.state, done.setting.pin, at, done.pass.moves, n);
  }

  /** After a restack that skipped nothing, a chain branch reads back as one to leave alone, under whatever holds
      the next one adds, exactly when it is quiet. */
  lemma BranchIsQuiet(rows: map<Name, Row>, read: map<Name, nat>, now: map<Name, Row>, at: map<Name, nat>,
                      trunk: Name, git: Git, graph: Graph, live: map<Name, nat>, chain: seq<Name>, done: Done,
                      again: State, b: Name)
    requires RanOver(rows, read, trunk, git, graph, live, chain, done) && b in chain
    requires b in now && b in rows && now[b] == rows[b] && (b in done.movers ==> Moved(done.pass.moves, b))
    requires OnlyAddsHolds(Reread(now, at, trunk, done, true, true), again)
    ensures StaysPut(again, b) <==> Quiet(rows, read, now, at, done, again, b)
  {
    var moves := done.pass.moves;
    DistinctlyMoved(rows, read, trunk, git, graph, live, chain, done);
    if b in done.held {
      HeldIsNoMover(rows, read, trunk, git, graph, live, chain, done, b);
    }
    var after := Reread(now, at, trunk, done, true, true);
    HoldsAdded(after, again, b);
    hide ReadState, RowsAfter, Applied, HeldBack, Movers, Spent, Settled, OnlyAddsHolds, Given, RanOver, Reread,
         OffParent;
    RefsHold(done, at, b);
    RefsHold(done, at, ParentAfter(now, done, b));
    if Moved(moves, b) {
      var i :| 0 <= i < |moves| && moves[i].branch == b;
      MoveWasRead(rows, read, trunk, git, graph, live, chain, done, i);
      MovedRow(now, done, true, true, i);
      MovedReadsBack(rows, read, now, at, trunk, git, graph, live, chain, done, true, true, i);
      WrittenReadsBack(rows, read, now, at, trunk, git, graph, live, chain, done, true, i);
    } else {
      UnmovedRow(now, done, true, true, b);
      UnmovedReadsBack(rows, read, now, at, trunk, git, graph, live, chain, done, true, true, b);
      if b !in done.held {
        LeftAlone(rows, read, trunk, git, graph, live, chain, done, b);
      }
    }
  }

  lemma HoldsAdded(after: State, again: State, b: Name)
    requires OnlyAddsHolds(after, again)
    ensures b in again <==> b in after
    ensures b in after ==>
              && again[b].parents == after[b].parents && again[b].needsRestack == after[b].needsRestack
              && (after[b].hold != "" ==> again[b].hold != "")
  {
  }

  /** A branch held back did not move. */
  lemma HeldIsNoMover(rows: map<Name, Row>, read: map<Name, nat>, trunk: Name,
                      git: Git, graph: Graph, live: map<Name, nat>, chain: seq<Name>, done: Done, b: Name)
    requires RanOver(rows, read, trunk, git, graph, live, chain, done) && b in done.held
    ensures b in chain && b !in done.movers && !Moved(done.pass.moves, b)
  {
    hide ReadState, ParentsFirst, Distinct, Spent, Settled, OnlyAddsHolds;
    var state := done.setting.state;
    assert HeldBack(state, chain, b);
    HeldNeverMoves(state, chain, b);
    hide HeldBack, Movers;
    OnlyMoversMove(done.movers, done.pass.moves, b);
  }

  lemma {:induction false} HeldNeverMoves(state: State, chain: seq<Name>, b: Name)
    requires Walkable(state, chain) && b in chain && state[b].hold != ""
    ensures b !in Movers(state, chain)
    decreases |chain|
  {
    var n := |chain| - 1;
    if b in chain[..n] {
      HeldNeverMoves(state, chain[..n], b);
    } else {
      MoversAreInChain(state, chain[..n], b);
    }
  }

  lemma {:induction false} MoversAreInChain(state: State, chain: seq<Name>, b: Name)
    requires Walkable(state, chain) && b !in chain
    ensures b !in Movers(state, chain)
    decreases |chain|
  {
    if chain != [] {
      MoversAreInChain(state, chain[..|chain| - 1], b);
    }
  }

  /** Nothing moves exactly when every branch off its parent is held. */
  lemma {:induction false} NoMoversExactly(state: State, chain: seq<Name>)
    requires Walkable(state, chain)
    ensures Movers(state, chain) == []
            <==> forall b :: b in chain ==> state[b].hold != "" || !state[b].needsRestack
    decreases |chain|
  {
    if chain != [] {
      var n := |chain| - 1;
      NoMoversExactly(state, chain[..n]);
      assert chain == chain[..n] + [chain[n]];
    }
  }

  /** b is tracked under a parent, and held or on it. */
  predicate StaysPut(state: State, b: Name) {
    b in state && |state[b].parents| > 0 && (state[b].hold != "" || !state[b].needsRestack)
  }

  lemma NothingToMoveExactly(state: State, chain: seq<Name>)
    ensures (Walkable(state, chain) && Movers(state, chain) == []) <==> forall b :: b in chain ==> StaysPut(state, b)
  {
    if Walkable(state, chain) {
      NoMoversExactly(state, chain);
    }
  }

  /** After a restack that skipped nothing, a second one over the same chain, under whatever holds it adds, finds
      nothing to move exactly when every branch is quiet: held, or on a parent nobody else has moved or removed,
      and for one the first restack held back, on its parent by itself. */
  lemma RestackTwiceIsRestackOnce(rows: map<Name, Row>, read: map<Name, nat>, now: map<Name, Row>, at: map<Name, nat>,
                                  trunk: Name, git: Git, graph: Graph, live: map<Name, nat>, chain: seq<Name>,
                                  done: Done, again: State)
    requires RanOver(rows, read, trunk, git, graph, live, chain, done)
    requires forall b :: b in chain ==> b in now && b in rows && now[b] == rows[b]
    requires forall b :: b in done.movers ==> Moved(done.pass.moves, b)
    requires OnlyAddsHolds(Reread(now, at, trunk, done, true, true), again)
    ensures (Walkable(again, chain) && Movers(again, chain) == [])
            <==> forall b :: b in chain ==> Quiet(rows, read, now, at, done, again, b)
  {
    forall b | b in chain ensures StaysPut(again, b) <==> Quiet(rows, read, now, at, done, again, b) {
      BranchIsQuiet(rows, read, now, at, trunk, git, graph, live, chain, done, again, b);
      hide RanOver, Reread, Quiet, StaysPut;
    }
    hide RanOver, Reread, Quiet, StaysPut;
    NothingToMoveExactly(again, chain);
  }

  // ---------------------------------------------------------------------------
  // From the restack itself
  // ---------------------------------------------------------------------------

  /** A restack planned from rows and refs read earlier, run over the clone as it has become: every branch it
      moved stands where its row says exactly when its final parent is steady and nobody else rewrote its
      parent. */
  method RestackAndRecord(clone: Clone, world: World, git: Git, graph: Graph, rows: map<Name, Row>,
                          read: map<Name, nat>, trunk: Name, live: map<Name, nat>, chain: seq<Name>,
                          origin: string, elsewhere: bool)
    returns (out: Outcome)
    requires Given(git, graph, ReadState(rows, read, trunk), live, chain)
    modifies clone
    ensures !out.Restacked? ==> clone.refs == old(clone.refs) && clone.rows == old(clone.rows)
    ensures out.Restacked? ==> RanOver(rows, read, trunk, git, graph, live, chain, out.done)
    ensures out.Restacked? ==>
              && Unmoved(old(clone.refs), Updates(out.done.setting.state, out.done.pass.moves))
              && clone.refs == RefsAfter(old(clone.refs), out.done)
              && clone.rows == RowsAfter(old(clone.rows), out.done, out.reparented, out.recorded)
    ensures out.Restacked? && out.reparented && out.recorded ==>
              forall i :: 0 <= i < |out.done.pass.moves| && out.done.pass.moves[i].branch in old(clone.rows) ==>
                LandedAsRead(rows, read, old(clone.rows), old(clone.refs), clone.rows, clone.refs, out.done,
                             out.done.pass.moves[i])
  {
    ghost var now, at := clone.rows, clone.refs;
    out := RestackChain(clone, world, git, graph, ReadState(rows, read, trunk), live, chain, origin, elsewhere);
    hide Given, Finished, Applied, Recorded, Updates, Unmoved, ReadState;
    if out.Restacked? && out.reparented && out.recorded {
      forall i | 0 <= i < |out.done.pass.moves| && out.done.pass.moves[i].branch in now
        ensures LandedAsRead(rows, read, now, at, clone.rows, clone.refs, out.done, out.done.pass.moves[i])
      {
        MovedLandsWhereRecorded(rows, read, now, at, trunk, git, graph, live, chain, out.done, i);
      }
    }
  }

  /** m landed where it was recorded exactly when its final parent and recorded parent stood still. */
  ghost predicate LandedAsRead(rows: map<Name, Row>, read: map<Name, nat>, now: map<Name, Row>, at: map<Name, nat>,
                               after: map<Name, Row>, refs: map<Name, nat>, done: Done, m: Move) {
    && m.branch in done.setting.state && |done.setting.state[m.branch].parents| > 0
    && m.branch in rows && m.branch in now
    && (LandedWhereRecorded(after, refs, done, m)
        <==> (m.onto.Some? || now[m.branch].parent == rows[m.branch].parent)
             && Steady(read, done.pass.moves, at, FinalParent(done.setting.state, m)))
  }
}
