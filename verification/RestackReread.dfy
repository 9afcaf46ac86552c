/** The stack as it reads back after a restack: what still needs one, and why. */
module RestackReread {
  import opened Forest
  import opened CommitGraph
  import opened RestackPlan
  import opened Replay
  import opened ReplayChain
  import opened RestackTheorem
  import opened Restack

  ghost predicate DistinctBranches(moves: seq<Move>) {
    forall i, j :: 0 <= i < j < |moves| ==> moves[i].branch != moves[j].branch
  }

  /** Published refs: each moved branch at its new head, everything else where it was. */
  lemma {:induction false} AppliedLookup(state: State, pin: Pin, refs: map<Name, nat>, moves: seq<Move>, n: Name)
    requires forall m :: m in moves ==> m.branch in state
    ensures n in Applied(refs, Updates(state, moves)) <==> n in refs || Moved(moves, n)
    ensures Moved(moves, n) ==>
              n in MovedHeads(pin, moves) && Applied(refs, Updates(state, moves))[n] == MovedHeads(pin, moves)[n]
    ensures !Moved(moves, n) && n in refs ==> Applied(refs, Updates(state, moves))[n] == refs[n]
    decreases |moves|
  {
    if moves != [] {
      var k := |moves| - 1;
      var front := moves[..k];
      MovedLast(moves, n);
      AppliedLookup(state, pin, refs, front, n);
      assert Updates(state, moves) == Updates(state, front)
             + [Update(moves[k].branch, moves[k].head, state[moves[k].branch].head)];
      assert Updates(state, moves)[..k] == Updates(state, front);
    }
  }

  lemma {:induction false} RecordsLookup(moves: seq<Move>, n: Name)
    ensures n in Revisions(moves) <==> Moved(moves, n)
    ensures !Moved(moves, n) ==> n !in Reparents(moves)
    decreases |moves|
  {
    if moves != [] {
      MovedLast(moves, n);
      RecordsLookup(moves[..|moves| - 1], n);
    }
  }

  lemma {:induction false} RecordsAt(moves: seq<Move>, i: nat)
    requires DistinctBranches(moves) && i < |moves|
    ensures moves[i].branch in Revisions(moves) && Revisions(moves)[moves[i].branch] == moves[i].parent
    ensures moves[i].branch in Reparents(moves) <==> moves[i].onto.Some?
    ensures moves[i].onto.Some? ==> Reparents(moves)[moves[i].branch] == moves[i].onto.value
    decreases |moves|
  {
    var k := |moves| - 1;
    var front := moves[..k];
    if i < k {
      RecordsAt(front, i);
    } else {
      assert forall j :: 0 <= j < k ==> front[j].branch != moves[k].branch;
      RecordsLookup(front, moves[k].branch);
    }
  }

  /** A restack whose plan was read from rows and refs. Whoever else works in the clone may change either
      afterwards; the transaction then runs over the refs as they stand. */
  ghost predicate RanOver(rows: map<Name, Row>, read: map<Name, nat>, trunk: Name,
                          git: Git, graph: Graph, live: map<Name, nat>, chain: seq<Name>, done: Done) {
    && Given(git, graph, ReadState(rows, read, trunk), live, chain)
    && Finished(git, graph, ReadState(rows, read, trunk), live, chain, done)
    && forall m :: m in done.pass.moves ==> m.branch in done.setting.state
  }

  /** The rows a restack leaves of those it finds, by which of its two row transactions went through. */
  ghost function RowsAfter(now: map<Name, Row>, done: Done, reparented: bool, recorded: bool): map<Name, Row> {
    var moved := if reparented then Recorded(now, Reparents(done.pass.moves), map[]) else now;
    if recorded then Recorded(moved, map[], Revisions(done.pass.moves)) else moved
  }

  /** The refs it leaves of those it finds. */
  ghost function RefsAfter(at: map<Name, nat>, done: Done): map<Name, nat>
    requires forall m :: m in done.pass.moves ==> m.branch in done.setting.state
  {
    Applied(at, Updates(done.setting.state, done.pass.moves))
  }

  /** The restack moved p, or p still stands where the plan read it. */
  ghost predicate Steady(read: map<Name, nat>, moves: seq<Move>, at: map<Name, nat>, p: Name) {
    Moved(moves, p) || (p in at && p in read && at[p] == read[p])
  }

  /** A branch's row, by which transactions went through. */
  lemma MovedRow(now: map<Name, Row>, done: Done, reparented: bool, recorded: bool, i: nat)
    requires DistinctBranches(done.pass.moves) && i < |done.pass.moves| && done.pass.moves[i].branch in now
    ensures var m := done.pass.moves[i];
            var row, after := now[m.branch], RowsAfter(now, done, reparented, recorded);
            && m.branch in after
            && after[m.branch].parent == (if reparented && m.onto.Some? then m.onto.value else row.parent)
            && after[m.branch].revision == (if recorded then m.parent else row.revision)
            && after[m.branch].validation == (if recorded then Valid else row.validation)
            && after[m.branch].hold == row.hold
  {
    RecordsAt(done.pass.moves, i);
  }

  lemma UnmovedRow(now: map<Name, Row>, done: Done, reparented: bool, recorded: bool, b: Name)
    requires b in now && !Moved(done.pass.moves, b)
    ensures b in RowsAfter(now, done, reparented, recorded) && RowsAfter(now, done, reparented, recorded)[b] == now[b]
  {
    RecordsLookup(done.pass.moves, b);
  }

  lemma ReadsBack(rows: map<Name, Row>, refs: map<Name, nat>, trunk: Name, b: Name)
    requires b in rows && b in refs && b != trunk && rows[b].validation != OtherVerdict
    ensures b in ReadState(rows, refs, trunk) <==> rows[b].parent in refs
    ensures rows[b].parent in refs ==>
              ReadState(rows, refs, trunk)[b]
              == Branch(false, OffParent(rows[b], refs), refs[b], rows[b].hold,
                        [Parent(rows[b].parent, rows[b].revision)])
  {
  }

  lemma OffParentMeans(row: Row, refs: map<Name, nat>)
    requires row.parent in refs && row.validation != OtherVerdict
    ensures OffParent(row, refs) <==> row.validation != Valid || row.revision != refs[row.parent]
  {
  }

  lemma StateMatchesRefs(rows: map<Name, Row>, refs: map<Name, nat>, trunk: Name, planned: State, b: Name)
    requires OnlyAddsHolds(ReadState(rows, refs, trunk), planned) && b in planned
    ensures b in rows && b in refs && planned[b].head == refs[b]
    ensures |planned[b].parents| > 0 ==>
              b != trunk && planned[b].parents == [Parent(rows[b].parent, rows[b].revision)] && rows[b].parent in refs
              && rows[b].validation != OtherVerdict && planned[b].needsRestack == OffParent(rows[b], refs)
              && (rows[b].hold != "" ==> planned[b].hold != "")
    ensures planned[b].trunk ==> b == trunk
  {
  }

  lemma DistinctlyMoved(rows: map<Name, Row>, read: map<Name, nat>, trunk: Name,
                        git: Git, graph: Graph, live: map<Name, nat>, chain: seq<Name>, done: Done)
    requires RanOver(rows, read, trunk, git, graph, live, chain, done)
    ensures DistinctBranches(done.pass.moves)
    ensures forall m :: m in done.pass.moves ==> m.branch in done.setting.state
  {
  }

  // ---------------------------------------------------------------------------
  // Where a moved branch landed
  // ---------------------------------------------------------------------------

  /** What a move's branch and final parent were when the plan was read. */
  lemma MoveWasRead(rows: map<Name, Row>, read: map<Name, nat>, trunk: Name,
                    git: Git, graph: Graph, live: map<Name, nat>, chain: seq<Name>, done: Done, i: nat)
    requires RanOver(rows, read, trunk, git, graph, live, chain, done) && i < |done.pass.moves|
    ensures var m, state := done.pass.moves[i], done.setting.state;
            && m.branch in state && |state[m.branch].parents| > 0 && m.branch in rows && m.branch != trunk
            && rows[m.branch].parent == ParentRef(state, m.branch) && rows[m.branch].validation != OtherVerdict
            && FinalParent(state, m) in state && FinalParent(state, m) in read
            && state[FinalParent(state, m)].head == read[FinalParent(state, m)]
  {
    hide ReadState, HeldBack, Movers, Spent;
    var s, moves := done.setting, done.pass.moves;
    var m := moves[i];
    assert Settled(s, done.pass, m);
    var from, at :| ReplaysOwnWork(s, m, from, at);
    hide Settled, ReplaysOwnWork;
    StateMatchesRefs(rows, read, trunk, s.state, m.branch);
    StateMatchesRefs(rows, read, trunk, s.state, FinalParent(s.state, m));
  }

  /** The recorded base is the final parent's published head exactly when the restack moved that parent or
      nobody else has since the plan was read: the transaction checks only the branches it moves. */
  lemma FinalParentWherePublished(rows: map<Name, Row>, read: map<Name, nat>, at: map<Name, nat>, trunk: Name,
                                  git: Git, graph: Graph, live: map<Name, nat>, chain: seq<Name>, done: Done, i: nat)
    requires RanOver(rows, read, trunk, git, graph, live, chain, done) && i < |done.pass.moves|
    ensures var m, state := done.pass.moves[i], done.setting.state;
            && m.branch in state && |state[m.branch].parents| > 0
            && var p := FinalParent(state, m);
               (p in RefsAfter(at, done) && RefsAfter(at, done)[p] == m.parent <==>
                  Steady(read, done.pass.moves, at, p))
  {
    hide ReadState, HeldBack, Movers, ReplaysOwnWork, Spent, Given;
    MoveWasRead(rows, read, trunk, git, graph, live, chain, done, i);
    var s, moves := done.setting, done.pass.moves;
    var m := moves[i];
    assert Settled(s, done.pass, m);
    var p := FinalParent(s.state, m);
    AppliedLookup(s.state, s.pin, at, moves, p);
    MovedHeadsKeys(s.pin, moves);
    TrunkNeverMoves(s, done.movers, |done.movers|, moves);
  }

  /** A moved branch is recorded on its final parent, at that parent's published head, and stands
      on a descendant of it. */
  ghost predicate LandedWhereRecorded(rows: map<Name, Row>, refs: map<Name, nat>, done: Done, m: Move) {
    && m.branch in rows && rows[m.branch].validation == Valid
    && m.branch in done.setting.state && |done.setting.state[m.branch].parents| > 0
    && rows[m.branch].parent == FinalParent(done.setting.state, m)
    && rows[m.branch].parent in refs && refs[rows[m.branch].parent] == rows[m.branch].revision
    && m.branch in refs && WellFormed(done.pass.graph)
    && rows[m.branch].revision < |done.pass.graph| && refs[m.branch] < |done.pass.graph|
    && Reaches(done.pass.graph, rows[m.branch].revision, refs[m.branch])
  }

  /** A moved branch's published head descends from the base recorded for it. */
  lemma PublishedOnItsBase(rows: map<Name, Row>, read: map<Name, nat>, at: map<Name, nat>, trunk: Name,
                           git: Git, graph: Graph, live: map<Name, nat>, chain: seq<Name>, done: Done, i: nat)
    requires RanOver(rows, read, trunk, git, graph, live, chain, done) && i < |done.pass.moves|
    ensures var m, refs := done.pass.moves[i], RefsAfter(at, done);
            && m.branch in refs && refs[m.branch] == m.head && WellFormed(done.pass.graph)
            && m.parent < |done.pass.graph| && m.head < |done.pass.graph| && Reaches(done.pass.graph, m.parent, m.head)
  {
    hide ReadState, HeldBack, Movers, ReplaysOwnWork, Spent, Given;
    var s, moves := done.setting, done.pass.moves;
    var m := moves[i];
    assert Settled(s, done.pass, m);
    MovedHeadsAt(s.pin, moves, i);
    assert Moved(moves, m.branch);
    AppliedLookup(s.state, s.pin, at, moves, m.branch);
  }

  /** When both row transactions went through, refs, parent and revision agree on a moved branch exactly when
      its final parent is steady and, unless the restack rewrote its parent, nobody else did. */
  lemma MovedLandsWhereRecorded(rows: map<Name, Row>, read: map<Name, nat>, now: map<Name, Row>, at: map<Name, nat>,
                                trunk: Name, git: Git, graph: Graph, live: map<Name, nat>, chain: seq<Name>,
                                done: Done, i: nat)
    requires RanOver(rows, read, trunk, git, graph, live, chain, done) && i < |done.pass.moves|
    requires done.pass.moves[i].branch in now
    ensures var m, state := done.pass.moves[i], done.setting.state;
            && m.branch in state && |state[m.branch].parents| > 0 && m.branch in rows
            && (LandedWhereRecorded(RowsAfter(now, done, true, true), RefsAfter(at, done), done, m)
                <==> (m.onto.Some? || now[m.branch].parent == rows[m.branch].parent)
                     && Steady(read, done.pass.moves, at, FinalParent(state, m)))
  {
    MoveWasRead(rows, read, trunk, git, graph, live, chain, done, i);
    FinalParentWherePublished(rows, read, at, trunk, git, graph, live, chain, done, i);
    PublishedOnItsBase(rows, read, at, trunk, git, graph, live, chain, done, i);
    MovedRow(now, done, true, true, i);
    hide RanOver, RowsAfter, Applied, Updates, Steady, Reaches;
  }

  // ---------------------------------------------------------------------------
  // Reading back
  // ---------------------------------------------------------------------------

  /** How branch b reads back. */
  ghost function Reread(now: map<Name, Row>, at: map<Name, nat>, trunk: Name, done: Done,
                        reparented: bool, recorded: bool): State
    requires forall m :: m in done.pass.moves ==> m.branch in done.setting.state
  {
    ReadState(RowsAfter(now, done, reparented, recorded), RefsAfter(at, done), trunk)
  }

  /** Whichever row transactions failed, a moved branch that reads back as sitting on its parent does descend
      from the revision recorded for it, so long as the revision is the new one or its parent is steady. */
  lemma SettledReadingIsTrue(rows: map<Name, Row>, read: map<Name, nat>, now: map<Name, Row>, at: map<Name, nat>,
                             trunk: Name, git: Git, graph: Graph, live: map<Name, nat>, chain: seq<Name>, done: Done,
                             reparented: bool, recorded: bool, i: nat)
    requires RanOver(rows, read, trunk, git, graph, live, chain, done) && i < |done.pass.moves|
    requires var b := done.pass.moves[i].branch; b in now && b in rows && now[b] == rows[b]
    requires var b, after := done.pass.moves[i].branch, Reread(now, at, trunk, done, reparented, recorded);
             b in after && !after[b].needsRestack
    requires recorded
             || Steady(read, done.pass.moves, at,
                       RowsAfter(now, done, reparented, recorded)[done.pass.moves[i].branch].parent)
    ensures var b, after := done.pass.moves[i].branch, Reread(now, at, trunk, done, reparented, recorded);
            && |after[b].parents| == 1 && WellFormed(done.pass.graph)
            && after[b].parents[0].sha < |done.pass.graph| && after[b].head < |done.pass.graph|
            && Reaches(done.pass.graph, after[b].parents[0].sha, after[b].head)
  {
    var m, refs := done.pass.moves[i], RefsAfter(at, done);
    var row := RowsAfter(now, done, reparented, recorded)[m.branch];
    MoveWasRead(rows, read, trunk, git, graph, live, chain, done, i);
    PublishedOnItsBase(rows, read, at, trunk, git, graph, live, chain, done, i);
    MovedRow(now, done, reparented, recorded, i);
    ReadsBack(RowsAfter(now, done, reparented, recorded), refs, trunk, m.branch);
    assert row.parent in refs && row.revision == refs[row.parent];
    if !recorded {
      if reparented || m.onto.None? {
        FinalParentWherePublished(rows, read, at, trunk, git, graph, live, chain, done, i);
      } else {
        OldParentIsBelow(rows, read, at, trunk, git, graph, live, chain, done, i);
      }
    }
    hide RanOver, RowsAfter, ReadState, Applied, Updates, Steady, Reaches;
  }

  /** A branch taken off a landed parent descends from that parent's head too. */
  lemma OldParentIsBelow(rows: map<Name, Row>, read: map<Name, nat>, at: map<Name, nat>, trunk: Name,
                         git: Git, graph: Graph, live: map<Name, nat>, chain: seq<Name>, done: Done, i: nat)
    requires RanOver(rows, read, trunk, git, graph, live, chain, done) && i < |done.pass.moves|
    requires done.pass.moves[i].onto.Some? && done.pass.moves[i].branch in rows
    requires Steady(read, done.pass.moves, at, rows[done.pass.moves[i].branch].parent)
    ensures var m, refs := done.pass.moves[i], RefsAfter(at, done); var p := rows[m.branch].parent;
            && p in refs && WellFormed(done.pass.graph) && refs[p] < |done.pass.graph| && m.head < |done.pass.graph|
            && Reaches(done.pass.graph, refs[p], m.head)
  {
    hide ReadState, HeldBack, Movers, ReplaysOwnWork, Spent, Given;
    var s, moves := done.setting, done.pass.moves;
    var m := moves[i];
    MoveWasRead(rows, read, trunk, git, graph, live, chain, done, i);
    PublishedOnItsBase(rows, read, at, trunk, git, graph, live, chain, done, i);
    assert Settled(s, done.pass, m) && ParentLanded(s, moves, m.branch);
    var p := rows[m.branch].parent;
    MovedHeadsKeys(s.pin, moves);
    StateMatchesRefs(rows, read, trunk, s.state, p);
    AppliedLookup(s.state, s.pin, at, moves, p);
    ReachesStable(s.graph, done.pass.graph, s.state[p].head, s.pin.sha);
    ReachesTransitive(done.pass.graph, s.state[p].head, m.parent, m.head);
  }

  /** How a moved branch reads back, by outcome: off its parent, once the new revision is recorded, exactly
      when the parent it is recorded on stands elsewhere than the base it was replayed onto; before that,
      exactly when its old verdict or revision says so. */
  lemma MovedReadsBack(rows: map<Name, Row>, read: map<Name, nat>, now: map<Name, Row>, at: map<Name, nat>,
                       trunk: Name, git: Git, graph: Graph, live: map<Name, nat>, chain: seq<Name>, done: Done,
                       reparented: bool, recorded: bool, i: nat)
    requires RanOver(rows, read, trunk, git, graph, live, chain, done) && i < |done.pass.moves|
    requires var b := done.pass.moves[i].branch; b in now && b in rows && now[b] == rows[b]
    ensures var m, refs := done.pass.moves[i], RefsAfter(at, done);
            var after := Reread(now, at, trunk, done, reparented, recorded);
            var p := if reparented && m.onto.Some? then m.onto.value else rows[m.branch].parent;
            && (m.branch in after <==> p in refs)
            && (p in refs ==>
                  && |after[m.branch].parents| == 1 && after[m.branch].parents[0].ref == p
                  && after[m.branch].hold == rows[m.branch].hold
                  && (after[m.branch].needsRestack
                      <==> if recorded then refs[p] != m.parent
                           else rows[m.branch].validation != Valid || refs[p] != rows[m.branch].revision))
  {
    hide RanOver, RowsAfter, ReadState, Applied, Updates, Reaches, WellFormed, OffParent;
    MoveWasRead(rows, read, trunk, git, graph, live, chain, done, i);
    PublishedOnItsBase(rows, read, at, trunk, git, graph, live, chain, done, i);
    DistinctlyMoved(rows, read, trunk, git, graph, live, chain, done);
    MovedRow(now, done, reparented, recorded, i);
    var b := done.pass.moves[i].branch;
    var written, refs := RowsAfter(now, done, reparented, recorded), RefsAfter(at, done);
    ReadsBack(written, refs, trunk, b);
    if written[b].parent in refs {
      OffParentMeans(written[b], refs);
    }
  }

  /** With both its parent and its revision written, a moved branch reads as settled exactly when its final
      parent is steady. */
  lemma WrittenReadsBack(rows: map<Name, Row>, read: map<Name, nat>, now: map<Name, Row>, at: map<Name, nat>,
                         trunk: Name, git: Git, graph: Graph, live: map<Name, nat>, chain: seq<Name>, done: Done,
                         reparented: bool, i: nat)
    requires RanOver(rows, read, trunk, git, graph, live, chain, done) && i < |done.pass.moves|
    requires var b := done.pass.moves[i].branch; b in now && b in rows && now[b] == rows[b]
    requires reparented || done.pass.moves[i].onto.None?
    ensures var m, state := done.pass.moves[i], done.setting.state;
            var after := Reread(now, at, trunk, done, reparented, true);
            && m.branch in state && |state[m.branch].parents| > 0
            && (m.branch in after && !after[m.branch].needsRestack
                <==> Steady(read, done.pass.moves, at, FinalParent(state, m)))
  {
    MoveWasRead(rows, read, trunk, git, graph, live, chain, done, i);
    FinalParentWherePublished(rows, read, at, trunk, git, graph, live, chain, done, i);
    hide RanOver, Applied, Updates, Steady, ReadState, RowsAfter;
    MovedReadsBack(rows, read, now, at, trunk, git, graph, live, chain, done, reparented, true, i);
  }

  /** A chain branch the restack did not move keeps its row, and over a steady parent reads as it did: off its
      parent only when it was held back, or skipped because it is already in trunk. */
  lemma UnmovedReadsBack(rows: map<Name, Row>, read: map<Name, nat>, now: map<Name, Row>, at: map<Name, nat>,
                         trunk: Name, git: Git, graph: Graph, live: map<Name, nat>, chain: seq<Name>, done: Done,
                         reparented: bool, recorded: bool, b: Name)
    requires RanOver(rows, read, trunk, git, graph, live, chain, done) && b in chain && !Moved(done.pass.moves, b)
    requires b in now && b in rows && now[b] == rows[b]
    ensures var refs, after := RefsAfter(at, done), Reread(now, at, trunk, done, reparented, recorded);
            var p := rows[b].parent;
            && p in read && b in done.setting.state && |done.setting.state[b].parents| > 0
            && ParentRef(done.setting.state, b) == p
            && (b in after <==> b in at && p in refs)
            && (b in after ==> |after[b].parents| == 1 && after[b].parents[0].ref == p && after[b].hold == rows[b].hold)
            && (b in after ==> after[b].needsRestack == OffParent(now[b], refs))
            && (b in after && !Moved(done.pass.moves, p) ==>
                  (Steady(read, done.pass.moves, at, p) ==>
                     after[b].needsRestack == done.setting.state[b].needsRestack)
                  && (!done.setting.state[b].needsRestack ==>
                        (!after[b].needsRestack <==> Steady(read, done.pass.moves, at, p))))
  {
    hide HeldBack, Movers, Spent, AllSettled;
    var s, moves, p := done.setting, done.pass.moves, rows[b].parent;
    ChainIsTracked(rows, read, trunk, git, graph, live, chain, done, b);
    StateMatchesRefs(rows, read, trunk, s.state, b);
    UnmovedRow(now, done, reparented, recorded, b);
    AppliedLookup(s.state, s.pin, at, moves, b);
    AppliedLookup(s.state, s.pin, at, moves, p);
    hide RanOver, RowsAfter, Applied, Updates, OnlyAddsHolds;
    if b in RefsAfter(at, done) {
      ReadsBack(RowsAfter(now, done, reparented, recorded), RefsAfter(at, done), trunk, b);
    }
  }

  lemma ChainIsTracked(rows: map<Name, Row>, read: map<Name, nat>, trunk: Name,
                       git: Git, graph: Graph, live: map<Name, nat>, chain: seq<Name>, done: Done, b: Name)
    requires RanOver(rows, read, trunk, git, graph, live, chain, done) && b in chain
    ensures OnlyAddsHolds(ReadState(rows, read, trunk), done.setting.state)
    ensures b in done.setting.state && |done.setting.state[b].parents| > 0
  {
    hide ReadState, HeldBack, Movers, Spent, Settled, OnlyAddsHolds, ParentsFirst;
  }
}
