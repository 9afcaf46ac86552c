/** What follows a restack that skipped a branch already in trunk, when nobody else touches the clone: the
    next restack has that branch left to move, and is refused over it. */
module RestackSkip {
  import opened Wrappers
  import opened Forest
  import opened CommitGraph
  import opened RestackPlan
  import opened Replay
  import opened ReplayChain
  import opened RestackTheorem
  import opened Restack
  import opened RestackReread
  import opened RestackAgain

  /** A restack in a clone nobody else touches: the refs stand still from the read to the publish. */
  ghost predicate RanAlone(rows: map<Name, Row>, refs: map<Name, nat>, trunk: Name,
                           git: Git, graph: Graph, chain: seq<Name>, done: Done) {
    RanOver(rows, refs, trunk, git, graph, refs, chain, done)
  }

  /** The state the next restack reads. */
  ghost function Next(rows: map<Name, Row>, refs: map<Name, nat>, trunk: Name, done: Done): State
    requires forall m :: m in done.pass.moves ==> m.branch in done.setting.state
  {
    Reread(rows, refs, trunk, done, true, true)
  }

  /** The movers the restack skipped. */
  ghost function SkippedOf(done: Done): set<Name> {
    set b | b in done.movers && !Moved(done.pass.moves, b)
  }

  lemma MovesTracked(rows: map<Name, Row>, refs: map<Name, nat>, trunk: Name,
                     git: Git, graph: Graph, chain: seq<Name>, done: Done)
    requires RanAlone(rows, refs, trunk, git, graph, chain, done)
    ensures forall m :: m in done.pass.moves ==> m.branch in done.setting.state
    ensures DistinctBranches(done.pass.moves)
  {
    DistinctlyMoved(rows, refs, trunk, git, graph, refs, chain, done);
  }

  /** A moved branch is next read on its final parent, sitting on it. */
  lemma MovedNext(rows: map<Name, Row>, refs: map<Name, nat>, trunk: Name,
                  git: Git, graph: Graph, chain: seq<Name>, done: Done, i: nat)
    requires RanAlone(rows, refs, trunk, git, graph, chain, done) && i < |done.pass.moves|
    ensures forall m :: m in done.pass.moves ==> m.branch in done.setting.state
    ensures var m, state, next := done.pass.moves[i], done.setting.state, Next(rows, refs, trunk, done);
            && m.branch in state && |state[m.branch].parents| > 0 && m.branch in next
            && |next[m.branch].parents| == 1 && ParentRef(next, m.branch) == FinalParent(state, m)
            && !next[m.branch].needsRestack
  {
    hide ReadState, RowsAfter, Applied, HeldBack, Movers, Spent, Settled, OnlyAddsHolds, Given, RanOver;
    MovesTracked(rows, refs, trunk, git, graph, chain, done);
    MoveWasRead(rows, refs, trunk, git, graph, refs, chain, done, i);
    MovedReadsBack(rows, refs, rows, refs, trunk, git, graph, refs, chain, done, true, true, i);
    WrittenReadsBack(rows, refs, rows, refs, trunk, git, graph, refs, chain, done, true, i);
    assert Steady(refs, done.pass.moves, refs, FinalParent(done.setting.state, done.pass.moves[i]));
  }

  /** A chain branch that did not move is next read on the same parent, and off it exactly when it was before,
      so long as that parent did not move either. */
  lemma UnmovedNext(rows: map<Name, Row>, refs: map<Name, nat>, trunk: Name,
                    git: Git, graph: Graph, chain: seq<Name>, done: Done, b: Name)
    requires RanAlone(rows, refs, trunk, git, graph, chain, done) && b in chain && !Moved(done.pass.moves, b)
    ensures forall m :: m in done.pass.moves ==> m.branch in done.setting.state
    ensures var state, next := done.setting.state, Next(rows, refs, trunk, done);
            && b in state && |state[b].parents| > 0 && b in next && |next[b].parents| == 1 && b in rows
            && ParentRef(next, b) == ParentRef(state, b) && next[b].hold == rows[b].hold
            && (state[b].hold == "" ==> next[b].hold == "")
            && (!Moved(done.pass.moves, ParentRef(state, b)) ==> next[b].needsRestack == state[b].needsRestack)
  {
    hide RowsAfter, Applied, HeldBack, Movers, Spent, Settled, Given;
    MovesTracked(rows, refs, trunk, git, graph, chain, done);
    ChainIsTracked(rows, refs, trunk, git, graph, refs, chain, done, b);
    StateMatchesRefs(rows, refs, trunk, done.setting.state, b);
    hide RanOver, OnlyAddsHolds, ReadState;
    UnmovedReadsBack(rows, refs, rows, refs, trunk, git, graph, refs, chain, done, true, true, b);
    RefsHold(done, refs, ParentRef(done.setting.state, b));
  }

  /** What a skipped branch was skipped for. */
  lemma SkippedIsInTrunk(rows: map<Name, Row>, refs: map<Name, nat>, trunk: Name,
                         git: Git, graph: Graph, chain: seq<Name>, done: Done, b: Name)
    requires RanAlone(rows, refs, trunk, git, graph, chain, done) && b in SkippedOf(done)
    ensures b in chain && Sound(done.setting) && b in done.setting.state && |done.setting.state[b].parents| > 0
    ensures b in refs && Reaches(graph, refs[b], done.setting.pin.sha) && done.setting.state[b].head == refs[b]
    ensures done.setting.state[b].hold == ""
    ensures !Moved(done.pass.moves, ParentRef(done.setting.state, b))
    ensures ParentRef(done.setting.state, b) == done.setting.pin.name
            || ParentLanded(done.setting, done.pass.moves, b)
  {
    hide ReadState, HeldBack, Settled;
    var s, moves := done.setting, done.pass.moves;
    UnmovedMoverIsSpent(rows, refs, trunk, git, graph, refs, chain, done, b);
    StateMatchesRefs(rows, refs, trunk, s.state, b);
    MovedHeadsKeys(s.pin, moves);
    TrunkNeverMoves(s, done.movers, |done.movers|, moves);
  }

  /** A moved branch never ends up on a skipped one. */
  lemma FinalParentIsNotSkipped(rows: map<Name, Row>, refs: map<Name, nat>, trunk: Name,
                                git: Git, graph: Graph, chain: seq<Name>, done: Done, i: nat)
    requires RanAlone(rows, refs, trunk, git, graph, chain, done) && i < |done.pass.moves|
    ensures var m, state := done.pass.moves[i], done.setting.state;
            && m.branch in state && |state[m.branch].parents| > 0
            && FinalParent(state, m) !in SkippedOf(done)
  {
    hide ReadState, HeldBack, ReplaysOwnWork, Spent;
    var s, moves := done.setting, done.pass.moves;
    var m := moves[i];
    MoveWasRead(rows, refs, trunk, git, graph, refs, chain, done, i);
    assert Settled(s, done.pass, m);
    var p := FinalParent(s.state, m);
    MovedHeadsKeys(s.pin, moves);
    assert s.pin.name !in done.movers;
    if p in SkippedOf(done) {
      SkippedIsInTrunk(rows, refs, trunk, git, graph, chain, done, p);
    }
  }

  // ---------------------------------------------------------------------------
  // What the next restack plans
  // ---------------------------------------------------------------------------

  lemma IndexOfMove(moves: seq<Move>, b: Name) returns (i: nat)
    requires Moved(moves, b)
    ensures i < |moves| && moves[i].branch == b
  {
    i :| 0 <= i < |moves| && moves[i].branch == b;
  }

  /** A chain branch in the next state, whichever it is. */
  lemma ChainNext(rows: map<Name, Row>, refs: map<Name, nat>, trunk: Name,
                  git: Git, graph: Graph, chain: seq<Name>, done: Done, b: Name)
    requires RanAlone(rows, refs, trunk, git, graph, chain, done) && b in chain
    ensures forall m :: m in done.pass.moves ==> m.branch in done.setting.state
    ensures var state, next := done.setting.state, Next(rows, refs, trunk, done);
            && b in state && |state[b].parents| > 0 && b in next && |next[b].parents| == 1
            && (ParentRef(next, b) == ParentRef(state, b) || ParentRef(next, b) == done.setting.pin.name)
            && (b in done.held ==> b !in SkippedOf(done))
            && (b !in done.held ==>
                  (b in SkippedOf(done)
                   <==> next[b].hold == "" && (next[b].needsRestack || ParentRef(next, b) in SkippedOf(done))))
  {
    if b in done.held {
      HeldIsNoMover(rows, refs, trunk, git, graph, refs, chain, done, b);
    }
    var s, moves := done.setting, done.pass.moves;
    var next := Next(rows, refs, trunk, done);
    hide Next, RanAlone, ParentLanded;
    MovesTracked(rows, refs, trunk, git, graph, chain, done);
    if Moved(moves, b) {
      var i := IndexOfMove(moves, b);
      MovedNext(rows, refs, trunk, git, graph, chain, done, i);
      FinalParentIsNotSkipped(rows, refs, trunk, git, graph, chain, done, i);
      OntoIsThePin(rows, refs, trunk, git, graph, chain, done, i);
    } else {
      UnmovedNext(rows, refs, trunk, git, graph, chain, done, b);
      if b in done.movers {
        SkippedIsInTrunk(rows, refs, trunk, git, graph, chain, done, b);
        MoverHasACause(rows, refs, trunk, git, graph, chain, done, b);
      } else if b !in done.held {
        LeftAloneHere(rows, refs, trunk, git, graph, chain, done, b);
      }
    }
  }

  lemma OntoIsThePin(rows: map<Name, Row>, refs: map<Name, nat>, trunk: Name,
                     git: Git, graph: Graph, chain: seq<Name>, done: Done, i: nat)
    requires RanAlone(rows, refs, trunk, git, graph, chain, done) && i < |done.pass.moves|
    ensures done.pass.moves[i].onto.Some? ==> done.pass.moves[i].onto.value == done.setting.pin.name
  {
    hide ReadState, HeldBack, ReplaysOwnWork, Spent, Movers;
    assert Settled(done.setting, done.pass, done.pass.moves[i]);
  }

  lemma LeftAloneHere(rows: map<Name, Row>, refs: map<Name, nat>, trunk: Name,
                      git: Git, graph: Graph, chain: seq<Name>, done: Done, b: Name)
    requires RanAlone(rows, refs, trunk, git, graph, chain, done) && b in chain && b !in done.movers
    requires b !in done.held
    ensures b in done.setting.state && |done.setting.state[b].parents| > 0
    ensures !done.setting.state[b].needsRestack && ParentRef(done.setting.state, b) !in done.movers
    ensures !Moved(done.pass.moves, ParentRef(done.setting.state, b))
  {
    LeftAlone(rows, refs, trunk, git, graph, refs, chain, done, b);
  }

  /** A mover was off its parent or above a mover. */
  lemma MoverHasACause(rows: map<Name, Row>, refs: map<Name, nat>, trunk: Name,
                       git: Git, graph: Graph, chain: seq<Name>, done: Done, b: Name)
    requires RanAlone(rows, refs, trunk, git, graph, chain, done) && b in done.movers
    ensures b in done.setting.state && |done.setting.state[b].parents| > 0
    ensures done.setting.state[b].needsRestack || ParentRef(done.setting.state, b) in done.movers
  {
    hide ReadState, HeldBack, AllSettled;
    var state := done.setting.state;
    HoldsKeepOrder(ReadState(rows, refs, trunk), state, chain);
    PlanIsTheUniqueSolution(state, chain, MoverSet(state, chain));
    assert b in MoverSet(state, chain);
  }

  /** A branch that gives the next restack no cause to move it: held again, or on its parent and above no
      skipped branch. */
  ghost predicate Resting(again: State, done: Done, b: Name) {
    b in again && |again[b].parents| > 0
    && (again[b].hold != "" || (!again[b].needsRestack && ParentRef(again, b) !in SkippedOf(done)))
  }

  /** What the next restack plans over: the next state, with whatever holds it adds, none on a skipped branch. */
  ghost predicate PlansOver(rows: map<Name, Row>, refs: map<Name, nat>, trunk: Name, done: Done, again: State)
    requires forall m :: m in done.pass.moves ==> m.branch in done.setting.state
  {
    && OnlyAddsHolds(Next(rows, refs, trunk, done), again)
    && forall b :: b in SkippedOf(done) && b in again ==> again[b].hold == ""
  }

  /** What a chain branch is in what the next restack plans over: on the parent it was on or on the pin, and
      solving the plan's equation for the skipped branches unless it was held back and does not rest. */
  ghost predicate ChainFacts(again: State, done: Done, b: Name) {
    var state, skipped := done.setting.state, SkippedOf(done);
    && b in state && |state[b].parents| > 0 && b in again && |again[b].parents| == 1
    && (ParentRef(again, b) == ParentRef(state, b) || ParentRef(again, b) == done.setting.pin.name)
    && ((b in skipped <==> again[b].hold == "" && (again[b].needsRestack || ParentRef(again, b) in skipped))
        <==> b !in done.held || Resting(again, done, b))
  }

  lemma ChainAgain(rows: map<Name, Row>, refs: map<Name, nat>, trunk: Name,
                   git: Git, graph: Graph, chain: seq<Name>, done: Done, again: State, b: Name)
    requires RanAlone(rows, refs, trunk, git, graph, chain, done) && b in chain
    requires forall m :: m in done.pass.moves ==> m.branch in done.setting.state
    requires PlansOver(rows, refs, trunk, done, again)
    ensures ChainFacts(again, done, b)
  {
    hide RanAlone, Next, OnlyAddsHolds, SkippedOf;
    ChainNext(rows, refs, trunk, git, graph, chain, done, b);
    HoldsAdded(Next(rows, refs, trunk, done), again, b);
  }

  lemma SkippedSolveExactlyWhenHeldRest(again: State, chain: seq<Name>, done: Done)
    requires Walkable(done.setting.state, chain) && ParentsFirst(done.setting.state, chain) && Distinct(chain)
    requires done.setting.pin.name !in chain && forall b :: b in SkippedOf(done) || b in done.held ==> b in chain
    requires forall b :: b in chain ==> ChainFacts(again, done, b)
    ensures Walkable(again, chain) && ParentsFirst(again, chain)
    ensures MoverSet(again, chain) == SkippedOf(done) <==> forall b :: b in done.held ==> Resting(again, done, b)
  {
    hide ParentsFirst, Distinct, SkippedOf, Resting, MoverSet;
    OrderSurvives(done.setting.state, again, chain, done.setting.pin.name);
    assert SolvesPlan(again, chain, SkippedOf(done)) <==> forall b :: b in done.held ==> Resting(again, done, b);
    PlanIsTheUniqueSolution(again, chain, SkippedOf(done));
  }

  /** The next restack over the same chain has exactly the skipped branches to move exactly when every branch the
      first one held back rests. */
  lemma NextMoversAreTheSkipped(rows: map<Name, Row>, refs: map<Name, nat>, trunk: Name,
                                git: Git, graph: Graph, chain: seq<Name>, done: Done, again: State)
    requires RanAlone(rows, refs, trunk, git, graph, chain, done)
    requires forall m :: m in done.pass.moves ==> m.branch in done.setting.state
    requires PlansOver(rows, refs, trunk, done, again)
    ensures Walkable(again, chain) && Distinct(chain) && ParentsFirst(again, chain)
    ensures MoverSet(again, chain) == SkippedOf(done) <==> forall b :: b in done.held ==> Resting(again, done, b)
  {
    hide RanAlone, ParentsFirst, Distinct, PlansOver, Resting, ChainFacts, SkippedOf, MoverSet;
    ChainStands(rows, refs, trunk, git, graph, chain, done);
    forall b | b in chain ensures ChainFacts(again, done, b) {
      ChainAgain(rows, refs, trunk, git, graph, chain, done, again, b);
    }
    SkippedSolveExactlyWhenHeldRest(again, chain, done);
  }

  lemma ChainStands(rows: map<Name, Row>, refs: map<Name, nat>, trunk: Name,
                    git: Git, graph: Graph, chain: seq<Name>, done: Done)
    requires RanAlone(rows, refs, trunk, git, graph, chain, done)
    ensures Walkable(done.setting.state, chain) && Distinct(chain) && ParentsFirst(done.setting.state, chain)
    ensures done.setting.pin.name !in chain
    ensures forall b :: b in SkippedOf(done) || b in done.held ==> b in chain
  {
    hide ReadState, AllSettled;
    HoldsKeepOrder(ReadState(rows, refs, trunk), done.setting.state, chain);
  }

  /** Moving branches onto one outside the chain keeps parents first. */
  lemma OrderSurvives(state: State, next: State, chain: seq<Name>, pin: Name)
    requires Walkable(state, chain) && ParentsFirst(state, chain) && Walkable(next, chain) && pin !in chain
    requires forall b :: b in chain ==> ParentRef(next, b) == ParentRef(state, b) || ParentRef(next, b) == pin
    ensures ParentsFirst(next, chain)
  {
    forall i, j | 0 <= i <= j < |chain| ensures ParentRef(next, chain[i]) != chain[j] {
      assert chain[i] in chain && chain[j] in chain;
      assert ParentRef(state, chain[i]) != chain[j];
    }
  }

  // ---------------------------------------------------------------------------
  // What the next restack does
  // ---------------------------------------------------------------------------

  /** What the next restack's replay reads. */
  ghost function NextSetting(rows: map<Name, Row>, refs: map<Name, nat>, trunk: Name, git: Git, done: Done): Setting
    requires forall m :: m in done.pass.moves ==> m.branch in done.setting.state
  {
    Setting(git, done.pass.graph, Next(rows, refs, trunk, done), done.setting.pin, RefsAfter(refs, done))
  }

  /** Holds change nothing a replay reads. */
  lemma HoldsKeepTheReplay(next: Setting, again: State)
    requires Sound(next) && OnlyAddsHolds(next.state, again)
    ensures Sound(next.(state := again))
    ensures forall b :: b in again && |again[b].parents| > 0 && InTrunk(next, b) ==> InTrunk(next.(state := again), b)
  {
    hide Reaches, WellFormed, Honest;
    var later := next.(state := again);
    assert Sound(later);
    forall b | b in again && |again[b].parents| > 0 && InTrunk(next, b) ensures InTrunk(later, b) {
      var p := ParentRef(again, b);
      assert p in again ==> again[p].head == next.state[p].head;
    }
  }

  lemma MovedWasInRefs(rows: map<Name, Row>, refs: map<Name, nat>, trunk: Name,
                       git: Git, graph: Graph, chain: seq<Name>, done: Done, n: Name)
    requires RanAlone(rows, refs, trunk, git, graph, chain, done) && Moved(done.pass.moves, n)
    ensures n in refs
  {
    hide ReadState, HeldBack, Movers, Spent, AllSettled;
    var i := IndexOfMove(done.pass.moves, n);
    MoveWasRead(rows, refs, trunk, git, graph, refs, chain, done, i);
    StateMatchesRefs(rows, refs, trunk, done.setting.state, n);
  }

  lemma RefsAreCommits(rows: map<Name, Row>, refs: map<Name, nat>, trunk: Name,
                       git: Git, graph: Graph, chain: seq<Name>, done: Done, n: Name)
    requires RanAlone(rows, refs, trunk, git, graph, chain, done)
    ensures forall m :: m in done.pass.moves ==> m.branch in done.setting.state
    ensures n in RefsAfter(refs, done) <==> n in refs
    ensures n in refs ==> refs[n] < |graph| && RefsAfter(refs, done)[n] < |done.pass.graph|
    ensures n in refs && !Moved(done.pass.moves, n) ==> RefsAfter(refs, done)[n] == refs[n]
    ensures WellFormed(done.pass.graph) && graph <= done.pass.graph && WellFormed(graph) && Honest(git)
  {
    hide ReadState, HeldBack, Movers, Spent, Settled;
    MovesTracked(rows, refs, trunk, git, graph, chain, done);
    AppliedLookup(done.setting.state, done.setting.pin, refs, done.pass.moves, n);
    if Moved(done.pass.moves, n) {
      MovedWasInRefs(rows, refs, trunk, git, graph, chain, done, n);
      var i := IndexOfMove(done.pass.moves, n);
      PublishedOnItsBase(rows, refs, refs, trunk, git, graph, refs, chain, done, i);
    }
  }

  lemma NextRow(rows: map<Name, Row>, refs: map<Name, nat>, trunk: Name, done: Done, b: Name)
    requires forall m :: m in done.pass.moves ==> m.branch in done.setting.state
    requires b in Next(rows, refs, trunk, done) && |Next(rows, refs, trunk, done)[b].parents| > 0
    ensures var after, at := RowsAfter(rows, done, true, true), RefsAfter(refs, done);
            && b in rows && b in after && b in at && b != trunk && after[b].validation != OtherVerdict
            && after[b].parent in at
            && Next(rows, refs, trunk, done)[b].parents == [Parent(after[b].parent, after[b].revision)]
  {
    hide Applied, Updates, OffParent;
  }

  /** The revision any branch of the next state records is a commit. */
  lemma RevisionsAreCommits(rows: map<Name, Row>, refs: map<Name, nat>, trunk: Name,
                            git: Git, graph: Graph, chain: seq<Name>, done: Done, b: Name, k: nat)
    requires RanAlone(rows, refs, trunk, git, graph, chain, done)
    requires forall m :: m in done.pass.moves ==> m.branch in done.setting.state
    requires b in Next(rows, refs, trunk, done) && k < |Next(rows, refs, trunk, done)[b].parents|
    ensures Next(rows, refs, trunk, done)[b].parents[k].sha < |done.pass.graph|
  {
    hide RanAlone, RowsAfter, Next, Applied, Updates, Moved, WellFormed, Honest, Reaches;
    NextRow(rows, refs, trunk, done, b);
    if Moved(done.pass.moves, b) {
      MovedRevision(rows, refs, trunk, git, graph, chain, done, b);
    } else {
      RefsAreCommits(rows, refs, trunk, git, graph, chain, done, b);
      UnmovedRow(rows, done, true, true, b);
      RefsAreCommits(rows, refs, trunk, git, graph, chain, done, rows[b].parent);
      ReadRevision(rows, refs, trunk, git, graph, chain, done, b);
    }
  }

  lemma MovedRevision(rows: map<Name, Row>, refs: map<Name, nat>, trunk: Name,
                      git: Git, graph: Graph, chain: seq<Name>, done: Done, b: Name)
    requires RanAlone(rows, refs, trunk, git, graph, chain, done) && Moved(done.pass.moves, b)
    ensures b in RowsAfter(rows, done, true, true)
    ensures RowsAfter(rows, done, true, true)[b].revision < |done.pass.graph|
  {
    var i := IndexOfMove(done.pass.moves, b);
    PublishedOnItsBase(rows, refs, refs, trunk, git, graph, refs, chain, done, i);
    MovedWasInRows(rows, refs, trunk, git, graph, chain, done, i);
    MovedRow(rows, done, true, true, i);
    hide RanAlone, RowsAfter, Applied, Updates;
  }

  lemma MovedWasInRows(rows: map<Name, Row>, refs: map<Name, nat>, trunk: Name,
                       git: Git, graph: Graph, chain: seq<Name>, done: Done, i: nat)
    requires RanAlone(rows, refs, trunk, git, graph, chain, done) && i < |done.pass.moves|
    ensures done.pass.moves[i].branch in rows && DistinctBranches(done.pass.moves)
  {
    MoveWasRead(rows, refs, trunk, git, graph, refs, chain, done, i);
    MovesTracked(rows, refs, trunk, git, graph, chain, done);
  }

  lemma ReadRevision(rows: map<Name, Row>, refs: map<Name, nat>, trunk: Name,
                     git: Git, graph: Graph, chain: seq<Name>, done: Done, b: Name)
    requires RanAlone(rows, refs, trunk, git, graph, chain, done)
    requires b in rows && b in refs && b != trunk && rows[b].validation != OtherVerdict && rows[b].parent in refs
    ensures rows[b].revision < |graph|
  {
    ReadsBack(rows, refs, trunk, b);
    hide ReadState, Finished;
    assert ReadState(rows, refs, trunk)[b].parents[0].sha == rows[b].revision;
  }

  lemma PinStands(rows: map<Name, Row>, refs: map<Name, nat>, trunk: Name,
                  git: Git, graph: Graph, chain: seq<Name>, done: Done)
    requires RanAlone(rows, refs, trunk, git, graph, chain, done)
    ensures forall m :: m in done.pass.moves ==> m.branch in done.setting.state
    ensures var pin, next := done.setting.pin, Next(rows, refs, trunk, done);
            pin.name == trunk && pin.name in next && next[pin.name].head == pin.sha && pin.sha < |graph|
  {
    hide HeldBack, Movers, Spent, Settled;
    var s, moves := done.setting, done.pass.moves;
    TrunkNeverMoves(s, done.movers, |done.movers|, moves);
    StateMatchesRefs(rows, refs, trunk, s.state, s.pin.name);
    RefsAreCommits(rows, refs, trunk, git, graph, chain, done, s.pin.name);
    UnmovedRow(rows, done, true, true, s.pin.name);
    hide RanAlone, RowsAfter, Applied, Updates, OnlyAddsHolds;
  }

  lemma NextIsSound(rows: map<Name, Row>, refs: map<Name, nat>, trunk: Name,
                    git: Git, graph: Graph, chain: seq<Name>, done: Done)
    requires RanAlone(rows, refs, trunk, git, graph, chain, done)
    ensures forall m :: m in done.pass.moves ==> m.branch in done.setting.state
    ensures Sound(NextSetting(rows, refs, trunk, git, done))
  {
    PinStands(rows, refs, trunk, git, graph, chain, done);
    RefsAreCommits(rows, refs, trunk, git, graph, chain, done, trunk);
    hide RanAlone, RowsAfter, Applied, Updates, Honest, WellFormed;
    var next, live := Next(rows, refs, trunk, done), RefsAfter(refs, done);
    forall b | b in live ensures live[b] < |done.pass.graph| {
      RefsAreCommits(rows, refs, trunk, git, graph, chain, done, b);
    }
    assert forall b :: b in next ==> b in live && next[b].head == live[b];
    forall b, k | b in next && 0 <= k < |next[b].parents| ensures next[b].parents[k].sha < |done.pass.graph| {
      RevisionsAreCommits(rows, refs, trunk, git, graph, chain, done, b, k);
    }
  }

  /** A tracked branch that did not move is still tracked, at the same head. */
  lemma TrackedStays(rows: map<Name, Row>, refs: map<Name, nat>, trunk: Name,
                     git: Git, graph: Graph, chain: seq<Name>, done: Done, p: Name)
    requires RanAlone(rows, refs, trunk, git, graph, chain, done)
    requires p in done.setting.state && !Moved(done.pass.moves, p) && p != trunk
    ensures forall m :: m in done.pass.moves ==> m.branch in done.setting.state
    ensures var next := Next(rows, refs, trunk, done); p in next && next[p].head == done.setting.state[p].head
  {
    RefsAreCommits(rows, refs, trunk, git, graph, chain, done, p);
    StateMatchesRefs(rows, refs, trunk, done.setting.state, p);
    TrackedHasParent(rows, refs, trunk, done.setting.state, p);
    RefsAreCommits(rows, refs, trunk, git, graph, chain, done, rows[p].parent);
    UnmovedRow(rows, done, true, true, p);
    hide RanAlone, RowsAfter, Applied, Updates;
  }

  lemma TrackedHasParent(rows: map<Name, Row>, refs: map<Name, nat>, trunk: Name, planned: State, p: Name)
    requires OnlyAddsHolds(ReadState(rows, refs, trunk), planned) && p in planned && p != trunk
    ensures p in rows && rows[p].parent in refs && rows[p].validation != OtherVerdict
  {
  }

  /** b lands on the pin, and its ref is already below it. */
  ghost predicate InTrunk(next: Setting, b: Name)
    requires Sound(next) && b in next.state && |next.state[b].parents| > 0
  {
    var landing := LandingOf(next, map[next.pin.name := next.pin.sha], b);
    && b in next.live && Reaches(next.graph, next.live[b], next.pin.sha)
    && landing.Some? && landing.value.at == next.pin.sha
  }

  /** The next restack would land a skipped branch on the pin, which its ref is already below. */
  lemma SkippedLandsOnThePin(rows: map<Name, Row>, refs: map<Name, nat>, trunk: Name,
                             git: Git, graph: Graph, chain: seq<Name>, done: Done, b: Name)
    requires RanAlone(rows, refs, trunk, git, graph, chain, done) && b in SkippedOf(done)
    ensures forall m :: m in done.pass.moves ==> m.branch in done.setting.state
    ensures var next := NextSetting(rows, refs, trunk, git, done);
            Sound(next) && b in next.state && |next.state[b].parents| > 0 && InTrunk(next, b)
  {
    hide RanAlone, Next, Applied, Updates, Reaches, Sound, InTrunk, SkippedOf, Honest, WellFormed;
    NextIsSound(rows, refs, trunk, git, graph, chain, done);
    PinStands(rows, refs, trunk, git, graph, chain, done);
    RefsAreCommits(rows, refs, trunk, git, graph, chain, done, b);
    SkippedIsInTrunk(rows, refs, trunk, git, graph, chain, done, b);
    NotMovedOf(done, b);
    UnmovedNext(rows, refs, trunk, git, graph, chain, done, b);
    ReachesStable(graph, done.pass.graph, refs[b], done.setting.pin.sha);
    var p := ParentRef(done.setting.state, b);
    if p != done.setting.pin.name {
      LandedNext(rows, refs, trunk, git, graph, chain, done, b);
    }
    LandsInTrunk(NextSetting(rows, refs, trunk, git, done), b);
  }

  lemma NotMovedOf(done: Done, b: Name)
    requires b in SkippedOf(done)
    ensures !Moved(done.pass.moves, b)
  {
  }

  /** The landed parent of a skipped branch still stands in trunk. */
  lemma LandedNext(rows: map<Name, Row>, refs: map<Name, nat>, trunk: Name,
                   git: Git, graph: Graph, chain: seq<Name>, done: Done, b: Name)
    requires RanAlone(rows, refs, trunk, git, graph, chain, done) && b in SkippedOf(done)
    requires b in done.setting.state && |done.setting.state[b].parents| > 0
    requires ParentRef(done.setting.state, b) != done.setting.pin.name
    ensures forall m :: m in done.pass.moves ==> m.branch in done.setting.state
    ensures WellFormed(done.pass.graph)
    ensures var p, next := ParentRef(done.setting.state, b), Next(rows, refs, trunk, done);
            p in next && next[p].head < |done.pass.graph|
            && done.setting.pin.sha < |done.pass.graph|
            && Reaches(done.pass.graph, next[p].head, done.setting.pin.sha)
  {
    hide RanAlone, Next, Reaches, SkippedOf, Honest;
    var p := ParentRef(done.setting.state, b);
    PinStands(rows, refs, trunk, git, graph, chain, done);
    SkippedIsInTrunk(rows, refs, trunk, git, graph, chain, done, b);
    RefsAreCommits(rows, refs, trunk, git, graph, chain, done, b);
    SettingIsGraph(rows, refs, trunk, git, graph, chain, done);
    TrackedStays(rows, refs, trunk, git, graph, chain, done, p);
    ReachesStable(graph, done.pass.graph, done.setting.state[p].head, done.setting.pin.sha);
  }

  lemma LandsInTrunk(next: Setting, b: Name)
    requires Sound(next) && b in next.state && |next.state[b].parents| > 0 && b in next.live
    requires Reaches(next.graph, next.live[b], next.pin.sha)
    requires var p := ParentRef(next.state, b);
             p == next.pin.name || (p in next.state && Reaches(next.graph, next.state[p].head, next.pin.sha))
    ensures InTrunk(next, b)
  {
    hide Sound, Reaches;
  }

  lemma SettingIsGraph(rows: map<Name, Row>, refs: map<Name, nat>, trunk: Name,
                       git: Git, graph: Graph, chain: seq<Name>, done: Done)
    requires RanAlone(rows, refs, trunk, git, graph, chain, done)
    ensures done.setting.graph == graph && forall b :: b in done.setting.state ==> done.setting.state[b].head < |graph|
  {
  }

  /** A pass that has replayed nothing, or stopped over a branch already in trunk or one git could not read. */
  predicate ReplaysNothing(r: Result<Pass, ReplayError>, graph: Graph) {
    match r
    case Success(pass) => pass == Pass(graph, [])
    case Failure(e) => e.AlreadyMerged? || e.ReadFailed?
  }

  /** A branch already in trunk is skipped or refused, and refused when it comes last. */
  lemma InTrunkReplaysNothing(next: Setting, movers: seq<Name>, n: nat)
    requires Sound(next) && Walkable(next.state, movers) && 0 < n <= |movers|
    requires ReplaysNothing(ReplayUpTo(next, movers, n - 1), next.graph)
    requires InTrunk(next, movers[n - 1])
    ensures ReplaysNothing(ReplayUpTo(next, movers, n), next.graph)
    ensures n == |movers| ==> ReplayUpTo(next, movers, n).Failure?
  {
    hide Sound, Reaches, LandingOf;
    NothingMoved(next.pin);
    assert n == |movers| ==> movers[n..] == [];
  }

  lemma {:induction false} AllInTrunk(next: Setting, movers: seq<Name>, n: nat)
    requires Sound(next) && Walkable(next.state, movers) && n <= |movers|
    requires forall i :: 0 <= i < |movers| ==> InTrunk(next, movers[i])
    ensures ReplaysNothing(ReplayUpTo(next, movers, n), next.graph)
    ensures 0 < n == |movers| ==> ReplayUpTo(next, movers, n).Failure?
    decreases n
  {
    if n > 0 {
      AllInTrunk(next, movers, n - 1);
      InTrunkReplaysNothing(next, movers, n);
    }
  }

  /** After a restack in a clone nobody else touches, with every branch it held back resting, the next one over
      the same chain has nothing to move exactly when nothing was skipped; otherwise it moves nothing and is
      refused, over a branch that is already in trunk. */
  lemma SkipBlocksTheNext(rows: map<Name, Row>, refs: map<Name, nat>, trunk: Name,
                          git: Git, graph: Graph, chain: seq<Name>, done: Done, again: State)
    requires RanAlone(rows, refs, trunk, git, graph, chain, done)
    requires forall m :: m in done.pass.moves ==> m.branch in done.setting.state
    requires PlansOver(rows, refs, trunk, done, again) && forall b :: b in done.held ==> Resting(again, done, b)
    ensures var next := NextSetting(rows, refs, trunk, git, done).(state := again);
            && Sound(next) && Walkable(again, chain) && Walkable(again, Movers(again, chain))
            && (Movers(again, chain) == [] <==> SkippedOf(done) == {})
            && (SkippedOf(done) != {} ==>
                  var movers := Movers(again, chain);
                  var r := ReplayUpTo(next, movers, |movers|);
                  r.Failure? && (r.error.AlreadyMerged? || r.error.ReadFailed?))
  {
    hide RanAlone, Next;
    NextIsSound(rows, refs, trunk, git, graph, chain, done);
    NextMoversAreTheSkipped(rows, refs, trunk, git, graph, chain, done, again);
    var before := NextSetting(rows, refs, trunk, git, done);
    assert before.state == Next(rows, refs, trunk, done);
    hide NextSetting, Sound, Reaches, LandingOf, ReplayUpTo, SkippedOf, Movers, InTrunk, Resting;
    HoldsKeepTheReplay(before, again);
    var next := before.(state := again);
    var movers := Movers(again, chain);
    assert forall b :: b in movers <==> b in MoverSet(again, chain);
    if movers != [] {
      assert movers[0] in SkippedOf(done);
      forall i | 0 <= i < |movers| ensures InTrunk(next, movers[i]) {
        assert movers[i] in movers;
        SkippedLandsOnThePin(rows, refs, trunk, git, graph, chain, done, movers[i]);
      }
      AllInTrunk(next, movers, |movers|);
    } else {
      assert MoverSet(again, chain) == {};
    }
  }
}
