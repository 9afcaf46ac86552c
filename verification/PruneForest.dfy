/** What a prune leaves of the forest of branches. */
module PruneForest {
  import opened Wrappers
  import opened Forest
  import opened Prune

  /** The rows left once the forgotten ones are deleted and the stranded ones moved. */
  function After(column: map<Name, Name>, forgotten: set<Name>, moves: map<Name, Name>): map<Name, Name> {
    map b | b in column && b !in forgotten :: if b in moves then moves[b] else column[b]
  }

  /** A prune of rows whose names are real branch names, trunk among them and not forgotten. */
  ghost predicate Pruned(column: map<Name, Name>, forgotten: set<Name>, trunk: Name, moves: map<Name, Name>) {
    && trunk !in forgotten && trunk != "" && "" !in forgotten && "" !in column
    && Moves(column, forgotten, trunk, moves)
  }

  /** No row left names a forgotten parent. */
  lemma NoForgottenParentIsLeft(column: map<Name, Name>, forgotten: set<Name>, trunk: Name, moves: map<Name, Name>)
    requires Pruned(column, forgotten, trunk, moves)
    ensures forall b :: b in After(column, forgotten, moves) ==> After(column, forgotten, moves)[b] !in forgotten
  {
  }

  /** A stranded row moved to trunk because nothing above it is kept. */
  ghost predicate FellToTrunk(column: map<Name, Name>, forgotten: set<Name>, b: Name) {
    b in Stranded(column, forgotten) && RunsOut(Recorded(column), Kept(column, forgotten), b)
  }

  /** One step up from a kept row after the prune: to a kept ancestor, to trunk, or off the rows. */
  lemma StepAfter(column: map<Name, Name>, forgotten: set<Name>, trunk: Name, moves: map<Name, Name>, b: Name)
    requires Pruned(column, forgotten, trunk, moves) && b in Recorded(After(column, forgotten, moves))
    ensures b in Kept(column, forgotten)
    ensures var up := Recorded(After(column, forgotten, moves))[b];
            (FellToTrunk(column, forgotten, b) && up == trunk) || Above(Recorded(column), up, b)
  {
    var parents, kept := Recorded(column), Kept(column, forgotten);
    var up := Recorded(After(column, forgotten, moves))[b];
    if b in moves {
      assert Rehomed(column, forgotten, trunk, b, up);
      if NearestKept(parents, kept, b, up) {
        var k: nat :| k >= 1 && Climbs(parents, kept, b, k) && Up(parents, b, k) == Some(up) && up in kept && up != b;
      }
    } else {
      AboveFirstStep(parents, up, b);
    }
  }

  /** A kept ancestor stays an ancestor. */
  lemma {:induction false} AncestorsStay(column: map<Name, Name>, forgotten: set<Name>, trunk: Name,
                                         moves: map<Name, Name>,
                                         a: Name, b: Name, k: nat)
    requires Pruned(column, forgotten, trunk, moves)
    requires a in Kept(column, forgotten) && b in Kept(column, forgotten)
    requires k >= 1 && Up(Recorded(column), b, k) == Some(a)
    ensures Above(Recorded(After(column, forgotten, moves)), a, b)
    decreases k
  {
    var parents, kept, after := Recorded(column), Kept(column, forgotten), Recorded(After(column, forgotten, moves));
    if b in moves {
      assert Rehomed(column, forgotten, trunk, b, moves[b]);
      var j := FirstKept(parents, kept, b, k);
      var x := Up(parents, b, j).value;
      NotBackToSelf(parents, kept, b, j, trunk, moves[b]);
      assert NearestKept(parents, kept, b, x);
      if RunsOut(parents, kept, b) {
        NearestKeptOrRunsOut(parents, kept, b, x);
      }
      NearestKeptIsUnique(parents, kept, b, x, moves[b]);
      assert x != "";
      AboveFirstStep(after, a, b);
      if j < k {
        UpAdds(parents, b, j, k - j);
        AncestorsStay(column, forgotten, trunk, moves, a, x, k - j);
      }
    } else {
      AboveFirstStep(after, a, b);
      var x := parents[b];
      if k > 1 {
        assert x in parents;
        AncestorsStay(column, forgotten, trunk, moves, a, x, k - 1);
      }
    }
  }

  lemma {:induction false} FirstKept(parents: Parents, kept: set<Name>, b: Name, k: nat) returns (j: nat)
    requires k >= 1 && Up(parents, b, k).Some? && Up(parents, b, k).value in kept
    ensures 1 <= j <= k && Climbs(parents, kept, b, j) && Up(parents, b, j).Some? && Up(parents, b, j).value in kept
    decreases k
  {
    forall i: nat | i <= k ensures Up(parents, b, i).Some? {
      WalkPrefix(parents, b, i, k);
    }
    if i :| 1 <= i < k && Up(parents, b, i).value in kept {
      j := FirstKept(parents, kept, b, i);
    } else {
      j := k;
    }
  }

  lemma {:induction false} WalkPrefix(parents: Parents, b: Name, i: nat, k: nat)
    requires i <= k && Up(parents, b, k).Some?
    ensures Up(parents, b, i).Some?
    decreases i
  {
    if i > 0 {
      WalkPrefix(parents, parents[b], i - 1, k - 1);
    }
  }

  /** A rehomed row's first kept ancestor is not the row itself: that chain would have been refused. */
  lemma NotBackToSelf(parents: Parents, kept: set<Name>, b: Name, j: nat, trunk: Name, to: Name)
    requires j >= 1 && Climbs(parents, kept, b, j) && Up(parents, b, j).Some? && Up(parents, b, j).value in kept
    requires NearestKept(parents, kept, b, to) || (RunsOut(parents, kept, b) && to == trunk)
    ensures Up(parents, b, j).value != b
  {
  }

  /** After the prune b climbs to a in under k steps past trunk, through f, a row that fell to trunk. */
  ghost predicate ThroughTrunk(column: map<Name, Name>, forgotten: set<Name>, trunk: Name, moves: map<Name, Name>,
                               a: Name, b: Name, k: nat, f: Name, j: nat) {
    && FellToTrunk(column, forgotten, f) && (f == b || Above(Recorded(column), f, b))
    && j < k && Up(Recorded(After(column, forgotten, moves)), trunk, j) == Some(a)
  }

  /** An ancestor after the prune was one before it, or sits at or above trunk and is reached through
      a row that fell to trunk. */
  lemma {:induction false} AncestorsWere(column: map<Name, Name>, forgotten: set<Name>, trunk: Name,
                                         moves: map<Name, Name>,
                                         a: Name, b: Name, k: nat)
    requires Pruned(column, forgotten, trunk, moves)
    requires k >= 1 && Up(Recorded(After(column, forgotten, moves)), b, k) == Some(a)
    ensures Above(Recorded(column), a, b) || exists f, j :: ThroughTrunk(column, forgotten, trunk, moves, a, b, k, f, j)
    decreases k
  {
    var parents, after := Recorded(column), Recorded(After(column, forgotten, moves));
    StepAfter(column, forgotten, trunk, moves, b);
    var up := after[b];
    if FellToTrunk(column, forgotten, b) && up == trunk {
      assert ThroughTrunk(column, forgotten, trunk, moves, a, b, k, b, k - 1);
    } else if k > 1 {
      AncestorsWere(column, forgotten, trunk, moves, a, up, k - 1);
      if Above(parents, a, up) {
        AboveTransitive(parents, a, up, b);
      } else {
        var f, j :| ThroughTrunk(column, forgotten, trunk, moves, a, up, k - 1, f, j);
        if f != up {
          AboveTransitive(parents, f, up, b);
        }
        assert ThroughTrunk(column, forgotten, trunk, moves, a, b, k, f, j);
      }
    }
  }

  /** Trunk's own row, if it has one, records no parent. */
  ghost predicate TrunkIsRoot(column: map<Name, Name>, trunk: Name) {
    trunk in column ==> column[trunk] == ""
  }

  /** Among the rows kept, who is above whom is unchanged, trunk aside. */
  ghost predicate AncestryKept(column: map<Name, Name>, forgotten: set<Name>, trunk: Name, moves: map<Name, Name>) {
    forall a, b :: a in Kept(column, forgotten) && b in Kept(column, forgotten) && a != trunk ==>
      (Above(Recorded(column), a, b) <==> Above(Recorded(After(column, forgotten, moves)), a, b))
  }

  /** Some row falls to trunk while trunk's own row records a kept branch above it. */
  ghost predicate FallsUnder(column: map<Name, Name>, forgotten: set<Name>, trunk: Name, f: Name, a: Name) {
    FellToTrunk(column, forgotten, f) && a in Kept(column, forgotten) && a != trunk && Above(Recorded(column), a, trunk)
  }

  /** A prune keeps the ancestor relation among kept rows exactly when no row falls to trunk, or trunk's
      row records nothing kept above trunk. */
  lemma AncestryIsKept(column: map<Name, Name>, forgotten: set<Name>, trunk: Name, moves: map<Name, Name>)
    requires Pruned(column, forgotten, trunk, moves)
    ensures AncestryKept(column, forgotten, trunk, moves) <==>
              forall f, a :: !FallsUnder(column, forgotten, trunk, f, a)
    ensures TrunkIsRoot(column, trunk) ==> AncestryKept(column, forgotten, trunk, moves)
  {
    var parents, after, kept := Recorded(column), Recorded(After(column, forgotten, moves)), Kept(column, forgotten);
    if f, a :| FallsUnder(column, forgotten, trunk, f, a) {
      FallenGainsAncestor(column, forgotten, trunk, moves, f, a);
    } else {
      forall a, b | a in kept && b in kept && a != trunk ensures Above(parents, a, b) <==> Above(after, a, b) {
        if Above(parents, a, b) {
          var k: nat :| k >= 1 && Up(parents, b, k) == Some(a);
          AncestorsStay(column, forgotten, trunk, moves, a, b, k);
        }
        if Above(after, a, b) {
          var k: nat :| k >= 1 && Up(after, b, k) == Some(a);
          AncestorsWere(column, forgotten, trunk, moves, a, b, k);
          if !Above(parents, a, b) {
            var f, j :| ThroughTrunk(column, forgotten, trunk, moves, a, b, k, f, j);
            TrunkClimbs(column, forgotten, trunk, moves, a, j);
            assert FallsUnder(column, forgotten, trunk, f, a);
          }
        }
      }
    }
    RootHasNothingAbove(column, trunk);
  }

  lemma RootHasNothingAbove(column: map<Name, Name>, trunk: Name)
    ensures TrunkIsRoot(column, trunk) ==> forall a :: !Above(Recorded(column), a, trunk)
  {
  }

  /** Whatever the climb from trunk meets after the prune was above trunk before it. */
  lemma {:induction false} TrunkClimbs(column: map<Name, Name>, forgotten: set<Name>, trunk: Name,
                                       moves: map<Name, Name>,
                                       a: Name, k: nat)
    requires Pruned(column, forgotten, trunk, moves) && a != trunk
    requires Up(Recorded(After(column, forgotten, moves)), trunk, k) == Some(a)
    ensures Above(Recorded(column), a, trunk)
    decreases k
  {
    AncestorsWere(column, forgotten, trunk, moves, a, trunk, k);
    if !Above(Recorded(column), a, trunk) {
      var f, j :| ThroughTrunk(column, forgotten, trunk, moves, a, trunk, k, f, j);
      TrunkClimbs(column, forgotten, trunk, moves, a, j);
    }
  }

  lemma FallenGainsAncestor(column: map<Name, Name>, forgotten: set<Name>, trunk: Name, moves: map<Name, Name>,
                            f: Name, a: Name)
    requires Pruned(column, forgotten, trunk, moves) && FallsUnder(column, forgotten, trunk, f, a)
    ensures a in Kept(column, forgotten) && f in Kept(column, forgotten)
    ensures Above(Recorded(After(column, forgotten, moves)), a, f) && !Above(Recorded(column), a, f)
  {
    var parents, kept, after := Recorded(column), Kept(column, forgotten), Recorded(After(column, forgotten, moves));
    assert Rehomed(column, forgotten, trunk, f, moves[f]);
    if NearestKept(parents, kept, f, moves[f]) {
      NearestKeptOrRunsOut(parents, kept, f, moves[f]);
    }
    assert after[f] == trunk;
    AboveFirstStep(parents, a, trunk);
    var k: nat :| k >= 1 && Up(parents, trunk, k) == Some(a);
    AncestorsStay(column, forgotten, trunk, moves, a, trunk, k);
    AboveFirstStep(after, a, f);
    NothingKeptAbove(parents, kept, f, a);
  }

  lemma NothingKeptAbove(parents: Parents, kept: set<Name>, b: Name, a: Name)
    requires RunsOut(parents, kept, b) && a in kept
    ensures !Above(parents, a, b)
  {
    var k: nat :| k >= 1 && Climbs(parents, kept, b, k) && Up(parents, b, k) == None;
    if Above(parents, a, b) {
      var m: nat :| m >= 1 && Up(parents, b, m) == Some(a);
      if m >= k {
        WalkPrefix(parents, b, k, m);
      }
    }
  }

  /** A row that fell to trunk while trunk is that row or sits below it. */
  ghost predicate ClosesALoop(column: map<Name, Name>, forgotten: set<Name>, trunk: Name, b: Name) {
    FellToTrunk(column, forgotten, b) && (b == trunk || (trunk in column && Above(Recorded(column), b, trunk)))
  }

  /** The prune creates a cycle exactly when some row falls to trunk that is trunk or above it. */
  lemma CycleExactlyWhenTrunkSitsBelow(column: map<Name, Name>, forgotten: set<Name>, trunk: Name,
                                       moves: map<Name, Name>)
    requires Pruned(column, forgotten, trunk, moves) && Acyclic(Recorded(column))
    ensures Acyclic(Recorded(After(column, forgotten, moves))) <==>
              !exists b :: ClosesALoop(column, forgotten, trunk, b)
    ensures TrunkIsRoot(column, trunk) ==> Acyclic(Recorded(After(column, forgotten, moves)))
  {
    var after := Recorded(After(column, forgotten, moves));
    if b :| ClosesALoop(column, forgotten, trunk, b) {
      LoopIsACycle(column, forgotten, trunk, moves, b);
    } else {
      forall c ensures !Above(after, c, c) {
        if Above(after, c, c) {
          CycleIsOldOrClosed(column, forgotten, trunk, moves, c);
        }
      }
    }
  }

  lemma LoopIsACycle(column: map<Name, Name>, forgotten: set<Name>, trunk: Name, moves: map<Name, Name>, b: Name)
    requires Pruned(column, forgotten, trunk, moves) && ClosesALoop(column, forgotten, trunk, b)
    ensures Above(Recorded(After(column, forgotten, moves)), b, b)
  {
    var parents, kept, after := Recorded(column), Kept(column, forgotten), Recorded(After(column, forgotten, moves));
    assert Rehomed(column, forgotten, trunk, b, moves[b]);
    if NearestKept(parents, kept, b, moves[b]) {
      NearestKeptOrRunsOut(parents, kept, b, moves[b]);
    }
    assert after[b] == trunk;
    AboveFirstStep(after, b, b);
    if b != trunk {
      var k: nat :| k >= 1 && Up(parents, trunk, k) == Some(b);
      AncestorsStay(column, forgotten, trunk, moves, b, trunk, k);
    }
  }

  /** Unless a loop closes, the walk up from trunk is one the old rows record. */
  lemma {:induction false} TrunkWalkIsOld(column: map<Name, Name>, forgotten: set<Name>, trunk: Name,
                                          moves: map<Name, Name>,
                                          a: Name, k: nat)
    requires Pruned(column, forgotten, trunk, moves)
    requires Up(Recorded(After(column, forgotten, moves)), trunk, k) == Some(a)
    ensures a == trunk || Above(Recorded(column), a, trunk) || exists b :: ClosesALoop(column, forgotten, trunk, b)
  {
    if k > 0 {
      AncestorsWere(column, forgotten, trunk, moves, a, trunk, k);
      if !Above(Recorded(column), a, trunk) {
        var f, j :| ThroughTrunk(column, forgotten, trunk, moves, a, trunk, k, f, j);
        AboveFirstStep(Recorded(column), f, trunk);
        assert ClosesALoop(column, forgotten, trunk, f);
      }
    }
  }

  /** A branch above itself after the prune was so before it, or some loop closed. */
  lemma CycleIsOldOrClosed(column: map<Name, Name>, forgotten: set<Name>, trunk: Name, moves: map<Name, Name>, c: Name)
    requires Pruned(column, forgotten, trunk, moves)
    requires Above(Recorded(After(column, forgotten, moves)), c, c)
    ensures Above(Recorded(column), c, c) || exists b :: ClosesALoop(column, forgotten, trunk, b)
  {
    var parents, after := Recorded(column), Recorded(After(column, forgotten, moves));
    var k: nat :| k >= 1 && Up(after, c, k) == Some(c);
    AncestorsWere(column, forgotten, trunk, moves, c, c, k);
    if !Above(parents, c, c) {
      var f, j :| ThroughTrunk(column, forgotten, trunk, moves, c, c, k, f, j);
      TrunkWalkIsOld(column, forgotten, trunk, moves, c, j);
      if c == trunk || Above(parents, c, trunk) {
        if c != trunk && f != c {
          AboveTransitive(parents, f, c, trunk);
        }
        AboveFirstStep(parents, f, trunk);
        assert ClosesALoop(column, forgotten, trunk, f);
      }
    }
  }

  /** A concrete prune that creates a cycle: trunk recorded on b, b recorded on a forgotten branch. */
  lemma PruneCanCreateACycle()
    ensures var column: map<Name, Name> := map["main" := "b", "b" := "f", "f" := ""];
            var moves: map<Name, Name> := map["b" := "main"];
            && Pruned(column, {"f"}, "main", moves) && Acyclic(Recorded(column))
            && Above(Recorded(After(column, {"f"}, moves)), "b", "b")
            && !AncestryKept(column, {"f"}, "main", moves)
  {
    var column: map<Name, Name> := map["main" := "b", "b" := "f", "f" := ""];
    var moves: map<Name, Name> := map["b" := "main"];
    var parents, kept := Recorded(column), Kept(column, {"f"});
    assert parents == map["main" := "b", "b" := "f"];
    forall c ensures !Above(parents, c, c) {
      NothingAboveItself(parents, c);
    }
    assert Up(parents, "b", 1) == Some("f") && Up(parents, "b", 2) == None;
    assert Climbs(parents, kept, "b", 2);
    assert RunsOut(parents, kept, "b") && Rehomed(column, {"f"}, "main", "b", "main");
    assert moves.Keys == Stranded(column, {"f"});
    assert Up(parents, "main", 1) == Some("b");
    LoopIsACycle(column, {"f"}, "main", moves, "b");
  }

  lemma NothingAboveItself(parents: Parents, c: Name)
    requires parents == map["main" := "b", "b" := "f"]
    ensures !Above(parents, c, c)
  {
    forall k: nat | k >= 1 ensures Up(parents, c, k) != Some(c) {
      assert k >= 2 && c == "main" ==> Up(parents, c, k) == Up(parents, "b", k - 1) == Up(parents, "f", k - 2);
    }
  }
}
