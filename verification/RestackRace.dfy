/** A concrete race the transaction does not see: trunk advances between the read and the publish. */
module RestackRace {
  import opened Wrappers
  import opened Forest
  import opened CommitGraph
  import opened RestackPlan
  import opened Replay
  import opened ReplayChain
  import opened RestackTheorem
  import opened Restack
  import opened RestackReread

  /** A root, a feature commit on it, and a trunk commit on it. */
  function History(): Graph { [[], [0], [0]] }

  /** The history once the feature has been replayed onto trunk. */
  function Replayed(): Graph { [[], [0], [0], [2]] }

  /** Git, asked the two questions this restack comes to. */
  function Asked(): Git {
    Git(
      (g: Graph, a: nat, b: nat) => if g == History() && a == 1 && b == 2 then Some(0) else None,
      (g: Graph, onto: nat, from: nat, head: nat) =>
        if g == History() && onto == 2 && from == 0 && head == 1
        then ReplayOutcome.Replayed(Replayed(), 3) else Conflict,
      (b: Name) => false)
  }

  function Rows(): map<Name, Row> {
    map["main" := Row("", 0, Valid, ""), "f" := Row("main", 0, Valid, "")]
  }

  function Read(): map<Name, nat> { map["main" := 2, "f" := 1] }

  function Planned(): State {
    map["main" := Branch(true, false, 2, "", []), "f" := Branch(false, true, 1, "", [Parent("main", 0)])]
  }

  function Set(): Setting { Setting(Asked(), History(), Planned(), Pin("main", 2), Read()) }

  function Outcome(): Done {
    Done(Set(), ["f"], map[], Pass(Replayed(), [Move("f", 3, 2, 1, None)]))
  }

  lemma HistoryReaches()
    ensures WellFormed(History()) && WellFormed(Replayed()) && History() <= Replayed()
    ensures forall a: nat :: Reaches(History(), a, 0) <==> a == 0
    ensures forall a: nat :: Reaches(History(), a, 1) <==> a == 0 || a == 1
    ensures forall a: nat :: Reaches(History(), a, 2) <==> a == 0 || a == 2
    ensures Reaches(Replayed(), 2, 3)
  {
    var g, after := History(), Replayed();
    assert g[1][0] == 0 && g[2][0] == 0 && after[3][0] == 2;
    assert forall a: nat :: Reaches(g, a, 0) <==> a == 0;
    assert forall a: nat :: Reaches(g, a, 1) <==> a == 1 || Reaches(g, a, g[1][0]);
    assert forall a: nat :: Reaches(g, a, 2) <==> a == 2 || Reaches(g, a, g[2][0]);
    assert Reaches(after, 2, after[3][0]);
  }

  lemma AskedIsHonest()
    ensures Honest(Asked())
  {
    HistoryReaches();
    hide Reaches;
    assert IsMergeBase(History(), 1, 2, 0);
    assert Extends(History(), 2, ReplayOutcome.Replayed(Replayed(), 3));
  }

  lemma PlanIsRead()
    ensures ReadState(Rows(), Read(), "main") == Planned()
    ensures Walkable(Planned(), ["f"]) && Movers(Planned(), ["f"]) == ["f"] && ParentsFirst(Planned(), ["f"])
    ensures forall b :: !HeldBack(Planned(), ["f"], b)
  {
    StateIsPlanned();
    hide ReadState;
    assert ["f"][..0] == [];
    assert Movers(Planned(), []) == [];
  }

  lemma StateIsPlanned()
    ensures ReadState(Rows(), Read(), "main") == Planned()
  {
  }

  lemma SetIsSound()
    ensures Sound(Set()) && Ready(Set(), ["f"])
  {
    AskedIsHonest();
    HistoryReaches();
    PlanIsRead();
    hide Honest, Reaches, ReadState, Movers, HeldBack, Asked, WellFormed, Replayed;
  }

  lemma FeatureOwnsOneCommit()
    ensures WellFormed(History()) && OwnWork(History(), 2, 1, 0)
    ensures StartFrom(History(), 0, 1, 0) == 0 && !Reaches(History(), 1, 2)
  {
    HistoryReaches();
    var g := History();
    hide Reaches;
    assert Span(g, 0, 1) == {1};
    assert Ancestors(g, 2) == {0, 2};
    assert Span(g, 0, 1) - Ancestors(g, 2) == {1};
  }

  lemma FeatureLandsOnTrunk()
    ensures Sound(Set()) && LandingOf(Set(), map["main" := 2], "f") == Some(Landing(2, "main", None))
    ensures RestackFrom(Asked(), History(), 1, 0, 2) == Some(0)
  {
    SetIsSound();
    FeatureOwnsOneCommit();
    hide Sound, Reaches, StartFrom;
  }

  lemma FeatureIsReplayed()
    ensures Ready(Set(), ["f"]) && ReplayUpTo(Set(), ["f"], 1) == Success(Outcome().pass)
  {
    SetIsSound();
    FeatureLandsOnTrunk();
    FeatureOwnsOneCommit();
    var s := Set();
    NothingMoved(s.pin);
    hide Sound, Ready, Reaches, OwnWork, RestackFrom, LandingOf, MovedHeads;
    var start := Pass(s.graph, []);
    assert ReplayUpTo(s, ["f"], 0) == Success(start);
    assert ["f"][1..] == [];
    assert MovedHeads(s.pin, start.moves) == map["main" := 2];
    assert s.state["f"].parents[0].sha == 0 && s.live["f"] == 1 && s.state["main"].head == 2;
    assert s.git.replay(start.graph, 2, 0, s.state["f"].head) == ReplayOutcome.Replayed(Replayed(), 3);
    assert [] + [Move("f", 3, 2, 1, None)] == [Move("f", 3, 2, 1, None)];
    assert ReplayOne(s, start, "f", []) == Success(Outcome().pass);
  }

  lemma PlanIsGiven()
    ensures Given(Asked(), History(), Planned(), Read(), ["f"])
  {
    AskedIsHonest();
    HistoryReaches();
    PlanIsRead();
    hide Honest, Reaches, ReadState, HeldBack, Movers;
  }

  lemma NothingAdded()
    ensures OnlyAddsHolds(Planned(), Planned())
  {
  }

  lemma OutcomeIsFinished()
    ensures Finished(Asked(), History(), Planned(), Read(), ["f"], Outcome())
  {
    PlanIsRead();
    FeatureIsReplayed();
    PassSettles(Set(), ["f"], 1, Outcome().pass);
    NothingAdded();
    hide AllSettled, ReplayUpTo, ReadState, Ready, HeldBack, Asked, History, Replayed, Movers, ParentsFirst,
         OnlyAddsHolds;
  }

  lemma OutcomeRanOver()
    ensures RanOver(Rows(), Read(), "main", Asked(), History(), Read(), ["f"], Outcome())
  {
    PlanIsRead();
    PlanIsGiven();
    OutcomeIsFinished();
    hide ReadState, Given, Finished, Asked, History, Replayed, Movers, HeldBack;
  }

  lemma PublishGoesThrough()
    ensures (forall m :: m in Outcome().pass.moves ==> m.branch in Planned())
    ensures Unmoved(map["main" := 4, "f" := 1], Updates(Planned(), Outcome().pass.moves))
    ensures !Moved(Outcome().pass.moves, "main")
  {
    hide Asked, History, Replayed;
  }

  /** The restack publishes and records f on trunk's old head: every ref it moves is where the plan read it,
      and trunk, which it does not move, is not. */
  lemma TrunkCanAdvanceUnseen()
    ensures var at: map<Name, nat> := map["main" := 4, "f" := 1];
            && RanOver(Rows(), Read(), "main", Asked(), History(), Read(), ["f"], Outcome())
            && Unmoved(at, Updates(Planned(), Outcome().pass.moves))
            && !LandedWhereRecorded(RowsAfter(Rows(), Outcome(), true, true), RefsAfter(at, Outcome()), Outcome(),
                                    Outcome().pass.moves[0])
  {
    var at: map<Name, nat> := map["main" := 4, "f" := 1];
    PublishGoesThrough();
    OutcomeRanOver();
    hide RanOver, LandedWhereRecorded, RowsAfter, Applied, Updates, Unmoved, Asked, History, Replayed, Moved;
    MovedLandsWhereRecorded(Rows(), Read(), Rows(), at, "main", Asked(), History(), Read(), ["f"], Outcome(), 0);
    assert FinalParent(Planned(), Outcome().pass.moves[0]) == "main";
  }
}
