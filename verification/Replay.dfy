/** Where a branch's own commits start, and the pass that replays each mover onto its parent. */
module Replay {
  import opened Wrappers
  import opened Forest
  import opened CommitGraph

  datatype ReplayOutcome = Replayed(graph: Graph, head: nat) | Conflict | Broken

  /** The git commands a restack reads and replays with. readFails says which branches some read
      command errors for; replay is asked for (onto, from, head). */
  datatype Git = Git(
    mergeBase: (Graph, nat, nat) -> Option<nat>,
    replay: (Graph, nat, nat, nat) -> ReplayOutcome,
    readFails: Name -> bool)

  /** What git promises: merge-base answers a best common ancestor, and a replay that succeeds only
      adds commits and answers one descending from the commit it replayed onto. */
  ghost predicate Honest(git: Git) {
    && (forall g: Graph, a: nat, b: nat ::
      WellFormed(g) && a < |g| && b < |g| && git.mergeBase(g, a, b).Some?
      ==> IsMergeBase(g, a, b, git.mergeBase(g, a, b).value))
    && (forall g: Graph, onto: nat, from: nat, head: nat ::
      WellFormed(g) && onto < |g| && from < |g| && head < |g| && git.replay(g, onto, from, head).Replayed?
      ==> Extends(g, onto, git.replay(g, onto, from, head)))
  }

  ghost predicate Extends(g: Graph, onto: nat, r: ReplayOutcome)
    requires r.Replayed? && onto < |g|
  {
    g <= r.graph && WellFormed(r.graph) && r.head < |r.graph| && Reaches(r.graph, onto, r.head)
  }

  /** Where a branch's own commits start, given its fork point from its parent: there, unless the
      recorded revision is still below the branch and lies past it. */
  function StartFrom(g: Graph, fork: nat, tip: nat, recorded: nat): nat
    requires WellFormed(g) && fork < |g| && tip < |g|
  {
    if !Reaches(g, recorded, tip) || Reaches(g, recorded, fork) then fork else recorded
  }

  /** gtRestackFrom. */
  function RestackFrom(git: Git, g: Graph, tip: nat, recorded: nat, parentHead: nat): (from: Option<nat>)
    requires WellFormed(g) && Honest(git) && tip < |g| && recorded < |g| && parentHead < |g|
    ensures from.Some? ==> from.value < |g|
  {
    match git.mergeBase(g, tip, parentHead)
    case None => None
    case Some(fork) => Some(StartFrom(g, fork, tip, recorded))
  }

  /** The branch's own commits: those reached by neither the parent's head nor a recorded revision
      still below the branch. */
  ghost function OwnCommits(g: Graph, tip: nat, recorded: nat, parentHead: nat): set<nat>
    requires WellFormed(g) && tip < |g| && recorded < |g| && parentHead < |g|
  {
    set c | c in Ancestors(g, tip) && c !in Ancestors(g, parentHead)
            && !(Reaches(g, recorded, tip) && c in Ancestors(g, recorded))
  }

  /** Whatever the history's shape, the replayed span leaves out none of the branch's own commits. */
  lemma SpanKeepsOwnCommits(g: Graph, tip: nat, recorded: nat, parentHead: nat, fork: nat)
    requires WellFormed(g) && tip < |g| && recorded < |g| && parentHead < |g|
    requires IsMergeBase(g, tip, parentHead, fork)
    ensures OwnCommits(g, tip, recorded, parentHead) <= Span(g, StartFrom(g, fork, tip, recorded), tip)
  {
    AncestorsExact(g, parentHead);
    AncestorsExact(g, fork);
    forall c | c in OwnCommits(g, tip, recorded, parentHead) ensures c !in Ancestors(g, fork) {
      if Reaches(g, c, fork) {
        ReachesTransitive(g, c, fork, parentHead);
      }
    }
  }

  /** Without merges the replayed span is exactly the branch's own commits. */
  lemma SpanIsOwnCommits(g: Graph, tip: nat, recorded: nat, parentHead: nat, fork: nat)
    requires WellFormed(g) && SingleParent(g) && tip < |g| && recorded < |g| && parentHead < |g|
    requires IsMergeBase(g, tip, parentHead, fork)
    ensures Span(g, StartFrom(g, fork, tip, recorded), tip) == OwnCommits(g, tip, recorded, parentHead)
  {
    SpanKeepsOwnCommits(g, tip, recorded, parentHead, fork);
    MergeBaseIsSharedHistory(g, tip, parentHead, fork);
    AncestorsExact(g, recorded);
    AncestorsExact(g, fork);
    if Reaches(g, recorded, tip) {
      AncestorsFormALine(g, recorded, fork, tip);
      if Reaches(g, recorded, fork) {
        forall c: nat | Reaches(g, c, recorded) ensures Reaches(g, c, fork) {
          ReachesTransitive(g, c, recorded, fork);
        }
      } else {
        forall c: nat | Reaches(g, c, fork) ensures Reaches(g, c, recorded) {
          ReachesTransitive(g, c, fork, recorded);
        }
      }
    }
  }

  /** gtRestackOwnWork: the span counted with and without what trunk already carries. */
  predicate OwnWork(g: Graph, pin: nat, tip: nat, from: nat)
    requires WellFormed(g) && pin < |g| && tip < |g| && from < |g|
  {
    |Span(g, from, tip)| == |Span(g, from, tip) - Ancestors(g, pin)|
  }

  /** The two counts agree exactly when no commit of the span is already in trunk. */
  lemma EqualCountsMeanNoTrunkCommit(g: Graph, pin: nat, tip: nat, from: nat)
    requires WellFormed(g) && pin < |g| && tip < |g| && from < |g|
    ensures OwnWork(g, pin, tip, from) <==> Span(g, from, tip) !! Ancestors(g, pin)
  {
    var span, landed := Span(g, from, tip), Ancestors(g, pin);
    assert span == (span - landed) + (span * landed);
    assert |span| == |span - landed| + |span * landed|;
    if span !! landed {
      assert span * landed == {};
    }
  }

  /** The git merge-base --fork-point exit: a commit from the reflog, none, or an error. */
  datatype ForkAnswer = Forked(at: nat) | NoFork | ForkFailed

  /** restackGitForkPoint: the reflog's fork point, else the merge base with the pinned parent. */
  function ForkPoint(git: Git, g: Graph, answer: ForkAnswer, pin: nat, head: nat): Option<nat> {
    match answer
    case Forked(at) => Some(at)
    case NoFork => git.mergeBase(g, pin, head)
    case ForkFailed => None
  }

  /** restackGitNearerBase: the later of the two fork points, refused on separate lines of history. */
  function NearerBase(g: Graph, base: nat, wasBase: nat): Option<nat>
    requires WellFormed(g) && base < |g| && wasBase < |g|
  {
    if Reaches(g, base, wasBase) then Some(wasBase)
    else if Reaches(g, wasBase, base) then Some(base)
    else None
  }

  /** The choice excludes exactly what either fork point reaches, and it refuses exactly when no
      single commit does. */
  lemma NearerBaseExcludesBoth(g: Graph, base: nat, wasBase: nat)
    requires WellFormed(g) && base < |g| && wasBase < |g|
    ensures NearerBase(g, base, wasBase).Some? ==>
              Ancestors(g, NearerBase(g, base, wasBase).value) == Ancestors(g, base) + Ancestors(g, wasBase)
    ensures NearerBase(g, base, wasBase).None? <==>
            !exists c :: 0 <= c < |g| && Ancestors(g, c) == Ancestors(g, base) + Ancestors(g, wasBase)
  {
    AncestorsExact(g, base);
    AncestorsExact(g, wasBase);
    if Reaches(g, base, wasBase) {
      forall c: nat | Reaches(g, c, base) ensures Reaches(g, c, wasBase) {
        ReachesTransitive(g, c, base, wasBase);
      }
      assert Ancestors(g, wasBase) == Ancestors(g, base) + Ancestors(g, wasBase);
    } else if Reaches(g, wasBase, base) {
      forall c: nat | Reaches(g, c, wasBase) ensures Reaches(g, c, base) {
        ReachesTransitive(g, c, wasBase, base);
      }
      assert Ancestors(g, base) == Ancestors(g, base) + Ancestors(g, wasBase);
    } else {
      forall c | 0 <= c < |g| ensures Ancestors(g, c) != Ancestors(g, base) + Ancestors(g, wasBase) {
        AncestorsExact(g, c);
        if Ancestors(g, c) == Ancestors(g, base) + Ancestors(g, wasBase) {
          assert c in Ancestors(g, c);
          assert base in Ancestors(g, base) && wasBase in Ancestors(g, wasBase);
          if Reaches(g, c, base) {
            ReachesAntisymmetric(g, c, base);
          } else {
            ReachesAntisymmetric(g, c, wasBase);
          }
          assert false;
        }
      }
    }
  }

  /** Without merges two fork points of one head are never on separate lines, so a branch moving off one
      parent onto another replays exactly the commits neither fork point reaches. */
  lemma NearerBaseIsNeverRefused(g: Graph, base: nat, wasBase: nat, head: nat)
    requires WellFormed(g) && SingleParent(g) && base < |g| && wasBase < |g| && head < |g|
    requires Reaches(g, base, head) && Reaches(g, wasBase, head)
    ensures NearerBase(g, base, wasBase).Some?
    ensures Span(g, NearerBase(g, base, wasBase).value, head) == Ancestors(g, head) - Ancestors(g, base)
            - Ancestors(g, wasBase)
  {
    AncestorsFormALine(g, base, wasBase, head);
    NearerBaseExcludesBoth(g, base, wasBase);
  }

  /** What a fork point leaves out: what the reflog's commit reaches, else what the pinned parent does. */
  ghost function LeftOut(g: Graph, answer: ForkAnswer, pin: nat): set<nat>
    requires WellFormed(g) && pin < |g| && (answer.Forked? ==> answer.at < |g|)
  {
    match answer
    case Forked(at) => Ancestors(g, at)
    case _ => Ancestors(g, pin)
  }

  /** git answers a fork point only from the branch's own history. */
  ghost predicate ForksBelow(g: Graph, answer: ForkAnswer, head: nat)
    requires WellFormed(g) && head < |g|
  {
    answer.Forked? ==> answer.at < |g| && Reaches(g, answer.at, head)
  }

  lemma ForkLeavesOut(git: Git, g: Graph, answer: ForkAnswer, pin: nat, head: nat)
    requires WellFormed(g) && SingleParent(g) && Honest(git) && pin < |g| && head < |g| && ForksBelow(g, answer, head)
    ensures answer.ForkFailed? ==> ForkPoint(git, g, answer, pin, head).None?
    ensures answer.Forked? ==> ForkPoint(git, g, answer, pin, head).Some?
    ensures answer.NoFork? ==> (ForkPoint(git, g, answer, pin, head).None? <==> git.mergeBase(g, pin, head).None?)
    ensures ForkPoint(git, g, answer, pin, head).Some? ==>
              var base := ForkPoint(git, g, answer, pin, head).value;
              && base < |g| && Reaches(g, base, head)
              && Ancestors(g, head) - Ancestors(g, base) == Ancestors(g, head) - LeftOut(g, answer, pin)
  {
    if answer.NoFork? && git.mergeBase(g, pin, head).Some? {
      var base := git.mergeBase(g, pin, head).value;
      MergeBaseIsSharedHistory(g, pin, head, base);
      hide Reaches;
    }
  }

  /** Moving off one parent onto another replays exactly the commits left out by neither fork point: what the
      reflog's fork does not reach where it remembers one, and what the parent's head does not reach where not. */
  lemma MovedSpanIsOwnWork(git: Git, g: Graph, onto: ForkAnswer, was: ForkAnswer, pin: nat, wasPin: nat, head: nat)
    requires WellFormed(g) && SingleParent(g) && Honest(git) && pin < |g| && wasPin < |g| && head < |g|
    requires ForksBelow(g, onto, head) && ForksBelow(g, was, head)
    requires ForkPoint(git, g, onto, pin, head).Some? && ForkPoint(git, g, was, wasPin, head).Some?
    ensures var base := ForkPoint(git, g, onto, pin, head).value;
            var wasBase := ForkPoint(git, g, was, wasPin, head).value;
      && base < |g| && wasBase < |g| && NearerBase(g, base, wasBase).Some?
      && Span(g, NearerBase(g, base, wasBase).value, head)
         == Ancestors(g, head) - LeftOut(g, onto, pin) - LeftOut(g, was, wasPin)
  {
    hide LeftOut, ForkPoint;
    var base, wasBase := ForkPoint(git, g, onto, pin, head).value, ForkPoint(git, g, was, wasPin, head).value;
    ForkLeavesOut(git, g, onto, pin, head);
    ForkLeavesOut(git, g, was, wasPin, head);
    NearerBaseIsNeverRefused(g, base, wasBase, head);
    hide Ancestors, IsMergeBase, Reaches;
    var all := Ancestors(g, head);
    assert all - Ancestors(g, base) - Ancestors(g, wasBase)
        == (all - Ancestors(g, base)) * (all - Ancestors(g, wasBase));
    assert all - LeftOut(g, onto, pin) - LeftOut(g, was, wasPin)
        == (all - LeftOut(g, onto, pin)) * (all - LeftOut(g, was, wasPin));
  }
}
