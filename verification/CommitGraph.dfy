/** A finite commit graph, the part of git every restack question is asked of.

    Commits are numbered in creation order, so each commit's parents carry smaller numbers and the
    graph is acyclic by construction. Replaying work only ever appends commits. */
module CommitGraph {
  type Graph = seq<seq<nat>>

  predicate WellFormed(g: Graph) {
    forall c, i :: 0 <= c < |g| && 0 <= i < |g[c]| ==> g[c][i] < c
  }

  /** Every commit has at most one parent: no merges. */
  predicate SingleParent(g: Graph) {
    forall c :: 0 <= c < |g| ==> |g[c]| <= 1
  }

  /** git merge-base --is-ancestor a d: a commit is its own ancestor. */
  predicate Reaches(g: Graph, a: nat, d: nat)
    requires WellFormed(g) && d < |g|
    decreases d
  {
    a == d || exists i :: 0 <= i < |g[d]| && Reaches(g, a, g[d][i])
  }

  function Ancestors(g: Graph, d: nat): (s: set<nat>)
    requires WellFormed(g) && d < |g|
  {
    set a | 0 <= a <= d && Reaches(g, a, d)
  }

  /** The commits git rev-list from..head lists. */
  function Span(g: Graph, from: nat, head: nat): set<nat>
    requires WellFormed(g) && from < |g| && head < |g|
  {
    Ancestors(g, head) - Ancestors(g, from)
  }

  lemma {:induction false} ReachesBelow(g: Graph, a: nat, d: nat)
    requires WellFormed(g) && d < |g| && Reaches(g, a, d)
    ensures a <= d
    decreases d
  {
    if a != d {
      var i :| 0 <= i < |g[d]| && Reaches(g, a, g[d][i]);
      ReachesBelow(g, a, g[d][i]);
    }
  }

  lemma AncestorsExact(g: Graph, d: nat)
    requires WellFormed(g) && d < |g|
    ensures forall a: nat :: a in Ancestors(g, d) <==> Reaches(g, a, d)
  {
    forall a: nat | Reaches(g, a, d) ensures a <= d {
      ReachesBelow(g, a, d);
    }
  }

  lemma {:induction false} ReachesTransitive(g: Graph, a: nat, b: nat, d: nat)
    requires WellFormed(g) && b < |g| && d < |g|
    requires Reaches(g, a, b) && Reaches(g, b, d)
    ensures Reaches(g, a, d)
    decreases d
  {
    if b != d {
      var i :| 0 <= i < |g[d]| && Reaches(g, b, g[d][i]);
      ReachesTransitive(g, a, b, g[d][i]);
    }
  }

  /** Two commits that reach each other are the same commit. */
  lemma ReachesAntisymmetric(g: Graph, a: nat, b: nat)
    requires WellFormed(g) && a < |g| && b < |g|
    requires Reaches(g, a, b) && Reaches(g, b, a)
    ensures a == b
  {
    ReachesBelow(g, a, b);
    ReachesBelow(g, b, a);
  }

  /** Appending commits changes no question asked about older ones. */
  lemma {:induction false} ReachesStable(g: Graph, g': Graph, a: nat, d: nat)
    requires WellFormed(g) && WellFormed(g') && g <= g' && d < |g|
    ensures Reaches(g, a, d) == Reaches(g', a, d)
    decreases d
  {
    forall i | 0 <= i < |g[d]| ensures Reaches(g, a, g[d][i]) == Reaches(g', a, g'[d][i]) {
      ReachesStable(g, g', a, g[d][i]);
    }
  }

  lemma AncestorsStable(g: Graph, g': Graph, d: nat)
    requires WellFormed(g) && WellFormed(g') && g <= g' && d < |g|
    ensures Ancestors(g, d) == Ancestors(g', d)
  {
    forall a: nat ensures Reaches(g, a, d) == Reaches(g', a, d) {
      ReachesStable(g, g', a, d);
    }
  }

  /** Without merges, the ancestors of a commit form a line. */
  lemma {:induction false} AncestorsFormALine(g: Graph, a: nat, b: nat, d: nat)
    requires WellFormed(g) && SingleParent(g) && a < |g| && b < |g| && d < |g|
    requires Reaches(g, a, d) && Reaches(g, b, d)
    ensures Reaches(g, a, b) || Reaches(g, b, a)
    decreases d
  {
    if a != d && b != d {
      AncestorsFormALine(g, a, b, g[d][0]);
    }
  }

  /** A best common ancestor: git merge-base answers one of these, and fails when there is none. */
  ghost predicate IsMergeBase(g: Graph, a: nat, b: nat, m: nat)
    requires WellFormed(g) && a < |g| && b < |g|
  {
    && m < |g| && Reaches(g, m, a) && Reaches(g, m, b)
    && forall c: nat :: c < |g| && Reaches(g, c, a) && Reaches(g, c, b) && Reaches(g, m, c) ==> c == m
  }

  /** Without merges the best common ancestor is below every common ancestor's descendants: it
      reaches, and is reached through, exactly the shared history. */
  lemma MergeBaseIsSharedHistory(g: Graph, a: nat, b: nat, m: nat)
    requires WellFormed(g) && SingleParent(g) && a < |g| && b < |g|
    requires IsMergeBase(g, a, b, m)
    ensures Ancestors(g, a) * Ancestors(g, b) == Ancestors(g, m)
  {
    AncestorsExact(g, a);
    AncestorsExact(g, b);
    AncestorsExact(g, m);
    forall c: nat | c in Ancestors(g, a) * Ancestors(g, b) ensures c in Ancestors(g, m) {
      AncestorsFormALine(g, c, m, a);
      assert Reaches(g, c, m) || c == m;
    }
    forall c: nat | c in Ancestors(g, m) ensures c in Ancestors(g, a) * Ancestors(g, b) {
      ReachesTransitive(g, c, m, a);
      ReachesTransitive(g, c, m, b);
    }
  }
}
