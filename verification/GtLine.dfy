/** The commits an untracked chain is looked for in: the first-parent line above the base, and the
    floor it starts from. */
module GtLine {
  import opened Wrappers
  import opened CommitGraph

  /** The first-parent line from c down, as far as it stays in range. */
  function Line(g: Graph, range: set<nat>, c: nat): (line: seq<nat>)
    requires WellFormed(g) && c < |g|
    ensures forall i :: 0 <= i < |line| ==> line[i] in range && line[i] < |g|
    ensures line != [] ==> line[0] == c
    decreases c
  {
    if c !in range then []
    else if g[c] == [] then [c]
    else [c] + Line(g, range, g[c][0])
  }

  /** Each commit of the line reaches every earlier one, and none repeats. */
  lemma {:induction false} LineDescends(g: Graph, range: set<nat>, c: nat, i: nat, j: nat)
    requires WellFormed(g) && c < |g|
    requires i < j < |Line(g, range, c)|
    ensures Reaches(g, Line(g, range, c)[j], Line(g, range, c)[i])
    ensures Line(g, range, c)[j] < Line(g, range, c)[i]
    decreases j
  {
    var rest := Line(g, range, g[c][0]);
    if i > 0 {
      LineDescends(g, range, g[c][0], i - 1, j - 1);
    } else {
      if j > 1 {
        LineDescends(g, range, g[c][0], 0, j - 1);
      }
      ReachesTransitive(g, rest[j - 1], g[c][0], g[c][0]);
      assert Reaches(g, rest[j - 1], g[c][0]);
    }
  }

  /** Without merges the line is the whole range. */
  lemma {:induction false} LineIsTheRange(g: Graph, floor: nat, tip: nat, c: nat, d: nat)
    requires WellFormed(g) && SingleParent(g) && floor < |g| && tip < |g|
    requires c in Span(g, floor, tip) && d in Span(g, floor, tip) && Reaches(g, c, d)
    ensures c in Line(g, Span(g, floor, tip), d)
    decreases d
  {
    var range := Span(g, floor, tip);
    if c == d {
      assert Line(g, range, d)[0] == c;
    } else {
      var p: nat := g[d][0];
      AncestorsExact(g, tip);
      AncestorsExact(g, floor);
      assert Reaches(g, c, p);
      assert Reaches(g, p, p) && Reaches(g, p, d);
      ReachesTransitive(g, p, d, tip);
      if Reaches(g, p, floor) {
        ReachesTransitive(g, c, p, floor);
      }
      LineIsTheRange(g, floor, tip, c, p);
      assert Line(g, range, d) == [d] + Line(g, range, p);
    }
  }

  /** gtNearestHeld: of the heads a reflog held, the furthest along between the floor and the tip. */
  method NearestHeld(g: Graph, held: seq<nat>, floor: nat, tip: nat) returns (nearest: Option<nat>)
    requires WellFormed(g) && floor < |g| && tip < |g|
    ensures nearest.None? <==> forall h :: h in held ==> h !in Span(g, floor, tip)
    ensures nearest.Some? ==> nearest.value in held && nearest.value in Span(g, floor, tip)
    ensures nearest.Some? ==> NoneFurther(g, held, floor, tip, nearest.value)
  {
    var above := Span(g, floor, tip);
    nearest := None;
    var i := 0;
    while i < |held|
      invariant 0 <= i <= |held|
      invariant nearest.None? <==> forall h :: h in held[..i] ==> h !in above
      invariant nearest.Some? ==> nearest.value in held[..i] && nearest.value in above
      invariant nearest.Some? ==> NoneFurther(g, held[..i], floor, tip, nearest.value)
    {
      var at := held[i];
      assert held[..i + 1] == held[..i] + [at];
      if at in above && nearest != Some(at) && (nearest.None? || Reaches(g, nearest.value, at)) {
        if nearest.Some? {
          forall h: nat | h in held[..i] && h in above && Reaches(g, at, h) ensures h == at {
            ReachesTransitive(g, nearest.value, at, h);
            ReachesAntisymmetric(g, at, h);
          }
        }
        nearest := Some(at);
      }
      i := i + 1;
    }
    assert held[..i] == held;
  }

  /** No held head between the floor and the tip sits above n. */
  ghost predicate NoneFurther(g: Graph, held: seq<nat>, floor: nat, tip: nat, n: nat)
    requires WellFormed(g) && floor < |g| && tip < |g|
  {
    forall h :: h in held && h in Span(g, floor, tip) && Reaches(g, n, h) ==> h == n
  }

  /** Without merges the head chosen has every other held head below it. */
  lemma NearestHoldsTheRest(g: Graph, held: seq<nat>, floor: nat, tip: nat, n: nat, h: nat)
    requires WellFormed(g) && SingleParent(g) && floor < |g| && tip < |g|
    requires n in Span(g, floor, tip) && NoneFurther(g, held, floor, tip, n)
    requires h in held && h in Span(g, floor, tip)
    ensures Reaches(g, h, n)
  {
    AncestorsFormALine(g, h, n, tip);
  }

  /** gtHeadUnder: the nearest head the branch's reflog held under the tip, or the branch's own head. */
  method HeadUnder(g: Graph, held: seq<nat>, head: nat, floor: nat, tip: nat) returns (under: nat)
    requires WellFormed(g) && head < |g| && floor < |g| && tip < |g|
    ensures IsHeadUnder(g, held, head, floor, tip, under)
  {
    var nearest := NearestHeld(g, held, floor, tip);
    under := if nearest.Some? then nearest.value else head;
    if nearest.Some? {
      AncestorsExact(g, tip);
      ReachesBelow(g, under, tip);
    }
  }

  ghost predicate IsHeadUnder(g: Graph, held: seq<nat>, head: nat, floor: nat, tip: nat, under: nat)
    requires WellFormed(g) && floor < |g| && tip < |g|
  {
    && under < |g|
    && if forall h :: h in held ==> h !in Span(g, floor, tip) then under == head
       else under in held && under in Span(g, floor, tip) && NoneFurther(g, held, floor, tip, under)
  }

  /** Without merges the base's own head is never above the floor found for it, so the base is never
      taken for a branch of the chain stacked on it. */
  lemma BaseStaysBelowItsFloor(g: Graph, held: seq<nat>, head: nat, floor: nat, tip: nat, under: nat)
    requires WellFormed(g) && SingleParent(g) && head < |g| && floor < |g| && tip < |g|
    requires held == [] || head in held
    requires IsHeadUnder(g, held, head, floor, tip, under)
    ensures head !in Span(g, under, tip)
  {
    AncestorsExact(g, tip);
    AncestorsExact(g, floor);
    AncestorsExact(g, under);
    if head in Span(g, under, tip) && under != head {
      if head in Span(g, floor, tip) {
        NearestHoldsTheRest(g, held, floor, tip, under, head);
      } else {
        AncestorsFormALine(g, head, under, tip);
        assert Reaches(g, under, head);
        ReachesTransitive(g, under, head, floor);
      }
    }
  }
}
