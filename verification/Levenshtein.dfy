/** Edit distance between flag names. */
module Levenshtein {
  newtype byte = b: int | 0 <= b < 256

  type Text = seq<byte>

  datatype Edit = Insert(at: nat, c: byte) | Delete(at: nat) | Replace(at: nat, c: byte)

  predicate Fits(e: Edit, s: Text) {
    match e
    case Insert(at, _) => at <= |s|
    case Delete(at) => at < |s|
    case Replace(at, _) => at < |s|
  }

  function Edited(s: Text, e: Edit): Text
    requires Fits(e, s)
  {
    match e
    case Insert(at, c) => s[..at] + [c] + s[at..]
    case Delete(at) => s[..at] + s[at + 1..]
    case Replace(at, c) => s[at := c]
  }

  ghost predicate OneEdit(s: Text, t: Text) {
    exists e :: Fits(e, s) && Edited(s, e) == t
  }

  /** path turns a into b one byte insertion, deletion or substitution at a time. */
  ghost predicate Turns(path: seq<Text>, a: Text, b: Text) {
    && path != [] && path[0] == a && path[|path| - 1] == b
    && forall i :: 0 <= i < |path| - 1 ==> OneEdit(path[i], path[i + 1])
  }

  function Min3(x: nat, y: nat, z: nat): (m: nat) {
    if x <= y && x <= z then x else if y <= z then y else z
  }

  function Front(s: Text): Text
    requires s != []
  {
    s[..|s| - 1]
  }

  function Last(s: Text): byte
    requires s != []
  {
    s[|s| - 1]
  }

  /** The recurrence the two rows fill in. */
  function Distance(a: Text, b: Text): nat
    decreases |a| + |b|
  {
    if a == [] then |b|
    else if b == [] then |a|
    else Min3(Distance(a, Front(b)) + 1, Distance(Front(a), b) + 1,
              Distance(Front(a), Front(b)) + if Last(a) == Last(b) then 0 else 1)
  }

  /** levenshtein: two rows, each cell from its left, upper and diagonal neighbours. */
  method Compute(a: Text, b: Text) returns (d: nat)
    ensures d == Distance(a, b)
  {
    hide Distance;
    var prev := new nat[|b| + 1](j => j);
    forall j | 0 <= j <= |b| ensures Distance(a[..0], b[..j]) == j {
      FromNothing(b[..j]);
    }
    var i := 1;
    while i <= |a|
      invariant 1 <= i <= |a| + 1
      invariant prev.Length == |b| + 1
      invariant forall j :: 0 <= j <= |b| ==> prev[j] == Distance(a[..i - 1], b[..j])
    {
      var cur := new nat[|b| + 1];
      cur[0] := i;
      ToNothing(a[..i]);
      var j := 1;
      while j <= |b|
        invariant 1 <= j <= |b| + 1
        invariant forall k :: 0 <= k <= |b| ==> prev[k] == Distance(a[..i - 1], b[..k])
        invariant forall k :: 0 <= k < j ==> cur[k] == Distance(a[..i], b[..k])
      {
        assert Front(a[..i]) == a[..i - 1] && Front(b[..j]) == b[..j - 1];
        Recurrence(a[..i], b[..j]);
        var cost := 1;
        if a[i - 1] == b[j - 1] {
          cost := 0;
        }
        cur[j] := Min3(cur[j - 1] + 1, prev[j] + 1, prev[j - 1] + cost);
        j := j + 1;
      }
      prev := cur;
      i := i + 1;
    }
    assert a[..i - 1] == a && b[..|b|] == b;
    return prev[|b|];
  }

  lemma {:induction false} DistanceToSelf(a: Text)
    ensures Distance(a, a) == 0
    decreases |a|
  {
    if a != [] {
      DistanceToSelf(Front(a));
    }
  }

  lemma {:induction false} DistanceSymmetric(a: Text, b: Text)
    ensures Distance(a, b) == Distance(b, a)
    decreases |a| + |b|
  {
    if a != [] && b != [] {
      DistanceSymmetric(a, Front(b));
      DistanceSymmetric(Front(a), b);
      DistanceSymmetric(Front(a), Front(b));
    }
  }

  /** Dropping a final byte moves the distance to any text by at most one. */
  lemma {:induction false} DropLast(s: Text, b: Text)
    requires s != []
    ensures Distance(s, b) <= Distance(Front(s), b) + 1
    ensures Distance(Front(s), b) <= Distance(s, b) + 1
    decreases |b|
  {
    if b != [] {
      DropLast(s, Front(b));
      AddLastToSecond(Front(s), b);
    }
  }

  lemma {:induction false} AddLastToSecond(a: Text, b: Text)
    requires b != []
    ensures Distance(a, b) <= Distance(a, Front(b)) + 1
  {
  }

  /** One edit moves the distance to any text by at most one. */
  lemma {:induction false} OneEditMovesByOne(s: Text, e: Edit, b: Text)
    requires Fits(e, s)
    ensures Distance(s, b) <= Distance(Edited(s, e), b) + 1
    decreases |s| + |b|
  {
    var t := Edited(s, e);
    if e.Insert? && e.at == |s| {
      assert Front(t) == s;
      DropLast(t, b);
    } else if e.Delete? && e.at == |s| - 1 {
      assert t == Front(s);
      DropLast(s, b);
    } else if e.Replace? && e.at == |s| - 1 {
      assert Front(t) == Front(s);
      if b != [] {
        OneEditMovesByOne(s, e, Front(b));
        AddLastToSecond(s, b);
        DropLast(s, b);
      }
    } else {
      EditInsidePrefix(s, e, b);
    }
  }

  /** An edit before the last byte is the same edit of the front, under the same last byte. */
  lemma {:induction false} EditInsidePrefix(s: Text, e: Edit, b: Text)
    requires Fits(e, s) && s != [] && (if e.Insert? then e.at < |s| else e.at < |s| - 1)
    ensures Distance(s, b) <= Distance(Edited(s, e), b) + 1
    decreases |s| + |b|, 0
  {
    hide Edited, Fits, Distance;
    EditsUnderLast(s, e);
    var t := Edited(s, e);
    OneEditMovesByOne(Front(s), e, b);
    if b != [] {
      OneEditMovesByOne(s, e, Front(b));
      OneEditMovesByOne(Front(s), e, Front(b));
    }
    SameLastMovesByOne(s, t, b);
  }

  lemma EditsUnderLast(s: Text, e: Edit)
    requires Fits(e, s) && s != [] && (if e.Insert? then e.at < |s| else e.at < |s| - 1)
    ensures Fits(e, Front(s)) && Edited(s, e) != []
    ensures Front(Edited(s, e)) == Edited(Front(s), e) && Last(Edited(s, e)) == Last(s)
  {
  }

  /** Texts with one last byte are no farther apart from b than their fronts are. */
  lemma {:induction false} SameLastMovesByOne(s: Text, t: Text, b: Text)
    requires s != [] && t != [] && Last(s) == Last(t)
    requires Distance(Front(s), b) <= Distance(Front(t), b) + 1
    requires b != [] ==> Distance(s, Front(b)) <= Distance(t, Front(b)) + 1
    requires b != [] ==> Distance(Front(s), Front(b)) <= Distance(Front(t), Front(b)) + 1
    ensures Distance(s, b) <= Distance(t, b) + 1
  {
    hide Distance;
    if b == [] {
      ToNothing(s);
      ToNothing(t);
      ToNothing(Front(s));
      ToNothing(Front(t));
    } else {
      Recurrence(s, b);
      Recurrence(t, b);
    }
  }

  lemma FromNothing(b: Text)
    ensures Distance([], b) == |b|
  {
  }

  lemma ToNothing(a: Text)
    ensures Distance(a, []) == |a|
  {
  }

  lemma {:induction false} Recurrence(a: Text, b: Text)
    requires a != [] && b != []
    ensures Distance(a, b) == Min3(Distance(a, Front(b)) + 1, Distance(Front(a), b) + 1,
                                   Distance(Front(a), Front(b)) + if Last(a) == Last(b) then 0 else 1)
  {
  }

  /** No path is shorter than the distance. */
  lemma {:induction false} NoShorterPath(path: seq<Text>, a: Text, b: Text)
    requires Turns(path, a, b)
    ensures Distance(a, b) <= |path| - 1
    decreases |path|
  {
    if |path| == 1 {
      DistanceToSelf(a);
    } else {
      assert OneEdit(path[0], path[1]);
      var e :| Fits(e, a) && Edited(a, e) == path[1];
      OneEditMovesByOne(a, e, b);
      NoShorterPath(path[1..], path[1], b);
    }
  }

  lemma {:induction false} ShortestPath(a: Text, b: Text) returns (path: seq<Text>)
    ensures Turns(path, a, b) && |path| == Distance(a, b) + 1
    decreases |a| + |b|
  {
    hide Turns;
    if a == [] && b == [] {
      path := StandStill(a);
    } else if b != [] && Distance(a, b) == Distance(a, Front(b)) + 1 {
      path := ShortestPath(a, Front(b));
      path := EndWithInsert(path, a, b);
    } else if a != [] && Distance(a, b) == Distance(Front(a), b) + 1 {
      path := ShortestPath(Front(a), b);
      path := StartWithDelete(path, a, b);
    } else {
      path := ShortestPath(Front(a), Front(b));
      path := UnderLast(path, Front(a), Front(b), Last(a));
      assert Front(a) + [Last(a)] == a;
      if Last(a) != Last(b) {
        path := EndWithReplace(path, a, b, Last(a));
      } else {
        assert Front(b) + [Last(a)] == b;
      }
    }
  }

  lemma StandStill(a: Text) returns (path: seq<Text>)
    ensures path == [a] && Turns(path, a, a)
  {
    path := [a];
  }

  lemma EndWith(path: seq<Text>, a: Text, near: Text, b: Text) returns (longer: seq<Text>)
    requires Turns(path, a, near) && OneEdit(near, b)
    ensures |longer| == |path| + 1 && Turns(longer, a, b)
  {
    longer := path + [b];
    forall i | 0 <= i < |longer| - 1 ensures OneEdit(longer[i], longer[i + 1]) {
      if i < |path| - 1 {
        assert OneEdit(path[i], path[i + 1]);
      }
    }
  }

  lemma EndWithInsert(path: seq<Text>, a: Text, b: Text) returns (longer: seq<Text>)
    requires b != [] && Turns(path, a, Front(b))
    ensures |longer| == |path| + 1 && Turns(longer, a, b)
  {
    assert Edited(Front(b), Insert(|b| - 1, Last(b))) == b;
    longer := EndWith(path, a, Front(b), b);
  }

  lemma EndWithReplace(path: seq<Text>, a: Text, b: Text, c: byte) returns (longer: seq<Text>)
    requires b != [] && Turns(path, a, Front(b) + [c])
    ensures |longer| == |path| + 1 && Turns(longer, a, b)
  {
    assert Edited(Front(b) + [c], Replace(|b| - 1, Last(b))) == b;
    longer := EndWith(path, a, Front(b) + [c], b);
  }

  lemma StartWithDelete(path: seq<Text>, a: Text, b: Text) returns (longer: seq<Text>)
    requires a != [] && Turns(path, Front(a), b)
    ensures |longer| == |path| + 1 && Turns(longer, a, b)
  {
    assert Edited(a, Delete(|a| - 1)) == Front(a);
    longer := [a] + path;
    forall i | 0 <= i < |longer| - 1 ensures OneEdit(longer[i], longer[i + 1]) {
      if i > 0 {
        assert OneEdit(path[i - 1], path[i]);
      }
    }
  }

  /** The same edits, made in front of one more byte. */
  lemma UnderLast(path: seq<Text>, a: Text, b: Text, c: byte) returns (under: seq<Text>)
    requires Turns(path, a, b)
    ensures |under| == |path| && Turns(under, a + [c], b + [c])
  {
    hide OneEdit;
    under := seq(|path|, i requires 0 <= i < |path| => path[i] + [c]);
    forall i | 0 <= i < |under| - 1 ensures OneEdit(under[i], under[i + 1]) {
      assert OneEdit(path[i], path[i + 1]);
      OneEditUnder(path[i], path[i + 1], c);
    }
  }

  lemma OneEditUnder(a: Text, b: Text, c: byte)
    requires OneEdit(a, b)
    ensures OneEdit(a + [c], b + [c])
  {
    var e :| Fits(e, a) && Edited(a, e) == b;
    assert Edited(a + [c], e) == b + [c];
  }

  /** The distance is the least number of edits turning a into b. */
  lemma DistanceIsTheLeastEdits(a: Text, b: Text)
    ensures exists path :: Turns(path, a, b) && |path| - 1 == Distance(a, b)
    ensures forall path :: Turns(path, a, b) ==> |path| - 1 >= Distance(a, b)
  {
    var path := ShortestPath(a, b);
    forall other | Turns(other, a, b) ensures |other| - 1 >= Distance(a, b) {
      NoShorterPath(other, a, b);
    }
  }

  /** Going by way of b is no shorter. */
  lemma {:induction false} Triangle(a: Text, b: Text, c: Text)
    ensures Distance(a, c) <= Distance(a, b) + Distance(b, c)
  {
    hide Distance, OneEdit;
    var first := ShortestPath(a, b);
    var second := ShortestPath(b, c);
    var whole := first + second[1..];
    forall i | 0 <= i < |whole| - 1 ensures OneEdit(whole[i], whole[i + 1]) {
      if i < |first| - 1 {
        assert OneEdit(first[i], first[i + 1]);
      } else {
        assert OneEdit(second[i - (|first| - 1)], second[i - (|first| - 1) + 1]);
      }
    }
    assert Turns(whole, a, c);
    NoShorterPath(whole, a, c);
  }

  /** Edit distance is a metric. */
  lemma {:induction false} DistanceIsAMetric(a: Text, b: Text, c: Text)
    ensures Distance(a, b) == 0 <==> a == b
    ensures Distance(a, b) == Distance(b, a)
    ensures Distance(a, c) <= Distance(a, b) + Distance(b, c)
  {
    DistanceToSelf(a);
    DistanceSymmetric(a, b);
    var path := ShortestPath(a, b);
    Triangle(a, b, c);
    hide Distance;
  }

  /** nearestFlag: the first flag, in visiting order, at the least distance; -1 when there is none. */
  method NearestFlag(flags: seq<Text>, name: Text) returns (best: Text, dist: int)
    ensures flags == [] ==> best == [] && dist == -1
    ensures flags != [] ==>
              exists k :: 0 <= k < |flags| && best == flags[k] && dist == Distance(name, flags[k])
                          && (forall i :: 0 <= i < k ==> Distance(name, flags[i]) > dist)
                          && (forall i :: 0 <= i < |flags| ==> Distance(name, flags[i]) >= dist)
  {
    best, dist := [], -1;
    ghost var k := 0;
    var i := 0;
    while i < |flags|
      invariant 0 <= i <= |flags|
      invariant i == 0 ==> best == [] && dist == -1
      invariant i > 0 ==>
                  0 <= k < i && best == flags[k] && dist == Distance(name, flags[k])
                  && (forall j :: 0 <= j < k ==> Distance(name, flags[j]) > dist)
                  && (forall j :: 0 <= j < i ==> Distance(name, flags[j]) >= dist)
    {
      var d := Compute(name, flags[i]);
      if dist == -1 || d < dist {
        best, dist := flags[i], d;
        k := i;
      }
      i := i + 1;
    }
  }
}
