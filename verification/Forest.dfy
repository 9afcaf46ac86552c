/** Option and outcome types shared by the modules. */
module Wrappers {
  datatype Option<+T> = None | Some(value: T)

  datatype Result<+T, +E> = Success(value: T) | Failure(error: E)
}

/** Branches and the parent each one records: a map from a branch to its parent, walked upward. */
module Forest {
  import opened Wrappers

  type Name = string
  type Parents = map<Name, Name>

  /** The branch k recorded parents above b, or None when the chain runs out first. */
  function Up(parents: Parents, b: Name, k: nat): Option<Name>
    decreases k
  {
    if k == 0 then Some(b)
    else if b in parents then Up(parents, parents[b], k - 1)
    else None
  }

  /** a is a proper ancestor of b. */
  ghost predicate Above(parents: Parents, a: Name, b: Name) {
    exists k: nat :: k >= 1 && Up(parents, b, k) == Some(a)
  }

  /** No branch is its own ancestor. */
  ghost predicate Acyclic(parents: Parents) {
    forall b :: !Above(parents, b, b)
  }

  ghost predicate Distinct<T>(s: seq<T>) {
    forall i, j :: 0 <= i < j < |s| ==> s[i] != s[j]
  }

  lemma {:induction false} UpAdds(parents: Parents, b: Name, j: nat, k: nat)
    requires Up(parents, b, j).Some?
    ensures Up(parents, b, j + k) == Up(parents, Up(parents, b, j).value, k)
    decreases j
  {
    if j > 0 {
      UpAdds(parents, parents[b], j - 1, k);
    }
  }

  lemma AboveTransitive(parents: Parents, a: Name, b: Name, c: Name)
    requires Above(parents, a, b) && Above(parents, b, c)
    ensures Above(parents, a, c)
  {
    var j: nat :| j >= 1 && Up(parents, b, j) == Some(a);
    var k: nat :| k >= 1 && Up(parents, c, k) == Some(b);
    UpAdds(parents, c, k, j);
    assert Up(parents, c, k + j) == Some(a);
  }

  /** The first step upward splits an ancestor into the parent itself or an ancestor of the parent. */
  lemma AboveFirstStep(parents: Parents, a: Name, b: Name)
    ensures Above(parents, a, b) <==> b in parents && (parents[b] == a || Above(parents, a, parents[b]))
  {
    if Above(parents, a, b) {
      var k: nat :| k >= 1 && Up(parents, b, k) == Some(a);
      assert Up(parents, parents[b], k - 1) == Some(a);
    }
    if b in parents && parents[b] == a {
      assert Up(parents, a, 0) == Some(a);
      assert Up(parents, b, 1) == Some(a);
    }
    if b in parents && Above(parents, a, parents[b]) {
      var k: nat :| k >= 1 && Up(parents, parents[b], k) == Some(a);
      assert Up(parents, b, k + 1) == Some(a);
    }
  }

  lemma {:induction false} DistinctFits<T>(s: seq<T>, domain: set<T>)
    requires Distinct(s) && forall x :: x in s ==> x in domain
    ensures |s| <= |domain|
    decreases |s|
  {
    if s != [] {
      var last := s[|s| - 1];
      var front := s[..|s| - 1];
      forall x | x in front ensures x in domain - {last} {
        var i :| 0 <= i < |front| && front[i] == x;
        assert s[i] == x;
      }
      DistinctFits(front, domain - {last});
    }
  }
}

/** Names in byte order, and sorting by it. */
module NameOrder {
  import opened Forest

  /** a comes no later than b. */
  predicate NoLater(a: Name, b: Name) {
    a == [] || (b != [] && (a[0] < b[0] || (a[0] == b[0] && NoLater(a[1..], b[1..]))))
  }

  predicate InOrder(names: seq<Name>) {
    forall i, j :: 0 <= i < j < |names| ==> NoLater(names[i], names[j])
  }

  lemma {:induction false} SomeOrder(a: Name, b: Name)
    ensures NoLater(a, b) || NoLater(b, a)
    decreases |a|
  {
    if a != [] && b != [] && a[0] == b[0] {
      SomeOrder(a[1..], b[1..]);
    }
  }

  lemma {:induction false} OrderTransitive(a: Name, b: Name, c: Name)
    requires NoLater(a, b) && NoLater(b, c)
    ensures NoLater(a, c)
    decreases |a|
  {
    if a != [] && a[0] == b[0] == c[0] {
      OrderTransitive(a[1..], b[1..], c[1..]);
    }
  }

  /** name before the first entry it comes no later than. */
  function Inserted(name: Name, sorted: seq<Name>): seq<Name> {
    if sorted == [] || NoLater(name, sorted[0]) then [name] + sorted
    else [sorted[0]] + Inserted(name, sorted[1..])
  }

  lemma {:induction false} InsertedIsInOrder(name: Name, sorted: seq<Name>)
    requires InOrder(sorted)
    ensures InOrder(Inserted(name, sorted))
    ensures multiset(Inserted(name, sorted)) == multiset(sorted) + multiset{name}
    decreases |sorted|
  {
    SomeOrder(name, name);
    hide NoLater;
    if sorted != [] {
      assert sorted == [sorted[0]] + sorted[1..];
      if NoLater(name, sorted[0]) {
        forall j | 0 <= j < |sorted| ensures NoLater(name, sorted[j]) {
          if j > 0 {
            OrderTransitive(name, sorted[0], sorted[j]);
          }
        }
      } else {
        SomeOrder(name, sorted[0]);
        var rest := Inserted(name, sorted[1..]);
        InsertedIsInOrder(name, sorted[1..]);
        forall j | 0 <= j < |rest| ensures NoLater(sorted[0], rest[j]) {
          assert rest[j] in multiset(rest);
          assert rest[j] == name || rest[j] in sorted[1..];
        }
      }
    }
  }

  /** slices.Sort. */
  method Sort(names: seq<Name>) returns (sorted: seq<Name>)
    ensures InOrder(sorted) && multiset(sorted) == multiset(names)
  {
    sorted := [];
    var i := 0;
    while i < |names|
      invariant 0 <= i <= |names| && InOrder(sorted) && multiset(sorted) == multiset(names[..i])
    {
      assert names[..i + 1] == names[..i] + [names[i]];
      InsertedIsInOrder(names[i], sorted);
      sorted := Inserted(names[i], sorted);
      i := i + 1;
    }
    assert names[..i] == names;
  }

  lemma SameEntries(a: seq<Name>, b: seq<Name>)
    requires multiset(a) == multiset(b)
    ensures (forall n :: n in a <==> n in b) && (Distinct(a) ==> Distinct(b))
  {
    forall n ensures n in a <==> n in b {
      assert n in a <==> n in multiset(a);
      assert n in b <==> n in multiset(b);
    }
    if Distinct(a) {
      forall i, j | 0 <= i < j < |b| ensures b[i] != b[j] {
        OnceEach(a, b[i]);
        if b[i] == b[j] {
          Twice(b, i, j);
        }
      }
    }
  }

  lemma {:induction false} OnceEach(a: seq<Name>, n: Name)
    requires Distinct(a)
    ensures multiset(a)[n] <= 1
    decreases |a|
  {
    if a != [] {
      var last := |a| - 1;
      assert a == a[..last] + [a[last]];
      OnceEach(a[..last], n);
      if a[last] == n {
        assert n !in a[..last];
      }
    }
  }

  lemma Twice(b: seq<Name>, i: nat, j: nat)
    requires i < j < |b| && b[i] == b[j]
    ensures multiset(b)[b[i]] >= 2
  {
    assert b == b[..i] + [b[i]] + b[i + 1..j] + [b[j]] + b[j + 1..];
  }
}
