/** The children lists of a parent map and the breadth-first walk that lists an upstack. */
module Upstack {
  import opened Wrappers
  import opened Forest
  import opened NameOrder

  type Children = map<Name, seq<Name>>

  function Kids(children: Children, p: Name): seq<Name> {
    if p in children then children[p] else []
  }

  /** children lists each recorded child under its own parent, once. */
  ghost predicate Lists(children: Children, parents: Parents) {
    && (forall p, n :: n in Kids(children, p) <==> n in parents && parents[n] == p)
    && (forall p :: Distinct(Kids(children, p)))
  }

  /** gtChildren: the children of every branch something names as its parent, siblings in order. */
  method ChildrenOf(parents: Parents) returns (children: Children)
    ensures Lists(children, parents) && forall p :: InOrder(Kids(children, p))
  {
    var gathered := Gathered(parents);
    children := SortedLists(gathered);
    forall p ensures (forall n :: n in Kids(children, p) <==> n in Kids(gathered, p)) && Distinct(Kids(children, p)) {
      SameEntries(Kids(gathered, p), Kids(children, p));
    }
  }

  /** The second loop: each list is sorted. */
  method SortedLists(gathered: Children) returns (children: Children)
    ensures forall p :: multiset(Kids(children, p)) == multiset(Kids(gathered, p)) && InOrder(Kids(children, p))
  {
    hide InOrder;
    NothingToOrder();
    children := gathered;
    var todo := children.Keys;
    while todo != {}
      invariant todo <= children.Keys == gathered.Keys
      invariant forall p :: multiset(Kids(children, p)) == multiset(Kids(gathered, p))
      invariant forall p :: p !in todo ==> InOrder(Kids(children, p))
      decreases |todo|
    {
      var p :| p in todo;
      ghost var was := children;
      var sorted := Sort(children[p]);
      children := children[p := sorted];
      todo := todo - {p};
      assert forall q :: Kids(children, q) == if q == p then sorted else Kids(was, q);
    }
  }

  lemma NothingToOrder()
    ensures InOrder([])
  {
  }

  /** The first loop: each branch with a recorded parent joins that parent's children. */
  method Gathered(parents: Parents) returns (children: Children)
    ensures Lists(children, parents)
  {
    children := map[];
    var todo := parents.Keys;
    while todo != {}
      invariant todo <= parents.Keys
      invariant forall p, n :: n in Kids(children, p) <==> n in parents && n !in todo && parents[n] == p
      invariant forall p :: Distinct(Kids(children, p))
      decreases |todo|
    {
      var name :| name in todo;
      var p := parents[name];
      var before := Kids(children, p);
      ghost var was := children;
      children := children[p := before + [name]];
      todo := todo - {name};
      assert forall q :: Kids(children, q) == if q == p then before + [name] else Kids(was, q);
    }
  }

  /** The i-th entry of list sits on branch or on an earlier entry. */
  ghost predicate Placed(parents: Parents, branch: Name, list: seq<Name>, i: nat)
    requires i < |list|
  {
    list[i] in parents && (parents[list[i]] == branch || parents[list[i]] in list[..i])
  }

  /** list holds parents before children, above branch. */
  ghost predicate ParentsFirstAbove(parents: Parents, branch: Name, list: seq<Name>) {
    forall i {:trigger Placed(parents, branch, list, i)} :: 0 <= i < |list| ==> Placed(parents, branch, list, i)
  }

  ghost predicate ListsDescendants(parents: Parents, branch: Name, up: seq<Name>) {
    && Distinct(up)
    && (forall d :: d in up <==> Above(parents, branch, d))
    && ParentsFirstAbove(parents, branch, up)
  }

  /** u sits on an expanded branch of branch's upstack. */
  ghost predicate Reached(parents: Parents, branch: Name, expanded: seq<Name>, u: Name) {
    Above(parents, branch, u) && u in parents && parents[u] in expanded
  }

  ghost predicate KidsIn(children: Children, up: seq<Name>, x: Name) {
    forall kid :: kid in Kids(children, x) ==> kid in up
  }

  /** The walk's state: up lists descendants of branch, each under a branch already expanded, and
      the first done entries of branch followed by up have all their children listed. */
  ghost predicate Walked(parents: Parents, children: Children, branch: Name, up: seq<Name>, done: nat) {
    && Distinct(up) && branch !in up && done <= 1 + |up|
    && (forall u {:trigger Reached(parents, branch, ([branch] + up)[..done], u)} ::
      u in up ==> Reached(parents, branch, ([branch] + up)[..done], u))
    && (forall x {:trigger KidsIn(children, up, x)} :: x in ([branch] + up)[..done] ==> KidsIn(children, up, x))
    && ParentsFirstAbove(parents, branch, up)
  }

  /** gtUpstackFromChildren: the breadth-first walk from branch. It fails, naming the branch it met
      twice, exactly when branch is its own ancestor, and otherwise lists every proper descendant
      once, parents first. */
  method UpstackFromChildren(children: Children, branch: Name, ghost parents: Parents)
    returns (r: Result<seq<Name>, Name>)
    requires Lists(children, parents)
    ensures r.Success? ==> ListsDescendants(parents, branch, r.value)
    ensures r.Failure? <==> Above(parents, branch, branch)
    ensures r.Failure? ==> r.error == branch
  {
    NothingWalked(parents, children, branch);
    hide Walked, ListsDescendants, Above, Lists;
    var up: seq<Name> := [];
    var seen := {branch};
    var queue := [branch];
    ghost var done: nat := 0;
    while |queue| > 0
      invariant forall x :: x in seen <==> x == branch || x in up
      invariant done <= 1 + |up| && Walked(parents, children, branch, up, done)
      invariant queue == ([branch] + up)[done..]
      decreases |parents.Keys| + 1 - done
    {
      var cur := queue[0];
      assert cur == ([branch] + up)[done];
      var kids := Kids(children, cur);
      var clash, seen', up', queue' := Enqueue(branch, kids, seen, up, queue[1..]);
      if clash.Some? {
        SeenKidIsBranch(parents, children, branch, up, kids, clash.value, done);
        return Failure(kids[clash.value]);
      }
      Expanded(parents, children, branch, up, done);
      QueueMoves([branch] + up, kids, done);
      assert [branch] + up + kids == [branch] + (up + kids);
      seen, up, queue, done := seen', up', queue', done + 1;
      WalkFits(parents, children, branch, up, done);
    }
    WalkEnds(parents, children, branch, up, done);
    return Success(up);
  }

  /** The inner loop: every child unseen so far is listed and queued; it stops at the first one seen. */
  method Enqueue(branch: Name, kids: seq<Name>, seen: set<Name>, up: seq<Name>, queue: seq<Name>)
    returns (clash: Option<nat>, seen': set<Name>, up': seq<Name>, queue': seq<Name>)
    requires forall x :: x in seen <==> x == branch || x in up
    ensures clash.Some? ==>
              clash.value < |kids| && (kids[clash.value] == branch || kids[clash.value] in up + kids[..clash.value])
    ensures clash.None? ==> up' == up + kids && queue' == queue + kids
    ensures clash.None? ==> forall x :: x in seen' <==> x == branch || x in up'
    ensures clash.None? ==> forall kid :: kid in kids ==> kid != branch && kid !in up
  {
    seen', up', queue' := seen, up, queue;
    var k: nat := 0;
    while k < |kids|
      invariant k <= |kids| && up' == up + kids[..k] && queue' == queue + kids[..k]
      invariant forall x :: x in seen' <==> x == branch || x in up'
      invariant forall i :: 0 <= i < k ==> kids[i] != branch && kids[i] !in up
    {
      assert kids[..k + 1] == kids[..k] + [kids[k]];
      if kids[k] in seen' {
        return Some(k), seen', up', queue';
      }
      seen', up', queue' := seen' + {kids[k]}, up' + [kids[k]], queue' + [kids[k]];
      k := k + 1;
    }
    assert kids[..k] == kids;
    clash := None;
  }

  lemma QueueMoves(list: seq<Name>, kids: seq<Name>, done: nat)
    requires done < |list|
    ensures (list + kids)[done + 1..] == list[done..][1..] + kids
  {
  }

  lemma NothingWalked(parents: Parents, children: Children, branch: Name)
    ensures Walked(parents, children, branch, [], 0)
  {
  }

  lemma WalkFits(parents: Parents, children: Children, branch: Name, up: seq<Name>, done: nat)
    requires Walked(parents, children, branch, up, done)
    ensures done <= 1 + |up| <= 1 + |parents.Keys|
  {
    forall u | u in up ensures u in parents.Keys {
      assert Reached(parents, branch, ([branch] + up)[..done], u);
    }
    DistinctFits(up, parents.Keys);
  }

  lemma WalkEnds(parents: Parents, children: Children, branch: Name, up: seq<Name>, done: nat)
    requires Lists(children, parents) && Walked(parents, children, branch, up, done) && done == 1 + |up|
    ensures ListsDescendants(parents, branch, up) && !Above(parents, branch, branch)
  {
    assert ([branch] + up)[..done] == [branch] + up;
    forall u | u in up ensures Above(parents, branch, u) {
      assert Reached(parents, branch, ([branch] + up)[..done], u);
    }
    hide Above, Reached;
    forall d | Above(parents, branch, d) ensures d in up {
      ClosedHoldsDescendants(parents, children, branch, up, d);
    }
  }

  /** A child met twice can only be the branch the walk started from. */
  lemma SeenKidIsBranch(parents: Parents, children: Children, branch: Name, before: seq<Name>, kids: seq<Name>, k: nat,
                        done: nat)
    requires Lists(children, parents) && Walked(parents, children, branch, before, done)
    requires done < 1 + |before| && kids == Kids(children, ([branch] + before)[done]) && k < |kids|
    requires kids[k] == branch || kids[k] in before + kids[..k]
    ensures kids[k] == branch && Above(parents, branch, branch)
  {
    var list := [branch] + before;
    var cur := list[done];
    var kid := kids[k];
    assert kid in kids && parents[kid] == cur;
    assert kid !in kids[..k] by {
      assert Distinct(kids);
    }
    assert cur !in list[..done] by {
      if done > 0 {
        assert cur == before[done - 1] && list[..done] == [branch] + before[..done - 1];
      }
    }
    var expanded := list[..done];
    assert kid in before ==> Reached(parents, branch, expanded, kid);
    AboveFirstStep(parents, branch, branch);
    if cur != branch {
      assert cur in before;
      assert Reached(parents, branch, list[..done], cur);
    }
  }

  lemma CurrentIsDescendant(parents: Parents, children: Children, branch: Name, before: seq<Name>, done: nat)
    requires Walked(parents, children, branch, before, done) && done < 1 + |before|
    ensures ([branch] + before)[done] == branch
         || (([branch] + before)[done] in before && Above(parents, branch, ([branch] + before)[done]))
  {
    if done > 0 {
      assert before[done - 1] in before;
      assert Reached(parents, branch, ([branch] + before)[..done], before[done - 1]);
    }
  }

  lemma FreshKidsStayDistinct(branch: Name, before: seq<Name>, kids: seq<Name>)
    requires Distinct(before) && Distinct(kids) && branch !in before
    requires forall kid :: kid in kids ==> kid != branch && kid !in before
    ensures Distinct(before + kids) && branch !in before + kids
  {
    var up := before + kids;
    forall i, j | 0 <= i < j < |up| ensures up[i] != up[j] {
      assert i < |before| <= j ==> up[i] in before && up[j] in kids;
    }
  }

  /** Listing the children of the next branch keeps the walk's state. */
  lemma Expanded(parents: Parents, children: Children, branch: Name, before: seq<Name>, done: nat)
    requires Lists(children, parents) && Walked(parents, children, branch, before, done) && done < 1 + |before|
    requires forall kid :: kid in Kids(children, ([branch] + before)[done]) ==> kid != branch && kid !in before
    ensures Walked(parents, children, branch, before + Kids(children, ([branch] + before)[done]), done + 1)
  {
    hide ParentsFirstAbove, Distinct, Above;
    var list := [branch] + before;
    var cur := list[done];
    var kids := Kids(children, cur);
    var up := before + kids;
    CurrentIsDescendant(parents, children, branch, before, done);
    FreshKidsStayDistinct(branch, before, kids);
    assert ([branch] + up)[..done + 1] == list[..done] + [cur];
    forall u | u in up ensures Reached(parents, branch, ([branch] + up)[..done + 1], u) {
      if u in before {
        assert Reached(parents, branch, list[..done], u);
      } else {
        AboveFirstStep(parents, branch, u);
      }
    }
    forall x | x in ([branch] + up)[..done + 1] ensures KidsIn(children, up, x) {
      if x in list[..done] {
        assert KidsIn(children, before, x);
      }
    }
    KidsArePlaced(parents, branch, before, kids, cur);
  }

  lemma KidsArePlaced(parents: Parents, branch: Name, before: seq<Name>, kids: seq<Name>, cur: Name)
    requires ParentsFirstAbove(parents, branch, before)
    requires forall kid :: kid in kids ==> kid in parents && parents[kid] == cur
    requires cur == branch || cur in before
    ensures ParentsFirstAbove(parents, branch, before + kids)
  {
    var up := before + kids;
    forall i | 0 <= i < |up| ensures Placed(parents, branch, up, i) {
      if i < |before| {
        assert Placed(parents, branch, before, i);
        assert up[..i] == before[..i];
      } else {
        assert up[i] in kids;
        assert up[..i] == before + kids[..i - |before|];
      }
    }
  }

  lemma ClosedHoldsDescendants(parents: Parents, children: Children, branch: Name, up: seq<Name>, d: Name)
    requires Lists(children, parents) && Above(parents, branch, d)
    requires forall x {:trigger KidsIn(children, up, x)} :: x in [branch] + up ==> KidsIn(children, up, x)
    ensures d in up
  {
    var k: nat :| k >= 1 && Up(parents, d, k) == Some(branch);
    ClosedHoldsWalk(parents, children, branch, up, d, k);
  }

  lemma {:induction false} ClosedHoldsWalk(parents: Parents, children: Children, branch: Name, up: seq<Name>, d: Name,
                                           k: nat)
    requires Lists(children, parents) && k >= 1 && Up(parents, d, k) == Some(branch)
    requires forall x {:trigger KidsIn(children, up, x)} :: x in [branch] + up ==> KidsIn(children, up, x)
    ensures d in up
    decreases k
  {
    var p := parents[d];
    if k == 1 {
      assert p == branch;
    } else {
      ClosedHoldsWalk(parents, children, branch, up, p, k - 1);
    }
    assert p in [branch] + up;
    assert KidsIn(children, up, p);
    assert d in Kids(children, p);
  }
}
