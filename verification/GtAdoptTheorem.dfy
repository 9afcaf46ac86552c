/** What adopting a chain leaves behind: a parent written before its child, a table still two-sided,
    and no cycle unless the base already sat above the chain. */
module GtAdoptTheorem {
  import opened Wrappers
  import opened Forest
  import opened GtChain
  import opened GtChainTheorem
  import opened GtAdopt

  /** The names and parents of a chain: a path up from base, through neither trunk nor the base. */
  ghost predicate Path(chain: seq<Link>, base: Name, trunk: Name) {
    && (forall i :: 0 <= i < |chain| ==> chain[i].name != "" && chain[i].name != trunk && chain[i].name != base)
    && (forall i, j :: 0 <= i < j < |chain| ==> chain[i].name != chain[j].name)
    && forall i :: 0 <= i < |chain| ==> chain[i].parent == Under(chain, base, i)
  }

  /** The branch below link i. */
  function Under(chain: seq<Link>, base: Name, i: nat): Name
    requires i < |chain|
  {
    if i == 0 then base else chain[i - 1].name
  }

  lemma PathStep(chain: seq<Link>, base: Name, trunk: Name, i: nat)
    requires i < |chain| && Path(chain, base, trunk)
    ensures chain[i].name != "" && chain[i].name != trunk && chain[i].name != base
    ensures chain[i].parent == Under(chain, base, i)
    ensures base != "" ==> chain[i].parent != ""
    ensures forall j :: 0 <= j < |chain| && j != i ==> chain[j].name != chain[i].name
    ensures forall j :: i <= j < |chain| ==> chain[i].parent != chain[j].name
  {
    assert i > 0 ==> chain[i - 1].name != "";
  }

  predicate Adopts(chain: seq<Link>, b: Name) {
    exists i :: 0 <= i < |chain| && chain[i].name == b
  }

  /** The same row but for its children. */
  predicate SameRow(a: Record, b: Record) {
    a == b.(children := a.children)
  }

  /** t' is t with every link of the chain on its parent, and nothing else changed but children. */
  ghost predicate Holds(t: Table, chain: seq<Link>, t': Table) {
    && (forall b :: b in t' <==> b in t || Adopts(chain, b))
    && (forall i :: 0 <= i < |chain| ==> chain[i].name in t' && Names(t'[chain[i].name], chain[i]))
    && forall b :: b in t && !Adopts(chain, b) ==> b in t' && SameRow(t[b], t'[b])
  }

  predicate Names(row: Record, link: Link) {
    row.parent == link.parent && row.base == link.base && row.head == link.head && row.valid && row.hold == "none"
  }

  /** Two-sided but for the strays: rows whose parent has a row that does not list them. */
  ghost predicate Sides(t: Table, strays: set<Name>) {
    && "" !in t
    && forall p, b :: p in t ==> (b in t[p].children <==> b in t && t[b].parent == p && b !in strays)
  }

  /** The rows that named b as their parent before b had a row. */
  function Waiting(t: Table, b: Name): set<Name> {
    if b in t then {} else set c | c in t && t[c].parent == b
  }

  /** t' is t with b under parent and in its children alone, and nothing else changed. */
  ghost predicate Moved(t: Table, t': Table, b: Name, parent: Name) {
    && t'.Keys == t.Keys + {b} && t'[b].parent == parent
    && (forall c :: c in t && c != b ==> SameRow(t[c], t'[c]))
    && forall p, c :: p in t' ==>
        (c in t'[p].children <==> if c == b then p == parent else p in t && c in t[p].children)
  }

  lemma MovedSides(t: Table, t': Table, b: Name, parent: Name, strays: set<Name>)
    requires Sides(t, strays) && Moved(t, t', b, parent) && b != ""
    ensures Sides(t', strays + Waiting(t, b) - {b})
  {
    var strays' := strays + Waiting(t, b) - {b};
    forall p, c | p in t'
      ensures c in t'[p].children <==> c in t' && t'[c].parent == p && c !in strays'
    {
      if c != b {
        assert c in t <==> c in t';
        assert c in t ==> t[c].parent == t'[c].parent;
        assert p !in t ==> p == b;
      }
    }
  }

  lemma DisownedMeans(t: Table, parent: Name, b: Name)
    ensures var t' := Disowned(t, parent, b);
      && t'.Keys == t.Keys && (forall p :: p in t ==> SameRow(t[p], t'[p]))
      && forall p, c :: p in t ==> (c in t'[p].children <==> c in t[p].children && !(p == parent && c == b))
  {
  }

  lemma OwnedMeans(t: Table, parent: Name, b: Name)
    requires parent in t
    ensures var t' := Owned(t, parent, b);
      && t'.Keys == t.Keys && (forall p :: p in t ==> SameRow(t[p], t'[p]))
      && forall p, c :: p in t ==> (c in t'[p].children <==> c in t[p].children || (p == parent && c == b))
  {
  }

  lemma AdoptedRootMoves(t: Table, b: Name, trunk: Name, base: nat, head: nat, strays: set<Name>)
    requires Sides(t, strays) && trunk in t && b != "" && b != trunk
    ensures AdoptedRoot(t, b, trunk, base, head).Some?
    ensures Moved(t, AdoptedRoot(t, b, trunk, base, head).value, b, trunk)
    ensures var row := AdoptedRoot(t, b, trunk, base, head).value[b];
      row == Record(trunk, base, head, true, "none", row.children)
  {
    var previous := if b in t then t[b].parent else "";
    var placed := t[b := Record(trunk, base, head, true, "none", if b in t then t[b].children else [])];
    var left := if previous != "" && previous != trunk then Disowned(placed, previous, b) else placed;
    PlacedLeaves(t, b, placed, previous, trunk, strays);
    hide Disowned, Owned, Sides, Left, Moved;
    TrunkOwns(t, left, b, trunk);
  }

  /** t' is t with b's row anew, and b in no children but perhaps trunk's. */
  ghost predicate Left(t: Table, t': Table, b: Name, trunk: Name) {
    && t'.Keys == t.Keys + {b}
    && (forall c :: c in t && c != b ==> SameRow(t[c], t'[c]))
    && (forall p, c :: p in t' && c != b ==> (c in t'[p].children <==> p in t && c in t[p].children))
    && forall p :: p in t' && p != trunk ==> b !in t'[p].children
  }

  lemma TrunkOwns(t: Table, left: Table, b: Name, trunk: Name)
    requires Left(t, left, b, trunk) && trunk in t && left[b].parent == trunk
    ensures trunk in left && Moved(t, Owned(left, trunk, b), b, trunk) && SameRow(left[b], Owned(left, trunk, b)[b])
  {
    OwnedMeans(left, trunk, b);
    hide Owned;
  }

  lemma PlacedLeaves(t: Table, b: Name, placed: Table, previous: Name, trunk: Name, strays: set<Name>)
    requires Sides(t, strays) && b != "" && b != trunk
    requires previous == if b in t then t[b].parent else ""
    requires b in placed && placed == t[b := placed[b]] && placed[b].children == if b in t then t[b].children else []
    ensures var left := if previous != "" && previous != trunk then Disowned(placed, previous, b) else placed;
      Left(t, left, b, trunk) && SameRow(placed[b], left[b])
  {
    assert forall p :: p in t && p != previous ==> b !in t[p].children;
    hide Sides, Disowned;
    assert forall p, c :: p in placed ==> (c in placed[p].children <==> p in t && c in t[p].children);
    if previous != "" && previous != trunk {
      DisownedMeans(placed, previous, b);
    }
  }

  lemma ReparentedMoves(t: Table, b: Name, parent: Name, strays: set<Name>)
    requires Sides(t, strays) && b in t && parent in t && parent != b && b !in strays
    ensures Reparented(t, b, parent).Some?
    ensures Moved(t, Reparented(t, b, parent).value, b, parent)
    ensures SameRow(t[b].(parent := parent), Reparented(t, b, parent).value[b])
  {
    var previous := t[b].parent;
    ListedOnlyBy(t, b, strays);
    hide Disowned, Owned, Sides;
    if previous != parent {
      var placed := t[b := t[b].(parent := parent)];
      OwnedMeans(placed, parent, b);
      DisownedMeans(Owned(placed, parent, b), previous, b);
      SwappedMoves(t, placed, Owned(placed, parent, b), Disowned(Owned(placed, parent, b), previous, b), b, previous,
                   parent);
    }
  }

  lemma ListedOnlyBy(t: Table, b: Name, strays: set<Name>)
    requires Sides(t, strays) && b in t && b !in strays
    ensures forall p :: p in t ==> (b in t[p].children <==> p == t[b].parent)
  {
  }

  lemma SwappedMoves(t: Table, placed: Table, owned: Table, freed: Table, b: Name, previous: Name, parent: Name)
    requires b in t && placed == t[b := t[b].(parent := parent)] && previous != parent
    requires forall p :: p in t ==> (b in t[p].children <==> p == previous)
    requires owned.Keys == placed.Keys && (forall p :: p in placed ==> SameRow(placed[p], owned[p]))
    requires forall p, c :: p in placed ==>
               (c in owned[p].children <==> c in placed[p].children || (p == parent && c == b))
    requires freed.Keys == owned.Keys && (forall p :: p in owned ==> SameRow(owned[p], freed[p]))
    requires forall p, c :: p in owned ==>
               (c in freed[p].children <==> c in owned[p].children && !(p == previous && c == b))
    requires parent in t
    ensures Moved(t, freed, b, parent) && SameRow(placed[b], freed[b])
  {
  }

  /** The rows left stray by adopting the chain: they named one of its branches as their parent before
      that branch had a row, and the chain does not carry them. */
  function Strays(t: Table, chain: seq<Link>): set<Name> {
    set c | c in t && !Adopts(chain, c) && t[c].parent !in t && Adopts(chain, t[c].parent)
  }

  /** t' is t with b's row naming parent, and no other row changed but in its children. */
  ghost predicate Rewrote(t: Table, t': Table, b: Name, parent: Name) {
    && t'.Keys == t.Keys + {b} && t'[b].parent == parent
    && forall c :: c in t && c != b ==> SameRow(t[c], t'[c])
  }

  lemma AdoptedRootRewrites(t: Table, b: Name, trunk: Name, base: nat, head: nat)
    requires trunk in t && b != trunk
    ensures AdoptedRoot(t, b, trunk, base, head).Some?
    ensures Rewrote(t, AdoptedRoot(t, b, trunk, base, head).value, b, trunk)
    ensures var row := AdoptedRoot(t, b, trunk, base, head).value[b];
            row == Record(trunk, base, head, true, "none", row.children)
  {
    var placed := t[b := Record(trunk, base, head, true, "none", if b in t then t[b].children else [])];
    var previous := if b in t then t[b].parent else "";
    DisownedMeans(placed, previous, b);
    var left := if previous != "" && previous != trunk then Disowned(placed, previous, b) else placed;
    OwnedMeans(left, trunk, b);
    hide Disowned, Owned;
  }

  lemma ReparentedRewrites(t: Table, b: Name, parent: Name)
    requires b in t && parent in t
    ensures Reparented(t, b, parent).Some?
    ensures Rewrote(t, Reparented(t, b, parent).value, b, parent)
    ensures SameRow(t[b].(parent := parent), Reparented(t, b, parent).value[b])
  {
    if t[b].parent != parent {
      var placed := t[b := t[b].(parent := parent)];
      OwnedMeans(placed, parent, b);
      DisownedMeans(Owned(placed, parent, b), t[b].parent, b);
    }
    hide Disowned, Owned;
  }

  /** Adopting in order never finds a parent missing: each link's parent is the base or a link already
      written, whatever rows the chain's branches had before. */
  lemma {:induction false} ParentsAreWrittenFirst(t: Table, trunk: Name, base: Name, chain: seq<Link>)
    requires trunk in t && base in t && Path(chain, base, trunk)
    ensures AdoptedChain(t, trunk, chain).Some?
    ensures Holds(t, chain, AdoptedChain(t, trunk, chain).value)
    decreases |chain|
  {
    if chain != [] {
      var n := |chain| - 1;
      var front := chain[..n];
      PathOfFront(chain, base, trunk, n);
      hide Path, Holds, AdoptedLink;
      ParentsAreWrittenFirst(t, trunk, base, front);
      NextLink(t, AdoptedChain(t, trunk, front).value, trunk, base, chain, n);
    }
  }

  lemma NextLink(t: Table, before: Table, trunk: Name, base: Name, chain: seq<Link>, n: nat)
    requires n == |chain| - 1 && Path(chain, base, trunk) && trunk in t && base in t
    requires Holds(t, chain[..n], before)
    ensures AdoptedLink(before, trunk, chain[n]).Some?
    ensures Holds(t, chain, AdoptedLink(before, trunk, chain[n]).value)
  {
    hide Holds, Path, Adopts, AdoptedRoot, Reparented;
    var link := chain[n];
    ParentIsThere(t, before, trunk, base, chain, n);
    PathStep(chain, base, trunk, n);
    AdoptedRootRewrites(before, link.name, trunk, link.base, link.head);
    var onTrunk := AdoptedRoot(before, link.name, trunk, link.base, link.head).value;
    ReparentedRewrites(onTrunk, link.name, link.parent);
    HoldsMore(t, chain, n, before, Reparented(onTrunk, link.name, link.parent).value);
  }

  /** Adopting into a two-sided table leaves it two-sided but for the strays. */
  lemma {:induction false} AdoptionLeavesStrays(t: Table, trunk: Name, base: Name, chain: seq<Link>)
    requires TwoSided(t) && trunk in t && base in t && Path(chain, base, trunk)
    ensures AdoptedChain(t, trunk, chain).Some?
    ensures Sides(AdoptedChain(t, trunk, chain).value, Strays(t, chain))
    decreases |chain|
  {
    if chain == [] {
      assert Strays(t, []) == {};
    } else {
      var n := |chain| - 1;
      PathOfFront(chain, base, trunk, n);
      hide Path, Holds, TwoSided, Sides, AdoptedLink, Strays;
      ParentsAreWrittenFirst(t, trunk, base, chain[..n]);
      AdoptionLeavesStrays(t, trunk, base, chain[..n]);
      NextSides(t, AdoptedChain(t, trunk, chain[..n]).value, trunk, base, chain, n);
    }
  }

  lemma PathOfFront(chain: seq<Link>, base: Name, trunk: Name, n: nat)
    requires n <= |chain| && Path(chain, base, trunk)
    ensures Path(chain[..n], base, trunk)
  {
    var front := chain[..n];
    forall i | 0 <= i < n ensures front[i].parent == Under(front, base, i) {
      assert front[i] == chain[i];
      assert i > 0 ==> front[i - 1] == chain[i - 1];
    }
  }

  lemma ParentIsThere(t: Table, before: Table, trunk: Name, base: Name, chain: seq<Link>, n: nat)
    requires n == |chain| - 1 && Path(chain, base, trunk) && trunk in t && base in t
    requires Holds(t, chain[..n], before)
    ensures trunk in before && chain[n].parent in before
  {
    PathStep(chain, base, trunk, n);
    if n > 0 {
      assert chain[..n][n - 1] == chain[n - 1];
    }
  }

  lemma NextSides(t: Table, before: Table, trunk: Name, base: Name, chain: seq<Link>, n: nat)
    requires n == |chain| - 1 && Path(chain, base, trunk) && trunk in t && base in t
    requires Holds(t, chain[..n], before) && Sides(before, Strays(t, chain[..n]))
    ensures AdoptedLink(before, trunk, chain[n]).Some?
    ensures Sides(AdoptedLink(before, trunk, chain[n]).value, Strays(t, chain))
  {
    hide Holds, Path, Adopts, Sides, Strays, AdoptedRoot, Reparented;
    var link, strays := chain[n], Strays(t, chain[..n]);
    ParentIsThere(t, before, trunk, base, chain, n);
    PathStep(chain, base, trunk, n);
    StraysMore(t, before, trunk, base, chain, n);
    AdoptedRootMoves(before, link.name, trunk, link.base, link.head, strays);
    var onTrunk := AdoptedRoot(before, link.name, trunk, link.base, link.head).value;
    MovedSides(before, onTrunk, link.name, trunk, strays);
    var strays' := strays + Waiting(before, link.name) - {link.name};
    ReparentedMoves(onTrunk, link.name, link.parent, strays');
    MovedSides(onTrunk, Reparented(onTrunk, link.name, link.parent).value, link.name, link.parent, strays');
    assert strays' + Waiting(onTrunk, link.name) - {link.name} == strays';
  }

  lemma InWaiting(t: Table, b: Name, c: Name)
    ensures c in Waiting(t, b) <==> b !in t && c in t && t[c].parent == b
  {
  }

  lemma InStrays(t: Table, chain: seq<Link>, c: Name)
    ensures c in Strays(t, chain)
            <==> c in t && !Adopts(chain, c) && t[c].parent !in t && Adopts(chain, t[c].parent)
  {
  }

  lemma StraysMore(t: Table, before: Table, trunk: Name, base: Name, chain: seq<Link>, n: nat)
    requires n == |chain| - 1 && Path(chain, base, trunk)
    requires Holds(t, chain[..n], before)
    ensures Strays(t, chain) == Strays(t, chain[..n]) + Waiting(before, chain[n].name) - {chain[n].name}
  {
    hide Path, Adopts, Holds, Strays, Waiting;
    var strays, waiting, b := Strays(t, chain[..n]), Waiting(before, chain[n].name), chain[n].name;
    forall c ensures c in Strays(t, chain) <==> (c in strays || c in waiting) && c != b {
      StraysMoreAt(t, before, trunk, base, chain, n, c);
    }
  }

  lemma StraysMoreAt(t: Table, before: Table, trunk: Name, base: Name, chain: seq<Link>, n: nat, c: Name)
    requires n == |chain| - 1 && Path(chain, base, trunk)
    requires Holds(t, chain[..n], before)
    ensures c in Strays(t, chain)
            <==> (c in Strays(t, chain[..n]) || c in Waiting(before, chain[n].name)) && c != chain[n].name
  {
    hide Path, Adopts, Holds, Strays, Waiting;
    var front, b := chain[..n], chain[n].name;
    AdoptsMore(chain, n);
    NotYet(chain, base, trunk, n);
    NoLinkWaits(t, before, trunk, base, chain, n);
    OthersStand(t, front, before);
    StrayMore(t, before, front, chain, b, c);
  }

  /** One row becomes stray with one more link exactly when it was stray or waited for the link. */
  lemma StrayMore(t: Table, before: Table, front: seq<Link>, chain: seq<Link>, b: Name, c: Name)
    requires Adopts(chain, c) <==> Adopts(front, c) || c == b
    requires c in t ==> (Adopts(chain, t[c].parent) <==> Adopts(front, t[c].parent) || t[c].parent == b)
    requires !Adopts(front, b) && (b in before <==> b in t)
    requires c in before <==> c in t || Adopts(front, c)
    requires c in before && before[c].parent == b ==> !Adopts(front, c)
    requires c in t && !Adopts(front, c) ==> before[c].parent == t[c].parent
    ensures c in Strays(t, chain) <==> (c in Strays(t, front) || c in Waiting(before, b)) && c != b
  {
    hide Adopts, Strays, Waiting;
    InStrays(t, chain, c);
    InStrays(t, front, c);
    InWaiting(before, b, c);
  }

  lemma OthersStand(t: Table, chain: seq<Link>, t': Table)
    requires Holds(t, chain, t')
    ensures forall c :: c in t && !Adopts(chain, c) ==> c in t' && t'[c].parent == t[c].parent
    ensures forall c :: c in t' <==> c in t || Adopts(chain, c)
  {
    hide Adopts;
    assert forall c :: c in t && !Adopts(chain, c) ==> SameRow(t[c], t'[c]);
  }

  lemma NoLinkWaits(t: Table, before: Table, trunk: Name, base: Name, chain: seq<Link>, n: nat)
    requires n == |chain| - 1 && Path(chain, base, trunk) && Holds(t, chain[..n], before)
    ensures forall c :: c in before && before[c].parent == chain[n].name ==> !Adopts(chain[..n], c)
  {
  }

  lemma NotYet(chain: seq<Link>, base: Name, trunk: Name, n: nat)
    requires n == |chain| - 1 && Path(chain, base, trunk)
    ensures !Adopts(chain[..n], chain[n].name)
  {
  }

  lemma AdoptsMore(chain: seq<Link>, n: nat)
    requires n == |chain| - 1
    ensures forall b :: Adopts(chain, b) <==> Adopts(chain[..n], b) || b == chain[n].name
  {
  }

  /** The table stays two-sided exactly when no row outside the chain was waiting for one of its branches:
      a branch is adopted with no children, and nothing lists the rows that already named it. */
  lemma TwoSidedExactlyWhenNoneWaits(t: Table, trunk: Name, base: Name, chain: seq<Link>)
    requires TwoSided(t) && trunk in t && base in t && Path(chain, base, trunk)
    ensures AdoptedChain(t, trunk, chain).Some?
    ensures TwoSided(AdoptedChain(t, trunk, chain).value)
      <==> forall c :: c in t && !Adopts(chain, c) && t[c].parent !in t ==> !Adopts(chain, t[c].parent)
  {
    ParentsAreWrittenFirst(t, trunk, base, chain);
    AdoptionLeavesStrays(t, trunk, base, chain);
    StraysShow(t, chain, AdoptedChain(t, trunk, chain).value);
  }

  lemma StraysShow(t: Table, chain: seq<Link>, t': Table)
    requires TwoSided(t) && Holds(t, chain, t') && Sides(t', Strays(t, chain))
    ensures TwoSided(t')
      <==> forall c :: c in t && !Adopts(chain, c) && t[c].parent !in t ==> !Adopts(chain, t[c].parent)
  {
    hide Adopts;
    if c :| c in Strays(t, chain) {
      assert SameRow(t[c], t'[c]) && t'[c].parent in t' && c !in t'[t'[c].parent].children;
    } else {
      assert Strays(t, chain) == {};
    }
  }

  lemma HoldsMore(t: Table, chain: seq<Link>, n: nat, before: Table, after: Table)
    requires n == |chain| - 1 && Holds(t, chain[..n], before)
    requires forall i :: 0 <= i < n ==> chain[i].name != chain[n].name
    requires after.Keys == before.Keys + {chain[n].name}
    requires Names(after[chain[n].name], chain[n])
    requires forall c :: c in before && c != chain[n].name ==> SameRow(before[c], after[c])
    ensures Holds(t, chain, after)
  {
    var front := chain[..n];
    AdoptsMore(chain, n);
    forall i | 0 <= i < |chain| ensures chain[i].name in after && Names(after[chain[i].name], chain[i]) {
      assert i < n ==> front[i] == chain[i];
    }
  }

  /** The chain the lookup answers is such a path, for a branch that is neither trunk nor the base, so
      adopting all of it writes every parent first. */
  lemma LookedUpChainIsAPath(r: Reading, cut: Option<Name>, chain: seq<Link>, trunk: Name)
    requires Sound(r) && CutOk(r, cut) && IsChain(r, cut, chain)
    requires trunk in r.tracked && BaseOutOfRange(r)
    requires r.branch != "" && r.branch != trunk && r.branch != r.base
    ensures Path(chain, r.base, trunk)
  {
    var last := |chain| - 1;
    forall i, j | 0 <= i < j < |chain| ensures chain[i].name != chain[j].name {
      LinksAreDistinct(r, cut, chain, i, j);
    }
    forall i | 0 <= i < |chain| ensures chain[i].name != "" && chain[i].name != trunk && chain[i].name != r.base {
      LinksAreDistinct(r, cut, chain, i, last);
      if i < last {
        BetweenIsListed(r, cut, chain[i].name, chain[i].head);
      }
    }
    forall i | 0 <= i < |chain| ensures chain[i].parent == Under(chain, r.base, i) {
      assert i > 0 ==> Joined(chain[i - 1], chain[i]);
    }
  }

  // ---------------------------------------------------------------------------
  // Cycles
  // ---------------------------------------------------------------------------

  function ParentsOf(t: Table): Parents {
    map b | b in t && t[b].parent != "" :: t[b].parent
  }

  /** Two forests that agree off the chain climb alike until they meet it. */
  lemma {:induction false} ClimbsAlike(p: Parents, q: Parents, chain: seq<Link>, b: Name, k: nat)
    requires forall c :: !Adopts(chain, c) ==> (c in p <==> c in q) && (c in p ==> p[c] == q[c])
    requires forall j: nat :: j < k && Up(p, b, j).Some? ==> !Adopts(chain, Up(p, b, j).value)
    ensures Up(p, b, k) == Up(q, b, k)
    decreases k
  {
    if k > 0 {
      assert Up(p, b, 0) == Some(b);
      if b in p {
        forall j: nat | j < k - 1 && Up(p, p[b], j).Some? ensures !Adopts(chain, Up(p, p[b], j).value) {
          assert Up(p, b, j + 1) == Up(p, p[b], j);
        }
        ClimbsAlike(p, q, chain, p[b], k - 1);
      }
    }
  }

  lemma LinkParent(t: Table, chain: seq<Link>, t': Table, base: Name, trunk: Name, i: nat)
    requires Path(chain, base, trunk) && base != "" && Holds(t, chain, t') && i < |chain|
    ensures chain[i].name in ParentsOf(t') && ParentsOf(t')[chain[i].name] == Under(chain, base, i)
  {
    PathStep(chain, base, trunk, i);
    assert Names(t'[chain[i].name], chain[i]);
  }

  lemma {:induction false} LinkReachesBase(t: Table, chain: seq<Link>, t': Table, base: Name, trunk: Name, i: nat)
    requires Path(chain, base, trunk) && base != "" && Holds(t, chain, t') && i < |chain|
    ensures Up(ParentsOf(t'), chain[i].name, i + 1) == Some(base)
    decreases i
  {
    hide Path, Holds, ParentsOf;
    var p := ParentsOf(t');
    LinkParent(t, chain, t', base, trunk, i);
    assert Up(p, chain[i].name, i + 1) == Up(p, Under(chain, base, i), i);
    if i > 0 {
      LinkReachesBase(t, chain, t', base, trunk, i - 1);
    } else {
      assert Up(p, base, 0) == Some(base);
    }
  }

  ghost predicate Agree(t: Table, chain: seq<Link>, t': Table) {
    forall c :: !Adopts(chain, c)
      ==> (c in ParentsOf(t) <==> c in ParentsOf(t')) && (c in ParentsOf(t) ==> ParentsOf(t)[c] == ParentsOf(t')[c])
  }

  lemma OffChainAgree(t: Table, chain: seq<Link>, t': Table)
    requires Holds(t, chain, t')
    ensures Agree(t, chain, t')
  {
  }

  /** A link the base was already stacked on closes a cycle. */
  lemma StackedBaseCloses(t: Table, chain: seq<Link>, t': Table, base: Name, trunk: Name, i: nat)
    requires Path(chain, base, trunk) && base != "" && Holds(t, chain, t') && i < |chain|
    requires Above(ParentsOf(t), chain[i].name, base)
    ensures !Acyclic(ParentsOf(t'))
  {
    hide Path, Holds, ParentsOf, Up;
    var p, q := ParentsOf(t), ParentsOf(t');
    var k: nat :| k >= 1 && Up(p, base, k) == Some(chain[i].name);
    var j := FirstMeeting(p, chain, base, k);
    OffChainAgree(t, chain, t');
    ClimbsAlike(p, q, chain, base, j);
    var met := Up(p, base, j).value;
    var m :| 0 <= m < |chain| && chain[m].name == met;
    LinkReachesBase(t, chain, t', base, trunk, m);
    UpAdds(q, base, j, m + 1);
    assert Up(q, base, j + (m + 1)) == Some(base);
    assert Above(q, base, base);
  }

  lemma FirstMeeting(p: Parents, chain: seq<Link>, b: Name, k: nat) returns (j: nat)
    requires Up(p, b, k).Some? && Adopts(chain, Up(p, b, k).value)
    ensures j <= k && Up(p, b, j).Some? && Adopts(chain, Up(p, b, j).value)
    ensures forall i: nat :: i < j && Up(p, b, i).Some? ==> !Adopts(chain, Up(p, b, i).value)
    decreases k
  {
    if i: nat :| i < k && Up(p, b, i).Some? && Adopts(chain, Up(p, b, i).value) {
      j := FirstMeeting(p, chain, b, i);
    } else {
      j := k;
    }
  }

  /** Going round a cycle n times. */
  lemma {:induction false} Rounds(p: Parents, b: Name, k: nat, n: nat)
    requires Up(p, b, k) == Some(b)
    ensures Up(p, b, n * k) == Some(b)
    decreases n
  {
    if n == 0 {
      assert n * k == 0;
    } else {
      Rounds(p, b, k, n - 1);
      UpAdds(p, b, (n - 1) * k, k);
      assert n * k == (n - 1) * k + k;
    }
  }

  lemma AtLeast(n: nat, k: nat)
    requires k >= 1
    ensures n * k >= n
  {
    assert n * k == n + n * (k - 1);
  }

  /** A cycle through a link climbs from the base back to that link. */
  lemma CycleClimbsFromBase(t: Table, chain: seq<Link>, t': Table, base: Name, trunk: Name, i: nat, k: nat)
    returns (j: nat)
    requires Path(chain, base, trunk) && base != "" && Holds(t, chain, t') && i < |chain| && k >= 1
    requires Up(ParentsOf(t'), chain[i].name, k) == Some(chain[i].name)
    ensures Up(ParentsOf(t'), base, j) == Some(chain[i].name)
  {
    hide Path, Holds, Up, ParentsOf;
    var q, n := ParentsOf(t'), i + 1;
    LinkReachesBase(t, chain, t', base, trunk, i);
    Rounds(q, chain[i].name, k, n);
    AtLeast(n, k);
    j := n * k - n;
    UpAdds(q, chain[i].name, n, j);
  }

  /** Adopting a chain into an acyclic table closes a cycle exactly when the base was already stacked,
      through rows the state left out, on a branch of the chain. */
  lemma CycleExactlyWhenBaseSatAbove(t: Table, chain: seq<Link>, t': Table, base: Name, trunk: Name)
    requires Path(chain, base, trunk) && base != "" && Holds(t, chain, t') && Acyclic(ParentsOf(t))
    ensures Acyclic(ParentsOf(t')) <==> forall i :: 0 <= i < |chain| ==> !Above(ParentsOf(t), chain[i].name, base)
  {
    var p, q := ParentsOf(t), ParentsOf(t');
    if i :| 0 <= i < |chain| && Above(p, chain[i].name, base) {
      StackedBaseCloses(t, chain, t', base, trunk, i);
    } else if b :| Above(q, b, b) {
      var k: nat :| k >= 1 && Up(q, b, k) == Some(b);
      OffChainAgree(t, chain, t');
      if j: nat :| j < k && Up(q, b, j).Some? && Adopts(chain, Up(q, b, j).value) {
        var i :| 0 <= i < |chain| && chain[i].name == Up(q, b, j).value;
        UpAdds(q, b, j, k);
        UpAdds(q, b, k, j);
        var far := CycleClimbsFromBase(t, chain, t', base, trunk, i, k);
        BaseNeverMeets(t, chain, t', base, trunk, far, i);
      } else {
        ClimbsAlike(q, p, chain, b, k);
        assert Above(p, b, b);
      }
    }
  }

  lemma BaseNeverMeets(t: Table, chain: seq<Link>, t': Table, base: Name, trunk: Name, far: nat, i: nat)
    requires Path(chain, base, trunk) && Holds(t, chain, t') && i < |chain|
    requires forall i :: 0 <= i < |chain| ==> !Above(ParentsOf(t), chain[i].name, base)
    ensures Up(ParentsOf(t'), base, far) != Some(chain[i].name)
  {
    var p := ParentsOf(t);
    OffChainAgree(t, chain, t');
    forall j: nat | j < far && Up(p, base, j).Some? ensures !Adopts(chain, Up(p, base, j).value) {
      NotOnChain(p, chain, base, trunk, j);
    }
    ClimbsAlike(p, ParentsOf(t'), chain, base, far);
    if Up(p, base, far) == Some(chain[i].name) {
      NotOnChain(p, chain, base, trunk, far);
    }
  }

  lemma NotOnChain(p: Parents, chain: seq<Link>, base: Name, trunk: Name, j: nat)
    requires Path(chain, base, trunk) && Up(p, base, j).Some?
    requires forall i :: 0 <= i < |chain| ==> !Above(p, chain[i].name, base)
    ensures !Adopts(chain, Up(p, base, j).value)
  {
  }

  /** A chain of one branch, cut from base. */
  function OneLink(name: Name, base: Name): seq<Link> {
    [Link(name, base, 0, 0, false)]
  }

  /** x on main, left out of the state; b on x. */
  function LeftOut(): Table {
    map["main" := Record("", 0, 0, true, "none", ["x"]), "x" := Record("main", 0, 0, false, "none", ["b"]),
        "b" := Record("x", 0, 0, true, "none", [])]
  }

  lemma LeftOutIsSound()
    ensures TwoSided(LeftOut()) && Acyclic(ParentsOf(LeftOut())) && LeftOut().Keys == {"main", "x", "b"}
    ensures LeftOut()["b"].parent == "x"
  {
    var parents := ParentsOf(LeftOut());
    assert parents == map["x" := "main", "b" := "x"];
    forall c ensures !Above(parents, c, c) {
      NothingAboveItself(parents, c);
    }
  }

  /** Adoption can close a cycle: the base is recorded on a branch the state left out, and that branch is
      the one adopted onto it. */
  lemma AdoptionCanCloseACycle()
    ensures TwoSided(LeftOut()) && Acyclic(ParentsOf(LeftOut())) && Path(OneLink("x", "b"), "b", "main")
    ensures AdoptedChain(LeftOut(), "main", OneLink("x", "b")).Some?
    ensures Above(ParentsOf(AdoptedChain(LeftOut(), "main", OneLink("x", "b")).value), "b", "b")
  {
    LeftOutIsSound();
    hide LeftOut, TwoSided;
    var t, chain := LeftOut(), OneLink("x", "b");
    ParentsAreWrittenFirst(t, "main", "b", chain);
    hide AdoptedChain;
    var after := AdoptedChain(t, "main", chain).value;
    assert chain[0].name == "x" && chain[0].name in after && Names(after[chain[0].name], chain[0]);
    assert !Adopts(chain, "b");
    assert SameRow(t["b"], after["b"]);
    TwoStepsUp(ParentsOf(after), "b", "x");
  }

  lemma TwoStepsUp(parents: Parents, b: Name, x: Name)
    requires b in parents && parents[b] == x && x in parents && parents[x] == b
    ensures Above(parents, b, b)
  {
    assert Up(parents, b, 0) == Some(b);
    assert Up(parents, x, 1) == Some(b);
    assert Up(parents, b, 2) == Some(b);
  }

  lemma NothingAboveItself(parents: Parents, c: Name)
    requires parents == map["x" := "main", "b" := "x"]
    ensures !Above(parents, c, c)
  {
    forall k: nat | k >= 1 ensures Up(parents, c, k) != Some(c) {
      assert k >= 2 && c == "b" ==> Up(parents, c, k) == Up(parents, "x", k - 1) == Up(parents, "main", k - 2);
    }
  }

  /** Adoption can leave a row no parent lists: one that named the adopted branch before it had a row. */
  lemma AdoptionCanMissAChild()
    ensures var t: Table :=
              map["main" := Record("", 0, 0, true, "none", []), "c" := Record("x", 0, 0, false, "none", [])];
            var chain := OneLink("x", "main");
            && TwoSided(t) && Path(chain, "main", "main")
            && AdoptedChain(t, "main", chain).Some?
            && var after := AdoptedChain(t, "main", chain).value;
               "c" in after && after["c"].parent == "x" && "x" in after && "c" !in after["x"].children
  {
    var t: Table := map["main" := Record("", 0, 0, true, "none", []), "c" := Record("x", 0, 0, false, "none", [])];
    var chain := OneLink("x", "main");
    LoneChildWaits(t, chain);
    hide TwoSided, Path, AdoptedChain, Strays, Sides, OneLink, SameRow;
    ParentsAreWrittenFirst(t, "main", "main", chain);
    AdoptionLeavesStrays(t, "main", "main", chain);
    var after := AdoptedChain(t, "main", chain).value;
    assert chain[0].name in after;
    assert SameRow(t["c"], after["c"]);
    SameParent(t["c"], after["c"]);
    InStrays(t, chain, "c");
  }

  lemma SameParent(a: Record, b: Record)
    requires SameRow(a, b)
    ensures a.parent == b.parent
  {
  }

  lemma LoneChildWaits(t: Table, chain: seq<Link>)
    requires t == map["main" := Record("", 0, 0, true, "none", []), "c" := Record("x", 0, 0, false, "none", [])]
    requires chain == OneLink("x", "main")
    ensures TwoSided(t) && Path(chain, "main", "main") && "main" in t
    ensures |chain| == 1 && chain[0].name == "x" && !Adopts(chain, "c") && Adopts(chain, "x")
  {
  }
}
