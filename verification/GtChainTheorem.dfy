/** What a chain of untracked branches is worth: distinct names, and each commit in one link. */
module GtChainTheorem {
  import opened Wrappers
  import opened Forest
  import opened CommitGraph
  import opened GtLine
  import opened GtChain

  /** An untracked branch, not the one asked about, whose head the tip reaches and the floor does not. */
  ghost predicate InTheWay(r: Reading, name: Name, head: nat)
    requires WellFormed(r.g) && r.floor < |r.g| && r.tip < |r.g|
  {
    name !in r.tracked && name != r.branch && Reaches(r.g, head, r.tip) && !Reaches(r.g, head, r.floor)
  }

  ghost predicate HasLocal(r: Reading, name: Name) {
    exists i :: 0 <= i < |r.locals| && r.locals[i].name == name
  }

  /** git lists the branch: locally; or, for a branch that is only on the remote, among the remote's heads below the
      tip, when nothing local has its name and it is none of gt's or ccx's own. */
  ghost predicate GitLists(r: Reading, name: Name, head: nat) {
    || RefRow(name, head) in r.locals
    || (r.remote != "" && !HasLocal(r, r.branch) && r.remoteHeads.Some? && RefRow(name, head) in r.remoteHeads.value
        && !HasLocal(r, name) && head != r.tip && !("graphite-base/" <= name) && !("ccx-segment/" <= name))
  }

  /** git's reflog says the branch was cut from name, or from the remote's branch of that name. */
  ghost predicate WasCutFrom(r: Reading, name: Name) {
    match r.cutFrom(r.branch)
    case None => false
    case Some(from) => from == name || (r.remote != "" && from == r.remote + "/" + name)
  }

  /** When the remote is asked, and which reflog answers make a cut. */
  lemma QuestionsAre(r: Reading, name: Name)
    ensures AsksRemote(r) <==> r.remote != "" && !HasLocal(r, r.branch)
    ensures Cuts(r, name) <==> WasCutFrom(r, name)
  {
  }

  /** The branches a chain passes through: every one git lists in the way below the tip, and the one at the tip the
      branch was cut from. */
  lemma BetweenIs(r: Reading, cut: Option<Name>, name: Name, head: nat)
    requires Sound(r)
    ensures Between(r, cut, name, head) <==>
              || (GitLists(r, name, head) && InTheWay(r, name, head) && head != r.tip)
              || (cut == Some(name) && head == r.tip)
  {
    AncestorsExact(r.g, r.tip);
    AncestorsExact(r.g, r.floor);
    hide Reaches, WellFormed, IsMergeBase;
  }

  /** Which level branch a chain may pass through: a local one in the way at the tip that the branch was cut from;
      and none only when there is none, and each local one at the tip was cut from the branch. */
  lemma CutOkIs(r: Reading, cut: Option<Name>)
    requires Sound(r)
    ensures CutOk(r, cut) <==>
              match cut
              case Some(name) => RefRow(name, r.tip) in r.locals && InTheWay(r, name, r.tip) && WasCutFrom(r, name)
              case None =>
                forall row :: row in r.locals && row.head == r.tip && InTheWay(r, row.name, r.tip) ==>
                  !WasCutFrom(r, row.name) && r.cutFrom(row.name) == Some(r.branch)
  {
    AncestorsExact(r.g, r.tip);
    AncestorsExact(r.g, r.floor);
    hide Reaches, WellFormed, IsMergeBase;
    forall name ensures AtTip(r, name) <==> RefRow(name, r.tip) in r.locals && InTheWay(r, name, r.tip) {
    }
    forall name ensures Cuts(r, name) <==> WasCutFrom(r, name) {
    }
    hide AtTip, InTheWay, Cuts, WasCutFrom;
    if cut.None? {
      forall row | row in r.locals && row.head == r.tip ensures row == RefRow(row.name, r.tip) {
      }
    }
  }

  /** The links of a chain below its branch are exactly those branches, each with its own head. */
  lemma LinksAre(r: Reading, cut: Option<Name>, chain: seq<Link>, name: Name, head: nat)
    requires Sound(r) && IsChain(r, cut, chain)
    ensures (exists i :: 0 <= i < |chain| - 1 && chain[i].name == name && chain[i].head == head) <==>
              || (GitLists(r, name, head) && InTheWay(r, name, head) && head != r.tip)
              || (cut == Some(name) && head == r.tip)
  {
    BetweenIs(r, cut, name, head);
    hide Between, GitLists, InTheWay, Climbs, WellFormed, IsMergeBase;
    if Between(r, cut, name, head) {
      assert Holds(chain, name, head);
    }
  }

  /** Every link below the branch is a different, untracked branch, and none of them is the branch;
      nor the base, when the base is tracked or its own head is out of the range. */
  lemma LinksAreDistinct(r: Reading, cut: Option<Name>, chain: seq<Link>, i: nat, j: nat)
    requires Sound(r) && CutOk(r, cut) && IsChain(r, cut, chain)
    requires i < |chain| && j < |chain|
    ensures i != j ==> chain[i].name != chain[j].name
    ensures i < |chain| - 1 ==> chain[i].name !in r.tracked && chain[i].name != r.branch
    ensures i < |chain| - 1 && BaseOutOfRange(r) ==> chain[i].name != r.base
  {
    hide Reaches, IsMergeBase, WellFormed, InRange;
    if i < |chain| - 1 {
      BetweenIsListed(r, cut, chain[i].name, chain[i].head);
    }
    if j < |chain| - 1 {
      BetweenIsListed(r, cut, chain[j].name, chain[j].head);
    }
    if i < |chain| - 1 && j < |chain| - 1 && chain[i].name == chain[j].name {
      OneHead(r, chain[i].name, chain[i].head, chain[j].head);
    }
  }

  /** The base is tracked, or every head listed for it is out of the range. */
  predicate BaseOutOfRange(r: Reading)
    requires WellFormed(r.g) && r.floor < |r.g| && r.tip < |r.g|
  {
    r.base in r.tracked || forall row :: row in AllListed(r) && row.name == r.base ==> row.head !in InRange(r)
  }

  lemma BetweenIsListed(r: Reading, cut: Option<Name>, name: Name, head: nat)
    requires Sound(r) && CutOk(r, cut) && Between(r, cut, name, head)
    ensures Listed(r, RefRow(name, head)) && Candidate(r, RefRow(name, head))
  {
  }

  lemma OneHead(r: Reading, name: Name, a: nat, b: nat)
    requires Sound(r) && Listed(r, RefRow(name, a)) && Listed(r, RefRow(name, b))
    ensures a == b
  {
  }

  /** The commits of one link: git rev-list base..head. */
  ghost function Commits(r: Reading, link: Link): set<nat>
    requires WellFormed(r.g)
  {
    if link.base < |r.g| && link.head < |r.g| then Span(r.g, link.base, link.head) else {}
  }

  lemma {:induction false} BasesReach(r: Reading, cut: Option<Name>, chain: seq<Link>, i: nat)
    requires Sound(r) && IsChain(r, cut, chain) && i < |chain|
    ensures chain[i].base < |r.g| && chain[i].head < |r.g|
    ensures Reaches(r.g, chain[i].base, chain[i].head)
    ensures i > 0 ==> chain[i].base == chain[i - 1].head
  {
    if i > 0 {
      assert Joined(chain[i - 1], chain[i]) && Climbs(r.g, chain[i - 1], chain[i]);
    }
  }

  lemma SpansNest(g: Graph, a: nat, b: nat, c: nat)
    requires WellFormed(g) && a < |g| && b < |g| && c < |g| && Reaches(g, a, b) && Reaches(g, b, c)
    ensures Span(g, a, c) == Span(g, a, b) + Span(g, b, c)
    ensures Span(g, a, b) !! Span(g, b, c)
  {
    AncestorsExact(g, a);
    AncestorsExact(g, b);
    AncestorsExact(g, c);
    forall d: nat | Reaches(g, d, a) ensures Reaches(g, d, b) {
      ReachesTransitive(g, d, a, b);
    }
    forall d: nat | Reaches(g, d, b) ensures Reaches(g, d, c) {
      ReachesTransitive(g, d, b, c);
    }
  }

  /** A commit is between the fork and a link's head exactly when it is in that link or one below. */
  lemma {:induction false} CoveredUpTo(r: Reading, cut: Option<Name>, chain: seq<Link>, n: nat, c: nat)
    requires Sound(r) && IsChain(r, cut, chain) && n < |chain|
    ensures chain[0].base < |r.g| && chain[n].head < |r.g| && Reaches(r.g, chain[0].base, chain[n].head)
    ensures c in Span(r.g, chain[0].base, chain[n].head) <==> exists i :: 0 <= i <= n && c in Commits(r, chain[i])
    decreases n
  {
    BasesReach(r, cut, chain, n);
    if n > 0 {
      CoveredUpTo(r, cut, chain, n - 1, c);
      ReachesTransitive(r.g, chain[0].base, chain[n - 1].head, chain[n].head);
      SpansNest(r.g, chain[0].base, chain[n - 1].head, chain[n].head);
      assert c in Commits(r, chain[n]) <==> c in Span(r.g, chain[n - 1].head, chain[n].head);
      hide Span, IsChain, Sound;
      if exists i :: 0 <= i <= n && c in Commits(r, chain[i]) {
        var i :| 0 <= i <= n && c in Commits(r, chain[i]);
        assert i <= n - 1 || i == n;
      }
    } else {
      assert c in Commits(r, chain[0]) <==> c in Span(r.g, chain[0].base, chain[0].head);
    }
  }

  /** No commit is in two links, with or without merges. */
  lemma LinksShareNoCommit(r: Reading, cut: Option<Name>, chain: seq<Link>, i: nat, j: nat, c: nat)
    requires Sound(r) && IsChain(r, cut, chain) && i < j < |chain|
    ensures !(c in Commits(r, chain[i]) && c in Commits(r, chain[j]))
  {
    BasesReach(r, cut, chain, i);
    BasesReach(r, cut, chain, j);
    if c in Commits(r, chain[i]) && c in Commits(r, chain[j]) {
      AncestorsExact(r.g, chain[i].head);
      AncestorsExact(r.g, chain[j].base);
      if i < j - 1 {
        assert Climbs(r.g, chain[i], chain[j - 1]);
        ReachesTransitive(r.g, c, chain[i].head, chain[j - 1].head);
      }
    }
  }

  /** Every link below the branch has commits of its own, its head among them. */
  lemma LinksOwnTheirHead(r: Reading, cut: Option<Name>, chain: seq<Link>, i: nat)
    requires Sound(r) && CutOk(r, cut) && IsChain(r, cut, chain) && i < |chain| - 1
    ensures chain[i].head in Commits(r, chain[i])
  {
    BasesReach(r, cut, chain, i);
    BetweenIsListed(r, cut, chain[i].name, chain[i].head);
    AncestorsExact(r.g, chain[i].head);
    AncestorsExact(r.g, chain[i].base);
    AncestorsExact(r.g, r.floor);
    if Reaches(r.g, chain[i].head, chain[i].base) {
      ReachesAntisymmetric(r.g, chain[i].head, chain[i].base);
    }
  }

  /** Without merges the links cover the range from the floor to the tip, each commit once. */
  lemma LinksPartitionTheRange(r: Reading, cut: Option<Name>, chain: seq<Link>, c: nat)
    requires Sound(r) && SingleParent(r.g) && CutOk(r, cut) && IsChain(r, cut, chain)
    ensures c in InRange(r) <==> exists i :: 0 <= i < |chain| && c in Commits(r, chain[i])
    ensures forall i, j :: 0 <= i < j < |chain| ==> !(c in Commits(r, chain[i]) && c in Commits(r, chain[j]))
  {
    forall i, j | 0 <= i < j < |chain| ensures !(c in Commits(r, chain[i]) && c in Commits(r, chain[j])) {
      LinksShareNoCommit(r, cut, chain, i, j, c);
    }
    var last := |chain| - 1;
    CoveredUpTo(r, cut, chain, last, c);
    BasesReach(r, cut, chain, 0);
    BottomIsAboveTheFloor(r, cut, chain);
    RangeFromTheFork(r, chain[0].head, chain[0].base);
    hide Span, IsChain, Sound;
    assert c in InRange(r) <==> c in Span(r.g, chain[0].base, chain[last].head);
    if exists i :: 0 <= i < |chain| && c in Commits(r, chain[i]) {
      var i :| 0 <= i < |chain| && c in Commits(r, chain[i]);
      assert 0 <= i <= last;
    }
  }

  lemma BottomIsAboveTheFloor(r: Reading, cut: Option<Name>, chain: seq<Link>)
    requires Sound(r) && CutOk(r, cut) && IsChain(r, cut, chain)
    ensures chain[0].head < |r.g| && Reaches(r.g, chain[0].head, r.tip)
    ensures chain[0].head == r.tip || chain[0].head in InRange(r)
    ensures chain[|chain| - 1].head == r.tip
  {
  }

  /** Whether the range starts at the floor or at the fork of the bottom branch makes no difference. */
  lemma RangeFromTheFork(r: Reading, bottom: nat, fork: nat)
    requires WellFormed(r.g) && SingleParent(r.g) && r.floor < |r.g| && r.tip < |r.g| && bottom < |r.g|
    requires Reaches(r.g, bottom, r.tip) && (bottom == r.tip || bottom in InRange(r))
    requires IsMergeBase(r.g, bottom, r.floor, fork)
    ensures InRange(r) == Span(r.g, fork, r.tip)
  {
    MergeBaseIsSharedHistory(r.g, bottom, r.floor, fork);
    AncestorsExact(r.g, bottom);
    AncestorsExact(r.g, r.floor);
    AncestorsExact(r.g, r.tip);
    forall c | c in Ancestors(r.g, r.tip) && c in Ancestors(r.g, r.floor) ensures c in Ancestors(r.g, bottom) {
      if bottom != r.tip {
        AncestorsFormALine(r.g, c, bottom, r.tip);
        if Reaches(r.g, bottom, c) {
          ReachesTransitive(r.g, bottom, c, r.floor);
        }
      }
    }
    assert Ancestors(r.g, fork) <= Ancestors(r.g, r.floor);
  }

  /** Without merges no candidate is off the line, so only two branches at one commit are refused. */
  lemma RefusedOnlyForSharedCommits(r: Reading, cut: Option<Name>)
    requires Sound(r) && SingleParent(r.g) && CutOk(r, cut)
    ensures Branching(r, cut) <==> exists a, b, head :: a != b && Between(r, cut, a, head) && Between(r, cut, b, head)
  {
    forall a, head | Between(r, cut, a, head) ensures head in Line(r.g, InRange(r), r.tip) {
      BetweenIsListed(r, cut, a, head);
      AncestorsExact(r.g, r.tip);
      if r.tip !in InRange(r) {
        AncestorsExact(r.g, r.floor);
        ReachesTransitive(r.g, head, r.tip, r.floor);
      }
      LineIsTheRange(r.g, r.floor, r.tip, head, r.tip);
    }
  }
}
