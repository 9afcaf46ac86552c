/** What a whole replay pass has done: each move sits on where its parent ends up. */
module RestackTheorem {
  import opened Wrappers
  import opened Forest
  import opened CommitGraph
  import opened RestackPlan
  import opened Replay
  import opened ReplayChain

  /** The parent a moved branch ends up recorded on. */
  function FinalParent(state: State, m: Move): Name
    requires m.branch in state && |state[m.branch].parents| > 0
  {
    if m.onto.Some? then m.onto.value else ParentRef(state, m.branch)
  }

  /** Where a branch stands once the moves are published: moved, pinned as trunk, or where it was. */
  ghost function FinalHead(s: Setting, moves: seq<Move>, n: Name): Option<nat> {
    if n in MovedHeads(s.pin, moves) then Some(MovedHeads(s.pin, moves)[n])
    else if n in s.state then Some(s.state[n].head)
    else None
  }

  /** m's branch was replayed by git, in the graph as it then stood, from a start whose span holds
      every commit of its own and no trunk commit. */
  ghost predicate ReplaysOwnWork(s: Setting, m: Move, from: nat, at: Graph)
    requires Sound(s) && m.branch in s.state && |s.state[m.branch].parents| > 0
  {
    && m.branch in s.live && FinalParent(s.state, m) in s.state && from < |s.graph|
    && s.graph <= at
    && s.git.replay(at, m.parent, from, m.previous).Replayed?
    && s.git.replay(at, m.parent, from, m.previous).head == m.head
    && HoldsOwnWork(s, m, from, s.live[m.branch])
  }

  /** The commits from..tip hold every commit tip has of its own and no trunk commit; without merges they
      are its own commits. */
  ghost predicate HoldsOwnWork(s: Setting, m: Move, from: nat, tip: nat)
    requires Sound(s) && m.branch in s.state && |s.state[m.branch].parents| > 0
    requires FinalParent(s.state, m) in s.state && from < |s.graph| && tip < |s.graph|
  {
    var span := Span(s.graph, from, tip);
    var own := OwnCommits(s.graph, tip, s.state[m.branch].parents[0].sha, s.state[FinalParent(s.state, m)].head);
    span !! Ancestors(s.graph, s.pin.sha) && own <= span && (SingleParent(s.graph) ==> own == span)
  }

  /** The commits git replayed, from..previous, are the branch's own work when the ref the pass read was
      still at the planned head, which publishing requires of it again. */
  lemma ReplayedSpanIsOwnWork(s: Setting, pass: Pass, m: Move) returns (from: nat, at: Graph)
    requires Sound(s) && PassSound(s, pass) && Settled(s, pass, m) && s.live[m.branch] == m.previous
    ensures from < |s.graph| && m.previous < |s.graph| && FinalParent(s.state, m) in s.state
    ensures s.git.replay(at, m.parent, from, m.previous).Replayed?
    ensures s.git.replay(at, m.parent, from, m.previous).head == m.head
    ensures HoldsOwnWork(s, m, from, m.previous)
  {
    from, at :| ReplaysOwnWork(s, m, from, at);
  }

  /** A branch whose parent the pass did not move, and whose parent's head is already in trunk. */
  ghost predicate ParentLanded(s: Setting, moves: seq<Move>, b: Name)
    requires Sound(s) && b in s.state && |s.state[b].parents| > 0
  {
    var p := ParentRef(s.state, b);
    p !in MovedHeads(s.pin, moves) && p in s.state && Reaches(s.graph, s.state[p].head, s.pin.sha)
  }

  /** m is where it belongs. */
  ghost predicate Settled(s: Setting, pass: Pass, m: Move)
    requires Sound(s) && PassSound(s, pass)
  {
    && m.branch in s.state && |s.state[m.branch].parents| > 0 && m.branch in s.live
    && m.previous == s.state[m.branch].head
    && m.parent < |pass.graph| && m.head < |pass.graph|
    && Reaches(pass.graph, m.parent, m.head)
    && FinalHead(s, pass.moves, FinalParent(s.state, m)) == Some(m.parent)
    && (m.onto.Some? <==> ParentLanded(s, pass.moves, m.branch))
    && (m.onto.Some? ==> m.onto.value == s.pin.name && m.parent == s.pin.sha)
    && !Reaches(pass.graph, s.live[m.branch], m.parent)
    && exists from, at :: ReplaysOwnWork(s, m, from, at)
  }

  /** b was skipped: its ref is already in trunk, where it would land, and a later mover sits on it. */
  ghost predicate Spent(s: Setting, movers: seq<Name>, moves: seq<Move>, b: Name)
    requires Sound(s) && Walkable(s.state, movers)
  {
    && b in movers && b in s.live && Reaches(s.graph, s.live[b], s.pin.sha)
    && (ParentRef(s.state, b) == s.pin.name || ParentLanded(s, moves, b))
    && exists c :: c in movers && ParentRef(s.state, c) == b
  }

  predicate Moved(moves: seq<Move>, b: Name) {
    exists i :: 0 <= i < |moves| && moves[i].branch == b
  }

  lemma MovedLast(moves: seq<Move>, n: Name)
    requires moves != []
    ensures Moved(moves, n) <==> Moved(moves[..|moves| - 1], n) || moves[|moves| - 1].branch == n
  {
  }

  lemma {:induction false} MovedHeadsKeys(pin: Pin, moves: seq<Move>)
    ensures forall n :: n in MovedHeads(pin, moves) <==> n == pin.name || Moved(moves, n)
    ensures !Moved(moves, pin.name) ==> MovedHeads(pin, moves)[pin.name] == pin.sha
    decreases |moves|
  {
    if moves != [] {
      var k := |moves| - 1;
      var front := moves[..k];
      MovedHeadsKeys(pin, front);
      forall n ensures Moved(moves, n) <==> Moved(front, n) || moves[k].branch == n {
        MovedLast(moves, n);
      }
    }
  }

  lemma {:induction false} MovedHeadsAt(pin: Pin, moves: seq<Move>, i: nat)
    requires i < |moves| && forall a, b :: 0 <= a < b < |moves| ==> moves[a].branch != moves[b].branch
    ensures moves[i].branch in MovedHeads(pin, moves) && MovedHeads(pin, moves)[moves[i].branch] == moves[i].head
    decreases |moves|
  {
    var k := |moves| - 1;
    if i < k {
      MovedHeadsAt(pin, moves[..k], i);
    }
  }

  lemma BestCommonAncestorStable(g: Graph, g': Graph, a: nat, b: nat, m: nat)
    requires WellFormed(g) && WellFormed(g') && g <= g' && a < |g| && b < |g| && IsMergeBase(g', a, b, m)
    ensures IsMergeBase(g, a, b, m)
  {
    ReachesBelow(g', m, a);
    forall c: nat, d: nat | d < |g| ensures Reaches(g, c, d) == Reaches(g', c, d) {
      ReachesStable(g, g', c, d);
    }
  }

  /** A start chosen and counted in a grown graph says the same of the graph it grew from. */
  lemma StartIsOwnWork(g: Graph, g': Graph, pin: nat, tip: nat, recorded: nat, parentHead: nat, fork: nat)
    requires WellFormed(g) && WellFormed(g') && g <= g'
    requires pin < |g| && tip < |g| && recorded < |g| && parentHead < |g|
    requires IsMergeBase(g', tip, parentHead, fork) && OwnWork(g', pin, tip, StartFrom(g', fork, tip, recorded))
    ensures var from := StartFrom(g', fork, tip, recorded);
            && from < |g| && Span(g, from, tip) !! Ancestors(g, pin)
            && OwnCommits(g, tip, recorded, parentHead) <= Span(g, from, tip)
            && (SingleParent(g) ==> OwnCommits(g, tip, recorded, parentHead) == Span(g, from, tip))
  {
    var from := StartFrom(g', fork, tip, recorded);
    BestCommonAncestorStable(g, g', tip, parentHead, fork);
    ReachesStable(g, g', recorded, tip);
    ReachesStable(g, g', recorded, fork);
    assert from == StartFrom(g, fork, tip, recorded);
    AncestorsStable(g, g', tip);
    AncestorsStable(g, g', from);
    AncestorsStable(g, g', pin);
    EqualCountsMeanNoTrunkCommit(g', pin, tip, from);
    SpanKeepsOwnCommits(g, tip, recorded, parentHead, fork);
    if SingleParent(g) {
      SpanIsOwnCommits(g, tip, recorded, parentHead, fork);
    }
  }

  /** The start one successful move was replayed from. */
  ghost predicate StartedFrom(s: Setting, g: Graph, b: Name, landing: Landing, from: nat)
    requires Sound(s) && WellFormed(g) && s.graph <= g && b in s.state && |s.state[b].parents| > 0
  {
    && b in s.live && landing.parent in s.state && landing.at < |g|
    && RestackFrom(s.git, g, s.live[b], s.state[b].parents[0].sha, s.state[landing.parent].head) == Some(from)
    && from < |g| && OwnWork(g, s.pin.sha, s.live[b], from)
    && s.git.replay(g, landing.at, from, s.state[b].head).Replayed?
  }

  /** What one successful iteration that moved its branch did. */
  lemma OneMove(s: Setting, pass: Pass, b: Name, later: seq<Name>) returns (landing: Landing, from: nat)
    requires Sound(s) && PassSound(s, pass) && Walkable(s.state, later) && b in s.state && |s.state[b].parents| > 0
    requires ReplayOne(s, pass, b, later).Success? && ReplayOne(s, pass, b, later).value != pass
    ensures LandingOf(s, MovedHeads(s.pin, pass.moves), b) == Some(landing)
    ensures StartedFrom(s, pass.graph, b, landing, from) && !Reaches(pass.graph, s.live[b], landing.at)
    ensures var out := s.git.replay(pass.graph, landing.at, from, s.state[b].head);
            ReplayOne(s, pass, b, later).value
            == Pass(out.graph, pass.moves + [Move(b, out.head, landing.at, s.state[b].head, landing.onto)])
  {
    HeadsAreCommits(s, pass);
    landing := LandingOf(s, MovedHeads(s.pin, pass.moves), b).value;
    from := RestackFrom(s.git, pass.graph, s.live[b], s.state[b].parents[0].sha, s.state[landing.parent].head).value;
  }

  lemma MoveReplaysOwnWork(s: Setting, g: Graph, b: Name, landing: Landing, from: nat, m: Move)
    requires Sound(s) && WellFormed(g) && s.graph <= g && b in s.state && |s.state[b].parents| > 0
    requires StartedFrom(s, g, b, landing, from)
    requires m == Move(b, s.git.replay(g, landing.at, from, s.state[b].head).head, landing.at, s.state[b].head,
                       landing.onto)
    requires FinalParent(s.state, m) == landing.parent
    ensures ReplaysOwnWork(s, m, from, g)
  {
    var parentHead := s.state[landing.parent].head;
    var fork := s.git.mergeBase(g, s.live[b], parentHead).value;
    StartIsOwnWork(s.graph, g, s.pin.sha, s.live[b], s.state[b].parents[0].sha, parentHead, fork);
  }

  /** The moves are of distinct movers among the first n, in the movers' order or not. */
  ghost predicate MovesAmong(movers: seq<Name>, n: nat, moves: seq<Move>)
    requires n <= |movers|
  {
    && (forall i, j :: 0 <= i < j < |moves| ==> moves[i].branch != moves[j].branch)
    && (forall i :: 0 <= i < |moves| ==> moves[i].branch in movers[..n])
  }

  /** The pass over the first n movers left each one moved to where it belongs, or spent. */
  ghost predicate AllSettled(s: Setting, movers: seq<Name>, n: nat, pass: Pass) {
    && Ready(s, movers) && n <= |movers| && PassSound(s, pass)
    && MovesAmong(movers, n, pass.moves)
    && (forall i :: 0 <= i < |pass.moves| ==> Settled(s, pass, pass.moves[i]))
    && (forall j :: 0 <= j < n ==> Moved(pass.moves, movers[j]) || Spent(s, movers, pass.moves, movers[j]))
  }

  /** A later mover's move changes nothing a settled branch depends on. */
  lemma SettledSurvives(s: Setting, movers: seq<Name>, n: nat, pass: Pass, after: Pass, last: Move, m: Move)
    requires Ready(s, movers) && n < |movers| && PassSound(s, pass) && PassSound(s, after)
    requires MovesAmong(movers, n, pass.moves) && after.moves == pass.moves + [last] && last.branch == movers[n]
    requires pass.graph <= after.graph
    requires m in pass.moves && Settled(s, pass, m)
    ensures Settled(s, after, m)
  {
    ReachesStable(pass.graph, after.graph, m.parent, m.head);
    ReachesStable(pass.graph, after.graph, s.live[m.branch], m.parent);
    var i :| 0 <= i < |pass.moves| && pass.moves[i] == m;
    var j :| 0 <= j < n && movers[..n][j] == m.branch;
    assert ParentRef(s.state, movers[j]) != movers[n];
    assert after.moves[..|after.moves| - 1] == pass.moves;
  }

  /** A later mover's move leaves a spent branch spent. */
  lemma SpentSurvives(s: Setting, movers: seq<Name>, n: nat, moves: seq<Move>, last: Move, j: nat)
    requires Ready(s, movers) && j < n < |movers| && last.branch == movers[n]
    requires Spent(s, movers, moves, movers[j])
    ensures Spent(s, movers, moves + [last], movers[j])
  {
    assert ParentRef(s.state, movers[j]) != movers[n];
    assert (moves + [last])[..|moves|] == moves;
  }

  /** The move just made is where it belongs. */
  lemma NewMoveSettles(s: Setting, movers: seq<Name>, n: nat, pass: Pass, after: Pass)
    requires Ready(s, movers) && n < |movers| && PassSound(s, pass) && PassSound(s, after)
    requires MovesAmong(movers, n, pass.moves)
    requires StepsTo(s, movers, n, pass, after) && after != pass
    ensures |after.moves| == |pass.moves| + 1 && after.moves[..|pass.moves|] == pass.moves
    ensures after.moves[|pass.moves|].branch == movers[n] && Settled(s, after, after.moves[|pass.moves|])
  {
    var b := movers[n];
    var landing, from := OneMove(s, pass, b, movers[n + 1..]);
    var out := s.git.replay(pass.graph, landing.at, from, s.state[b].head);
    var m := Move(b, out.head, landing.at, s.state[b].head, landing.onto);
    assert Extends(pass.graph, landing.at, out);
    assert after == Pass(out.graph, pass.moves + [m]);
    assert after.moves[..|pass.moves|] == pass.moves;
    ReachesStable(pass.graph, after.graph, s.live[b], landing.at);
    MovedHeadsKeys(s.pin, pass.moves);
    TrunkNeverMoves(s, movers, n, pass.moves);
    assert ParentRef(s.state, movers[n]) != movers[n];
    MoveReplaysOwnWork(s, pass.graph, b, landing, from, m);
    assert b !in movers[..n];
    assert FinalHead(s, after.moves, FinalParent(s.state, m)) == Some(m.parent);
  }

  lemma TrunkNeverMoves(s: Setting, movers: seq<Name>, n: nat, moves: seq<Move>)
    requires Ready(s, movers) && n <= |movers| && MovesAmong(movers, n, moves)
    ensures !Moved(moves, s.pin.name)
    ensures s.pin.name in MovedHeads(s.pin, moves) && MovedHeads(s.pin, moves)[s.pin.name] == s.pin.sha
  {
  }

  /** A mover skipped without a move is spent. */
  lemma SkippedIsSpent(s: Setting, movers: seq<Name>, n: nat, pass: Pass)
    requires Ready(s, movers) && n < |movers| && PassSound(s, pass) && MovesAmong(movers, n, pass.moves)
    requires StepsTo(s, movers, n, pass, pass)
    ensures Spent(s, movers, pass.moves, movers[n])
  {
    hide Reaches, OwnWork, Honest, MovedHeads;
    var b, later := movers[n], movers[n + 1..];
    var landing := LandingOf(s, MovedHeads(s.pin, pass.moves), b).value;
    TrunkNeverMoves(s, movers, n, pass.moves);
    HeadsAreCommits(s, pass);
    assert landing.parent == s.pin.name && landing.at == s.pin.sha && Reaches(pass.graph, s.live[b], landing.at);
    ReachesStable(s.graph, pass.graph, s.live[b], s.pin.sha);
    var i :| 0 <= i < |later| && ParentRef(s.state, later[i]) == b;
    assert later[i] == movers[n + 1 + i];
    assert later[i] in movers && b in movers;
  }

  /** The replay pass settles every mover it walks. */
  lemma {:induction false} PassSettles(s: Setting, movers: seq<Name>, n: nat, pass: Pass)
    requires Ready(s, movers) && n <= |movers| && ReplayUpTo(s, movers, n) == Success(pass)
    ensures AllSettled(s, movers, n, pass)
    decreases n, 1
  {
    hide ReplayOne;
    if n > 0 {
      PassSettlesNext(s, movers, n - 1, pass);
    }
  }

  lemma {:induction false} PassSettlesNext(s: Setting, movers: seq<Name>, k: nat, pass: Pass)
    requires Ready(s, movers) && k < |movers| && ReplayUpTo(s, movers, k + 1) == Success(pass)
    ensures AllSettled(s, movers, k + 1, pass)
    decreases k + 1, 0
  {
    hide ReplayOne, AllSettled, StepsTo;
    var before := UpToPrevious(s, movers, k, pass);
    PassSettles(s, movers, k, before);
    PassExtends(s, movers, k, before, pass);
  }

  lemma PassExtends(s: Setting, movers: seq<Name>, n: nat, pass: Pass, after: Pass)
    requires AllSettled(s, movers, n, pass) && n < |movers| && StepsTo(s, movers, n, pass, after)
    ensures AllSettled(s, movers, n + 1, after)
  {
    hide ReplayOne, Settled, Spent;
    assert PassSound(s, after);
    if after == pass {
      SkippedIsSpent(s, movers, n, pass);
      assert movers[..n + 1] == movers[..n] + [movers[n]];
    } else {
      PassExtendsByMove(s, movers, n, pass, after);
    }
  }

  lemma PassExtendsByMove(s: Setting, movers: seq<Name>, n: nat, pass: Pass, after: Pass)
    requires AllSettled(s, movers, n, pass) && n < |movers| && StepsTo(s, movers, n, pass, after) && after != pass
    ensures AllSettled(s, movers, n + 1, after)
  {
    hide ReplayOne, Settled, Spent;
    NewMoveSettles(s, movers, n, pass, after);
    var last := after.moves[|pass.moves|];
    assert after.moves == pass.moves + [last];
    StillAmong(movers, n, pass.moves, last);
    MovesStaySettled(s, movers, n, pass, after, last);
    MoversStayCovered(s, movers, n, pass.moves, last);
  }

  lemma StillAmong(movers: seq<Name>, n: nat, moves: seq<Move>, last: Move)
    requires n < |movers| && Distinct(movers) && MovesAmong(movers, n, moves) && last.branch == movers[n]
    ensures MovesAmong(movers, n + 1, moves + [last])
  {
    assert movers[..n + 1] == movers[..n] + [movers[n]];
    assert movers[n] !in movers[..n];
  }

  lemma MovesStaySettled(s: Setting, movers: seq<Name>, n: nat, pass: Pass, after: Pass, last: Move)
    requires Ready(s, movers) && n < |movers| && PassSound(s, pass) && PassSound(s, after)
    requires AllSettled(s, movers, n, pass) && pass.graph <= after.graph
    requires after.moves == pass.moves + [last] && last.branch == movers[n] && Settled(s, after, last)
    ensures forall i :: 0 <= i < |after.moves| ==> Settled(s, after, after.moves[i])
  {
    forall i | 0 <= i < |pass.moves| ensures Settled(s, after, after.moves[i]) {
      assert after.moves[i] == pass.moves[i] && pass.moves[i] in pass.moves;
      SettledSurvives(s, movers, n, pass, after, last, after.moves[i]);
    }
  }

  lemma MoversStayCovered(s: Setting, movers: seq<Name>, n: nat, moves: seq<Move>, last: Move)
    requires Ready(s, movers) && n < |movers| && last.branch == movers[n]
    requires forall j :: 0 <= j < n ==> Moved(moves, movers[j]) || Spent(s, movers, moves, movers[j])
    ensures forall j :: 0 <= j < n + 1 ==>
              Moved(moves + [last], movers[j]) || Spent(s, movers, moves + [last], movers[j])
  {
    var after := moves + [last];
    forall j | 0 <= j < n + 1 ensures Moved(after, movers[j]) || Spent(s, movers, after, movers[j]) {
      if j == n {
        assert after[|moves|].branch == movers[n];
      } else if Moved(moves, movers[j]) {
        var i :| 0 <= i < |moves| && moves[i].branch == movers[j];
        assert after[i].branch == movers[j];
      } else {
        SpentSurvives(s, movers, n, moves, last, j);
      }
    }
  }

  /** A pass that fails had settled every mover before the one whose turn failed, and that turn failed for one of
      the listed causes. */
  lemma FailsAfterASettledPrefix(s: Setting, movers: seq<Name>, e: ReplayError) returns (n: nat, pass: Pass)
    requires Ready(s, movers) && PassFails(s, movers, e)
    ensures n < |movers| && AllSettled(s, movers, n, pass)
    ensures Turn(s, pass, movers[n], movers[n + 1..], Failure(e))
  {
    hide ReplayUpTo, AllSettled, PassEnds, Turn;
    var k: nat;
    k, pass :| 0 < k <= |movers| && TurnsTo(s, movers, k, pass, Failure(e)) && PassEnds(s, movers, k - 1, pass);
    n := k - 1;
    PassEndsIs(s, movers, n, pass);
    PassSettles(s, movers, n, pass);
  }

  /** A branch whose parent is already in trunk moves onto the pinned trunk and is reparented there, whenever it is
      not itself in trunk, its span holds no trunk commit, and git replays it. */
  lemma ChildOfLandedParentMoves(s: Setting, movers: seq<Name>, n: nat, pass: Pass, from: nat)
    requires AllSettled(s, movers, n, pass) && n < |movers|
    requires var b := movers[n];
             && Read(s, b) && ParentLanded(s, pass.moves, b) && !Reaches(s.graph, s.live[b], s.pin.sha)
             && from < |pass.graph|
             && StartsAt(s, pass.graph, b, Landing(s.pin.sha, s.pin.name, Some(s.pin.name)), from)
             && !MeetsTrunk(s, pass.graph, b, from)
             && s.git.replay(pass.graph, s.pin.sha, from, s.state[b].head).Replayed?
    ensures var b := movers[n];
            var out := s.git.replay(pass.graph, s.pin.sha, from, s.state[b].head);
            var m := Move(b, out.head, s.pin.sha, s.state[b].head, Some(s.pin.name));
            Turn(s, pass, b, movers[n + 1..], Success(Pass(out.graph, pass.moves + [m])))
  {
    var b, l := movers[n], Landing(s.pin.sha, s.pin.name, Some(s.pin.name));
    hide Settled, Spent, Reaches, MovedTo, MovedHeads, StartsAt, MeetsTrunk, MovesAmong, Distinct, ParentsFirst, Honest;
    MovedToIs(s.pin, pass.moves, ParentRef(s.state, b));
    ReachesStable(s.graph, pass.graph, s.live[b], s.pin.sha);
    TrunkNeverMoves(s, movers, n, pass.moves);
    assert ParentRef(s.state, b) in s.state && ParentRef(s.state, b) != s.pin.name;
    assert LandsOn(s, pass.moves, b, l);
    assert ToReplay(s, pass, b, l, from);
  }

  /** A child of a spent branch lands on the pinned trunk and is reparented there. */
  lemma ChildOfSpentLandsOnTrunk(s: Setting, movers: seq<Name>, pass: Pass, b: Name, i: nat)
    requires AllSettled(s, movers, |movers|, pass) && i < |pass.moves|
    requires Spent(s, movers, pass.moves, b) && !Moved(pass.moves, b) && b in s.state && s.live[b] == s.state[b].head
    requires pass.moves[i].branch in s.state && |s.state[pass.moves[i].branch].parents| > 0
    requires ParentRef(s.state, pass.moves[i].branch) == b
    ensures pass.moves[i].onto == Some(s.pin.name) && pass.moves[i].parent == s.pin.sha
  {
    hide ReplaysOwnWork, MovedHeads;
    assert Settled(s, pass, pass.moves[i]);
    MovedHeadsKeys(s.pin, pass.moves);
    assert b in movers;
  }
}
