/** The pass that replays each mover onto where its parent ends up. */
module ReplayChain {
  import opened Wrappers
  import opened Forest
  import opened CommitGraph
  import opened RestackPlan
  import opened Replay

  /** The trunk branch and the commit one restack lands every lane on. */
  datatype Pin = Pin(name: Name, sha: nat)

  /** One branch's move: its new head, the commit it was replayed onto, the head it left, and the
      branch it was reparented onto, if it was. */
  datatype Move = Move(branch: Name, head: nat, parent: nat, previous: nat, onto: Option<Name>)

  datatype ReplayError =
    | ReadFailed(branch: Name)
    | AlreadyMerged(branch: Name)
    | Duplicates(branch: Name)
    | ReplayConflict(branch: Name, onto: Name)
    | ReplayBroken(branch: Name)

  /** A replay pass so far: the grown graph and the moves made, in order. */
  datatype Pass = Pass(graph: Graph, moves: seq<Move>)

  /** Everything a pass reads. live is where each branch's ref stands while the pass runs. */
  datatype Setting = Setting(git: Git, graph: Graph, state: State, pin: Pin, live: map<Name, nat>)

  /** Heads, recorded revisions and refs name commits of the graph, and the pin is trunk's head. */
  ghost predicate Sound(s: Setting) {
    && WellFormed(s.graph) && Honest(s.git)
    && (forall b :: b in s.state ==> s.state[b].head < |s.graph|)
    && (forall b, i :: b in s.state && 0 <= i < |s.state[b].parents| ==> s.state[b].parents[i].sha < |s.graph|)
    && (forall b :: b in s.live ==> s.live[b] < |s.graph|)
    && s.pin.name in s.state && s.state[s.pin.name].head == s.pin.sha
  }

  /** The movers a pass can walk: tracked, distinct, parents first, without trunk. */
  ghost predicate Ready(s: Setting, movers: seq<Name>) {
    Sound(s) && Walkable(s.state, movers) && Distinct(movers) && ParentsFirst(s.state, movers) && s.pin.name !in movers
  }

  /** The heads moved so far, over trunk's pinned head. */
  function MovedHeads(pin: Pin, moves: seq<Move>): map<Name, nat> {
    if moves == [] then map[pin.name := pin.sha]
    else MovedHeads(pin, moves[..|moves| - 1])[moves[|moves| - 1].branch := moves[|moves| - 1].head]
  }

  /** Where a branch is to land: the commit, the parent it then sits on, and whether that parent is new. */
  datatype Landing = Landing(at: nat, parent: Name, onto: Option<Name>)

  function LandingOf(s: Setting, heads: map<Name, nat>, b: Name): Option<Landing>
    requires Sound(s) && b in s.state && |s.state[b].parents| > 0
  {
    var p := ParentRef(s.state, b);
    if p in heads then Some(Landing(heads[p], p, None))
    else if p !in s.state then None
    else if p != s.pin.name && Reaches(s.graph, s.state[p].head, s.pin.sha) then
      Some(Landing(s.pin.sha, s.pin.name, Some(s.pin.name)))
    else Some(Landing(s.state[p].head, p, None))
  }

  ghost predicate PassSound(s: Setting, pass: Pass) {
    && WellFormed(pass.graph) && s.graph <= pass.graph
    && forall m :: m in pass.moves ==> m.head < |pass.graph| && m.parent < |pass.graph|
  }

  /** The replay itself: git asked for the commits past from, onto where the branch lands. */
  function ReplayOnto(s: Setting, pass: Pass, b: Name, landing: Landing, from: nat): (r: Result<Pass, ReplayError>)
    requires Sound(s) && PassSound(s, pass) && b in s.state && landing.at < |pass.graph| && from < |pass.graph|
    ensures r.Success? ==> PassSound(s, r.value) && pass.graph <= r.value.graph
    ensures r.Success? ==> exists m: Move :: m.branch == b && r.value.moves == pass.moves + [m]
  {
    match s.git.replay(pass.graph, landing.at, from, s.state[b].head)
    case Conflict => Failure(ReplayConflict(b, landing.parent))
    case Broken => Failure(ReplayBroken(b))
    case Replayed(graph, head) =>
      assert Extends(pass.graph, landing.at, s.git.replay(pass.graph, landing.at, from, s.state[b].head));
      var m := Move(b, head, landing.at, s.state[b].head, landing.onto);
      assert m.branch == b;
      Success(Pass(graph, pass.moves + [m]))
  }

  /** One iteration of gtReplayChain, with the movers still to come. */
  function ReplayOne(s: Setting, pass: Pass, b: Name, later: seq<Name>): (r: Result<Pass, ReplayError>)
    requires Sound(s) && PassSound(s, pass) && Walkable(s.state, later) && b in s.state && |s.state[b].parents| > 0
    ensures r.Success? ==> PassSound(s, r.value) && pass.graph <= r.value.graph
    ensures r.Success? && r.value != pass ==>
              exists m: Move :: m.branch == b && r.value.moves == pass.moves + [m]
  {
    if s.git.readFails(b) || b !in s.live then Failure(ReadFailed(b))
    else
      match LandingOf(s, MovedHeads(s.pin, pass.moves), b)
      case None => Failure(ReadFailed(b))
      case Some(landing) =>
        HeadsAreCommits(s, pass);
        if Reaches(pass.graph, s.live[b], landing.at) then
          if landing.parent == s.pin.name && exists i :: 0 <= i < |later| && ParentRef(s.state, later[i]) == b
          then Success(pass) else Failure(AlreadyMerged(b))
        else if landing.parent !in s.state then Failure(ReadFailed(b))
        else
          match RestackFrom(s.git, pass.graph, s.live[b], s.state[b].parents[0].sha, s.state[landing.parent].head)
          case None => Failure(ReadFailed(b))
          case Some(from) =>
            if !OwnWork(pass.graph, s.pin.sha, s.live[b], from) then Failure(Duplicates(b))
            else ReplayOnto(s, pass, b, landing, from)
  }

  lemma {:induction false} HeadsAreCommits(s: Setting, pass: Pass)
    requires Sound(s) && PassSound(s, pass)
    ensures forall n :: n in MovedHeads(s.pin, pass.moves) ==> MovedHeads(s.pin, pass.moves)[n] < |pass.graph|
    decreases |pass.moves|
  {
    if pass.moves != [] {
      var n := |pass.moves| - 1;
      assert pass.moves[n] in pass.moves;
      HeadsAreCommits(s, Pass(pass.graph, pass.moves[..n]));
    }
  }

  // ---------------------------------------------------------------------------
  // What one turn answers, from the state and git's answers alone
  // ---------------------------------------------------------------------------

  /** The last move of n, if any, left it at head. */
  ghost predicate MovedTo(moves: seq<Move>, n: Name, head: nat) {
    exists i :: 0 <= i < |moves| && moves[i].branch == n && moves[i].head == head
                && forall j :: i < j < |moves| ==> moves[j].branch != n
  }

  ghost predicate NotMoved(moves: seq<Move>, n: Name) {
    forall i :: 0 <= i < |moves| ==> moves[i].branch != n
  }

  /** Where b is to land: where its parent moved to; else on the pin, when its parent is trunk, or is already in
      the pin and b is reparented onto trunk; else at its parent's own head. */
  ghost predicate LandsOn(s: Setting, moves: seq<Move>, b: Name, l: Landing)
    requires Sound(s) && b in s.state && |s.state[b].parents| > 0
  {
    var p := s.state[b].parents[0].ref;
    || (MovedTo(moves, p, l.at) && l.parent == p && l.onto == None)
    || (NotMoved(moves, p)
        && (|| (p == s.pin.name && l == Landing(s.pin.sha, s.pin.name, None))
            || (p != s.pin.name && p in s.state
                && if Reaches(s.graph, s.state[p].head, s.pin.sha)
                   then l == Landing(s.pin.sha, s.pin.name, Some(s.pin.name))
                   else l == Landing(s.state[p].head, p, None))))
  }

  /** The commit a branch's own work starts at: the merge base of its ref and its parent's head, unless the
      recorded revision is below the ref and not below that. */
  ghost predicate StartsAt(s: Setting, g: Graph, b: Name, l: Landing, from: nat)
    requires Sound(s) && WellFormed(g) && s.graph <= g && b in s.state && |s.state[b].parents| > 0
    requires b in s.live && l.parent in s.state
  {
    var tip, recorded := s.live[b], s.state[b].parents[0].sha;
    var base := s.git.mergeBase(g, tip, s.state[l.parent].head);
    base.Some? && base.value < |g|
    && from == if Reaches(g, recorded, tip) && !Reaches(g, recorded, base.value) then recorded else base.value
  }

  /** b's ref is below where it lands. */
  ghost predicate MergedAt(s: Setting, pass: Pass, b: Name, l: Landing)
    requires PassSound(s, pass) && b in s.live
  {
    l.at < |pass.graph| && Reaches(pass.graph, s.live[b], l.at)
  }

  /** b lands on trunk, and a mover still to come sits on b. */
  ghost predicate Skips(s: Setting, b: Name, later: seq<Name>, l: Landing)
    requires Walkable(s.state, later)
  {
    l.parent == s.pin.name && exists i :: 0 <= i < |later| && s.state[later[i]].parents[0].ref == b
  }

  /** The branch can be read: its commands answer, and it has a ref. */
  ghost predicate Read(s: Setting, b: Name) { !s.git.readFails(b) && b in s.live }

  /** b is to be replayed onto l from a start git could find. */
  ghost predicate ToReplay(s: Setting, pass: Pass, b: Name, l: Landing, from: nat)
    requires Sound(s) && PassSound(s, pass) && b in s.state && |s.state[b].parents| > 0
  {
    && Read(s, b) && LandsOn(s, pass.moves, b, l) && !MergedAt(s, pass, b, l) && l.at < |pass.graph|
    && l.parent in s.state && StartsAt(s, pass.graph, b, l, from) && from < |pass.graph|
  }

  /** Some commit of from..ref is already in trunk. */
  ghost predicate MeetsTrunk(s: Setting, g: Graph, b: Name, from: nat)
    requires Sound(s) && WellFormed(g) && s.graph <= g && b in s.live && from < |g|
  {
    exists c: nat :: Reaches(g, c, s.live[b]) && !Reaches(g, c, from) && Reaches(g, c, s.pin.sha)
  }

  /** What one turn answers, and why: each answer from the state, the moves so far and what git says. */
  ghost predicate Turn(s: Setting, pass: Pass, b: Name, later: seq<Name>, r: Result<Pass, ReplayError>)
    requires Sound(s) && PassSound(s, pass) && Walkable(s.state, later) && b in s.state && |s.state[b].parents| > 0
  {
    match r
    case Failure(ReadFailed(x)) => x == b && Unread(s, pass, b)
    case Failure(AlreadyMerged(x)) =>
      && x == b && Read(s, b)
      && exists l :: LandsOn(s, pass.moves, b, l) && MergedAt(s, pass, b, l) && !Skips(s, b, later, l)
    case Failure(Duplicates(x)) =>
      x == b && exists l, from :: ToReplay(s, pass, b, l, from) && MeetsTrunk(s, pass.graph, b, from)
    case Failure(ReplayConflict(x, onto)) =>
      && x == b
      && exists l, from :: ToReplay(s, pass, b, l, from) && !MeetsTrunk(s, pass.graph, b, from)
           && l.parent == onto && s.git.replay(pass.graph, l.at, from, s.state[b].head) == Conflict
    case Failure(ReplayBroken(x)) =>
      && x == b
      && exists l, from :: ToReplay(s, pass, b, l, from) && !MeetsTrunk(s, pass.graph, b, from)
           && s.git.replay(pass.graph, l.at, from, s.state[b].head) == Broken
    case Success(after) =>
      || (after == pass && Read(s, b)
          && exists l :: LandsOn(s, pass.moves, b, l) && MergedAt(s, pass, b, l) && Skips(s, b, later, l))
      || exists l, from :: ToReplay(s, pass, b, l, from) && !MeetsTrunk(s, pass.graph, b, from)
           && MovesTo(s, pass, b, l, s.git.replay(pass.graph, l.at, from, s.state[b].head), after)
  }

  /** Git replayed b, and the pass goes on from there with its move. */
  ghost predicate MovesTo(s: Setting, pass: Pass, b: Name, l: Landing, out: ReplayOutcome, after: Pass)
    requires b in s.state
  {
    out.Replayed? && after == Pass(out.graph, pass.moves + [Move(b, out.head, l.at, s.state[b].head, l.onto)])
  }

  /** A read the turn makes fails: of the branch, of its parent, or of their merge base. */
  ghost predicate Unread(s: Setting, pass: Pass, b: Name)
    requires Sound(s) && PassSound(s, pass) && b in s.state && |s.state[b].parents| > 0
  {
    || !Read(s, b)
    || (forall l :: !LandsOn(s, pass.moves, b, l))
    || exists l :: LandsOn(s, pass.moves, b, l) && !MergedAt(s, pass, b, l)
         && (l.parent !in s.state || s.git.mergeBase(pass.graph, s.live[b], s.state[l.parent].head).None?)
  }

  lemma MovedToNext(moves: seq<Move>, last: Move, n: Name, head: nat)
    ensures MovedTo(moves + [last], n, head) <==>
              if last.branch == n then head == last.head else MovedTo(moves, n, head)
    ensures NotMoved(moves + [last], n) <==> NotMoved(moves, n) && last.branch != n
  {
    var more, k := moves + [last], |moves|;
    assert more[k] == last && forall i :: 0 <= i < k ==> more[i] == moves[i];
    if MovedTo(moves, n, head) && last.branch != n {
      var i :| 0 <= i < k && moves[i].branch == n && moves[i].head == head
               && forall j :: i < j < k ==> moves[j].branch != n;
      assert more[i].branch == n;
    }
  }

  lemma {:induction false} MovedToIs(pin: Pin, moves: seq<Move>, n: Name)
    ensures NotMoved(moves, n) ==>
              (n in MovedHeads(pin, moves) <==> n == pin.name)
              && (n == pin.name ==> MovedHeads(pin, moves)[n] == pin.sha)
    ensures forall head :: MovedTo(moves, n, head) <==>
              !NotMoved(moves, n) && n in MovedHeads(pin, moves) && MovedHeads(pin, moves)[n] == head
    ensures !NotMoved(moves, n) ==> n in MovedHeads(pin, moves)
    decreases |moves|
  {
    if moves != [] {
      var k := |moves| - 1;
      MovedToIs(pin, moves[..k], n);
      hide MovedTo, NotMoved;
      assert moves == moves[..k] + [moves[k]];
      forall head
        ensures MovedTo(moves, n, head) <==> if moves[k].branch == n then head == moves[k].head
                                             else MovedTo(moves[..k], n, head)
        ensures NotMoved(moves, n) <==> NotMoved(moves[..k], n) && moves[k].branch != n
      {
        MovedToNext(moves[..k], moves[k], n, head);
      }
      MovedToNext(moves[..k], moves[k], n, 0);
    }
  }

  /** The landing computed is the one place the branch is to land. */
  lemma LandingIs(s: Setting, moves: seq<Move>, b: Name)
    requires Sound(s) && b in s.state && |s.state[b].parents| > 0
    ensures forall l :: LandsOn(s, moves, b, l) <==> LandingOf(s, MovedHeads(s.pin, moves), b) == Some(l)
  {
    MovedToIs(s.pin, moves, ParentRef(s.state, b));
    hide MovedTo, NotMoved, MovedHeads, Reaches;
  }

  lemma StartIs(s: Setting, g: Graph, b: Name, l: Landing)
    requires Sound(s) && WellFormed(g) && s.graph <= g && b in s.state && |s.state[b].parents| > 0
    requires b in s.live && l.parent in s.state
    ensures forall from: nat :: StartsAt(s, g, b, l, from) <==>
              RestackFrom(s.git, g, s.live[b], s.state[b].parents[0].sha, s.state[l.parent].head) == Some(from)
  {
    hide Reaches;
  }

  lemma TrunkIsMet(s: Setting, g: Graph, b: Name, from: nat)
    requires Sound(s) && WellFormed(g) && s.graph <= g && b in s.live && from < |g|
    ensures MeetsTrunk(s, g, b, from) <==> !OwnWork(g, s.pin.sha, s.live[b], from)
  {
    EqualCountsMeanNoTrunkCommit(g, s.pin.sha, s.live[b], from);
    AncestorsExact(g, s.live[b]);
    AncestorsExact(g, from);
    AncestorsExact(g, s.pin.sha);
    hide OwnWork, Reaches;
  }

  ghost predicate OnlyLanding(s: Setting, moves: seq<Move>, b: Name, l: Landing)
    requires Sound(s) && b in s.state && |s.state[b].parents| > 0
  {
    forall other :: LandsOn(s, moves, b, other) <==> other == l
  }

  lemma TurnWhenUnread(s: Setting, pass: Pass, b: Name, later: seq<Name>, r: Result<Pass, ReplayError>)
    requires Sound(s) && PassSound(s, pass) && Walkable(s.state, later) && b in s.state && |s.state[b].parents| > 0
    requires !Read(s, b) || forall l :: !LandsOn(s, pass.moves, b, l)
    ensures Turn(s, pass, b, later, r) <==> r == Failure(ReadFailed(b))
  {
    hide LandsOn, Sound, PassSound, MergedAt, Skips, StartsAt, MeetsTrunk, MovesTo, Read, Reaches;
  }

  lemma TurnWhenMerged(s: Setting, pass: Pass, b: Name, later: seq<Name>, l: Landing, r: Result<Pass, ReplayError>)
    requires Sound(s) && PassSound(s, pass) && Walkable(s.state, later) && b in s.state && |s.state[b].parents| > 0
    requires Read(s, b) && OnlyLanding(s, pass.moves, b, l) && MergedAt(s, pass, b, l)
    ensures Turn(s, pass, b, later, r) <==>
              r == if Skips(s, b, later, l) then Success(pass) else Failure(AlreadyMerged(b))
  {
    hide LandsOn, Sound, PassSound, MergedAt, Skips, StartsAt, MeetsTrunk, MovesTo, Reaches;
    assert LandsOn(s, pass.moves, b, l);
  }

  lemma TurnWhenBaseless(s: Setting, pass: Pass, b: Name, later: seq<Name>, l: Landing, r: Result<Pass, ReplayError>)
    requires Sound(s) && PassSound(s, pass) && Walkable(s.state, later) && b in s.state && |s.state[b].parents| > 0
    requires Read(s, b) && OnlyLanding(s, pass.moves, b, l) && !MergedAt(s, pass, b, l)
    requires l.parent !in s.state || s.git.mergeBase(pass.graph, s.live[b], s.state[l.parent].head).None?
    ensures Turn(s, pass, b, later, r) <==> r == Failure(ReadFailed(b))
  {
    hide LandsOn, Sound, PassSound, MergedAt, Skips, MeetsTrunk, MovesTo, Reaches;
    assert LandsOn(s, pass.moves, b, l);
  }

  /** What git's replay makes of the turn. */
  ghost function Replaying(s: Setting, pass: Pass, b: Name, l: Landing, from: nat): Result<Pass, ReplayError>
    requires b in s.state
  {
    match s.git.replay(pass.graph, l.at, from, s.state[b].head)
    case Conflict => Failure(ReplayConflict(b, l.parent))
    case Broken => Failure(ReplayBroken(b))
    case Replayed(graph, head) => Success(Pass(graph, pass.moves + [Move(b, head, l.at, s.state[b].head, l.onto)]))
  }

  lemma TurnWhenReplayed(s: Setting, pass: Pass, b: Name, later: seq<Name>, l: Landing, from: nat,
                         r: Result<Pass, ReplayError>)
    requires Sound(s) && PassSound(s, pass) && Walkable(s.state, later) && b in s.state && |s.state[b].parents| > 0
    requires Read(s, b) && OnlyLanding(s, pass.moves, b, l) && !MergedAt(s, pass, b, l) && l.at < |pass.graph|
    requires l.parent in s.state && from < |pass.graph|
    requires forall other: nat :: StartsAt(s, pass.graph, b, l, other) <==> other == from
    ensures Turn(s, pass, b, later, r) <==>
              r == if MeetsTrunk(s, pass.graph, b, from) then Failure(Duplicates(b))
                   else Replaying(s, pass, b, l, from)
  {
    assert StartsAt(s, pass.graph, b, l, from);
    assert s.git.mergeBase(pass.graph, s.live[b], s.state[l.parent].head).Some?;
    hide LandsOn, Sound, PassSound, MergedAt, Skips, MeetsTrunk, Reaches, StartsAt;
    assert LandsOn(s, pass.moves, b, l);
    assert ToReplay(s, pass, b, l, from);
    assert forall l', from': nat :: ToReplay(s, pass, b, l', from') ==> l' == l && from' == from;
    hide ToReplay, Read;
  }

  /** One turn answers exactly what the state and git's answers say. */
  lemma TurnIs(s: Setting, pass: Pass, b: Name, later: seq<Name>, r: Result<Pass, ReplayError>)
    requires Sound(s) && PassSound(s, pass) && Walkable(s.state, later) && b in s.state && |s.state[b].parents| > 0
    ensures Turn(s, pass, b, later, r) <==> r == ReplayOne(s, pass, b, later)
  {
    LandingIs(s, pass.moves, b);
    HeadsAreCommits(s, pass);
    hide LandsOn, Reaches, OwnWork, MovedHeads, Honest, StartFrom, MeetsTrunk, Turn, StartsAt, LandingOf, RestackFrom;
    var landing := LandingOf(s, MovedHeads(s.pin, pass.moves), b);
    if !Read(s, b) || landing.None? {
      TurnWhenUnread(s, pass, b, later, r);
    } else {
      var l := landing.value;
      LandingIsACommit(s, pass, b);
      assert OnlyLanding(s, pass.moves, b, l);
      hide OnlyLanding;
      if MergedAt(s, pass, b, l) {
        TurnWhenMerged(s, pass, b, later, l, r);
      } else {
        TurnWhenNotMerged(s, pass, b, later, l, r);
      }
    }
  }

  lemma LandingIsACommit(s: Setting, pass: Pass, b: Name)
    requires Sound(s) && PassSound(s, pass) && b in s.state && |s.state[b].parents| > 0
    ensures var l := LandingOf(s, MovedHeads(s.pin, pass.moves), b); l.Some? ==> l.value.at < |pass.graph|
  {
    HeadsAreCommits(s, pass);
    hide MovedHeads, Reaches;
  }

  lemma TurnWhenNotMerged(s: Setting, pass: Pass, b: Name, later: seq<Name>, l: Landing, r: Result<Pass, ReplayError>)
    requires Sound(s) && PassSound(s, pass) && Walkable(s.state, later) && b in s.state && |s.state[b].parents| > 0
    requires LandingOf(s, MovedHeads(s.pin, pass.moves), b) == Some(l)
    requires Read(s, b) && OnlyLanding(s, pass.moves, b, l) && !MergedAt(s, pass, b, l) && l.at < |pass.graph|
    ensures Turn(s, pass, b, later, r) <==> r == ReplayOne(s, pass, b, later)
  {
    hide LandsOn, Reaches, OwnWork, MovedHeads, MeetsTrunk, Turn, StartsAt, LandingOf, StartFrom, OnlyLanding;
    HeadsAreCommits(s, pass);
    if l.parent !in s.state {
      TurnWhenBaseless(s, pass, b, later, l, r);
    } else {
      StartIs(s, pass.graph, b, l);
      var from := RestackFrom(s.git, pass.graph, s.live[b], s.state[b].parents[0].sha, s.state[l.parent].head);
      if from.None? {
        TurnWhenBaseless(s, pass, b, later, l, r);
      } else {
        TrunkIsMet(s, pass.graph, b, from.value);
        hide RestackFrom;
        TurnWhenReplayed(s, pass, b, later, l, from.value, r);
      }
    }
  }

  /** The pass over the first n movers. */
  function ReplayUpTo(s: Setting, movers: seq<Name>, n: nat): (r: Result<Pass, ReplayError>)
    requires Sound(s) && Walkable(s.state, movers) && n <= |movers|
    ensures r.Success? ==> PassSound(s, r.value)
  {
    if n == 0 then Success(Pass(s.graph, []))
    else
      match ReplayUpTo(s, movers, n - 1)
      case Failure(e) => Failure(e)
      case Success(pass) => ReplayOne(s, pass, movers[n - 1], movers[n..])
  }

  /** The pass over the first n movers goes through and ends so: nothing moved at first, and each turn answers the
      pass the next one starts from. */
  ghost predicate PassEnds(s: Setting, movers: seq<Name>, n: nat, pass: Pass)
    requires Sound(s) && Walkable(s.state, movers) && n <= |movers|
  {
    if n == 0 then pass == Pass(s.graph, [])
    else exists before :: TurnsTo(s, movers, n, before, Success(pass)) && PassEnds(s, movers, n - 1, before)
  }

  /** The n-th turn, taken from pass, answers r. */
  ghost predicate TurnsTo(s: Setting, movers: seq<Name>, n: nat, pass: Pass, r: Result<Pass, ReplayError>)
    requires Sound(s) && Walkable(s.state, movers) && 0 < n <= |movers|
  {
    PassSound(s, pass) && Turn(s, pass, movers[n - 1], movers[n..], r)
  }

  /** Some mover's turn fails so, and every one before it went through. */
  ghost predicate PassFails(s: Setting, movers: seq<Name>, e: ReplayError)
    requires Sound(s) && Walkable(s.state, movers)
  {
    exists n: nat, pass ::
      0 < n <= |movers| && TurnsTo(s, movers, n, pass, Failure(e)) && PassEnds(s, movers, n - 1, pass)
  }

  lemma TurnsToIs(s: Setting, movers: seq<Name>, n: nat, pass: Pass, r: Result<Pass, ReplayError>)
    requires Sound(s) && Walkable(s.state, movers) && 0 < n <= |movers|
    ensures TurnsTo(s, movers, n, pass, r) <==>
              PassSound(s, pass) && r == ReplayOne(s, pass, movers[n - 1], movers[n..])
  {
    hide ReplayOne, Turn, PassSound;
    if PassSound(s, pass) {
      TurnIs(s, pass, movers[n - 1], movers[n..], r);
    }
  }

  /** A pass goes through and ends so exactly when its turns do. */
  lemma {:induction false} PassEndsIs(s: Setting, movers: seq<Name>, n: nat, pass: Pass)
    requires Sound(s) && Walkable(s.state, movers) && n <= |movers|
    ensures PassEnds(s, movers, n, pass) <==> ReplayUpTo(s, movers, n) == Success(pass)
    decreases n
  {
    hide ReplayOne, PassSound, Sound, TurnsTo;
    if n > 0 {
      if PassEnds(s, movers, n, pass) {
        var before :| TurnsTo(s, movers, n, before, Success(pass)) && PassEnds(s, movers, n - 1, before);
        PassEndsIs(s, movers, n - 1, before);
        TurnsToIs(s, movers, n, before, Success(pass));
      }
      if ReplayUpTo(s, movers, n) == Success(pass) {
        var before := ReplayUpTo(s, movers, n - 1).value;
        PassEndsIs(s, movers, n - 1, before);
        TurnsToIs(s, movers, n, before, Success(pass));
      }
    }
  }

  /** A pass fails exactly when some mover's turn fails so after every one before it went through. */
  lemma PassFailsIs(s: Setting, movers: seq<Name>, e: ReplayError)
    requires Sound(s) && Walkable(s.state, movers)
    ensures PassFails(s, movers, e) <==> ReplayUpTo(s, movers, |movers|) == Failure(e)
  {
    hide ReplayOne, ReplayUpTo, PassSound, Sound, PassEnds, TurnsTo;
    if PassFails(s, movers, e) {
      var n: nat, pass :|
        0 < n <= |movers| && TurnsTo(s, movers, n, pass, Failure(e)) && PassEnds(s, movers, n - 1, pass);
      PassEndsIs(s, movers, n - 1, pass);
      TurnsToIs(s, movers, n, pass, Failure(e));
      UpToNext(s, movers, n - 1, pass, Failure(e));
    }
    if ReplayUpTo(s, movers, |movers|) == Failure(e) {
      var n, pass := FirstFailure(s, movers, |movers|, e);
      PassEndsIs(s, movers, n, pass);
      TurnsToIs(s, movers, n + 1, pass, Failure(e));
      assert TurnsTo(s, movers, n + 1, pass, Failure(e));
    }
  }

  lemma PassIs(s: Setting, movers: seq<Name>)
    requires Sound(s) && Walkable(s.state, movers)
    ensures var r := ReplayUpTo(s, movers, |movers|);
            && (r.Failure? ==> PassFails(s, movers, r.error))
            && (r.Success? ==> PassEnds(s, movers, |movers|, r.value))
  {
    hide ReplayUpTo, PassEnds, PassFails;
    var r := ReplayUpTo(s, movers, |movers|);
    if r.Failure? {
      PassFailsIs(s, movers, r.error);
    } else {
      PassEndsIs(s, movers, |movers|, r.value);
    }
  }

  lemma {:induction false} FirstFailure(s: Setting, movers: seq<Name>, m: nat, e: ReplayError)
    returns (n: nat, pass: Pass)
    requires Sound(s) && Walkable(s.state, movers) && m <= |movers| && ReplayUpTo(s, movers, m) == Failure(e)
    ensures n < m && ReplayUpTo(s, movers, n) == Success(pass) && PassSound(s, pass)
    ensures ReplayOne(s, pass, movers[n], movers[n + 1..]) == Failure(e)
    decreases m
  {
    hide ReplayOne, Sound;
    if ReplayUpTo(s, movers, m - 1).Failure? {
      n, pass := FirstFailure(s, movers, m - 1, e);
    } else {
      n, pass := m - 1, ReplayUpTo(s, movers, m - 1).value;
    }
  }

  lemma NothingMoved(pin: Pin)
    ensures MovedHeads(pin, []) == map[pin.name := pin.sha]
  {
  }

  lemma MovedHeadsNext(pin: Pin, moves: seq<Move>, more: seq<Move>)
    requires |more| == |moves| + 1 && more[..|moves|] == moves
    ensures var m := more[|moves|]; MovedHeads(pin, more) == MovedHeads(pin, moves)[m.branch := m.head]
  {
  }

  /** gtReplayChain. */
  method Run(s: Setting, movers: seq<Name>) returns (r: Result<Pass, ReplayError>)
    requires Sound(s) && Walkable(s.state, movers)
    ensures r == ReplayUpTo(s, movers, |movers|)
    ensures r.Failure? ==> PassFails(s, movers, r.error)
    ensures r.Success? ==> PassEnds(s, movers, |movers|, r.value)
  {
    hide ReplayOne, PassFails, PassEnds, Turn, MovedHeads, Sound;
    PassIs(s, movers);
    NothingMoved(s.pin);
    var pass := Pass(s.graph, []);
    var heads := map[s.pin.name := s.pin.sha];
    var i := 0;
    while i < |movers|
      invariant 0 <= i <= |movers|
      invariant ReplayUpTo(s, movers, i) == Success(pass)
      invariant heads == MovedHeads(s.pin, pass.moves)
    {
      var step := ReplayMover(s, pass, heads, movers[i], movers[i + 1..]);
      UpToNext(s, movers, i, pass, step);
      i := i + 1;
      if step.Failure? {
        return step;
      }
      if |step.value.moves| > |pass.moves| {
        var m := step.value.moves[|pass.moves|];
        MovedHeadsNext(s.pin, pass.moves, step.value.moves);
        heads := heads[m.branch := m.head];
      }
      pass := step.value;
    }
    return Success(pass);
  }

  /** The body of the loop: no move for a branch already in trunk, else its move and the grown graph. */
  method ReplayMover(s: Setting, pass: Pass, heads: map<Name, nat>, branch: Name, later: seq<Name>)
    returns (r: Result<Pass, ReplayError>)
    requires Sound(s) && PassSound(s, pass) && heads == MovedHeads(s.pin, pass.moves)
    requires Walkable(s.state, later) && branch in s.state && |s.state[branch].parents| > 0
    ensures r == ReplayOne(s, pass, branch, later) && Turn(s, pass, branch, later, r)
  {
    hide Reaches, OwnWork, MovedHeads, Turn;
    TurnIs(s, pass, branch, later, ReplayOne(s, pass, branch, later));
    hide Honest;
    var graph := pass.graph;
    if s.git.readFails(branch) || branch !in s.live {
      return Failure(ReadFailed(branch));
    }
    var parent := s.state[branch].parents[0];
    var ref := parent.ref;
    var moved := ref in heads;
    if !moved && ref !in s.state {
      return Failure(ReadFailed(branch));
    }
    HeadsAreCommits(s, pass);
    var base := if moved then heads[ref] else s.state[ref].head;
    var onto: Option<Name> := None;
    if !moved && ref != s.pin.name {
      var spent := Reaches(s.graph, base, s.pin.sha);
      if spent {
        onto, base, ref := Some(s.pin.name), s.pin.sha, s.pin.name;
      }
    }
    assert LandingOf(s, heads, branch) == Some(Landing(base, ref, onto));
    var merged := Reaches(graph, s.live[branch], base);
    if merged {
      if ref == s.pin.name && exists i :: 0 <= i < |later| && ParentRef(s.state, later[i]) == branch {
        return Success(pass);
      }
      return Failure(AlreadyMerged(branch));
    }
    if ref !in s.state {
      return Failure(ReadFailed(branch));
    }
    var from := RestackFrom(s.git, graph, s.live[branch], parent.sha, s.state[ref].head);
    if from.None? {
      return Failure(ReadFailed(branch));
    }
    if !OwnWork(graph, s.pin.sha, s.live[branch], from.value) {
      return Failure(Duplicates(branch));
    }
    match s.git.replay(graph, base, from.value, s.state[branch].head) {
      case Conflict => return Failure(ReplayConflict(branch, ref));
      case Broken => return Failure(ReplayBroken(branch));
      case Replayed(grown, head) =>
        return Success(Pass(grown, pass.moves + [Move(branch, head, base, s.state[branch].head, onto)]));
    }
  }

  /** The iteration for mover n turns pass into after. */
  ghost predicate StepsTo(s: Setting, movers: seq<Name>, n: nat, pass: Pass, after: Pass)
    requires Sound(s) && Walkable(s.state, movers) && n < |movers| && PassSound(s, pass)
  {
    ReplayOne(s, pass, movers[n], movers[n + 1..]) == Success(after)
  }

  lemma UpToPrevious(s: Setting, movers: seq<Name>, n: nat, after: Pass) returns (before: Pass)
    requires Sound(s) && Walkable(s.state, movers) && n < |movers|
    requires ReplayUpTo(s, movers, n + 1) == Success(after)
    ensures ReplayUpTo(s, movers, n) == Success(before) && StepsTo(s, movers, n, before, after)
  {
    before := ReplayUpTo(s, movers, n).value;
  }

  lemma UpToNext(s: Setting, movers: seq<Name>, n: nat, pass: Pass, step: Result<Pass, ReplayError>)
    requires Sound(s) && Walkable(s.state, movers) && n < |movers|
    requires ReplayUpTo(s, movers, n) == Success(pass) && step == ReplayOne(s, pass, movers[n], movers[n + 1..])
    ensures ReplayUpTo(s, movers, n + 1) == step
    ensures step.Failure? ==> ReplayUpTo(s, movers, |movers|) == step
    ensures step.Success? && step.value != pass ==>
              |step.value.moves| == |pass.moves| + 1 && step.value.moves[..|pass.moves|] == pass.moves
  {
    FailureStays(s, movers, n + 1);
  }

  /** A failure part way is the whole pass's failure. */
  lemma {:induction false} FailureStays(s: Setting, movers: seq<Name>, i: nat)
    requires Sound(s) && Walkable(s.state, movers) && i <= |movers|
    ensures ReplayUpTo(s, movers, i).Failure? ==> ReplayUpTo(s, movers, |movers|) == ReplayUpTo(s, movers, i)
    decreases |movers| - i
  {
    hide ReplayOne;
    if i < |movers| {
      FailureStays(s, movers, i + 1);
    }
  }
}
