/** The chain of untracked branches between a branch and the base it is stacked on. */
module GtChain {
  import opened Wrappers
  import opened Forest
  import opened CommitGraph
  import opened GtLine

  datatype RefRow = RefRow(name: Name, head: nat)

  /** One branch to adopt: its own commits run from base to head. */
  datatype Link = Link(name: Name, parent: Name, base: nat, head: nat, remote: bool)

  datatype Refusal =
    | Unreadable                     // a git command failed
    | LevelUnknown                   // no reflog says which of two level branches was cut from which
    | NoSingleLine(names: seq<Name>) // two branches at one commit, or one off the first-parent line
    | NoSharedHistory                // the bottom branch and the floor share no commit

  /** What git and the tracked state answer for one question. remote is "" without a remote trunk;
      remoteHeads is what ls-remote lists, cutFrom what the reflog says a branch was cut from ("" when
      it does not say, None when it cannot be read), and forkOf git merge-base. */
  datatype Reading = Reading(
    g: Graph, floor: nat, tip: nat, tracked: set<Name>, base: Name, branch: Name,
    locals: seq<RefRow>, remote: Name, remoteHeads: Option<seq<RefRow>>,
    cutFrom: Name -> Option<Name>, forkOf: (nat, nat) -> Option<nat>)

  function InRange(r: Reading): set<nat>
    requires WellFormed(r.g) && r.floor < |r.g| && r.tip < |r.g|
  {
    Span(r.g, r.floor, r.tip)
  }

  predicate Local(r: Reading, name: Name) {
    exists i :: 0 <= i < |r.locals| && r.locals[i].name == name
  }

  predicate AsksRemote(r: Reading) {
    r.remote != "" && !Local(r, r.branch)
  }

  predicate Skipped(r: Reading, row: RefRow) {
    || Local(r, row.name) || row.head == r.tip
    || "graphite-base/" <= row.name || "ccx-segment/" <= row.name
  }

  predicate Listed(r: Reading, row: RefRow) {
    || row in r.locals
    || (AsksRemote(r) && r.remoteHeads.Some? && row in r.remoteHeads.value && !Skipped(r, row))
  }

  function AllListed(r: Reading): (rows: set<RefRow>)
    ensures forall row :: row in rows <==> Listed(r, row)
  {
    var heads := if r.remoteHeads.Some? then r.remoteHeads.value else [];
    set row | row in r.locals + heads && Listed(r, row)
  }

  /** git names each branch once, and merge-base answers best common ancestors. */
  ghost predicate Sound(r: Reading) {
    && WellFormed(r.g) && r.floor < |r.g| && r.tip < |r.g|
    && NamesEachOnce(r.locals)
    && (r.remoteHeads.Some? ==> NamesEachOnce(r.remoteHeads.value))
    && forall a: nat, b: nat :: a < |r.g| && b < |r.g| && r.forkOf(a, b).Some?
         ==> IsMergeBase(r.g, a, b, r.forkOf(a, b).value)
  }

  predicate NamesEachOnce(rows: seq<RefRow>) {
    && (forall row :: row in rows ==> row.name != "")
    && forall i, j :: 0 <= i < j < |rows| ==> rows[i].name != rows[j].name
  }

  /** An untracked branch, not the one asked about, whose head is in the range. */
  predicate Candidate(r: Reading, row: RefRow)
    requires WellFormed(r.g) && r.floor < |r.g| && r.tip < |r.g|
  {
    row.name !in r.tracked && row.name != r.branch && row.head in InRange(r)
  }

  /** A branch the chain passes through: listed below the tip, or the one at the tip the branch was
      cut from. */
  predicate Between(r: Reading, cut: Option<Name>, name: Name, head: nat)
    requires WellFormed(r.g) && r.floor < |r.g| && r.tip < |r.g|
  {
    || (Listed(r, RefRow(name, head)) && Candidate(r, RefRow(name, head)) && head != r.tip)
    || (cut == Some(name) && head == r.tip)
  }

  /** Two branches between sit at one commit, or one sits off the first-parent line. */
  ghost predicate Branching(r: Reading, cut: Option<Name>)
    requires WellFormed(r.g) && r.floor < |r.g| && r.tip < |r.g|
  {
    || (exists a, b, head :: a != b && Between(r, cut, a, head) && Between(r, cut, b, head))
    || exists a, head :: Between(r, cut, a, head) && head !in Line(r.g, InRange(r), r.tip)
  }

  predicate Cuts(r: Reading, name: Name) {
    r.cutFrom(r.branch) == Some(name) || (r.remote != "" && r.cutFrom(r.branch) == Some(r.remote + "/" + name))
  }

  /** A level branch the chain may pass through: the reflog says the branch was cut from it. */
  predicate CutOk(r: Reading, cut: Option<Name>)
    requires WellFormed(r.g) && r.floor < |r.g| && r.tip < |r.g|
  {
    if cut.Some? then AtTip(r, cut.value) && Cuts(r, cut.value)
    else forall row :: row in r.locals && AtTip(r, row.name) ==>
        !Cuts(r, row.name) && r.cutFrom(row.name) == Some(r.branch)
  }

  predicate AtTip(r: Reading, name: Name)
    requires WellFormed(r.g) && r.floor < |r.g| && r.tip < |r.g|
  {
    RefRow(name, r.tip) in r.locals && Candidate(r, RefRow(name, r.tip))
  }

  /** The chain runs from the base to the branch through every branch between, each on the one below. */
  ghost predicate IsChain(r: Reading, cut: Option<Name>, chain: seq<Link>)
    requires WellFormed(r.g) && r.floor < |r.g| && r.tip < |r.g|
  {
    && chain != []
    && chain[|chain| - 1].name == r.branch && chain[|chain| - 1].head == r.tip && !chain[|chain| - 1].remote
    && (forall i :: 0 <= i < |chain| - 1 ==> Between(r, cut, chain[i].name, chain[i].head))
    && (forall name, head :: Between(r, cut, name, head) ==> Holds(chain, name, head))
    && chain[0].parent == r.base && chain[0].head < |r.g| && IsMergeBase(r.g, chain[0].head, r.floor, chain[0].base)
    && (forall i :: 0 < i < |chain| ==> Joined(chain[i - 1], chain[i]))
    && (forall i, j :: 0 <= i < j < |chain| ==> Climbs(r.g, chain[i], chain[j]))
    && (forall i, j :: 0 <= i < j < |chain| - 1 ==> chain[i].head != chain[j].head)
    && (forall i :: 0 <= i < |chain| - 1 ==> (chain[i].remote <==> !Local(r, chain[i].name)))
  }

  predicate Holds(chain: seq<Link>, name: Name, head: nat) {
    exists i :: 0 <= i < |chain| - 1 && chain[i].name == name && chain[i].head == head
  }

  predicate Joined(below: Link, above: Link) {
    above.parent == below.name && above.base == below.head
  }

  predicate Climbs(g: Graph, below: Link, above: Link)
    requires WellFormed(g)
  {
    below.head < |g| && above.head < |g| && Reaches(g, below.head, above.head)
  }

  // ---------------------------------------------------------------------------
  // The lookup
  // ---------------------------------------------------------------------------

  /** The reflog of the i-th level branch is asked for, none before it having settled the question, and
      cannot be read. */
  predicate UnreadAt(r: Reading, level: seq<Name>, i: nat)
    requires i < |level|
  {
    r.cutFrom(level[i]).None? && forall j :: 0 <= j <= i ==> !Cuts(r, level[j])
  }

  /** The branch was cut from the i-th level branch, and every reflog asked before could be read. */
  predicate CutAt(r: Reading, level: seq<Name>, i: nat)
    requires i < |level|
  {
    Cuts(r, level[i]) && forall j :: 0 <= j < i ==> !Cuts(r, level[j]) && r.cutFrom(level[j]).Some?
  }

  /** Some reflog the question needs cannot be read. */
  predicate LevelUnread(r: Reading, level: seq<Name>) {
    r.cutFrom(r.branch).None? || exists i: nat :: i < |level| && UnreadAt(r, level, i)
  }

  /** gtLevelParent: which branch at the branch's own commit it was cut from, None when every one of
      them was cut from it. */
  method LevelParent(r: Reading, level: seq<Name>) returns (res: Result<Option<Name>, Refusal>)
    ensures res == Failure(Unreadable) <==> LevelUnread(r, level)
    ensures res.Success? && res.value.Some? <==>
              r.cutFrom(r.branch).Some? && exists i: nat :: i < |level| && CutAt(r, level, i)
    ensures res.Success? && res.value.Some? ==>
              exists i: nat :: i < |level| && CutAt(r, level, i) && level[i] == res.value.value
    ensures res == Success(None)
      ==> forall name :: name in level ==> !Cuts(r, name) && r.cutFrom(name) == Some(r.branch)
    ensures res.Failure? && res.error != Unreadable
      ==> && res.error == LevelUnknown
          && (forall name :: name in level ==> !Cuts(r, name))
          && exists name :: name in level && r.cutFrom(name) != Some(r.branch)
  {
    if r.cutFrom(r.branch).None? {
      return Failure(Unreadable);
    }
    hide Cuts;
    var unknown: seq<Name> := [];
    var i := 0;
    while i < |level|
      invariant 0 <= i <= |level|
      invariant forall k :: 0 <= k < i ==> !Cuts(r, level[k]) && r.cutFrom(level[k]).Some?
      invariant forall name :: name in unknown <==> name in level[..i] && r.cutFrom(name) != Some(r.branch)
    {
      if Cuts(r, level[i]) {
        assert CutAt(r, level, i);
        assert forall k: nat :: k < |level| && UnreadAt(r, level, k) ==> k < i;
        return Success(Some(level[i]));
      }
      if r.cutFrom(level[i]).None? {
        assert UnreadAt(r, level, i);
        assert forall k: nat :: k < |level| && CutAt(r, level, k) ==> k <= i;
        return Failure(Unreadable);
      }
      assert level[..i + 1] == level[..i] + [level[i]];
      if r.cutFrom(level[i]) != Some(r.branch) {
        unknown := unknown + [level[i]];
      }
      i := i + 1;
    }
    assert level[..i] == level;
    if unknown == [] {
      return Success(None);
    }
    assert unknown[0] in unknown;
    return Failure(LevelUnknown);
  }

  /** The candidates at the tip itself, in the order git lists them. */
  function LevelOf(r: Reading, rows: seq<RefRow>): seq<Name>
    requires WellFormed(r.g) && r.floor < |r.g| && r.tip < |r.g|
  {
    if rows == [] then []
    else
      var row := rows[|rows| - 1];
      LevelOf(r, rows[..|rows| - 1]) + if Candidate(r, row) && row.head == r.tip then [row.name] else []
  }

  type Places = map<nat, seq<Name>>

  /** at holds, by head, the candidates among rows below the tip, each once; level the ones at it. */
  ghost predicate Sorted(r: Reading, rows: set<RefRow>, at: Places, level: seq<Name>)
    requires WellFormed(r.g) && r.floor < |r.g| && r.tip < |r.g|
  {
    && (forall row :: Placed(at, row) <==> row in rows && Candidate(r, row) && row.head != r.tip)
    && (forall head :: head in at ==> at[head] != [] && Distinct(at[head]))
    && (forall name :: name in level <==> RefRow(name, r.tip) in rows && Candidate(r, RefRow(name, r.tip)))
  }

  predicate Placed(at: Places, row: RefRow) {
    row.head in at && row.name in at[row.head]
  }

  /** The closure candidate. */
  method Place(r: Reading, ghost rows: set<RefRow>, row: RefRow, at: Places, level: seq<Name>)
    returns (at': Places, level': seq<Name>)
    requires Sound(r) && Sorted(r, rows, at, level) && row !in rows
    ensures Sorted(r, rows + {row}, at', level')
    ensures level' == level + if Candidate(r, row) && row.head == r.tip then [row.name] else []
  {
    at', level' := at, level;
    if Candidate(r, row) {
      if row.head == r.tip {
        level' := level + [row.name];
      } else {
        at' := at[row.head := (if row.head in at then at[row.head] else []) + [row.name]];
        assert !Placed(at, row);
        assert forall other :: Placed(at', other) <==> Placed(at, other) || other == row;
      }
    }
  }

  /** Every branch the chain could pass through, by head. */
  method Candidates(r: Reading) returns (found: bool, at: Places, level: seq<Name>)
    requires Sound(r)
    ensures found <==> !AsksRemote(r) || r.remoteHeads.Some?
    ensures found ==> Sorted(r, AllListed(r), at, level)
    ensures found ==> level == LevelOf(r, r.locals) && forall name :: name in level <==> AtTip(r, name)
  {
    hide Candidate, WellFormed, InRange, Sorted;
    NothingSorted(r);
    at, level, found := map[], [], true;
    ghost var rows: set<RefRow> := {};
    var i := 0;
    while i < |r.locals|
      invariant 0 <= i <= |r.locals|
      invariant forall row :: row in rows <==> row in r.locals[..i]
      invariant Sorted(r, rows, at, level) && level == LevelOf(r, r.locals[..i])
    {
      at, level := Place(r, rows, r.locals[i], at, level);
      assert r.locals[..i + 1][..i] == r.locals[..i];
      assert r.locals[..i + 1] == r.locals[..i] + [r.locals[i]];
      rows := rows + {r.locals[i]};
      i := i + 1;
    }
    assert r.locals[..i] == r.locals;
    if AsksRemote(r) {
      if r.remoteHeads.None? {
        found := false;
        return;
      }
      var heads := r.remoteHeads.value;
      i := 0;
      while i < |heads|
        invariant 0 <= i <= |heads|
        invariant forall row :: row in rows <==> row in r.locals || (row in heads[..i] && !Skipped(r, row))
        invariant Sorted(r, rows, at, level) && level == LevelOf(r, r.locals)
      {
        assert heads[..i + 1] == heads[..i] + [heads[i]];
        if !Skipped(r, heads[i]) {
          at, level := Place(r, rows, heads[i], at, level);
          rows := rows + {heads[i]};
        }
        i := i + 1;
      }
      assert heads[..i] == heads;
    }
    forall row ensures row in rows <==> Listed(r, row) {
    }
    assert rows == AllListed(r);
    LevelIsAtTip(r, at, level);
  }

  lemma NothingSorted(r: Reading)
    requires Sound(r)
    ensures Sorted(r, {}, map[], [])
  {
  }

  lemma LevelIsAtTip(r: Reading, at: Places, level: seq<Name>)
    requires Sound(r) && Sorted(r, AllListed(r), at, level)
    ensures forall name :: name in level <==> AtTip(r, name)
  {
    hide InRange;
  }

  /** at holds exactly the branches between. */
  ghost predicate Threaded(r: Reading, cut: Option<Name>, at: Places)
    requires WellFormed(r.g) && r.floor < |r.g| && r.tip < |r.g|
  {
    && (forall row :: Placed(at, row) <==> Between(r, cut, row.name, row.head))
    && forall head :: head in at ==> at[head] != [] && Distinct(at[head])
  }

  /** Each commit of the first-parent line in range, with its distance from the tip. */
  method Positions(g: Graph, range: set<nat>, tip: nat) returns (position: map<nat, nat>)
    requires WellFormed(g) && tip < |g|
    ensures IsPosition(Line(g, range, tip), position)
  {
    hide Walked, IsPosition, WellFormed;
    position := map[];
    ghost var passed: seq<nat> := [];
    var sha: Option<nat> := Some(tip);
    var i: nat := 0;
    NothingWalked(g, range, tip);
    while sha.Some? && sha.value in range
      invariant i == |passed| && (sha.Some? ==> sha.value < |g|)
      invariant Walked(g, range, tip, passed, sha, position)
      decreases if sha.Some? then sha.value + 1 else 0
    {
      WalkedOneMore(g, range, tip, passed, sha.value, position);
      passed := passed + [sha.value];
      position := position[sha.value := i];
      sha := FirstParent(g, sha.value);
      i := i + 1;
    }
    WalkedAll(g, range, tip, passed, sha, position);
  }

  /** The line is what has been walked, each commit at its position, and what is ahead. */
  ghost predicate Walked(g: Graph, range: set<nat>, tip: nat, passed: seq<nat>, sha: Option<nat>,
                         position: map<nat, nat>)
    requires WellFormed(g) && tip < |g| && (sha.Some? ==> sha.value < |g|)
  {
    Line(g, range, tip) == passed + Ahead(g, range, sha) && IsPosition(passed, position)
  }

  lemma NothingWalked(g: Graph, range: set<nat>, tip: nat)
    requires WellFormed(g) && tip < |g|
    ensures Walked(g, range, tip, [], Some(tip), map[])
  {
  }

  lemma WalkedOneMore(g: Graph, range: set<nat>, tip: nat, passed: seq<nat>, c: nat, position: map<nat, nat>)
    requires WellFormed(g) && tip < |g| && c < |g| && c in range && Walked(g, range, tip, passed, Some(c), position)
    ensures Walked(g, range, tip, passed + [c], FirstParent(g, c), position[c := |passed|])
  {
    hide Distinct, IsPosition, Line, Ahead, WellFormed, FirstParent;
    var ahead := Ahead(g, range, FirstParent(g, c));
    LineSteps(g, range, c);
    LineNeverRepeats(g, range, tip);
    assert Line(g, range, tip) == passed + [c] + ahead;
    NextPosition(passed, c, ahead, position);
  }

  lemma WalkedAll(g: Graph, range: set<nat>, tip: nat, passed: seq<nat>, sha: Option<nat>, position: map<nat, nat>)
    requires WellFormed(g) && tip < |g| && (sha.Some? ==> sha.value < |g| && sha.value !in range)
    requires Walked(g, range, tip, passed, sha, position)
    ensures IsPosition(Line(g, range, tip), position)
  {
    assert Ahead(g, range, sha) == [];
    hide IsPosition, Line;
    assert Line(g, range, tip) == passed;
  }

  function FirstParent(g: Graph, c: nat): (parent: Option<nat>)
    requires WellFormed(g) && c < |g|
    ensures parent.Some? ==> parent.value < c
  {
    if g[c] == [] then None else Some(g[c][0])
  }

  /** The line still to walk. */
  ghost function Ahead(g: Graph, range: set<nat>, sha: Option<nat>): seq<nat>
    requires WellFormed(g) && (sha.Some? ==> sha.value < |g|)
  {
    if sha.None? then [] else Line(g, range, sha.value)
  }

  lemma LineSteps(g: Graph, range: set<nat>, c: nat)
    requires WellFormed(g) && c < |g| && c in range
    ensures Ahead(g, range, Some(c)) == [c] + Ahead(g, range, FirstParent(g, c))
  {
  }

  ghost predicate IsPosition(line: seq<nat>, position: map<nat, nat>) {
    && (forall i :: 0 <= i < |line| ==> line[i] in position && position[line[i]] == i)
    && forall c :: c in position ==> position[c] < |line| && line[position[c]] == c
  }

  lemma NextPosition(passed: seq<nat>, c: nat, ahead: seq<nat>, position: map<nat, nat>)
    requires Distinct(passed + [c] + ahead) && IsPosition(passed, position)
    ensures IsPosition(passed + [c], position[c := |passed|])
  {
    var line := passed + [c] + ahead;
    assert line[|passed|] == c && forall k :: 0 <= k < |passed| ==> line[k] == passed[k];
  }

  lemma LineNeverRepeats(g: Graph, range: set<nat>, c: nat)
    requires WellFormed(g) && c < |g|
    ensures Distinct(Line(g, range, c))
  {
    var line := Line(g, range, c);
    forall i, j | 0 <= i < j < |line| ensures line[i] != line[j] {
      LineDescends(g, range, c, i, j);
    }
  }

  /** slices.SortedFunc over the heads: the farthest from the tip first. */
  method SortedByPosition(keys: set<nat>, position: map<nat, nat>) returns (heads: seq<nat>)
    requires keys <= position.Keys
    requires forall a, b :: a in keys && b in keys && a != b ==> position[a] != position[b]
    ensures forall head :: head in heads <==> head in keys
    ensures forall i, j :: 0 <= i < j < |heads| ==> position[heads[i]] > position[heads[j]]
  {
    var rest := keys;
    heads := [];
    while rest != {}
      invariant rest <= keys
      invariant forall head :: head in heads <==> head in keys && head !in rest
      invariant forall i, j :: 0 <= i < j < |heads| ==> position[heads[i]] > position[heads[j]]
      invariant forall head, left :: head in heads && left in rest ==> position[head] > position[left]
    {
      var farthest := Farthest(rest, position);
      heads := heads + [farthest];
      rest := rest - {farthest};
    }
  }

  method Farthest(keys: set<nat>, position: map<nat, nat>) returns (farthest: nat)
    requires keys != {} && keys <= position.Keys
    ensures farthest in keys && forall k :: k in keys ==> position[k] <= position[farthest]
  {
    farthest :| farthest in keys;
    var rest := keys - {farthest};
    while rest != {}
      invariant rest <= keys && farthest in keys
      invariant forall k :: k in keys - rest ==> position[k] <= position[farthest]
    {
      var k :| k in rest;
      if position[k] > position[farthest] {
        farthest := k;
      }
      rest := rest - {k};
    }
  }

  predicate Named(at: Places, name: Name) {
    exists head :: head in at && name in at[head]
  }

  /** The chain has to pass through name. */
  ghost predicate Passed(r: Reading, cut: Option<Name>, name: Name)
    requires WellFormed(r.g) && r.floor < |r.g| && r.tip < |r.g|
  {
    exists head :: Between(r, cut, name, head)
  }

  /** Whether the branches between fail to form a single line, and their names. */
  method Ambiguity(at: Places, position: map<nat, nat>) returns (ambiguous: bool, named: seq<Name>)
    ensures ambiguous <==> exists head :: head in at && (head !in position || |at[head]| > 1)
    ensures forall name :: name in named <==> Named(at, name)
  {
    ambiguous, named := false, [];
    var rest := at.Keys;
    while rest != {}
      invariant rest <= at.Keys
      invariant ambiguous <==> exists head :: head in at.Keys - rest && (head !in position || |at[head]| > 1)
      invariant forall name :: name in named <==> exists head :: head in at.Keys - rest && name in at[head]
    {
      var head :| head in rest;
      named := named + at[head];
      ambiguous := ambiguous || head !in position || |at[head]| > 1;
      rest := rest - {head};
    }
  }

  lemma BranchingShows(r: Reading, cut: Option<Name>, at: Places, position: map<nat, nat>)
    requires Sound(r) && Threaded(r, cut, at) && IsPosition(Line(r.g, InRange(r), r.tip), position)
    ensures Branching(r, cut) <==> exists head :: head in at && (head !in position || |at[head]| > 1)
  {
    var line := Line(r.g, InRange(r), r.tip);
    assert forall name, head :: Between(r, cut, name, head) <==> Placed(at, RefRow(name, head));
    forall head | head in at && |at[head]| > 1 ensures Branching(r, cut) {
      assert Between(r, cut, at[head][0], head) && Between(r, cut, at[head][1], head);
    }
    forall head | head in at && head !in position ensures Branching(r, cut) {
      assert Between(r, cut, at[head][0], head);
    }
    forall a, b, head | a != b && Between(r, cut, a, head) && Between(r, cut, b, head) ensures |at[head]| > 1 {
      assert a in at[head] && b in at[head];
    }
  }

  lemma ThreadedAfterCut(r: Reading, level: seq<Name>, at: Places, cut: Option<Name>)
    requires Sound(r) && Sorted(r, AllListed(r), at, level)
    ensures Threaded(r, cut, if cut.Some? then at[r.tip := [cut.value]] else at)
  {
  }

  lemma NamedAreBetween(r: Reading, cut: Option<Name>, at: Places)
    requires Sound(r) && Threaded(r, cut, at)
    ensures forall name :: Named(at, name) <==> Passed(r, cut, name)
  {
    forall name ensures Named(at, name) <==> Passed(r, cut, name) {
      forall head ensures Between(r, cut, name, head) <==> Placed(at, RefRow(name, head)) {
      }
      if Named(at, name) {
        var head :| head in at && name in at[head];
        assert Between(r, cut, name, head);
      }
      if Passed(r, cut, name) {
        var head :| Between(r, cut, name, head);
        assert head in at && name in at[head];
      }
    }
  }

  /** The closing loop: each head's branch on the one below it, and the branch itself on the last. */
  method Build(r: Reading, at: Places, heads: seq<nat>, fork: nat) returns (chain: seq<Link>)
    requires forall head :: head in heads ==> head in at && at[head] != []
    ensures Stacked(r, at, heads, chain) && |chain| == |heads| + 1
    ensures chain[0].parent == r.base && chain[0].base == fork
    ensures chain[|heads|].name == r.branch && chain[|heads|].head == r.tip && !chain[|heads|].remote
    ensures forall i :: 0 < i < |chain| ==> Joined(chain[i - 1], chain[i])
  {
    chain := [];
    var parent, base := r.base, fork;
    var i := 0;
    while i < |heads|
      invariant 0 <= i == |chain| <= |heads|
      invariant Stacked(r, at, heads, chain)
      invariant forall k :: 0 < k < i ==> Joined(chain[k - 1], chain[k])
      invariant i == 0 ==> parent == r.base && base == fork
      invariant i > 0 ==> chain[0].parent == r.base && chain[0].base == fork
      invariant i > 0 ==> parent == chain[i - 1].name && base == chain[i - 1].head
    {
      var name := at[heads[i]][0];
      chain := chain + [Link(name, parent, base, heads[i], !Local(r, name))];
      parent, base := name, heads[i];
      i := i + 1;
    }
    chain := chain + [Link(r.branch, parent, base, r.tip, false)];
  }

  predicate Stacked(r: Reading, at: Places, heads: seq<nat>, chain: seq<Link>) {
    forall i :: 0 <= i < |chain| && i < |heads| ==>
      && heads[i] in at && at[heads[i]] != []
      && chain[i].name == at[heads[i]][0] && chain[i].head == heads[i]
      && (chain[i].remote <==> !Local(r, chain[i].name))
  }

  lemma BuiltIsChain(r: Reading, cut: Option<Name>, at: Places, position: map<nat, nat>, heads: seq<nat>,
                     chain: seq<Link>)
    requires Sound(r) && Threaded(r, cut, at)
    requires IsPosition(Line(r.g, InRange(r), r.tip), position)
    requires forall head :: head in at ==> head in position && |at[head]| <= 1
    requires forall head :: head in heads <==> head in at
    requires forall i, j :: 0 <= i < j < |heads| ==> position[heads[i]] > position[heads[j]]
    requires Stacked(r, at, heads, chain) && |chain| == |heads| + 1
    requires chain[0].parent == r.base && chain[0].head < |r.g|
             && IsMergeBase(r.g, chain[0].head, r.floor, chain[0].base)
    requires chain[|heads|].name == r.branch && chain[|heads|].head == r.tip && !chain[|heads|].remote
    requires forall i :: 0 < i < |chain| ==> Joined(chain[i - 1], chain[i])
    ensures IsChain(r, cut, chain)
  {
    BuiltBetween(r, cut, at, heads, chain);
    BuiltClimbs(r, at, position, heads, chain);
    hide WellFormed, InRange, IsMergeBase, Threaded, Stacked, IsPosition, Climbs, Holds, Between, Joined;
  }

  lemma BuiltClimbs(r: Reading, at: Places, position: map<nat, nat>, heads: seq<nat>, chain: seq<Link>)
    requires Sound(r) && IsPosition(Line(r.g, InRange(r), r.tip), position)
    requires forall head :: head in heads ==> head in position
    requires forall i, j :: 0 <= i < j < |heads| ==> position[heads[i]] > position[heads[j]]
    requires Stacked(r, at, heads, chain) && |chain| == |heads| + 1 && chain[|heads|].head == r.tip
    ensures forall i, j :: 0 <= i < j < |chain| ==> Climbs(r.g, chain[i], chain[j])
    ensures forall i, j :: 0 <= i < j < |chain| - 1 ==> chain[i].head != chain[j].head
    ensures forall i :: 0 <= i < |chain| - 1 ==> (chain[i].remote <==> !Local(r, chain[i].name))
  {
    var n := |heads|;
    assert forall i :: 0 <= i < n ==> chain[i].head == heads[i];
    hide WellFormed, InRange, IsMergeBase, IsPosition;
    forall i, j | 0 <= i < j < |chain| ensures Climbs(r.g, chain[i], chain[j]) {
      HeadsClimb(r, position, heads, i, j);
      assert j < n ==> chain[j].head == heads[j];
    }
  }

  lemma BuiltBetween(r: Reading, cut: Option<Name>, at: Places, heads: seq<nat>, chain: seq<Link>)
    requires Sound(r) && Threaded(r, cut, at)
    requires forall head :: head in at ==> |at[head]| <= 1
    requires forall head :: head in heads <==> head in at
    requires Stacked(r, at, heads, chain) && |chain| == |heads| + 1
    ensures forall i :: 0 <= i < |chain| - 1 ==> Between(r, cut, chain[i].name, chain[i].head)
    ensures forall name, head :: Between(r, cut, name, head) ==> Holds(chain, name, head)
  {
    hide WellFormed, InRange, IsMergeBase, Between, Distinct;
    var n := |heads|;
    forall i | 0 <= i < n ensures Between(r, cut, chain[i].name, chain[i].head) {
      assert Placed(at, RefRow(chain[i].name, chain[i].head));
    }
    forall name, head | Between(r, cut, name, head) ensures Holds(chain, name, head) {
      assert Placed(at, RefRow(name, head));
      var i :| 0 <= i < n && heads[i] == head;
      assert chain[i].name == name;
    }
  }

  lemma HeadsClimb(r: Reading, position: map<nat, nat>, heads: seq<nat>, i: nat, j: nat)
    requires Sound(r) && IsPosition(Line(r.g, InRange(r), r.tip), position)
    requires forall head :: head in heads ==> head in position
    requires forall i, j :: 0 <= i < j < |heads| ==> position[heads[i]] > position[heads[j]]
    requires i < j <= |heads|
    ensures heads[i] < |r.g| && (j < |heads| ==> heads[j] < |r.g|)
    ensures Reaches(r.g, heads[i], if j < |heads| then heads[j] else r.tip)
  {
    var line := Line(r.g, InRange(r), r.tip);
    assert line[position[heads[i]]] == heads[i];
    if j < |heads| {
      assert line[position[heads[j]]] == heads[j];
      LineDescends(r.g, InRange(r), r.tip, position[heads[j]], position[heads[i]]);
    } else if position[heads[i]] > 0 {
      LineDescends(r.g, InRange(r), r.tip, 0, position[heads[i]]);
    }
  }

  /** A git answer the lookup needs is missing: the remote's heads, or a reflog that says which of the level
      branches was cut from which. */
  ghost predicate CannotRead(r: Reading)
    requires WellFormed(r.g) && r.floor < |r.g| && r.tip < |r.g|
  {
    || (AsksRemote(r) && r.remoteHeads.None?)
    || (LevelOf(r, r.locals) != [] && LevelUnread(r, LevelOf(r, r.locals)))
  }

  /** The lowest head on the way to the tip. */
  ghost predicate IsBottom(r: Reading, cut: Option<Name>, b: nat)
    requires WellFormed(r.g) && r.floor < |r.g| && r.tip < |r.g|
  {
    && (b == r.tip || exists name :: Between(r, cut, name, b))
    && forall name, head: nat :: Between(r, cut, name, head) ==> head < |r.g| && Reaches(r.g, b, head)
  }

  /** What each answer of the lookup says; no two of them can hold of one reading and cut. */
  ghost predicate Answers(r: Reading, cut: Option<Name>, res: Result<seq<Link>, Refusal>)
    requires WellFormed(r.g) && r.floor < |r.g| && r.tip < |r.g|
  {
    match res
    case Success(chain) =>
      && !CannotRead(r) && CutOk(r, cut) && !Branching(r, cut) && IsChain(r, cut, chain)
      && chain != [] && r.forkOf(chain[0].head, r.floor) == Some(chain[0].base)
    case Failure(Unreadable) => CannotRead(r)
    case Failure(LevelUnknown) =>
      && !CannotRead(r) && (forall name :: AtTip(r, name) ==> !Cuts(r, name))
      && exists name :: AtTip(r, name) && r.cutFrom(name) != Some(r.branch)
    case Failure(NoSingleLine(names)) =>
      && !CannotRead(r) && CutOk(r, cut) && Branching(r, cut)
      && forall name :: name in names <==> Passed(r, cut, name)
    case Failure(NoSharedHistory) =>
      && !CannotRead(r) && CutOk(r, cut) && !Branching(r, cut)
      && exists b: nat :: IsBottom(r, cut, b) && r.forkOf(b, r.floor).None?
  }

  /** The first of the heads sorted farthest first is below every other. */
  lemma FirstIsBottom(r: Reading, cut: Option<Name>, at: Places, position: map<nat, nat>, heads: seq<nat>)
    requires Sound(r) && Threaded(r, cut, at) && IsPosition(Line(r.g, InRange(r), r.tip), position)
    requires forall head :: head in at ==> head in position
    requires forall head :: head in heads <==> head in at
    requires forall i, j :: 0 <= i < j < |heads| ==> position[heads[i]] > position[heads[j]]
    ensures IsBottom(r, cut, if heads != [] then heads[0] else r.tip)
  {
    var b := if heads != [] then heads[0] else r.tip;
    forall name, head: nat | Between(r, cut, name, head) ensures head < |r.g| && Reaches(r.g, b, head) {
      assert Placed(at, RefRow(name, head));
      var j :| 0 <= j < |heads| && heads[j] == head;
      hide InRange, Between, IsPosition;
      HeadsClimb(r, position, heads, 0, if j == 0 then |heads| else j);
    }
    if heads != [] {
      assert heads[0] in heads;
      assert Placed(at, RefRow(at[b][0], b));
    }
  }

  lemma ReadingNeeds(r: Reading)
    requires WellFormed(r.g) && r.floor < |r.g| && r.tip < |r.g|
    ensures CannotRead(r) <==>
              || (AsksRemote(r) && r.remoteHeads.None?)
              || (LevelOf(r, r.locals) != [] && LevelUnread(r, LevelOf(r, r.locals)))
  {
  }

  /** The first half of the lookup: every branch between, and the level branch the chain passes through. */
  method Gather(r: Reading) returns (refused: Option<Refusal>, at: Places, cut: Option<Name>)
    requires Sound(r)
    ensures refused.Some? ==> Answers(r, cut, Failure(refused.value))
    ensures refused.None? ==> !CannotRead(r) && CutOk(r, cut) && Threaded(r, cut, at)
  {
    hide Sorted, Branching, IsChain, LevelUnread, CannotRead, IsBottom, LevelOf, Threaded;
    ReadingNeeds(r);
    cut := None;
    var found, sorted, level := Candidates(r);
    at := sorted;
    if !found {
      return Some(Unreadable), at, cut;
    }
    if level != [] {
      var from := LevelParent(r, level);
      if from.Failure? {
        return Some(from.error), at, cut;
      }
      cut := from.value;
    }
    assert forall row :: row in r.locals && AtTip(r, row.name) ==> row.name in level;
    if cut.Some? {
      at := at[r.tip := [cut.value]];
    }
    ThreadedAfterCut(r, level, sorted, cut);
    refused := None;
  }

  /** gtUntrackedChain. */
  method UntrackedChain(r: Reading) returns (res: Result<seq<Link>, Refusal>, ghost cut: Option<Name>)
    requires Sound(r)
    ensures Answers(r, cut, res)
  {
    hide Reaches, Line, Branching, IsChain, CannotRead, IsBottom, CutOk;
    var refused, at, chosen := Gather(r);
    cut := chosen;
    if refused.Some? {
      return Failure(refused.value), cut;
    }
    var position := Positions(r.g, InRange(r), r.tip);
    var ambiguous, named := Ambiguity(at, position);
    BranchingShows(r, cut, at, position);
    if ambiguous {
      NamedAreBetween(r, cut, at);
      return Failure(NoSingleLine(named)), cut;
    }
    var heads := SortedByPosition(at.Keys, position);
    FirstIsBottom(r, cut, at, position, heads);
    var bottom := if heads != [] then heads[0] else r.tip;
    var fork := r.forkOf(bottom, r.floor);
    if fork.None? {
      return Failure(NoSharedHistory), cut;
    }
    var chain := Build(r, at, heads, fork.value);
    assert bottom == chain[0].head;
    BuiltIsChain(r, cut, at, position, heads, chain);
    res := Success(chain);
  }

  /** gtUntrackedChain with the floor it picks itself: the remote trunk for a branch on trunk, otherwise the
      nearest head the base's reflog held under the tip, or the base's own. */
  method ChainOnto(r: Reading, trunk: Name, trunkFloor: nat, held: seq<nat>, baseHead: nat)
    returns (res: Result<seq<Link>, Refusal>, ghost cut: Option<Name>, ghost from: Reading)
    requires Sound(r) && trunkFloor < |r.g| && baseHead < |r.g|
    ensures from == r.(floor := from.floor) && Sound(from)
    ensures r.base == trunk ==> from.floor == trunkFloor
    ensures r.base != trunk ==> IsHeadUnder(r.g, held, baseHead, trunkFloor, r.tip, from.floor)
    ensures Answers(from, cut, res)
    ensures r.base != trunk && SingleParent(r.g) && (held == [] || baseHead in held) ==> baseHead !in InRange(from)
  {
    hide Answers, IsHeadUnder, Reaches;
    var floor := trunkFloor;
    if r.base != trunk {
      floor := HeadUnder(r.g, held, baseHead, trunkFloor, r.tip);
      UnderIsACommit(r.g, held, baseHead, trunkFloor, r.tip, floor);
      if SingleParent(r.g) && (held == [] || baseHead in held) {
        BaseStaysBelowItsFloor(r.g, held, baseHead, trunkFloor, r.tip, floor);
      }
    }
    var reading := r.(floor := floor);
    from := reading;
    res, cut := UntrackedChain(reading);
  }

  lemma UnderIsACommit(g: Graph, held: seq<nat>, head: nat, floor: nat, tip: nat, under: nat)
    requires WellFormed(g) && floor < |g| && tip < |g| && IsHeadUnder(g, held, head, floor, tip, under)
    ensures under < |g|
  {
  }
}
