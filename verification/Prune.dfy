/** Reparenting the rows a prune strands: each onto the first ancestor it keeps. */
module Prune {
  import opened Wrappers
  import opened Forest

  /** One tracked branch and the parent gt recorded for it, empty on the trunk row. */
  datatype Row = Row(branch: Name, parent: Name)

  /** A parent chain that met a branch again. */
  datatype Cycle = Cycle(branch: Name, at: Name)

  /** Each tracked branch has one row. */
  ghost predicate OneRowEach(rows: seq<Row>) {
    forall i, j :: 0 <= i < j < |rows| ==> rows[i].branch != rows[j].branch
  }

  function ParentColumn(rows: seq<Row>): map<Name, Name> {
    if rows == [] then map[]
    else ParentColumn(rows[..|rows| - 1])[rows[|rows| - 1].branch := rows[|rows| - 1].parent]
  }

  /** The recorded parents: an empty parent is none. */
  function Recorded(column: map<Name, Name>): Parents {
    map b | b in column && column[b] != "" :: column[b]
  }

  /** The rows a prune keeps. */
  function Kept(column: map<Name, Name>, forgotten: set<Name>): set<Name> {
    column.Keys - forgotten
  }

  /** The kept rows whose recorded parent is forgotten. */
  function Stranded(column: map<Name, Name>, forgotten: set<Name>): set<Name> {
    set b | b in column && b !in forgotten && column[b] in forgotten
  }

  /** The walk up from b meets a branch, none of it kept, at each of its first k - 1 steps. */
  ghost predicate Climbs(parents: Parents, kept: set<Name>, b: Name, k: nat) {
    forall j :: 1 <= j < k ==> Up(parents, b, j).Some? && Up(parents, b, j).value !in kept
  }

  /** x is the nearest kept ancestor of b. */
  ghost predicate NearestKept(parents: Parents, kept: set<Name>, b: Name, x: Name) {
    exists k: nat :: k >= 1 && Climbs(parents, kept, b, k) && Up(parents, b, k) == Some(x) && x in kept && x != b
  }

  /** The walk up from b ends without meeting a kept branch. */
  ghost predicate RunsOut(parents: Parents, kept: set<Name>, b: Name) {
    exists k: nat :: k >= 1 && Climbs(parents, kept, b, k) && Up(parents, b, k) == None
  }

  /** The walk up from b through branches not kept meets a branch again. */
  ghost predicate Revisits(parents: Parents, kept: set<Name>, b: Name) {
    exists k: nat, j: nat :: j < k && Climbs(parents, kept, b, k) && Up(parents, b, k).Some?
      && Up(parents, b, k) == Up(parents, b, j)
  }

  /** A walk that revisits a branch never reaches a kept one nor an end. */
  lemma RevisitsExcludesTheRest(parents: Parents, kept: set<Name>, b: Name)
    requires Revisits(parents, kept, b)
    ensures !RunsOut(parents, kept, b)
    ensures forall x :: !NearestKept(parents, kept, b, x)
  {
    var k: nat, j: nat :| j < k && Climbs(parents, kept, b, k) && Up(parents, b, k).Some?
      && Up(parents, b, k) == Up(parents, b, j);
    forall m: nat | m >= 1 && Climbs(parents, kept, b, m)
      ensures Up(parents, b, m).Some? && (Up(parents, b, m).value !in kept || Up(parents, b, m).value == b)
    {
      if m > k {
        UpAdds(parents, b, k, m - k);
        UpAdds(parents, b, j, m - k);
      }
    }
  }

  lemma NearestKeptIsUnique(parents: Parents, kept: set<Name>, b: Name, x: Name, y: Name)
    requires NearestKept(parents, kept, b, x) && NearestKept(parents, kept, b, y)
    ensures x == y
  {
  }

  lemma NearestKeptOrRunsOut(parents: Parents, kept: set<Name>, b: Name, x: Name)
    requires NearestKept(parents, kept, b, x)
    ensures !RunsOut(parents, kept, b)
  {
  }

  /** pruneSurvivor: the nearest kept ancestor, trunk when the chain runs out, and an error exactly
      when the walk meets a branch again. */
  method Survivor(column: map<Name, Name>, forgotten: set<Name>, trunk: Name, branch: Name)
    returns (r: Result<Name, Cycle>)
    ensures r.Failure? <==> Revisits(Recorded(column), Kept(column, forgotten), branch)
    ensures r.Failure? ==> r.error.branch == branch
    ensures r.Success? ==>
              NearestKept(Recorded(column), Kept(column, forgotten), branch, r.value)
              || (RunsOut(Recorded(column), Kept(column, forgotten), branch) && r.value == trunk)
  {
    ghost var parents, kept := Recorded(column), Kept(column, forgotten);
    var seen := {branch};
    var cur := branch;
    ghost var k: nat := 0;
    while true
      invariant Up(parents, branch, k) == Some(cur)
      invariant Climbs(parents, kept, branch, k + 1)
      invariant forall n :: n in seen ==> exists j: nat :: j <= k && Up(parents, branch, j) == Some(n)
      invariant branch in seen && cur in seen
      invariant seen <= column.Keys + {branch, cur}
      decreases column.Keys - (seen - {cur})
    {
      UpAdds(parents, branch, k, 1);
      assert Up(parents, cur, 1) == if cur in parents then Some(parents[cur]) else None;
      if cur !in column || column[cur] == "" {
        if Revisits(parents, kept, branch) {
          RevisitsExcludesTheRest(parents, kept, branch);
        }
        return Success(trunk);
      }
      var next := column[cur];
      if next in seen {
        return Failure(Cycle(branch, next));
      }
      if next in column && next !in forgotten {
        assert NearestKept(parents, kept, branch, next);
        if Revisits(parents, kept, branch) {
          RevisitsExcludesTheRest(parents, kept, branch);
        }
        return Success(next);
      }
      seen := seen + {next};
      cur := next;
      k := k + 1;
    }
  }

  /** Where a stranded row goes. */
  ghost predicate Rehomed(column: map<Name, Name>, forgotten: set<Name>, trunk: Name, b: Name, to: Name) {
    var parents, kept := Recorded(column), Kept(column, forgotten);
    NearestKept(parents, kept, b, to) || (RunsOut(parents, kept, b) && to == trunk)
  }

  /** The plan a prune writes back: every stranded row, and no other, moved to where it goes. */
  ghost predicate Moves(column: map<Name, Name>, forgotten: set<Name>, trunk: Name, moves: map<Name, Name>) {
    && moves.Keys == Stranded(column, forgotten)
    && forall b :: b in moves ==> Rehomed(column, forgotten, trunk, b, moves[b])
  }

  /** pruneReparent: exactly the stranded rows move, each to where it belongs, and it refuses exactly
      when one of them sits on a chain that cycles. */
  method Reparent(rows: seq<Row>, forgotten: set<Name>, trunk: Name) returns (r: Result<map<Name, Name>, Cycle>)
    requires OneRowEach(rows)
    ensures var column := ParentColumn(rows);
            && (r.Failure? <==>
                  exists b :: b in Stranded(column, forgotten)
                    && Revisits(Recorded(column), Kept(column, forgotten), b))
            && (r.Success? ==> Moves(column, forgotten, trunk, r.value))
  {
    var parents: map<Name, Name> := map[];
    var i := 0;
    while i < |rows|
      invariant 0 <= i <= |rows| && parents == ParentColumn(rows[..i])
    {
      assert rows[..i + 1][..i] == rows[..i];
      parents := parents[rows[i].branch := rows[i].parent];
      i := i + 1;
    }
    assert rows[..i] == rows;
    var moves: map<Name, Name> := map[];
    i := 0;
    while i < |rows|
      invariant 0 <= i <= |rows|
      invariant forall b :: b in moves ==>
                  b in Stranded(parents, forgotten) && Rehomed(parents, forgotten, trunk, b, moves[b])
      invariant forall k :: 0 <= k < i && rows[k].branch in Stranded(parents, forgotten) ==>
                  rows[k].branch in moves && !Revisits(Recorded(parents), Kept(parents, forgotten), rows[k].branch)
    {
      var row := rows[i];
      ColumnHoldsRow(rows, i);
      i := i + 1;
      if row.branch in forgotten || row.parent !in forgotten {
        continue;
      }
      var survivor := Survivor(parents, forgotten, trunk, row.branch);
      if survivor.Failure? {
        return Failure(survivor.error);
      }
      moves := moves[row.branch := survivor.value];
    }
    forall b | b in Stranded(parents, forgotten)
      ensures b in moves && !Revisits(Recorded(parents), Kept(parents, forgotten), b)
    {
      var k := RowOf(rows, b);
    }
    return Success(moves);
  }

  lemma {:induction false} ColumnHoldsRow(rows: seq<Row>, i: nat)
    requires OneRowEach(rows) && i < |rows|
    ensures rows[i].branch in ParentColumn(rows) && ParentColumn(rows)[rows[i].branch] == rows[i].parent
    decreases |rows|
  {
    if i < |rows| - 1 {
      ColumnHoldsRow(rows[..|rows| - 1], i);
    }
  }

  lemma {:induction false} RowOf(rows: seq<Row>, b: Name) returns (i: nat)
    requires b in ParentColumn(rows)
    ensures i < |rows| && rows[i].branch == b
    decreases |rows|
  {
    if rows[|rows| - 1].branch == b {
      i := |rows| - 1;
    } else {
      i := RowOf(rows[..|rows| - 1], b);
    }
  }
}
