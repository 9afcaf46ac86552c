/** The tracked state of a stack, and the single pass that decides which branches a restack moves. */
module RestackPlan {
  import opened Wrappers
  import opened Forest
  import opened Upstack

  /** A recorded parent: its name, and the commit it stood at when the child was last restacked. */
  datatype Parent = Parent(ref: Name, sha: nat)

  /** hold is empty for a branch under no hold at all. */
  datatype Branch = Branch(trunk: bool, needsRestack: bool, head: nat, hold: string, parents: seq<Parent>)

  type State = map<Name, Branch>

  /** What the planning pass indexes: every chain branch is tracked with a recorded parent. */
  ghost predicate Walkable(state: State, chain: seq<Name>) {
    forall b :: b in chain ==> b in state && |state[b].parents| > 0
  }

  /** No branch comes before its own recorded parent. */
  ghost predicate ParentsFirst(state: State, chain: seq<Name>)
    requires Walkable(state, chain)
  {
    forall i, j :: 0 <= i <= j < |chain| ==> ParentRef(state, chain[i]) != chain[j]
  }

  function ParentRef(state: State, b: Name): Name
    requires b in state && |state[b].parents| > 0
  {
    state[b].parents[0].ref
  }

  function ParentsOf(state: State): Parents {
    map b | b in state && |state[b].parents| > 0 :: ParentRef(state, b)
  }

  /** The pass over a prefix of the chain: the movers so far, in order. */
  function Movers(state: State, chain: seq<Name>): (movers: seq<Name>)
    requires Walkable(state, chain)
    ensures forall m :: m in movers ==> m in chain && state[m].hold == ""
    decreases |chain|
  {
    if chain == [] then []
    else
      var rest, b := chain[..|chain| - 1], chain[|chain| - 1];
      var before := Movers(state, rest);
      if (state[b].needsRestack || ParentRef(state, b) in before) && state[b].hold == ""
      then before + [b] else before
  }

  /** b belongs where its parent is going, but is held where it is. */
  ghost predicate HeldBack(state: State, chain: seq<Name>, b: Name)
    requires Walkable(state, chain)
  {
    && b in chain && state[b].hold != ""
    && (state[b].needsRestack || ParentRef(state, b) in Movers(state, chain))
  }

  /** gtRestackPlan: one pass in chain order. */
  method Plan(state: State, chain: seq<Name>) returns (movers: seq<Name>, held: map<Name, string>)
    requires Walkable(state, chain)
    ensures movers == Movers(state, chain)
    ensures Distinct(chain) && ParentsFirst(state, chain) ==>
              (forall b :: b in held <==> HeldBack(state, chain, b))
    ensures forall b :: b in held ==> b in chain && held[b] == state[b].hold && held[b] != ""
  {
    hide Distinct, ParentsFirst;
    var moving: set<Name> := {};
    held := map[];
    movers := [];
    var i := 0;
    while i < |chain|
      invariant 0 <= i <= |chain|
      invariant moving == set m | m in movers
      invariant movers == Movers(state, chain[..i])
      invariant forall b :: b in held ==> b in chain && held[b] == state[b].hold && held[b] != ""
      invariant Distinct(chain) && ParentsFirst(state, chain) ==>
                  (forall b :: b in held <==> HeldBack(state, chain[..i], b))
    {
      var b := chain[i];
      var s := state[b];
      ghost var before := chain[..i];
      assert chain[..i + 1] == before + [b];
      if Distinct(chain) && ParentsFirst(state, chain) {
        HeldBackStep(state, chain, i);
      }
      i := i + 1;
      if !s.needsRestack && s.parents[0].ref !in moving {
        continue;
      }
      if s.hold != "" {
        held := held[b := s.hold];
        continue;
      }
      moving := moving + {b};
      movers := movers + [b];
    }
    assert chain[..i] == chain;
  }

  /** In a parents-first chain a later entry never decides an earlier one. */
  lemma HeldBackStep(state: State, chain: seq<Name>, i: nat)
    requires Walkable(state, chain) && Distinct(chain) && ParentsFirst(state, chain) && i < |chain|
    ensures forall b :: HeldBack(state, chain[..i + 1], b) <==>
                  HeldBack(state, chain[..i], b)
                  || (b == chain[i] && state[b].hold != ""
                      && (state[b].needsRestack || ParentRef(state, b) in Movers(state, chain[..i])))
  {
    var rest, last := chain[..i], chain[i];
    assert chain[..i + 1][..i] == rest && chain[..i + 1] == rest + [last];
    forall b | b in rest ensures ParentRef(state, b) != last {
      var j :| 0 <= j < i && chain[j] == b;
    }
    assert last !in rest;
    assert ParentRef(state, last) != last;
  }

  /** The equation the plan answers: a chain branch moves exactly when it is not held and either
      sits off its parent or has a moving parent. */
  ghost predicate SolvesPlan(state: State, chain: seq<Name>, moving: set<Name>)
    requires Walkable(state, chain)
  {
    && (forall b :: b in moving ==> b in chain)
    && forall b :: b in chain ==>
         (b in moving <==> state[b].hold == "" && (state[b].needsRestack || ParentRef(state, b) in moving))
  }

  ghost function MoverSet(state: State, chain: seq<Name>): set<Name>
    requires Walkable(state, chain)
  {
    set m | m in Movers(state, chain)
  }

  lemma {:induction false} PassSolvesPlan(state: State, chain: seq<Name>)
    requires Walkable(state, chain) && Distinct(chain) && ParentsFirst(state, chain)
    ensures SolvesPlan(state, chain, MoverSet(state, chain))
    decreases |chain|
  {
    if chain != [] {
      var n := |chain| - 1;
      var rest, last := chain[..n], chain[n];
      assert chain == rest + [last];
      LastIsNew(state, chain);
      hide Distinct, ParentsFirst, ParentRef;
      PassSolvesPlan(state, rest);
    }
  }

  /** The last branch of a parents-first chain is nobody's parent before it. */
  lemma LastIsNew(state: State, chain: seq<Name>)
    requires Walkable(state, chain) && Distinct(chain) && ParentsFirst(state, chain) && chain != []
    ensures var n := |chain| - 1; var rest, last := chain[..n], chain[n];
      && Walkable(state, rest) && Distinct(rest) && ParentsFirst(state, rest)
      && last !in rest && ParentRef(state, last) != last && forall b :: b in rest ==> ParentRef(state, b) != last
  {
  }

  /** Two solutions agree on each entry, because they agree on the earlier entries. */
  lemma {:induction false} SolutionsAgree(state: State, chain: seq<Name>, a: set<Name>, b: set<Name>, i: nat)
    requires Walkable(state, chain) && Distinct(chain) && ParentsFirst(state, chain) && i < |chain|
    requires SolvesPlan(state, chain, a) && SolvesPlan(state, chain, b)
    ensures chain[i] in a <==> chain[i] in b
    decreases i
  {
    assert chain[i] in chain;
    var p := ParentRef(state, chain[i]);
    if p in chain {
      var j :| 0 <= j < |chain| && chain[j] == p;
      assert j < i;
      SolutionsAgree(state, chain, a, b, j);
    }
  }

  /** On a parents-first chain the one pass finds the only solution of the plan's equation. */
  lemma PlanIsTheUniqueSolution(state: State, chain: seq<Name>, moving: set<Name>)
    requires Walkable(state, chain) && Distinct(chain) && ParentsFirst(state, chain)
    ensures SolvesPlan(state, chain, moving) <==> moving == MoverSet(state, chain)
  {
    PassSolvesPlan(state, chain);
    if SolvesPlan(state, chain, moving) {
      forall b | b in moving || b in MoverSet(state, chain) ensures b in moving && b in MoverSet(state, chain) {
        var i :| 0 <= i < |chain| && chain[i] == b;
        SolutionsAgree(state, chain, moving, MoverSet(state, chain), i);
      }
    }
  }

  /** held only adds holds to state. */
  ghost predicate OnlyAddsHolds(state: State, held: State) {
    && held.Keys == state.Keys
    && forall b :: b in state ==>
         && held[b].parents == state[b].parents && held[b].needsRestack == state[b].needsRestack
         && held[b].head == state[b].head && held[b].trunk == state[b].trunk
         && (state[b].hold != "" ==> held[b].hold != "")
  }

  /** Adding holds only ever shrinks the set of movers. */
  lemma {:induction false} HoldsShrinkThePlan(state: State, held: State, chain: seq<Name>)
    requires Walkable(state, chain) && OnlyAddsHolds(state, held)
    ensures forall m :: m in Movers(held, chain) ==> m in Movers(state, chain)
    decreases |chain|
  {
    if chain != [] {
      HoldsShrinkThePlan(state, held, chain[..|chain| - 1]);
    }
  }

  /** Movers keep the chain's order, so parents-first chains give parents-first movers. */
  lemma {:induction false} MoversKeepOrder(state: State, chain: seq<Name>)
    requires Walkable(state, chain) && Distinct(chain) && ParentsFirst(state, chain)
    ensures Distinct(Movers(state, chain)) && ParentsFirst(state, Movers(state, chain))
    decreases |chain|
  {
    if chain != [] {
      var n := |chain| - 1;
      var rest, last := chain[..n], chain[n];
      LastIsNew(state, chain);
      hide Distinct, ParentsFirst, ParentRef;
      MoversKeepOrder(state, rest);
      AppendKeepsOrder(state, Movers(state, rest), last);
    }
  }

  lemma AppendKeepsOrder(state: State, before: seq<Name>, last: Name)
    requires Walkable(state, before) && Distinct(before) && ParentsFirst(state, before)
    requires last in state && |state[last].parents| > 0 && ParentRef(state, last) != last
    requires forall b :: b in before ==> b != last && ParentRef(state, b) != last
    ensures Walkable(state, before + [last]) && Distinct(before + [last]) && ParentsFirst(state, before + [last])
  {
  }

  /** An upstack the breadth-first walk lists can be planned: distinct, tracked, parents first. */
  lemma UpstackCanBePlanned(state: State, branch: Name, up: seq<Name>)
    requires ListsDescendants(ParentsOf(state), branch, up)
    requires !Above(ParentsOf(state), branch, branch)
    ensures Walkable(state, up) && Distinct(up) && ParentsFirst(state, up)
  {
    var parents := ParentsOf(state);
    forall b | b in up ensures b in state && |state[b].parents| > 0 {
      AboveFirstStep(parents, branch, b);
    }
    forall i, j | 0 <= i <= j < |up| ensures ParentRef(state, up[i]) != up[j] {
      assert Placed(parents, branch, up, i);
      assert up[j] in up && up[j] != branch;
    }
  }

  const HELD_ELSEWHERE := "checked out in "

  /** A chain branch another working copy has checked out. */
  predicate Elsewhere(chain: seq<Name>, holders: map<Name, string>, origin: string, b: Name) {
    b in holders && holders[b] != "" && holders[b] != origin && b in chain
  }

  /** The state with every free chain branch that another working copy has checked out held. */
  function ElsewhereHeld(state: State, chain: seq<Name>, holders: map<Name, string>, origin: string): State {
    map b | b in state ::
      state[b].(hold := if Elsewhere(chain, holders, origin, b) && state[b].hold == ""
                        then HELD_ELSEWHERE + holders[b] else state[b].hold)
  }

  lemma HeldOnlyElsewhere(state: State, chain: seq<Name>, holders: map<Name, string>, origin: string, held: State)
    requires OnlyAddsHolds(state, held)
    requires forall b :: b in state ==>
               held[b].hold == (if Elsewhere(chain, holders, origin, b) && state[b].hold == ""
                                then HELD_ELSEWHERE + holders[b] else state[b].hold)
    ensures held == ElsewhereHeld(state, chain, holders, origin)
  {
    hide Elsewhere;
    assert forall b :: b in state ==> held[b] == state[b].(hold := held[b].hold);
  }

  /** gtHoldElsewhere: every chain branch another working copy has checked out comes out held, and
      nothing else changes. */
  method HoldElsewhere(state: State, chain: seq<Name>, holders: map<Name, string>, origin: string) returns (held: State)
    ensures OnlyAddsHolds(state, held)
    ensures forall b :: b in state ==>
              held[b].hold == (if Elsewhere(chain, holders, origin, b) && state[b].hold == ""
                               then HELD_ELSEWHERE + holders[b] else state[b].hold)
  {
    held := map[];
    var todo := state.Keys;
    while todo != {}
      invariant todo <= state.Keys && held.Keys == state.Keys - todo
      invariant forall b :: b in held ==>
                  held[b] == state[b].(hold := if Elsewhere(chain, holders, origin, b) && state[b].hold == ""
                                               then HELD_ELSEWHERE + holders[b] else state[b].hold)
      decreases |todo|
    {
      var name :| name in todo;
      var s := state[name];
      if name in holders && holders[name] != "" && holders[name] != origin && s.hold == "" && name in chain {
        s := s.(hold := HELD_ELSEWHERE + holders[name]);
      }
      held := held[name := s];
      todo := todo - {name};
    }
  }

  const UNCOMMITTED := " with uncommitted work and no commit of its own"

  /** The hold naming a working copy with uncommitted work. */
  function WorkHold(holder: string): (hold: string)
    ensures hold != ""
  {
    HELD_ELSEWHERE + holder + UNCOMMITTED
  }

  /** A mover with no commit of its own, checked out somewhere. */
  predicate EmptyUnderHolder(state: State, holders: map<Name, string>, b: Name)
    requires b in state && |state[b].parents| > 0
  {
    b in holders && holders[b] != "" && state[b].parents[0].sha == state[b].head
  }

  /** One whose working copy holds uncommitted work. */
  predicate OverWork(state: State, holders: map<Name, string>, dirty: string -> Option<bool>, b: Name)
    requires b in state && |state[b].parents| > 0
  {
    EmptyUnderHolder(state, holders, b) && dirty(holders[b]) == Some(true)
  }

  /** The state with every mover over uncommitted work held. */
  function WorkHeld(state: State, movers: seq<Name>, holders: map<Name, string>, dirty: string -> Option<bool>): State
    requires forall b :: b in movers ==> b in state && |state[b].parents| > 0
  {
    map b | b in state ::
      state[b].(hold := if b in movers && OverWork(state, holders, dirty, b) then WorkHold(holders[b])
                        else state[b].hold)
  }

  lemma HeldOnlyWork(state: State, movers: seq<Name>, holders: map<Name, string>, dirty: string -> Option<bool>,
                     held: State)
    requires OnlyAddsHolds(state, held) && forall b :: b in movers ==> b in state && |state[b].parents| > 0
    requires forall b :: b in state ==>
               held[b].hold == (if b in movers && OverWork(state, holders, dirty, b)
                                then WorkHold(holders[b]) else state[b].hold)
    ensures held == WorkHeld(state, movers, holders, dirty)
  {
    hide OverWork, WorkHold;
    assert forall b :: b in state ==> held[b] == state[b].(hold := held[b].hold);
  }

  /** gtHoldEmptyUnderWork: a mover checked out over uncommitted work, with no commit of its own,
      comes out held. dirty answers git status in a working copy, None when it fails. */
  method HoldEmptyUnderWork(state: State, movers: seq<Name>, holders: map<Name, string>, dirty: string -> Option<bool>)
    returns (r: Option<State>)
    requires Walkable(state, movers) && Distinct(movers)
    ensures r.None? <==> exists b :: b in movers && EmptyUnderHolder(state, holders, b) && dirty(holders[b]).None?
    ensures r.Some? ==> OnlyAddsHolds(state, r.value)
    ensures r.Some? ==> forall b :: b in state ==>
              r.value[b].hold == (if b in movers && OverWork(state, holders, dirty, b)
                                  then WorkHold(holders[b]) else state[b].hold)
  {
    var held := state;
    var i := 0;
    while i < |movers|
      invariant 0 <= i <= |movers|
      invariant held.Keys == state.Keys
      invariant forall b :: b in movers[..i] && EmptyUnderHolder(state, holders, b) ==> dirty(holders[b]).Some?
      invariant forall b :: b in state ==>
                  held[b] == state[b].(hold := if b in movers[..i] && OverWork(state, holders, dirty, b)
                                               then WorkHold(holders[b]) else state[b].hold)
    {
      var name := movers[i];
      assert movers[..i + 1] == movers[..i] + [name];
      assert name !in movers[..i];
      var s := held[name];
      i := i + 1;
      if name !in holders || holders[name] == "" || s.parents[0].sha != s.head {
        continue;
      }
      match dirty(holders[name]) {
        case None => return None;
        case Some(work) =>
          if work {
            held := held[name := s.(hold := WorkHold(holders[name]))];
          }
      }
    }
    assert movers[..i] == movers;
    return Some(held);
  }
}
