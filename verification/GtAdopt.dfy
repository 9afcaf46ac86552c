/** Recording a chain of untracked branches: each is first recorded on trunk, then moved onto the
    branch below it, in gt's two-sided table of parents and children. */
module GtAdopt {
  import opened Wrappers
  import opened Forest
  import opened GtChain

  datatype Record = Record(parent: Name, base: nat, head: nat, valid: bool, hold: string, children: seq<Name>)

  type Table = map<Name, Record>

  function Without(children: seq<Name>, b: Name): (rest: seq<Name>)
    ensures forall c :: c in rest <==> c in children && c != b
  {
    if children == [] then []
    else if children[0] == b then Without(children[1..], b)
    else [children[0]] + Without(children[1..], b)
  }

  function With(children: seq<Name>, b: Name): (more: seq<Name>)
    ensures forall c :: c in more <==> c in children || c == b
  {
    if b in children then children else children + [b]
  }

  /** editChildren: a parent without a row has no children to edit. */
  function Disowned(t: Table, parent: Name, b: Name): Table {
    if parent in t then t[parent := t[parent].(children := Without(t[parent].children, b))] else t
  }

  function Owned(t: Table, parent: Name, b: Name): Table
    requires parent in t
  {
    t[parent := t[parent].(children := With(t[parent].children, b))]
  }

  /** gtmeta.AdoptRoot: None when trunk has no row. */
  function AdoptedRoot(t: Table, b: Name, trunk: Name, base: nat, head: nat): Option<Table> {
    var previous := if b in t then t[b].parent else "";
    var children := if b in t then t[b].children else [];
    var placed := t[b := Record(trunk, base, head, true, "none", children)];
    var left := if previous != "" && previous != trunk then Disowned(placed, previous, b) else placed;
    if trunk in left then Some(Owned(left, trunk, b)) else None
  }

  /** gtmeta.Reparent of one branch: None when either branch has no row. */
  function Reparented(t: Table, b: Name, parent: Name): Option<Table> {
    if b !in t then None
    else if t[b].parent == parent then Some(t)
    else
      var placed := t[b := t[b].(parent := parent)];
      if parent !in placed then None
      else Some(Disowned(Owned(placed, parent, b), t[b].parent, b))
  }

  function AdoptedLink(t: Table, trunk: Name, link: Link): Option<Table> {
    match AdoptedRoot(t, link.name, trunk, link.base, link.head)
    case None => None
    case Some(t') => Reparented(t', link.name, link.parent)
  }

  function AdoptedChain(t: Table, trunk: Name, chain: seq<Link>): Option<Table> {
    if chain == [] then Some(t)
    else match AdoptedChain(t, trunk, chain[..|chain| - 1])
      case None => None
      case Some(t') => AdoptedLink(t', trunk, chain[|chain| - 1])
  }

  /** Every row is in its parent's children, and every child listed is a row naming that parent. */
  ghost predicate TwoSided(t: Table) {
    && "" !in t
    && forall p, b :: p in t ==> (b in t[p].children <==> b in t && t[b].parent == p)
  }

  // ---------------------------------------------------------------------------
  // The store
  // ---------------------------------------------------------------------------

  /** A clone's branches and gt's table. up(n) says whether the n-th command still succeeds. */
  class Store {
    var rows: Table
    var refs: map<Name, nat>
    var asked: nat
    const up: nat -> bool

    constructor (rows: Table, refs: map<Name, nat>, up: nat -> bool)
      ensures this.rows == rows && this.refs == refs && this.up == up
    {
      this.rows, this.refs, this.up, asked := rows, refs, up, 0;
    }

    method Ask() returns (ok: bool)
      modifies this`asked
      ensures asked == old(asked) + 1 && ok == up(old(asked))
    {
      ok := up(asked);
      asked := asked + 1;
    }

    /** git branch: it refuses a name already there. */
    method CreateBranch(name: Name, head: nat) returns (ok: bool)
      modifies this`asked, this`refs
      ensures asked == old(asked) + 1 && (ok <==> up(old(asked)) && name !in old(refs))
      ensures refs == if ok then old(refs)[name := head] else old(refs)
    {
      ok := Ask();
      if !ok || name in refs {
        return false;
      }
      refs := refs[name := head];
    }

    method AdoptRoot(b: Name, trunk: Name, base: nat, head: nat) returns (ok: bool)
      modifies this`asked, this`rows
      ensures asked == old(asked) + 1
      ensures ok <==> up(old(asked)) && AdoptedRoot(old(rows), b, trunk, base, head).Some?
      ensures rows == if ok then AdoptedRoot(old(rows), b, trunk, base, head).value else old(rows)
    {
      ok := Ask();
      var adopted := AdoptedRoot(rows, b, trunk, base, head);
      if !ok || adopted.None? {
        return false;
      }
      rows := adopted.value;
    }

    method Reparent(b: Name, parent: Name) returns (ok: bool)
      modifies this`asked, this`rows
      ensures asked == old(asked) + 1
      ensures ok <==> up(old(asked)) && Reparented(old(rows), b, parent).Some?
      ensures rows == if ok then Reparented(old(rows), b, parent).value else old(rows)
    {
      ok := Ask();
      var moved := Reparented(rows, b, parent);
      if !ok || moved.None? {
        return false;
      }
      rows := moved.value;
    }

    /** One turn of gtAdoptChain's loop. A turn that stops leaves the link untouched, or recorded on
        trunk and not yet moved. */
    method AdoptLink(link: Link, trunk: Name) returns (ok: bool)
      modifies this
      ensures ok ==> AdoptedLink(old(rows), trunk, link) == Some(rows)
      ensures !ok ==> rows == old(rows) || OnTrunk(old(rows), trunk, link, rows)
      ensures !ok ==>
                AskFailed(old(asked), asked) || (link.remote && link.name in old(refs))
                  || AdoptedLink(old(rows), trunk, link).None?
      ensures ok && link.remote ==> link.name !in old(refs)
      ensures refs == old(refs) || (link.remote && link.name !in old(refs) && refs == old(refs)[link.name := link.head])
      ensures old(asked) <= asked
    {
      if link.remote {
        ok := CreateBranch(link.name, link.head);
        if !ok {
          return;
        }
      }
      ok := AdoptRoot(link.name, trunk, link.base, link.head);
      if !ok {
        return;
      }
      ok := Reparent(link.name, link.parent);
    }

    ghost predicate AskFailed(from: nat, to: nat)
    {
      exists n :: from <= n < to && !up(n)
    }

    /** gtAdoptChain, trunk already read: it adopts done links whole, and stops only where a command
        failed, a branch to cut already exists, or a row is missing. */
    method AdoptChain(chain: seq<Link>, trunk: Name) returns (ok: bool, done: nat)
      modifies this
      ensures done <= |chain| && (ok <==> done == |chain|)
      ensures AdoptedChain(old(rows), trunk, chain[..done]).Some?
      ensures var t := AdoptedChain(old(rows), trunk, chain[..done]).value;
        rows == t || (!ok && OnTrunk(t, trunk, chain[done], rows))
      ensures !ok
        ==> || AskFailed(old(asked), asked)
            || (chain[done].remote && (chain[done].name in old(refs) || Repeats(chain, done)))
            || AdoptedLink(AdoptedChain(old(rows), trunk, chain[..done]).value, trunk, chain[done]).None?
      ensures CutOnly(chain, old(refs), refs)
    {
      done := 0;
      assert chain[..0] == [];
      assert CutOnly(chain[..0], refs, refs);
      hide CutOnly, OnTrunk, AdoptedChain, AdoptedLink, Repeats;
      while done < |chain|
        invariant done <= |chain|
        invariant AdoptedChain(old(rows), trunk, chain[..done]) == Some(rows)
        invariant old(asked) <= asked && CutOnly(chain[..done], old(refs), refs)
      {
        AdoptedNext(old(rows), trunk, chain, done);
        ghost var before := refs;
        ok := AdoptLink(chain[done], trunk);
        CutMore(chain, done, old(refs), before, refs);
        if !ok {
          CutBefore(chain, done, old(refs), before);
          return;
        }
        done := done + 1;
      }
      assert chain[..done] == chain;
      ok := true;
    }
  }

  lemma AdoptedNext(t: Table, trunk: Name, chain: seq<Link>, done: nat)
    requires done < |chain| && AdoptedChain(t, trunk, chain[..done]).Some?
    ensures AdoptedChain(t, trunk, chain[..done + 1]) ==
              AdoptedLink(AdoptedChain(t, trunk, chain[..done]).value, trunk, chain[done])
  {
    assert chain[..done + 1][..done] == chain[..done];
  }

  predicate Repeats(chain: seq<Link>, done: nat)
    requires done < |chain|
  {
    exists i :: 0 <= i < done && chain[i].name == chain[done].name
  }

  lemma CutBefore(chain: seq<Link>, done: nat, was: map<Name, nat>, before: map<Name, nat>)
    requires done < |chain| && CutOnly(chain[..done], was, before)
    ensures chain[done].name in before ==> chain[done].name in was || Repeats(chain, done)
  {
    var name := chain[done].name;
    if name in before && name !in was {
      assert CutFor(chain[..done], name, before[name]);
      var i :| 0 <= i < done && chain[..done][i].name == name;
      assert chain[i].name == name;
    }
  }

  lemma CutMore(chain: seq<Link>, done: nat, was: map<Name, nat>, before: map<Name, nat>, now: map<Name, nat>)
    requires done < |chain| && CutOnly(chain[..done], was, before)
    requires now == before
             || (chain[done].remote && chain[done].name !in before
                 && now == before[chain[done].name := chain[done].head])
    ensures CutOnly(chain[..done + 1], was, now) && CutOnly(chain, was, now)
  {
    forall name | name in now && name !in was
      ensures CutFor(chain[..done + 1], name, now[name]) && CutFor(chain, name, now[name]) {
      if name in before {
        assert CutFor(chain[..done], name, now[name]);
        var i :| 0 <= i < done && chain[..done][i].remote && chain[..done][i].name == name
          && chain[..done][i].head == now[name];
        assert chain[..done + 1][i] == chain[i] == chain[..done][i];
      } else {
        assert chain[..done + 1][done] == chain[done];
      }
    }
  }

  /** The only branches cut are the chain's remote ones, each at its head; no branch moved. */
  ghost predicate CutOnly(chain: seq<Link>, was: map<Name, nat>, now: map<Name, nat>) {
    && (forall name :: name in was ==> name in now && now[name] == was[name])
    && forall name :: name in now && name !in was ==> CutFor(chain, name, now[name])
  }

  ghost predicate CutFor(chain: seq<Link>, name: Name, head: nat) {
    exists i :: 0 <= i < |chain| && chain[i].remote && chain[i].name == name && chain[i].head == head
  }

  ghost predicate OnTrunk(t: Table, trunk: Name, link: Link, rows: Table) {
    AdoptedRoot(t, link.name, trunk, link.base, link.head) == Some(rows)
  }
}
