/** Entries picked out of a sequence, in order. */
module Picks {
  /** at lists, ascending, exactly the places below n that are to be kept. */
  ghost predicate Picked(n: nat, keep: nat -> bool, at: seq<nat>) {
    && (forall i, j :: 0 <= i < j < |at| ==> at[i] < at[j])
    && (forall k: nat :: k in at <==> k < n && keep(k))
  }

  /** part is what those places hold. */
  ghost predicate Along<T(!new)>(value: nat -> T, at: seq<nat>, part: seq<T>) {
    |part| == |at| && forall i :: 0 <= i < |at| ==> part[i] == value(at[i])
  }

  lemma NothingPicked<T(!new)>(keep: nat -> bool, value: nat -> T)
    ensures Picked(0, keep, []) && Along(value, [], [])
  {
  }

  lemma PickedOneMore(n: nat, keep: nat -> bool, at: seq<nat>)
    requires Picked(n, keep, at)
    ensures Picked(n + 1, keep, if keep(n) then at + [n] else at)
  {
    var more := at + [n];
    forall k: nat ensures k in more <==> k in at || k == n {
    }
    forall i, j | 0 <= i < j < |more| ensures more[i] < more[j] {
      assert more[i] in at;
    }
  }

  lemma AlongOneMore<T(!new)>(value: nat -> T, at: seq<nat>, part: seq<T>, n: nat)
    requires Along(value, at, part)
    ensures Along(value, at + [n], part + [value(n)])
  {
  }
}
