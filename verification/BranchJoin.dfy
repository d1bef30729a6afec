/** The publish of a branch table: what another process changed in between is joined in, or the publish fails. */
module BranchJoin {
  import opened Options
  import opened StoreValue
  import opened BranchMove
  import opened BranchLoop

  function At(table: Table, n: string): Option<Value> {
    if n in table then Some(table[n]) else None
  }

  /** A name whose entry a new table adds, changes or removes; the empty name is left alone. */
  predicate Changes(base: Table, desired: Table, n: string) {
    n != "" && At(base, n) != At(desired, n)
  }

  /** No name that the new table changes was changed in between. */
  ghost predicate Joins(base: Table, desired: Table, latest: Table) {
    forall n :: Changes(base, desired, n) ==> At(latest, n) == At(base, n)
  }

  /** The latest table with the changes of the new one. */
  ghost predicate IsJoined(base: Table, desired: Table, latest: Table, joined: Table) {
    forall n :: At(joined, n) == if Changes(base, desired, n) then At(desired, n) else At(latest, n)
  }

  // ---------------------------------------------------------------- the loops

  /** What the loops have done for the names of a set. */
  ghost predicate JoinedTo(base: Table, desired: Table, latest: Table, joined: Table, done: set<string>) {
    && (forall n :: n in done && Changes(base, desired, n) ==> At(latest, n) == At(base, n))
    && (forall n :: At(joined, n) == if n in done && Changes(base, desired, n) then At(desired, n) else At(latest, n))
  }

  /** The names of a table, in any order. */
  method KeysOf(table: Table) returns (order: seq<string>)
    ensures Lists(order, table)
  {
    order := [];
    var left := table.Keys;
    while left != {}
      invariant forall n :: n in table <==> n in order || n in left
      invariant forall n :: n in order ==> n !in left
      invariant forall i, j :: 0 <= i < j < |order| ==> order[i] != order[j]
      decreases left
    {
      var n :| n in left;
      order, left := order + [n], left - {n};
    }
  }

  /** Put the changes of a table into the latest one: what it adds or changes first, then what it removes. */
  method Join(base: Table, desired: Table, latest: Table) returns (joined: Option<Table>)
    ensures joined.Some? <==> Joins(base, desired, latest)
    ensures joined.Some? ==> IsJoined(base, desired, latest, joined.value)
  {
    var keys := KeysOf(desired);
    var olds := KeysOf(base);
    var some := JoinChanged(base, desired, latest, keys);
    if some.None? {
      return None;
    }
    joined := JoinRemoved(base, desired, latest, some.value, olds);
  }

  method JoinChanged(base: Table, desired: Table, latest: Table, keys: seq<string>) returns (joined: Option<Table>)
    requires Lists(keys, desired)
    ensures joined.None? ==> !Joins(base, desired, latest)
    ensures joined.Some? ==> JoinedTo(base, desired, latest, joined.value, desired.Keys)
  {
    var table := latest;
    for i := 0 to |keys|
      invariant JoinedTo(base, desired, latest, table, Among(keys, i))
    {
      var n := keys[i];
      AmongMore(keys, i);
      if n != "" && At(base, n) != Some(desired[n]) {
        if At(table, n) != At(base, n) {
          assert Changes(base, desired, n) && n !in Among(keys, i);
          return None;
        }
        table := table[n := desired[n]];
      }
    }
    AmongAll(keys, desired);
    joined := Some(table);
  }

  method JoinRemoved(base: Table, desired: Table, latest: Table, changed: Table, olds: seq<string>)
    returns (joined: Option<Table>)
    requires Lists(olds, base) && JoinedTo(base, desired, latest, changed, desired.Keys)
    ensures joined.Some? <==> Joins(base, desired, latest)
    ensures joined.Some? ==> IsJoined(base, desired, latest, joined.value)
  {
    var table := changed;
    for i := 0 to |olds|
      invariant JoinedTo(base, desired, latest, table, desired.Keys + Among(olds, i))
    {
      var n := olds[i];
      AmongMore(olds, i);
      assert desired.Keys + Among(olds, i + 1) == desired.Keys + Among(olds, i) + {n};
      if n != "" && n !in desired {
        if At(table, n) != At(base, n) {
          assert Changes(base, desired, n) && n !in Among(olds, i);
          return None;
        }
        table := table - {n};
      }
    }
    AmongAll(olds, base);
    AllJoined(base, desired, latest, table);
    joined := Some(table);
  }

  lemma AllJoined(base: Table, desired: Table, latest: Table, joined: Table)
    requires JoinedTo(base, desired, latest, joined, desired.Keys + base.Keys)
    ensures Joins(base, desired, latest) && IsJoined(base, desired, latest, joined)
  {
    forall n ensures Changes(base, desired, n) ==> n in desired.Keys + base.Keys {
    }
  }

  // ---------------------------------------------------------------- races

  // The root of another process that a publish lost a race to: its HEAD and its table.
  datatype Race = Race(head: Option<string>, latest: Table)

  /** The first race whose changes do not join, or the number of races. */
  ghost function FirstClash(base: Table, desired: Table, races: seq<Race>, i: nat): (j: nat)
    requires i <= |races|
    ensures i <= j <= |races|
    decreases |races| - i
  {
    if i == |races| || !Joins(base, desired, races[i].latest) then i else FirstClash(base, desired, races, i + 1)
  }

  /** A table that is published after some races: the new one, or the last one that it joined. */
  ghost predicate IsPublished(base: Table, desired: Table, races: seq<Race>, i: nat, table: Table)
    requires i <= |races|
  {
    if i == 0 then table == desired else IsJoined(base, desired, races[i - 1].latest, table)
  }

  lemma {:induction false} ClashIs(base: Table, desired: Table, races: seq<Race>, i: nat, k: nat)
    requires i <= k <= |races| && forall j :: i <= j < k ==> Joins(base, desired, races[j].latest)
    ensures FirstClash(base, desired, races, i) >= k
    ensures k < |races| && !Joins(base, desired, races[k].latest) ==> FirstClash(base, desired, races, i) == k
    decreases |races| - i
  {
    if i < k {
      ClashIs(base, desired, races, i + 1, k);
    }
  }

  // ---------------------------------------------------------------- laws

  /** There is one joined table. */
  lemma JoinIsUnique(base: Table, desired: Table, latest: Table, a: Table, b: Table)
    requires IsJoined(base, desired, latest, a) && IsJoined(base, desired, latest, b)
    ensures a == b
  {
    forall n ensures At(a, n) == At(b, n) {
    }
    assert forall n :: n in a <==> At(a, n).Some?;
    assert forall n :: n in b <==> At(b, n).Some?;
    assert forall n :: n in a ==> a[n] == At(a, n).value && b[n] == At(b, n).value;
  }

  /** The changes of both processes are in the joined table, whichever publishes first. */
  lemma JoinKeepsBoth(base: Table, ours: Table, theirs: Table, a: Table, b: Table, n: string)
    requires IsJoined(base, ours, theirs, a) && IsJoined(base, theirs, ours, b) && n != ""
    requires Joins(base, ours, theirs)
    ensures Joins(base, theirs, ours) && At(a, n) == At(b, n)
    ensures At(a, n) == if Changes(base, ours, n) then At(ours, n)
                        else if Changes(base, theirs, n) then At(theirs, n) else At(base, n)
  {
    forall k | Changes(base, theirs, k) ensures At(ours, k) == At(base, k) {
      assert Changes(base, ours, k) ==> At(theirs, k) == At(base, k);
    }
    assert Changes(base, ours, n) ==> At(theirs, n) == At(base, n);
  }
}
