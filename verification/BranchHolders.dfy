/**
 * Whose entry each name has after the loop of a rename or a delete, for any table: also where a new name is taken by
 * an entry that does not decode, or two names move to one.
 */
module BranchHolders {
  import opened Options
  import opened StoreValue
  import opened BranchEntry
  import opened BranchMove
  import opened BranchLoop

  /** The branch whose entry a name has after the first names of an order moved. */
  function Holder(plan: Plan, before: Table, order: seq<string>, i: nat, m: string): Option<string>
    requires i <= |order|
  {
    if i == 0 then (if m in before then Some(m) else None)
    else
      var n := order[i - 1];
      if plan.Renames(n) && plan.Target(n) == m then Some(n)
      else if plan.Moves(n) && n == m then None
      else Holder(plan, before, order, i - 1, m)
  }

  /** An entry is that of a branch as it was, or as it is recorded when the branch moves. */
  predicate Carries(plan: Plan, before: Table, entry: Value, n: string, clock: Table) {
    && n in before
    && (entry == before[n] || (plan.Moves(n) && entry == Recorded(before[n], n, clock)))
  }

  /** The loop gives each name the entry of its holder, and no other name has one. */
  lemma {:induction false} HolderHas(plan: Plan, before: Table, order: seq<string>, i: nat, clock: Table, s: Selection,
                                     m: string)
    requires Lists(order, before) && i <= |order| && MoveUpTo(plan, before, order, i, clock, s).ok
    ensures var after, h := MoveUpTo(plan, before, order, i, clock, s).after, Holder(plan, before, order, i, m);
            && (m in after <==> h.Some?) && (h.Some? ==> Carries(plan, before, after[m], h.value, clock))
  {
    if i > 0 {
      HolderHas(plan, before, order, i - 1, clock, s, m);
    }
  }

  /** A table whose entries all decode stays one. */
  lemma LoopDecodes(plan: Plan, before: Table, order: seq<string>, clock: Table, s: Selection)
    requires Lists(order, before) && Decodes(before) && ClockOk(clock)
    requires MoveUpTo(plan, before, order, |order|, clock, s).ok
    ensures Decodes(MoveUpTo(plan, before, order, |order|, clock, s).after)
  {
    var after := MoveUpTo(plan, before, order, |order|, clock, s).after;
    forall m | m in after ensures EntryOk(after[m]) {
      HolderHas(plan, before, order, |order|, clock, s, m);
      var n := Holder(plan, before, order, |order|, m).value;
      RecordedOk(before[n], n, clock);
    }
  }

  /** A name moves away from a name, or to it. */
  predicate Touches(plan: Plan, k: string, m: string) {
    plan.Moves(k) && (k == m || (plan.Renames(k) && plan.Target(k) == m))
  }

  ghost predicate Touched(plan: Plan, order: seq<string>, from: nat, to: nat, m: string) {
    exists j :: from <= j < to && j < |order| && Touches(plan, order[j], m)
  }

  /** No name has the entry of a branch. */
  ghost predicate Lost(plan: Plan, before: Table, order: seq<string>, n: string) {
    forall m :: Holder(plan, before, order, |order|, m) != Some(n)
  }

  // ---------------------------------------------------------------- a branch outside the subtree

  /** A branch that does not move has its entry until another one moves to its name. */
  lemma {:induction false} OutsideHolds(plan: Plan, before: Table, order: seq<string>, i: nat, n: string, m: string)
    requires Lists(order, before) && i <= |order| && n in before && !plan.Moves(n)
    ensures Holder(plan, before, order, i, m) == Some(n) <==> m == n && !Touched(plan, order, 0, i, n)
  {
    if i > 0 {
      OutsideHolds(plan, before, order, i - 1, n, m);
      TouchedMore(plan, order, 0, i, n);
    }
  }

  lemma TouchedMore(plan: Plan, order: seq<string>, from: nat, i: nat, m: string)
    requires from < i <= |order|
    ensures Touched(plan, order, from, i, m) <==> Touched(plan, order, from, i - 1, m) || Touches(plan, order[i - 1], m)
  {
    if Touches(plan, order[i - 1], m) {
      assert Touched(plan, order, from, i, m);
    }
    if Touched(plan, order, from, i - 1, m) {
      var j :| from <= j < i - 1 && j < |order| && Touches(plan, order[j], m);
      assert Touched(plan, order, from, i, m);
    }
    if Touched(plan, order, from, i, m) && !Touches(plan, order[i - 1], m) {
      var j :| from <= j < i && j < |order| && Touches(plan, order[j], m);
      assert j != i - 1;
      assert Touched(plan, order, from, i - 1, m);
    }
  }

  // ---------------------------------------------------------------- a branch that moves

  /** Before its turn a branch that moves has at most its own name. */
  lemma {:induction false} WaitsHolds(plan: Plan, before: Table, order: seq<string>, i: nat, k: nat, m: string)
    requires Lists(order, before) && i <= k < |order|
    ensures Holder(plan, before, order, i, m) == Some(order[k]) ==> m == order[k]
  {
    if i > 0 {
      WaitsHolds(plan, before, order, i - 1, k, m);
    }
  }

  /** From its turn on a branch that moves has its new name, until a later one moves away from it or to it. */
  lemma {:induction false} MovedHolds(plan: Plan, before: Table, order: seq<string>, k: nat, i: nat, m: string)
    requires Lists(order, before) && k < i <= |order| && plan.Moves(order[k])
    ensures Holder(plan, before, order, i, m) == Some(order[k]) <==>
            plan.Renames(order[k]) && m == plan.Target(order[k]) && !Touched(plan, order, k + 1, i, m)
  {
    if k + 1 == i {
      NowHolds(plan, before, order, k, i, m);
    } else {
      MovedHolds(plan, before, order, k, i - 1, m);
      LaterHolds(plan, before, order, k, i, m);
    }
  }

  lemma NowHolds(plan: Plan, before: Table, order: seq<string>, k: nat, i: nat, m: string)
    requires Lists(order, before) && k + 1 == i <= |order| && plan.Moves(order[k])
    ensures Holder(plan, before, order, i, m) == Some(order[k]) <==>
            plan.Renames(order[k]) && m == plan.Target(order[k])
    ensures !Touched(plan, order, k + 1, i, m)
  {
    WaitsHolds(plan, before, order, k, k, m);
    HolderStep(plan, before, order, i, m);
  }

  lemma LaterHolds(plan: Plan, before: Table, order: seq<string>, k: nat, i: nat, m: string)
    requires Lists(order, before) && k + 1 < i <= |order|
    ensures Holder(plan, before, order, i, m) == Some(order[k]) <==>
            Holder(plan, before, order, i - 1, m) == Some(order[k]) && !Touches(plan, order[i - 1], m)
    ensures Touched(plan, order, k + 1, i, m) <==>
            Touched(plan, order, k + 1, i - 1, m) || Touches(plan, order[i - 1], m)
  {
    assert order[i - 1] != order[k];
    HolderStep(plan, before, order, i, m);
    TouchedMore(plan, order, k + 1, i, m);
  }

  /** One name more: it takes what it moves to, and leaves what it moves away from. */
  lemma HolderStep(plan: Plan, before: Table, order: seq<string>, i: nat, m: string)
    requires 0 < i <= |order|
    ensures Holder(plan, before, order, i, m) ==
            if !Touches(plan, order[i - 1], m) then Holder(plan, before, order, i - 1, m)
            else if plan.Renames(order[i - 1]) && plan.Target(order[i - 1]) == m then Some(order[i - 1])
            else None
  {
  }

  /** A branch has a name at the end. */
  ghost predicate Holds(plan: Plan, order: seq<string>, k: nat)
    requires k < |order|
  {
    var n := order[k];
    if plan.Moves(n) then plan.Renames(n) && !Touched(plan, order, k + 1, |order|, plan.Target(n))
    else !Touched(plan, order, 0, |order|, n)
  }

  /**
   * What is lost: the branch that is deleted, a branch outside the subtree exactly when a branch moves to its
   * name, and a branch that moves exactly when a later name moves away from its new name or to it.
   */
  lemma LostIff(plan: Plan, before: Table, order: seq<string>, k: nat)
    requires Lists(order, before) && k < |order|
    ensures var n := order[k];
            Lost(plan, before, order, n) <==>
            if !plan.Moves(n) then exists j :: 0 <= j < |order| && plan.Renames(order[j]) && plan.Target(order[j]) == n
            else plan.Renames(n) ==> Touched(plan, order, k + 1, |order|, plan.Target(n))
  {
    var n := order[k];
    var at := if plan.Moves(n) then plan.Target(n) else n;
    forall m ensures Holder(plan, before, order, |order|, m) == Some(n) <==> m == at && Holds(plan, order, k) {
      if plan.Moves(n) {
        MovedHolds(plan, before, order, k, |order|, m);
      } else {
        OutsideHolds(plan, before, order, |order|, n, m);
      }
    }
    assert Holder(plan, before, order, |order|, at) == Some(n) <==> Holds(plan, order, k);
    if !plan.Moves(n) && Touched(plan, order, 0, |order|, n) {
      var j :| 0 <= j < |order| && Touches(plan, order[j], n);
    }
    if j :| !plan.Moves(n) && 0 <= j < |order| && plan.Renames(order[j]) && plan.Target(order[j]) == n {
      assert Touches(plan, order[j], n);
    }
  }

  /** Where no name is taken, nothing but a deleted branch is lost. */
  lemma FreeLosesNothing(plan: Plan, before: Table, order: seq<string>, k: nat)
    requires Lists(order, before) && k < |order| && plan.Wellformed() && Free(plan, before)
    ensures Lost(plan, before, order, order[k]) <==> plan.Moves(order[k]) && plan.Drops(order[k])
  {
    LostIff(plan, before, order, k);
    var n := order[k];
    if plan.Renames(n) && Touched(plan, order, k + 1, |order|, plan.Target(n)) {
      var j :| k + 1 <= j < |order| && Touches(plan, order[j], plan.Target(n));
      if plan.Renames(order[j]) && plan.Target(order[j]) == plan.Target(n) {
        TargetsDiffer(plan, order[j], n);
      }
    }
  }
}
