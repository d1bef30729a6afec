/** The loop of a rename or a delete over the names of a table, in whatever order the table gives them. */
module BranchLoop {
  import opened Options
  import opened StoreValue
  import opened BranchEntry
  import opened BranchNames
  import opened BranchMove

  /** The names of a table in some order. */
  ghost predicate Lists(order: seq<string>, table: Table) {
    && (forall n :: n in order <==> n in table)
    && (forall i, j :: 0 <= i < j < |order| ==> order[i] != order[j])
  }

  /** The first names of an order. */
  function Among(order: seq<string>, i: nat): set<string>
    requires i <= |order|
  {
    set n | n in order[..i]
  }

  lemma AmongMore(order: seq<string>, i: nat)
    requires i < |order|
    ensures Among(order, i + 1) == Among(order, i) + {order[i]}
  {
    assert order[..i + 1] == order[..i] + [order[i]];
  }

  lemma AmongNew(order: seq<string>, table: Table, i: nat)
    requires Lists(order, table) && i < |order|
    ensures order[i] !in Among(order, i) && order[i] in table
  {
  }

  lemma AmongAll(order: seq<string>, table: Table)
    requires Lists(order, table)
    ensures Among(order, |order|) == table.Keys
  {
    assert order[..|order|] == order;
  }

  /** Where a move leaves a name that a context selects. */
  ghost function Followed(plan: Plan, before: Table, done: set<string>, n: string): string {
    if n in before && n in done then plan.Target(n) else n
  }

  ghost function FollowedHead(plan: Plan, before: Table, done: set<string>, n: Option<string>): Option<string> {
    if n.None? then None else Some(Followed(plan, before, done, n.value))
  }

  /** A name of the table that a move gives another name. */
  predicate MovedName(plan: Plan, before: Table, n: string) {
    n in before && plan.Renames(n)
  }

  /** A selected name stays exactly when no branch of that name moves. */
  lemma FollowedStays(plan: Plan, before: Table, n: string)
    requires Free(plan, before)
    ensures Followed(plan, before, before.Keys, n) == n <==> !MovedName(plan, before, n)
  {
  }

  lemma FollowOne(plan: Plan, before: Table, done: set<string>, n: string, was: string)
    requires Free(plan, before) && n in before && n !in done
    ensures Followed(plan, before, done + {n}, was)
            == var now := Followed(plan, before, done, was); if now == n then plan.Target(n) else now
    ensures was in done && was in before ==> Followed(plan, before, done, was) != n
  {
  }

  lemma FollowHead(plan: Plan, before: Table, done: set<string>, n: string, was: Option<string>)
    requires Free(plan, before) && n in before && n !in done
    ensures FollowedHead(plan, before, done + {n}, was)
            == var now := FollowedHead(plan, before, done, was); if now == Some(n) then Some(plan.Target(n)) else now
  {
    if was.Some? {
      FollowOne(plan, before, done, n, was.value);
    }
  }

  lemma NothingMoved(plan: Plan, before: Table, clock: Table)
    ensures Moved(plan, before, before, {}, clock)
  {
  }

  /**
   * A name at which the loop stops: a delete at an entry that does not decode, and any move at the current
   * branch when that gets a name that is not valid.
   */
  predicate Stops(plan: Plan, before: Table, n: string, current: string)
    requires n in before
  {
    && plan.Renames(n)
    && ((plan.DeletePlan? && Decode(before[n]).None?) || (n == current && !ValidName(plan.Target(n), true)))
  }

  /** The loop stops at no name: each entry that a delete moves decodes, and the current branch has a valid new name. */
  ghost predicate Unstopped(plan: Plan, before: Table, current: string) {
    forall n :: n in before && plan.Renames(n) ==>
      && (plan.DeletePlan? ==> Decode(before[n]).Some?)
      && (n == current ==> ValidName(plan.Target(n), true))
  }

  /** The position, from some position on, of the first name at which the loop stops, or the number of names. */
  ghost function FirstStop(plan: Plan, before: Table, order: seq<string>, i: nat, current: string): (j: nat)
    requires Lists(order, before) && i <= |order|
    ensures i <= j <= |order|
    decreases |order| - i
  {
    if i == |order| || Stops(plan, before, order[i], current) then i else FirstStop(plan, before, order, i + 1, current)
  }

  lemma {:induction false} FirstStopIs(plan: Plan, before: Table, order: seq<string>, i: nat, current: string, k: nat)
    requires Lists(order, before) && i <= k <= |order|
    ensures k <= FirstStop(plan, before, order, i, current) <==>
            forall j :: i <= j < k ==> !Stops(plan, before, order[j], current)
    decreases |order| - i
  {
    if i < k {
      FirstStopIs(plan, before, order, i + 1, current, k);
    }
  }

  lemma NoStopIff(plan: Plan, before: Table, order: seq<string>, current: string)
    requires Lists(order, before)
    ensures FirstStop(plan, before, order, 0, current) == |order| <==> Unstopped(plan, before, current)
  {
    FirstStopIs(plan, before, order, 0, current, |order|);
    if Unstopped(plan, before, current) {
      assert forall j :: 0 <= j < |order| ==> order[j] in before;
    }
    if FirstStop(plan, before, order, 0, current) == |order| {
      forall n | n in before ensures !Stops(plan, before, n, current) {
        assert n in order;
      }
    }
  }

  /** The names that a rename makes are shorter than a limit. */
  ghost predicate Short(plan: Plan, before: Table, limit: nat) {
    forall n :: n in before && plan.Renames(n) ==> |plan.Target(n)| < limit
  }

  lemma CurrentEntry(plan: Plan, before: Table, after: Table, clock: Table)
    requires plan.RenamePlan? && Moved(plan, before, after, before.Keys, clock)
    requires plan.current in before && plan.Renames(plan.current)
    ensures plan.Target(plan.current) in after && after[plan.Target(plan.current)] == before[plan.current]
  {
  }

  // What a context selects: the current branch, the branch of HEAD, and the entry that the next publish of
  // the current branch chains to.
  datatype Selection = Selection(branch: string, head: Option<string>, prev: Value)

  ghost function Follows(plan: Plan, before: Table, done: set<string>, s: Selection): Selection {
    Selection(Followed(plan, before, done, s.branch), FollowedHead(plan, before, done, s.head), s.prev)
  }

  /** The entry that a publish of a branch chains to. */
  function Linked(table: Table, n: string): Value {
    if Found(table, n) then table[n] else Absent
  }

  /** What a context selects after all names of a plan moved. */
  ghost function AfterMove(plan: Plan, before: Table, s: Selection): Selection {
    var followed := Follows(plan, before, before.Keys, s);
    if plan.RenamePlan? && MovedName(plan, before, s.branch) then
      followed.(prev := if Decode(before[s.branch]).Some? then before[s.branch] else Absent)
    else followed
  }

  /** What a context selects after a move that stopped: each name has followed exactly when it came before that. */
  ghost function AfterStop(plan: Plan, before: Table, order: seq<string>, s: Selection): Selection
    requires Lists(order, before)
  {
    Follows(plan, before, Among(order, FirstStop(plan, before, order, 0, s.branch)), s)
  }

  /** A move leaves what a context selects unchanged exactly when neither selected name moves. */
  lemma AfterMoveStays(plan: Plan, before: Table, s: Selection)
    requires Free(plan, before)
    ensures AfterMove(plan, before, s) == s <==>
            !MovedName(plan, before, s.branch) && (s.head.Some? ==> !MovedName(plan, before, s.head.value))
  {
    FollowedStays(plan, before, s.branch);
    if s.head.Some? {
      FollowedStays(plan, before, s.head.value);
    }
  }

  /** After a delete a HEAD that named a branch names none exactly when it named the deleted one. */
  lemma HeadDangles(plan: Plan, before: Table, after: Table, clock: Table, head: string)
    requires plan.DeletePlan? && plan.Wellformed() && Free(plan, before) && plan.name in before && head in before
    requires Moved(plan, before, after, before.Keys, clock)
    ensures Followed(plan, before, before.Keys, head) !in after <==> head == plan.name
  {
    OldNamesAreGone(plan, before, after, clock, plan.name);
  }

  // ---------------------------------------------------------------- the loop over the names

  // What the loop has so far: the new table, and what the context selects; or it stopped.
  datatype Moving = Moving(ok: bool, after: Table, selected: Selection)

  /** Move one name; where the loop stops nothing of it moves. */
  function MoveOne(plan: Plan, before: Table, m: Moving, n: string, clock: Table): Moving
    requires n in before
  {
    var s, target := m.selected, plan.Target(n);
    if !plan.Moves(n) then m
    else if plan.Drops(n) then m.(after := m.after - {n})
    else if Stops(plan, before, n, s.branch) then m.(ok := false)
    else
      var entry := if plan.RenamePlan? && n == s.branch then before[n] else Recorded(before[n], n, clock);
      Moving(true, (m.after - {n})[target := entry],
             Selection(if n == s.branch then target else s.branch, if s.head == Some(n) then Some(target) else s.head,
                       s.prev))
  }

  function MoveUpTo(plan: Plan, before: Table, order: seq<string>, i: nat, clock: Table, s: Selection): Moving
    requires Lists(order, before) && i <= |order|
  {
    if i == 0 then Moving(true, before, s)
    else
      var m := MoveUpTo(plan, before, order, i - 1, clock, s);
      if !m.ok then m else MoveOne(plan, before, m, order[i - 1], clock)
  }

  lemma {:induction false} StaysStopped(plan: Plan, before: Table, order: seq<string>, i: nat, clock: Table,
                                        s: Selection)
    requires Lists(order, before) && i <= |order| && !MoveUpTo(plan, before, order, i, clock, s).ok
    ensures MoveUpTo(plan, before, order, |order|, clock, s) == MoveUpTo(plan, before, order, i, clock, s)
    decreases |order| - i
  {
    if i < |order| {
      StaysStopped(plan, before, order, i + 1, clock, s);
    }
  }

  /** The loop has moved the names of a set, and what the context selects has followed them. */
  ghost predicate MovedTo(plan: Plan, before: Table, m: Moving, done: set<string>, clock: Table, s: Selection) {
    m.ok && Moved(plan, before, m.after, done, clock) && m.selected == Follows(plan, before, done, s)
  }

  lemma MoveOneTable(plan: Plan, before: Table, m: Moving, n: string, clock: Table, done: set<string>, s: Selection)
    requires plan.Wellformed() && Free(plan, before) && (plan.RenamePlan? ==> plan.current == s.branch)
    requires MovedTo(plan, before, m, done, clock, s) && n in before && n !in done
    requires MoveOne(plan, before, m, n, clock).ok
    ensures Moved(plan, before, MoveOne(plan, before, m, n, clock).after, done + {n}, clock)
  {
    FollowOne(plan, before, done, n, s.branch);
    if !plan.Moves(n) {
      LeavesOne(plan, before, m.after, done, n, clock);
    } else if plan.Drops(n) {
      DropsOne(plan, before, m.after, done, n, clock);
    } else {
      MovesOne(plan, before, m.after, done, n, clock);
    }
  }

  lemma MoveOneSelects(plan: Plan, before: Table, m: Moving, n: string, clock: Table, done: set<string>, s: Selection)
    requires Free(plan, before) && n in before && n !in done && m.ok
    requires m.selected == Follows(plan, before, done, s)
    ensures var r := MoveOne(plan, before, m, n, clock);
            && (r.ok <==> !Stops(plan, before, n, s.branch))
            && r.selected == if r.ok then Follows(plan, before, done + {n}, s) else m.selected
  {
    FollowOne(plan, before, done, n, s.branch);
    FollowHead(plan, before, done, n, s.head);
  }

  // What the loop has is as a move of the first names, or it stopped at the first name where it does.
  ghost predicate AsMoved(plan: Plan, before: Table, m: Moving, order: seq<string>, i: nat, clock: Table, s: Selection)
    requires i <= |order| && Lists(order, before)
  {
    var j := FirstStop(plan, before, order, 0, s.branch);
    if m.ok then i <= j && MovedTo(plan, before, m, Among(order, i), clock, s)
    else j < i && m.selected == Follows(plan, before, Among(order, j), s)
  }

  lemma StopIsHere(plan: Plan, before: Table, order: seq<string>, i: nat, current: string)
    requires Lists(order, before) && i < |order| && i <= FirstStop(plan, before, order, 0, current)
    ensures if Stops(plan, before, order[i], current) then FirstStop(plan, before, order, 0, current) == i
            else i < FirstStop(plan, before, order, 0, current)
  {
    FirstStopIs(plan, before, order, 0, current, i);
    FirstStopIs(plan, before, order, 0, current, i + 1);
  }

  lemma GoesOn(plan: Plan, before: Table, m: Moving, order: seq<string>, i: nat, clock: Table, s: Selection)
    requires plan.Wellformed() && Free(plan, before) && (plan.RenamePlan? ==> plan.current == s.branch)
    requires Lists(order, before) && i < |order| && m.ok && AsMoved(plan, before, m, order, i, clock, s)
    requires order[i] in before && MoveOne(plan, before, m, order[i], clock).ok
    ensures AsMoved(plan, before, MoveOne(plan, before, m, order[i], clock), order, i + 1, clock, s)
  {
    AmongMore(order, i);
    AmongNew(order, before, i);
    StopIsHere(plan, before, order, i, s.branch);
    MoveOneSelects(plan, before, m, order[i], clock, Among(order, i), s);
    MoveOneTable(plan, before, m, order[i], clock, Among(order, i), s);
  }

  lemma StopsHere(plan: Plan, before: Table, m: Moving, order: seq<string>, i: nat, clock: Table, s: Selection)
    requires Free(plan, before)
    requires Lists(order, before) && i < |order| && m.ok && AsMoved(plan, before, m, order, i, clock, s)
    requires order[i] in before && !MoveOne(plan, before, m, order[i], clock).ok
    ensures AsMoved(plan, before, MoveOne(plan, before, m, order[i], clock), order, i + 1, clock, s)
  {
    AmongNew(order, before, i);
    StopIsHere(plan, before, order, i, s.branch);
    MoveOneSelects(plan, before, m, order[i], clock, Among(order, i), s);
  }

  lemma NextAsMoved(plan: Plan, before: Table, m: Moving, order: seq<string>, i: nat, k: nat, clock: Table,
                    s: Selection) returns (next: Moving)
    requires plan.Wellformed() && Free(plan, before) && (plan.RenamePlan? ==> plan.current == s.branch)
    requires Lists(order, before) && i < |order| && AsMoved(plan, before, m, order, i, clock, s)
    requires k == i + 1 && m == MoveUpTo(plan, before, order, i, clock, s)
    ensures next == MoveUpTo(plan, before, order, k, clock, s)
    ensures AsMoved(plan, before, next, order, k, clock, s)
  {
    AmongNew(order, before, i);
    next := m;
    if m.ok {
      next := MoveOne(plan, before, m, order[i], clock);
      if next.ok {
        GoesOn(plan, before, m, order, i, clock, s);
      } else {
        StopsHere(plan, before, m, order, i, clock, s);
      }
    }
  }

  lemma StartsAsMoved(plan: Plan, before: Table, order: seq<string>, clock: Table, s: Selection)
    requires Lists(order, before)
    ensures AsMoved(plan, before, Moving(true, before, s), order, 0, clock, s)
  {
    assert Among(order, 0) == {};
    NothingMoved(plan, before, clock);
  }

  lemma {:induction false} MoveUpToLaw(plan: Plan, before: Table, order: seq<string>, i: nat, clock: Table,
                                       s: Selection) returns (m: Moving)
    requires plan.Wellformed() && Free(plan, before) && (plan.RenamePlan? ==> plan.current == s.branch)
    requires Lists(order, before) && i <= |order|
    ensures m == MoveUpTo(plan, before, order, i, clock, s)
    ensures AsMoved(plan, before, m, order, i, clock, s)
  {
    if i == 0 {
      m := Moving(true, before, s);
      StartsAsMoved(plan, before, order, clock, s);
    } else {
      var last := MoveUpToLaw(plan, before, order, i - 1, clock, s);
      m := NextAsMoved(plan, before, last, order, i - 1, i, clock, s);
    }
  }

  /**
   * Where no name is taken, the loop is one simultaneous move of all names, whatever the order: it gives a table
   * exactly when it stops at no name, and then what the context selects has followed; else it stopped.
   */
  lemma MoveLaw(plan: Plan, before: Table, order: seq<string>, clock: Table, s: Selection)
    requires plan.Wellformed() && Free(plan, before) && (plan.RenamePlan? ==> plan.current == s.branch)
    requires Lists(order, before)
    ensures var m := MoveUpTo(plan, before, order, |order|, clock, s);
            && (m.ok <==> Unstopped(plan, before, s.branch))
            && (m.ok ==> Moved(plan, before, m.after, before.Keys, clock))
            && (m.ok ==> m.selected == Follows(plan, before, before.Keys, s))
            && (!m.ok ==> m.selected == AfterStop(plan, before, order, s))
  {
    AmongAll(order, before);
    NoStopIff(plan, before, order, s.branch);
    var m := MoveUpToLaw(plan, before, order, |order|, clock, s);
  }
}
