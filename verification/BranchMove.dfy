/** Rename and delete: one simultaneous move of the names of a subtree. */
module BranchMove {
  import opened Options
  import opened StoreValue
  import opened BranchEntry
  import opened BranchNames

  type Table = map<string, Value>

  datatype Plan = RenamePlan(from: string, to: string, current: string) | DeletePlan(name: string) {
    function Root(): string {
      if RenamePlan? then from else name
    }

    predicate Moves(n: string) {
      n != "" && IsBelow(n, Root())
    }

    /** The deleted branch itself has no new name. */
    predicate Drops(n: string) {
      DeletePlan? && n == name
    }

    predicate Renames(n: string) {
      Moves(n) && !Drops(n)
    }

    function Target(n: string): string {
      if !Renames(n) then n
      else if RenamePlan? then Renamed(from, to, n)
      else Reparented(name, n)
    }

    /** The name that moved to a new name. */
    function Source(m: string): string {
      if RenamePlan? then (if |to| <= |m| then from + m[|to|..] else m)
      else
        var n := ParentLength(name, |name|);
        if n == 0 then name + "/" + m else if n <= |m| then name + m[n..] else m
    }

    predicate Wellformed() {
      DeletePlan? ==> name != ""
    }
  }

  // The time at which a branch moved.
  function Clock(clock: Table, n: string): Value {
    if n in clock then clock[n] else Absent
  }

  // What an entry that does not decode is built from.
  const UNKNOWN := Branch(Absent, Absent, Absent, Absent, Absent, Absent, Absent, Absent)

  /** A moved entry records its old name and chains to its old entry. */
  function Recorded(entry: Value, n: string, clock: Table): Value {
    var b := match Decode(entry) case None => UNKNOWN case Some(b) => b;
    Build(b.(updated := Clock(clock, n), op := Str("rename"), from := Str(n), prev := entry))
  }

  /** A branch that a lookup finds; a name whose entry does not decode counts as free. */
  predicate Found(table: Table, n: string) {
    n in table && Decode(table[n]).Some?
  }

  /** No branch that a lookup finds has a name that another one moves to. */
  ghost predicate Available(plan: Plan, before: Table) {
    forall n :: n in before && plan.Renames(n) ==> !Found(before, plan.Target(n))
  }

  /** The current branch keeps its entry on a rename: the publish that follows rebuilds it. */
  function NewEntry(plan: Plan, entry: Value, n: string, clock: Table): Value {
    if plan.RenamePlan? && n == plan.current then entry else Recorded(entry, n, clock)
  }

  lemma SourceOfRenamed(from: string, to: string, n: string)
    requires from <= n
    ensures to <= Renamed(from, to, n) && from + Renamed(from, to, n)[|to|..] == n
  {
    assert Renamed(from, to, n)[|to|..] == n[|from|..];
  }

  lemma SourceOfReparented(name: string, n: string)
    requires name < n && n[|name|] == '/'
    ensures var k, m := ParentLength(name, |name|), Reparented(name, n);
            if k == 0 then name + "/" + m == n else k <= |m| && name + m[k..] == n
  {
    var k, m := ParentLength(name, |name|), Reparented(name, n);
    if k > 0 {
      assert m[k..] == n[|name|..];
    } else {
      assert n[|name|..] == "/" + n[|name| + 1..];
      assert name + "/" + m == name + ("/" + m);
    }
  }

  lemma SourceOfTarget(plan: Plan, n: string)
    requires plan.Wellformed() && plan.Renames(n)
    ensures plan.Source(plan.Target(n)) == n
  {
    if plan.RenamePlan? {
      SourceOfRenamed(plan.from, plan.to, n);
    } else {
      SourceOfReparented(plan.name, n);
    }
  }

  /** No branch has a name that another one moves to. */
  ghost predicate Free(plan: Plan, before: Table) {
    forall n :: n in before && plan.Renames(n) ==> plan.Target(n) !in before
  }

  /** The names of a set have moved, and the others have not. */
  ghost predicate Moved(plan: Plan, before: Table, after: Table, done: set<string>, clock: Table) {
    && (forall n :: n in before && !(plan.Moves(n) && n in done) ==> n in after && after[n] == before[n])
    && (forall n :: n in before && plan.Renames(n) && n in done ==>
          plan.Target(n) in after && after[plan.Target(n)] == NewEntry(plan, before[n], n, clock))
    && (forall m :: m in after ==> FromBefore(plan, before, done, m))
    && |after| == |before| - if plan.DeletePlan? && plan.name in before && plan.name in done then 1 else 0
  }

  /** A name of the new table is an old one that did not move, or one that moved there. */
  predicate FromBefore(plan: Plan, before: Table, done: set<string>, m: string) {
    || (m in before && !(plan.Moves(m) && m in done))
    || (plan.Source(m) in before && plan.Source(m) in done && plan.Renames(plan.Source(m))
        && plan.Target(plan.Source(m)) == m)
  }

  lemma Removes(m: Table, n: string)
    requires n in m
    ensures |m - {n}| == |m| - 1
  {
    assert (m - {n}).Keys == m.Keys - {n};
  }

  lemma Adds(m: Table, n: string, v: Value)
    requires n !in m
    ensures |m[n := v]| == |m| + 1
  {
    assert m[n := v].Keys == m.Keys + {n};
  }

  lemma LeavesOne(plan: Plan, before: Table, after: Table, done: set<string>, n: string, clock: Table)
    requires Moved(plan, before, after, done, clock) && n in before && n !in done && !plan.Moves(n)
    requires plan.Wellformed()
    ensures Moved(plan, before, after, done + {n}, clock)
  {
    assert plan.DeletePlan? && n == plan.name ==> plan.Moves(n);
    forall m | m in after ensures FromBefore(plan, before, done + {n}, m) {
      assert FromBefore(plan, before, done, m);
    }
  }

  lemma DropsOne(plan: Plan, before: Table, after: Table, done: set<string>, n: string, clock: Table)
    requires Moved(plan, before, after, done, clock) && n in before && n !in done && plan.Drops(n) && plan.Moves(n)
    requires Free(plan, before)
    ensures Moved(plan, before, after - {n}, done + {n}, clock)
  {
    Removes(after, n);
    forall m | m in after - {n} ensures FromBefore(plan, before, done + {n}, m) {
      assert FromBefore(plan, before, done, m);
    }
  }

  lemma TargetIsNew(plan: Plan, before: Table, after: Table, done: set<string>, n: string, clock: Table)
    requires Moved(plan, before, after, done, clock) && n in before && n !in done && plan.Renames(n)
    requires plan.Wellformed() && Free(plan, before)
    ensures plan.Target(n) !in after && plan.Target(n) !in before && n in after
  {
    SourceOfTarget(plan, n);
    assert plan.Target(n) in after ==> FromBefore(plan, before, done, plan.Target(n));
  }

  /** The table after one name moved. */
  function Step(plan: Plan, before: Table, after: Table, n: string, clock: Table): Table
    requires n in before
  {
    (after - {n})[plan.Target(n) := NewEntry(plan, before[n], n, clock)]
  }

  lemma StepKeepsTargets(plan: Plan, before: Table, after: Table, done: set<string>, n: string, clock: Table, k: string)
    requires Moved(plan, before, after, done, clock) && n in before && n !in done && plan.Renames(n)
    requires plan.Wellformed() && Free(plan, before)
    requires k in before && plan.Renames(k) && k in done + {n}
    ensures var r := Step(plan, before, after, n, clock);
            plan.Target(k) in r && r[plan.Target(k)] == NewEntry(plan, before[k], k, clock)
  {
    TargetIsNew(plan, before, after, done, n, clock);
  }

  lemma StepComesFrom(plan: Plan, before: Table, after: Table, done: set<string>, n: string, clock: Table, m: string)
    requires Moved(plan, before, after, done, clock) && n in before && n !in done && plan.Renames(n)
    requires plan.Wellformed() && m in Step(plan, before, after, n, clock)
    ensures FromBefore(plan, before, done + {n}, m)
  {
    SourceOfTarget(plan, n);
    assert m in after ==> FromBefore(plan, before, done, m);
  }

  lemma StepCounts(plan: Plan, before: Table, after: Table, n: string, clock: Table)
    requires n in before && n in after && plan.Target(n) !in after
    ensures |Step(plan, before, after, n, clock)| == |after|
  {
    Removes(after, n);
    Adds(after - {n}, plan.Target(n), NewEntry(plan, before[n], n, clock));
  }

  lemma MovesOne(plan: Plan, before: Table, after: Table, done: set<string>, n: string, clock: Table)
    requires Moved(plan, before, after, done, clock) && n in before && n !in done && plan.Renames(n)
    requires plan.Wellformed() && Free(plan, before)
    ensures Moved(plan, before, Step(plan, before, after, n, clock), done + {n}, clock)
  {
    var r := Step(plan, before, after, n, clock);
    TargetIsNew(plan, before, after, done, n, clock);
    StepCounts(plan, before, after, n, clock);
    forall k | k in before && plan.Renames(k) && k in done + {n}
      ensures plan.Target(k) in r && r[plan.Target(k)] == NewEntry(plan, before[k], k, clock)
    {
      StepKeepsTargets(plan, before, after, done, n, clock, k);
    }
    forall m | m in r ensures FromBefore(plan, before, done + {n}, m) {
      StepComesFrom(plan, before, after, done, n, clock, m);
    }
  }

  // ---------------------------------------------------------------- the move as a whole

  /** There is one table that a move gives: the order in which the names move does not matter. */
  lemma MoveIsUnique(plan: Plan, before: Table, a: Table, b: Table, clock: Table)
    requires Moved(plan, before, a, before.Keys, clock) && Moved(plan, before, b, before.Keys, clock)
    ensures a == b
  {
    forall m | m in a || m in b ensures m in a && m in b && a[m] == b[m] {
      assert FromBefore(plan, before, before.Keys, m);
    }
  }

  /** New names differ where the old ones do. */
  lemma TargetsDiffer(plan: Plan, a: string, b: string)
    requires plan.Wellformed() && plan.Renames(a) && plan.Renames(b) && plan.Target(a) == plan.Target(b)
    ensures a == b
  {
    SourceOfTarget(plan, a);
    SourceOfTarget(plan, b);
  }

  ghost predicate EntryOk(entry: Value) {
    Decode(entry).Some? && WellFormed(entry)
  }

  /** A table that decodes: each of its entries does. */
  ghost predicate Decodes(table: Table) {
    forall n :: n in table ==> EntryOk(table[n])
  }

  lemma AvailableIsFree(plan: Plan, before: Table)
    requires Decodes(before)
    ensures Available(plan, before) <==> Free(plan, before)
  {
    assert forall n :: n in before ==> EntryOk(before[n]);
  }

  /** A moved entry keeps the conversation and the store up to null members, and chains to the old entry. */
  lemma RecordedKeeps(entry: Value, n: string, clock: Table)
    requires EntryOk(entry) && (n in clock ==> !clock[n].Null?)
    ensures Decode(Recorded(entry, n, clock)).Some?
    ensures var was, moved := Decode(entry).value, Decode(Recorded(entry, n, clock)).value;
            && moved.head == was.head && moved.prev == entry && moved.from == Str(n) && moved.op == Str("rename")
            && moved.store == Cleaned(was.store)
            && moved.updated == (if n in clock then clock[n] else Absent)
            && moved.project == (if was.project.Mapping? then was.project else Absent)
  {
    var b := Decode(entry).value;
    StoreWellFormed(entry);
    DecodeBuilt(b.(updated := Clock(clock, n), op := Str("rename"), from := Str(n), prev := entry));
  }

  lemma StoreWellFormed(entry: Value)
    requires EntryOk(entry)
    ensures WellFormed(Decode(entry).value.store)
  {
  }

  lemma StoreBuildWellFormed(store: Value)
    requires WellFormed(store)
    ensures WellFormed(Cleaned(store))
  {
  }

  ghost predicate Fine(v: Value) {
    v != Absent && WellFormed(v)
  }

  lemma MappingWellFormed(m: Table)
    requires forall k :: k in m ==> Fine(m[k])
    ensures WellFormed(Mapping(m))
  {
  }

  lemma BuildWellFormed(b: Branch)
    requires WellFormed(b.store) && WellFormed(b.head) && WellFormed(b.prev) && WellFormed(b.from)
    requires WellFormed(b.op) && WellFormed(b.updated) && WellFormed(b.project)
    ensures WellFormed(Build(b))
  {
    OrNullFine(b.head);
    OrNullFine(b.updated);
    OrNullFine(b.op);
    OrNullFine(b.from);
    OrNullFine(b.prev);
    StoreFine(b);
    BuiltEntries(b);
    MappingWellFormed(Build(b).entries);
  }

  lemma OrNullFine(v: Value)
    requires WellFormed(v)
    ensures Fine(OrNull(v))
  {
  }

  lemma StoreFine(b: Branch)
    requires WellFormed(b.store)
    ensures Fine(BuildStore(b))
  {
    StoreRebuilds(b);
    StoreBuildWellFormed(b.store);
  }

  lemma BuiltEntries(b: Branch)
    requires Fine(OrNull(b.head)) && Fine(OrNull(b.updated)) && Fine(OrNull(b.op)) && Fine(OrNull(b.from))
    requires Fine(OrNull(b.prev)) && Fine(BuildStore(b)) && WellFormed(b.project)
    ensures forall k :: k in Build(b).entries ==> Fine(Build(b).entries[k])
  {
  }

  ghost predicate ClockOk(clock: Table) {
    forall n :: n in clock ==> WellFormed(clock[n]) && !clock[n].Null?
  }

  lemma RecordedOk(entry: Value, n: string, clock: Table)
    requires EntryOk(entry) && ClockOk(clock)
    ensures EntryOk(Recorded(entry, n, clock))
  {
    RecordedKeeps(entry, n, clock);
    var moved := Decode(entry).value;
    BuildWellFormed(moved.(updated := Clock(clock, n), op := Str("rename"), from := Str(n), prev := entry));
  }

  lemma NewEntryOk(plan: Plan, entry: Value, n: string, clock: Table)
    requires EntryOk(entry) && ClockOk(clock)
    ensures EntryOk(NewEntry(plan, entry, n, clock))
  {
    RecordedOk(entry, n, clock);
  }

  lemma MovedEntryOk(plan: Plan, before: Table, after: Table, clock: Table, m: string)
    requires Decodes(before) && ClockOk(clock) && Moved(plan, before, after, before.Keys, clock) && m in after
    ensures EntryOk(after[m])
  {
    assert FromBefore(plan, before, before.Keys, m);
    if m in before && !plan.Moves(m) {
      assert after[m] == before[m];
    } else {
      var n := plan.Source(m);
      assert after[m] == NewEntry(plan, before[n], n, clock);
      NewEntryOk(plan, before[n], n, clock);
    }
  }

  /** A move keeps the table decodable. */
  lemma MoveDecodes(plan: Plan, before: Table, after: Table, clock: Table)
    requires Decodes(before) && ClockOk(clock) && Moved(plan, before, after, before.Keys, clock)
    ensures Decodes(after)
  {
    forall m | m in after ensures EntryOk(after[m]) {
      MovedEntryOk(plan, before, after, clock, m);
    }
  }

  /** A branch that moved keeps its conversation and its store, and chains to its old entry. */
  lemma MovedEntryKeeps(plan: Plan, before: Table, after: Table, clock: Table, n: string)
    requires Decodes(before) && ClockOk(clock) && Moved(plan, before, after, before.Keys, clock)
    requires n in before && plan.Renames(n)
    ensures plan.Target(n) in after && Decode(after[plan.Target(n)]).Some?
    ensures var was, now := Decode(before[n]).value, Decode(after[plan.Target(n)]).value;
            if plan.RenamePlan? && n == plan.current then now == was
            else
              && now.head == was.head && now.store == Cleaned(was.store)
              && now.project == (if was.project.Mapping? then was.project else Absent)
              && now.prev == before[n] && now.from == Str(n) && now.op == Str("rename")
              && now.updated == if n in clock then clock[n] else Absent
  {
    RecordedKeeps(before[n], n, clock);
  }

  /** No moved name is left, and the deleted branch is gone. */
  lemma OldNamesAreGone(plan: Plan, before: Table, after: Table, clock: Table, n: string)
    requires plan.Wellformed() && Free(plan, before) && Moved(plan, before, after, before.Keys, clock)
    requires n in before && plan.Moves(n)
    ensures n !in after
  {
    assert n in after ==> FromBefore(plan, before, before.Keys, n);
  }
}
