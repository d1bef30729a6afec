/** The branches of a context, and the rename and the delete that change them. */
module BranchContexts {
  import opened Options
  import opened StoreValue
  import opened BranchEntry
  import opened BranchNames
  import opened BranchMove
  import opened BranchLoop
  import opened BranchHolders
  import opened BranchJoin

  // The HEAD of the root that a context has, if it has one.
  datatype Root = NoRoot | Root(head: Option<string>)

  // What comes of a publish: the root that it starts from, the races that it loses, and whether it then succeeds.
  datatype Publish = Publish(ok: bool, root: Root, races: Races)

  // A publish that lost as many races as it has tries fails.
  const TRIES := 4

  type Races = races: seq<Race> | |races| <= TRIES

  /** The HEAD that a publish writes: the branch of HEAD, else the current one. */
  function HeadName(s: Selection): string {
    if s.head.Some? && s.head.value != "" then s.head.value else s.branch
  }

  /** The publish moves HEAD. */
  predicate MovesHead(root: Root, s: Selection) {
    root.Root? && root.head != Some(HeadName(s))
  }

  /** What a context selects after some races: where the publish does not move HEAD it takes that of the last one. */
  function AfterRaces(p: Publish, i: nat, s: Selection): Selection
    requires i <= |p.races|
  {
    if i > 0 && !MovesHead(p.root, s) then s.(head := p.races[i - 1].head) else s
  }

  /** The root has a HEAD other than that of the context, which is the current branch where it has none. */
  ghost predicate Moves(root: Root, s: Selection) {
    root != NoRoot && root.head != Some(if s.head == None || s.head == Some("") then s.branch else s.head.value)
  }

  /** What a publish does to a table and to what a context selects. */
  ghost predicate Published(p: Publish, base: Table, desired: Table, s: Selection, ok: bool, table: Table,
                            selected: Selection) {
    var i := FirstClash(base, desired, p.races, 0);
    && ok == (p.ok && i == |p.races| < 4)
    && selected == s.(head := if i == 0 || Moves(p.root, s) then s.head else p.races[i - 1].head)
    && if ok then IsPublished(base, desired, p.races, i, table) else table == base
  }

  class BranchContext {
    var table: Table
    var branch: string
    var head: Option<string>
    var prev: Value

    constructor (table: Table, branch: string, head: Option<string>, prev: Value)
      ensures this.table == table && Selected() == Selection(branch, head, prev)
    {
      this.table, this.branch, this.head, this.prev := table, branch, head, prev;
    }

    function Selected(): Selection
      reads `branch, `head, `prev
    {
      Selection(branch, head, prev)
    }

    /** Whether no branch that is found has a name that another one would move to. */
    method CheckFree(plan: Plan, order: seq<string>) returns (ok: bool)
      requires Lists(order, table)
      ensures ok <==> Available(plan, table)
    {
      for i := 0 to |order|
        invariant forall k :: 0 <= k < i && plan.Renames(order[k]) ==> !Found(table, plan.Target(order[k]))
      {
        if plan.Renames(order[i]) && Found(table, plan.Target(order[i])) {
          return false;
        }
      }
      ok := true;
    }

    /** Whether no branch that is found has a name that another one would move to, and no new name is too long. */
    method CheckTargets(plan: Plan, order: seq<string>, limit: nat) returns (ok: bool)
      requires Lists(order, table)
      ensures ok <==> Available(plan, table) && Short(plan, table, limit)
    {
      for i := 0 to |order|
        invariant forall k :: 0 <= k < i && plan.Renames(order[k]) ==>
                    !Found(table, plan.Target(order[k])) && |plan.Target(order[k])| < limit
      {
        var n := order[i];
        if plan.Renames(n) && (|plan.Target(n)| >= limit || Found(table, plan.Target(n))) {
          return false;
        }
      }
      ok := true;
    }

    /** Move the names of a plan, one by one, up to the first at which that stops. */
    method MoveAll(plan: Plan, order: seq<string>, clock: Table) returns (ok: bool, after: Table)
      requires Lists(order, table)
      modifies `branch, `head
      ensures Moving(ok, after, Selected()) == MoveUpTo(plan, table, order, |order|, clock, old(Selected()))
    {
      ok, after := true, table;
      var i := 0;
      while ok && i < |order|
        invariant i <= |order|
        invariant Moving(ok, after, Selected()) == MoveUpTo(plan, table, order, i, clock, old(Selected()))
      {
        ok, after := MoveName(plan, order[i], clock, after);
        i := i + 1;
      }
      if !ok {
        StaysStopped(plan, table, order, i, clock, old(Selected()));
      }
    }

    /** Move one name of a plan. */
    method MoveName(plan: Plan, n: string, clock: Table, before: Table) returns (ok: bool, after: Table)
      requires n in table
      modifies `branch, `head
      ensures Moving(ok, after, Selected()) == MoveOne(plan, table, Moving(true, before, old(Selected())), n, clock)
    {
      ok, after := true, before;
      if !plan.Moves(n) {
        return;
      }
      if plan.Drops(n) {
        after := after - {n};
        return;
      }
      var target := plan.Target(n);
      if plan.DeletePlan? && Decode(table[n]).None? {
        ok := false;
      } else if n == branch && !ValidName(target, true) {
        ok := false;
      } else {
        var entry := if plan.RenamePlan? && n == branch then table[n] else Recorded(table[n], n, clock);
        after := (after - {n})[target := entry];
        if n == branch {
          branch := target;
        }
        if head == Some(n) {
          head := Some(target);
        }
      }
    }

    /** Publish a table: join in what other processes changed, until a change clashes or the publish is through. */
    method PublishTable(desired: Table, p: Publish) returns (ok: bool)
      modifies `table, `head
      ensures Published(p, old(table), desired, old(Selected()), ok, table, Selected())
    {
      var merged, i, moves := desired, 0, MovesHead(p.root, Selected());
      while i < |p.races|
        invariant table == old(table) && i <= |p.races|
        invariant forall j :: 0 <= j < i ==> Joins(table, desired, p.races[j].latest)
        invariant IsPublished(table, desired, p.races, i, merged)
        invariant Selected() == AfterRaces(p, i, old(Selected()))
      {
        ClashIs(table, desired, p.races, 0, i);
        var joined := Join(table, desired, p.races[i].latest);
        if joined.None? {
          return false;
        }
        merged := joined.value;
        if !moves {
          head := p.races[i].head;
        }
        i := i + 1;
      }
      ClashIs(table, desired, p.races, 0, i);
      ok := p.ok && |p.races| < TRIES;
      if ok {
        table := merged;
      }
    }

    /** In a table whose entries all decode names that are not found are free, and the loop keeps it so. */
    lemma StaysDecodable(plan: Plan, order: seq<string>, clock: Table)
      requires Lists(order, table)
      ensures Decodes(table) && Available(plan, table) ==> Free(plan, table)
      ensures var m := MoveUpTo(plan, table, order, |order|, clock, Selected());
              Decodes(table) && ClockOk(clock) && m.ok ==> Decodes(m.after)
    {
      if Decodes(table) {
        AvailableIsFree(plan, table);
        if ClockOk(clock) && MoveUpTo(plan, table, order, |order|, clock, Selected()).ok {
          LoopDecodes(plan, table, order, clock, Selected());
        }
      }
    }

    // ------------------------------------------------------------ rename

    /** What a rename asks of the table: the old name is found, the new names are not, and they are short enough. */
    ghost predicate Renamable(from: string, to: string)
      reads `table, `branch
    {
      var plan := RenamePlan(from, to, branch);
      && Found(table, from) && ValidName(to, false) && !Found(table, to)
      && Available(plan, table) && Short(plan, table, RENAME_SIZE)
    }

    method CheckRename(from: string, to: string, order: seq<string>) returns (ok: bool)
      requires Lists(order, table)
      ensures ok <==> Renamable(from, to)
    {
      if !Found(table, from) || !ValidName(to, false) || Found(table, to) {
        return false;
      }
      ok := CheckTargets(RenamePlan(from, to, branch), order, RENAME_SIZE);
    }

    /** Move the names of a rename, and let the next publish chain to the entry of the current branch. */
    method MoveRenamed(plan: Plan, order: seq<string>, clock: Table) returns (ok: bool, after: Table)
      requires plan.RenamePlan? && Lists(order, table)
      modifies `branch, `head, `prev
      ensures var m := MoveUpTo(plan, table, order, |order|, clock, old(Selected()));
              && ok == m.ok && after == m.after
              && Selected() == if ok && MovedName(plan, table, old(branch)) then
                                 m.selected.(prev := Linked(after, m.selected.branch))
                               else m.selected
    {
      var renamesCurrent := branch in table && plan.Renames(branch);
      ok, after := MoveAll(plan, order, clock);
      if ok && renamesCurrent {
        prev := Linked(after, branch);
      }
    }

    /** What a rename leaves when the loop ran for a table in which no new name is taken. */
    twostate predicate RenamesFree(plan: Plan, order: seq<string>, clock: Table, p: Publish, ok: bool)
      requires Lists(order, old(table))
      reads this
    {
      if !Unstopped(plan, old(table), old(branch)) then
        !ok && table == old(table) && Selected() == AfterStop(plan, old(table), order, old(Selected()))
      else
        exists after ::
          && Moved(plan, old(table), after, old(table).Keys, clock) && |after| == |old(table)|
          && Published(p, old(table), after, AfterMove(plan, old(table), old(Selected())), ok, table, Selected())
    }

    /**
     * Move a branch and those below it to a new name. A rename that is refused changes nothing. One that stops
     * leaves the table, and what came before the stop has followed; one that cannot be published leaves the table,
     * and what the context selects has followed.
     */
    method Rename(from: string, to: string, order: seq<string>, clock: Table, p: Publish) returns (ok: bool)
      requires Lists(order, table)
      modifies `table, `branch, `head, `prev
      ensures old(Decodes(table)) && ClockOk(clock) && p.races == [] ==> Decodes(table)
      ensures !old(Renamable(from, to)) ==> !ok && unchanged(this)
      ensures old(Renamable(from, to)) ==>
                var plan := RenamePlan(from, to, old(branch));
                var m := MoveUpTo(plan, old(table), order, |order|, clock, old(Selected()));
                var s := if m.ok && MovedName(plan, old(table), old(branch)) then
                           m.selected.(prev := Linked(m.after, m.selected.branch)) else m.selected;
                && (Free(plan, old(table)) || Decodes(old(table)) ==> RenamesFree(plan, order, clock, p, ok))
                && if !m.ok then !ok && table == old(table) && Selected() == s
                   else Published(p, old(table), m.after, s, ok, table, Selected())
    {
      ok := CheckRename(from, to, order);
      if !ok {
        return;
      }
      var plan := RenamePlan(from, to, branch);
      RenameLaw(plan, order, clock);
      StaysDecodable(plan, order, clock);
      var after;
      ok, after := MoveRenamed(plan, order, clock);
      if ok {
        ok := PublishTable(after, p);
      }
    }

    /** The loop of a rename for a table in which no new name is taken. */
    lemma RenameLaw(plan: Plan, order: seq<string>, clock: Table)
      requires plan.RenamePlan? && plan.current == branch && Lists(order, table)
      ensures var m := MoveUpTo(plan, table, order, |order|, clock, Selected());
              var s := if m.ok && MovedName(plan, table, branch) then
                         m.selected.(prev := Linked(m.after, m.selected.branch)) else m.selected;
              Free(plan, table) ==>
                && (m.ok <==> Unstopped(plan, table, branch))
                && (!m.ok ==> s == AfterStop(plan, table, order, Selected()))
                && (m.ok ==> s == AfterMove(plan, table, Selected()) && |m.after| == |table|
                             && Moved(plan, table, m.after, table.Keys, clock))
    {
      if Free(plan, table) {
        MoveLaw(plan, table, order, clock, Selected());
        var m := MoveUpTo(plan, table, order, |order|, clock, Selected());
        if m.ok && MovedName(plan, table, branch) {
          CurrentEntry(plan, table, m.after, clock);
        }
      }
    }

    // ------------------------------------------------------------ delete

    /** What a delete asks: another branch than the current one, without turns unless forced, and free names. */
    ghost predicate Deletable(name: string, force: bool)
      reads `table, `branch
    {
      && name != branch && Found(table, name) && (force || Decode(table[name]).value.head.Absent?)
      && Available(DeletePlan(name), table)
    }

    method CheckDelete(name: string, force: bool, order: seq<string>) returns (ok: bool)
      requires Lists(order, table)
      ensures ok <==> Deletable(name, force)
    {
      if name == branch || !Found(table, name) {
        return false;
      }
      if !force && !Decode(table[name]).value.head.Absent? {
        return false;
      }
      ok := CheckFree(DeletePlan(name), order);
    }

    /** What a delete leaves when the loop ran for a table in which no new name is taken. */
    twostate predicate DeletesFree(plan: Plan, order: seq<string>, clock: Table, p: Publish, ok: bool)
      requires Lists(order, old(table))
      reads this
    {
      if !Unstopped(plan, old(table), old(branch)) then
        !ok && table == old(table) && Selected() == AfterStop(plan, old(table), order, old(Selected()))
      else if |old(table)| == 1 then
        !ok && table == old(table) && Selected() == AfterMove(plan, old(table), old(Selected()))
      else
        exists after ::
          && Moved(plan, old(table), after, old(table).Keys, clock) && |after| == |old(table)| - 1
          && Published(p, old(table), after, AfterMove(plan, old(table), old(Selected())), ok, table, Selected())
    }

    /** The loop of a delete for a table in which no new name is taken. */
    lemma DeleteLaw(plan: Plan, order: seq<string>, clock: Table)
      requires plan.DeletePlan? && plan.name in table && Lists(order, table)
      ensures var m := MoveUpTo(plan, table, order, |order|, clock, Selected());
              plan.Wellformed() && Free(plan, table) ==>
                && (m.ok <==> Unstopped(plan, table, branch))
                && (!m.ok ==> m.selected == AfterStop(plan, table, order, Selected()))
                && (m.ok ==> m.selected == AfterMove(plan, table, Selected()) && |m.after| == |table| - 1
                             && Moved(plan, table, m.after, table.Keys, clock))
    {
      if plan.Wellformed() && Free(plan, table) {
        MoveLaw(plan, table, order, clock, Selected());
      }
    }

    /**
     * Delete a branch; those below it move to its parent, or to the root. A delete that is refused changes
     * nothing. One that stops leaves the table, and what came before the stop has followed; one of the last branch,
     * or that cannot be published, leaves the table, and what the context selects has followed.
     */
    method Delete(name: string, force: bool, order: seq<string>, clock: Table, p: Publish) returns (ok: bool)
      requires Lists(order, table)
      modifies `table, `branch, `head
      ensures old(Decodes(table)) && ClockOk(clock) && p.races == [] ==> Decodes(table)
      ensures !old(Deletable(name, force)) ==> !ok && unchanged(this)
      ensures old(Deletable(name, force)) ==>
                var plan := DeletePlan(name);
                var m := MoveUpTo(plan, old(table), order, |order|, clock, old(Selected()));
                && (name != "" && (Free(plan, old(table)) || Decodes(old(table))) ==>
                      DeletesFree(plan, order, clock, p, ok))
                && if !m.ok || m.after == map[] then !ok && table == old(table) && Selected() == m.selected
                   else Published(p, old(table), m.after, m.selected, ok, table, Selected())
    {
      ok := CheckDelete(name, force, order);
      if !ok {
        return;
      }
      var plan := DeletePlan(name);
      DeleteLaw(plan, order, clock);
      StaysDecodable(plan, order, clock);
      var after;
      ok, after := MoveAll(plan, order, clock);
      if ok {
        ok := |after| > 0;
      }
      if ok {
        ok := PublishTable(after, p);
      }
    }
  }
}
