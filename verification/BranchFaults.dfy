/** Renames and deletes that leave a context at a branch that is not in its table, or that lose an entry. */
module BranchFaults {
  import opened Options
  import opened StoreValue
  import opened BranchEntry
  import opened BranchNames
  import opened BranchMove
  import opened BranchLoop
  import opened BranchHolders
  import opened BranchJoin
  import opened BranchContexts

  // Publishes with no race: one that fails, and one that succeeds.
  const FAILS := Publish(false, NoRoot, [])
  const WORKS := Publish(true, NoRoot, [])

  /** A table with some branches, all with one entry. */
  function TableOf(names: seq<string>, entry: Value): Table {
    map n | n in names :: entry
  }

  lemma TableLists(names: seq<string>, entry: Value)
    requires EntryOk(entry) && forall i, j :: 0 <= i < j < |names| ==> names[i] != names[j]
    ensures Lists(names, TableOf(names, entry)) && Decodes(TableOf(names, entry))
  {
  }

  lemma TwoNames(entry: Value)
    requires EntryOk(entry)
    ensures !IsBelow("b", "a") && |TableOf(["a", "b"], entry)| == 2
    ensures Lists(["a", "b"], TableOf(["a", "b"], entry)) && Decodes(TableOf(["a", "b"], entry))
  {
    assert "b"[0] != "a"[0];
    assert TableOf(["a", "b"], entry).Keys == {"a", "b"};
    TableLists(["a", "b"], entry);
  }

  /** A rename of "a" to "c" beside the current branch "b" is not refused, and goes through. */
  lemma RenameGoes(entry: Value, plan: Plan, table: Table)
    requires EntryOk(entry) && plan == RenamePlan("a", "c", "b") && table == TableOf(["a", "b"], entry)
    ensures Found(table, "a") && ValidName("c", false) && !Found(table, "c")
    ensures Available(plan, table) && Short(plan, table, RENAME_SIZE) && Unstopped(plan, table, "b")
    ensures MovedName(plan, table, "a") && !MovedName(plan, table, "b") && plan.Target("a") == "c"
    ensures table.Keys == {"a", "b"}
  {
    TwoNames(entry);
    assert Renamed("a", "c", "a") == "c" && plan.Target("a") == "c";
    assert !plan.Moves("b");
  }

  /** A rename of "a" to "c" that cannot be published: HEAD names "c", which is no branch. */
  method UnpublishedRename(entry: Value) returns (ctx: BranchContext, ok: bool)
    requires EntryOk(entry)
    ensures fresh(ctx) && !ok && ctx.head == Some("c") && "c" !in ctx.table && "a" in ctx.table
  {
    var names := ["a", "b"];
    TwoNames(entry);
    ctx := new BranchContext(TableOf(names, entry), "b", Some("a"), Null);
    RenameGoes(entry, RenamePlan("a", "c", "b"), ctx.table);
    ok := ctx.Rename("a", "c", names, map[], FAILS);
  }

  /**
   * A delete of "a" that stops at the current branch "a/HEAD", which would get the reserved name: HEAD, that came
   * before it, names "b", which is no branch.
   */
  method StoppedDelete(entry: Value) returns (ctx: BranchContext, ok: bool)
    requires EntryOk(entry)
    ensures fresh(ctx) && !ok && ctx.branch == "a/HEAD" && ctx.head == Some("b")
    ensures "b" !in ctx.table && "a" in ctx.table && "a/b" in ctx.table
  {
    var names := ["a", "a/b", "a/HEAD"];
    TableLists(names, entry);
    ctx := new BranchContext(TableOf(names, entry), "a/HEAD", Some("a/b"), Null);
    var plan := DeletePlan("a");
    assert ParentLength("a", 1) == 0;
    assert plan.Target("a/b") == "b" && plan.Target("a/HEAD") == "HEAD";
    assert plan.Renames("a/b") && plan.Renames("a/HEAD") && plan.Drops("a");
    StopsThird(names, plan, ctx.table);
    ok := ctx.Delete("a", true, names, map[], WORKS);
  }

  lemma StopsThird(names: seq<string>, plan: Plan, table: Table)
    requires names == ["a", "a/b", "a/HEAD"] && Lists(names, table) && Decodes(table) && plan == DeletePlan("a")
    requires plan.Target("a/HEAD") == "HEAD" && plan.Renames("a/HEAD") && plan.Drops("a") && plan.Target("a/b") == "b"
    ensures FirstStop(plan, table, names, 0, "a/HEAD") == 2
    ensures "a/b" in Among(names, 2) && "a/HEAD" !in Among(names, 2) && !Unstopped(plan, table, "a/HEAD")
  {
    assert names[0] == "a" && names[1] == "a/b" && names[2] == "a/HEAD";
    assert Decodes(table) ==> EntryOk(table["a"]) && EntryOk(table["a/b"]);
    assert Stops(plan, table, "a/HEAD", "a/HEAD");
    assert FirstStop(plan, table, names, 2, "a/HEAD") == 2;
    assert FirstStop(plan, table, names, 1, "a/HEAD") == 2;
    assert names[..2][1] == "a/b";
  }

  /** A delete of the branch that HEAD names: HEAD still names it. */
  method DanglingDelete(entry: Value) returns (ctx: BranchContext, ok: bool)
    requires EntryOk(entry)
    ensures fresh(ctx) && ok && ctx.head == Some("a") && "a" !in ctx.table
  {
    var names := ["a", "b"];
    TwoNames(entry);
    ctx := new BranchContext(TableOf(names, entry), "b", Some("a"), Null);
    ghost var before := ctx.table;
    var plan := DeletePlan("a");
    assert plan.Drops("a") && !plan.Moves("b") && Free(plan, before);
    ok := ctx.Delete("a", true, names, map[], WORKS);
    HeadDangles(plan, before, ctx.table, map[], "a");
  }

  /**
   * A rename of "a" to "c" that joins the changes of another process, which made "d" and HEAD name it, and fails
   * then: the context has the HEAD of that process, which is no branch of its table.
   */
  method AdoptedHead(entry: Value) returns (ctx: BranchContext, ok: bool)
    requires EntryOk(entry)
    ensures fresh(ctx) && !ok && ctx.branch == "b" && ctx.head == Some("d") && "d" !in ctx.table
  {
    var names := ["a", "b"];
    TwoNames(entry);
    var table := TableOf(names, entry);
    ctx := new BranchContext(table, "b", Some("b"), Null);
    var plan := RenamePlan("a", "c", "b");
    RenameGoes(entry, plan, table);
    var race := Race(Some("d"), table["d" := entry]);
    forall after | Moved(plan, table, after, table.Keys, map[])
      ensures FirstClash(table, after, [race], 0) == 1
    {
      NoOtherName(plan, table, after);
      OneJoins(table, after, race, "d", entry);
    }
    ok := ctx.Rename("a", "c", names, map[], Publish(false, Root(Some("b")), [race]));
  }

  /** A rename of "a" to "c" makes no other name. */
  lemma NoOtherName(plan: Plan, before: Table, after: Table)
    requires plan == RenamePlan("a", "c", "b") && before.Keys == {"a", "b"}
    requires Moved(plan, before, after, before.Keys, map[])
    ensures "d" !in after
  {
    assert plan.Target("a") == "c";
    assert "d" in after ==> FromBefore(plan, before, before.Keys, "d");
  }

  /** A table joins another process's new name that it does not have itself. */
  lemma OneJoins(base: Table, desired: Table, race: Race, n: string, entry: Value)
    requires n !in base && n !in desired && race.latest == base[n := entry]
    ensures FirstClash(base, desired, [race], 0) == 1
  {
    forall k | Changes(base, desired, k) ensures At(race.latest, k) == At(base, k) {
    }
    assert FirstClash(base, desired, [race], 1) == 1;
  }

  // ---------------------------------------------------------------- entries that are lost

  /** A rename of "a" to "c" where "c" has an entry that does not decode: that entry is lost. */
  lemma OverwrittenEntry(order: seq<string>, before: Table)
    requires order == ["a", "c"] && Lists(order, before) && Found(before, "a") && Decode(before["c"]).None?
    ensures var plan := RenamePlan("a", "c", "b");
            Available(plan, before) && !Found(before, "c") && Lost(plan, before, order, "c")
  {
    var plan := RenamePlan("a", "c", "b");
    assert order[0] == "a" && order[1] == "c";
    assert Renamed("a", "c", "a") == "c" && plan.Renames("a") && plan.Target(order[0]) == "c";
    assert "c"[0] != "a"[0] && !plan.Moves("c");
    LostIff(plan, before, order, 1);
  }

  /**
   * A rename of "a" to "a/b" where "a/b" has an entry that does not decode, and comes behind "a": the entry of
   * "a" is lost, conversation and all.
   */
  lemma SwallowedBranch(order: seq<string>, before: Table)
    requires order == ["a", "a/b"] && Lists(order, before) && Found(before, "a") && Decode(before["a/b"]).None?
    ensures var plan := RenamePlan("a", "a/b", "c");
            Available(plan, before) && !Found(before, "a/b") && Lost(plan, before, order, "a")
  {
    var plan := RenamePlan("a", "a/b", "c");
    assert order[0] == "a" && order[1] == "a/b";
    assert plan.Target("a") == "a/b";
    assert plan.Target("a/b") == "a/b/b";
    assert |"a/b/b"| == 5 && "a/b/b" !in order;
    assert Touches(plan, order[1], "a/b");
    LostIff(plan, before, order, 0);
  }

  /** A delete of the empty name takes a character off the other ones: of "xa" and "ya" one is lost. */
  lemma CollidingDelete(order: seq<string>, before: Table)
    requires order == ["", "xa", "ya"] && Lists(order, before) && Found(before, "")
    ensures var plan := DeletePlan("");
            Available(plan, before) && Lost(plan, before, order, "xa") && !Lost(plan, before, order, "ya")
  {
    var plan := DeletePlan("");
    assert order[0] == "" && order[1] == "xa" && order[2] == "ya";
    assert plan.Target("xa") == "a" && plan.Target("ya") == "a";
    assert "a" !in order;
    assert Touches(plan, order[2], "a");
    LostIff(plan, before, order, 1);
    LostIff(plan, before, order, 2);
  }
}
