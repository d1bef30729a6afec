/** The loops that index and merge values, with the accumulator of conflict paths. */
module StoreMergeLoops {
  import opened StoreValue
  import opened StoreMerge

  /** Index items one by one, and stop at one that has no name or a name that is taken. */
  method IndexSequence(v: Value) returns (idx: Index)
    ensures idx == SeqIndex(v)
  {
    if v.Absent? {
      return Named(map[]);
    }
    if !v.Sequence? {
      return NotNamed;
    }
    var byName: map<string, Value> := map[];
    var i := 0;
    while i < |v.items|
      invariant 0 <= i <= |v.items|
      invariant IndexItems(v.items[..i]) == Named(byName)
    {
      var name := ItemName(v.items[i]);
      assert v.items[..i + 1][..i] == v.items[..i];
      if name.Absent? || name.text in byName {
        NotNamedPrefix(v.items, i + 1);
        return NotNamed;
      }
      byName := byName[name.text := v.items[i]];
      i := i + 1;
    }
    assert v.items[..i] == v.items;
    return Named(byName);
  }

  lemma {:induction false} NotNamedPrefix(items: seq<Value>, i: nat)
    requires i <= |items| && IndexItems(items[..i]).NotNamed?
    ensures IndexItems(items).NotNamed?
  {
    if i == |items| {
      assert items[..i] == items;
    } else {
      var front := items[..|items| - 1];
      assert front[..i] == items[..i];
      NotNamedPrefix(front, i);
    }
  }

  ghost function Reported(paths: seq<Path>): set<Path> {
    set p | p in paths
  }

  ghost function ConflictsOf(names: set<string>, kids: map<string, Merged>): set<Path> {
    set n, p | n in names && n in kids && p in kids[n].conflicts :: p
  }

  /** The conflicts after those of before are the ones of the children seen so far. */
  ghost predicate Told(before: seq<Path>, conflicts: seq<Path>, seen: set<string>, kids: map<string, Merged>) {
    before <= conflicts && Reported(conflicts) == Reported(before) + ConflictsOf(seen, kids)
  }

  lemma ToldOneMore(before: seq<Path>, conflicts: seq<Path>, seen: set<string>, kids: map<string, Merged>,
                    n: string, after: seq<Path>)
    requires Told(before, conflicts, seen, kids) && n in kids
    requires conflicts <= after && Reported(after) == Reported(conflicts) + kids[n].conflicts
    ensures Told(before, after, seen + {n}, kids)
  {
  }

  lemma ToldAll(before: seq<Path>, conflicts: seq<Path>, seen: set<string>, kids: map<string, Merged>)
    requires Told(before, conflicts, seen, kids) && seen == kids.Keys
    ensures before <= conflicts && Reported(conflicts) == Reported(before) + AllConflicts(kids)
  {
  }

  /** The merged entries of the keys seen so far. */
  ghost function Present(seen: set<string>, kids: map<string, Merged>): map<string, Value> {
    map k | k in seen && k in kids && !kids[k].value.Absent? :: k := kids[k].value
  }

  lemma PresentOneMore(seen: set<string>, n: string, kids: map<string, Merged>)
    requires n in kids
    ensures kids[n].value.Absent? ==> Present(seen + {n}, kids) == Present(seen, kids)
    ensures !kids[n].value.Absent? ==> Present(seen + {n}, kids) == Present(seen, kids)[n := kids[n].value]
  {
  }

  lemma {:induction false} CollectConcat(a: seq<string>, b: seq<string>, kids: map<string, Merged>)
    ensures Collect(a + b, kids) == Collect(a, kids) + Collect(b, kids)
  {
    if a == [] {
      assert a + b == b;
    } else {
      assert (a + b)[1..] == a[1..] + b;
      CollectConcat(a[1..], b, kids);
    }
  }

  lemma CollectMore(names: seq<string>, n: string, kids: map<string, Merged>)
    requires n in kids
    ensures kids[n].value.Absent? ==> Collect(names + [n], kids) == Collect(names, kids)
    ensures !kids[n].value.Absent? ==> Collect(names + [n], kids) == Collect(names, kids) + [kids[n].value]
  {
    CollectConcat(names, [n], kids);
    assert [n][1..] == [];
  }

  lemma {:induction false} OnlyInConcat(a: seq<string>, b: seq<string>, other: map<string, Value>)
    ensures OnlyIn(a + b, other) == OnlyIn(a, other) + OnlyIn(b, other)
  {
    if a == [] {
      assert a + b == b;
    } else {
      assert (a + b)[1..] == a[1..] + b;
      OnlyInConcat(a[1..], b, other);
    }
  }

  lemma OnlyInMore(names: seq<string>, n: string, other: map<string, Value>)
    ensures n in other ==> OnlyIn(names + [n], other) == OnlyIn(names, other)
    ensures n !in other ==> OnlyIn(names + [n], other) == OnlyIn(names, other) + [n]
  {
    OnlyInConcat(names, [n], other);
    assert [n][1..] == [];
  }

  /** Merge one value three ways: the merged value, with the paths of its conflicts put after those before. */
  method MergeValue(base: Value, ours: Value, theirs: Value, path: Path, depth: nat, before: seq<Path>)
    returns (merged: Value, conflicts: seq<Path>)
    ensures merged == Merge3(base, ours, theirs, path, depth).value
    ensures before <= conflicts
    ensures Reported(conflicts) == Reported(before) + Merge3(base, ours, theirs, path, depth).conflicts
    decreases STORE_MERGE_DEPTH_MAX - depth, 3
  {
    conflicts := before;
    if ours == theirs || base == theirs {
      return ours, conflicts;
    }
    if base == ours {
      return theirs, conflicts;
    }
    if path == ["todos"] {
      return ours, conflicts + [path];
    }
    if ours.Sequence? && theirs.Sequence? && depth < STORE_MERGE_DEPTH_MAX {
      var bi := IndexSequence(base);
      var oi := IndexSequence(ours);
      var ti := IndexSequence(theirs);
      if bi.Named? && oi.Named? && ti.Named? {
        merged, conflicts := MergeItems(base, ours, theirs, path, depth, before);
        return merged, conflicts;
      }
    }
    if !ours.Mapping? || !theirs.Mapping? || (!base.Absent? && !base.Mapping?) || depth >= STORE_MERGE_DEPTH_MAX {
      return ours, conflicts + [path];
    }
    merged, conflicts := MergeEntries(base, ours, theirs, path, depth, before);
  }

  method MergeChild(base: Value, ours: Value, theirs: Value, path: Path, depth: nat, n: string, before: seq<Path>,
                    ghost kids: map<string, Merged>)
    returns (merged: Value, conflicts: seq<Path>)
    requires depth < STORE_MERGE_DEPTH_MAX && kids == MergeKids(base, ours, theirs, path, depth) && n in kids
    ensures merged == kids[n].value
    ensures before <= conflicts && Reported(conflicts) == Reported(before) + kids[n].conflicts
    decreases STORE_MERGE_DEPTH_MAX - depth, 0
  {
    merged, conflicts := MergeValue(Child(base, n), Child(ours, n), Child(theirs, n), path + [n], depth + 1, before);
  }

  /** The two passes over a named sequence: ours, then what only theirs has. */
  method MergeItems(base: Value, ours: Value, theirs: Value, path: Path, depth: nat, before: seq<Path>)
    returns (merged: Value, conflicts: seq<Path>)
    requires MergesNamed(base, ours, theirs, depth)
    ensures var kids := MergeKids(base, ours, theirs, path, depth);
            && merged == Assemble(base, ours, theirs, depth, kids)
            && before <= conflicts && Reported(conflicts) == Reported(before) + AllConflicts(kids)
    decreases STORE_MERGE_DEPTH_MAX - depth, 2
  {
    ghost var kids := MergeKids(base, ours, theirs, path, depth);
    ghost var first, second := Names(ours.items), OnlyIn(Names(theirs.items), IndexItems(ours.items).byName);
    var out, more;
    ghost var seen;
    out, conflicts, seen := MergePass(base, ours, theirs, path, depth, ours.items, map[], before, before, {}, kids);
    OnlyInNothing(first);
    more, conflicts, seen := MergePass(base, ours, theirs, path, depth, theirs.items, Children(ours), conflicts,
                                       before, seen, kids);
    CollectConcat(first, second, kids);
    AllSeen(base, ours, theirs, depth);
    ToldAll(before, conflicts, seen, kids);
    merged := Sequence(out + more);
  }

  lemma AllSeen(base: Value, ours: Value, theirs: Value, depth: nat)
    requires MergesNamed(base, ours, theirs, depth)
    ensures {} + Seen(Names(ours.items)) + Seen(OnlyIn(Names(theirs.items), Children(ours))) ==
            Visited(base, ours, theirs, depth)
  {
  }

  lemma {:induction false} OnlyInNothing(names: seq<string>)
    ensures OnlyIn(names, map[]) == names
  {
    if names != [] {
      OnlyInNothing(names[1..]);
    }
  }

  /** One pass: merge the items whose names are not in skip, in order, and keep the ones that are present. */
  method MergePass(base: Value, ours: Value, theirs: Value, path: Path, depth: nat, items: seq<Value>,
                   skip: map<string, Value>, conflicts0: seq<Path>,
                   ghost before: seq<Path>, ghost seen0: set<string>, ghost kids: map<string, Merged>)
    returns (out: seq<Value>, conflicts: seq<Path>, ghost seen: set<string>)
    requires MergesNamed(base, ours, theirs, depth) && kids == MergeKids(base, ours, theirs, path, depth)
    requires IndexItems(items).Named? && forall n :: n in Names(items) ==> n in kids
    requires Told(before, conflicts0, seen0, kids)
    ensures out == Collect(OnlyIn(Names(items), skip), kids)
    ensures seen == seen0 + Seen(OnlyIn(Names(items), skip))
    ensures Told(before, conflicts, seen, kids)
    decreases STORE_MERGE_DEPTH_MAX - depth, 1
  {
    var names := Names(items);
    out, conflicts, seen := [], conflicts0, seen0;
    ghost var done: seq<string> := [];
    var i := 0;
    while i < |items|
      invariant 0 <= i <= |items|
      invariant done == OnlyInFirst(names, i, skip)
      invariant Passed(out, seen, seen0, done, kids)
      invariant Told(before, conflicts, seen, kids)
    {
      var name := names[i];
      OnlyInNext(names, i, skip);
      if name !in skip {
        var v, after := MergeChild(base, ours, theirs, path, depth, name, conflicts, kids);
        PassedMore(out, seen, seen0, done, name, kids);
        ToldOneMore(before, conflicts, seen, kids, name, after);
        conflicts, seen, done := after, seen + {name}, done + [name];
        if !v.Absent? {
          out := out + [v];
        }
      }
      i := i + 1;
    }
    PrefixAll(names);
  }

  /** What a pass has made of the names it has done. */
  ghost predicate Passed(out: seq<Value>, seen: set<string>, seen0: set<string>, done: seq<string>,
                         kids: map<string, Merged>) {
    && out == Collect(done, kids)
    && seen == seen0 + Seen(done)
  }

  lemma PassedMore(out: seq<Value>, seen: set<string>, seen0: set<string>, done: seq<string>, n: string,
                   kids: map<string, Merged>)
    requires Passed(out, seen, seen0, done, kids) && n in kids
    ensures Passed(if kids[n].value.Absent? then out else out + [kids[n].value], seen + {n}, seen0, done + [n], kids)
  {
    CollectMore(done, n, kids);
    SeenOneMore(done, n);
  }

  ghost function Seen(names: seq<string>): set<string> {
    set n | n in names
  }

  lemma SeenOneMore(names: seq<string>, n: string)
    ensures Seen(names + [n]) == Seen(names) + {n}
  {
  }

  lemma PrefixAll(names: seq<string>)
    ensures names[..|names|] == names
  {
  }

  ghost function OnlyInFirst(names: seq<string>, i: nat, skip: map<string, Value>): seq<string>
    requires i <= |names|
  {
    OnlyIn(names[..i], skip)
  }

  lemma OnlyInNext(names: seq<string>, i: nat, skip: map<string, Value>)
    requires i < |names|
    ensures names[i] in skip ==> OnlyInFirst(names, i + 1, skip) == OnlyInFirst(names, i, skip)
    ensures names[i] !in skip ==> OnlyInFirst(names, i + 1, skip) == OnlyInFirst(names, i, skip) + [names[i]]
  {
    assert names[..i + 1] == names[..i] + [names[i]];
    OnlyInMore(names[..i], names[i], skip);
  }

  /** The loops over the keys of the three mappings give the map of merged children, whatever order the keys come in. */
  method MergeEntries(base: Value, ours: Value, theirs: Value, path: Path, depth: nat, before: seq<Path>)
    returns (merged: Value, conflicts: seq<Path>)
    requires MergesKeys(base, ours, theirs, depth)
    ensures var kids := MergeKids(base, ours, theirs, path, depth);
            && merged == Assemble(base, ours, theirs, depth, kids)
            && before <= conflicts && Reported(conflicts) == Reported(before) + AllConflicts(kids)
    decreases STORE_MERGE_DEPTH_MAX - depth, 1
  {
    ghost var kids := MergeKids(base, ours, theirs, path, depth);
    var keys := Children(ours).Keys + Children(theirs).Keys + Children(base).Keys;
    var entries: map<string, Value> := map[];
    conflicts := before;
    MergingNone(before, kids);
    while keys != {}
      invariant Merging(keys, entries, before, conflicts, kids)
      decreases |keys|
    {
      var key :| key in keys;
      var v, after := MergeChild(base, ours, theirs, path, depth, key, conflicts, kids);
      MergingOneMore(keys, entries, before, conflicts, kids, key, after);
      conflicts, keys := after, keys - {key};
      if !v.Absent? {
        entries := entries[key := v];
      }
    }
    MergingDone(base, ours, theirs, depth, entries, before, conflicts, kids);
    merged := Mapping(entries);
  }

  /** The keys that are not to do any more are merged. */
  ghost predicate Merging(todo: set<string>, entries: map<string, Value>, before: seq<Path>, conflicts: seq<Path>,
                          kids: map<string, Merged>) {
    && todo <= kids.Keys
    && entries == Present(kids.Keys - todo, kids)
    && Told(before, conflicts, kids.Keys - todo, kids)
  }

  lemma MergingNone(before: seq<Path>, kids: map<string, Merged>)
    ensures Merging(kids.Keys, map[], before, before, kids)
  {
    assert kids.Keys - kids.Keys == {};
    assert Present({}, kids) == map[];
  }

  lemma MergingOneMore(todo: set<string>, entries: map<string, Value>, before: seq<Path>, conflicts: seq<Path>,
                       kids: map<string, Merged>, key: string, after: seq<Path>)
    requires Merging(todo, entries, before, conflicts, kids) && key in todo
    requires conflicts <= after && Reported(after) == Reported(conflicts) + kids[key].conflicts
    ensures Merging(todo - {key}, if kids[key].value.Absent? then entries else entries[key := kids[key].value],
                    before, after, kids)
  {
    var seen := kids.Keys - todo;
    assert kids.Keys - (todo - {key}) == seen + {key};
    ToldOneMore(before, conflicts, seen, kids, key, after);
    PresentOneMore(seen, key, kids);
  }

  lemma MergingDone(base: Value, ours: Value, theirs: Value, depth: nat, entries: map<string, Value>,
                    before: seq<Path>, conflicts: seq<Path>, kids: map<string, Merged>)
    requires MergesKeys(base, ours, theirs, depth) && kids.Keys == Visited(base, ours, theirs, depth)
    requires Merging({}, entries, before, conflicts, kids)
    ensures Assemble(base, ours, theirs, depth, kids) == Mapping(entries)
    ensures before <= conflicts && Reported(conflicts) == Reported(before) + AllConflicts(kids)
  {
    assert kids.Keys - {} == kids.Keys;
    ToldAll(before, conflicts, kids.Keys, kids);
    assert Present(kids.Keys, kids) == map k | k in kids && !kids[k].value.Absent? :: k := kids[k].value;
  }
}
