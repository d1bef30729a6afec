/** Which side is ours decides only who wins a conflict, and the order of named items. */
module StoreMergeSwap {
  import opened StoreValue
  import opened StoreMerge
  import opened StoreMergeLaws

  /** Equal up to the order of the items of named sequences. */
  ghost predicate Equivalent(a: Value, b: Value) {
    || a == b
    || (a.Mapping? && b.Mapping? && a.entries.Keys == b.entries.Keys &&
        forall k :: k in a.entries ==> Equivalent(a.entries[k], b.entries[k]))
    || (a.Sequence? && b.Sequence? && IndexItems(a.items).Named? && IndexItems(b.items).Named? &&
        Children(a).Keys == Children(b).Keys &&
        forall i :: 0 <= i < |a.items| ==> Equivalent(a.items[i], Child(b, Names(a.items)[i])))
  }

  /** A tree of mappings and single values: no sequence in it. */
  ghost predicate MappingTree(v: Value) {
    !v.Sequence? && (v.Mapping? ==> forall k :: k in v.entries ==> MappingTree(v.entries[k]))
  }

  lemma {:induction false} EquivalentTrees(a: Value, b: Value)
    requires Equivalent(a, b) && MappingTree(a)
    ensures a == b
  {
    if a != b {
      forall k | k in a.entries
        ensures a.entries[k] == b.entries[k]
      {
        EquivalentTrees(a.entries[k], b.entries[k]);
      }
    }
  }

  lemma DescendsSwapped(base: Value, ours: Value, theirs: Value, path: Path, depth: nat)
    ensures Descends(base, ours, theirs, path, depth) <==> Descends(base, theirs, ours, path, depth)
    ensures MergesNamed(base, ours, theirs, depth) <==> MergesNamed(base, theirs, ours, depth)
  {
  }

  /** Swapping the sides reports the same conflicts, for any three values. */
  lemma {:induction false} SwapKeepsConflicts(base: Value, ours: Value, theirs: Value, path: Path, depth: nat)
    ensures Merge3(base, ours, theirs, path, depth).conflicts == Merge3(base, theirs, ours, path, depth).conflicts
    decreases STORE_MERGE_DEPTH_MAX - depth
  {
    DescendsSwapped(base, ours, theirs, path, depth);
    if Descends(base, ours, theirs, path, depth) {
      forall k
        ensures Kid(base, ours, theirs, path, depth, k).conflicts == Kid(base, theirs, ours, path, depth, k).conflicts
      {
        SwapKeepsConflicts(Child(base, k), Child(ours, k), Child(theirs, k), path + [k], depth + 1);
      }
      SameConflicts(base, ours, theirs, path, depth);
    } else {
      SwapAtOnce(base, ours, theirs, path, depth);
    }
  }

  lemma SwapAtOnce(base: Value, ours: Value, theirs: Value, path: Path, depth: nat)
    requires !Descends(base, ours, theirs, path, depth) && !Descends(base, theirs, ours, path, depth)
    ensures Merge3(base, ours, theirs, path, depth).conflicts == Merge3(base, theirs, ours, path, depth).conflicts
  {
  }

  lemma SameConflicts(base: Value, ours: Value, theirs: Value, path: Path, depth: nat)
    requires Descends(base, ours, theirs, path, depth) && Descends(base, theirs, ours, path, depth)
    requires forall k :: Kid(base, ours, theirs, path, depth, k).conflicts ==
                         Kid(base, theirs, ours, path, depth, k).conflicts
    ensures Merge3(base, ours, theirs, path, depth).conflicts == Merge3(base, theirs, ours, path, depth).conflicts
  {
    ConflictsBelow(base, ours, theirs, path, depth);
    ConflictsBelow(base, theirs, ours, path, depth);
  }

  lemma ConflictsBelow(base: Value, ours: Value, theirs: Value, path: Path, depth: nat)
    requires Descends(base, ours, theirs, path, depth) && Descends(base, theirs, ours, path, depth)
    requires forall k :: Kid(base, ours, theirs, path, depth, k).conflicts ==
                         Kid(base, theirs, ours, path, depth, k).conflicts
    ensures Merge3(base, ours, theirs, path, depth).conflicts <= Merge3(base, theirs, ours, path, depth).conflicts
  {
    forall p | p in Merge3(base, ours, theirs, path, depth).conflicts
      ensures p in Merge3(base, theirs, ours, path, depth).conflicts
    {
      var k := ConflictOfKid(base, ours, theirs, path, depth, p);
      KidConflicts(base, theirs, ours, path, depth, k);
    }
  }

  lemma SameKeys(a: Value, b: Value)
    requires WellFormed(a) && WellFormed(b)
    requires forall k :: Child(a, k).Absent? <==> Child(b, k).Absent?
    ensures Children(a).Keys == Children(b).Keys
  {
    forall k
      ensures k in Children(a).Keys <==> k in Children(b).Keys
    {
      ChildWellFormed(a, k);
      ChildWellFormed(b, k);
      assert Child(a, k).Absent? <==> Child(b, k).Absent?;
    }
  }

  lemma EquivalentMappings(a: Value, b: Value)
    requires a.Mapping? && b.Mapping? && Children(a).Keys == Children(b).Keys
    requires forall k :: Equivalent(Child(a, k), Child(b, k))
    ensures Equivalent(a, b)
  {
    forall k | k in a.entries
      ensures Equivalent(a.entries[k], b.entries[k])
    {
      assert Equivalent(Child(a, k), Child(b, k));
    }
  }

  lemma EquivalentSequences(a: Value, b: Value)
    requires a.Sequence? && b.Sequence? && Children(a).Keys == Children(b).Keys
    requires IndexItems(a.items).Named? && IndexItems(b.items).Named?
    requires forall k :: Equivalent(Child(a, k), Child(b, k))
    ensures Equivalent(a, b)
  {
    forall i | 0 <= i < |a.items|
      ensures Equivalent(a.items[i], Child(b, Names(a.items)[i]))
    {
      NameAt(a.items, i);
      assert Equivalent(Child(a, Names(a.items)[i]), Child(b, Names(a.items)[i]));
    }
  }

  /** Without a conflict, swapping the sides gives the same value up to the order of named items. */
  lemma {:induction false} SwapKeepsValue(base: Value, ours: Value, theirs: Value, path: Path, depth: nat,
                                          byId: set<Path>)
    requires Inputs(base, ours, theirs, path, byId)
    requires Merge3(base, ours, theirs, path, depth).conflicts == {}
    ensures Equivalent(Merge3(base, ours, theirs, path, depth).value, Merge3(base, theirs, ours, path, depth).value)
    decreases STORE_MERGE_DEPTH_MAX - depth
  {
    DescendsSwapped(base, ours, theirs, path, depth);
    if Descends(base, ours, theirs, path, depth) {
      var a, b := Merge3(base, ours, theirs, path, depth).value, Merge3(base, theirs, ours, path, depth).value;
      forall k
        ensures Equivalent(Child(a, k), Child(b, k))
      {
        SwapsKid(base, ours, theirs, path, depth, byId, k);
        SwapKeepsValue(Child(base, k), Child(ours, k), Child(theirs, k), path + [k], depth + 1, byId);
      }
      LevelKinds(base, ours, theirs, path, depth, byId);
      EquivalentLevels(a, b);
    }
  }

  lemma SwapsKid(base: Value, ours: Value, theirs: Value, path: Path, depth: nat, byId: set<Path>, k: string)
    requires Inputs(base, ours, theirs, path, byId)
    requires Descends(base, ours, theirs, path, depth) && Descends(base, theirs, ours, path, depth)
    requires Merge3(base, ours, theirs, path, depth).conflicts == {}
    ensures Inputs(Child(base, k), Child(ours, k), Child(theirs, k), path + [k], byId)
    ensures Merge3(Child(base, k), Child(ours, k), Child(theirs, k), path + [k], depth + 1).conflicts == {}
    ensures Child(Merge3(base, ours, theirs, path, depth).value, k) ==
            Merge3(Child(base, k), Child(ours, k), Child(theirs, k), path + [k], depth + 1).value
    ensures Child(Merge3(base, theirs, ours, path, depth).value, k) ==
            Merge3(Child(base, k), Child(theirs, k), Child(ours, k), path + [k], depth + 1).value
  {
    LevelValue(base, ours, theirs, path, depth, byId, k);
    LevelValue(base, theirs, ours, path, depth, byId, k);
    KidInputs(base, ours, theirs, path, depth, byId, k);
    KidConflicts(base, ours, theirs, path, depth, k);
  }

  /** The merged levels of both orders of the sides are mappings, or named sequences. */
  lemma LevelKinds(base: Value, ours: Value, theirs: Value, path: Path, depth: nat, byId: set<Path>)
    requires Inputs(base, ours, theirs, path, byId)
    requires Descends(base, ours, theirs, path, depth) && Descends(base, theirs, ours, path, depth)
    ensures SameKind(Merge3(base, ours, theirs, path, depth).value, Merge3(base, theirs, ours, path, depth).value)
  {
    MergeWellFormed(base, ours, theirs, path, depth);
    MergeWellFormed(base, theirs, ours, path, depth);
    LevelKind(base, ours, theirs, path, depth, byId);
    LevelKind(base, theirs, ours, path, depth, byId);
  }

  ghost predicate SameKind(a: Value, b: Value) {
    && WellFormed(a) && WellFormed(b)
    && (|| (a.Mapping? && b.Mapping?)
        || (a.Sequence? && b.Sequence? && IndexItems(a.items).Named? && IndexItems(b.items).Named?))
  }

  lemma EquivalentLevels(a: Value, b: Value)
    requires SameKind(a, b)
    requires forall k :: Equivalent(Child(a, k), Child(b, k))
    ensures Equivalent(a, b)
  {
    forall k
      ensures Child(a, k).Absent? <==> Child(b, k).Absent?
    {
      assert Equivalent(Child(a, k), Child(b, k));
    }
    SameKeys(a, b);
    if a.Mapping? {
      EquivalentMappings(a, b);
    } else {
      EquivalentSequences(a, b);
    }
  }

  /** On trees of mappings the swapped merge is equal, for any such sides. */
  lemma SwapOfTrees(base: Value, ours: Value, theirs: Value, path: Path, depth: nat)
    requires WellFormed(base) && WellFormed(ours) && WellFormed(theirs)
    requires MappingTree(base) && MappingTree(ours) && MappingTree(theirs)
    requires Merge3(base, ours, theirs, path, depth).conflicts == {}
    ensures Merge3(base, ours, theirs, path, depth).value == Merge3(base, theirs, ours, path, depth).value
  {
    TreeIsNamedByOneKey(base, path);
    TreeIsNamedByOneKey(ours, path);
    TreeIsNamedByOneKey(theirs, path);
    SwapKeepsValue(base, ours, theirs, path, depth, {});
    MergeOfTrees(base, ours, theirs, path, depth);
    EquivalentTrees(Merge3(base, ours, theirs, path, depth).value, Merge3(base, theirs, ours, path, depth).value);
  }

  lemma {:induction false} TreeIsNamedByOneKey(v: Value, path: Path)
    requires MappingTree(v)
    ensures NamedByOneKey(v, path, {})
  {
    if v.Mapping? {
      forall k | k in v.entries
        ensures NamedByOneKey(v.entries[k], path + [k], {})
      {
        TreeIsNamedByOneKey(v.entries[k], path + [k]);
      }
    }
  }

  lemma {:induction false} MergeOfTrees(base: Value, ours: Value, theirs: Value, path: Path, depth: nat)
    requires MappingTree(base) && MappingTree(ours) && MappingTree(theirs)
    ensures MappingTree(Merge3(base, ours, theirs, path, depth).value)
    decreases STORE_MERGE_DEPTH_MAX - depth
  {
    if Descends(base, ours, theirs, path, depth) {
      var kids := MergeKids(base, ours, theirs, path, depth);
      forall k | k in kids
        ensures MappingTree(kids[k].value)
      {
        MergeOfTrees(Child(base, k), Child(ours, k), Child(theirs, k), path + [k], depth + 1);
      }
    }
  }
}
