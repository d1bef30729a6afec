/** Which places a store merge reports, in terms of the values of the three sides. */
module StoreMergeConflicts {
  import opened StoreValue
  import opened StoreMerge
  import opened StoreMergeLaws

  // The values of the three sides at one place.
  datatype Sides = Sides(base: Value, ours: Value, theirs: Value) {
    ghost function Below(k: string): Sides {
      Sides(Child(base, k), Child(ours, k), Child(theirs, k))
    }

    ghost function At(q: Path): Sides {
      Sides(Lookup(base, q), Lookup(ours, q), Lookup(theirs, q))
    }

    ghost predicate Differ() {
      AllDiffer(base, ours, theirs)
    }

    ghost predicate MergeBelow(path: Path, depth: nat) {
      Differ() && MergesBelow(base, ours, theirs, path, depth)
    }

    ghost function Merge(path: Path, depth: nat): Merged {
      Merge3(base, ours, theirs, path, depth)
    }
  }

  ghost predicate MergedAt(s: Sides, path: Path, depth: nat, q: Path, i: nat) {
    i <= |q| && s.At(q[..i]).MergeBelow(path + q[..i], depth + i)
  }

  /** All three sides differ at the place and cannot be merged below it, and are merged below each place above it. */
  ghost predicate Reports(s: Sides, path: Path, depth: nat, q: Path) {
    && s.At(q).Differ() && !s.At(q).MergeBelow(path + q, depth + |q|)
    && forall i :: 0 <= i < |q| ==> MergedAt(s, path, depth, q, i)
  }

  /** Every reported path is below the place that is merged. */
  lemma {:induction false} ConflictsAreBelow(s: Sides, path: Path, depth: nat, p: Path)
    requires p in s.Merge(path, depth).conflicts
    ensures path <= p
    ensures Descends(s.base, s.ours, s.theirs, path, depth) ==> |path| < |p| && KidReports(s, path, depth, p[|path|], p)
    decreases STORE_MERGE_DEPTH_MAX - depth
  {
    if Descends(s.base, s.ours, s.theirs, path, depth) {
      var k := ConflictOfKid(s.base, s.ours, s.theirs, path, depth, p);
      ConflictsAreBelow(s.Below(k), path + [k], depth + 1, p);
      assert (path + [k])[|path|] == k;
    }
  }

  ghost predicate KidReports(s: Sides, path: Path, depth: nat, k: string, p: Path) {
    p in s.Below(k).Merge(path + [k], depth + 1).conflicts
  }

  /** A merged level reports what its children report. */
  lemma LevelReports(s: Sides, path: Path, depth: nat, k: string, rest: Path)
    requires Descends(s.base, s.ours, s.theirs, path, depth)
    ensures path + ([k] + rest) in s.Merge(path, depth).conflicts <==>
            (path + [k]) + rest in s.Below(k).Merge(path + [k], depth + 1).conflicts
  {
    var p := path + ([k] + rest);
    PathAssoc(path, k, rest);
    KidConflicts(s.base, s.ours, s.theirs, path, depth, k);
    if p in s.Merge(path, depth).conflicts {
      ConflictsAreBelow(s, path, depth, p);
    }
  }

  lemma AtBelow(s: Sides, k: string, rest: Path)
    ensures s.At([k] + rest) == s.Below(k).At(rest)
  {
    assert ([k] + rest)[1..] == rest;
  }

  lemma MergedAtBelow(s: Sides, path: Path, depth: nat, k: string, rest: Path, i: nat)
    requires i <= |rest|
    ensures MergedAt(s, path, depth, [k] + rest, i + 1) <==> MergedAt(s.Below(k), path + [k], depth + 1, rest, i)
  {
    assert ([k] + rest)[..i + 1] == [k] + rest[..i];
    AtBelow(s, k, rest[..i]);
    PathAssoc(path, k, rest[..i]);
  }

  /** Below a merged level the condition is that of the child. */
  lemma ReportsBelow(s: Sides, path: Path, depth: nat, k: string, rest: Path)
    requires s.MergeBelow(path, depth)
    ensures Reports(s, path, depth, [k] + rest) <==> Reports(s.Below(k), path + [k], depth + 1, rest)
  {
    var q, child, at, next := [k] + rest, s.Below(k), path + [k], depth + 1;
    AtBelow(s, k, rest);
    PathAssoc(path, k, rest);
    if Reports(s, path, depth, q) {
      forall i | 0 <= i < |rest| ensures MergedAt(child, at, next, rest, i) {
        MergedAtBelow(s, path, depth, k, rest, i);
      }
    }
    if Reports(s.Below(k), path + [k], depth + 1, rest) {
      forall i | 0 <= i < |q| ensures MergedAt(s, path, depth, q, i) {
        if i == 0 {
          assert q[..0] == [] && path + [] == path;
        } else {
          MergedAtBelow(s, path, depth, k, rest, i - 1);
        }
      }
    }
  }

  lemma ReportsAtOnce(s: Sides, path: Path, depth: nat, q: Path)
    requires !s.MergeBelow(path, depth)
    ensures Reports(s, path, depth, q) <==> q == [] && s.Differ()
  {
    if q == [] {
      assert path + q == path;
    } else {
      assert q[..0] == [] && path + [] == path;
      assert !MergedAt(s, path, depth, q, 0);
    }
  }

  lemma MergeAtOnce(s: Sides, path: Path, depth: nat, q: Path)
    requires !s.MergeBelow(path, depth)
    ensures path + q in s.Merge(path, depth).conflicts <==> q == [] && s.Differ()
  {
    DescendsIff(s.base, s.ours, s.theirs, path, depth);
    assert path + q == path <==> q == [];
  }

  lemma NotHere(s: Sides, path: Path, depth: nat)
    requires s.MergeBelow(path, depth)
    ensures path + [] !in s.Merge(path, depth).conflicts && !Reports(s, path, depth, [])
  {
    DescendsIff(s.base, s.ours, s.theirs, path, depth);
    assert path + [] == path;
    if path in s.Merge(path, depth).conflicts {
      ConflictsAreBelow(s, path, depth, path);
    }
  }

  /**
   * A place is reported exactly when all three sides differ there and cannot be merged below it, and each place
   * above it is merged below. They can be merged below when it is not the list of todos, the depth is less than 32,
   * and both sides are mappings over a mapping or none, or sequences of named items over such a sequence or none.
   */
  lemma {:induction false} ConflictIff(s: Sides, path: Path, depth: nat, q: Path)
    ensures path + q in s.Merge(path, depth).conflicts <==> Reports(s, path, depth, q)
    decreases |q|
  {
    if !s.MergeBelow(path, depth) {
      ReportsAtOnce(s, path, depth, q);
      MergeAtOnce(s, path, depth, q);
    } else if q == [] {
      NotHere(s, path, depth);
    } else {
      var k, rest := q[0], q[1..];
      PathHead(q);
      DescendsIff(s.base, s.ours, s.theirs, path, depth);
      LevelReports(s, path, depth, k, rest);
      ReportsBelow(s, path, depth, k, rest);
      ConflictIff(s.Below(k), path + [k], depth + 1, rest);
    }
  }

  /** A whole store that is not a mapping counts as an empty one. */
  ghost function StoreSides(base: Value, ours: Value, theirs: Value): Sides {
    Sides(if base.Mapping? then base else Mapping(map[]), if ours.Mapping? then ours else Mapping(map[]),
          if theirs.Mapping? then theirs else Mapping(map[]))
  }

  lemma StoreConflictIff(base: Value, ours: Value, theirs: Value, q: Path)
    ensures q in MergeStores(base, ours, theirs).conflicts <==> Reports(StoreSides(base, ours, theirs), [], 0, q)
  {
    ConflictIff(StoreSides(base, ours, theirs), [], 0, q);
    assert [] + q == q;
  }

  // ---------------------------------------------------------------- changes of different keys

  /** At most one side changed the value, or both made the same change. */
  ghost predicate OneChange(s: Sides) {
    s.base == s.ours || s.base == s.theirs || s.ours == s.theirs
  }

  ghost function Change(s: Sides): Value {
    if s.base == s.ours then s.theirs else s.ours
  }

  lemma OneChangeMerges(s: Sides, path: Path, depth: nat)
    requires OneChange(s)
    ensures s.Merge(path, depth) == Merged(Change(s), {})
  {
  }

  /** Two mappings, over a mapping or none, that changed no key in two ways are merged to both changes. */
  lemma ChangesOfKeysUnite(s: Sides, path: Path, depth: nat)
    requires s.ours.Mapping? && s.theirs.Mapping? && (s.base.Absent? || s.base.Mapping?)
    requires path != ["todos"] && depth < 32 && forall k :: OneChange(s.Below(k))
    ensures s.Merge(path, depth).conflicts == {} && s.Merge(path, depth).value.Mapping?
    ensures forall k :: Child(s.Merge(path, depth).value, k) == Change(s.Below(k))
  {
    if s.Differ() {
      DescendsIff(s.base, s.ours, s.theirs, path, depth);
      forall k ensures Child(s.Merge(path, depth).value, k) == Change(s.Below(k)) {
        KeysLevel(s.base, s.ours, s.theirs, path, depth, k);
        OneChangeMerges(s.Below(k), path + [k], depth + 1);
      }
      if p :| p in s.Merge(path, depth).conflicts {
        var k := ConflictOfKid(s.base, s.ours, s.theirs, path, depth, p);
        OneChangeMerges(s.Below(k), path + [k], depth + 1);
      }
    }
  }

  /** Mappings that both sides add, with no key in common, are merged to their union. */
  lemma AddedMappingsUnite(a: map<string, Value>, b: map<string, Value>, path: Path, depth: nat)
    requires WellFormed(Mapping(a)) && WellFormed(Mapping(b)) && a.Keys !! b.Keys
    requires path != ["todos"] && depth < 32
    ensures Merge3(Absent, Mapping(a), Mapping(b), path, depth) == Merged(Mapping(a + b), {})
  {
    var s := Sides(Absent, Mapping(a), Mapping(b));
    ChangesOfKeysUnite(s, path, depth);
    MergeWellFormed(Absent, Mapping(a), Mapping(b), path, depth);
    forall k ensures Child(s.Merge(path, depth).value, k) == Child(Mapping(a + b), k) {
      assert Child(s.Merge(path, depth).value, k) == Change(s.Below(k));
    }
    SameMapping(s.Merge(path, depth).value, Mapping(a + b));
  }
}
