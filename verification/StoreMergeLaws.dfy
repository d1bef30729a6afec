/** What a store merge keeps: no update is lost, sides swap, and merging again changes nothing. */
module StoreMergeLaws {
  import opened StoreValue
  import opened StoreMerge

  // ---------------------------------------------------------------- the merge, child by child

  ghost predicate Descends(base: Value, ours: Value, theirs: Value, path: Path, depth: nat) {
    && ours != theirs && base != theirs && base != ours && path != ["todos"]
    && (MergesNamed(base, ours, theirs, depth) || MergesKeys(base, ours, theirs, depth))
  }

  /** What is merged below its place: two mappings, or two sequences of named items, over such a base or none. */
  ghost predicate MergesBelow(base: Value, ours: Value, theirs: Value, path: Path, depth: nat) {
    && path != ["todos"] && depth < 32
    && if ours.Mapping? then theirs.Mapping? && (base.Absent? || base.Mapping?)
       else ours.Sequence? && theirs.Sequence? && HasNames(base) && HasNames(ours) && HasNames(theirs)
  }

  ghost predicate AllDiffer(base: Value, ours: Value, theirs: Value) {
    ours != theirs && base != theirs && base != ours
  }

  lemma DescendsIff(base: Value, ours: Value, theirs: Value, path: Path, depth: nat)
    ensures Descends(base, ours, theirs, path, depth) <==>
            AllDiffer(base, ours, theirs) && MergesBelow(base, ours, theirs, path, depth)
  {
    HasNamesIff(base);
    HasNamesIff(ours);
    HasNamesIff(theirs);
  }

  ghost function Kid(base: Value, ours: Value, theirs: Value, path: Path, depth: nat, k: string): Merged {
    Merge3(Child(base, k), Child(ours, k), Child(theirs, k), path + [k], depth + 1)
  }

  /** The names whose merged item is present, in order. */
  ghost function Surviving(names: seq<string>, kids: map<string, Merged>): (kept: seq<string>)
    requires forall n :: n in names ==> n in kids
    ensures forall n :: n in kept <==> n in names && !kids[n].value.Absent?
  {
    if names == [] then []
    else (if kids[names[0]].value.Absent? then [] else [names[0]]) + Surviving(names[1..], kids)
  }

  lemma Regroup(a: seq<string>, b: seq<string>, c: seq<string>)
    ensures a + (b + c) == (a + b) + c
  {
  }

  lemma {:induction false} SurvivingConcat(a: seq<string>, b: seq<string>, kids: map<string, Merged>)
    requires forall n :: n in a + b ==> n in kids
    ensures Surviving(a + b, kids) == Surviving(a, kids) + Surviving(b, kids)
  {
    if a == [] {
      assert a + b == b;
    } else {
      var (first, rest) := (a[0], a[1..]);
      assert a + b == [first] + (rest + b) && (a + b)[1..] == rest + b;
      SurvivingConcat(rest, b, kids);
      Regroup(if kids[first].value.Absent? then [] else [first], Surviving(rest, kids), Surviving(b, kids));
    }
  }

  lemma {:induction false} SurvivingAll(names: seq<string>, kids: map<string, Merged>)
    requires forall n :: n in names ==> n in kids && !kids[n].value.Absent?
    ensures Surviving(names, kids) == names
  {
    if names != [] {
      SurvivingAll(names[1..], kids);
    }
  }

  lemma {:induction false} OnlyInDistinct(names: seq<string>, other: map<string, Value>)
    requires Distinct(names)
    ensures Distinct(OnlyIn(names, other))
  {
    if names != [] {
      assert names[0] !in names[1..];
      OnlyInDistinct(names[1..], other);
    }
  }

  lemma DistinctConcat(a: seq<string>, b: seq<string>)
    requires Distinct(a) && Distinct(b)
    requires forall n :: n in a ==> n !in b
    ensures Distinct(a + b)
  {
    var c := a + b;
    forall i, j | 0 <= i < j < |c|
      ensures c[i] != c[j]
    {
      if i < |a| <= j {
        assert a[i] in a && b[j - |a|] in b;
      }
    }
  }

  lemma VisitOrderDistinct(ours: seq<Value>, theirs: seq<Value>)
    requires IndexItems(ours).Named? && IndexItems(theirs).Named?
    ensures Distinct(VisitOrder(ours, theirs))
  {
    NamesDistinct(ours);
    NamesDistinct(theirs);
    OnlyInDistinct(Names(theirs), IndexItems(ours).byName);
    DistinctConcat(Names(ours), OnlyIn(Names(theirs), IndexItems(ours).byName));
  }

  /** Collected items that keep their names are a named sequence, in the order of the names. */
  lemma {:induction false} CollectIsNamed(names: seq<string>, kids: map<string, Merged>)
    requires Distinct(names)
    requires forall n :: n in names ==>
               n in kids && (kids[n].value.Absent? || ItemName(kids[n].value) == Str(n))
    ensures IndexItems(Collect(names, kids)).Named?
    ensures Names(Collect(names, kids)) == Surviving(names, kids)
    ensures forall n :: n in names && !kids[n].value.Absent? ==>
              IndexItems(Collect(names, kids)).byName[n] == kids[n].value
  {
    if names != [] {
      var n, rest := names[0], Collect(names[1..], kids);
      CollectIsNamed(names[1..], kids);
      assert n !in names[1..];
      if kids[n].value.Absent? {
        assert Collect(names, kids) == rest;
      } else {
        assert Collect(names, kids) == [kids[n].value] + rest;
        ConsNamed(n, kids[n].value, rest);
      }
    }
  }

  // ---------------------------------------------------------------- names that the merge keeps

  /**
   * Each named sequence of the store names all its items by one key: those at the places of
   * byId by "canonical_id", the others by "name". The sides of a merge agree on it.
   */
  ghost predicate NamedByOneKey(v: Value, path: Path, byId: set<Path>) {
    match v
    case Mapping(m) => forall k :: k in m ==> NamedByOneKey(m[k], path + [k], byId)
    case Sequence(items) =>
      IndexItems(items).Named? ==>
        forall i :: 0 <= i < |items| ==>
          && KeyedAs(items[i], path in byId)
          && NamedByOneKey(items[i], path + [Names(items)[i]], byId)
    case _ => true
  }

  predicate KeyedAs(item: Value, byId: bool) {
    Get(item, "name").Str? <==> !byId
  }

  ghost predicate Ready(v: Value, path: Path, byId: set<Path>) {
    WellFormed(v) && NamedByOneKey(v, path, byId)
  }

  lemma ReadyChild(v: Value, path: Path, byId: set<Path>, k: string)
    requires Ready(v, path, byId)
    ensures Ready(Child(v, k), path + [k], byId)
    ensures v.Sequence? && IndexItems(v.items).Named? ==> KeepsName(Child(v, k), k, path in byId)
  {
    ChildWellFormed(v, k);
    if v.Sequence? && k in Children(v) {
      var i := IndexEntry(v.items, k);
    }
  }

  ghost predicate KeepsName(v: Value, n: string, byId: bool) {
    v.Absent? || (v.Mapping? && ItemName(v) == Str(n) && KeyedAs(v, byId))
  }

  lemma NotVisited(base: Value, ours: Value, theirs: Value, path: Path, depth: nat, k: string)
    requires k !in Visited(base, ours, theirs, depth)
    ensures Kid(base, ours, theirs, path, depth, k) == Merged(Absent, {})
  {
    assert Child(ours, k) == Absent && Child(theirs, k) == Absent;
  }

  /** A merged mapping holds at every key the merge of what is there. */
  lemma KeysLevel(base: Value, ours: Value, theirs: Value, path: Path, depth: nat, k: string)
    requires Descends(base, ours, theirs, path, depth) && MergesKeys(base, ours, theirs, depth)
    ensures Child(Merge3(base, ours, theirs, path, depth).value, k) == Kid(base, ours, theirs, path, depth, k).value
  {
    var kids := MergeKids(base, ours, theirs, path, depth);
    if k !in kids {
      NotVisited(base, ours, theirs, path, depth, k);
    }
  }

  lemma MergeOfOthers(base: Value, ours: Value, theirs: Value, path: Path, depth: nat)
    requires !base.Str? && !ours.Str? && !theirs.Str?
    ensures !Merge3(base, ours, theirs, path, depth).value.Str?
  {
  }

  /** The merge of three items of one name, named by one key, is absent or keeps that name. */
  lemma MergeKeepsName(base: Value, ours: Value, theirs: Value, path: Path, depth: nat, n: string, byId: bool)
    requires KeepsName(base, n, byId) && KeepsName(ours, n, byId) && KeepsName(theirs, n, byId)
    ensures KeepsName(Merge3(base, ours, theirs, path, depth).value, n, byId)
  {
    var m := Merge3(base, ours, theirs, path, depth).value;
    if Descends(base, ours, theirs, path, depth) {
      KeysLevel(base, ours, theirs, path, depth, "name");
      KeysLevel(base, ours, theirs, path, depth, "canonical_id");
      if byId {
        MergeOfOthers(Child(base, "name"), Child(ours, "name"), Child(theirs, "name"), path + ["name"], depth + 1);
      }
    }
  }

  ghost predicate Inputs(base: Value, ours: Value, theirs: Value, path: Path, byId: set<Path>) {
    Ready(base, path, byId) && Ready(ours, path, byId) && Ready(theirs, path, byId)
  }

  lemma KidInputs(base: Value, ours: Value, theirs: Value, path: Path, depth: nat, byId: set<Path>, k: string)
    requires Inputs(base, ours, theirs, path, byId)
    ensures Inputs(Child(base, k), Child(ours, k), Child(theirs, k), path + [k], byId)
    ensures MergesNamed(base, ours, theirs, depth) ==>
              KeepsName(Kid(base, ours, theirs, path, depth, k).value, k, path in byId)
  {
    ReadyChild(base, path, byId, k);
    ReadyChild(ours, path, byId, k);
    ReadyChild(theirs, path, byId, k);
    if MergesNamed(base, ours, theirs, depth) {
      MergeKeepsName(Child(base, k), Child(ours, k), Child(theirs, k), path + [k], depth + 1, k, path in byId);
    }
  }

  // ---------------------------------------------------------------- one level of a merge

  /** Made of items that keep their names, the merged sequence is a named one. */
  lemma NamedLevel(base: Value, ours: Value, theirs: Value, depth: nat, kids: map<string, Merged>)
    requires kids.Keys == Visited(base, ours, theirs, depth) && MergesNamed(base, ours, theirs, depth)
    requires forall n :: n in kids ==> kids[n].value.Absent? || ItemName(kids[n].value) == Str(n)
    ensures var v := Assemble(base, ours, theirs, depth, kids);
            && IndexItems(v.items).Named?
            && Names(v.items) == Surviving(VisitOrder(ours.items, theirs.items), kids)
            && (forall n :: n in Names(v.items) ==> IndexItems(v.items).byName[n] == kids[n].value)
  {
    VisitOrderDistinct(ours.items, theirs.items);
    CollectIsNamed(VisitOrder(ours.items, theirs.items), kids);
  }

  lemma ChildByName(v: Value, names: seq<string>, kids: map<string, Merged>, k: string)
    requires forall n :: n in names <==> n in kids
    requires v.Sequence? && IndexItems(v.items).Named? && Names(v.items) == Surviving(names, kids)
    requires forall n :: n in Names(v.items) ==> IndexItems(v.items).byName[n] == kids[n].value
    ensures Child(v, k) == if k in kids then kids[k].value else Absent
  {
    assert k in Children(v) <==> k in Names(v.items);
  }

  lemma NamedLevelChild(base: Value, ours: Value, theirs: Value, depth: nat, kids: map<string, Merged>, k: string)
    requires kids.Keys == Visited(base, ours, theirs, depth) && MergesNamed(base, ours, theirs, depth)
    requires forall n :: n in kids ==> kids[n].value.Absent? || ItemName(kids[n].value) == Str(n)
    ensures Child(Assemble(base, ours, theirs, depth, kids), k) ==
            if k in kids then kids[k].value else Absent
  {
    var names := VisitOrder(ours.items, theirs.items);
    assert forall n :: n in names <==> n in kids;
    NamedLevel(base, ours, theirs, depth, kids);
    ChildByName(Assemble(base, ours, theirs, depth, kids), names, kids, k);
  }

  lemma NamedKids(base: Value, ours: Value, theirs: Value, path: Path, depth: nat, byId: set<Path>)
    requires Inputs(base, ours, theirs, path, byId) && MergesNamed(base, ours, theirs, depth)
    ensures var kids := MergeKids(base, ours, theirs, path, depth);
            forall n :: n in kids ==> kids[n].value.Absent? || ItemName(kids[n].value) == Str(n)
  {
    var kids := MergeKids(base, ours, theirs, path, depth);
    forall n | n in kids
      ensures kids[n].value.Absent? || ItemName(kids[n].value) == Str(n)
    {
      KidInputs(base, ours, theirs, path, depth, byId, n);
    }
  }

  /** At every key or name the merge holds the merge of what is there. */
  lemma LevelValue(base: Value, ours: Value, theirs: Value, path: Path, depth: nat, byId: set<Path>, k: string)
    requires Inputs(base, ours, theirs, path, byId)
    requires Descends(base, ours, theirs, path, depth)
    ensures Child(Merge3(base, ours, theirs, path, depth).value, k) == Kid(base, ours, theirs, path, depth, k).value
  {
    var kids := MergeKids(base, ours, theirs, path, depth);
    if MergesNamed(base, ours, theirs, depth) {
      NamedKids(base, ours, theirs, path, depth, byId);
      NamedLevelChild(base, ours, theirs, depth, kids, k);
      if k !in kids {
        NotVisited(base, ours, theirs, path, depth, k);
      }
    } else {
      KeysLevel(base, ours, theirs, path, depth, k);
    }
  }

  /** The conflicts of a merged level are those of its children. */
  lemma KidConflicts(base: Value, ours: Value, theirs: Value, path: Path, depth: nat, k: string)
    requires Descends(base, ours, theirs, path, depth)
    ensures Kid(base, ours, theirs, path, depth, k).conflicts <= Merge3(base, ours, theirs, path, depth).conflicts
  {
    var kids := MergeKids(base, ours, theirs, path, depth);
    if k !in kids {
      NotVisited(base, ours, theirs, path, depth, k);
    } else {
      assert kids[k].conflicts <= AllConflicts(kids);
    }
  }

  lemma ConflictOfKid(base: Value, ours: Value, theirs: Value, path: Path, depth: nat, p: Path) returns (k: string)
    requires Descends(base, ours, theirs, path, depth)
    requires p in Merge3(base, ours, theirs, path, depth).conflicts
    ensures p in Kid(base, ours, theirs, path, depth, k).conflicts
  {
    var kids := MergeKids(base, ours, theirs, path, depth);
    k :| k in kids && p in kids[k].conflicts;
  }

  // ---------------------------------------------------------------- no update is lost

  // The values of the three sides and of the merge at one place.
  datatype Place = Place(base: Value, ours: Value, theirs: Value, merged: Value) {
    ghost function Below(k: string): Place {
      Place(Child(base, k), Child(ours, k), Child(theirs, k), Child(merged, k))
    }

    ghost function At(q: Path): Place {
      Place(Lookup(base, q), Lookup(ours, q), Lookup(theirs, q), Lookup(merged, q))
    }

    /** The merge has the change of the one side that made it; a change of both is merged below. */
    ghost predicate Resolved(p: Path, depth: nat) {
      && (base == ours ==> merged == theirs)
      && (base == theirs ==> merged == ours)
      && (ours == theirs ==> merged == ours)
      && (AllDiffer(base, ours, theirs) ==> MergesBelow(base, ours, theirs, p, depth))
    }

    /** All three sides differ, they are not merged below this place, and ours is kept. */
    ghost predicate Conflicting(p: Path, depth: nat) {
      AllDiffer(base, ours, theirs) && !MergesBelow(base, ours, theirs, p, depth) && merged == ours
    }
  }

  ghost function MergePlace(base: Value, ours: Value, theirs: Value, path: Path, depth: nat): Place {
    Place(base, ours, theirs, Merge3(base, ours, theirs, path, depth).value)
  }

  ghost function KidPlace(base: Value, ours: Value, theirs: Value, path: Path, depth: nat, k: string): Place {
    MergePlace(Child(base, k), Child(ours, k), Child(theirs, k), path + [k], depth + 1)
  }

  lemma PlaceBelow(base: Value, ours: Value, theirs: Value, path: Path, depth: nat, byId: set<Path>, k: string, q: Path)
    requires Inputs(base, ours, theirs, path, byId) && Descends(base, ours, theirs, path, depth)
    ensures MergePlace(base, ours, theirs, path, depth).At([k] + q) ==
            KidPlace(base, ours, theirs, path, depth, k).At(q)
  {
    LevelValue(base, ours, theirs, path, depth, byId, k);
    assert MergePlace(base, ours, theirs, path, depth).Below(k) == KidPlace(base, ours, theirs, path, depth, k);
    assert ([k] + q)[1..] == q;
  }

  lemma PathAssoc(path: Path, k: string, q: Path)
    ensures (path + [k]) + q == path + ([k] + q)
  {
  }

  lemma PathEnd(path: Path)
    ensures path + [] == path
  {
  }

  lemma PathHead(q: Path)
    requires q != []
    ensures q == [q[0]] + q[1..]
  {
  }

  ghost predicate NoneAbove(path: Path, q: Path, conflicts: set<Path>) {
    forall i :: 0 <= i <= |q| ==> path + q[..i] !in conflicts
  }

  lemma NoneHere(path: Path, q: Path, conflicts: set<Path>)
    requires NoneAbove(path, q, conflicts)
    ensures path !in conflicts
  {
    assert path + q[..0] == path;
  }

  lemma NoneAboveStep(path: Path, k: string, q: Path, conflicts: set<Path>)
    requires NoneAbove(path, [k] + q, conflicts)
    ensures NoneAbove(path + [k], q, conflicts)
  {
    forall i | 0 <= i <= |q|
      ensures (path + [k]) + q[..i] !in conflicts
    {
      assert (path + [k]) + q[..i] == path + ([k] + q)[..i + 1];
    }
  }

  lemma ResolvedAtOnce(base: Value, ours: Value, theirs: Value, path: Path, depth: nat, q: Path,
                       p: Path, d: nat)
    requires path !in Merge3(base, ours, theirs, path, depth).conflicts
    requires q == [] || !Descends(base, ours, theirs, path, depth)
    requires p == path + q && d == depth + |q|
    ensures MergePlace(base, ours, theirs, path, depth).At(q).Resolved(p, d)
  {
    PathEnd(path);
    if Descends(base, ours, theirs, path, depth) {
      DescendsIff(base, ours, theirs, path, depth);
    } else {
      assert !AllDiffer(base, ours, theirs);
    }
  }

  lemma {:induction false} UpdateAt(base: Value, ours: Value, theirs: Value, path: Path, depth: nat,
                                    byId: set<Path>, q: Path, p: Path, d: nat) returns (at: Place)
    requires Inputs(base, ours, theirs, path, byId)
    requires NoneAbove(path, q, Merge3(base, ours, theirs, path, depth).conflicts)
    requires p == path + q && d == depth + |q|
    ensures MergePlace(base, ours, theirs, path, depth).At(q) == at && at.Resolved(p, d)
    decreases |q|
  {
    NoneHere(path, q, Merge3(base, ours, theirs, path, depth).conflicts);
    if q != [] && Descends(base, ours, theirs, path, depth) {
      var k, rest := q[0], q[1..];
      PathHead(q);
      KidConflicts(base, ours, theirs, path, depth, k);
      KidInputs(base, ours, theirs, path, depth, byId, k);
      NoneAboveStep(path, k, rest, Merge3(base, ours, theirs, path, depth).conflicts);
      PathAssoc(path, k, rest);
      at := UpdateAt(Child(base, k), Child(ours, k), Child(theirs, k), path + [k], depth + 1, byId, rest, p, d);
      PlaceBelow(base, ours, theirs, path, depth, byId, k, rest);
    } else {
      at := MergePlace(base, ours, theirs, path, depth).At(q);
      ResolvedAtOnce(base, ours, theirs, path, depth, q, p, d);
    }
  }

  /**
   * At every place with no conflict at it or above it, the merge has the change of the one side that
   * made it, and where both sides changed the value it merged what is below.
   */
  lemma NoUpdateIsLost(base: Value, ours: Value, theirs: Value, path: Path, depth: nat, byId: set<Path>, q: Path)
    requires Inputs(base, ours, theirs, path, byId)
    requires NoneAbove(path, q, Merge3(base, ours, theirs, path, depth).conflicts)
    ensures MergePlace(base, ours, theirs, path, depth).At(q).Resolved(path + q, depth + |q|)
  {
    var at := UpdateAt(base, ours, theirs, path, depth, byId, q, path + q, depth + |q|);
  }

  lemma ConflictStep(base: Value, ours: Value, theirs: Value, path: Path, depth: nat, byId: set<Path>, p: Path)
    returns (k: string)
    requires Inputs(base, ours, theirs, path, byId) && Descends(base, ours, theirs, path, depth)
    requires p in Merge3(base, ours, theirs, path, depth).conflicts
    ensures Inputs(Child(base, k), Child(ours, k), Child(theirs, k), path + [k], byId)
    ensures p in Merge3(Child(base, k), Child(ours, k), Child(theirs, k), path + [k], depth + 1).conflicts
  {
    k := ConflictOfKid(base, ours, theirs, path, depth, p);
    KidInputs(base, ours, theirs, path, depth, byId, k);
  }

  lemma ConflictAtOnce(base: Value, ours: Value, theirs: Value, path: Path, depth: nat, p: Path)
    requires p in Merge3(base, ours, theirs, path, depth).conflicts
    requires !Descends(base, ours, theirs, path, depth)
    ensures p == path + []
    ensures MergePlace(base, ours, theirs, path, depth).Conflicting(p, depth)
  {
    PathEnd(path);
    DescendsIff(base, ours, theirs, path, depth);
  }

  /** A reported path, with the place that it names and the depth of that. */
  lemma {:induction false} ConflictPlace(base: Value, ours: Value, theirs: Value, path: Path, depth: nat,
                                         byId: set<Path>, p: Path) returns (q: Path, at: Place, d: nat)
    requires Inputs(base, ours, theirs, path, byId)
    requires p in Merge3(base, ours, theirs, path, depth).conflicts
    ensures p == path + q && d == depth + |q| && MergePlace(base, ours, theirs, path, depth).At(q) == at
    ensures at.Conflicting(p, d)
    decreases STORE_MERGE_DEPTH_MAX - depth
  {
    if Descends(base, ours, theirs, path, depth) {
      var k := ConflictStep(base, ours, theirs, path, depth, byId, p);
      var rest;
      rest, at, d := ConflictPlace(Child(base, k), Child(ours, k), Child(theirs, k), path + [k], depth + 1, byId, p);
      PlaceBelow(base, ours, theirs, path, depth, byId, k, rest);
      PathAssoc(path, k, rest);
      q := [k] + rest;
    } else {
      q, at, d := [], MergePlace(base, ours, theirs, path, depth), depth;
      ConflictAtOnce(base, ours, theirs, path, depth, p);
    }
  }

  /** Every reported path is a place below the merged values where all differ and ours is kept. */
  lemma ConflictKeepsOurs(base: Value, ours: Value, theirs: Value, path: Path, depth: nat,
                          byId: set<Path>, p: Path) returns (q: Path)
    requires Inputs(base, ours, theirs, path, byId)
    requires p in Merge3(base, ours, theirs, path, depth).conflicts
    ensures p == path + q
    ensures MergePlace(base, ours, theirs, path, depth).At(q).Conflicting(p, depth + |q|)
  {
    var at, d;
    q, at, d := ConflictPlace(base, ours, theirs, path, depth, byId, p);
  }

  // ---------------------------------------------------------------- merging again changes nothing

  /** The merge of well-formed values is well formed. */
  lemma {:induction false} MergeWellFormed(base: Value, ours: Value, theirs: Value, path: Path, depth: nat)
    requires WellFormed(base) && WellFormed(ours) && WellFormed(theirs)
    ensures WellFormed(Merge3(base, ours, theirs, path, depth).value)
    decreases STORE_MERGE_DEPTH_MAX - depth
  {
    if Descends(base, ours, theirs, path, depth) {
      forall k | k in Visited(base, ours, theirs, depth)
        ensures WellFormed(Merge3(Child(base, k), Child(ours, k), Child(theirs, k), path + [k], depth + 1).value)
      {
        ChildrenWellFormed(base, ours, theirs, k);
        MergeWellFormed(Child(base, k), Child(ours, k), Child(theirs, k), path + [k], depth + 1);
      }
      LevelWellFormed(base, ours, theirs, path, depth);
    }
  }

  lemma LevelWellFormed(base: Value, ours: Value, theirs: Value, path: Path, depth: nat)
    requires Descends(base, ours, theirs, path, depth)
    requires forall k :: k in Visited(base, ours, theirs, depth) ==>
               WellFormed(Merge3(Child(base, k), Child(ours, k), Child(theirs, k), path + [k], depth + 1).value)
    ensures WellFormed(Merge3(base, ours, theirs, path, depth).value)
  {
    AssembleWellFormed(base, ours, theirs, depth, MergeKids(base, ours, theirs, path, depth));
  }

  lemma ChildrenWellFormed(base: Value, ours: Value, theirs: Value, k: string)
    requires WellFormed(base) && WellFormed(ours) && WellFormed(theirs)
    ensures WellFormed(Child(base, k)) && WellFormed(Child(ours, k)) && WellFormed(Child(theirs, k))
  {
    ChildWellFormed(base, k);
    ChildWellFormed(ours, k);
    ChildWellFormed(theirs, k);
  }

  lemma AssembleWellFormed(base: Value, ours: Value, theirs: Value, depth: nat, kids: map<string, Merged>)
    requires kids.Keys == Visited(base, ours, theirs, depth)
    requires forall k :: k in kids ==> WellFormed(kids[k].value)
    ensures WellFormed(Assemble(base, ours, theirs, depth, kids))
  {
    if MergesNamed(base, ours, theirs, depth) {
      CollectWellFormed(VisitOrder(ours.items, theirs.items), kids);
    }
  }

  lemma {:induction false} CollectWellFormed(names: seq<string>, kids: map<string, Merged>)
    requires forall n :: n in names ==> n in kids && WellFormed(kids[n].value)
    ensures WellFormed(Sequence(Collect(names, kids)))
  {
    if names != [] {
      CollectWellFormed(names[1..], kids);
    }
  }

  /** A merge that gives theirs reports nothing. */
  lemma TheirsIsNoConflict(base: Value, ours: Value, theirs: Value, path: Path, depth: nat, byId: set<Path>)
    requires Inputs(base, ours, theirs, path, byId)
    requires Merge3(base, ours, theirs, path, depth).value == theirs
    ensures Merge3(base, ours, theirs, path, depth).conflicts == {}
  {
    if p :| p in Merge3(base, ours, theirs, path, depth).conflicts {
      var q := ConflictKeepsOurs(base, ours, theirs, path, depth, byId, p);
    }
  }

  /** With the same children at every name, the merge keeps ours and its order. */
  lemma SameNamesMerge(base: Value, ours: Value, theirs: Value, depth: nat, kids: map<string, Merged>)
    requires kids.Keys == Visited(base, ours, theirs, depth) && MergesNamed(base, ours, theirs, depth)
    requires forall n :: n in kids ==> kids[n].value.Absent? || ItemName(kids[n].value) == Str(n)
    requires forall n :: n in kids ==> kids[n].value == Child(ours, n)
    requires WellFormed(ours)
    ensures Assemble(base, ours, theirs, depth, kids) == ours
  {
    var v := Assemble(base, ours, theirs, depth, kids);
    var first, second := Names(ours.items), OnlyIn(Names(theirs.items), IndexItems(ours.items).byName);
    NamedLevel(base, ours, theirs, depth, kids);
    forall n | n in first
      ensures n in kids && !kids[n].value.Absent?
    {
      ChildWellFormed(ours, n);
    }
    SurvivingConcat(first, second, kids);
    SurvivingAll(first, kids);
    SurvivingNone(second, kids);
    forall n | n in Names(v.items)
      ensures Child(v, n) == Child(ours, n)
    {
      NamedLevelChild(base, ours, theirs, depth, kids, n);
    }
    SameSequence(v, ours);
  }

  lemma {:induction false} SurvivingNone(names: seq<string>, kids: map<string, Merged>)
    requires forall n :: n in names ==> n in kids && kids[n].value.Absent?
    ensures Surviving(names, kids) == []
  {
    if names != [] {
      SurvivingNone(names[1..], kids);
    }
  }

  /** The value of a merged level is ours when every child keeps ours. */
  lemma KeptAsOurs(base: Value, ours: Value, theirs: Value, path: Path, depth: nat, byId: set<Path>)
    requires Inputs(base, ours, theirs, path, byId)
    requires Descends(base, ours, theirs, path, depth)
    requires forall k :: Kid(base, ours, theirs, path, depth, k).value == Child(ours, k)
    ensures Merge3(base, ours, theirs, path, depth).value == ours
  {
    var kids := MergeKids(base, ours, theirs, path, depth);
    assert forall k :: k in kids ==> kids[k] == Kid(base, ours, theirs, path, depth, k);
    if MergesNamed(base, ours, theirs, depth) {
      NamedKids(base, ours, theirs, path, depth, byId);
      SameNamesMerge(base, ours, theirs, depth, kids);
    } else {
      var m := Merge3(base, ours, theirs, path, depth).value;
      MergeWellFormed(base, ours, theirs, path, depth);
      forall k
        ensures Child(m, k) == Child(ours, k)
      {
        KeysLevel(base, ours, theirs, path, depth, k);
      }
      SameMapping(m, ours);
    }
  }

  /** A merge gives the base only when nothing changed: below the early exits it never does. */
  lemma {:induction false} MergeIsNeverBase(base: Value, ours: Value, theirs: Value, path: Path, depth: nat,
                                            byId: set<Path>)
    requires Inputs(base, ours, theirs, path, byId)
    requires Merge3(base, ours, theirs, path, depth).value == base
    ensures base == ours && base == theirs
    decreases STORE_MERGE_DEPTH_MAX - depth
  {
    if Descends(base, ours, theirs, path, depth) {
      forall k
        ensures Kid(base, ours, theirs, path, depth, k).value == Child(ours, k)
      {
        LevelValue(base, ours, theirs, path, depth, byId, k);
        KidInputs(base, ours, theirs, path, depth, byId, k);
        MergeIsNeverBase(Child(base, k), Child(ours, k), Child(theirs, k), path + [k], depth + 1, byId);
      }
      KeptAsOurs(base, ours, theirs, path, depth, byId);
    }
  }

  /** The merge of the merge with theirs again has the same children, and so is the same value. */
  lemma AgainAtLevel(base: Value, ours: Value, theirs: Value, path: Path, depth: nat, byId: set<Path>, m: Value)
    requires Inputs(base, ours, theirs, path, byId)
    requires Descends(base, ours, theirs, path, depth) && m == Merge3(base, ours, theirs, path, depth).value
    requires Descends(base, m, theirs, path, depth)
    requires forall k :: Kid(base, m, theirs, path, depth, k) == Kid(base, ours, theirs, path, depth, k)
    ensures Merge3(base, m, theirs, path, depth) == Merge3(base, ours, theirs, path, depth)
  {
    var kids := MergeKids(base, m, theirs, path, depth);
    MergeWellFormed(base, ours, theirs, path, depth);
    forall k
      ensures Kid(base, m, theirs, path, depth, k).value == Child(m, k)
    {
      LevelValue(base, ours, theirs, path, depth, byId, k);
    }
    assert forall k :: k in kids ==> kids[k] == Kid(base, m, theirs, path, depth, k);
    if MergesNamed(base, m, theirs, depth) {
      forall n | n in kids
        ensures kids[n].value.Absent? || ItemName(kids[n].value) == Str(n)
      {
        if n in Children(m) {
          var i := IndexEntry(m.items, n);
        }
      }
      SameNamesMerge(base, m, theirs, depth, kids);
    } else {
      var again := Merge3(base, m, theirs, path, depth).value;
      MergeWellFormed(base, m, theirs, path, depth);
      forall k
        ensures Child(again, k) == Child(m, k)
      {
        KeysLevel(base, m, theirs, path, depth, k);
      }
      SameMapping(again, m);
    }
    SameKidConflicts(base, m, ours, theirs, path, depth);
  }

  lemma SameKidConflicts(base: Value, m: Value, ours: Value, theirs: Value, path: Path, depth: nat)
    requires Descends(base, ours, theirs, path, depth) && Descends(base, m, theirs, path, depth)
    requires forall k :: Kid(base, m, theirs, path, depth, k) == Kid(base, ours, theirs, path, depth, k)
    ensures Merge3(base, m, theirs, path, depth).conflicts == Merge3(base, ours, theirs, path, depth).conflicts
  {
    forall p | p in Merge3(base, m, theirs, path, depth).conflicts
      ensures p in Merge3(base, ours, theirs, path, depth).conflicts
    {
      var k := ConflictOfKid(base, m, theirs, path, depth, p);
      KidConflicts(base, ours, theirs, path, depth, k);
    }
    forall p | p in Merge3(base, ours, theirs, path, depth).conflicts
      ensures p in Merge3(base, m, theirs, path, depth).conflicts
    {
      var k := ConflictOfKid(base, ours, theirs, path, depth, p);
      KidConflicts(base, m, theirs, path, depth, k);
    }
  }

  lemma AssembleIsNamed(base: Value, ours: Value, theirs: Value, depth: nat, kids: map<string, Merged>)
    requires kids.Keys == Visited(base, ours, theirs, depth) && MergesNamed(base, ours, theirs, depth)
    requires forall n :: n in kids ==> kids[n].value.Absent? || ItemName(kids[n].value) == Str(n)
    ensures MergesNamed(base, Assemble(base, ours, theirs, depth, kids), theirs, depth)
  {
    NamedLevel(base, ours, theirs, depth, kids);
  }

  lemma LevelIsNamed(base: Value, ours: Value, theirs: Value, path: Path, depth: nat, byId: set<Path>)
    requires Inputs(base, ours, theirs, path, byId) && MergesNamed(base, ours, theirs, depth)
    ensures var kids := MergeKids(base, ours, theirs, path, depth);
            MergesNamed(base, Assemble(base, ours, theirs, depth, kids), theirs, depth)
  {
    NamedKids(base, ours, theirs, path, depth, byId);
    AssembleIsNamed(base, ours, theirs, depth, MergeKids(base, ours, theirs, path, depth));
  }

  /** A merged level is a mapping, or a named sequence, that the same theirs descends into again. */
  lemma LevelKind(base: Value, ours: Value, theirs: Value, path: Path, depth: nat, byId: set<Path>)
    requires Inputs(base, ours, theirs, path, byId) && Descends(base, ours, theirs, path, depth)
    ensures var m := Merge3(base, ours, theirs, path, depth).value;
            && (MergesNamed(base, ours, theirs, depth) ==> MergesNamed(base, m, theirs, depth))
            && (!MergesNamed(base, ours, theirs, depth) ==> MergesKeys(base, m, theirs, depth))
  {
    if MergesNamed(base, ours, theirs, depth) {
      LevelIsNamed(base, ours, theirs, path, depth, byId);
    }
  }

  /** Merging the result again with the same base and the same theirs gives it, and its conflicts, again. */
  lemma {:induction false} MergeIsFixed(base: Value, ours: Value, theirs: Value, path: Path, depth: nat,
                                        byId: set<Path>)
    requires Inputs(base, ours, theirs, path, byId)
    ensures Merge3(base, Merge3(base, ours, theirs, path, depth).value, theirs, path, depth) ==
            Merge3(base, ours, theirs, path, depth)
    decreases STORE_MERGE_DEPTH_MAX - depth
  {
    var m := Merge3(base, ours, theirs, path, depth).value;
    if Descends(base, ours, theirs, path, depth) {
      if m == theirs {
        TheirsIsNoConflict(base, ours, theirs, path, depth, byId);
      } else if m == base {
        MergeIsNeverBase(base, ours, theirs, path, depth, byId);
      } else {
        LevelKind(base, ours, theirs, path, depth, byId);
        forall k
          ensures Kid(base, m, theirs, path, depth, k) == Kid(base, ours, theirs, path, depth, k)
        {
          LevelValue(base, ours, theirs, path, depth, byId, k);
          KidInputs(base, ours, theirs, path, depth, byId, k);
          MergeIsFixed(Child(base, k), Child(ours, k), Child(theirs, k), path + [k], depth + 1, byId);
        }
        AgainAtLevel(base, ours, theirs, path, depth, byId, m);
      }
    }
  }
}
