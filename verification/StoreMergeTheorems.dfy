/** The merge of whole stores, its order in named sequences, and the loops that compute it. */
module StoreMergeTheorems {
  import opened StoreValue
  import opened StoreMerge
  import opened StoreMergeLaws
  import opened StoreMergeSwap
  import opened Selection

  /** The items that a named merge keeps, as a selection of names in their order. */
  ghost function KeptNames(base: Value, ours: Value, theirs: Value, path: Path, depth: nat, names: seq<string>)
    : (kept: seq<string>)
  {
    if names == [] then []
    else
      (if Kid(base, ours, theirs, path, depth, names[0]).value.Absent? then [] else [names[0]]) +
      KeptNames(base, ours, theirs, path, depth, names[1..])
  }

  lemma {:induction false} SurvivingIsKept(base: Value, ours: Value, theirs: Value, path: Path, depth: nat,
                                           names: seq<string>)
    requires Descends(base, ours, theirs, path, depth)
    requires forall n :: n in names ==> n in MergeKids(base, ours, theirs, path, depth)
    ensures Surviving(names, MergeKids(base, ours, theirs, path, depth)) ==
            KeptNames(base, ours, theirs, path, depth, names)
  {
    if names != [] {
      SurvivingIsKept(base, ours, theirs, path, depth, names[1..]);
    }
  }

  /** Which names stay: those that are not to be skipped and whose merge is present. */
  ghost function Staying(base: Value, ours: Value, theirs: Value, path: Path, depth: nat,
                         names: seq<string>, skip: map<string, Value>): (marks: seq<bool>)
    ensures |marks| == |names|
    ensures forall i :: 0 <= i < |names| ==>
              (marks[i] <==> names[i] !in skip && Kid(base, ours, theirs, path, depth, names[i]).value != Absent)
  {
    seq(|names|, i requires 0 <= i < |names| =>
      names[i] !in skip && Kid(base, ours, theirs, path, depth, names[i]).value != Absent)
  }

  lemma OneStays(base: Value, ours: Value, theirs: Value, path: Path, depth: nat, n: string, skip: map<string, Value>)
    ensures Selected([n], Staying(base, ours, theirs, path, depth, [n], skip),
                     KeptNames(base, ours, theirs, path, depth, OnlyIn([n], skip)))
  {
    var stays := n !in skip && Kid(base, ours, theirs, path, depth, n).value != Absent;
    OneSelected(n, stays);
    assert Staying(base, ours, theirs, path, depth, [n], skip) == [stays];
    OneIsKept(base, ours, theirs, path, depth, n, skip);
  }

  lemma OneIsKept(base: Value, ours: Value, theirs: Value, path: Path, depth: nat, n: string, skip: map<string, Value>)
    ensures KeptNames(base, ours, theirs, path, depth, OnlyIn([n], skip)) ==
            if n !in skip && Kid(base, ours, theirs, path, depth, n).value != Absent then [n] else []
  {
    OnlyInOne(n, skip);
    var one := [n];
    assert one[1..] == [];
    assert KeptNames(base, ours, theirs, path, depth, one) ==
           (if Kid(base, ours, theirs, path, depth, one[0]).value.Absent? then [] else [one[0]]) + [];
  }

  lemma OnlyInOne(n: string, skip: map<string, Value>)
    ensures OnlyIn([n], skip) == if n in skip then [] else [n]
  {
    var one := [n];
    assert one[1..] == [];
  }

  lemma OnlyInSplit(names: seq<string>, skip: map<string, Value>)
    requires names != []
    ensures OnlyIn(names, skip) == OnlyIn([names[0]], skip) + OnlyIn(names[1..], skip)
  {
    OnlyInOne(names[0], skip);
  }

  lemma {:induction false} KeptNamesConcat(base: Value, ours: Value, theirs: Value, path: Path, depth: nat,
                                           a: seq<string>, b: seq<string>)
    ensures KeptNames(base, ours, theirs, path, depth, a + b) ==
            KeptNames(base, ours, theirs, path, depth, a) + KeptNames(base, ours, theirs, path, depth, b)
  {
    if a == [] {
      assert a + b == b;
    } else {
      var first, rest := a[0], a[1..];
      assert (a + b)[1..] == rest + b;
      KeptNamesConcat(base, ours, theirs, path, depth, rest, b);
      Regroup(if Kid(base, ours, theirs, path, depth, first).value.Absent? then [] else [first],
              KeptNames(base, ours, theirs, path, depth, rest), KeptNames(base, ours, theirs, path, depth, b));
    }
  }

  lemma {:induction false} StayingAreKept(base: Value, ours: Value, theirs: Value, path: Path, depth: nat,
                                          names: seq<string>, skip: map<string, Value>)
    ensures Selected(names, Staying(base, ours, theirs, path, depth, names, skip),
                     KeptNames(base, ours, theirs, path, depth, OnlyIn(names, skip)))
  {
    if names == [] {
      NothingSelected<string>();
    } else {
      var first, rest := [names[0]], names[1..];
      OneStays(base, ours, theirs, path, depth, names[0], skip);
      StayingAreKept(base, ours, theirs, path, depth, rest, skip);
      KeptNamesConcat(base, ours, theirs, path, depth, OnlyIn(first, skip), OnlyIn(rest, skip));
      SelectedConcat(first, Staying(base, ours, theirs, path, depth, first, skip),
                     KeptNames(base, ours, theirs, path, depth, OnlyIn(first, skip)),
                     rest, Staying(base, ours, theirs, path, depth, rest, skip),
                     KeptNames(base, ours, theirs, path, depth, OnlyIn(rest, skip)));
      FirstStays(base, ours, theirs, path, depth, names, skip);
      OnlyInSplit(names, skip);
      assert first + rest == names;
    }
  }

  lemma FirstStays(base: Value, ours: Value, theirs: Value, path: Path, depth: nat,
                   names: seq<string>, skip: map<string, Value>)
    requires names != []
    ensures Staying(base, ours, theirs, path, depth, names, skip) ==
            Staying(base, ours, theirs, path, depth, [names[0]], skip) +
            Staying(base, ours, theirs, path, depth, names[1..], skip)
  {
    FirstMark(Staying(base, ours, theirs, path, depth, names, skip),
              Staying(base, ours, theirs, path, depth, [names[0]], skip),
              Staying(base, ours, theirs, path, depth, names[1..], skip));
  }

  lemma FirstMark(all: seq<bool>, first: seq<bool>, rest: seq<bool>)
    requires |first| == 1 && |all| == |rest| + 1 && all[0] == first[0]
    requires forall i :: 0 <= i < |rest| ==> all[i + 1] == rest[i]
    ensures all == first + rest
  {
  }

  lemma {:induction false} OnlyInNone(names: seq<string>)
    ensures OnlyIn(names, map[]) == names
  {
    if names != [] {
      OnlyInNone(names[1..]);
    }
  }

  /**
   * A merged named sequence: the kept items of ours in their order, then the kept items that only
   * theirs has in their order, each the three-way merge of its name, and no name twice.
   */
  lemma NamedMergeOrder(base: Value, ours: Value, theirs: Value, path: Path, depth: nat, byId: set<Path>)
    requires Inputs(base, ours, theirs, path, byId)
    requires Descends(base, ours, theirs, path, depth) && MergesNamed(base, ours, theirs, depth)
    ensures var m := Merge3(base, ours, theirs, path, depth).value;
            && m.Sequence? && IndexItems(m.items).Named? && Distinct(Names(m.items))
            && Selected(Names(ours.items) + Names(theirs.items),
                        Staying(base, ours, theirs, path, depth, Names(ours.items), map[]) +
                        Staying(base, ours, theirs, path, depth, Names(theirs.items), IndexItems(ours.items).byName),
                        Names(m.items))
    ensures var m := Merge3(base, ours, theirs, path, depth).value;
            forall i :: 0 <= i < |m.items| ==>
              m.items[i] == Kid(base, ours, theirs, path, depth, Names(m.items)[i]).value
  {
    var m := Merge3(base, ours, theirs, path, depth).value;
    var kids := MergeKids(base, ours, theirs, path, depth);
    var first, second := Names(ours.items), OnlyIn(Names(theirs.items), IndexItems(ours.items).byName);
    NamedKids(base, ours, theirs, path, depth, byId);
    NamedLevel(base, ours, theirs, depth, kids);
    NamesDistinct(m.items);
    SurvivingConcat(first, second, kids);
    SurvivingIsKept(base, ours, theirs, path, depth, first);
    SurvivingIsKept(base, ours, theirs, path, depth, second);
    OrderOfKept(base, ours, theirs, path, depth);
    forall i | 0 <= i < |m.items|
      ensures m.items[i] == Kid(base, ours, theirs, path, depth, Names(m.items)[i]).value
    {
      NameAt(m.items, i);
      LevelValue(base, ours, theirs, path, depth, byId, Names(m.items)[i]);
    }
  }

  lemma OrderOfKept(base: Value, ours: Value, theirs: Value, path: Path, depth: nat)
    requires MergesNamed(base, ours, theirs, depth)
    ensures var skip := IndexItems(ours.items).byName;
            Selected(Names(ours.items) + Names(theirs.items),
                     Staying(base, ours, theirs, path, depth, Names(ours.items), map[]) +
                     Staying(base, ours, theirs, path, depth, Names(theirs.items), skip),
                     KeptNames(base, ours, theirs, path, depth, Names(ours.items)) +
                     KeptNames(base, ours, theirs, path, depth, OnlyIn(Names(theirs.items), skip)))
  {
    var skip := IndexItems(ours.items).byName;
    OnlyInNone(Names(ours.items));
    StayingAreKept(base, ours, theirs, path, depth, Names(ours.items), map[]);
    StayingAreKept(base, ours, theirs, path, depth, Names(theirs.items), skip);
    SelectedConcat(Names(ours.items), Staying(base, ours, theirs, path, depth, Names(ours.items), map[]),
                   KeptNames(base, ours, theirs, path, depth, Names(ours.items)),
                   Names(theirs.items), Staying(base, ours, theirs, path, depth, Names(theirs.items), skip),
                   KeptNames(base, ours, theirs, path, depth, OnlyIn(Names(theirs.items), skip)));
  }

  /**
   * A value is gone exactly when ours deleted it (or never had it, and theirs did not add it), or
   * when theirs deleted it and ours left it as it was.
   */
  lemma MergeIsAbsent(base: Value, ours: Value, theirs: Value, path: Path, depth: nat)
    ensures Merge3(base, ours, theirs, path, depth).value.Absent? <==>
              (ours.Absent? && (!base.Absent? || theirs.Absent?)) || (theirs.Absent? && ours == base)
  {
  }

  /** Which items a named merge drops; a deletion that theirs changed is kept, and reported. */
  lemma ItemIsGone(base: Value, ours: Value, theirs: Value, path: Path, depth: nat, byId: set<Path>, n: string)
    requires Inputs(base, ours, theirs, path, byId)
    requires Descends(base, ours, theirs, path, depth) && MergesNamed(base, ours, theirs, depth)
    ensures var b, o, t := Child(base, n), Child(ours, n), Child(theirs, n);
            Child(Merge3(base, ours, theirs, path, depth).value, n).Absent? <==>
              (o.Absent? && (!b.Absent? || t.Absent?)) || (t.Absent? && o == b)
    ensures var b, o, t := Child(base, n), Child(ours, n), Child(theirs, n);
            o.Absent? && !b.Absent? && !t.Absent? && t != b ==>
              path + [n] in Merge3(base, ours, theirs, path, depth).conflicts
  {
    LevelValue(base, ours, theirs, path, depth, byId, n);
    MergeIsAbsent(Child(base, n), Child(ours, n), Child(theirs, n), path + [n], depth + 1);
    KidConflicts(base, ours, theirs, path, depth, n);
  }

  // ---------------------------------------------------------------- whole stores

  lemma AsMappingReady(v: Value, byId: set<Path>)
    requires Ready(v, [], byId)
    ensures Ready(AsMapping(v), [], byId)
  {
  }

  /** The merged store is a mapping; merging it again with the same theirs changes nothing. */
  lemma StoreMergeIsFixed(base: Value, ours: Value, theirs: Value, byId: set<Path>)
    requires Ready(base, [], byId) && Ready(ours, [], byId) && Ready(theirs, [], byId)
    ensures MergeStores(base, ours, theirs).value.Mapping?
    ensures MergeStores(base, MergeStores(base, ours, theirs).value, theirs) == MergeStores(base, ours, theirs)
  {
    AsMappingReady(base, byId);
    AsMappingReady(ours, byId);
    AsMappingReady(theirs, byId);
    StoreMergeIsMapping(base, ours, theirs);
    MergeIsFixed(AsMapping(base), AsMapping(ours), AsMapping(theirs), [], 0, byId);
  }

  lemma StoreMergeIsMapping(base: Value, ours: Value, theirs: Value)
    ensures MergeStores(base, ours, theirs).value.Mapping?
  {
    var b, o, t := AsMapping(base), AsMapping(ours), AsMapping(theirs);
    assert !MergesNamed(b, o, t, 0);
  }

  /** Swapping the invocations reports the same conflicts; with none, it merges to the same store. */
  lemma StoreMergeSwaps(base: Value, ours: Value, theirs: Value, byId: set<Path>)
    requires Ready(base, [], byId) && Ready(ours, [], byId) && Ready(theirs, [], byId)
    ensures MergeStores(base, ours, theirs).conflicts == MergeStores(base, theirs, ours).conflicts
    ensures MergeStores(base, ours, theirs).conflicts == {} ==>
              Equivalent(MergeStores(base, ours, theirs).value, MergeStores(base, theirs, ours).value)
  {
    AsMappingReady(base, byId);
    AsMappingReady(ours, byId);
    AsMappingReady(theirs, byId);
    SwapKeepsConflicts(AsMapping(base), AsMapping(ours), AsMapping(theirs), [], 0);
    if MergeStores(base, ours, theirs).conflicts == {} {
      SwapKeepsValue(AsMapping(base), AsMapping(ours), AsMapping(theirs), [], 0, byId);
    }
  }

  // ---------------------------------------------------------------- sides that use different keys

  const NAMED_A := Mapping(map["name" := Str("m"), "canonical_id" := Str("a")])
  const NAMED_B := Mapping(map["name" := Str("m"), "canonical_id" := Str("b")])
  const BY_ID := Mapping(map["canonical_id" := Str("m")])

  /**
   * Sides that name an item by different keys can merge it into one of another name: ours and the
   * base name it "m" by "name", theirs by "canonical_id", and the merged item is named "b".
   */
  lemma MixedKeysLoseTheName()
    ensures ItemName(NAMED_A) == ItemName(NAMED_B) == ItemName(BY_ID) == Str("m")
    ensures ItemName(Merge3(NAMED_A, NAMED_B, BY_ID, ["models", "m"], 1).value) == Str("b")
  {
    MixedItems();
    var path := ["models", "m"];
    KeysLevel(NAMED_A, NAMED_B, BY_ID, path, 1, "name");
    KeysLevel(NAMED_A, NAMED_B, BY_ID, path, 1, "canonical_id");
  }

  lemma MixedItems()
    ensures NAMED_A != NAMED_B && NAMED_A != BY_ID && NAMED_B != BY_ID && Str("a") != Str("b") && Str("a") != Str("m")
    ensures Str("b") != Str("m") && ["models", "m"] != ["todos"] && ["models", "m"] + ["canonical_id"] != ["todos"]
    ensures Child(NAMED_A, "canonical_id") == Str("a") && Child(NAMED_B, "canonical_id") == Str("b")
    ensures Child(BY_ID, "canonical_id") == Str("m") && Child(BY_ID, "name") == Absent
    ensures Child(NAMED_A, "name") == Child(NAMED_B, "name") == Str("m")
  {
    assert |["models", "m"]| != |["todos"]| && |["models", "m"] + ["canonical_id"]| != |["todos"]|;
    assert "a"[0] != "b"[0] && "a"[0] != "m"[0] && "b"[0] != "m"[0];
    assert Child(NAMED_A, "canonical_id") == Str("a") && Child(NAMED_B, "canonical_id") == Str("b");
    assert Child(BY_ID, "name") == Absent && Child(NAMED_A, "name") == Str("m");
  }
}
