/** What a write to a catalogue changes. */
module CatalogLaws {
  import opened Options
  import opened StoreValue
  import opened Catalog

  /** What a write goes on with at a component: what is there, or what it makes. */
  function Below(node: Value, component: string): Value {
    match node
    case Mapping(m) => if component in m then m[component] else Mapping(map[])
    case Sequence(items) => (match Find(items, component)
                             case Some(k) => items[k]
                             case None => Made(items, component))
    case _ => Absent
  }

  /** The new item of a sequence that a path goes on into. */
  function Made(items: seq<Value>, component: string): Value {
    Mapping(map[ItemKey(items, 0) := Str(component)])
  }

  /**
   * A path ends at a member of a mapping, that does not name the mapping where that is an item of a sequence.
   * A write of a value makes what is missing on the way; a delete is of a member that is there.
   */
  predicate Writable(node: Value, path: seq<string>, i: nat, item: bool, value: Value)
    requires i < |path|
    decreases |path| - i
  {
    && (value.Absent? ==> StepOf(node, path[i]).Some?)
    && if i + 1 == |path| then node.Mapping? && (item ==> !NamesItems(path[i]))
       else
         && (node.Mapping? || node.Sequence?)
         && Writable(Below(node, path[i]), path, i + 1, node.Sequence?, value)
  }

  /** A path makes no item, or one that its own component selects. */
  predicate Selects(node: Value, path: seq<string>, i: nat)
    requires i < |path|
    decreases |path| - i
  {
    i + 1 < |path| ==>
      if node.Sequence? && StepOf(node, path[i]).None? then
        IndexOf(path[i]).None? || IndexOf(path[i]) == Some(|node.items|)
      else Selects(Below(node, path[i]), path, i + 1)
  }

  /** Two values that name the same as items of a sequence. */
  predicate SameLabels(a: Value, b: Value) {
    Label(a, NAME) == Label(b, NAME) && Label(a, CANONICAL) == Label(b, CANONICAL)
    && Label(a, PROVIDER) == Label(b, PROVIDER)
  }

  lemma {:induction false} SameItemKey(items: seq<Value>, k: nat, v: Value, i: nat)
    requires k < |items| && SameLabels(items[k], v) && i <= |items|
    ensures ItemKey(items[k := v], i) == ItemKey(items, i)
    decreases |items| - i
  {
    if i < |items| {
      SameItemKey(items, k, v, i + 1);
    }
  }

  lemma {:induction false} SameFindText(items: seq<Value>, k: nat, v: Value, key: string, text: string, i: nat)
    requires k < |items| && Label(items[k], key) == Label(v, key) && i <= |items|
    ensures FindText(items[k := v], key, text, i) == FindText(items, key, text, i)
    decreases |items| - i
  {
    if i < |items| {
      SameFindText(items, k, v, key, text, i + 1);
    }
  }

  lemma SameFind(items: seq<Value>, k: nat, v: Value, component: string)
    requires k < |items| && SameLabels(items[k], v)
    ensures Find(items[k := v], component) == Find(items, component)
  {
    SameItemKey(items, k, v, 0);
    SameFindText(items, k, v, ItemKey(items, 0), component, 0);
    SameFindText(items, k, v, PROVIDER, component, 0);
  }

  // ---------------------------------------------------------------- appended items

  lemma {:induction false} AppendItemKey(items: seq<Value>, v: Value, i: nat)
    requires i <= |items| && Label(v, ItemKey(items, i)).Some?
    ensures ItemKey(items + [v], i) == ItemKey(items, i)
    decreases |items| - i
  {
    if i < |items| {
      assert (items + [v])[i] == items[i];
      if Label(items[i], NAME).None? && Label(items[i], CANONICAL).None? {
        AppendItemKey(items, v, i + 1);
      }
    }
  }

  lemma {:induction false} AppendFindText(items: seq<Value>, v: Value, key: string, text: string, i: nat)
    requires i <= |items| && FindText(items, key, text, i) == |items| && Text(v, key) == text
    ensures FindText(items + [v], key, text, i) == |items|
    decreases |items| - i
  {
    if i < |items| {
      assert (items + [v])[i] == items[i];
      AppendFindText(items, v, key, text, i + 1);
    }
  }

  lemma {:induction false} AppendFindOther(items: seq<Value>, v: Value, key: string, text: string, i: nat)
    requires i <= |items| && Text(v, key) != text
    ensures FindText(items + [v], key, text, i) ==
            if FindText(items, key, text, i) < |items| then FindText(items, key, text, i) else |items| + 1
    decreases |items| - i
  {
    if i < |items| {
      assert (items + [v])[i] == items[i];
      AppendFindOther(items, v, key, text, i + 1);
    }
  }

  /** An appended item changes the lookup of no other component. */
  lemma AppendKeepsFind(items: seq<Value>, v: Value, component: string, other: string)
    requires Find(items, component).None? && SameLabels(Made(items, component), v)
    requires other != component && other != "" && IndexOf(other) != Some(|items|)
    ensures Find(items + [v], other) == Find(items, other)
  {
    if IndexOf(other).None? {
      AppendItemKey(items, v, 0);
      AppendFindOther(items, v, ItemKey(items, 0), other, 0);
      AppendFindOther(items, v, PROVIDER, other, 0);
    }
  }

  lemma AppendIsNamed(items: seq<Value>, v: Value, component: string)
    requires FindNamed(items, component).None? && Label(v, ItemKey(items, 0)) == Some(component)
    ensures FindNamed(items + [v], component) == Some(|items|)
  {
    AppendItemKey(items, v, 0);
    AppendFindText(items, v, ItemKey(items, 0), component, 0);
  }

  lemma AppendIsByName(items: seq<Value>, v: Value, component: string)
    requires Select(items, component, None).None? && Label(v, ItemKey(items, 0)) == Some(component)
    ensures Select(items + [v], component, None) == Some(|items|)
  {
    AppendIsNamed(items, v, component);
  }

  lemma AppendIsByIndex(items: seq<Value>, v: Value, component: string, k: int)
    requires Select(items, component, Some(k)).None?
    ensures Select(items + [v], component, Some(k)) == if k == |items| then Some(|items|) else None
  {
  }

  /** An appended item is selected by its component exactly when that is not the number of another place. */
  lemma AppendIsFound(items: seq<Value>, v: Value, component: string)
    requires Find(items, component).None? && Label(v, ItemKey(items, 0)) == Some(component)
    ensures Find(items + [v], component) ==
            if IndexOf(component).None? || IndexOf(component) == Some(|items|) then Some(|items|) else None
  {
    match IndexOf(component)
    case Some(k) => AppendIsByIndex(items, v, component, k);
    case None => AppendIsByName(items, v, component);
  }

  /** A write below a value gives a value of the same kind, and an item that names the same. */
  lemma {:induction false} PutKeepsKind(node: Value, path: seq<string>, i: nat, item: bool, value: Value)
    requires i < |path| && Writable(node, path, i, item, value)
    ensures var r := PathPut(node, path, i, value);
            && r.Mapping? == node.Mapping? && r.Sequence? == node.Sequence? && !r.Absent? && !r.Str?
            && (item ==> SameLabels(node, r))
    decreases |path| - i
  {
    if i + 1 < |path| {
      PutKeepsKind(Below(node, path[i]), path, i + 1, node.Sequence?, value);
    } else {
      PutMemberLast(node, path, i, item, value);
    }
  }

  lemma PutMemberLast(node: Value, path: seq<string>, i: nat, item: bool, value: Value)
    requires i + 1 == |path| && Writable(node, path, i, item, value)
    ensures PathPut(node, path, i, value)
            == Mapping(if value.Absent? then node.entries - {path[i]} else node.entries[path[i] := value])
  {
    assert PathPut(Below(node, path[i]), path, i + 1, value) == value;
  }

  // ---------------------------------------------------------------- where a write leads

  /** The step that a write takes at a component: to what is there, or to what it makes. */
  function StepTo(node: Value, component: string): Step {
    match StepOf(node, component)
    case Some(step) => step
    case None => if node.Sequence? then Item(|node.items|) else Key(component)
  }

  /** The member or item of the step has the written child, and all others stay. */
  lemma PutAt(node: Value, path: seq<string>, i: nat, item: bool, value: Value)
    requires i + 1 < |path| && Writable(node, path, i, item, value)
    ensures var r := PathPut(node, path, i, value); var step := StepTo(node, path[i]);
            && Follow(r, step) == PathPut(Below(node, path[i]), path, i + 1, value)
            && forall s :: s != step ==> Follow(r, s) == Follow(node, s)
  {
    PutKeepsKind(Below(node, path[i]), path, i + 1, node.Sequence?, value);
  }

  /** A component that does not select what a write makes. */
  predicate Passes(node: Value, component: string, other: string) {
    StepOf(node, component).None? ==>
      && other != component
      && (node.Sequence? ==> other != "" && IndexOf(other) != Some(|node.items|))
  }

  /** Other components take the steps that they took. */
  lemma PutSteps(node: Value, path: seq<string>, i: nat, item: bool, value: Value, component: string)
    requires i + 1 < |path| && Writable(node, path, i, item, value) && Passes(node, path[i], component)
    ensures StepOf(PathPut(node, path, i, value), component) == StepOf(node, component)
  {
    var child := PathPut(Below(node, path[i]), path, i + 1, value);
    PutKeepsKind(Below(node, path[i]), path, i + 1, node.Sequence?, value);
    if node.Sequence? {
      var k := Find(node.items, path[i]);
      if k.Some? {
        SameFind(node.items, k.value, child, component);
      } else {
        AppendKeepsFind(node.items, child, path[i], component);
      }
    }
  }

  /** The component of a write takes its step, unless it made an item that the component does not select. */
  lemma PutStep(node: Value, path: seq<string>, i: nat, item: bool, value: Value)
    requires i + 1 < |path| && Writable(node, path, i, item, value)
    ensures var r := PathPut(node, path, i, value);
            if node.Sequence? && StepOf(node, path[i]).None? &&
               !(IndexOf(path[i]).None? || IndexOf(path[i]) == Some(|node.items|))
            then StepOf(r, path[i]).None?
            else StepOf(r, path[i]) == Some(StepTo(node, path[i]))
  {
    var child := PathPut(Below(node, path[i]), path, i + 1, value);
    PutKeepsKind(Below(node, path[i]), path, i + 1, node.Sequence?, value);
    if node.Sequence? {
      var k := Find(node.items, path[i]);
      if k.Some? {
        SameFind(node.items, k.value, child, path[i]);
      } else {
        AppendIsFound(node.items, child, path[i]);
      }
    }
  }

  /**
   * Reading a written location back gives the value, or nothing after a delete, exactly when the path makes no
   * item that its own component does not select.
   */
  lemma {:induction false} PutThenGet(node: Value, path: seq<string>, i: nat, item: bool, value: Value)
    requires i < |path| && Writable(node, path, i, item, value)
    ensures PathGet(PathPut(node, path, i, value), path, i) == value <==> Selects(node, path, i)
    decreases |path| - i
  {
    var r := PathPut(node, path, i, value);
    PutKeepsKind(node, path, i, item, value);
    if i + 1 < |path| {
      PutThenGet(Below(node, path[i]), path, i + 1, node.Sequence?, value);
      PutAt(node, path, i, item, value);
      PutStep(node, path, i, item, value);
      MadeSelects(node, path, i);
    } else {
      PutMemberLast(node, path, i, item, value);
      assert ChildAt(r, path[i]) == value;
    }
  }

  /** Below a new item a path makes no other one. */
  lemma MadeSelects(node: Value, path: seq<string>, i: nat)
    requires i + 1 < |path|
    ensures node.Sequence? && StepOf(node, path[i]).None? ==> Selects(Below(node, path[i]), path, i + 1)
  {
    if i + 2 < |path| {
      PlainSelects(Below(Below(node, path[i]), path[i + 1]), path, i + 2);
    }
  }

  lemma {:induction false} PlainSelects(node: Value, path: seq<string>, i: nat)
    requires i < |path|
    ensures node == Mapping(map[]) || node.Str? || node.Absent? ==> Selects(node, path, i)
    decreases |path| - i
  {
    if i + 1 < |path| {
      PlainSelects(Below(node, path[i]), path, i + 1);
    }
  }

  /** The steps of a path as far as it leads. */
  function Trail(node: Value, path: seq<string>, i: nat): seq<Step>
    requires i <= |path|
    decreases |path| - i
  {
    if i == |path| || StepOf(node, path[i]).None? then []
    else [StepOf(node, path[i]).value] + Trail(ChildAt(node, path[i]), path, i + 1)
  }

  /**
   * A path is neither above nor below a written one: it turns off, or ends nowhere, before the written
   * location, and does not lead into what the write makes.
   */
  predicate Apart(node: Value, path: seq<string>, i: nat, other: seq<string>, j: nat)
    requires i < |path| && j <= |other|
    decreases |path| - i
  {
    && j < |other| && Passes(node, path[i], other[j])
    && (StepOf(node, other[j]) == StepOf(node, path[i]) && StepOf(node, path[i]).Some? ==>
          i + 1 < |path| && Apart(ChildAt(node, path[i]), path, i + 1, other, j + 1))
  }

  /** Every location neither above nor below a written one resolves and reads as before. */
  lemma {:induction false} PutFrame(node: Value, path: seq<string>, i: nat, item: bool, value: Value,
                                    other: seq<string>, j: nat)
    requires i < |path| && j <= |other| && Writable(node, path, i, item, value) && Apart(node, path, i, other, j)
    ensures PathGet(PathPut(node, path, i, value), other, j) == PathGet(node, other, j)
    ensures Trail(PathPut(node, path, i, value), other, j) == Trail(node, other, j)
    decreases |path| - i
  {
    PutKeepsKind(node, path, i, item, value);
    if i + 1 < |path| {
      PutAt(node, path, i, item, value);
      PutSteps(node, path, i, item, value, other[j]);
      if StepOf(node, other[j]) == StepOf(node, path[i]) && StepOf(node, path[i]).Some? {
        PutFrame(ChildAt(node, path[i]), path, i + 1, node.Sequence?, value, other, j + 1);
      }
    } else {
      PutMemberLast(node, path, i, item, value);
    }
  }

  // ---------------------------------------------------------------- a new item

  /**
   * A write of a mapping without a name to an item that is not there appends an item with that name. The
   * path then leads to it exactly when its last component is not a number, or is the index of the new item:
   * the number of any other place would be read as an index and not as a name.
   */
  lemma NewItemIsFound(items: seq<Value>, component: string, value: Value)
    requires Find(items, component).None? && value.Mapping? && ItemKey(items, 0) !in value.entries
    ensures var key := ItemKey(items, 0);
            var item := Mapping(value.entries[key := Str(component)]);
            && PathPut(Sequence(items), [component], 0, value) == Sequence(items + [item])
            && (Find(items + [item], component) == Some(|items|)
                <==> IndexOf(component).None? || IndexOf(component) == Some(|items|))
  {
    var item := Mapping(value.entries[ItemKey(items, 0) := Str(component)]);
    AppendIsFound(items, item, component);
  }

  /** The item "5" of a sequence without items is made at index 0, and the path reads "5" as an index. */
  lemma NumberedItemIsLost(none: seq<Value>)
    requires none == []
    ensures var item := Mapping(map[NAME := Str("5")]);
            && PathPut(Sequence(none), ["5"], 0, Mapping(map[])) == Sequence([item])
            && Find([item], "5") == None && PathGet(Sequence([item]), ["5"], 0) == Absent
  {
    assert Digits("5", 1, 5) == Some(5);
    assert IndexOf("5") == Some(5);
    var item := Mapping(map[NAME := Str("5")]);
    NewItemIsFound(none, "5", Mapping(map[]));
    assert none + [item] == [item];
    assert ChildAt(Sequence([item]), "5") == Absent;
  }

  /** A write to the name of an item loses the path that selects it by that name. */
  lemma NameWriteLosesPath(name: string, text: string)
    requires name != text && text != "" && IndexOf(name).None? && name != ""
    ensures var root := Sequence([Mapping(map[NAME := Str(name)])]);
            && PathGet(root, [name, NAME], 0) == Str(name)
            && PathPut(root, [name, NAME], 0, Str(text)) == Sequence([Mapping(map[NAME := Str(text)])])
            && PathGet(PathPut(root, [name, NAME], 0, Str(text)), [name, NAME], 0) == Absent
  {
    var path := [name, NAME];
    var was, now := Mapping(map[NAME := Str(name)]), Mapping(map[NAME := Str(text)]);
    var root := Sequence([was]);
    assert Find([was], name) == Some(0);
    assert ChildAt(root, name) == was;
    assert PathGet(was, path, 1) == Str(name) by {
      assert ChildAt(was, NAME) == Str(name);
    }
    assert PathPut(was, path, 1, Str(text)) == now by {
      assert PathPut(Str(name), path, 2, Str(text)) == Str(text);
    }
    assert [was][0 := now] == [now];
    assert Find([now], name) == None;
    assert ChildAt(Sequence([now]), name) == Absent;
  }
}
