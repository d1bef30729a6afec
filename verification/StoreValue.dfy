/** Generic store values, and the named sequences that a store merge descends into. */
module StoreValue {

  // Absent stands for fy_invalid: it is never an item or an entry of a well-formed value.
  datatype Value =
    | Absent
    | Null
    | Str(text: string)
    | Other(tag: int)
    | Sequence(items: seq<Value>)
    | Mapping(entries: map<string, Value>)

  // A place below a value: mapping keys, and names of items of named sequences.
  type Path = seq<string>

  ghost predicate WellFormed(v: Value) {
    match v
    case Sequence(items) => forall i :: 0 <= i < |items| ==> items[i] != Absent && WellFormed(items[i])
    case Mapping(m) => forall k :: k in m ==> m[k] != Absent && WellFormed(m[k])
    case _ => true
  }

  function Get(v: Value, key: string): Value {
    if v.Mapping? && key in v.entries then v.entries[key] else Absent
  }

  /** The name of an item: its "name" if that is a string, else its "canonical_id". */
  function ItemName(item: Value): (name: Value)
    ensures name.Str? || name.Absent?
    ensures name.Str? ==> item.Mapping?
  {
    var v := Get(item, "name");
    var v := if v.Str? then v else Get(item, "canonical_id");
    if v.Str? then v else Absent
  }

  datatype Index = NotNamed | Named(byName: map<string, Value>)

  /** The items by name; NotNamed when an item has no name or two items share one. */
  function IndexItems(items: seq<Value>): (idx: Index)
    ensures idx.Named? ==> |idx.byName| == |items|
  {
    if items == [] then
      Named(map[])
    else
      var item := items[|items| - 1];
      var rest := IndexItems(items[..|items| - 1]);
      var name := ItemName(item);
      if rest.NotNamed? || name.Absent? || name.text in rest.byName then
        NotNamed
      else
        Named(rest.byName[name.text := item])
  }

  /** The index of a sequence; an absent one has no items, any other value is not named. */
  function SeqIndex(v: Value): Index {
    match v
    case Absent => Named(map[])
    case Sequence(items) => IndexItems(items)
    case _ => NotNamed
  }

  function Names(items: seq<Value>): (names: seq<string>)
    requires IndexItems(items).Named?
    ensures |names| == |items|
    ensures forall n :: n in names <==> n in IndexItems(items).byName
  {
    if items == [] then []
    else Names(items[..|items| - 1]) + [ItemName(items[|items| - 1]).text]
  }

  ghost predicate Distinct(names: seq<string>) {
    forall i, j :: 0 <= i < j < |names| ==> names[i] != names[j]
  }

  lemma {:induction false} NamesDistinct(items: seq<Value>)
    requires IndexItems(items).Named?
    ensures Distinct(Names(items))
  {
    if items != [] {
      NamesDistinct(items[..|items| - 1]);
    }
  }

  /** A position, its name and its item agree with the index. */
  lemma {:induction false} NameAt(items: seq<Value>, i: nat)
    requires IndexItems(items).Named? && i < |items|
    ensures ItemName(items[i]) == Str(Names(items)[i])
    ensures Names(items)[i] in IndexItems(items).byName
    ensures IndexItems(items).byName[Names(items)[i]] == items[i]
  {
    var front := items[..|items| - 1];
    if i < |front| {
      NameAt(front, i);
      assert Names(front)[i] in Names(front);
    }
  }

  /** An index entry is an item with that name. */
  lemma {:induction false} IndexEntry(items: seq<Value>, n: string) returns (i: nat)
    requires IndexItems(items).Named? && n in IndexItems(items).byName
    ensures i < |items| && Names(items)[i] == n
    ensures items[i] == IndexItems(items).byName[n] && ItemName(items[i]) == Str(n)
  {
    i :| 0 <= i < |items| && Names(items)[i] == n;
    NameAt(items, i);
  }

  /** An item has a name: a string under "name", or without one there a string under "canonical_id". */
  predicate IsNamed(item: Value, n: string) {
    && item.Mapping?
    && if "name" in item.entries && item.entries["name"].Str? then item.entries["name"] == Str(n)
       else "canonical_id" in item.entries && item.entries["canonical_id"] == Str(n)
  }

  ghost predicate AreNames(names: seq<string>, items: seq<Value>) {
    |names| == |items| && Distinct(names) && forall i :: 0 <= i < |items| ==> IsNamed(items[i], names[i])
  }

  /** A sequence whose items have different names; an absent one has none. */
  ghost predicate HasNames(v: Value) {
    v.Absent? || (v.Sequence? && exists names :: AreNames(names, v.items))
  }

  lemma NameOf(item: Value, n: string)
    ensures IsNamed(item, n) <==> ItemName(item) == Str(n)
  {
  }

  lemma {:induction false} NamesGiveIndex(items: seq<Value>, names: seq<string>)
    requires AreNames(names, items)
    ensures IndexItems(items).Named? && Names(items) == names
  {
    if items != [] {
      var last := |items| - 1;
      FrontNames(names, items);
      NamesGiveIndex(items[..last], names[..last]);
      NamesGiveLast(items[..last], items[last], names[..last], names[last]);
      ItemsLast(items);
    }
  }

  lemma FrontNames(names: seq<string>, items: seq<Value>)
    requires AreNames(names, items) && items != []
    ensures AreNames(names[..|items| - 1], items[..|items| - 1]) && IsNamed(items[|items| - 1], names[|items| - 1])
    ensures names[|items| - 1] !in names[..|items| - 1] && names == names[..|items| - 1] + [names[|items| - 1]]
  {
    NewName(names);
  }

  lemma NamesGiveLast(items: seq<Value>, last: Value, names: seq<string>, n: string)
    requires IndexItems(items).Named? && Names(items) == names && IsNamed(last, n) && n !in names
    ensures IndexItems(items + [last]).Named? && Names(items + [last]) == names + [n]
  {
    NameOf(last, n);
    IndexSnoc(items, last);
  }

  lemma NewName(names: seq<string>)
    requires names != [] && Distinct(names)
    ensures names[|names| - 1] !in names[..|names| - 1]
  {
  }

  /** Exactly the sequences whose items have different names have an index. */
  lemma HasNamesIff(v: Value)
    ensures SeqIndex(v).Named? <==> HasNames(v)
  {
    if v.Sequence? && SeqIndex(v).Named? {
      NamesDistinct(v.items);
      forall i | 0 <= i < |v.items| ensures IsNamed(v.items[i], Names(v.items)[i]) {
        NameAt(v.items, i);
        NameOf(v.items[i], Names(v.items)[i]);
      }
      assert AreNames(Names(v.items), v.items);
    } else if v.Sequence? && HasNames(v) {
      var names :| AreNames(names, v.items);
      NamesGiveIndex(v.items, names);
    }
  }

  lemma IndexOne(n: string, v: Value)
    requires ItemName(v) == Str(n)
    ensures IndexItems([v]) == Named(map[n := v]) && Names([v]) == [n]
  {
    assert [v][..0] == [];
    assert IndexItems([]) == Named(map[]) && Names([]) == [];
  }

  lemma IndexSnoc(items: seq<Value>, v: Value)
    requires IndexItems(items).Named? && ItemName(v).Str?
    ensures IndexItems(items + [v]).Named? <==> ItemName(v).text !in IndexItems(items).byName
    ensures IndexItems(items + [v]).Named? ==>
              && IndexItems(items + [v]).byName == IndexItems(items).byName[ItemName(v).text := v]
              && Names(items + [v]) == Names(items) + [ItemName(v).text]
  {
    var all := items + [v];
    assert all[..|all| - 1] == items && all[|all| - 1] == v;
  }

  lemma UpdatesCommute(m: map<string, Value>, a: string, x: Value, b: string, y: Value)
    requires a != b
    ensures m[a := x][b := y] == m[b := y][a := x]
  {
  }

  ghost predicate ConsIndex(n: string, v: Value, rest: seq<Value>) {
    && IndexItems(rest).Named?
    && IndexItems([v] + rest) == Named(IndexItems(rest).byName[n := v])
    && Names([v] + rest) == [n] + Names(rest)
  }

  lemma ItemsAssoc(v: Value, items: seq<Value>, last: Value)
    ensures ([v] + items) + [last] == [v] + (items + [last])
  {
  }

  lemma ItemsLast(items: seq<Value>)
    requires items != []
    ensures items[..|items| - 1] + [items[|items| - 1]] == items
  {
  }

  lemma ConsSnoc(n: string, v: Value, front: seq<Value>, last: Value, m: string)
    requires ConsIndex(n, v, front)
    requires ItemName(last) == Str(m) && m != n && m !in IndexItems(front).byName
    ensures ConsIndex(n, v, front + [last])
  {
    IndexSnoc(front, last);
    IndexSnoc([v] + front, last);
    ItemsAssoc(v, front, last);
    UpdatesCommute(IndexItems(front).byName, n, v, m, last);
    NamesAssoc(n, Names(front), m);
  }

  lemma NamesAssoc(n: string, names: seq<string>, m: string)
    ensures ([n] + names) + [m] == [n] + (names + [m])
  {
  }

  lemma LastName(items: seq<Value>)
    requires items != [] && IndexItems(items).Named?
    ensures var front, name := items[..|items| - 1], ItemName(items[|items| - 1]);
            && name.Str? && name.text in Names(items)
            && IndexItems(front).Named? && name.text !in IndexItems(front).byName
            && (forall n :: n in Names(front) ==> n in Names(items))
  {
  }

  /** An item with a new name in front of a named sequence gives a named sequence. */
  lemma {:induction false} ConsNamed(n: string, v: Value, rest: seq<Value>)
    requires IndexItems(rest).Named? && ItemName(v) == Str(n) && n !in Names(rest)
    ensures ConsIndex(n, v, rest)
  {
    if rest == [] {
      ConsEmpty(n, v);
    } else {
      var front, last := rest[..|rest| - 1], rest[|rest| - 1];
      LastName(rest);
      ConsNamed(n, v, front);
      ConsSnoc(n, v, front, last, ItemName(last).text);
      ItemsLast(rest);
    }
  }

  lemma ConsEmpty(n: string, v: Value)
    requires ItemName(v) == Str(n)
    ensures ConsIndex(n, v, [])
  {
    assert [v] + [] == [v];
    IndexOne(n, v);
  }

  /** The children of a mapping or of a named sequence; every other value has none. */
  function Children(v: Value): map<string, Value> {
    match v
    case Mapping(m) => m
    case Sequence(items) => var idx := IndexItems(items); if idx.Named? then idx.byName else map[]
    case _ => map[]
  }

  function Child(v: Value, key: string): Value {
    if key in Children(v) then Children(v)[key] else Absent
  }

  function Lookup(v: Value, path: Path): Value
    decreases |path|
  {
    if path == [] then v else Lookup(Child(v, path[0]), path[1..])
  }

  lemma ChildWellFormed(v: Value, key: string)
    requires WellFormed(v)
    ensures WellFormed(Child(v, key))
    ensures key in Children(v) ==> Child(v, key) != Absent
  {
    if v.Sequence? && key in Children(v) {
      var _ := IndexEntry(v.items, key);
    }
  }

  /** Two well-formed mappings with the same children are equal. */
  lemma SameMapping(a: Value, b: Value)
    requires WellFormed(a) && WellFormed(b) && a.Mapping? && b.Mapping?
    requires forall k :: Child(a, k) == Child(b, k)
    ensures a == b
  {
    forall k
      ensures k in a.entries <==> k in b.entries
      ensures k in a.entries ==> a.entries[k] == b.entries[k]
    {
      ChildWellFormed(a, k);
      ChildWellFormed(b, k);
      assert Child(a, k) == Child(b, k);
    }
    assert a.entries == b.entries;
  }

  /** Two named sequences with the same names in the same order and the same children are equal. */
  lemma SameSequence(a: Value, b: Value)
    requires a.Sequence? && IndexItems(a.items).Named? && b.Sequence? && IndexItems(b.items).Named?
    requires Names(a.items) == Names(b.items)
    requires forall k :: k in Names(a.items) ==> Child(a, k) == Child(b, k)
    ensures a == b
  {
    forall i | 0 <= i < |a.items|
      ensures a.items[i] == b.items[i]
    {
      NameAt(a.items, i);
      NameAt(b.items, i);
      assert Child(a, Names(a.items)[i]) == Child(b, Names(a.items)[i]);
    }
  }
}
