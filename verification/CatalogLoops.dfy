/** The loops that find an item and read a path. */
module CatalogLoops {
  import opened Options
  import opened StoreValue
  import opened Catalog
  import opened CatalogFind

  method NamingKey(items: seq<Value>) returns (key: string)
    ensures key == ItemKey(items, 0) == if ByCanonicalId(items) then "canonical_id" else "name"
  {
    ItemKeyIs(items, 0);
    var i := 0;
    while i < |items|
      invariant i <= |items| && ItemKey(items, i) == ItemKey(items, 0)
    {
      if Get(items[i], NAME).Str? {
        return NAME;
      }
      if Get(items[i], CANONICAL).Str? {
        return CANONICAL;
      }
      i := i + 1;
    }
    key := NAME;
  }

  method FindByText(items: seq<Value>, key: string, text: string) returns (k: nat)
    ensures k == FindText(items, key, text, 0)
  {
    k := 0;
    while k < |items| && Text(items[k], key) != text
      invariant k <= |items| && FindText(items, key, text, k) == FindText(items, key, text, 0)
    {
      k := k + 1;
    }
  }

  /** The position of the item that a component selects. */
  method SequenceFind(items: seq<Value>, component: string) returns (r: Option<nat>)
    ensures r == Find(items, component)
    ensures forall n :: IsNumber(component, n) ==> r == if 0 <= n < |items| then Some(n) else None
    ensures (forall n :: !IsNumber(component, n)) ==> NameSelects(items, component, r)
  {
    FindIs(items, component);
    var index := IndexOf(component);
    if index.Some? {
      return if 0 <= index.value < |items| then Some(index.value) else None;
    }
    var key := NamingKey(items);
    var k := FindByText(items, key, component);
    if k == |items| {
      k := FindByText(items, PROVIDER, component);
    }
    r := if k < |items| then Some(k) else None;
  }

  /** Read the value at a path. */
  method GetAt(root: Value, path: seq<string>) returns (node: Value)
    ensures node == PathGet(root, path, 0)
  {
    node := root;
    var i := 0;
    while i < |path| && !node.Absent?
      invariant i <= |path| && PathGet(node, path, i) == PathGet(root, path, 0)
    {
      if node.Mapping? {
        node := Get(node, path[i]);
      } else if node.Sequence? {
        var k := SequenceFind(node.items, path[i]);
        node := if k.None? then Absent else node.items[k.value];
      } else {
        node := Absent;
      }
      i := i + 1;
    }
  }
}
