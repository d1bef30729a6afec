/** Access to a catalogue by paths: keys of mappings, and indexes or names of items of sequences. */
module Catalog {
  import opened Options
  import opened StoreValue

  // ---------------------------------------------------------------- components

  predicate IsSpace(c: char) {
    c == ' ' || '\t' <= c <= '\r'
  }

  predicate IsDigit(c: char) {
    '0' <= c <= '9'
  }

  /** The number that the digits from a position to the end write, after some digits. */
  function Digits(s: string, i: nat, n: nat): Option<nat>
    requires i <= |s|
    decreases |s| - i
  {
    if i == |s| then Some(n)
    else if IsDigit(s[i]) then Digits(s, i + 1, n * 10 + (s[i] as int - '0' as int)) else None
  }

  function Signed(s: string, i: nat): Option<int>
    requires i <= |s|
  {
    var sign := i < |s| && (s[i] == '-' || s[i] == '+');
    var first := if sign then i + 1 else i;
    if first == |s| then None
    else
      match Digits(s, first, 0)
      case None => None
      case Some(n) => var k: int := n; Some(if sign && s[i] == '-' then -k else k)
  }

  function Number(s: string, i: nat): Option<int>
    requires i <= |s|
    decreases |s| - i
  {
    if i < |s| && IsSpace(s[i]) then Number(s, i + 1) else Signed(s, i)
  }

  /** The index that a component is: a decimal number with white space and a sign before it, and nothing after it. */
  function IndexOf(s: string): Option<int> {
    Number(s, 0)
  }

  // ---------------------------------------------------------------- items

  const NAME := "name"
  const CANONICAL := "canonical_id"
  const PROVIDER := "provider_model_id"

  predicate NamesItems(key: string) {
    key == NAME || key == CANONICAL || key == PROVIDER
  }

  /** The text of a member, where it is one. */
  function Label(item: Value, key: string): Option<string> {
    var v := Get(item, key);
    if v.Str? then Some(v.text) else None
  }

  function Text(item: Value, key: string): string {
    match Label(item, key)
    case Some(text) => text
    case None => ""
  }

  /** The key that names the items of a sequence, by the first item that has one. */
  function ItemKey(items: seq<Value>, i: nat): (key: string)
    requires i <= |items|
    ensures key == NAME || key == CANONICAL
    decreases |items| - i
  {
    if i == |items| then NAME
    else if Label(items[i], NAME).Some? then NAME
    else if Label(items[i], CANONICAL).Some? then CANONICAL
    else ItemKey(items, i + 1)
  }

  /** The first item from a position on with a text under a key. */
  function FindText(items: seq<Value>, key: string, text: string, i: nat): (k: nat)
    requires i <= |items|
    ensures i <= k <= |items| && (k < |items| ==> Text(items[k], key) == text)
    ensures forall j :: i <= j < k ==> Text(items[j], key) != text
    decreases |items| - i
  {
    if i == |items| || Text(items[i], key) == text then i else FindText(items, key, text, i + 1)
  }

  function FindNamed(items: seq<Value>, component: string): Option<nat> {
    var k := FindText(items, ItemKey(items, 0), component, 0);
    if k < |items| then Some(k)
    else
      var p := FindText(items, PROVIDER, component, 0);
      if p < |items| then Some(p) else None
  }

  /** The item that a component selects: by index, else by the key that names the items, else by provider id. */
  function Find(items: seq<Value>, component: string): (r: Option<nat>)
    ensures r.Some? ==> r.value < |items|
  {
    Select(items, component, IndexOf(component))
  }

  function Select(items: seq<Value>, component: string, index: Option<int>): (r: Option<nat>)
    ensures r.Some? ==> r.value < |items|
  {
    match index
    case Some(k) => if 0 <= k < |items| then Some(k) else None
    case None => FindNamed(items, component)
  }

  // ---------------------------------------------------------------- get and put

  // One step from a value: to a member of a mapping, or to an item of a sequence.
  datatype Step = Key(key: string) | Item(index: nat)

  function StepOf(node: Value, component: string): Option<Step> {
    match node
    case Mapping(m) => if component in m then Some(Key(component)) else None
    case Sequence(items) => (match Find(items, component)
                             case Some(k) => Some(Item(k))
                             case None => None)
    case _ => None
  }

  function Follow(node: Value, step: Step): Value {
    match step
    case Key(key) => Get(node, key)
    case Item(i) => if node.Sequence? && i < |node.items| then node.items[i] else Absent
  }

  function ChildAt(node: Value, component: string): Value {
    match StepOf(node, component)
    case Some(step) => Follow(node, step)
    case None => Absent
  }

  /** The value at the components of a path from a position on. */
  function PathGet(node: Value, path: seq<string>, i: nat): Value
    requires i <= |path|
    decreases |path| - i
  {
    if i == |path| || node.Absent? then node else PathGet(ChildAt(node, path[i]), path, i + 1)
  }

  /**
   * Write a value at the components of a path from a position on; writing Absent deletes. The result is Absent
   * where the write fails. What a sequence has no item for goes behind its items, under the naming key.
   */
  function PathPut(node: Value, path: seq<string>, i: nat, value: Value): Value
    requires i <= |path|
    decreases |path| - i
  {
    if i == |path| then value
    else
      match node
      case Mapping(m) => PutMember(m, path, i, value)
      case Sequence(items) =>
        (match Find(items, path[i])
         case Some(k) => PutItem(items, k, path, i, value)
         case None => if value.Absent? then Absent else AppendItem(items, path, i, value))
      case _ => Absent
  }

  function PutMember(m: map<string, Value>, path: seq<string>, i: nat, value: Value): Value
    requires i < |path|
    decreases |path| - i, 0
  {
    var key := path[i];
    if value.Absent? && key !in m then Absent
    else if value.Absent? && i + 1 == |path| then Mapping(m - {key})
    else
      var child := PathPut(if key in m then m[key] else Mapping(map[]), path, i + 1, value);
      if child.Absent? then Absent else Mapping(m[key := child])
  }

  function PutItem(items: seq<Value>, k: nat, path: seq<string>, i: nat, value: Value): Value
    requires i < |path| && k < |items|
    decreases |path| - i, 0
  {
    if value.Absent? && i + 1 == |path| then Sequence(items[..k] + items[k + 1..])
    else
      var child := PathPut(items[k], path, i + 1, value);
      if child.Absent? then Absent else Sequence(items[k := child])
  }

  function AppendItem(items: seq<Value>, path: seq<string>, i: nat, value: Value): Value
    requires i < |path|
    decreases |path| - i, 0
  {
    var key := ItemKey(items, 0);
    var child :=
      if i + 1 < |path| then PathPut(Mapping(map[key := Str(path[i])]), path, i + 1, value)
      else if value.Mapping? && key !in value.entries then Mapping(value.entries[key := Str(path[i])])
      else value;
    if child.Absent? then Absent else Sequence(items + [child])
  }
}
