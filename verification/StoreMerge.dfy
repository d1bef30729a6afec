/** The three-way merge of the stores of two concurrent invocations. */
module StoreMerge {
  import opened StoreValue

  const STORE_MERGE_DEPTH_MAX: nat := 32

  datatype Merged = Merged(value: Value, conflicts: set<Path>)

  /** Where ours and theirs are merged child by child, and not as one value. */
  predicate MergesNamed(base: Value, ours: Value, theirs: Value, depth: nat) {
    && ours.Sequence? && theirs.Sequence? && depth < STORE_MERGE_DEPTH_MAX
    && SeqIndex(base).Named? && SeqIndex(ours).Named? && SeqIndex(theirs).Named?
  }

  predicate MergesKeys(base: Value, ours: Value, theirs: Value, depth: nat) {
    && ours.Mapping? && theirs.Mapping? && depth < STORE_MERGE_DEPTH_MAX
    && (base.Absent? || base.Mapping?)
  }

  /** The names of theirs that ours does not have, in their order. */
  function OnlyIn(names: seq<string>, other: map<string, Value>): (only: seq<string>)
    ensures forall n :: n in only <==> n in names && n !in other
  {
    if names == [] then []
    else (if names[0] in other then [] else [names[0]]) + OnlyIn(names[1..], other)
  }

  /** The names in the order that the two passes of a named merge visit them. */
  function VisitOrder(ours: seq<Value>, theirs: seq<Value>): (names: seq<string>)
    requires IndexItems(ours).Named? && IndexItems(theirs).Named?
    ensures forall n :: n in names <==> n in IndexItems(ours).byName || n in IndexItems(theirs).byName
  {
    Names(ours) + OnlyIn(Names(theirs), IndexItems(ours).byName)
  }

  /** The merged items that are present, in the order of their names. */
  function Collect(names: seq<string>, kids: map<string, Merged>): seq<Value> {
    if names == [] then []
    else
      var v := if names[0] in kids then kids[names[0]].value else Absent;
      (if v.Absent? then [] else [v]) + Collect(names[1..], kids)
  }

  function AllConflicts(kids: map<string, Merged>): set<Path> {
    set k, p | k in kids && p in kids[k].conflicts :: p
  }

  /** The keys or names that a merge below these values visits. */
  function Visited(base: Value, ours: Value, theirs: Value, depth: nat): set<string> {
    if MergesNamed(base, ours, theirs, depth) then Children(ours).Keys + Children(theirs).Keys
    else Children(ours).Keys + Children(theirs).Keys + Children(base).Keys
  }

  /** The merged value of one level, from the merges of its children. */
  function Assemble(base: Value, ours: Value, theirs: Value, depth: nat, kids: map<string, Merged>): Value
    requires kids.Keys == Visited(base, ours, theirs, depth)
  {
    if MergesNamed(base, ours, theirs, depth) then
      Sequence(Collect(VisitOrder(ours.items, theirs.items), kids))
    else
      Mapping(map k | k in kids && !kids[k].value.Absent? :: k := kids[k].value)
  }

  /**
   * Merge one value three ways. What only one side changed is taken, a mapping or a named sequence
   * that both changed is merged child by child, and any other value that both changed is a conflict
   * that keeps ours.
   */
  function Merge3(base: Value, ours: Value, theirs: Value, path: Path, depth: nat): Merged
    decreases STORE_MERGE_DEPTH_MAX - depth, 1
  {
    if ours == theirs || base == theirs then
      Merged(ours, {})
    else if base == ours then
      Merged(theirs, {})
    else if path == ["todos"] then
      Merged(ours, {path})
    else if MergesNamed(base, ours, theirs, depth) || MergesKeys(base, ours, theirs, depth) then
      var kids := MergeKids(base, ours, theirs, path, depth);
      Merged(Assemble(base, ours, theirs, depth, kids), AllConflicts(kids))
    else
      Merged(ours, {path})
  }

  function MergeKids(base: Value, ours: Value, theirs: Value, path: Path, depth: nat): (kids: map<string, Merged>)
    requires depth < STORE_MERGE_DEPTH_MAX
    ensures kids.Keys == Visited(base, ours, theirs, depth)
    decreases STORE_MERGE_DEPTH_MAX - depth, 0
  {
    map k | k in Visited(base, ours, theirs, depth) ::
      k := Merge3(Child(base, k), Child(ours, k), Child(theirs, k), path + [k], depth + 1)
  }

  /** The merge of two whole stores: anything but a mapping counts as an empty one. */
  function MergeStores(base: Value, ours: Value, theirs: Value): Merged {
    Merge3(AsMapping(base), AsMapping(ours), AsMapping(theirs), [], 0)
  }

  function AsMapping(v: Value): Value {
    if v.Mapping? then v else Mapping(map[])
  }
}
