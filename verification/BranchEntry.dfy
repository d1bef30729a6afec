/** Branch entries: what decoding reads from one, and what building writes. */
module BranchEntry {
  import opened Options
  import opened StoreValue

  // The members of a store that a program knows, in the order in which a build sets them.
  const MEMBERS := ["config", "catalog", "todos", "skills", "created", "cwd", "description", "agent", "import"]

  // A decoded entry; a member that is not there is absent.
  datatype Branch = Branch(entry: Value, head: Value, updated: Value, op: Value, from: Value, prev: Value,
                           project: Value, store: Value)

  /** A member of an entry or a store; null reads as absent. */
  function Member(v: Value, key: string): Value {
    var m := Get(v, key);
    if m.Null? then Absent else m
  }

  function Decode(entry: Value): (b: Option<Branch>)
    ensures b.Some? ==> b.value.entry == entry && (b.value.store.Absent? || b.value.store.Mapping?)
  {
    if !entry.Mapping? then None
    else
      var store := Member(entry, "store");
      if !store.Absent? && !store.Mapping? then None
      else Some(Branch(entry, Member(entry, "head"), Member(entry, "updated"), Member(entry, "op"),
                       Member(entry, "from"), Member(entry, "prev"), Member(entry, "project"), store))
  }

  /** Set a member of a store, or remove it when it has no value. */
  function SetMember(store: Value, key: string, v: Value): (r: Value)
    ensures store.Mapping? ==> r.Mapping?
  {
    if !store.Mapping? then store
    else if !v.Absent? && !v.Null? then Mapping(store.entries[key := v])
    else Mapping(store.entries - {key})
  }

  /** Set the members of a branch from a position of the known ones on. */
  function SetMembers(store: Value, b: Branch, i: nat): (r: Value)
    requires i <= |MEMBERS|
    ensures store.Mapping? ==> r.Mapping?
    decreases |MEMBERS| - i
  {
    if i == |MEMBERS| then store else SetMembers(SetMember(store, MEMBERS[i], Member(b.store, MEMBERS[i])), b, i + 1)
  }

  function BuildStore(b: Branch): (r: Value)
    ensures r.Mapping?
  {
    SetMembers(if b.store.Mapping? then b.store else Mapping(map[]), b, 0)
  }

  function OrNull(v: Value): Value {
    if v.Absent? then Null else v
  }

  function Build(b: Branch): Value {
    var entry := map["head" := OrNull(b.head), "updated" := OrNull(b.updated), "op" := OrNull(b.op),
                     "from" := OrNull(b.from), "prev" := OrNull(b.prev), "store" := BuildStore(b)];
    Mapping(if b.project.Mapping? then entry["project" := b.project] else entry)
  }

  // ---------------------------------------------------------------- a store rebuilds to itself

  /** A store without the known members that are null. */
  function Cleaned(store: Value): Value {
    if !store.Mapping? then Mapping(map[])
    else Mapping(map k | k in store.entries && !(k in MEMBERS && store.entries[k].Null?) :: store.entries[k])
  }

  // A store whose known members before a position are those of a clean one.
  predicate CleanTo(r: map<string, Value>, store: map<string, Value>, i: nat)
    requires i <= |MEMBERS|
  {
    && (forall k :: k in r ==> k in store && r[k] == store[k] && !(k in MEMBERS[..i] && store[k].Null?))
    && (forall k :: k in store && !(k in MEMBERS[..i] && store[k].Null?) ==> k in r)
  }

  lemma SetMemberCleans(r: map<string, Value>, b: Branch, i: nat)
    requires b.store.Mapping? && i < |MEMBERS| && CleanTo(r, b.store.entries, i) && WellFormed(b.store)
    ensures CleanTo(SetMember(Mapping(r), MEMBERS[i], Member(b.store, MEMBERS[i])).entries, b.store.entries, i + 1)
  {
    var key := MEMBERS[i];
    assert MEMBERS[..i + 1] == MEMBERS[..i] + [key];
  }

  lemma {:induction false} SetMembersCleans(r: map<string, Value>, b: Branch, i: nat)
    requires b.store.Mapping? && i <= |MEMBERS| && CleanTo(r, b.store.entries, i) && WellFormed(b.store)
    ensures CleanTo(SetMembers(Mapping(r), b, i).entries, b.store.entries, |MEMBERS|)
    decreases |MEMBERS| - i
  {
    if i < |MEMBERS| {
      SetMemberCleans(r, b, i);
      SetMembersCleans(SetMember(Mapping(r), MEMBERS[i], Member(b.store, MEMBERS[i])).entries, b, i + 1);
    }
  }

  lemma {:induction false} SetMembersOfNone(b: Branch, i: nat)
    requires !b.store.Mapping? && i <= |MEMBERS|
    ensures SetMembers(Mapping(map[]), b, i) == Mapping(map[])
    decreases |MEMBERS| - i
  {
    if i < |MEMBERS| {
      var none: map<string, Value> := map[];
      assert none - {MEMBERS[i]} == none;
      SetMembersOfNone(b, i + 1);
    }
  }

  /** A decoded store builds to itself up to its null members; members that the program does not know stay. */
  lemma StoreRebuilds(b: Branch)
    requires WellFormed(b.store)
    ensures BuildStore(b) == Cleaned(b.store)
  {
    if b.store.Mapping? {
      SetMembersCleans(b.store.entries, b, 0);
      assert MEMBERS[..|MEMBERS|] == MEMBERS;
      assert BuildStore(b).entries == Cleaned(b.store).entries;
    } else {
      SetMembersOfNone(b, 0);
    }
  }

  /** Decoding a built entry gives what was built: the conversation, the chain, and each known member. */
  lemma DecodeBuilt(b: Branch)
    requires WellFormed(b.store) && !b.head.Null? && !b.prev.Null? && !b.from.Null? && !b.op.Null? && !b.updated.Null?
    ensures Decode(Build(b)).Some?
    ensures var d := Decode(Build(b)).value;
            && d.head == b.head && d.prev == b.prev && d.from == b.from && d.op == b.op && d.updated == b.updated
            && d.project == (if b.project.Mapping? then b.project else Absent) && d.store == Cleaned(b.store)
  {
    StoreRebuilds(b);
  }

  /** A clean store has the members of the store. */
  lemma CleanedMember(store: Value, key: string)
    requires WellFormed(store)
    ensures key in MEMBERS ==> Member(Cleaned(store), key) == Member(store, key)
    ensures key !in MEMBERS ==> Get(Cleaned(store), key) == Get(store, key)
  {
  }
}
