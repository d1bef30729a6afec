/** What the operations on pending events do to the queue, and what becomes of each event. */
module EventSpec {
  import opened Selection

  datatype Owner = NoOwner | Agent(name: string) | Session(name: string) {
    predicate Names() {
      !NoOwner? && name != ""
    }
  }

  datatype Entry = Entry(text: string, sender: string, owner: Owner)

  // An event as the queue holds it: its number in the order of injection, and whether a waiter has it.
  datatype Item = Item(serial: nat, entry: Entry, seen: bool)

  // What became of an injected event.
  datatype Fate = Queued | Delivered | Taken | Stale | OwnerDropped | Purged

  /** The owners whose jobs or sessions have not settled; an event with no owner is always live. */
  datatype Live = Live(agents: set<string>, sessions: set<string>) {
    predicate Has(owner: Owner) {
      match owner
      case NoOwner => true
      case Agent(name) => name in agents
      case Session(name) => name in sessions
    }
  }

  /** The agent or the session that owns an event has settled. */
  ghost predicate Settled(owner: Owner, live: Live) {
    || (owner.Agent? && owner.name !in live.agents)
    || (owner.Session? && owner.name !in live.sessions)
  }

  /** Before a position each event that starts with the prefix is one of a settled owner. */
  ghost predicate NoneBefore(queue: seq<Item>, prefix: string, live: Live, k: int) {
    forall i :: 0 <= i < k && i < |queue| && prefix <= queue[i].entry.text ==> Settled(queue[i].entry.owner, live)
  }

  /** A peek handed out the text of the event at k, the first that starts with the prefix and has a live owner. */
  ghost predicate PeekedAt(s: State, prefix: string, live: Live, k: int, text: string, r: State) {
    && 0 <= k < |s.queue| && text == s.queue[k].entry.text && prefix <= text
    && !Settled(s.queue[k].entry.owner, live) && NoneBefore(s.queue, prefix, live, k)
    && r == s.(queue := s.queue[k := Item(s.queue[k].serial, s.queue[k].entry, true)])
  }

  ghost predicate Peeked(s: State, prefix: string, live: Live, text: string, r: State) {
    exists k :: PeekedAt(s, prefix, live, k, text, r)
  }

  ghost predicate AllSettled(queue: seq<Item>, live: Live) {
    forall i :: 0 <= i < |queue| && !queue[i].seen ==> Settled(queue[i].entry.owner, live)
  }

  function RemoveAt<T>(s: seq<T>, i: nat): (r: seq<T>)
    requires i < |s|
    ensures |r| == |s| - 1
    ensures forall j :: 0 <= j < |r| ==> r[j] == s[if j < i then j else j + 1]
  {
    s[..i] + s[i + 1..]
  }

  // The queue, the fate of each event by its number, and the numbers that the live takes delivered.
  datatype State = State(queue: seq<Item>, fates: seq<Fate>, delivered: seq<nat>)

  const EMPTY := State([], [], [])

  function Inject(s: State, entry: Entry): State {
    State(s.queue + [Item(|s.fates|, entry, false)], s.fates + [Queued], s.delivered)
  }

  /** An event leaves the queue with a fate other than a live delivery. */
  function Drop(s: State, i: nat, fate: Fate): State
    requires i < |s.queue|
  {
    var n := s.queue[i].serial;
    s.(queue := RemoveAt(s.queue, i), fates := if n < |s.fates| then s.fates[n := fate] else s.fates)
  }

  function Deliver(s: State, i: nat): State
    requires i < |s.queue|
  {
    Drop(s, i, Delivered).(delivered := s.delivered + [s.queue[i].serial])
  }

  /** Take the first event, whether a waiter has seen it or not. */
  function Take(s: State): State {
    if s.queue == [] then s else Drop(s, 0, Taken)
  }

  /** Drop, from a position on, the events that a waiter has seen. */
  function Purge(s: State, i: nat): State
    requires i <= |s.queue|
    decreases |s.queue| - i
  {
    if i == |s.queue| then s
    else if s.queue[i].seen then Purge(Drop(s, i, Purged), i)
    else Purge(s, i + 1)
  }

  /** Drop, from a position on, the events of an owner. */
  function DropOwner(s: State, i: nat, owner: Owner): State
    requires i <= |s.queue|
    decreases |s.queue| - i
  {
    if i == |s.queue| then s
    else if s.queue[i].entry.owner == owner then DropOwner(Drop(s, i, OwnerDropped), i, owner)
    else DropOwner(s, i + 1, owner)
  }

  lemma DropOwnerOne(s: State, i: nat, owner: Owner)
    requires i < |s.queue|
    ensures DropOwner(s, i, owner) ==
            if s.queue[i].entry.owner == owner then DropOwner(Drop(s, i, OwnerDropped), i, owner)
            else DropOwner(s, i + 1, owner)
  {
  }

  datatype Taking = Nothing(after: State) | Got(entry: Entry, after: State)

  /** Deliver, from a position on, the first event that no waiter has seen and whose owner is live. */
  function TakeLive(s: State, i: nat, live: Live): Taking
    requires i <= |s.queue|
    decreases |s.queue| - i
  {
    if i == |s.queue| then Nothing(s)
    else if s.queue[i].seen then TakeLive(s, i + 1, live)
    else if live.Has(s.queue[i].entry.owner) then Got(s.queue[i].entry, Deliver(s, i))
    else TakeLive(Drop(s, i, Stale), i, live)
  }

  predicate Matches(entry: Entry, prefix: string, live: Live) {
    prefix <= entry.text && live.Has(entry.owner)
  }

  /** Mark, from a position on, the first live event whose text starts with a prefix as seen. */
  function Peek(s: State, i: nat, prefix: string, live: Live): Taking
    requires i <= |s.queue|
    decreases |s.queue| - i
  {
    if i == |s.queue| then Nothing(s)
    else if Matches(s.queue[i].entry, prefix, live) then
      Got(s.queue[i].entry, s.(queue := s.queue[i := s.queue[i].(seen := true)]))
    else Peek(s, i + 1, prefix, live)
  }

  datatype Op =
    | InjectOp(entry: Entry)
    | TakeOp
    | PurgeOp
    | DropOwnerOp(owner: Owner)
    | TakeLiveOp(live: Live)
    | PeekOp(prefix: string, live: Live)

  function Step(s: State, op: Op): State {
    match op
    case InjectOp(entry) => Inject(s, entry)
    case TakeOp => Take(s)
    case PurgeOp => Purge(s, 0)
    case DropOwnerOp(owner) => if owner.Names() then DropOwner(s, 0, owner) else s
    case TakeLiveOp(live) => TakeLive(s, 0, live).after
    case PeekOp(prefix, live) => Peek(s, 0, prefix, live).after
  }

  function Run(ops: seq<Op>): State {
    if ops == [] then EMPTY else Step(Run(ops[..|ops| - 1]), ops[|ops| - 1])
  }

  // ---------------------------------------------------------------- each event has one fate

  ghost predicate HasSerial(queue: seq<Item>, n: nat) {
    exists i :: 0 <= i < |queue| && queue[i].serial == n
  }

  /** The events of the queue are the injected ones with no other fate, in the order of injection. */
  ghost predicate Accounted(s: State) {
    && (forall i :: 0 <= i < |s.queue| ==> s.queue[i].serial < |s.fates| && s.fates[s.queue[i].serial] == Queued)
    && (forall i, j :: 0 <= i < j < |s.queue| ==> s.queue[i].serial < s.queue[j].serial)
    && (forall n: nat :: n < |s.fates| && s.fates[n] == Queued ==> HasSerial(s.queue, n))
  }

  /**
   * The live takes delivered exactly the events with that fate, in the order of injection, and before
   * every event that they can still deliver.
   */
  ghost predicate InOrder(s: State) {
    && (forall i, j :: 0 <= i < j < |s.delivered| ==> s.delivered[i] < s.delivered[j])
    && (forall i :: 0 <= i < |s.delivered| ==>
          s.delivered[i] < |s.fates| && s.fates[s.delivered[i]] == Delivered)
    && (forall n: nat :: n < |s.fates| && s.fates[n] == Delivered ==> n in s.delivered)
    && (forall i, j :: 0 <= i < |s.queue| && !s.queue[i].seen && 0 <= j < |s.delivered| ==>
          s.delivered[j] < s.queue[i].serial)
  }

  ghost predicate Good(s: State) {
    Accounted(s) && InOrder(s)
  }

  lemma InjectSerial(s: State, entry: Entry, n: nat)
    requires Accounted(s) && n < |s.fates| + 1 && (n < |s.fates| ==> s.fates[n] == Queued)
    ensures HasSerial(Inject(s, entry).queue, n)
  {
    var r := Inject(s, entry);
    if n < |s.fates| {
      var i :| 0 <= i < |s.queue| && s.queue[i].serial == n;
      assert r.queue[i].serial == n;
    } else {
      assert r.queue[|s.queue|].serial == n;
    }
  }

  lemma InjectAccounted(s: State, entry: Entry)
    requires Accounted(s)
    ensures Accounted(Inject(s, entry))
  {
    var r := Inject(s, entry);
    forall n: nat | n < |r.fates| && r.fates[n] == Queued
      ensures HasSerial(r.queue, n)
    {
      InjectSerial(s, entry, n);
    }
  }

  lemma InjectGood(s: State, entry: Entry)
    requires Good(s)
    ensures Good(Inject(s, entry))
  {
    InjectAccounted(s, entry);
  }

  lemma StillThere(queue: seq<Item>, i: nat, n: nat)
    requires i < |queue| && HasSerial(queue, n) && n != queue[i].serial
    ensures HasSerial(RemoveAt(queue, i), n)
  {
    var j :| 0 <= j < |queue| && queue[j].serial == n;
    assert RemoveAt(queue, i)[if j < i then j else j - 1].serial == n;
  }

  lemma DropAccounted(s: State, i: nat, fate: Fate)
    requires Accounted(s) && i < |s.queue| && fate != Queued
    ensures Accounted(Drop(s, i, fate))
  {
    var r := Drop(s, i, fate);
    forall n: nat | n < |r.fates| && r.fates[n] == Queued
      ensures HasSerial(r.queue, n)
    {
      StillThere(s.queue, i, n);
    }
  }

  lemma DropGood(s: State, i: nat, fate: Fate)
    requires Good(s) && i < |s.queue| && fate != Queued && fate != Delivered
    ensures Good(Drop(s, i, fate))
  {
    DropAccounted(s, i, fate);
  }

  /** A live take delivers the first event that no waiter has seen. */
  lemma DeliverGood(s: State, i: nat)
    requires Good(s) && i < |s.queue| && !s.queue[i].seen
    requires forall j :: 0 <= j < i ==> s.queue[j].seen
    ensures Good(Deliver(s, i))
  {
    var r, n := Deliver(s, i), s.queue[i].serial;
    DropAccounted(s, i, Delivered);
    forall m: nat | m < |r.fates| && r.fates[m] == Delivered
      ensures m in r.delivered
    {
      if m == n {
        assert r.delivered[|s.delivered|] == m;
      } else {
        assert s.fates[m] == Delivered;
      }
    }
    forall j, k | 0 <= j < |r.queue| && !r.queue[j].seen && 0 <= k < |r.delivered|
      ensures r.delivered[k] < r.queue[j].serial
    {
      assert j >= i && r.queue[j] == s.queue[j + 1];
    }
  }

  lemma {:induction false} PurgeGood(s: State, i: nat)
    requires Good(s) && i <= |s.queue|
    ensures Good(Purge(s, i))
    decreases |s.queue| - i
  {
    if i < |s.queue| {
      if s.queue[i].seen {
        DropGood(s, i, Purged);
        PurgeGood(Drop(s, i, Purged), i);
      } else {
        PurgeGood(s, i + 1);
      }
    }
  }

  lemma {:induction false} DropOwnerGood(s: State, i: nat, owner: Owner)
    requires Good(s) && i <= |s.queue|
    ensures Good(DropOwner(s, i, owner))
    decreases |s.queue| - i
  {
    if i < |s.queue| {
      if s.queue[i].entry.owner == owner {
        DropGood(s, i, OwnerDropped);
        DropOwnerGood(Drop(s, i, OwnerDropped), i, owner);
      } else {
        DropOwnerGood(s, i + 1, owner);
      }
    }
  }

  lemma {:induction false} TakeLiveGood(s: State, i: nat, live: Live)
    requires Good(s) && i <= |s.queue| && forall j :: 0 <= j < i ==> s.queue[j].seen
    ensures Good(TakeLive(s, i, live).after)
    decreases |s.queue| - i
  {
    if i < |s.queue| {
      if s.queue[i].seen {
        TakeLiveGood(s, i + 1, live);
      } else if live.Has(s.queue[i].entry.owner) {
        DeliverGood(s, i);
      } else {
        DropGood(s, i, Stale);
        TakeLiveGood(Drop(s, i, Stale), i, live);
      }
    }
  }

  lemma SeenGood(s: State, i: nat)
    requires Good(s) && i < |s.queue|
    ensures Good(s.(queue := s.queue[i := s.queue[i].(seen := true)]))
  {
    var r := s.(queue := s.queue[i := s.queue[i].(seen := true)]);
    forall n: nat | n < |r.fates| && r.fates[n] == Queued
      ensures HasSerial(r.queue, n)
    {
      var j :| 0 <= j < |s.queue| && s.queue[j].serial == n;
      assert r.queue[j].serial == n;
    }
  }

  lemma {:induction false} PeekGood(s: State, i: nat, prefix: string, live: Live)
    requires Good(s) && i <= |s.queue|
    ensures Good(Peek(s, i, prefix, live).after)
    decreases |s.queue| - i
  {
    if i < |s.queue| {
      if Matches(s.queue[i].entry, prefix, live) {
        SeenGood(s, i);
      } else {
        PeekGood(s, i + 1, prefix, live);
      }
    }
  }

  /**
   * In every run each injected event is in exactly one place: queued, delivered, taken, stale, dropped
   * with its owner, or purged; and the live takes deliver in the order of injection.
   */
  lemma {:induction false} RunGood(ops: seq<Op>)
    ensures Good(Run(ops))
  {
    if ops != [] {
      var s := Run(ops[..|ops| - 1]);
      RunGood(ops[..|ops| - 1]);
      match ops[|ops| - 1]
      case InjectOp(entry) => InjectGood(s, entry);
      case TakeOp => if s.queue != [] { DropGood(s, 0, Taken); }
      case PurgeOp => PurgeGood(s, 0);
      case DropOwnerOp(owner) => if owner.Names() { DropOwnerGood(s, 0, owner); }
      case TakeLiveOp(live) => TakeLiveGood(s, 0, live);
      case PeekOp(prefix, live) => PeekGood(s, 0, prefix, live);
    }
  }

  // ---------------------------------------------------------------- what a live take and a purge leave

  /** The events of a stretch of the queue that a waiter has, or has not, seen. */
  function WithSeen(queue: seq<Item>, seen: bool): seq<Item> {
    if queue == [] then []
    else WithSeen(queue[..|queue| - 1], seen) +
         if queue[|queue| - 1].seen == seen then [queue[|queue| - 1]] else []
  }

  /** From a position on, nothing that a live take can deliver. */
  ghost predicate NoneLive(queue: seq<Item>, live: Live) {
    forall i :: 0 <= i < |queue| && !queue[i].seen ==> !live.Has(queue[i].entry.owner)
  }

  lemma {:induction false} AllSeen(queue: seq<Item>, seen: bool)
    requires forall i :: 0 <= i < |queue| ==> queue[i].seen == seen
    ensures WithSeen(queue, seen) == queue
  {
    if queue != [] {
      AllSeen(queue[..|queue| - 1], seen);
    }
  }

  lemma {:induction false} WithSeenConcat(a: seq<Item>, b: seq<Item>, seen: bool)
    ensures WithSeen(a + b, seen) == WithSeen(a, seen) + WithSeen(b, seen)
  {
    if b == [] {
      assert a + b == a;
    } else {
      assert (a + b)[..|a + b| - 1] == a + b[..|b| - 1];
      WithSeenConcat(a, b[..|b| - 1], seen);
    }
  }

  /** The queue that a live take leaves: of the part before the delivered event only what is seen. */
  ghost predicate Delivers(queue: seq<Item>, live: Live, k: nat, t: Taking) {
    && t.Got? && k < |queue| && !queue[k].seen && live.Has(queue[k].entry.owner) && NoneLive(queue[..k], live)
    && t.entry == queue[k].entry && t.after.queue == WithSeen(queue[..k], true) + queue[k + 1..]
  }

  /** Removing an unseen event before a position leaves the same seen events before it. */
  lemma RemoveKeepsSeen(queue: seq<Item>, i: nat, k: nat)
    requires i <= k < |queue| && !queue[i].seen
    ensures WithSeen(RemoveAt(queue, i)[..k], true) == WithSeen(queue[..k + 1], true)
  {
    assert RemoveAt(queue, i)[..k] == queue[..i] + queue[i + 1..k + 1];
    assert queue[..k + 1] == (queue[..i] + [queue[i]]) + queue[i + 1..k + 1];
    WithSeenConcat(queue[..i], queue[i + 1..k + 1], true);
    WithSeenConcat(queue[..i] + [queue[i]], queue[i + 1..k + 1], true);
    WithSeenConcat(queue[..i], [queue[i]], true);
    assert WithSeen([queue[i]], true) == [];
  }

  lemma DeliversLater(queue: seq<Item>, live: Live, i: nat, k: nat, t: Taking)
    requires i < |queue| && !queue[i].seen && !live.Has(queue[i].entry.owner)
    requires i <= k && Delivers(RemoveAt(queue, i), live, k, t)
    ensures Delivers(queue, live, k + 1, t)
  {
    var rest := RemoveAt(queue, i);
    RemoveKeepsSeen(queue, i, k);
    assert rest[k + 1..] == queue[k + 2..];
    forall j | 0 <= j < k + 1 && !queue[j].seen
      ensures !live.Has(queue[j].entry.owner)
    {
      if j != i {
        assert rest[..k][if j < i then j else j - 1] == queue[j];
      }
    }
  }

  lemma SeenIsNotLive(s: State, live: Live)
    requires forall j :: 0 <= j < |s.queue| ==> s.queue[j].seen
    ensures NoneLive(s.queue, live) && s.queue == WithSeen(s.queue, true)
  {
    AllSeen(s.queue, true);
  }

  lemma StaleIsDropped(s: State, i: nat)
    requires i < |s.queue| && forall j :: 0 <= j < i ==> s.queue[j].seen
    ensures var rest := Drop(s, i, Stale).queue;
            rest == RemoveAt(s.queue, i) && |rest| == |s.queue| - 1 && forall j :: 0 <= j < i ==> rest[j].seen
  {
  }

  /** What a live take does once it dropped a stale event it also does with the queue that had that event. */
  lemma StaleIsPassed(s: State, live: Live, i: nat, k: nat, t: Taking)
    requires i < |s.queue| && !s.queue[i].seen && !live.Has(s.queue[i].entry.owner)
    requires FirstLive(Drop(s, i, Stale).queue, live, k, t) && k >= i
    ensures FirstLive(s.queue, live, k + 1, t)
  {
    if t.Got? {
      DeliversLater(s.queue, live, i, k, t);
    } else {
      NoneLater(s.queue, live, i);
    }
  }

  ghost predicate FirstLive(queue: seq<Item>, live: Live, k: nat, t: Taking) {
    if t.Got? then Delivers(queue, live, k, t)
    else NoneLive(queue, live) && t.after.queue == WithSeen(queue, true)
  }

  lemma DeliversNow(s: State, i: nat, live: Live)
    requires i < |s.queue| && !s.queue[i].seen && live.Has(s.queue[i].entry.owner)
    requires forall j :: 0 <= j < i ==> s.queue[j].seen
    ensures Delivers(s.queue, live, i, Got(s.queue[i].entry, Deliver(s, i)))
  {
    AllSeen(s.queue[..i], true);
    assert RemoveAt(s.queue, i) == s.queue[..i] + s.queue[i + 1..];
  }

  lemma NoneLater(queue: seq<Item>, live: Live, i: nat)
    requires i < |queue| && !queue[i].seen && !live.Has(queue[i].entry.owner)
    requires NoneLive(RemoveAt(queue, i), live)
    ensures NoneLive(queue, live) && WithSeen(RemoveAt(queue, i), true) == WithSeen(queue, true)
  {
    forall j | 0 <= j < |queue| && !queue[j].seen
      ensures !live.Has(queue[j].entry.owner)
    {
      if j != i {
        assert RemoveAt(queue, i)[if j < i then j else j - 1] == queue[j];
      }
    }
    RemoveOne(queue, i, true);
  }

  lemma RemoveOne(queue: seq<Item>, i: nat, seen: bool)
    requires i < |queue| && queue[i].seen != seen
    ensures WithSeen(RemoveAt(queue, i), seen) == WithSeen(queue, seen)
  {
    assert queue == (queue[..i] + [queue[i]]) + queue[i + 1..];
    WithSeenConcat(queue[..i], queue[i + 1..], seen);
    WithSeenConcat(queue[..i] + [queue[i]], queue[i + 1..], seen);
    WithSeenConcat(queue[..i], [queue[i]], seen);
    assert WithSeen([queue[i]], seen) == [];
  }

  // ---------------------------------------------------------------- which events an operation drops

  // The events that a drop is for.
  datatype Pick = IsSeen | IsOf(owner: Owner) | IsStale(live: Live) {
    predicate Has(item: Item) {
      match this
      case IsSeen => item.seen
      case IsOf(owner) => item.entry.owner == owner
      case IsStale(live) => !item.seen && !live.Has(item.entry.owner)
    }
  }

  /** The positions are those before the start, and behind it those of the events that the drop is not for. */
  ghost predicate Misses(queue: seq<Item>, start: nat, pick: Pick, at: seq<nat>) {
    forall k :: 0 <= k < |queue| ==> (k in at <==> k < start || !pick.Has(queue[k]))
  }

  /** From the start on the drop is for the event with this number. */
  ghost predicate Picked(queue: seq<Item>, start: nat, pick: Pick, n: nat) {
    exists k :: start <= k < |queue| && queue[k].serial == n && pick.Has(queue[k])
  }

  /** The queue keeps the events that the drop is not for; the others have the fate, and no other fate changes. */
  ghost predicate Sheds(s: State, start: nat, pick: Pick, fate: Fate, r: State) {
    && (exists at: seq<nat> :: Selects(s.queue, r.queue, at) && Misses(s.queue, start, pick, at))
    && r.delivered == s.delivered && |r.fates| == |s.fates|
    && forall n :: 0 <= n < |s.fates| ==>
         r.fates[n] == if Picked(s.queue, start, pick, n) then fate else s.fates[n]
  }

  lemma ShedsNothing(s: State, start: nat, pick: Pick, fate: Fate)
    requires start >= |s.queue|
    ensures Sheds(s, start, pick, fate, s)
  {
    var at: seq<nat> := seq(|s.queue|, k => k);
    assert Selects(s.queue, s.queue, at);
    forall k | 0 <= k < |s.queue| ensures k in at {
      assert at[k] == k;
    }
  }

  lemma MissesPast(queue: seq<Item>, start: nat, pick: Pick, at: seq<nat>)
    requires start < |queue| && !pick.Has(queue[start]) && Misses(queue, start + 1, pick, at)
    ensures Misses(queue, start, pick, at)
  {
  }

  lemma PickedPast(queue: seq<Item>, start: nat, pick: Pick, n: nat)
    requires start < |queue| && !pick.Has(queue[start])
    ensures Picked(queue, start, pick, n) == Picked(queue, start + 1, pick, n)
  {
    if Picked(queue, start, pick, n) {
      var k :| start <= k < |queue| && queue[k].serial == n && pick.Has(queue[k]);
      assert k != start;
    }
  }

  /** The drop is not for the event at the start. */
  lemma ShedsPast(s: State, start: nat, pick: Pick, fate: Fate, r: State)
    requires start < |s.queue| && !pick.Has(s.queue[start]) && Sheds(s, start + 1, pick, fate, r)
    ensures Sheds(s, start, pick, fate, r)
  {
    var at: seq<nat> :| Selects(s.queue, r.queue, at) && Misses(s.queue, start + 1, pick, at);
    MissesPast(s.queue, start, pick, at);
    forall n | 0 <= n < |s.fates|
      ensures r.fates[n] == if Picked(s.queue, start, pick, n) then fate else s.fates[n]
    {
      PickedPast(s.queue, start, pick, n);
    }
  }

  /** The positions of a queue without one of its events are these positions of the whole queue. */
  function Around(at: seq<nat>, i: nat): (r: seq<nat>)
    ensures |r| == |at| && forall j :: 0 <= j < |at| ==> r[j] == if at[j] < i then at[j] else at[j] + 1
  {
    seq(|at|, j requires 0 <= j < |at| => if at[j] < i then at[j] else at[j] + 1)
  }

  lemma AroundSelects(queue: seq<Item>, i: nat, pick: Pick, rest: seq<Item>, at: seq<nat>)
    requires i < |queue| && pick.Has(queue[i])
    requires Selects(RemoveAt(queue, i), rest, at) && Misses(RemoveAt(queue, i), i, pick, at)
    ensures Selects(queue, rest, Around(at, i)) && Misses(queue, i, pick, Around(at, i))
  {
    var all := Around(at, i);
    forall k | 0 <= k < |queue| ensures k in all <==> k < i || !pick.Has(queue[k]) {
      if k != i {
        var l := if k < i then k else k - 1;
        assert RemoveAt(queue, i)[l] == queue[k];
        if l in at {
          var j :| 0 <= j < |at| && at[j] == l;
          assert all[j] == k;
        }
      }
    }
  }

  lemma PickedAround(queue: seq<Item>, i: nat, pick: Pick, n: nat)
    requires i < |queue| && pick.Has(queue[i])
    ensures Picked(queue, i, pick, n) == (queue[i].serial == n || Picked(RemoveAt(queue, i), i, pick, n))
  {
    var rest := RemoveAt(queue, i);
    if Picked(queue, i, pick, n) && queue[i].serial != n {
      var k :| i <= k < |queue| && queue[k].serial == n && pick.Has(queue[k]);
      assert rest[k - 1] == queue[k];
    }
    if Picked(rest, i, pick, n) {
      var k :| i <= k < |rest| && rest[k].serial == n && pick.Has(rest[k]);
      assert rest[k] == queue[k + 1];
    }
  }

  /** The drop is for the event at the start. */
  lemma ShedsOne(s: State, start: nat, pick: Pick, fate: Fate, r: State)
    requires start < |s.queue| && pick.Has(s.queue[start])
    requires Sheds(Drop(s, start, fate), start, pick, fate, r)
    ensures Sheds(s, start, pick, fate, r)
  {
    var rest := RemoveAt(s.queue, start);
    var at: seq<nat> :| Selects(rest, r.queue, at) && Misses(rest, start, pick, at);
    AroundSelects(s.queue, start, pick, r.queue, at);
    forall n | 0 <= n < |s.fates|
      ensures r.fates[n] == if Picked(s.queue, start, pick, n) then fate else s.fates[n]
    {
      PickedAround(s.queue, start, pick, n);
    }
  }

  /** A purge drops exactly the events that a waiter has seen. */
  lemma {:induction false} PurgeSheds(s: State, i: nat)
    requires i <= |s.queue|
    ensures Sheds(s, i, IsSeen, Purged, Purge(s, i))
    decreases |s.queue| - i
  {
    if i == |s.queue| {
      ShedsNothing(s, i, IsSeen, Purged);
    } else if s.queue[i].seen {
      PurgeSheds(Drop(s, i, Purged), i);
      ShedsOne(s, i, IsSeen, Purged, Purge(s, i));
    } else {
      PurgeSheds(s, i + 1);
      ShedsPast(s, i, IsSeen, Purged, Purge(s, i));
    }
  }

  /** The drop of an owner is for exactly its events. */
  lemma {:induction false} DropOwnerSheds(s: State, i: nat, owner: Owner)
    requires i <= |s.queue|
    ensures Sheds(s, i, IsOf(owner), OwnerDropped, DropOwner(s, i, owner))
    decreases |s.queue| - i
  {
    if i == |s.queue| {
      ShedsNothing(s, i, IsOf(owner), OwnerDropped);
    } else if s.queue[i].entry.owner == owner {
      DropOwnerSheds(Drop(s, i, OwnerDropped), i, owner);
      ShedsOne(s, i, IsOf(owner), OwnerDropped, DropOwner(s, i, owner));
    } else {
      DropOwnerSheds(s, i + 1, owner);
      ShedsPast(s, i, IsOf(owner), OwnerDropped, DropOwner(s, i, owner));
    }
  }

  /** Before a position there is an event with this number that no waiter has seen and whose owner is not live. */
  ghost predicate StaleBefore(queue: seq<Item>, live: Live, k: nat, n: nat) {
    exists j :: 0 <= j < k && j < |queue| && queue[j].serial == n && IsStale(live).Has(queue[j])
  }

  /** Of the fates a live take changes that of the event at k and those of the stale events before it. */
  ghost predicate Settles(s: State, live: Live, k: nat, r: State) {
    && r.delivered == (if k < |s.queue| then s.delivered + [s.queue[k].serial] else s.delivered)
    && |r.fates| == |s.fates|
    && forall n :: 0 <= n < |s.fates| ==>
         r.fates[n] == if k < |s.queue| && s.queue[k].serial == n then Delivered
                       else if StaleBefore(s.queue, live, k, n) then Stale else s.fates[n]
  }

  lemma StaleAround(queue: seq<Item>, live: Live, i: nat, k: nat, n: nat)
    requires i < |queue| && IsStale(live).Has(queue[i]) && i <= k
    ensures StaleBefore(queue, live, k + 1, n) ==
              (queue[i].serial == n || StaleBefore(RemoveAt(queue, i), live, k, n))
  {
    var rest := RemoveAt(queue, i);
    if StaleBefore(queue, live, k + 1, n) && queue[i].serial != n {
      var j :| 0 <= j < k + 1 && j < |queue| && queue[j].serial == n && IsStale(live).Has(queue[j]);
      assert rest[if j < i then j else j - 1] == queue[j];
    }
    if StaleBefore(rest, live, k, n) {
      var j :| 0 <= j < k && j < |rest| && rest[j].serial == n && IsStale(live).Has(rest[j]);
      assert rest[j] == queue[if j < i then j else j + 1];
    }
  }

  lemma SettlesLater(s: State, live: Live, i: nat, k: nat, r: State)
    requires i < |s.queue| && IsStale(live).Has(s.queue[i]) && i <= k && Settles(Drop(s, i, Stale), live, k, r)
    ensures Settles(s, live, k + 1, r)
  {
    forall n | 0 <= n < |s.fates|
      ensures r.fates[n] == if k + 1 < |s.queue| && s.queue[k + 1].serial == n then Delivered
                            else if StaleBefore(s.queue, live, k + 1, n) then Stale else s.fates[n]
    {
      StaleAround(s.queue, live, i, k, n);
    }
  }

  lemma NothingSettles(s: State, live: Live)
    requires forall j :: 0 <= j < |s.queue| ==> s.queue[j].seen
    ensures Settles(s, live, |s.queue|, s)
  {
  }

  lemma DeliverySettles(s: State, i: nat, live: Live)
    requires i < |s.queue| && !s.queue[i].seen && live.Has(s.queue[i].entry.owner)
    requires forall j :: 0 <= j < i ==> s.queue[j].seen
    ensures Settles(s, live, i, Deliver(s, i))
  {
  }

  lemma {:induction false} TakeLiveFrom(s: State, i: nat, live: Live) returns (k: nat, t: Taking)
    requires i <= |s.queue| && forall j :: 0 <= j < i ==> s.queue[j].seen
    ensures t == TakeLive(s, i, live) && FirstLive(s.queue, live, k, t) && Settles(s, live, k, t.after)
    ensures k >= i && (t.Nothing? ==> k == |s.queue|)
    decreases |s.queue| - i
  {
    k := i;
    if i == |s.queue| {
      t := Nothing(s);
      SeenIsNotLive(s, live);
      NothingSettles(s, live);
    } else if s.queue[i].seen {
      k, t := TakeLiveFrom(s, i + 1, live);
    } else if live.Has(s.queue[i].entry.owner) {
      t := Got(s.queue[i].entry, Deliver(s, i));
      DeliversNow(s, i, live);
      DeliverySettles(s, i, live);
    } else {
      StaleIsDropped(s, i);
      k, t := TakeLiveFrom(Drop(s, i, Stale), i, live);
      StaleIsPassed(s, live, i, k, t);
      SettlesLater(s, live, i, k, t.after);
      k := k + 1;
    }
  }

  /**
   * A live take hands out the first event that no waiter has seen and whose owner is live. The stale
   * events before it are gone with that fate, the seen ones stay, and with no such event it hands out nothing.
   */
  lemma TakeLiveIsFirst(s: State, i: nat, live: Live) returns (k: nat)
    requires i <= |s.queue| && forall j :: 0 <= j < i ==> s.queue[j].seen
    ensures var t := TakeLive(s, i, live);
            && (if t.Got? then k >= i && Delivers(s.queue, live, k, t)
                else k == |s.queue| && NoneLive(s.queue, live) && t.after.queue == WithSeen(s.queue, true))
            && Settles(s, live, k, t.after)
  {
    var t;
    k, t := TakeLiveFrom(s, i, live);
  }

  /** What a live take hands out has a live owner; when it hands out nothing, no unseen event has one. */
  lemma TakeLiveHands(s: State, live: Live)
    ensures var t := TakeLive(s, 0, live);
            if t.Got? then !Settled(t.entry.owner, live) else AllSettled(s.queue, live)
  {
    var k := TakeLiveIsFirst(s, 0, live);
  }

  /** A peek hands out the first live event with the prefix, and only marks it. */
  lemma {:induction false} PeekIsFirst(s: State, i: nat, prefix: string, live: Live) returns (k: nat)
    requires i <= |s.queue|
    ensures var p := Peek(s, i, prefix, live);
            if p.Got? then
              && i <= k < |s.queue| && Matches(s.queue[k].entry, prefix, live) && p.entry == s.queue[k].entry
              && (forall j :: i <= j < k ==> !Matches(s.queue[j].entry, prefix, live))
              && p.after == s.(queue := s.queue[k := Item(s.queue[k].serial, s.queue[k].entry, true)])
            else
              p.after == s && forall j :: i <= j < |s.queue| ==> !Matches(s.queue[j].entry, prefix, live)
    decreases |s.queue| - i
  {
    k := i;
    if i < |s.queue| && !Matches(s.queue[i].entry, prefix, live) {
      k := PeekIsFirst(s, i + 1, prefix, live);
    }
  }

  /** A peek hands out the first event with the prefix and a live owner; with nothing no such event is queued. */
  lemma PeekHands(s: State, prefix: string, live: Live)
    ensures var p := Peek(s, 0, prefix, live);
            if p.Got? then Peeked(s, prefix, live, p.entry.text, p.after)
            else p.after == s && NoneBefore(s.queue, prefix, live, |s.queue|)
  {
    var k := PeekIsFirst(s, 0, prefix, live);
    if Peek(s, 0, prefix, live).Got? {
      assert PeekedAt(s, prefix, live, k, s.queue[k].entry.text, Peek(s, 0, prefix, live).after);
    }
  }
}
