/** The pending events of a context: a linked list with a link to its last next field. */
module EventQueues {
  import opened Options
  import opened EventSpec

  // A place that points to an event: the head of the list, or the next field of an event.
  datatype Link = Unset | Head | NextOf(ev: Event)

  class Event {
    const entry: Entry
    var seen: bool
    var next: Event?

    constructor (entry: Entry)
      ensures this.entry == entry && !seen && next == null
    {
      this.entry, seen, next := entry, false, null;
    }
  }

  /** What the next field of an event of the list points to. */
  ghost function After(nodes: seq<Event>, i: nat): Event? {
    if i + 1 < |nodes| then nodes[i + 1] else null
  }

  ghost predicate Distinct(nodes: seq<Event>) {
    forall i, j :: 0 <= i < j < |nodes| ==> nodes[i] != nodes[j]
  }

  ghost predicate Chain(nodes: seq<Event>)
    reads nodes`next
  {
    forall i :: 0 <= i < |nodes| ==> nodes[i].next == After(nodes, i)
  }

  /** The events of the list hold the items of the queue. */
  ghost predicate Holds(nodes: seq<Event>, queue: seq<Item>)
    reads nodes`seen
  {
    && |nodes| == |queue|
    && forall i :: 0 <= i < |nodes| ==> nodes[i].entry == queue[i].entry && nodes[i].seen == queue[i].seen
  }

  lemma RemoveHolds(nodes: seq<Event>, queue: seq<Item>, i: nat)
    requires Holds(nodes, queue) && Distinct(nodes) && i < |nodes|
    ensures Holds(RemoveAt(nodes, i), RemoveAt(queue, i)) && Distinct(RemoveAt(nodes, i))
  {
  }

  /** Where the event before i links past it, the list without it is a chain with the same last event. */
  lemma RemoveChain(nodes: seq<Event>, i: nat)
    requires i < |nodes|
    requires forall j :: 0 <= j < |nodes| && j + 1 != i ==> nodes[j].next == After(nodes, j)
    requires i > 0 ==> nodes[i - 1].next == After(nodes, i)
    ensures Chain(RemoveAt(nodes, i))
  {
    var rest := RemoveAt(nodes, i);
    forall j | 0 <= j < |rest|
      ensures rest[j].next == After(rest, j)
    {
      if j + 1 < i {
        assert rest[j] == nodes[j] && rest[j + 1] == nodes[j + 1];
      } else if j + 1 == i {
        assert rest[j] == nodes[j];
        assert After(rest, j) == After(nodes, i);
      } else {
        assert rest[j] == nodes[j + 1];
        assert After(rest, j) == After(nodes, j + 1);
      }
    }
  }

  lemma AppendChain(nodes: seq<Event>, ev: Event)
    requires forall j :: 0 <= j < |nodes| ==> nodes[j].next == if j + 1 < |nodes| then After(nodes, j) else ev
    requires ev.next == null
    ensures Chain(nodes + [ev])
  {
    forall j | 0 <= j <= |nodes|
      ensures (nodes + [ev])[j].next == After(nodes + [ev], j)
    {
      assert j < |nodes| ==> (nodes + [ev])[j] == nodes[j];
    }
  }

  lemma AppendHolds(nodes: seq<Event>, queue: seq<Item>, ev: Event, item: Item)
    requires Holds(nodes, queue) && Distinct(nodes) && ev !in nodes
    requires ev.entry == item.entry && ev.seen == item.seen
    ensures Holds(nodes + [ev], queue + [item]) && Distinct(nodes + [ev])
  {
  }

  ghost function First(nodes: seq<Event>): Event? {
    if nodes == [] then null else nodes[0]
  }

  lemma RemoveFirst(nodes: seq<Event>, i: nat)
    requires i < |nodes|
    ensures First(RemoveAt(nodes, i)) == if i == 0 then After(nodes, 0) else nodes[0]
  {
  }

  /** The tail link of a list: its last next field, or the head when it is empty. */
  ghost predicate TailOf(tail: Link, nodes: seq<Event>) {
    if nodes == [] then tail == Unset || tail == Head else tail == NextOf(nodes[|nodes| - 1])
  }

  /** The link that points to the event at a position. */
  ghost predicate LinkAt(link: Link, nodes: seq<Event>, i: nat) {
    i <= |nodes| && link == if i == 0 then Head else NextOf(nodes[i - 1])
  }

  lemma RemoveTail(tail: Link, link: Link, nodes: seq<Event>, i: nat)
    requires i < |nodes| && TailOf(tail, nodes) && LinkAt(link, nodes, i)
    ensures TailOf(if i + 1 < |nodes| then tail else link, RemoveAt(nodes, i))
    ensures LinkAt(link, RemoveAt(nodes, i), i)
  {
  }

  class EventQueue {
    var events: Event?
    var tail: Link

    // The events of the list, and the history of the queue.
    ghost var nodes: seq<Event>
    ghost var s: State

    ghost predicate Valid()
      reads this, nodes
    {
      && Distinct(nodes) && Chain(nodes) && Holds(nodes, s.queue) && TailOf(tail, nodes)
      && events == First(nodes)
    }

    constructor ()
      ensures Valid() && s == EMPTY
    {
      events, tail, nodes, s := null, Unset, [], EMPTY;
    }

    /** Link a new event behind the last one; the tail link of a list that never had one is its head. */
    method LinkLast(ev: Event)
      requires Distinct(nodes) && Chain(nodes) && TailOf(tail, nodes) && events == First(nodes)
      requires ev !in nodes && ev.next == null
      modifies `events, `tail, nodes`next
      ensures Chain(nodes + [ev]) && TailOf(tail, nodes + [ev]) && events == First(nodes + [ev])
    {
      if tail == Unset {
        tail := Head;
      }
      SetLink(tail, ev, nodes, |nodes|);
      AppendChain(nodes, ev);
      tail := NextOf(ev);
    }

    ghost method Remember(ev: Event)
      requires Distinct(nodes) && Holds(nodes, s.queue) && ev !in nodes && !ev.seen
      modifies `nodes, `s
      ensures nodes == old(nodes) + [ev] && s == EventSpec.Inject(old(s), ev.entry)
      ensures Distinct(nodes) && Holds(nodes, s.queue)
    {
      AppendHolds(nodes, s.queue, ev, Item(|s.fates|, ev.entry, false));
      nodes, s := nodes + [ev], EventSpec.Inject(s, ev.entry);
    }

    method Inject(entry: Entry)
      requires Valid()
      modifies this, nodes`next
      ensures Valid() && s == EventSpec.Inject(old(s), entry)
      ensures s.queue == old(s).queue + [Item(|old(s).fates|, entry, false)] && s.fates == old(s).fates + [Fate.Queued]
      ensures s.delivered == old(s).delivered
      ensures |nodes| == |old(nodes)| + 1 && nodes[..|old(nodes)|] == old(nodes) && fresh(nodes[|old(nodes)|])
    {
      var ev := new Event(entry);
      LinkLast(ev);
      Remember(ev);
    }

    /** Make a link of a list point to another event, or to none. */
    method SetLink(link: Link, ev: Event?, ghost all: seq<Event>, ghost i: nat)
      requires Distinct(all) && LinkAt(link, all, i)
      modifies `events, all`next
      ensures forall j :: 0 <= j < |all| && j + 1 != i ==> all[j].next == old(all[j].next)
      ensures if i == 0 then events == ev else events == old(events) && all[i - 1].next == ev
    {
      if link.NextOf? {
        link.ev.next := ev;
      } else {
        events := ev;
      }
    }

    /** Link past the event at a position; the tail link follows when it was the last. */
    method LinkPast(link: Link, ev: Event, ghost all: seq<Event>, ghost i: nat)
      requires Distinct(all) && Chain(all) && TailOf(tail, all) && events == First(all)
      requires i < |all| && LinkAt(link, all, i) && all[i] == ev
      modifies `events, `tail, all`next
      ensures Chain(RemoveAt(all, i)) && TailOf(tail, RemoveAt(all, i)) && events == First(RemoveAt(all, i))
      ensures LinkAt(link, RemoveAt(all, i), i)
    {
      RemoveTail(tail, link, all, i);
      RemoveFirst(all, i);
      var next := ev.next;
      SetLink(link, next, all, i);
      RemoveChain(all, i);
      if next == null {
        tail := link;
      }
    }

    ghost method Forget(i: nat, fate: Fate)
      requires Distinct(nodes) && Holds(nodes, s.queue) && i < |nodes|
      modifies `nodes, `s
      ensures nodes == RemoveAt(old(nodes), i) && s == Drop(old(s), i, fate)
      ensures Distinct(nodes) && Holds(nodes, s.queue)
    {
      RemoveHolds(nodes, s.queue, i);
      nodes, s := RemoveAt(nodes, i), Drop(s, i, fate);
    }

    /** Take the event at a position out of the list. */
    method Unlink(link: Link, ev: Event, ghost i: nat, ghost fate: Fate)
      requires Valid() && i < |nodes| && LinkAt(link, nodes, i) && nodes[i] == ev
      modifies this, nodes`next
      ensures Valid() && nodes == RemoveAt(old(nodes), i) && s == Drop(old(s), i, fate)
      ensures LinkAt(link, nodes, i)
    {
      LinkPast(link, ev, nodes, i);
      Forget(i, fate);
    }

    /** The events of the list are among earlier ones. */
    ghost predicate Among(earlier: seq<Event>)
      reads this`nodes
    {
      forall j :: 0 <= j < |nodes| ==> nodes[j] in earlier
    }

    /** The event that a link points to. */
    method Follow(link: Link, ghost i: nat) returns (ev: Event?)
      requires Valid() && LinkAt(link, nodes, i)
      ensures ev == if i < |nodes| then nodes[i] else null
    {
      ev := if link.NextOf? then link.ev.next else events;
    }

    /** A walk along the list: a link at a position, the event there, and events of the list at the start. */
    ghost predicate Walk(link: Link, i: nat, ev: Event?, start: seq<Event>)
      reads this, nodes
    {
      && Valid() && Among(start) && LinkAt(link, nodes, i)
      && ev == if i < |nodes| then nodes[i] else null
    }

    method WalkUnlink(link: Link, ev: Event, ghost i: nat, ghost fate: Fate, ghost start: seq<Event>)
      returns (next: Event?)
      requires Walk(link, i, ev, start)
      modifies this, nodes`next
      ensures Walk(link, i, next, start) && |nodes| < |old(nodes)|
      ensures i < |old(s).queue| && s == Drop(old(s), i, fate)
      ensures old(s).queue[i].entry == ev.entry && old(s).queue[i].seen == old(ev.seen)
    {
      Unlink(link, ev, i, fate);
      next := Follow(link, i);
    }

    method Take() returns (r: Option<string>)
      requires Valid()
      modifies this, nodes`next
      ensures Valid() && s == EventSpec.Take(old(s))
      ensures s.queue == (if old(s).queue == [] then [] else old(s).queue[1..]) && s.delivered == old(s).delivered
      ensures r == if old(s).queue == [] then None else Some(old(s).queue[0].entry.text)
    {
      if events == null {
        return None;
      }
      var ev: Event := events;
      Unlink(Head, ev, 0, Taken);
      r := Some(ev.entry.text);
    }

    /** Leave the event of a walk in the list. */
    method Pass(link: Link, ev: Event, ghost i: nat, ghost start: seq<Event>)
      returns (linkOn: Link, next: Event?, ghost k: nat)
      requires Walk(link, i, ev, start)
      ensures Walk(linkOn, k, next, start) && k == i + 1 <= |s.queue|
      ensures s.queue[i].entry == ev.entry && s.queue[i].seen == ev.seen
    {
      next := ev.next;
      linkOn, k := NextOf(ev), i + 1;
    }

    method PurgeStep(link: Link, ev: Event, ghost i: nat, ghost start: seq<Event>)
      returns (linkOn: Link, next: Event?, ghost k: nat)
      requires Walk(link, i, ev, start)
      modifies this, nodes`next
      ensures Walk(linkOn, k, next, start) && |nodes| - k < |old(nodes)| - i
      ensures i <= |old(s).queue| && EventSpec.Purge(s, k) == EventSpec.Purge(old(s), i)
    {
      if !ev.seen {
        linkOn, next, k := Pass(link, ev, i, start);
      } else {
        next := WalkUnlink(link, ev, i, Purged, start);
        linkOn, k := link, i;
      }
    }

    /** Drop the events that a waiter has seen. */
    method Purge()
      requires Valid()
      modifies this, nodes`next
      ensures Valid() && s == EventSpec.Purge(old(s), 0) && Sheds(old(s), 0, IsSeen, Purged, s)
    {
      PurgeSheds(s, 0);
      var link, ev := Head, events;
      ghost var i := 0;
      while ev != null
        invariant Walk(link, i, ev, old(nodes))
        invariant EventSpec.Purge(s, i) == EventSpec.Purge(old(s), 0)
        decreases |nodes| - i
      {
        link, ev, i := PurgeStep(link, ev, i, old(nodes));
      }
    }

    method DropOwnerStep(link: Link, ev: Event, owner: Owner, ghost i: nat, ghost start: seq<Event>)
      returns (linkOn: Link, next: Event?, ghost k: nat)
      requires Walk(link, i, ev, start)
      modifies this, nodes`next
      ensures Walk(linkOn, k, next, start) && |nodes| - k < |old(nodes)| - i
      ensures i <= |old(s).queue| && EventSpec.DropOwner(s, k, owner) == EventSpec.DropOwner(old(s), i, owner)
    {
      DropOwnerOne(s, i, owner);
      if ev.entry.owner != owner {
        linkOn, next, k := Pass(link, ev, i, start);
      } else {
        next := WalkUnlink(link, ev, i, OwnerDropped, start);
        linkOn, k := link, i;
      }
    }

    /** Drop the events of an owner, and no others; without a name none. */
    method DropOwner(owner: Owner)
      requires Valid()
      modifies this, nodes`next
      ensures Valid() && s == if owner.Names() then EventSpec.DropOwner(old(s), 0, owner) else old(s)
      ensures if owner == NoOwner || owner.name == "" then s == old(s)
              else Sheds(old(s), 0, IsOf(owner), OwnerDropped, s)
    {
      if !owner.Names() {
        return;
      }
      DropOwnerSheds(s, 0, owner);
      var link, ev := Head, events;
      ghost var i := 0;
      while ev != null
        invariant Walk(link, i, ev, old(nodes))
        invariant EventSpec.DropOwner(s, i, owner) == EventSpec.DropOwner(old(s), 0, owner)
        decreases |nodes| - i
      {
        link, ev, i := DropOwnerStep(link, ev, owner, i, old(nodes));
      }
    }

    method DeliverAt(link: Link, ev: Event, ghost i: nat) returns (r: Option<Entry>)
      requires Valid() && i < |nodes| && LinkAt(link, nodes, i) && nodes[i] == ev
      modifies this, nodes`next
      ensures Valid() && i < |old(s).queue| && r == Some(old(s).queue[i].entry) && s == Deliver(old(s), i)
    {
      ghost var n := s.queue[i].serial;
      Unlink(link, ev, i, Delivered);
      s := s.(delivered := s.delivered + [n]);
      r := Some(ev.entry);
    }

    /** Pass or drop an event of a walk that a live take does not deliver. */
    method TakeLiveStep(link: Link, ev: Event, live: Live, ghost i: nat, ghost start: seq<Event>)
      returns (linkOn: Link, next: Event?, ghost k: nat)
      requires Walk(link, i, ev, start) && (ev.seen || !live.Has(ev.entry.owner))
      modifies this, nodes`next
      ensures Walk(linkOn, k, next, start) && |nodes| - k < |old(nodes)| - i
      ensures i <= |old(s).queue| && EventSpec.TakeLive(s, k, live) == EventSpec.TakeLive(old(s), i, live)
    {
      if ev.seen {
        linkOn, next, k := Pass(link, ev, i, start);
      } else {
        next := WalkUnlink(link, ev, i, Stale, start);
        linkOn, k := link, i;
      }
    }

    /** Take the oldest event that no waiter has seen and whose owner is live; drop the stale ones before it. */
    method TakeLive(live: Live) returns (r: Option<Entry>)
      requires Valid()
      modifies this, nodes`next
      ensures Valid()
      ensures var t := EventSpec.TakeLive(old(s), 0, live);
              s == t.after && r == if t.Got? then Some(t.entry) else None
      ensures if r.Some? then !Settled(r.value.owner, live) else AllSettled(old(s).queue, live)
    {
      TakeLiveHands(s, live);
      var link, ev := Head, events;
      ghost var i := 0;
      while ev != null && (ev.seen || !live.Has(ev.entry.owner))
        invariant Walk(link, i, ev, old(nodes))
        invariant EventSpec.TakeLive(s, i, live) == EventSpec.TakeLive(old(s), 0, live)
        decreases |nodes| - i
      {
        link, ev, i := TakeLiveStep(link, ev, live, i, old(nodes));
      }
      if ev == null {
        return None;
      }
      r := DeliverAt(link, ev, i);
    }

    method Mark(ev: Event, ghost i: nat)
      requires Valid() && i < |nodes| && nodes[i] == ev
      modifies `s, ev`seen
      ensures Valid() && i < |old(s).queue|
      ensures s == old(s).(queue := old(s).queue[i := old(s).queue[i].(seen := true)])
    {
      ev.seen := true;
      s := s.(queue := s.queue[i := s.queue[i].(seen := true)]);
    }

    method PeekStep(link: Link, ev: Event, prefix: string, live: Live, ghost i: nat, ghost start: seq<Event>)
      returns (linkOn: Link, next: Event?, ghost k: nat)
      requires Walk(link, i, ev, start) && !Matches(ev.entry, prefix, live)
      ensures Walk(linkOn, k, next, start) && k == i + 1
      ensures k <= |s.queue| && EventSpec.Peek(s, k, prefix, live) == EventSpec.Peek(s, i, prefix, live)
    {
      linkOn, next, k := Pass(link, ev, i, start);
    }

    /** Find the oldest live event with a prefix. */
    method Find(prefix: string, live: Live) returns (ev: Event?, ghost i: nat)
      requires Valid()
      ensures i <= |nodes| && |nodes| == |s.queue|
      ensures EventSpec.Peek(s, i, prefix, live) == EventSpec.Peek(s, 0, prefix, live)
      ensures if ev == null then i == |nodes| else i < |nodes| && ev == nodes[i] && Matches(ev.entry, prefix, live)
    {
      var link := Head;
      ev, i := events, 0;
      while ev != null && !Matches(ev.entry, prefix, live)
        invariant Walk(link, i, ev, old(nodes)) && i <= |s.queue|
        invariant EventSpec.Peek(s, i, prefix, live) == EventSpec.Peek(s, 0, prefix, live)
        decreases |nodes| - i
      {
        link, ev, i := PeekStep(link, ev, prefix, live, i, old(nodes));
      }
    }

    /** Hand the oldest live event with a prefix to a waiter, and leave it in the list. */
    method Peek(prefix: string, live: Live) returns (r: Option<string>)
      requires Valid()
      modifies `s, nodes`seen
      ensures Valid() && nodes == old(nodes)
      ensures var p := EventSpec.Peek(old(s), 0, prefix, live);
              s == p.after && r == if p.Got? then Some(p.entry.text) else None
      ensures if r.Some? then Peeked(old(s), prefix, live, r.value, s)
              else s == old(s) && NoneBefore(s.queue, prefix, live, |s.queue|)
    {
      PeekHands(s, prefix, live);
      ghost var i;
      var ev;
      ev, i := Find(prefix, live);
      if ev == null {
        return None;
      }
      Mark(ev, i);
      r := Some(ev.entry.text);
    }

    /** Whether an event waits that no waiter has seen. */
    method Queued() returns (r: bool)
      requires Valid()
      ensures r <==> exists i :: 0 <= i < |s.queue| && !s.queue[i].seen
    {
      var link, ev := Head, events;
      ghost var i := 0;
      while ev != null
        invariant Walk(link, i, ev, old(nodes))
        invariant forall j :: 0 <= j < i ==> s.queue[j].seen
        decreases |nodes| - i
      {
        if !ev.seen {
          return true;
        }
        link, ev, i := Pass(link, ev, i, old(nodes));
      }
      r := false;
    }
  }
}
