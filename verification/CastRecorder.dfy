/** The recorder of a recording: chunks of output come in, events with valid text go out. */
module CastRecorders {
  import opened Options
  import opened Utf8
  import opened CastLog

  /** The loop decides whether a body is a cursor position with changes of visibility behind it. */
  method BodyIsCursor(body: Bytes) returns (cursor: bool)
    ensures cursor <==> IsCursor(body)
    ensures cursor <==> PutsCursor(body)
  {
    IsCursorIff(body);
    var i := 0;
    if 2 < |body| && body[0] == 0x1B && body[1] == '[' as int {
      var j := 2;
      while j < |body| && IsNumeric(body[j])
        invariant 2 <= j <= |body| && NumbersEnd(body, j) == NumbersEnd(body, 2)
      {
        j := j + 1;
      }
      if j < |body| && body[j] == 'H' as int {
        i := j + 1;
      }
    }
    while i < |body|
      invariant i <= |body| && (OnlyVisibility(body, i) <==> IsCursor(body))
    {
      if |body| - i >= 6 && body[i..i + 5] == CURSOR && (body[i + 5] == 'h' as int || body[i + 5] == 'l' as int) {
        i := i + 6;
      } else {
        return false;
      }
    }
    cursor := true;
  }

  lemma ReplacementIsRepaired()
    ensures Put([], REPLACEMENT) == Repaired(REPLACEMENT, [])
  {
    assert ScanOf(REPLACEMENT) == Whole(3);
    assert REPLACEMENT[3..] == [] && REPLACEMENT[..3] == REPLACEMENT;
  }

  lemma PrependEmpty(r: Repaired)
    ensures Prepend([], r) == r
  {
  }

  // How repair goes on at a position, behind some text.
  lemma RepairCut(s: Bytes, i: nat, text: Bytes)
    requires i < |s| && ScanOf(s[i..]).Cut?
    ensures Prepend(text, Repair(s[i..])) == Repaired(text, s[i..])
  {
    assert text + [] == text;
  }

  lemma RepairWhole(s: Bytes, i: nat, text: Bytes, n: nat)
    requires i < |s| && ScanOf(s[i..]) == Whole(n)
    ensures i + n <= |s| && Prepend(text, Repair(s[i..])) == Prepend(text + s[i..i + n], Repair(s[i + n..]))
  {
    assert s[i..][n..] == s[i + n..] && s[i..][..n] == s[i..i + n];
    PrependPrepend(text, s[i..i + n], Repair(s[i + n..]));
  }

  lemma RepairInvalid(s: Bytes, i: nat, text: Bytes)
    requires i < |s| && ScanOf(s[i..]).Invalid?
    ensures Prepend(text, Repair(s[i..])) == Prepend(text + REPLACEMENT, Repair(s[i + 1..]))
  {
    assert s[i..][1..] == s[i + 1..];
    PrependPrepend(text, REPLACEMENT, Repair(s[i + 1..]));
  }

  lemma RepairEnd(s: Bytes, text: Bytes)
    ensures Prepend(text, Repair(s[|s|..])) == Repaired(text, [])
  {
    assert s[|s|..] == [];
    assert text + [] == text;
  }

  /** The repair of what is left of a piece, behind some text. */
  function From(s: Bytes, i: nat, text: Bytes): Repaired
    requires i <= |s|
  {
    Prepend(text, Repair(s[i..]))
  }

  /** Repair one character, or keep the start of one. */
  method RepairNext(s: Bytes, i: nat, text: Bytes) returns (next: nat, more: Bytes, hold: Bytes)
    requires i < |s|
    ensures i <= next <= |s|
    ensures if next == i then Repaired(more, hold) == From(s, i, text) else From(s, next, more) == From(s, i, text)
  {
    hold := [];
    match ScanOf(s[i..]) {
      case Cut =>
        RepairCut(s, i, text);
        return i, text, s[i..];
      case Whole(n) =>
        RepairWhole(s, i, text, n);
        next, more := i + n, text + s[i..i + n];
      case Invalid =>
        RepairInvalid(s, i, text);
        next, more := i + 1, text + REPLACEMENT;
    }
  }

  /** Repair a piece of output from a position on; a start of a character at the end is kept. */
  method RepairFrom(s: Bytes, from: nat, before: Bytes) returns (text: Bytes, hold: Bytes)
    requires from <= |s|
    ensures Repaired(text, hold) == From(s, from, before)
  {
    text, hold := before, [];
    var i := from;
    while i < |s|
      invariant from <= i <= |s| && From(s, i, text) == From(s, from, before)
    {
      var next, more, rest := RepairNext(s, i, text);
      if next == i {
        return more, rest;
      }
      i, text := next, more;
    }
    RepairEnd(s, text);
  }

  /** Repair a piece of output after the start of a character that was kept. */
  method PutText(hold: Bytes, piece: Bytes) returns (text: Bytes, rest: Bytes)
    requires IsHold(hold)
    ensures Repaired(text, rest) == Put(hold, piece)
  {
    assert piece[0..] == piece;
    if hold == [] {
      PrependEmpty(Repair(piece));
      text, rest := RepairFrom(piece, 0, []);
      return;
    }
    var joined := Joined(hold, piece);
    JoinedScan(hold, piece);
    match ScanOf(joined) {
      case Cut =>
        text, rest := [], joined;
      case Whole(n) =>
        text, rest := RepairFrom(piece, n - |hold|, joined[..n]);
      case Invalid =>
        text, rest := RepairFrom(piece, 0, REPLACEMENT);
    }
  }

  /** The end of an update starts behind its begin: the two do not overlap. */
  lemma EndIsBehindBegin(block: Bytes, i: nat)
    requires |block| >= SYNC && block[..SYNC] == BEGIN && Matches(block, END, i)
    ensures i >= SYNC
  {
    assert block[i..i + SYNC][0] == 0x1B && block[i..i + SYNC][7] == 'l' as int;
    assert block[7] == block[..SYNC][7] == 'h' as int;
    forall k | 0 <= k < SYNC ensures block[k] == BEGIN[k] {
      assert block[k] == block[..SYNC][k];
    }
  }

  lemma MatchesPrefix(a: Bytes, b: Bytes, pattern: Bytes, i: nat)
    requires i + |pattern| <= |a|
    ensures Matches(a + b, pattern, i) <==> Matches(a, pattern, i)
  {
    assert (a + b)[i..i + |pattern|] == a[i..i + |pattern|];
  }

  /** An update that has no end yet gets one only where the new bytes are. */
  lemma EndIsNew(block: Bytes, more: Bytes, i: nat)
    requires (forall j :: 0 <= j ==> !Matches(block, END, j)) && Matches(block + more, END, i)
    ensures i + SYNC > |block|
  {
    if i + SYNC <= |block| {
      MatchesPrefix(block, more, END, i);
    }
  }

  class CastRecorder {
    // The bytes of an unfinished character, an update that has not ended, and the body of the last
    // recorded update where that is a cursor body.
    var hold: Bytes
    var block: Bytes
    var inSync: bool
    var noop: Option<Bytes>
    // The texts of the events.
    var texts: seq<Bytes>

    // What the recorder did with the output, and all output so far.
    ghost var log: Log
    ghost var input: Bytes

    ghost predicate Synced()
      reads this
    {
      && DropsRepeats(log) && Record(log) == Recording(texts, hold)
      && noop == match LastKept(log)
                 case Some(Update(body)) => if IsCursor(body) then Some(body) else None
                 case _ => None
    }

    ghost predicate Holds(b: Bytes) {
      SYNC <= |b| <= SYNC_MAX && b[..SYNC] == BEGIN && forall j :: 0 <= j ==> !Matches(b, END, j)
    }

    ghost predicate Valid()
      reads this
    {
      Synced() && Given(log) + Pending() == input && (inSync ==> Holds(block))
    }

    constructor ()
      ensures Valid() && input == [] && log == Empty
    {
      hold, block, inSync, noop, texts := [], [], false, None, [];
      log, input := Empty, [];
    }

    /** Write an event with output that is not an update. */
    method WritePlain(bytes: Bytes)
      requires Synced() && IsPlain(bytes)
      modifies `hold, `texts, `noop, `log
      ensures Synced() && log == Then(old(log), Plain(bytes))
    {
      noop := None;
      var text;
      text, hold := PutText(hold, bytes);
      texts := texts + [text];
      log := Then(log, Plain(bytes));
    }

    /** Log a complete update as dropped exactly when it repeats, and else as recorded. */
    method SyncDone(ended: Bytes)
      requires Synced() && |ended| >= 2 * SYNC && ended[..SYNC] == BEGIN && ended[|ended| - SYNC..] == END
      requires forall j :: 0 <= j < |ended| - SYNC ==> !Matches(ended, END, j)
      modifies `hold, `texts, `noop, `log
      ensures Synced() && Given(log) == Given(old(log)) + ended
    {
      var body := ended[SYNC..|ended| - SYNC];
      assert ended == Block(body);
      var cursor := BodyIsCursor(body);
      if cursor && noop == Some(body) {
        log := Then(log, Dropped(body));
        return;
      }
      noop := if cursor then Some(body) else None;
      var text;
      text, hold := PutText(hold, ended);
      texts := texts + [text];
      log := Then(log, Update(body));
    }

    /** A begun update, empty where its begin comes first. */
    ghost predicate Begun(more: Bytes)
      reads `block
    {
      if block == [] then |more| >= SYNC && more[..SYNC] == BEGIN else Holds(block)
    }

    static predicate Ends(b: Bytes, end: nat) {
      2 * SYNC <= end <= |b| && b[end - SYNC..end] == END
    }

    /** Add output to an update that has begun, and find its end; zero when there is none. */
    method Append(more: Bytes) returns (end: nat)
      requires Begun(more)
      modifies `block
      ensures block == old(block) + more && |block| >= SYNC && block[..SYNC] == BEGIN
      ensures end == 0 ==> forall j :: 0 <= j ==> !Matches(block, END, j)
      ensures end > 0 ==> Ends(block, end) && |block| - end < |more|
      ensures end > 0 ==> forall j :: 0 <= j < end - SYNC ==> !Matches(block[..end], END, j)
    {
      var used := |block|;
      ghost var was := block;
      block := block + more;
      assert was != [] ==> block[..SYNC] == was[..SYNC];
      assert was == [] ==> block == more;
      var e := Find(block, END, if used > SYNC then used - SYNC else 0);
      if e.None? {
        NoEnd(was, more, used);
        return 0;
      }
      EndIsBehindBegin(block, e.value);
      if was != [] {
        EndIsNew(was, more, e.value);
      }
      end := e.value + SYNC;
      FirstEnd(was, more, e.value, block[..end]);
    }

    /** There is no end before the one that is found. */
    static lemma FirstEnd(was: Bytes, more: Bytes, e: nat, front: Bytes)
      requires e + SYNC <= |was + more| && front == (was + more)[..e + SYNC]
      requires (was != [] ==> forall j :: 0 <= j ==> !Matches(was, END, j))
      requires forall j :: (if |was| > SYNC then |was| - SYNC else 0) <= j < e ==> !Matches(was + more, END, j)
      ensures forall j :: 0 <= j < e ==> !Matches(front, END, j)
    {
      var all := was + more;
      forall j | 0 <= j < e ensures !Matches(front, END, j) {
        if Matches(all, END, j) && was != [] {
          EndIsNew(was, more, j);
        }
        assert all == front + all[e + SYNC..];
        MatchesPrefix(front, all[e + SYNC..], END, j);
      }
    }

    static lemma SplitBlock(given: Bytes, b: Bytes, end: nat)
      requires |b| >= SYNC && b[..SYNC] == BEGIN && Ends(b, end)
      ensures b[..end][..SYNC] == BEGIN && b[..end][end - SYNC..] == END
      ensures given + b == (given + b[..end]) + b[end..]
    {
    }

    /** Add output to an update that has begun; what follows its end is returned. */
    method Extend(more: Bytes) returns (tail: Bytes)
      requires Synced() && inSync && Begun(more) && Given(log) + (block + more) == input
      modifies `hold, `texts, `noop, `log, `block, `inSync
      ensures Synced() && (inSync ==> Holds(block) && tail == []) && (tail != [] ==> |tail| < |more|)
      ensures Given(log) + (if inSync then block else tail) == input
    {
      var end := Append(more);
      tail := [];
      if end > 0 {
        SplitBlock(Given(log), block, end);
        SyncDone(block[..end]);
        inSync := false;
        tail := block[end..];
      } else if |block| > SYNC_MAX {
        inSync := false;
        WritePlain(block);
        assert Given(log) + [] == Given(log);
      }
    }

    static lemma NoEnd(was: Bytes, more: Bytes, used: nat)
      requires used == |was| && (was != [] ==> forall j :: 0 <= j ==> !Matches(was, END, j))
      requires Find(was + more, END, if used > SYNC then used - SYNC else 0).None?
      ensures forall j :: 0 <= j ==> !Matches(was + more, END, j)
    {
      forall j | 0 <= j ensures !Matches(was + more, END, j) {
        if Matches(was + more, END, j) && was != [] {
          EndIsNew(was, more, j);
        }
      }
    }

    static lemma NoBegin(p: Bytes, b: nat)
      requires b <= |p| && forall j :: 0 <= j < b ==> !Matches(p, BEGIN, j)
      ensures IsPlain(p[..b])
    {
      CutAt(p, b);
      forall j | 0 <= j ensures !Matches(p[..b], BEGIN, j) {
        if j + SYNC <= b {
          MatchesPrefix(p[..b], p[b..], BEGIN, j);
        }
      }
    }

    /** Record the output before the next update, and begin that update. */
    method Start(p: Bytes) returns (rest: Bytes)
      requires Synced() && !inSync && Given(log) + p == input
      modifies `hold, `texts, `noop, `log, `block, `inSync
      ensures Synced() && |rest| <= |p| && inSync == (rest != [])
      ensures Given(log) + rest == input
      ensures inSync ==> block == [] && |rest| >= SYNC && rest[..SYNC] == BEGIN
    {
      var b := Find(p, BEGIN, 0);
      if b.None? {
        WritePlain(p);
        assert Given(log) + [] == Given(log);
        return [];
      }
      rest := p[b.value..];
      assert rest[..SYNC] == p[b.value..b.value + SYNC];
      CutAt(p, b.value);
      Regroup(Given(log), p[..b.value], rest);
      if b.value > 0 {
        NoBegin(p, b.value);
        WritePlain(p[..b.value]);
      } else {
        assert rest == p;
      }
      inSync, block := true, [];
    }

    /** Output that waits for the end of an update. */
    ghost function Pending(): Bytes
      reads this
    {
      if inSync then block else []
    }

    static lemma NothingMore(given: Bytes, pending: Bytes)
      ensures given + (pending + []) == given + pending && given + ([] + pending) == given + pending
    {
    }

    method Take(p: Bytes)
      requires Synced() && (inSync ==> Holds(block)) && Given(log) + (Pending() + p) == input
      modifies `hold, `texts, `noop, `log, `block, `inSync
      ensures Valid()
      decreases |p|
    {
      var more := p;
      if !inSync {
        NothingMore(Given(log), p);
        more := Start(p);
        NothingMore(Given(log), more);
      } else {
        NothingMore(Given(log), block);
      }
      if more == [] {
        return;
      }
      var tail := Extend(more);
      if tail != [] {
        NothingMore(Given(log), tail);
        Take(tail);
      }
    }

    /** Take a chunk of output. */
    method Output(data: Bytes)
      requires Valid()
      modifies this
      ensures Valid() && input == old(input) + data
    {
      Regroup(Given(log), Pending(), data);
      input := input + data;
      if data == [] {
        assert input == old(input);
        return;
      }
      Take(data);
    }

    /** Record an update that never ended. */
    method Flush()
      requires Valid()
      modifies `hold, `texts, `noop, `log, `inSync
      ensures Synced() && Given(log) == input && !inSync
    {
      assert Given(log) + [] == Given(log);
      if inSync {
        inSync := false;
        WritePlain(block);
      }
    }

    /** Replace a character that never ended. */
    method EndText()
      requires IsHold(hold)
      modifies `hold, `texts
      ensures texts == old(texts) + (if old(hold) != [] then [REPLACEMENT] else []) && hold == []
    {
      if hold != [] {
        hold := [];
        ReplacementIsRepaired();
        var text;
        text, hold := PutText(hold, REPLACEMENT);
        texts := texts + [text];
      }
    }

    /**
     * End a recording. For valid output the recorded text is the output without the updates that repeat
     * the cursor. For any output each recorded text is valid, and the recorded text is the repair of all that
     * was recorded exactly when no cut lost a replacement.
     */
    method Close()
      requires Valid()
      modifies this
      ensures DropsRepeats(log) && Given(log) == input == old(input) && !inSync && hold == []
      ensures texts == Closed(log)
      ensures Concat(texts) == RepairAll(Kept(log)) <==> LostBy(log) == 0
      ensures forall i :: 0 <= i < |texts| ==> Utf8.Valid(texts[i])
      ensures Utf8.Valid(input) ==> Concat(texts) == Kept(log)
    {
      Flush();
      EndText();
      ReplacementValid();
      ClosedIsRepairIff(log);
      assert Record(log).texts + [] == Record(log).texts;
      if Utf8.Valid(input) {
        ValidOutputIsRecorded(log);
      }
    }
  }
}
