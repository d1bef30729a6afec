/** What a recording of output keeps: all of it but updates that only repeat the cursor. */
module CastLog {
  import opened Options
  import opened Utf8

  const BEGIN: Bytes := [0x1B, '[' as int, '?' as int, '2' as int, '0' as int, '2' as int, '6' as int, 'h' as int]
  const END: Bytes := [0x1B, '[' as int, '?' as int, '2' as int, '0' as int, '2' as int, '6' as int, 'l' as int]
  const SYNC := 8
  const SYNC_MAX := 1024 * 1024

  // ---------------------------------------------------------------- bytes in bytes

  predicate Matches(s: Bytes, pattern: Bytes, i: nat) {
    i + |pattern| <= |s| && s[i..i + |pattern|] == pattern
  }

  /** The first place of a pattern from a position on. */
  function Find(s: Bytes, pattern: Bytes, from: nat): (r: Option<nat>)
    ensures r.Some? ==> from <= r.value && Matches(s, pattern, r.value)
    ensures r.Some? ==> forall j :: from <= j < r.value ==> !Matches(s, pattern, j)
    ensures r.None? ==> forall j :: from <= j ==> !Matches(s, pattern, j)
    decreases |s| - from
  {
    if from + |pattern| > |s| then None
    else if Matches(s, pattern, from) then Some(from)
    else Find(s, pattern, from + 1)
  }

  /** A pattern is at a place exactly when each of its bytes is there. */
  lemma MatchesIff(s: Bytes, pattern: Bytes, i: nat)
    ensures Matches(s, pattern, i) <==>
            i + |pattern| <= |s| && forall k :: 0 <= k < |pattern| ==> s[i + k] == pattern[k]
  {
    if i + |pattern| <= |s| {
      var part := s[i..i + |pattern|];
      assert forall k :: 0 <= k < |pattern| ==> part[k] == s[i + k];
    }
  }

  // ---------------------------------------------------------------- bodies that only put the cursor

  predicate IsNumeric(b: Byte) {
    '0' as int <= b <= '9' as int || b == ';' as int
  }

  /** Where the digits and semicolons from a position on end. */
  function NumbersEnd(body: Bytes, i: nat): (j: nat)
    requires i <= |body|
    ensures i <= j <= |body| && (j < |body| ==> !IsNumeric(body[j]))
    ensures forall k :: i <= k < j ==> IsNumeric(body[k])
    decreases |body| - i
  {
    if i < |body| && IsNumeric(body[i]) then NumbersEnd(body, i + 1) else i
  }

  /** Where a position at the start of a body ends; at its start when there is none. */
  function PositionEnd(body: Bytes): (i: nat)
    ensures i <= |body|
  {
    if 2 < |body| && body[0] == 0x1B && body[1] == '[' as int then
      var j := NumbersEnd(body, 2);
      if j < |body| && body[j] == 'H' as int then j + 1 else 0
    else 0
  }

  const CURSOR: Bytes := [0x1B, '[' as int, '?' as int, '2' as int, '5' as int]

  /** Only commands that show or hide the cursor from a position on. */
  predicate OnlyVisibility(body: Bytes, i: nat)
    requires i <= |body|
    decreases |body| - i
  {
    i == |body|
    || (|body| - i >= 6 && body[i..i + 5] == CURSOR && (body[i + 5] == 'h' as int || body[i + 5] == 'l' as int)
        && OnlyVisibility(body, i + 6))
  }

  predicate IsCursor(body: Bytes) {
    OnlyVisibility(body, PositionEnd(body))
  }

  /** ESC, "[", digits and semicolons, and "H" up to i. */
  ghost predicate PutsTo(body: Bytes, i: nat) {
    && 3 <= i <= |body| && body[0] == 27 && body[1] == '[' as int && body[i - 1] == 'H' as int
    && forall k :: 2 <= k < i - 1 ==> '0' as int <= body[k] <= '9' as int || body[k] == ';' as int
  }

  /** ESC, "[?25", and "h" or "l" at i. */
  ghost predicate ShowsAt(body: Bytes, i: nat) {
    && i + 6 <= |body| && body[i] == 27 && body[i + 1] == '[' as int && body[i + 2] == '?' as int
    && body[i + 3] == '2' as int && body[i + 4] == '5' as int
    && (body[i + 5] == 'h' as int || body[i + 5] == 'l' as int)
  }

  /** From i on there are only commands that show or hide the cursor, of six bytes each. */
  ghost predicate ShowsFrom(body: Bytes, i: nat) {
    i <= |body| && (|body| - i) % 6 == 0 && forall k :: i <= k < |body| && (k - i) % 6 == 0 ==> ShowsAt(body, k)
  }

  /** A position of the cursor or none, and behind it only commands that show or hide it. */
  ghost predicate PutsCursor(body: Bytes) {
    ShowsFrom(body, 0) || exists i :: PutsTo(body, i) && ShowsFrom(body, i)
  }

  lemma ShowsIs(body: Bytes, i: nat)
    ensures ShowsAt(body, i) <==>
            i + 6 <= |body| && body[i..i + 5] == CURSOR && (body[i + 5] == 'h' as int || body[i + 5] == 'l' as int)
  {
    if i + 6 <= |body| && body[i..i + 5] == CURSOR {
      assert body[i] == CURSOR[0] && body[i + 1] == CURSOR[1] && body[i + 2] == CURSOR[2];
      assert body[i + 3] == CURSOR[3] && body[i + 4] == CURSOR[4];
    }
  }

  lemma ShowsOne(body: Bytes, i: nat)
    requires i < |body|
    ensures ShowsFrom(body, i) <==> ShowsAt(body, i) && ShowsFrom(body, i + 6)
  {
    if ShowsAt(body, i) && ShowsFrom(body, i + 6) {
      forall k | i <= k < |body| && (k - i) % 6 == 0 ensures ShowsAt(body, k) {
        assert k == i || (k >= i + 6 && (k - (i + 6)) % 6 == 0);
      }
    }
    if ShowsFrom(body, i) {
      assert (i - i) % 6 == 0;
      forall k | i + 6 <= k < |body| && (k - (i + 6)) % 6 == 0 ensures ShowsAt(body, k) {
        assert (k - i) % 6 == 0;
      }
    }
  }

  lemma {:induction false} VisibilityIs(body: Bytes, i: nat)
    requires i <= |body|
    ensures OnlyVisibility(body, i) <==> ShowsFrom(body, i)
    decreases |body| - i
  {
    if i < |body| {
      ShowsIs(body, i);
      ShowsOne(body, i);
      if i + 6 <= |body| {
        VisibilityIs(body, i + 6);
      }
    }
  }

  lemma PositionIs(body: Bytes)
    ensures PositionEnd(body) == 0 ==> forall i :: !PutsTo(body, i)
    ensures PositionEnd(body) != 0 ==> forall i :: PutsTo(body, i) <==> i == PositionEnd(body)
    ensures PositionEnd(body) != 0 ==> !ShowsFrom(body, 0)
  {
    if 2 < |body| {
      var j := NumbersEnd(body, 2);
      forall i | PutsTo(body, i) ensures i == j + 1 {
        assert !IsNumeric(body[i - 1]);
      }
      if ShowsFrom(body, 0) {
        ShowsOne(body, 0);
        assert !IsNumeric(body[2]);
      }
    }
  }

  /** What the loop looks for. */
  lemma IsCursorIff(body: Bytes)
    ensures IsCursor(body) <==> PutsCursor(body)
  {
    PositionIs(body);
    VisibilityIs(body, PositionEnd(body));
  }

  lemma {:induction false} VisibilityIsAscii(body: Bytes, i: nat)
    requires i <= |body| && OnlyVisibility(body, i)
    ensures Ascii(body[i..])
    decreases |body| - i
  {
    if i < |body| {
      VisibilityIsAscii(body, i + 6);
      forall k | i <= k < |body| ensures body[k] < 0x80 {
        if k < i + 5 {
          assert body[k] == body[i..i + 5][k - i] == CURSOR[k - i];
        } else if k >= i + 6 {
          assert body[k] == body[i + 6..][k - i - 6];
        }
      }
    }
  }

  lemma CursorIsAscii(body: Bytes)
    requires IsCursor(body)
    ensures Ascii(body)
  {
    var n := PositionEnd(body);
    VisibilityIsAscii(body, n);
    forall k | 0 <= k < |body| ensures body[k] < 0x80 {
      if k >= n {
        assert body[k] == body[n..][k - n];
      }
    }
  }

  // ---------------------------------------------------------------- the log of a recording

  // Output outside updates, an update that was recorded, and one that was dropped.
  datatype Item = Plain(bytes: Bytes) | Update(body: Bytes) | Dropped(body: Bytes)

  datatype Log = Empty | Then(front: Log, item: Item)

  function Block(body: Bytes): Bytes {
    BEGIN + body + END
  }

  function ItemBytes(item: Item): Bytes {
    match item
    case Plain(bytes) => bytes
    case Update(body) => Block(body)
    case Dropped(body) => Block(body)
  }

  /** All output of a log. */
  function Given(log: Log): Bytes {
    match log
    case Empty => []
    case Then(front, item) => Given(front) + ItemBytes(item)
  }

  /** The output that was recorded. */
  function Kept(log: Log): Bytes {
    match log
    case Empty => []
    case Then(front, Plain(bytes)) => Kept(front) + bytes
    case Then(front, Update(body)) => Kept(front) + Block(body)
    case Then(front, Dropped(_)) => Kept(front)
  }

  ghost function LastKept(log: Log): Option<Item> {
    match log
    case Empty => None
    case Then(front, Plain(bytes)) => Some(Plain(bytes))
    case Then(front, Update(body)) => Some(Update(body))
    case Then(front, Dropped(_)) => LastKept(front)
  }

  /** Dropped are exactly the updates that only put the cursor and repeat what was recorded just before. */
  ghost predicate Repeats(front: Log, body: Bytes) {
    PutsCursor(body) && LastKept(front) == Some(Update(body))
  }

  /** Output that is not a whole update: it begins none, or it is one that does not end. */
  ghost predicate IsPlain(bytes: Bytes) {
    || (forall j :: 0 <= j ==> !Matches(bytes, BEGIN, j))
    || (|bytes| >= SYNC && bytes[..SYNC] == BEGIN && forall j :: 0 <= j ==> !Matches(bytes, END, j))
  }

  /** The first end of the update is behind its body. */
  ghost predicate EndsBehind(body: Bytes) {
    forall j :: 0 <= j < SYNC + |body| ==> !Matches(Block(body), END, j)
  }

  ghost predicate DropsRepeats(log: Log) {
    match log
    case Empty => true
    case Then(front, Plain(bytes)) => DropsRepeats(front) && IsPlain(bytes)
    case Then(front, Update(body)) => DropsRepeats(front) && EndsBehind(body) && !Repeats(front, body)
    case Then(front, Dropped(body)) => DropsRepeats(front) && EndsBehind(body) && Repeats(front, body)
  }

  /** The texts of the events of a log, and what is kept of a character. */
  datatype Recording = Recording(texts: seq<Bytes>, hold: Bytes)

  predicate IsRecording(r: Recording) {
    IsHold(r.hold) && forall i :: 0 <= i < |r.texts| ==> Valid(r.texts[i])
  }

  /** One more event. */
  function Event(r: Recording, bytes: Bytes): (e: Recording)
    requires IsRecording(r)
    ensures IsRecording(e)
  {
    PutIsValid(r.hold, bytes);
    Recording(r.texts + [Put(r.hold, bytes).text], Put(r.hold, bytes).hold)
  }

  /** Every text of a recording is valid, whatever bytes were given. */
  function Record(log: Log): (r: Recording)
    ensures IsRecording(r)
  {
    match log
    case Empty => Recording([], [])
    case Then(front, Plain(bytes)) => Event(Record(front), bytes)
    case Then(front, Update(body)) => Event(Record(front), Block(body))
    case Then(front, Dropped(_)) => Record(front)
  }

  function Concat(texts: seq<Bytes>): Bytes {
    if texts == [] then [] else Concat(texts[..|texts| - 1]) + texts[|texts| - 1]
  }

  lemma ConcatOne(texts: seq<Bytes>, text: Bytes)
    ensures Concat(texts + [text]) == Concat(texts) + text
  {
    assert (texts + [text])[..|texts|] == texts;
  }

  lemma {:induction false} ConcatValid(texts: seq<Bytes>)
    requires forall i :: 0 <= i < |texts| ==> Valid(texts[i])
    ensures Valid(Concat(texts))
  {
    if texts != [] {
      ConcatValid(texts[..|texts| - 1]);
      ValidConcat(Concat(texts[..|texts| - 1]), texts[|texts| - 1]);
    }
  }

  // ---------------------------------------------------------------- what is recorded of valid output

  lemma EventKeeps(r: Recording, kept: Bytes, bytes: Bytes)
    requires IsRecording(r) && Concat(r.texts) + r.hold == kept && ValidStart(kept + bytes)
    ensures Concat(Event(r, bytes).texts) + Event(r, bytes).hold == kept + bytes
  {
    var p := Event(r, bytes);
    ConcatValid(r.texts);
    Regroup(Concat(r.texts), r.hold, bytes);
    StartAfter(Concat(r.texts), r.hold + bytes);
    PutKeeps(r.hold, bytes);
    ConcatOne(r.texts, Put(r.hold, bytes).text);
    Regroup(Concat(r.texts), Put(r.hold, bytes).text, Put(r.hold, bytes).hold);
  }

  lemma {:induction false} RecordKeeps(log: Log)
    requires ValidStart(Kept(log))
    ensures Concat(Record(log).texts) + Record(log).hold == Kept(log)
  {
    match log
    case Empty =>
    case Then(front, Plain(bytes)) =>
      StartOfStart(Kept(front), bytes);
      RecordKeeps(front);
      EventKeeps(Record(front), Kept(front), bytes);
    case Then(front, Update(body)) =>
      StartOfStart(Kept(front), Block(body));
      RecordKeeps(front);
      EventKeeps(Record(front), Kept(front), Block(body));
    case Then(front, Dropped(_)) => RecordKeeps(front);
  }

  lemma BlockIsAscii(body: Bytes)
    requires IsCursor(body)
    ensures Ascii(Block(body)) && Block(body) != []
  {
    CursorIsAscii(body);
  }

  /** Dropping updates leaves valid output valid. */
  lemma {:induction false} KeptIsValid(log: Log, rest: Bytes)
    requires DropsRepeats(log) && Valid(Given(log) + rest)
    ensures Valid(Kept(log) + rest)
  {
    match log
    case Empty =>
    case Then(front, Plain(bytes)) =>
      Regroup(Given(front), bytes, rest);
      KeptIsValid(front, bytes + rest);
      Regroup(Kept(front), bytes, rest);
    case Then(front, Update(body)) =>
      Regroup(Given(front), Block(body), rest);
      KeptIsValid(front, Block(body) + rest);
      Regroup(Kept(front), Block(body), rest);
    case Then(front, Dropped(body)) =>
      IsCursorIff(body);
      BlockIsAscii(body);
      RemoveAscii(Given(front), Block(body), rest);
      KeptIsValid(front, rest);
  }

  /**
   * For valid output, cut at any byte, the recorded text is the output without the dropped updates, and
   * nothing is kept back.
   */
  lemma ValidOutputIsRecorded(log: Log)
    requires DropsRepeats(log) && Valid(Given(log))
    ensures Record(log).hold == [] && Concat(Record(log).texts) == Kept(log)
  {
    var r := Record(log);
    assert Given(log) + [] == Given(log);
    KeptIsValid(log, []);
    assert Kept(log) + [] == Kept(log);
    ValidIsStart(Kept(log));
    RecordKeeps(log);
    ConcatValid(r.texts);
    ValidAfter(Concat(r.texts), r.hold);
    assert Concat(r.texts) + [] == Concat(r.texts);
  }

  // ---------------------------------------------------------------- what is recorded of any output

  /** How many replacements the cuts of a log lost. */
  function LostBy(log: Log): nat {
    match log
    case Empty => 0
    case Then(front, Plain(bytes)) => LostBy(front) + Lost(Record(front).hold, bytes)
    case Then(front, Update(body)) => LostBy(front) + Lost(Record(front).hold, Block(body))
    case Then(front, Dropped(_)) => LostBy(front)
  }

  lemma EventLoses(r: Recording, kept: Bytes, bytes: Bytes, lost: nat)
    requires IsRecording(r) && Repair(kept).hold == r.hold && |Repair(kept).text| == |Concat(r.texts)| + 3 * lost
    requires lost == 0 ==> Repair(kept).text == Concat(r.texts)
    ensures var e, all, more := Event(r, bytes), Repair(kept + bytes), lost + Lost(r.hold, bytes);
            && all.hold == e.hold && |all.text| == |Concat(e.texts)| + 3 * more
            && (more == 0 ==> all.text == Concat(e.texts))
  {
    RepairSplit(kept, bytes);
    PutLoses(r.hold, bytes);
    ConcatOne(r.texts, Put(r.hold, bytes).text);
  }

  /**
   * What is kept back is what repairing all recorded output at once keeps, and the recorded text is shorter by
   * one replacement for each that a cut lost.
   */
  lemma {:induction false} RecordLoses(log: Log)
    ensures Repair(Kept(log)).hold == Record(log).hold
    ensures |Repair(Kept(log)).text| == |Concat(Record(log).texts)| + 3 * LostBy(log)
    ensures LostBy(log) == 0 ==> Repair(Kept(log)).text == Concat(Record(log).texts)
  {
    match log
    case Empty =>
    case Then(front, Plain(bytes)) =>
      RecordLoses(front);
      EventLoses(Record(front), Kept(front), bytes, LostBy(front));
    case Then(front, Update(body)) =>
      RecordLoses(front);
      EventLoses(Record(front), Kept(front), Block(body), LostBy(front));
    case Then(front, Dropped(_)) => RecordLoses(front);
  }

  /** The repair of all output at once, with a replacement for what never became a character. */
  function RepairAll(s: Bytes): Bytes {
    Repair(s).text + if Repair(s).hold != [] then REPLACEMENT else []
  }

  /** The texts of a recording that ended. */
  function Closed(log: Log): seq<Bytes> {
    Record(log).texts + if Record(log).hold != [] then [REPLACEMENT] else []
  }

  /** The recorded text is the repair of all that was recorded exactly when no cut lost a replacement. */
  lemma ClosedIsRepairIff(log: Log)
    ensures Concat(Closed(log)) == RepairAll(Kept(log)) <==> LostBy(log) == 0
    ensures |RepairAll(Kept(log))| == |Concat(Closed(log))| + 3 * LostBy(log)
  {
    RecordLoses(log);
    var r := Record(log);
    ConcatOne(r.texts, REPLACEMENT);
    assert r.texts + [] == r.texts && Concat(r.texts) + [] == Concat(r.texts);
  }

  lemma FirstEvent(bytes: Bytes)
    ensures Record(Then(Empty, Plain(bytes))).hold == Repair(bytes).hold && LostBy(Then(Empty, Plain(bytes))) == 0
  {
  }

  /** Two chunks whose recorded text has one replacement less than the text of both in one chunk. */
  lemma CutIsRecorded(first: Bytes, second: Bytes)
    requires first == [0xE2, 0x82] && second == [0x41]
    ensures LostBy(Then(Then(Empty, Plain(first)), Plain(second))) == 1
    ensures LostBy(Then(Empty, Plain(first + second))) == 0
  {
    FirstEvent(first);
    FirstEvent(first + second);
    CutLosesOne();
    var s := first + second;
    assert s[0] == 0xE2 && !Follows(s[0], 2, s[2]);
  }
}
