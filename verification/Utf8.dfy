/** UTF-8 as sections 3 and 4 of RFC 3629 define it, and its repair in a stream that is cut at any byte. */
module Utf8 {
  type Byte = b: int | 0 <= b < 256

  type Bytes = seq<Byte>

  const REPLACEMENT: Bytes := [0xEF, 0xBF, 0xBD]

  /** The length that the first byte of a character announces, zero where no character starts with it. */
  function Length(lead: Byte): (n: nat)
    ensures n <= 4
  {
    if lead < 0x80 then 1
    else if 0xC2 <= lead <= 0xDF then 2
    else if 0xE0 <= lead <= 0xEF then 3
    else if 0xF0 <= lead <= 0xF4 then 4
    else 0
  }

  /** Whether a byte can follow; the second one excludes overlong forms, surrogates and what is past U+10FFFF. */
  predicate Follows(lead: Byte, i: nat, b: Byte) {
    var low := if i == 1 && lead == 0xE0 then 0xA0 else if i == 1 && lead == 0xF0 then 0x90 else 0x80;
    var high := if i == 1 && lead == 0xED then 0x9F else if i == 1 && lead == 0xF4 then 0x8F else 0xBF;
    low <= b <= high
  }

  /** What a scan finds: a character and its length, no character, or the start of one. */
  datatype Scan = Whole(length: nat) | Invalid | Cut

  function Limit(s: Bytes, n: nat): nat {
    if n < |s| then n else |s|
  }

  predicate TailOk(s: Bytes) {
    |s| > 0 ==> forall i :: 1 <= i < Limit(s, Length(s[0])) ==> Follows(s[0], i, s[i])
  }

  function ScanOf(s: Bytes): (r: Scan)
    requires |s| > 0
    ensures r.Whole? ==> 1 <= r.length <= |s| && r.length <= 4
    ensures r.Cut? ==> |s| <= 3
  {
    var n := Length(s[0]);
    if n == 0 || !TailOk(s) then Invalid else if |s| < n then Cut else Whole(n)
  }

  /** Whole characters only. */
  predicate Valid(s: Bytes) {
    s == [] || (ScanOf(s).Whole? && Valid(s[ScanOf(s).length..]))
  }

  /** Whole characters, and perhaps the start of one at the end. */
  predicate ValidStart(s: Bytes) {
    s == [] || ScanOf(s).Cut? || (ScanOf(s).Whole? && ValidStart(s[ScanOf(s).length..]))
  }

  predicate Ascii(s: Bytes) {
    forall i :: 0 <= i < |s| ==> s[i] < 0x80
  }

  // ---------------------------------------------------------------- scans of more bytes

  lemma WholeStays(s: Bytes, more: Bytes)
    requires |s| > 0 && ScanOf(s).Whole?
    ensures ScanOf(s + more) == ScanOf(s)
  {
    assert (s + more)[0] == s[0];
  }

  lemma ShorterIsCut(s: Bytes, n: nat)
    requires |s| > 0 && 0 < n <= |s| && (ScanOf(s).Cut? || (ScanOf(s).Whole? && n < ScanOf(s).length))
    ensures ScanOf(s[..n]).Cut?
  {
    assert s[..n][0] == s[0];
  }

  lemma FourDecide(s: Bytes)
    requires |s| >= 4
    ensures ScanOf(s[..4]) == ScanOf(s)
  {
    assert s[..4][0] == s[0];
    forall i | 1 <= i < 4 ensures s[..4][i] == s[i] {
    }
  }

  lemma ConcatTail(a: Bytes, b: Bytes, n: nat)
    requires n <= |a|
    ensures (a + b)[n..] == a[n..] + b
  {
  }

  lemma ConcatOver(a: Bytes, b: Bytes, n: nat)
    requires |a| <= n <= |a| + |b|
    ensures (a + b)[n..] == b[n - |a|..] && (a + b)[..n] == a + b[..n - |a|]
  {
  }

  // ---------------------------------------------------------------- valid bytes put together and cut

  lemma {:induction false} ValidConcat(a: Bytes, b: Bytes)
    requires Valid(a) && Valid(b)
    ensures Valid(a + b)
    decreases |a|
  {
    if a == [] {
      assert a + b == b;
    } else {
      WholeStays(a, b);
      ConcatTail(a, b, ScanOf(a).length);
      ValidConcat(a[ScanOf(a).length..], b);
    }
  }

  /** What follows valid bytes in the start of valid bytes is such a start. */
  lemma {:induction false} StartAfter(a: Bytes, b: Bytes)
    requires Valid(a) && ValidStart(a + b)
    ensures ValidStart(b)
    decreases |a|
  {
    if a == [] {
      assert a + b == b;
    } else {
      WholeStays(a, b);
      ConcatTail(a, b, ScanOf(a).length);
      StartAfter(a[ScanOf(a).length..], b);
    }
  }

  lemma {:induction false} ValidAfter(a: Bytes, b: Bytes)
    requires Valid(a) && Valid(a + b)
    ensures Valid(b)
    decreases |a|
  {
    if a == [] {
      assert a + b == b;
    } else {
      WholeStays(a, b);
      ConcatTail(a, b, ScanOf(a).length);
      ValidAfter(a[ScanOf(a).length..], b);
    }
  }

  /** A start of the start of valid bytes is one. */
  lemma {:induction false} StartOfStart(a: Bytes, b: Bytes)
    requires ValidStart(a + b)
    ensures ValidStart(a)
    decreases |a|
  {
    if a != [] {
      assert (a + b)[..|a|] == a;
      var scan := ScanOf(a + b);
      if scan.Cut? || scan.length > |a| {
        ShorterIsCut(a + b, |a|);
      } else {
        HeadIsWhole(a, b);
        ConcatTail(a, b, scan.length);
        StartOfStart(a[scan.length..], b);
      }
    }
  }

  lemma HeadIsWhole(a: Bytes, b: Bytes)
    requires a != [] && ScanOf(a + b).Whole? && ScanOf(a + b).length <= |a|
    ensures ScanOf(a) == ScanOf(a + b)
  {
    var s := a + b;
    assert s[0] == a[0];
    forall i | 1 <= i < Limit(a, Length(a[0])) ensures Follows(a[0], i, a[i]) {
      assert s[i] == a[i];
    }
  }

  lemma {:induction false} ValidIsStart(s: Bytes)
    requires Valid(s)
    ensures ValidStart(s)
    decreases |s|
  {
    if s != [] {
      ValidIsStart(s[ScanOf(s).length..]);
    }
  }

  lemma ByteInside(s: Bytes, i: nat)
    requires |s| > 0 && ScanOf(s).Whole? && 1 <= i < ScanOf(s).length
    ensures s[i] >= 0x80
  {
    assert Follows(s[0], i, s[i]);
  }

  /** No character spans the start of an ASCII byte. */
  lemma {:induction false} SplitAtAscii(a: Bytes, b: Bytes)
    requires Valid(a + b) && b != [] && b[0] < 0x80
    ensures Valid(a) && Valid(b)
    decreases |a|
  {
    if a == [] {
      assert a + b == b;
    } else {
      var n := ScanOf(a + b).length;
      if n > |a| {
        ByteInside(a + b, |a|);
      }
      assert n <= |a|;
      HeadIsWhole(a, b);
      ConcatTail(a, b, n);
      SplitAtAscii(a[n..], b);
    }
  }

  lemma {:induction false} AsciiValid(s: Bytes)
    requires Ascii(s)
    ensures Valid(s)
    decreases |s|
  {
    if s != [] {
      AsciiValid(s[1..]);
    }
  }

  /** ASCII bytes can be taken out of valid bytes. */
  lemma RemoveAscii(a: Bytes, block: Bytes, b: Bytes)
    requires Valid(a + block + b) && Ascii(block) && block != []
    ensures Valid(a) && Valid(b) && Valid(a + b)
  {
    assert a + block + b == a + (block + b);
    SplitAtAscii(a, block + b);
    AsciiValid(block);
    ValidAfter(block, b);
    ValidConcat(a, b);
  }

  // ---------------------------------------------------------------- repair

  /** Repaired text, and the start of a character that is kept for the bytes to come. */
  datatype Repaired = Repaired(text: Bytes, hold: Bytes)

  function Prepend(text: Bytes, r: Repaired): Repaired {
    Repaired(text + r.text, r.hold)
  }

  /** Repair bytes from a position on: one replacement for each byte that starts no character. */
  function Repair(s: Bytes): Repaired
    decreases |s|
  {
    if s == [] then Repaired([], [])
    else
      match ScanOf(s)
      case Cut => Repaired([], s)
      case Whole(n) => Prepend(s[..n], Repair(s[n..]))
      case Invalid => Prepend(REPLACEMENT, Repair(s[1..]))
  }

  function Joined(hold: Bytes, piece: Bytes): Bytes {
    hold + piece[..Limit(piece, if |hold| < 4 then 4 - |hold| else 0)]
  }

  predicate IsHold(hold: Bytes) {
    hold == [] || ScanOf(hold).Cut?
  }

  /** The whole character that a kept start begins is longer than the start. */
  lemma JoinedScan(hold: Bytes, piece: Bytes)
    requires hold != [] && IsHold(hold)
    ensures ScanOf(Joined(hold, piece)) == ScanOf(hold + piece)
    ensures ScanOf(hold + piece).Whole? ==> |hold| < ScanOf(hold + piece).length
    ensures ScanOf(hold + piece).Cut? ==> Joined(hold, piece) == hold + piece
  {
    var s := hold + piece;
    assert s[0] == hold[0];
    if |s| >= 4 {
      FourDecide(s);
      assert Joined(hold, piece) == s[..4];
    } else {
      assert Joined(hold, piece) == s;
    }
  }

  /** Repair a piece of a stream after the start of a character that was kept. */
  function Put(hold: Bytes, piece: Bytes): Repaired
    requires IsHold(hold)
  {
    if hold == [] then Repair(piece)
    else
      JoinedScan(hold, piece);
      match ScanOf(Joined(hold, piece))
      case Cut => Repaired([], Joined(hold, piece))
      case Whole(n) => Prepend(Joined(hold, piece)[..n], Repair(piece[n - |hold|..]))
      case Invalid => Prepend(REPLACEMENT, Repair(piece))
  }

  lemma WholeChar(s: Bytes)
    requires |s| > 0 && ScanOf(s).Whole?
    ensures Valid(s[..ScanOf(s).length])
  {
    var c := s[..ScanOf(s).length];
    assert c[0] == s[0];
    assert ScanOf(c) == ScanOf(s);
    assert c[ScanOf(s).length..] == [];
  }

  lemma ReplacementValid()
    ensures Valid(REPLACEMENT)
  {
    assert REPLACEMENT[3..] == [];
  }

  /** Repaired text is valid, and what is kept is the start of a character. */
  lemma {:induction false} RepairIsValid(s: Bytes)
    ensures Valid(Repair(s).text) && IsHold(Repair(s).hold)
    decreases |s|
  {
    if s != [] {
      match ScanOf(s)
      case Cut =>
      case Whole(n) =>
        RepairIsValid(s[n..]);
        WholeChar(s);
        ValidConcat(s[..n], Repair(s[n..]).text);
      case Invalid =>
        RepairIsValid(s[1..]);
        ReplacementValid();
        ValidConcat(REPLACEMENT, Repair(s[1..]).text);
    }
  }

  lemma PutIsValid(hold: Bytes, piece: Bytes)
    requires IsHold(hold)
    ensures Valid(Put(hold, piece).text) && IsHold(Put(hold, piece).hold)
  {
    if hold == [] {
      RepairIsValid(piece);
    } else {
      JoinedScan(hold, piece);
      var joined := Joined(hold, piece);
      match ScanOf(joined)
      case Cut =>
      case Whole(n) =>
        WholeChar(joined);
        RepairIsValid(piece[n - |hold|..]);
        ValidConcat(joined[..n], Repair(piece[n - |hold|..]).text);
      case Invalid =>
        ReplacementValid();
        RepairIsValid(piece);
        ValidConcat(REPLACEMENT, Repair(piece).text);
    }
  }

  lemma Regroup(a: Bytes, b: Bytes, c: Bytes)
    ensures (a + b) + c == a + (b + c)
  {
  }

  lemma CutAt(s: Bytes, k: nat)
    requires k <= |s|
    ensures s[..k] + s[k..] == s
  {
  }

  /** Repair changes nothing in the start of valid bytes. */
  lemma {:induction false} RepairKeeps(s: Bytes)
    requires ValidStart(s)
    ensures Repair(s).text + Repair(s).hold == s
    decreases |s|
  {
    if s != [] && ScanOf(s).Whole? {
      var n := ScanOf(s).length;
      RepairKeeps(s[n..]);
      CutAt(s, n);
      Regroup(s[..n], Repair(s[n..]).text, Repair(s[n..]).hold);
    }
  }

  lemma PutKeeps(hold: Bytes, piece: Bytes)
    requires IsHold(hold) && ValidStart(hold + piece)
    ensures Put(hold, piece).text + Put(hold, piece).hold == hold + piece
  {
    if hold == [] {
      assert hold + piece == piece;
      RepairKeeps(piece);
    } else {
      JoinedScan(hold, piece);
      if ScanOf(hold + piece).Whole? {
        PutKeepsWhole(hold, piece);
      }
    }
  }

  lemma JoinedHead(hold: Bytes, piece: Bytes, n: nat)
    requires |hold| <= n <= |Joined(hold, piece)|
    ensures n - |hold| <= |piece| && Joined(hold, piece)[..n] == hold + piece[..n - |hold|]
  {
  }

  lemma PutWhole(hold: Bytes, piece: Bytes) returns (k: nat)
    requires hold != [] && IsHold(hold) && ScanOf(hold + piece).Whole?
    ensures k <= |piece| && |hold| + k == ScanOf(hold + piece).length
    ensures Put(hold, piece) == Prepend(hold + piece[..k], Repair(piece[k..]))
  {
    JoinedScan(hold, piece);
    k := ScanOf(hold + piece).length - |hold|;
    JoinedHead(hold, piece, |hold| + k);
  }

  lemma PutKeepsWhole(hold: Bytes, piece: Bytes)
    requires hold != [] && IsHold(hold) && ValidStart(hold + piece) && ScanOf(hold + piece).Whole?
    ensures Put(hold, piece).text + Put(hold, piece).hold == hold + piece
  {
    var k := PutWhole(hold, piece);
    ConcatOver(hold, piece, |hold| + k);
    RepairKeeps(piece[k..]);
    Regroup(hold + piece[..k], Repair(piece[k..]).text, Repair(piece[k..]).hold);
    Regroup(hold, piece[..k], piece[k..]);
    CutAt(piece, k);
  }

  // ---------------------------------------------------------------- where the repair depends on the cuts

  /** Bytes that start no character still do not when more come. */
  lemma InvalidStays(s: Bytes, more: Bytes)
    requires |s| > 0 && ScanOf(s).Invalid?
    ensures ScanOf(s + more).Invalid?
  {
    assert (s + more)[0] == s[0];
    if Length(s[0]) != 0 {
      var i :| 1 <= i < Limit(s, Length(s[0])) && !Follows(s[0], i, s[i]);
      assert (s + more)[i] == s[i];
    }
  }

  lemma PrependPrepend(a: Bytes, b: Bytes, r: Repaired)
    ensures Prepend(a, Prepend(b, r)) == Prepend(a + b, r)
  {
    Regroup(a, b, r.text);
  }

  /** The repair of a stream goes on from what the repair of its first bytes keeps. */
  lemma {:induction false} RepairSplit(a: Bytes, b: Bytes)
    ensures Repair(a + b) == Prepend(Repair(a).text, Repair(Repair(a).hold + b))
    decreases |a|
  {
    if a == [] || ScanOf(a).Cut? {
      assert a == [] ==> Repair(a) == Repaired([], []);
      assert Repair(a) == Repaired([], a) && [] + Repair(a + b).text == Repair(a + b).text;
    } else if ScanOf(a).Invalid? {
      RepairSplit(a[1..], b);
      InvalidStays(a, b);
      ConcatTail(a, b, 1);
      PrependPrepend(REPLACEMENT, Repair(a[1..]).text, Repair(Repair(a[1..]).hold + b));
    } else {
      var n := ScanOf(a).length;
      RepairSplit(a[n..], b);
      WholeStays(a, b);
      ConcatTail(a, b, n);
      assert (a + b)[..n] == a[..n];
      PrependPrepend(a[..n], Repair(a[n..]).text, Repair(Repair(a[n..]).hold + b));
    }
  }

  /** Some replacements, one behind the other. */
  function Replacements(n: nat): (r: Bytes)
    ensures |r| == 3 * n
  {
    if n == 0 then [] else REPLACEMENT + Replacements(n - 1)
  }

  /**
   * How many replacements a cut loses: where the bytes kept start no character after all, they get one
   * replacement together and not one each.
   */
  function Lost(hold: Bytes, piece: Bytes): nat {
    if |hold| > 1 && ScanOf(hold + piece).Invalid? then |hold| - 1 else 0
  }

  /** The bytes after the first one of a start of a character start none themselves. */
  lemma {:induction false} RestOfHold(hold: Bytes, k: nat, piece: Bytes)
    requires IsHold(hold) && 1 <= k <= |hold|
    ensures Repair(hold[k..] + piece) == Prepend(Replacements(|hold| - k), Repair(piece))
    decreases |hold| - k
  {
    if k == |hold| {
      assert hold[k..] + piece == piece && [] + Repair(piece).text == Repair(piece).text;
    } else {
      assert Follows(hold[0], k, hold[k]);
      var s := hold[k..] + piece;
      assert s[0] == hold[k] && ScanOf(s).Invalid?;
      assert s[1..] == hold[k + 1..] + piece;
      RestOfHold(hold, k + 1, piece);
      PrependPrepend(REPLACEMENT, Replacements(|hold| - k - 1), Repair(piece));
    }
  }

  lemma PutWholeIsRepair(hold: Bytes, piece: Bytes)
    requires hold != [] && IsHold(hold) && ScanOf(hold + piece).Whole?
    ensures Put(hold, piece) == Repair(hold + piece)
  {
    var k := PutWhole(hold, piece);
    ConcatOver(hold, piece, |hold| + k);
  }

  lemma PutInvalid(hold: Bytes, piece: Bytes)
    requires hold != [] && IsHold(hold) && ScanOf(hold + piece).Invalid?
    ensures Put(hold, piece) == Prepend(REPLACEMENT, Repair(piece))
    ensures Repair(hold + piece) == Prepend(REPLACEMENT + Replacements(|hold| - 1), Repair(piece))
  {
    JoinedScan(hold, piece);
    ConcatTail(hold, piece, 1);
    RestOfHold(hold, 1, piece);
    PrependPrepend(REPLACEMENT, Replacements(|hold| - 1), Repair(piece));
  }

  lemma PutInvalidLoses(hold: Bytes, piece: Bytes)
    requires hold != [] && IsHold(hold) && ScanOf(hold + piece).Invalid?
    ensures Put(hold, piece).hold == Repair(hold + piece).hold
    ensures |Repair(hold + piece).text| == |Put(hold, piece).text| + 3 * Lost(hold, piece)
    ensures Lost(hold, piece) == 0 ==> Put(hold, piece) == Repair(hold + piece)
  {
    PutInvalid(hold, piece);
    if |hold| == 1 {
      assert REPLACEMENT + Replacements(0) == REPLACEMENT;
    }
  }

  /** What a piece after kept bytes gives, against the repair of both at once. */
  lemma PutLoses(hold: Bytes, piece: Bytes)
    requires IsHold(hold)
    ensures Put(hold, piece).hold == Repair(hold + piece).hold
    ensures |Repair(hold + piece).text| == |Put(hold, piece).text| + 3 * Lost(hold, piece)
    ensures Lost(hold, piece) == 0 ==> Put(hold, piece) == Repair(hold + piece)
  {
    if hold == [] {
      assert hold + piece == piece;
    } else if ScanOf(hold + piece).Invalid? {
      PutInvalidLoses(hold, piece);
    } else if ScanOf(hold + piece).Whole? {
      PutWholeIsRepair(hold, piece);
    } else {
      JoinedScan(hold, piece);
    }
  }

  /**
   * Repair of a piece after kept bytes is the repair of both at once exactly when at most one byte was kept, or
   * the kept bytes and the piece do not show that they start no character.
   */
  lemma PutIsRepairIff(hold: Bytes, piece: Bytes)
    requires IsHold(hold)
    ensures Put(hold, piece) == Repair(hold + piece) <==> |hold| <= 1 || !ScanOf(hold + piece).Invalid?
  {
    PutLoses(hold, piece);
  }

  /** Three bytes that are no character, repaired at once and cut after two of them. */
  lemma CutLosesOne()
    ensures Repair([0xE2, 0x82, 0x41]) == Repaired(REPLACEMENT + REPLACEMENT + [0x41], [])
    ensures Repair([0xE2, 0x82]) == Repaired([], [0xE2, 0x82])
    ensures IsHold([0xE2, 0x82]) && Put([0xE2, 0x82], [0x41]) == Repaired(REPLACEMENT + [0x41], [])
  {
    var s: Bytes := [0xE2, 0x82, 0x41];
    assert !Follows(s[0], 2, s[2]);
    assert ScanOf(s).Invalid? && s[1..] == [0x82, 0x41];
    assert ScanOf(s[1..]).Invalid? && s[1..][1..] == [0x41];
    var a: Bytes := [0x41];
    assert ScanOf(a) == Whole(1) && a[..1] == a && a[1..] == [];
    assert Repair(a) == Repaired(a, []);
    assert Joined(s[..2], a) == s && s[..2] == [0xE2, 0x82];
  }
}
