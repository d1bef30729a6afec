/** Which bytes are characters: those that section 3 of RFC 3629 writes for a scalar value. */
module Utf8Chars {
  import opened Utf8

  predicate IsScalar(c: int) {
    0 <= c <= 0x10FFFF && !(0xD800 <= c <= 0xDFFF)
  }

  function Encode(c: int): (s: Bytes)
    requires IsScalar(c)
    ensures 1 <= |s| <= 4
  {
    if c < 0x80 then [c]
    else if c < 0x800 then [0xC0 + c / 64, 0x80 + c % 64]
    else if c < 0x10000 then [0xE0 + c / 4096, 0x80 + c / 64 % 64, 0x80 + c % 64]
    else [0xF0 + c / 262144, 0x80 + c / 4096 % 64, 0x80 + c / 64 % 64, 0x80 + c % 64]
  }

  lemma EncodeIsWhole(c: int)
    requires IsScalar(c)
    ensures ScanOf(Encode(c)) == Whole(|Encode(c)|)
  {
  }

  function Less(b: Byte, mark: int): int {
    var k: int := b;
    k - mark
  }

  /** The scalar value that a whole character is. */
  function Decode(s: Bytes): int
    requires s != []
  {
    match |s|
    case 1 => s[0]
    case 2 => Less(s[0], 0xC0) * 64 + Less(s[1], 0x80)
    case 3 => (Less(s[0], 0xE0) * 64 + Less(s[1], 0x80)) * 64 + Less(s[2], 0x80)
    case 4 => ((Less(s[0], 0xF0) * 64 + Less(s[1], 0x80)) * 64 + Less(s[2], 0x80)) * 64 + Less(s[3], 0x80)
    case _ => 0
  }

  lemma SixBits(high: nat, low: nat)
    requires low < 64
    ensures (high * 64 + low) / 64 == high && (high * 64 + low) % 64 == low
  {
  }

  lemma TwoBytes(s: Bytes)
    requires |s| == 2 && ScanOf(s) == Whole(2)
    ensures IsScalar(Decode(s)) && Encode(Decode(s)) == s
  {
    SixBits(Less(s[0], 0xC0), Less(s[1], 0x80));
  }

  lemma ThreeBytes(s: Bytes)
    requires |s| == 3 && ScanOf(s) == Whole(3)
    ensures IsScalar(Decode(s)) && Encode(Decode(s)) == s
  {
    assert Follows(s[0], 1, s[1]) && Follows(s[0], 2, s[2]);
    var a, b := Less(s[0], 0xE0), Less(s[1], 0x80);
    SixBits(a, b);
    SixBits(a * 64 + b, Less(s[2], 0x80));
    assert Decode(s) / 4096 == a;
  }

  lemma FourBytes(s: Bytes)
    requires |s| == 4 && ScanOf(s) == Whole(4)
    ensures IsScalar(Decode(s)) && Encode(Decode(s)) == s
  {
    assert Follows(s[0], 1, s[1]) && Follows(s[0], 2, s[2]) && Follows(s[0], 3, s[3]);
    var a, b, c := Less(s[0], 0xF0), Less(s[1], 0x80), Less(s[2], 0x80);
    SixBits(a, b);
    SixBits(a * 64 + b, c);
    SixBits((a * 64 + b) * 64 + c, Less(s[3], 0x80));
    assert Decode(s) / 4096 == a * 64 + b && Decode(s) / 262144 == a;
  }

  lemma WholeIsEncoded(s: Bytes)
    requires s != [] && ScanOf(s) == Whole(|s|)
    ensures IsScalar(Decode(s)) && Encode(Decode(s)) == s
  {
    if |s| == 2 {
      TwoBytes(s);
    } else if |s| == 3 {
      ThreeBytes(s);
    } else if |s| == 4 {
      FourBytes(s);
    }
  }

  /** A scan finds a character exactly where the bytes begin with one that some scalar value is written as. */
  lemma WholeIff(s: Bytes, n: nat)
    requires s != []
    ensures ScanOf(s) == Whole(n) <==> exists c :: IsScalar(c) && Encode(c) <= s && |Encode(c)| == n
  {
    if ScanOf(s) == Whole(n) {
      var first := s[..n];
      assert first[0] == s[0] && forall i :: 0 <= i < n ==> first[i] == s[i];
      WholeIsEncoded(first);
    }
    if c :| IsScalar(c) && Encode(c) <= s && |Encode(c)| == n {
      EncodeIsWhole(c);
      WholeStays(Encode(c), s[n..]);
      assert Encode(c) + s[n..] == s;
    }
  }

  /** The least byte that can follow. */
  function Least(lead: Byte, i: nat): (b: Byte)
    ensures 0xC2 <= lead <= 0xF4 ==> Follows(lead, i, b)
  {
    if i == 1 && lead == 0xE0 then 0xA0 else if i == 1 && lead == 0xF0 then 0x90 else 0x80
  }

  function Filled(s: Bytes): (r: Bytes)
    requires s != []
    ensures |r| == (if |s| < Length(s[0]) then Length(s[0]) else |s|)
    ensures forall i :: 0 <= i < |r| ==> r[i] == if i < |s| then s[i] else Least(s[0], i)
  {
    seq(if |s| < Length(s[0]) then Length(s[0]) else |s|,
        i requires 0 <= i => if i < |s| then s[i] else Least(s[0], i))
  }

  /** A scan is cut exactly where the bytes are the start of a character, but not all of it. */
  lemma CutIff(s: Bytes)
    requires s != []
    ensures ScanOf(s).Cut? <==> exists c :: IsScalar(c) && s < Encode(c)
  {
    if ScanOf(s).Cut? {
      var all := Filled(s);
      assert all[0] == s[0] && all[..|s|] == s;
      WholeIsEncoded(all);
      assert s < Encode(Decode(all));
    }
    if c :| IsScalar(c) && s < Encode(c) {
      EncodeIsWhole(c);
      ShorterIsCut(Encode(c), |s|);
      assert Encode(c)[..|s|] == s;
    }
  }
}
