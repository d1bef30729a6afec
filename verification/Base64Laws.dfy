/** The decoder inverts the encodings, and what it gives for every text that it reads. */
module Base64Laws {
  import opened Options
  import opened Base64

  // ---------------------------------------------------------------- one value

  /** The bits that are not out yet: fewer than eight, an even number, and a value below two to their number. */
  predicate Kept(acc: nat, bits: nat) {
    (bits == 0 || bits == 2 || bits == 4 || bits == 6) && acc < Power(bits)
  }

  lemma Powers()
    ensures Power(0) == 1 && Power(2) == 4 && Power(4) == 16 && Power(6) == 64 && Power(8) == 256
  {
    assert Power(1) == 2 && Power(3) == 8 && Power(5) == 32 && Power(7) == 128;
  }

  /** One more value neither overflows nor loses a bit: what goes out and what stays make it up. */
  lemma ShiftKeeps(acc: nat, v: Sextet, bits: nat)
    requires Kept(acc, bits)
    ensures Shifted(acc, v) == acc * 64 + v
    ensures bits == 0 ==> Kept(Shifted(acc, v), 6)
    ensures bits >= 2 ==>
              && Shifted(acc, v) / Power(bits - 2) < 256
              && Kept(Shifted(acc, v) % Power(bits - 2), bits - 2)
              && (Shifted(acc, v)
                  == Shifted(acc, v) / Power(bits - 2) * Power(bits - 2) + Shifted(acc, v) % Power(bits - 2))
  {
    Powers();
    assert Shifted(acc, v) == acc * 64 + v;
    if bits >= 2 {
      Divided(acc * 64 + v, Power(bits - 2));
    }
  }

  lemma Divided(sum: nat, p: nat)
    requires p in {1, 4, 16} && sum < 256 * p
    ensures sum / p < 256 && sum % p < p && sum == sum / p * p + sum % p
  {
  }

  // ---------------------------------------------------------------- what decoding gives

  /** The number that values write, most significant first, after another number. */
  function NumberOf(vs: seq<Sextet>, i: nat, before: nat): nat
    requires i <= |vs|
    decreases |vs| - i
  {
    if i == |vs| then before else NumberOf(vs, i + 1, before * 64 + vs[i])
  }

  /** The number that bytes write, most significant first, after another number. */
  function NumberOfBytes(bs: seq<Byte>, i: nat, before: nat): nat
    requires i <= |bs|
    decreases |bs| - i
  {
    if i == |bs| then before else NumberOfBytes(bs, i + 1, before * 256 + bs[i])
  }

  lemma {:induction false} NumberOfTail(b: Byte, bs: seq<Byte>, i: nat, before: nat)
    requires i <= |bs|
    ensures NumberOfBytes([b] + bs, i + 1, before) == NumberOfBytes(bs, i, before)
    decreases |bs| - i
  {
    if i < |bs| {
      assert ([b] + bs)[i + 1] == bs[i];
      NumberOfTail(b, bs, i + 1, before * 256 + bs[i]);
    }
  }

  /** A number with some bits behind it. */
  function Behind(n: nat, bits: nat, low: nat): nat {
    n * Power(bits) + low
  }

  lemma Regroups(before: nat, bits: nat, acc: nat, v: Sextet, sum: nat)
    requires Kept(acc, bits) && bits >= 2 && sum == acc * 64 + v
    ensures Behind(before, bits, acc) * 64 + v
            == Behind(before * 256 + sum / Power(bits - 2), bits - 2, sum % Power(bits - 2))
  {
    Powers();
  }

  lemma ZeroBits(before: nat, acc: nat, v: Sextet)
    requires Kept(acc, 0)
    ensures Behind(before, 0, acc) * 64 + v == Behind(before, 6, acc * 64 + v)
  {
    Powers();
  }

  /** What is left over of values: their last bits, and how many. */
  function LeftOver(vs: seq<Sextet>, i: nat, acc: nat, bits: nat): (nat, nat)
    requires i <= |vs|
    decreases |vs| - i
  {
    if i == |vs| then (acc, bits)
    else if bits + 6 >= 8 then LeftOver(vs, i + 1, Shifted(acc, vs[i]) % Power(bits - 2), bits - 2)
    else LeftOver(vs, i + 1, Shifted(acc, vs[i]), bits + 6)
  }

  lemma {:induction false} LeftOverIsSmall(vs: seq<Sextet>, i: nat, acc: nat, bits: nat)
    requires i <= |vs| && Kept(acc, bits)
    ensures var (low, e) := LeftOver(vs, i, acc, bits);
            Kept(low, e) && 8 * |Bytes(vs, i, acc, bits)| + e == bits + 6 * (|vs| - i)
    decreases |vs| - i
  {
    if i < |vs| {
      ShiftKeeps(acc, vs[i], bits);
      if bits >= 2 {
        LeftOverIsSmall(vs, i + 1, Shifted(acc, vs[i]) % Power(bits - 2), bits - 2);
      } else {
        LeftOverIsSmall(vs, i + 1, Shifted(acc, vs[i]), bits + 6);
      }
    }
  }

  /** The number of the values is that of the bytes with what is left over behind it. */
  predicate SameNumber(vs: seq<Sextet>, i: nat, acc: nat, bits: nat, before: nat)
    requires i <= |vs|
  {
    var (low, e) := LeftOver(vs, i, acc, bits);
    NumberOf(vs, i, Behind(before, bits, acc)) == Behind(NumberOfBytes(Bytes(vs, i, acc, bits), 0, before), e, low)
  }

  // After one more value with at least two bits kept: the byte that goes out, and the bits that stay.
  function OutOf(acc: nat, bits: nat, v: Sextet): nat
    requires bits >= 2
  {
    Shifted(acc, v) / Power(bits - 2)
  }

  function StaysOf(acc: nat, bits: nat, v: Sextet): nat
    requires bits >= 2
  {
    Shifted(acc, v) % Power(bits - 2)
  }

  lemma NumberOut(vs: seq<Sextet>, i: nat, acc: nat, bits: nat, before: nat)
    requires i < |vs| && Kept(acc, bits) && bits >= 2
    ensures NumberOf(vs, i, Behind(before, bits, acc))
            == NumberOf(vs, i + 1, Behind(before * 256 + OutOf(acc, bits, vs[i]), bits - 2, StaysOf(acc, bits, vs[i])))
  {
    ShiftKeeps(acc, vs[i], bits);
    Regroups(before, bits, acc, vs[i], Shifted(acc, vs[i]));
  }

  lemma BytesOut(vs: seq<Sextet>, i: nat, acc: nat, bits: nat, before: nat)
    requires i < |vs| && bits >= 2 && OutOf(acc, bits, vs[i]) < 256
    ensures NumberOfBytes(Bytes(vs, i, acc, bits), 0, before)
            == NumberOfBytes(Bytes(vs, i + 1, StaysOf(acc, bits, vs[i]), bits - 2), 0,
                             before * 256 + OutOf(acc, bits, vs[i]))
  {
    NumberOfTail(OutOf(acc, bits, vs[i]), Bytes(vs, i + 1, StaysOf(acc, bits, vs[i]), bits - 2), 0,
                 before * 256 + OutOf(acc, bits, vs[i]));
  }

  lemma OneOut(vs: seq<Sextet>, i: nat, acc: nat, bits: nat, before: nat)
    requires i < |vs| && Kept(acc, bits) && bits >= 2 && OutOf(acc, bits, vs[i]) < 256
    requires SameNumber(vs, i + 1, StaysOf(acc, bits, vs[i]), bits - 2, before * 256 + OutOf(acc, bits, vs[i]))
    ensures SameNumber(vs, i, acc, bits, before)
  {
    NumberOut(vs, i, acc, bits, before);
    BytesOut(vs, i, acc, bits, before);
    assert LeftOver(vs, i, acc, bits) == LeftOver(vs, i + 1, StaysOf(acc, bits, vs[i]), bits - 2);
  }

  lemma NoneOut(vs: seq<Sextet>, i: nat, acc: nat, before: nat)
    requires i < |vs| && Kept(acc, 0) && SameNumber(vs, i + 1, Shifted(acc, vs[i]), 6, before)
    ensures SameNumber(vs, i, acc, 0, before)
  {
    ShiftKeeps(acc, vs[i], 0);
    ZeroBits(before, acc, vs[i]);
  }

  /**
   * Decoded bytes are the leading bits of the values: with the bits that are left over, fewer than eight,
   * behind it, their number is the number of the values.
   */
  lemma {:induction false} BytesAreLeadingBits(vs: seq<Sextet>, i: nat, acc: nat, bits: nat, before: nat)
    requires i <= |vs| && Kept(acc, bits)
    ensures SameNumber(vs, i, acc, bits, before)
    decreases |vs| - i
  {
    if i < |vs| {
      ShiftKeeps(acc, vs[i], bits);
      if bits >= 2 {
        BytesAreLeadingBits(vs, i + 1, StaysOf(acc, bits, vs[i]), bits - 2, before * 256 + OutOf(acc, bits, vs[i]));
        OneOut(vs, i, acc, bits, before);
      } else {
        BytesAreLeadingBits(vs, i + 1, Shifted(acc, vs[i]), bits + 6, before);
        NoneOut(vs, i, acc, before);
      }
    }
  }

  // ---------------------------------------------------------------- the round trip

  lemma {:induction false} BytesOfTail(vs: seq<Sextet>, rest: seq<Sextet>, k: nat, i: nat, acc: nat, bits: nat)
    requires k <= |vs| && vs[k..] == rest && i <= |rest|
    ensures Bytes(vs, k + i, acc, bits) == Bytes(rest, i, acc, bits)
    decreases |rest| - i
  {
    if i < |rest| {
      assert vs[k + i] == rest[i];
      var sum := Shifted(acc, rest[i]);
      if bits + 6 >= 8 {
        BytesOfTail(vs, rest, k, i + 1, sum % Power(bits - 2), bits - 2);
      } else {
        BytesOfTail(vs, rest, k, i + 1, sum, bits + 6);
      }
    }
  }

  // Two, three and four values from the start of a group.
  lemma TwoValues(vs: seq<Sextet>, b: Byte, low: nat)
    requires |vs| >= 2 && low < 16 && vs[0] == b / 4 && vs[1] == b % 4 * 16 + low
    ensures Bytes(vs, 0, 0, 0) == [b] + Bytes(vs, 2, low, 4)
  {
    Powers();
    FirstValue(vs, b);
    SecondValue(vs, b, low);
  }

  lemma FirstValue(vs: seq<Sextet>, b: Byte)
    requires |vs| >= 1 && vs[0] == b / 4
    ensures Bytes(vs, 0, 0, 0) == Bytes(vs, 1, b / 4, 6)
  {
    assert Shifted(0, vs[0]) == b / 4;
  }

  lemma SecondValue(vs: seq<Sextet>, b: Byte, low: nat)
    requires |vs| >= 2 && low < 16 && vs[1] == b % 4 * 16 + low
    ensures Bytes(vs, 1, b / 4, 6) == [b] + Bytes(vs, 2, low, 4)
  {
    Powers();
    SecondSum(b, low, vs[1]);
  }

  lemma SecondSum(b: Byte, low: nat, v: Sextet)
    requires low < 16 && v == b % 4 * 16 + low
    ensures Shifted(b / 4, v) / 16 % 256 == b && Shifted(b / 4, v) % 16 == low
  {
    Joined(b, low);
    assert b / 4 * 64 + b % 4 * 16 == b * 16;
  }

  lemma Joined(b: Byte, low: nat)
    requires low < 16
    ensures (b * 16 + low) / 16 == b && (b * 16 + low) % 16 == low
  {
  }

  lemma ThirdValue(vs: seq<Sextet>, high: nat, b: Byte, low: nat)
    requires |vs| >= 3 && high == b / 16 && low < 4 && vs[2] == b % 16 * 4 + low
    ensures Bytes(vs, 2, high, 4) == [b] + Bytes(vs, 3, low, 2)
  {
    Powers();
  }

  lemma FourthValue(vs: seq<Sextet>, high: nat, b: Byte)
    requires |vs| >= 4 && high == b / 64 && vs[3] == b % 64
    ensures Bytes(vs, 3, high, 2) == [b] + Bytes(vs, 4, 0, 0)
  {
    Powers();
  }

  lemma {:induction false} SextetsDecode(data: seq<Byte>, i: nat)
    requires i <= |data|
    ensures Bytes(Sextets(data, i), 0, 0, 0) == data[i..]
    decreases |data| - i
  {
    var vs, n := Sextets(data, i), |data| - i;
    if n == 1 {
      TwoValues(vs, data[i], 0);
    } else if n == 2 {
      TwoValues(vs, data[i], data[i + 1] / 16);
      ThirdValue(vs, data[i + 1] / 16, data[i + 1], 0);
    } else if n >= 3 {
      TwoValues(vs, data[i], data[i + 1] / 16);
      ThirdValue(vs, data[i + 1] / 16, data[i + 1], data[i + 2] / 64);
      FourthValue(vs, data[i + 2] / 64, data[i + 2]);
      SextetsDecode(data, i + 3);
      BytesOfTail(vs, Sextets(data, i + 3), 4, 0, 0, 0);
      assert data[i..] == [data[i], data[i + 1], data[i + 2]] + data[i + 3..];
    }
  }

  lemma EncodingHasNoSpace(data: seq<Byte>, url: bool, padded: bool)
    ensures forall k :: 0 <= k < |Encode(data, url, padded)| ==> !IsSpace(Encode(data, url, padded)[k])
  {
    var vs, text := Sextets(data, 0), Encode(data, url, padded);
    forall k | 0 <= k < |text| ensures !IsSpace(text[k]) {
      if k < |vs| {
        LetterValue(vs[k], url);
      }
    }
  }

  /**
   * Decoding gives back every non-empty string of bytes from its encoding: in either alphabet, padded or
   * not, with white space put in anywhere.
   */
  lemma DecodeInverts(data: seq<Byte>, url: bool, padded: bool, text: string)
    requires data != [] && Stripped(text, 0) == Encode(data, url, padded)
    ensures Decode(text) == Some(data)
  {
    var plain := Encode(data, url, padded);
    EncodingHasNoSpace(data, url, padded);
    assert plain[0..] == plain;
    ReadStripped(text, 0, plain, 0);
    var vs := Sextets(data, 0);
    ReadLetters(vs, url, if padded then Padding(|data|) else "", 0);
    assert vs[0..] == vs;
    SextetsDecode(data, 0);
    assert data[0..] == data;
  }
}
