/** The decoder's loop over a text, and the change of an encoding to the alphabet for URLs in place. */
module Base64Decoder {
  import opened Options
  import opened Base64
  import opened Base64Laws

  /** The bytes that a text gives from a position on, behind those that are out; none for another character. */
  function Ahead(text: string, i: nat, out: seq<Byte>, acc: nat, bits: nat): Option<seq<Byte>>
    requires i <= |text|
  {
    match Read(text, i)
    case None => None
    case Some(vs) => Some(out + Bytes(vs, 0, acc, bits))
  }

  lemma AheadOut(text: string, i: nat, out: seq<Byte>, acc: nat, bits: nat, v: Sextet)
    requires i < |text| && text[i] != '=' && !IsSpace(text[i]) && ValueOf(text[i]) == Some(v) && Kept(acc, bits)
    ensures var sum := Shifted(acc, v);
            Ahead(text, i, out, acc, bits)
            == if bits + 6 >= 8
               then Ahead(text, i + 1, out + [sum / Power(bits - 2) % 256], sum % Power(bits - 2), bits - 2)
               else Ahead(text, i + 1, out, sum, bits + 6)
  {
    match Read(text, i + 1)
    case None =>
    case Some(rest) =>
      var vs := [v] + rest;
      assert vs[1..] == rest;
      var sum := Shifted(acc, v);
      if bits + 6 >= 8 {
        BytesOfTail(vs, rest, 1, 0, sum % Power(bits - 2), bits - 2);
        Joins(out, sum / Power(bits - 2) % 256, Bytes(rest, 0, sum % Power(bits - 2), bits - 2));
      } else {
        BytesOfTail(vs, rest, 1, 0, sum, bits + 6);
      }
  }

  lemma Joins(out: seq<Byte>, b: Byte, rest: seq<Byte>)
    ensures out + ([b] + rest) == (out + [b]) + rest
  {
  }

  lemma AheadEnd(text: string, i: nat, out: seq<Byte>, acc: nat, bits: nat)
    requires i <= |text| && (i == |text| || text[i] == '=')
    ensures Ahead(text, i, out, acc, bits) == Some(out)
  {
    assert out + [] == out;
  }

  lemma AheadStart(text: string)
    ensures Decode(text) == match Ahead(text, 0, [], 0, 0)
                            case None => None
                            case Some(bs) => if bs == [] then None else Some(bs)
  {
    match Read(text, 0)
    case None =>
    case Some(vs) => assert [] + Bytes(vs, 0, 0, 0) == Bytes(vs, 0, 0, 0);
  }

  /** How far a decoder is: what it wrote, what is not out yet, and how many bits it read. */
  predicate Reached(n: nat, acc: nat, bits: nat, i: nat) {
    Kept(acc, bits) && 8 * n + bits <= 6 * i
  }

  lemma Advances(n: nat, acc: nat, bits: nat, i: nat, v: Sextet)
    requires Reached(n, acc, bits, i)
    ensures bits + 6 >= 8 ==> Reached(n + 1, Shifted(acc, v) % Power(bits - 2), bits - 2, i + 1)
    ensures bits + 6 < 8 ==> Reached(n, Shifted(acc, v), bits + 6, i + 1)
    ensures Shifted(acc, v) == acc * 64 + v < WIDTH
  {
    ShiftKeeps(acc, v, bits);
    Powers();
  }

  /** What is written, and the mark behind it, fits the buffer. */
  lemma Fits(n: nat, acc: nat, bits: nat, i: nat, len: nat)
    requires Reached(n, acc, bits, i) && i <= len
    ensures n + 1 < len / 4 * 3 + 4
    ensures bits < 8 && acc < Power(bits)
  {
  }

  /** Shift six bits in, and write a byte once eight are there. */
  method Take(out: array<Byte>, n: nat, acc: nat, bits: nat, v: Sextet) returns (size: nat, rest: nat, left: nat)
    requires n < out.Length && Kept(acc, bits)
    modifies out
    ensures var sum := Shifted(acc, v);
            if bits + 6 >= 8
            then (size == n + 1 && rest == sum % Power(bits - 2) && left == bits - 2
                  && out[..size] == old(out[..n]) + [sum / Power(bits - 2) % 256])
            else (size == n && rest == sum && left == bits + 6 && out[..size] == old(out[..n]))
  {
    size, rest, left := n, Shifted(acc, v), bits + 6;
    if left >= 8 {
      left := left - 8;
      Written(out[..], n, rest / Power(left) % 256);
      out[n] := rest / Power(left) % 256;
      size := n + 1;
      rest := rest % Power(left);
    }
  }

  /**
   * Decode a text in either alphabet, with or without padding and white space. The bytes and the mark behind
   * them stay in the buffer for every text.
   */
  method DecodeText(text: string) returns (r: Option<seq<Byte>>)
    ensures r == Decode(text)
  {
    var out := new Byte[|text| / 4 * 3 + 4];
    var n: nat, acc: nat, bits: nat, i: nat := 0, 0, 0, 0;
    ghost var written := [];
    AheadStart(text);
    while i < |text| && text[i] != '='
      invariant i <= |text| && Reached(n, acc, bits, i) && n < out.Length
      invariant written == out[..n]
      invariant Ahead(text, i, written, acc, bits) == Ahead(text, 0, [], 0, 0)
    {
      var c := text[i];
      var v := ValueOf(c);
      if v.None? {
        if !IsSpace(c) {
          return None;
        }
        i := i + 1;
        continue;
      }
      AheadOut(text, i, written, acc, bits, v.value);
      Advances(n, acc, bits, i, v.value);
      n, acc, bits := Take(out, n, acc, bits, v.value);
      written := out[..n];
      i := i + 1;
      Fits(n, acc, bits, i, |text|);
    }
    AheadEnd(text, i, written, acc, bits);
    if n == 0 {
      return None;
    }
    var mark: Byte := 0;
    out[n] := mark;
    r := Some(out[..n]);
  }

  lemma Written(s: seq<Byte>, n: nat, b: Byte)
    requires n < |s|
    ensures s[n := b][..n + 1] == s[..n] + [b]
  {
  }

  /** An encoding has no '=' but the padding. */
  lemma PaddingIsLast(data: seq<Byte>, k: nat)
    requires k < |Encode(data, false, true)|
    ensures Encode(data, false, true)[k] == '=' <==> k >= |Sextets(data, 0)|
  {
    var vs := Sextets(data, 0);
    if k < |vs| {
      LetterValue(vs[k], false);
    }
  }

  function Renamed(c: char): char {
    if c == '+' then '-' else if c == '/' then '_' else c
  }

  lemma LetterRenamed(v: Sextet)
    ensures Renamed(Letter(v, false)) == Letter(v, true)
  {
  }

  /** Cut the padding off a padded standard encoding and rename its two characters, in place. */
  method ToUrl(out: array<char>, size: nat, ghost data: seq<Byte>) returns (n: nat)
    requires size <= out.Length && out[..size] == Encode(data, false, true)
    modifies out
    ensures n <= size && out[..n] == Encode(data, true, false)
  {
    ghost var text, vs := out[..size], Sextets(data, 0);
    n := size;
    while n > 0 && out[n - 1] == '='
      invariant |vs| <= n <= size && out[..size] == text
    {
      assert text[n - 1] == '=';
      PaddingIsLast(data, n - 1);
      n := n - 1;
    }
    assert n == |vs| by {
      if n > |vs| {
        assert text[n - 1] == out[n - 1];
        PaddingIsLast(data, n - 1);
      }
    }
    var i := 0;
    while i < n
      invariant i <= n == |vs|
      invariant forall k :: 0 <= k < i ==> out[k] == Letter(vs[k], true)
      invariant forall k :: i <= k < n ==> out[k] == text[k]
    {
      LetterRenamed(vs[i]);
      if out[i] == '+' {
        out[i] := '-';
      } else if out[i] == '/' {
        out[i] := '_';
      }
      i := i + 1;
    }
    assert out[..n] == Letters(vs, true) + "";
  }
}
