/** Base64 as sections 4 and 5 of RFC 4648 define it, and the decoder that reads both. */
module Base64 {
  import opened Options

  type Byte = b: int | 0 <= b < 256

  // The value of one character of an encoding: six bits.
  type Sextet = v: int | 0 <= v < 64

  const WIDTH := 0x1_0000_0000

  // ---------------------------------------------------------------- the alphabets

  /** The character of a value, in the standard alphabet or in the one for URLs. */
  function Letter(v: Sextet, url: bool): char {
    if v < 26 then 'A' + v as char
    else if v < 52 then 'a' + (v - 26) as char
    else if v < 62 then '0' + (v - 52) as char
    else if v == 62 then (if url then '-' else '+')
    else (if url then '_' else '/')
  }

  /** The value of a character of either alphabet. */
  function ValueOf(c: char): Option<Sextet> {
    if 'A' <= c <= 'Z' then Some(c as int - 'A' as int)
    else if 'a' <= c <= 'z' then Some(c as int - 'a' as int + 26)
    else if '0' <= c <= '9' then Some(c as int - '0' as int + 52)
    else if c == '+' || c == '-' then Some(62)
    else if c == '/' || c == '_' then Some(63)
    else None
  }

  predicate IsSpace(c: char) {
    c == ' ' || c == '\t' || c == '\r' || c == '\n'
  }

  lemma LetterValue(v: Sextet, url: bool)
    ensures ValueOf(Letter(v, url)) == Some(v)
    ensures !IsSpace(Letter(v, url)) && Letter(v, url) != '='
  {
  }

  const UPPER := "ABCDEFGHIJKLMNOPQRSTUVWXYZ"
  const LOWER := "abcdefghijklmnopqrstuvwxyz"
  const DIGITS := "0123456789"

  lemma RangesAre(i: nat)
    ensures i < 26 ==> UPPER[i] == 'A' + i as char && LOWER[i] == 'a' + i as char
    ensures i < 10 ==> DIGITS[i] == '0' + i as char
  {
  }

  /** The alphabets are those of tables 1 and 2 of RFC 4648. */
  lemma AlphabetIs(v: Sextet, url: bool)
    ensures Letter(v, url) == (UPPER + LOWER + DIGITS + if url then "-_" else "+/")[v]
  {
    RangesAre(if v < 26 then v else if v < 52 then v - 26 else if v < 62 then v - 52 else 0);
  }

  // ---------------------------------------------------------------- the encodings

  /** The values of the encoding of bytes from a position on. */
  function Sextets(data: seq<Byte>, i: nat): seq<Sextet>
    requires i <= |data|
    decreases |data| - i
  {
    var n := |data| - i;
    if n == 0 then []
    else if n == 1 then [data[i] / 4, data[i] % 4 * 16]
    else if n == 2 then [data[i] / 4, data[i] % 4 * 16 + data[i + 1] / 16, data[i + 1] % 16 * 4]
    else
      [data[i] / 4, data[i] % 4 * 16 + data[i + 1] / 16, data[i + 1] % 16 * 4 + data[i + 2] / 64, data[i + 2] % 64]
      + Sextets(data, i + 3)
  }

  function Letters(vs: seq<Sextet>, url: bool): (r: string)
    ensures |r| == |vs| && forall i :: 0 <= i < |vs| ==> r[i] == Letter(vs[i], url)
  {
    seq(|vs|, i requires 0 <= i < |vs| => Letter(vs[i], url))
  }

  function Padding(n: nat): string {
    if n % 3 == 0 then "" else if n % 3 == 1 then "==" else "="
  }

  function Encode(data: seq<Byte>, url: bool, padded: bool): string {
    Letters(Sextets(data, 0), url) + if padded then Padding(|data|) else ""
  }

  // ---------------------------------------------------------------- the values that a text writes

  /** The values of a text up to its first '=', without white space; none when another character is in it. */
  function Read(text: string, i: nat): Option<seq<Sextet>>
    requires i <= |text|
    decreases |text| - i
  {
    if i == |text| || text[i] == '=' then Some([])
    else if IsSpace(text[i]) then Read(text, i + 1)
    else
      match ValueOf(text[i])
      case None => None
      case Some(v) => match Read(text, i + 1)
                      case None => None
                      case Some(rest) => Some([v] + rest)
  }

  /** A character that a text can have before its first '='. */
  predicate Readable(c: char) {
    || ('A' <= c && c <= 'Z') || ('a' <= c && c <= 'z') || ('0' <= c && c <= '9')
    || c in "+-/_" || c in " \t\r\n"
  }

  /** From i on any other character is behind an '='. */
  ghost predicate ReadableTo(text: string, i: nat) {
    forall k :: i <= k < |text| && !Readable(text[k]) ==> exists j :: i <= j <= k && text[j] == '='
  }

  /** A text is read exactly when it has only characters of the alphabets and white space before its first '='. */
  lemma {:induction false} ReadIff(text: string, i: nat)
    requires i <= |text|
    ensures Read(text, i).Some? <==> ReadableTo(text, i)
    decreases |text| - i
  {
    if i < |text| && text[i] != '=' {
      ReadableIs(text[i]);
      ReadIff(text, i + 1);
      ReadableFrom(text, i);
    }
  }

  lemma ReadableFrom(text: string, i: nat)
    requires i < |text| && text[i] != '='
    ensures ReadableTo(text, i) <==> Readable(text[i]) && ReadableTo(text, i + 1)
  {
  }

  lemma ReadableIs(c: char)
    ensures Readable(c) <==> IsSpace(c) || ValueOf(c).Some?
  {
  }

  /** A padded encoding is written in groups of four characters, of which only the last two can be padding. */
  lemma PaddedLength(data: seq<Byte>, url: bool)
    ensures |Encode(data, url, true)| == (|data| + 2) / 3 * 4
    ensures |Encode(data, url, true)| == |Encode(data, url, false)| + |Padding(|data|)|
    ensures |Padding(|data|)| <= 2 && forall c :: c in Padding(|data|) ==> c == '='
  {
    SextetsLength(data, 0);
  }

  lemma {:induction false} SextetsLength(data: seq<Byte>, i: nat)
    requires i <= |data|
    ensures |Sextets(data, i)| == ((|data| - i) * 4 + 2) / 3
    decreases |data| - i
  {
    if i + 3 <= |data| {
      SextetsLength(data, i + 3);
    }
  }

  function Stripped(text: string, i: nat): string
    requires i <= |text|
    decreases |text| - i
  {
    if i == |text| then ""
    else if IsSpace(text[i]) then Stripped(text, i + 1)
    else [text[i]] + Stripped(text, i + 1)
  }

  lemma {:induction false} ReadStripped(text: string, i: nat, plain: string, j: nat)
    requires i <= |text| && j <= |plain| && Stripped(text, i) == plain[j..]
    requires forall k :: 0 <= k < |plain| ==> !IsSpace(plain[k])
    ensures Read(text, i) == Read(plain, j)
    decreases |text| - i
  {
    if i < |text| {
      if IsSpace(text[i]) {
        ReadStripped(text, i + 1, plain, j);
      } else {
        assert plain[j..][0] == text[i];
        assert Stripped(text, i + 1) == plain[j..][1..] == plain[j + 1..];
        ReadStripped(text, i + 1, plain, j + 1);
      }
    } else {
      assert |plain[j..]| == 0;
    }
  }

  /** The values of an encoding, padded or not, are those that were written. */
  lemma {:induction false} ReadLetters(vs: seq<Sextet>, url: bool, padding: string, i: nat)
    requires i <= |vs| && (padding == "" || padding[0] == '=')
    ensures Read(Letters(vs, url) + padding, i) == Some(vs[i..])
    decreases |vs| - i
  {
    var text := Letters(vs, url) + padding;
    if i < |vs| {
      assert text[i] == Letter(vs[i], url);
      LetterValue(vs[i], url);
      ReadLetters(vs, url, padding, i + 1);
      assert vs[i..] == [vs[i]] + vs[i + 1..];
    } else {
      assert i < |text| ==> text[i] == padding[0];
      assert vs[i..] == [];
    }
  }

  // ---------------------------------------------------------------- decoding

  /** The accumulator after one more value: the bits that are not out yet. */
  function Shifted(acc: nat, v: Sextet): nat {
    (acc * 64 + v) % WIDTH
  }

  function Power(bits: nat): (p: nat)
    ensures p > 0
  {
    if bits == 0 then 1 else 2 * Power(bits - 1)
  }

  /** The bytes that values give, from a position on, after some bits that are not out yet. */
  function Bytes(vs: seq<Sextet>, i: nat, acc: nat, bits: nat): seq<Byte>
    requires i <= |vs|
    decreases |vs| - i
  {
    if i == |vs| then []
    else
      var sum := Shifted(acc, vs[i]);
      if bits + 6 >= 8 then
        [sum / Power(bits - 2) % 256] + Bytes(vs, i + 1, sum % Power(bits - 2), bits - 2)
      else Bytes(vs, i + 1, sum, bits + 6)
  }

  function Decode(text: string): Option<seq<Byte>> {
    match Read(text, 0)
    case None => None
    case Some(vs) => if Bytes(vs, 0, 0, 0) == [] then None else Some(Bytes(vs, 0, 0, 0))
  }
}
