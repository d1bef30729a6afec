/** What a component of a path is, and which item it selects, said without the steps of the search. */
module CatalogFind {
  import opened Options
  import opened StoreValue
  import opened Catalog

  // ---------------------------------------------------------------- components that are numbers

  ghost predicate AllDigits(s: string) {
    forall i :: 0 <= i < |s| ==> '0' <= s[i] && s[i] <= '9'
  }

  ghost predicate Blank(s: string) {
    forall i :: 0 <= i < |s| ==> s[i] in " \t\n\r" || s[i] == 11 as char || s[i] == 12 as char
  }

  /** The number that digits write. */
  ghost function Decimal(digits: string): (n: int)
    requires AllDigits(digits)
    ensures n >= 0
  {
    if digits == [] then 0
    else Decimal(digits[..|digits| - 1]) * 10 + (digits[|digits| - 1] as int - '0' as int)
  }

  /** White space up to i, a sign or none up to j, and then digits that write the number without its sign. */
  ghost predicate Writes(s: string, i: nat, j: nat, n: int) {
    && i <= j < |s| && Blank(s[..i]) && AllDigits(s[j..])
    && (j == i || (j == i + 1 && (s[i] == '+' || s[i] == '-')))
    && n == if j > i && s[i] == '-' then -Decimal(s[j..]) else Decimal(s[j..])
  }

  ghost predicate IsNumber(s: string, n: int) {
    exists i, j :: Writes(s, i, j, n)
  }

  lemma {:induction false} DigitsAre(s: string, f: nat, i: nat)
    requires f <= i <= |s| && AllDigits(s[f..i])
    ensures Digits(s, i, Decimal(s[f..i])) == if AllDigits(s[f..]) then Some(Decimal(s[f..])) else None
    decreases |s| - i
  {
    if i == |s| {
      assert s[f..i] == s[f..];
    } else if IsDigit(s[i]) {
      assert s[f..i + 1] == s[f..i] + [s[i]];
      assert s[f..i + 1][..|s[f..i + 1]| - 1] == s[f..i];
      DigitsAre(s, f, i + 1);
    } else {
      assert s[f..][i - f] == s[i];
    }
  }

  /** Where the sign at a position ends, if one is there. */
  ghost function Unsigned(s: string, i: nat): (j: nat)
    requires i <= |s|
    ensures i <= j <= |s|
  {
    if i < |s| && (s[i] == '+' || s[i] == '-') then i + 1 else i
  }

  lemma SignedIs(s: string, i: nat)
    requires i <= |s|
    ensures var j := Unsigned(s, i);
            if j < |s| && AllDigits(s[j..]) then
              Signed(s, i) == Some(if j > i && s[i] == '-' then -Decimal(s[j..]) else Decimal(s[j..]))
            else Signed(s, i) == None
  {
    var j := Unsigned(s, i);
    assert s[j..j] == "";
    DigitsAre(s, j, j);
  }

  /** The number is read behind all white space at the start. */
  lemma {:induction false} NumberBehind(s: string, i: nat) returns (k: nat)
    requires i <= |s| && Blank(s[..i])
    ensures i <= k <= |s| && Blank(s[..k]) && (k < |s| ==> !IsSpace(s[k])) && Number(s, i) == Signed(s, k)
    decreases |s| - i
  {
    k := i;
    if i < |s| && IsSpace(s[i]) {
      k := NumberBehind(s, i + 1);
    }
  }

  lemma BlankIs(s: string, k: nat)
    requires k <= |s| && Blank(s[..k])
    ensures forall l :: 0 <= l < k ==> IsSpace(s[l])
  {
    forall l | 0 <= l < k ensures IsSpace(s[l]) {
      assert s[..k][l] == s[l];
    }
  }

  /** There is one place where the white space and the sign end. */
  lemma WrittenOnce(s: string, k: nat, i: nat, j: nat, n: int)
    requires k <= |s| && Blank(s[..k]) && (k < |s| ==> !IsSpace(s[k])) && Writes(s, i, j, n)
    ensures i == k && j == Unsigned(s, k)
  {
    assert s[j..][0] == s[j];
    BlankIs(s, k);
    BlankIs(s, i);
  }

  /** A component is read as a number exactly when it writes one. */
  lemma NumberIff(s: string, n: int)
    ensures IndexOf(s) == Some(n) <==> IsNumber(s, n)
  {
    var k := NumberBehind(s, 0);
    SignedIs(s, k);
    if IndexOf(s) == Some(n) {
      assert Writes(s, k, Unsigned(s, k), n);
    }
    if IsNumber(s, n) {
      var i, j :| Writes(s, i, j, n);
      WrittenOnce(s, k, i, j, n);
    }
  }

  // ---------------------------------------------------------------- the item that a name selects

  /** An item has the text under a key; one without a text there has the empty one. */
  ghost predicate HasText(item: Value, key: string, text: string) {
    var v := Get(item, key);
    if v.Str? then v.text == text else text == ""
  }

  /** The items are named by their canonical ids: an item has one, and neither it nor an earlier one has a name. */
  ghost predicate ByCanonicalId(items: seq<Value>) {
    exists i :: 0 <= i < |items| && Get(items[i], "canonical_id").Str? && NoNameTo(items, i)
  }

  ghost predicate NoNameTo(items: seq<Value>, i: int) {
    forall j :: 0 <= j <= i && j < |items| ==> !Get(items[j], "name").Str?
  }

  ghost predicate NoneHas(items: seq<Value>, key: string, text: string, n: int) {
    forall j :: 0 <= j < n && j < |items| ==> !HasText(items[j], key, text)
  }

  ghost predicate FirstHas(items: seq<Value>, key: string, text: string, k: nat) {
    k < |items| && HasText(items[k], key, text) && NoneHas(items, key, text, k)
  }

  /** The first item with the text under the naming key, or where none has it the first with that provider id. */
  ghost predicate NameSelects(items: seq<Value>, text: string, r: Option<nat>) {
    var key := if ByCanonicalId(items) then "canonical_id" else "name";
    match r
    case Some(k) =>
      FirstHas(items, key, text, k)
      || (NoneHas(items, key, text, |items|) && FirstHas(items, "provider_model_id", text, k))
    case None => NoneHas(items, key, text, |items|) && NoneHas(items, "provider_model_id", text, |items|)
  }

  lemma {:induction false} ItemKeyIs(items: seq<Value>, i: nat)
    requires i <= |items| && NoNameTo(items, i - 1)
    requires forall j :: 0 <= j < i ==> !Get(items[j], "canonical_id").Str?
    ensures ItemKey(items, i) == if ByCanonicalId(items) then "canonical_id" else "name"
    decreases |items| - i
  {
    if i < |items| && Label(items[i], NAME).None? && Label(items[i], CANONICAL).None? {
      ItemKeyIs(items, i + 1);
    }
  }

  lemma TextIs(item: Value, key: string, text: string)
    ensures Text(item, key) == text <==> HasText(item, key, text)
  {
  }

  lemma FindTextIs(items: seq<Value>, key: string, text: string)
    ensures var k := FindText(items, key, text, 0);
            if k < |items| then FirstHas(items, key, text, k) else NoneHas(items, key, text, |items|)
  {
    forall j | 0 <= j < |items| ensures Text(items[j], key) == text <==> HasText(items[j], key, text) {
      TextIs(items[j], key, text);
    }
  }

  /** A component that is a number selects the item of that index only; any other one selects by name. */
  lemma FindIs(items: seq<Value>, component: string)
    ensures forall n :: IsNumber(component, n) ==>
              Find(items, component) == if 0 <= n < |items| then Some(n) else None
    ensures (forall n :: !IsNumber(component, n)) ==> NameSelects(items, component, Find(items, component))
  {
    forall n ensures IndexOf(component) == Some(n) <==> IsNumber(component, n) {
      NumberIff(component, n);
    }
    if IndexOf(component).None? {
      ItemKeyIs(items, 0);
      FindTextIs(items, ItemKey(items, 0), component);
      FindTextIs(items, PROVIDER, component);
    }
  }
}
