/** The order of the rows of a branch table, and what a sorted table says about ancestors. */
module BranchRows {
  import opened BranchNames

  // The place of the end of a name, of a slash, and of any other character in the order. A name has no
  // end character inside.
  function Weight(s: string, i: nat): int
    requires i <= |s|
  {
    if i == |s| then 0 else if s[i] == '/' then 1 else s[i] as int + 1
  }

  predicate IsName(s: string) {
    forall i :: 0 <= i < |s| ==> s[i] != 0 as char
  }

  /** The first position at which two names differ, or the end of both. */
  function Split(a: string, b: string, i: nat): (k: nat)
    requires i <= |a| && i <= |b|
    ensures i <= k <= |a| && k <= |b|
    ensures k < |a| && k < |b| ==> a[k] != b[k]
    ensures forall j :: i <= j < k ==> a[j] == b[j]
    decreases |a| - i
  {
    if i < |a| && i < |b| && a[i] == b[i] then Split(a, b, i + 1) else i
  }

  /** Less than zero where the first name comes first, zero for the same name. */
  function Order(a: string, b: string): int {
    var k := Split(a, b, 0);
    Weight(a, k) - Weight(b, k)
  }

  /** The comparison of two rows. */
  method Compare(a: string, b: string) returns (r: int)
    requires IsName(a) && IsName(b)
    ensures (r < 0 <==> Order(a, b) < 0) && (r == 0 <==> Order(a, b) == 0)
  {
    var i := 0;
    while i < |a| && i < |b| && a[i] == b[i]
      invariant i <= |a| && i <= |b| && Split(a, b, i) == Split(a, b, 0)
    {
      i := i + 1;
    }
    var ca := if i < |a| then a[i] as int else 0;
    var cb := if i < |b| then b[i] as int else 0;
    if ca == 0 || cb == 0 {
      return ca - cb;
    }
    if ca == '/' as int || cb == '/' as int {
      return if ca == '/' as int then -1 else 1;
    }
    r := ca - cb;
  }

  lemma SplitIs(a: string, b: string, k: nat)
    requires k <= |a| && k <= |b| && (forall j :: 0 <= j < k ==> a[j] == b[j])
    requires k == |a| || k == |b| || a[k] != b[k]
    ensures Split(a, b, 0) == k
  {
  }

  lemma WeightsDiffer(a: string, b: string, k: nat)
    requires IsName(a) && IsName(b) && k <= |a| && k <= |b|
    ensures Weight(a, k) == Weight(b, k) <==> (k == |a| && k == |b|) || (k < |a| && k < |b| && a[k] == b[k])
  {
  }

  // ---------------------------------------------------------------- a total order

  lemma OrderIsZero(a: string, b: string)
    requires IsName(a) && IsName(b)
    ensures Order(a, b) == 0 <==> a == b
  {
    var k := Split(a, b, 0);
    WeightsDiffer(a, b, k);
    if Order(a, b) == 0 {
      assert a == b;
    }
  }

  lemma OrderIsOpposite(a: string, b: string)
    ensures Order(a, b) == -Order(b, a)
  {
    SplitIs(b, a, Split(a, b, 0));
  }

  lemma OrderIsTransitive(a: string, b: string, c: string)
    requires IsName(a) && IsName(b) && IsName(c) && Order(a, b) <= 0 && Order(b, c) <= 0
    ensures Order(a, c) <= 0
  {
    var i, j := Split(a, b, 0), Split(b, c, 0);
    WeightsDiffer(a, b, i);
    WeightsDiffer(b, c, j);
    var k := if i < j then i else j;
    assert forall l :: 0 <= l < k ==> a[l] == c[l];
    if k == |a| || k == |c| || a[k] != c[k] {
      SplitIs(a, c, k);
    }
  }

  // ---------------------------------------------------------------- ancestors

  /** A name comes after its ancestors. */
  lemma AncestorFirst(name: string, parent: string)
    requires IsName(name) && IsBelow(name, parent) && name != parent
    ensures Order(parent, name) < 0
  {
    SplitIs(parent, name, |parent|);
  }

  /** What comes between a parent and a name below it is below the parent. */
  lemma SubtreeIsContiguous(parent: string, name: string, other: string)
    requires IsName(parent) && IsName(name) && IsName(other) && IsBelow(name, parent)
    requires Order(parent, other) <= 0 && Order(other, name) <= 0
    ensures IsBelow(other, parent)
  {
    var n := |parent|;
    var i, j := Split(parent, other, 0), Split(other, name, 0);
    WeightsDiffer(parent, other, i);
    WeightsDiffer(other, name, j);
    if parent != "" {
      assert forall l :: 0 <= l < n ==> name[l] == parent[l];
      assert i == n;
    }
  }

  // ---------------------------------------------------------------- a sorted table

  /** The names of the rows, each before the next. */
  ghost predicate Sorted(rows: seq<string>) {
    && (forall i :: 0 <= i < |rows| ==> IsName(rows[i]))
    && (forall i, j :: 0 <= i < j < |rows| ==> Order(rows[i], rows[j]) < 0)
  }

  lemma BelowComesLater(rows: seq<string>, i: nat, j: nat)
    requires Sorted(rows) && i < |rows| && j < |rows| && i != j && IsBelow(rows[j], rows[i])
    ensures i < j
  {
    OrderIsZero(rows[i], rows[j]);
    OrderIsOpposite(rows[i], rows[j]);
    if rows[i] != rows[j] {
      AncestorFirst(rows[j], rows[i]);
    }
  }

  lemma RowsBetween(rows: seq<string>, i: nat, k: nat, j: nat)
    requires Sorted(rows) && i <= k <= j < |rows| && IsBelow(rows[j], rows[i])
    ensures IsBelow(rows[k], rows[i])
  {
    OrderIsZero(rows[i], rows[i]);
    OrderIsZero(rows[j], rows[j]);
    SubtreeIsContiguous(rows[i], rows[j], rows[k]);
  }

  predicate NextBelow(rows: seq<string>, i: nat)
    requires i < |rows|
  {
    i + 1 < |rows| && IsBelow(rows[i + 1], rows[i])
  }

  /** A row has descendants exactly when the next row is below it. */
  lemma HasDescendantIffNext(rows: seq<string>, i: nat)
    requires Sorted(rows) && i < |rows|
    ensures NextBelow(rows, i) <==> exists j :: 0 <= j < |rows| && j != i && IsBelow(rows[j], rows[i])
  {
    forall j | 0 <= j < |rows| && j != i && IsBelow(rows[j], rows[i])
      ensures NextBelow(rows, i)
    {
      BelowComesLater(rows, i, j);
      RowsBetween(rows, i, i + 1, j);
    }
  }

  /** Of two names above a third one, one is above the other. */
  lemma AncestorsAreNested(name: string, a: string, b: string)
    requires IsBelow(name, a) && IsBelow(name, b) && |a| <= |b|
    ensures IsBelow(b, a)
  {
    if a != "" {
      assert b == name[..|b|] && a == name[..|a|];
      assert b[..|a|] == a;
      if |a| < |b| {
        assert b[|a|] == name[|a|];
      }
    }
  }

  /** The last row before a position that is above its name; none when there is no such row. */
  function LastAbove(rows: seq<string>, name: string, i: nat): (j: int)
    requires i <= |rows|
    ensures -1 <= j < i && (j >= 0 ==> IsBelow(name, rows[j]))
    ensures forall k :: j < k < i ==> !IsBelow(name, rows[k])
  {
    if i == 0 then -1 else if IsBelow(name, rows[i - 1]) then i - 1 else LastAbove(rows, name, i - 1)
  }

  /**
   * The last earlier row above a row is its nearest ancestor in the table: every other ancestor, wherever
   * it is in the table, is above that one. There is none only when the row has no ancestor at all.
   */
  lemma LastAboveIsNearest(rows: seq<string>, i: nat, k: nat)
    requires Sorted(rows) && i < |rows| && k < |rows| && k != i && IsBelow(rows[i], rows[k])
    ensures var j := Parent(rows, i);
            0 <= j < i && j != i && IsBelow(rows[i], rows[j]) && IsBelow(rows[j], rows[k])
  {
    BelowComesLater(rows, k, i);
    var j := LastAbove(rows, rows[i], i);
    if |rows[j]| < |rows[k]| {
      AncestorsAreNested(rows[i], rows[j], rows[k]);
      BelowComesLater(rows, j, k);
    }
    AncestorsAreNested(rows[i], rows[k], rows[j]);
  }

  function Parent(rows: seq<string>, i: nat): int
    requires i < |rows|
  {
    LastAbove(rows, rows[i], i)
  }

  method ParentOf(rows: seq<string>, i: nat) returns (parent: int)
    requires i < |rows|
    ensures parent == Parent(rows, i)
  {
    parent := -1;
    var j := 0;
    while j < i
      invariant j <= i && parent == LastAbove(rows, rows[i], j)
    {
      if IsBelow(rows[i], rows[j]) {
        parent := j;
      }
      j := j + 1;
    }
  }

  /** Fill in the parent of each row. */
  method Parents(rows: seq<string>) returns (parents: array<int>)
    ensures fresh(parents) && parents.Length == |rows|
    ensures forall i :: 0 <= i < |rows| ==> parents[i] == Parent(rows, i)
  {
    parents := new int[|rows|];
    var i := 0;
    while i < |rows|
      invariant i <= |rows|
      invariant forall k :: 0 <= k < i ==> parents[k] == Parent(rows, k)
    {
      var parent := ParentOf(rows, i);
      parents[i] := parent;
      i := i + 1;
    }
  }

  /** Some row other than the given one is above it and collapsed. */
  ghost predicate Hidden(rows: seq<string>, collapsed: seq<bool>, n: nat)
    requires n < |rows| == |collapsed|
  {
    exists k :: 0 <= k < |rows| && k != n && collapsed[k] && IsBelow(rows[n], rows[k])
  }

  /** Whether text occurs in a name. */
  predicate Occurs(text: string, name: string) {
    exists i :: 0 <= i <= |name| && text <= name[i..]
  }

  /**
   * Whether a row shows. Without a filter it looks at earlier rows only, and a row is hidden exactly when
   * some ancestor anywhere in the table is collapsed.
   */
  method Visible(rows: seq<string>, collapsed: seq<bool>, filter: string, n: nat) returns (visible: bool)
    requires Sorted(rows) && n < |rows| == |collapsed|
    ensures filter != "" ==>
              (visible <==> exists i :: 0 <= i <= |rows[n]| - |filter| && rows[n][i..][..|filter|] == filter)
    ensures filter == "" ==> (visible <==> !Hidden(rows, collapsed, n))
  {
    if filter != "" {
      return Occurs(filter, rows[n]);
    }
    var i := 0;
    while i < n
      invariant i <= n
      invariant forall k :: 0 <= k < i ==> !(collapsed[k] && IsBelow(rows[n], rows[k]))
    {
      if collapsed[i] && IsBelow(rows[n], rows[i]) {
        return false;
      }
      i := i + 1;
    }
    forall k | 0 <= k < |rows| && k != n && IsBelow(rows[n], rows[k]) ensures k < n {
      BelowComesLater(rows, k, n);
    }
    visible := true;
  }
}
