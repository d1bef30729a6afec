/** Branch names: which are valid, which are below which, and where a rename or a delete moves them. */
module BranchNames {
  const NAME_MAX := 255
  const RENAME_SIZE := 512
  const AGENT := "agent:"

  predicate IsControl(c: char) {
    c < ' ' || c == 127 as char
  }

  // Characters of a reference suffix, of a pattern, and white space; white space below ' ' is control.
  predicate IsBad(c: char) {
    IsControl(c) || c == ' ' || c in "~^@:?*[\\"
  }

  /** A component starts at a position. */
  predicate Starts(name: string, i: nat)
    requires i <= |name|
  {
    i == 0 || name[i - 1] == '/'
  }

  /** The colon at a position ends the mark of an agent component. */
  predicate EndsMark(name: string, i: nat)
    requires i < |name|
  {
    i >= 5 && Starts(name, i - 5) && name[i - 5..i + 1] == AGENT
  }

  predicate CharOk(name: string, i: nat, agent: bool)
    requires i < |name|
  {
    !IsBad(name[i]) || (agent && name[i] == ':' && EndsMark(name, i))
  }

  /** A component ends before a position. */
  predicate Ends(name: string, i: nat)
    requires i <= |name|
  {
    i == |name| || name[i] == '/'
  }

  /** The component at a position is not empty, "." or "..". */
  predicate ComponentOk(name: string, i: nat)
    requires i <= |name|
  {
    && !Ends(name, i)
    && !(name[i] == '.' && Ends(name, i + 1))
    && !(i + 1 < |name| && name[i] == '.' && name[i + 1] == '.' && Ends(name, i + 2))
  }

  /** A valid name; one that an agent branch can have too. */
  predicate ValidName(name: string, agent: bool) {
    && name != "HEAD" && |name| <= NAME_MAX
    && (forall i :: 0 <= i < |name| ==> CharOk(name, i, agent))
    && (forall i :: 0 <= i <= |name| && Starts(name, i) ==> ComponentOk(name, i))
  }

  /** In the component that starts at comp the colon at p ends the mark of an agent exactly when it is there. */
  lemma MarkIsHere(name: string, comp: nat, p: nat)
    requires comp <= p < |name| && Starts(name, comp) && forall i :: comp <= i < p ==> name[i] != '/'
    ensures EndsMark(name, p) <==> p - comp == 5 && name[comp..p + 1] == "agent:"
  {
    if EndsMark(name, p) {
      MarkHasNoSlash(name, p);
    }
  }

  /** A component that ends at p is fine exactly when it is not empty, "." or "..". */
  lemma ComponentIs(name: string, comp: nat, p: nat)
    requires comp <= p <= |name| && Ends(name, p) && forall i :: comp <= i < p ==> name[i] != '/'
    ensures ComponentOk(name, comp) <==>
            p != comp && !(p - comp == 1 && name[comp] == '.')
            && !(p - comp == 2 && name[comp] == '.' && name[comp + 1] == '.')
  {
  }

  /** The characters before p and the components before comp are fine. */
  ghost predicate FineTo(name: string, agent: bool, comp: nat, p: nat) {
    && comp <= p <= |name| && Starts(name, comp)
    && (forall i :: comp <= i < p ==> name[i] != '/')
    && (forall i :: 0 <= i < p ==> CharOk(name, i, agent))
    && (forall i :: 0 <= i < comp && Starts(name, i) ==> ComponentOk(name, i))
  }

  /** Walk over the characters, and look at each component where it ends. */
  method NameValid(name: string, agent: bool) returns (ok: bool)
    ensures ok <==> ValidName(name, agent)
  {
    if name == "" || name == "HEAD" || |name| > NAME_MAX {
      assert name == "" ==> !ComponentOk(name, 0);
      return false;
    }
    var comp, p := 0, 0;
    while true
      invariant FineTo(name, agent, comp, p)
      decreases |name| - p
    {
      if p < |name| && name[p] != '/' {
        MarkIsHere(name, comp, p);
        if !(agent && name[p] == ':' && p - comp == 5 && name[comp..p + 1] == "agent:")
           && (name[p] <= ' ' || name[p] == 127 as char || name[p] in "~^@:?*[\\") {
          assert !CharOk(name, p, agent);
          return false;
        }
        p := p + 1;
      } else {
        ComponentIs(name, comp, p);
        if p == comp || (p - comp == 1 && name[comp] == '.')
           || (p - comp == 2 && name[comp] == '.' && name[comp + 1] == '.') {
          return false;
        }
        if p == |name| {
          assert forall i :: comp < i <= |name| ==> !Starts(name, i);
          return true;
        }
        comp, p := p + 1, p + 1;
      }
    }
  }

  /** A name is a parent or below it; all names are below the empty one. */
  predicate IsBelow(name: string, parent: string) {
    parent == "" || (parent <= name && (|name| == |parent| || name[|parent|] == '/'))
  }

  // ---------------------------------------------------------------- rename

  function Renamed(from: string, to: string, name: string): string
    requires |from| <= |name|
  {
    to + name[|from|..]
  }

  // ---------------------------------------------------------------- delete

  /** The length of the parent of a name, zero where it has none. */
  function ParentLength(name: string, i: nat): (n: nat)
    requires i <= |name|
    ensures n <= i && (n > 0 ==> n < |name| && name[n] == '/')
    ensures n == 0 ==> forall j :: 0 < j < i ==> name[j] != '/'
    ensures n > 0 ==> forall j :: n < j < i ==> name[j] != '/'
    decreases i
  {
    if i == 0 then 0 else if name[i - 1] == '/' then i - 1 else ParentLength(name, i - 1)
  }

  /** A name below a deleted one moves to the parent, or to the root. */
  function Reparented(name: string, child: string): string
    requires |name| < |child|
  {
    var n := ParentLength(name, |name|);
    if n > 0 then name[..n] + child[|name|..] else child[|name| + 1..]
  }

  // ---------------------------------------------------------------- which new names are valid

  /** Two names with the same tail from a slash on have the same characters and components there. */
  predicate SameTail(a: string, i: nat, b: string, j: nat) {
    i <= |a| && j <= |b| && a[i..] == b[j..] && (i < |a| ==> a[i] == '/')
  }

  lemma TailAt(a: string, i: nat, b: string, j: nat, k: nat)
    requires SameTail(a, i, b, j) && k + i <= |a|
    ensures k + j <= |b| && (k + i == |a| <==> k + j == |b|)
    ensures k + i < |a| ==> a[i + k] == b[j + k]
  {
    assert |a[i..]| == |b[j..]|;
    if k + i < |a| {
      assert a[i..][k] == b[j..][k];
    }
  }

  lemma TailMark(a: string, i: nat, b: string, j: nat, k: nat)
    requires SameTail(a, i, b, j) && i + k < |a| && a[i + k] == ':' && EndsMark(a, i + k)
    ensures j + k < |b| && EndsMark(b, j + k)
  {
    MarkHasNoSlash(a, i + k);
    assert k > 5;
    assert j + k < |b| by {
      TailAt(a, i, b, j, k);
    }
    TailAt(a, i, b, j, k - 6);
    assert a[i + k - 5..i + k + 1] == a[i..][k - 5..k + 1];
    assert b[j + k - 5..j + k + 1] == b[j..][k - 5..k + 1];
  }

  lemma TailChar(a: string, i: nat, b: string, j: nat, k: nat)
    requires SameTail(a, i, b, j) && i + k < |a| && CharOk(a, i + k, true)
    ensures j + k < |b| && CharOk(b, j + k, true)
  {
    TailAt(a, i, b, j, k);
    if IsBad(a[i + k]) {
      TailMark(a, i, b, j, k);
    }
  }

  lemma TailComponent(a: string, i: nat, b: string, j: nat, k: nat)
    requires SameTail(a, i, b, j) && 0 < k && i + k <= |a| && ComponentOk(a, i + k)
    ensures j + k <= |b| && ComponentOk(b, j + k)
  {
    TailAt(a, i, b, j, k);
    TailAt(a, i, b, j, k + 1);
    if i + k + 2 <= |a| {
      TailAt(a, i, b, j, k + 2);
    }
  }

  /** Two names with the same head up to where a component ends have the same characters and components there. */
  predicate SameHead(a: string, b: string, n: nat) {
    n <= |a| && n <= |b| && a[..n] == b[..n] && Ends(a, n) && Ends(b, n)
  }

  lemma HeadChar(a: string, b: string, n: nat, k: nat)
    requires SameHead(a, b, n) && k < n && CharOk(a, k, true)
    ensures CharOk(b, k, true)
  {
    assert a[..n][k] == b[..n][k];
    if IsBad(a[k]) {
      assert a[k - 5..k + 1] == a[..n][k - 5..k + 1];
      assert b[k - 5..k + 1] == b[..n][k - 5..k + 1];
      if k > 5 {
        assert a[..n][k - 6] == b[..n][k - 6];
      }
    }
  }

  lemma HeadEnds(a: string, b: string, n: nat, k: nat)
    requires SameHead(a, b, n) && k <= n
    ensures Ends(a, k) <==> Ends(b, k)
  {
    if k < n {
      assert a[..n][k] == b[..n][k];
    }
  }

  lemma HeadComponent(a: string, b: string, n: nat, k: nat)
    requires SameHead(a, b, n) && k < n && ComponentOk(a, k)
    ensures ComponentOk(b, k)
  {
    HeadEnds(a, b, n, k);
    HeadEnds(a, b, n, k + 1);
    assert a[..n][k] == b[..n][k];
    if k + 2 <= n {
      HeadEnds(a, b, n, k + 2);
      assert a[..n][k + 1] == b[..n][k + 1];
    }
  }

  ghost predicate CharsOk(name: string) {
    forall i :: 0 <= i < |name| ==> CharOk(name, i, true)
  }

  ghost predicate ComponentsOk(name: string) {
    forall i :: 0 <= i <= |name| && Starts(name, i) ==> ComponentOk(name, i)
  }

  /** A name put together from the head of one name and the tail of another, where components end. */
  lemma JoinedOk(head: string, n: nat, tail: string, i: nat, name: string)
    requires SameHead(head, name, n) && SameTail(tail, i, name, n) && n > 0
    requires CharsOk(head) && ComponentsOk(head) && CharsOk(tail) && ComponentsOk(tail)
    ensures CharsOk(name) && ComponentsOk(name)
  {
    forall k | 0 <= k < |name| ensures CharOk(name, k, true) {
      if k < n {
        HeadChar(head, name, n, k);
      } else {
        JoinedTailLength(tail, i, name, n);
        TailChar(tail, i, name, n, k - n);
      }
    }
    forall k | 0 <= k <= |name| && Starts(name, k) ensures ComponentOk(name, k) {
      JoinedComponent(head, n, tail, i, name, k);
    }
  }

  lemma JoinedTailLength(tail: string, i: nat, name: string, n: nat)
    requires SameTail(tail, i, name, n)
    ensures |tail| - i == |name| - n
  {
    assert |tail[i..]| == |name[n..]|;
  }

  lemma JoinedComponent(head: string, n: nat, tail: string, i: nat, name: string, k: nat)
    requires SameHead(head, name, n) && SameTail(tail, i, name, n) && n > 0
    requires ComponentsOk(head) && ComponentsOk(tail) && k <= |name| && Starts(name, k)
    ensures ComponentOk(name, k)
  {
    JoinedTailLength(tail, i, name, n);
    assert head[..n][n - 1] == name[..n][n - 1];
    assert !Starts(head, n);
    if k < n {
      if k > 0 {
        assert head[..n][k - 1] == name[..n][k - 1];
      }
      assert Starts(head, k);
      HeadComponent(head, name, n, k);
    } else {
      TailAt(tail, i, name, n, k - n - 1);
      assert Starts(tail, i + (k - n));
      TailComponent(tail, i, name, n, k - n);
    }
  }

  /** The end of a name from the start of a component on. */
  lemma SuffixOk(name: string, i: nat)
    requires CharsOk(name) && ComponentsOk(name) && i <= |name| && Starts(name, i)
    ensures CharsOk(name[i..]) && ComponentsOk(name[i..])
  {
    var r := name[i..];
    forall k | 0 <= k < |r| ensures CharOk(r, k, true) {
      assert CharOk(name, i + k, true);
      SuffixChar(name, i, k);
    }
    forall k | 0 <= k <= |r| && Starts(r, k) ensures ComponentOk(r, k) {
      assert Starts(name, i + k) && ComponentOk(name, i + k);
    }
  }

  lemma MarkHasNoSlash(name: string, i: nat)
    requires i < |name| && EndsMark(name, i)
    ensures forall k :: i - 5 <= k <= i ==> name[k] != '/'
  {
    forall k | i - 5 <= k <= i
      ensures name[k] != '/'
    {
      assert name[k] == name[i - 5..i + 1][k + 5 - i] == AGENT[k + 5 - i];
    }
  }

  lemma SuffixChar(name: string, i: nat, k: nat)
    requires i + k < |name| && Starts(name, i) && CharOk(name, i + k, true)
    ensures CharOk(name[i..], k, true)
  {
    if IsBad(name[i + k]) {
      MarkHasNoSlash(name, i + k);
      SuffixSlice(name, i, k - 5, k + 1);
    }
  }

  lemma SuffixSlice(name: string, i: nat, a: nat, b: nat)
    requires i + b <= |name| && a <= b
    ensures name[i..][a..b] == name[i + a..i + b]
  {
  }

  /** A renamed branch has a valid name exactly when the name is not too long. */
  lemma RenamedValid(from: string, to: string, name: string)
    requires from != "" && ValidName(name, true) && ValidName(to, false) && IsBelow(name, from)
    ensures ValidName(Renamed(from, to, name), true) <==> |Renamed(from, to, name)| <= NAME_MAX
  {
    var r := Renamed(from, to, name);
    assert CharsOk(to) by {
      forall i | 0 <= i < |to| ensures CharOk(to, i, true) {
        assert CharOk(to, i, false);
      }
    }
    assert Starts(to, 0) && ComponentOk(to, 0);
    assert r[..|to|] == to && to[..|to|] == to;
    assert r[|to|..] == name[|from|..];
    JoinedOk(to, |to|, name, |from|, r);
    if |name| == |from| {
      assert r == to;
    } else {
      assert r[|to|] == '/';
      assert r != "HEAD";
    }
  }

  /** A branch that a delete moves has a valid name exactly when that name is not the reserved one. */
  lemma ReparentedValid(name: string, child: string)
    requires name != "" && ValidName(child, true) && IsBelow(child, name) && child != name
    ensures ValidName(Reparented(name, child), true) <==> Reparented(name, child) != "HEAD"
  {
    var r, n := Reparented(name, child), ParentLength(name, |name|);
    assert child[..|name|] == name;
    if n > 0 {
      assert name[n] == child[n];
      assert child[..n] == name[..n] == r[..n];
      assert r[n..] == child[|name|..];
      JoinedOk(child, n, child, |name|, r);
    } else {
      SuffixOk(child, |name| + 1);
    }
  }

  function Repeat(c: char, n: nat): (r: string)
    ensures |r| == n && forall i :: 0 <= i < n ==> r[i] == c
  {
    seq(n, _ => c)
  }

  /** A rename can make a name that is too long for a valid one, below the 512 that it checks. */
  lemma RenameCanExceed() returns (from: string, to: string, name: string)
    ensures from != "" && ValidName(name, true) && ValidName(to, false) && IsBelow(name, from)
    ensures NAME_MAX < |Renamed(from, to, name)| < RENAME_SIZE && !ValidName(Renamed(from, to, name), true)
  {
    from, to, name := "b", Repeat('a', 250), "b/" + Repeat('c', 250);
    assert Renamed(from, to, name) == Repeat('a', 250) + "/" + Repeat('c', 250);
  }

  /** A delete can make the reserved name. */
  lemma DeleteCanMakeHead()
    ensures ValidName("a/HEAD", true) && IsBelow("a/HEAD", "a") && !ValidName(Reparented("a", "a/HEAD"), true)
  {
    assert Reparented("a", "a/HEAD") == "HEAD";
  }
}
