/** What is selected out of a sequence, in its order. */
module Selection {

  /** The kept items are those at these positions. */
  ghost predicate Selects<T>(all: seq<T>, kept: seq<T>, at: seq<nat>) {
    && |at| == |kept|
    && (forall j :: 0 <= j < |at| ==> at[j] < |all| && kept[j] == all[at[j]])
    && (forall j, k :: 0 <= j < k < |at| ==> at[j] < at[k])
  }

  /** Exactly the marked items are kept, in their order. */
  ghost predicate Selected<T>(all: seq<T>, marks: seq<bool>, kept: seq<T>) {
    && |marks| == |all|
    && exists at: seq<nat> :: Selects(all, kept, at) && forall k :: 0 <= k < |marks| ==> (k in at <==> marks[k])
  }

  lemma NothingSelected<T>()
    ensures Selected<T>([], [], [])
  {
    var at: seq<nat> := [];
    assert Selects<T>([], [], at);
  }

  lemma SelectedLast<T>(all: seq<T>, marks: seq<bool>, kept: seq<T>, last: T, mark: bool)
    requires Selected(all, marks, kept)
    ensures Selected(all + [last], marks + [mark], if mark then kept + [last] else kept)
  {
    var at: seq<nat> :| Selects(all, kept, at) && forall k :: 0 <= k < |marks| ==> (k in at <==> marks[k]);
    assert |all| !in at;
    if mark {
      assert Selects(all + [last], kept + [last], at + [|all|]);
    } else {
      assert Selects(all + [last], kept, at);
    }
  }

  lemma OneSelected<T>(x: T, mark: bool)
    ensures Selected([x], [mark], if mark then [x] else [])
  {
    NothingSelected<T>();
    SelectedLast([], [], [], x, mark);
    assert [] + [x] == [x] && [] + [mark] == [mark];
  }

  lemma SelectsConcat<T>(a: seq<T>, ka: seq<T>, i: seq<nat>, b: seq<T>, kb: seq<T>, j: seq<nat>)
    requires Selects(a, ka, i) && Selects(b, kb, j)
    ensures Selects(a + b, ka + kb, i + Behind(j, |a|))
  {
  }

  lemma SelectedConcat<T>(a: seq<T>, ma: seq<bool>, ka: seq<T>, b: seq<T>, mb: seq<bool>, kb: seq<T>)
    requires Selected(a, ma, ka) && Selected(b, mb, kb)
    ensures Selected(a + b, ma + mb, ka + kb)
  {
    var i: seq<nat> :| Selects(a, ka, i) && forall k :: 0 <= k < |ma| ==> (k in i <==> ma[k]);
    var j: seq<nat> :| Selects(b, kb, j) && forall k :: 0 <= k < |mb| ==> (k in j <==> mb[k]);
    var at := i + Behind(j, |a|);
    SelectsConcat(a, ka, i, b, kb, j);
    forall k | 0 <= k < |ma + mb| ensures k in at <==> (ma + mb)[k] {
      InBehind(i, j, |a|, k);
    }
  }

  function Behind(at: seq<nat>, n: nat): (r: seq<nat>)
    ensures |r| == |at| && forall k :: 0 <= k < |at| ==> r[k] == n + at[k]
  {
    seq(|at|, k requires 0 <= k < |at| => n + at[k])
  }

  lemma InBehind(i: seq<nat>, j: seq<nat>, n: nat, k: nat)
    requires forall l :: 0 <= l < |i| ==> i[l] < n
    ensures k in i + Behind(j, n) <==> if k < n then k in i else k - n in j
  {
    if k >= n && k - n in j {
      var l :| 0 <= l < |j| && j[l] == k - n;
      assert Behind(j, n)[l] == k;
    }
  }
}
