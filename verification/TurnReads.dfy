/** What the scans of a response read of each call, and how many results the call gets for it. */
module TurnReads {
  import opened TurnLog
  import opened TurnCalls

  /**
   * What decided on one call: whether collecting the parallel group read it as parallel (no, where no group
   * ran), how the scan for the next exclusive call read it, and how collecting it read it then. A call
   * that is not an exclusive one so far is taken as parallel in the last two.
   */
  datatype Reading = Reading(group: bool, scan: bool, collect: bool) {
    /** The results of the call: one from the group, and one from the run of the call alone. */
    function Answers(): (n: nat)
      ensures n <= 2
    {
      (if group then 1 else 0) + if !scan && !collect then 1 else 0
    }

    /** The later scans that decide on the call read it as the group did. */
    predicate Agrees() {
      group == (scan || collect)
    }
  }

  const UNREAD := Reading(false, true, true)

  ghost predicate AllAgree(rs: seq<Reading>) {
    forall i :: 0 <= i < |rs| ==> rs[i].Agrees()
  }

  /** No call has more than one result so far. */
  ghost predicate Singly(rs: seq<Reading>) {
    forall i :: 0 <= i < |rs| ==> rs[i].Answers() <= 1
  }

  ghost predicate EachOnce(rs: seq<Reading>) {
    forall i :: 0 <= i < |rs| ==> rs[i].Answers() == 1
  }

  /** From a position on no scan for an exclusive call came to a call. */
  ghost predicate NotPassed(rs: seq<Reading>, from: nat) {
    forall i :: from <= i < |rs| ==> rs[i].scan && rs[i].collect
  }

  function Unread(n: nat): (rs: seq<Reading>)
    ensures |rs| == n && forall i :: 0 <= i < n ==> rs[i] == UNREAD
  {
    seq(n, _ => UNREAD)
  }

  function Grouped(n: nat, read: Reads): (rs: seq<Reading>)
    ensures |rs| == n && forall i :: 0 <= i < n ==> rs[i] == Reading(Parallel(read, i), true, true)
  {
    seq(n, i requires 0 <= i < n => Reading(Parallel(read, i), true, true))
  }

  ghost predicate DistinctIds(calls: seq<Call>) {
    forall i, j :: 0 <= i < j < |calls| ==> calls[i].id != calls[j].id
  }

  // ---------------------------------------------------------------- owed and surplus results

  /** The ids, from a position on, of the calls with a number of results. */
  ghost function With(calls: seq<Call>, rs: seq<Reading>, n: nat, i: nat): multiset<string>
    requires |rs| == |calls|
    decreases |calls| - i
  {
    if i >= |calls| then multiset{}
    else if rs[i].Answers() == n then multiset{calls[i].id} + With(calls, rs, n, i + 1)
    else With(calls, rs, n, i + 1)
  }

  ghost function Left(calls: seq<Call>, rs: seq<Reading>): multiset<string>
    requires |rs| == |calls|
  {
    With(calls, rs, 0, 0)
  }

  ghost function Surplus(calls: seq<Call>, rs: seq<Reading>): multiset<string>
    requires |rs| == |calls|
  {
    With(calls, rs, 2, 0)
  }

  lemma {:induction false} InWith(calls: seq<Call>, rs: seq<Reading>, n: nat, i: nat, id: string)
    requires |rs| == |calls| && i <= |calls|
    ensures id in With(calls, rs, n, i) <==> exists j :: i <= j < |calls| && rs[j].Answers() == n && calls[j].id == id
    decreases |calls| - i
  {
    if i < |calls| {
      InWith(calls, rs, n, i + 1, id);
      assert rs[i].Answers() == n ==>
          (id in With(calls, rs, n, i) <==> id == calls[i].id || id in With(calls, rs, n, i + 1));
    }
  }

  lemma {:induction false} NoneWith(calls: seq<Call>, rs: seq<Reading>, n: nat, i: nat)
    requires |rs| == |calls| && forall j :: i <= j < |calls| ==> rs[j].Answers() != n
    ensures With(calls, rs, n, i) == multiset{}
    decreases |calls| - i
  {
    if i < |calls| {
      NoneWith(calls, rs, n, i + 1);
    }
  }

  lemma {:induction false} AllUnread(calls: seq<Call>, rs: seq<Reading>, i: nat)
    requires |rs| == |calls| && forall j :: i <= j < |calls| ==> rs[j].Answers() == 0
    ensures With(calls, rs, 0, i) == IdsFrom(calls, i)
    decreases |calls| - i
  {
    if i < |calls| {
      AllUnread(calls, rs, i + 1);
    }
  }

  /** A response that no scan read so far owes a result for each call. */
  lemma NothingRead(calls: seq<Call>)
    ensures Left(calls, Unread(|calls|)) == Ids(calls) && Surplus(calls, Unread(|calls|)) == multiset{}
    ensures NotPassed(Unread(|calls|), 0) && Singly(Unread(|calls|))
  {
    AllUnread(calls, Unread(|calls|), 0);
    NoneWith(calls, Unread(|calls|), 2, 0);
  }

  lemma {:induction false} GroupLeaves(calls: seq<Call>, read: Reads, i: nat)
    ensures With(calls, Grouped(|calls|, read), 0, i) == GroupFrom(calls, read, false, i, multiset{})
    decreases |calls| - i
  {
    if i < |calls| {
      GroupLeaves(calls, read, i + 1);
    }
  }

  lemma {:induction false} SameWith(calls: seq<Call>, a: seq<Reading>, b: seq<Reading>, n: nat, i: nat)
    requires |a| == |b| == |calls| && forall j :: i <= j < |calls| ==> a[j].Answers() == b[j].Answers()
    ensures With(calls, a, n, i) == With(calls, b, n, i)
    decreases |calls| - i
  {
    if i < |calls| {
      SameWith(calls, a, b, n, i + 1);
    }
  }

  /** A call whose results become another number moves. */
  lemma {:induction false} MovesOut(calls: seq<Call>, rs: seq<Reading>, x: nat, r: Reading, n: nat, i: nat)
    requires |rs| == |calls| && i <= x < |calls| && rs[x].Answers() == n && r.Answers() != n
    ensures With(calls, rs, n, i) == multiset{calls[x].id} + With(calls, rs[x := r], n, i)
    decreases |calls| - i
  {
    if i == x {
      SameWith(calls, rs, rs[x := r], n, i + 1);
    } else {
      MovesOut(calls, rs, x, r, n, i + 1);
    }
  }

  lemma {:induction false} StaysOut(calls: seq<Call>, rs: seq<Reading>, x: nat, r: Reading, n: nat, i: nat)
    requires |rs| == |calls| && x < |calls| && (rs[x].Answers() == n <==> r.Answers() == n)
    ensures With(calls, rs[x := r], n, i) == With(calls, rs, n, i)
    decreases |calls| - i
  {
    if i < |calls| {
      StaysOut(calls, rs, x, r, n, i + 1);
    }
  }

  // ---------------------------------------------------------------- the accounts of a response

  /** The results since a response are those that the readings of its calls give. */
  ghost predicate InBooks(log: Log, calls: seq<Call>, rs: seq<Reading>) {
    |rs| == |calls| && Books(log, Left(calls, rs), Surplus(calls, rs))
  }

  lemma StartsUnread(log: Log, calls: seq<Call>)
    requires Owes(log, Ids(calls))
    ensures InBooks(log, calls, Unread(|calls|))
  {
    NothingRead(calls);
    OwesBooks(log, Ids(calls));
  }

  /** Collecting the parallel group keeps the accounts, however it reads the calls. */
  lemma GroupKeeps(log: Log, calls: seq<Call>, read: Reads, exclusive: nat, jobs: seq<Job>)
    requires InBooks(log, calls, Unread(|calls|))
    ensures InBooks(WithResults(log, calls, read, true, exclusive, jobs, |calls|), calls, Grouped(|calls|, read))
  {
    var rest := GroupFrom(calls, read, false, 0, multiset{});
    NothingRead(calls);
    OwesBooks(log, Ids(calls));
    GroupsMakeAll(calls, read, 0);
    GroupAnswers(log, calls, read, jobs, |calls|, rest);
    GroupResults(log, calls, read, exclusive, jobs, |calls|);
    GroupLeaves(calls, read, 0);
    NoneWith(calls, Grouped(|calls|, read), 2, 0);
    OwesBooks(WithResults(log, calls, read, true, exclusive, jobs, |calls|), rest);
  }

  /** A scan that stops at a call changes nothing before the call is collected. */
  lemma StopKeeps(log: Log, calls: seq<Call>, rs: seq<Reading>, x: nat)
    requires InBooks(log, calls, rs) && x < |calls| && rs[x].collect
    ensures InBooks(log, calls, rs[x := rs[x].(scan := false)])
  {
    StaysOut(calls, rs, x, rs[x].(scan := false), 0, 0);
    StaysOut(calls, rs, x, rs[x].(scan := false), 2, 0);
  }

  lemma FirstKeeps(log: Log, calls: seq<Call>, rs: seq<Reading>, x: nat, r: Reading, result: Msg)
    requires InBooks(log, calls, rs) && x < |calls| && result.Result? && result.id == calls[x].id
    requires rs[x].Answers() == 0 && r.Answers() == 1
    ensures InBooks(Then(log, result), calls, rs[x := r])
  {
    MovesOut(calls, rs, x, r, 0, 0);
    StaysOut(calls, rs, x, r, 2, 0);
    AnswerFirst(log, result, Left(calls, rs), Left(calls, rs[x := r]), Surplus(calls, rs));
  }

  lemma AgainKeeps(log: Log, calls: seq<Call>, rs: seq<Reading>, x: nat, r: Reading, result: Msg)
    requires InBooks(log, calls, rs) && x < |calls| && result.Result? && result.id == calls[x].id
    requires rs[x].Answers() == 1 && r.Answers() == 2
    ensures InBooks(Then(log, result), calls, rs[x := r])
  {
    StaysOut(calls, rs, x, r, 0, 0);
    MovesOut(calls, rs[x := r], x, rs[x], 2, 0);
    assert rs[x := r][x := rs[x]] == rs;
    AnswerAgain(log, result, Left(calls, rs), Surplus(calls, rs));
    assert Surplus(calls, rs[x := r]) == Surplus(calls, rs) + multiset{result.id};
  }

  /** Collecting an exclusive call keeps the accounts, however it reads the call. */
  lemma CollectKeeps(log: Log, calls: seq<Call>, rs: seq<Reading>, x: nat, read: Reads, jobs: seq<Job>)
    requires InBooks(log, calls, rs) && x < |calls| && !rs[x].scan && rs[x].collect
    ensures InBooks(WithResults(log, calls, read, false, x, jobs, |calls|), calls,
                 rs[x := rs[x].(collect := Parallel(read, x))])
  {
    OneResult(log, calls, read, x, jobs, |calls|);
    var r := rs[x].(collect := Parallel(read, x));
    if Parallel(read, x) {
      assert rs[x := r] == rs;
    } else if rs[x].group {
      AgainKeeps(log, calls, rs, x, r, JobResultOf(calls[x], jobs, 0));
    } else {
      FirstKeeps(log, calls, rs, x, r, JobResultOf(calls[x], jobs, 0));
    }
  }

  // ---------------------------------------------------------------- exactly one result

  /**
   * A call gets exactly one result exactly when the later scans that decide on it read it as the group
   * did; read as parallel by the group and not later it gets two, and the other way round none.
   */
  lemma OneResultIff(r: Reading)
    ensures r.Answers() == 1 <==> r.Agrees()
    ensures r.Answers() == 2 <==> r.group && !r.scan && !r.collect
    ensures r.Answers() == 0 <==> !r.group && (r.scan || r.collect)
  {
  }

  /** With all calls read alike, the response is settled. */
  lemma AgreeSettles(log: Log, calls: seq<Call>, rs: seq<Reading>)
    requires InBooks(log, calls, rs) && AllAgree(rs)
    ensures Settled(log)
  {
    NoneWith(calls, rs, 0, 0);
    NoneWith(calls, rs, 2, 0);
    BooksSettled(log, multiset{}, multiset{});
  }

  lemma DisagreeShows(calls: seq<Call>, rs: seq<Reading>, i: nat)
    requires |rs| == |calls| && i < |calls| && rs[i].Answers() != 1 && DistinctIds(calls)
    ensures Left(calls, rs) != Surplus(calls, rs)
  {
    InWith(calls, rs, 0, 0, calls[i].id);
    InWith(calls, rs, 2, 0, calls[i].id);
    if rs[i].Answers() == 0 {
      assert calls[i].id in Left(calls, rs);
    } else {
      assert calls[i].id in Surplus(calls, rs);
    }
  }

  /**
   * A response whose calls have different ids is settled exactly when each call has one result so far; when
   * every call was passed, exactly when no call was read differently by a later scan that decides it.
   */
  lemma SettledIff(log: Log, calls: seq<Call>, rs: seq<Reading>)
    requires InBooks(log, calls, rs) && DistinctIds(calls)
    ensures Settled(log) <==> EachOnce(rs)
    ensures Settled(log) <==> AllAgree(rs)
  {
    forall i | 0 <= i < |rs| ensures rs[i].Answers() == 1 <==> rs[i].Agrees() {
      OneResultIff(rs[i]);
    }
    BooksSettled(log, Left(calls, rs), Surplus(calls, rs));
    if AllAgree(rs) {
      AgreeSettles(log, calls, rs);
    } else {
      var i :| 0 <= i < |rs| && !rs[i].Agrees();
      DisagreeShows(calls, rs, i);
    }
  }

  /** With no call answered twice, the turn answers no call twice. */
  lemma SinglyIsSound(log: Log, calls: seq<Call>, rs: seq<Reading>)
    requires InBooks(log, calls, rs) && Singly(rs)
    ensures Sound(log)
  {
    NoneWith(calls, rs, 2, 0);
    OwesBooks(log, Left(calls, rs));
  }
}
