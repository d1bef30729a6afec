/** The lists of an agent registry: what is admitted, what an event changes, what a closed connection takes away. */
module AgentSpec {
  import opened Selection

  // An agent; the connection it came on is its route.
  datatype Record = Record(execution: int, branch: string, route: int, routed: bool, active: bool,
                           sequence: int, state: string)

  datatype Forward = Forward(from: int, id: int, to: int, request: int)

  datatype Question = Question(from: int, id: int)

  datatype Answer = Result(value: string) | Disconnected

  datatype Reply = Reply(conn: int, id: int, answer: Answer)

  // ---------------------------------------------------------------- states

  // The size of a state with its end mark.
  const STATE_SIZE := 24

  function Truncated(state: string): string {
    if |state| >= STATE_SIZE then state[..STATE_SIZE - 1] else state
  }

  /** Only the known final states are inactive ones. */
  predicate StateActive(state: string) {
    state != "failed" && state != "interrupted" && state != "completed" && state != "cancelled"
  }

  // ---------------------------------------------------------------- records

  /** What a report does to a record: from its route, newer than the last one, while it is active, it changes it. */
  ghost predicate Reports(before: Record, after: Record, conn: int, sequence: int, state: string) {
    if before.routed && before.active && before.route == conn && before.sequence < sequence then
      && after.execution == before.execution && after.branch == before.branch
      && after.route == before.route && after.routed && after.sequence == sequence
      && after.state <= state && |after.state| == (if |state| < 24 then |state| else 23)
      && (after.active <==> after.state !in ["failed", "interrupted", "completed", "cancelled"])
    else after == before
  }

  /** What the loss of a connection does to a record: it has no route and is not active if that was its route. */
  ghost predicate Loses(before: Record, after: Record, conn: int) {
    if before.routed && before.route == conn then
      && after.execution == before.execution && after.branch == before.branch && after.route == before.route
      && after.sequence == before.sequence && !after.routed && !after.active
      && after.state == if before.active then "interrupted" else before.state
    else after == before
  }

  /** How many records are active from a position on. */
  function ActiveFrom(rs: seq<Record>, i: nat): nat
    requires i <= |rs|
    decreases |rs| - i
  {
    if i == |rs| then 0 else (if rs[i].active then 1 else 0) + ActiveFrom(rs, i + 1)
  }

  lemma {:induction false} ActiveAdded(r: Record, rs: seq<Record>, i: nat)
    requires i <= |rs|
    ensures ActiveFrom([r] + rs, i + 1) == ActiveFrom(rs, i)
    decreases |rs| - i
  {
    if i < |rs| {
      assert ([r] + rs)[i + 1] == rs[i];
      ActiveAdded(r, rs, i + 1);
    }
  }

  /** No record that was inactive becomes active. */
  predicate Retires(before: seq<Record>, after: seq<Record>) {
    |before| == |after|
    && forall i :: 0 <= i < |before| ==>
         && after[i].execution == before[i].execution && after[i].branch == before[i].branch
         && (after[i].active ==> before[i].active)
  }

  lemma {:induction false} RetiresCount(before: seq<Record>, after: seq<Record>, i: nat)
    requires Retires(before, after) && i <= |before|
    ensures ActiveFrom(after, i) <= ActiveFrom(before, i)
    decreases |before| - i
  {
    if i < |before| {
      RetiresCount(before, after, i + 1);
    }
  }

  /** Execution numbers differ, and they are at least one. */
  ghost predicate Executions(rs: seq<Record>) {
    && (forall i :: 0 <= i < |rs| ==> rs[i].execution >= 1)
    && (forall i, j :: 0 <= i < j < |rs| ==> rs[i].execution != rs[j].execution)
  }

  /** Active names differ. */
  ghost predicate Names(rs: seq<Record>) {
    forall i, j :: 0 <= i < j < |rs| && rs[i].active && rs[j].active ==> rs[i].branch != rs[j].branch
  }

  ghost predicate Routed(rs: seq<Record>) {
    forall i :: 0 <= i < |rs| && rs[i].active ==> rs[i].routed
  }

  ghost predicate Below(rs: seq<Record>, next: int) {
    forall i :: 0 <= i < |rs| ==> rs[i].execution <= next
  }

  function Find(rs: seq<Record>, execution: int, i: nat): (k: nat)
    requires i <= |rs|
    ensures i <= k <= |rs| && (k < |rs| ==> rs[k].execution == execution)
    ensures forall j :: i <= j < k ==> rs[j].execution != execution
    decreases |rs| - i
  {
    if i == |rs| || rs[i].execution == execution then i else Find(rs, execution, i + 1)
  }

  // ---------------------------------------------------------------- a closed connection

  function KeptQuestions(qs: seq<Question>, conn: int): seq<Question> {
    if qs == [] then []
    else KeptQuestions(qs[..|qs| - 1], conn) + if qs[|qs| - 1].from == conn then [] else [qs[|qs| - 1]]
  }

  predicate Involves(f: Forward, conn: int) {
    f.from == conn || f.to == conn
  }

  function KeptForwards(fs: seq<Forward>, conn: int): seq<Forward> {
    if fs == [] then []
    else KeptForwards(fs[..|fs| - 1], conn) + if Involves(fs[|fs| - 1], conn) then [] else [fs[|fs| - 1]]
  }

  /** The forwards to a closed connection are answered with a failure, unless they came on it. */
  function FailedForwards(fs: seq<Forward>, conn: int): seq<Reply> {
    if fs == [] then []
    else
      var f := fs[|fs| - 1];
      FailedForwards(fs[..|fs| - 1], conn)
      + if Involves(f, conn) && f.from != conn then [Reply(f.from, f.id, Disconnected)] else []
  }

  function OtherQuestions(qs: seq<Question>, conn: int): (marks: seq<bool>)
    ensures |marks| == |qs| && forall i :: 0 <= i < |qs| ==> (marks[i] <==> qs[i].from != conn)
  {
    seq(|qs|, i requires 0 <= i < |qs| => qs[i].from != conn)
  }

  function OtherForwards(fs: seq<Forward>, conn: int): (marks: seq<bool>)
    ensures |marks| == |fs| && forall i :: 0 <= i < |fs| ==> (marks[i] <==> fs[i].from != conn && fs[i].to != conn)
  {
    seq(|fs|, i requires 0 <= i < |fs| => fs[i].from != conn && fs[i].to != conn)
  }

  /** Exactly the questions of other connections are kept, in their order. */
  ghost predicate KeepsQuestions(qs: seq<Question>, kept: seq<Question>, conn: int) {
    Selected(qs, OtherQuestions(qs, conn), kept)
  }

  /** Exactly the forwards that are neither from nor to the connection are kept, in their order. */
  ghost predicate KeepsForwards(fs: seq<Forward>, kept: seq<Forward>, conn: int) {
    Selected(fs, OtherForwards(fs, conn), kept)
  }

  lemma OtherQuestionsLast(qs: seq<Question>, last: Question, conn: int)
    ensures OtherQuestions(qs + [last], conn) == OtherQuestions(qs, conn) + [last.from != conn]
  {
  }

  lemma KeepsQuestionsLast(qs: seq<Question>, last: Question, kept: seq<Question>, conn: int)
    requires KeepsQuestions(qs, kept, conn)
    ensures KeepsQuestions(qs + [last], if last.from != conn then kept + [last] else kept, conn)
  {
    SelectedLast(qs, OtherQuestions(qs, conn), kept, last, last.from != conn);
    OtherQuestionsLast(qs, last, conn);
  }

  lemma {:induction false} KeptQuestionsAre(qs: seq<Question>, conn: int)
    ensures KeepsQuestions(qs, KeptQuestions(qs, conn), conn)
  {
    if qs == [] {
      NothingSelected<Question>();
    } else {
      var front, last := qs[..|qs| - 1], qs[|qs| - 1];
      KeptQuestionsAre(front, conn);
      KeepsQuestionsLast(front, last, KeptQuestions(front, conn), conn);
      KeptQuestionsLast(qs, front, last, conn);
    }
  }

  lemma KeptQuestionsLast(qs: seq<Question>, front: seq<Question>, last: Question, conn: int)
    requires qs != [] && front == qs[..|qs| - 1] && last == qs[|qs| - 1]
    ensures front + [last] == qs
    ensures KeptQuestions(qs, conn) ==
            if last.from != conn then KeptQuestions(front, conn) + [last] else KeptQuestions(front, conn)
  {
  }

  lemma KeptQuestionsAreOther(qs: seq<Question>, kept: seq<Question>, conn: int)
    requires KeepsQuestions(qs, kept, conn)
    ensures forall x :: x in kept ==> x.from != conn
  {
    var marks := OtherQuestions(qs, conn);
    var at: seq<nat> :| Selects(qs, kept, at) && forall k :: 0 <= k < |marks| ==> (k in at <==> marks[k]);
  }

  lemma OtherForwardsLast(fs: seq<Forward>, last: Forward, conn: int)
    ensures OtherForwards(fs + [last], conn) == OtherForwards(fs, conn) + [last.from != conn && last.to != conn]
  {
  }

  lemma KeepsForwardsLast(fs: seq<Forward>, last: Forward, kept: seq<Forward>, conn: int)
    requires KeepsForwards(fs, kept, conn)
    ensures KeepsForwards(fs + [last], if last.from != conn && last.to != conn then kept + [last] else kept, conn)
  {
    SelectedLast(fs, OtherForwards(fs, conn), kept, last, last.from != conn && last.to != conn);
    OtherForwardsLast(fs, last, conn);
  }

  lemma {:induction false} KeptForwardsAre(fs: seq<Forward>, conn: int)
    ensures KeepsForwards(fs, KeptForwards(fs, conn), conn)
  {
    if fs == [] {
      NothingSelected<Forward>();
    } else {
      var front, last := fs[..|fs| - 1], fs[|fs| - 1];
      KeptForwardsAre(front, conn);
      KeepsForwardsLast(front, last, KeptForwards(front, conn), conn);
      KeptForwardsLast(fs, front, last, conn);
    }
  }

  lemma KeptForwardsLast(fs: seq<Forward>, front: seq<Forward>, last: Forward, conn: int)
    requires fs != [] && front == fs[..|fs| - 1] && last == fs[|fs| - 1]
    ensures front + [last] == fs
    ensures KeptForwards(fs, conn) == if last.from != conn && last.to != conn then KeptForwards(front, conn) + [last]
                                      else KeptForwards(front, conn)
  {
  }

  lemma KeptForwardsAreOther(fs: seq<Forward>, kept: seq<Forward>, conn: int)
    requires KeepsForwards(fs, kept, conn)
    ensures forall x :: x in kept ==> x.from != conn && x.to != conn
  {
    var marks := OtherForwards(fs, conn);
    var at: seq<nat> :| Selects(fs, kept, at) && forall k :: 0 <= k < |marks| ==> (k in at <==> marks[k]);
  }

  /** Exactly the forwards of other connections to the closed one are answered, each with a failure. */
  lemma {:induction false} FailedForwardsAre(fs: seq<Forward>, conn: int, r: Reply)
    ensures r in FailedForwards(fs, conn) <==>
            r.conn != conn && r.answer == Disconnected
            && exists f :: f in fs && f.from == r.conn && f.id == r.id && f.to == conn
  {
    if fs != [] {
      FailedForwardsAre(fs[..|fs| - 1], conn, r);
      assert fs == fs[..|fs| - 1] + [fs[|fs| - 1]];
      assert fs[|fs| - 1] in fs;
    }
  }

  // ---------------------------------------------------------------- where a request is

  // A request that a connection brought, by its number there.
  datatype Origin = Origin(conn: int, id: int)

  function One(b: bool): nat {
    if b then 1 else 0
  }

  /** How many forwards are to answer a request, how many questions are, and how many replies answered it. */
  function Owing(fs: seq<Forward>, o: Origin): nat {
    if fs == [] then 0
    else Owing(fs[..|fs| - 1], o) + One(o == Origin(fs[|fs| - 1].from, fs[|fs| - 1].id))
  }

  function Asking(qs: seq<Question>, o: Origin): nat {
    if qs == [] then 0
    else Asking(qs[..|qs| - 1], o) + One(o == Origin(qs[|qs| - 1].from, qs[|qs| - 1].id))
  }

  function Answering(rs: seq<Reply>, o: Origin): nat {
    if rs == [] then 0
    else Answering(rs[..|rs| - 1], o) + One(o == Origin(rs[|rs| - 1].conn, rs[|rs| - 1].id))
  }

  lemma {:induction false} OwingJoin(a: seq<Forward>, b: seq<Forward>, o: Origin)
    ensures Owing(a + b, o) == Owing(a, o) + Owing(b, o)
  {
    if b == [] {
      assert a + b == a;
    } else {
      OwingJoin(a, b[..|b| - 1], o);
      assert (a + b)[..|a + b| - 1] == a + b[..|b| - 1];
    }
  }

  lemma {:induction false} AskingJoin(a: seq<Question>, b: seq<Question>, o: Origin)
    ensures Asking(a + b, o) == Asking(a, o) + Asking(b, o)
  {
    if b == [] {
      assert a + b == a;
    } else {
      AskingJoin(a, b[..|b| - 1], o);
      assert (a + b)[..|a + b| - 1] == a + b[..|b| - 1];
    }
  }

  lemma {:induction false} AnsweringJoin(a: seq<Reply>, b: seq<Reply>, o: Origin)
    ensures Answering(a + b, o) == Answering(a, o) + Answering(b, o)
  {
    if b == [] {
      assert a + b == a;
    } else {
      AnsweringJoin(a, b[..|b| - 1], o);
      assert (a + b)[..|a + b| - 1] == a + b[..|b| - 1];
    }
  }

  lemma OwingOne(f: Forward, o: Origin)
    ensures Owing([f], o) == One(o == Origin(f.from, f.id))
  {
    assert [f][..0] == [];
  }

  lemma AskingOne(q: Question, o: Origin)
    ensures Asking([q], o) == One(o == Origin(q.from, q.id))
  {
    assert [q][..0] == [];
  }

  lemma AnsweringOne(r: Reply, o: Origin)
    ensures Answering([r], o) == One(o == Origin(r.conn, r.id))
  {
    assert [r][..0] == [];
  }

  lemma OwingTakenOut(fs: seq<Forward>, k: nat, o: Origin)
    requires k < |fs|
    ensures Owing(fs, o) == Owing(fs[..k] + fs[k + 1..], o) + One(o == Origin(fs[k].from, fs[k].id))
  {
    assert fs == fs[..k] + ([fs[k]] + fs[k + 1..]);
    OwingJoin(fs[..k], [fs[k]] + fs[k + 1..], o);
    OwingJoin([fs[k]], fs[k + 1..], o);
    OwingOne(fs[k], o);
    OwingJoin(fs[..k], fs[k + 1..], o);
  }

  lemma AskingTakenOut(qs: seq<Question>, o: Origin)
    requires qs != []
    ensures Asking(qs, o) == Asking(qs[1..], o) + One(o == Origin(qs[0].from, qs[0].id))
  {
    assert qs == [qs[0]] + qs[1..];
    AskingJoin([qs[0]], qs[1..], o);
    AskingOne(qs[0], o);
  }

  /**
   * When a connection closes, the forwards that owe an answer to any other connection are kept or
   * answered, and no answer goes to the closed one.
   */
  lemma {:induction false} CloseConserves(fs: seq<Forward>, closed: int, o: Origin)
    ensures o.conn != closed ==>
              Owing(fs, o) == Owing(KeptForwards(fs, closed), o) + Answering(FailedForwards(fs, closed), o)
    ensures o.conn == closed ==> Owing(KeptForwards(fs, closed), o) == Answering(FailedForwards(fs, closed), o) == 0
  {
    if fs != [] {
      var front, f := fs[..|fs| - 1], fs[|fs| - 1];
      CloseConserves(front, closed, o);
      if !Involves(f, closed) {
        OwingJoin(KeptForwards(front, closed), [f], o);
        OwingOne(f, o);
        assert FailedForwards(front, closed) + [] == FailedForwards(front, closed);
      } else {
        assert KeptForwards(front, closed) + [] == KeptForwards(front, closed);
        if f.from != closed {
          AnsweringJoin(FailedForwards(front, closed), [Reply(f.from, f.id, Disconnected)], o);
          AnsweringOne(Reply(f.from, f.id, Disconnected), o);
        } else {
          assert FailedForwards(front, closed) + [] == FailedForwards(front, closed);
        }
      }
    }
  }

  lemma {:induction false} CloseAsks(qs: seq<Question>, closed: int, o: Origin)
    ensures Asking(KeptQuestions(qs, closed), o) == if o.conn == closed then 0 else Asking(qs, o)
  {
    if qs != [] {
      var front, q := qs[..|qs| - 1], qs[|qs| - 1];
      CloseAsks(front, closed, o);
      if q.from == closed {
        assert KeptQuestions(front, closed) + [] == KeptQuestions(front, closed);
      } else {
        AskingJoin(KeptQuestions(front, closed), [q], o);
        AskingOne(q, o);
      }
    }
  }

  /** The requests of one connection that forwards, or questions, are to answer. */
  function ForwardOrigins(fs: seq<Forward>, conn: int): multiset<Origin> {
    if fs == [] then multiset{}
    else
      var f, front := fs[|fs| - 1], ForwardOrigins(fs[..|fs| - 1], conn);
      if f.from == conn then front + multiset{Origin(f.from, f.id)} else front
  }

  function QuestionOrigins(qs: seq<Question>, conn: int): multiset<Origin> {
    if qs == [] then multiset{}
    else
      var q, front := qs[|qs| - 1], QuestionOrigins(qs[..|qs| - 1], conn);
      if q.from == conn then front + multiset{Origin(q.from, q.id)} else front
  }

  lemma {:induction false} ForwardOriginsAre(fs: seq<Forward>, conn: int, o: Origin)
    ensures ForwardOrigins(fs, conn)[o] == if o.conn == conn then Owing(fs, o) else 0
  {
    if fs != [] {
      ForwardOriginsAre(fs[..|fs| - 1], conn, o);
    }
  }

  lemma {:induction false} QuestionOriginsAre(qs: seq<Question>, conn: int, o: Origin)
    ensures QuestionOrigins(qs, conn)[o] == if o.conn == conn then Asking(qs, o) else 0
  {
    if qs != [] {
      QuestionOriginsAre(qs[..|qs| - 1], conn, o);
    }
  }
}
