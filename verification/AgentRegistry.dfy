/** The agent registry of one process. */
module AgentRegistries {
  import opened Options
  import opened AgentSpec

  datatype Served = Admitted(execution: int) | Passed | Refused

  class AgentRegistry {
    // The execution of this process, zero for the root; the connection to its parent; the limit.
    const execution: nat
    const parent: Option<int>
    const limit: int

    var records: seq<Record>
    var nextExecution: nat
    var forwards: seq<Forward>
    var nextRequest: nat
    var questions: seq<Question>
    // The answers that went out.
    var sent: seq<Reply>

    // The requests that the registry took on to answer later, and those that went with their connection.
    ghost var taken: multiset<Origin>
    ghost var gone: multiset<Origin>

    constructor (execution: nat, parent: Option<int>, limit: int)
      requires execution > 0 ==> parent.Some?
      ensures Valid() && this.execution == execution && this.parent == parent && this.limit == limit
      ensures records == [] && forwards == [] && questions == [] && sent == []
      ensures Accounted() && taken == multiset{} && gone == multiset{}
    {
      this.execution, this.parent, this.limit := execution, parent, limit;
      records, nextExecution, forwards, nextRequest, questions, sent := [], 0, [], 0, [], [];
      taken, gone := multiset{}, multiset{};
    }

    /**
     * Execution numbers are unique and active agents have a route. In the root the active agents have
     * unique names and are no more than the limit; any other process has a parent.
     */
    ghost predicate Valid()
      reads `records, `nextExecution
    {
      && Executions(records) && Routed(records) && (execution > 0 ==> parent.Some?)
      && (execution == 0 ==>
            Below(records, nextExecution) && Names(records)
            && (ActiveFrom(records, 0) <= if limit > 0 then limit else 0))
    }

    /**
     * Each request that was taken is in one place: a forward or a question is to answer it, or it was answered, or
     * it went with its connection.
     */
    ghost predicate Accounted()
      reads `forwards, `questions, `sent, `taken, `gone
    {
      forall o: Origin ::
        taken[o] == Owing(forwards, o) + Asking(questions, o) + Answering(sent, o) + gone[o]
    }

    /** Send a request onward on another connection; the answer will come later. */
    method ForwardRequest(from: int, to: Option<int>, id: int, submitted: bool) returns (ok: bool)
      requires Accounted()
      modifies `forwards, `nextRequest, `taken
      ensures Accounted() && taken == if ok then old(taken) + multiset{Origin(from, id)} else old(taken)
      ensures ok <==> to.Some? && to.value != from && submitted
      ensures ok ==> forwards == [Forward(from, id, to.value, old(nextRequest))] + old(forwards)
      ensures ok ==> nextRequest == old(nextRequest) + 1
      ensures !ok ==> forwards == old(forwards)
    {
      if to.None? || to.value == from {
        return false;
      }
      if !submitted {
        return false;
      }
      var f := Forward(from, id, to.value, nextRequest);
      forall o: Origin ensures Owing([f] + forwards, o) == Owing(forwards, o) + One(o == Origin(from, id)) {
        OwingJoin([f], forwards, o);
        OwingOne(f, o);
      }
      forwards, taken := [f] + forwards, taken + multiset{Origin(from, id)};
      nextRequest := nextRequest + 1;
      ok := true;
    }

    method Add(route: int, branch: string, named: bool, execution: int) returns (ok: bool)
      modifies `records
      ensures ok <==> named && execution >= 1
      ensures records == if ok then [Record(execution, branch, route, true, true, 0, "starting")] + old(records)
                         else old(records)
    {
      if !named || execution < 1 {
        return false;
      }
      records := [Record(execution, branch, route, true, true, 0, "starting")] + records;
      ok := true;
    }

    /** Whether an active agent has a name, and how many are active. */
    method Survey(branch: string) returns (taken: bool, active: nat)
      ensures taken <==> exists i :: 0 <= i < |records| && records[i].active && records[i].branch == branch
      ensures !taken ==> active == ActiveFrom(records, 0)
    {
      taken, active := false, 0;
      var i := 0;
      while i < |records|
        invariant i <= |records| && active + ActiveFrom(records, i) == ActiveFrom(records, 0)
        invariant forall j :: 0 <= j < i && records[j].active ==> records[j].branch != branch
      {
        if records[i].active {
          active := active + 1;
          if records[i].branch == branch {
            taken := true;
            return;
          }
        }
        i := i + 1;
      }
    }

    /** Whether the root admits an agent. */
    ghost predicate Admits(branch: string, named: bool)
      reads `records
    {
      && named && ActiveFrom(records, 0) < limit
      && forall i :: 0 <= i < |records| && records[i].active ==> records[i].branch != branch
    }

    lemma AdmissionIsValid(rs: seq<Record>, next: int, r: Record)
      requires Executions(rs) && Routed(rs) && Below(rs, next - 1) && Names(rs)
      requires r.execution == next >= 1 && r.active && r.routed
      requires forall i :: 0 <= i < |rs| && rs[i].active ==> rs[i].branch != r.branch
      ensures Executions([r] + rs) && Routed([r] + rs) && Below([r] + rs, next) && Names([r] + rs)
      ensures ActiveFrom([r] + rs, 0) == ActiveFrom(rs, 0) + 1
    {
      AdmissionIsActive(rs, r);
      AdmissionIsNamed(rs, r);
    }

    lemma AdmissionIsActive(rs: seq<Record>, r: Record)
      requires r.active
      ensures ActiveFrom([r] + rs, 0) == ActiveFrom(rs, 0) + 1
    {
      ActiveAdded(r, rs, 0);
      assert ActiveFrom([r] + rs, 0) == 1 + ActiveFrom([r] + rs, 1);
    }

    lemma AdmissionIsNamed(rs: seq<Record>, r: Record)
      requires Names(rs) && forall i :: 0 <= i < |rs| && rs[i].active ==> rs[i].branch != r.branch
      ensures Names([r] + rs)
    {
      var all := [r] + rs;
      forall i, j | 0 <= i < j < |all| && all[i].active && all[j].active
        ensures all[i].branch != all[j].branch
      {
        assert all[j] == rs[j - 1] && (i == 0 || all[i] == rs[i - 1]);
      }
    }

    /** Admit an agent: the root decides, any other process asks its parent. */
    method Admit(conn: int, branch: string, named: bool, id: int, submitted: bool) returns (served: Served)
      requires Valid() && Accounted()
      modifies `records, `nextExecution, `forwards, `nextRequest, `taken
      ensures Valid() && Accounted()
      ensures taken == if served.Passed? then old(taken) + multiset{Origin(conn, id)} else old(taken)
      ensures execution > 0 ==>
                records == old(records) && served == if parent.value != conn && submitted then Passed else Refused
      ensures execution == 0 ==>
                forwards == old(forwards)
                && served == if old(Admits(branch, named)) then Admitted(nextExecution) else Refused
      ensures served.Admitted? ==>
                records == [Record(nextExecution, branch, conn, true, true, 0, "starting")] + old(records)
                && forall i :: 0 <= i < |old(records)| ==> old(records)[i].execution != nextExecution
      ensures !served.Admitted? ==> records == old(records)
      ensures nextExecution == old(nextExecution) + if execution == 0 && old(Admits(branch, true)) then 1 else 0
    {
      if execution > 0 && parent.Some? {
        var ok := ForwardRequest(conn, parent, id, submitted);
        return if ok then Passed else Refused;
      }
      var taken, active := Survey(branch);
      if taken || active >= limit {
        return Refused;
      }
      nextExecution := nextExecution + 1;
      ghost var rs := records;
      var ok := Add(conn, branch, named, nextExecution);
      if !ok {
        return Refused;
      }
      served := Admitted(nextExecution);
      AdmissionIsValid(rs, nextExecution, records[0]);
    }

    method FindRecord(execution: int) returns (k: nat)
      ensures k == Find(records, execution, 0)
    {
      k := 0;
      while k < |records| && records[k].execution != execution
        invariant k <= |records| && Find(records, execution, k) == Find(records, execution, 0)
      {
        k := k + 1;
      }
    }

    static lemma ChangeIsValid(before: seq<Record>, after: seq<Record>, next: int)
      requires Retires(before, after) && Executions(before) && Routed(after)
      ensures Executions(after)
      ensures Names(before) ==> Names(after)
      ensures Below(before, next) ==> Below(after, next)
      ensures ActiveFrom(after, 0) <= ActiveFrom(before, 0)
    {
      RetiresCount(before, after, 0);
    }

    method Report(k: nat, conn: int, sequence: int, state: string)
      requires Valid() && k < |records|
      modifies `records
      ensures Valid()
      ensures |records| == |old(records)| && records == old(records)[k := records[k]]
      ensures Reports(old(records)[k], records[k], conn, sequence, state)
    {
      var r := records[k];
      if !r.routed || r.route != conn || sequence <= r.sequence || !r.active {
        return;
      }
      var cut := Truncated(state);
      var after := records[k := r.(sequence := sequence, state := cut, active := StateActive(cut))];
      ChangeIsValid(records, after, nextExecution);
      records := after;
    }

    method AddReported(conn: int, branch: string, named: bool, of: int) returns (ok: bool)
      requires Valid() && execution > 0 && Find(records, of, 0) == |records|
      modifies `records
      ensures Valid() && (ok <==> named && of >= 1)
      ensures records == if ok then [Record(of, branch, conn, true, true, 0, "starting")] + old(records)
                         else old(records)
    {
      ghost var rs := records;
      ok := Add(conn, branch, named, of);
      assert ok ==> forall j :: 0 <= j < |rs| ==> records[j + 1] == rs[j];
    }

    /**
     * An agent reports its state. A process between the agent and the root learns of it here, and only
     * newer reports on the route of the record, before it stopped, change it.
     */
    method Event(conn: int, branch: string, named: bool, of: int, sequence: int, state: string)
      requires Valid()
      modifies `records
      ensures Valid()
      ensures var k := Find(old(records), of, 0);
              if k < |old(records)| then
                && |records| == |old(records)| && records == old(records)[k := records[k]]
                && Reports(old(records)[k], records[k], conn, sequence, state)
              else if execution > 0 && named && of >= 1 then
                && |records| > 0 && records[1..] == old(records)
                && Reports(Record(of, branch, conn, true, true, 0, "starting"), records[0], conn, sequence, state)
              else records == old(records)
    {
      var k := FindRecord(of);
      if k == |records| {
        if execution == 0 {
          return;
        }
        var ok := AddReported(conn, branch, named, of);
        if !ok {
          return;
        }
        k := 0;
      }
      Report(k, conn, sequence, state);
    }

    /** Take a question of an agent, behind the others. */
    method Ask(conn: int, id: int)
      requires Accounted()
      modifies `questions, `taken
      ensures Accounted() && taken == old(taken) + multiset{Origin(conn, id)}
      ensures questions == old(questions) + [Question(conn, id)]
    {
      var q := Question(conn, id);
      forall o: Origin ensures Asking(questions + [q], o) == Asking(questions, o) + One(o == Origin(conn, id)) {
        AskingJoin(questions, [q], o);
        AskingOne(q, o);
      }
      questions, taken := questions + [q], taken + multiset{Origin(conn, id)};
    }

    /** Answer the question at the head: no other request is answered, and none is lost. */
    method Settle(answer: string)
      requires Accounted() && questions != []
      modifies `questions, `sent
      ensures Accounted() && questions == old(questions)[1..]
      ensures sent == old(sent) + [Reply(old(questions)[0].from, old(questions)[0].id, Result(answer))]
      ensures forall o: Origin :: Answering(sent, o) ==
                Answering(old(sent), o) + One(o == Origin(old(questions)[0].from, old(questions)[0].id))
    {
      var r := Reply(questions[0].from, questions[0].id, Result(answer));
      forall o: Origin
        ensures Asking(questions, o) == Asking(questions[1..], o) + One(o == Origin(r.conn, r.id))
        ensures Answering(sent + [r], o) == Answering(sent, o) + One(o == Origin(r.conn, r.id))
      {
        AskingTakenOut(questions, o);
        AnsweringJoin(sent, [r], o);
        AnsweringOne(r, o);
      }
      sent := sent + [r];
      questions := questions[1..];
    }

    /**
     * The answer to a forward came, or its request failed: it goes to where the forward came from. No other
     * request is answered, and none is lost.
     */
    method ForwardDone(k: nat, answer: Option<string>)
      requires Accounted() && k < |forwards|
      modifies `forwards, `sent
      ensures Accounted() && forwards == old(forwards)[..k] + old(forwards)[k + 1..]
      ensures var f := old(forwards)[k];
              && sent == old(sent) + [Reply(f.from, f.id, if answer.Some? then Result(answer.value) else Disconnected)]
              && forall o: Origin ::
                   Answering(sent, o) == Answering(old(sent), o) + One(o == Origin(f.from, f.id))
    {
      var f := forwards[k];
      var r := Reply(f.from, f.id, if answer.Some? then Result(answer.value) else Disconnected);
      forall o: Origin
        ensures Owing(forwards, o) == Owing(forwards[..k] + forwards[k + 1..], o) + One(o == Origin(f.from, f.id))
        ensures Answering(sent + [r], o) == Answering(sent, o) + One(o == Origin(f.from, f.id))
      {
        OwingTakenOut(forwards, k, o);
        AnsweringJoin(sent, [r], o);
        AnsweringOne(r, o);
      }
      sent := sent + [r];
      forwards := forwards[..k] + forwards[k + 1..];
    }

    method CloseQuestions(conn: int)
      modifies `questions
      ensures questions == KeptQuestions(old(questions), conn)
    {
      var kept, i := [], 0;
      while i < |questions|
        invariant i <= |questions| && kept == KeptQuestions(questions[..i], conn)
      {
        assert questions[..i + 1][..i] == questions[..i];
        if questions[i].from != conn {
          kept := kept + [questions[i]];
        }
        i := i + 1;
      }
      assert questions[..i] == questions;
      questions := kept;
    }

    method CloseForwards(conn: int)
      modifies `forwards, `sent
      ensures forwards == KeptForwards(old(forwards), conn)
      ensures sent == old(sent) + FailedForwards(old(forwards), conn)
    {
      var kept, i := [], 0;
      while i < |forwards|
        invariant forwards == old(forwards)
        invariant i <= |forwards| && kept == KeptForwards(forwards[..i], conn)
        invariant sent == old(sent) + FailedForwards(forwards[..i], conn)
      {
        var f := forwards[i];
        assert forwards[..i + 1][..i] == forwards[..i];
        if f.from != conn && f.to != conn {
          kept := kept + [f];
        } else if f.from != conn {
          sent := sent + [Reply(f.from, f.id, Disconnected)];
        }
        i := i + 1;
      }
      assert forwards[..i] == forwards;
      forwards := kept;
    }

    method CloseRecords(conn: int)
      requires Valid()
      modifies `records
      ensures Valid() && |records| == |old(records)|
      ensures forall i :: 0 <= i < |records| ==> Loses(old(records)[i], records[i], conn)
    {
      var after, i := records, 0;
      while i < |records|
        invariant i <= |records| == |after|
        invariant forall j :: 0 <= j < i ==> Loses(records[j], after[j], conn)
        invariant forall j :: i <= j < |records| ==> after[j] == records[j]
      {
        var r := records[i];
        if r.routed && r.route == conn {
          after := after[i := if r.active then r.(routed := false, active := false, state := "interrupted")
                              else r.(routed := false)];
        }
        i := i + 1;
      }
      ChangeIsValid(records, after, nextExecution);
      records := after;
    }

    /** Nothing active names a connection. */
    ghost predicate Forgets(conn: int)
      reads this
    {
      && (forall i :: 0 <= i < |records| && records[i].routed ==> records[i].route != conn)
      && (forall f :: f in forwards ==> f.from != conn && f.to != conn)
      && (forall q :: q in questions ==> q.from != conn)
    }

    /** The requests of a connection that forwards and questions are to answer. */
    ghost function Brought(conn: int): multiset<Origin>
      reads `forwards, `questions
    {
      ForwardOrigins(forwards, conn) + QuestionOrigins(questions, conn)
    }

    /**
     * A connection was lost, and nothing may name it any more. Each request that it brought goes with it, and each
     * request of any other connection is still to be answered, or was answered with a failure.
     */
    method ConnClosed(conn: int)
      requires Valid() && Accounted()
      modifies `records, `forwards, `questions, `sent, `gone
      ensures Valid() && Forgets(conn) && Accounted() && gone == old(gone) + old(Brought(conn))
      ensures KeepsQuestions(old(questions), questions, conn) && KeepsForwards(old(forwards), forwards, conn)
      ensures sent == old(sent) + FailedForwards(old(forwards), conn)
      ensures forall r :: r in sent ==> r in old(sent) || (r.conn != conn && r.answer == Disconnected)
      ensures |records| == |old(records)|
      ensures forall i :: 0 <= i < |records| ==> Loses(old(records)[i], records[i], conn)
    {
      KeptQuestionsAre(questions, conn);
      KeptForwardsAre(forwards, conn);
      forall r ensures r in FailedForwards(forwards, conn) ==> r.conn != conn && r.answer == Disconnected {
        FailedForwardsAre(forwards, conn, r);
      }
      ghost var dropped := Brought(conn);
      forall o: Origin
        ensures Owing(forwards, o) + Asking(questions, o) ==
                Owing(KeptForwards(forwards, conn), o) + Asking(KeptQuestions(questions, conn), o)
                + Answering(FailedForwards(forwards, conn), o) + dropped[o]
        ensures Answering(sent + FailedForwards(forwards, conn), o) ==
                Answering(sent, o) + Answering(FailedForwards(forwards, conn), o)
      {
        CloseConserves(forwards, conn, o);
        CloseAsks(questions, conn, o);
        ForwardOriginsAre(forwards, conn, o);
        QuestionOriginsAre(questions, conn, o);
        AnsweringJoin(sent, FailedForwards(forwards, conn), o);
      }
      CloseAll(conn);
      gone := gone + dropped;
    }

    method CloseAll(conn: int)
      requires Valid()
      modifies `records, `forwards, `questions, `sent
      ensures Valid() && Forgets(conn)
      ensures questions == KeptQuestions(old(questions), conn)
      ensures forwards == KeptForwards(old(forwards), conn)
      ensures sent == old(sent) + FailedForwards(old(forwards), conn)
      ensures |records| == |old(records)|
      ensures forall i :: 0 <= i < |records| ==> Loses(old(records)[i], records[i], conn)
    {
      CloseQuestions(conn);
      CloseForwards(conn);
      CloseRecords(conn);
      KeptForwardsAre(old(forwards), conn);
      KeptForwardsAreOther(old(forwards), forwards, conn);
      KeptQuestionsAre(old(questions), conn);
      KeptQuestionsAreOther(old(questions), questions, conn);
    }
  }
}
