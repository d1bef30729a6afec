/** Every request is answered once, or is gone with its connection. */
module AgentNetLaws {
  import opened AgentNet

  predicate OnForward(s: State, j: nat) {
    j in s.onward && s.onward[j] in s.forwards && s.forwards[s.onward[j]] == j
  }

  function One(b: bool): nat {
    if b then 1 else 0
  }

  /** A request is in one place: on its way, with the user, sent onward, answered once, or dropped. */
  predicate OnePlace(s: State, j: nat) {
    One(j in s.asked) + One(j in s.questions) + One(OnForward(s, j)) + s.replies[j] + One(j in s.dropped) == 1
  }

  /** What the client of a request takes for its answer: the one it has, or a failure where its end is gone. */
  predicate Learned(s: State, k: nat, a: Answer) {
    || (k in s.answers && s.answers[k] == a)
    || (a == Failed && s.IsRequest(k) && s.Silent(s.requests[k].ClientEnd()))
  }

  /** What the client of a request knows. */
  predicate ClientOk(s: State, k: nat)
    requires s.IsRequest(k)
  {
    && (if s.requests[k].own then One(k in s.pending) + s.completed[k] == 1
        else s.completed[k] == 0 && (k in s.pending <==> k in s.forwards))
    && (k in s.pending && s.replies[k] > 0 ==> k in s.inbound)
    && (k in s.inbound ==> s.replies[k] > 0)
    && (k in s.got ==> Learned(s, k, s.got[k]))
  }

  predicate ForwardOk(s: State, k: nat)
    requires k in s.forwards
  {
    var j := s.forwards[k];
    && j < k < |s.requests| && j in s.onward && s.onward[j] == k
    && s.requests[j].ServerEnd().process == s.requests[k].client && !s.requests[k].own
  }

  /** The process that a request came to sent it onward on another one of its connections. */
  predicate SentOn(s: State, j: nat, k: nat)
    requires j < k < |s.requests|
  {
    var came, went := s.requests[j], s.requests[k];
    && went.conn != came.conn && !went.own && (went.client == went.conn.parent || went.client == went.conn.child)
    && went.client == if came.client == came.conn.parent then came.conn.child else came.conn.parent
  }

  /** An answer is the one that a server gave, or what the server learned as the answer to the request sent onward. */
  predicate AnswerOk(s: State, j: nat) {
    && (j in s.answers <==> s.replies[j] > 0)
    && (j in s.onward ==> j < s.onward[j] < |s.requests| && j !in s.given && SentOn(s, j, s.onward[j]))
    && (j in s.answers ==>
          if j in s.onward then Learned(s, s.onward[j], s.answers[j])
          else j in s.given && s.given[j] == s.answers[j])
  }

  predicate RequestOk(s: State, j: nat)
    requires s.IsRequest(j)
  {
    && OnePlace(s, j) && ClientOk(s, j) && AnswerOk(s, j)
    && (j in s.dropped ==> s.requests[j].ServerEnd() in s.closed)
    && (j in s.asked || j in s.questions ==> j !in s.onward)
    && (j in s.given ==> s.replies[j] > 0)
    && s.requests[j].conn.Has(s.requests[j].client)
  }

  // A number that no request has is nowhere.
  predicate Nowhere(s: State, j: nat) {
    && j !in s.asked && j !in s.inbound && j !in s.pending && j !in s.questions && j !in s.forwards
    && s.replies[j] == 0 && j !in s.answers && j !in s.given && j !in s.onward && j !in s.dropped
    && s.completed[j] == 0 && j !in s.got
  }

  predicate NumberOk(s: State, j: nat) {
    if s.IsRequest(j) then RequestOk(s, j) else Nowhere(s, j)
  }

  ghost predicate Inv(s: State) {
    (forall j: nat :: NumberOk(s, j)) && forall k :: k in s.forwards ==> ForwardOk(s, k)
  }

  lemma SubmitKeeps(s: State, client: nat, conn: Conn)
    requires Inv(s) && conn.Has(client)
    ensures Inv(Send(s, client, conn, true))
  {
    forall j: nat ensures NumberOk(Send(s, client, conn, true), j) {
      assert NumberOk(s, j);
    }
  }

  lemma GiveAnswerKeeps(s: State, i: nat, a: Answer)
    requires Inv(s) && (i in s.questions || (i in s.asked && s.IsRequest(i)))
    ensures Inv(GiveAnswer(s.(questions := s.questions - {i}, asked := s.asked - {i}), i, a))
  {
    forall j: nat ensures NumberOk(GiveAnswer(s.(questions := s.questions - {i}, asked := s.asked - {i}), i, a), j) {
      assert NumberOk(s, j) && NumberOk(s, i);
    }
  }

  /** A forward ends with what its process learned as the answer to the request sent onward. */
  function EndForward(s: State, k: nat, inbound: set<nat>, a: Answer): State
    requires k in s.forwards
  {
    Reply(s.(inbound := inbound, pending := s.pending - {k}), s.forwards[k], a).(forwards := s.forwards - {k})
  }

  predicate CanEnd(s: State, k: nat, inbound: set<nat>, a: Answer) {
    k in s.forwards && s.inbound - {k} <= inbound <= s.inbound && Learned(s, k, a)
  }

  lemma EndForwardOthers(s: State, k: nat, inbound: set<nat>, a: Answer, j: nat)
    requires Inv(s) && CanEnd(s, k, inbound, a) && j != s.forwards[k]
    ensures NumberOk(EndForward(s, k, inbound, a), j)
  {
    assert NumberOk(s, j) && NumberOk(s, s.forwards[k]);
  }

  lemma EndForwardAnswered(s: State, k: nat, inbound: set<nat>, a: Answer)
    requires Inv(s) && CanEnd(s, k, inbound, a)
    ensures NumberOk(EndForward(s, k, inbound, a), s.forwards[k])
  {
    assert NumberOk(s, k) && NumberOk(s, s.forwards[k]);
  }

  lemma EndForwardKeeps(s: State, k: nat, inbound: set<nat>, a: Answer)
    requires Inv(s) && CanEnd(s, k, inbound, a)
    ensures Inv(EndForward(s, k, inbound, a))
  {
    var t := EndForward(s, k, inbound, a);
    forall j: nat ensures NumberOk(t, j) {
      if j == s.forwards[k] {
        EndForwardAnswered(s, k, inbound, a);
      } else {
        EndForwardOthers(s, k, inbound, a, j);
      }
    }
  }

  function EndOwn(s: State, k: nat, inbound: set<nat>, a: Answer): State {
    s.(inbound := inbound, pending := s.pending - {k}, completed := s.completed + multiset{k}, got := s.got[k := a])
  }

  lemma EndOwnKeeps(s: State, k: nat, inbound: set<nat>, a: Answer)
    requires Inv(s) && k in s.pending && k !in s.forwards && s.inbound - {k} <= inbound <= s.inbound
    requires Learned(s, k, a)
    ensures Inv(EndOwn(s, k, inbound, a))
  {
    var t := EndOwn(s, k, inbound, a);
    forall j: nat ensures NumberOk(t, j) {
      assert NumberOk(s, j);
    }
  }

  lemma FailPendingKeeps(s: State, k: nat)
    requires Inv(s)
    ensures Inv(FailPending(s, k))
  {
    if FailPending(s, k) != s {
      if k in s.forwards {
        EndForwardKeeps(s, k, s.inbound, Failed);
      } else {
        EndOwnKeeps(s, k, s.inbound, Failed);
      }
    }
  }

  lemma DeliverKeeps(s: State, k: nat)
    requires Inv(s)
    ensures Inv(Deliver(s, k))
  {
    if k in s.pending && k in s.answers {
      if k in s.forwards {
        EndForwardKeeps(s, k, s.inbound - {k}, s.answers[k]);
      } else {
        EndOwnKeeps(s, k, s.inbound - {k}, s.answers[k]);
      }
    } else {
      DeliverLate(s, k);
    }
  }

  lemma DeliverLate(s: State, k: nat)
    requires Inv(s) && (k !in s.pending || k !in s.answers)
    ensures Inv(Deliver(s, k))
  {
    forall j: nat ensures NumberOk(Deliver(s, k), j) {
      assert NumberOk(s, j) && NumberOk(s, k);
    }
  }

  lemma SweepQuestionKeeps(s: State, i: nat)
    requires Inv(s)
    ensures Inv(SweepQuestion(s, i))
  {
    forall j: nat ensures NumberOk(SweepQuestion(s, i), j) {
      assert NumberOk(s, j) && NumberOk(s, i);
    }
  }

  function DropForward(s: State, k: nat): State
    requires k in s.forwards
  {
    s.(forwards := s.forwards - {k}, pending := s.pending - {k}, dropped := s.dropped + {s.forwards[k]})
  }

  lemma DropForwardKeeps(s: State, k: nat)
    requires Inv(s) && k in s.forwards && s.IsRequest(s.forwards[k])
    requires s.requests[s.forwards[k]].ServerEnd() in s.closed
    ensures Inv(DropForward(s, k))
  {
    forall j: nat ensures NumberOk(DropForward(s, k), j) {
      assert NumberOk(s, j) && NumberOk(s, k) && NumberOk(s, s.forwards[k]);
    }
  }

  lemma SweepForwardKeeps(s: State, k: nat)
    requires Inv(s)
    ensures Inv(SweepForward(s, k))
  {
    if SweepForward(s, k) != s {
      if s.requests[s.forwards[k]].ServerEnd() in s.closed {
        DropForwardKeeps(s, k);
      } else {
        EndForwardKeeps(s, k, s.inbound, Failed);
      }
    }
  }

  lemma SweepPendingKeeps(s: State, k: nat)
    requires Inv(s)
    ensures Inv(SweepPending(s, k))
  {
    if SweepPending(s, k) != s {
      EndOwnKeeps(s, k, s.inbound, Failed);
    }
  }

  lemma HoldKeeps(s: State, i: nat)
    requires Inv(s) && s.IsRequest(i) && i in s.asked
    ensures Inv(s.(asked := s.asked - {i}, questions := s.questions + {i}))
  {
    forall j: nat ensures NumberOk(s.(asked := s.asked - {i}, questions := s.questions + {i}), j) {
      assert NumberOk(s, j) && NumberOk(s, i);
    }
  }

  /** A request is sent onward on another connection. */
  function SendOnward(s: State, i: nat, conn: Conn): State
    requires s.IsRequest(i)
  {
    var k := |s.requests|;
    Send(s.(asked := s.asked - {i}), s.requests[i].ServerEnd().process, conn, false)
      .(forwards := s.forwards[k := i], onward := s.onward[i := k])
  }

  lemma SendOnwardKeepsAt(s: State, i: nat, conn: Conn, j: nat)
    requires Inv(s) && s.IsRequest(i) && i in s.asked && j != i
    requires conn.Has(s.requests[i].ServerEnd().process) && conn != s.requests[i].conn
    ensures NumberOk(SendOnward(s, i, conn), j)
  {
    assert NumberOk(s, j) && NumberOk(s, i);
  }

  lemma SendOnwardMoves(s: State, i: nat, conn: Conn)
    requires Inv(s) && s.IsRequest(i) && i in s.asked
    requires conn.Has(s.requests[i].ServerEnd().process) && conn != s.requests[i].conn
    ensures NumberOk(SendOnward(s, i, conn), i)
  {
    assert NumberOk(s, i);
  }

  lemma SendOnwardForwards(s: State, i: nat, conn: Conn, k: nat)
    requires Inv(s) && s.IsRequest(i) && i in s.asked && k in SendOnward(s, i, conn).forwards
    ensures ForwardOk(SendOnward(s, i, conn), k)
  {
    assert NumberOk(s, i) && NumberOk(s, |s.requests|);
  }

  lemma SendOnwardKeeps(s: State, i: nat, conn: Conn)
    requires Inv(s) && s.IsRequest(i) && i in s.asked
    requires conn.Has(s.requests[i].ServerEnd().process) && conn != s.requests[i].conn
    ensures Inv(SendOnward(s, i, conn))
  {
    var t := SendOnward(s, i, conn);
    forall j: nat ensures NumberOk(t, j) {
      if j == i {
        SendOnwardMoves(s, i, conn);
      } else {
        SendOnwardKeepsAt(s, i, conn, j);
      }
    }
    forall k | k in t.forwards ensures ForwardOk(t, k) {
      SendOnwardForwards(s, i, conn, k);
    }
  }

  lemma PassKeeps(s: State, i: nat, conn: Conn)
    requires Inv(s) && s.IsRequest(i) && i in s.asked && s.questions - {i} == s.questions
    ensures Inv(Forward(s.(asked := s.asked - {i}), i, conn))
  {
    var server := s.requests[i].ServerEnd().process;
    if conn == s.requests[i].conn || !conn.Has(server) || End(server, conn) in s.closed {
      GiveAnswerKeeps(s, i, Failed);
    } else {
      SendOnwardKeeps(s, i, conn);
    }
  }

  lemma ServeKeeps(s: State, i: nat, d: Decision)
    requires Inv(s)
    ensures Inv(Serve(s, i, d))
  {
    if Serve(s, i, d) != s {
      assert s.questions - {i} == s.questions by {
        assert NumberOk(s, i);
      }
      match d
      case Answers(a) => GiveAnswerKeeps(s, i, a);
      case Holds => HoldKeeps(s, i);
      case Passes(conn) => PassKeeps(s, i, conn);
    }
  }

  lemma ConnectionKeeps(s: State, e: End)
    requires Inv(s)
    ensures Inv(s.(failed := s.failed + {e})) && Inv(s.(closed := s.closed + {e}))
  {
    forall j: nat
      ensures NumberOk(s.(failed := s.failed + {e}), j) && NumberOk(s.(closed := s.closed + {e}), j)
    {
      assert NumberOk(s, j);
    }
  }

  lemma UserAnswerKeeps(s: State, i: nat, a: Answer)
    requires Inv(s) && i in s.questions
    ensures Inv(GiveAnswer(s.(questions := s.questions - {i}), i, a))
  {
    GiveAnswerKeeps(s, i, a);
    assert s.asked - {i} == s.asked by {
      assert NumberOk(s, i);
    }
  }

  lemma StepKeeps(s: State, a: Action)
    requires Inv(s)
    ensures Inv(Step(s, a))
  {
    match a
    case DoSubmit(client, conn) => if conn.Has(client) { SubmitKeeps(s, client, conn); }
    case DoServe(j, d) => ServeKeeps(s, j, d);
    case DoAnswer(j, answer) => if j in s.questions { UserAnswerKeeps(s, j, answer); }
    case DoDeliver(k) => DeliverKeeps(s, k);
    case DoFail(e) => ConnectionKeeps(s, e);
    case DoFailPending(k) => FailPendingKeeps(s, k);
    case DoClose(e) => ConnectionKeeps(s, e);
    case DoSweepQuestion(j) => SweepQuestionKeeps(s, j);
    case DoSweepForward(k) => SweepForwardKeeps(s, k);
    case DoSweepPending(k) => SweepPendingKeeps(s, k);
  }

  lemma {:induction false} RunKeeps(t: Trace)
    ensures Inv(Run(t))
  {
    match t
    case Start =>
    case Then(before, action) =>
      RunKeeps(before);
      StepKeeps(Run(before), action);
  }

  // ---------------------------------------------------------------- exactly one answer

  predicate AnsweredAtMostOnce(s: State, j: nat) {
    s.replies[j] <= 1 && s.completed[j] <= 1
  }

  /** A server answers a request at most once, and a client learns of at most one answer. */
  lemma {:induction false} AtMostOnce(t: Trace, j: nat)
    ensures AnsweredAtMostOnce(Run(t), j)
  {
    RunKeeps(t);
    assert NumberOk(Run(t), j);
  }

  /**
   * Nothing is on its way to an end that still listens, the user has no question, every list was swept
   * after its connection failed or closed, and both ends know when a connection is gone.
   */
  ghost predicate Quiet(s: State) {
    && (forall j :: j in s.asked && s.IsRequest(j) ==> s.Silent(s.requests[j].ServerEnd()))
    && (forall k :: k in s.inbound && s.IsRequest(k) ==> s.Silent(s.requests[k].ClientEnd()))
    && s.questions == {}
    && (forall k :: k in s.pending && s.IsRequest(k) ==> !s.Silent(s.requests[k].ClientEnd()))
    && (forall k :: k in s.pending && s.IsRequest(k) && s.Silent(s.requests[k].ServerEnd()) ==>
          s.Silent(s.requests[k].ClientEnd()))
  }

  /** A pending request waits for a later one, so in a quiet state nothing is pending. */
  lemma {:induction false} NothingWaits(s: State, k: nat)
    requires Inv(s) && Quiet(s) && k in s.pending
    ensures false
    decreases |s.requests| - k
  {
    assert NumberOk(s, k);
    if OnForward(s, k) {
      assert ForwardOk(s, s.onward[k]) && NumberOk(s, s.onward[k]);
      NothingWaits(s, s.onward[k]);
    }
  }

  /** An own request completed once, and a server answered once where its end of the connection is not gone. */
  predicate AnsweredOnce(s: State, j: nat)
    requires s.IsRequest(j)
  {
    && (s.requests[j].own ==> s.completed[j] == 1)
    && (s.replies[j] == 1 || s.Silent(s.requests[j].ServerEnd()))
  }

  /**
   * In a quiet state each own request of a process has completed once, and each request was answered
   * exactly once by its server unless the server's end of that connection is gone: through any number of
   * forwards, and in whatever order connections failed or closed.
   */
  lemma {:induction false} ExactlyOnce(t: Trace, j: nat)
    requires Quiet(Run(t)) && Run(t).IsRequest(j)
    ensures AnsweredOnce(Run(t), j)
  {
    RunKeeps(t);
    AnsweredOrGone(Run(t), j);
  }

  lemma AnsweredOrGone(s: State, j: nat)
    requires Inv(s) && Quiet(s) && s.IsRequest(j)
    ensures AnsweredOnce(s, j)
  {
    assert NumberOk(s, j);
    if j in s.pending {
      NothingWaits(s, j);
    } else if OnForward(s, j) {
      assert NumberOk(s, s.onward[j]) && ForwardOk(s, s.onward[j]);
      NothingWaits(s, s.onward[j]);
    }
  }

  // ---------------------------------------------------------------- where an answer comes from

  ghost predicate GoesOn(s: State) {
    forall i :: i in s.onward ==> i < s.onward[i] < |s.requests|
  }

  /** The request that a chain of forwards ends with. */
  function Last(s: State, j: nat): nat
    requires GoesOn(s)
    decreases |s.requests| - j
  {
    if j in s.onward then Last(s, s.onward[j]) else j
  }

  /** A request is sent onward, in one step or more, as the other one, or is that one. */
  ghost predicate OnChain(s: State, j: nat, i: nat)
    requires GoesOn(s)
    decreases |s.requests| - j
  {
    i == j || (j in s.onward && OnChain(s, s.onward[j], i))
  }

  /** The last process of a chain gave the answer, or the end that waited for it failed or closed. */
  ghost predicate Cause(s: State, i: nat, a: Answer) {
    || (i !in s.onward && i in s.given && s.given[i] == a)
    || (a == Failed && s.IsRequest(i) && s.Silent(End(s.requests[i].client, s.requests[i].conn)))
  }

  lemma OnwardGrows(s: State)
    requires Inv(s)
    ensures GoesOn(s)
  {
    forall i | i in s.onward ensures i < s.onward[i] < |s.requests| {
      assert NumberOk(s, i);
    }
  }

  lemma {:induction false} LearnedHasCause(s: State, j: nat, a: Answer) returns (i: nat)
    requires Inv(s) && GoesOn(s) && Learned(s, j, a)
    ensures OnChain(s, j, i) && Cause(s, i, a)
    decreases |s.requests| - j
  {
    i := j;
    if !Cause(s, j, a) {
      assert NumberOk(s, j);
      i := LearnedHasCause(s, s.onward[j], a);
    }
  }

  /**
   * Whatever a server answered or a process got for its own request was given by a process that did not send
   * the request onward, or is a failure: then the end of a connection that waited for it failed or closed.
   */
  lemma AnswerHasCause(t: Trace, j: nat, a: Answer) returns (i: nat)
    requires (j in Run(t).answers && Run(t).answers[j] == a) || (j in Run(t).got && Run(t).got[j] == a)
    ensures GoesOn(Run(t)) && OnChain(Run(t), j, i) && Cause(Run(t), i, a)
  {
    RunKeeps(t);
    OnwardGrows(Run(t));
    assert NumberOk(Run(t), j);
    i := LearnedHasCause(Run(t), j, a);
  }

  lemma {:induction false} OnlyTheLast(s: State, j: nat, i: nat)
    requires GoesOn(s) && OnChain(s, j, i) && i !in s.onward
    ensures i == Last(s, j)
    decreases |s.requests| - j
  {
    if i != j {
      OnlyTheLast(s, s.onward[j], i);
    }
  }

  /** No end of a connection failed or closed. */
  predicate Connected(s: State) {
    s.failed == {} && s.closed == {}
  }

  /** A value comes from the last process of the chain, and where nothing failed or closed a failure does too. */
  lemma AnswersPassThrough(t: Trace, j: nat, a: Answer)
    requires (j in Run(t).answers && Run(t).answers[j] == a) || (j in Run(t).got && Run(t).got[j] == a)
    requires a.Value? || Connected(Run(t))
    ensures GoesOn(Run(t)) && Last(Run(t), j) in Run(t).given && Run(t).given[Last(Run(t), j)] == a
  {
    var i := AnswerHasCause(t, j, a);
    OnlyTheLast(Run(t), j, i);
  }

  // ---------------------------------------------------------------- runs without a failure

  /** A process has another connection on which it can send a request onward. */
  predicate CanPass(s: State, j: nat, conn: Conn)
    requires s.IsRequest(j)
  {
    var at := s.requests[j].conn;
    var server := if s.requests[j].client == at.parent then at.child else at.parent;
    conn != at && (server == conn.parent || server == conn.child) && End(server, conn) !in s.closed
  }

  /** A request to pass is sent onward exactly where its process has that connection; else it fails there. */
  lemma PassedIff(s: State, j: nat, conn: Conn)
    requires Inv(s) && j in s.asked && s.IsRequest(j) && !s.Silent(s.requests[j].ServerEnd())
    ensures var t := Serve(s, j, Passes(conn));
            if CanPass(s, j, conn) then
              && j in t.onward && t.onward[j] == |s.requests| == |t.requests| - 1 && SentOn(t, j, t.onward[j])
              && t.requests[t.onward[j]].conn == conn && t.asked == s.asked - {j} + {t.onward[j]} && t.given == s.given
            else t.requests == s.requests && t.onward == s.onward && t.given == s.given[j := Failed]
  {
    assert NumberOk(s, j);
  }

  predicate Obliges(s: State, action: Action) {
    match action
    case DoServe(j, Answers(a)) => a.Value?
    case DoServe(j, Passes(conn)) => s.IsRequest(j) ==> CanPass(s, j, conn)
    case DoAnswer(_, a) => a.Value?
    case _ => true
  }

  /** Processes answer with values only, and send onward only on another connection of theirs. */
  ghost predicate Willing(t: Trace) {
    match t
    case Start => true
    case Then(before, action) => Willing(before) && Obliges(Run(before), action)
  }

  ghost predicate GivesValues(s: State) {
    forall j :: j in s.given ==> s.given[j].Value?
  }

  lemma ServeGivesValues(s: State, j: nat, d: Decision)
    requires GivesValues(s) && Obliges(s, DoServe(j, d))
    ensures GivesValues(Serve(s, j, d))
  {
  }

  lemma StepGivesValues(s: State, action: Action)
    requires GivesValues(s) && Obliges(s, action)
    ensures GivesValues(Step(s, action))
  {
    if action.DoServe? {
      ServeGivesValues(s, action.j, action.decision);
    }
  }

  lemma {:induction false} WillingGivesValues(t: Trace)
    requires Willing(t)
    ensures GivesValues(Run(t))
  {
    match t
    case Start =>
    case Then(before, action) =>
      WillingGivesValues(before);
      StepGivesValues(Run(before), action);
  }

  /** Where nothing failed or closed, and processes answer values and send onward as they can, no request fails. */
  lemma NothingFails(t: Trace, j: nat, a: Answer)
    requires Willing(t) && Connected(Run(t))
    requires (j in Run(t).answers && Run(t).answers[j] == a) || (j in Run(t).got && Run(t).got[j] == a)
    ensures a.Value?
  {
    AnswersPassThrough(t, j, a);
    WillingGivesValues(t);
  }

  // ---------------------------------------------------------------- connections that are gone

  /** Some step of the run is of this kind, on this end. */
  ghost predicate Happened(t: Trace, action: Action) {
    match t
    case Start => false
    case Then(before, last) => last == action || Happened(before, action)
  }

  lemma ServeEnds(s: State, j: nat, d: Decision)
    ensures Serve(s, j, d).failed == s.failed && Serve(s, j, d).closed == s.closed
  {
  }

  lemma StepEnds(s: State, a: Action, e: End)
    ensures e in Step(s, a).failed <==> e in s.failed || a == DoFail(e)
    ensures e in Step(s, a).closed <==> e in s.closed || a == DoClose(e)
  {
    if a.DoServe? {
      ServeEnds(s, a.j, a.decision);
    }
  }

  /** The ends that failed or closed are those that a step of the run was for. */
  lemma {:induction false} GoneIff(t: Trace, e: End)
    ensures e in Run(t).failed <==> Happened(t, DoFail(e))
    ensures e in Run(t).closed <==> Happened(t, DoClose(e))
  {
    match t
    case Start =>
    case Then(before, action) =>
      GoneIff(before, e);
      StepEnds(Run(before), action, e);
  }

  /** A process sends a request of its own on a connection that it has and has not closed, and on no other one. */
  lemma SubmittedIff(t: Trace, client: nat, conn: Conn)
    ensures var s, r := Run(t), Run(Then(t, DoSubmit(client, conn)));
            if (client == conn.parent || client == conn.child) && !Happened(t, DoClose(End(client, conn))) then
              && r.requests == s.requests + [Request(client, conn, true)]
              && r.asked == s.asked + {|s.requests|} && r.pending == s.pending + {|s.requests|}
            else r == s
  {
    GoneIff(t, End(client, conn));
  }

  /** After the sweep of a closed end the server holds nothing that came there, and its answers are not sent. */
  lemma SweptIsGone(s: State, j: nat)
    requires Inv(s) && s.IsRequest(j) && s.requests[j].ServerEnd() in s.closed
    ensures j in s.questions ==>
              var r := Step(s, DoSweepQuestion(j)); j !in r.questions && j in r.dropped && r.replies == s.replies
    ensures OnForward(s, j) ==>
              var r := Step(s, DoSweepForward(s.onward[j]));
              !OnForward(r, j) && j in r.dropped && r.replies == s.replies && s.onward[j] !in r.pending
  {
    assert OnForward(s, j) ==> ForwardOk(s, s.onward[j]);
  }

  /** After the sweep of a closed end its client waits for nothing: its own request failed, or the one it forwards. */
  lemma SweptFails(s: State, k: nat)
    requires Inv(s) && k in s.pending && s.IsRequest(k) && End(s.requests[k].client, s.requests[k].conn) in s.closed
    ensures s.requests[k].own ==>
              var r := Step(s, DoSweepPending(k));
              k !in r.pending && r.completed == s.completed + multiset{k} && r.got == s.got[k := Failed]
    ensures !s.requests[k].own ==>
              && k in s.forwards && s.IsRequest(s.forwards[k])
              && var j, r := s.forwards[k], Step(s, DoSweepForward(k));
                 && k !in r.pending && k !in r.forwards
                 && if s.requests[j].ServerEnd() in s.closed then r.replies == s.replies
                    else r.replies == s.replies + multiset{j} && r.answers == s.answers[j := Failed]
  {
    assert NumberOk(s, k) && (k in s.forwards ==> ForwardOk(s, k));
  }

  /** An end that failed or closed takes no request, and learns of no answer. */
  lemma SilentEndsHearNothing(t: Trace, j: nat, d: Decision)
    requires Run(t).IsRequest(j)
    ensures var r := Run(t).requests[j];
            && (Happened(t, DoFail(r.ServerEnd())) || Happened(t, DoClose(r.ServerEnd())) ==>
                  Run(Then(t, DoServe(j, d))) == Run(t))
            && (Happened(t, DoFail(r.ClientEnd())) || Happened(t, DoClose(r.ClientEnd())) ==>
                  Run(Then(t, DoDeliver(j))) == Run(t))
  {
    GoneIff(t, Run(t).requests[j].ServerEnd());
    GoneIff(t, Run(t).requests[j].ClientEnd());
  }
}
