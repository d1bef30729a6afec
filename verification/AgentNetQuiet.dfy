/** From every state the requests come to rest, without a connection that works being cut. */
module AgentNetQuiet {
  import opened AgentNet
  import opened AgentNetLaws

  /**
   * A step that brings requests to rest: no new request, no closed connection, and a failure only of an end
   * whose other end is gone.
   */
  ghost predicate Helps(s: State, a: Action) {
    match a
    case DoSubmit(_, _) => false
    case DoClose(_) => false
    case DoServe(_, d) => d.Answers?
    case DoFail(e) => exists k :: s.IsRequest(k) && OtherIsGone(s, k, e)
    case _ => true
  }

  predicate OtherIsGone(s: State, k: nat, e: End)
    requires s.IsRequest(k)
  {
    || (e == s.requests[k].ClientEnd() && s.Silent(s.requests[k].ServerEnd()))
    || (e == s.requests[k].ServerEnd() && s.Silent(s.requests[k].ClientEnd()))
  }

  /** A run goes on from another one with steps that bring requests to rest. */
  ghost predicate Extends(t: Trace, u: Trace) {
    u == t || (u.Then? && Extends(t, u.before) && Helps(Run(u.before), u.action))
  }

  lemma {:induction false} ExtendsFurther(t: Trace, a: Action, u: Trace)
    requires Extends(Then(t, a), u) && Helps(Run(t), a)
    ensures Extends(t, u)
  {
    if u != Then(t, a) {
      ExtendsFurther(t, a, u.before);
    } else {
      assert Extends(t, t);
    }
  }

  lemma {:induction false} ExtendsOn(t: Trace, v: Trace, u: Trace)
    requires Extends(t, v) && Extends(v, u)
    ensures Extends(t, u)
  {
    if u != v {
      ExtendsOn(t, v, u.before);
    }
  }

  // ---------------------------------------------------------------- both ends learn of a lost connection

  predicate BothKnow(s: State, k: nat)
    requires s.IsRequest(k)
  {
    s.Silent(s.requests[k].ClientEnd()) <==> s.Silent(s.requests[k].ServerEnd())
  }

  ghost predicate AllKnow(s: State) {
    forall k :: s.IsRequest(k) ==> BothKnow(s, k)
  }

  /** Ends that are not silent while the other end is. */
  ghost function Unknowing(s: State): set<nat> {
    set k | 0 <= k < |s.requests| && !BothKnow(s, k)
  }

  ghost function EndToFail(s: State, k: nat): End
    requires s.IsRequest(k)
  {
    if s.Silent(s.requests[k].ClientEnd()) then s.requests[k].ServerEnd() else s.requests[k].ClientEnd()
  }

  lemma FailTells(s: State, k: nat)
    requires Inv(s) && s.IsRequest(k) && !BothKnow(s, k)
    ensures Helps(s, DoFail(EndToFail(s, k)))
    ensures Unknowing(Step(s, DoFail(EndToFail(s, k)))) < Unknowing(s)
  {
    var e := EndToFail(s, k);
    var r := Step(s, DoFail(e));
    assert OtherIsGone(s, k, e);
    assert BothKnow(r, k);
    forall j | j in Unknowing(r) ensures j in Unknowing(s) {
      EndsPair(s, k, j, e);
    }
    assert k in Unknowing(s) && k !in Unknowing(r);
  }

  /** Two requests on one connection have the same two ends. */
  lemma EndsPair(s: State, k: nat, j: nat, e: End)
    requires Inv(s) && s.IsRequest(k) && s.IsRequest(j) && e == EndToFail(s, k) && !BothKnow(s, k)
    requires !BothKnow(s.(failed := s.failed + {e}), j)
    ensures !BothKnow(s, j)
  {
    assert NumberOk(s, k) && NumberOk(s, j);
  }

  /** A run goes on until both ends of each connection know when it is lost. */
  lemma {:induction false} TellAll(t: Trace) returns (u: Trace)
    ensures Extends(t, u) && AllKnow(Run(u))
    decreases Unknowing(Run(t))
  {
    u := t;
    RunKeeps(t);
    if k :| Run(t).IsRequest(k) && !BothKnow(Run(t), k) {
      var a := DoFail(EndToFail(Run(t), k));
      FailTells(Run(t), k);
      u := TellAll(Then(t, a));
      ExtendsFurther(t, a, u);
    }
  }

  // ---------------------------------------------------------------- requests come to rest

  /** What is left to do: a request that is asked, held or pending takes more steps than an answer on its way. */
  function Work(s: State): nat {
    2 * |s.asked| + 2 * |s.questions| + 2 * |s.pending| + |s.inbound|
  }

  /** A step that helps, leaves less to do, and leaves the connections as they are. */
  ghost predicate Progress(s: State, a: Action) {
    var r := Step(s, a);
    Helps(s, a) && Work(r) < Work(s) && r.requests == s.requests && r.failed == s.failed && r.closed == s.closed
  }

  lemma Adds(s: set<nat>, k: nat)
    ensures |s + {k}| <= |s| + 1
  {
    if k in s {
      assert s + {k} == s;
    }
  }

  lemma ServeHelps(s: State, j: nat)
    requires Inv(s) && j in s.asked && s.IsRequest(j) && !s.Silent(s.requests[j].ServerEnd())
    ensures Progress(s, DoServe(j, Answers(Failed)))
  {
    Adds(s.inbound, j);
  }

  lemma AnswerHelps(s: State, j: nat)
    requires j in s.questions
    ensures Progress(s, DoAnswer(j, Failed))
  {
    Adds(s.inbound, j);
  }

  lemma CompleteWorks(s: State, k: nat, a: Answer)
    requires k in s.pending
    ensures var r := Complete(s, k, a);
            Work(r) < Work(s) && r.requests == s.requests && r.failed == s.failed && r.closed == s.closed
  {
    if k in s.forwards {
      Adds(s.inbound, s.forwards[k]);
    }
  }

  lemma DeliverHelps(s: State, k: nat)
    requires Inv(s) && k in s.inbound && s.IsRequest(k) && !s.Silent(s.requests[k].ClientEnd())
    ensures Progress(s, DoDeliver(k))
  {
    assert NumberOk(s, k);
    if k in s.pending {
      CompleteWorks(s.(inbound := s.inbound - {k}), k, s.answers[k]);
    }
  }

  lemma FailHelps(s: State, k: nat)
    requires k in s.pending && s.IsRequest(k) && s.requests[k].ClientEnd() in s.failed
    ensures Progress(s, DoFailPending(k))
  {
    CompleteWorks(s, k, Failed);
  }

  lemma SweepHelps(s: State, k: nat)
    requires Inv(s) && k in s.pending && s.IsRequest(k) && s.requests[k].ClientEnd() in s.closed
    ensures Progress(s, if k in s.forwards then DoSweepForward(k) else DoSweepPending(k))
  {
    if k in s.forwards {
      assert ForwardOk(s, k);
      Adds(s.inbound, s.forwards[k]);
    } else {
      CompleteWorks(s, k, Failed);
    }
  }

  /** Where a state is not quiet some step helps. */
  lemma SomeStepHelps(s: State) returns (a: Action)
    requires Inv(s) && AllKnow(s) && !Quiet(s)
    ensures Progress(s, a)
  {
    if j :| j in s.asked && s.IsRequest(j) && !s.Silent(s.requests[j].ServerEnd()) {
      a := DoServe(j, Answers(Failed));
      ServeHelps(s, j);
    } else if k :| k in s.inbound && s.IsRequest(k) && !s.Silent(s.requests[k].ClientEnd()) {
      a := DoDeliver(k);
      DeliverHelps(s, k);
    } else if j :| j in s.questions {
      a := DoAnswer(j, Failed);
      AnswerHelps(s, j);
    } else {
      var k := SomePending(s);
      if s.requests[k].ClientEnd() in s.failed {
        a := DoFailPending(k);
        FailHelps(s, k);
      } else {
        a := if k in s.forwards then DoSweepForward(k) else DoSweepPending(k);
        SweepHelps(s, k);
      }
    }
  }

  lemma SomePending(s: State) returns (k: nat)
    requires AllKnow(s) && !Quiet(s) && s.questions == {}
    requires forall j :: j in s.asked && s.IsRequest(j) ==> s.Silent(s.requests[j].ServerEnd())
    requires forall j :: j in s.inbound && s.IsRequest(j) ==> s.Silent(s.requests[j].ClientEnd())
    ensures k in s.pending && s.IsRequest(k) && s.Silent(s.requests[k].ClientEnd())
  {
    OnlyPendingLeft(s);
    k :| k in s.pending && s.IsRequest(k) && s.Silent(s.requests[k].ClientEnd());
  }

  lemma OnlyPendingLeft(s: State)
    requires AllKnow(s) && s.questions == {}
    requires forall j :: j in s.asked && s.IsRequest(j) ==> s.Silent(s.requests[j].ServerEnd())
    requires forall j :: j in s.inbound && s.IsRequest(j) ==> s.Silent(s.requests[j].ClientEnd())
    ensures (forall j :: j in s.pending && s.IsRequest(j) ==> !s.Silent(s.requests[j].ClientEnd())) ==> Quiet(s)
  {
    forall j | j in s.pending && s.IsRequest(j) && s.Silent(s.requests[j].ServerEnd())
      ensures s.Silent(s.requests[j].ClientEnd())
    {
      assert BothKnow(s, j);
    }
  }

  lemma StillKnown(s: State, a: Action)
    requires AllKnow(s) && Progress(s, a)
    ensures AllKnow(Step(s, a))
  {
    forall k | Step(s, a).IsRequest(k) ensures BothKnow(Step(s, a), k) {
      assert s.IsRequest(k) && BothKnow(s, k);
    }
  }

  lemma {:induction false} ComesToRest(t: Trace) returns (u: Trace)
    requires AllKnow(Run(t))
    ensures Extends(t, u) && Quiet(Run(u))
    decreases Work(Run(t))
  {
    u := t;
    if !Quiet(Run(t)) {
      RunKeeps(t);
      var a := SomeStepHelps(Run(t));
      StillKnown(Run(t), a);
      u := ComesToRest(Then(t, a));
      ExtendsFurther(t, a, u);
    }
  }

  /**
   * Every run goes on to a quiet state with steps that cut no connection that works: answers, deliveries, the
   * news of lost connections, and the sweeps after them. There every own request has completed once, and every
   * server has answered once unless its connection is gone.
   */
  lemma QuietIsReached(t: Trace) returns (u: Trace)
    ensures Extends(t, u)
    ensures Quiet(Run(u)) && forall j :: Run(u).IsRequest(j) ==> AnsweredOnce(Run(u), j)
  {
    var v := TellAll(t);
    u := ComesToRest(v);
    ExtendsOn(t, v, u);
    forall j | Run(u).IsRequest(j) ensures AnsweredOnce(Run(u), j) {
      ExactlyOnce(u, j);
    }
  }
}
