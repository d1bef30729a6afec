/** Runs of a turn that do not give each of two calls exactly one result, or not its own. */
module TurnFaults {
  import opened TurnLog
  import opened TurnCalls
  import opened TurnReads
  import opened TurnJobs
  import opened TurnGate
  import opened TurnAccounts
  import opened TurnRuns

  function Pair(t: string, x: string): (calls: seq<Call>)
    ensures |calls| == 2 && calls[0].id == t && calls[1].id == x
  {
    [Call(t, "", false), Call(x, "", false)]
  }

  function Asked(calls: seq<Call>): Log {
    Then(Start, Response(calls))
  }

  function Env(dispatch: Reads, scan: Reads): Submit {
    Submit(false, false, Start, true, true, true, dispatch, scan)
  }

  /** A log whose calls do not have one result each. */
  lemma NotOnce(log: Log)
    requires ResultIds(log) != CallIds(log)
    ensures !Settled(log)
  {
    if Settled(log) {
      ExactlyOneResult(log);
    }
  }

  lemma AskedIds(calls: seq<Call>)
    requires |calls| == 2
    ensures CallIds(Asked(calls)) == multiset{calls[0].id, calls[1].id} && ResultIds(Asked(calls)) == multiset{}
  {
    assert IdsFrom(calls, 2) == multiset{};
    assert IdsFrom(calls, 1) == multiset{calls[1].id};
    assert IdsFrom(calls, 0) == multiset{calls[0].id} + multiset{calls[1].id};
    assert CallIds(Start) == multiset{} == ResultIds(Start);
  }

  /** A run that goes on after the model asked for two calls. */
  ghost predicate Goes(run: TurnRun, calls: seq<Call>, log: Log)
    reads run
  {
    && |calls| == 2 && run.Valid() && !run.gated && run.maxToolIterations == 10 && run.toolCalls == calls
    && run.turn == log && run.iteration == 0 && |run.requests| == 1
    && !run.turnEndRequested && !run.cancelRequested
  }

  method Begins(gated: bool) returns (run: TurnRun)
    ensures fresh(run) && run.Valid() && run.state == MODEL && run.gated == gated && run.maxToolIterations == 10
    ensures run.turn == Start && run.iteration == 0 && |run.requests| == 1 && run.clean && run.gateSeq == 0
    ensures run.relays == [] && !run.turnEndRequested && !run.cancelRequested
  {
    run := new TurnRun(10, gated, 0, [], false);
    run.SubmitModel(Env([], []));
  }

  /** The model asks for two calls, and the first scan reads the second one as parallel, or none. */
  method Asks(calls: seq<Call>, group: bool) returns (run: TurnRun)
    requires |calls| == 2
    ensures fresh(run) && Goes(run, calls, Asked(calls)) && run.state == TOOLS && run.groupParallel == group
    ensures !group ==> run.exclusiveIndex == 0
  {
    run := Begins(false);
    var read := [false, group];
    assert Parallel(read, 1) == group && !Parallel(read, 0);
    run.ProcessModel(Calls(calls), Env(read, []));
    assert run.HasGroup(read) == group;
  }

  /** What ran is collected, and an exclusive call is next. */
  method Collects(run: TurnRun, ghost calls: seq<Call>, ghost log: Log, jobs: seq<Job>, read: Reads, scan: Reads,
                  next: nat)
    requires Goes(run, calls, log) && run.state == TOOLS && next < 2 && next == Next(scan, run.NextStart(), 2)
    modifies run
    ensures run.state == TOOLS && !run.groupParallel && run.exclusiveIndex == next
    ensures Goes(run, calls, WithResults(log, calls, read, old(run.groupParallel), old(run.exclusiveIndex), jobs, 2))
  {
    run.CollectTools(jobs, read, false, false, Env([], scan));
  }

  /** What ran is collected, and the model is asked again. */
  method CollectsLast(run: TurnRun, ghost calls: seq<Call>, ghost log: Log, jobs: seq<Job>, read: Reads, scan: Reads)
    requires Goes(run, calls, log) && run.state == TOOLS && Next(scan, run.NextStart(), 2) == 2
    modifies run
    ensures run.Valid() && run.state == MODEL && |run.requests| == 2
    ensures run.requests[1].log ==
            WithResults(log, calls, read, old(run.groupParallel), old(run.exclusiveIndex), jobs, 2)
  {
    run.CollectTools(jobs, read, false, false, Env([], scan));
  }

  /** The group takes the second call. */
  lemma GroupLog(calls: seq<Call>, log: Log, read: Reads, exclusive: nat, jobs: seq<Job>)
    requires |calls| == 2 && !Parallel(read, 0) && Parallel(read, 1)
    ensures WithResults(log, calls, read, true, exclusive, jobs, 2) == Then(log, JobResultOf(calls[1], jobs, 0))
  {
    assert WithResults(log, calls, read, true, exclusive, jobs, 1) == log;
    assert JobIndex(read, true, exclusive, 1) == 0;
  }

  /** One more result of a call in a log. */
  lemma OneMore(log: Log, call: Call, jobs: seq<Job>)
    ensures ResultIds(Then(log, JobResultOf(call, jobs, 0))) == ResultIds(log) + multiset{call.id}
    ensures CallIds(Then(log, JobResultOf(call, jobs, 0))) == CallIds(log)
  {
    assert CallIds(log) + multiset{} == CallIds(log);
  }

  // What is collected of the group, and of a call alone.
  lemma GroupIds(calls: seq<Call>, log: Log, read: Reads, exclusive: nat, jobs: seq<Job>)
    requires |calls| == 2 && !Parallel(read, 0) && Parallel(read, 1)
    ensures var after := WithResults(log, calls, read, true, exclusive, jobs, 2);
            ResultIds(after) == ResultIds(log) + multiset{calls[1].id} && CallIds(after) == CallIds(log)
  {
    GroupLog(calls, log, read, exclusive, jobs);
    OneMore(log, calls[1], jobs);
  }

  lemma AloneIds(calls: seq<Call>, log: Log, x: nat, jobs: seq<Job>)
    requires |calls| == 2 && x < 2
    ensures var after := WithResults(log, calls, [], false, x, jobs, 2);
            ResultIds(after) == ResultIds(log) + multiset{calls[x].id} && CallIds(after) == CallIds(log)
  {
    OneResult(log, calls, [], x, jobs, 2);
    OneMore(log, calls[x], jobs);
  }

  /** The group is collected, and then the first call runs alone. */
  method GroupThenAlone(calls: seq<Call>, jobs: seq<Job>) returns (run: TurnRun)
    requires |calls| == 2
    ensures fresh(run) && Goes(run, calls, run.turn) && run.state == TOOLS && !run.groupParallel
    ensures run.exclusiveIndex == 0 && CallIds(run.turn) == multiset{calls[0].id, calls[1].id}
    ensures ResultIds(run.turn) == multiset{calls[1].id}
  {
    var read := [false, true];
    run := Asks(calls, true);
    AskedIds(calls);
    GroupIds(calls, Asked(calls), read, run.exclusiveIndex, jobs);
    Collects(run, calls, Asked(calls), jobs, read, [], 0);
  }

  /** A call that ran alone is collected, and the other one runs alone next. */
  method AloneThenAlone(run: TurnRun, ghost calls: seq<Call>, jobs: seq<Job>)
    requires Goes(run, calls, run.turn) && run.state == TOOLS && !run.groupParallel && run.exclusiveIndex == 0
    modifies run
    ensures Goes(run, calls, run.turn) && run.state == TOOLS && !run.groupParallel && run.exclusiveIndex == 1
    ensures ResultIds(run.turn) == ResultIds(old(run.turn)) + multiset{calls[0].id}
    ensures CallIds(run.turn) == CallIds(old(run.turn))
  {
    AloneIds(calls, run.turn, 0, jobs);
    Collects(run, calls, run.turn, jobs, [], [], 1);
  }

  /** The second call that ran alone is collected, and the model is asked again. */
  method AloneThenModel(run: TurnRun, ghost calls: seq<Call>, jobs: seq<Job>)
    requires Goes(run, calls, run.turn) && run.state == TOOLS && !run.groupParallel && run.exclusiveIndex == 1
    modifies run
    ensures run.Valid() && run.state == MODEL && |run.requests| == 2
    ensures ResultIds(run.requests[1].log) == ResultIds(old(run.turn)) + multiset{calls[1].id}
    ensures CallIds(run.requests[1].log) == CallIds(old(run.turn))
  {
    AloneIds(calls, run.turn, 1, jobs);
    CollectsLast(run, calls, run.turn, jobs, [], []);
  }

  lemma Twice(log: Log, t: string, x: string)
    requires ResultIds(log) == multiset{x} + multiset{t} + multiset{x} && CallIds(log) == multiset{t, x}
    ensures ResultIds(log) == multiset{t, x, x} && !Settled(log)
  {
    assert |ResultIds(log)| == 3 && |CallIds(log)| == 2;
    NotOnce(log);
  }

  /**
   * A call that the group reads as parallel and a later scan does not: it runs and is answered twice. A skill
   * that forks is such a call, when a todo list that is written in between brings in a change that disables it.
   */
  method DoubledRun(t: string, x: string, jobs: seq<Job>) returns (run: TurnRun)
    ensures fresh(run) && run.Valid() && run.state == MODEL && |run.requests| == 2
    ensures ResultIds(run.requests[1].log) == multiset{t, x, x} && CallIds(run.requests[1].log) == multiset{t, x}
    ensures !Settled(run.requests[1].log)
  {
    var calls := Pair(t, x);
    run := GroupThenAlone(calls, jobs);
    AloneThenAlone(run, calls, jobs);
    AloneThenModel(run, calls, jobs);
    Twice(run.requests[1].log, t, x);
  }

  /**
   * A call that no group takes and that the scan for the next exclusive call reads as parallel: it never runs.
   * A skill that forks is such a call, when a change that enables it comes in before that scan.
   */
  method MissingRun(t: string, x: string, jobs: seq<Job>) returns (run: TurnRun)
    ensures fresh(run) && run.Valid() && run.state == MODEL && |run.requests| == 2
    ensures ResultIds(run.requests[1].log) == multiset{t} && CallIds(run.requests[1].log) == multiset{t, x}
    ensures !Settled(run.requests[1].log)
  {
    var calls, scan := Pair(t, x), [true, true];
    run := Asks(calls, false);
    AskedIds(calls);
    AloneIds(calls, Asked(calls), 0, jobs);
    assert Parallel(scan, 1) && Next(scan, 2, 2) == 2;
    CollectsLast(run, calls, Asked(calls), jobs, [], scan);
    assert |ResultIds(run.requests[1].log)| == 1 && |CallIds(run.requests[1].log)| == 2;
    NotOnce(run.requests[1].log);
  }

  // ---------------------------------------------------------------- a result of another call

  /** The model asks for two calls, and the group is submitted for the first one. */
  method AsksFirst(calls: seq<Call>) returns (run: TurnRun)
    requires |calls| == 2
    ensures fresh(run) && Goes(run, calls, Asked(calls)) && run.state == TOOLS && run.groupParallel
  {
    run := Begins(false);
    var read := [true, false];
    assert Parallel(read, 0);
    run.ProcessModel(Calls(calls), Env(read, []));
    assert run.HasGroup(read);
  }

  /** The group of the first call has the job of that call. */
  lemma FirstJob(outcomes: seq<Job>)
    requires |outcomes| == 2
    ensures JobsOf(outcomes, [true, false], 2) == [outcomes[0]]
  {
    assert JobsOf(outcomes, [true, false], 1) == [outcomes[0]];
  }

  /** The log after the group was collected for the second call, and then the first call alone. */
  function Swapped(calls: seq<Call>, group: Job, alone: Job): Log
    requires |calls| == 2
  {
    Then(Then(Asked(calls), OwnResult(calls[1], group)), OwnResult(calls[0], alone))
  }

  lemma SwappedIsSettled(calls: seq<Call>, group: Job, alone: Job)
    requires |calls| == 2
    ensures Settled(Swapped(calls, group, alone))
  {
    var one := multiset{} + multiset{calls[0].id};
    assert IdsFrom(calls, 2) == multiset{};
    assert IdsFrom(calls, 1) == multiset{calls[1].id};
    assert IdsFrom(calls, 0) == one + multiset{calls[1].id};
    assert Settled(Start);
    assert Owes(Asked(calls), Ids(calls));
    AnswerOne(Asked(calls), OwnResult(calls[1], group), Ids(calls), one);
    AnswerOne(Swapped(calls, group, alone).front, OwnResult(calls[0], alone), one, multiset{});
  }

  /**
   * The group is submitted for the first call and collected for the second one. Each call gets one result, and
   * the turn is settled, but the second call has the result of the job of the first one.
   */
  method SwappedRun(x: string, y: string, outcomes: seq<Job>, alone: Job) returns (run: TurnRun)
    requires |outcomes| == 2
    ensures fresh(run) && run.Valid() && run.state == MODEL && |run.requests| == 2
    ensures run.requests[1].log == Swapped(Pair(x, y), outcomes[0], alone) && Settled(run.requests[1].log)
  {
    var calls, read := Pair(x, y), [false, true];
    run := AsksFirst(calls);
    FirstJob(outcomes);
    GroupLog(calls, Asked(calls), read, run.exclusiveIndex, JobsOf(outcomes, [true, false], 2));
    assert Next(read, 0, 2) == 0;
    Collects(run, calls, Asked(calls), JobsOf(outcomes, [true, false], 2), read, read, 0);
    var after := Then(Asked(calls), OwnResult(calls[1], outcomes[0]));
    OneResult(after, calls, read, 0, [alone], 2);
    assert Next(read, 1, 2) == 2;
    CollectsLast(run, calls, after, [alone], read, read);
    SwappedIsSettled(calls, outcomes[0], alone);
  }

  // ---------------------------------------------------------------- turns that end with a call unanswered

  /** An interrupt while the parallel group runs: the exclusive call that was to come has no result. */
  method InterruptedRun(t: string, x: string, jobs: seq<Job>) returns (run: TurnRun)
    ensures fresh(run) && run.Valid() && Ended(run.state) && run.result.Kept? && run.result.cause == "interrupted"
    ensures ResultIds(run.result.log) == multiset{x} && CallIds(run.result.log) == multiset{t, x}
    ensures !Settled(run.result.log)
  {
    var calls, read := Pair(t, x), [false, true];
    run := Asks(calls, true);
    AskedIds(calls);
    GroupIds(calls, Asked(calls), read, run.exclusiveIndex, jobs);
    run.CollectTools(jobs, read, false, true, Env([], []));
    assert |ResultIds(run.result.log)| == 1 && |CallIds(run.result.log)| == 2;
    NotOnce(run.result.log);
  }

  /** The first open round holds two calls. */
  ghost predicate Holds(run: TurnRun, calls: seq<Call>)
    reads run
  {
    && |calls| == 2 && run.Valid() && run.state == GATE && !run.gateAfter && run.gateItems == calls && run.clean
    && run.gateOpen && run.gateId == 1 && run.relays == [] && !run.cancelRequested
  }

  method AsksGate(calls: seq<Call>) returns (run: TurnRun)
    requires |calls| == 2
    ensures fresh(run) && Holds(run, calls) && run.gate == Fresh(2)
  {
    run := Begins(true);
    run.ProcessModel(Calls(calls), Env([], []));
  }

  method DeniesFirst(run: TurnRun, ghost calls: seq<Call>)
    requires Holds(run, calls) && run.gate == Fresh(2)
    modifies run
    ensures Holds(run, calls) && |run.gate| == 2 && Denied(run.gate[0]) && !Denied(run.gate[1])
  {
    run.Deny(1, 0, "no", false);
  }

  /** A cancel after the gate denied the first of two calls: the denied one has no result. */
  method DeniedRun(t: string, x: string) returns (run: TurnRun)
    ensures fresh(run) && run.Valid() && Ended(run.state) && run.result.Kept? && run.result.cause == "interrupted"
    ensures Owes(run.result.log, multiset{t}) && !Settled(run.result.log)
  {
    var calls := Pair(t, x);
    run := AsksGate(calls);
    DeniesFirst(run, calls);
    DeniedIds(calls, run.gate);
    run.Cancel();
    OwesOther(run.result.log, t);
  }

  lemma DeniedIds(calls: seq<Call>, gate: seq<Answer>)
    requires |gate| == |calls| == 2 && Denied(gate[0]) && !Denied(gate[1])
    ensures DeniedFrom(calls, gate, true, 0, multiset{}) == multiset{calls[0].id}
  {
    assert DeniedFrom(calls, gate, true, 2, multiset{}) == multiset{};
    assert DeniedFrom(calls, gate, true, 1, multiset{}) == multiset{};
  }

  lemma OwesOther(log: Log, id: string)
    requires Owes(log, multiset{id})
    ensures !Settled(log)
  {
    assert id in multiset{id};
    if Settled(log) {
      OwesOnlyOne(log, multiset{}, multiset{id});
    }
  }
}
