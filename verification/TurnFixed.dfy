/** Runs in which every scan reads each call by one function of the call. */
module TurnFixed {
  import opened TurnLog
  import opened TurnCalls
  import opened TurnReads
  import opened TurnGate
  import opened TurnAccounts
  import opened TurnRuns

  /** What a scan reads of calls by a function. */
  function ReadBy(eligible: Call -> bool, calls: seq<Call>): (read: Reads)
    ensures forall i :: 0 <= i < |calls| ==> Parallel(read, i) == eligible(calls[i])
  {
    seq(|calls|, i requires 0 <= i < |calls| => eligible(calls[i]))
  }

  predicate ReadsAs(eligible: Call -> bool, calls: seq<Call>, read: Reads) {
    forall i :: 0 <= i < |calls| ==> Parallel(read, i) == eligible(calls[i])
  }

  predicate ScansBy(eligible: Call -> bool, calls: seq<Call>, env: Submit) {
    ReadsAs(eligible, calls, env.dispatch) && ReadsAs(eligible, calls, env.scan)
  }

  function Scanning(env: Submit, eligible: Call -> bool, calls: seq<Call>): (scanning: Submit)
    ensures ScansBy(eligible, calls, scanning) && scanning.input == env.input
  {
    env.(dispatch := ReadBy(eligible, calls), scan := ReadBy(eligible, calls))
  }

  /** The calls that go on from a round of the gate. */
  function Released(run: TurnRun): seq<Call>
    reads run
  {
    if run.gateAfter || |run.gate| != |run.gateItems| then run.toolCalls
    else Allowed(run.gateItems, run.gate, |run.gate|)
  }

  /** Up to a position the calls have one result each; behind it those of the group have theirs. */
  ghost predicate ReadTo(calls: seq<Call>, rs: seq<Reading>, eligible: Call -> bool, next: nat) {
    && |rs| == |calls|
    && (forall i :: 0 <= i < |calls| ==> rs[i].group == eligible(calls[i]))
    && (forall i :: 0 <= i < next && i < |calls| ==> rs[i].Agrees())
  }

  ghost predicate AllAgreed(requests: seq<Request>) {
    forall i :: 0 <= i < |requests| ==> requests[i].agreed
  }

  /** All responses so far read their calls alike, and so does the one that runs. */
  ghost predicate Steady(run: TurnRun, eligible: Call -> bool)
    reads run
  {
    && run.clean && Singly(run.readings) && AllAgreed(run.requests)
    && match run.state
       case TOOLS =>
         run.groupParallel || (run.exclusiveIndex < |run.toolCalls| && !eligible(run.toolCalls[run.exclusiveIndex])
                               && ReadTo(run.toolCalls, run.readings, eligible, run.exclusiveIndex))
       case GATE => run.gateAfter ==> ReadTo(run.toolCalls, run.readings, eligible, run.gateNext)
       case _ => true
  }

  // ---------------------------------------------------------------- what the run does keeps it steady

  /** The scan stops at a call outside the group with each call before it answered once, or at the end. */
  ghost predicate Goes(calls: seq<Call>, rs: seq<Reading>, eligible: Call -> bool, i: nat) {
    if i < |calls| then
      !eligible(calls[i]) && |rs| == |calls| && ReadTo(calls, rs[i := rs[i].(scan := false)], eligible, i)
    else AllAgree(rs)
  }

  /** Passing over the calls of the group. */
  lemma PassesGroup(calls: seq<Call>, rs: seq<Reading>, eligible: Call -> bool, start: nat, read: Reads)
    requires ReadTo(calls, rs, eligible, start) && NotPassed(rs, start) && start <= |calls|
    requires ReadsAs(eligible, calls, read)
    ensures Goes(calls, rs, eligible, Next(read, start, |calls|))
  {
    var i := Next(read, start, |calls|);
    forall j | start <= j < i && j < |calls| ensures rs[j].Agrees() {
      assert Parallel(read, j);
    }
  }

  /** The readings after a group was collected. */
  lemma CollectedReads(run: TurnRun, read: Reads, eligible: Call -> bool)
    requires run.Valid() && run.state == TOOLS && Steady(run, eligible) && ReadsAs(eligible, run.toolCalls, read)
    ensures run.NextStart() <= |run.toolCalls| && Singly(run.Collected(read))
    ensures ReadTo(run.toolCalls, run.Collected(read), eligible, run.NextStart())
    ensures NotPassed(run.Collected(read), run.NextStart())
  {
  }

  /** Where the run goes with the readings after a group was collected. */
  lemma CollectedGoes(run: TurnRun, read: Reads, eligible: Call -> bool, env: Submit)
    requires run.Valid() && run.state == TOOLS && Steady(run, eligible) && ReadsAs(eligible, run.toolCalls, read)
    requires ScansBy(eligible, run.toolCalls, env)
    ensures var rs := run.Collected(read);
            && Singly(rs) && ReadTo(run.toolCalls, rs, eligible, run.NextStart())
            && Goes(run.toolCalls, rs, eligible, Next(env.scan, run.NextStart(), |run.toolCalls|))
  {
    CollectedReads(run, read, eligible);
    PassesGroup(run.toolCalls, run.Collected(read), eligible, run.NextStart(), env.scan);
  }

  /** Starting with calls, of which none runs in the group. */
  lemma StartsAlone(calls: seq<Call>, eligible: Call -> bool, env: Submit)
    requires ScansBy(eligible, calls, env)
    ensures (forall i :: 0 <= i < |calls| ==> !Parallel(env.dispatch, i)) ==>
              Goes(calls, Unread(|calls|), eligible, Next(env.scan, 0, |calls|))
  {
    if forall i :: 0 <= i < |calls| ==> !Parallel(env.dispatch, i) {
      forall i | 0 <= i < |calls| ensures !eligible(calls[i]) {
        assert !Parallel(env.dispatch, i);
      }
      PassesGroup(calls, Unread(|calls|), eligible, 0, env.scan);
    }
  }

  /** A response of the model whose calls are read by the function. */
  method StepModel(run: TurnRun, response: ModelResult, env: Submit, eligible: Call -> bool)
    requires run.Valid() && Steady(run, eligible) && AllInput(env.input)
    requires response.Calls? ==> ScansBy(eligible, response.calls, env)
    modifies run
    ensures run.Valid() && Steady(run, eligible)
  {
    if run.state == MODEL && response.Calls? {
      StepCalls(run, response.calls, env, eligible);
    } else {
      run.Handle(ModelDone(response, env));
    }
  }

  method StepCalls(run: TurnRun, calls: seq<Call>, env: Submit, ghost eligible: Call -> bool)
    requires run.Valid() && run.state == MODEL && Steady(run, eligible) && AllInput(env.input)
    requires ScansBy(eligible, calls, env)
    modifies run
    ensures run.Valid() && Steady(run, eligible)
  {
    if run.gated {
      run.ProcessModel(Calls(calls), env);
    } else {
      StartsAlone(calls, eligible, env);
      run.ProcessModel(Calls(calls), env);
    }
  }

  method StepTools(run: TurnRun, jobs: seq<Job>, askAbort: bool, interrupted: bool, env: Submit,
                   eligible: Call -> bool)
    requires run.Valid() && Steady(run, eligible) && AllInput(env.input) && ScansBy(eligible, run.toolCalls, env)
    modifies run
    ensures run.Valid() && Steady(run, eligible)
  {
    var read := ReadBy(eligible, run.toolCalls);
    if run.state == TOOLS {
      StepCollect(run, jobs, read, askAbort, interrupted, env, eligible);
    } else {
      run.Handle(ToolsDone(jobs, read, askAbort, interrupted, env));
    }
  }

  method StepCollect(run: TurnRun, jobs: seq<Job>, read: Reads, askAbort: bool, interrupted: bool, env: Submit,
                     ghost eligible: Call -> bool)
    requires run.Valid() && run.state == TOOLS && Steady(run, eligible) && AllInput(env.input)
    requires ReadsAs(eligible, run.toolCalls, read) && ScansBy(eligible, run.toolCalls, env)
    modifies run
    ensures run.Valid() && Steady(run, eligible)
  {
    CollectedGoes(run, read, eligible, env);
    run.CollectTools(jobs, read, askAbort, interrupted, env);
  }

  method StepRound(run: TurnRun, env: Submit, eligible: Call -> bool)
    requires run.Valid() && Steady(run, eligible) && AllInput(env.input) && ScansBy(eligible, Released(run), env)
    modifies run
    ensures run.Valid() && Steady(run, eligible)
  {
    if run.state != GATE || run.gatePending != 0 {
      run.Handle(RoundDue(env));
    } else if run.gateAfter {
      StepAfter(run, env, eligible);
    } else {
      StepBefore(run, env, eligible);
    }
  }

  method StepAfter(run: TurnRun, env: Submit, eligible: Call -> bool)
    requires run.Valid() && Steady(run, eligible) && AllInput(env.input) && ScansBy(eligible, run.toolCalls, env)
    requires run.state == GATE && run.gatePending == 0 && run.gateAfter
    modifies run
    ensures run.Valid() && Steady(run, eligible)
  {
    PassesGroup(run.toolCalls, run.readings, eligible, run.gateNext, env.scan);
    run.ResolveAfter(env);
  }

  method StepBefore(run: TurnRun, env: Submit, eligible: Call -> bool)
    requires run.Valid() && Steady(run, eligible) && AllInput(env.input) && ScansBy(eligible, Released(run), env)
    requires run.state == GATE && run.gatePending == 0 && !run.gateAfter
    modifies run
    ensures run.Valid() && Steady(run, eligible)
  {
    StartsAlone(Released(run), eligible, env);
    run.ResolveBefore(env);
  }

  /** Something happens, and every scan of the calls is by the function. */
  method Step(run: TurnRun, s: Stimulus, eligible: Call -> bool)
    requires run.Valid() && Steady(run, eligible) && s.Proper()
    modifies run
    ensures run.Valid() && Steady(run, eligible)
  {
    match s
    case ModelDone(response, env) =>
      StepModel(run, response, if response.Calls? then Scanning(env, eligible, response.calls) else env, eligible);
    case ToolsDone(jobs, _, askAbort, interrupted, env) =>
      StepTools(run, jobs, askAbort, interrupted, Scanning(env, eligible, run.toolCalls), eligible);
    case RoundDue(env) => StepRound(run, Scanning(env, eligible, Released(run)), eligible);
    case _ => run.Handle(s);
  }

  /**
   * Whatever happens in whatever order, when every scan reads the calls by one function of the call, each model
   * request is made with exactly one result for each call, and what the run leaves answers no call twice.
   */
  method Play(run: TurnRun, stimuli: seq<Stimulus>, eligible: Call -> bool)
    requires run.Valid() && run.state == NEW && forall s :: s in stimuli ==> s.Proper()
    modifies run
    ensures run.Valid() && Steady(run, eligible)
    ensures forall i :: 0 <= i < |run.requests| ==>
              Settled(run.requests[i].log) && ResultIds(run.requests[i].log) == CallIds(run.requests[i].log)
    ensures |run.requests| > 0 ==> |run.requests| <= run.maxToolIterations
    ensures run.result.Kept? ==> ResultIds(run.result.log) <= CallIds(run.result.log)
  {
    for i := 0 to |stimuli|
      invariant run.Valid() && Steady(run, eligible)
    {
      Step(run, stimuli[i], eligible);
    }
    forall i | 0 <= i < |run.requests|
      ensures Settled(run.requests[i].log) && ResultIds(run.requests[i].log) == CallIds(run.requests[i].log)
    {
      ExactlyOneResult(run.requests[i].log);
    }
    if run.result.Kept? {
      run.EndedIsSound();
      AtMostOneResult(run.result.log);
    }
  }
}
