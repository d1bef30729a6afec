/** One run of a turn: the model, its tool calls, and the gate that decides on them. */
module TurnRuns {
  import opened TurnLog
  import opened TurnCalls
  import opened TurnReads
  import opened TurnGate
  import opened TurnAccounts

  datatype RunState = NEW | MODEL | TOOLS | GATE | DONE | FAILED

  // What a run that ended leaves: the messages it keeps with a cause, a null, or nothing.
  datatype Outcome = NoOutcome | Kept(log: Log, cause: string) | NullTurn | Invalid(cause: string)

  // What the environment decides while the next calls are chosen or the next model request is made: how the
  // scans read the calls, and what can be made and sent.
  datatype Submit = Submit(abort: bool, costReached: bool, input: Log, inputOk: bool, groupOk: bool, stepOk: bool,
                           dispatch: Reads, scan: Reads)

  datatype ModelResult = RequestFailed(cause: string) | Final | Calls(calls: seq<Call>) | Neither

  // The calls of the response that runs, and where the run is in them.
  datatype Place = Place(calls: seq<Call>, readings: seq<Reading>, groupParallel: bool, exclusiveIndex: nat,
                         gateAfter: bool, gateNext: nat)

  datatype Progress = Progress(state: RunState, turn: Log, settled: Log, requests: seq<Request>,
                               readings: seq<Reading>, clean: bool, iteration: nat, turnEndRequested: bool)

  const DENIED := "the tool call was denied"
  const KEPT_CAUSE := "the turn stopped on an error; the steps before it are kept"

  /** What a turn that failed leaves: what was settled, or nothing when that is the turn as it began. */
  function Aborted(settled: Log): Outcome {
    if settled != Start then Kept(settled, KEPT_CAUSE) else Invalid("")
  }

  /** What a turn that stopped leaves: all that it has. */
  function Stopped(turn: Log, cause: string): Outcome {
    if turn != Start then Kept(turn, cause) else Invalid(cause)
  }

  /** The cause of a turn that an answer of the gate stopped. */
  function StopCause(text: string): string {
    if text != "" then text else "a tool gate stopped the turn"
  }

  function DenyText(message: string): string {
    if message == "" then DENIED else message
  }

  predicate TransitionValid(from: RunState, to: RunState) {
    match from
    case NEW => to == MODEL || to == FAILED
    case MODEL | TOOLS | GATE => to != NEW
    case DONE | FAILED => false
  }

  predicate Ended(state: RunState) {
    state == DONE || state == FAILED
  }

  // What can happen to a run, in any order.
  datatype Stimulus =
    | Begin(env: Submit)
    | ModelDone(response: ModelResult, env: Submit)
    | ToolsDone(jobs: seq<Job>, read: Reads, askAbort: bool, interrupted: bool, env: Submit)
    | RoundDue(env: Submit)
    | AllowCall(id: nat, index: nat, args: Edit)
    | DenyCall(id: nat, index: nat, message: string, stop: bool)
    | CallDone(id: nat, index: nat, context: string, stop: bool)
    | RelayAsked(after: bool, branch: string, rpcId: int)
    | EndRequested
    | CancelAsked
  {
    /** The run waits for it. */
    predicate IsDue() {
      Begin? || ModelDone? || ToolsDone? || RoundDue?
    }

    predicate Proper() {
      IsDue() ==> AllInput(env.input)
    }

    predicate IsAnswer() {
      AllowCall? || DenyCall? || CallDone?
    }
  }

  class TurnRun {
    const maxToolIterations: int
    const gated: bool

    // The messages of this run: the turn now, and up to the last model request.
    var turn: Log
    var settled: Log
    var toolCalls: seq<Call>
    var state: RunState
    var result: Outcome
    var exclusiveIndex: nat
    var iteration: nat
    var groupParallel: bool
    var cancelRequested: bool
    var turnEndRequested: bool

    // The open round of the gate, and the rounds that sub-agents asked for.
    var gateSeq: nat
    var gateId: nat
    var gateOpen: bool
    var gateItems: seq<Call>
    var gate: seq<Answer>
    var gatePending: nat
    var gateNext: nat
    var gateAfter: bool
    var relays: seq<Relay>
    var relayed: seq<RelayAnswer>

    // The turn at each model request of the run; what the scans read of the calls that run; whether all
    // responses that are over read their calls alike, and whether the ids of calls differ.
    ghost var requests: seq<Request>
    ghost var readings: seq<Reading>
    ghost var clean: bool
    ghost var distinct: bool

    // The rounds that are over, of this run and relayed.
    ghost var ended: set<nat>

    ghost predicate Rounds()
      reads `gateSeq, `gateId, `gateOpen, `gateItems, `gate, `gatePending, `relays
    {
      && gatePending == Unanswered(gate)
      && |gate| == |gateItems|
      && (gateOpen ==> gateId <= gateSeq)
      && DistinctRelays(relays)
      && (forall i :: 0 <= i < |relays| ==> relays[i].id <= gateSeq && (gateOpen ==> relays[i].id != gateId))
    }

    /** A round that is over has an id that was given, and is not open again. */
    ghost predicate Past()
      reads `gateSeq, `gateId, `gateOpen, `relays, `ended
    {
      && (forall id :: id in ended ==> id <= gateSeq && (gateOpen ==> id != gateId))
      && (forall i :: 0 <= i < |relays| ==> relays[i].id !in ended)
    }

    /** What the requests so far show, and the turn at the last of them. */
    ghost predicate History()
      reads `settled, `requests, `clean
    {
      Shown(requests, maxToolIterations) && (clean ==> Settled(settled))
    }

    ghost predicate Exclusive()
      reads `toolCalls, `exclusiveIndex, `readings
    {
      && exclusiveIndex < |toolCalls| == |readings|
      && !readings[exclusiveIndex].scan && readings[exclusiveIndex].collect
      && NotPassed(readings, exclusiveIndex + 1)
    }

    /** A run that goes on: its accounts and how many requests it made, by state. */
    ghost predicate Running()
      reads this
    {
      && result == NoOutcome
      && (state == NEW ==> turn == Start && requests == [] && readings == [] && iteration == 0 && clean)
      && (state != NEW ==> |requests| == iteration + 1)
      && match state
         case TOOLS =>
           && Open(clean, distinct, turn, toolCalls, readings)
           && if groupParallel then readings == Unread(|toolCalls|) else Exclusive()
         case GATE =>
           if gateAfter then
             && gateNext <= |toolCalls| && Open(clean, distinct, turn, toolCalls, readings)
             && NotPassed(readings, gateNext)
           else Held(clean, distinct, turn, gateItems)
         case _ => Closed(clean, distinct, turn)
    }

    /** A run that ended: the log that it leaves answers no call twice, unless a call was read for it. */
    ghost predicate Over()
      reads `state, `result, `clean, `readings
    {
      && result != NoOutcome && (result.Invalid? ==> state == FAILED)
      && (result.Kept? && clean && Singly(readings) ==> Sound(result.log))
    }

    ghost predicate Valid()
      reads this
    {
      && Rounds() && Past() && History()
      && (gateOpen <==> state == GATE)
      && if Ended(state) then Over() else Running()
    }

    /** A new run, with the counter and the relayed rounds that the context has. */
    constructor (maxToolIterations: int, gated: bool, gateSeq: nat, relays: seq<Relay>, turnEndRequested: bool)
      requires DistinctRelays(relays) && forall i :: 0 <= i < |relays| ==> relays[i].id <= gateSeq
      ensures Valid() && state == NEW && turn == Start && requests == [] && clean && distinct && ended == {}
      ensures this.maxToolIterations == maxToolIterations && this.gated == gated
      ensures this.gateSeq == gateSeq && this.relays == relays && this.turnEndRequested == turnEndRequested
      ensures iteration == 0 && !cancelRequested && !gateOpen
    {
      this.maxToolIterations, this.gated := maxToolIterations, gated;
      turn, settled, toolCalls, requests, readings := Start, Start, [], [], [];
      state, result, clean, distinct, ended := NEW, NoOutcome, true, true, {};
      exclusiveIndex, iteration, groupParallel, cancelRequested := 0, 0, false, false;
      this.turnEndRequested := turnEndRequested;
      this.gateSeq, gateId, gateOpen, gateItems, gate := gateSeq, 0, false, [], [];
      gatePending, gateNext, gateAfter := 0, 0, false;
      this.relays, relayed := relays, [];
    }

    // ------------------------------------------------------------ the ends of a run

    method Transition(to: RunState) returns (ok: bool)
      modifies `state
      ensures ok == TransitionValid(old(state), to)
      ensures ok <==> (old(state) == NEW && to in {MODEL, FAILED}) || (old(state) in {MODEL, TOOLS, GATE} && to != NEW)
      ensures state == if ok then to else if Ended(old(state)) then old(state) else FAILED
    {
      ok := TransitionValid(state, to);
      if ok {
        state := to;
      } else if !Ended(state) {
        state := FAILED;
      }
    }

    /** Between two states: no round is open. */
    ghost predicate Between()
      reads this
    {
      Rounds() && Past() && History() && !gateOpen && !Ended(state) && result == NoOutcome
    }

    /** End a turn that failed. */
    method AbortOutput()
      requires Between()
      modifies `state, `result
      ensures Valid() && EndsWith(Aborted(settled), old(state) == NEW)
      ensures if settled != Start then
                result == Kept(settled, "the turn stopped on an error; the steps before it are kept")
              else result == Invalid("") && state == FAILED
      ensures result.Kept? && old(state) != NEW ==> state == DONE
    {
      if settled != Start {
        result := Kept(settled, KEPT_CAUSE);
        var _ := Transition(DONE);
      } else {
        result := Invalid("");
        var _ := Transition(FAILED);
      }
    }

    /** End a turn with what it has. */
    method Stop(cause: string)
      requires Between() && (clean && Singly(readings) ==> Sound(turn))
      modifies `state, `result
      ensures Valid() && EndsWith(Stopped(turn, cause), old(state) == NEW)
      ensures if turn != Start then result == Kept(turn, cause) else result == Invalid(cause) && state == FAILED
      ensures result.Kept? && old(state) != NEW ==> state == DONE
    {
      if turn != Start {
        result := Kept(turn, cause);
        var _ := Transition(DONE);
      } else {
        result := Invalid(cause);
        var _ := Transition(FAILED);
      }
    }

    method Finish(outcome: Outcome)
      requires Between() && outcome != NoOutcome
      requires outcome.Kept? && clean && Singly(readings) ==> Sound(outcome.log)
      modifies `state, `result
      ensures Valid() && EndsWith(outcome, old(state) == NEW)
    {
      result := outcome;
      var _ := Transition(if outcome.Invalid? then FAILED else DONE);
    }

    /** The run ended with what it leaves; it failed where that is nothing, or where it never began. */
    predicate EndsWith(outcome: Outcome, never: bool)
      reads `state, `result
    {
      result == outcome && state == if outcome.Invalid? || never then FAILED else DONE
    }

    // ------------------------------------------------------------ model requests

    /** From where it was the run asked the model, with the input that came in the meantime, or it ended there. */
    ghost predicate Requests(was: Progress, env: Submit)
      reads this
    {
      && turn == Cat(was.turn, env.input) && turnEndRequested == was.turnEndRequested
      && if !env.inputOk then EndsWith(Aborted(was.turn), was.state == NEW) && requests == was.requests
         else if !env.groupOk then
           && EndsWith(Stopped(turn, "the turn stopped before the model request"), was.state == NEW)
           && requests == was.requests
         else
           && requests == was.requests + [Request(turn, clean, distinct)]
           && if env.stepOk then state == MODEL
              else EndsWith(Stopped(turn, "the turn stopped before the model request"), false)
    }

    /** From where it was the run made the next request, unless something ended the turn before. */
    ghost predicate Submits(was: Progress, env: Submit)
      reads this
    {
      && settled == was.turn && readings == was.readings && clean == was.clean && iteration == was.iteration
      && (result.Kept? && clean ==> Settled(result.log)) && (state == MODEL || Ended(state))
      && (requests == was.requests || requests == was.requests + [Request(turn, clean, distinct)])
      && if env.abort then EndsWith(Aborted(was.turn), was.state == NEW) && requests == was.requests
         else if was.turnEndRequested then
           EndsWith(Kept(was.turn, ""), was.state == NEW) && requests == was.requests && !turnEndRequested
         else if iteration >= maxToolIterations then
           EndsWith(Stopped(was.turn, "the tool loop reached its limit"), was.state == NEW) && requests == was.requests
         else if env.costReached then
           EndsWith(Stopped(was.turn, "the cost reached its limit"), was.state == NEW) && requests == was.requests
         else Requests(was, env)
    }

    /** Send the request, with the input that came in the meantime. */
    method RequestModel(env: Submit)
      requires Between() && Closed(clean, distinct, turn) && settled == turn
      requires |requests| == iteration < maxToolIterations && AllInput(env.input)
      modifies `turn, `state, `result, `requests
      ensures Valid() && Requests(old(Now()), env)
      ensures Closed(clean, distinct, turn) && (result.Kept? && clean ==> Settled(result.log))
    {
      InputClosed(clean, distinct, turn, env.input);
      turn := Cat(turn, env.input);
      if env.inputOk {
        AskModel(env);
      } else {
        AbortOutput();
      }
    }

    method AskModel(env: Submit)
      requires Between() && Closed(clean, distinct, turn) && |requests| == iteration < maxToolIterations
      modifies `state, `result, `requests
      ensures Valid() && (result.Kept? && clean ==> Settled(result.log))
      ensures requests == if env.groupOk then old(requests) + [Request(turn, clean, distinct)] else old(requests)
      ensures if env.groupOk && env.stepOk then state == MODEL
              else EndsWith(Stopped(turn, "the turn stopped before the model request"),
                            old(state) == NEW && !env.groupOk)
    {
      if env.groupOk {
        Record();
      }
      if !env.groupOk || !env.stepOk {
        Stop("the turn stopped before the model request");
      }
    }

    /** The turn waits for the model. */
    method Record()
      requires Between() && Closed(clean, distinct, turn) && |requests| == iteration < maxToolIterations
      modifies `state, `requests
      ensures Valid() && state == MODEL && requests == old(requests) + [Request(turn, clean, distinct)]
    {
      var _ := Transition(MODEL);
      OneMoreRequest(requests, Request(turn, clean, distinct), maxToolIterations);
      requests := requests + [Request(turn, clean, distinct)];
    }

    /** Whether the next model request is made, or the turn ends here. */
    predicate Proceeds(env: Submit)
      reads `turnEndRequested, `iteration
    {
      !env.abort && !turnEndRequested && iteration < maxToolIterations && !env.costReached
    }

    /** Make the next model request, unless the turn ends here. */
    method SubmitModel(env: Submit)
      requires Between() && Closed(clean, distinct, turn) && |requests| == iteration
      requires AllInput(env.input)
      modifies `turn, `settled, `state, `result, `turnEndRequested, `requests
      ensures Valid() && Submits(old(Now()), env)
    {
      settled := turn;
      if Proceeds(env) {
        RequestModel(env);
      } else {
        EndHere(env);
      }
    }

    /** End the turn where no further request is made. */
    method EndHere(env: Submit)
      requires Between() && Closed(clean, distinct, turn) && settled == turn && !Proceeds(env)
      modifies `state, `result, `turnEndRequested
      ensures Valid() && Submits(old(Now()), env)
    {
      if env.abort {
        AbortOutput();
      } else if turnEndRequested {
        turnEndRequested := false;
        Finish(Kept(turn, ""));
      } else if iteration >= maxToolIterations {
        Stop("the tool loop reached its limit");
      } else {
        Stop("the cost reached its limit");
      }
    }

    /** Run the exclusive call at index, unless its job cannot be made. */
    method RunExclusive(index: nat, groupOk: bool)
      requires Between() && state != NEW && |requests| == iteration + 1
      requires Open(clean, distinct, turn, toolCalls, readings) && index < |toolCalls| && NotPassed(readings, index)
      modifies `state, `result, `exclusiveIndex, `groupParallel, `readings
      ensures Valid() && index < |old(readings)|
      ensures Now() == old(Now().(readings := readings[index := readings[index].(scan := false)])).(state := state)
      ensures if groupOk then state == TOOLS && !groupParallel && exclusiveIndex == index
              else EndsWith(Aborted(settled), false)
      ensures result.Kept? ==> result.log == settled
    {
      TakeExclusive(index);
      if groupOk {
        var _ := Transition(TOOLS);
      } else {
        AbortOutput();
      }
    }

    /** The scan came to an exclusive call. */
    method TakeExclusive(index: nat)
      requires Between() && Open(clean, distinct, turn, toolCalls, readings)
      requires index < |toolCalls| && NotPassed(readings, index)
      modifies `exclusiveIndex, `groupParallel, `readings
      ensures Between() && Open(clean, distinct, turn, toolCalls, readings) && Exclusive()
      ensures index < |old(readings)| && !groupParallel && exclusiveIndex == index
      ensures Now() == old(Now().(readings := readings[index := readings[index].(scan := false)]))
    {
      StopOpen(clean, distinct, turn, toolCalls, readings, index);
      readings := readings[index := readings[index].(scan := false)];
      exclusiveIndex := index;
      groupParallel := false;
    }

    /** Run the calls that this scan reads as parallel as one group. */
    method RunParallel(groupOk: bool)
      requires Between() && state != NEW && |requests| == iteration + 1
      requires Open(clean, distinct, turn, toolCalls, readings) && readings == Unread(|toolCalls|)
      modifies `state, `result, `groupParallel
      ensures Valid()
      ensures if groupOk then state == TOOLS && groupParallel else EndsWith(Aborted(settled), false)
      ensures result.Kept? ==> result.log == settled
    {
      groupParallel := true;
      if groupOk {
        var _ := Transition(TOOLS);
      } else {
        AbortOutput();
      }
    }

    /** The response is over: the turn goes to the model again. */
    method EndResponse(env: Submit)
      requires Between() && Open(clean, distinct, turn, toolCalls, readings) && state != NEW
      requires |requests| == iteration + 1 && AllInput(env.input)
      modifies `turn, `settled, `state, `result, `turnEndRequested, `requests, `iteration, `clean
      ensures Valid()
      ensures Submits(old(Now()).(clean := old(clean) && AllAgree(readings), iteration := old(iteration) + 1), env)
    {
      CloseResponse();
      SubmitModel(env);
    }

    /** No call of the response is left. */
    method CloseResponse()
      requires Between() && Open(clean, distinct, turn, toolCalls, readings) && |requests| == iteration + 1
      modifies `iteration, `clean
      ensures Between() && Closed(clean, distinct, turn) && |requests| == iteration
      ensures clean == (old(clean) && AllAgree(readings)) && iteration == old(iteration) + 1
    {
      OpenCloses(clean, distinct, turn, toolCalls, readings);
      clean := clean && AllAgree(readings);
      iteration := iteration + 1;
    }

    ghost function Calling(): Place
      reads `toolCalls, `readings, `groupParallel, `exclusiveIndex, `gateAfter, `gateNext
    {
      Place(toolCalls, readings, groupParallel, exclusiveIndex, gateAfter, gateNext)
    }

    /** Where the run is in its responses and requests. */
    ghost function Now(): Progress
      reads `state, `turn, `settled, `requests, `readings, `clean, `iteration, `turnEndRequested
    {
      Progress(state, turn, settled, requests, readings, clean, iteration, turnEndRequested)
    }

    /**
     * From where it was the run went on with the exclusive calls from a position on, as the scan reads them: with
     * the next one, or with none left the response was over and the model was asked again.
     */
    ghost predicate Resumes(was: Progress, start: nat, env: Submit)
      reads this
    {
      var i, rs := Next(env.scan, start, |toolCalls|), was.readings;
      && (result.Kept? && clean ==> Settled(result.log))
      && if i < |toolCalls| then
           && i < |rs| && Now() == was.(readings := rs[i := rs[i].(scan := false)], state := state)
           && if env.groupOk then state == TOOLS && !groupParallel && exclusiveIndex == i
              else EndsWith(Aborted(was.settled), false)
         else Submits(was.(clean := was.clean && AllAgree(rs), iteration := was.iteration + 1), env)
    }

    /** Run the next exclusive call from start on, as this scan reads the calls, or end the response. */
    method SubmitExclusive(start: nat, env: Submit)
      requires start <= |toolCalls| && state != NEW && Between() && |requests| == iteration + 1
      requires Open(clean, distinct, turn, toolCalls, readings) && NotPassed(readings, start)
      requires AllInput(env.input)
      modifies `turn, `settled, `state, `result, `turnEndRequested, `requests, `exclusiveIndex, `groupParallel,
               `iteration, `readings, `clean
      ensures Valid() && Resumes(old(Now()), start, env)
    {
      var i := NextExclusive(toolCalls, env.scan, start);
      if i < |toolCalls| {
        RunExclusive(i, env.groupOk);
      } else {
        EndResponse(env);
      }
    }

    // ------------------------------------------------------------ rounds of the tool gate

    /** Leave the round that is open, if one is; its id does not come again. */
    method GateClear()
      requires Rounds() && Past()
      modifies `gate, `gateItems, `gatePending, `gateOpen, `ended
      ensures Rounds() && Past() && !gateOpen
      ensures ended == if old(gateOpen) then old(ended) + {gateId} else old(ended)
    {
      if gateOpen {
        ended := ended + {gateId};
      }
      gate, gateItems, gatePending, gateOpen := [], [], 0, false;
    }

    /** A round with a new id and a slot for each item; every slot waits for its answer. */
    method NewRound(items: seq<Call>, after: bool, next: nat)
      requires Rounds() && Past()
      modifies `gateSeq, `gateId, `gateOpen, `gateItems, `gate, `gatePending, `gateNext, `gateAfter
      ensures Rounds() && Past() && gateOpen && gateId == gateSeq == old(gateSeq) + 1
      ensures gateItems == items && gateAfter == after && gateNext == next && gatePending == |items|
      ensures gate == Fresh(|items|)
    {
      gate := Fresh(|items|);
      FreshRound(gate);
      gateItems, gatePending, gateAfter, gateNext := items, |items|, after, next;
      gateSeq := gateSeq + 1;
      gateId, gateOpen := gateSeq, true;
    }

    /** Wait for the gate with a slot for each item: before calls run, or once some have. */
    method GateOpen(items: seq<Call>, after: bool, next: nat)
      requires Between() && (state == MODEL || state == TOOLS) && |requests| == iteration + 1
      requires if after then
                 next <= |toolCalls| && Open(clean, distinct, turn, toolCalls, readings) && NotPassed(readings, next)
               else Held(clean, distinct, turn, items)
      modifies `state, `gateSeq, `gateId, `gateOpen, `gateItems, `gate, `gatePending, `gateNext, `gateAfter
      ensures Valid() && state == GATE && gateId == gateSeq == old(gateSeq) + 1
      ensures gateItems == items && gateAfter == after && gateNext == next && gate == Fresh(|items|)
    {
      NewRound(items, after, next);
      var _ := Transition(GATE);
    }

    /** Whether an answer names a slot of the open round that waits for one. */
    predicate Waits(id: nat, index: nat)
      reads `gateOpen, `gateId, `gate
    {
      gateOpen && gateId == id && index < |gate| && !gate[index].answered
    }

    /** Take the relayed round of an id and a kind out of the list, if there is one. */
    method TakeRelay(id: nat, after: bool) returns (found: bool, r: Relay)
      requires Rounds() && Past()
      modifies `relays, `ended
      ensures Rounds() && Past()
      ensures found == HasRelay(old(relays), id, after)
      ensures found ==> r in old(relays) && r.id == id && r.after == after && !HasRelay(relays, id, after)
      ensures forall x :: x in relays ==> x in old(relays)
      ensures !found ==> relays == old(relays)
      ensures ended == if found then old(ended) + {id} else old(ended)
    {
      var i := FindRelay(relays, id);
      if i < |relays| && relays[i].after == after {
        found, r := true, relays[i];
        RemovedRelay(relays, i);
        relays := RemoveAt(relays, i);
        ended := ended + {id};
      } else {
        found, r := false, Relay(id, after, "", 0);
      }
    }

    /** Keep the answer of a slot that waits for one. */
    method Answered(index: nat, a: Answer)
      requires Valid() && gateOpen && index < |gate| && !gate[index].answered && a.answered
      modifies `gate, `gatePending
      ensures Valid()
      ensures gate == old(gate)[index := a] && gatePending == old(gatePending) - 1
    {
      AnswerCounts(gate, index, a);
      gate := gate[index := a];
      gatePending := gatePending - 1;
    }

    /** Answer the relayed round of an id and a kind, if there is one: the answer goes to its sub-agent. */
    method AnswerRelay(id: nat, after: bool, reply: Reply) returns (found: bool)
      requires Valid()
      modifies `relays, `relayed, `ended
      ensures Valid()
      ensures found == HasRelay(old(relays), id, after)
      ensures Relayed(old(relays), relays, old(relayed), relayed, id, after, reply)
      ensures ended == if found then old(ended) + {id} else old(ended)
    {
      var r;
      found, r := TakeRelay(id, after);
      if found {
        relayed := relayed + [RelayAnswer(r, reply)];
      }
    }

    /** What an answer does to the rounds: it goes to the slot that waits for it, or to a relayed round, or nowhere. */
    twostate predicate Answers(id: nat, index: nat, after: bool, a: Answer, reply: Reply)
      reads this
    {
      var relayed_ := HasRelay(old(relays), id, after);
      && Relayed(old(relays), relays, old(relayed), relayed, id, after, reply)
      && ended == (if relayed_ then old(ended) + {id} else old(ended))
      && if !relayed_ && old(gateOpen && gateId == id && index < |gate| && !gate[index].answered)
            && gateAfter == after then
           gate == old(gate)[index := a] && gatePending == old(gatePending) - 1
         else gate == old(gate) && gatePending == old(gatePending)
    }

    /** The gate allows a call, with other arguments or the same. */
    method Allow(id: nat, index: nat, args: Edit)
      requires Valid()
      modifies `relays, `relayed, `gate, `gatePending, `ended
      ensures Valid()
      ensures Answers(id, index, false, Answer(true, true, false, args, ""), Reply(true, args, "", false))
    {
      var found := AnswerRelay(id, false, Reply(true, args, "", false));
      if !found && Waits(id, index) && !gateAfter {
        Answered(index, Answer(true, true, false, args, ""));
      }
    }

    /** The gate denies a call, and can stop the turn with it. */
    method Deny(id: nat, index: nat, message: string, stop: bool)
      requires Valid()
      modifies `relays, `relayed, `gate, `gatePending, `ended
      ensures Valid()
      ensures var text := if message == "" then "the tool call was denied" else message;
              Answers(id, index, false, Answer(true, false, stop, Same, text), Reply(false, Same, text, stop))
    {
      var text := DenyText(message);
      var found := AnswerRelay(id, false, Reply(false, Same, text, stop));
      if !found && Waits(id, index) && !gateAfter {
        Answered(index, Answer(true, false, stop, Same, text));
      }
    }

    /** The gate has seen the result of a call, and can add context or stop the turn. */
    method Done(id: nat, index: nat, context: string, stop: bool)
      requires Valid()
      modifies `relays, `relayed, `gate, `gatePending, `ended
      ensures Valid()
      ensures Answers(id, index, true, Answer(true, false, stop, Same, context), Reply(false, Same, context, stop))
    {
      var found := AnswerRelay(id, true, Reply(false, Same, context, stop));
      if !found && Waits(id, index) && gateAfter {
        Answered(index, Answer(true, false, stop, Same, context));
      }
    }

    /** Ask the gate for a sub-agent: its round has an id of its own. */
    method RelayRound(after: bool, branch: string, rpcId: int) returns (id: nat)
      requires Valid()
      modifies `gateSeq, `relays
      ensures Valid()
      ensures id == gateSeq == old(gateSeq) + 1
      ensures relays == [Relay(id, after, branch, rpcId)] + old(relays)
    {
      gateSeq := gateSeq + 1;
      id := gateSeq;
      relays := [Relay(id, after, branch, rpcId)] + relays;
    }

    // ------------------------------------------------------------ the calls of a response

    /** Some call is read as parallel by the first scan. */
    predicate HasGroup(read: Reads)
      reads `toolCalls
    {
      exists i :: 0 <= i < |toolCalls| && Parallel(read, i)
    }

    /** From where it was the run went on with the calls: the parallel ones as a group first, or the exclusive ones. */
    ghost predicate Dispatches(was: Progress, env: Submit)
      reads this
    {
      if HasGroup(env.dispatch) then
        && (result.Kept? && clean ==> Settled(result.log)) && Now() == was.(state := state)
        && if env.groupOk then state == TOOLS && groupParallel else EndsWith(Aborted(was.settled), false)
      else Resumes(was, 0, env)
    }

    /** Run the calls of the response: the parallel ones as a group first, or the first exclusive one. */
    method DispatchTools(env: Submit)
      requires Between() && state != NEW && |requests| == iteration + 1 && AllInput(env.input)
      requires Open(clean, distinct, turn, toolCalls, readings) && readings == Unread(|toolCalls|)
      modifies `turn, `settled, `state, `result, `turnEndRequested, `requests, `exclusiveIndex, `groupParallel,
               `iteration, `readings, `clean
      ensures Valid() && Dispatches(old(Now()), env)
    {
      var count := ParallelCount(toolCalls, env.dispatch);
      if count > 0 {
        RunParallel(env.groupOk);
      } else {
        SubmitExclusive(0, env);
      }
    }

    method GateFinish(cause: string)
      requires Rounds() && Past() && History() && !Ended(state) && result == NoOutcome
      requires clean && Singly(readings) ==> Sound(turn)
      modifies `state, `result, `gate, `gateItems, `gatePending, `gateOpen, `ended
      ensures Valid() && EndsWith(Kept(turn, cause), old(state) == NEW) && old(ended) <= ended
    {
      GateClear();
      Finish(Kept(turn, cause));
    }

    /** A round is over and the run goes on. */
    ghost predicate Leaving()
      reads this
    {
      && Rounds() && Past() && History() && state == GATE && gateOpen && result == NoOutcome
      && |requests| == iteration + 1
    }

    /** Leave the round and go on with the exclusive calls from next on. */
    method LeaveAfter(next: nat, env: Submit)
      requires Leaving() && next <= |toolCalls| && AllInput(env.input)
      requires Open(clean, distinct, turn, toolCalls, readings) && NotPassed(readings, next)
      modifies `gate, `gateItems, `gatePending, `gateOpen, `ended, `turn, `settled, `state, `result,
               `turnEndRequested, `requests, `exclusiveIndex, `groupParallel, `iteration, `readings, `clean
      ensures Valid() && Resumes(old(Now()), next, env)
      ensures Tracks()
    {
      GateClear();
      SubmitExclusive(next, env);
    }

    /** Leave the round and run the calls that it allowed; with none, make the next model request. */
    method LeaveBefore(calls: seq<Call>, env: Submit)
      requires Leaving() && Held(clean, distinct, turn, calls) && AllInput(env.input)
      modifies `gate, `gateItems, `gatePending, `gateOpen, `ended, `toolCalls, `turn, `settled, `state, `result,
               `turnEndRequested, `requests, `exclusiveIndex, `groupParallel, `iteration, `readings, `clean
      ensures Valid() && toolCalls == calls && Dispatches(old(Now()).(readings := Unread(|calls|)), env)
      ensures Tracks()
    {
      TakeAllowed(calls);
      RunCalls(env);
    }

    /** Leave the round with the calls that it allowed. */
    method TakeAllowed(calls: seq<Call>)
      requires Leaving() && Held(clean, distinct, turn, calls)
      modifies `gate, `gateItems, `gatePending, `gateOpen, `ended, `toolCalls, `readings
      ensures Between() && Open(clean, distinct, turn, toolCalls, readings)
      ensures toolCalls == calls && readings == Unread(|calls|) && old(ended) <= ended
    {
      GateClear();
      TakeCalls(calls);
    }

    method RunCalls(env: Submit)
      requires Between() && state != NEW && |requests| == iteration + 1 && AllInput(env.input)
      requires Open(clean, distinct, turn, toolCalls, readings) && readings == Unread(|toolCalls|)
      modifies `turn, `settled, `state, `result, `turnEndRequested, `requests, `exclusiveIndex, `groupParallel,
               `iteration, `readings, `clean
      ensures Valid() && Dispatches(old(Now()), env)
    {
      if toolCalls == [] {
        EndResponse(env);
      } else {
        DispatchTools(env);
      }
    }

    /** Take calls to run; no scan came to them so far. */
    method TakeCalls(calls: seq<Call>)
      requires Between() && Held(clean, distinct, turn, calls)
      modifies `toolCalls, `readings
      ensures Between() && Open(clean, distinct, turn, toolCalls, readings)
      ensures toolCalls == calls && readings == Unread(|calls|) && NotPassed(readings, 0)
    {
      HeldOpens(clean, distinct, turn, calls);
      toolCalls, readings := calls, Unread(|calls|);
    }

    /** Ids of rounds only grow, and a round that is over stays over. */
    twostate predicate Tracks()
      reads this
    {
      old(gateSeq) <= gateSeq && old(ended) <= ended
    }

    /** What a resolved round after a group does: with a stop the turn ends as the readings so far say. */
    twostate predicate ResolvesAfter(env: Submit)
      reads this
    {
      var cause := StopText(old(gate), 0);
      var log := Cat(old(turn), Contexts(old(gate), |old(gate)|));
      if old(Stops(gate)) then
        && requests == old(requests) && clean == old(clean) && readings == old(readings)
        && EndsWith(Kept(log, if cause == "" then "a tool gate stopped the turn" else cause), false)
        && (clean ==> InBooks(log, toolCalls, readings))
      else toolCalls == old(toolCalls) && Resumes(old(Now()).(turn := log), old(gateNext), env)
    }

    /** Go on after a round that came after a group, or end the turn there. */
    method ResolveAfter(env: Submit)
      requires Valid() && state == GATE && gatePending == 0 && gateAfter && AllInput(env.input)
      modifies `gate, `gateItems, `gatePending, `gateOpen, `ended, `turn, `settled, `state, `result,
               `turnEndRequested, `requests, `exclusiveIndex, `groupParallel, `iteration, `readings, `clean
      ensures Valid() && Tracks() && ResolvesAfter(env)
    {
      var stop, cause := FirstStop(gate);
      if stop {
        StopAfter(StopCause(cause));
      } else {
        GoOnAfter(env);
      }
    }

    /** End the turn at a round after a group; it owes what the readings so far say. */
    method StopAfter(cause: string)
      requires Valid() && state == GATE && gateAfter
      modifies `turn, `state, `result, `gate, `gateItems, `gatePending, `gateOpen, `ended
      ensures Valid() && old(ended) <= ended
      ensures EndsWith(Kept(Cat(old(turn), Contexts(old(gate), |old(gate)|)), cause), false)
      ensures clean ==> InBooks(result.log, toolCalls, readings)
    {
      TakeContexts();
      GateFinish(cause);
    }

    /** Go on after a round that came after a group. */
    method GoOnAfter(env: Submit)
      requires Valid() && state == GATE && gateAfter && AllInput(env.input)
      modifies `gate, `gateItems, `gatePending, `gateOpen, `ended, `turn, `settled, `state, `result,
               `turnEndRequested, `requests, `exclusiveIndex, `groupParallel, `iteration, `readings, `clean
      ensures Valid() && Tracks()
      ensures Resumes(old(Now()).(turn := Cat(old(turn), Contexts(old(gate), |old(gate)|))), old(gateNext), env)
    {
      TakeContexts();
      LeaveAfter(gateNext, env);
    }

    /** Take the contexts that a round after a group gave. */
    method TakeContexts()
      requires Valid() && state == GATE && gateAfter
      modifies `turn
      ensures Leaving() && gateNext <= |toolCalls| && Open(clean, distinct, turn, toolCalls, readings)
      ensures NotPassed(readings, gateNext) && (clean && Singly(readings) ==> Sound(turn))
      ensures turn == Cat(old(turn), Contexts(gate, |gate|))
    {
      ContextsAreInput(gate, |gate|);
      InputOpen(clean, distinct, turn, toolCalls, readings, Contexts(gate, |gate|));
      turn := AddContexts(turn, gate);
      OpenIsSound(clean, distinct, turn, toolCalls, readings);
    }

    /** The turn ended at a round before its calls, with a result for each of them. */
    twostate predicate StopsBefore(after: Log, cause: string)
      requires |old(gate)| == |old(gateItems)|
      reads this
    {
      var why := if cause != "" then cause else "the turn stopped";
      var log := WithRefusals(after, old(gateItems), old(gate), why, |old(gate)|);
      && requests == old(requests) && clean == old(clean) && readings == old(readings)
      && EndsWith(Kept(log, if cause == "" then "a tool gate stopped the turn" else cause), false)
      && (clean ==> Settled(log))
    }

    /** End the turn at a round that stops it: every call that the round still holds gets the cause. */
    method StopBefore(after: Log, cause: string)
      requires Leaving() && !gateAfter && Held(clean, distinct, turn, gateItems)
      requires after == WithDenials(turn, gateItems, gate, |gate|)
      modifies `turn, `state, `result, `gate, `gateItems, `gatePending, `gateOpen, `ended
      ensures Valid() && old(ended) <= ended && StopsBefore(after, cause)
    {
      RefuseRest(after, if cause != "" then cause else "the turn stopped");
      GateFinish(StopCause(cause));
    }

    /** Answer the calls that a round before them has not denied. */
    method RefuseRest(after: Log, why: string)
      requires Leaving() && !gateAfter && Held(clean, distinct, turn, gateItems)
      requires after == WithDenials(turn, gateItems, gate, |gate|)
      modifies `turn
      ensures Leaving() && turn == WithRefusals(after, gateItems, gate, why, |gate|) && (clean ==> Settled(turn))
    {
      if clean {
        StopAnswersAll(turn, gateItems, gate, why);
      }
      turn := RefuseCalls(after, gateItems, gate, why);
    }

    /** What a resolved round before the calls does: with a stop the turn ends with a result for each of them. */
    twostate predicate ResolvesBefore(env: Submit)
      requires |old(gate)| == |old(gateItems)|
      reads this
    {
      var log := WithDenials(old(turn), old(gateItems), old(gate), |old(gate)|);
      if old(Stops(gate)) then StopsBefore(log, StopText(old(gate), 0))
      else
        && toolCalls == Allowed(old(gateItems), old(gate), |old(gate)|)
        && Dispatches(old(Now()).(turn := log, readings := Unread(|toolCalls|)), env)
    }

    /** Answer the calls that the gate denied, and run the others; or end the turn with all of them answered. */
    method ResolveBefore(env: Submit)
      requires Valid() && state == GATE && gatePending == 0 && !gateAfter && AllInput(env.input)
      modifies `gate, `gateItems, `gatePending, `gateOpen, `ended, `toolCalls, `turn, `settled, `state, `result,
               `turnEndRequested, `requests, `exclusiveIndex, `groupParallel, `iteration, `readings, `clean
      ensures Valid() && Tracks() && ResolvesBefore(env)
      ensures !old(Stops(gate)) ==> GoOn(toolCalls, old(gateItems), old(gate), |old(gate)|)
    {
      var stop, cause := FirstStop(gate);
      var after, calls := ResolveCalls(turn, gateItems, gate);
      if stop {
        StopBefore(after, cause);
      } else {
        GoOnBefore(after, calls, env);
      }
    }

    /** Go on after a round before the calls. */
    method GoOnBefore(after: Log, calls: seq<Call>, env: Submit)
      requires Leaving() && !gateAfter && Held(clean, distinct, turn, gateItems) && AllInput(env.input)
      requires after == WithDenials(turn, gateItems, gate, |gate|) && calls == Allowed(gateItems, gate, |gate|)
      modifies `gate, `gateItems, `gatePending, `gateOpen, `ended, `toolCalls, `turn, `settled, `state, `result,
               `turnEndRequested, `requests, `exclusiveIndex, `groupParallel, `iteration, `readings, `clean
      ensures Valid() && toolCalls == calls && Tracks()
      ensures Dispatches(old(Now()).(turn := after, readings := Unread(|calls|)), env)
    {
      DenialsHold(clean, distinct, turn, gateItems, gate);
      turn := after;
      LeaveBefore(calls, env);
    }

    // ------------------------------------------------------------ the results of a group

    /** The exclusive calls that come after the group that runs. */
    function NextStart(): nat
      reads `groupParallel, `exclusiveIndex
    {
      if groupParallel then 0 else exclusiveIndex + 1
    }

    /** What this scan, at the collection of the group that ran, adds to the readings. */
    ghost function Collected(read: Reads): seq<Reading>
      reads `groupParallel, `exclusiveIndex, `readings, `toolCalls
    {
      if groupParallel then Grouped(|toolCalls|, read)
      else if exclusiveIndex < |readings| then
        readings[exclusiveIndex := readings[exclusiveIndex].(collect := Parallel(read, exclusiveIndex))]
      else readings
    }

    /** Go on after a group: with its round of the gate, or with the next exclusive call. */
    method LeaveGroup(reports: seq<Call>, next: nat, env: Submit)
      requires Between() && state == TOOLS && |requests| == iteration + 1 && AllInput(env.input)
      requires next <= |toolCalls| && Open(clean, distinct, turn, toolCalls, readings) && NotPassed(readings, next)
      modifies `gateSeq, `gateId, `gateOpen, `gateItems, `gate, `gatePending, `gateNext, `gateAfter,
               `turn, `settled, `state, `result, `turnEndRequested, `requests, `exclusiveIndex, `groupParallel,
               `iteration, `readings, `clean
      ensures Valid() && Tracks()
      ensures if gated && reports != [] then
                gateItems == reports && WaitsAfter(next) && Now() == old(Now()).(state := GATE)
              else Resumes(old(Now()), next, env)
    {
      if gated && reports != [] {
        GateOpen(reports, true, next);
      } else {
        SubmitExclusive(next, env);
      }
    }

    /** What collecting a group does: the turn ends with its results, waits for the gate, or goes on with them. */
    twostate predicate Collects(jobs: seq<Job>, read: Reads, askAbort: bool, interrupted: bool, env: Submit)
      reads this
    {
      var log := WithResults(old(turn), old(toolCalls), read, old(groupParallel), old(exclusiveIndex), jobs,
                             |old(toolCalls)|);
      var rs := old(Collected(read));
      && toolCalls == old(toolCalls)
      && if askAbort || old(cancelRequested) || interrupted then
           && EndsWith(if askAbort then NullTurn else Kept(log, "interrupted"), false)
           && requests == old(requests) && clean == old(clean) && readings == rs
           && (clean ==> InBooks(log, toolCalls, rs))
         else if gated && JobIndex(read, old(groupParallel), old(exclusiveIndex), |toolCalls|) > 0 then
           && Reports(gateItems, toolCalls, read, old(groupParallel), old(exclusiveIndex), |toolCalls|)
           && WaitsAfter(old(NextStart())) && Now() == old(Now()).(turn := log, readings := rs, state := GATE)
         else Resumes(old(Now()).(turn := log, readings := rs), old(NextStart()), env)
    }

    /** The run waits for a round after a group, with a new id and a slot for each call that ran. */
    twostate predicate WaitsAfter(next: nat)
      reads this
    {
      && state == GATE && gateAfter && gateNext == next && gate == Fresh(|gateItems|)
      && gateId == gateSeq == old(gateSeq) + 1
    }

    /** Append the results of the group that ran, for the calls that this scan takes for it, and go on, or end. */
    method CollectTools(jobs: seq<Job>, read: Reads, askAbort: bool, interrupted: bool, env: Submit)
      requires Valid() && state == TOOLS && AllInput(env.input)
      modifies `gateSeq, `gateId, `gateOpen, `gateItems, `gate, `gatePending, `gateNext, `gateAfter,
               `turn, `settled, `state, `result, `turnEndRequested, `requests, `exclusiveIndex, `groupParallel,
               `iteration, `readings, `clean
      ensures Valid() && Tracks() && Collects(jobs, read, askAbort, interrupted, env)
    {
      if askAbort || cancelRequested || interrupted {
        CollectLast(jobs, read, askAbort);
      } else {
        CollectOn(jobs, read, env);
      }
    }

    /** The turn ends with the results of the group, or without any when the user asks for that. */
    method CollectLast(jobs: seq<Job>, read: Reads, askAbort: bool)
      requires Valid() && state == TOOLS
      modifies `turn, `state, `result, `readings
      ensures Valid() && readings == old(Collected(read))
      ensures var log := WithResults(old(turn), toolCalls, read, groupParallel, exclusiveIndex, jobs, |toolCalls|);
              && EndsWith(if askAbort then NullTurn else Kept(log, "interrupted"), false)
              && (clean ==> InBooks(log, toolCalls, readings))
    {
      var _ := Gather(jobs, read);
      Finish(if askAbort then NullTurn else Kept(turn, "interrupted"));
    }

    /** Go on after the group with its results. */
    method CollectOn(jobs: seq<Job>, read: Reads, env: Submit)
      requires Valid() && state == TOOLS && AllInput(env.input)
      modifies `gateSeq, `gateId, `gateOpen, `gateItems, `gate, `gatePending, `gateNext, `gateAfter,
               `turn, `settled, `state, `result, `turnEndRequested, `requests, `exclusiveIndex, `groupParallel,
               `iteration, `readings, `clean
      ensures Valid() && Tracks()
      ensures var log := WithResults(old(turn), toolCalls, read, old(groupParallel), old(exclusiveIndex), jobs,
                                     |toolCalls|);
              var rs := old(Collected(read));
              if gated && JobIndex(read, old(groupParallel), old(exclusiveIndex), |toolCalls|) > 0 then
                && Reports(gateItems, toolCalls, read, old(groupParallel), old(exclusiveIndex), |toolCalls|)
                && WaitsAfter(old(NextStart())) && Now() == old(Now()).(turn := log, readings := rs, state := GATE)
              else Resumes(old(Now()).(turn := log, readings := rs), old(NextStart()), env)
    {
      var next := NextStart();
      var reports := Gather(jobs, read);
      LeaveGroup(reports, next, env);
    }

    /** Take the results of the group that ran. */
    method Gather(jobs: seq<Job>, read: Reads) returns (reports: seq<Call>)
      requires Valid() && state == TOOLS
      modifies `turn, `readings
      ensures Between() && |requests| == iteration + 1 && readings == old(Collected(read))
      ensures turn == WithResults(old(turn), toolCalls, read, groupParallel, exclusiveIndex, jobs, |toolCalls|)
      ensures |reports| == JobIndex(read, groupParallel, exclusiveIndex, |toolCalls|)
      ensures Reports(reports, toolCalls, read, groupParallel, exclusiveIndex, |toolCalls|)
      ensures Open(clean, distinct, turn, toolCalls, readings) && (clean && Singly(readings) ==> Sound(turn))
      ensures NextStart() <= |toolCalls| && NotPassed(readings, NextStart())
    {
      CollectedOpens(jobs, read);
      ghost var rs := Collected(read);
      turn, reports := AppendResults(turn, toolCalls, read, groupParallel, exclusiveIndex, jobs);
      readings := rs;
      OpenIsSound(clean, distinct, turn, toolCalls, readings);
    }

    lemma CollectedOpens(jobs: seq<Job>, read: Reads)
      requires Running() && state == TOOLS
      ensures var log := WithResults(turn, toolCalls, read, groupParallel, exclusiveIndex, jobs, |toolCalls|);
              Open(clean, distinct, log, toolCalls, Collected(read))
      ensures NextStart() <= |toolCalls| && NotPassed(Collected(read), NextStart())
    {
      if groupParallel {
        GroupOpen(clean, distinct, turn, toolCalls, read, exclusiveIndex, jobs);
      } else {
        CollectOpen(clean, distinct, turn, toolCalls, readings, exclusiveIndex, read, jobs);
      }
    }

    // ------------------------------------------------------------ the response of the model

    /** Take the calls of the response just appended: through the gate if there is one. */
    method StartTools(calls: seq<Call>, env: Submit)
      requires Between() && state == MODEL && |requests| == iteration + 1
      requires Held(clean, distinct, turn, calls) && AllInput(env.input)
      modifies `toolCalls, `gateSeq, `gateId, `gateOpen, `gateItems, `gate, `gatePending, `gateNext, `gateAfter,
               `turn, `settled, `state, `result, `turnEndRequested, `requests, `exclusiveIndex, `groupParallel,
               `iteration, `readings, `clean
      ensures Valid() && Tracks() && distinct == old(distinct) && toolCalls == calls
      ensures if gated then
                && state == GATE && !gateAfter && gateItems == calls && gate == Fresh(|calls|)
                && gateId == gateSeq == old(gateSeq) + 1
                && Now() == old(Now()).(readings := Unread(|calls|), state := GATE)
              else Dispatches(old(Now()).(readings := Unread(|calls|)), env)
    {
      if gated {
        HoldCalls(calls);
      } else {
        StartCalls(calls, env);
      }
    }

    /** The calls wait for the gate. */
    method HoldCalls(calls: seq<Call>)
      requires Between() && state == MODEL && |requests| == iteration + 1 && Held(clean, distinct, turn, calls)
      modifies `state, `gateSeq, `gateId, `gateOpen, `gateItems, `gate, `gatePending, `gateNext, `gateAfter,
               `toolCalls, `readings
      ensures Valid() && state == GATE && !gateAfter && toolCalls == gateItems == calls && gate == Fresh(|calls|)
      ensures gateId == gateSeq == old(gateSeq) + 1
      ensures Now() == old(Now()).(readings := Unread(|calls|), state := GATE)
    {
      TakeCalls(calls);
      GateOpen(calls, false, 0);
    }

    method StartCalls(calls: seq<Call>, env: Submit)
      requires Between() && state == MODEL && |requests| == iteration + 1 && Held(clean, distinct, turn, calls)
      requires AllInput(env.input)
      modifies `toolCalls, `turn, `settled, `state, `result, `turnEndRequested, `requests, `exclusiveIndex,
               `groupParallel, `iteration, `readings, `clean
      ensures Valid() && toolCalls == calls && Dispatches(old(Now()).(readings := Unread(|calls|)), env)
    {
      TakeCalls(calls);
      DispatchTools(env);
    }

    /** The turn ended with what it had before the response. */
    twostate predicate EndsBefore(cause: string)
      reads this
    {
      && EndsWith(Stopped(old(turn), cause), false)
      && requests == old(requests) && clean == old(clean) && readings == old(readings)
    }

    /** What a response of the model does: the turn ends, its calls wait for the gate or run, or the model is asked. */
    twostate predicate Processes(response: ModelResult, env: Submit)
      reads this
    {
      if old(cancelRequested) then EndsBefore("interrupted")
      else match response
           case RequestFailed(cause) => EndsBefore(cause)
           case Calls(calls) =>
             var log := Then(old(turn), Response(calls));
             && toolCalls == calls && distinct == (old(distinct) && DistinctIds(calls))
             && if gated then
                  && state == GATE && !gateAfter && gateItems == calls && gate == Fresh(|calls|)
                  && gateId == gateSeq == old(gateSeq) + 1
                  && Now() == old(Now()).(turn := log, readings := Unread(|calls|), state := GATE)
                else Dispatches(old(Now()).(turn := log, readings := Unread(|calls|)), env)
           case Final =>
             && EndsWith(Kept(Then(old(turn), Response([])), ""), false)
             && requests == old(requests) && clean == old(clean) && readings == old(readings)
           case Neither =>
             Submits(old(Now()).(turn := Then(old(turn), Response([])), iteration := old(iteration) + 1), env)
    }

    /** Act on the response of the model step. */
    method ProcessModel(response: ModelResult, env: Submit)
      requires Valid() && state == MODEL && AllInput(env.input)
      modifies `distinct, `toolCalls, `gateSeq, `gateId, `gateOpen, `gateItems, `gate, `gatePending, `gateNext,
               `gateAfter,
               `turn, `settled, `state, `result, `turnEndRequested, `requests, `exclusiveIndex, `groupParallel,
               `iteration, `readings, `clean
      ensures Valid() && Tracks() && Processes(response, env)
    {
      if cancelRequested || response.RequestFailed? {
        ClosedIsSound();
        Stop(if cancelRequested then "interrupted" else response.cause);
      } else if response.Calls? {
        TakeTools(response.calls, env);
      } else {
        TakeText(response.Final?, env);
      }
    }

    /** The response asks for calls. */
    method TakeTools(calls: seq<Call>, env: Submit)
      requires Valid() && state == MODEL && AllInput(env.input)
      modifies `distinct, `toolCalls, `gateSeq, `gateId, `gateOpen, `gateItems, `gate, `gatePending, `gateNext,
               `gateAfter, `turn, `settled, `state, `result, `turnEndRequested, `requests, `exclusiveIndex,
               `groupParallel, `iteration, `readings, `clean
      ensures Valid() && Tracks() && toolCalls == calls && distinct == (old(distinct) && DistinctIds(calls))
      ensures var log := Then(old(turn), Response(calls));
              if gated then
                && state == GATE && !gateAfter && gateItems == calls && gate == Fresh(|calls|)
                && gateId == gateSeq == old(gateSeq) + 1
                && Now() == old(Now()).(turn := log, readings := Unread(|calls|), state := GATE)
              else Dispatches(old(Now()).(turn := log, readings := Unread(|calls|)), env)
    {
      TakeResponse(calls);
      StartTools(calls, env);
    }

    /** The response asks for no call: it is the last one, or the model is asked again. */
    method TakeText(final: bool, env: Submit)
      requires Valid() && state == MODEL && AllInput(env.input)
      modifies `distinct, `turn, `settled, `state, `result, `turnEndRequested, `requests, `iteration
      ensures Valid()
      ensures if final then
                EndsWith(Kept(Then(old(turn), Response([])), ""), false) && requests == old(requests)
              else Submits(old(Now()).(turn := Then(old(turn), Response([])), iteration := old(iteration) + 1), env)
    {
      TakeResponse([]);
      if final {
        ClosedIsSound();
        Finish(Kept(turn, ""));
      } else {
        AskAgain(env);
      }
    }

    /** Ask the model again after a response without calls. */
    method AskAgain(env: Submit)
      requires Between() && |requests| == iteration + 1 && Closed(clean, distinct, turn) && AllInput(env.input)
      modifies `turn, `settled, `state, `result, `turnEndRequested, `requests, `iteration
      ensures Valid() && Submits(old(Now()).(iteration := old(iteration) + 1), env)
    {
      iteration := iteration + 1;
      SubmitModel(env);
    }

    /** Append the response of the model. */
    method TakeResponse(calls: seq<Call>)
      requires Valid() && state == MODEL
      modifies `turn, `distinct
      ensures Between() && |requests| == iteration + 1 && turn == Then(old(turn), Response(calls))
      ensures Held(clean, distinct, turn, calls) && distinct == (old(distinct) && DistinctIds(calls))
      ensures calls == [] ==> Closed(clean, distinct, turn)
    {
      Responds(clean, distinct, turn, calls);
      turn := Then(turn, Response(calls));
      distinct := distinct && DistinctIds(calls);
    }

    lemma ClosedIsSound()
      requires Closed(clean, distinct, turn)
      ensures clean ==> Sound(turn)
    {
    }

    // ------------------------------------------------------------ the cancel of a run

    /** Leave an open round: the calls that a round before them has not denied are answered. */
    method CancelRound()
      requires Valid() && state == GATE
      modifies `turn, `state, `result, `gate, `gateItems, `gatePending, `gateOpen, `ended
      ensures Valid() && old(ended) <= ended && result.Kept? && EndsWith(Kept(result.log, "interrupted"), false)
      ensures result.log == if gateAfter then old(turn)
                            else WithRefusals(old(turn), old(gateItems), old(gate), "interrupted", |old(gate)|)
      ensures clean ==> if gateAfter then InBooks(result.log, toolCalls, readings)
                        else Owes(result.log, DeniedFrom(old(gateItems), old(gate), true, 0, multiset{}))
    {
      if gateAfter {
        OpenIsSound(clean, distinct, turn, toolCalls, readings);
      } else {
        RefuseHeld("interrupted");
      }
      GateFinish("interrupted");
    }

    /** Answer the calls that a round before them holds or allowed so far. */
    method RefuseHeld(why: string)
      requires Leaving() && !gateAfter && Held(clean, distinct, turn, gateItems)
      modifies `turn
      ensures Leaving() && turn == WithRefusals(old(turn), gateItems, gate, why, |gate|)
      ensures clean ==> Owes(turn, DeniedFrom(gateItems, gate, true, 0, multiset{}))
    {
      if clean {
        RefusalsLeaveDenied(turn, gateItems, gate, why);
      }
      turn := RefuseCalls(turn, gateItems, gate, why);
    }

    /**
     * Cancel the run. The model step or the group ends it later; an open round is left at once, and a
     * call that a round before the calls has denied so far gets no result then.
     */
    method Cancel()
      requires Valid()
      modifies `cancelRequested, `turn, `state, `result, `gate, `gateItems, `gatePending, `gateOpen, `ended
      ensures Valid() && old(ended) <= ended
      ensures old(Ended(state)) || old(cancelRequested) ==> unchanged(this)
      ensures !old(Ended(state)) ==> cancelRequested
      ensures !old(Ended(state)) && old(state) != GATE ==> state == old(state) && turn == old(turn)
      ensures !old(Ended(state)) && !old(cancelRequested) && old(state) == GATE ==>
                && result.Kept? && EndsWith(Kept(result.log, "interrupted"), false)
                && result.log == (if gateAfter then old(turn)
                                  else WithRefusals(old(turn), old(gateItems), old(gate), "interrupted", |old(gate)|))
                && (clean ==> if gateAfter then InBooks(result.log, toolCalls, readings)
                              else Owes(result.log, DeniedFrom(old(gateItems), old(gate), true, 0, multiset{})))
    {
      if !Ended(state) && !cancelRequested {
        cancelRequested := true;
        if state == GATE {
          CancelRound();
        }
      }
    }

    // ------------------------------------------------------------ any run

    /** Whether something that happens fits the state of the run. */
    ghost predicate Fits(s: Stimulus)
      reads this
    {
      match s
      case Begin(_) => state == NEW
      case ModelDone(_, _) => state == MODEL
      case ToolsDone(_, _, _, _, _) => state == TOOLS
      case RoundDue(_) => state == GATE && gatePending == 0
      case AllowCall(id, index, _) => HasRelay(relays, id, false) || (Waits(id, index) && !gateAfter)
      case DenyCall(id, index, _, _) => HasRelay(relays, id, false) || (Waits(id, index) && !gateAfter)
      case CallDone(id, index, _, _) => HasRelay(relays, id, true) || (Waits(id, index) && gateAfter)
      case RelayAsked(_, _, _) => gated
      case EndRequested => true
      case CancelAsked => !Ended(state) && !cancelRequested
    }

    /** Of an ended run the state, the result and the requests stay. */
    twostate predicate StaysOver()
      reads this
    {
      old(Ended(state)) ==>
        state == old(state) && result == old(result) && requests == old(requests) && turn == old(turn)
    }

    /** The run is where it was in its calls and requests, or ended there. */
    twostate predicate Stays()
      reads this
    {
      && requests == old(requests) && clean == old(clean) && readings == old(readings)
      && (Ended(state) || (state == old(state) && Calling() == old(Calling())))
    }

    /** What something that happens does to the calls and the requests of the run. */
    twostate predicate Acts(s: Stimulus)
      requires |old(gate)| == |old(gateItems)|
      reads this
    {
      match s
      case Begin(env) => if old(state) == NEW then Submits(old(Now()), env) else Stays()
      case ModelDone(response, env) => if old(state) == MODEL then Processes(response, env) else Stays()
      case ToolsDone(jobs, read, askAbort, interrupted, env) =>
        if old(state) == TOOLS then Collects(jobs, read, askAbort, interrupted, env) else Stays()
      case RoundDue(env) =>
        if old(state) != GATE || old(gatePending) != 0 then Stays()
        else if old(gateAfter) then ResolvesAfter(env)
        else ResolvesBefore(env)
      case AllowCall(_, _, _) => Stays()
      case DenyCall(_, _, _, _) => Stays()
      case CallDone(_, _, _, _) => Stays()
      case RelayAsked(_, _, _) => Stays()
      case EndRequested => Stays()
      case CancelAsked => Stays()
    }

    /** What an answer of the gate, or something that is asked of the run, does. */
    twostate predicate Hears(s: Stimulus)
      reads this
    {
      match s
      case AllowCall(id, index, args) =>
        Answers(id, index, false, Answer(true, true, false, args, ""), Reply(true, args, "", false))
      case DenyCall(id, index, message, stop) =>
        var text := if message == "" then "the tool call was denied" else message;
        Answers(id, index, false, Answer(true, false, stop, Same, text), Reply(false, Same, text, stop))
      case CallDone(id, index, context, stop) =>
        Answers(id, index, true, Answer(true, false, stop, Same, context), Reply(false, Same, context, stop))
      case RelayAsked(after, branch, rpcId) =>
        && gateSeq == old(gateSeq) + (if gated then 1 else 0)
        && relays == (if gated then [Relay(gateSeq, after, branch, rpcId)] else []) + old(relays)
      case EndRequested => turnEndRequested
      case CancelAsked => old(Ended(state)) || cancelRequested
      case _ => true
    }

    /** The gate answers a slot or a relayed round. */
    method HandleAnswer(s: Stimulus)
      requires Valid() && s.IsAnswer()
      modifies `relays, `relayed, `gate, `gatePending, `ended
      ensures Valid() && Tracks() && Hears(s) && (!old(Fits(s)) ==> unchanged(this))
    {
      match s
      case AllowCall(id, index, args) => Allow(id, index, args);
      case DenyCall(id, index, message, stop) => Deny(id, index, message, stop);
      case CallDone(id, index, context, stop) => Done(id, index, context, stop);
    }

    /** What the run waits for is there. */
    method HandleDue(s: Stimulus)
      requires Valid() && s.Proper() && s.IsDue()
      modifies this
      ensures Valid() && Tracks() && StaysOver() && Acts(s) && (!old(Fits(s)) ==> unchanged(this))
    {
      match s
      case Begin(env) =>
        if state == NEW {
          SubmitModel(env);
        }
      case ModelDone(response, env) =>
        if state == MODEL {
          ProcessModel(response, env);
        }
      case ToolsDone(jobs, read, askAbort, interrupted, env) =>
        if state == TOOLS {
          CollectTools(jobs, read, askAbort, interrupted, env);
        }
      case RoundDue(env) => HandleRound(env);
    }

    method HandleRound(env: Submit)
      requires Valid() && AllInput(env.input)
      modifies this
      ensures Valid() && Tracks() && StaysOver() && Acts(RoundDue(env))
      ensures old(state) != GATE || old(gatePending) != 0 ==> unchanged(this)
    {
      if state == GATE && gatePending == 0 {
        if gateAfter {
          ResolveAfter(env);
        } else {
          ResolveBefore(env);
        }
      }
    }

    /** Something is asked of the run. */
    method HandleRequest(s: Stimulus)
      requires Valid() && (s.RelayAsked? || s.EndRequested?)
      modifies `gateSeq, `relays, `turnEndRequested
      ensures Valid() && Tracks() && StaysOver() && Hears(s) && (!old(Fits(s)) ==> unchanged(this))
    {
      match s
      case RelayAsked(after, branch, rpcId) =>
        if gated {
          var _ := RelayRound(after, branch, rpcId);
        }
      case EndRequested => turnEndRequested := true;
    }

    /** The gate answers, something is asked of the run, or it is cancelled. */
    method HandleOther(s: Stimulus)
      requires Valid() && !s.IsDue()
      modifies this
      ensures Valid() && Tracks() && StaysOver() && Stays() && Hears(s) && (!old(Fits(s)) ==> unchanged(this))
    {
      if s.IsAnswer() {
        HandleAnswer(s);
      } else if s.CancelAsked? {
        Cancel();
      } else {
        HandleRequest(s);
      }
    }

    /**
     * Act on one thing that happens. What does not fit the state of the run changes nothing; an ended run
     * stays ended with its result; ids of rounds only grow, and a round that is over stays over.
     */
    method Handle(s: Stimulus)
      requires Valid() && s.Proper()
      modifies this
      ensures Valid() && Tracks() && StaysOver() && Acts(s) && Hears(s) && (!old(Fits(s)) ==> unchanged(this))
    {
      if s.IsDue() {
        HandleDue(s);
      } else {
        HandleOther(s);
      }
    }

    /** An answer to a round that is over, or to an id that no round has, does not fit. */
    lemma StaleDoesNotFit(s: Stimulus)
      requires Valid() && s.IsAnswer() && (s.id in ended || s.id > gateSeq)
      ensures !Fits(s)
    {
    }

    /**
     * In any run, whatever happens in whatever order: each model request was made with exactly one result
     * for each call when every response before it read its calls alike, and where the ids of calls differ
     * only then; there are at most as many requests as allowed; and no call is answered twice unless a later
     * scan read it differently.
     */
    method Play(stimuli: seq<Stimulus>)
      requires Valid() && forall s :: s in stimuli ==> s.Proper()
      modifies this
      ensures Valid() && Tracks() && StaysOver()
      ensures forall i :: 0 <= i < |requests| && requests[i].agreed ==>
                ResultIds(requests[i].log) == CallIds(requests[i].log)
      ensures forall i :: 0 <= i < |requests| && requests[i].distinct ==>
                (Settled(requests[i].log) <==> requests[i].agreed)
      ensures |requests| > 0 ==> |requests| <= maxToolIterations
      ensures result.Kept? && clean && Singly(readings) ==> ResultIds(result.log) <= CallIds(result.log)
    {
      for i := 0 to |stimuli|
        invariant Valid() && Tracks() && StaysOver()
      {
        Handle(stimuli[i]);
      }
      forall i | 0 <= i < |requests| && requests[i].agreed
        ensures ResultIds(requests[i].log) == CallIds(requests[i].log)
      {
        ExactlyOneResult(requests[i].log);
      }
      if result.Kept? && clean && Singly(readings) {
        EndedIsSound();
        AtMostOneResult(result.log);
      }
    }

    lemma EndedIsSound()
      requires Valid() && result.Kept? && clean && Singly(readings)
      ensures Sound(result.log)
    {
    }

    /** Answers to rounds that are over, or to ids that no round has, change nothing, however many come. */
    method Echo(answers: seq<Stimulus>)
      requires Valid() && forall s :: s in answers ==> s.IsAnswer() && (s.id in ended || s.id > gateSeq)
      modifies this
      ensures Valid() && unchanged(this)
    {
      for i := 0 to |answers|
        invariant Valid() && unchanged(this)
      {
        StaleDoesNotFit(answers[i]);
        Handle(answers[i]);
      }
    }
  }
}
