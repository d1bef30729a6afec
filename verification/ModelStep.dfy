/** One model step: a transfer, and the two fail-soft retries that it can take. */
module ModelSteps {

  datatype StepState = NEW | BUILDING | REQUEST_PENDING | RETRYING | COMPLETED | CANCELLED | FAILED

  // What a transfer came to: a document, or a failure with what is known about it.
  datatype Reply = Document(text: string) | Failure(chainMiss: bool, hasDiag: bool, status: int)

  // Whether a request could be built, and then handed to the transfer.
  datatype Start = BuildFails | SubmitFails | Sent

  datatype StepResult = NoResult | Response(text: string) | Failed(hasDiag: bool)

  predicate TransitionValid(from: StepState, to: StepState) {
    match from
    case NEW => to == BUILDING || to == FAILED
    case BUILDING | RETRYING => to == REQUEST_PENDING || to == FAILED
    case REQUEST_PENDING => to == RETRYING || to == COMPLETED || to == CANCELLED || to == FAILED
    case COMPLETED | CANCELLED | FAILED => false
  }

  predicate Terminal(state: StepState) {
    state == COMPLETED || state == CANCELLED || state == FAILED
  }

  function One(b: bool): nat {
    if b then 1 else 0
  }

  class ModelStep {
    // The configuration: response chaining, token extents that this model and stream allow, log probabilities.
    const chaining: bool
    const extents: bool
    const logprobs: bool

    // Whether the previous turn has a response id to chain to, and the session latch of the extents.
    var previousId: bool
    var extentsOff: bool

    var state: StepState
    var responseLinked: bool
    var wantExtents: bool
    var cancelRequested: bool
    var notified: bool
    var result: StepResult

    ghost var transfers: nat
    ghost var notices: nat

    /** What the next transfer would be linked to and ask for. */
    ghost predicate Fresh()
      reads `previousId, `extentsOff, `responseLinked, `wantExtents
    {
      responseLinked == (chaining && previousId) && wantExtents == (extents && !extentsOff)
    }

    /** A transfer after the first one has taken away a link or a wish that the one before it had. */
    ghost predicate Valid()
      reads this
    {
      && transfers <= 3
      && (state == NEW || state == BUILDING ==> transfers == 0)
      && (state == REQUEST_PENDING ==> Fresh() && transfers + One(responseLinked) + One(wantExtents) <= 3)
      && (notified <==> Terminal(state)) && notices == One(notified)
    }

    constructor (chaining: bool, extents: bool, logprobs: bool, previousId: bool, extentsOff: bool)
      ensures Valid() && state == NEW && transfers == 0 && result == NoResult && !cancelRequested
      ensures this.chaining == chaining && this.extents == extents && this.logprobs == logprobs
      ensures this.previousId == previousId && this.extentsOff == extentsOff
    {
      this.chaining, this.extents, this.logprobs := chaining, extents, logprobs;
      this.previousId, this.extentsOff := previousId, extentsOff;
      state, responseLinked, wantExtents, cancelRequested, notified := NEW, false, false, false, false;
      result, transfers, notices := NoResult, 0, 0;
    }

    method Transition(to: StepState) returns (ok: bool)
      modifies `state
      ensures ok == TransitionValid(old(state), to)
      ensures ok <==>
              || (old(state) == NEW && to in {BUILDING, FAILED})
              || (old(state) in {BUILDING, RETRYING} && to in {REQUEST_PENDING, FAILED})
              || (old(state) == REQUEST_PENDING && to in {RETRYING, COMPLETED, CANCELLED, FAILED})
      ensures state == if ok then to else if Terminal(old(state)) then old(state) else FAILED
    {
      ok := TransitionValid(state, to);
      if ok {
        state := to;
      } else if !Terminal(state) {
        state := FAILED;
      }
    }

    /** Build the request for the previous turn and send it. */
    method Begin(start: Start) returns (ok: bool)
      requires state == BUILDING || state == RETRYING
      modifies `state, `responseLinked, `wantExtents, `transfers
      ensures ok == (start == Sent)
      ensures transfers == old(transfers) + One(ok)
      ensures if start == BuildFails then state == old(state) else state == REQUEST_PENDING && Fresh()
    {
      if start == BuildFails {
        return false;
      }
      responseLinked := chaining && previousId;
      wantExtents := extents && !extentsOff;
      var _ := Transition(REQUEST_PENDING);
      if start == SubmitFails {
        return false;
      }
      transfers := transfers + 1;
      return true;
    }

    /** Try again for another previous turn, and fail with r when that cannot start. */
    method Retry(previous: bool, start: Start, r: StepResult)
      requires state == REQUEST_PENDING && !notified && notices == 0
      requires transfers + One(chaining && previous) + One(extents && !extentsOff) <= 2
      modifies `previousId, `state, `responseLinked, `wantExtents, `transfers, `result, `notified, `notices
      ensures Valid() && previousId == previous
      ensures if start == Sent then state == REQUEST_PENDING && transfers == old(transfers) + 1
              else state == FAILED && transfers == old(transfers) && result == r
    {
      previousId := previous;
      var _ := Transition(RETRYING);
      var ok := Begin(start);
      if !ok {
        Finish(FAILED, r);
      }
    }

    method Finish(to: StepState, r: StepResult)
      requires !Terminal(state) && Terminal(to) && !notified && notices == 0 && transfers <= 3
      modifies `state, `result, `notified, `notices
      ensures Valid() && Terminal(state) && notices == 1 && result == r
      ensures state == if TransitionValid(old(state), to) then to else FAILED
    {
      result := r;
      var _ := Transition(to);
      if !notified {
        notified := true;
        notices := notices + 1;
      }
    }

    /** Start the step: its first transfer. */
    method Submit(start: Start) returns (ok: bool)
      requires Valid() && state == NEW
      modifies this
      ensures Valid() && ok == (start == Sent)
      ensures ok ==> state == REQUEST_PENDING && transfers == 1
      ensures ok ==> responseLinked == (chaining && previousId) && wantExtents == (extents && !extentsOff)
      ensures previousId == old(previousId) && extentsOff == old(extentsOff)
      ensures !ok ==> transfers == 0
    {
      var _ := Transition(BUILDING);
      ok := Begin(start);
    }

    /** The step ended, with nothing changed for a later one. */
    twostate predicate EndsAs(to: StepState, r: StepResult)
      reads this
    {
      && state == to && result == r && transfers == old(transfers)
      && previousId == old(previousId) && extentsOff == old(extentsOff)
    }

    /**
     * A transfer ended. A chain miss is tried again without the chain, and a refusal of the log
     * probabilities once without them, for the session; everything else ends the step.
     */
    method RequestComplete(reply: Reply, retry: Start)
      requires Valid() && state == REQUEST_PENDING && transfers > 0
      modifies this
      ensures Valid() && transfers <= 3
      ensures Terminal(state) || (state == REQUEST_PENDING && transfers == old(transfers) + 1)
      ensures reply.Document? ==> EndsAs(COMPLETED, Response(reply.text))
      ensures reply.Failure? && old(cancelRequested) ==> EndsAs(CANCELLED, Failed(reply.hasDiag))
      ensures reply.Failure? && !old(cancelRequested) && old(responseLinked) && reply.chainMiss ==>
                && !previousId && extentsOff == old(extentsOff)
                && if retry == Sent then state == REQUEST_PENDING && !responseLinked && wantExtents == old(wantExtents)
                   else state == FAILED && result == Failed(false)
      ensures reply.Failure? && !old(cancelRequested) && !(old(responseLinked) && reply.chainMiss) ==>
                if old(wantExtents) && !logprobs && !reply.hasDiag && 400 <= reply.status < 500 then
                  && extentsOff && previousId == old(previousId)
                  && if retry == Sent then
                       state == REQUEST_PENDING && !wantExtents && responseLinked == old(responseLinked)
                     else state == FAILED && result == Failed(reply.hasDiag)
                else EndsAs(FAILED, Failed(reply.hasDiag))
      ensures cancelRequested == old(cancelRequested)
    {
      if reply.Document? {
        Finish(COMPLETED, Response(reply.text));
        return;
      }
      if cancelRequested {
        Finish(CANCELLED, Failed(reply.hasDiag));
        return;
      }
      if responseLinked && reply.chainMiss {
        Retry(false, retry, Failed(false));
        return;
      }
      if wantExtents && !logprobs && !reply.hasDiag && 400 <= reply.status < 500 {
        extentsOff := true;
        Retry(previousId, retry, Failed(reply.hasDiag));
        return;
      }
      Finish(FAILED, Failed(reply.hasDiag));
    }

    /** Cancel the step; the end of its transfer will end it. */
    method Cancel()
      requires Valid()
      modifies `cancelRequested
      ensures Valid() && cancelRequested == (old(cancelRequested) || !Terminal(state))
    {
      if !Terminal(state) {
        cancelRequested := true;
      }
    }

    /**
     * Whatever replies come, and wherever a cancel comes between them, a step makes at most three
     * transfers and reports its end once.
     */
    method Play(start: Start, replies: seq<Reply>, retries: seq<Start>, cancelAt: nat)
      requires Valid() && state == NEW && |retries| == |replies|
      modifies this
      ensures Valid() && transfers <= 3 && notices == One(Terminal(state))
      ensures |replies| >= 3 && start == Sent ==> Terminal(state)
      ensures |replies| > 0 && start == Sent && cancelAt == 0 && replies[0].Failure? ==> state == CANCELLED
    {
      var ok := Submit(start);
      var i := 0;
      while ok && i < |replies| && !Terminal(state)
        invariant Valid() && i <= |replies|
        invariant ok == (start == Sent)
        invariant ok && i == 0 ==> !Terminal(state)
        invariant ok && i > 0 && cancelAt == 0 && replies[0].Failure? ==> state == CANCELLED
        invariant ok ==> Terminal(state) || (state == REQUEST_PENDING && transfers == i + 1)
      {
        if i == cancelAt {
          Cancel();
        }
        RequestComplete(replies[i], retries[i]);
        i := i + 1;
      }
    }
  }
}
