/**
 * The accounts of a turn over its responses: clean as long as every response that is over read each of its
 * calls alike, and distinct as long as the calls of each response have different ids.
 */
module TurnAccounts {
  import opened TurnLog
  import opened TurnCalls
  import opened TurnReads
  import opened TurnGate

  /** A turn between responses. */
  ghost predicate Closed(clean: bool, distinct: bool, log: Log) {
    (clean ==> Settled(log)) && (!clean && distinct ==> !Settled(log))
  }

  /** A turn with calls that wait for the gate, or that no scan came to. */
  ghost predicate Held(clean: bool, distinct: bool, log: Log, calls: seq<Call>) {
    && (clean ==> Owes(log, Ids(calls))) && (!clean && distinct ==> !Fine(log))
    && (distinct ==> DistinctIds(calls))
  }

  /** A turn with calls that scans came to. */
  ghost predicate Open(clean: bool, distinct: bool, log: Log, calls: seq<Call>, rs: seq<Reading>) {
    && |rs| == |calls| && (clean ==> InBooks(log, calls, rs)) && (!clean && distinct ==> !Fine(log))
    && (distinct ==> DistinctIds(calls))
  }

  lemma Responds(clean: bool, distinct: bool, log: Log, calls: seq<Call>)
    requires Closed(clean, distinct, log)
    ensures Held(clean, distinct && DistinctIds(calls), Then(log, Response(calls)), calls)
    ensures calls == [] ==> Closed(clean, distinct, Then(log, Response(calls)))
  {
    assert Settled(Then(log, Response(calls))) <==> Settled(log) && multiset{} == Ids(calls);
  }

  lemma HeldOpens(clean: bool, distinct: bool, log: Log, calls: seq<Call>)
    requires Held(clean, distinct, log, calls)
    ensures Open(clean, distinct, log, calls, Unread(|calls|))
  {
    if clean {
      StartsUnread(log, calls);
    }
  }

  /** A response that is over was settled exactly when its calls were read alike, if their ids differ. */
  lemma OpenCloses(clean: bool, distinct: bool, log: Log, calls: seq<Call>, rs: seq<Reading>)
    requires Open(clean, distinct, log, calls, rs)
    ensures Closed(clean && AllAgree(rs), distinct, log)
  {
    if clean && AllAgree(rs) {
      AgreeSettles(log, calls, rs);
    } else if clean && distinct {
      SettledIff(log, calls, rs);
    } else if distinct && Settled(log) {
      OwesIsFine(log, multiset{});
    }
  }

  lemma GroupOpen(clean: bool, distinct: bool, log: Log, calls: seq<Call>, read: Reads, exclusive: nat, jobs: seq<Job>)
    requires Open(clean, distinct, log, calls, Unread(|calls|))
    ensures Open(clean, distinct, WithResults(log, calls, read, true, exclusive, jobs, |calls|), calls,
                 Grouped(|calls|, read))
  {
    if clean {
      GroupKeeps(log, calls, read, exclusive, jobs);
    }
    ResultsFine(log, calls, read, true, exclusive, jobs, |calls|);
  }

  lemma StopOpen(clean: bool, distinct: bool, log: Log, calls: seq<Call>, rs: seq<Reading>, x: nat)
    requires Open(clean, distinct, log, calls, rs) && x < |calls| && rs[x].collect
    ensures Open(clean, distinct, log, calls, rs[x := rs[x].(scan := false)])
  {
    if clean {
      StopKeeps(log, calls, rs, x);
    }
  }

  lemma CollectOpen(clean: bool, distinct: bool, log: Log, calls: seq<Call>, rs: seq<Reading>, x: nat, read: Reads,
                    jobs: seq<Job>)
    requires Open(clean, distinct, log, calls, rs) && x < |calls| && !rs[x].scan && rs[x].collect
    ensures Open(clean, distinct, WithResults(log, calls, read, false, x, jobs, |calls|), calls,
                 rs[x := rs[x].(collect := Parallel(read, x))])
  {
    if clean {
      CollectKeeps(log, calls, rs, x, read, jobs);
    }
    ResultsFine(log, calls, read, false, x, jobs, |calls|);
  }

  lemma InputOpen(clean: bool, distinct: bool, log: Log, calls: seq<Call>, rs: seq<Reading>, input: Log)
    requires Open(clean, distinct, log, calls, rs) && AllInput(input)
    ensures Open(clean, distinct, Cat(log, input), calls, rs)
  {
    BooksInputs(log, input, Left(calls, rs), Surplus(calls, rs));
  }

  lemma InputClosed(clean: bool, distinct: bool, log: Log, input: Log)
    requires Closed(clean, distinct, log) && AllInput(input)
    ensures Closed(clean, distinct, Cat(log, input))
  {
    BooksInputs(log, input, multiset{}, multiset{});
  }

  /** A resolved round leaves the calls that go on. */
  lemma DenialsHold(clean: bool, distinct: bool, log: Log, items: seq<Call>, gate: seq<Answer>)
    requires |gate| == |items| && Held(clean, distinct, log, items)
    ensures Held(clean, distinct, WithDenials(log, items, gate, |items|), Allowed(items, gate, |items|))
  {
    if clean {
      DenialsLeaveAllowed(log, items, gate);
    }
    DenialsFine(log, items, gate, |items|);
    if distinct {
      AllowedDistinct(items, gate, |items|);
    }
  }

  /** A run that is over answers no call twice, when no call was read for two results. */
  lemma OpenIsSound(clean: bool, distinct: bool, log: Log, calls: seq<Call>, rs: seq<Reading>)
    requires Open(clean, distinct, log, calls, rs)
    ensures clean && Singly(rs) ==> Sound(log)
  {
    if clean && Singly(rs) {
      SinglyIsSound(log, calls, rs);
    }
  }

  // ---------------------------------------------------------------- model requests

  // The turn at a model request, and whether all responses before it were clean and distinct.
  datatype Request = Request(log: Log, agreed: bool, distinct: bool)

  /**
   * Each request was made with exactly one result for each call where every response read its calls alike,
   * and where the ids of calls differ only then; and there are no more requests than allowed.
   */
  ghost predicate Shown(requests: seq<Request>, most: int) {
    && (forall i :: 0 <= i < |requests| ==> Closed(requests[i].agreed, requests[i].distinct, requests[i].log))
    && (|requests| > 0 ==> |requests| <= most)
  }

  lemma OneMoreRequest(requests: seq<Request>, r: Request, most: int)
    requires Shown(requests, most) && Closed(r.agreed, r.distinct, r.log) && |requests| < most
    ensures Shown(requests + [r], most)
  {
  }
}
