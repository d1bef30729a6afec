/**
 * The jobs of a parallel group are made for the calls that one scan reads as parallel, and their results are taken
 * by position for the calls that a later scan reads so.
 */
module TurnJobs {
  import opened TurnLog
  import opened TurnCalls

  /** The jobs of the group that a scan submits among the first calls, where each call has its own outcome. */
  function JobsOf(outcomes: seq<Job>, submitted: Reads, n: nat): (jobs: seq<Job>)
    requires n <= |outcomes|
    ensures |jobs| == ParallelTo(submitted, n)
  {
    if n == 0 then []
    else JobsOf(outcomes, submitted, n - 1) + if Parallel(submitted, n - 1) then [outcomes[n - 1]] else []
  }

  /** The job of a submitted call is behind those of the submitted calls before it. */
  lemma {:induction false} JobAt(outcomes: seq<Job>, submitted: Reads, n: nat, i: nat)
    requires i < n <= |outcomes| && Parallel(submitted, i)
    ensures ParallelTo(submitted, i) < |JobsOf(outcomes, submitted, n)|
    ensures JobsOf(outcomes, submitted, n)[ParallelTo(submitted, i)] == outcomes[i]
  {
    if i < n - 1 {
      JobAt(outcomes, submitted, n - 1, i);
    }
  }

  /** Each job is that of one submitted call. */
  lemma {:induction false} JobOf(outcomes: seq<Job>, submitted: Reads, n: nat, k: nat) returns (i: nat)
    requires n <= |outcomes| && k < ParallelTo(submitted, n)
    ensures i < n && Parallel(submitted, i) && ParallelTo(submitted, i) == k
    ensures JobsOf(outcomes, submitted, n)[k] == outcomes[i]
  {
    if k < ParallelTo(submitted, n - 1) {
      i := JobOf(outcomes, submitted, n - 1, k);
    } else {
      i := n - 1;
    }
  }

  lemma {:induction false} IndexIsCount(read: Reads, exclusive: nat, i: nat)
    ensures JobIndex(read, true, exclusive, i) == ParallelTo(read, i)
  {
    if i > 0 {
      IndexIsCount(read, exclusive, i - 1);
    }
  }

  /** The result of a call from its own outcome. */
  function OwnResult(call: Call, outcome: Job): Msg {
    JobResultOf(call, [outcome], 0)
  }

  /** The turn with the result of the own job for each of the first calls that a scan reads as parallel. */
  ghost function WithOwn(turn: Log, calls: seq<Call>, read: Reads, outcomes: seq<Job>, i: nat): Log
    requires i <= |calls| == |outcomes|
  {
    if i == 0 then turn
    else
      var before := WithOwn(turn, calls, read, outcomes, i - 1);
      if Parallel(read, i - 1) then Then(before, OwnResult(calls[i - 1], outcomes[i - 1])) else before
  }

  /** A call that collecting takes is at the position of its own job. */
  predicate OwnJob(submitted: Reads, read: Reads, i: nat) {
    Parallel(submitted, i) && ParallelTo(submitted, i) == ParallelTo(read, i)
  }

  ghost predicate OwnJobs(submitted: Reads, read: Reads, n: nat) {
    forall i :: 0 <= i < n && Parallel(read, i) ==> OwnJob(submitted, read, i)
  }

  /** Two scans read the first calls alike. */
  ghost predicate ReadAlike(a: Reads, b: Reads, n: nat) {
    forall i :: 0 <= i < n ==> Parallel(a, i) == Parallel(b, i)
  }

  // ---------------------------------------------------------------- which calls are at the place of their job

  lemma {:induction false} AlikeCounts(a: Reads, b: Reads, n: nat)
    requires ReadAlike(a, b, n)
    ensures ParallelTo(a, n) == ParallelTo(b, n)
  {
    if n > 0 {
      AlikeCounts(a, b, n - 1);
    }
  }

  lemma {:induction false} FewerCounts(submitted: Reads, read: Reads, n: nat)
    requires OwnJobs(submitted, read, n)
    ensures ParallelTo(read, n) <= ParallelTo(submitted, n)
    ensures ParallelTo(read, n) == ParallelTo(submitted, n) ==> ReadAlike(submitted, read, n)
  {
    if n > 0 {
      FewerCounts(submitted, read, n - 1);
    }
  }

  /**
   * Each call that collecting takes is at the position of its own job exactly when both scans read it, and all
   * calls before it, alike; and every submitted call gets the result of its own job exactly when they read all
   * calls alike.
   */
  lemma OwnJobsIff(submitted: Reads, read: Reads, n: nat)
    ensures OwnJobs(submitted, read, n) <==>
            forall i :: 0 <= i < n && Parallel(read, i) ==> ReadAlike(submitted, read, i + 1)
    ensures OwnJobs(submitted, read, n) && (forall i :: 0 <= i < n && Parallel(submitted, i) ==> Parallel(read, i)) <==>
            ReadAlike(submitted, read, n)
  {
    forall i | 0 <= i < n && Parallel(read, i) && OwnJobs(submitted, read, n)
      ensures ReadAlike(submitted, read, i + 1)
    {
      FewerCounts(submitted, read, i);
      assert OwnJob(submitted, read, i);
    }
    forall i | 0 <= i < n && Parallel(read, i) && ReadAlike(submitted, read, i + 1)
      ensures OwnJob(submitted, read, i)
    {
      AlikeCounts(submitted, read, i);
    }
    if OwnJobs(submitted, read, n) && forall i :: 0 <= i < n && Parallel(submitted, i) ==> Parallel(read, i) {
      assert ReadAlike(submitted, read, n);
    }
  }

  // ---------------------------------------------------------------- which result a call gets

  /** What collecting appends for a call, from the jobs of the submitted group. */
  function Taken(calls: seq<Call>, submitted: Reads, read: Reads, outcomes: seq<Job>, i: nat): Msg
    requires i < |calls| == |outcomes|
  {
    JobResultOf(calls[i], JobsOf(outcomes, submitted, |calls|), ParallelTo(read, i))
  }

  lemma TakesOwn(calls: seq<Call>, submitted: Reads, read: Reads, outcomes: seq<Job>, i: nat)
    requires i < |calls| == |outcomes| && OwnJob(submitted, read, i)
    ensures Taken(calls, submitted, read, outcomes, i) == OwnResult(calls[i], outcomes[i])
  {
    JobAt(outcomes, submitted, |calls|, i);
  }

  /** Outcomes that all differ show whose job a result is of. */
  function Marks(n: nat): (outcomes: seq<Job>)
    ensures |outcomes| == n && forall i :: 0 <= i < n ==> outcomes[i] == JobResult(seq(i, _ => 'x'), true)
  {
    seq(n, i requires 0 <= i < n => JobResult(seq(i, _ => 'x'), true))
  }

  lemma TakesOther(calls: seq<Call>, submitted: Reads, read: Reads, i: nat)
    requires i < |calls| && !OwnJob(submitted, read, i)
    ensures Taken(calls, submitted, read, Marks(|calls|), i) != OwnResult(calls[i], Marks(|calls|)[i])
  {
    var k, jobs := ParallelTo(read, i), JobsOf(Marks(|calls|), submitted, |calls|);
    if k < |jobs| {
      var j := JobOf(Marks(|calls|), submitted, |calls|, k);
      assert j != i;
      assert |seq(j, _ => 'x')| == j && |seq(i, _ => 'x')| == i;
    }
  }

  /** Collecting gives the own results up to a position exactly when it takes them call by call. */
  lemma {:induction false} ResultsAreOwn(turn: Log, calls: seq<Call>, submitted: Reads, read: Reads, exclusive: nat,
                                         outcomes: seq<Job>, i: nat)
    requires i <= |calls| == |outcomes|
    ensures WithResults(turn, calls, read, true, exclusive, JobsOf(outcomes, submitted, |calls|), i) ==
            WithOwn(turn, calls, read, outcomes, i) <==>
            forall k :: 0 <= k < i && Parallel(read, k) ==>
              Taken(calls, submitted, read, outcomes, k) == OwnResult(calls[k], outcomes[k])
  {
    if i > 0 {
      ResultsAreOwn(turn, calls, submitted, read, exclusive, outcomes, i - 1);
      IndexIsCount(read, exclusive, i - 1);
    }
  }

  /** Collecting gives each call of its group the result of its own job, whatever the outcomes are. */
  ghost predicate AllOwn(turn: Log, calls: seq<Call>, submitted: Reads, read: Reads, exclusive: nat) {
    forall outcomes: seq<Job> :: |outcomes| == |calls| ==>
      WithResults(turn, calls, read, true, exclusive, JobsOf(outcomes, submitted, |calls|), |calls|) ==
      WithOwn(turn, calls, read, outcomes, |calls|)
  }

  /**
   * Each result is that of the call's own job, whatever the jobs give, exactly when the scan at collection reads
   * each call that it takes, and all calls before it, as the submitting scan did.
   */
  lemma OwnResultsIff(turn: Log, calls: seq<Call>, submitted: Reads, read: Reads, exclusive: nat)
    ensures AllOwn(turn, calls, submitted, read, exclusive) <==>
            forall i :: 0 <= i < |calls| && Parallel(read, i) ==> ReadAlike(submitted, read, i + 1)
  {
    OwnJobsIff(submitted, read, |calls|);
    if OwnJobs(submitted, read, |calls|) {
      forall outcomes: seq<Job> | |outcomes| == |calls|
        ensures WithResults(turn, calls, read, true, exclusive, JobsOf(outcomes, submitted, |calls|), |calls|) ==
                WithOwn(turn, calls, read, outcomes, |calls|)
      {
        OwnCollects(turn, calls, submitted, read, exclusive, outcomes);
      }
    } else {
      OtherCollects(turn, calls, submitted, read, exclusive);
    }
  }

  lemma OwnCollects(turn: Log, calls: seq<Call>, submitted: Reads, read: Reads, exclusive: nat, outcomes: seq<Job>)
    requires OwnJobs(submitted, read, |calls|) && |outcomes| == |calls|
    ensures WithResults(turn, calls, read, true, exclusive, JobsOf(outcomes, submitted, |calls|), |calls|) ==
            WithOwn(turn, calls, read, outcomes, |calls|)
  {
    forall k | 0 <= k < |calls| && Parallel(read, k)
      ensures Taken(calls, submitted, read, outcomes, k) == OwnResult(calls[k], outcomes[k])
    {
      TakesOwn(calls, submitted, read, outcomes, k);
    }
    ResultsAreOwn(turn, calls, submitted, read, exclusive, outcomes, |calls|);
  }

  lemma OtherCollects(turn: Log, calls: seq<Call>, submitted: Reads, read: Reads, exclusive: nat)
    requires !OwnJobs(submitted, read, |calls|)
    ensures !AllOwn(turn, calls, submitted, read, exclusive)
  {
    var k :| 0 <= k < |calls| && Parallel(read, k) && !OwnJob(submitted, read, k);
    TakesOther(calls, submitted, read, k);
    ResultsAreOwn(turn, calls, submitted, read, exclusive, Marks(|calls|), |calls|);
  }
}
