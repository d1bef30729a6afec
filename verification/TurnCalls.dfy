/**
 * The calls of one response, split into the parallel group and the exclusive calls. Whether a call runs in
 * the group is read from the context each time that the calls are scanned, and can be read differently.
 */
module TurnCalls {
  import opened TurnLog

  // What one scan reads of each call.
  type Reads = seq<bool>

  predicate Parallel(read: Reads, i: nat) {
    i < |read| && read[i]
  }

  /** The ids, from a position on, of the calls that a scan reads as parallel, or of the others; and the rest. */
  ghost function GroupFrom(calls: seq<Call>, read: Reads, group: bool, i: nat, rest: multiset<string>)
    : multiset<string>
    decreases |calls| - i
  {
    if i >= |calls| then rest
    else if Parallel(read, i) == group then multiset{calls[i].id} + GroupFrom(calls, read, group, i + 1, rest)
    else GroupFrom(calls, read, group, i + 1, rest)
  }

  lemma {:induction false} GroupAndOne(calls: seq<Call>, read: Reads, group: bool, i: nat, id: string,
                                       rest: multiset<string>)
    ensures GroupFrom(calls, read, group, i, multiset{id} + rest) ==
            multiset{id} + GroupFrom(calls, read, group, i, rest)
    decreases |calls| - i
  {
    if i < |calls| {
      GroupAndOne(calls, read, group, i + 1, id, rest);
    }
  }

  /** The calls that one scan reads as parallel and the others are the calls of the response. */
  lemma {:induction false} GroupsMakeAll(calls: seq<Call>, read: Reads, i: nat)
    ensures IdsFrom(calls, i) == GroupFrom(calls, read, true, i, GroupFrom(calls, read, false, i, multiset{}))
    decreases |calls| - i
  {
    if i < |calls| {
      GroupsMakeAll(calls, read, i + 1);
      if !Parallel(read, i) {
        GroupAndOne(calls, read, true, i + 1, calls[i].id, GroupFrom(calls, read, false, i + 1, multiset{}));
      }
    }
  }

  /** The first position from start on that a scan does not read as parallel, or the number of calls. */
  function Next(read: Reads, start: nat, total: nat): (i: nat)
    ensures start <= total ==> start <= i <= total
    ensures i < total ==> !Parallel(read, i)
    ensures forall j :: start <= j < i && j < total ==> Parallel(read, j)
    decreases total - start
  {
    if start >= total || !Parallel(read, start) then start else Next(read, start + 1, total)
  }

  /** The next call from start on that this scan does not read as parallel. */
  method NextExclusive(calls: seq<Call>, read: Reads, start: nat) returns (i: nat)
    requires start <= |calls|
    ensures i == Next(read, start, |calls|)
    ensures start <= i <= |calls| && (i < |calls| ==> !Parallel(read, i))
    ensures forall j :: start <= j < i ==> Parallel(read, j)
  {
    i := start;
    while i < |calls| && Parallel(read, i)
      invariant start <= i <= |calls| && Next(read, i, |calls|) == Next(read, start, |calls|)
    {
      i := i + 1;
    }
  }

  /** How many of the first calls a scan reads as parallel. */
  function ParallelTo(read: Reads, i: nat): nat {
    if i == 0 then 0 else ParallelTo(read, i - 1) + if Parallel(read, i - 1) then 1 else 0
  }

  /** How many calls this scan reads as parallel. */
  method ParallelCount(calls: seq<Call>, read: Reads) returns (count: nat)
    ensures count == ParallelTo(read, |calls|)
    ensures count == 0 <==> forall i :: 0 <= i < |calls| ==> !Parallel(read, i)
  {
    count := 0;
    for i := 0 to |calls|
      invariant count == ParallelTo(read, i)
      invariant count == 0 <==> forall j :: 0 <= j < i ==> !Parallel(read, j)
    {
      if Parallel(read, i) {
        count := count + 1;
      }
    }
  }

  // ---------------------------------------------------------------- the results of a group

  datatype Job = NoResult | JobResult(text: string, ok: bool)

  const TOOL_ERROR := "tool error: the call returned no result"

  /** Whether collecting takes a call for one of the group that ran: the parallel one, or one exclusive call. */
  predicate InGroup(read: Reads, group: bool, exclusive: nat, i: nat) {
    Parallel(read, i) == group && (group || i == exclusive)
  }

  /** How many of the first calls are taken: the job of call i is the one at this index. */
  function JobIndex(read: Reads, group: bool, exclusive: nat, i: nat): nat {
    if i == 0 then 0
    else JobIndex(read, group, exclusive, i - 1) + if InGroup(read, group, exclusive, i - 1) then 1 else 0
  }

  function JobResultOf(call: Call, jobs: seq<Job>, index: nat): Msg {
    if index < |jobs| && jobs[index].JobResult? then Result(call.id, jobs[index].text, jobs[index].ok)
    else Result(call.id, TOOL_ERROR, false)
  }

  /** The turn with the results of the calls that are taken among the first ones. */
  ghost function WithResults(turn: Log, calls: seq<Call>, read: Reads, group: bool, exclusive: nat, jobs: seq<Job>,
                             i: nat): Log
    requires i <= |calls|
  {
    if i == 0 then turn
    else
      var before := WithResults(turn, calls, read, group, exclusive, jobs, i - 1);
      if !InGroup(read, group, exclusive, i - 1) then before
      else Then(before, JobResultOf(calls[i - 1], jobs, JobIndex(read, group, exclusive, i - 1)))
  }

  /** A call of the group that ran: one that is read as parallel, or the one that ran alone where it is not. */
  predicate Ran(read: Reads, group: bool, exclusive: nat, i: nat) {
    if group then i < |read| && read[i] else i == exclusive && !(i < |read| && read[i])
  }

  function RanBefore(read: Reads, group: bool, exclusive: nat, i: nat): nat {
    if i == 0 then 0 else RanBefore(read, group, exclusive, i - 1) + if Ran(read, group, exclusive, i - 1) then 1 else 0
  }

  /** A call of the group has the result of the job at its place, or the error where that gave none. */
  ghost predicate HasResult(turn: Log, after: Log, calls: seq<Call>, read: Reads, group: bool, exclusive: nat,
                            jobs: seq<Job>, i: nat)
    requires i < |calls|
  {
    var k := RanBefore(read, group, exclusive, i);
    Ran(read, group, exclusive, i) ==>
      if k < |jobs| && jobs[k].JobResult? then AddsResult(turn, after, k, calls[i].id, jobs[k].text, jobs[k].ok)
      else AddsResult(turn, after, k, calls[i].id, TOOL_ERROR, false)
  }

  /** The turn goes on with the results of the calls of the group among the first ones, in order, and nothing else. */
  ghost predicate HasResults(turn: Log, after: Log, calls: seq<Call>, read: Reads, group: bool, exclusive: nat,
                             jobs: seq<Job>, n: nat)
    requires n <= |calls|
  {
    && Extends(turn, after, RanBefore(read, group, exclusive, n))
    && forall i :: 0 <= i < n ==> HasResult(turn, after, calls, read, group, exclusive, jobs, i)
  }

  /** The reports are the calls of the group among the first ones, in order. */
  ghost predicate Reports(reports: seq<Call>, calls: seq<Call>, read: Reads, group: bool, exclusive: nat, n: nat)
    requires n <= |calls|
  {
    && |reports| == RanBefore(read, group, exclusive, n)
    && forall i :: 0 <= i < n ==> ReportsCall(reports, calls, read, group, exclusive, i)
  }

  ghost predicate ReportsCall(reports: seq<Call>, calls: seq<Call>, read: Reads, group: bool, exclusive: nat, i: nat)
    requires i < |calls|
  {
    var k := RanBefore(read, group, exclusive, i);
    Ran(read, group, exclusive, i) ==> k < |reports| && reports[k] == calls[i]
  }

  lemma NextReport(before: seq<Call>, after: seq<Call>, calls: seq<Call>, read: Reads, group: bool, exclusive: nat,
                   n: nat, k: nat)
    requires n < k == n + 1 <= |calls| && Reports(before, calls, read, group, exclusive, n)
    requires after == if InGroup(read, group, exclusive, n) then before + [calls[n]] else before
    ensures Reports(after, calls, read, group, exclusive, k)
  {
    forall i | 0 <= i < k ensures ReportsCall(after, calls, read, group, exclusive, i) {
      assert i < n ==> ReportsCall(before, calls, read, group, exclusive, i);
    }
  }

  lemma {:induction false} IndexIsRan(read: Reads, group: bool, exclusive: nat, i: nat)
    ensures JobIndex(read, group, exclusive, i) == RanBefore(read, group, exclusive, i)
  {
    if i > 0 {
      IndexIsRan(read, group, exclusive, i - 1);
    }
  }

  lemma NextResult(turn: Log, before: Log, after: Log, calls: seq<Call>, read: Reads, group: bool, exclusive: nat,
                   jobs: seq<Job>, n: nat, k: nat)
    requires n < k == n + 1 <= |calls| && HasResults(turn, before, calls, read, group, exclusive, jobs, n)
    requires var result := JobResultOf(calls[n], jobs, JobIndex(read, group, exclusive, n));
             after == if InGroup(read, group, exclusive, n) then Then(before, result) else before
    ensures HasResults(turn, after, calls, read, group, exclusive, jobs, k)
  {
    IndexIsRan(read, group, exclusive, n);
    AddsMore(turn, before, JobResultOf(calls[n], jobs, JobIndex(read, group, exclusive, n)));
    forall i | 0 <= i < k ensures HasResult(turn, after, calls, read, group, exclusive, jobs, i) {
      assert i < n ==> HasResult(turn, before, calls, read, group, exclusive, jobs, i);
    }
  }

  lemma {:induction false} ResultsAre(turn: Log, calls: seq<Call>, read: Reads, group: bool, exclusive: nat,
                                      jobs: seq<Job>, n: nat)
    requires n <= |calls|
    ensures HasResults(turn, WithResults(turn, calls, read, group, exclusive, jobs, n), calls, read, group, exclusive,
                       jobs, n)
  {
    if n > 0 {
      ResultsAre(turn, calls, read, group, exclusive, jobs, n - 1);
      var before := WithResults(turn, calls, read, group, exclusive, jobs, n - 1);
      NextResult(turn, before, WithResults(turn, calls, read, group, exclusive, jobs, n), calls, read, group, exclusive,
                 jobs, n - 1, n);
    }
  }

  /** Append the result of each call that this scan takes for one of the group that ran, in their order. */
  method AppendResults(turn: Log, calls: seq<Call>, read: Reads, group: bool, exclusive: nat, jobs: seq<Job>)
    returns (after: Log, reports: seq<Call>)
    ensures after == WithResults(turn, calls, read, group, exclusive, jobs, |calls|)
    ensures |reports| == JobIndex(read, group, exclusive, |calls|)
    ensures HasResults(turn, after, calls, read, group, exclusive, jobs, |calls|)
    ensures Reports(reports, calls, read, group, exclusive, |calls|)
  {
    ResultsAre(turn, calls, read, group, exclusive, jobs, |calls|);
    after, reports := turn, [];
    var index := 0;
    for i := 0 to |calls|
      invariant |reports| == index == JobIndex(read, group, exclusive, i)
      invariant Reports(reports, calls, read, group, exclusive, i)
      invariant after == WithResults(turn, calls, read, group, exclusive, jobs, i)
    {
      ghost var before := reports;
      if InGroup(read, group, exclusive, i) {
        after := Then(after, JobResultOf(calls[i], jobs, index));
        index := index + 1;
        reports := reports + [calls[i]];
      }
      NextReport(before, reports, calls, read, group, exclusive, i, i + 1);
    }
  }

  /** Collecting the parallel group answers the calls that it reads as parallel, and leaves the others. */
  lemma {:induction false} GroupAnswers(turn: Log, calls: seq<Call>, read: Reads, jobs: seq<Job>, i: nat,
                                        rest: multiset<string>)
    requires i <= |calls| && Owes(turn, GroupFrom(calls, read, true, 0, rest))
    ensures Owes(WithResults(turn, calls, read, true, 0, jobs, i), GroupFrom(calls, read, true, i, rest))
    decreases i
  {
    if i > 0 {
      GroupAnswers(turn, calls, read, jobs, i - 1, rest);
      var before := WithResults(turn, calls, read, true, 0, jobs, i - 1);
      if Parallel(read, i - 1) {
        AnswerOne(before, JobResultOf(calls[i - 1], jobs, JobIndex(read, true, 0, i - 1)),
                  GroupFrom(calls, read, true, i - 1, rest), GroupFrom(calls, read, true, i, rest));
      }
    }
  }

  /** Which call ran alone does not matter for the parallel group. */
  lemma {:induction false} GroupIndex(read: Reads, exclusive: nat, i: nat)
    ensures JobIndex(read, true, exclusive, i) == JobIndex(read, true, 0, i)
  {
    if i > 0 {
      GroupIndex(read, exclusive, i - 1);
    }
  }

  lemma {:induction false} GroupResults(
      turn: Log, calls: seq<Call>, read: Reads, exclusive: nat, jobs: seq<Job>, i: nat)
    requires i <= |calls|
    ensures WithResults(turn, calls, read, true, exclusive, jobs, i) ==
            WithResults(turn, calls, read, true, 0, jobs, i)
  {
    if i > 0 {
      GroupResults(turn, calls, read, exclusive, jobs, i - 1);
      GroupIndex(read, exclusive, i - 1);
    }
  }

  lemma {:induction false} NoneBefore(read: Reads, exclusive: nat, i: nat)
    requires i <= exclusive
    ensures JobIndex(read, false, exclusive, i) == 0
  {
    if i > 0 {
      NoneBefore(read, exclusive, i - 1);
    }
  }

  /** Collecting an exclusive call answers it, unless this scan reads it as parallel. */
  lemma {:induction false} OneResult(turn: Log, calls: seq<Call>, read: Reads, exclusive: nat, jobs: seq<Job>, i: nat)
    requires i <= |calls| && exclusive < |calls|
    ensures WithResults(turn, calls, read, false, exclusive, jobs, i) ==
            if i <= exclusive || Parallel(read, exclusive) then turn
            else Then(turn, JobResultOf(calls[exclusive], jobs, 0))
  {
    if i > 0 {
      OneResult(turn, calls, read, exclusive, jobs, i - 1);
      if i - 1 == exclusive {
        NoneBefore(read, exclusive, exclusive);
      }
    }
  }

  lemma {:induction false} ResultsFine(turn: Log, calls: seq<Call>, read: Reads, group: bool, exclusive: nat,
                                       jobs: seq<Job>, i: nat)
    requires i <= |calls|
    ensures Fine(WithResults(turn, calls, read, group, exclusive, jobs, i)) <==> Fine(turn)
  {
    if i > 0 {
      ResultsFine(turn, calls, read, group, exclusive, jobs, i - 1);
    }
  }
}
