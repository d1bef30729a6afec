/** The record of a turn: responses with tool calls, and the results that answer them. */
module TurnLog {

  // A native call has no arguments to replace.
  datatype Call = Call(id: string, args: string, native: bool)

  datatype Msg =
    | User(text: string)
    | Event(text: string)
    | Response(calls: seq<Call>)
    | Result(id: string, text: string, ok: bool)

  // Each message links to the ones before it.
  datatype Log = Start | Then(front: Log, last: Msg)

  function Cat(a: Log, b: Log): Log {
    if b.Start? then a else Then(Cat(a, b.front), b.last)
  }

  /** The messages of a log, in order. */
  ghost function Messages(log: Log): seq<Msg> {
    if log.Start? then [] else Messages(log.front) + [log.last]
  }

  /** The message at a position behind those of an earlier log. */
  ghost predicate Adds(before: Log, after: Log, k: nat, m: Msg) {
    var n := |Messages(before)|;
    n + k < |Messages(after)| && Messages(after)[n + k] == m
  }

  ghost predicate AddsResult(before: Log, after: Log, k: nat, id: string, text: string, ok: bool) {
    Adds(before, after, k, Result(id, text, ok))
  }

  /** A log goes on from an earlier one with some more messages. */
  ghost predicate Extends(before: Log, after: Log, count: nat) {
    |Messages(after)| == |Messages(before)| + count && Messages(before) <= Messages(after)
  }

  /** One more message is behind those that were added, and leaves them where they are. */
  lemma AddsMore(before: Log, after: Log, m: Msg)
    requires Messages(before) <= Messages(after)
    ensures Adds(before, Then(after, m), |Messages(after)| - |Messages(before)|, m)
    ensures Messages(before) <= Messages(Then(after, m))
    ensures forall k: nat, x :: Adds(before, after, k, x) ==> Adds(before, Then(after, m), k, x)
  {
  }

  /** The ids of the calls from a position on, with their number. */
  ghost function IdsFrom(calls: seq<Call>, i: nat): multiset<string>
    decreases |calls| - i
  {
    if i >= |calls| then multiset{} else multiset{calls[i].id} + IdsFrom(calls, i + 1)
  }

  ghost function Ids(calls: seq<Call>): multiset<string> {
    IdsFrom(calls, 0)
  }

  /**
   * The calls of the log that have no result are exactly owed: each result answered a call that
   * waited for one, and each response came when no call waited.
   */
  ghost predicate Owes(log: Log, owed: multiset<string>) {
    match log
    case Start => owed == multiset{}
    case Then(front, Response(calls)) => Owes(front, multiset{}) && owed == Ids(calls)
    case Then(front, Result(id, _, _)) => Owes(front, owed + multiset{id})
    case Then(front, _) => Owes(front, owed)
  }

  ghost predicate Settled(log: Log) {
    Owes(log, multiset{})
  }

  ghost predicate Sound(log: Log) {
    exists owed :: Owes(log, owed)
  }

  /** Input of the user and events come between documents and answer nothing. */
  predicate AllInput(log: Log) {
    log.Then? ==> AllInput(log.front) && (log.last.User? || log.last.Event?)
  }

  /** A result of one call of a log that owes it leaves the rest. */
  lemma AnswerOne(log: Log, result: Msg, owed: multiset<string>, rest: multiset<string>)
    requires result.Result? && Owes(log, owed) && owed == multiset{result.id} + rest
    ensures Owes(Then(log, result), rest)
  {
    assert rest + multiset{result.id} == owed;
  }

  // ---------------------------------------------------------------- one result for each call

  /** The calls of one message, and the calls that it answers. */
  ghost function Calls(m: Msg): multiset<string> {
    if m.Response? then Ids(m.calls) else multiset{}
  }

  ghost function Answers(m: Msg): multiset<string> {
    if m.Result? then multiset{m.id} else multiset{}
  }

  ghost function CallIds(log: Log): multiset<string> {
    if log.Start? then multiset{} else CallIds(log.front) + Calls(log.last)
  }

  ghost function ResultIds(log: Log): multiset<string> {
    if log.Start? then multiset{} else ResultIds(log.front) + Answers(log.last)
  }

  /** Every call has one result or is owed, and no call has more than one. */
  lemma {:induction false} OwedAreTheOthers(log: Log, owed: multiset<string>)
    requires Owes(log, owed)
    ensures CallIds(log) == ResultIds(log) + owed
  {
    match log
    case Start =>
    case Then(front, Response(calls)) => OwedAreTheOthers(front, multiset{});
    case Then(front, Result(id, _, _)) => OwedAreTheOthers(front, owed + multiset{id});
    case Then(front, _) => OwedAreTheOthers(front, owed);
  }

  lemma OwesOnlyOne(log: Log, a: multiset<string>, b: multiset<string>)
    requires Owes(log, a) && Owes(log, b)
    ensures a == b
  {
    OwedAreTheOthers(log, a);
    OwedAreTheOthers(log, b);
    assert a == CallIds(log) - ResultIds(log);
  }

  lemma AtMostOneResult(log: Log)
    requires Sound(log)
    ensures ResultIds(log) <= CallIds(log)
  {
    var owed :| Owes(log, owed);
    OwedAreTheOthers(log, owed);
  }

  /** In a settled log each call has exactly one result. */
  lemma ExactlyOneResult(log: Log)
    requires Settled(log)
    ensures ResultIds(log) == CallIds(log)
  {
    OwedAreTheOthers(log, multiset{});
  }

  lemma {:induction false} PrefixOwes(log: Log, tail: Log, owed: multiset<string>) returns (before: multiset<string>)
    requires Owes(Cat(log, tail), owed)
    ensures Owes(log, before)
  {
    match tail
    case Start => before := owed;
    case Then(front, Response(calls)) => before := PrefixOwes(log, front, multiset{});
    case Then(front, Result(id, _, _)) => before := PrefixOwes(log, front, owed + multiset{id});
    case Then(front, _) => before := PrefixOwes(log, front, owed);
  }

  ghost predicate NoResponse(log: Log) {
    log.Then? ==> NoResponse(log.front) && !log.last.Response?
  }

  lemma {:induction false} OwedAfter(log: Log, between: Log, owed: multiset<string>)
    requires NoResponse(between) && Owes(Cat(log, between), owed)
    ensures Owes(log, ResultIds(between) + owed)
  {
    match between
    case Start =>
      assert multiset{} + owed == owed;
    case Then(front, Result(id, _, _)) =>
      OwedAfter(log, front, owed + multiset{id});
      assert ResultIds(front) + (owed + multiset{id}) == ResultIds(between) + owed;
    case Then(front, User(_)) =>
      OwedAfter(log, front, owed);
      assert ResultIds(between) == ResultIds(front);
    case Then(front, Event(_)) =>
      OwedAfter(log, front, owed);
      assert ResultIds(between) == ResultIds(front);
    case Then(front, Response(_)) =>
  }

  /**
   * The results between a response and the next one, or the end of a settled log, are exactly those of
   * its own calls: none is missing, doubled or late.
   */
  lemma ResponseIsAnswered(before: Log, calls: seq<Call>, between: Log)
    requires NoResponse(between)
    requires var log := Cat(Then(before, Response(calls)), between);
             Settled(log) || exists next, after :: Sound(Cat(Then(log, Response(next)), after))
    ensures ResultIds(between) == Ids(calls)
  {
    var log := Cat(Then(before, Response(calls)), between);
    if !Settled(log) {
      var next, after :| Sound(Cat(Then(log, Response(next)), after));
      var owed :| Owes(Cat(Then(log, Response(next)), after), owed);
      var _ := PrefixOwes(Then(log, Response(next)), after, owed);
    }
    OwedAfter(Then(before, Response(calls)), between, multiset{});
    assert ResultIds(between) + multiset{} == ResultIds(between);
  }

  // ---------------------------------------------------------------- calls with more than one result

  /**
   * The calls since the last response with no result are owed, and the results beyond the first of a call
   * are surplus; every earlier response was settled when the next one came.
   */
  ghost predicate Books(log: Log, owed: multiset<string>, surplus: multiset<string>) {
    match log
    case Start => owed == surplus
    case Then(front, Response(calls)) => Settled(front) && owed == Ids(calls) + surplus
    case Then(front, Result(id, _, _)) => Books(front, owed + multiset{id}, surplus)
    case Then(front, _) => Books(front, owed, surplus)
  }

  /** Every earlier response was settled when the next one came; nothing that is appended changes that. */
  ghost predicate Fine(log: Log) {
    log.Then? ==> Fine(log.front) && (log.last.Response? ==> Settled(log.front))
  }

  lemma {:induction false} OwesBooks(log: Log, owed: multiset<string>)
    ensures Owes(log, owed) <==> Books(log, owed, multiset{})
  {
    match log
    case Start =>
    case Then(front, Response(calls)) => assert Ids(calls) + multiset{} == Ids(calls);
    case Then(front, Result(id, _, _)) => OwesBooks(front, owed + multiset{id});
    case Then(front, User(_)) => OwesBooks(front, owed);
    case Then(front, Event(_)) => OwesBooks(front, owed);
  }

  lemma SumsAlike(a: multiset<string>, b: multiset<string>, m: multiset<string>)
    ensures a + m == b + m <==> a == b
  {
    if a + m == b + m {
      assert a == (a + m) - m == (b + m) - m == b;
    }
  }

  lemma SumGroup(a: multiset<string>, b: multiset<string>, m: multiset<string>)
    ensures (a + b) + m == a + (b + m)
  {
  }

  lemma SumOrder(a: multiset<string>, b: multiset<string>, m: multiset<string>)
    ensures (a + b) + m == (a + m) + b
  {
  }

  /** A call that is owed and answered once too often cancels out. */
  lemma {:induction false} BooksShift(log: Log, owed: multiset<string>, surplus: multiset<string>, m: multiset<string>)
    ensures Books(log, owed + m, surplus + m) <==> Books(log, owed, surplus)
  {
    match log
    case Start => SumsAlike(owed, surplus, m);
    case Then(front, Response(calls)) =>
      assert Ids(calls) + (surplus + m) == (Ids(calls) + surplus) + m;
      SumsAlike(owed, Ids(calls) + surplus, m);
    case Then(front, Result(id, _, _)) =>
      BooksShift(front, owed + multiset{id}, surplus, m);
      SumOrder(owed, multiset{id}, m);
    case Then(front, User(_)) => BooksShift(front, owed, surplus, m);
    case Then(front, Event(_)) => BooksShift(front, owed, surplus, m);
  }

  lemma {:induction false} BooksCount(log: Log, owed: multiset<string>, surplus: multiset<string>)
    requires Books(log, owed, surplus)
    ensures CallIds(log) + surplus == ResultIds(log) + owed
  {
    match log
    case Start =>
    case Then(front, Response(calls)) =>
      ExactlyOneResult(front);
      SumGroup(CallIds(front), Ids(calls), surplus);
      assert ResultIds(log) == ResultIds(front);
    case Then(front, Result(id, _, _)) =>
      BooksCount(front, owed + multiset{id}, surplus);
      assert CallIds(log) == CallIds(front);
      SumGroup(ResultIds(front), owed, multiset{id});
      SumOrder(ResultIds(front), owed, multiset{id});
    case Then(front, User(_)) =>
      BooksCount(front, owed, surplus);
      assert CallIds(log) == CallIds(front) && ResultIds(log) == ResultIds(front);
    case Then(front, Event(_)) =>
      BooksCount(front, owed, surplus);
      assert CallIds(log) == CallIds(front) && ResultIds(log) == ResultIds(front);
  }

  /** A log is settled exactly when what it owes is what it has too much. */
  lemma BooksSettled(log: Log, owed: multiset<string>, surplus: multiset<string>)
    requires Books(log, owed, surplus)
    ensures Settled(log) <==> owed == surplus
  {
    if owed == surplus {
      assert multiset{} + owed == owed;
      BooksShift(log, multiset{}, multiset{}, owed);
      OwesBooks(log, multiset{});
    }
    if Settled(log) {
      BooksCount(log, owed, surplus);
      ExactlyOneResult(log);
      assert owed == (ResultIds(log) + owed) - ResultIds(log);
      assert surplus == (CallIds(log) + surplus) - CallIds(log);
    }
  }

  /** One more result of a call that has one is surplus. */
  lemma AnswerAgain(log: Log, result: Msg, owed: multiset<string>, surplus: multiset<string>)
    requires result.Result? && Books(log, owed, surplus)
    ensures Books(Then(log, result), owed, surplus + multiset{result.id})
  {
    BooksShift(log, owed, surplus, multiset{result.id});
  }

  lemma AnswerFirst(log: Log, result: Msg, owed: multiset<string>, rest: multiset<string>, surplus: multiset<string>)
    requires result.Result? && Books(log, owed, surplus) && owed == multiset{result.id} + rest
    ensures Books(Then(log, result), rest, surplus)
  {
    assert rest + multiset{result.id} == owed;
  }

  lemma {:induction false} OwesIsFine(log: Log, owed: multiset<string>)
    requires Owes(log, owed)
    ensures Fine(log)
  {
    match log
    case Start =>
    case Then(front, Response(calls)) => OwesIsFine(front, multiset{});
    case Then(front, Result(id, _, _)) => OwesIsFine(front, owed + multiset{id});
    case Then(front, User(_)) => OwesIsFine(front, owed);
    case Then(front, Event(_)) => OwesIsFine(front, owed);
  }

  lemma {:induction false} BooksInputs(log: Log, input: Log, owed: multiset<string>, surplus: multiset<string>)
    requires AllInput(input)
    ensures Books(Cat(log, input), owed, surplus) <==> Books(log, owed, surplus)
    ensures Owes(Cat(log, input), owed) <==> Owes(log, owed)
    ensures Fine(Cat(log, input)) <==> Fine(log)
  {
    if input.Then? {
      BooksInputs(log, input.front, owed, surplus);
    }
  }
}
