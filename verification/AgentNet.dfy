/**
 * Requests of agents on their way through a tree of processes. A process forwards a request from one
 * connection to another one, and the answer travels back; each end of a connection can fail or close at
 * any time. The steps below are those of all processes; a list of one process holds the requests that
 * its ends of connections carry. A loop that settles every item of a list is one step for each item.
 */
module AgentNet {
  // A connection between two processes.
  datatype Conn = Conn(parent: nat, child: nat, serial: nat) {
    predicate Has(p: nat) {
      p == parent || p == child
    }

    function Other(p: nat): nat {
      if p == parent then child else parent
    }
  }

  datatype End = End(process: nat, conn: Conn)

  datatype Answer = Value(value: nat) | Failed

  // A request that a process sent: its own one, or one that it forwards for another process.
  datatype Request = Request(client: nat, conn: Conn, own: bool) {
    function ClientEnd(): End {
      End(client, conn)
    }

    function ServerEnd(): End {
      End(conn.Other(client), conn)
    }
  }

  /**
   * Requests have the numbers of their places in `requests`. In transit are the request frames `asked`
   * and the answer frames `inbound`. Clients wait for `pending`; servers hold `questions` and `forwards`,
   * which maps a request sent onward to the one that it answers. An end that failed delivers nothing; an
   * end that closed is gone. The rest is history: how often and with what each request was answered, what
   * servers answered themselves, what each request was sent onward as, what was dropped with its
   * connection, and how often and with what the own requests of processes completed.
   */
  datatype State = State(
    requests: seq<Request>,
    asked: set<nat>,
    inbound: set<nat>,
    pending: set<nat>,
    questions: set<nat>,
    forwards: map<nat, nat>,
    failed: set<End>,
    closed: set<End>,
    replies: multiset<nat>,
    answers: map<nat, Answer>,
    given: map<nat, Answer>,
    onward: map<nat, nat>,
    dropped: set<nat>,
    completed: multiset<nat>,
    got: map<nat, Answer>) {

    predicate IsRequest(k: nat) {
      k < |requests|
    }

    predicate Silent(e: End) {
      e in failed || e in closed
    }
  }

  const EMPTY := State([], {}, {}, {}, {}, map[], {}, {}, multiset{}, map[], map[], map[], {}, multiset{}, map[])

  /** Write an answer to the connection of a request. */
  function Reply(s: State, j: nat, a: Answer): State {
    s.(inbound := s.inbound + {j}, replies := s.replies + multiset{j}, answers := s.answers[j := a])
  }

  function Send(s: State, client: nat, conn: Conn, own: bool): State {
    var k := |s.requests|;
    s.(requests := s.requests + [Request(client, conn, own)], asked := s.asked + {k}, pending := s.pending + {k})
  }

  // What a server does with a request: answer it, put it to the user, or send it onward.
  datatype Decision = Answers(answer: Answer) | Holds | Passes(conn: Conn)

  function GiveAnswer(s: State, j: nat, a: Answer): State {
    Reply(s, j, a).(given := s.given[j := a])
  }

  /** Send a request onward; it fails at once on its own connection and on one that is gone. */
  function Forward(s: State, j: nat, conn: Conn): State
    requires s.IsRequest(j)
  {
    var server := s.requests[j].ServerEnd().process;
    if conn == s.requests[j].conn || !conn.Has(server) || End(server, conn) in s.closed then
      GiveAnswer(s, j, Failed)
    else
      var k := |s.requests|;
      Send(s, server, conn, false).(forwards := s.forwards[k := j], onward := s.onward[j := k])
  }

  function Serve(s: State, j: nat, d: Decision): State {
    if j !in s.asked || !s.IsRequest(j) || s.Silent(s.requests[j].ServerEnd()) then s
    else
      var t := s.(asked := s.asked - {j});
      match d
      case Answers(a) => GiveAnswer(t, j, a)
      case Holds => t.(questions := t.questions + {j})
      case Passes(conn) => Forward(t, j, conn)
  }

  /** The client of a request learns its answer: an own request completes, a forwarded one is answered. */
  function Complete(s: State, k: nat, a: Answer): State {
    var t := s.(pending := s.pending - {k});
    if k in s.forwards then Reply(t, s.forwards[k], a).(forwards := s.forwards - {k})
    else t.(completed := s.completed + multiset{k}, got := s.got[k := a])
  }

  function Deliver(s: State, k: nat): State {
    if k !in s.inbound || !s.IsRequest(k) || s.Silent(s.requests[k].ClientEnd()) || k !in s.answers then s
    else
      var t := s.(inbound := s.inbound - {k});
      if k in s.pending then Complete(t, k, s.answers[k]) else t
  }

  /** The connection of a pending request failed. */
  function FailPending(s: State, k: nat): State {
    if k in s.pending && s.IsRequest(k) && s.requests[k].ClientEnd() in s.failed then Complete(s, k, Failed) else s
  }

  /** A closed connection: drop a question that came on it. */
  function SweepQuestion(s: State, j: nat): State {
    if j in s.questions && s.IsRequest(j) && s.requests[j].ServerEnd() in s.closed then
      s.(questions := s.questions - {j}, dropped := s.dropped + {j})
    else s
  }

  /** A closed connection: drop a forward from it, and answer one to it. */
  function SweepForward(s: State, k: nat): State {
    if k !in s.forwards || !s.IsRequest(k) || !s.IsRequest(s.forwards[k]) then s
    else
      var j := s.forwards[k];
      var t := s.(forwards := s.forwards - {k}, pending := s.pending - {k});
      if s.requests[j].ServerEnd() in s.closed then t.(dropped := s.dropped + {j})
      else if s.requests[k].ClientEnd() in s.closed then Reply(t, j, Failed)
      else s
  }

  /** A closed connection: complete an own request on it. */
  function SweepPending(s: State, k: nat): State {
    if k in s.pending && s.IsRequest(k) && s.requests[k].ClientEnd() in s.closed && k !in s.forwards then
      Complete(s, k, Failed)
    else s
  }

  datatype Action =
    | DoSubmit(client: nat, conn: Conn)
    | DoServe(j: nat, decision: Decision)
    | DoAnswer(j: nat, answer: Answer)
    | DoDeliver(k: nat)
    | DoFail(end: End)
    | DoFailPending(k: nat)
    | DoClose(end: End)
    | DoSweepQuestion(j: nat)
    | DoSweepForward(k: nat)
    | DoSweepPending(k: nat)

  function Step(s: State, a: Action): State {
    match a
    case DoSubmit(client, conn) =>
      if conn.Has(client) && End(client, conn) !in s.closed then Send(s, client, conn, true) else s
    case DoServe(j, d) => Serve(s, j, d)
    case DoAnswer(j, answer) =>
      if j in s.questions then GiveAnswer(s.(questions := s.questions - {j}), j, answer) else s
    case DoDeliver(k) => Deliver(s, k)
    case DoFail(end) => s.(failed := s.failed + {end})
    case DoFailPending(k) => FailPending(s, k)
    case DoClose(end) => s.(closed := s.closed + {end})
    case DoSweepQuestion(j) => SweepQuestion(s, j)
    case DoSweepForward(k) => SweepForward(s, k)
    case DoSweepPending(k) => SweepPending(s, k)
  }

  datatype Trace = Start | Then(before: Trace, action: Action)

  function Run(t: Trace): State {
    match t
    case Start => EMPTY
    case Then(before, action) => Step(Run(before), action)
  }
}
