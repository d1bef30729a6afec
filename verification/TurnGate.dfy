/** Slots of a gate round and their answers, and the log and the calls that these give. */
module TurnGate {
  import opened TurnLog
  import opened TurnReads

  // A slot of a round, waiting or filled in; where no text came with the answer it is empty.
  datatype Answer = Answer(answered: bool, allowed: bool, stop: bool, args: Edit, text: string)
  datatype Edit = Same | NewArgs(args: string)

  // A round with an id of this context whose answer goes to another process, and an answer that went out.
  datatype Relay = Relay(id: nat, after: bool, branch: string, rpcId: int)
  datatype RelayAnswer = RelayAnswer(relay: Relay, reply: Reply)
  datatype Reply = Reply(allowed: bool, args: Edit, text: string, stop: bool)

  function Unanswered(gate: seq<Answer>): nat {
    if gate == [] then 0 else (if gate[0].answered then 0 else 1) + Unanswered(gate[1..])
  }

  const FRESH_ANSWER := Answer(false, false, false, Same, "")

  function Fresh(n: nat): (gate: seq<Answer>)
    ensures |gate| == n && forall i :: 0 <= i < n ==> gate[i] == FRESH_ANSWER
  {
    seq(n, _ => FRESH_ANSWER)
  }

  /** A new round waits for every slot. */
  lemma {:induction false} FreshRound(gate: seq<Answer>)
    requires forall i :: 0 <= i < |gate| ==> !gate[i].answered
    ensures Unanswered(gate) == |gate|
  {
    if gate != [] {
      FreshRound(gate[1..]);
    }
  }

  lemma {:induction false} AnswerCounts(gate: seq<Answer>, i: nat, a: Answer)
    requires i < |gate| && !gate[i].answered && a.answered
    ensures Unanswered(gate) == Unanswered(gate[i := a]) + 1
  {
    if i == 0 {
      assert gate[i := a][1..] == gate[1..];
    } else {
      AnswerCounts(gate[1..], i - 1, a);
      assert gate[i := a][1..] == gate[1..][i - 1 := a];
    }
  }

  lemma {:induction false} AllAnswered(gate: seq<Answer>)
    ensures Unanswered(gate) == 0 <==> forall i :: 0 <= i < |gate| ==> gate[i].answered
  {
    if gate != [] {
      AllAnswered(gate[1..]);
      assert (forall i :: 0 <= i < |gate| ==> gate[i].answered) ==>
             forall i :: 0 <= i < |gate[1..]| ==> gate[1..][i].answered by {
        if forall i :: 0 <= i < |gate| ==> gate[i].answered {
          forall i | 0 <= i < |gate[1..]|
            ensures gate[1..][i].answered
          {
            assert gate[1..][i] == gate[i + 1];
          }
        }
      }
    }
  }

  function SetArgs(call: Call, args: Edit): Call {
    if call.native || args.Same? then call else call.(args := args.args)
  }

  ghost predicate DistinctRelays(relays: seq<Relay>) {
    forall i, j :: 0 <= i < j < |relays| ==> relays[i].id != relays[j].id
  }

  // ---------------------------------------------------------------- rounds that sub-agents asked for

  ghost predicate HasRelay(relays: seq<Relay>, id: nat, after: bool) {
    exists i :: 0 <= i < |relays| && relays[i].id == id && relays[i].after == after
  }

  /**
   * An answer to a relayed round: with one of the id and the kind, that one is answered and gone; with none
   * nothing changes.
   */
  ghost predicate Relayed(before: seq<Relay>, after: seq<Relay>, sentBefore: seq<RelayAnswer>, sent: seq<RelayAnswer>,
                          id: nat, kind: bool, reply: Reply) {
    if HasRelay(before, id, kind) then
      && !HasRelay(after, id, kind) && (forall r :: r in after ==> r in before)
      && exists r :: r in before && r.id == id && r.after == kind && sent == sentBefore + [RelayAnswer(r, reply)]
    else after == before && sent == sentBefore
  }

  function RemoveAt(relays: seq<Relay>, i: nat): seq<Relay>
    requires i < |relays|
  {
    relays[..i] + relays[i + 1..]
  }

  /** The first relayed round of an id. */
  method FindRelay(relays: seq<Relay>, id: nat) returns (i: nat)
    ensures i <= |relays| && (i < |relays| ==> relays[i].id == id)
    ensures forall j :: 0 <= j < i ==> relays[j].id != id
  {
    i := 0;
    while i < |relays| && relays[i].id != id
      invariant 0 <= i <= |relays|
      invariant forall j :: 0 <= j < i ==> relays[j].id != id
    {
      i := i + 1;
    }
  }

  /** A round that is taken is gone, and no other is. */
  lemma RemovedRelay(relays: seq<Relay>, i: nat)
    requires DistinctRelays(relays) && i < |relays|
    ensures DistinctRelays(RemoveAt(relays, i))
    ensures forall after :: !HasRelay(RemoveAt(relays, i), relays[i].id, after)
    ensures forall r :: r in RemoveAt(relays, i) ==> r in relays
  {
    var rest := RemoveAt(relays, i);
    forall j | 0 <= j < |rest|
      ensures rest[j] == relays[if j < i then j else j + 1] && rest[j] in relays
    {
    }
  }

  // ---------------------------------------------------------------- what a round makes of its calls

  /** A call that the gate denied; a call with no answer yet is still held. */
  predicate Denied(a: Answer) {
    a.answered && !a.allowed
  }

  /** The ids, from a position on, of the calls that the gate denied, or of the others; and the rest. */
  ghost function DeniedFrom(items: seq<Call>, gate: seq<Answer>, denied: bool, i: nat, rest: multiset<string>)
    : multiset<string>
    requires |gate| == |items|
    decreases |items| - i
  {
    if i >= |items| then rest
    else if Denied(gate[i]) == denied then multiset{items[i].id} + DeniedFrom(items, gate, denied, i + 1, rest)
    else DeniedFrom(items, gate, denied, i + 1, rest)
  }

  lemma {:induction false} DeniedAndOne(items: seq<Call>, gate: seq<Answer>, denied: bool, i: nat, id: string,
                                        rest: multiset<string>)
    requires |gate| == |items|
    ensures DeniedFrom(items, gate, denied, i, multiset{id} + rest) ==
            multiset{id} + DeniedFrom(items, gate, denied, i, rest)
    decreases |items| - i
  {
    if i < |items| {
      DeniedAndOne(items, gate, denied, i + 1, id, rest);
    }
  }

  ghost predicate SplitsFrom(items: seq<Call>, gate: seq<Answer>, denied: bool, i: nat)
    requires |gate| == |items|
  {
    IdsFrom(items, i) == DeniedFrom(items, gate, denied, i, DeniedFrom(items, gate, !denied, i, multiset{}))
  }

  lemma SplitsSame(items: seq<Call>, gate: seq<Answer>, denied: bool, i: nat)
    requires |gate| == |items| && i < |items| && Denied(gate[i]) == denied && SplitsFrom(items, gate, denied, i + 1)
    ensures SplitsFrom(items, gate, denied, i)
  {
  }

  lemma SplitsOther(items: seq<Call>, gate: seq<Answer>, denied: bool, i: nat)
    requires |gate| == |items| && i < |items| && Denied(gate[i]) != denied && SplitsFrom(items, gate, denied, i + 1)
    ensures SplitsFrom(items, gate, denied, i)
  {
    DeniedAndOne(items, gate, denied, i + 1, items[i].id, DeniedFrom(items, gate, !denied, i + 1, multiset{}));
  }

  /** The calls of a round are those of one kind with those of the other as the rest. */
  lemma {:induction false} DeniedAndHeld(items: seq<Call>, gate: seq<Answer>, denied: bool, i: nat)
    requires |gate| == |items|
    ensures SplitsFrom(items, gate, denied, i)
    decreases |items| - i
  {
    if i < |items| {
      DeniedAndHeld(items, gate, denied, i + 1);
      if Denied(gate[i]) == denied {
        SplitsSame(items, gate, denied, i);
      } else {
        SplitsOther(items, gate, denied, i);
      }
    }
  }

  predicate Stops(gate: seq<Answer>) {
    exists i :: 0 <= i < |gate| && gate[i].stop
  }

  /** The text of the first answer, from a position on, that stops the turn. */
  function StopText(gate: seq<Answer>, i: nat): string
    decreases |gate| - i
  {
    if i >= |gate| then "" else if gate[i].stop then gate[i].text else StopText(gate, i + 1)
  }

  /** The calls that the gate did not deny among the first ones, with the arguments that it gave them. */
  function Allowed(items: seq<Call>, gate: seq<Answer>, i: nat): seq<Call>
    requires i <= |items| == |gate|
  {
    if i == 0 then []
    else if Denied(gate[i - 1]) then Allowed(items, gate, i - 1)
    else Allowed(items, gate, i - 1) + [SetArgs(items[i - 1], gate[i - 1].args)]
  }

  /** The turn with the text of each denial among the first answers as the result of its call. */
  ghost function WithDenials(turn: Log, items: seq<Call>, gate: seq<Answer>, i: nat): Log
    requires i <= |items| == |gate|
  {
    if i == 0 then turn
    else
      var before := WithDenials(turn, items, gate, i - 1);
      if Denied(gate[i - 1]) then Then(before, Result(items[i - 1].id, gate[i - 1].text, false)) else before
  }

  /** How many of the first calls were denied. */
  function DeniedBefore(gate: seq<Answer>, i: nat): (n: nat)
    requires i <= |gate|
    ensures n <= i
  {
    if i == 0 then 0 else DeniedBefore(gate, i - 1) + if gate[i - 1].answered && !gate[i - 1].allowed then 1 else 0
  }

  /** The calls that were not denied go on, in order, each with the arguments that the gate gave it. */
  ghost predicate GoOn(calls: seq<Call>, items: seq<Call>, gate: seq<Answer>, n: nat)
    requires n <= |items| == |gate|
  {
    && |calls| == n - DeniedBefore(gate, n)
    && forall i :: 0 <= i < n && !(gate[i].answered && !gate[i].allowed) ==>
         var k := i - DeniedBefore(gate, i);
         && k < |calls| && calls[k].id == items[i].id && calls[k].native == items[i].native
         && calls[k].args == if items[i].native || gate[i].args.Same? then items[i].args else gate[i].args.args
  }

  /** Each call that was denied is answered by the text of its denial, in order, and no other one is. */
  ghost predicate AnswersDenied(turn: Log, after: Log, items: seq<Call>, gate: seq<Answer>, n: nat)
    requires n <= |items| == |gate|
  {
    && Extends(turn, after, DeniedBefore(gate, n))
    && forall i :: 0 <= i < n ==> AnswersDenial(turn, after, items, gate, i)
  }

  ghost predicate AnswersDenial(turn: Log, after: Log, items: seq<Call>, gate: seq<Answer>, i: nat)
    requires i < |items| == |gate|
  {
    gate[i].answered && !gate[i].allowed ==>
      AddsResult(turn, after, DeniedBefore(gate, i), items[i].id, gate[i].text, false)
  }

  /** Each call that was not denied is answered by the cause, in order, and no other one is. */
  ghost predicate AnswersHeld(turn: Log, after: Log, items: seq<Call>, gate: seq<Answer>, why: string, n: nat)
    requires n <= |items| == |gate|
  {
    && Extends(turn, after, n - DeniedBefore(gate, n))
    && forall i :: 0 <= i < n && !(gate[i].answered && !gate[i].allowed) ==>
         AddsResult(turn, after, i - DeniedBefore(gate, i), items[i].id, why, false)
  }

  lemma NextGoesOn(before: seq<Call>, after: seq<Call>, items: seq<Call>, gate: seq<Answer>, n: nat, k: nat)
    requires n < k == n + 1 <= |items| == |gate| && GoOn(before, items, gate, n)
    requires after == if Denied(gate[n]) then before else before + [SetArgs(items[n], gate[n].args)]
    ensures GoOn(after, items, gate, k)
  {
  }

  lemma {:induction false} AllowedGoOn(items: seq<Call>, gate: seq<Answer>, n: nat)
    requires n <= |items| == |gate|
    ensures GoOn(Allowed(items, gate, n), items, gate, n)
  {
    if n > 0 {
      AllowedGoOn(items, gate, n - 1);
      NextGoesOn(Allowed(items, gate, n - 1), Allowed(items, gate, n), items, gate, n - 1, n);
    }
  }

  /** The ids of the calls taken so far, with those of the held calls from here on. */
  ghost function TakenAndHeld(items: seq<Call>, gate: seq<Answer>, i: nat): multiset<string>
    requires i <= |items| == |gate|
  {
    DeniedFrom(items, gate, false, i, Ids(Allowed(items, gate, i)))
  }

  lemma TakeHeld(items: seq<Call>, gate: seq<Answer>, i: nat)
    requires i < |items| == |gate| && !Denied(gate[i])
    ensures TakenAndHeld(items, gate, i + 1) == TakenAndHeld(items, gate, i)
  {
    var before, call := Allowed(items, gate, i), SetArgs(items[i], gate[i].args);
    IdsSnoc(before, call, 0);
    DeniedAndOne(items, gate, false, i + 1, call.id, Ids(before));
  }

  lemma TakeOne(items: seq<Call>, gate: seq<Answer>, i: nat, k: nat)
    requires i < k == i + 1 <= |items| == |gate|
    ensures TakenAndHeld(items, gate, k) == TakenAndHeld(items, gate, i)
  {
    if !Denied(gate[i]) {
      TakeHeld(items, gate, i);
    }
  }

  lemma {:induction false} IdsOfAllowed(items: seq<Call>, gate: seq<Answer>, i: nat)
    requires i <= |items| == |gate|
    ensures TakenAndHeld(items, gate, i) == DeniedFrom(items, gate, false, 0, multiset{})
    decreases i
  {
    if i > 0 {
      IdsOfAllowed(items, gate, i - 1);
      TakeOne(items, gate, i - 1, i);
    }
  }

  lemma {:induction false} IdsSnoc(calls: seq<Call>, call: Call, i: nat)
    requires i <= |calls|
    ensures IdsFrom(calls + [call], i) == multiset{call.id} + IdsFrom(calls, i)
    decreases |calls| - i
  {
    if i < |calls| {
      IdsSnoc(calls, call, i + 1);
    }
  }

  lemma NextDenial(turn: Log, before: Log, after: Log, items: seq<Call>, gate: seq<Answer>, n: nat, k: nat)
    requires n < k == n + 1 <= |items| == |gate| && AnswersDenied(turn, before, items, gate, n)
    requires after == if Denied(gate[n]) then Then(before, Result(items[n].id, gate[n].text, false)) else before
    ensures AnswersDenied(turn, after, items, gate, k)
  {
    AddsMore(turn, before, Result(items[n].id, gate[n].text, false));
    forall i | 0 <= i < k ensures AnswersDenial(turn, after, items, gate, i) {
      assert i < n ==> AnswersDenial(turn, before, items, gate, i);
    }
  }

  lemma {:induction false} DenialsAnswerDenied(turn: Log, items: seq<Call>, gate: seq<Answer>, n: nat)
    requires n <= |items| == |gate|
    ensures AnswersDenied(turn, WithDenials(turn, items, gate, n), items, gate, n)
  {
    if n > 0 {
      var before, after := WithDenials(turn, items, gate, n - 1), WithDenials(turn, items, gate, n);
      DenialsAnswerDenied(turn, items, gate, n - 1);
      NextDenial(turn, before, after, items, gate, n - 1, n);
    }
  }

  /** Answer the denied calls of a round that has all its answers, and take the others to run. */
  method ResolveCalls(turn: Log, items: seq<Call>, gate: seq<Answer>) returns (after: Log, calls: seq<Call>)
    requires |gate| == |items|
    ensures after == WithDenials(turn, items, gate, |items|)
    ensures calls == Allowed(items, gate, |items|)
    ensures GoOn(calls, items, gate, |items|) && AnswersDenied(turn, after, items, gate, |items|)
  {
    AllowedGoOn(items, gate, |items|);
    DenialsAnswerDenied(turn, items, gate, |items|);
    after, calls := turn, [];
    for i := 0 to |items|
      invariant after == WithDenials(turn, items, gate, i)
      invariant calls == Allowed(items, gate, i)
    {
      if Denied(gate[i]) {
        after := Then(after, Result(items[i].id, gate[i].text, false));
      } else {
        calls := calls + [SetArgs(items[i], gate[i].args)];
      }
    }
  }

  lemma {:induction false} DenialsAnswer(turn: Log, items: seq<Call>, gate: seq<Answer>, i: nat, held: multiset<string>)
    requires i <= |items| == |gate| && Owes(turn, DeniedFrom(items, gate, true, 0, held))
    ensures Owes(WithDenials(turn, items, gate, i), DeniedFrom(items, gate, true, i, held))
    decreases i
  {
    if i > 0 {
      DenialsAnswer(turn, items, gate, i - 1, held);
      if Denied(gate[i - 1]) {
        AnswerOne(WithDenials(turn, items, gate, i - 1), Result(items[i - 1].id, gate[i - 1].text, false),
                  DeniedFrom(items, gate, true, i - 1, held), DeniedFrom(items, gate, true, i, held));
      }
    }
  }

  /** A round that has all its answers leaves a result owed for each call that goes on to run. */
  lemma DenialsLeaveAllowed(turn: Log, items: seq<Call>, gate: seq<Answer>)
    requires |gate| == |items| && Owes(turn, Ids(items))
    ensures Ids(Allowed(items, gate, |items|)) == DeniedFrom(items, gate, false, 0, multiset{})
    ensures Owes(WithDenials(turn, items, gate, |items|), Ids(Allowed(items, gate, |items|)))
  {
    DeniedAndHeld(items, gate, true, 0);
    DenialsAnswer(turn, items, gate, |items|, DeniedFrom(items, gate, false, 0, multiset{}));
    IdsOfAllowed(items, gate, |items|);
  }

  lemma {:induction false} DenialsFine(turn: Log, items: seq<Call>, gate: seq<Answer>, i: nat)
    requires i <= |items| == |gate|
    ensures Fine(WithDenials(turn, items, gate, i)) <==> Fine(turn)
  {
    if i > 0 {
      DenialsFine(turn, items, gate, i - 1);
    }
  }

  lemma {:induction false} AllowedFrom(items: seq<Call>, gate: seq<Answer>, i: nat, k: nat) returns (j: nat)
    requires i <= |items| == |gate| && k < |Allowed(items, gate, i)|
    ensures j < i && items[j].id == Allowed(items, gate, i)[k].id
    decreases i
  {
    j := i - 1;
    if Denied(gate[i - 1]) || k < |Allowed(items, gate, i - 1)| {
      j := AllowedFrom(items, gate, i - 1, k);
    }
  }

  /** Calls with different ids still have different ones when some are denied. */
  lemma {:induction false} AllowedDistinct(items: seq<Call>, gate: seq<Answer>, i: nat)
    requires i <= |items| == |gate| && DistinctIds(items)
    ensures DistinctIds(Allowed(items, gate, i))
    decreases i
  {
    if i > 0 {
      AllowedDistinct(items, gate, i - 1);
      var before := Allowed(items, gate, i - 1);
      forall k | 0 <= k < |before| ensures before[k].id != items[i - 1].id {
        var j := AllowedFrom(items, gate, i - 1, k);
      }
    }
  }

  /** The turn with why as the result of each call that was not denied among the first ones. */
  ghost function WithRefusals(turn: Log, items: seq<Call>, gate: seq<Answer>, why: string, i: nat): Log
    requires i <= |items| == |gate|
  {
    if i == 0 then turn
    else
      var before := WithRefusals(turn, items, gate, why, i - 1);
      if Denied(gate[i - 1]) then before else Then(before, Result(items[i - 1].id, why, false))
  }

  lemma NextRefusal(turn: Log, before: Log, after: Log, items: seq<Call>, gate: seq<Answer>, why: string, n: nat,
                    k: nat)
    requires n < k == n + 1 <= |items| == |gate| && AnswersHeld(turn, before, items, gate, why, n)
    requires after == if Denied(gate[n]) then before else Then(before, Result(items[n].id, why, false))
    ensures AnswersHeld(turn, after, items, gate, why, k)
  {
    AddsMore(turn, before, Result(items[n].id, why, false));
  }

  lemma {:induction false} RefusalsAnswerHeld(turn: Log, items: seq<Call>, gate: seq<Answer>, why: string, n: nat)
    requires n <= |items| == |gate|
    ensures AnswersHeld(turn, WithRefusals(turn, items, gate, why, n), items, gate, why, n)
  {
    if n > 0 {
      var before := WithRefusals(turn, items, gate, why, n - 1);
      RefusalsAnswerHeld(turn, items, gate, why, n - 1);
      NextRefusal(turn, before, WithRefusals(turn, items, gate, why, n), items, gate, why, n - 1, n);
    }
  }

  /** Answer the calls that the round still holds; a denied one is left as it is. */
  method RefuseCalls(turn: Log, items: seq<Call>, gate: seq<Answer>, why: string) returns (after: Log)
    requires |gate| == |items|
    ensures after == WithRefusals(turn, items, gate, why, |items|)
    ensures AnswersHeld(turn, after, items, gate, why, |items|)
  {
    RefusalsAnswerHeld(turn, items, gate, why, |items|);
    after := turn;
    for i := 0 to |items|
      invariant after == WithRefusals(turn, items, gate, why, i)
    {
      if !Denied(gate[i]) {
        after := Then(after, Result(items[i].id, why, false));
      }
    }
  }

  lemma {:induction false} RefusalsAnswer(turn: Log, items: seq<Call>, gate: seq<Answer>, why: string, i: nat,
                                          rest: multiset<string>)
    requires i <= |items| == |gate| && Owes(turn, DeniedFrom(items, gate, false, 0, rest))
    ensures Owes(WithRefusals(turn, items, gate, why, i), DeniedFrom(items, gate, false, i, rest))
    decreases i
  {
    if i > 0 {
      RefusalsAnswer(turn, items, gate, why, i - 1, rest);
      if !Denied(gate[i - 1]) {
        AnswerOne(WithRefusals(turn, items, gate, why, i - 1), Result(items[i - 1].id, why, false),
                  DeniedFrom(items, gate, false, i - 1, rest), DeniedFrom(items, gate, false, i, rest));
      }
    }
  }

  /** A cancel before a round has all its answers leaves exactly the calls owed that it had denied. */
  lemma RefusalsLeaveDenied(turn: Log, items: seq<Call>, gate: seq<Answer>, why: string)
    requires |gate| == |items| && Owes(turn, Ids(items))
    ensures Owes(WithRefusals(turn, items, gate, why, |items|), DeniedFrom(items, gate, true, 0, multiset{}))
  {
    DeniedAndHeld(items, gate, false, 0);
    RefusalsAnswer(turn, items, gate, why, |items|, DeniedFrom(items, gate, true, 0, multiset{}));
  }

  /** A stop of a round that has all its answers leaves nothing owed. */
  lemma StopAnswersAll(turn: Log, items: seq<Call>, gate: seq<Answer>, why: string)
    requires |gate| == |items| && Owes(turn, Ids(items))
    ensures Settled(WithRefusals(WithDenials(turn, items, gate, |items|), items, gate, why, |items|))
  {
    DenialsLeaveAllowed(turn, items, gate);
    RefusalsAnswer(WithDenials(turn, items, gate, |items|), items, gate, why, |items|, multiset{});
  }

  /** The texts of the answers after a group, as input of the user: those that do not stop the turn. */
  ghost function Contexts(gate: seq<Answer>, i: nat): Log
    requires i <= |gate|
  {
    if i == 0 then Start
    else
      var before := Contexts(gate, i - 1);
      if gate[i - 1].text == "" || gate[i - 1].stop then before else Then(before, User(gate[i - 1].text))
  }

  lemma {:induction false} ContextsAreInput(gate: seq<Answer>, i: nat)
    requires i <= |gate|
    ensures AllInput(Contexts(gate, i))
  {
    if i > 0 {
      ContextsAreInput(gate, i - 1);
    }
  }

  /** How many of the first answers add their text to the turn: those with one that do not stop it. */
  function ContextsBefore(gate: seq<Answer>, i: nat): nat
    requires i <= |gate|
  {
    if i == 0 then 0 else ContextsBefore(gate, i - 1) + if HasContext(gate[i - 1]) then 1 else 0
  }

  predicate HasContext(a: Answer) {
    |a.text| > 0 && !a.stop
  }

  /** Each text of an answer that does not stop the turn is added as input of the user, in order, and nothing else. */
  ghost predicate AddsContexts(turn: Log, after: Log, gate: seq<Answer>, n: nat)
    requires n <= |gate|
  {
    && Extends(turn, after, ContextsBefore(gate, n))
    && forall i :: 0 <= i < n && HasContext(gate[i]) ==>
         Adds(turn, after, ContextsBefore(gate, i), User(gate[i].text))
  }

  lemma {:induction false} ContextsAreAdded(turn: Log, gate: seq<Answer>, n: nat)
    requires n <= |gate|
    ensures AddsContexts(turn, Cat(turn, Contexts(gate, n)), gate, n)
  {
    if n > 0 {
      ContextsAreAdded(turn, gate, n - 1);
      AddsMore(turn, Cat(turn, Contexts(gate, n - 1)), User(gate[n - 1].text));
    }
  }

  /** Append the texts of the answers after a group; as input of the user they answer nothing. */
  method AddContexts(turn: Log, gate: seq<Answer>) returns (after: Log)
    ensures after == Cat(turn, Contexts(gate, |gate|)) && AllInput(Contexts(gate, |gate|))
    ensures AddsContexts(turn, after, gate, |gate|)
  {
    ContextsAreInput(gate, |gate|);
    ContextsAreAdded(turn, gate, |gate|);
    after := turn;
    for i := 0 to |gate|
      invariant after == Cat(turn, Contexts(gate, i))
    {
      if gate[i].text != "" && !gate[i].stop {
        after := Then(after, User(gate[i].text));
      }
    }
  }

  /** The first answer that stops the turn. */
  ghost predicate IsFirstStop(gate: seq<Answer>, i: int) {
    0 <= i < |gate| && gate[i].stop && forall j :: 0 <= j < i ==> !gate[j].stop
  }

  /** Whether an answer stops the turn, and the text of the first one that does. */
  method FirstStop(gate: seq<Answer>) returns (stop: bool, cause: string)
    ensures stop == Stops(gate) && cause == StopText(gate, 0)
    ensures if stop then exists i :: IsFirstStop(gate, i) && cause == gate[i].text
            else cause == "" && forall i :: 0 <= i < |gate| ==> !gate[i].stop
  {
    stop, cause := false, "";
    for i := 0 to |gate|
      invariant !stop ==> (forall j :: 0 <= j < i ==> !gate[j].stop) && cause == "" &&
                          StopText(gate, 0) == StopText(gate, i)
      invariant stop ==> Stops(gate) && cause == StopText(gate, 0)
      invariant stop ==> exists j :: IsFirstStop(gate, j) && cause == gate[j].text
    {
      if gate[i].stop && !stop {
        stop, cause := true, gate[i].text;
        assert IsFirstStop(gate, i);
      }
    }
  }

  /** A cancelled round leaves every call answered exactly when it had denied none so far. */
  lemma {:induction false} NoneDenied(items: seq<Call>, gate: seq<Answer>, i: nat)
    requires |gate| == |items|
    ensures DeniedFrom(items, gate, true, i, multiset{}) == multiset{} <==>
            forall j :: i <= j < |gate| ==> !Denied(gate[j])
    decreases |items| - i
  {
    if i < |items| {
      NoneDenied(items, gate, i + 1);
      if Denied(gate[i]) {
        assert items[i].id in DeniedFrom(items, gate, true, i, multiset{});
      }
    }
  }

  lemma CancelledRoundIsSettled(log: Log, items: seq<Call>, gate: seq<Answer>)
    requires |gate| == |items| && Owes(log, DeniedFrom(items, gate, true, 0, multiset{}))
    ensures Settled(log) <==> forall i :: 0 <= i < |gate| ==> !Denied(gate[i])
  {
    NoneDenied(items, gate, 0);
    if Settled(log) {
      OwesOnlyOne(log, multiset{}, DeniedFrom(items, gate, true, 0, multiset{}));
    }
  }
}
