/** Moving bytes into a private copy: the copy loop, and the probe of a method that workers share. */
module CasCopy {
  import opened Options

  datatype Method = Nothing | Probing | Reflink | CopyRange | Sendfile

  predicate Published(m: Method) {
    m == Reflink || m == CopyRange || m == Sendfile
  }

  const CHUNK := 0x4000_0000

  // What a system call that moves bytes answers: it moves some, and at most as many as asked.
  datatype Outcome = Moved(count: nat) | Interrupted | Unsupported | Refused

  datatype Status = Going | Complete | Failed

  /** A copy under way: the method in use, the last one that moved bytes, what it moved, what is left. */
  datatype Copy = Copy(current: Method, used: Method, copied: nat, left: nat, status: Status)

  function Begin(size: nat, m: Method): Copy {
    Copy(if m == CopyRange || m == Sendfile then m else CopyRange, m, 0, size, if size == 0 then Complete else Going)
  }

  function Asked(left: nat): nat {
    if left > CHUNK then CHUNK else left
  }

  /** One call of the copy loop; a call that moves nothing is a failure, one that moves too much does not occur. */
  function Chunk(c: Copy, outcome: Outcome): Copy {
    if !c.status.Going? then c
    else
      match outcome
      case Interrupted => c
      case Unsupported =>
        if c.current == CopyRange then c.(current := Sendfile) else c.(status := Failed)
      case Refused => c.(status := Failed)
      case Moved(count) =>
        if count == 0 then c.(status := Failed)
        else if count > Asked(c.left) then c
        else Copy(c.current, c.current, c.copied + count, c.left - count,
                  if count == c.left then Complete else Going)
  }

  function Chunks(c: Copy, outcomes: seq<Outcome>, from: nat): Copy
    requires from <= |outcomes|
    decreases |outcomes| - from
  {
    if from == |outcomes| || !c.status.Going? then c else Chunks(Chunk(c, outcomes[from]), outcomes, from + 1)
  }

  ghost predicate Counts(c: Copy, size: nat) {
    && c.copied + c.left == size && (c.status.Going? ==> c.left > 0) && (c.status.Complete? ==> c.left == 0)
    && (c.current == CopyRange || c.current == Sendfile)
    && (c.copied > 0 ==> c.used == CopyRange || c.used == Sendfile)
  }

  /** A complete copy moved exactly its size; one under way has moved what is not left. */
  lemma {:induction false} ChunksCount(c: Copy, outcomes: seq<Outcome>, from: nat, size: nat)
    requires from <= |outcomes| && Counts(c, size)
    ensures Counts(Chunks(c, outcomes, from), size)
    decreases |outcomes| - from
  {
    if from < |outcomes| && c.status.Going? {
      ChunksCount(Chunk(c, outcomes[from]), outcomes, from + 1, size);
    }
  }

  // ---------------------------------------------------------------- when a copy succeeds

  /** What the first calls moved; a call moves at most 1 GiB, and at most what is left. */
  function Total(size: nat, outcomes: seq<Outcome>, n: nat): (total: nat)
    requires n <= |outcomes|
    ensures total <= size
  {
    if n == 0 then 0
    else
      var before := Total(size, outcomes, n - 1);
      match outcomes[n - 1]
      case Moved(count) => if count <= 0x4000_0000 && before + count <= size then before + count else before
      case _ => before
  }

  /** The copy uses sendfile: it began with it, or a call before was not supported. */
  predicate FellBack(m: Method, outcomes: seq<Outcome>, n: nat)
    requires n <= |outcomes|
  {
    m == Sendfile || exists i :: 0 <= i < n && outcomes[i] == Unsupported
  }

  /** A call does not end the copy: it was interrupted, moved something, or was the first one not supported. */
  predicate GoesOn(m: Method, outcomes: seq<Outcome>, i: nat)
    requires i < |outcomes|
  {
    match outcomes[i]
    case Interrupted => true
    case Unsupported => !FellBack(m, outcomes, i)
    case Refused => false
    case Moved(count) => count > 0
  }

  /** With the first calls, and not before, the copy has moved its size. */
  predicate Succeeds(size: nat, m: Method, outcomes: seq<Outcome>, n: nat) {
    && n <= |outcomes| && Total(size, outcomes, n) == size && (n > 0 ==> Total(size, outcomes, n - 1) < size)
    && forall i :: 0 <= i < n ==> GoesOn(m, outcomes, i)
  }

  /** The method that moved the last bytes. */
  function MovedBy(m: Method, outcomes: seq<Outcome>, n: nat): Method
    requires n <= |outcomes|
  {
    if n == 0 then m else if FellBack(m, outcomes, n) then Sendfile else CopyRange
  }

  /** The copy after the first calls, when none of them ended it. */
  predicate Underway(size: nat, m: Method, outcomes: seq<Outcome>, n: nat, c: Copy)
    requires n <= |outcomes|
  {
    && c.current == (if FellBack(m, outcomes, n) then Sendfile else CopyRange)
    && c.copied == Total(size, outcomes, n) < size && c.left == size - c.copied && c.status == Going
  }

  lemma OneChunk(size: nat, m: Method, outcomes: seq<Outcome>, n: nat, c: Copy)
    requires n < |outcomes| && Underway(size, m, outcomes, n, c)
    ensures var d := Chunk(c, outcomes[n]);
            && (!GoesOn(m, outcomes, n) ==> d.status == Failed)
            && (GoesOn(m, outcomes, n) && Total(size, outcomes, n + 1) < size ==>
                  Underway(size, m, outcomes, n + 1, d))
            && (GoesOn(m, outcomes, n) && Total(size, outcomes, n + 1) == size ==>
                  d.status == Complete && d.used == MovedBy(m, outcomes, n + 1) && d.copied == size)
  {
    assert FellBack(m, outcomes, n + 1) == (FellBack(m, outcomes, n) || outcomes[n] == Unsupported);
  }

  lemma {:induction false} CopyFrom(size: nat, m: Method, outcomes: seq<Outcome>, n: nat, c: Copy)
    requires n <= |outcomes| && Underway(size, m, outcomes, n, c)
    requires forall i :: 0 <= i < n ==> GoesOn(m, outcomes, i)
    ensures Ends(size, m, outcomes, Chunks(c, outcomes, n))
    decreases |outcomes| - n
  {
    if n < |outcomes| {
      OneChunk(size, m, outcomes, n, c);
      var d := Chunk(c, outcomes[n]);
      if !GoesOn(m, outcomes, n) {
        NoSuccess(size, m, outcomes, n);
      } else if Total(size, outcomes, n + 1) < size {
        CopyFrom(size, m, outcomes, n + 1, d);
      } else {
        assert Succeeds(size, m, outcomes, n + 1);
      }
    } else {
      NoSuccess(size, m, outcomes, n);
    }
  }

  /** How a copy ends: complete exactly when its calls move its size, by the method that moved the last bytes. */
  ghost predicate Ends(size: nat, m: Method, outcomes: seq<Outcome>, c: Copy) {
    && (c.status.Complete? <==> exists n :: Succeeds(size, m, outcomes, n))
    && (c.status.Complete? ==>
          c.copied == size && exists n :: Succeeds(size, m, outcomes, n) && c.used == MovedBy(m, outcomes, n))
  }

  lemma {:induction false} TotalGrows(size: nat, outcomes: seq<Outcome>, a: nat, b: nat)
    requires a <= b <= |outcomes|
    ensures Total(size, outcomes, a) <= Total(size, outcomes, b)
    decreases b
  {
    if a < b {
      TotalGrows(size, outcomes, a, b - 1);
    }
  }

  lemma NoSuccess(size: nat, m: Method, outcomes: seq<Outcome>, n: nat)
    requires n <= |outcomes| && Total(size, outcomes, n) < size
    requires n == |outcomes| || !GoesOn(m, outcomes, n)
    ensures !exists k :: Succeeds(size, m, outcomes, k)
  {
    forall k: nat ensures !Succeeds(size, m, outcomes, k) {
      if k <= n {
        TotalGrows(size, outcomes, k, n);
      }
    }
  }

  lemma CopyEnds(size: nat, m: Method, outcomes: seq<Outcome>)
    ensures Ends(size, m, outcomes, Chunks(Begin(size, m), outcomes, 0))
  {
    if size > 0 {
      CopyFrom(size, m, outcomes, 0, Begin(size, m));
    } else {
      assert Succeeds(size, m, outcomes, 0);
    }
  }

  /** Copy exactly the size, with the answers that the calls give; the answers can end before the copy does. */
  method CopyBytes(size: nat, m: Method, outcomes: seq<Outcome>) returns (ok: bool, used: Method, copied: nat)
    ensures var c := Chunks(Begin(size, m), outcomes, 0);
            ok == c.status.Complete? && used == c.used && copied == c.copied
    ensures ok <==> exists n :: Succeeds(size, m, outcomes, n)
    ensures ok ==> copied == size && exists n :: Succeeds(size, m, outcomes, n) && used == MovedBy(m, outcomes, n)
  {
    CopyEnds(size, m, outcomes);
    var current := m;
    if current != CopyRange && current != Sendfile {
      current := CopyRange;
    }
    used, copied := m, 0;
    var left: nat := size;
    var i := 0;
    ghost var start := Begin(size, m);
    while left > 0 && i < |outcomes|
      invariant i <= |outcomes| && copied + left == size
      invariant Chunks(start, outcomes, 0)
                == Chunks(Copy(current, used, copied, left, if left == 0 then Complete else Going), outcomes, i)
      decreases |outcomes| - i
    {
      var count := if left > CHUNK then CHUNK else left;
      var outcome := outcomes[i];
      i := i + 1;
      if outcome == Interrupted || (outcome.Moved? && outcome.count > count) {
        continue;
      }
      if outcome == Unsupported && current == CopyRange {
        current := Sendfile;
        continue;
      }
      if !outcome.Moved? || outcome.count == 0 {
        return false, used, copied;
      }
      used := current;
      copied, left := copied + outcome.count, left - outcome.count;
    }
    ok := left == 0;
  }

  // ---------------------------------------------------------------- the shared probe

  // What a worker that clones a file does next. A probe is the worker that tries the methods for all.
  datatype Pc =
    | Idle
    | Loading(size: nat)
    | SawNothing(size: nat)
    | Cloning(size: nat, probe: bool)
    | Cloned(size: nat, probe: bool)
    | AddCloned(size: nat)
    | Moving(size: nat, probe: bool, copy: Copy)
    | AddCopied(size: nat, copied: nat)
    | Erring(probe: bool)

  /** The state that workers share, and the sizes of the calls that succeeded so far. */
  datatype State = State(backend: Method, copied: nat, reflinked: nat, workers: map<nat, Pc>, succeeded: nat) {
    function At(w: nat): Pc {
      if w in workers then workers[w] else Idle
    }

    function To(w: nat, pc: Pc): State {
      this.(workers := workers[w := pc])
    }
  }

  const START := State(Nothing, 0, 0, map[], 0)

  datatype Action =
    | Start(w: nat, size: nat)
    | Load(w: nat)
    | Exchange(w: nat)
    | TryClone(w: nat, outcome: Outcome)
    | StoreClone(w: nat)
    | CountClone(w: nat)
    | Move(w: nat, outcome: Outcome)
    | StoreUsed(w: nat)
    | CountCopy(w: nat)
    | Yield(w: nat)

  function Step(s: State, a: Action): State {
    var pc := s.At(a.w);
    match a
    case Start(w, size) => if pc.Idle? && size > 0 then s.To(w, Loading(size)) else s
    case Load(w) =>
      if !pc.Loading? || s.backend == Probing then s
      else if s.backend == Nothing then s.To(w, SawNothing(pc.size))
      else if s.backend == Reflink then s.To(w, Cloning(pc.size, false))
      else s.To(w, Moving(pc.size, false, Begin(pc.size, s.backend)))
    case Exchange(w) =>
      if !pc.SawNothing? then s
      else if s.backend == Nothing then s.(backend := Probing).To(w, Cloning(pc.size, true))
      else s.To(w, Loading(pc.size))
    case TryClone(w, outcome) =>
      if !pc.Cloning? then s
      else if outcome.Moved? then s.To(w, Cloned(pc.size, pc.probe))
      else if outcome.Unsupported? then s.To(w, Moving(pc.size, pc.probe, Begin(pc.size, CopyRange)))
      else s.To(w, Erring(pc.probe))
    case StoreClone(w) => if pc.Cloned? then s.(backend := Reflink).To(w, AddCloned(pc.size)) else s
    case CountClone(w) =>
      if pc.AddCloned? then
        s.(reflinked := s.reflinked + pc.size, succeeded := s.succeeded + pc.size).To(w, Idle)
      else s
    case Move(w, outcome) =>
      if !pc.Moving? then s
      else if pc.copy.status.Failed? then s.To(w, Erring(pc.probe))
      else s.To(w, pc.(copy := Chunk(pc.copy, outcome)))
    case StoreUsed(w) =>
      if !pc.Moving? || !pc.copy.status.Complete? then s
      else (if pc.probe || pc.copy.used == Sendfile then s.(backend := pc.copy.used) else s)
             .To(w, AddCopied(pc.size, pc.copy.copied))
    case CountCopy(w) =>
      if pc.AddCopied? then
        s.(copied := s.copied + pc.copied, succeeded := s.succeeded + pc.size).To(w, Idle)
      else s
    case Yield(w) =>
      if !pc.Erring? then s
      else (if pc.probe then s.(backend := Nothing) else s).To(w, Idle)
  }

  datatype Trace = Begun | Then(before: Trace, action: Action)

  function Run(s: State, t: Trace): State {
    match t
    case Begun => s
    case Then(before, action) => Step(Run(s, before), action)
  }

  predicate Probes(pc: Pc) {
    (pc.Cloning? || pc.Cloned? || pc.Moving? || pc.Erring?) && pc.probe
  }

  // A worker past the load that does not probe follows a published method.
  predicate Follows(pc: Pc) {
    pc.AddCloned? || pc.AddCopied? || ((pc.Cloning? || pc.Cloned? || pc.Moving? || pc.Erring?) && !pc.probe)
  }

  ghost predicate WorkerOk(s: State, w: nat) {
    var pc := s.At(w);
    && (Probes(pc) ==> s.backend == Probing)
    && (Follows(pc) ==> Published(s.backend))
    && (pc.Loading? || pc.SawNothing? || pc.Cloning? ==> pc.size > 0)
    && (pc.Moving? ==> pc.size > 0 && Counts(pc.copy, pc.size))
    && (pc.AddCopied? ==> pc.copied == pc.size)
  }

  predicate Balanced(s: State) {
    s.copied + s.reflinked == s.succeeded
  }

  ghost predicate Inv(s: State) {
    && (forall w :: w in s.workers ==> WorkerOk(s, w))
    && (forall v, w :: v in s.workers && w in s.workers && Probes(s.workers[v]) && Probes(s.workers[w]) ==> v == w)
    && Balanced(s)
  }

  // Each step keeps the invariant.

  lemma CloneSteps(s: State, a: Action)
    ensures Inv(s) && (a.TryClone? || a.StoreClone? || a.CountClone? || a.Yield?) ==> Inv(Step(s, a))
  {
  }

  lemma MoveKeeps(s: State, a: Action)
    ensures Inv(s) && a.Move? ==> Inv(Step(s, a))
  {
  }

  lemma StoreUsedKeeps(s: State, a: Action)
    ensures Inv(s) && a.StoreUsed? ==> Inv(Step(s, a))
  {
  }

  lemma CountCopyKeeps(s: State, a: Action)
    ensures Inv(s) && a.CountCopy? ==> Inv(Step(s, a))
  {
  }

  lemma FirstSteps(s: State, a: Action)
    ensures Inv(s) && (a.Start? || a.Load? || a.Exchange?) ==> Inv(Step(s, a))
  {
  }

  lemma InvStep(s: State, a: Action)
    requires Inv(s)
    ensures Inv(Step(s, a))
  {
    match a
    case Start(_, _) => FirstSteps(s, a);
    case Load(_) => FirstSteps(s, a);
    case Exchange(_) => FirstSteps(s, a);
    case TryClone(_, _) => CloneSteps(s, a);
    case StoreClone(_) => CloneSteps(s, a);
    case CountClone(_) => CloneSteps(s, a);
    case Yield(_) => CloneSteps(s, a);
    case Move(_, _) => MoveKeeps(s, a);
    case StoreUsed(_) => StoreUsedKeeps(s, a);
    case CountCopy(_) => CountCopyKeeps(s, a);
  }

  lemma {:induction false} RunInv(s: State, t: Trace)
    requires Inv(s)
    ensures Inv(Run(s, t))
  {
    match t
    case Begun =>
    case Then(before, action) =>
      RunInv(s, before);
      InvStep(Run(s, before), action);
  }

  lemma ProbesAlone(s: State, v: nat, w: nat)
    requires Inv(s)
    ensures Probes(s.At(v)) && Probes(s.At(w)) ==> v == w
    ensures Probes(s.At(v)) ==> s.backend == Probing && !Follows(s.At(w))
  {
    assert v in s.workers ==> WorkerOk(s, v);
    assert w in s.workers ==> WorkerOk(s, w);
  }

  /** In every interleaving at most one worker probes, and nobody follows a method before one is published. */
  lemma {:induction false} OneProbes(t: Trace, v: nat, w: nat)
    ensures var s := Run(START, t);
            && (Probes(s.At(v)) && Probes(s.At(w)) ==> v == w)
            && (Probes(s.At(v)) ==> s.backend == Probing && !Follows(s.At(w)))
  {
    RunInv(START, t);
    ProbesAlone(Run(START, t), v, w);
  }

  lemma StepStaysPublished(s: State, a: Action)
    requires Inv(s) && Published(s.backend)
    ensures Published(Step(s, a).backend)
  {
    assert a.w in s.workers ==> WorkerOk(s, a.w);
  }

  /** Once a method is published the shared state never returns to no method or to a probe. */
  lemma {:induction false} StaysPublished(s: State, t: Trace)
    requires Inv(s) && Published(s.backend)
    ensures Published(Run(s, t).backend)
  {
    match t
    case Begun =>
    case Then(before, action) =>
      StaysPublished(s, before);
      RunInv(s, before);
      StepStaysPublished(Run(s, before), action);
  }

  /** The bytes counted as copied and as cloned are the sizes of the calls that succeeded. */
  lemma {:induction false} BytesAreCounted(t: Trace)
    ensures Balanced(Run(START, t))
  {
    RunInv(START, t);
  }

  /** The workers that probe, as the waiting workers need one. */
  predicate ProbeIsHeld(s: State, w: nat) {
    s.backend == Probing ==> w in s.workers && Probes(s.workers[w])
  }

  lemma StepHoldsProbe(s: State, a: Action, v: nat) returns (w: nat)
    requires Inv(s) && ProbeIsHeld(s, v)
    ensures ProbeIsHeld(Step(s, a), w)
  {
    w := if a.Exchange? && s.backend != Probing then a.w else v;
    assert a.w in s.workers ==> WorkerOk(s, a.w);
  }

  /** While the shared state says that a probe runs, some worker runs it: the others do not wait for nobody. */
  lemma {:induction false} SomeoneProbes(t: Trace) returns (w: nat)
    ensures ProbeIsHeld(Run(START, t), w)
  {
    w := 0;
    match t
    case Begun =>
    case Then(before, action) =>
      w := SomeoneProbes(before);
      RunInv(START, before);
      w := StepHoldsProbe(Run(START, before), action, w);
  }

  // ---------------------------------------------------------------- one call

  function Moves(s: State, w: nat, outcomes: seq<Outcome>, from: nat): State
    requires from <= |outcomes|
    decreases |outcomes| - from
  {
    if from == |outcomes| then s else Moves(Step(s, Move(w, outcomes[from])), w, outcomes, from + 1)
  }

  /** The steps of a call that no other worker's step comes between; those that do not apply change nothing. */
  function Call(s: State, w: nat, size: nat, clone: Outcome, outcomes: seq<Outcome>): State {
    Leave(Moves(Enter(s, w, size, clone), w, outcomes, 0), w)
  }

  function Enter(s: State, w: nat, size: nat, clone: Outcome): State {
    Step(Step(Step(Step(Step(Step(s, Start(w, size)), Load(w)), Exchange(w)), TryClone(w, clone)), StoreClone(w)),
         CountClone(w))
  }

  function Leave(s: State, w: nat): State {
    Publish(Step(s, Move(w, Interrupted)), w)
  }

  function Publish(s: State, w: nat): State {
    Step(Step(Step(s, StoreUsed(w)), CountCopy(w)), Yield(w))
  }

  // How a call ended: the method of the bytes that moved, a failure, or a copy that waits for more answers.
  datatype Ended = By(used: Method) | Not | Waits

  /** What a call does to the shared state: the probe publishes its method, and so does a drop to sendfile. */
  predicate Shares(s: State, r: State, size: nat, ended: Ended) {
    match ended
    case By(m) =>
      && r.backend == (if s.backend == Nothing || m == Reflink || m == Sendfile then m else s.backend)
      && r.reflinked == (if m == Reflink then s.reflinked + size else s.reflinked)
      && r.copied == (if m == Reflink then s.copied else s.copied + size)
    case Not => r.backend == s.backend && r.reflinked == s.reflinked && r.copied == s.copied
    case Waits => r.backend == (if s.backend == Nothing then Probing else s.backend)
                  && r.reflinked == s.reflinked && r.copied == s.copied
  }

  lemma EnterMoves(s: State, w: nat, size: nat, clone: Outcome)
    requires s.At(w).Idle? && size > 0 && (s.backend == Nothing || Published(s.backend))
    ensures var r := Enter(s, w, size, clone); var tries := s.backend == Nothing || s.backend == Reflink;
            && (tries && clone.Moved? ==> r.At(w).Idle? && Shares(s, r, size, By(Reflink)))
            && (tries && (clone.Interrupted? || clone.Refused?) ==>
                  r.At(w) == Erring(s.backend == Nothing) && Shares(s, r, size, Waits))
            && (!tries || clone.Unsupported? ==>
                  && Shares(s, r, size, Waits)
                  && r.At(w) == Moving(size, s.backend == Nothing, Begin(size, if tries then CopyRange else s.backend)))
  {
  }

  lemma {:induction false} MovesAre(s: State, w: nat, outcomes: seq<Outcome>, from: nat)
    requires from <= |outcomes| && s.At(w).Moving?
    ensures var pc, r := s.At(w), Step(Moves(s, w, outcomes, from), Move(w, Interrupted));
            var c := Chunks(pc.copy, outcomes, from);
            && r.backend == s.backend && r.copied == s.copied && r.reflinked == s.reflinked
            && r.At(w) == if c.status.Failed? then Erring(pc.probe) else Moving(pc.size, pc.probe, c)
    decreases |outcomes| - from
  {
    var pc := s.At(w);
    if from < |outcomes| {
      if pc.copy.status.Failed? {
        ErringStays(Step(s, Move(w, outcomes[from])), w, outcomes, from + 1);
      } else {
        MovesAre(Step(s, Move(w, outcomes[from])), w, outcomes, from + 1);
        ChunksStay(pc.copy, outcomes, from);
      }
    }
  }

  lemma ChunksStay(c: Copy, outcomes: seq<Outcome>, from: nat)
    requires from < |outcomes|
    ensures Chunks(c, outcomes, from) == Chunks(Chunk(c, outcomes[from]), outcomes, from + 1)
  {
  }

  lemma {:induction false} ErringStays(s: State, w: nat, outcomes: seq<Outcome>, from: nat)
    requires from <= |outcomes| && !s.At(w).Moving?
    ensures Moves(s, w, outcomes, from) == s
    decreases |outcomes| - from
  {
    if from < |outcomes| {
      ErringStays(s, w, outcomes, from + 1);
    }
  }

  lemma PublishIs(s: State, w: nat)
    ensures var pc, r := s.At(w), Publish(s, w);
            if pc.Moving? && pc.copy.status.Complete? then
              && r.At(w).Idle? && r.copied == s.copied + pc.copy.copied && r.reflinked == s.reflinked
              && r.backend == if pc.probe || pc.copy.used == Sendfile then pc.copy.used else s.backend
            else if pc.Erring? then
              && r.At(w).Idle? && r.copied == s.copied && r.reflinked == s.reflinked
              && r.backend == if pc.probe then Nothing else s.backend
            else !pc.AddCopied? ==> r == s
  {
  }

  lemma CallClones(s: State, w: nat, size: nat, clone: Outcome, outcomes: seq<Outcome>)
    requires s.At(w).Idle? && size > 0 && (s.backend == Nothing || s.backend == Reflink) && !clone.Unsupported?
    ensures var r := Call(s, w, size, clone, outcomes);
            r.At(w).Idle? && Shares(s, r, size, if clone.Moved? then By(Reflink) else Not)
  {
    var in_ := Enter(s, w, size, clone);
    EnterMoves(s, w, size, clone);
    ErringStays(in_, w, outcomes, 0);
    PublishIs(in_, w);
  }

  lemma CallCopies(s: State, w: nat, size: nat, m: Method, clone: Outcome, outcomes: seq<Outcome>) returns (c: Copy)
    requires s.At(w).Idle? && size > 0 && (s.backend == Nothing || Published(s.backend))
    requires if s.backend == Nothing || s.backend == Reflink then clone.Unsupported? && m == CopyRange
             else m == s.backend
    ensures c == Chunks(Begin(size, m), outcomes, 0)
    ensures var r := Call(s, w, size, clone, outcomes);
            if c.status.Complete? then
              && r.At(w).Idle? && r.copied == s.copied + c.copied && r.reflinked == s.reflinked
              && r.backend == if s.backend == Nothing || c.used == Sendfile then c.used else s.backend
            else if c.status.Failed? then r.At(w).Idle? && Shares(s, r, size, Not)
            else !r.At(w).Idle? && Shares(s, r, size, Waits)
  {
    var in_ := Enter(s, w, size, clone);
    EnterMoves(s, w, size, clone);
    MovesAre(in_, w, outcomes, 0);
    c := Chunks(in_.At(w).copy, outcomes, 0);
    PublishIs(Step(Moves(in_, w, outcomes, 0), Move(w, Interrupted)), w);
  }

  /**
   * A call alone: without a method, or with the clone as the method, it clones where that works and copies where
   * that is not supported; it ends with the method that moved its bytes exactly when that moved them all, and a
   * failed one leaves the shared state as it was.
   */
  lemma CallEnds(s: State, w: nat, size: nat, clone: Outcome, outcomes: seq<Outcome>) returns (ended: Ended)
    requires s.At(w).Idle? && size > 0 && (s.backend == Nothing || Published(s.backend))
    ensures var r := Call(s, w, size, clone, outcomes);
            && Shares(s, r, size, ended) && (ended.Waits? <==> !r.At(w).Idle?)
    ensures var tries := s.backend == Nothing || s.backend == Reflink;
            var m := if tries then CopyRange else s.backend;
            if tries && clone.Moved? then ended == By(Reflink)
            else if tries && !clone.Unsupported? then ended == Not
            else
              && (ended.By? <==> exists n :: Succeeds(size, m, outcomes, n))
              && (ended.By? ==> exists n :: Succeeds(size, m, outcomes, n) && ended.used == MovedBy(m, outcomes, n))
  {
    var tries := s.backend == Nothing || s.backend == Reflink;
    if tries && !clone.Unsupported? {
      CallClones(s, w, size, clone, outcomes);
      ended := if clone.Moved? then By(Reflink) else Not;
    } else {
      var m := if tries then CopyRange else s.backend;
      var c := CallCopies(s, w, size, m, clone, outcomes);
      CopyEnds(size, m, outcomes);
      ended := if c.status.Complete? then By(c.used) else if c.status.Failed? then Not else Waits;
    }
  }
}
