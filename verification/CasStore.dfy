/**
 * Publishing in the content-addressed store, as steps of concurrent workers over a file system: a map
 * from names to inodes and a map from inodes to contents. A step is one system call, or a read of a
 * whole file.
 */
module CasStore {
  import opened Options

  type Bytes = seq<bv8>

  datatype Name = Owned(digest: Bytes) | Borrowed(digest: Bytes) | Temp(id: nat)

  // Who can write an inode: anyone, nobody, the worker that fills it, or nobody after that worker filled it.
  datatype Phase = Outside | Closed | Filling(writer: nat) | Full(writer: nat, size: nat)

  datatype Inode = Inode(bytes: Bytes, mode: nat, phase: Phase)

  datatype Blob = Blob(digest: Bytes, size: nat, borrowed: bool) {
    function Name(): Name {
      if borrowed then Borrowed(digest) else Owned(digest)
    }
  }

  // What a worker does next.
  datatype Pc =
    | Idle
    | Copying(temp: nat, ino: nat, size: nat, left: nat)
    | Hashed(temp: nat, ino: nat, blob: Blob)
    | ReadOnly(temp: nat, ino: nat, blob: Blob)
    | Collided(temp: nat, ino: nat, blob: Blob)
    | Linked(temp: nat, ino: nat, blob: Blob)
    | Broken(temp: nat, ino: nat)
    | Checking(source: nat, blob: Blob, hashed: Option<nat>)
    | Rehashing(blob: Blob)
    | Done(result: Option<Blob>)

  datatype State = State(entries: map<Name, nat>, inodes: map<nat, Inode>, workers: map<nat, Pc>) {
    function At(w: nat): Pc {
      if w in workers then workers[w] else Idle
    }

    function To(w: nat, pc: Pc): State {
      this.(workers := workers[w := pc])
    }
  }

  const START := State(map[], map[], map[])
  const PRIVATE := 384 // 0600
  const PUBLISHED := 292 // 0444
  const SMALL := 65536
  const PAGE := 4096

  function Zeros(n: nat): (r: Bytes)
    ensures |r| == n
  {
    seq(n, _ => 0)
  }

  /**
   * The bytes that hashing reads from a copy. A short read fails for a small copy; a mapping gives
   * zeros from the end of a shorter file to the end of its last page, and a fault after it.
   */
  function View(bytes: Bytes, size: nat): (r: Option<Bytes>)
    ensures r.Some? ==> |r.value| == size
  {
    if size <= |bytes| then Some(bytes[..size])
    else if size > SMALL && size <= (|bytes| + PAGE - 1) / PAGE * PAGE then Some(bytes + Zeros(size - |bytes|))
    else None
  }

  /** The verdict of hashing an existing object again. */
  predicate Rehash(s: State, blob: Blob, hash: Bytes -> Bytes) {
    && blob.Name() in s.entries
    && var i := s.entries[blob.Name()];
       i in s.inodes && hash(s.inodes[i].bytes) == blob.digest && |s.inodes[i].bytes| == blob.size
  }

  /** The verdict without hashing: the form of a published object, or the inode that was just hashed. */
  predicate Shortcut(s: State, blob: Blob, hashed: Option<nat>) {
    && blob.Name() in s.entries
    && var i := s.entries[blob.Name()];
       && i in s.inodes && |s.inodes[i].bytes| == blob.size
       && ((!blob.borrowed && s.inodes[i].mode == PUBLISHED) || hashed == Some(i))
  }

  datatype Action =
    // Steps of a worker that publishes a copy of a file.
    | Create(w: nat, temp: nat, ino: nat, size: nat)
    | CopyChunk(w: nat, chunk: Bytes)
    | CloneFile(w: nat, content: Bytes)
    | HashCopy(w: nat)
    | MakeReadOnly(w: nat)
    | Link(w: nat)
    | VerifyCollision(w: nat)
    | Unlink(w: nat)
    | Fail(w: nat)
    | CleanUp(w: nat)
    // Steps of a worker that links a closed file.
    | LinkHashed(w: nat, source: nat, blob: Blob, hashed: Option<nat>)
    | CheckLinked(w: nat)
    | VerifyLinked(w: nat)
    // What other processes do to files outside the store.
    | OutsideCreate(ino: nat, bytes: Bytes, mode: nat)
    | OutsideWrite(ino: nat, bytes: Bytes)
    | OutsideChmod(ino: nat, mode: nat)
    | OutsideClose(ino: nat)

  /** A new private file under a name that no other writer has. */
  function DoCreate(s: State, w: nat, temp: nat, ino: nat, size: nat): State {
    if (s.At(w).Idle? || s.At(w).Done?) && Temp(temp) !in s.entries && ino !in s.inodes then
      State(s.entries[Temp(temp) := ino], s.inodes[ino := Inode([], PRIVATE, Filling(w))],
            s.workers[w := Copying(temp, ino, size, size)])
    else s
  }

  function SetBytes(s: State, ino: nat, bytes: Bytes): State {
    if ino in s.inodes then s.(inodes := s.inodes[ino := s.inodes[ino].(bytes := bytes)]) else s
  }

  /** Move some bytes; what the source holds by then is up to its writers. */
  function DoCopyChunk(s: State, w: nat, chunk: Bytes): State {
    var pc := s.At(w);
    if pc.Copying? && 0 < |chunk| <= pc.left && pc.ino in s.inodes then
      SetBytes(s, pc.ino, s.inodes[pc.ino].bytes + chunk).To(w, pc.(left := pc.left - |chunk|))
    else s
  }

  /** Clone the whole source: it had the size when the worker looked, and can have another one by now. */
  function DoCloneFile(s: State, w: nat, content: Bytes): State {
    var pc := s.At(w);
    if pc.Copying? && 0 < pc.size == pc.left && pc.ino in s.inodes then
      SetBytes(s, pc.ino, content).To(w, pc.(left := 0))
    else s
  }

  /** Hash the copy, not the source; a short small copy fails, and a fault ends the worker. */
  function DoHashCopy(s: State, w: nat, hash: Bytes -> Bytes): State {
    var pc := s.At(w);
    if pc.Copying? && pc.left == 0 && pc.ino in s.inodes then
      var node := s.inodes[pc.ino];
      match View(node.bytes, pc.size)
      case Some(data) =>
        s.(inodes := s.inodes[pc.ino := node.(phase := Full(w, pc.size))])
          .To(w, Hashed(pc.temp, pc.ino, Blob(hash(data), pc.size, false)))
      case None => if pc.size <= SMALL then s.To(w, Broken(pc.temp, pc.ino)) else s
    else s
  }

  function DoMakeReadOnly(s: State, w: nat): State {
    var pc := s.At(w);
    if pc.Hashed? && pc.ino in s.inodes then
      s.(inodes := s.inodes[pc.ino := s.inodes[pc.ino].(mode := PUBLISHED)])
        .To(w, ReadOnly(pc.temp, pc.ino, pc.blob))
    else s
  }

  /** Link the temporary name under the digest; a link never replaces. */
  function DoLink(s: State, w: nat): State {
    var pc := s.At(w);
    if !pc.ReadOnly? then s
    else if pc.blob.Name() in s.entries then s.To(w, Collided(pc.temp, pc.ino, pc.blob))
    else if Temp(pc.temp) !in s.entries then s.To(w, Broken(pc.temp, pc.ino))
    else s.(entries := s.entries[pc.blob.Name() := s.entries[Temp(pc.temp)]])
          .To(w, Linked(pc.temp, pc.ino, pc.blob))
  }

  function DoVerifyCollision(s: State, w: nat, hash: Bytes -> Bytes): State {
    var pc := s.At(w);
    if !pc.Collided? then s
    else if Rehash(s, pc.blob, hash) then s.To(w, Linked(pc.temp, pc.ino, pc.blob))
    else s.To(w, Broken(pc.temp, pc.ino))
  }

  function DoUnlink(s: State, w: nat): State {
    var pc := s.At(w);
    if pc.Linked? then s.(entries := s.entries - {Temp(pc.temp)}).To(w, Done(Some(pc.blob))) else s
  }

  /** A system call fails: a worker with a temporary file removes it. */
  function DoFail(s: State, w: nat): State {
    var pc := s.At(w);
    if pc.Copying? || pc.Hashed? || pc.ReadOnly? || pc.Collided? || pc.Linked? then
      s.To(w, Broken(pc.temp, pc.ino))
    else if pc.Checking? || pc.Rehashing? then s.To(w, Done(None))
    else s
  }

  function DoCleanUp(s: State, w: nat): State {
    var pc := s.At(w);
    if pc.Broken? then s.(entries := s.entries - {Temp(pc.temp)}).To(w, Done(None)) else s
  }

  /** What the caller promises of a file that was just hashed: closed, with the digest and the size. */
  predicate Promised(s: State, ino: nat, blob: Blob, hash: Bytes -> Bytes) {
    && ino in s.inodes && s.inodes[ino].phase.Closed?
    && hash(s.inodes[ino].bytes) == blob.digest && |s.inodes[ino].bytes| == blob.size
  }

  /** Link a closed file under its digest; a new owned name needs no check. */
  function DoLinkHashed(s: State, w: nat, source: nat, blob: Blob, hashed: Option<nat>, hash: Bytes -> Bytes): State {
    if !(s.At(w).Idle? || s.At(w).Done?) || !Promised(s, source, blob, hash) then s
    else if hashed.Some? && !Promised(s, hashed.value, blob, hash) then s
    else if blob.Name() in s.entries then s.To(w, Checking(source, blob, hashed))
    else s.(entries := s.entries[blob.Name() := source])
          .To(w, if blob.borrowed then Checking(source, blob, hashed) else Done(Some(blob)))
  }

  function DoCheckLinked(s: State, w: nat): State {
    var pc := s.At(w);
    if !pc.Checking? then s
    else if Shortcut(s, pc.blob, pc.hashed) then s.To(w, Done(Some(pc.blob)))
    else s.To(w, Rehashing(pc.blob))
  }

  function DoVerifyLinked(s: State, w: nat, hash: Bytes -> Bytes): State {
    var pc := s.At(w);
    if pc.Rehashing? then s.To(w, Done(if Rehash(s, pc.blob, hash) then Some(pc.blob) else None)) else s
  }

  function Step(s: State, a: Action, hash: Bytes -> Bytes): State {
    match a
    case Create(w, temp, ino, size) => DoCreate(s, w, temp, ino, size)
    case CopyChunk(w, chunk) => DoCopyChunk(s, w, chunk)
    case CloneFile(w, content) => DoCloneFile(s, w, content)
    case HashCopy(w) => DoHashCopy(s, w, hash)
    case MakeReadOnly(w) => DoMakeReadOnly(s, w)
    case Link(w) => DoLink(s, w)
    case VerifyCollision(w) => DoVerifyCollision(s, w, hash)
    case Unlink(w) => DoUnlink(s, w)
    case Fail(w) => DoFail(s, w)
    case CleanUp(w) => DoCleanUp(s, w)
    case LinkHashed(w, source, blob, hashed) => DoLinkHashed(s, w, source, blob, hashed, hash)
    case CheckLinked(w) => DoCheckLinked(s, w)
    case VerifyLinked(w) => DoVerifyLinked(s, w, hash)
    case OutsideCreate(ino, bytes, mode) =>
      if ino in s.inodes then s else s.(inodes := s.inodes[ino := Inode(bytes, mode, Outside)])
    case OutsideWrite(ino, bytes) =>
      if ino in s.inodes && s.inodes[ino].phase.Outside? then SetBytes(s, ino, bytes) else s
    case OutsideChmod(ino, mode) =>
      if ino in s.inodes && (s.inodes[ino].phase.Outside? || s.inodes[ino].phase.Closed?) then
        s.(inodes := s.inodes[ino := s.inodes[ino].(mode := mode)])
      else s
    case OutsideClose(ino) =>
      if ino in s.inodes && s.inodes[ino].phase.Outside? then
        s.(inodes := s.inodes[ino := s.inodes[ino].(phase := Closed)])
      else s
  }

  datatype Trace = Start | Then(before: Trace, action: Action)

  /** The state after a run of steps, from some state. */
  function Run(s: State, t: Trace, hash: Bytes -> Bytes): State {
    match t
    case Start => s
    case Then(before, action) => Step(Run(s, before, hash), action, hash)
  }
}
