/** What every run of the workers keeps. */
module CasLaws {
  import opened Options
  import opened CasStore

  // ---------------------------------------------------------------- the invariant

  /** The hash of what a worker read from an inode, or of a closed inode. */
  predicate Complete(node: Inode, digest: Bytes, hash: Bytes -> Bytes) {
    match node.phase
    case Outside => false
    case Filling(_) => false
    case Closed => hash(node.bytes) == digest
    case Full(_, size) => View(node.bytes, size).Some? && hash(View(node.bytes, size).value) == digest
  }

  predicate ObjectOk(s: State, digest: Bytes, hash: Bytes -> Bytes) {
    Owned(digest) in s.entries && s.entries[Owned(digest)] in s.inodes
    && Complete(s.inodes[s.entries[Owned(digest)]], digest, hash)
    && (s.inodes[s.entries[Owned(digest)]].phase.Full? ==> s.inodes[s.entries[Owned(digest)]].mode == PUBLISHED)
  }

  /** A borrowed object is a closed file whose bytes hash to its name. */
  predicate BorrowedOk(s: State, digest: Bytes, hash: Bytes -> Bytes) {
    Borrowed(digest) in s.entries && s.entries[Borrowed(digest)] in s.inodes
    && s.inodes[s.entries[Borrowed(digest)]].phase.Closed?
    && hash(s.inodes[s.entries[Borrowed(digest)]].bytes) == digest
  }

  predicate HasTemp(s: State, w: nat, temp: nat, ino: nat) {
    && Temp(temp) in s.entries && s.entries[Temp(temp)] == ino && ino in s.inodes
    && match s.inodes[ino].phase
       case Outside => false
       case Closed => false
       case Filling(writer) => writer == w
       case Full(writer, _) => writer == w
  }

  predicate HasCopy(s: State, w: nat, temp: nat, ino: nat, blob: Blob, hash: Bytes -> Bytes) {
    && HasTemp(s, w, temp, ino) && s.inodes[ino].phase == Full(w, blob.size) && !blob.borrowed
    && Complete(s.inodes[ino], blob.digest, hash)
  }

  /** A published blob: its object has the size, or is a copy that was hashed at this size. */
  predicate Stored(s: State, blob: Blob) {
    && blob.Name() in s.entries
    && var i := s.entries[blob.Name()];
       i in s.inodes && ((s.inodes[i].phase.Full? && s.inodes[i].phase.size == blob.size)
                         || |s.inodes[i].bytes| == blob.size)
  }

  predicate WorkerOk(s: State, w: nat, hash: Bytes -> Bytes) {
    match s.At(w)
    case Idle => true
    case Copying(temp, ino, size, left) => HasTemp(s, w, temp, ino) && s.inodes[ino].phase.Filling?
    case Hashed(temp, ino, blob) => HasCopy(s, w, temp, ino, blob, hash)
    case ReadOnly(temp, ino, blob) => HasCopy(s, w, temp, ino, blob, hash) && s.inodes[ino].mode == PUBLISHED
    case Collided(temp, ino, blob) => HasCopy(s, w, temp, ino, blob, hash) && blob.Name() in s.entries
    case Linked(temp, ino, blob) => HasCopy(s, w, temp, ino, blob, hash) && Stored(s, blob)
    case Broken(temp, ino) => HasTemp(s, w, temp, ino)
    case Checking(source, blob, hashed) =>
      && blob.Name() in s.entries && Promised(s, source, blob, hash)
      && (hashed.Some? ==> Promised(s, hashed.value, blob, hash))
    case Rehashing(blob) => blob.Name() in s.entries
    case Done(result) => result.Some? ==> Stored(s, result.value)
  }

  ghost predicate ObjectsOk(s: State, hash: Bytes -> Bytes) {
    && (forall digest :: Owned(digest) in s.entries ==> ObjectOk(s, digest, hash))
    && (forall digest :: Borrowed(digest) in s.entries ==> BorrowedOk(s, digest, hash))
  }

  ghost predicate WorkersOk(s: State, hash: Bytes -> Bytes) {
    forall w :: w in s.workers ==> WorkerOk(s, w, hash)
  }

  ghost predicate Inv(s: State, hash: Bytes -> Bytes) {
    ObjectsOk(s, hash) && WorkersOk(s, hash)
  }

  // What each step does to the objects and the workers of a state that has the invariant.

  lemma CreateObjects(s: State, w: nat, temp: nat, ino: nat, size: nat, hash: Bytes -> Bytes)
    ensures Inv(s, hash) ==> ObjectsOk(DoCreate(s, w, temp, ino, size), hash)
  {
  }

  lemma CreateWorker(s: State, w: nat, temp: nat, ino: nat, size: nat, v: nat, hash: Bytes -> Bytes)
    ensures Inv(s, hash) && (v == w || v in s.workers) ==> WorkerOk(DoCreate(s, w, temp, ino, size), v, hash)
  {
  }

  lemma CreateWorkers(s: State, w: nat, temp: nat, ino: nat, size: nat, hash: Bytes -> Bytes)
    ensures Inv(s, hash) ==> WorkersOk(DoCreate(s, w, temp, ino, size), hash)
  {
    if Inv(s, hash) {
      var after := DoCreate(s, w, temp, ino, size);
      forall v | v in after.workers ensures WorkerOk(after, v, hash) {
        CreateWorker(s, w, temp, ino, size, v, hash);
      }
    }
  }

  lemma CopyChunkKeeps(s: State, w: nat, chunk: Bytes, hash: Bytes -> Bytes)
    ensures Inv(s, hash) ==> Inv(DoCopyChunk(s, w, chunk), hash)
  {
  }

  lemma CloneFileKeeps(s: State, w: nat, content: Bytes, hash: Bytes -> Bytes)
    ensures Inv(s, hash) ==> Inv(DoCloneFile(s, w, content), hash)
  {
  }

  lemma HashCopyObjects(s: State, w: nat, hash: Bytes -> Bytes)
    ensures Inv(s, hash) ==> ObjectsOk(DoHashCopy(s, w, hash), hash)
  {
  }

  lemma HashCopyWorker(s: State, w: nat, v: nat, hash: Bytes -> Bytes)
    ensures Inv(s, hash) && v in s.workers ==> WorkerOk(DoHashCopy(s, w, hash), v, hash)
  {
  }

  lemma HashCopyWorkers(s: State, w: nat, hash: Bytes -> Bytes)
    ensures Inv(s, hash) ==> WorkersOk(DoHashCopy(s, w, hash), hash)
  {
    if Inv(s, hash) {
      forall v | v in DoHashCopy(s, w, hash).workers ensures WorkerOk(DoHashCopy(s, w, hash), v, hash) {
        HashCopyWorker(s, w, v, hash);
      }
    }
  }

  lemma MakeReadOnlyObjects(s: State, w: nat, hash: Bytes -> Bytes)
    ensures Inv(s, hash) ==> ObjectsOk(DoMakeReadOnly(s, w), hash)
  {
  }

  lemma MakeReadOnlyWorkers(s: State, w: nat, hash: Bytes -> Bytes)
    ensures Inv(s, hash) ==> WorkersOk(DoMakeReadOnly(s, w), hash)
  {
  }

  lemma LinkKeeps(s: State, w: nat, hash: Bytes -> Bytes)
    ensures Inv(s, hash) ==> Inv(DoLink(s, w), hash)
  {
  }

  lemma VerifyCollisionKeeps(s: State, w: nat, hash: Bytes -> Bytes)
    ensures Inv(s, hash) ==> Inv(DoVerifyCollision(s, w, hash), hash)
  {
  }

  lemma UnlinkKeeps(s: State, w: nat, hash: Bytes -> Bytes)
    ensures Inv(s, hash) ==> Inv(DoUnlink(s, w), hash)
  {
  }

  lemma FailKeeps(s: State, w: nat, hash: Bytes -> Bytes)
    ensures Inv(s, hash) ==> Inv(DoFail(s, w), hash)
  {
  }

  lemma CleanUpKeeps(s: State, w: nat, hash: Bytes -> Bytes)
    ensures Inv(s, hash) ==> Inv(DoCleanUp(s, w), hash)
  {
  }

  lemma NewLinkKeeps(s: State, w: nat, source: nat, blob: Blob, hashed: Option<nat>, hash: Bytes -> Bytes)
    ensures Inv(s, hash) && blob.Name() !in s.entries ==> Inv(DoLinkHashed(s, w, source, blob, hashed, hash), hash)
  {
  }

  lemma LinkHashedKeeps(s: State, w: nat, source: nat, blob: Blob, hashed: Option<nat>, hash: Bytes -> Bytes)
    ensures Inv(s, hash) ==> Inv(DoLinkHashed(s, w, source, blob, hashed, hash), hash)
  {
    if blob.Name() !in s.entries {
      NewLinkKeeps(s, w, source, blob, hashed, hash);
    }
  }

  lemma CheckLinkedKeeps(s: State, w: nat, hash: Bytes -> Bytes)
    ensures Inv(s, hash) ==> Inv(DoCheckLinked(s, w), hash)
  {
  }

  lemma VerifyLinkedKeeps(s: State, w: nat, hash: Bytes -> Bytes)
    ensures Inv(s, hash) ==> Inv(DoVerifyLinked(s, w, hash), hash)
  {
  }

  lemma OutsideWriteObjects(s: State, ino: nat, bytes: Bytes, hash: Bytes -> Bytes)
    ensures Inv(s, hash) ==> ObjectsOk(Step(s, OutsideWrite(ino, bytes), hash), hash)
  {
  }

  lemma OutsideWriteWorkers(s: State, ino: nat, bytes: Bytes, hash: Bytes -> Bytes)
    ensures Inv(s, hash) ==> WorkersOk(Step(s, OutsideWrite(ino, bytes), hash), hash)
  {
  }

  lemma OutsideChmodObjects(s: State, ino: nat, mode: nat, hash: Bytes -> Bytes)
    ensures Inv(s, hash) ==> ObjectsOk(Step(s, OutsideChmod(ino, mode), hash), hash)
  {
  }

  lemma OutsideChmodWorkers(s: State, ino: nat, mode: nat, hash: Bytes -> Bytes)
    ensures Inv(s, hash) ==> WorkersOk(Step(s, OutsideChmod(ino, mode), hash), hash)
  {
  }

  lemma OutsideCreateObjects(s: State, ino: nat, bytes: Bytes, mode: nat, hash: Bytes -> Bytes)
    ensures Inv(s, hash) ==> ObjectsOk(Step(s, OutsideCreate(ino, bytes, mode), hash), hash)
  {
  }

  lemma OutsideCreateWorkers(s: State, ino: nat, bytes: Bytes, mode: nat, hash: Bytes -> Bytes)
    ensures Inv(s, hash) ==> WorkersOk(Step(s, OutsideCreate(ino, bytes, mode), hash), hash)
  {
  }

  lemma OutsideCloseKeeps(s: State, ino: nat, hash: Bytes -> Bytes)
    ensures Inv(s, hash) ==> Inv(Step(s, OutsideClose(ino), hash), hash)
  {
  }

  lemma InvStep(s: State, a: Action, hash: Bytes -> Bytes)
    requires Inv(s, hash)
    ensures Inv(Step(s, a, hash), hash)
  {
    match a
    case Create(w, temp, ino, size) =>
      CreateObjects(s, w, temp, ino, size, hash);
      CreateWorkers(s, w, temp, ino, size, hash);
    case CopyChunk(w, chunk) => CopyChunkKeeps(s, w, chunk, hash);
    case CloneFile(w, content) => CloneFileKeeps(s, w, content, hash);
    case HashCopy(w) =>
      HashCopyObjects(s, w, hash);
      HashCopyWorkers(s, w, hash);
    case MakeReadOnly(w) =>
      MakeReadOnlyObjects(s, w, hash);
      MakeReadOnlyWorkers(s, w, hash);
    case Link(w) => LinkKeeps(s, w, hash);
    case VerifyCollision(w) => VerifyCollisionKeeps(s, w, hash);
    case Unlink(w) => UnlinkKeeps(s, w, hash);
    case Fail(w) => FailKeeps(s, w, hash);
    case CleanUp(w) => CleanUpKeeps(s, w, hash);
    case LinkHashed(w, source, blob, hashed) => LinkHashedKeeps(s, w, source, blob, hashed, hash);
    case CheckLinked(w) => CheckLinkedKeeps(s, w, hash);
    case VerifyLinked(w) => VerifyLinkedKeeps(s, w, hash);
    case OutsideCreate(ino, bytes, mode) =>
      OutsideCreateObjects(s, ino, bytes, mode, hash);
      OutsideCreateWorkers(s, ino, bytes, mode, hash);
    case OutsideWrite(ino, bytes) =>
      OutsideWriteObjects(s, ino, bytes, hash);
      OutsideWriteWorkers(s, ino, bytes, hash);
    case OutsideChmod(ino, mode) =>
      OutsideChmodObjects(s, ino, mode, hash);
      OutsideChmodWorkers(s, ino, mode, hash);
    case OutsideClose(ino) => OutsideCloseKeeps(s, ino, hash);
  }

  lemma {:induction false} RunInv(s: State, t: Trace, hash: Bytes -> Bytes)
    requires Inv(s, hash)
    ensures Inv(Run(s, t, hash), hash)
  {
    match t
    case Start =>
    case Then(before, action) =>
      RunInv(s, before, hash);
      InvStep(Run(s, before, hash), action, hash);
  }

  // ---------------------------------------------------------------- no published object changes

  /** An owned object stays the same inode with the same bytes. */
  predicate Unchanged(s: State, after: State, digest: Bytes) {
    Owned(digest) in s.entries && Owned(digest) in after.entries && s.entries[Owned(digest)] in s.inodes
    && var i := s.entries[Owned(digest)];
       after.entries[Owned(digest)] == i && i in after.inodes && after.inodes[i].bytes == s.inodes[i].bytes
       && after.inodes[i].phase == s.inodes[i].phase
  }

  lemma CopyKeepsObject(s: State, a: Action, digest: Bytes, hash: Bytes -> Bytes)
    requires Inv(s, hash) && Owned(digest) in s.entries && (a.CopyChunk? || a.CloneFile?)
    ensures Unchanged(s, Step(s, a, hash), digest)
  {
    assert ObjectOk(s, digest, hash);
    assert a.w in s.workers ==> WorkerOk(s, a.w, hash);
  }

  lemma HashKeepsObject(s: State, a: Action, digest: Bytes, hash: Bytes -> Bytes)
    requires Inv(s, hash) && Owned(digest) in s.entries && (a.Create? || a.HashCopy? || a.MakeReadOnly?)
    ensures Unchanged(s, Step(s, a, hash), digest)
  {
    assert ObjectOk(s, digest, hash);
    assert a.w in s.workers ==> WorkerOk(s, a.w, hash);
  }

  lemma OutsideKeepsObject(s: State, a: Action, digest: Bytes, hash: Bytes -> Bytes)
    requires Inv(s, hash) && Owned(digest) in s.entries
    requires a.OutsideCreate? || a.OutsideWrite? || a.OutsideChmod? || a.OutsideClose?
    ensures Unchanged(s, Step(s, a, hash), digest)
  {
    assert ObjectOk(s, digest, hash);
  }

  lemma StepKeepsObject(s: State, a: Action, digest: Bytes, hash: Bytes -> Bytes)
    requires Inv(s, hash) && Owned(digest) in s.entries
    ensures Unchanged(s, Step(s, a, hash), digest)
  {
    if a.CopyChunk? || a.CloneFile? {
      CopyKeepsObject(s, a, digest, hash);
    } else if a.Create? || a.HashCopy? || a.MakeReadOnly? {
      HashKeepsObject(s, a, digest, hash);
    } else if a.OutsideCreate? || a.OutsideWrite? || a.OutsideChmod? || a.OutsideClose? {
      OutsideKeepsObject(s, a, digest, hash);
    } else {
      assert ObjectOk(s, digest, hash);
    }
  }

  /** Once published, an object is never replaced or changed, whatever the workers and the writers do. */
  lemma {:induction false} PublishedForever(s: State, t: Trace, digest: Bytes, hash: Bytes -> Bytes)
    requires Inv(s, hash) && Owned(digest) in s.entries
    ensures Unchanged(s, Run(s, t, hash), digest)
  {
    match t
    case Start => assert ObjectOk(s, digest, hash);
    case Then(before, action) =>
      PublishedForever(s, before, digest, hash);
      RunInv(s, before, hash);
      StepKeepsObject(Run(s, before, hash), action, digest, hash);
  }

  // ---------------------------------------------------------------- the store is content-addressed

  ghost predicate Injective(hash: Bytes -> Bytes) {
    forall a, b :: hash(a) == hash(b) ==> a == b
  }

  predicate HashesTo(s: State, digest: Bytes, hash: Bytes -> Bytes) {
    Owned(digest) in s.entries && s.entries[Owned(digest)] in s.inodes
    && hash(s.inodes[s.entries[Owned(digest)]].bytes) == digest
  }

  /** Each owned object's bytes hash to its name. */
  ghost predicate Addressed(s: State, hash: Bytes -> Bytes) {
    forall digest :: Owned(digest) in s.entries ==> HashesTo(s, digest, hash)
  }

  /** A copy holds as many bytes as were hashed. */
  predicate IsExact(node: Inode) {
    node.phase.Full? ==> |node.bytes| == node.phase.size
  }

  predicate ExactObject(s: State, digest: Bytes) {
    Owned(digest) in s.entries && s.entries[Owned(digest)] in s.inodes
    && IsExact(s.inodes[s.entries[Owned(digest)]])
  }

  ghost predicate ExactObjects(s: State) {
    forall digest :: Owned(digest) in s.entries ==> ExactObject(s, digest)
  }

  lemma ExactIsAddressed(s: State, digest: Bytes, hash: Bytes -> Bytes)
    requires ObjectOk(s, digest, hash)
    ensures ExactObject(s, digest) ==> HashesTo(s, digest, hash)
    ensures Injective(hash) && HashesTo(s, digest, hash) ==> ExactObject(s, digest)
  {
    var node := s.inodes[s.entries[Owned(digest)]];
    if node.phase.Full? && |node.bytes| == node.phase.size {
      assert node.bytes[..|node.bytes|] == node.bytes;
    }
    if node.phase.Full? && Injective(hash) && HashesTo(s, digest, hash) {
      var view := View(node.bytes, node.phase.size).value;
      assert hash(node.bytes) == hash(view);
    }
  }

  /** What a worker links under a digest that the store does not have. */
  predicate Publishes(s: State, a: Action) {
    a.Link? && s.At(a.w).ReadOnly? && s.At(a.w).blob.Name() !in s.entries
  }

  /** The guard that a worker could check before it links: its copy has the size that it hashed. */
  predicate LinksExact(s: State, a: Action) {
    Publishes(s, a) ==> var pc := s.At(a.w); pc.ino in s.inodes && |s.inodes[pc.ino].bytes| == pc.blob.size
  }

  predicate AllLinksExact(s: State, t: Trace, hash: Bytes -> Bytes) {
    match t
    case Start => true
    case Then(before, action) => AllLinksExact(s, before, hash) && LinksExact(Run(s, before, hash), action)
  }

  lemma NewObject(s: State, a: Action, digest: Bytes, hash: Bytes -> Bytes)
    requires Inv(s, hash) && Owned(digest) !in s.entries && Owned(digest) in Step(s, a, hash).entries
    ensures a.Link? || a.LinkHashed?
    ensures a.Link? ==> Publishes(s, a) && s.At(a.w).blob.Name() == Owned(digest)
    ensures LinksExact(s, a) <==> ExactObject(Step(s, a, hash), digest)
  {
    if a.Link? {
      assert WorkerOk(s, a.w, hash);
    }
  }

  lemma StepExact(s: State, a: Action, hash: Bytes -> Bytes)
    requires Inv(s, hash)
    ensures ExactObjects(Step(s, a, hash)) <==> ExactObjects(s) && LinksExact(s, a)
  {
    var after := Step(s, a, hash);
    forall digest | Owned(digest) in after.entries
      ensures ExactObject(after, digest) <==>
              if Owned(digest) in s.entries then ExactObject(s, digest) else LinksExact(s, a)
    {
      if Owned(digest) in s.entries {
        StepKeepsObject(s, a, digest, hash);
      } else {
        NewObject(s, a, digest, hash);
      }
    }
    forall digest | Owned(digest) in s.entries
      ensures Owned(digest) in after.entries && (ExactObject(after, digest) <==> ExactObject(s, digest))
    {
      StepKeepsObject(s, a, digest, hash);
    }
    if Publishes(s, a) {
      assert WorkerOk(s, a.w, hash);
      assert ExactObject(after, s.At(a.w).blob.digest) <==> LinksExact(s, a);
    }
  }

  lemma {:induction false} RunExact(s: State, t: Trace, hash: Bytes -> Bytes)
    requires Inv(s, hash) && ExactObjects(s)
    ensures ExactObjects(Run(s, t, hash)) <==> AllLinksExact(s, t, hash)
  {
    match t
    case Start =>
    case Then(before, action) =>
      RunExact(s, before, hash);
      RunInv(s, before, hash);
      StepExact(Run(s, before, hash), action, hash);
  }

  /**
   * The store is content-addressed after a run exactly when every copy that was linked under a new
   * digest had the size that was hashed.
   */
  lemma AddressedIff(t: Trace, hash: Bytes -> Bytes)
    requires Injective(hash)
    ensures Addressed(Run(START, t, hash), hash) <==> AllLinksExact(START, t, hash)
  {
    var s := Run(START, t, hash);
    RunInv(START, t, hash);
    RunExact(START, t, hash);
    forall digest | Owned(digest) in s.entries
      ensures HashesTo(s, digest, hash) <==> ExactObject(s, digest)
    {
      ExactIsAddressed(s, digest, hash);
    }
  }

  // ---------------------------------------------------------------- copies that are exact

  /** A clone takes effect on a source that still has the size that the worker saw. */
  predicate CloneExact(s: State, a: Action) {
    a.CloneFile? ==>
      var pc := s.At(a.w); pc.Copying? && pc.left == pc.size ==> |a.content| == pc.size
  }

  predicate ClonesExact(s: State, t: Trace, hash: Bytes -> Bytes) {
    match t
    case Start => true
    case Then(before, action) => ClonesExact(s, before, hash) && CloneExact(Run(s, before, hash), action)
  }

  predicate ExactCopy(s: State, w: nat) {
    match s.At(w)
    case Copying(_, ino, size, left) => ino in s.inodes ==> |s.inodes[ino].bytes| + left == size
    case Hashed(_, ino, blob) => ino in s.inodes ==> |s.inodes[ino].bytes| == blob.size
    case ReadOnly(_, ino, blob) => ino in s.inodes ==> |s.inodes[ino].bytes| == blob.size
    case Collided(_, ino, blob) => ino in s.inodes ==> |s.inodes[ino].bytes| == blob.size
    case Linked(_, ino, blob) => ino in s.inodes ==> |s.inodes[ino].bytes| == blob.size
    case _ => true
  }

  ghost predicate ExactCopies(s: State) {
    forall w :: w in s.workers ==> ExactCopy(s, w)
  }

  lemma CopyingExact(s: State, a: Action, hash: Bytes -> Bytes)
    requires Inv(s, hash) && ExactCopies(s) && CloneExact(s, a) && (a.CopyChunk? || a.CloneFile?)
    ensures ExactCopies(Step(s, a, hash))
  {
  }

  lemma HashingExact(s: State, a: Action, hash: Bytes -> Bytes)
    requires Inv(s, hash) && ExactCopies(s) && (a.Create? || a.HashCopy? || a.MakeReadOnly?)
    ensures ExactCopies(Step(s, a, hash))
  {
  }

  lemma LinkingExact(s: State, a: Action, hash: Bytes -> Bytes)
    requires Inv(s, hash) && ExactCopies(s)
    requires a.Link? || a.VerifyCollision? || a.Unlink? || a.Fail? || a.CleanUp?
    ensures ExactCopies(Step(s, a, hash))
  {
  }

  lemma CheckingExact(s: State, a: Action, hash: Bytes -> Bytes)
    requires Inv(s, hash) && ExactCopies(s) && (a.LinkHashed? || a.CheckLinked? || a.VerifyLinked?)
    ensures ExactCopies(Step(s, a, hash))
  {
  }

  lemma OutsideExact(s: State, a: Action, hash: Bytes -> Bytes)
    requires Inv(s, hash) && ExactCopies(s)
    requires a.OutsideCreate? || a.OutsideWrite? || a.OutsideChmod? || a.OutsideClose?
    ensures ExactCopies(Step(s, a, hash))
  {
  }

  lemma StepExactCopies(s: State, a: Action, hash: Bytes -> Bytes)
    requires Inv(s, hash) && ExactCopies(s) && CloneExact(s, a)
    ensures ExactCopies(Step(s, a, hash))
  {
    if a.CopyChunk? || a.CloneFile? {
      CopyingExact(s, a, hash);
    } else if a.Create? || a.HashCopy? || a.MakeReadOnly? {
      HashingExact(s, a, hash);
    } else if a.OutsideCreate? || a.OutsideWrite? || a.OutsideChmod? || a.OutsideClose? {
      OutsideExact(s, a, hash);
    } else if a.LinkHashed? || a.CheckLinked? || a.VerifyLinked? {
      CheckingExact(s, a, hash);
    } else {
      LinkingExact(s, a, hash);
    }
  }

  lemma {:induction false} ClonesGiveCopies(s: State, t: Trace, hash: Bytes -> Bytes)
    requires Inv(s, hash) && ExactCopies(s) && ClonesExact(s, t, hash)
    ensures ExactCopies(Run(s, t, hash)) && AllLinksExact(s, t, hash)
  {
    match t
    case Start =>
    case Then(before, action) =>
      ClonesGiveCopies(s, before, hash);
      RunInv(s, before, hash);
      var mid := Run(s, before, hash);
      StepExactCopies(mid, action, hash);
      if Publishes(mid, action) {
        assert ExactCopy(mid, action.w) && WorkerOk(mid, action.w, hash);
      }
  }

  /**
   * Where every clone meets a source of the size that the worker saw, the store is content-addressed in
   * every interleaving, whatever else the writers of the sources do.
   */
  lemma ExactClonesAreAddressed(t: Trace, hash: Bytes -> Bytes)
    requires ClonesExact(START, t, hash)
    ensures Addressed(Run(START, t, hash), hash)
  {
    var s := Run(START, t, hash);
    RunInv(START, t, hash);
    ClonesGiveCopies(START, t, hash);
    RunExact(START, t, hash);
    forall digest | Owned(digest) in s.entries
      ensures HashesTo(s, digest, hash)
    {
      ExactIsAddressed(s, digest, hash);
    }
  }

  /** A source that grows between the look at its size and the clone. */
  const GROWN := Then(Then(Then(Then(Then(Start, Create(0, 0, 0, 1)), CloneFile(0, [1, 2])),
                                HashCopy(0)), MakeReadOnly(0)), Link(0))

  /** The worker hashes as many bytes as it saw at first, of a copy that has more. */
  lemma GrownCloneIsHashed(hash: Bytes -> Bytes)
    ensures Run(START, GROWN.before.before, hash) ==
            State(map[Temp(0) := 0], map[0 := Inode([1, 2], PRIVATE, Full(0, 1))],
                  map[0 := Hashed(0, 0, Blob(hash([1]), 1, false))])
  {
    assert Run(START, GROWN.before.before.before, hash) ==
           State(map[Temp(0) := 0], map[0 := Inode([1, 2], PRIVATE, Filling(0))], map[0 := Copying(0, 0, 1, 0)]);
    assert View([1, 2], 1) == Some([1]) by {
      assert [1 as bv8, 2 as bv8][..1] == [1 as bv8];
    }
  }

  lemma GrownCloneIsLinked(hash: Bytes -> Bytes)
    ensures var s := Run(START, GROWN, hash);
            && Owned(hash([1])) in s.entries && s.entries[Owned(hash([1]))] == 0
            && 0 in s.inodes && s.inodes[0].bytes == [1, 2]
  {
    GrownCloneIsHashed(hash);
    var r := Run(START, GROWN.before, hash);
    assert r.At(0) == ReadOnly(0, 0, Blob(hash([1]), 1, false)) && r.entries == map[Temp(0) := 0];
  }

  /** The worker then publishes an object with more bytes than were hashed. */
  lemma GrownCloneIsMisnamed(hash: Bytes -> Bytes)
    requires Injective(hash)
    ensures !Addressed(Run(START, GROWN, hash), hash)
    ensures Owned(hash([1])) in Run(START, GROWN, hash).entries
  {
    GrownCloneIsLinked(hash);
    var after := Run(START, GROWN, hash);
    assert hash([1, 2]) != hash([1]) by {
      assert |[1 as bv8, 2 as bv8]| != |[1 as bv8]|;
    }
    assert !HashesTo(after, hash([1]), hash);
  }

  // ---------------------------------------------------------------- verdicts and results

  /** The object under the name of a blob has the digest and the size. */
  predicate IsStored(s: State, blob: Blob, hash: Bytes -> Bytes) {
    var name := if blob.borrowed then Borrowed(blob.digest) else Owned(blob.digest);
    && name in s.entries && s.entries[name] in s.inodes
    && hash(s.inodes[s.entries[name]].bytes) == blob.digest && |s.inodes[s.entries[name]].bytes| == blob.size
  }

  /** An object accepted without a rehash has the digest and the size. */
  lemma ShortcutIsStored(s: State, w: nat, hash: Bytes -> Bytes)
    requires Inv(s, hash) && Injective(hash) && s.At(w).Checking?
    ensures Shortcut(s, s.At(w).blob, s.At(w).hashed) ==> IsStored(s, s.At(w).blob, hash)
  {
    assert WorkerOk(s, w, hash);
    var pc := s.At(w);
    if Shortcut(s, pc.blob, pc.hashed) && pc.hashed != Some(s.entries[pc.blob.Name()]) {
      assert ObjectOk(s, pc.blob.digest, hash);
      var node := s.inodes[s.entries[pc.blob.Name()]];
      if node.phase.Full? {
        var view := View(node.bytes, node.phase.size).value;
        assert hash(view) == hash(s.inodes[pc.source].bytes);
        assert |view| == pc.blob.size == |node.bytes|;
        assert view == node.bytes;
      }
    }
  }

  /** A worker that links a closed file reports a blob exactly when its object has the digest and the size. */
  lemma CheckIsExact(s: State, w: nat, hash: Bytes -> Bytes)
    requires Inv(s, hash) && Injective(hash) && s.At(w).Checking?
    ensures var after := Step(Step(s, CheckLinked(w), hash), VerifyLinked(w), hash);
            after.At(w) == Done(if IsStored(s, s.At(w).blob, hash) then Some(s.At(w).blob) else None)
  {
    ShortcutIsStored(s, w, hash);
  }

  /** A closed file whose bytes have the digest and the size. */
  predicate IsFileOf(s: State, ino: nat, blob: Blob, hash: Bytes -> Bytes) {
    && ino in s.inodes && s.inodes[ino].phase == Closed
    && hash(s.inodes[ino].bytes) == blob.digest && |s.inodes[ino].bytes| == blob.size
  }

  /**
   * A closed file is linked under a name that is new, and then reported; under a name that is not new exactly the
   * objects with the digest and the size are reported.
   */
  lemma LinkedIsReported(s: State, w: nat, source: nat, blob: Blob, hashed: Option<nat>, hash: Bytes -> Bytes)
    requires Inv(s, hash) && Injective(hash) && (s.At(w).Idle? || s.At(w).Done?)
    requires IsFileOf(s, source, blob, hash) && (hashed.Some? ==> IsFileOf(s, hashed.value, blob, hash))
    ensures var linked := Step(s, LinkHashed(w, source, blob, hashed), hash);
            var after := Step(Step(linked, CheckLinked(w), hash), VerifyLinked(w), hash);
            if blob.Name() in s.entries then
              && linked.entries == s.entries
              && after.At(w) == Done(if IsStored(s, blob, hash) then Some(blob) else None)
            else linked.entries == s.entries[blob.Name() := source] && after.At(w) == Done(Some(blob))
  {
    var linked := Step(s, LinkHashed(w, source, blob, hashed), hash);
    LinkHashedKeeps(s, w, source, blob, hashed, hash);
    if linked.At(w).Checking? {
      CheckIsExact(linked, w, hash);
    }
  }

  /** A copy whose digest is stored already is reported exactly when the stored object has the digest and the size. */
  lemma CollisionIsExact(s: State, w: nat, hash: Bytes -> Bytes)
    requires s.At(w).Collided?
    ensures var blob := s.At(w).blob;
            var after := Step(Step(s, VerifyCollision(w), hash), Unlink(w), hash);
            && (after.At(w) == Done(Some(blob)) <==> IsStored(s, blob, hash))
            && (!IsStored(s, blob, hash) ==> after.At(w) == Broken(s.At(w).temp, s.At(w).ino))
  {
  }

  lemma StoredIsExact(s: State, w: nat, hash: Bytes -> Bytes)
    requires Inv(s, hash) && s.At(w).Done? && s.At(w).result.Some?
    ensures var blob := s.At(w).result.value;
            && (blob.borrowed || ExactObject(s, blob.digest) ==> IsStored(s, blob, hash))
            && (Injective(hash) && IsStored(s, blob, hash) ==> blob.borrowed || ExactObject(s, blob.digest))
  {
    var blob := s.At(w).result.value;
    assert WorkerOk(s, w, hash);
    if blob.borrowed {
      assert BorrowedOk(s, blob.digest, hash);
    } else {
      assert ObjectOk(s, blob.digest, hash);
      ExactIsAddressed(s, blob.digest, hash);
    }
  }

  /**
   * What a worker reports is stored, with the digest and the size, exactly when it is a borrowed object or the
   * copy that was linked for it has the size that was hashed.
   */
  lemma ReportIsStoredIff(t: Trace, w: nat, hash: Bytes -> Bytes)
    requires Injective(hash) && Run(START, t, hash).At(w).Done? && Run(START, t, hash).At(w).result.Some?
    ensures var s := Run(START, t, hash); var blob := s.At(w).result.value;
            IsStored(s, blob, hash) <==> blob.borrowed || ExactObject(s, blob.digest)
  {
    RunInv(START, t, hash);
    StoredIsExact(Run(START, t, hash), w, hash);
  }

  /** Where every clone is exact, whatever a worker reports is stored. */
  lemma ReportIsStored(t: Trace, w: nat, hash: Bytes -> Bytes)
    requires ClonesExact(START, t, hash)
    requires Run(START, t, hash).At(w).Done? && Run(START, t, hash).At(w).result.Some?
    ensures IsStored(Run(START, t, hash), Run(START, t, hash).At(w).result.value, hash)
  {
    var s := Run(START, t, hash);
    RunInv(START, t, hash);
    ClonesGiveCopies(START, t, hash);
    RunExact(START, t, hash);
    assert WorkerOk(s, w, hash);
    StoredIsExact(s, w, hash);
  }

  // ---------------------------------------------------------------- publishes that succeed

  /** No system call of the worker fails. */
  predicate NoFail(t: Trace, w: nat) {
    match t
    case Start => true
    case Then(before, action) => NoFail(before, w) && action != Fail(w)
  }

  /** The object under the digest of an exact copy has the bytes of that copy. */
  lemma SameDigestSameBytes(s: State, w: nat, hash: Bytes -> Bytes)
    requires Inv(s, hash) && Injective(hash) && ExactObjects(s) && ExactCopies(s) && s.At(w).Collided?
    ensures IsStored(s, s.At(w).blob, hash)
  {
    var pc := s.At(w);
    assert WorkerOk(s, w, hash) && ExactCopy(s, w) && ObjectOk(s, pc.blob.digest, hash);
    assert ExactObject(s, pc.blob.digest);
    ExactIsAddressed(s, pc.blob.digest, hash);
    CopyHashes(s, w, hash);
    assert hash(s.inodes[pc.ino].bytes) == hash(s.inodes[s.entries[pc.blob.Name()]].bytes);
  }

  /** A worker that hashed an exact copy has the digest and the size of that copy. */
  lemma CopyHashes(s: State, w: nat, hash: Bytes -> Bytes)
    requires Inv(s, hash) && ExactCopies(s)
    requires s.At(w).Hashed? || s.At(w).ReadOnly? || s.At(w).Collided? || s.At(w).Linked?
    ensures s.At(w).ino in s.inodes && CopyOf(s.inodes[s.At(w).ino].bytes, s.At(w).blob, hash)
  {
    var pc := s.At(w);
    assert WorkerOk(s, w, hash) && ExactCopy(s, w);
    assert s.inodes[pc.ino].bytes[..pc.blob.size] == s.inodes[pc.ino].bytes;
  }

  predicate CopyOf(bytes: Bytes, blob: Blob, hash: Bytes -> Bytes) {
    blob == Blob(hash(bytes), |bytes|, false)
  }

  lemma StepNotBroken(s: State, a: Action, w: nat, hash: Bytes -> Bytes)
    requires Inv(s, hash) && Injective(hash) && ExactObjects(s) && ExactCopies(s)
    requires !s.At(w).Broken? && a != Fail(w)
    ensures !Step(s, a, hash).At(w).Broken?
  {
    if w in s.workers {
      assert WorkerOk(s, w, hash) && ExactCopy(s, w);
      if s.At(w).Collided? {
        SameDigestSameBytes(s, w, hash);
      }
    }
  }

  lemma {:induction false} RunNotBroken(t: Trace, w: nat, hash: Bytes -> Bytes)
    requires Injective(hash) && ClonesExact(START, t, hash) && NoFail(t, w)
    ensures !Run(START, t, hash).At(w).Broken?
  {
    match t
    case Start =>
    case Then(before, action) =>
      RunNotBroken(before, w, hash);
      RunInv(START, before, hash);
      ClonesGiveCopies(START, before, hash);
      RunExact(START, before, hash);
      StepNotBroken(Run(START, before, hash), action, w, hash);
  }

  lemma UnlinkEnds(s: State, a: Action, w: nat, hash: Bytes -> Bytes)
    requires HoldsTemp(s.At(w)) && !s.At(w).Broken? && Step(s, a, hash).At(w).Done?
    ensures s.At(w).Linked? && Step(s, a, hash).At(w) == Done(Some(s.At(w).blob))
  {
  }

  /**
   * Where every clone is exact, a publish that ends without a failed system call reports a blob with the digest and
   * the size of its copy, whether that content was stored before or not and whatever the other workers do.
   */
  lemma PublishReports(before: Trace, a: Action, w: nat, hash: Bytes -> Bytes)
    requires Injective(hash) && ClonesExact(START, before, hash) && NoFail(Then(before, a), w)
    requires HoldsTemp(Run(START, before, hash).At(w)) && Run(START, Then(before, a), hash).At(w).Done?
    ensures var s := Run(START, before, hash); var r := Run(START, Then(before, a), hash).At(w).result;
            r.Some? && s.At(w).ino in s.inodes && CopyOf(s.inodes[s.At(w).ino].bytes, r.value, hash)
  {
    RunNotBroken(before, w, hash);
    RunInv(START, before, hash);
    ClonesGiveCopies(START, before, hash);
    UnlinkEnds(Run(START, before, hash), a, w, hash);
    CopyHashes(Run(START, before, hash), w, hash);
  }

  /** A complete exact copy is hashed as it is. */
  lemma CopyIsHashed(s: State, w: nat, hash: Bytes -> Bytes)
    requires Inv(s, hash) && ExactCopies(s) && s.At(w).Copying? && s.At(w).left == 0
    ensures s.At(w).ino in s.inodes
    ensures var after := Step(s, HashCopy(w), hash).At(w);
            && after.Hashed? && after.temp == s.At(w).temp && after.ino == s.At(w).ino
            && CopyOf(s.inodes[s.At(w).ino].bytes, after.blob, hash)
  {
    assert WorkerOk(s, w, hash) && ExactCopy(s, w);
    assert s.inodes[s.At(w).ino].bytes[..s.At(w).size] == s.inodes[s.At(w).ino].bytes;
  }

  /**
   * A copy that is shorter than the size fails up to 64 KiB. Above it is hashed, with zeros behind its bytes,
   * exactly when its last byte and the last one of the size are in one page.
   */
  lemma ShortCopyIsHashedIff(s: State, w: nat, hash: Bytes -> Bytes)
    requires s.At(w).Copying? && s.At(w).left == 0 && s.At(w).ino in s.inodes
    requires |s.inodes[s.At(w).ino].bytes| < s.At(w).size
    ensures var pc := s.At(w); var bytes := s.inodes[pc.ino].bytes; var after := Step(s, HashCopy(w), hash).At(w);
            if pc.size <= 65536 then after == Broken(pc.temp, pc.ino)
            else if bytes != [] && (pc.size - 1) / 4096 == (|bytes| - 1) / 4096 then
              after == Hashed(pc.temp, pc.ino, Blob(hash(bytes + seq(pc.size - |bytes|, _ => 0)), pc.size, false))
            else after == pc
  {
    var pc := s.At(w);
    var bytes := s.inodes[pc.ino].bytes;
    SamePage(pc.size, |bytes|);
    assert Zeros(pc.size - |bytes|) == seq(pc.size - |bytes|, _ => 0);
  }

  lemma SamePage(size: nat, n: nat)
    requires n < size
    ensures size <= (n + PAGE - 1) / PAGE * PAGE <==> n > 0 && (size - 1) / 4096 == (n - 1) / 4096
  {
  }

  /** The steps that publish a hashed copy. */
  function Publish(s: State, w: nat, hash: Bytes -> Bytes): State {
    Finish(Linking(s, w, hash), w, hash)
  }

  function Linking(s: State, w: nat, hash: Bytes -> Bytes): State {
    Step(Step(s, MakeReadOnly(w), hash), Link(w), hash)
  }

  function Finish(s: State, w: nat, hash: Bytes -> Bytes): State {
    Step(Step(s, VerifyCollision(w), hash), Unlink(w), hash)
  }

  lemma PublishLinks(s: State, w: nat, hash: Bytes -> Bytes)
    requires Inv(s, hash) && s.At(w).Hashed?
    ensures var pc := s.At(w); var linked := Linking(s, w, hash);
            && linked.At(w) == (if pc.blob.Name() in s.entries then Collided(pc.temp, pc.ino, pc.blob)
                                else Linked(pc.temp, pc.ino, pc.blob))
            && Inv(linked, hash)
  {
    assert WorkerOk(s, w, hash);
    InvStep(s, MakeReadOnly(w), hash);
    InvStep(Step(s, MakeReadOnly(w), hash), Link(w), hash);
  }

  lemma PublishLinksExact(s: State, w: nat, hash: Bytes -> Bytes)
    requires Inv(s, hash) && ExactObjects(s) && ExactCopies(s) && s.At(w).Hashed?
    ensures ExactObjects(Linking(s, w, hash)) && ExactCopies(Linking(s, w, hash))
  {
    var ready := Step(s, MakeReadOnly(w), hash);
    InvStep(s, MakeReadOnly(w), hash);
    StepExact(s, MakeReadOnly(w), hash);
    StepExactCopies(s, MakeReadOnly(w), hash);
    StepExact(ready, Link(w), hash);
    StepExactCopies(ready, Link(w), hash);
    assert WorkerOk(ready, w, hash) && ExactCopy(ready, w);
  }

  /** Where every clone is exact, a hashed copy can be published at any time, also next to one with its bytes. */
  lemma PublishEnds(t: Trace, w: nat, hash: Bytes -> Bytes)
    requires Injective(hash) && ClonesExact(START, t, hash) && Run(START, t, hash).At(w).Hashed?
    ensures var s := Run(START, t, hash); var after := Publish(s, w, hash);
            after.At(w) == Done(Some(s.At(w).blob)) && IsStored(after, s.At(w).blob, hash)
  {
    var s := Run(START, t, hash);
    RunInv(START, t, hash);
    ClonesGiveCopies(START, t, hash);
    RunExact(START, t, hash);
    PublishLinks(s, w, hash);
    PublishLinksExact(s, w, hash);
    PublishVerifies(Linking(s, w, hash), w, hash);
  }

  /** The steps up to the hash of a private copy of some content. */
  function Copied(t: Trace, w: nat, temp: nat, ino: nat, content: Bytes, clone: bool): Trace {
    var created := Then(t, Create(w, temp, ino, |content|));
    Then(Then(created, if clone then CloneFile(w, content) else CopyChunk(w, content)), HashCopy(w))
  }

  lemma CopiedIsHashed(t: Trace, w: nat, temp: nat, ino: nat, content: Bytes, clone: bool, hash: Bytes -> Bytes)
    requires var s := Run(START, t, hash);
             (s.At(w).Idle? || s.At(w).Done?) && Temp(temp) !in s.entries && ino !in s.inodes
    requires ClonesExact(START, t, hash)
    ensures var u := Copied(t, w, temp, ino, content, clone);
            && ClonesExact(START, u, hash)
            && Run(START, u, hash).At(w) == Hashed(temp, ino, Blob(hash(content), |content|, false))
  {
    var created := Then(t, Create(w, temp, ino, |content|));
    var copied := Then(created, if clone then CloneFile(w, content) else CopyChunk(w, content));
    assert Run(START, created, hash).At(w) == Copying(temp, ino, |content|, |content|);
    assert [] + content == content;
    var r := Run(START, copied, hash);
    assert r.At(w) == Copying(temp, ino, |content|, 0) && ino in r.inodes && r.inodes[ino].bytes == content;
    assert content[..|content|] == content;
  }

  /**
   * In every interleaving with exact clones, a worker that is free can publish any content, copied or cloned: the
   * store then has exactly these bytes under their digest, whether it had them before or not.
   */
  lemma PublishStores(t: Trace, w: nat, temp: nat, ino: nat, content: Bytes, clone: bool, hash: Bytes -> Bytes)
    requires var s := Run(START, t, hash);
             (s.At(w).Idle? || s.At(w).Done?) && Temp(temp) !in s.entries && ino !in s.inodes
    requires Injective(hash) && ClonesExact(START, t, hash)
    ensures var after := Publish(Run(START, Copied(t, w, temp, ino, content, clone), hash), w, hash);
            && after.At(w) == Done(Some(Blob(hash(content), |content|, false)))
            && Owned(hash(content)) in after.entries && after.entries[Owned(hash(content))] in after.inodes
            && after.inodes[after.entries[Owned(hash(content))]].bytes == content
  {
    CopiedIsHashed(t, w, temp, ino, content, clone, hash);
    PublishEnds(Copied(t, w, temp, ino, content, clone), w, hash);
  }

  lemma PublishVerifies(s: State, w: nat, hash: Bytes -> Bytes)
    requires Inv(s, hash) && Injective(hash) && ExactObjects(s) && ExactCopies(s)
    requires s.At(w).Collided? || s.At(w).Linked?
    ensures var after := Finish(s, w, hash);
            after.At(w) == Done(Some(s.At(w).blob)) && IsStored(after, s.At(w).blob, hash)
  {
    var checked := Step(s, VerifyCollision(w), hash);
    if s.At(w).Collided? {
      SameDigestSameBytes(s, w, hash);
    }
    var after := Step(checked, Unlink(w), hash);
    InvStep(s, VerifyCollision(w), hash);
    InvStep(checked, Unlink(w), hash);
    StepExact(s, VerifyCollision(w), hash);
    StepExact(checked, Unlink(w), hash);
    assert WorkerOk(after, w, hash);
    StoredIsExact(after, w, hash);
  }

  /** A temporary name belongs to one worker. */
  lemma TempsAreSeparate(s: State, v: nat, w: nat, hash: Bytes -> Bytes)
    requires Inv(s, hash) && v != w && HoldsTemp(s.At(v)) && HoldsTemp(s.At(w))
    ensures s.At(v).temp != s.At(w).temp && s.At(v).ino != s.At(w).ino
  {
    assert WorkerOk(s, v, hash) && WorkerOk(s, w, hash);
  }

  predicate HoldsTemp(pc: Pc) {
    pc.Copying? || pc.Hashed? || pc.ReadOnly? || pc.Collided? || pc.Linked? || pc.Broken?
  }

  // ---------------------------------------------------------------- temporary files

  predicate Holds(s: State, w: nat, temp: nat) {
    HoldsTemp(s.At(w)) && s.At(w).temp == temp
  }

  ghost predicate IsHeld(s: State, temp: nat) {
    exists w :: Holds(s, w, temp)
  }

  ghost predicate TempsHeld(s: State) {
    forall temp :: Temp(temp) in s.entries ==> IsHeld(s, temp)
  }

  /** After a step a worker that held a temporary name still does, or the name is gone. */
  lemma HolderStays(s: State, a: Action, w: nat, temp: nat, hash: Bytes -> Bytes)
    requires Holds(s, w, temp) && Temp(temp) in Step(s, a, hash).entries
    ensures Holds(Step(s, a, hash), w, temp)
  {
  }

  lemma NewTempIsHeld(s: State, a: Action, temp: nat, hash: Bytes -> Bytes)
    requires Temp(temp) !in s.entries && Temp(temp) in Step(s, a, hash).entries
    ensures a.Create? && Holds(Step(s, a, hash), a.w, temp)
  {
  }

  lemma {:induction false} RunTempsHeld(t: Trace, hash: Bytes -> Bytes)
    ensures TempsHeld(Run(START, t, hash))
  {
    match t
    case Start =>
    case Then(before, action) =>
      RunTempsHeld(before, hash);
      var s, after := Run(START, before, hash), Run(START, t, hash);
      forall temp | Temp(temp) in after.entries ensures IsHeld(after, temp) {
        if Temp(temp) in s.entries {
          var w :| Holds(s, w, temp);
          HolderStays(s, action, w, temp, hash);
        } else {
          NewTempIsHeld(s, action, temp, hash);
        }
      }
  }

  /** No temporary name is left behind: the store has exactly those that some worker still publishes from. */
  lemma TempsAreHeld(t: Trace, temp: nat, hash: Bytes -> Bytes)
    ensures Temp(temp) in Run(START, t, hash).entries <==> IsHeld(Run(START, t, hash), temp)
  {
    var s := Run(START, t, hash);
    RunTempsHeld(t, hash);
    RunInv(START, t, hash);
    if IsHeld(s, temp) {
      var w :| Holds(s, w, temp);
      assert WorkerOk(s, w, hash);
    }
  }

  /** A worker whose system call failed removes its temporary name and no other one, and reports nothing. */
  lemma FailureIsCleaned(s: State, w: nat, hash: Bytes -> Bytes)
    requires !s.At(w).Idle? && !s.At(w).Done?
    ensures var after := Step(Step(s, Fail(w), hash), CleanUp(w), hash);
            && after.At(w) == Done(None) && after.inodes == s.inodes
            && after.entries == if HoldsTemp(s.At(w)) then s.entries - {Temp(s.At(w).temp)} else s.entries
  {
  }
}
