/** Locks that live inside a store document: an exclusive lock and a
    reentrant (counting) lock sharing one acquisition front end. The two
    subclasses of the source are one class here, told apart by `kind`. */
module Concurrency {
  import opened Common
  import opened DocumentStore

  /** `threading.TIMEOUT_MAX` as CPython reports it on 64-bit Linux. */
  const TIMEOUT_MAX: real := 9223372036.0

  /** The "no timeout" value of the `timeout` argument. */
  const NO_TIMEOUT: real := -1.0

  datatype LockKind = Exclusive | Reentrant

  datatype LockError =
    | TimeoutWithoutBlocking   // ValueError: a timeout given with blocking=False
    | TimeoutTooLarge          // OverflowError: timeout above TIMEOUT_MAX
    | TimeoutNegative          // ValueError from the local lock: a negative timeout other than -1
    | DocumentLockError        // release did not match, or __enter__ could not lock

  /** The argument checks `acquire` makes before it touches the store: its own
      two checks, then the one the local lock's `acquire` makes when
      `acquire_timeout` hands it the same arguments. */
  function ArgumentError(blocking: bool, timeout: real): (e: Option<LockError>)
    ensures e == Some(TimeoutWithoutBlocking) <==> !blocking && timeout != NO_TIMEOUT
    ensures e == Some(TimeoutTooLarge) <==> (blocking || timeout == NO_TIMEOUT) && timeout > TIMEOUT_MAX
    ensures e == Some(TimeoutNegative) <==> blocking && timeout < 0.0 && timeout != NO_TIMEOUT
    ensures e.None? <==> (blocking || timeout == NO_TIMEOUT) && (timeout == NO_TIMEOUT || 0.0 <= timeout <= TIMEOUT_MAX)
  {
    if !blocking && timeout != NO_TIMEOUT then Some(TimeoutWithoutBlocking)
    else if timeout > TIMEOUT_MAX then Some(TimeoutTooLarge)
    else if timeout < 0.0 && timeout != NO_TIMEOUT then Some(TimeoutNegative)
    else None
  }

  /** The single find-and-modify of `_acquire`. */
  function AcquireOp(kind: LockKind, t: Token): Op {
    match kind
    case Exclusive => SetIfUnlocked(t)
    case Reentrant => SetAndIncIfFreeOrOwner(t)
  }

  /** The effect of one `_acquire` attempt on an existing document. */
  function Attempt(kind: LockKind, r: JobRecord, t: Token): (m: Option<JobRecord>)
    ensures m.Some? ==> m.value.lockId == Some(t) && SameJobFields(m.value, r)
    ensures kind == Exclusive ==> (m.Some? <==> r.lockId.None?)
    ensures kind == Reentrant ==> (m.Some? <==> r.lockId.None? || r.lockId == Some(t))
  {
    Apply(r, AcquireOp(kind, t))
  }

  /** The effect of `_release` on an existing document: for the reentrant lock
      the full release is tried first and the partial release only when it
      did not match. `None` is the case where `_release` raises. */
  function ReleaseStep(kind: LockKind, r: JobRecord, t: Token): (m: Option<JobRecord>)
    ensures m.Some? <==> r.lockId == Some(t)
    ensures m.Some? ==> SameJobFields(m.value, r)
    ensures kind == Exclusive && m.Some? ==> m.value.lockId.None? && m.value.counter == r.counter
    ensures kind == Reentrant && m.Some? && r.counter == Some(1) ==>
              m.value.lockId.None? && m.value.counter == Some(1) && m.value.lockLevel.None?
    ensures kind == Reentrant && m.Some? && r.counter != Some(1) ==>
              m.value.lockId == Some(t) && m.value.counter == Some(r.counter.GetOr(0) - 1)
  {
    match kind
    case Exclusive => ReleaseExclusive(r, t)
    case Reentrant =>
      var full := FullRelease(r, t);
      if full.Some? then full else PartialRelease(r, t)
  }

  /** One lock object on one document. Its token is the owner identity it
      writes into the document. */
  class DocumentLock {
    const store: Store
    const docId: DocId
    const token: Token
    const kind: LockKind
    const blocking: bool
    const timeout: real

    constructor (store: Store, docId: DocId, token: Token, kind: LockKind,
                 blocking: bool := true, timeout: real := NO_TIMEOUT)
      ensures this.store == store && this.docId == docId && this.token == token
      ensures this.kind == kind && this.blocking == blocking && this.timeout == timeout
    {
      this.store := store;
      this.docId := docId;
      this.token := token;
      this.kind := kind;
      this.blocking := blocking;
      this.timeout := timeout;
    }

    /** An `_acquire` attempt would match in the store state `docs`. */
    ghost predicate Acquirable(docs: map<DocId, JobRecord>) {
      docId in docs && Attempt(kind, docs[docId], token).Some?
    }

    /** The store state after a successful `_acquire` from `docs`. */
    ghost function Acquired(docs: map<DocId, JobRecord>): map<DocId, JobRecord>
      requires Acquirable(docs)
    {
      docs[docId := Attempt(kind, docs[docId], token).value]
    }

    /** `_acquire`: one conditional update; true iff it matched. */
    method TryAcquire() returns (acquired: bool)
      modifies store
      ensures acquired <==> Acquirable(old(store.docs))
      ensures store.docs == if acquired then Acquired(old(store.docs)) else old(store.docs)
    {
      var after := store.FindAndModify(docId, AcquireOp(kind, token));
      acquired := after.Some?;
    }

    /** `release` / `_release`: succeeds iff this object's token is stored,
        otherwise raises `DocumentLockError` and leaves the document as it was. */
    method Release() returns (o: Outcome<LockError>)
      modifies store
      ensures o.Pass? <==> docId in old(store.docs) && old(store.docs)[docId].lockId == Some(token)
      ensures o.Fail? ==> o.error == DocumentLockError && store.docs == old(store.docs)
      ensures o.Pass? ==> store.docs == old(store.docs)[docId := ReleaseStep(kind, old(store.docs)[docId], token).value]
    {
      match kind {
        case Exclusive =>
          var after := store.FindAndModify(docId, UnsetIfOwner(token));
          o := if after.Some? then Pass else Fail(DocumentLockError);
        case Reentrant =>
          var full := store.FindAndModify(docId, UnsetIfOwnerAtOne(token));
          if full.Some? {
            o := Pass;
          } else {
            var partial := store.FindAndModify(docId, DecIfOwner(token));
            o := if partial.Some? then Pass else Fail(DocumentLockError);
          }
      }
    }

    /** `acquire(blocking, timeout)`. The arguments are checked before any
        store access. Non-blocking: exactly one attempt. Blocking: the retry
        loop, cut to the `attempts` tries that fit before the deadline. */
    method Acquire(blocking: bool, timeout: real, attempts: nat) returns (r: Result<bool, LockError>)
      modifies store
      ensures ArgumentError(blocking, timeout).Some? ==>
                r == Failure(ArgumentError(blocking, timeout).value) && store.docs == old(store.docs)
      ensures ArgumentError(blocking, timeout).None? ==> r.Success?
      ensures r.Success? ==> (r.value <==> (!blocking || attempts > 0) && Acquirable(old(store.docs)))
      ensures r.Success? && r.value ==> store.docs == Acquired(old(store.docs))
      ensures !(r.Success? && r.value) ==> store.docs == old(store.docs)
    {
      var argError := ArgumentError(blocking, timeout);
      if argError.Some? {
        return Failure(argError.value);
      }
      if blocking {
        var acquired := false;
        var i := 0;
        while i < attempts && !acquired
          invariant 0 <= i <= attempts
          invariant !acquired ==> store.docs == old(store.docs)
          invariant !acquired && i > 0 ==> !Acquirable(old(store.docs))
          invariant acquired ==> Acquirable(old(store.docs)) && store.docs == Acquired(old(store.docs))
          invariant acquired ==> i > 0
        {
          acquired := TryAcquire();
          i := i + 1;
        }
        r := Success(acquired);
      } else {
        var acquired := TryAcquire();
        r := Success(acquired);
      }
    }

    /** `force_release`: unsets both lock fields whoever owns the lock. */
    method ForceRelease()
      modifies store
      ensures docId in old(store.docs) ==> store.docs == old(store.docs)[docId := ForceReleased(old(store.docs)[docId])]
      ensures docId !in old(store.docs) ==> store.docs == old(store.docs)
    {
      var _ := store.FindAndModify(docId, UnsetLockFields);
    }

    /** `__enter__`: acquire with the object's own blocking and timeout, and
        raise `DocumentLockError` when that returns false. */
    method Enter(attempts: nat) returns (o: Outcome<LockError>)
      modifies store
      ensures o.Pass? <==> ArgumentError(blocking, timeout).None? && (!blocking || attempts > 0)
                           && Acquirable(old(store.docs))
      ensures o.Pass? ==> store.docs == Acquired(old(store.docs))
      ensures o.Fail? ==> store.docs == old(store.docs)
      ensures o.Fail? ==> o.error == ArgumentError(blocking, timeout).GetOr(DocumentLockError)
    {
      var acquired := Acquire(blocking, timeout, attempts);
      if acquired.Failure? {
        o := Fail(acquired.error);
      } else if !acquired.value {
        o := Fail(DocumentLockError);
      } else {
        o := Pass;
      }
    }

    /** `__exit__`: always releases, never suppresses the exception in flight
        (the returned flag is false whenever it returns at all). */
    method Exit() returns (r: Result<bool, LockError>)
      modifies store
      ensures r.Success? ==> !r.value
      ensures r.Success? <==> docId in old(store.docs) && old(store.docs)[docId].lockId == Some(token)
      ensures r.Failure? ==> r.error == DocumentLockError && store.docs == old(store.docs)
      ensures r.Success? ==> store.docs == old(store.docs)[docId := ReleaseStep(kind, old(store.docs)[docId], token).value]
    {
      var o := Release();
      r := if o.Pass? then Success(false) else Failure(o.error);
    }
  }
}
