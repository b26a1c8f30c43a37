/** The shared job collection and its one synchronisation primitive: an atomic,
    conditional find-and-modify on a single document (no upsert, except for
    the explicit insert-only registration). */
module DocumentStore {
  import opened Common

  type DocId = string

  /** The owner token of one lock object (a fresh uuid4 per lock object). */
  datatype Token = Token(uuid: nat)

  /** One job document. The lock fields and the job bookkeeping fields live in
      the same record, so every lock transition and every registry update is a
      single-document operation. */
  datatype JobRecord = JobRecord(
    lockId: Option<Token>,            // '_lock_id'
    counter: Option<int>,             // '_lock_counter'
    lockLevel: Option<int>,           // 'lock_level': only ever unset
    parameters: string,               // the job's parameters, as stored on insert
    executing: Option<seq<string>>,   // unique ids of the open instances
    pulse: map<string, int>,          // 'pulse.<unique id>' -> last heartbeat
    errors: seq<string>)              // 'error': one '<type>:<value>' per failure

  /** The document `$setOnInsert` creates: parameters and nothing else. */
  function NewRecord(parameters: string): (r: JobRecord)
    ensures r.lockId.None? && r.counter.None? && r.lockLevel.None?
    ensures r.parameters == parameters
    ensures r.executing.None? && r.pulse == map[] && r.errors == []
  {
    JobRecord(None, None, None, parameters, None, map[], [])
  }

  /** Two records agree on everything but the lock fields. */
  predicate SameJobFields(a: JobRecord, b: JobRecord) {
    a.parameters == b.parameters && a.executing == b.executing
    && a.pulse == b.pulse && a.errors == b.errors
  }

  /** Two records agree on the lock fields. */
  predicate SameLockFields(a: JobRecord, b: JobRecord) {
    a.lockId == b.lockId && a.counter == b.counter && a.lockLevel == b.lockLevel
  }

  /** `$pull`: every occurrence of `u` removed, the rest kept in order. */
  function Pull(xs: seq<string>, u: string): (ys: seq<string>)
    ensures forall x :: x in ys <==> x in xs && x != u
    ensures |ys| <= |xs|
    ensures u !in xs ==> ys == xs
  {
    if xs == [] then []
    else (if xs[0] == u then [] else [xs[0]]) + Pull(xs[1..], u)
  }

  /** The query-and-update pairs the core sends to `find_and_modify`. */
  datatype Op =
    | SetIfUnlocked(t: Token)          // exclusive acquire
    | UnsetIfOwner(t: Token)           // exclusive release
    | SetAndIncIfFreeOrOwner(t: Token) // reentrant acquire
    | UnsetIfOwnerAtOne(t: Token)      // reentrant full release
    | DecIfOwner(t: Token)             // reentrant partial release
    | UnsetLockFields                  // force release
    | PushExecuting(uid: string)
    | PullExecuting(uid: string)
    | UnsetPulse(uid: string)
    | PushError(entry: string)

  /** Query `{_lock_id: {$exists: false}}`, update `$set {_lock_id: t}`. */
  function AcquireExclusive(r: JobRecord, t: Token): (m: Option<JobRecord>)
    ensures m.Some? <==> r.lockId.None?
    ensures m.Some? ==> m.value.lockId == Some(t) && m.value.counter == r.counter
                        && m.value.lockLevel == r.lockLevel && SameJobFields(m.value, r)
  {
    if r.lockId.None? then Some(r.(lockId := Some(t))) else None
  }

  /** Query `{_lock_id: t}`, update `$unset {_lock_id}`. */
  function ReleaseExclusive(r: JobRecord, t: Token): (m: Option<JobRecord>)
    ensures m.Some? <==> r.lockId == Some(t)
    ensures m.Some? ==> m.value.lockId.None? && m.value.counter == r.counter
                        && m.value.lockLevel == r.lockLevel && SameJobFields(m.value, r)
  {
    if r.lockId == Some(t) then Some(r.(lockId := None)) else None
  }

  /** Query `{$or: [{_lock_id: {$exists: false}}, {_lock_id: t}]}`, update
      `$set {_lock_id: t}, $inc {_lock_counter: 1}`; `$inc` on an absent
      field starts from 0. */
  function AcquireReentrant(r: JobRecord, t: Token): (m: Option<JobRecord>)
    ensures m.Some? <==> (r.lockId.None? || r.lockId == Some(t))
    ensures m.Some? ==> m.value.lockId == Some(t) && m.value.counter == Some(r.counter.GetOr(0) + 1)
                        && m.value.lockLevel == r.lockLevel && SameJobFields(m.value, r)
  {
    if r.lockId.None? || r.lockId == Some(t)
    then Some(r.(lockId := Some(t), counter := Some(r.counter.GetOr(0) + 1)))
    else None
  }

  /** Query `{_lock_id: t, _lock_counter: 1}`, update
      `$unset {_lock_id, lock_level}`. As written, the counter is NOT unset. */
  function FullRelease(r: JobRecord, t: Token): (m: Option<JobRecord>)
    ensures m.Some? <==> r.lockId == Some(t) && r.counter == Some(1)
    ensures m.Some? ==> m.value.lockId.None? && m.value.lockLevel.None?
                        && m.value.counter == r.counter && SameJobFields(m.value, r)
  {
    if r.lockId == Some(t) && r.counter == Some(1)
    then Some(r.(lockId := None, lockLevel := None))
    else None
  }

  /** Query `{_lock_id: t}`, update `$inc {_lock_counter: -1}`. */
  function PartialRelease(r: JobRecord, t: Token): (m: Option<JobRecord>)
    ensures m.Some? <==> r.lockId == Some(t)
    ensures m.Some? ==> m.value.lockId == r.lockId && m.value.counter == Some(r.counter.GetOr(0) - 1)
                        && m.value.lockLevel == r.lockLevel && SameJobFields(m.value, r)
  {
    if r.lockId == Some(t) then Some(r.(counter := Some(r.counter.GetOr(0) - 1))) else None
  }

  /** Update `$unset {_lock_id, _lock_counter}` on the document, whoever owns it. */
  function ForceReleased(r: JobRecord): (f: JobRecord)
    ensures f.lockId.None? && f.counter.None? && f.lockLevel == r.lockLevel
    ensures SameJobFields(f, r)
  {
    r.(lockId := None, counter := None)
  }

  /** The effect of one find-and-modify on a document that exists: `None` when
      the query does not match. */
  function Apply(r: JobRecord, op: Op): (m: Option<JobRecord>)
    ensures op.PushExecuting? ==> m == Some(r.(executing := Some(r.executing.GetOr([]) + [op.uid])))
    ensures op.PullExecuting? ==> m.Some? && SameLockFields(m.value, r)
                                  && m.value.executing.Some? == r.executing.Some?
                                  && (r.executing.Some? ==> m.value.executing.value == Pull(r.executing.value, op.uid))
                                  && m.value.parameters == r.parameters && m.value.pulse == r.pulse
                                  && m.value.errors == r.errors
    ensures op.UnsetPulse? ==> m.Some? && SameLockFields(m.value, r) && m.value.pulse == r.pulse - {op.uid}
                               && op.uid !in m.value.pulse
                               && m.value.parameters == r.parameters && m.value.executing == r.executing
                               && m.value.errors == r.errors
    ensures op.PushError? ==> m.Some? && SameLockFields(m.value, r) && m.value.errors == r.errors + [op.entry]
                              && m.value.parameters == r.parameters && m.value.executing == r.executing
                              && m.value.pulse == r.pulse
  {
    match op
    case SetIfUnlocked(t) => AcquireExclusive(r, t)
    case UnsetIfOwner(t) => ReleaseExclusive(r, t)
    case SetAndIncIfFreeOrOwner(t) => AcquireReentrant(r, t)
    case UnsetIfOwnerAtOne(t) => FullRelease(r, t)
    case DecIfOwner(t) => PartialRelease(r, t)
    case UnsetLockFields => Some(ForceReleased(r))
    case PushExecuting(uid) => Some(r.(executing := Some(r.executing.GetOr([]) + [uid])))
    case PullExecuting(uid) =>
      Some(r.(executing := if r.executing.Some? then Some(Pull(r.executing.value, uid)) else None))
    case UnsetPulse(uid) => Some(r.(pulse := r.pulse - {uid}))
    case PushError(e) => Some(r.(errors := r.errors + [e]))
  }

  /** The jobs collection: document id to job record. */
  class Store {
    var docs: map<DocId, JobRecord>

    constructor ()
      ensures docs == map[]
    {
      docs := map[];
    }

    /** `find_one`: the document, or `None` when there is none. */
    function Find(id: DocId): (d: Option<JobRecord>)
      reads this
      ensures d.Some? <==> id in docs
      ensures d.Some? ==> d.value == docs[id]
    {
      if id in docs then Some(docs[id]) else None
    }

    /** One atomic conditional update. A missing document is a non-match
        (there is no upsert). Returns the document after the update, or
        `None` when nothing matched and nothing changed. */
    method FindAndModify(id: DocId, op: Op) returns (after: Option<JobRecord>)
      modifies this
      ensures id !in old(docs) ==> after.None?
      ensures id in old(docs) ==> after == Apply(old(docs)[id], op)
      ensures docs == if after.Some? then old(docs)[id := after.value] else old(docs)
    {
      if id in docs {
        after := Apply(docs[id], op);
        if after.Some? {
          docs := docs[id := after.value];
        }
      } else {
        after := None;
      }
    }

    /** `find_one_and_update` with `$setOnInsert` and `upsert=True`: creates
        the record when it is missing and never overwrites an existing one. */
    method InsertIfAbsent(id: DocId, parameters: string)
      modifies this
      ensures id in docs
      ensures id in old(docs) ==> docs == old(docs)
      ensures id !in old(docs) ==> docs == old(docs)[id := NewRecord(parameters)]
    {
      if id !in docs {
        docs := docs[id := NewRecord(parameters)];
      }
    }

    /** `delete_one` by id. */
    method Delete(id: DocId)
      modifies this
      ensures docs == old(docs) - {id}
    {
      docs := docs - {id};
    }
  }
}
