/** The online job: a job object bound to one record of the jobs collection.
    Its bookkeeping (registration, open instances, heartbeat entry, error
    log) lives in that record; its own fields remember the cached id, the
    running pulse and whether it has registered. Filesystem work, the pulse
    worker itself and hashing stay outside the model. */
module Job {
  import opened Common
  import opened DocumentStore
  import opened Concurrency

  // ---------------------------------------------------------------------
  // Versions and the job id

  /** A version tuple such as (0, 1, 1). */
  type Version = seq<nat>

  /** Python's tuple `<`: lexicographic, a proper prefix is smaller. */
  function VersionLess(a: Version, b: Version): bool
    decreases |a|
  {
    if |a| == 0 then |b| > 0
    else if |b| == 0 then false
    else a[0] < b[0] || (a[0] == b[0] && VersionLess(a[1..], b[1..]))
  }

  /** Tuple comparison is a strict total order: exactly one of `a < b`,
      `a == b`, `b < a` holds, so "older", "same" and "newer" library
      versions are told apart without overlap. */
  lemma {:induction false} VersionTrichotomy(a: Version, b: Version)
    ensures VersionLess(a, b) || a == b || VersionLess(b, a)
    ensures !(VersionLess(a, b) && VersionLess(b, a))
    decreases |a|
  {
    if |a| > 0 && |b| > 0 {
      VersionTrichotomy(a[1..], b[1..]);
      if a[0] == b[0] && a[1..] == b[1..] {
        assert a == [a[0]] + a[1..] && b == [b[0]] + b[1..];
      }
    }
  }

  /** The version a project stores when it has none configured. */
  const DEFAULT_VERSION: Version := [0, 1, 1]

  /** The only version whose ids are computed the old way. */
  const LEGACY_VERSION: Version := [0, 1]

  /** `version or project.config.get('compdb_version', (0, 1, 1))`: an
      explicit version wins unless it is missing or the empty tuple. */
  function ResolveVersion(explicit: Option<Version>, configured: Option<Version>): (v: Version)
    ensures explicit.Some? && explicit.value != [] ==> v == explicit.value
    ensures (explicit.None? || explicit.value == []) && configured.Some? ==> v == configured.value
    ensures (explicit.None? || explicit.value == []) && configured.None? ==> v == DEFAULT_VERSION
  {
    if explicit.Some? && explicit.value != [] then explicit.value else configured.GetOr(DEFAULT_VERSION)
  }

  /** What the id hash is computed from: the parameters alone, or, for
      version (0, 1), a mapping of the parameters and the project id. */
  datatype HashSpec = NewStyle(parameters: string) | OldStyle(parameters: string, project: string)

  function IdSpec(version: Version, parameters: string, project: string): (s: HashSpec)
    ensures s.OldStyle? <==> version == LEGACY_VERSION
    ensures s.parameters == parameters
    ensures s.OldStyle? ==> s.project == project
  {
    if version == LEGACY_VERSION then OldStyle(parameters, project) else NewStyle(parameters)
  }

  // ---------------------------------------------------------------------
  // Errors, pulse state, lifecycle stages

  datatype JobError =
    | VersionTooNew(configured: Version, library: Version) // RuntimeError in get_id
    | PulseAlreadyRunning                                  // AssertionError in _start_pulse
    | NoJobDocument                                        // _remove_instance found no record
    | NoExecutingField                                     // _remove_instance: KeyError 'executing'
    | InstancesOpen(count: nat)                            // RuntimeError in remove
    | LockFailure(error: LockError)                        // raised by the document lock

  /** How the heartbeat runs: a daemon process, or a thread as fallback. */
  datatype WorkerKind = PulseProcess | PulseThread

  /** The stop event matching the worker kind. */
  datatype EventKind = ProcessEvent | ThreadEvent

  /** The exception in flight when the job's context is left: its type and
      value as `str.format` renders them. */
  datatype ErrorInfo = ErrorInfo(typeName: string, value: string)

  /** The entry pushed onto the record's error list: `'{type}:{value}'`. */
  function ErrorEntry(e: ErrorInfo): string {
    e.typeName + ":" + e.value
  }

  /** The steps of the job's lifecycle that touch shared state, in the order
      they happen. */
  datatype Stage =
    | Registered | LockTaken | PulseStarted | InstanceAdded
    | PulseStopped | InstanceRemoved | ErrorRecorded | StageTwo | LockReleased | RecordDeleted

  /** The object-local fields of a job. */
  datatype LocalState = LocalState(
    id: Option<string>, pulse: Option<WorkerKind>, stopEvent: Option<EventKind>, registered: bool)

  /** `_open_instances`: the `executing` list, empty when the record or the
      field is missing. */
  function OpenInstances(docs: map<DocId, JobRecord>, id: DocId): seq<string> {
    if id in docs then docs[id].executing.GetOr([]) else []
  }

  /** The effective `blocking` of `_get_lock`: `blocking or self._blocking`,
      so an explicit false falls back to the job's own setting. */
  function EffectiveBlocking(arg: Option<bool>, own: bool): (b: bool)
    ensures arg == Some(true) ==> b
    ensures arg != Some(true) ==> b == own
  {
    arg == Some(true) || own
  }

  /** The effective `timeout` of `_get_lock`: `timeout or self._timeout`, so
      an explicit 0 falls back to the job's own timeout as `None` does. */
  function EffectiveTimeout(arg: Option<real>, own: real): (t: real)
    ensures arg.Some? && arg.value != 0.0 ==> t == arg.value
    ensures arg.None? || arg == Some(0.0) ==> t == own
  {
    if arg.Some? && arg.value != 0.0 then arg.value else own
  }

  /** The record after `_add_instance` of instance `uid`. */
  function Opened(r: JobRecord, uid: string): (o: JobRecord)
    ensures SameLockFields(o, r) && o.executing == Some(r.executing.GetOr([]) + [uid])
    ensures o.parameters == r.parameters && o.pulse == r.pulse && o.errors == r.errors
  {
    r.(executing := Some(r.executing.GetOr([]) + [uid]))
  }

  /** The record after the error entry, if any, is pushed. */
  function WithError(r: JobRecord, err: Option<ErrorInfo>): (w: JobRecord)
    ensures SameLockFields(w, r) && w.executing == r.executing && w.pulse == r.pulse
    ensures w.errors == r.errors + (if err.Some? then [ErrorEntry(err.value)] else [])
  {
    if err.Some? then r.(errors := r.errors + [ErrorEntry(err.value)]) else r
  }

  /** The record after `_close_stage_one` of instance `uid`: its heartbeat
      entry gone if a pulse was running, and every occurrence of `uid`
      pulled from `executing`. */
  function StageOneRecord(r: JobRecord, uid: string, pulseRunning: bool): (c: JobRecord)
    ensures SameLockFields(c, r) && c.errors == r.errors && c.parameters == r.parameters
    ensures c.executing.Some? <==> r.executing.Some?
    ensures c.executing.Some? ==> uid !in c.executing.value
                                  && (forall x :: x in c.executing.value <==> x in r.executing.value && x != uid)
    ensures pulseRunning ==> c.pulse == r.pulse - {uid}
    ensures !pulseRunning ==> c.pulse == r.pulse
  {
    var p := if pulseRunning then r.(pulse := r.pulse - {uid}) else r;
    p.(executing := if p.executing.Some? then Some(Pull(p.executing.value, uid)) else None)
  }

  // ---------------------------------------------------------------------
  // Lemmas about the `executing` registry

  /** `$pull` removes exactly the occurrences of `u`. */
  lemma {:induction false} PullCount(xs: seq<string>, u: string)
    ensures |Pull(xs, u)| == |xs| - multiset(xs)[u]
    ensures multiset(Pull(xs, u))[u] == 0
  {
    if xs != [] {
      PullCount(xs[1..], u);
      var head := if xs[0] == u then [] else [xs[0]];
      assert Pull(xs, u) == head + Pull(xs[1..], u);
      assert multiset(head)[u] == 0;
      assert multiset(Pull(xs, u))[u] == multiset(Pull(xs[1..], u))[u];
      assert xs == [xs[0]] + xs[1..];
      assert multiset(xs)[u] == multiset([xs[0]])[u] + multiset(xs[1..])[u];
    }
  }

  /** Pulling a value twice is pulling it once. */
  lemma {:induction false} PullIdempotent(xs: seq<string>, u: string)
    ensures Pull(Pull(xs, u), u) == Pull(xs, u)
  {
    assert u !in Pull(xs, u);
  }

  /** Pulling distributes over concatenation. */
  lemma {:induction false} PullConcat(xs: seq<string>, ys: seq<string>, u: string)
    ensures Pull(xs + ys, u) == Pull(xs, u) + Pull(ys, u)
    decreases |xs|
  {
    if xs != [] {
      PullConcat(xs[1..], ys, u);
      assert (xs + ys)[0] == xs[0];
      assert (xs + ys)[1..] == xs[1..] + ys;
      var head := if xs[0] == u then [] else [xs[0]];
      assert Pull(xs + ys, u) == head + Pull(xs[1..] + ys, u);
      assert Pull(xs, u) == head + Pull(xs[1..], u);
      assert head + (Pull(xs[1..], u) + Pull(ys, u)) == (head + Pull(xs[1..], u)) + Pull(ys, u);
    } else {
      assert xs + ys == ys;
    }
  }

  /** An instance that adds itself and then removes itself leaves the list of
      open instances as it found it, provided its unique id was not listed. */
  lemma AddThenRemoveRestores(r: JobRecord, u: string)
    requires u !in r.executing.GetOr([])
    ensures Apply(Apply(r, PushExecuting(u)).value, PullExecuting(u)).value.executing
              == Some(r.executing.GetOr([]))
  {
    var xs := r.executing.GetOr([]);
    var pushed := Apply(r, PushExecuting(u)).value;
    assert pushed.executing == Some(xs + [u]);
    PullConcat(xs, [u], u);
    assert [u][1..] == [];
    assert Pull([u], u) == [];
    assert Pull(xs, u) == xs && xs + [] == xs;
    assert Apply(pushed, PullExecuting(u)).value.executing == Some(Pull(xs + [u], u));
  }

  /** The job's exclusive lock around the locked body of `__exit__`: taking
      it sets only the owner, the body keeps the owner, and the release
      unsets it again. */
  lemma HeldExit(r: JobRecord, err: Option<ErrorInfo>, uid: string, running: bool, t: Token)
    requires r.lockId.None?
    ensures Attempt(Exclusive, r, t) == Some(r.(lockId := Some(t)))
    ensures StageOneRecord(WithError(r.(lockId := Some(t)), err), uid, running)
            == StageOneRecord(WithError(r, err), uid, running).(lockId := Some(t))
    ensures ReleaseStep(Exclusive, StageOneRecord(WithError(r, err), uid, running).(lockId := Some(t)), t)
            == Some(StageOneRecord(WithError(r, err), uid, running))
  {
  }

  /** The same for the body of `open`. */
  lemma HeldOpen(r: JobRecord, uid: string, t: Token)
    requires r.lockId.None?
    ensures Attempt(Exclusive, r, t) == Some(r.(lockId := Some(t)))
    ensures Opened(r.(lockId := Some(t)), uid) == Opened(r, uid).(lockId := Some(t))
    ensures ReleaseStep(Exclusive, Opened(r, uid).(lockId := Some(t)), t) == Some(Opened(r, uid))
    ensures ReleaseStep(Exclusive, r.(lockId := Some(t)), t) == Some(r)
  {
  }

  // ---------------------------------------------------------------------
  // The job object

  class OnlineJob {
    const store: Store
    const uniqueId: string
    const parameters: string
    const projectId: string
    const version: Version
    const libraryVersion: Version
    const hash: HashSpec -> string
    const blocking: bool
    const timeout: real
    const noforking: bool

    var cachedId: Option<string>
    var pulse: Option<WorkerKind>
    var pulseStopEvent: Option<EventKind>
    var registeredFlag: bool

    /** The shared-state steps taken so far, oldest first. */
    ghost var trail: seq<Stage>

    /** `BaseJob.__init__` and `OnlineJob.__init__` up to, but not including,
        the first `get_id` call. */
    constructor (store: Store, uniqueId: string, parameters: string, projectId: string,
                 version: Version, libraryVersion: Version, hash: HashSpec -> string,
                 blocking: bool, timeout: real, noforking: bool)
      ensures this.store == store && this.uniqueId == uniqueId && this.parameters == parameters
      ensures this.projectId == projectId && this.version == version
      ensures this.libraryVersion == libraryVersion && this.hash == hash
      ensures this.blocking == blocking && this.timeout == timeout && this.noforking == noforking
      ensures Local() == LocalState(None, None, None, false) && trail == []
    {
      this.store := store;
      this.uniqueId := uniqueId;
      this.parameters := parameters;
      this.projectId := projectId;
      this.version := version;
      this.libraryVersion := libraryVersion;
      this.hash := hash;
      this.blocking := blocking;
      this.timeout := timeout;
      this.noforking := noforking;
      cachedId := None;
      pulse := None;
      pulseStopEvent := None;
      registeredFlag := false;
      trail := [];
    }

    function Local(): LocalState
      reads this
    {
      LocalState(cachedId, pulse, pulseStopEvent, registeredFlag)
    }

    /** The id is cached, and the pulse and its stop event come and go together. */
    ghost predicate Valid()
      reads this
    {
      cachedId.Some? && (pulse.Some? <==> pulseStopEvent.Some?)
    }

    /** The id the hash gives for this job's version and parameters. */
    function ComputedId(): string
      reads this
    {
      hash(IdSpec(version, parameters, projectId))
    }

    function Id(): DocId
      reads this
      requires cachedId.Some?
    {
      cachedId.value
    }

    /** `get_id`. The id is computed once and cached; the cache is written
        before the version check, so a call that raises leaves the id cached
        and the next call returns it without raising. */
    method GetId() returns (r: Result<string, JobError>)
      modifies this
      ensures Local() == old(Local()).(id := Some(old(cachedId).GetOr(ComputedId())))
      ensures trail == old(trail)
      ensures old(cachedId).Some? ==> r == Success(old(cachedId).value)
      ensures old(cachedId).None? && VersionLess(libraryVersion, version) ==>
                r == Failure(VersionTooNew(version, libraryVersion))
      ensures old(cachedId).None? && !VersionLess(libraryVersion, version) ==> r == Success(ComputedId())
    {
      if cachedId.None? {
        cachedId := Some(hash(IdSpec(version, parameters, projectId)));
        if VersionLess(libraryVersion, version) {
          return Failure(VersionTooNew(version, libraryVersion));
        }
      }
      r := Success(cachedId.value);
    }

    /** The store after `_registered` from `docs`: unchanged once the flag is
        set or when the record exists, otherwise with a fresh record. */
    ghost function Registration(docs: map<DocId, JobRecord>): map<DocId, JobRecord>
      reads this
      requires cachedId.Some?
    {
      if registeredFlag || Id() in docs then docs else docs[Id() := NewRecord(parameters)]
    }

    /** `_registered` / `_register_online`: the insert-only upsert, at most
        once per object. */
    method Register()
      requires Valid()
      modifies this, store
      ensures Valid() && Local() == old(Local()).(registered := true)
      ensures store.docs == old(Registration(store.docs))
      ensures !old(registeredFlag) ==> Id() in store.docs
      ensures old(registeredFlag) ==> store.docs == old(store.docs)
      ensures Id() in old(store.docs) ==> store.docs[Id()] == old(store.docs)[Id()]
      ensures trail == old(trail) + (if old(registeredFlag) then [] else [Registered])
    {
      if !registeredFlag {
        store.InsertIfAbsent(Id(), parameters);
        registeredFlag := true;
        trail := trail + [Registered];
      }
    }

    /** `_add_instance`: append this instance's unique id to `executing`
        (an update without upsert: nothing happens when the record is gone). */
    method AddInstance()
      requires Valid()
      modifies store
      ensures Id() in old(store.docs) ==>
                store.docs == old(store.docs)[Id() := Opened(old(store.docs)[Id()], uniqueId)]
      ensures Id() in old(store.docs) ==>
                OpenInstances(store.docs, Id()) == OpenInstances(old(store.docs), Id()) + [uniqueId]
      ensures Id() !in old(store.docs) ==> store.docs == old(store.docs)
    {
      var _ := store.FindAndModify(Id(), PushExecuting(uniqueId));
    }

    /** `_remove_instance`: pull every occurrence of this instance's unique id
        and return how many open instances remain. Raises when the record is
        gone, and when the record has no `executing` field (the pull then
        changes nothing). */
    method RemoveInstance() returns (r: Result<nat, JobError>)
      requires Valid()
      modifies store
      ensures Id() !in old(store.docs) ==> r == Failure(NoJobDocument) && store.docs == old(store.docs)
      ensures Id() in old(store.docs) && old(store.docs)[Id()].executing.None? ==>
                r == Failure(NoExecutingField) && store.docs == old(store.docs)
      ensures Id() in old(store.docs) && old(store.docs)[Id()].executing.Some? ==>
                store.docs == old(store.docs)[Id() := old(store.docs)[Id()].(executing :=
                                 Some(Pull(old(store.docs)[Id()].executing.value, uniqueId)))]
      ensures Id() in old(store.docs) && old(store.docs)[Id()].executing.Some? ==>
                r == Success(|OpenInstances(store.docs, Id())|) && uniqueId !in OpenInstances(store.docs, Id())
    {
      var after := store.FindAndModify(Id(), PullExecuting(uniqueId));
      if after.None? {
        return Failure(NoJobDocument);
      }
      if after.value.executing.None? {
        return Failure(NoExecutingField);
      }
      r := Success(|after.value.executing.value|);
    }

    /** `_start_pulse`, state only: both pulse fields must be unset; the
        worker is a daemon process unless forking is switched off or the
        process cannot start (`forkable` false), in which case a thread. */
    method StartPulse(forkable: bool) returns (o: Outcome<JobError>)
      requires Valid()
      modifies this
      ensures Valid()
      ensures old(pulse).Some? ==> o == Fail(PulseAlreadyRunning) && Local() == old(Local()) && trail == old(trail)
      ensures old(pulse).None? ==> o.Pass? && trail == old(trail) + [PulseStarted]
      ensures old(pulse).None? && !noforking && forkable ==>
                Local() == old(Local()).(pulse := Some(PulseProcess), stopEvent := Some(ProcessEvent))
      ensures old(pulse).None? && (noforking || !forkable) ==>
                Local() == old(Local()).(pulse := Some(PulseThread), stopEvent := Some(ThreadEvent))
    {
      if pulse.Some? || pulseStopEvent.Some? {
        return Fail(PulseAlreadyRunning);
      }
      if !noforking && forkable {
        pulseStopEvent := Some(ProcessEvent);
        pulse := Some(PulseProcess);
      } else {
        pulseStopEvent := Some(ThreadEvent);
        pulse := Some(PulseThread);
      }
      trail := trail + [PulseStarted];
      o := Pass;
    }

    /** `_stop_pulse`, state only: a no-op without a pulse; otherwise unsets
        this instance's heartbeat entry in the record and clears both pulse
        fields. */
    method StopPulse()
      requires Valid()
      modifies this, store
      ensures Valid() && pulse.None? && pulseStopEvent.None?
      ensures Local() == old(Local()).(pulse := None, stopEvent := None)
      ensures old(pulse).None? ==> store.docs == old(store.docs) && trail == old(trail)
      ensures old(pulse).Some? ==> trail == old(trail) + [PulseStopped]
      ensures old(pulse).Some? && Id() in old(store.docs) ==>
                store.docs == old(store.docs)[Id() := old(store.docs)[Id()].(pulse := old(store.docs)[Id()].pulse - {uniqueId})]
      ensures old(pulse).Some? && Id() !in old(store.docs) ==> store.docs == old(store.docs)
    {
      if pulse.Some? {
        var _ := store.FindAndModify(Id(), UnsetPulse(uniqueId));
        pulse := None;
        pulseStopEvent := None;
        trail := trail + [PulseStopped];
      }
    }

    /** `OnlineJob._open`: start the pulse, then add the instance. */
    method OpenUnguarded(forkable: bool) returns (o: Outcome<JobError>)
      requires Valid()
      modifies this, store
      ensures Valid() && cachedId == old(cachedId) && registeredFlag == old(registeredFlag)
      ensures old(pulse).Some? ==> o == Fail(PulseAlreadyRunning) && store.docs == old(store.docs)
                                   && Local() == old(Local()) && trail == old(trail)
      ensures old(pulse).None? ==> o.Pass? && pulse.Some? && trail == old(trail) + [PulseStarted, InstanceAdded]
      ensures old(pulse).None? && Id() in old(store.docs) ==>
                store.docs == old(store.docs)[Id() := Opened(old(store.docs)[Id()], uniqueId)]
      ensures old(pulse).None? && Id() !in old(store.docs) ==> store.docs == old(store.docs)
    {
      o := StartPulse(forkable);
      if o.Fail? {
        return;
      }
      AddInstance();
      trail := trail + [InstanceAdded];
    }

    /** `OnlineJob._close_stage_one`: stop the pulse, then remove the instance. */
    method CloseStageOne() returns (o: Outcome<JobError>)
      requires Valid()
      modifies this, store
      ensures Valid() && Local() == old(Local()).(pulse := None, stopEvent := None)
      ensures Id() in old(store.docs) ==>
                store.docs == old(store.docs)[Id() := StageOneRecord(old(store.docs)[Id()], uniqueId, old(pulse).Some?)]
      ensures Id() in old(store.docs) ==> (o.Pass? <==> old(store.docs)[Id()].executing.Some?)
      ensures Id() in old(store.docs) && o.Fail? ==> o.error == NoExecutingField
      ensures Id() !in old(store.docs) ==> o == Fail(NoJobDocument) && store.docs == old(store.docs)
      ensures trail == old(trail) + (if old(pulse).Some? then [PulseStopped] else []) + [InstanceRemoved]
    {
      StopPulse();
      var removed := RemoveInstance();
      trail := trail + [InstanceRemoved];
      o := if removed.Success? then Pass else Fail(removed.error);
    }

    /** `_get_lock`: register, then a new exclusive lock on the record with
        the effective blocking and timeout. */
    method GetLock(blockingArg: Option<bool>, timeoutArg: Option<real>, token: Token) returns (lock: DocumentLock)
      requires Valid()
      modifies this, store
      ensures Valid() && Local() == old(Local()).(registered := true)
      ensures store.docs == old(Registration(store.docs))
      ensures trail == old(trail) + (if old(registeredFlag) then [] else [Registered])
      ensures fresh(lock) && lock.store == store && lock.docId == Id() && lock.token == token
      ensures lock.kind == Exclusive
      ensures lock.blocking == EffectiveBlocking(blockingArg, blocking)
      ensures lock.timeout == EffectiveTimeout(timeoutArg, timeout)
    {
      Register();
      lock := new DocumentLock(store, Id(), token, Exclusive,
                               EffectiveBlocking(blockingArg, blocking), EffectiveTimeout(timeoutArg, timeout));
    }

    /** Whether `__enter__` of the job's own lock succeeds on `docs` (the
        store after registration): valid lock arguments, at least one attempt
        when blocking, an existing record that nobody has locked. */
    ghost predicate CanLock(docs: map<DocId, JobRecord>, attempts: nat)
      reads this
      requires cachedId.Some?
    {
      ArgumentError(blocking, timeout).None? && (!blocking || attempts > 0)
      && Id() in docs && docs[Id()].lockId.None?
    }

    /** `with lock: self._open()`. The lock is released again whatever the
        body does; nothing else runs while it is held, so the release cannot
        fail. */
    method OpenUnder(lock: DocumentLock, attempts: nat, forkable: bool) returns (o: Outcome<JobError>)
      requires Valid() && OwnLock(lock)
      modifies this, store
      ensures Valid() && cachedId == old(cachedId) && registeredFlag == old(registeredFlag)
      ensures !old(CanLock(store.docs, attempts)) ==>
                o == Fail(LockFailure(ArgumentError(blocking, timeout).GetOr(DocumentLockError)))
                && store.docs == old(store.docs) && Local() == old(Local()) && trail == old(trail)
      ensures old(CanLock(store.docs, attempts)) && old(pulse).Some? ==>
                o == Fail(PulseAlreadyRunning) && store.docs == old(store.docs) && Local() == old(Local())
      ensures old(CanLock(store.docs, attempts)) && old(pulse).None? ==>
                o.Pass? && pulse.Some? && store.docs == old(store.docs)[Id() := Opened(old(store.docs)[Id()], uniqueId)]
      ensures o.Pass? ==> trail == old(trail) + [LockTaken, PulseStarted, InstanceAdded, LockReleased]
    {
      ghost var d0 := store.docs;
      var entered := lock.Enter(attempts);
      if entered.Fail? {
        return Fail(LockFailure(entered.error));
      }
      trail := trail + [LockTaken];
      assert Id() in d0 && d0[Id()].lockId.None?;
      HeldOpen(d0[Id()], uniqueId, lock.token);
      o := OpenUnguarded(forkable);
      var released := lock.Exit();
      trail := trail + [LockReleased];
    }

    /** `open`: `_open` under the job's lock. */
    method Open(token: Token, attempts: nat, forkable: bool) returns (o: Outcome<JobError>)
      requires Valid()
      modifies this, store
      ensures Valid() && cachedId == old(cachedId) && registeredFlag
      ensures !old(CanLock(Registration(store.docs), attempts)) ==>
                o == Fail(LockFailure(ArgumentError(blocking, timeout).GetOr(DocumentLockError)))
                && store.docs == old(Registration(store.docs)) && Local() == old(Local()).(registered := true)
      ensures old(CanLock(Registration(store.docs), attempts)) && old(pulse).Some? ==>
                o == Fail(PulseAlreadyRunning) && store.docs == old(Registration(store.docs))
                && Local() == old(Local()).(registered := true)
      ensures old(CanLock(Registration(store.docs), attempts)) && old(pulse).None? ==>
                o.Pass? && pulse.Some?
                && store.docs == old(Registration(store.docs))[Id() := Opened(old(Registration(store.docs))[Id()], uniqueId)]
      ensures o.Pass? ==> trail == old(trail) + (if old(registeredFlag) then [] else [Registered])
                                  + [LockTaken, PulseStarted, InstanceAdded, LockReleased]
    {
      var lock := GetLock(None, None, token);
      o := OpenUnder(lock, attempts, forkable);
    }

    /** `with lock: self._close_stage_two()`; stage two only logs, so the
        record is as it was once the lock is released. */
    method CloseUnder(lock: DocumentLock, attempts: nat) returns (o: Outcome<JobError>)
      requires Valid() && OwnLock(lock)
      modifies this, store
      ensures Local() == old(Local()) && store.docs == old(store.docs)
      ensures o.Pass? <==> old(CanLock(store.docs, attempts))
      ensures o.Fail? ==> o.error == LockFailure(ArgumentError(blocking, timeout).GetOr(DocumentLockError))
      ensures o.Pass? ==> trail == old(trail) + [LockTaken, StageTwo, LockReleased]
    {
      ghost var d0 := store.docs;
      var entered := lock.Enter(attempts);
      if entered.Fail? {
        return Fail(LockFailure(entered.error));
      }
      trail := trail + [LockTaken, StageTwo];
      assert Id() in d0 && d0[Id()].lockId.None?;
      HeldOpen(d0[Id()], uniqueId, lock.token);
      var released := lock.Exit();
      trail := trail + [LockReleased];
      o := Pass;
    }

    /** `close`: `_close_stage_two` under the job's lock. */
    method Close(token: Token, attempts: nat) returns (o: Outcome<JobError>)
      requires Valid()
      modifies this, store
      ensures Valid() && Local() == old(Local()).(registered := true)
      ensures store.docs == old(Registration(store.docs))
      ensures o.Pass? <==> old(CanLock(Registration(store.docs), attempts))
      ensures o.Fail? ==> o.error == LockFailure(ArgumentError(blocking, timeout).GetOr(DocumentLockError))
      ensures o.Pass? ==> trail == old(trail) + (if old(registeredFlag) then [] else [Registered])
                                  + [LockTaken, StageTwo, LockReleased]
    {
      var lock := GetLock(None, None, token);
      o := CloseUnder(lock, attempts);
    }

    /** `force_release`: register, then unset both lock fields of the record
        whoever holds the lock. */
    method ForceRelease(token: Token)
      requires Valid()
      modifies this, store
      ensures Valid() && Local() == old(Local()).(registered := true)
      ensures Id() in old(Registration(store.docs)) ==>
                store.docs == old(Registration(store.docs))[Id() := ForceReleased(old(Registration(store.docs))[Id()])]
      ensures Id() !in old(Registration(store.docs)) ==> store.docs == old(store.docs)
    {
      var lock := GetLock(None, None, token);
      lock.ForceRelease();
    }

    /** The locked body of `OnlineJob.__exit__`: with an error, push its
        entry and run stage one; without, stage one then stage two (which
        only logs, and is skipped when stage one raises). */
    method ExitLocked(err: Option<ErrorInfo>) returns (o: Outcome<JobError>)
      requires Valid() && Id() in store.docs
      modifies this, store
      ensures Valid() && Local() == old(Local()).(pulse := None, stopEvent := None)
      ensures store.docs == old(store.docs)[Id() := StageOneRecord(WithError(old(store.docs)[Id()], err), uniqueId, old(pulse).Some?)]
      ensures o.Pass? <==> old(store.docs)[Id()].executing.Some?
      ensures o.Fail? ==> o.error == NoExecutingField
      ensures trail == old(trail) + (if err.Some? then [ErrorRecorded] else [])
                + (if old(pulse).Some? then [PulseStopped] else []) + [InstanceRemoved]
                + (if err.None? && o.Pass? then [StageTwo] else [])
    {
      if err.Some? {
        var _ := store.FindAndModify(Id(), PushError(ErrorEntry(err.value)));
        trail := trail + [ErrorRecorded];
      }
      o := CloseStageOne();
      if err.None? && o.Pass? {
        trail := trail + [StageTwo];
      }
    }

    /** The job's own lock on its record, as `_get_lock()` builds it. */
    ghost predicate OwnLock(lock: DocumentLock)
      reads this
      requires cachedId.Some?
    {
      lock.store == store && lock.docId == Id() && lock.kind == Exclusive
      && lock.blocking == blocking && lock.timeout == timeout
    }

    /** `with lock:` around the locked body of `OnlineJob.__exit__`. */
    method ExitUnder(lock: DocumentLock, err: Option<ErrorInfo>, attempts: nat) returns (r: Result<bool, JobError>)
      requires Valid() && OwnLock(lock)
      modifies this, store
      ensures Valid() && cachedId == old(cachedId) && registeredFlag == old(registeredFlag)
      ensures r.Success? ==> !r.value
      ensures !old(CanLock(store.docs, attempts)) ==>
                r == Failure(LockFailure(ArgumentError(blocking, timeout).GetOr(DocumentLockError)))
                && store.docs == old(store.docs) && Local() == old(Local()) && trail == old(trail)
      ensures old(CanLock(store.docs, attempts)) ==>
                pulse.None? && pulseStopEvent.None?
                && store.docs == old(store.docs)[Id() := StageOneRecord(WithError(old(store.docs)[Id()], err), uniqueId, old(pulse).Some?)]
                && (r.Success? <==> old(store.docs)[Id()].executing.Some?)
                && (r.Failure? ==> r.error == NoExecutingField)
      ensures r.Success? ==>
                trail == old(trail) + [LockTaken] + (if err.Some? then [ErrorRecorded] else [])
                         + (if old(pulse).Some? then [PulseStopped] else []) + [InstanceRemoved]
                         + (if err.None? then [StageTwo] else []) + [LockReleased]
    {
      ghost var d0 := store.docs;
      var entered := lock.Enter(attempts);
      if entered.Fail? {
        return Failure(LockFailure(entered.error));
      }
      trail := trail + [LockTaken];
      assert Id() in d0 && d0[Id()].lockId.None?;
      ghost var running := pulse.Some?;
      HeldExit(d0[Id()], err, uniqueId, running, lock.token);
      var closed := ExitLocked(err);
      var released := lock.Exit();
      trail := trail + [LockReleased];
      r := if closed.Pass? then Success(false) else Failure(closed.error);
    }

    /** `OnlineJob.__exit__`: everything under the job's lock; the exception
        is never suppressed (the result is false whenever there is one).
        When the lock cannot be taken, nothing is closed. */
    method Exit(err: Option<ErrorInfo>, token: Token, attempts: nat) returns (r: Result<bool, JobError>)
      requires Valid()
      modifies this, store
      ensures Valid() && cachedId == old(cachedId) && registeredFlag
      ensures r.Success? ==> !r.value
      ensures !old(CanLock(Registration(store.docs), attempts)) ==>
                r == Failure(LockFailure(ArgumentError(blocking, timeout).GetOr(DocumentLockError)))
                && store.docs == old(Registration(store.docs)) && Local() == old(Local()).(registered := true)
      ensures old(CanLock(Registration(store.docs), attempts)) ==>
                pulse.None? && pulseStopEvent.None?
                && store.docs == old(Registration(store.docs))[Id() := StageOneRecord(
                                   WithError(old(Registration(store.docs))[Id()], err), uniqueId, old(pulse).Some?)]
                && (r.Success? <==> old(Registration(store.docs))[Id()].executing.Some?)
                && (r.Failure? ==> r.error == NoExecutingField)
      ensures r.Success? ==>
                trail == old(trail) + (if old(registeredFlag) then [] else [Registered])
                         + [LockTaken] + (if err.Some? then [ErrorRecorded] else [])
                         + (if old(pulse).Some? then [PulseStopped] else []) + [InstanceRemoved]
                         + (if err.None? then [StageTwo] else []) + [LockReleased]
    {
      var lock := GetLock(None, None, token);
      r := ExitUnder(lock, err, attempts);
    }

    /** `num_open_instances`. */
    function NumOpenInstances(): (n: nat)
      reads this, store
      requires Valid()
      ensures n == 0 <==> Id() !in store.docs || store.docs[Id()].executing.None?
                          || store.docs[Id()].executing.value == []
      ensures n == |OpenInstances(store.docs, Id())|
    {
      |OpenInstances(store.docs, Id())|
    }

    /** `is_exclusive_instance`: at most one open instance. */
    function IsExclusiveInstance(): (b: bool)
      reads this, store
      requires Valid()
      ensures b <==> NumOpenInstances() <= 1
    {
      NumOpenInstances() <= 1
    }

    /** `remove(force)`: refuse while instances are open unless forced;
        otherwise delete the record (the files, the job document and the
        job's own collection are outside the model). */
    method Remove(force: bool) returns (o: Outcome<JobError>)
      requires Valid()
      modifies store
      ensures !force && old(NumOpenInstances()) != 0 ==>
                o == Fail(InstancesOpen(old(NumOpenInstances()))) && store.docs == old(store.docs)
      ensures force || old(NumOpenInstances()) == 0 ==> o.Pass? && store.docs == old(store.docs) - {Id()}
      ensures o.Pass? ==> Id() !in store.docs
    {
      if !force && NumOpenInstances() != 0 {
        return Fail(InstancesOpen(NumOpenInstances()));
      }
      store.Delete(Id());
      o := Pass;
    }
  }

  /** `OnlineJob(...)`: the object, whose first `get_id` raises when the
      configured version is newer than the library's; a job that is
      returned has its id cached, no pulse and is not registered yet. */
  method NewOnlineJob(store: Store, uniqueId: string, parameters: string, projectId: string,
                      explicitVersion: Option<Version>, configuredVersion: Option<Version>,
                      libraryVersion: Version, hash: HashSpec -> string,
                      blocking: bool, timeout: real, noforking: bool)
    returns (r: Result<OnlineJob, JobError>)
    ensures r.Success? <==> !VersionLess(libraryVersion, ResolveVersion(explicitVersion, configuredVersion))
    ensures r.Failure? ==> r.error == VersionTooNew(ResolveVersion(explicitVersion, configuredVersion), libraryVersion)
    ensures r.Success? ==> fresh(r.value) && r.value.Valid() && r.value.store == store
                           && r.value.cachedId == Some(r.value.ComputedId())
                           && r.value.pulse.None? && !r.value.registeredFlag && r.value.trail == []
  {
    var job := new OnlineJob(store, uniqueId, parameters, projectId,
                             ResolveVersion(explicitVersion, configuredVersion), libraryVersion, hash,
                             blocking, timeout, noforking);
    var id := job.GetId();
    if id.Failure? {
      return Failure(id.error);
    }
    r := Success(job);
  }

  /** The two closing stages of a job without a database: going back to the
      previous working directory, then the closing log entry. */
  datatype BaseStage = RestoreDirectory | LogClosed

  /** `BaseJob.__exit__`: the stages it runs, in order, and its result. Stage
      one always runs first, stage two only without an error, and the
      exception is never suppressed. */
  function BaseExit(errored: bool): (s: (seq<BaseStage>, bool))
    ensures |s.0| == (if errored then 1 else 2) && s.0[0] == RestoreDirectory
    ensures |s.0| > 1 ==> s.0[1] == LogClosed
    ensures LogClosed in s.0 <==> !errored
    ensures !s.1
  {
    (if errored then [RestoreDirectory] else [RestoreDirectory, LogClosed], false)
  }
}
