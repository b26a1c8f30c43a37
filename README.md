# compdb core: document locks, online-job bookkeeping and query resolution

This project models three parts of compdb, a Python library for computational
data management backed by MongoDB:

- **Document locks** (`src/compdb/contrib/concurrency.py`). An exclusive lock
  and a reentrant lock live inside a job document. Each acquire and each
  release is one atomic, conditional `find_and_modify`.
  - `DocumentStore` models the jobs collection as a class holding a map from
    document id to record, with one `FindAndModify` method.
  - `Concurrency` models the lock object: the class `DocumentLock`, whose
    field `kind` selects exclusive or reentrant behaviour.
  - `LockProtocol` replays sequential interleavings of calls made by several
    lock objects on one document. It proves the protocol's promises about
    those interleavings, and two places where the code breaks them.
- **Online-job bookkeeping** (`src/compdb/contrib/job.py`). `Job.OnlineJob` is
  a class with the object-local state of the source: the cached id, the pulse
  and its stop event, and the registration flag. The record of the job holds
  the list of open instances (`executing`), the heartbeat map and the error
  list. A ghost `trail` records the lifecycle steps in the order they happen.
- **Query-expression helpers** (`src/compdb/db/database.py`):
  - `_split_filter`, `_resolve_projection`, `_resolve_files`;
  - `_resolve`, which swaps each callable for a `$CALL(id)` marker entered in a
    call table;
  - `_resolve_dict`, which validates keys, fixes `$project` and turns callable
    keys into an id filter;
  - `_resolve_calls`, which swaps markers in results for the callable's result.

  Each of these is a specification function. `_split_filter`, `_resolve_dict`
  and the call-table filling of `_resolve` are also methods, proved equal to
  those functions.

Some things outside the model are given as parameters:
- the hash of the job id (`hash`);
- the GridFS fetch (`fetch`);
- applying a callable to data (`apply`);
- the store query together with the local methods filter (`select`);
- the number of attempts that fit before a deadline (`attempts`).

Python dictionaries are entry sequences in insertion order. Call ids are
`CallId(n)`, the `n`-th id issued, which stand for the source's uuid4
strings; distinct counts give distinct ids.

The model follows the code as written, also where it departs from what the
docstrings and the evident intent of the code promise:
- The reentrant full release does not unset the counter.
- In `LockProtocol`, a timed-out blocking acquire discards the attempt that is still in flight (`LockProtocol.AcquireAsWritten`). `Concurrency.DocumentLock.Acquire` has no attempt in flight; see "## Left out".
- The error record pushed by `__exit__` is the string `'{type}:{value}'`.
- `open` holds the job lock only while it opens, not until `close`.

## Model

| member | source | states |
|---|---|---|
| `Concurrency.ArgumentError` | src/compdb/contrib/concurrency.py:50-101 | ValueError exactly when non-blocking with a timeout other than -1; otherwise OverflowError exactly when the timeout exceeds TIMEOUT_MAX; otherwise the local lock's ValueError exactly when blocking with a negative timeout other than -1; no error otherwise |
| `Concurrency.Attempt` | src/compdb/contrib/concurrency.py:172-229 | an acquire attempt matches iff the owner field is absent (exclusive) or absent or equal to the own token (reentrant); on a match the token is stored and the job fields are untouched |
| `Concurrency.ReleaseStep` | src/compdb/contrib/concurrency.py:185-251 | a release matches iff the own token is stored; exclusive unsets the owner only; reentrant at counter 1 unsets owner and `lock_level` but keeps the counter, otherwise decrements the counter and keeps the owner |
| `Concurrency.DocumentLock.constructor` | src/compdb/contrib/concurrency.py:69-79 | the lock remembers collection, document id, token, blocking and timeout |
| `Concurrency.DocumentLock.TryAcquire` | src/compdb/contrib/concurrency.py:172-229 | `_acquire` returns true iff the document exists and the attempt matches; the store changes only then, to the acquired record |
| `Concurrency.DocumentLock.Release` | src/compdb/contrib/concurrency.py:128-251 | release succeeds iff the own token is stored, and then applies the release step; otherwise DocumentLockError with the store unchanged |
| `Concurrency.DocumentLock.Acquire` | src/compdb/contrib/concurrency.py:81-126 | argument errors are raised before any store access and change nothing; otherwise the result is true iff an attempt is made (one when non-blocking, up to `attempts` when blocking) and matches, and then the store holds the acquired record; a false result, with the attempts run out, leaves the store unchanged |
| `Concurrency.DocumentLock.ForceRelease` | src/compdb/contrib/concurrency.py:135-139 | both lock fields are unset whoever owns the lock; a missing document is left alone |
| `Concurrency.DocumentLock.Enter` | src/compdb/contrib/concurrency.py:141-151 | `__enter__` passes iff the arguments are valid, an attempt is made and it matches; a false acquire becomes DocumentLockError |
| `Concurrency.DocumentLock.Exit` | src/compdb/contrib/concurrency.py:153-155 | `__exit__` always releases and returns false, never suppressing the exception in flight |
| `DocumentStore.NewRecord` | src/compdb/contrib/job.py:250-265 | the inserted record carries the parameters and no lock, instance, heartbeat or error fields |
| `DocumentStore.Pull` | src/compdb/contrib/job.py:291 | `$pull` keeps exactly the elements different from the pulled value, in order |
| `DocumentStore.AcquireExclusive` | src/compdb/contrib/concurrency.py:172-179 | matches iff no owner is stored; then sets the owner only |
| `DocumentStore.ReleaseExclusive` | src/compdb/contrib/concurrency.py:185-193 | matches iff the owner is the token; then unsets the owner only |
| `DocumentStore.AcquireReentrant` | src/compdb/contrib/concurrency.py:214-225 | matches iff no owner or the own token; then sets the owner and increments the counter from 0 when absent |
| `DocumentStore.FullRelease` | src/compdb/contrib/concurrency.py:232-238 | matches iff owner is the token and counter is 1; unsets owner and `lock_level`, keeps the counter |
| `DocumentStore.PartialRelease` | src/compdb/contrib/concurrency.py:242-248 | matches iff owner is the token; decrements the counter |
| `DocumentStore.ForceReleased` | src/compdb/contrib/concurrency.py:137-139 | owner and counter unset, job fields kept |
| `DocumentStore.Apply` | src/compdb/contrib/job.py:281-337 | `$push` appends to `executing` (creating it), `$pull` removes the instance from an existing list, `$unset` drops the heartbeat entry, the error push appends; each leaves the lock fields and every other job field as they were |
| `DocumentStore.Store.Find` | src/compdb/contrib/job.py:444-448 | `find_one` returns the record iff it exists |
| `DocumentStore.Store.FindAndModify` | src/compdb/contrib/concurrency.py:173-180 | one atomic conditional update: a missing document or a non-matching query changes nothing and returns none |
| `DocumentStore.Store.InsertIfAbsent` | src/compdb/contrib/job.py:261-265 | the `$setOnInsert` upsert creates a missing record and never overwrites an existing one |
| `DocumentStore.Store.Delete` | src/compdb/contrib/job.py:423-426 | the record is deleted and nothing else changes |
| `LockProtocol.Step` | src/compdb/contrib/concurrency.py:172-251 | a failed call leaves the record unchanged, and no lock call changes the job fields |
| `LockProtocol.MutualExclusion` | src/compdb/contrib/concurrency.py:172-196 | under every interleaving of exclusive calls from any objects the holders by history are exactly the stored token, so at most one |
| `LockProtocol.HolderKeepsLock` | src/compdb/contrib/concurrency.py:135-251 | while the holder neither releases nor is forced, its token stays stored and every other object's acquire and release fails |
| `LockProtocol.AcquireMany` | src/compdb/contrib/concurrency.py:214-229 | j reentrant acquires by one token all succeed and raise the counter by j |
| `LockProtocol.ReleaseMany` | src/compdb/contrib/concurrency.py:242-251 | releases by the owner above counter 1 all succeed as partial releases |
| `LockProtocol.ReentrantBalanced` | src/compdb/contrib/concurrency.py:231-251 | from a record with no owner and no counter, k acquires then k releases all succeed and unlock, and release k+1 raises; as written the counter is left at 1 |
| `LockProtocol.CorrectedFullRelease` | src/compdb/contrib/concurrency.py:232-238 | the full release with the counter unset too: same match condition, owner, counter and `lock_level` all unset |
| `LockProtocol.CorrectedRelease` | src/compdb/contrib/concurrency.py:231-251 | corrected release matches iff owner; at counter 1 leaves neither owner nor counter |
| `LockProtocol.CorrectedKeepsConsistent` | src/compdb/contrib/concurrency.py:231-251 | with the corrected release every interleaving keeps "counter present iff owner present, and then at least 1" |
| `LockProtocol.SecondCycleLeavesLockHeld` | src/compdb/contrib/concurrency.py:233-238 | as written, two balanced acquire/release cycles by two objects all succeed yet leave the second object's token stored |
| `LockProtocol.CorrectedSecondCycleUnlocks` | src/compdb/contrib/concurrency.py:233-238 | with the corrected release the same cycles leave the record unlocked with no counter |
| `LockProtocol.Retry` | src/compdb/contrib/concurrency.py:107-114 | each `Try` is one `_acquire` attempt until one succeeds; until then every attempt failed and the document is what the other objects' calls alone made of it; no call touches the job fields |
| `LockProtocol.RetryDone` | src/compdb/contrib/concurrency.py:107-114 | once the thread has acquired it makes no more attempts: later events act only through other objects' calls and the result stays true |
| `LockProtocol.Joined` | src/compdb/contrib/concurrency.py:117-121 | the final join lets exactly the one attempt in flight at the deadline finish, and nothing later |
| `LockProtocol.AcquireAsWritten` | src/compdb/contrib/concurrency.py:115-124 | true only if the thread acquired before the deadline; false means no attempt before the deadline changed the document |
| `LockProtocol.AcquireJoined` | src/compdb/contrib/concurrency.py:115-124 | the thread's own result after the final join: it keeps every true result of the acquire as written, and differs from it only when the attempt in flight at the deadline succeeded |
| `LockProtocol.TimedOutAcquireLeaksLock` | src/compdb/contrib/concurrency.py:107-124 | as written, a blocking acquire can return false while its last attempt stored the token |
| `LockProtocol.RetryReportsHolder` | src/compdb/contrib/concurrency.py:107-114 | the retry thread's own result is true iff its token is stored, while other objects only acquire and release (no force release) |
| `LockProtocol.JoinedAcquireReportsHolder` | src/compdb/contrib/concurrency.py:115-124 | reporting the joined thread's result makes acquire true iff the object holds the lock when acquire returns, while other objects only acquire and release (no force release) |
| `Job.VersionTrichotomy` | src/compdb/contrib/job.py:72-77 | tuple comparison is a strict total order, so "newer", "same" and "older" never overlap |
| `Job.ResolveVersion` | src/compdb/contrib/job.py:50 | an explicit non-empty version wins, else the configured one, else (0, 1, 1) |
| `Job.IdSpec` | src/compdb/contrib/job.py:63-71 | the id is hashed from parameters and project id exactly for version (0, 1), from the parameters otherwise |
| `Job.EffectiveBlocking` | src/compdb/contrib/job.py:356 | only an explicit true overrides; false or none falls back to the job's setting |
| `Job.EffectiveTimeout` | src/compdb/contrib/job.py:357 | an explicit non-zero timeout overrides; 0 or none falls back to the job's timeout |
| `Job.Opened` | src/compdb/contrib/job.py:281-287 | adding an instance appends its unique id to `executing` and changes no other field |
| `Job.WithError` | src/compdb/contrib/job.py:381-387 | the error entry `'{type}:{value}'` is appended exactly when there is an error |
| `Job.StageOneRecord` | src/compdb/contrib/job.py:345-348 | stage one drops the heartbeat entry if a pulse ran and removes every occurrence of the instance from `executing` |
| `Job.PullCount` | src/compdb/contrib/job.py:291 | `$pull` removes exactly the occurrences of the unique id |
| `Job.PullIdempotent` | src/compdb/contrib/job.py:291 | pulling twice is pulling once |
| `Job.PullConcat` | src/compdb/contrib/job.py:291 | pulling distributes over concatenation |
| `Job.AddThenRemoveRestores` | src/compdb/contrib/job.py:281-297 | an instance that adds then removes itself leaves `executing` as it found it |
| `Job.OnlineJob.constructor` | src/compdb/contrib/job.py:224-244 | a new job has no cached id, no pulse and is not registered |
| `Job.OnlineJob.GetId` | src/compdb/contrib/job.py:58-78 | the id is computed once and cached before the version check; a newer configured version raises on the first call only |
| `Job.OnlineJob.Register` | src/compdb/contrib/job.py:271-275 | the insert-only upsert happens at most once per object, never overwrites, and sets the flag |
| `Job.OnlineJob.AddInstance` | src/compdb/contrib/job.py:281-287 | the open instances become the old ones plus this unique id; no record, no change |
| `Job.OnlineJob.RemoveInstance` | src/compdb/contrib/job.py:289-297 | every occurrence of the unique id is pulled and the remaining count returned; a missing record or field raises |
| `Job.OnlineJob.StartPulse` | src/compdb/contrib/job.py:299-322 | refuses when a pulse runs; otherwise a process pulse unless forking is off or fails, then a thread |
| `Job.OnlineJob.StopPulse` | src/compdb/contrib/job.py:324-337 | no-op without a pulse; otherwise unsets this instance's heartbeat entry and clears both pulse fields |
| `Job.OnlineJob.OpenUnguarded` | src/compdb/contrib/job.py:339-343 | `_open` starts the pulse, then adds the instance |
| `Job.OnlineJob.CloseStageOne` | src/compdb/contrib/job.py:345-348 | stops the pulse, then removes the instance, in that order |
| `Job.OnlineJob.GetLock` | src/compdb/contrib/job.py:350-357 | registers, then builds an exclusive lock on the record with the effective blocking and timeout |
| `Job.OnlineJob.OpenUnder` | src/compdb/contrib/job.py:359-362 | under a lock it can take, `_open` runs and the lock is released again, leaving the record with the instance added; a lock failure changes nothing; a running pulse fails and leaves the record as it was |
| `Job.OnlineJob.Open` | src/compdb/contrib/job.py:359-362 | registration, lock, pulse, instance, unlock in that order; a lock failure changes only the registration |
| `Job.OnlineJob.CloseUnder` | src/compdb/contrib/job.py:364-367 | succeeds iff the lock can be taken, and leaves the record and the object as they were |
| `Job.OnlineJob.Close` | src/compdb/contrib/job.py:364-367 | under the lock stage two only; the record is unchanged |
| `Job.OnlineJob.ForceRelease` | src/compdb/contrib/job.py:369-371 | registers, then unsets both lock fields of the record |
| `Job.OnlineJob.ExitLocked` | src/compdb/contrib/job.py:377-389 | with an error the entry is pushed and stage one runs; without, stage one then stage two |
| `Job.OnlineJob.ExitUnder` | src/compdb/contrib/job.py:373-389 | the whole teardown runs under the job lock, which is released again; a lock failure changes nothing |
| `Job.OnlineJob.Exit` | src/compdb/contrib/job.py:373-389 | `__exit__` registers, locks, tears down and never suppresses the exception |
| `Job.OnlineJob.NumOpenInstances` | src/compdb/contrib/job.py:442-452 | the length of `executing`; 0 exactly when the record or the field is missing or the list is empty |
| `Job.OnlineJob.IsExclusiveInstance` | src/compdb/contrib/job.py:454-456 | true iff at most one instance is open |
| `Job.OnlineJob.Remove` | src/compdb/contrib/job.py:428-440 | without force and with open instances raises and deletes nothing; otherwise the record is deleted |
| `Job.NewOnlineJob` | src/compdb/contrib/job.py:46-55 | construction fails exactly when the resolved version is newer than the library's; a built job has its id cached |
| `Job.BaseExit` | src/compdb/contrib/job.py:184-189 | stage one always runs first; stage two runs second exactly without an error, and nothing else runs; the result is false |
| `Database.SplitFilter` | src/compdb/db/database.py:287-299 | no filter gives no filters; otherwise callable keys go to the methods filter, the others to the standard one, disjoint, together the input's keys, values kept |
| `Database.ResolveProjection` | src/compdb/db/database.py:529-534 | no projection returns the document; otherwise exactly the projected keys with their values |
| `Database.ProjectionIdempotent` | src/compdb/db/database.py:529-534 | projecting twice reads the same as projecting once |
| `Database.ResolveFiles` | src/compdb/db/database.py:394-403 | the file id key becomes `data` with the fetched value, other keys kept; no file id, no change |
| `Database.ResolveFilesIdempotent` | src/compdb/db/database.py:394-403 | resolving files twice is resolving them once |
| `Database.ParseCall` | src/compdb/db/database.py:657-658 | the slice `[6:-1]` with Python's clamping |
| `Database.MarkerRoundTrip` | src/compdb/db/database.py:657-658 | the marker written for any id is recognised and parses back to that id |
| `Database.DataFor` | src/compdb/db/database.py:644-649 | the fetched file if the dictionary has a file id, else its `data`, else the data passed down |
| `Database.CallResult` | src/compdb/db/database.py:659-666 | nothing without data, the callable mapped over a list, else applied to the data |
| `Database.ResolveCalls` | src/compdb/db/database.py:642-671 | markers become call results, an unknown id raises, other strings and scalars stay, lists and dictionaries keep shape and keys |
| `Database.ResolveCallsItemwise` | src/compdb/db/database.py:654-655 | a list resolves iff every item does; item `i` of the result is item `i` resolved with the same data; a failure is the first failing item's error |
| `Database.ResolveCallsEntrywise` | src/compdb/db/database.py:644-653 | a dictionary keeps its keys and resolves iff every value does; each value is resolved with the data the dictionary passes down (its file, else its `data`, else the data in scope); a failure is the first failing value's error |
| `Database.MarkerFreeUnchanged` | src/compdb/db/database.py:642-671 | a result without markers comes back unchanged |
| `Database.MarkerResolves` | src/compdb/db/database.py:656-666 | the marker of a registered id resolves to its callable's result |
| `Database.EntryError` | src/compdb/db/database.py:596-607 | the loop raises at an entry exactly for a callable under a callable key, a non-dictionary `$project`, or `$group`/`$out` |
| `Database.FirstError` | src/compdb/db/database.py:596-607 | the error raised is the first entry's error in order, none iff no entry errs |
| `Database.FixEntry` | src/compdb/db/database.py:601-603 | a `$project` dictionary gets `_file_id` projected as `$_file_id`; every other entry is kept |
| `Database.StandardOf` | src/compdb/db/database.py:596-607 | the standard filter has exactly the non-callable keys, each with the value the dictionary holds for it, `$project` fixed with `_file_id` |
| `Database.MethodsOf` | src/compdb/db/database.py:596-599 | the methods filter has exactly the callable keys, with their values |
| `Database.ResolveDictSpec` | src/compdb/db/database.py:592-616 | raises the first entry error; with callable keys returns the id filter of the selected ids; otherwise the dictionary with `$project` fixed |
| `Database.ScanEntries` | src/compdb/db/database.py:596-607 | the loop raises exactly the first entry error; otherwise it ends with the `$project`-fixed dictionary and the standard and methods filters of the specification |
| `Database.ResolveDict` | src/compdb/db/database.py:592-616 | scanning then choosing between the id filter and the dictionary gives exactly the specification of `_resolve_dict` |
| `Database.CallId` | src/compdb/db/database.py:627 | the id issued for count `n` has length `n + 1`, so ids of different counts differ |
| `Database.ResolveSpec` | src/compdb/db/database.py:618-631 | callables become marker literals registered under the next id, scalars are kept, lists keep their length; no result is callable |
| `Database.ResolveItemsSpec` | src/compdb/db/database.py:623-624 | a list prefix resolves item by item, keeping length |
| `Database.ResolveEntriesSpec` | src/compdb/db/database.py:620-621 | a dictionary prefix resolves value by value, keeping keys |
| `Database.ResolveRestores` | src/compdb/db/database.py:618-631 | for an expression with no callable key and no `$project`, `$literal`, `$group` or `$out` key in any of its dictionaries, resolving succeeds and putting the registered callables back for the markers gives the expression again |
| `Database.ResolveSettles` | src/compdb/db/database.py:592-631 | whatever `_resolve` returns contains no callable and only dictionaries `_resolve_dict` accepts unchanged |
| `Database.SettledResolvesToItself` | src/compdb/db/database.py:592-631 | such a value resolves to itself and registers nothing |
| `Database.ResolveTwice` | src/compdb/db/database.py:596-607 | resolving a resolved value again, as `_resolve_dict` does, returns it unchanged and registers nothing |
| `Database.PutTwice` | src/compdb/db/database.py:602 | setting `_file_id` in `$project` twice is setting it once |
| `Database.CallTable.Register` | src/compdb/db/database.py:627-628 | the callable is stored under a fresh id and nothing else changes |
| `Database.CallTable.Resolve` | src/compdb/db/database.py:618-631 | the result and the callables registered, in order under consecutive fresh ids, are exactly those of the specification |
| `Database.CallTable.ResolveItems` | src/compdb/db/database.py:623-624 | the list comprehension matches the specification |
| `Database.CallTable.ResolveEntries` | src/compdb/db/database.py:620-621 | the dictionary comprehension matches the specification |

## Left out

- Threads, the `Event` wait, the `tanh` back-off and wall-clock time in the blocking `acquire`. The retry loop is bounded by the parameter `attempts`, the number of attempts that fit before the deadline.
- The local `threading.Lock` taken through `acquire_timeout`. Its result is ignored in the source, and it only serialises calls on one object. The argument check it makes (a negative timeout other than -1 raises `ValueError`) is modelled as `TimeoutNegative`.
- `Concurrency.DocumentLock.Acquire`: the retry loop is bounded by `attempts`, with two consequences. First, when the attempts run out the result is false and the store is unchanged; the source can return false after the attempt still in flight at the deadline stored the token (`LockProtocol.TimedOutAcquireLeaksLock`), and no lemma links this method to `LockProtocol.Retry`. Second, under timeout -1 the source never returns false but waits until an attempt matches; there a false result stands for blocking forever.
- `Concurrency.DocumentLock.Enter`: inherits both consequences from `Acquire`. Under timeout -1 its `DocumentLockError` stands for blocking forever, which the source does instead of raising.
- `Job.OnlineJob.Open`, `Job.OnlineJob.Close` and `Job.OnlineJob.Exit` take the job lock through `Enter`, so under the job's default timeout -1 their lock failure likewise stands for blocking forever.
- `Concurrency.DocumentLock.Release`: the two-step reentrant release is one method call with no interleaving between the full and the partial release. That race is out of scope.
- `pulse_worker` and the heartbeat writes. Only the state of `_start_pulse`/`_stop_pulse` is modelled. `forkable` stands for whether the pulse process can start. The `assert not is_alive()` after the join is left out.
- Filesystem work: directories, manifests, `chdir`, and the files, document and collection that `_remove` clears. The log messages, warnings and `_close_stage_two`'s logging are left out too.
- Hashing, GridFS, `decode`, the store query and `_filter_by_methods`, and `_convert_src`. They are the parameters `hash`, `fetch`, `select` and `apply`.
- The `DuplicateKeyError` warning path and connection failures. The `PYMONGO_3` branches are one store operation.
- uuid4 tokens and call ids. Lock tokens are given by the caller; call ids are `CallId(n)`.
- `Database.ResolveCalls`: keys of result dictionaries are not passed through `_resolve_calls`, because keys are field names or callables in the model, never marker strings.
- `Database.ResolveDictSpec`: `_resolve_dict`'s second `_resolve` of each value it files is not repeated. By `Database.ResolveTwice` it returns the value unchanged and registers nothing.
- Non-string, non-callable dictionary keys, and Python values other than null, booleans, integers, strings, lists, dictionaries and callables.
- `Database.CallResult`: the `RuntimeError` after the early `return None` is unreachable in the source and is not modelled.

## Findings

| source | as written | input that shows it | evidently intended | confidence | as-written member | corrected member |
|---|---|---|---|---|---|---|
| src/compdb/contrib/concurrency.py:233-238 | the reentrant full release unsets `_lock_id` and `lock_level`, leaving `_lock_counter` at 1 | object A acquires and releases on a fresh record, then object B acquires (counter 2) and releases (partial, counter 1): B's token stays stored though every acquire was balanced | the full release unsets `_lock_counter` together with `_lock_id` | high, not executed | `LockProtocol.SecondCycleLeavesLockHeld` | `LockProtocol.CorrectedSecondCycleUnlocks` |
| src/compdb/contrib/concurrency.py:107-124 | when the join times out, the retry thread is stopped and joined but `acquire` returns false even if the attempt in flight succeeded | the holder releases just before the deadline and the in-flight `_acquire` stores the token: `acquire` returns false and nobody releases the lock | return the thread's own result after the final join | medium, not executed | `LockProtocol.TimedOutAcquireLeaksLock` | `LockProtocol.JoinedAcquireReportsHolder` |
