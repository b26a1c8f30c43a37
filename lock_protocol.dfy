/** Sequential interleavings of lock calls made by several lock objects on
    one shared document, and the properties the lock protocol promises over
    them. A trace lists the calls in the order the store linearises them. */
module LockProtocol {
  import opened Common
  import opened DocumentStore
  import opened Concurrency

  /** Which lock the calls go through: the exclusive lock, the reentrant lock
      as the source writes it, or the reentrant lock with its full release
      also unsetting the counter. */
  datatype Protocol = ExclusiveLock | ReentrantAsWritten | ReentrantCorrected

  /** One call on the document by the lock object owning token `t`, or an
      administrative force release. */
  datatype Action = Acquire(t: Token) | Release(t: Token) | Force

  function KindOf(p: Protocol): LockKind {
    if p == ExclusiveLock then Exclusive else Reentrant
  }

  /** Full release that unsets the counter together with the owner token. */
  function CorrectedFullRelease(r: JobRecord, t: Token): (m: Option<JobRecord>)
    ensures m.Some? <==> r.lockId == Some(t) && r.counter == Some(1)
    ensures m.Some? ==> m.value.lockId.None? && m.value.counter.None? && m.value.lockLevel.None?
                        && SameJobFields(m.value, r)
  {
    if r.lockId == Some(t) && r.counter == Some(1)
    then Some(r.(lockId := None, counter := None, lockLevel := None))
    else None
  }

  /** The corrected reentrant `_release`: full release first, then partial. */
  function CorrectedRelease(r: JobRecord, t: Token): (m: Option<JobRecord>)
    ensures m.Some? <==> r.lockId == Some(t)
    ensures m.Some? && r.counter == Some(1) ==> m.value.lockId.None? && m.value.counter.None?
    ensures m.Some? && r.counter != Some(1) ==>
              m.value.lockId == Some(t) && m.value.counter == Some(r.counter.GetOr(0) - 1)
  {
    var full := CorrectedFullRelease(r, t);
    if full.Some? then full else PartialRelease(r, t)
  }

  /** One call: the new document and whether the call succeeded (acquire
      returned true, release did not raise). */
  function Step(p: Protocol, r: JobRecord, a: Action): (s: (JobRecord, bool))
    ensures !s.1 ==> s.0 == r
    ensures SameJobFields(s.0, r)
  {
    match a
    case Acquire(t) =>
      var m := Attempt(KindOf(p), r, t);
      if m.Some? then (m.value, true) else (r, false)
    case Release(t) =>
      var m := if p == ReentrantCorrected then CorrectedRelease(r, t) else ReleaseStep(KindOf(p), r, t);
      if m.Some? then (m.value, true) else (r, false)
    case Force => (ForceReleased(r), true)
  }

  function Init<T>(s: seq<T>): seq<T> requires |s| > 0 { s[..|s| - 1] }
  function Last<T>(s: seq<T>): T requires |s| > 0 { s[|s| - 1] }

  /** The document after every call of the trace. */
  function Run(p: Protocol, r: JobRecord, trace: seq<Action>): JobRecord
    decreases |trace|
  {
    if |trace| == 0 then r else Step(p, Run(p, r, Init(trace)), Last(trace)).0
  }

  /** Whether the last call of a non-empty trace succeeded. */
  function LastSucceeded(p: Protocol, r: JobRecord, trace: seq<Action>): bool
    requires |trace| > 0
  {
    Step(p, Run(p, r, Init(trace)), Last(trace)).1
  }

  /** Whether every call of the trace succeeded. */
  function AllSucceeded(p: Protocol, r: JobRecord, trace: seq<Action>): bool
    decreases |trace|
  {
    |trace| == 0 || (AllSucceeded(p, r, Init(trace)) && LastSucceeded(p, r, trace))
  }

  function LockSet(r: JobRecord): set<Token> {
    if r.lockId.Some? then {r.lockId.value} else {}
  }

  /** The holders by history: the tokens whose last successful acquire has
      not been followed by their own successful release or a force release. */
  function Holders(r: JobRecord, trace: seq<Action>): set<Token>
    decreases |trace|
  {
    if |trace| == 0 then LockSet(r)
    else
      var before := Holders(r, Init(trace));
      var ok := LastSucceeded(ExclusiveLock, r, trace);
      match Last(trace)
      case Acquire(t) => if ok then before + {t} else before
      case Release(t) => if ok then before - {t} else before
      case Force => {}
  }

  /** Mutual exclusion of the exclusive lock: under any interleaving, the
      holders by history are exactly the token stored in the document, so
      there is never more than one. */
  lemma {:induction false} MutualExclusion(r: JobRecord, trace: seq<Action>)
    ensures Holders(r, trace) == LockSet(Run(ExclusiveLock, r, trace))
    ensures |Holders(r, trace)| <= 1
    decreases |trace|
  {
    if |trace| > 0 {
      MutualExclusion(r, Init(trace));
      var st := Step(ExclusiveLock, Run(ExclusiveLock, r, Init(trace)), Last(trace));
      assert Run(ExclusiveLock, r, trace) == st.0;
      assert LastSucceeded(ExclusiveLock, r, trace) == st.1;
    }
  }

  /** A holder keeps the lock until it releases it or the lock is forced:
      every other object's acquire and release fails meanwhile. */
  lemma {:induction false} HolderKeepsLock(p: Protocol, r: JobRecord, t: Token, trace: seq<Action>)
    requires r.lockId == Some(t)
    requires forall i | 0 <= i < |trace| :: trace[i] != Release(t) && trace[i] != Force
    ensures Run(p, r, trace).lockId == Some(t)
    ensures forall i | 0 <= i < |trace| && !trace[i].Force? && trace[i].t != t ::
              !LastSucceeded(p, r, trace[..i + 1])
    decreases |trace|
  {
    if |trace| > 0 {
      var init := Init(trace);
      HolderKeepsLock(p, r, t, init);
      forall i | 0 <= i < |trace| && !trace[i].Force? && trace[i].t != t
        ensures !LastSucceeded(p, r, trace[..i + 1])
      {
        if i < |init| {
          assert trace[..i + 1] == init[..i + 1];
          assert init[i] == trace[i];
        } else {
          assert trace[..i + 1] == trace;
        }
      }
    }
  }

  /** `k` copies of one call. */
  function Repeat(a: Action, k: nat): (s: seq<Action>)
    ensures |s| == k
    ensures forall i | 0 <= i < k :: s[i] == a
  {
    if k == 0 then [] else Repeat(a, k - 1) + [a]
  }

  /** Replaying `a` then `b` is replaying `b` from where `a` left off. */
  lemma {:induction false} RunAppend(p: Protocol, r: JobRecord, a: seq<Action>, b: seq<Action>)
    ensures Run(p, r, a + b) == Run(p, Run(p, r, a), b)
    ensures AllSucceeded(p, r, a + b) == (AllSucceeded(p, r, a) && AllSucceeded(p, Run(p, r, a), b))
    decreases |b|
  {
    if |b| == 0 {
      assert a + b == a;
    } else {
      assert Init(a + b) == a + Init(b);
      assert Last(a + b) == Last(b);
      RunAppend(p, r, a, Init(b));
    }
  }

  /** `j` reentrant acquires by one token from a document it may take:
      all succeed, the token is stored and the counter went up by `j`. */
  lemma {:induction false} AcquireMany(p: Protocol, r: JobRecord, t: Token, j: nat)
    requires p != ExclusiveLock
    requires r.lockId.None? || r.lockId == Some(t)
    ensures AllSucceeded(p, r, Repeat(Acquire(t), j))
    ensures j > 0 ==> Run(p, r, Repeat(Acquire(t), j)).lockId == Some(t)
    ensures j > 0 ==> Run(p, r, Repeat(Acquire(t), j)).counter == Some(r.counter.GetOr(0) + j)
    decreases j
  {
    if j > 0 {
      var tr := Repeat(Acquire(t), j);
      AcquireMany(p, r, t, j - 1);
      assert Init(tr) == Repeat(Acquire(t), j - 1);
      assert Last(tr) == Acquire(t);
      var prev := Run(p, r, Init(tr));
      assert prev.lockId.None? || prev.lockId == Some(t);
      assert prev.counter.GetOr(0) == r.counter.GetOr(0) + j - 1;
      var m := AcquireReentrant(prev, t);
      assert Step(p, prev, Acquire(t)) == (m.value, true);
    }
  }

  /** `j` releases by the owner while the counter stays above one: all are
      partial releases that decrement the counter. */
  lemma {:induction false} ReleaseMany(p: Protocol, s: JobRecord, t: Token, c: int, j: nat)
    requires p != ExclusiveLock
    requires s.lockId == Some(t) && s.counter == Some(c) && c > j
    ensures AllSucceeded(p, s, Repeat(Release(t), j))
    ensures Run(p, s, Repeat(Release(t), j)).lockId == Some(t)
    ensures Run(p, s, Repeat(Release(t), j)).counter == Some(c - j)
    decreases j
  {
    if j > 0 {
      ReleaseMany(p, s, t, c, j - 1);
      ReleaseOneMore(p, s, t, Repeat(Release(t), j - 1), c - j + 1);
      assert Repeat(Release(t), j) == Repeat(Release(t), j - 1) + [Release(t)];
    }
  }

  /** One more owner release after a run of successful calls that left the
      counter above one. */
  lemma ReleaseOneMore(p: Protocol, s: JobRecord, t: Token, init: seq<Action>, n: int)
    requires p != ExclusiveLock
    requires AllSucceeded(p, s, init) && Run(p, s, init).lockId == Some(t) && Run(p, s, init).counter == Some(n)
    requires n != 1
    ensures AllSucceeded(p, s, init + [Release(t)])
    ensures Run(p, s, init + [Release(t)]).lockId == Some(t)
    ensures Run(p, s, init + [Release(t)]).counter == Some(n - 1)
  {
    RunSnoc(p, s, init, Release(t));
    PartialStep(p, Run(p, s, init), t);
  }

  /** A release by the owner above counter 1 is the partial release. */
  lemma PartialStep(p: Protocol, r: JobRecord, t: Token)
    requires p != ExclusiveLock
    requires r.lockId == Some(t) && r.counter.Some? && r.counter != Some(1)
    ensures Step(p, r, Release(t)) == (r.(counter := Some(r.counter.value - 1)), true)
  {
    assert PartialRelease(r, t) == Some(r.(counter := Some(r.counter.value - 1)));
  }

  /** From a document with neither owner nor counter, `k` acquires followed
      by `k` releases all succeed and leave it unlocked, and one more
      release raises. As written, the counter is left at 1 afterwards. */
  lemma {:induction false} ReentrantBalanced(p: Protocol, r: JobRecord, t: Token, k: nat)
    requires p != ExclusiveLock
    requires r.lockId.None? && r.counter.None?
    ensures AllSucceeded(p, r, Repeat(Acquire(t), k) + Repeat(Release(t), k))
    ensures Run(p, r, Repeat(Acquire(t), k) + Repeat(Release(t), k)).lockId.None?
    ensures !LastSucceeded(p, r, Repeat(Acquire(t), k) + Repeat(Release(t), k) + [Release(t)])
    ensures p == ReentrantAsWritten && k > 0 ==>
              Run(p, r, Repeat(Acquire(t), k) + Repeat(Release(t), k)).counter == Some(1)
    ensures p == ReentrantCorrected ==>
              Run(p, r, Repeat(Acquire(t), k) + Repeat(Release(t), k)).counter.None?
  {
    var acq := Repeat(Acquire(t), k);
    var rel := Repeat(Release(t), k);
    RunAppend(p, r, acq, rel);
    if k > 0 {
      AcquireMany(p, r, t, k);
      var s := Run(p, r, acq);
      ReleaseMany(p, s, t, k, k - 1);
      assert Init(rel) == Repeat(Release(t), k - 1);
    } else {
      assert acq + rel == [];
    }
    var tr := acq + rel;
    assert Init(tr + [Release(t)]) == tr;
  }

  /** A record the corrected reentrant lock keeps consistent: the counter is
      present exactly while an owner is stored, and then at least 1. */
  predicate Consistent(r: JobRecord) {
    (r.lockId.None? <==> r.counter.None?) && (r.counter.Some? ==> r.counter.value >= 1)
  }

  /** Every interleaving of the corrected reentrant lock keeps the record
      consistent, so every unlock leaves a document that the balanced
      acquire/release cycle of `ReentrantBalanced` can start from again. */
  lemma {:induction false} CorrectedKeepsConsistent(r: JobRecord, trace: seq<Action>)
    requires Consistent(r)
    ensures Consistent(Run(ReentrantCorrected, r, trace))
    ensures Run(ReentrantCorrected, r, trace).lockId.None? ==> Run(ReentrantCorrected, r, trace).counter.None?
    decreases |trace|
  {
    if |trace| > 0 {
      CorrectedKeepsConsistent(r, Init(trace));
    }
  }

  /** Replaying one more call. */
  lemma RunSnoc(p: Protocol, r: JobRecord, trace: seq<Action>, a: Action)
    ensures Run(p, r, trace + [a]) == Step(p, Run(p, r, trace), a).0
    ensures AllSucceeded(p, r, trace + [a]) == (AllSucceeded(p, r, trace) && Step(p, Run(p, r, trace), a).1)
  {
    assert Init(trace + [a]) == trace;
    assert Last(trace + [a]) == a;
  }

  /** Replaying four calls is taking the four steps one after the other. */
  lemma RunFour(p: Protocol, r: JobRecord, a: Action, b: Action, c: Action, d: Action)
    ensures Run(p, r, [a, b]) == Step(p, Step(p, r, a).0, b).0
    ensures Run(p, r, [a, b, c, d]) == Step(p, Step(p, Step(p, Step(p, r, a).0, b).0, c).0, d).0
    ensures AllSucceeded(p, r, [a, b, c, d]) ==
              (Step(p, r, a).1 && Step(p, Step(p, r, a).0, b).1 && Step(p, Step(p, Step(p, r, a).0, b).0, c).1
               && Step(p, Step(p, Step(p, Step(p, r, a).0, b).0, c).0, d).1)
  {
    RunSnoc(p, r, [], a);
    assert [] + [a] == [a];
    RunSnoc(p, r, [a], b);
    assert [a] + [b] == [a, b];
    RunSnoc(p, r, [a, b], c);
    assert [a, b] + [c] == [a, b, c];
    RunSnoc(p, r, [a, b, c], d);
    assert [a, b, c] + [d] == [a, b, c, d];
  }

  /** As written, two balanced acquire/release cycles by two lock objects,
      one after the other on a fresh document, leave the document locked by
      the second object: the first full release left the counter at 1, so
      the second release is only a partial one. */
  lemma SecondCycleLeavesLockHeld(parameters: string, t: Token, u: Token)
    ensures AllSucceeded(ReentrantAsWritten, NewRecord(parameters), [Acquire(t), Release(t), Acquire(u), Release(u)])
    ensures Run(ReentrantAsWritten, NewRecord(parameters), [Acquire(t), Release(t), Acquire(u), Release(u)]).lockId == Some(u)
    ensures !Consistent(Run(ReentrantAsWritten, NewRecord(parameters), [Acquire(t), Release(t)]))
  {
    var p, r := ReentrantAsWritten, NewRecord(parameters);
    RunFour(p, r, Acquire(t), Release(t), Acquire(u), Release(u));
    var s1 := Step(p, r, Acquire(t));
    assert s1.1 && s1.0.lockId == Some(t) && s1.0.counter == Some(1);
    var s2 := Step(p, s1.0, Release(t));
    assert s2.1 && s2.0.lockId.None? && s2.0.counter == Some(1);
    var s3 := Step(p, s2.0, Acquire(u));
    assert s3.1 && s3.0.lockId == Some(u) && s3.0.counter == Some(2);
    var s4 := Step(p, s3.0, Release(u));
    assert s4.1 && s4.0.lockId == Some(u);
  }

  /** With the corrected release, the same two cycles leave the document
      unlocked with no counter. */
  lemma CorrectedSecondCycleUnlocks(parameters: string, t: Token, u: Token)
    ensures AllSucceeded(ReentrantCorrected, NewRecord(parameters), [Acquire(t), Release(t), Acquire(u), Release(u)])
    ensures Run(ReentrantCorrected, NewRecord(parameters), [Acquire(t), Release(t), Acquire(u), Release(u)]).lockId.None?
    ensures Run(ReentrantCorrected, NewRecord(parameters), [Acquire(t), Release(t), Acquire(u), Release(u)]).counter.None?
  {
    var p, r := ReentrantCorrected, NewRecord(parameters);
    RunFour(p, r, Acquire(t), Release(t), Acquire(u), Release(u));
    var s1 := Step(p, r, Acquire(t));
    assert s1.1 && s1.0.lockId == Some(t) && s1.0.counter == Some(1);
    var s2 := Step(p, s1.0, Release(t));
    assert s2.1 && s2.0.lockId.None? && s2.0.counter.None?;
    var s3 := Step(p, s2.0, Acquire(u));
    assert s3.1 && s3.0.lockId == Some(u) && s3.0.counter == Some(1);
    var s4 := Step(p, s3.0, Release(u));
    assert s4.1 && s4.0.lockId.None? && s4.0.counter.None?;
  }

  // ---------------------------------------------------------------------
  // The blocking acquire and its deadline

  /** What happens to the document while a blocking `acquire` of the object
      owning `t` waits: another object's call, or one attempt of the retry
      thread. */
  datatype Event = Other(a: Action) | Try

  /** The calls of other objects among the events, in order. */
  function OthersOf(events: seq<Event>): (others: seq<Action>)
    ensures |others| <= |events|
    decreases |events|
  {
    if |events| == 0 then []
    else OthersOf(Init(events)) + (if Last(events).Other? then [Last(events).a] else [])
  }

  /** The document and whether the retry thread has acquired; once it has,
      the thread has returned and makes no further attempts. Until then every
      attempt failed, so the document is what the other objects' calls alone
      made of it. */
  function Retry(p: Protocol, r: JobRecord, t: Token, events: seq<Event>): (s: (JobRecord, bool))
    ensures SameJobFields(s.0, r)
    ensures !s.1 ==> s.0 == Run(p, r, OthersOf(events))
    ensures s.1 ==> |events| > 0
    decreases |events|
  {
    if |events| == 0 then (r, false)
    else
      var before := Retry(p, r, t, Init(events));
      var others := OthersOf(Init(events));
      match Last(events)
      case Other(a) =>
        RunSnoc(p, r, others, a);
        (Step(p, before.0, a).0, before.1)
      case Try =>
        assert others + [] == others;
        if before.1 then before else Step(p, before.0, Acquire(t))
  }

  /** Once the retry thread has acquired, further attempts do nothing: only
      the other objects' calls still act on the document, and the thread's
      result stays true. */
  lemma {:induction false} RetryDone(p: Protocol, r: JobRecord, t: Token, events: seq<Event>, more: seq<Event>)
    requires Retry(p, r, t, events).1
    ensures Retry(p, r, t, events + more) == (Run(p, Retry(p, r, t, events).0, OthersOf(more)), true)
    decreases |more|
  {
    if |more| == 0 {
      assert events + more == events;
    } else {
      var s0 := Retry(p, r, t, events).0;
      var m0, e := Init(more), Last(more);
      assert more == m0 + [e];
      RetryDone(p, r, t, events, m0);
      assert events + more == (events + m0) + [e];
      RetrySnoc(p, r, t, events + m0, e);
      OthersSnoc(m0, e);
      if e.Other? {
        RunSnoc(p, s0, OthersOf(m0), e.a);
      }
    }
  }

  /** Collecting the other objects' calls of one more event. */
  lemma OthersSnoc(events: seq<Event>, e: Event)
    ensures OthersOf(events + [e]) == if e.Other? then OthersOf(events) + [e.a] else OthersOf(events)
  {
    assert Init(events + [e]) == events;
    assert Last(events + [e]) == e;
    assert OthersOf(events) + [] == OthersOf(events);
  }

  /** Events up to and including the attempt in flight when the deadline
      passes: the final join lets that attempt finish, and nothing later. */
  function Joined(events: seq<Event>, deadline: nat): (n: nat)
    requires deadline <= |events|
    ensures deadline <= n <= |events| && n <= deadline + 1
    ensures n == deadline + 1 <==> deadline < |events| && events[deadline].Try?
  {
    if deadline < |events| && events[deadline] == Try then deadline + 1 else deadline
  }

  /** The result of the blocking `acquire` as written: true only if the
      thread finished before the deadline; an attempt still in flight is
      joined but its result is discarded. False means that no attempt before
      the deadline changed the document. */
  function AcquireAsWritten(p: Protocol, r: JobRecord, t: Token, events: seq<Event>, deadline: nat): (b: bool)
    requires deadline <= |events|
    ensures !b ==> Retry(p, r, t, events[..deadline]).0 == Run(p, r, OthersOf(events[..deadline]))
  {
    Retry(p, r, t, events[..deadline]).1
  }

  /** The result the caller should get: the thread's own result after the
      final join. It keeps every true result of the acquire as written, and
      differs from it only when an attempt in flight at the deadline
      succeeded. */
  function AcquireJoined(p: Protocol, r: JobRecord, t: Token, events: seq<Event>, deadline: nat): (b: bool)
    requires deadline <= |events|
    ensures AcquireAsWritten(p, r, t, events, deadline) ==> b
    ensures b != AcquireAsWritten(p, r, t, events, deadline) ==>
              deadline < |events| && events[deadline].Try?
              && Step(p, Retry(p, r, t, events[..deadline]).0, Acquire(t)).1
  {
    var n := Joined(events, deadline);
    if n == deadline then
      Retry(p, r, t, events[..n]).1
    else
      assert events[..n] == events[..deadline] + [Try];
      RetrySnoc(p, r, t, events[..deadline], Try);
      Retry(p, r, t, events[..n]).1
  }

  /** Replaying one more event. */
  lemma RetrySnoc(p: Protocol, r: JobRecord, t: Token, events: seq<Event>, e: Event)
    ensures Retry(p, r, t, events + [e]) ==
              match e
              case Other(a) => (Step(p, Retry(p, r, t, events).0, a).0, Retry(p, r, t, events).1)
              case Try =>
                if Retry(p, r, t, events).1 then Retry(p, r, t, events)
                else Step(p, Retry(p, r, t, events).0, Acquire(t))
  {
    assert Init(events + [e]) == events;
    assert Last(events + [e]) == e;
  }

  /** As written, a blocking acquire with a timeout can return false although
      its last attempt stored the token: the holder releases just before the
      deadline, the attempt in flight succeeds, and nobody will ever release
      the lock this object does not know it holds. */
  lemma TimedOutAcquireLeaksLock(r: JobRecord, t: Token, u: Token)
    requires t != u && r.lockId == Some(u)
    ensures !AcquireAsWritten(ExclusiveLock, r, t, [Try, Other(Release(u)), Try], 2)
    ensures Retry(ExclusiveLock, r, t,
                  [Try, Other(Release(u)), Try][..Joined([Try, Other(Release(u)), Try], 2)]).0.lockId == Some(t)
  {
    var events := [Try, Other(Release(u)), Try];
    var e1, e2 := events[..1], events[..2];
    RetrySnoc(ExclusiveLock, r, t, events[..0], Try);
    assert events[..0] + [Try] == e1;
    RetrySnoc(ExclusiveLock, r, t, e1, Other(Release(u)));
    assert e1 + [Other(Release(u))] == e2;
    RetrySnoc(ExclusiveLock, r, t, e2, Try);
    assert e2 + [Try] == events[..Joined(events, 2)];
  }

  /** Interfering calls from other objects: never this object's token and
      never a force release. */
  predicate Foreign(t: Token, events: seq<Event>) {
    forall i | 0 <= i < |events| :: events[i].Other? ==> !events[i].a.Force? && events[i].a.t != t
  }

  /** While other objects only acquire and release (no force release), the
      retry thread's own result says whether its token is stored:
      acquired means held, not acquired means not held. */
  lemma {:induction false} RetryReportsHolder(p: Protocol, r: JobRecord, t: Token, events: seq<Event>)
    requires r.lockId != Some(t)
    requires Foreign(t, events)
    ensures Retry(p, r, t, events).1 <==> Retry(p, r, t, events).0.lockId == Some(t)
    decreases |events|
  {
    if |events| > 0 {
      assert Foreign(t, Init(events)) by {
        forall i | 0 <= i < |Init(events)| ensures Init(events)[i] == events[i] { }
      }
      RetryReportsHolder(p, r, t, Init(events));
      var e := events[|events| - 1];
      assert Last(events) == e;
      assert e.Other? ==> !e.a.Force? && e.a.t != t;
    }
  }

  /** The corrected blocking acquire returns true exactly when the lock
      object holds the lock once `acquire` returns, deadline or not. */
  lemma JoinedAcquireReportsHolder(p: Protocol, r: JobRecord, t: Token, events: seq<Event>, deadline: nat)
    requires deadline <= |events|
    requires r.lockId != Some(t)
    requires Foreign(t, events)
    ensures AcquireJoined(p, r, t, events, deadline) <==>
              Retry(p, r, t, events[..Joined(events, deadline)]).0.lockId == Some(t)
  {
    var prefix := events[..Joined(events, deadline)];
    assert Foreign(t, prefix) by {
      forall i | 0 <= i < |prefix| ensures prefix[i] == events[i] { }
    }
    RetryReportsHolder(p, r, t, prefix);
  }
}
