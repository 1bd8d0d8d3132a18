/**
 The Redis `SET NX EX` lock and the two protocols built on it: Celery workers sending one
 message log under a short per-log lock, and jobs throttled by a lock nobody releases.
 */
module SendLock {
  import opened Options
  import opened MessageLifecycle

  // ----- one Redis key holding its expiry time -----

  type Lock = Option<int>

  predicate Free(lock: Lock, now: int) { lock.None? || lock.value <= now }

  class RedisLocks {
    /** Lock name to expiry time. */
    var keys: map<string, int>

    function Get(name: string): Lock
      reads this
    {
      if name in keys then Some(keys[name]) else None
    }

    /** Set-if-absent with a TTL. An unreachable server counts as not acquired. */
    method Acquire(name: string, ttl: nat, now: int, reachable: bool) returns (ok: bool)
      modifies this
      ensures ok <==> reachable && Free(old(Get(name)), now)
      ensures keys == if ok then old(keys)[name := now + ttl] else old(keys)
    {
      ok := reachable && Free(Get(name), now);
      if ok {
        keys := keys[name := now + ttl];
      }
    }

    /** Deletes the key, whoever holds it; an unreachable server leaves it to expire. */
    method Release(name: string, reachable: bool)
      modifies this
      ensures keys == if reachable then old(keys) - {name} else old(keys)
    {
      if reachable {
        keys := keys - {name};
      }
    }
  }

  // ----- workers sending one log -----

  const SEND_LOCK_TTL := 120

  /** Where a worker is; every phase but `Idle` is between acquire and release. */
  datatype Phase =
    | Idle
    | Holding(since: int)
    | Loaded(since: int, row: LogState)
    | Sending(since: int, row: LogState, attempt: Attempt, now: int)
    | Finished(since: int)

  datatype World = World(clock: int, lock: Lock, log: LogState, workers: map<nat, Phase>, accepted: nat)

  function PhaseOf(w: World, i: nat): Phase {
    if i in w.workers then w.workers[i] else Idle
  }

  predicate InSection(w: World, i: nat) { !PhaseOf(w, i).Idle? }

  /** A column of a loaded row is written back only if the send changed it. */
  function Written<T(==)>(stored: T, loaded: T, changed: T): T { if changed == loaded then stored else changed }

  /** What a commit leaves: the columns the send changed in its own row copy, and for the others
      what webhooks have made of them meanwhile. */
  function Committed(log: LogState, row: LogState, attempt: Attempt, now: int): LogState {
    var t := AfterSend(row, attempt, now);
    log.(status := Written(log.status, row.status, t.status),
         attempts := Written(log.attempts, row.attempts, t.attempts),
         nextAttemptAt := Written(log.nextAttemptAt, row.nextAttemptAt, t.nextAttemptAt),
         providerRef := Written(log.providerRef, row.providerRef, t.providerRef),
         submittedAt := Written(log.submittedAt, row.submittedAt, t.submittedAt),
         failedAt := Written(log.failedAt, row.failedAt, t.failedAt))
  }

  predicate IsAcceptance(attempt: Attempt) { attempt.Answered? && attempt.result.accepted }

  datatype Step =
    | Tick(seconds: nat)
    | TakeLock(i: nat)
    | Load(i: nat)
    | CallProvider(i: nat, attempt: Attempt)
    | Commit(i: nat)
    | Leave(i: nat, deleted: bool)
    | Report(e: Event)

  function At(w: World, i: nat, p: Phase): World { w.(workers := w.workers[i := p]) }

  /** A step a worker cannot take where it is leaves the world as it was, like a task that
      answers "skipped". */
  function Next(w: World, s: Step): World {
    match s
    case Tick(seconds) => w.(clock := w.clock + seconds)
    case TakeLock(i) =>
      if PhaseOf(w, i).Idle? && Free(w.lock, w.clock) then
        At(w, i, Holding(w.clock)).(lock := Some(w.clock + SEND_LOCK_TTL))
      else w
    case Load(i) =>
      (match PhaseOf(w, i)
       case Holding(since) => At(w, i, Loaded(since, w.log))
       case _ => w)
    case CallProvider(i, attempt) =>
      (match PhaseOf(w, i)
       case Loaded(since, row) =>
         At(w, i, if row.status == Queued then Sending(since, row, attempt, w.clock) else Finished(since))
       case _ => w)
    case Commit(i) =>
      (match PhaseOf(w, i)
       case Sending(since, row, attempt, now) =>
         At(w, i, Finished(since)).(log := Committed(w.log, row, attempt, now),
                                    accepted := w.accepted + if IsAcceptance(attempt) then 1 else 0)
       case _ => w)
    case Leave(i, deleted) =>
      if InSection(w, i) then At(w, i, Idle).(lock := if deleted then None else w.lock) else w
    case Report(e) => if e.Webhook? || e.Poll? then w.(log := After(w.log, e)) else w
  }

  function Steps(w: World, steps: seq<Step>): World
    decreases |steps|
  {
    if steps == [] then w else Steps(Next(w, steps[0]), steps[1..])
  }

  const Start := World(0, None, Fresh, map[], 0)

  /** No worker is still inside when its lock runs out. */
  ghost predicate HoldersInTime(w: World) {
    forall i :: InSection(w, i) ==> w.clock < PhaseOf(w, i).since + SEND_LOCK_TTL
  }

  ghost predicate AlwaysInTime(w: World, steps: seq<Step>)
    decreases |steps|
  {
    HoldersInTime(w) && (steps != [] ==> AlwaysInTime(Next(w, steps[0]), steps[1..]))
  }

  ghost predicate MutuallyExclusive(w: World) {
    forall i, j :: InSection(w, i) && InSection(w, j) ==> i == j
  }

  /** The lock in Redis is the one the worker inside took. */
  ghost predicate LockIsHolders(w: World) {
    forall i :: InSection(w, i) ==> w.lock == Some(PhaseOf(w, i).since + SEND_LOCK_TTL)
  }

  /** Once an acceptance is recorded the log has left `queued` for good and nobody inside
      still works on a queued copy. */
  ghost predicate AcceptedOnce(w: World) {
    && w.accepted <= 1
    && (w.accepted == 1 ==>
          w.log.status != Queued
          && forall i :: InSection(w, i) ==>
               !PhaseOf(w, i).Sending? && (PhaseOf(w, i).Loaded? ==> PhaseOf(w, i).row.status != Queued))
  }

  ghost predicate SendingIsQueued(w: World) {
    forall i :: PhaseOf(w, i).Sending? ==> PhaseOf(w, i).row.status == Queued
  }

  ghost predicate Safe(w: World) {
    MutuallyExclusive(w) && LockIsHolders(w) && AcceptedOnce(w) && SendingIsQueued(w)
  }

  lemma PhasesAfter(w: World, v: World, i: nat, p: Phase)
    requires v.workers == w.workers[i := p]
    ensures forall j :: PhaseOf(v, j) == if j == i then p else PhaseOf(w, j)
  {
  }

  lemma NextKeepsSafe(w: World, s: Step)
    requires Safe(w) && HoldersInTime(w)
    ensures Safe(Next(w, s))
  {
    var v := Next(w, s);
    if s.Tick? || s.Report? {
      assert forall j :: PhaseOf(v, j) == PhaseOf(w, j);
    } else if v != w {
      var i := s.i;
      PhasesAfter(w, v, i, v.workers[i]);
      if s.TakeLock? {
        SectionIsEmpty(w);
      } else {
        assert InSection(w, i);
        assert forall j :: InSection(v, j) ==> InSection(w, j);
        assert s.Commit? ==> w.accepted == 0;
      }
    }
  }

  lemma SectionIsEmpty(w: World)
    requires LockIsHolders(w) && HoldersInTime(w) && Free(w.lock, w.clock)
    ensures forall i :: !InSection(w, i)
  {
  }

  lemma {:induction false} StepsKeepSafe(w: World, steps: seq<Step>)
    requires Safe(w) && AlwaysInTime(w, steps)
    ensures Safe(Steps(w, steps))
    decreases |steps|
  {
    if steps != [] {
      NextKeepsSafe(w, steps[0]);
      StepsKeepSafe(Next(w, steps[0]), steps[1..]);
    }
  }

  /** In every interleaving of any number of workers, webhooks and polls in which each holder
      leaves within the lock's TTL, at most one worker is between acquire and release and
      the provider's acceptance is recorded at most once. */
  lemma SendersExcludeEachOther(steps: seq<Step>)
    requires AlwaysInTime(Start, steps)
    ensures MutuallyExclusive(Steps(Start, steps)) && Steps(Start, steps).accepted <= 1
  {
    StepsKeepSafe(Start, steps);
  }

  /** The TTL assumption is needed exactly as stated: while one worker is inside, an idle one
      can get in as soon as, and only when, the first has outstayed its lock. */
  lemma SecondWorkerEntersExactlyWhenOverdue(w: World, i: nat, j: nat)
    requires Safe(w) && InSection(w, i) && !InSection(w, j)
    ensures !MutuallyExclusive(Next(w, TakeLock(j))) <==> w.clock >= PhaseOf(w, i).since + 120
  {
    if w.clock >= PhaseOf(w, i).since + SEND_LOCK_TTL {
      var v := Next(w, TakeLock(j));
      assert InSection(v, i) && InSection(v, j);
    }
  }

  /** A worker that cannot delete its lock on leaving keeps everybody out until it runs out. */
  lemma UndeletedLockHolds(w: World, i: nat, j: nat)
    requires Safe(w) && InSection(w, i) && !InSection(w, j)
    ensures InSection(Next(Next(w, Leave(i, false)), TakeLock(j)), j) <==> w.clock >= PhaseOf(w, i).since + 120
  {
    var v := Next(w, Leave(i, false));
    assert !InSection(v, j) && v.lock == Some(PhaseOf(w, i).since + SEND_LOCK_TTL);
  }

  lemma {:induction false} StepsAppend(w: World, steps: seq<Step>, s: Step)
    ensures Steps(w, steps + [s]) == Next(Steps(w, steps), s)
    decreases |steps|
  {
    if steps == [] {
      assert ([] + [s])[1..] == [];
    } else {
      assert (steps + [s])[1..] == steps[1..] + [s];
      StepsAppend(Next(w, steps[0]), steps[1..], s);
    }
  }

  lemma Extend(steps: seq<Step>, w: World, s: Step) returns (longer: seq<Step>, v: World)
    requires Steps(Start, steps) == w
    ensures longer == steps + [s] && v == Next(w, s) && Steps(Start, longer) == v
  {
    StepsAppend(Start, steps, s);
    longer, v := steps + [s], Next(w, s);
  }

  /** A provider call longer than the TTL lets a second worker send the same message. */
  lemma OverdueHolderSendsTwice() returns (steps: seq<Step>)
    ensures Steps(Start, steps).accepted == 2
  {
    var w := Start;
    steps, w := Extend([], w, TakeLock(1));
    steps, w := Extend(steps, w, Load(1));
    assert PhaseOf(w, 1) == Loaded(0, Fresh);
    steps, w := Extend(steps, w, Tick(SEND_LOCK_TTL));
    steps, w := Extend(steps, w, TakeLock(2));
    steps, w := Extend(steps, w, Load(2));
    steps := BothSend(steps, w);
  }

  lemma BothSend(before: seq<Step>, start: World) returns (steps: seq<Step>)
    requires Steps(Start, before) == start && start.accepted == 0
    requires PhaseOf(start, 1) == Loaded(0, Fresh) && PhaseOf(start, 2) == Loaded(SEND_LOCK_TTL, Fresh)
    ensures Steps(Start, steps).accepted == 2
  {
    var yes := Answered(SendResult(true, false, false, false, None));
    var w;
    steps, w := Extend(before, start, CallProvider(1, yes));
    steps, w := Extend(steps, w, CallProvider(2, yes));
    assert PhaseOf(w, 1).Sending? && PhaseOf(w, 2).Sending? && w.accepted == 0;
    steps, w := Extend(steps, w, Commit(1));
    steps, w := Extend(steps, w, Commit(2));
  }

  /** A worker that meets nobody does to the log what the send itself does, and leaves the lock
      free. */
  lemma SoloSendIsSend(w: World, i: nat, attempt: Attempt)
    requires PhaseOf(w, i).Idle? && Free(w.lock, w.clock)
    ensures var v := Steps(w, [TakeLock(i), Load(i), CallProvider(i, attempt), Commit(i), Leave(i, true)]);
            v.log == AfterSend(w.log, attempt, w.clock) && PhaseOf(v, i).Idle? && v.lock == None && v.clock == w.clock
  {
    var a := Next(w, TakeLock(i));
    var b := Next(a, Load(i));
    var c := Next(b, CallProvider(i, attempt));
    var d := Next(c, Commit(i));
    var e := Next(d, Leave(i, true));
    assert PhaseOf(a, i) == Holding(w.clock) && PhaseOf(b, i) == Loaded(w.clock, w.log);
    assert d.log == AfterSend(w.log, attempt, w.clock) && InSection(d, i);
    FiveSteps(w, TakeLock(i), Load(i), CallProvider(i, attempt), Commit(i), Leave(i, true));
  }

  lemma FiveSteps(w: World, a: Step, b: Step, c: Step, d: Step, e: Step)
    ensures Steps(w, [a, b, c, d, e]) == Next(Next(Next(Next(Next(w, a), b), c), d), e)
  {
    StepsAppend(w, [], a);
    StepsAppend(w, [] + [a], b);
    StepsAppend(w, [] + [a] + [b], c);
    StepsAppend(w, [] + [a] + [b] + [c], d);
    StepsAppend(w, [] + [a] + [b] + [c] + [d], e);
    assert [] + [a] + [b] + [c] + [d] + [e] == [a, b, c, d, e];
  }

  // ----- jobs throttled by a lock that is never released -----

  const LOCK_MARGIN_SECONDS := 30

  /** A job's lock outlives most of its interval. */
  function JobTtl(interval: nat): (ttl: nat)
    ensures ttl >= 30
  {
    if interval - LOCK_MARGIN_SECONDS < 30 then 30 else interval - LOCK_MARGIN_SECONDS
  }

  /** Each start comes at least a TTL after the one before it. */
  ghost predicate Spaced(starts: seq<int>, ttl: nat) {
    forall j, k :: 0 <= j && k == j + 1 && k < |starts| ==> starts[j] + ttl <= starts[k]
  }

  /** Time `t` falls within a TTL of some start. */
  ghost predicate Covered(t: int, starts: seq<int>, ttl: nat) {
    exists s :: s in starts && s <= t < s + ttl
  }

  /** After the first `n` attempts: starts are attempts, spaced, and cover every attempt; the
      lock expires a TTL after the last start. */
  ghost predicate Throttled(attempts: seq<int>, n: nat, starts: seq<int>, ttl: nat, lock: Lock)
    requires n <= |attempts|
  {
    && Spaced(starts, ttl)
    && (forall s :: s in starts ==> s in attempts)
    && (forall k :: 0 <= k < n ==> Covered(attempts[k], starts, ttl))
    && lock == (if starts == [] then None else Some(starts[|starts| - 1] + ttl))
    && (starts != [] ==> n > 0 && starts[|starts| - 1] <= attempts[n - 1])
  }

  lemma ThrottleStep(attempts: seq<int>, n: nat, starts: seq<int>, ttl: nat, lock: Lock)
    requires n < |attempts| && ttl > 0 && Throttled(attempts, n, starts, ttl, lock)
    requires n > 0 ==> attempts[n - 1] <= attempts[n]
    ensures Free(lock, attempts[n]) ==>
              Throttled(attempts, n + 1, starts + [attempts[n]], ttl, Some(attempts[n] + ttl))
    ensures !Free(lock, attempts[n]) ==> Throttled(attempts, n + 1, starts, ttl, lock)
  {
    var now := attempts[n];
    var more := if Free(lock, now) then starts + [now] else starts;
    assert more[|more| - 1] in more;
    assert Covered(now, more, ttl);
    forall k | 0 <= k < n ensures Covered(attempts[k], more, ttl) {
      var s :| s in starts && s <= attempts[k] < s + ttl;
      assert s in more;
    }
  }

  /** When a job attempted at the given times really starts: starts are a TTL apart, and an
      attempt that did not start was within a TTL of one that did. */
  method RunLocked(attempts: seq<int>, interval: nat, locks: RedisLocks, job: string) returns (starts: seq<int>)
    requires forall a, b :: 0 <= a < b < |attempts| ==> attempts[a] <= attempts[b]
    requires job !in locks.keys
    modifies locks
    ensures Throttled(attempts, |attempts|, starts, JobTtl(interval), locks.Get(job))
  {
    starts := [];
    var ttl := JobTtl(interval);
    for i := 0 to |attempts|
      invariant Throttled(attempts, i, starts, ttl, locks.Get(job))
    {
      ThrottleStep(attempts, i, starts, ttl, locks.Get(job));
      var ok := locks.Acquire(job, ttl, attempts[i], true);
      if ok {
        starts := starts + [attempts[i]];
      }
    }
  }

  /** The starts of a job are at least 30 seconds apart, and an interval less 30 seconds. */
  lemma StartsAreApart(starts: seq<int>, interval: nat, j: nat)
    requires Spaced(starts, JobTtl(interval)) && j + 1 < |starts|
    ensures starts[j + 1] - starts[j] >= 30 && starts[j + 1] - starts[j] >= interval - 30
  {
  }

  /** An attempt that did not start came less than 30 seconds, or than the interval less 30
      seconds, after a start. */
  lemma SkippedAttemptIsEarly(attempts: seq<int>, interval: nat, starts: seq<int>, lock: Lock, k: nat)
    requires Throttled(attempts, |attempts|, starts, JobTtl(interval), lock)
    requires k < |attempts| && attempts[k] !in starts
    ensures exists s :: s in starts && s < attempts[k] && (attempts[k] < s + 30 || attempts[k] < s + interval - 30)
  {
    assert Covered(attempts[k], starts, JobTtl(interval));
  }

  /** A job attempted every interval of at least half a minute starts every time: the lock never
      outlives the interval. */
  lemma RegularAttemptsStart(attempts: seq<int>, interval: nat, starts: seq<int>, lock: Lock, k: nat)
    requires Throttled(attempts, |attempts|, starts, JobTtl(interval), lock) && interval >= 30
    requires forall i, j :: 0 <= i < j < |attempts| ==> attempts[i] + interval <= attempts[j]
    requires k < |attempts|
    ensures attempts[k] in starts
  {
    OnlyOneFits(attempts, interval, starts, k);
  }

  lemma OnlyOneFits(attempts: seq<int>, interval: nat, starts: seq<int>, k: nat)
    requires k < |attempts| && Covered(attempts[k], starts, JobTtl(interval)) && interval >= 30
    requires forall s :: s in starts ==> s in attempts
    requires forall i, j :: 0 <= i < j < |attempts| ==> attempts[i] + interval <= attempts[j]
    ensures attempts[k] in starts
  {
    var s :| s in starts && s <= attempts[k] < s + JobTtl(interval);
    var j :| 0 <= j < |attempts| && attempts[j] == s;
    assert JobTtl(interval) <= interval;
    assert j == k;
  }

  /** So any span no longer than `n` TTLs holds at most `n` starts. */
  lemma {:induction false} StartsPerSpan(starts: seq<int>, ttl: nat, a: nat, n: nat)
    requires Spaced(starts, ttl) && a + n < |starts|
    ensures starts[a + n] - starts[a] >= n * ttl
    decreases n
  {
    if n > 0 {
      StartsPerSpan(starts, ttl, a, n - 1);
      assert starts[a + n - 1] + ttl <= starts[a + n];
      assert n * ttl == (n - 1) * ttl + ttl;
    }
  }
}
