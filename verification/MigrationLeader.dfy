/**
 Leader-elected schema migration. Any number of pods boot; each polls the advisory lock, and the one
 that gets it reads which versions are applied, applies the missing ones in order and unlocks.

 The migration run works from the list of applied versions it read when it began, so that nothing is
 applied twice rests on the lock. A run may fail at any point, a migration being applied whole or not
 at all. The result of the unlock statement is ignored, so a pod may return with its session still
 holding the lock; the lock goes when a session ends, by a crash or when its connection is closed.
 */
module MigrationLeader {
  import opened Prelude

  type Pod = nat
  type Version = int

  datatype Phase =
    | Polling
    | Locked
    | Running(known: set<Version>, next: nat)
    | Ran(ok: bool)
    | Returned(ok: bool, leaked: bool)
    | Crashed

  datatype Sys = Sys(lock: Option<Pod>, applied: seq<Version>, pods: map<Pod, Phase>)

  datatype Step =
    | Boot(p: Pod)
    | TryLock(p: Pod)
    | GiveUp(p: Pod)
    | Begin(p: Pod)
    | ApplyNext(p: Pod)
    | FailRun(p: Pod)
    | FinishRun(p: Pod)
    | Unlock(p: Pod)
    | UnlockFails(p: Pod)
    | CloseSession(p: Pod)
    | Crash(p: Pod)

  predicate Holding(ph: Phase) {
    ph.Locked? || ph.Running? || ph.Ran?
  }

  /** The pod is between lock and unlock, or its unlock failed and its session is still open. */
  predicate Owns(ph: Phase) {
    Holding(ph) || (ph.Returned? && ph.leaked)
  }

  function Elements(s: seq<Version>): set<Version> {
    set v | v in s
  }

  predicate Enabled(migrations: seq<Version>, s: Sys, step: Step) {
    match step
    case Boot(p) => p !in s.pods
    case TryLock(p) => p in s.pods && s.pods[p].Polling?
    case GiveUp(p) => p in s.pods && s.pods[p].Polling?
    case Begin(p) => p in s.pods && s.pods[p].Locked?
    case ApplyNext(p) => p in s.pods && s.pods[p].Running? && s.pods[p].next < |migrations|
    case FailRun(p) => p in s.pods && (s.pods[p].Locked? || s.pods[p].Running?)
    case FinishRun(p) => p in s.pods && s.pods[p].Running? && s.pods[p].next >= |migrations|
    case Unlock(p) => p in s.pods && s.pods[p].Ran?
    case UnlockFails(p) => p in s.pods && s.pods[p].Ran?
    case CloseSession(p) => p in s.pods && s.pods[p].Returned?
    case Crash(p) => p in s.pods && !s.pods[p].Returned? && !s.pods[p].Crashed?
  }

  function Become(s: Sys, p: Pod, ph: Phase): Sys {
    s.(pods := s.pods[p := ph])
  }

  function Release(s: Sys, p: Pod): Sys {
    if s.lock == Some(p) then s.(lock := None) else s
  }

  function Apply(migrations: seq<Version>, s: Sys, step: Step): Sys
    requires Enabled(migrations, s, step)
  {
    match step
    case Boot(p) => Become(s, p, Polling)
    case TryLock(p) => if s.lock.None? then Become(s.(lock := Some(p)), p, Locked) else s
    case GiveUp(p) => Become(s, p, Returned(false, false))
    case Begin(p) => Become(s, p, Running(Elements(s.applied), 0))
    case ApplyNext(p) =>
      var Running(known, next) := s.pods[p];
      var v := migrations[next];
      Become(if v in known then s else s.(applied := s.applied + [v]), p, Running(known, next + 1))
    case FailRun(p) => Become(s, p, Ran(false))
    case FinishRun(p) => Become(s, p, Ran(true))
    case Unlock(p) => Become(Release(s, p), p, Returned(s.pods[p].ok, false))
    case UnlockFails(p) => Become(s, p, Returned(s.pods[p].ok, true))
    case CloseSession(p) => Become(Release(s, p), p, Returned(s.pods[p].ok, false))
    case Crash(p) => Become(Release(s, p), p, Crashed)
  }

  ghost predicate Increasing(migrations: seq<Version>) {
    forall i, j :: 0 <= i < j < |migrations| ==> migrations[i] < migrations[j]
  }

  datatype MigrateError = LockTimeout | QueryFailed | MigrateFailed

  /** What a poll meets: an error, or the lock and the number of migrations the other pods have applied. */
  datatype Poll = PollError | Found(lock: Option<Pod>, applied: nat)

  predicate Taken(poll: Poll) {
    poll.Found? && poll.lock.Some?
  }

  /** Poll `i` is the first that does not find the lock taken. */
  ghost predicate Decides(others: nat -> Poll, i: nat) {
    !Taken(others(i)) && forall j: nat :: j < i ==> Taken(others(j))
  }

  function Max(a: nat, b: nat): nat {
    if a < b then b else a
  }

  /** A run that began when `j` migrations were applied has reached `next`. */
  ghost predicate RunAt(migrations: seq<Version>, s: Sys, p: Pod, j: nat) {
    && p in s.pods && s.pods[p].Running? && j <= |migrations|
    && s.pods[p].known == Elements(migrations[..j])
    && s.pods[p].next <= |migrations|
    && |s.applied| == Max(j, s.pods[p].next)
  }

  ghost predicate RunSound(migrations: seq<Version>, s: Sys, p: Pod) {
    exists j: nat :: RunAt(migrations, s, p, j)
  }

  predicate ReportsOk(ph: Phase) {
    (ph.Ran? || ph.Returned?) && ph.ok
  }

  ghost predicate Inv(migrations: seq<Version>, s: Sys) {
    && |s.applied| <= |migrations| && s.applied == migrations[..|s.applied|]
    && (forall p :: p in s.pods ==> (Owns(s.pods[p]) <==> s.lock == Some(p)))
    && (s.lock.Some? ==> s.lock.value in s.pods)
    && (forall p :: p in s.pods && s.pods[p].Running? ==> RunSound(migrations, s, p))
    && (forall p :: p in s.pods && ReportsOk(s.pods[p]) ==> s.applied == migrations)
  }

  lemma ApplyNextSound(migrations: seq<Version>, s: Sys, p: Pod, j: nat)
    requires Increasing(migrations) && Enabled(migrations, s, ApplyNext(p)) && RunAt(migrations, s, p, j)
    requires |s.applied| <= |migrations| && s.applied == migrations[..|s.applied|]
    ensures var t := Apply(migrations, s, ApplyNext(p));
            && RunAt(migrations, t, p, j)
            && |t.applied| <= |migrations| && t.applied == migrations[..|t.applied|]
            && (s.applied == migrations ==> t.applied == migrations)
  {
    var next := s.pods[p].next;
    var v := migrations[next];
    if next < j {
      assert migrations[..j][next] == v;
    } else {
      forall i | 0 <= i < j
        ensures migrations[..j][i] != v
      {
      }
      assert v !in migrations[..j];
      assert migrations[..next + 1] == migrations[..next] + [v];
    }
  }

  lemma StepKeepsInv(migrations: seq<Version>, s: Sys, step: Step)
    requires Increasing(migrations) && Inv(migrations, s) && Enabled(migrations, s, step)
    ensures Inv(migrations, Apply(migrations, s, step))
  {
    var t := Apply(migrations, s, step);
    match step {
      case Begin(p) =>
        assert RunAt(migrations, t, p, |s.applied|);
      case ApplyNext(p) =>
        var j: nat :| RunAt(migrations, s, p, j);
        ApplyNextSound(migrations, s, p, j);
        assert RunSound(migrations, t, p);
      case FinishRun(p) =>
        var j: nat :| RunAt(migrations, s, p, j);
        assert migrations[..|migrations|] == migrations;
      case _ =>
    }
    forall q | q in t.pods && t.pods[q].Running? && q != step.p
      ensures RunSound(migrations, t, q)
    {
      assert s.lock == Some(q) && q in s.pods;
      var j: nat :| RunAt(migrations, s, q, j);
      assert RunAt(migrations, t, q, j);
    }
  }

  // ---- Runs ----

  ghost predicate Possible(migrations: seq<Version>, s: Sys, steps: seq<Step>)
    decreases |steps|
  {
    || steps == []
    || (Enabled(migrations, s, steps[0]) && Possible(migrations, Apply(migrations, s, steps[0]), steps[1..]))
  }

  ghost function Exec(migrations: seq<Version>, s: Sys, steps: seq<Step>): Sys
    requires Possible(migrations, s, steps)
    decreases |steps|
  {
    if steps == [] then s else Exec(migrations, Apply(migrations, s, steps[0]), steps[1..])
  }

  lemma {:induction false} RunKeepsInv(migrations: seq<Version>, s: Sys, steps: seq<Step>)
    requires Increasing(migrations) && Inv(migrations, s) && Possible(migrations, s, steps)
    ensures Inv(migrations, Exec(migrations, s, steps))
    decreases |steps|
  {
    hide Inv, Apply, Enabled;
    if steps == [] {
    } else {
      StepKeepsInv(migrations, s, steps[0]);
      RunKeepsInv(migrations, Apply(migrations, s, steps[0]), steps[1..]);
    }
  }

  /** A database with the first `done` migrations applied and no pod booted yet. */
  function Fresh(migrations: seq<Version>, done: nat): Sys
    requires done <= |migrations|
  {
    Sys(None, migrations[..done], map[])
  }

  /**
   Leader protocol. In every interleaving of any number of pods: at most one is between lock and
   unlock; what has been applied is always an initial part of the migration list, so each migration is
   applied at most once and in version order; a pod that returned Ok leaves the whole list applied;
   and a pod that has returned, either way, holds the lock exactly if its unlock failed and its session
   is still open.
   */
  lemma LeaderProtocol(migrations: seq<Version>, done: nat, steps: seq<Step>)
    requires Increasing(migrations) && done <= |migrations|
    requires Possible(migrations, Fresh(migrations, done), steps)
    ensures var s := Exec(migrations, Fresh(migrations, done), steps);
            && (forall p, q :: p in s.pods && q in s.pods && Holding(s.pods[p]) && Holding(s.pods[q]) ==> p == q)
            && s.applied <= migrations && NoDuplicates(s.applied)
            && (forall p :: p in s.pods && s.pods[p].Returned? && s.pods[p].ok ==> s.applied == migrations)
            && (forall p :: p in s.pods && s.pods[p].Returned? ==> (s.lock == Some(p) <==> s.pods[p].leaked))
  {
    RunKeepsInv(migrations, Fresh(migrations, done), steps);
    var s := Exec(migrations, Fresh(migrations, done), steps);
    forall i, j | 0 <= i < j < |s.applied|
      ensures s.applied[i] != s.applied[j]
    {
      assert s.applied[i] == migrations[i] && s.applied[j] == migrations[j];
    }
  }

  // ---- Nobody is locked out for ever ----

  lemma OneStep(migrations: seq<Version>, s: Sys, step: Step, rest: seq<Step>)
    requires Enabled(migrations, s, step) && Possible(migrations, Apply(migrations, s, step), rest)
    ensures Possible(migrations, s, [step] + rest)
    ensures Exec(migrations, s, [step] + rest) == Exec(migrations, Apply(migrations, s, step), rest)
  {
    hide Apply, Enabled;
    assert ([step] + rest)[1..] == rest;
  }

  /** No connection is closed along the way. */
  ghost predicate KeepsSessions(steps: seq<Step>) {
    forall i :: 0 <= i < |steps| ==> !steps[i].CloseSession?
  }

  /** A running pod that meets no error gets to the end of the list and returns Ok, whether or not it unlocks. */
  lemma {:induction false} RunnerCanReturn(migrations: seq<Version>, s: Sys, p: Pod, leak: bool)
    returns (steps: seq<Step>)
    requires p in s.pods && s.pods[p].Running?
    ensures Possible(migrations, s, steps) && KeepsSessions(steps)
    ensures var t := Exec(migrations, s, steps);
            p in t.pods && t.pods[p] == Returned(true, leak) && (leak ==> t.lock == s.lock)
    decreases |migrations| - s.pods[p].next
  {
    if s.pods[p].next < |migrations| {
      var rest := RunnerCanReturn(migrations, Apply(migrations, s, ApplyNext(p)), p, leak);
      OneStep(migrations, s, ApplyNext(p), rest);
      steps := [ApplyNext(p)] + rest;
    } else {
      var t := Apply(migrations, s, FinishRun(p));
      var last := if leak then UnlockFails(p) else Unlock(p);
      OneStep(migrations, t, last, []);
      OneStep(migrations, s, FinishRun(p), [last] + []);
      steps := [FinishRun(p)] + ([last] + []);
    }
  }

  lemma FreeLockCanBeTaken(migrations: seq<Version>, s: Sys, p: Pod, leak: bool) returns (steps: seq<Step>)
    requires p in s.pods && s.pods[p].Polling? && s.lock.None?
    ensures Possible(migrations, s, steps) && KeepsSessions(steps)
    ensures var t := Exec(migrations, s, steps);
            p in t.pods && t.pods[p] == Returned(true, leak) && (leak ==> t.lock == Some(p))
  {
    var s1 := Apply(migrations, s, TryLock(p));
    var rest := RunnerCanReturn(migrations, Apply(migrations, s1, Begin(p)), p, leak);
    OneStep(migrations, s1, Begin(p), rest);
    OneStep(migrations, s, TryLock(p), [Begin(p)] + rest);
    steps := [TryLock(p)] + ([Begin(p)] + rest);
  }

  /** The lock does stay behind: on every migration list some run ends with a returned pod holding it. */
  lemma LeakReachable(migrations: seq<Version>, done: nat, p: Pod) returns (steps: seq<Step>)
    requires done <= |migrations|
    ensures Possible(migrations, Fresh(migrations, done), steps)
    ensures var t := Exec(migrations, Fresh(migrations, done), steps);
            t.lock == Some(p) && p in t.pods && t.pods[p] == Returned(true, true)
  {
    var s := Fresh(migrations, done);
    var rest := FreeLockCanBeTaken(migrations, Apply(migrations, s, Boot(p)), p, true);
    OneStep(migrations, s, Boot(p), rest);
    steps := [Boot(p)] + rest;
  }

  /** The lock is held by a pod that has returned. */
  predicate LeftBehind(s: Sys) {
    s.lock.Some? && s.lock.value in s.pods && s.pods[s.lock.value].Returned? && s.pods[s.lock.value].leaked
  }

  /** How a pod can go on while it cannot have the lock. */
  predicate ShutOut(before: Phase, after: Phase) {
    after == before || (before.Polling? && (after == Returned(false, false) || after == Crashed))
  }

  lemma StepShutsOut(migrations: seq<Version>, s: Sys, step: Step)
    requires Inv(migrations, s) && LeftBehind(s) && Enabled(migrations, s, step) && !step.CloseSession?
    ensures var t := Apply(migrations, s, step);
            && t.lock == s.lock && LeftBehind(t) && t.applied == s.applied
            && forall q :: q in t.pods ==> ShutOut(if q in s.pods then s.pods[q] else Polling, t.pods[q])
  {
    assert step.p in s.pods ==> (Owns(s.pods[step.p]) <==> s.lock == Some(step.p));
  }

  /**
   A lock left behind shuts everybody out: until a session is closed nothing more is applied, and no pod
   leaves its polling except by giving up or crashing.
   */
  lemma {:induction false} LeakShutsOut(migrations: seq<Version>, s: Sys, steps: seq<Step>)
    requires Increasing(migrations) && Inv(migrations, s) && LeftBehind(s)
    requires Possible(migrations, s, steps) && KeepsSessions(steps)
    ensures var t := Exec(migrations, s, steps);
            && t.lock == s.lock && t.applied == s.applied
            && forall q :: q in t.pods ==> ShutOut(if q in s.pods then s.pods[q] else Polling, t.pods[q])
    decreases |steps|
  {
    hide Inv, Apply, Enabled, LeftBehind;
    if steps == [] {
    } else {
      var t := Apply(migrations, s, steps[0]);
      assert !steps[0].CloseSession?;
      StepKeepsInv(migrations, s, steps[0]);
      StepShutsOut(migrations, s, steps[0]);
      LeakShutsOut(migrations, t, steps[1..]);
      StaysBooted(migrations, s, steps[0]);
    }
  }

  lemma StaysBooted(migrations: seq<Version>, s: Sys, step: Step)
    requires Enabled(migrations, s, step)
    ensures s.pods.Keys <= Apply(migrations, s, step).pods.Keys
  {
  }

  /** A holder that has not returned can give the lock back. */
  lemma HolderCanUnlock(migrations: seq<Version>, s: Sys) returns (steps: seq<Step>, t: Sys)
    requires Inv(migrations, s) && s.lock.Some? && !LeftBehind(s)
    ensures Possible(migrations, s, steps) && KeepsSessions(steps) && t == Exec(migrations, s, steps)
    ensures t.lock.None? && forall q :: q in s.pods && s.pods[q].Polling? ==> q in t.pods && t.pods[q].Polling?
  {
    var holder := s.lock.value;
    assert Owns(s.pods[holder]);
    var s1 := if s.pods[holder].Ran? then s else Apply(migrations, s, FailRun(holder));
    t := Apply(migrations, s1, Unlock(holder));
    OneStep(migrations, s1, Unlock(holder), []);
    steps := [Unlock(holder)] + [];
    if !s.pods[holder].Ran? {
      OneStep(migrations, s, FailRun(holder), steps);
      steps := [FailRun(holder)] + steps;
    }
  }

  ghost predicate ReturnsOkBy(migrations: seq<Version>, s: Sys, p: Pod, steps: seq<Step>)
    requires Possible(migrations, s, steps)
  {
    var t := Exec(migrations, s, steps);
    KeepsSessions(steps) && p in t.pods && t.pods[p].Returned? && t.pods[p].ok
  }

  lemma {:induction false} Concat(migrations: seq<Version>, s: Sys, first: seq<Step>, rest: seq<Step>)
    requires Possible(migrations, s, first) && Possible(migrations, Exec(migrations, s, first), rest)
    ensures Possible(migrations, s, first + rest)
    ensures Exec(migrations, s, first + rest) == Exec(migrations, Exec(migrations, s, first), rest)
    decreases |first|
  {
    hide Apply, Enabled;
    if first == [] {
      assert first + rest == rest;
    } else {
      Concat(migrations, Apply(migrations, s, first[0]), first[1..], rest);
      assert first + rest == [first[0]] + (first[1..] + rest);
      OneStep(migrations, s, first[0], first[1..] + rest);
    }
  }

  /**
   From every reachable state a polling pod can come to return Ok without any session being closed exactly
   when no lock was left behind, even if the leader's run fails on the way.
   */
  lemma PollingPodReturnsIffNoLeak(migrations: seq<Version>, s: Sys, p: Pod)
    requires Increasing(migrations) && Inv(migrations, s) && p in s.pods && s.pods[p].Polling?
    ensures (exists steps :: Possible(migrations, s, steps) && ReturnsOkBy(migrations, s, p, steps)) <==> !LeftBehind(s)
  {
    if LeftBehind(s) {
      forall steps | Possible(migrations, s, steps)
        ensures !ReturnsOkBy(migrations, s, p, steps)
      {
        if KeepsSessions(steps) {
          LeakShutsOut(migrations, s, steps);
        }
      }
    } else {
      hide Inv, Apply, Enabled, Exec, Possible;
      var first, t := [], s;
      assert Possible(migrations, s, []) && Exec(migrations, s, []) == s by { NothingDone(migrations, s); }
      if s.lock.Some? {
        first, t := HolderCanUnlock(migrations, s);
      }
      var rest := FreeLockCanBeTaken(migrations, t, p, false);
      Concat(migrations, s, first, rest);
      assert ReturnsOkBy(migrations, s, p, first + rest);
    }
  }

  lemma NothingDone(migrations: seq<Version>, s: Sys)
    ensures Possible(migrations, s, []) && Exec(migrations, s, []) == s
  {
  }

  // ---- The shared database, in place ----

  class Database {
    var lock: Option<Pod>
    var applied: seq<Version>

    constructor (done: seq<Version>)
      ensures lock.None? && applied == done
    {
      lock, applied := None, done;
    }

    /** `pg_try_advisory_lock`. */
    method TryAdvisoryLock(p: Pod) returns (acquired: bool)
      modifies this`lock
      ensures acquired <==> old(lock).None?
      ensures lock == if acquired then Some(p) else old(lock)
    {
      if lock.Some? {
        return false;
      }
      lock := Some(p);
      acquired := true;
    }

    /** `pg_advisory_unlock`; its result is ignored. */
    method AdvisoryUnlock(p: Pod, fails: bool)
      modifies this`lock
      ensures lock == if old(lock) == Some(p) && !fails then None else old(lock)
    {
      if lock == Some(p) && !fails {
        lock := None;
      }
    }

    /** Apply what is missing, in order; `failsAt` is the position at which the database refuses, if it does. */
    method RunMigrations(migrations: seq<Version>, failsAt: Option<nat>) returns (ok: bool)
      requires Increasing(migrations) && applied <= migrations
      modifies this`applied
      ensures old(applied) <= applied <= migrations
      ensures ok <==> !(failsAt.Some? && |old(applied)| <= failsAt.value < |migrations|)
      ensures applied == if ok then migrations else migrations[..failsAt.value]
    {
      var known := Elements(applied);
      for i := 0 to |migrations|
        invariant applied == migrations[..Max(|old(applied)|, i)]
        invariant failsAt.Some? && |old(applied)| <= failsAt.value < |migrations| ==> i <= failsAt.value
      {
        if i < |old(applied)| {
          assert old(applied)[i] == migrations[i];
        } else {
          assert forall k :: 0 <= k < |old(applied)| ==> old(applied)[k] == migrations[k] < migrations[i];
        }
        if migrations[i] !in known {
          if failsAt == Some(i) {
            return false;
          }
          applied := applied + [migrations[i]];
        }
      }
      ok := true;
    }

    /** Once the lock is held: run, unlock, and report the run's result. */
    method RunAsLeader(p: Pod, migrations: seq<Version>, failsAt: Option<nat>, unlockFails: bool) returns (ok: bool)
      requires lock == Some(p) && Increasing(migrations) && applied <= migrations
      modifies this
      ensures lock == if unlockFails then Some(p) else None
      ensures old(applied) <= applied <= migrations && (ok ==> applied == migrations)
    {
      ok := RunMigrations(migrations, failsAt);
      AdvisoryUnlock(p, unlockFails);
    }

    /**
     `run_with_leader_lock`. Between polls the other pods do what they like: `others(i)` is what the i-th
     poll meets. The deadline passes after poll number `lastPoll`, so there is always at least one poll.
     */
    method RunWithLeaderLock(p: Pod, migrations: seq<Version>, lastPoll: nat, others: nat -> Poll,
                             failsAt: Option<nat>, unlockFails: bool)
      returns (r: Result<(), MigrateError>)
      requires Increasing(migrations) && lock != Some(p) && applied <= migrations
      requires forall i: nat :: others(i).Found? ==> others(i).lock != Some(p) && others(i).applied <= |migrations|
      modifies this
      ensures r == Err(LockTimeout) <==> forall i: nat :: i <= lastPoll ==> Taken(others(i))
      ensures r == Err(QueryFailed) <==> exists i: nat :: i <= lastPoll && Decides(others, i) && others(i).PollError?
      ensures lock == Some(p) <==> r != Err(LockTimeout) && r != Err(QueryFailed) && unlockFails
      ensures applied <= migrations && (r.Ok? ==> applied == migrations)
    {
      var i := 0;
      while true
        invariant i <= lastPoll && lock != Some(p) && applied <= migrations
        invariant forall j: nat :: j < i ==> Taken(others(j))
        decreases lastPoll - i
      {
        if others(i).PollError? {
          assert Decides(others, i);
          return Err(QueryFailed);
        }
        lock, applied := others(i).lock, migrations[..others(i).applied];
        var acquired := TryAdvisoryLock(p);
        if acquired {
          break;
        }
        if i == lastPoll {
          return Err(LockTimeout);
        }
        i := i + 1;
      }
      assert Decides(others, i);
      var ok := RunAsLeader(p, migrations, failsAt, unlockFails);
      r := if ok then Ok(()) else Err(MigrateFailed);
    }
  }
}
