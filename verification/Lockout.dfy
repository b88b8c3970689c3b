/**
 Brute-force lockout and its gate in the password authenticator.

 Times and durations are in milliseconds. Counters are 32-bit and saturate or wrap as in the source;
 the product of a duration and a count is unbounded, where the source would stop on a 64-bit overflow.
 */
module Lockout {
  import opened Prelude

  type Time = int
  type UserId = nat

  const U32_MAX: nat := 0xFFFF_FFFF
  const MAX_DURATION: nat := 0x7FFF_FFFF_FFFF_FFFF
  const CENTURY: nat := 365 * 100 * 24 * 3600 * 1000

  datatype Policy = Policy(
    enabled: bool,
    maxLoginFailures: nat,
    waitIncrement: nat,
    maxWait: nat,
    failureReset: nat,
    permanentLockout: bool
  ) {
    /** Configured durations too long for a signed 64-bit count fall back to defaults. */
    function Reset(): nat {
      if failureReset <= MAX_DURATION then failureReset else 0
    }

    function Increment(): nat {
      if waitIncrement <= MAX_DURATION then waitIncrement else 60_000
    }

    function Cap(): nat {
      if maxWait <= MAX_DURATION then maxWait else 900_000
    }
  }

  datatype User = User(
    enabled: bool,
    hasPassword: bool,
    failedAttempts: nat,
    lockedUntil: Option<Time>,
    lastFailedAt: Option<Time>
  )

  predicate Clean(u: User) {
    u.failedAttempts == 0 && u.lockedUntil.None? && u.lastFailedAt.None?
  }

  predicate Locked(u: User, now: Time) {
    u.lockedUntil.Some? && u.lockedUntil.value > now
  }

  /** `as i32` on an unsigned 32-bit count. */
  function AsI32(x: nat): int {
    if x < 0x8000_0000 then x else x - 0x1_0000_0000
  }

  function SaturatingSucc(x: nat): nat {
    if x < U32_MAX then x + 1 else U32_MAX
  }

  /** How long the lock set by the `attempts`-th failure lasts. */
  function Wait(p: Policy, attempts: nat): int {
    var over := ((if attempts > p.maxLoginFailures then attempts - p.maxLoginFailures else 0) + 1) % (U32_MAX + 1);
    var raw := p.Increment() * AsI32(over);
    if raw > p.Cap() then p.Cap() else raw
  }

  function AfterSuccess(u: User): User {
    u.(failedAttempts := 0, lockedUntil := None, lastFailedAt := None)
  }

  function AfterFailure(p: Policy, u: User, now: Time): User {
    var elapsed := u.lastFailedAt.Some? && now - u.lastFailedAt.value > p.Reset();
    var attempts := SaturatingSucc(if elapsed then 0 else u.failedAttempts);
    var until :=
      if p.enabled && attempts >= p.maxLoginFailures
      then Some(now + if p.permanentLockout then CENTURY else Wait(p, attempts))
      else u.lockedUntil;
    u.(failedAttempts := attempts, lastFailedAt := Some(now), lockedUntil := until)
  }

  datatype Verify = Match | Mismatch | CryptoError

  datatype AuthnInput = SubmitForm(fields: map<string, string>) | OtherInput

  datatype AuthnOutput =
    | ShowForm | Success | FailedInvalid | FailedDisabled | FailedLocked
    | MissingUsername | MissingPassword | Crypto

  /** One submitted password against one stored row: the gate comes first, then the hash, then the outcome. */
  function Attempt(p: Policy, u: User, now: Time, v: Verify): (User, AuthnOutput) {
    if !u.enabled then (u, FailedDisabled)
    else if Locked(u, now) then (u, FailedLocked)
    else if !u.hasPassword then (u, FailedInvalid)
    else
      match v
      case Match => (AfterSuccess(u), Success)
      case Mismatch => (AfterFailure(p, u, now), FailedInvalid)
      case CryptoError => (u, Crypto)
  }

  /** A complete form that names a stored user. */
  predicate Names(users: map<UserId, User>, byName: map<string, UserId>, input: AuthnInput) {
    && input.SubmitForm? && "username" in input.fields && "password" in input.fields
    && input.fields["username"] in byName && byName[input.fields["username"]] in users
  }

  datatype LockError = StorageError | LockedError(until: Time)

  /** The user table. */
  class Store {
    var users: map<UserId, User>
    var byName: map<string, UserId>

    constructor ()
      ensures users == map[] && byName == map[]
    {
      users, byName := map[], map[];
    }

    method CheckLocked(id: UserId, now: Time) returns (r: Result<(), LockError>)
      ensures r == if id !in users then Err(StorageError)
                   else if Locked(users[id], now) then Err(LockedError(users[id].lockedUntil.value)) else Ok(())
    {
      if id !in users {
        return Err(StorageError);
      }
      match users[id].lockedUntil {
        case Some(until) =>
          if until > now {
            return Err(LockedError(until));
          }
        case None =>
      }
      r := Ok(());
    }

    method RecordSuccess(id: UserId) returns (r: Result<(), LockError>)
      modifies this`users
      ensures r == if id in old(users) then Ok(()) else Err(StorageError)
      ensures users == if id in old(users) then old(users)[id := AfterSuccess(old(users)[id])] else old(users)
    {
      if id !in users {
        return Err(StorageError);
      }
      var user := users[id];
      if Clean(user) {
        assert users[id := AfterSuccess(user)] == users;
        return Ok(());
      }
      users := users[id := user.(failedAttempts := 0, lockedUntil := None, lastFailedAt := None)];
      r := Ok(());
    }

    method RecordFailure(id: UserId, p: Policy, now: Time) returns (r: Result<User, LockError>)
      modifies this`users
      ensures id !in old(users) ==> r == Err(StorageError) && users == old(users)
      ensures id in old(users) ==>
                && r == Ok(AfterFailure(p, old(users)[id], now))
                && users == old(users)[id := AfterFailure(p, old(users)[id], now)]
    {
      if id !in users {
        return Err(StorageError);
      }
      var user := users[id];
      if user.lastFailedAt.Some? && now - user.lastFailedAt.value > p.Reset() {
        user := user.(failedAttempts := 0);
      }
      user := user.(failedAttempts := SaturatingSucc(user.failedAttempts));
      user := user.(lastFailedAt := Some(now));
      if p.enabled && user.failedAttempts >= p.maxLoginFailures {
        user := user.(lockedUntil := Some(now + if p.permanentLockout then CENTURY else Wait(p, user.failedAttempts)));
      }
      users := users[id := user];
      r := Ok(user);
    }

    /** `PasswordAuthenticator::process`; `v` is what verifying the submitted password would say. */
    method Process(input: AuthnInput, v: Verify, p: Policy, now: Time) returns (out: AuthnOutput)
      modifies this`users
      ensures out == ShowForm <==> input.OtherInput?
      ensures out == MissingUsername <==> input.SubmitForm? && "username" !in input.fields
      ensures out == MissingPassword <==>
                input.SubmitForm? && "username" in input.fields && "password" !in input.fields
      ensures out == ShowForm || out == MissingUsername || out == MissingPassword ==> users == old(users)
      ensures input.SubmitForm? && "username" in input.fields && "password" in input.fields ==>
                var username := input.fields["username"];
                if username in byName && byName[username] in old(users) then
                  var id := byName[username];
                  var after := Attempt(p, old(users)[id], now, v);
                  out == after.1 && users == old(users)[id := after.0]
                else out == FailedInvalid && users == old(users)
      ensures out == Success <==>
                && Names(old(users), byName, input)
                && var u := old(users)[byName[input.fields["username"]]];
                !Barred(u, now) && u.hasPassword && v == Match
      ensures out == FailedLocked <==>
                && Names(old(users), byName, input)
                && var u := old(users)[byName[input.fields["username"]]]; u.enabled && Barred(u, now)
      ensures out == FailedDisabled <==>
                Names(old(users), byName, input) && !old(users)[byName[input.fields["username"]]].enabled
    {
      if input.OtherInput? {
        return ShowForm;
      }
      if "username" !in input.fields {
        return MissingUsername;
      }
      var username := input.fields["username"];
      if "password" !in input.fields {
        return MissingPassword;
      }
      if username !in byName || byName[username] !in users {
        return FailedInvalid;
      }
      var id := byName[username];
      var user := users[id];
      assert users == users[id := user];
      if !user.enabled {
        return FailedDisabled;
      }
      var gate := CheckLocked(id, now);
      if gate.Err? && gate.error.LockedError? {
        return FailedLocked;
      }
      if !user.hasPassword {
        return FailedInvalid;
      }
      match v {
        case Match =>
          var _ := RecordSuccess(id);
          out := Success;
        case Mismatch =>
          var _ := RecordFailure(id, p, now);
          out := FailedInvalid;
        case CryptoError =>
          out := Crypto;
      }
    }
  }

  // ---- Who gets in ----

  /** The account is disabled, or its lock ends after `now`. */
  predicate Barred(u: User, now: Time) {
    !u.enabled || (u.lockedUntil.Some? && now < u.lockedUntil.value)
  }

  /** Every answer to a submitted password, read off the row, the clock and the hash. */
  lemma AttemptAnswers(p: Policy, u: User, now: Time, v: Verify)
    ensures var out := Attempt(p, u, now, v).1;
            && (out == Success <==> !Barred(u, now) && u.hasPassword && v == Match)
            && (out == FailedDisabled <==> !u.enabled)
            && (out == FailedLocked <==> u.enabled && Barred(u, now))
            && (out == FailedInvalid <==> !Barred(u, now) && (!u.hasPassword || v == Mismatch))
            && (out == Crypto <==> !Barred(u, now) && u.hasPassword && v == CryptoError)
  {
  }

  /** Only a mismatch counts, only a success clears, and the account's own settings are never touched. */
  lemma AttemptLeaves(p: Policy, u: User, now: Time, v: Verify)
    ensures var (r, out) := Attempt(p, u, now, v);
            && r.enabled == u.enabled && r.hasPassword == u.hasPassword
            && (out == Success ==> Clean(r))
            && (r != u ==> out == Success || (out == FailedInvalid && u.hasPassword && v == Mismatch))
            && (out == FailedInvalid && u.hasPassword ==> r.lastFailedAt == Some(now) && 0 < r.failedAttempts)
  {
  }

  // ---- Every reachable row ----

  datatype Try = Try(now: Time, v: Verify)

  function AfterTries(p: Policy, u: User, tries: seq<Try>): User {
    if tries == [] then u
    else
      var last := tries[|tries| - 1];
      Attempt(p, AfterTries(p, u, tries[..|tries| - 1]), last.now, last.v).0
  }

  ghost predicate Ordered(tries: seq<Try>) {
    forall i, j :: 0 <= i < j < |tries| ==> tries[i].now <= tries[j].now
  }

  /** What the attempts of a run were answered. */
  function AnswersTo(p: Policy, u: User, tries: seq<Try>): (r: seq<AuthnOutput>)
    ensures |r| == |tries|
  {
    if tries == [] then []
    else
      var last := tries[|tries| - 1];
      AnswersTo(p, u, tries[..|tries| - 1]) + [Attempt(p, AfterTries(p, u, tries[..|tries| - 1]), last.now, last.v).1]
  }

  /** While a lock lasts nobody gets in, right password or not, and the row stays as it is. */
  lemma {:induction false} LockHolds(p: Policy, u: User, tries: seq<Try>)
    requires u.enabled && u.lockedUntil.Some? && forall i :: 0 <= i < |tries| ==> tries[i].now < u.lockedUntil.value
    ensures AfterTries(p, u, tries) == u
    ensures forall i :: 0 <= i < |tries| ==> AnswersTo(p, u, tries)[i] == FailedLocked
    decreases |tries|
  {
    if tries == [] {
    } else {
      LockHolds(p, u, tries[..|tries| - 1]);
    }
  }

  /**
   In every run an attempt succeeds exactly if the password was right and the row, as the attempts before
   left it, was enabled and not locked at that moment.
   */
  lemma {:induction false} RunAnswers(p: Policy, u: User, tries: seq<Try>, i: nat)
    requires i < |tries|
    ensures AnswersTo(p, u, tries)[i] == Success <==>
              !Barred(AfterTries(p, u, tries[..i]), tries[i].now) && u.hasPassword && tries[i].v == Match
    decreases |tries|
  {
    var n := |tries| - 1;
    RunKeepsSettings(p, u, tries[..n]);
    AttemptAnswers(p, AfterTries(p, u, tries[..n]), tries[n].now, tries[n].v);
    hide Attempt, Barred;
    if n == 0 {
      assert tries[..0] == [];
    } else {
      RunAnswers(p, u, tries[..n], if i < n then i else 0);
      assert i < n ==> tries[..n][..i] == tries[..i];
    }
  }

  lemma {:induction false} RunKeepsSettings(p: Policy, u: User, tries: seq<Try>)
    ensures var r := AfterTries(p, u, tries); r.enabled == u.enabled && r.hasPassword == u.hasPassword
    decreases |tries|
  {
    if tries == [] {
    } else {
      var last := tries[|tries| - 1];
      RunKeepsSettings(p, u, tries[..|tries| - 1]);
      AttemptLeaves(p, AfterTries(p, u, tries[..|tries| - 1]), last.now, last.v);
    }
  }

  /** A policy that is not enabled never locks anybody. */
  lemma {:induction false} DisabledPolicyNeverLocks(p: Policy, u: User, tries: seq<Try>)
    requires !p.enabled && u.lockedUntil.None?
    ensures AfterTries(p, u, tries).lockedUntil.None?
    decreases |tries|
  {
    if tries == [] {
    } else {
      DisabledPolicyNeverLocks(p, u, tries[..|tries| - 1]);
    }
  }

  /** Under permanent lockout the failure that reaches the threshold shuts the account for a century. */
  lemma PermanentLockHolds(p: Policy, u: User, now: Time, tries: seq<Try>)
    requires p.enabled && p.permanentLockout && !Barred(u, now) && u.hasPassword
    requires u.failedAttempts + 1 >= p.maxLoginFailures && u.failedAttempts < U32_MAX
    requires u.lastFailedAt.Some? ==> now - u.lastFailedAt.value <= p.Reset()
    requires forall i :: 0 <= i < |tries| ==> tries[i].now < now + 365 * 100 * 24 * 3600 * 1000
    ensures var r := Attempt(p, u, now, Mismatch).0;
            && AfterTries(p, r, tries) == r
            && forall i :: 0 <= i < |tries| ==> AnswersTo(p, r, tries)[i] == FailedLocked
  {
    LockHolds(p, Attempt(p, u, now, Mismatch).0, tries);
  }

  /** The lock never outlasts the cap counted from the last failure, and that failure is in the past. */
  ghost predicate Bounded(p: Policy, u: User, now: Time) {
    && (u.lockedUntil.Some? ==> u.lastFailedAt.Some? && u.lockedUntil.value <= u.lastFailedAt.value + p.Cap())
    && (u.lastFailedAt.Some? ==> u.lastFailedAt.value <= now)
  }

  /** Unless lockout is permanent, every reachable row unlocks within the cap of its last failure. */
  lemma {:induction false} ReachableRowsBounded(p: Policy, u: User, tries: seq<Try>)
    requires !p.permanentLockout && Clean(u) && Ordered(tries)
    ensures var r := AfterTries(p, u, tries);
            && (r.lockedUntil.Some? ==> r.lastFailedAt.Some? && r.lockedUntil.value <= r.lastFailedAt.value + p.Cap())
            && (tries != [] ==> Bounded(p, r, tries[|tries| - 1].now))
            && r.failedAttempts <= U32_MAX
            && (tries == [] ==> Clean(r))
    decreases |tries|
  {
    if tries == [] {
    } else {
      var init := tries[..|tries| - 1];
      ReachableRowsBounded(p, u, init);
      if init != [] {
        assert init[|init| - 1] == tries[|init| - 1];
        assert tries[|init| - 1].now <= tries[|tries| - 1].now;
      }
    }
  }

  // ---- The delay a run of wrong passwords costs ----

  /** The row after wrong passwords at the given times. */
  function AfterWrong(p: Policy, u: User, times: seq<Time>): User {
    if times == [] then u
    else Attempt(p, AfterWrong(p, u, times[..|times| - 1]), times[|times| - 1], Mismatch).0
  }

  /** Attempt `i` finds the account unlocked. */
  ghost predicate PassesGate(p: Policy, u: User, times: seq<Time>, i: nat)
    requires i < |times|
  {
    !Locked(AfterWrong(p, u, times[..i]), times[i])
  }

  /** A refused attempt leaves the row as it was, so only the attempts that pass the gate matter. */
  function PassedOnly(p: Policy, u: User, times: seq<Time>): seq<Time> {
    if times == [] then []
    else
      var init := times[..|times| - 1];
      var last := times[|times| - 1];
      PassedOnly(p, u, init) + if Locked(AfterWrong(p, u, init), last) then [] else [last]
  }

  lemma {:induction false} RefusedAttemptsDoNotCount(p: Policy, u: User, times: seq<Time>)
    requires u.enabled
    ensures AfterWrong(p, u, PassedOnly(p, u, times)) == AfterWrong(p, u, times)
    ensures AfterWrong(p, u, times).enabled
    ensures forall i :: 0 <= i < |PassedOnly(p, u, times)| ==> PassesGate(p, u, PassedOnly(p, u, times), i)
    decreases |times|
  {
    if times == [] {
    } else {
      var init := times[..|times| - 1];
      RefusedAttemptsDoNotCount(p, u, init);
      var before := PassedOnly(p, u, init);
      var passed := PassedOnly(p, u, times);
      if passed != before {
        assert passed[..|passed| - 1] == before;
      }
      forall i | 0 <= i < |passed|
        ensures PassesGate(p, u, passed, i)
      {
        if i < |before| {
          assert PassesGate(p, u, before, i);
          assert passed[..i] == before[..i];
        } else {
          assert passed[..i] == before;
        }
      }
    }
  }

  /** The run the bound is about: unlocked at every attempt, in order, never pausing past the reset. */
  ghost predicate Persistent(p: Policy, u: User, times: seq<Time>) {
    && (forall i :: 0 <= i < |times| ==> PassesGate(p, u, times, i))
    && (forall i :: 0 < i < |times| ==> 0 <= times[i] - times[i - 1] <= p.Reset())
  }

  /** The j-th wait once the threshold is reached. */
  function Delay(p: Policy, j: nat): nat {
    if j * p.Increment() > p.Cap() then p.Cap() else j * p.Increment()
  }

  function TotalDelay(p: Policy, k: nat): nat {
    if k == 0 then 0 else TotalDelay(p, k - 1) + Delay(p, k)
  }

  /**
   The j-th wait is j times the configured increment, up to the configured cap; a duration too long for a
   signed 64-bit count is taken as a minute, a quarter of an hour or, for the reset window, nothing.
   */
  lemma DelayConfigured(p: Policy, j: nat)
    ensures var increment := if p.waitIncrement < 0x8000_0000_0000_0000 then p.waitIncrement else 60_000;
            var cap := if p.maxWait < 0x8000_0000_0000_0000 then p.maxWait else 900_000;
            && Delay(p, j) <= cap && (Delay(p, j) == j * increment || (Delay(p, j) == cap && cap < j * increment))
    ensures p.Reset() == if p.failureReset < 0x8000_0000_0000_0000 then p.failureReset else 0
  {
  }

  lemma WaitIsDelay(p: Policy, attempts: nat)
    requires 1 <= p.maxLoginFailures <= attempts < 0x8000_0000
    ensures Wait(p, attempts) == Delay(p, attempts - p.maxLoginFailures + 1)
  {
    var j := attempts - p.maxLoginFailures + 1;
    assert p.Increment() * AsI32(j) == j * p.Increment();
  }

  lemma PersistentPrefix(p: Policy, u: User, times: seq<Time>, n: nat)
    requires n <= |times| && Persistent(p, u, times)
    ensures Persistent(p, u, times[..n])
  {
    forall i | 0 <= i < n
      ensures PassesGate(p, u, times[..n], i)
    {
      assert PassesGate(p, u, times, i);
      assert times[..n][..i] == times[..i];
    }
  }

  lemma PersistentLast(p: Policy, u: User, times: seq<Time>)
    requires Persistent(p, u, times) && times != []
    ensures PassesGate(p, u, times, |times| - 1)
    ensures |times| > 1 ==> 0 <= times[|times| - 1] - times[|times| - 2] <= p.Reset()
  {
  }

  /** The counter counts the attempts, and from the threshold on each one sets the next longer lock. */
  lemma {:induction false} CounterExact(p: Policy, u: User, times: seq<Time>)
    requires p.enabled && !p.permanentLockout && p.maxLoginFailures >= 1
    requires Clean(u) && u.enabled && u.hasPassword && Persistent(p, u, times) && |times| < 0x8000_0000
    ensures var r := AfterWrong(p, u, times);
            && r.enabled && r.hasPassword && r.failedAttempts == |times|
            && (times == [] ==> Clean(r))
            && (times != [] ==> r.lastFailedAt == Some(times[|times| - 1]))
            && (|times| >= p.maxLoginFailures ==>
                  r.lockedUntil == Some(times[|times| - 1] + Delay(p, |times| - p.maxLoginFailures + 1)))
    decreases |times|
  {
    hide Wait, Delay, Persistent;
    if times == [] {
    } else {
      var n := |times| - 1;
      PersistentPrefix(p, u, times, n);
      PersistentLast(p, u, times);
      CounterExact(p, u, times[..n]);
      if |times| >= p.maxLoginFailures {
        WaitIsDelay(p, |times|);
      }
    }
  }

  /**
   The delay bound. Counting from the attempt that reaches the threshold `M`, the k-th further wrong
   password that is even looked at comes at least the sum of the first k waits later.
   */
  lemma {:induction false} DelayBound(p: Policy, u: User, times: seq<Time>, k: nat)
    requires p.enabled && !p.permanentLockout && p.maxLoginFailures >= 1
    requires Clean(u) && u.enabled && u.hasPassword && Persistent(p, u, times) && |times| < 0x8000_0000
    requires |times| == p.maxLoginFailures + k
    ensures times[|times| - 1] - times[p.maxLoginFailures - 1] >= TotalDelay(p, k)
    decreases k
  {
    hide Delay, Persistent, AfterWrong;
    if k == 0 {
    } else {
      var n := |times| - 1;
      PersistentPrefix(p, u, times, n);
      PersistentLast(p, u, times);
      DelayBound(p, u, times[..n], k - 1);
      CounterExact(p, u, times[..n]);
      assert times[n] - times[n - 1] >= Delay(p, k);
    }
  }

  /**
   The reset window is essential to the bound: wrong passwords spaced more than the window apart never
   lock an account whose threshold is above one, however many there are.
   */
  lemma {:induction false} SpacedAttemptsNeverLock(p: Policy, u: User, times: seq<Time>)
    requires Clean(u) && u.enabled && u.hasPassword && p.maxLoginFailures >= 2
    requires forall i :: 0 < i < |times| ==> times[i] - times[i - 1] > p.Reset()
    ensures var r := AfterWrong(p, u, times);
            && r.enabled && r.hasPassword && r.lockedUntil.None? && r.failedAttempts == (if times == [] then 0 else 1)
            && r.lastFailedAt == (if times == [] then None else Some(times[|times| - 1]))
    decreases |times|
  {
    if times == [] {
    } else {
      var n := |times| - 1;
      SpacedAttemptsNeverLock(p, u, times[..n]);
      if n > 0 {
        assert times[n] - times[n - 1] > p.Reset();
      }
    }
  }

  // ---- Attempts that race ----

  /**
   A wrong attempt that passed the gate, or has also read the row it is going to write back. `seen` is how
   many attempts had been written when it read.
   */
  datatype Racer = Passed(now: Time) | HasRead(now: Time, row: User, seen: nat)

  /** The stored row, the times of the attempts written to it, and the attempts under way. */
  datatype Race = Race(row: User, times: seq<Time>, racers: map<nat, Racer>)

  /** The storage calls of one attempt: the gate's read, the read of the bookkeeping, its write. */
  datatype RaceStep = Gate(a: nat, now: Time) | ReadRow(a: nat) | WriteRow(a: nat)

  predicate ReadyToRead(s: Race, a: nat) {
    a in s.racers && s.racers[a].Passed?
  }

  predicate ReadyToWrite(s: Race, a: nat) {
    a in s.racers && s.racers[a].HasRead?
  }

  /** A step that its attempt is not ready for does nothing. */
  function Advance(p: Policy, s: Race, step: RaceStep): Race {
    match step
    case Gate(a, now) =>
      if a !in s.racers && s.row.enabled && !Locked(s.row, now) && s.row.hasPassword
      then s.(racers := s.racers[a := Passed(now)]) else s
    case ReadRow(a) =>
      if ReadyToRead(s, a) then s.(racers := s.racers[a := HasRead(s.racers[a].now, s.row, |s.times|)]) else s
    case WriteRow(a) =>
      if ReadyToWrite(s, a)
      then Race(AfterFailure(p, s.racers[a].row, s.racers[a].now), s.times + [s.racers[a].now], s.racers - {a})
      else s
  }

  function RaceRun(p: Policy, u: User, steps: seq<RaceStep>): Race {
    if steps == [] then Race(u, [], map[])
    else Advance(p, RaceRun(p, u, steps[..|steps| - 1]), steps[|steps| - 1])
  }

  /** The write goes back over another attempt that was written since the row was read. */
  predicate Stale(s: Race, step: RaceStep) {
    step.WriteRow? && ReadyToWrite(s, step.a) && s.racers[step.a].seen < |s.times|
  }

  ghost predicate NoneStale(p: Policy, u: User, steps: seq<RaceStep>) {
    forall i :: 0 <= i < |steps| ==> !Stale(RaceRun(p, u, steps[..i]), steps[i])
  }

  /** No write finds its row's last failure beyond the reset window. */
  ghost predicate NoneResets(p: Policy, u: User, steps: seq<RaceStep>) {
    forall i :: 0 <= i < |steps| ==> !ResetsAt(p, RaceRun(p, u, steps[..i]), steps[i])
  }

  predicate ResetsAt(p: Policy, s: Race, step: RaceStep) {
    && step.WriteRow? && ReadyToWrite(s, step.a)
    && s.racers[step.a].row.lastFailedAt.Some?
    && s.racers[step.a].now - s.racers[step.a].row.lastFailedAt.value > p.Reset()
  }

  /** What a read knows: the current row if nothing was written since, and never more than was written by then. */
  ghost predicate ReadsSound(s: Race) {
    && s.row.failedAttempts <= |s.times|
    && forall a :: ReadyToWrite(s, a) ==>
         && s.racers[a].row.failedAttempts <= s.racers[a].seen <= |s.times|
         && (s.racers[a].seen == |s.times| ==> s.racers[a].row == s.row)
  }

  lemma AdvanceSound(p: Policy, s: Race, step: RaceStep)
    requires ReadsSound(s)
    ensures ReadsSound(Advance(p, s, step))
  {
    var t := Advance(p, s, step);
    forall a | ReadyToWrite(t, a)
      ensures t.racers[a].row.failedAttempts <= t.racers[a].seen <= |t.times|
      ensures t.racers[a].seen == |t.times| ==> t.racers[a].row == t.row
    {
      assert a == step.a || ReadyToWrite(s, a);
    }
  }

  /** A write counts, on a row that has counted everything so far, exactly if it is not stale. */
  lemma AdvanceCounts(p: Policy, s: Race, step: RaceStep)
    requires ReadsSound(s) && !ResetsAt(p, s, step) && |s.times| < U32_MAX
    ensures var t := Advance(p, s, step);
            t.row.failedAttempts == |t.times| <==> s.row.failedAttempts == |s.times| && !Stale(s, step)
  {
  }

  lemma RunShorter(p: Policy, u: User, steps: seq<RaceStep>)
    requires steps != []
    ensures var init, last := steps[..|steps| - 1], steps[|steps| - 1];
            && (NoneStale(p, u, steps) <==> NoneStale(p, u, init) && !Stale(RaceRun(p, u, init), last))
            && (NoneResets(p, u, steps) ==> NoneResets(p, u, init) && !ResetsAt(p, RaceRun(p, u, init), last))
            && |RaceRun(p, u, init).times| <= |RaceRun(p, u, steps).times| <= |RaceRun(p, u, init).times| + 1
  {
    hide Stale, ResetsAt, Advance;
    var init := steps[..|steps| - 1];
    AdvanceTimes(p, RaceRun(p, u, init), steps[|steps| - 1]);
    hide RaceRun;
    assert forall i :: 0 <= i < |init| ==> init[..i] == steps[..i];
  }

  lemma AdvanceTimes(p: Policy, s: Race, step: RaceStep)
    ensures |s.times| <= |Advance(p, s, step).times| <= |s.times| + 1
  {
    hide AfterFailure;
  }

  /**
   Racing wrong attempts are counted one by one exactly if no write is stale; the counter never runs ahead
   of the attempts.
   */
  lemma {:induction false} RaceCountsIffNoneStale(p: Policy, u: User, steps: seq<RaceStep>)
    requires Clean(u) && NoneResets(p, u, steps) && |RaceRun(p, u, steps).times| <= U32_MAX
    ensures var r := RaceRun(p, u, steps);
            && ReadsSound(r) && r.row.failedAttempts <= |r.times|
            && (r.row.failedAttempts == |r.times| <==> NoneStale(p, u, steps))
    decreases |steps|
  {
    hide Advance, Stale, ResetsAt, NoneStale, NoneResets;
    if steps == [] {
      assert NoneStale(p, u, []) by { NothingStale(p, u); }
    } else {
      var init, last := steps[..|steps| - 1], steps[|steps| - 1];
      var before := RaceRun(p, u, init);
      RunShorter(p, u, steps);
      RaceCountsIffNoneStale(p, u, init);
      AdvanceSound(p, before, last);
      if |before.times| < U32_MAX {
        AdvanceCounts(p, before, last);
      } else {
        FullRun(p, before, last);
      }
    }
  }

  lemma NothingStale(p: Policy, u: User)
    ensures NoneStale(p, u, [])
  {
  }

  /** A step that writes nothing changes no count. */
  lemma FullRun(p: Policy, s: Race, step: RaceStep)
    requires |Advance(p, s, step).times| == |s.times|
    ensures Advance(p, s, step).row == s.row && !Stale(s, step)
  {
  }

  /** The row after failures recorded one after the other. */
  function AfterFailures(p: Policy, u: User, times: seq<Time>): User {
    if times == [] then u
    else AfterFailure(p, AfterFailures(p, u, times[..|times| - 1]), times[|times| - 1])
  }

  /** The row is what the writes make of it one after the other, and an up-to-date read holds that row. */
  ghost predicate Serial(p: Policy, u: User, s: Race) {
    && s.row == AfterFailures(p, u, s.times)
    && forall a :: ReadyToWrite(s, a) ==>
         s.racers[a].seen <= |s.times| && (s.racers[a].seen == |s.times| ==> s.racers[a].row == s.row)
  }

  lemma AdvanceSerial(p: Policy, u: User, s: Race, step: RaceStep)
    requires Serial(p, u, s) && !Stale(s, step)
    ensures Serial(p, u, Advance(p, s, step))
  {
    hide AfterFailure;
    var t := Advance(p, s, step);
    if step.WriteRow? && ReadyToWrite(s, step.a) {
      assert t.times[..|s.times|] == s.times;
    }
    forall a | ReadyToWrite(t, a)
      ensures t.racers[a].seen <= |t.times| && (t.racers[a].seen == |t.times| ==> t.racers[a].row == t.row)
    {
      assert a == step.a || ReadyToWrite(s, a);
    }
  }

  /** Without stale writes a race is as good as its writes one after the other, resets and all. */
  lemma {:induction false} FreshRaceIsSerial(p: Policy, u: User, steps: seq<RaceStep>)
    requires NoneStale(p, u, steps)
    ensures Serial(p, u, RaceRun(p, u, steps))
    decreases |steps|
  {
    if steps == [] {
    } else {
      hide Advance, Stale, Serial, NoneStale;
      RunShorter(p, u, steps);
      FreshRaceIsSerial(p, u, steps[..|steps| - 1]);
      AdvanceSerial(p, u, RaceRun(p, u, steps[..|steps| - 1]), steps[|steps| - 1]);
    }
  }

  /** Everybody passes the gate and reads, then everybody writes. */
  function BurstReads(now: Time, n: nat): seq<RaceStep> {
    if n == 0 then [] else BurstReads(now, n - 1) + [Gate(n - 1, now)] + [ReadRow(n - 1)]
  }

  function Burst(now: Time, n: nat, written: nat): seq<RaceStep> {
    if written == 0 then BurstReads(now, n) else Burst(now, n, written - 1) + [WriteRow(written - 1)]
  }

  /** The attempts from `first` up to `n` have read the clean row, and no others are under way. */
  ghost predicate AwaitWrite(s: Race, u: User, now: Time, first: nat, n: nat) {
    && (forall a :: a in s.racers <==> first <= a < n)
    && (forall a :: a in s.racers ==> s.racers[a] == HasRead(now, u, 0))
  }

  lemma RunSnoc(p: Policy, u: User, steps: seq<RaceStep>, step: RaceStep)
    ensures RaceRun(p, u, steps + [step]) == Advance(p, RaceRun(p, u, steps), step)
  {
    hide Advance;
    assert (steps + [step])[..|steps|] == steps;
  }

  lemma OneMoreRead(p: Policy, s: Race, u: User, now: Time, n: nat)
    requires Clean(u) && u.enabled && u.hasPassword && s.row == u && s.times == [] && AwaitWrite(s, u, now, 0, n)
    ensures var t := Advance(p, Advance(p, s, Gate(n, now)), ReadRow(n));
            t.row == u && t.times == [] && AwaitWrite(t, u, now, 0, n + 1)
  {
  }

  lemma {:induction false} BurstHasRead(p: Policy, u: User, now: Time, n: nat)
    requires Clean(u) && u.enabled && u.hasPassword
    ensures var r := RaceRun(p, u, BurstReads(now, n));
            r.row == u && r.times == [] && AwaitWrite(r, u, now, 0, n)
    decreases n
  {
    hide Advance, AwaitWrite, RaceRun, Clean;
    if n == 0 {
      NobodyReads(p, u, now);
    } else {
      var before := BurstReads(now, n - 1);
      var gated := before + [Gate(n - 1, now)];
      BurstHasRead(p, u, now, n - 1);
      RunSnoc(p, u, before, Gate(n - 1, now));
      RunSnoc(p, u, gated, ReadRow(n - 1));
      OneMoreRead(p, RaceRun(p, u, before), u, now, n - 1);
    }
  }

  lemma NobodyReads(p: Policy, u: User, now: Time)
    ensures var r := RaceRun(p, u, []); r.row == u && r.times == [] && AwaitWrite(r, u, now, 0, 0)
  {
  }

  lemma OneMoreWrite(p: Policy, s: Race, u: User, now: Time, first: nat, n: nat)
    requires first < n && AwaitWrite(s, u, now, first, n)
    ensures var t := Advance(p, s, WriteRow(first));
            |t.times| == |s.times| + 1 && t.row == AfterFailure(p, u, now) && AwaitWrite(t, u, now, first + 1, n)
  {
    hide AfterFailure;
  }

  /**
   However many wrong attempts race, they can count as one: each is looked at, each is written, and the row
   is as after a single failure. No bound on the delay survives this.
   */
  lemma {:induction false} BurstCountsOnce(p: Policy, u: User, now: Time, n: nat, written: nat)
    requires Clean(u) && u.enabled && u.hasPassword && written <= n
    ensures var r := RaceRun(p, u, Burst(now, n, written));
            && |r.times| == written && r.row == (if written == 0 then u else AfterFailure(p, u, now))
            && AwaitWrite(r, u, now, written, n)
    decreases written
  {
    hide Advance, AwaitWrite, RaceRun, AfterFailure;
    if written == 0 {
      BurstHasRead(p, u, now, n);
    } else {
      BurstCountsOnce(p, u, now, n, written - 1);
      RunSnoc(p, u, Burst(now, n, written - 1), WriteRow(written - 1));
      OneMoreWrite(p, RaceRun(p, u, Burst(now, n, written - 1)), u, now, written - 1, n);
    }
  }
}
