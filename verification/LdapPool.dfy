/**
 The LDAP connection pool: a circuit breaker, a semaphore and a failover dial, shared by any number of
 acquires that interleave at every lock, permit and dial. Times are in milliseconds.
 */
module LdapPool {
  import opened Prelude

  type Time = int
  type Acquirer = nat

  const MAX_BACKOFF: nat := 60_000
  const BASE_BACKOFF: nat := 500
  const PROBE_INTERVAL: nat := 30_000
  const OPEN_THRESHOLD: nat := 5

  datatype Circuit = Closed | Open | HalfOpen

  datatype BreakerState = BreakerState(state: Circuit, failures: nat, openedAt: Option<Time>, backoff: nat)

  const FRESH := BreakerState(Closed, 0, None, BASE_BACKOFF)

  function Failed(b: BreakerState, now: Time): BreakerState {
    if b.failures + 1 >= OPEN_THRESHOLD
    then
      BreakerState(Open, b.failures + 1, Some(now),
                   if b.backoff * 2 < MAX_BACKOFF then b.backoff * 2 else MAX_BACKOFF)
    else b.(failures := b.failures + 1)
  }

  /** May an acquire go ahead, and what becomes of the breaker when it asks. */
  function Admission(b: BreakerState, now: Time): (bool, BreakerState) {
    if b.state != Open then (true, b)
    else if b.openedAt.Some? && now - b.openedAt.value >= PROBE_INTERVAL then (true, b.(state := HalfOpen))
    else (false, b)
  }

  /** Closed exactly below the threshold, an opening time exactly when not closed, and a bounded backoff. */
  predicate BreakerSound(b: BreakerState) {
    && (b.state == Closed <==> b.failures < OPEN_THRESHOLD)
    && (b.openedAt.Some? <==> b.state != Closed)
    && BASE_BACKOFF <= b.backoff <= MAX_BACKOFF
  }

  class Breaker {
    var state: Circuit
    var failures: nat
    var openedAt: Option<Time>
    var backoff: nat

    constructor ()
      ensures View() == FRESH && BreakerSound(View())
    {
      state, failures, openedAt, backoff := Closed, 0, None, BASE_BACKOFF;
    }

    function View(): BreakerState
      reads this
    {
      BreakerState(state, failures, openedAt, backoff)
    }

    method RecordFailure(now: Time)
      requires BreakerSound(View())
      modifies this
      ensures View() == Failed(old(View()), now) && BreakerSound(View())
    {
      failures := failures + 1;
      if failures >= OPEN_THRESHOLD {
        state := Open;
        openedAt := Some(now);
        backoff := if backoff * 2 < MAX_BACKOFF then backoff * 2 else MAX_BACKOFF;
      }
    }

    method RecordSuccess()
      modifies this
      ensures View() == FRESH && BreakerSound(View())
    {
      failures := 0;
      state := Closed;
      openedAt := None;
      backoff := BASE_BACKOFF;
    }

    method TryHalfOpen(now: Time) returns (admitted: bool)
      requires BreakerSound(View())
      modifies this`state
      ensures (admitted, View()) == Admission(old(View()), now) && BreakerSound(View())
    {
      if state != Open {
        return true;
      }
      match openedAt {
        case Some(t) =>
          if now - t >= PROBE_INTERVAL {
            state := HalfOpen;
            return true;
          }
        case None =>
      }
      admitted := false;
    }
  }

  // ---- The pool under interleaving ----

  datatype Phase = Asking | Admitted | Dialing | Connected | Finished

  datatype Pool = Pool(breaker: BreakerState, permits: nat, acquirers: map<Acquirer, Phase>, now: Time)

  datatype Step =
    | Begin(a: Acquirer)
    | Ask(a: Acquirer)
    | TakePermit(a: Acquirer)
    | WaitTimedOut(a: Acquirer)
    | DialSucceeds(a: Acquirer)
    | DialFails(a: Acquirer)
    | Release(a: Acquirer)
    | Tick(elapsed: nat)

  function Size(poolSize: nat): nat {
    if poolSize < 1 then 1 else poolSize
  }

  function Init(poolSize: nat, now: Time): Pool {
    Pool(FRESH, Size(poolSize), map[], now)
  }

  predicate Is(p: Pool, a: Acquirer, ph: Phase) {
    a in p.acquirers && p.acquirers[a] == ph
  }

  predicate Enabled(p: Pool, step: Step) {
    match step
    case Begin(a) => a !in p.acquirers
    case Ask(a) => Is(p, a, Asking)
    case TakePermit(a) => Is(p, a, Admitted) && p.permits > 0
    case WaitTimedOut(a) => Is(p, a, Admitted)
    case DialSucceeds(a) => Is(p, a, Dialing)
    case DialFails(a) => Is(p, a, Dialing)
    case Release(a) => Is(p, a, Connected)
    case Tick(_) => true
  }

  function Become(p: Pool, a: Acquirer, ph: Phase): Pool {
    p.(acquirers := p.acquirers[a := ph])
  }

  function Apply(p: Pool, step: Step): Pool
    requires Enabled(p, step)
  {
    match step
    case Begin(a) => Become(p, a, Asking)
    case Ask(a) =>
      var (admitted, breaker) := Admission(p.breaker, p.now);
      Become(p.(breaker := breaker), a, if admitted then Admitted else Finished)
    case TakePermit(a) => Become(p.(permits := p.permits - 1), a, Dialing)
    case WaitTimedOut(a) => Become(p, a, Finished)
    case DialSucceeds(a) => Become(p.(breaker := FRESH), a, Connected)
    case DialFails(a) => Become(p.(breaker := Failed(p.breaker, p.now), permits := p.permits + 1), a, Finished)
    case Release(a) => Become(p.(permits := p.permits + 1), a, Finished)
    case Tick(elapsed) => p.(now := p.now + elapsed)
  }

  /** The acquires that hold a permit: dialing, or with a live connection. */
  function Users(acquirers: map<Acquirer, Phase>): set<Acquirer> {
    set a | a in acquirers && (acquirers[a] == Dialing || acquirers[a] == Connected)
  }

  lemma UsersAfter(acquirers: map<Acquirer, Phase>, a: Acquirer, ph: Phase)
    ensures Users(acquirers[a := ph])
            == if ph == Dialing || ph == Connected then Users(acquirers) + {a} else Users(acquirers) - {a}
    ensures a in Users(acquirers) <==> a in acquirers && (acquirers[a] == Dialing || acquirers[a] == Connected)
  {
  }

  ghost predicate Inv(poolSize: nat, p: Pool) {
    && BreakerSound(p.breaker)
    && p.permits + |Users(p.acquirers)| == Size(poolSize)
    && (p.breaker.openedAt.Some? ==> p.breaker.openedAt.value <= p.now)
  }

  lemma KeepsBreaker(p: Pool, step: Step)
    requires Enabled(p, step) && BreakerSound(p.breaker)
    requires p.breaker.openedAt.Some? ==> p.breaker.openedAt.value <= p.now
    ensures var q := Apply(p, step);
            BreakerSound(q.breaker) && (q.breaker.openedAt.Some? ==> q.breaker.openedAt.value <= q.now)
  {
  }

  lemma KeepsPermits(p: Pool, step: Step)
    requires Enabled(p, step)
    ensures var q := Apply(p, step); q.permits + |Users(q.acquirers)| == p.permits + |Users(p.acquirers)|
  {
    hide Admission, Failed, Users;
    if !step.Tick? {
      UsersAfter(p.acquirers, step.a, Apply(p, step).acquirers[step.a]);
    }
  }

  lemma StepKeepsInv(poolSize: nat, p: Pool, step: Step)
    requires Inv(poolSize, p) && Enabled(p, step)
    ensures Inv(poolSize, Apply(p, step))
  {
    hide Apply, Users, BreakerSound;
    KeepsBreaker(p, step);
    KeepsPermits(p, step);
  }

  ghost predicate Possible(p: Pool, steps: seq<Step>)
    decreases |steps|
  {
    steps == [] || (Enabled(p, steps[0]) && Possible(Apply(p, steps[0]), steps[1..]))
  }

  ghost function Exec(p: Pool, steps: seq<Step>): Pool
    requires Possible(p, steps)
    decreases |steps|
  {
    if steps == [] then p else Exec(Apply(p, steps[0]), steps[1..])
  }

  lemma {:induction false} RunKeepsInv(poolSize: nat, p: Pool, steps: seq<Step>)
    requires Inv(poolSize, p) && Possible(p, steps)
    ensures Inv(poolSize, Exec(p, steps))
    decreases |steps|
  {
    hide Inv, Apply, Enabled;
    if steps == [] {
    } else {
      StepKeepsInv(poolSize, p, steps[0]);
      RunKeepsInv(poolSize, Apply(p, steps[0]), steps[1..]);
    }
  }

  /** In every interleaving the breaker is sound and dialing plus held connections never exceed the pool size. */
  lemma PoolRunsSound(poolSize: nat, start: Time, steps: seq<Step>)
    requires Possible(Init(poolSize, start), steps)
    ensures var p := Exec(Init(poolSize, start), steps);
            && (p.breaker.state == Closed <==> p.breaker.failures < 5)
            && (p.breaker.openedAt.Some? <==> p.breaker.state != Closed)
            && 500 <= p.breaker.backoff <= 60_000
            && |Users(p.acquirers)| <= Size(poolSize) && p.permits == Size(poolSize) - |Users(p.acquirers)|
  {
    assert Users(map[]) == {};
    RunKeepsInv(poolSize, Init(poolSize, start), steps);
  }

  /** Those the breaker has let through and that have not finished. */
  function Through(p: Pool): set<Acquirer> {
    set a | a in p.acquirers && (p.acquirers[a] == Admitted || p.acquirers[a] == Dialing || p.acquirers[a] == Connected)
  }

  /**
   While the breaker is open it admits nobody: until 30 seconds after it opened, and as long as none of
   the dials already under way succeeds, nobody new gets through, whatever the interleaving; further
   failures only push the end of the wait back.
   */
  lemma {:induction false} OpenBreakerAdmitsNobody(p: Pool, steps: seq<Step>)
    requires p.breaker.state == Open && p.breaker.openedAt.Some? && p.breaker.openedAt.value <= p.now
    requires p.breaker.failures >= OPEN_THRESHOLD
    requires Possible(p, steps) && forall i :: 0 <= i < |steps| ==> !steps[i].DialSucceeds?
    requires Exec(p, steps).now < p.breaker.openedAt.value + 30_000
    ensures var q := Exec(p, steps);
            && Through(q) <= Through(p) && q.breaker.state == Open
            && q.breaker.openedAt.Some? && p.breaker.openedAt.value <= q.breaker.openedAt.value
    decreases |steps|
  {
    if steps == [] {
    } else {
      TimePasses(Apply(p, steps[0]), steps[1..]);
      assert !steps[0].DialSucceeds?;
      OpenBreakerAdmitsNobody(Apply(p, steps[0]), steps[1..]);
    }
  }

  lemma {:induction false} TimePasses(p: Pool, steps: seq<Step>)
    requires Possible(p, steps)
    ensures p.now <= Exec(p, steps).now
    decreases |steps|
  {
    if steps == [] {
    } else {
      TimePasses(Apply(p, steps[0]), steps[1..]);
    }
  }

  // ---- How many trials a half-open breaker allows ----

  /** The acquires that are dialing. */
  function Trials(p: Pool): set<Acquirer> {
    set a | a in p.acquirers && p.acquirers[a] == Dialing
  }

  /** A run grown by one step. */
  lemma Extend(origin: Pool, steps: seq<Step>, p: Pool, step: Step) returns (longer: seq<Step>, q: Pool)
    requires Possible(origin, steps) && p == Exec(origin, steps) && Enabled(p, step)
    ensures longer == steps + [step] && q == Apply(p, step)
    ensures Possible(origin, longer) && q == Exec(origin, longer)
  {
    longer, q := steps + [step], Apply(p, step);
    ExtendFrom(origin, steps, step);
  }

  lemma {:induction false} ExtendFrom(p: Pool, steps: seq<Step>, step: Step)
    requires Possible(p, steps) && Enabled(Exec(p, steps), step)
    ensures Possible(p, steps + [step]) && Exec(p, steps + [step]) == Apply(Exec(p, steps), step)
    decreases |steps|
  {
    hide Apply, Enabled;
    if steps == [] {
      assert (steps + [step])[1..] == [];
    } else {
      ExtendFrom(Apply(p, steps[0]), steps[1..], step);
      assert (steps + [step])[1..] == steps[1..] + [step];
    }
  }

  /** Nobody holds a permit and acquirers from `n` on are still to come. */
  ghost predicate Quiet(poolSize: nat, p: Pool, n: nat) {
    p.permits == Size(poolSize) && forall a :: a in p.acquirers ==> a < n && p.acquirers[a] == Finished
  }

  /** The first `n` acquires fail, one after the other. */
  lemma {:induction false} FailingAcquires(poolSize: nat, start: Time, n: nat) returns (steps: seq<Step>, p: Pool)
    requires n <= OPEN_THRESHOLD
    ensures Possible(Init(poolSize, start), steps) && p == Exec(Init(poolSize, start), steps)
    ensures Quiet(poolSize, p, n) && p.now == start && p.breaker.failures == n
    ensures if n < OPEN_THRESHOLD then p.breaker.state == Closed
            else p.breaker.state == Open && p.breaker.openedAt == Some(start)
    decreases n
  {
    var origin := Init(poolSize, start);
    if n == 0 {
      return [], origin;
    }
    steps, p := FailingAcquires(poolSize, start, n - 1);
    var a := n - 1;
    steps, p := Extend(origin, steps, p, Begin(a));
    steps, p := Extend(origin, steps, p, Ask(a));
    steps, p := Extend(origin, steps, p, TakePermit(a));
    steps, p := Extend(origin, steps, p, DialFails(a));
  }

  /** Once the probe interval is over, `n` acquires get through and dial at the same time. */
  lemma {:induction false} ConcurrentTrials(poolSize: nat, start: Time, n: nat) returns (steps: seq<Step>, p: Pool)
    requires 1 <= n <= Size(poolSize)
    ensures Possible(Init(poolSize, start), steps) && p == Exec(Init(poolSize, start), steps)
    ensures p.breaker.state == HalfOpen && |Trials(p)| == n && p.permits == Size(poolSize) - n
    ensures forall a :: a in p.acquirers ==> a < OPEN_THRESHOLD + n
    decreases n
  {
    var origin := Init(poolSize, start);
    if n == 1 {
      steps, p := FailingAcquires(poolSize, start, OPEN_THRESHOLD);
      assert Trials(p) == {};
      steps, p := Extend(origin, steps, p, Tick(30_000));
    } else {
      steps, p := ConcurrentTrials(poolSize, start, n - 1);
    }
    var a, before := OPEN_THRESHOLD + n - 1, Trials(p);
    steps, p := Extend(origin, steps, p, Begin(a));
    steps, p := Extend(origin, steps, p, Ask(a));
    steps, p := Extend(origin, steps, p, TakePermit(a));
    assert Trials(p) == before + {a};
  }

  /** While the breaker is half open, at most `m` acquires dial. */
  ghost predicate TrialsWithin(p: Pool, m: nat) {
    p.breaker.state == HalfOpen ==> |Trials(p)| <= m
  }

  lemma TrialsHoldPermits(p: Pool)
    ensures |Trials(p)| <= |Users(p.acquirers)|
  {
    SubsetIsSmaller(Trials(p), Users(p.acquirers));
  }

  lemma {:induction false} SubsetIsSmaller(small: set<Acquirer>, large: set<Acquirer>)
    requires small <= large
    ensures |small| <= |large|
    decreases |small|
  {
    if small == {} {
    } else {
      var a :| a in small;
      SubsetIsSmaller(small - {a}, large - {a});
    }
  }

  /**
   The half-open breaker admits whoever asks: the number of simultaneous trials is bounded by the pool
   size and by nothing smaller. A single trial is guaranteed exactly when the pool holds one connection.
   */
  lemma HalfOpenTrialsExact(poolSize: nat, start: Time, m: nat)
    ensures (forall steps ::
               Possible(Init(poolSize, start), steps) ==> TrialsWithin(Exec(Init(poolSize, start), steps), m))
            <==> Size(poolSize) <= m
  {
    hide Possible, Exec, Trials, Users;
    if Size(poolSize) <= m {
      forall steps | Possible(Init(poolSize, start), steps)
        ensures TrialsWithin(Exec(Init(poolSize, start), steps), m)
      {
        PoolRunsSound(poolSize, start, steps);
        TrialsHoldPermits(Exec(Init(poolSize, start), steps));
      }
    } else {
      var steps, p := ConcurrentTrials(poolSize, start, Size(poolSize));
      assert !TrialsWithin(Exec(Init(poolSize, start), steps), m);
    }
  }

  // ---- Failures in a row ----

  /** How many dials have failed since one last succeeded. */
  function InARow(steps: seq<Step>): nat {
    if steps == [] then 0
    else
      match steps[|steps| - 1]
      case DialSucceeds(_) => 0
      case DialFails(_) => InARow(steps[..|steps| - 1]) + 1
      case _ => InARow(steps[..|steps| - 1])
  }

  function Pow2(n: nat): nat {
    if n == 0 then 1 else 2 * Pow2(n - 1)
  }

  /** The backoff after `n` failures in a row: it doubles from the fifth on, up to the cap. */
  function BackoffAfter(n: nat): nat {
    if n < 5 then 500 else if 500 * Pow2(n - 4) < 60_000 then 500 * Pow2(n - 4) else 60_000
  }

  lemma {:induction false} SplitLast(p: Pool, steps: seq<Step>)
    requires Possible(p, steps) && steps != []
    ensures var init, last := steps[..|steps| - 1], steps[|steps| - 1];
            && Possible(p, init) && Enabled(Exec(p, init), last) && Exec(p, steps) == Apply(Exec(p, init), last)
    decreases |steps|
  {
    hide Apply, Enabled;
    if |steps| == 1 {
      assert steps[..0] == [] && steps[1..] == [];
    } else {
      SplitLast(Apply(p, steps[0]), steps[1..]);
      var init := steps[..|steps| - 1];
      assert steps[1..][..|steps| - 2] == init[1..];
    }
  }

  lemma BackoffNext(b: BreakerState, now: Time)
    requires b.backoff == BackoffAfter(b.failures)
    ensures Failed(b, now).failures == b.failures + 1 && Failed(b, now).backoff == BackoffAfter(b.failures + 1)
  {
    if b.failures >= 5 {
      assert Pow2(b.failures - 3) == 2 * Pow2(b.failures - 4);
    }
  }

  /** In every interleaving the breaker counts the failures in a row, and its backoff follows from the count. */
  lemma {:induction false} CountsInARow(poolSize: nat, start: Time, steps: seq<Step>)
    requires Possible(Init(poolSize, start), steps)
    ensures var b := Exec(Init(poolSize, start), steps).breaker;
            b.failures == InARow(steps) && b.backoff == BackoffAfter(b.failures)
    decreases |steps|
  {
    if steps == [] {
    } else {
      var init, last := steps[..|steps| - 1], steps[|steps| - 1];
      SplitLast(Init(poolSize, start), steps);
      hide Possible, Exec;
      CountsInARow(poolSize, start, init);
      var p := Exec(Init(poolSize, start), init);
      BackoffNext(p.breaker, p.now);
      hide Failed, Pow2;
    }
  }

  // ---- Failover dial ----

  /** `OutOfBounds` is the panic of indexing an empty list of URLs. */
  datatype DialResult = Connection(url: nat) | DialError(lastTried: nat) | OutOfBounds

  /** The position tried at the given offset, from where the round robin stands. */
  function Position(start: nat, offset: nat, total: nat): nat
    requires total > 0
  {
    (start + offset) % total
  }

  lemma MulBound(total: nat, d: int)
    requires d != 0
    ensures total * d >= total || total * d + total <= 0
  {
  }

  lemma ModShift(m: nat, k: nat, total: nat)
    requires k < total
    ensures (total * m + k) % total == k
  {
    var n := total * m + k;
    var q, r := n / total, n % total;
    assert total * (q - m) == k - r;
    if q != m {
      MulBound(total, q - m);
    }
  }

  /** The rotation without the modulus: onwards from the start, then round to the beginning. */
  lemma PositionIs(start: nat, offset: nat, total: nat)
    requires offset < total
    ensures var at := start % total;
            Position(start, offset, total) == if at + offset < total then at + offset else at + offset - total
  {
    var at, m := start % total, start / total;
    assert start == total * m + at;
    if at + offset < total {
      ModShift(m, at + offset, total);
    } else {
      ModShift(m + 1, at + offset - total, total);
      assert total * (m + 1) == total * m + total;
    }
  }

  lemma SamePosition(cursor: nat, offset: nat, total: nat)
    requires offset < total
    ensures Position(cursor % total, offset, total) == Position(cursor, offset, total)
  {
    PositionIs(cursor, offset, total);
    PositionIs(cursor % total, offset, total);
    ModShift(0, cursor % total, total);
  }

  /** Every position comes up at one of the offsets. */
  lemma PositionsCover(start: nat, total: nat, u: nat) returns (offset: nat)
    requires u < total
    ensures offset < total && Position(start, offset, total) == u
  {
    var at := start % total;
    offset := if at <= u then u - at else u + total - at;
    PositionIs(start, offset, total);
  }

  /** The round-robin cursor; it wraps at 64 bits. */
  class Dialer {
    var cursor: nat

    constructor ()
      ensures cursor == 0
    {
      cursor := 0;
    }

    /**
     Try every URL once, beginning where the cursor stands, until one answers. `answers(i, u)` says
     whether URL number `u` answers at the i-th try.
     */
    method Dial(urls: nat, answers: (nat, nat) -> bool) returns (r: DialResult, tried: seq<nat>)
      modifies this
      ensures cursor == (old(cursor) + 1) % 0x1_0000_0000_0000_0000
      ensures |tried| <= urls && NoDuplicates(tried)
      ensures forall i :: 0 <= i < |tried| ==> tried[i] == Position(old(cursor), i, urls)
      ensures forall i :: 0 <= i < |tried| - 1 ==> !answers(i, tried[i])
      ensures r.OutOfBounds? <==> urls == 0
      ensures urls > 0 ==> tried != [] && (r.Connection? <==> answers(|tried| - 1, tried[|tried| - 1]))
      ensures r.Connection? ==> r.url == tried[|tried| - 1]
      ensures r.DialError? ==> |tried| == urls && r.lastTried == tried[urls - 1]
                               && forall u :: 0 <= u < urls ==> u in tried
    {
      var total := if urls < 1 then 1 else urls;
      hide Position;
      var start := cursor % total;
      cursor := (cursor + 1) % 0x1_0000_0000_0000_0000;
      tried := [];
      if urls == 0 {
        return OutOfBounds, tried;
      }
      for offset := 0 to total
        invariant cursor == (old(cursor) + 1) % 0x1_0000_0000_0000_0000 && |tried| == offset
        invariant forall i :: 0 <= i < offset ==> tried[i] == Position(old(cursor), i, total)
        invariant forall i :: 0 <= i < offset ==> !answers(i, tried[i])
      {
        var url := Position(start, offset, total);
        SamePosition(old(cursor), offset, total);
        tried := tried + [url];
        if answers(offset, url) {
          AllDistinct(old(cursor), tried, total);
          return Connection(url), tried;
        }
      }
      AllDistinct(old(cursor), tried, total);
      forall u | 0 <= u < total
        ensures u in tried
      {
        var offset := PositionsCover(old(cursor), total, u);
        assert tried[offset] == u;
      }
      r := DialError(tried[total - 1]);
    }
  }

  lemma AllDistinct(start: nat, tried: seq<nat>, total: nat)
    requires 0 < |tried| <= total && forall i :: 0 <= i < |tried| ==> tried[i] == Position(start, i, total)
    ensures NoDuplicates(tried)
  {
    forall i, j | 0 <= i < j < |tried|
      ensures tried[i] != tried[j]
    {
      PositionIs(start, i, total);
      PositionIs(start, j, total);
    }
  }
}
