/**
 The single-flight coalescer as a protocol of atomic steps, interleaved over any number of callers.

 A caller looks in the cache; on a miss it enters the registry, which makes it the leader of a new
 channel or a waiter on the one that is there. A leader loads, sends, exits and puts, in that order;
 a waiter receives. A channel is closed only when nobody holds a sender for it: the registry, the
 leader until it returns, and every waiter until it returns, because a waiter keeps the sender that
 `enter` handed it.

 A call may be dropped wherever it awaits: at its lookup, in the loader, at the store or at the
 receive. A leader dropped in its loader never exits, so its registry entry stays.
 */
module SingleFlight {
  import opened Prelude

  type Key = string
  type Value = nat
  type Bytes = seq<nat>
  type Payload = Result<Bytes, string>
  type Outcome = Result<Value, string>
  type Caller = nat
  type Channel = nat

  /** Serialization of cached values, both ways; either way may fail. */
  datatype Codec = Codec(encode: Value -> Payload, decode: Bytes -> Outcome)

  /** What the leader broadcasts for a loader result. */
  function Wire(codec: Codec, loaded: Outcome): Payload {
    match loaded
    case Ok(v) => codec.encode(v)
    case Err(e) => Err(e)
  }

  /** What a waiter makes of a payload. */
  function Unwire(codec: Codec, payload: Payload): Outcome {
    match payload
    case Ok(bytes) => codec.decode(bytes)
    case Err(e) => Err(e)
  }

  /** `get`: a stored entry that does not decode counts as a miss. */
  function Lookup(codec: Codec, cache: map<Key, Bytes>, key: Key): Option<Value> {
    if key in cache && codec.decode(cache[key]).Ok? then Some(codec.decode(cache[key]).value) else None
  }

  /** `put`: a value that does not encode is not stored. */
  function Stored(codec: Codec, cache: map<Key, Bytes>, key: Key, loaded: Outcome): map<Key, Bytes> {
    if loaded.Ok? && codec.encode(loaded.value).Ok? then cache[key := codec.encode(loaded.value).value] else cache
  }

  datatype Phase =
    | Calling(key: Key)
    | Missed(key: Key)
    | Leading(key: Key, channel: Channel)
    | Loaded(key: Key, channel: Channel, loaded: Outcome)
    | Sent(key: Key, channel: Channel, loaded: Outcome)
    | Exited(key: Key, channel: Channel, loaded: Outcome)
    | Waiting(key: Key, channel: Channel, from: nat)
    | ReturnedHit(key: Key, value: Value)
    | ReturnedLeader(key: Key, channel: Channel, loaded: Outcome)
    | ReturnedWaiter(key: Key, channel: Channel, from: nat, outcome: Outcome)
    | Abandoned(key: Key, channel: Channel)
    | Unstored(key: Key, channel: Channel, loaded: Outcome)
    | Gone(key: Key)

  /** A broadcast channel: who opened it, for which key, and every message sent on it. */
  datatype Broadcast = Broadcast(leader: Caller, key: Key, sent: seq<Payload>)

  datatype Shared = Shared(
    cache: map<Key, Bytes>,
    registry: map<Key, Channel>,
    channels: map<Channel, Broadcast>,
    callers: map<Caller, Phase>
  )

  datatype Step =
    | Call(c: Caller, key: Key)
    | Get(c: Caller)
    | Enter(c: Caller, fresh': Channel)
    | Load(c: Caller, result: Outcome)
    | Send(c: Caller)
    | Exit(c: Caller)
    | Put(c: Caller)
    | Receive(c: Caller)
    | ReceiveClosed(c: Caller)
    | Cancel(c: Caller)
    | Evict(cache: map<Key, Bytes>)

  function Init(cache: map<Key, Bytes>): Shared {
    Shared(cache, map[], map[], map[])
  }

  /** A caller still holds a sender for `ch`. */
  predicate Holds(p: Phase, ch: Channel) {
    (p.Leading? || p.Loaded? || p.Sent? || p.Exited? || p.Waiting?) && p.channel == ch
  }

  predicate Closed(s: Shared, ch: Channel) {
    && (forall k :: k in s.registry ==> s.registry[k] != ch)
    && (forall c :: c in s.callers ==> !Holds(s.callers[c], ch))
  }

  predicate In(s: Shared, c: Caller) {
    c in s.callers
  }

  /** The caller is at an await, where its call can be dropped. */
  predicate Awaits(p: Phase) {
    p.Calling? || p.Leading? || p.Exited? || p.Waiting?
  }

  /** What is left of a dropped call. */
  function Dropped(p: Phase): Phase {
    match p
    case Leading(key, ch) => Abandoned(key, ch)
    case Exited(key, ch, loaded) => Unstored(key, ch, loaded)
    case _ => Gone(p.key)
  }

  predicate Enabled(s: Shared, step: Step) {
    match step
    case Call(c, _) => !In(s, c)
    case Get(c) => In(s, c) && s.callers[c].Calling?
    case Enter(c, ch) => In(s, c) && s.callers[c].Missed? && ch !in s.channels
    case Load(c, _) => In(s, c) && s.callers[c].Leading?
    case Send(c) => In(s, c) && s.callers[c].Loaded? && s.callers[c].channel in s.channels
    case Exit(c) => In(s, c) && s.callers[c].Sent?
    case Put(c) => In(s, c) && s.callers[c].Exited?
    case Receive(c) =>
      && In(s, c) && s.callers[c].Waiting? && s.callers[c].channel in s.channels
      && s.callers[c].from < |s.channels[s.callers[c].channel].sent|
    case ReceiveClosed(c) =>
      && In(s, c) && s.callers[c].Waiting? && s.callers[c].channel in s.channels
      && s.callers[c].from >= |s.channels[s.callers[c].channel].sent|
      && Closed(s, s.callers[c].channel)
    case Cancel(c) => In(s, c) && Awaits(s.callers[c])
    case Evict(_) => true
  }

  function Become(s: Shared, c: Caller, p: Phase): Shared {
    s.(callers := s.callers[c := p])
  }

  function Apply(codec: Codec, s: Shared, step: Step): Shared
    requires Enabled(s, step)
  {
    match step
    case Call(c, key) => Become(s, c, Calling(key))
    case Get(c) =>
      var key := s.callers[c].key;
      var hit := Lookup(codec, s.cache, key);
      Become(s, c, if hit.Some? then ReturnedHit(key, hit.value) else Missed(key))
    case Enter(c, ch) =>
      var key := s.callers[c].key;
      if key in s.registry then
        var there := s.registry[key];
        Become(s, c, Waiting(key, there, if there in s.channels then |s.channels[there].sent| else 0))
      else
        Become(s.(registry := s.registry[key := ch], channels := s.channels[ch := Broadcast(c, key, [])]),
               c, Leading(key, ch))
    case Load(c, result) => Become(s, c, Loaded(s.callers[c].key, s.callers[c].channel, result))
    case Send(c) =>
      var p := s.callers[c];
      var b := s.channels[p.channel];
      Become(s.(channels := s.channels[p.channel := b.(sent := b.sent + [Wire(codec, p.loaded)])]),
             c, Sent(p.key, p.channel, p.loaded))
    case Exit(c) =>
      var p := s.callers[c];
      Become(s.(registry := s.registry - {p.key}), c, Exited(p.key, p.channel, p.loaded))
    case Put(c) =>
      var p := s.callers[c];
      Become(s.(cache := Stored(codec, s.cache, p.key, p.loaded)),
             c, ReturnedLeader(p.key, p.channel, p.loaded))
    case Receive(c) =>
      var p := s.callers[c];
      Become(s, c, ReturnedWaiter(p.key, p.channel, p.from, Unwire(codec, s.channels[p.channel].sent[p.from])))
    case ReceiveClosed(c) =>
      var p := s.callers[c];
      var hit := Lookup(codec, s.cache, p.key);
      Become(s, c, ReturnedWaiter(p.key, p.channel, p.from,
        if hit.Some? then Ok(hit.value) else Err("coalesced leader produced no value")))
    case Cancel(c) => Become(s, c, Dropped(s.callers[c]))
    case Evict(cache) => s.(cache := cache)
  }

  // ---- The invariant ----

  /** Between enter and exit a leader owns its key's registry entry. */
  predicate InFlight(p: Phase) {
    p.Leading? || p.Loaded? || p.Sent?
  }

  /** A leader owns the entry for good if it was dropped in its loader. */
  predicate Registers(p: Phase) {
    InFlight(p) || p.Abandoned?
  }

  predicate Leads(p: Phase) {
    Registers(p) || HasExited(p)
  }

  predicate HasExited(p: Phase) {
    p.Exited? || p.ReturnedLeader? || p.Unstored?
  }

  predicate HasSent(p: Phase) {
    p.Sent? || HasExited(p)
  }

  /** The registry entry for `k` belongs to one caller: the leader of that channel. */
  predicate EntryExact(s: Shared, k: Key) {
    k in s.registry ==>
      && s.registry[k] in s.channels
      && var leader := s.channels[s.registry[k]].leader;
      && In(s, leader) && Registers(s.callers[leader])
      && s.callers[leader].key == k && s.callers[leader].channel == s.registry[k]
  }

  /** A leader opened its own channel, sent its own result on it once, and is registered until it exits. */
  predicate LeaderExact(codec: Codec, s: Shared, c: Caller) {
    In(s, c) && Leads(s.callers[c]) ==>
      var p := s.callers[c];
      && p.channel in s.channels
      && s.channels[p.channel] == Broadcast(c, p.key, if HasSent(p) then [Wire(codec, p.loaded)] else [])
      && (Registers(p) ==> p.key in s.registry && s.registry[p.key] == p.channel)
  }

  predicate ChannelExact(s: Shared, ch: Channel) {
    ch in s.channels ==>
      var leader := s.channels[ch].leader;
      In(s, leader) && Leads(s.callers[leader]) && s.callers[leader].channel == ch
  }

  predicate Follows(p: Phase) {
    p.Waiting? || p.ReturnedWaiter?
  }

  /** A waiter that has returned subscribed before the send and made its result from that message. */
  predicate WaiterExact(codec: Codec, s: Shared, c: Caller) {
    In(s, c) && Follows(s.callers[c]) ==>
      var p := s.callers[c];
      && p.channel in s.channels && s.channels[p.channel].key == p.key
      && p.from <= |s.channels[p.channel].sent|
      && (p.ReturnedWaiter? ==>
            && p.from == 0 && s.channels[p.channel].sent != []
            && p.outcome == Unwire(codec, s.channels[p.channel].sent[0]))
  }

  ghost predicate Inv(codec: Codec, s: Shared) {
    && (forall k: Key :: EntryExact(s, k))
    && (forall c: Caller :: LeaderExact(codec, s, c))
    && (forall ch: Channel :: ChannelExact(s, ch))
    && (forall c: Caller :: WaiterExact(codec, s, c))
  }

  /** A waiter holds a sender of its own channel, so the closed branch of `recv` is never taken. */
  lemma NeverClosed(s: Shared, c: Caller)
    requires In(s, c) && s.callers[c].Waiting?
    ensures !Enabled(s, ReceiveClosed(c))
  {
    assert Holds(s.callers[c], s.callers[c].channel);
  }

  lemma KeepsEntries(codec: Codec, s: Shared, step: Step, k: Key)
    requires Inv(codec, s) && Enabled(s, step)
    ensures EntryExact(Apply(codec, s, step), k)
  {
    hide Inv, Wire, Unwire, Lookup, Stored, Closed;
    assert EntryExact(s, k) by { InvAt(codec, s, k, 0, 0); }
    match step {
      case Enter(c, ch) =>
      case Exit(c) => InvAt(codec, s, k, c, 0);
      case Send(c) => InvAt(codec, s, k, c, 0);
      case Load(c, _) => InvAt(codec, s, k, c, 0);
      case _ =>
    }
  }

  lemma InvAt(codec: Codec, s: Shared, k: Key, c: Caller, ch: Channel)
    requires Inv(codec, s)
    ensures EntryExact(s, k) && LeaderExact(codec, s, c) && ChannelExact(s, ch) && WaiterExact(codec, s, c)
  {
  }

  lemma OthersKeepLeader(codec: Codec, s: Shared, step: Step, c: Caller)
    requires Inv(codec, s) && Enabled(s, step) && (step.Evict? || step.c != c)
    ensures LeaderExact(codec, Apply(codec, s, step), c)
  {
    hide Inv, Wire, Unwire;
    InvAt(codec, s, "", c, 0);
    if step.Exit? || step.Send? {
      InvAt(codec, s, "", step.c, 0);
    }
  }

  lemma KeepsLeaders(codec: Codec, s: Shared, step: Step, c: Caller)
    requires Inv(codec, s) && Enabled(s, step)
    ensures LeaderExact(codec, Apply(codec, s, step), c)
  {
    hide Inv, Wire, Unwire;
    if step.Evict? || step.c != c {
      OthersKeepLeader(codec, s, step, c);
    } else {
      InvAt(codec, s, "", c, 0);
    }
  }

  lemma KeepsChannels(codec: Codec, s: Shared, step: Step, ch: Channel)
    requires Inv(codec, s) && Enabled(s, step)
    ensures ChannelExact(Apply(codec, s, step), ch)
  {
    hide Inv, Wire, Unwire, Lookup, Stored, Closed;
    InvAt(codec, s, "", 0, ch);
  }

  lemma KeepsWaiters(codec: Codec, s: Shared, step: Step, c: Caller)
    requires Inv(codec, s) && Enabled(s, step)
    ensures WaiterExact(codec, Apply(codec, s, step), c)
  {
    hide Inv, Wire, Unwire, Lookup, Stored, Closed;
    InvAt(codec, s, "", c, 0);
    match step {
      case Enter(d, ch) =>
        var key := s.callers[d].key;
        InvAt(codec, s, key, c, 0);
        if key in s.registry {
          InvAt(codec, s, key, s.channels[s.registry[key]].leader, 0);
        }
      case Send(d) => InvAt(codec, s, "", d, 0);
      case Receive(d) =>
        InvAt(codec, s, "", d, s.callers[d].channel);
        InvAt(codec, s, "", s.channels[s.callers[d].channel].leader, 0);
      case ReceiveClosed(d) => NeverClosed(s, d);
      case _ =>
    }
  }

  /** Every step of every caller keeps the invariant. */
  lemma StepKeepsInv(codec: Codec, s: Shared, step: Step)
    requires Inv(codec, s) && Enabled(s, step)
    ensures Inv(codec, Apply(codec, s, step))
  {
    hide Apply, Enabled;
    forall k: Key { KeepsEntries(codec, s, step, k); }
    forall c: Caller { KeepsLeaders(codec, s, step, c); }
    forall c: Caller { KeepsWaiters(codec, s, step, c); }
    forall ch: Channel { KeepsChannels(codec, s, step, ch); }
  }

  // ---- Whole runs ----

  ghost predicate Possible(codec: Codec, s: Shared, steps: seq<Step>)
    decreases |steps|
  {
    steps == [] || (Enabled(s, steps[0]) && Possible(codec, Apply(codec, s, steps[0]), steps[1..]))
  }

  ghost function Exec(codec: Codec, s: Shared, steps: seq<Step>): Shared
    requires Possible(codec, s, steps)
    decreases |steps|
  {
    if steps == [] then s else Exec(codec, Apply(codec, s, steps[0]), steps[1..])
  }

  lemma {:induction false} RunKeepsInv(codec: Codec, s: Shared, steps: seq<Step>)
    requires Inv(codec, s) && Possible(codec, s, steps)
    ensures Inv(codec, Exec(codec, s, steps))
    decreases |steps|
  {
    hide Inv, Apply, Enabled;
    if steps == [] {
    } else {
      StepKeepsInv(codec, s, steps[0]);
      RunKeepsInv(codec, Apply(codec, s, steps[0]), steps[1..]);
    }
  }

  /** What a reader can rely on in a state. */
  ghost predicate Orderly(codec: Codec, s: Shared) {
    // A key is registered exactly while a caller for it has entered as leader and not exited,
    && (forall k :: k in s.registry <==> exists c :: c in s.callers && Registers(s.callers[c]) && s.callers[c].key == k)
    // and that caller is the only one.
    && (forall c, d :: c in s.callers && d in s.callers && SameFlight(s.callers[c], s.callers[d]) ==> c == d)
    // A channel carries at most one message.
    && (forall ch :: ch in s.channels ==> |s.channels[ch].sent| <= 1)
    // Whoever waited got its leader's result, as it came over the wire.
    && (forall c :: c in s.callers && s.callers[c].ReturnedWaiter? ==> ServedByLeader(codec, s, c))
  }

  predicate SameFlight(p: Phase, q: Phase) {
    Registers(p) && Registers(q) && p.key == q.key
  }

  ghost predicate ServedByLeader(codec: Codec, s: Shared, c: Caller)
    requires c in s.callers && s.callers[c].ReturnedWaiter?
  {
    exists leader :: leader in s.callers && HasSent(s.callers[leader])
      && s.callers[leader].key == s.callers[c].key && s.callers[leader].channel == s.callers[c].channel
      && s.callers[c].outcome == Unwire(codec, Wire(codec, s.callers[leader].loaded))
  }

  lemma InvOrderly(codec: Codec, s: Shared)
    requires Inv(codec, s)
    ensures Orderly(codec, s)
  {
    forall k | k in s.registry
      ensures exists c :: c in s.callers && Registers(s.callers[c]) && s.callers[c].key == k
    {
      assert EntryExact(s, k);
    }
    forall c | c in s.callers && Registers(s.callers[c])
      ensures s.callers[c].key in s.registry
      ensures s.registry[s.callers[c].key] in s.channels && s.channels[s.registry[s.callers[c].key]].leader == c
    {
      assert LeaderExact(codec, s, c);
    }
    forall ch | ch in s.channels
      ensures |s.channels[ch].sent| <= 1
    {
      assert ChannelExact(s, ch) && LeaderExact(codec, s, s.channels[ch].leader);
    }
    forall c | c in s.callers && s.callers[c].ReturnedWaiter?
      ensures ServedByLeader(codec, s, c)
    {
      assert WaiterExact(codec, s, c);
      var ch := s.callers[c].channel;
      assert ChannelExact(s, ch) && LeaderExact(codec, s, s.channels[ch].leader);
    }
  }

  /** Safety: every interleaving of any number of callers stays orderly. */
  lemma RunsAreOrderly(codec: Codec, cache: map<Key, Bytes>, steps: seq<Step>)
    requires Possible(codec, Init(cache), steps)
    ensures Orderly(codec, Exec(codec, Init(cache), steps))
  {
    RunKeepsInv(codec, Init(cache), steps);
    InvOrderly(codec, Exec(codec, Init(cache), steps));
  }

  ghost predicate NobodyAbandoned(s: Shared) {
    forall c :: c in s.callers ==> !s.callers[c].Abandoned?
  }

  lemma {:induction false} RunAbandonsNobody(codec: Codec, s: Shared, steps: seq<Step>)
    requires Possible(codec, s, steps) && NobodyAbandoned(s) && forall i :: 0 <= i < |steps| ==> !steps[i].Cancel?
    ensures NobodyAbandoned(Exec(codec, s, steps))
    decreases |steps|
  {
    if steps == [] {
    } else {
      assert !steps[0].Cancel?;
      RunAbandonsNobody(codec, Apply(codec, s, steps[0]), steps[1..]);
    }
  }

  /** If no call is dropped, a key is registered exactly while one caller for it is between enter and exit. */
  lemma CompletedRunsRegisterInFlight(codec: Codec, cache: map<Key, Bytes>, steps: seq<Step>, k: Key)
    requires Possible(codec, Init(cache), steps) && forall i :: 0 <= i < |steps| ==> !steps[i].Cancel?
    ensures var s := Exec(codec, Init(cache), steps);
            k in s.registry <==> exists c :: c in s.callers && InFlight(s.callers[c]) && s.callers[c].key == k
  {
    hide Possible, Exec;
    RunAbandonsNobody(codec, Init(cache), steps);
    RunsAreOrderly(codec, cache, steps);
  }

  /** With a codec that round-trips, a waiter returns its leader's own value. */
  lemma WaiterReturnsLeadersValue(codec: Codec, cache: map<Key, Bytes>, steps: seq<Step>, c: Caller)
    requires Possible(codec, Init(cache), steps)
    requires var s := Exec(codec, Init(cache), steps); c in s.callers && s.callers[c].ReturnedWaiter?
    requires RoundTrips(codec)
    ensures var s := Exec(codec, Init(cache), steps);
            exists leader :: leader in s.callers && HasSent(s.callers[leader])
              && s.callers[leader].key == s.callers[c].key && s.callers[leader].loaded == s.callers[c].outcome
  {
    RunsAreOrderly(codec, cache, steps);
    var s := Exec(codec, Init(cache), steps);
    assert ServedByLeader(codec, s, c);
  }

  /** Exit removes the registry entry this leader made, never somebody else's. */
  lemma ExitRemovesOwnEntry(codec: Codec, s: Shared, c: Caller)
    requires Inv(codec, s) && Enabled(s, Exit(c))
    ensures var p := s.callers[c];
            && p.key in s.registry && s.registry[p.key] == p.channel
            && p.channel in s.channels && s.channels[p.channel].leader == c
    ensures Apply(codec, s, Exit(c)).registry == s.registry - {s.callers[c].key}
  {
    InvAt(codec, s, "", c, 0);
  }

  // ---- Which callers return ----

  predicate HasReturned(p: Phase) {
    p.ReturnedHit? || p.ReturnedLeader? || p.ReturnedWaiter?
  }

  /** The leader of the channel was dropped in its loader and will never send. */
  predicate Silent(s: Shared, ch: Channel) {
    && ch in s.channels && In(s, s.channels[ch].leader)
    && s.callers[s.channels[ch].leader] == Abandoned(s.channels[ch].key, ch)
  }

  /** The entry for `k` was left behind by a leader that was dropped in its loader. */
  predicate Stranded(s: Shared, k: Key) {
    k in s.registry && Silent(s, s.registry[k])
  }

  /**
   Dropped; or waiting for a message that has gone or will never come; or about to wait for one.
   */
  predicate Lost(s: Shared, c: Caller) {
    && In(s, c)
    && match s.callers[c]
       case Gone(_) => true
       case Waiting(_, ch, from) => from > 0 || Silent(s, ch)
       case Missed(key) => Stranded(s, key)
       case _ => false
  }

  lemma StepKeepsStranded(codec: Codec, s: Shared, step: Step, k: Key)
    requires Inv(codec, s) && Stranded(s, k) && Enabled(s, step)
    ensures Stranded(Apply(codec, s, step), k) && Apply(codec, s, step).registry[k] == s.registry[k]
  {
    hide Inv, Wire, Unwire;
    InvAt(codec, s, k, 0, s.registry[k]);
    if step.Send? || step.Exit? {
      InvAt(codec, s, k, step.c, 0);
    }
  }

  lemma StepKeepsSilent(codec: Codec, s: Shared, step: Step, ch: Channel)
    requires Inv(codec, s) && Silent(s, ch) && Enabled(s, step)
    ensures Silent(Apply(codec, s, step), ch)
  {
    hide Inv, Wire, Unwire;
    if step.Send? {
      InvAt(codec, s, "", step.c, 0);
    }
  }

  lemma SilentIsEmpty(codec: Codec, s: Shared, ch: Channel)
    requires Inv(codec, s) && Silent(s, ch)
    ensures s.channels[ch].sent == []
  {
    InvAt(codec, s, "", s.channels[ch].leader, ch);
  }

  /** A channel has carried at most its leader's one message. */
  lemma AtMostOneSent(codec: Codec, s: Shared, ch: Channel)
    requires Inv(codec, s) && ch in s.channels
    ensures |s.channels[ch].sent| <= 1
  {
    InvAt(codec, s, "", 0, ch);
    InvAt(codec, s, "", s.channels[ch].leader, ch);
  }

  lemma StepKeepsLost(codec: Codec, s: Shared, step: Step, c: Caller)
    requires Inv(codec, s) && Lost(s, c) && Enabled(s, step)
    ensures Lost(Apply(codec, s, step), c)
  {
    hide Inv, Wire, Unwire, Stranded, Silent;
    match s.callers[c] {
      case Waiting(_, ch, from) =>
        InvAt(codec, s, "", c, ch);
        AtMostOneSent(codec, s, ch);
        NeverClosed(s, c);
        if Silent(s, ch) {
          SilentIsEmpty(codec, s, ch);
          StepKeepsSilent(codec, s, step, ch);
        }
      case Missed(key) =>
        StepKeepsStranded(codec, s, step, key);
        StrandedIsSilent(s, key);
        StepKeepsSilent(codec, s, step, s.registry[key]);
      case _ =>
    }
  }

  lemma StrandedIsSilent(s: Shared, k: Key)
    requires Stranded(s, k)
    ensures k in s.registry && Silent(s, s.registry[k])
  {
  }

  /** Once lost, always lost: whatever anybody does, the caller never returns. */
  lemma {:induction false} LostNeverReturns(codec: Codec, s: Shared, c: Caller, steps: seq<Step>)
    requires Inv(codec, s) && Lost(s, c) && Possible(codec, s, steps)
    ensures Lost(Exec(codec, s, steps), c)
    decreases |steps|
  {
    hide Inv, Apply, Enabled, Lost;
    if steps == [] {
    } else {
      StepKeepsInv(codec, s, steps[0]);
      StepKeepsLost(codec, s, steps[0], c);
      LostNeverReturns(codec, Apply(codec, s, steps[0]), c, steps[1..]);
    }
  }

  /** How many steps the leader of `c`'s channel is away from having sent. */
  ghost function StepsToSend(s: Shared, c: Caller): nat {
    if !In(s, c) || !s.callers[c].Waiting? || s.callers[c].channel !in s.channels then 0
    else
      var leader := s.channels[s.callers[c].channel].leader;
      if !In(s, leader) then 0 else if s.callers[leader].Leading? then 2 else if s.callers[leader].Loaded? then 1 else 0
  }

  lemma OneStep(codec: Codec, s: Shared, step: Step, rest: seq<Step>)
    requires Enabled(s, step) && Possible(codec, Apply(codec, s, step), rest)
    ensures Possible(codec, s, [step] + rest)
    ensures Exec(codec, s, [step] + rest) == Exec(codec, Apply(codec, s, step), rest)
  {
    hide Apply, Enabled;
    assert ([step] + rest)[1..] == rest;
  }

  /** A waiter that subscribed in time returns once its leader has sent. */
  lemma {:induction false} EarlyWaiterCanReturn(codec: Codec, s: Shared, c: Caller) returns (steps: seq<Step>)
    requires Inv(codec, s) && In(s, c) && s.callers[c].Waiting? && !Lost(s, c)
    ensures Possible(codec, s, steps) && ReturnsBy(codec, s, c, steps)
    decreases StepsToSend(s, c)
  {
    hide Inv;
    var ch := s.callers[c].channel;
    InvAt(codec, s, "", c, ch);
    var leader := s.channels[ch].leader;
    InvAt(codec, s, "", leader, ch);
    if HasSent(s.callers[leader]) {
      OneStep(codec, s, Receive(c), []);
      steps := [Receive(c)] + [];
    } else {
      var step := if s.callers[leader].Loaded? then Send(leader) else Load(leader, Err(""));
      StepKeepsInv(codec, s, step);
      var rest := EarlyWaiterCanReturn(codec, Apply(codec, s, step), c);
      OneStep(codec, s, step, rest);
      steps := [step] + rest;
    }
  }

  ghost predicate CanReturn(codec: Codec, s: Shared, c: Caller) {
    exists steps :: Possible(codec, s, steps) && ReturnsBy(codec, s, c, steps)
  }

  ghost predicate ReturnsBy(codec: Codec, s: Shared, c: Caller, steps: seq<Step>)
    requires Possible(codec, s, steps)
  {
    In(Exec(codec, s, steps), c) && HasReturned(Exec(codec, s, steps).callers[c])
  }

  lemma LostCannotReturn(codec: Codec, s: Shared, c: Caller)
    requires Inv(codec, s) && Lost(s, c)
    ensures !CanReturn(codec, s, c)
  {
    forall steps | Possible(codec, s, steps)
      ensures !ReturnsBy(codec, s, c, steps)
    {
      LostNeverReturns(codec, s, c, steps);
    }
  }

  /**
   A waiter can ever return if and only if it subscribed before its leader's send and its leader was not
   dropped in its loader. One that entered between send and exit waits for ever: its message has gone,
   and it keeps its own channel open.
   */
  lemma WaiterReturnsIffServed(codec: Codec, s: Shared, c: Caller)
    requires Inv(codec, s) && In(s, c) && s.callers[c].Waiting?
    ensures CanReturn(codec, s, c) <==> s.callers[c].from == 0 && !Silent(s, s.callers[c].channel)
  {
    hide Inv, Enabled, Apply, Exec, Possible, ReturnsBy;
    if Lost(s, c) {
      LostCannotReturn(codec, s, c);
    } else {
      var steps := EarlyWaiterCanReturn(codec, s, c);
    }
  }

  /**
   After a leader for `k` has been dropped in its loader, a later caller can return if and only if its
   lookup hits: the entry left behind makes every other caller wait for a message that never comes.
   */
  lemma StrandedKeyServesOnlyHits(codec: Codec, s: Shared, c: Caller)
    requires Inv(codec, s) && In(s, c) && s.callers[c].Calling? && Stranded(s, s.callers[c].key)
    ensures CanReturn(codec, Apply(codec, s, Get(c)), c) <==> Lookup(codec, s.cache, s.callers[c].key).Some?
  {
    hide Inv, Lookup, Stranded;
    var key := s.callers[c].key;
    var t := Apply(codec, s, Get(c));
    StepKeepsInv(codec, s, Get(c));
    StepKeepsStranded(codec, s, Get(c), key);
    if Lookup(codec, s.cache, key).Some? {
      assert Possible(codec, t, []) && ReturnsBy(codec, t, c, []);
    } else {
      LostCannotReturn(codec, t, c);
    }
  }

  /** A key can really be stranded: its leader is dropped in the loader while another caller comes in. */
  lemma StrandedReachable(codec: Codec, key: Key) returns (steps: seq<Step>, s: Shared)
    ensures Possible(codec, Init(map[]), steps) && s == Exec(codec, Init(map[]), steps)
    ensures Stranded(s, key) && In(s, 1) && s.callers[1] == Calling(key)
  {
    s := Init(map[]);
    steps := [];
    steps, s := Extend(codec, steps, s, Call(0, key));
    steps, s := Extend(codec, steps, s, Get(0));
    steps, s := Extend(codec, steps, s, Enter(0, 0));
    steps, s := Extend(codec, steps, s, Cancel(0));
    steps, s := Extend(codec, steps, s, Call(1, key));
  }

  // ---- How often a key is loaded ----

  predicate LoadsKey(s: Shared, step: Step, k: Key) {
    step.Load? && In(s, step.c) && s.callers[step.c].key == k
  }

  /** How many loads of `k` finish along a run. */
  ghost function Loads(codec: Codec, s: Shared, steps: seq<Step>, k: Key): nat
    requires Possible(codec, s, steps)
    decreases |steps|
  {
    if steps == [] then 0
    else (if LoadsKey(s, steps[0], k) then 1 else 0) + Loads(codec, Apply(codec, s, steps[0]), steps[1..], k)
  }

  /** The registrations of `k` whose leader has its loader's result. */
  ghost function LoadedChannels(s: Shared, k: Key): set<Channel> {
    set ch | ch in s.channels && s.channels[ch].key == k && In(s, s.channels[ch].leader)
             && (s.callers[s.channels[ch].leader].Loaded? || HasSent(s.callers[s.channels[ch].leader]))
  }

  lemma StepLoads(codec: Codec, s: Shared, step: Step, k: Key)
    requires Inv(codec, s) && Enabled(s, step)
    ensures |LoadedChannels(Apply(codec, s, step), k)|
            == |LoadedChannels(s, k)| + if LoadsKey(s, step, k) then 1 else 0
  {
    hide Inv, Apply, LoadedChannels;
    var t := Apply(codec, s, step);
    forall ch { StepLoadsAt(codec, s, step, k, ch); }
    if LoadsKey(s, step, k) {
      assert LoadedChannels(t, k) == LoadedChannels(s, k) + {s.callers[step.c].channel};
    } else {
      assert LoadedChannels(t, k) == LoadedChannels(s, k);
    }
  }

  lemma StepLoadsAt(codec: Codec, s: Shared, step: Step, k: Key, ch: Channel)
    requires Inv(codec, s) && Enabled(s, step)
    ensures var own := LoadsKey(s, step, k) && ch == s.callers[step.c].channel;
            && (ch in LoadedChannels(Apply(codec, s, step), k) <==> ch in LoadedChannels(s, k) || own)
            && (own ==> ch !in LoadedChannels(s, k))
  {
    hide Inv, Wire, Unwire, Lookup, Stored;
    InvAt(codec, s, k, if step.Evict? then 0 else step.c, ch);
  }

  lemma {:induction false} RunLoads(codec: Codec, s: Shared, steps: seq<Step>, k: Key)
    requires Inv(codec, s) && Possible(codec, s, steps)
    ensures |LoadedChannels(Exec(codec, s, steps), k)| == |LoadedChannels(s, k)| + Loads(codec, s, steps, k)
    decreases |steps|
  {
    hide Inv, Apply, Enabled, LoadedChannels, LoadsKey;
    if steps == [] {
    } else {
      StepKeepsInv(codec, s, steps[0]);
      StepLoads(codec, s, steps[0], k);
      RunLoads(codec, Apply(codec, s, steps[0]), steps[1..], k);
    }
  }

  /** Loads are one per registration: along every run, as many as there are loaded channels for the key. */
  lemma OneLoadPerRegistration(codec: Codec, cache: map<Key, Bytes>, steps: seq<Step>, k: Key)
    requires Possible(codec, Init(cache), steps)
    ensures Loads(codec, Init(cache), steps, k) == |LoadedChannels(Exec(codec, Init(cache), steps), k)|
  {
    assert LoadedChannels(Init(cache), k) == {};
    RunLoads(codec, Init(cache), steps, k);
  }

  ghost predicate RoundTrips(codec: Codec) {
    forall v: Value :: codec.encode(v).Ok? && codec.decode(codec.encode(v).value) == Ok(v)
  }

  ghost predicate MissedBy(s: Shared, c: Caller, k: Key) {
    In(s, c) && s.callers[c] == Missed(k)
  }

  /** The key is stored, and nobody is on the way to loading it. */
  ghost predicate Settled(codec: Codec, s: Shared, k: Key) {
    && Lookup(codec, s.cache, k).Some? && k !in s.registry
    && (forall c :: !MissedBy(s, c, k))
  }

  lemma StepKeepsSettled(codec: Codec, s: Shared, step: Step, k: Key)
    requires RoundTrips(codec) && Inv(codec, s) && Settled(codec, s, k) && Enabled(s, step) && !step.Evict?
    ensures Settled(codec, Apply(codec, s, step), k) && !LoadsKey(s, step, k)
  {
    hide Inv, Wire, Unwire;
    var t := Apply(codec, s, step);
    InvAt(codec, s, k, step.c, 0);
    assert step.Enter? ==> !MissedBy(s, step.c, k);
    forall c
      ensures !MissedBy(t, c, k)
    {
      assert !MissedBy(s, c, k);
    }
  }

  ghost predicate NoEviction(steps: seq<Step>) {
    forall i :: 0 <= i < |steps| ==> !steps[i].Evict?
  }

  lemma {:induction false} SettledNeverLoads(codec: Codec, s: Shared, steps: seq<Step>, k: Key)
    requires RoundTrips(codec) && Inv(codec, s) && Settled(codec, s, k)
    requires Possible(codec, s, steps) && NoEviction(steps)
    ensures Loads(codec, s, steps, k) == 0
    decreases |steps|
  {
    hide Inv, Apply, Enabled, Settled, LoadsKey, RoundTrips;
    if steps == [] {
    } else {
      assert !steps[0].Evict?;
      StepKeepsInv(codec, s, steps[0]);
      StepKeepsSettled(codec, s, steps[0], k);
      SettledNeverLoads(codec, Apply(codec, s, steps[0]), steps[1..], k);
    }
  }

  ghost predicate LoadsAgain(codec: Codec, s: Shared, steps: seq<Step>, k: Key)
    requires Possible(codec, s, steps)
  {
    NoEviction(steps) && Loads(codec, s, steps, k) > 0
  }

  lemma MissedCanLoad(codec: Codec, s: Shared, c: Caller, k: Key) returns (steps: seq<Step>)
    requires Inv(codec, s) && MissedBy(s, c, k) && k !in s.registry
    ensures Possible(codec, s, steps) && LoadsAgain(codec, s, steps, k)
  {
    var ch := FreshChannel(s.channels.Keys);
    var t := Apply(codec, s, Enter(c, ch));
    OneStep(codec, t, Load(c, Err("")), []);
    OneStep(codec, s, Enter(c, ch), [Load(c, Err(""))] + []);
    steps := [Enter(c, ch)] + ([Load(c, Err(""))] + []);
    assert steps[1..] == [Load(c, Err(""))] + [] && steps[1..][1..] == [];
    assert LoadsKey(t, steps[1..][0], k);
  }

  lemma {:induction false} FreshChannel(taken: set<Channel>) returns (top: Channel)
    ensures forall ch :: ch in taken ==> ch < top
    decreases |taken|
  {
    if taken == {} {
      return 0;
    }
    var ch :| ch in taken;
    var rest := FreshChannel(taken - {ch});
    top := if ch < rest then rest else ch + 1;
    assert forall x :: x in taken ==> x == ch || x in taken - {ch};
  }

  /**
   When a key is loaded once per miss. With the key stored and nobody registered for it, some continuation
   without eviction loads it again if and only if some caller missed before the key was stored.
   */
  lemma LoadsAgainIffMissed(codec: Codec, s: Shared, k: Key)
    requires RoundTrips(codec) && Inv(codec, s) && Lookup(codec, s.cache, k).Some? && k !in s.registry
    ensures (exists steps :: Possible(codec, s, steps) && LoadsAgain(codec, s, steps, k))
            <==> exists c :: MissedBy(s, c, k)
  {
    hide Inv, Apply, Enabled, Loads, Possible, RoundTrips, MissedBy;
    if c :| MissedBy(s, c, k) {
      var steps := MissedCanLoad(codec, s, c, k);
    } else {
      forall steps | Possible(codec, s, steps)
        ensures !LoadsAgain(codec, s, steps, k)
      {
        if NoEviction(steps) {
          SettledNeverLoads(codec, s, steps, k);
        }
      }
    }
  }

  /**
   Not one per miss: a caller that missed before its leader put becomes a second leader once the first has
   exited, with no eviction in between.
   */
  lemma SecondLoadBeforePut(codec: Codec, key: Key, first: Outcome, second: Outcome)
    returns (steps: seq<Step>, s: Shared)
    ensures Possible(codec, Init(map[]), steps) && s == Exec(codec, Init(map[]), steps) && NoEviction(steps)
    ensures {0, 1} <= s.callers.Keys && s.callers[0] == Exited(key, 0, first) && s.callers[1] == Loaded(key, 1, second)
  {
    steps, s := MissWhileSent(codec, key, first);
    steps, s := Extend(codec, steps, s, Exit(0));
    steps, s := Extend(codec, steps, s, Enter(1, 1));
    steps, s := Extend(codec, steps, s, Load(1, second));
  }

  lemma TwoMisses(codec: Codec, key: Key) returns (steps: seq<Step>, s: Shared)
    ensures Possible(codec, Init(map[]), steps) && s == Exec(codec, Init(map[]), steps) && NoEviction(steps)
    ensures s == Shared(map[], map[], map[], map[0 := Missed(key), 1 := Missed(key)])
  {
    s := Init(map[]);
    steps := [];
    steps, s := Extend(codec, steps, s, Call(0, key));
    steps, s := Extend(codec, steps, s, Get(0));
    steps, s := Extend(codec, steps, s, Call(1, key));
    steps, s := Extend(codec, steps, s, Get(1));
    assert s.callers == map[0 := Missed(key), 1 := Missed(key)];
  }

  /** Caller 0 has led and sent; caller 1 missed before and has not entered yet. */
  lemma MissWhileSent(codec: Codec, key: Key, loaded: Outcome) returns (steps: seq<Step>, s: Shared)
    ensures Possible(codec, Init(map[]), steps) && s == Exec(codec, Init(map[]), steps) && NoEviction(steps)
    ensures s == Shared(map[], map[key := 0], map[0 := Broadcast(0, key, [Wire(codec, loaded)])],
                        map[0 := Sent(key, 0, loaded), 1 := Missed(key)])
  {
    steps, s := TwoMisses(codec, key);
    steps, s := Extend(codec, steps, s, Enter(0, 0));
    steps, s := Extend(codec, steps, s, Load(0, loaded));
    steps, s := Extend(codec, steps, s, Send(0));
    assert s.registry == map[key := 0];
    assert s.channels == map[0 := Broadcast(0, key, [Wire(codec, loaded)])] by {
      assert s.channels[0].sent == [Wire(codec, loaded)];
    }
    assert s.callers == map[0 := Sent(key, 0, loaded), 1 := Missed(key)];
  }

  /** A waiter can really arrive too late: between its leader's send and exit. */
  lemma LateWaiterReachable(codec: Codec, key: Key, loaded: Outcome) returns (steps: seq<Step>, s: Shared)
    ensures Possible(codec, Init(map[]), steps) && s == Exec(codec, Init(map[]), steps)
    ensures 1 in s.callers && s.callers[1] == Waiting(key, 0, 1)
  {
    steps, s := MissWhileSent(codec, key, loaded);
    steps, s := Extend(codec, steps, s, Enter(1, 1));
  }

  /** Runs grow at the end as well. */
  lemma Extend(codec: Codec, steps: seq<Step>, s: Shared, step: Step) returns (longer: seq<Step>, t: Shared)
    requires Possible(codec, Init(map[]), steps) && s == Exec(codec, Init(map[]), steps) && Enabled(s, step)
    ensures longer == steps + [step] && t == Apply(codec, s, step)
    ensures Possible(codec, Init(map[]), longer) && t == Exec(codec, Init(map[]), longer)
  {
    longer, t := steps + [step], Apply(codec, s, step);
    ExtendFrom(codec, Init(map[]), steps, step);
  }

  lemma {:induction false} ExtendFrom(codec: Codec, origin: Shared, steps: seq<Step>, step: Step)
    requires Possible(codec, origin, steps) && Enabled(Exec(codec, origin, steps), step)
    ensures Possible(codec, origin, steps + [step])
    ensures Exec(codec, origin, steps + [step]) == Apply(codec, Exec(codec, origin, steps), step)
    decreases |steps|
  {
    hide Apply, Enabled;
    if steps == [] {
      OneStep(codec, origin, step, []);
      assert steps + [step] == [step] + [];
    } else {
      ExtendFrom(codec, Apply(codec, origin, steps[0]), steps[1..], step);
      assert steps + [step] == [steps[0]] + (steps[1..] + [step]);
      OneStep(codec, origin, steps[0], steps[1..] + [step]);
    }
  }

  // ---- What is stored and what a hit returns ----

  /** A put makes its own key look up as the loaded value and changes no other; an error changes nothing. */
  lemma PutStores(codec: Codec, s: Shared, c: Caller)
    requires RoundTrips(codec) && Enabled(s, Put(c))
    ensures var p, t := s.callers[c], Apply(codec, s, Put(c));
            && (p.loaded.Ok? ==> Lookup(codec, t.cache, p.key) == Some(p.loaded.value))
            && (p.loaded.Err? ==> t.cache == s.cache)
            && (forall k: Key :: k != p.key ==> Lookup(codec, t.cache, k) == Lookup(codec, s.cache, k))
  {
  }

  /** The caller has led for `k` and its loader gave `v`. */
  predicate LoadedBy(s: Shared, c: Caller, k: Key, v: Value) {
    && In(s, c) && s.callers[c].key == k
    && (s.callers[c].Loaded? || HasSent(s.callers[c])) && s.callers[c].loaded == Ok(v)
  }

  /** The value was stored to begin with, or some leader of `k` loaded it. */
  ghost predicate ComesFrom(codec: Codec, initial: map<Key, Bytes>, s: Shared, k: Key, v: Value) {
    Lookup(codec, initial, k) == Some(v) || exists c :: LoadedBy(s, c, k, v)
  }

  predicate HasPut(s: Shared, c: Caller, k: Key) {
    In(s, c) && s.callers[c].ReturnedLeader? && s.callers[c].key == k && s.callers[c].loaded.Ok?
  }

  /** What `k` looks up as comes from somewhere, so does every hit on it, and what was put is there. */
  ghost predicate Stocked(codec: Codec, initial: map<Key, Bytes>, s: Shared, k: Key) {
    && (Lookup(codec, s.cache, k).Some? ==> ComesFrom(codec, initial, s, k, Lookup(codec, s.cache, k).value))
    && (forall c :: In(s, c) && s.callers[c].ReturnedHit? && s.callers[c].key == k ==>
          ComesFrom(codec, initial, s, k, s.callers[c].value))
    && (forall c :: HasPut(s, c, k) ==> Lookup(codec, s.cache, k).Some?)
  }

  lemma StepKeepsSource(codec: Codec, initial: map<Key, Bytes>, s: Shared, step: Step, k: Key, v: Value)
    requires Enabled(s, step) && ComesFrom(codec, initial, s, k, v)
    ensures ComesFrom(codec, initial, Apply(codec, s, step), k, v)
  {
    hide Lookup, Stored, Wire, Unwire;
    if Lookup(codec, initial, k) != Some(v) {
      var c :| LoadedBy(s, c, k, v);
      assert LoadedBy(Apply(codec, s, step), c, k, v);
    }
  }

  /** Without eviction a stored key stays stored, and its value changes only by a leader's put. */
  lemma StepLookup(codec: Codec, s: Shared, step: Step, k: Key)
    requires RoundTrips(codec) && Enabled(s, step) && !step.Evict?
    ensures var before, after := Lookup(codec, s.cache, k), Lookup(codec, Apply(codec, s, step).cache, k);
            || after == before
            || (step.Put? && s.callers[step.c].key == k && s.callers[step.c].loaded.Ok?
                && after == Some(s.callers[step.c].loaded.value))
  {
    if step.Put? {
      PutStores(codec, s, step.c);
    }
  }

  lemma StepKeepsStocked(codec: Codec, initial: map<Key, Bytes>, s: Shared, step: Step, k: Key)
    requires RoundTrips(codec) && Enabled(s, step) && !step.Evict? && Stocked(codec, initial, s, k)
    ensures Stocked(codec, initial, Apply(codec, s, step), k)
  {
    var t := Apply(codec, s, step);
    StepLookup(codec, s, step, k);
    if step.Put? {
      PutStores(codec, s, step.c);
    }
    hide Stored, Wire, Unwire, RoundTrips, ComesFrom;
    if step.Put? && s.callers[step.c].key == k && s.callers[step.c].loaded.Ok? {
      LoadedComes(codec, initial, t, step.c, k, s.callers[step.c].loaded.value);
    } else if Lookup(codec, s.cache, k).Some? {
      StepKeepsSource(codec, initial, s, step, k, Lookup(codec, s.cache, k).value);
    }
    forall c | In(t, c) && t.callers[c].ReturnedHit? && t.callers[c].key == k
      ensures ComesFrom(codec, initial, t, k, t.callers[c].value)
    {
      var v := t.callers[c].value;
      StepKeepsSource(codec, initial, s, step, k, v);
    }
    forall c | HasPut(t, c, k)
      ensures Lookup(codec, t.cache, k).Some?
    {
      assert HasPut(s, c, k) || (step.Put? && step.c == c);
    }
  }

  lemma LoadedComes(codec: Codec, initial: map<Key, Bytes>, s: Shared, c: Caller, k: Key, v: Value)
    requires LoadedBy(s, c, k, v)
    ensures ComesFrom(codec, initial, s, k, v)
  {
  }

  lemma {:induction false} RunKeepsStocked(codec: Codec, initial: map<Key, Bytes>, s: Shared, steps: seq<Step>, k: Key)
    requires RoundTrips(codec) && Stocked(codec, initial, s, k)
    requires Possible(codec, s, steps) && NoEviction(steps)
    ensures Stocked(codec, initial, Exec(codec, s, steps), k)
    decreases |steps|
  {
    hide Apply, Stocked, RoundTrips;
    if steps == [] {
    } else {
      assert !steps[0].Evict?;
      StepKeepsStocked(codec, initial, s, steps[0], k);
      RunKeepsStocked(codec, initial, Apply(codec, s, steps[0]), steps[1..], k);
    }
  }

  /**
   In every run without eviction: once a leader for `k` has returned Ok, a lookup of `k` hits; and every
   hit on `k` returned a value that was stored to begin with or that some leader of `k` loaded.
   */
  lemma HitsExact(codec: Codec, cache: map<Key, Bytes>, steps: seq<Step>, k: Key)
    requires RoundTrips(codec) && Possible(codec, Init(cache), steps) && NoEviction(steps)
    ensures Stocked(codec, cache, Exec(codec, Init(cache), steps), k)
  {
    RunKeepsStocked(codec, cache, Init(cache), steps, k);
  }

  /** So whoever asks for `k` after a leader has returned Ok returns at once, with such a value. */
  lemma LaterCallsHit(codec: Codec, cache: map<Key, Bytes>, steps: seq<Step>, leader: Caller, c: Caller, k: Key)
    requires RoundTrips(codec) && Possible(codec, Init(cache), steps) && NoEviction(steps)
    requires var s := Exec(codec, Init(cache), steps); HasPut(s, leader, k) && In(s, c) && s.callers[c] == Calling(k)
    ensures var s := Exec(codec, Init(cache), steps);
            var after := Apply(codec, s, Get(c)).callers[c];
            after.ReturnedHit? && after.key == k && ComesFrom(codec, cache, s, k, after.value)
  {
    hide RoundTrips, Possible, Exec, ComesFrom;
    HitsExact(codec, cache, steps, k);
  }

  /** A stored entry that does not decode counts as a miss. */
  lemma LookupExact(codec: Codec, cache: map<Key, Bytes>, k: Key, v: Value)
    ensures Lookup(codec, cache, k) == Some(v) <==> k in cache && codec.decode(cache[k]) == Ok(v)
  {
  }

  // ---- The coalescer in place ----

  /** The shared objects, changed in place by one atomic step at a time. */
  class Coalescer {
    const codec: Codec
    var cache: map<Key, Bytes>
    var registry: map<Key, Channel>
    var channels: map<Channel, Broadcast>
    var callers: map<Caller, Phase>

    constructor (codec: Codec)
      ensures View() == Init(map[]) && this.codec == codec && Inv(codec, View())
    {
      this.codec := codec;
      cache, registry, channels, callers := map[], map[], map[], map[];
    }

    function View(): Shared
      reads this
    {
      Shared(cache, registry, channels, callers)
    }

    /** The fast path: a hit returns and never touches the registry. */
    method LookUp(c: Caller)
      requires Inv(codec, View()) && Enabled(View(), Get(c))
      modifies this`callers
      ensures View() == Apply(codec, old(View()), Get(c)) && Inv(codec, View())
    {
      StepKeepsInv(codec, View(), Get(c));
      var key := callers[c].key;
      var hit := Lookup(codec, cache, key);
      callers := callers[c := if hit.Some? then ReturnedHit(key, hit.value) else Missed(key)];
    }

    /** `InflightRegistry::enter`: subscribe to the channel that is there, or open one and lead. */
    method EnterRegistry(c: Caller, fresh': Channel) returns (isLeader: bool)
      requires Inv(codec, View()) && Enabled(View(), Enter(c, fresh'))
      modifies this
      ensures View() == Apply(codec, old(View()), Enter(c, fresh')) && Inv(codec, View())
      ensures isLeader <==> old(callers[c].key !in registry)
    {
      StepKeepsInv(codec, View(), Enter(c, fresh'));
      var key := callers[c].key;
      if key in registry {
        var there := registry[key];
        InvAt(codec, View(), key, c, there);
        callers := callers[c := Waiting(key, there, |channels[there].sent|)];
        return false;
      }
      registry := registry[key := fresh'];
      channels := channels[fresh' := Broadcast(c, key, [])];
      callers := callers[c := Leading(key, fresh')];
      isLeader := true;
    }

    /** Broadcast the loader's result to everyone subscribed so far. */
    method SendResult(c: Caller)
      requires Inv(codec, View()) && Enabled(View(), Send(c))
      modifies this`channels, this`callers
      ensures View() == Apply(codec, old(View()), Send(c)) && Inv(codec, View())
    {
      StepKeepsInv(codec, View(), Send(c));
      var p := callers[c];
      var b := channels[p.channel];
      channels := channels[p.channel := b.(sent := b.sent + [Wire(codec, p.loaded)])];
      callers := callers[c := Sent(p.key, p.channel, p.loaded)];
    }

    /** `InflightRegistry::exit`. */
    method ExitRegistry(c: Caller)
      requires Inv(codec, View()) && Enabled(View(), Exit(c))
      modifies this`registry, this`callers
      ensures View() == Apply(codec, old(View()), Exit(c)) && Inv(codec, View())
    {
      StepKeepsInv(codec, View(), Exit(c));
      var p := callers[c];
      registry := registry - {p.key};
      callers := callers[c := Exited(p.key, p.channel, p.loaded)];
    }

    /** Store a loaded value and return it; a loader error is returned without storing. */
    method PutAndReturn(c: Caller) returns (r: Outcome)
      requires Inv(codec, View()) && Enabled(View(), Put(c))
      modifies this`cache, this`callers
      ensures View() == Apply(codec, old(View()), Put(c)) && Inv(codec, View())
      ensures r == old(callers[c].loaded)
    {
      StepKeepsInv(codec, View(), Put(c));
      var p := callers[c];
      r := p.loaded;
      cache := Stored(codec, cache, p.key, p.loaded);
      callers := callers[c := ReturnedLeader(p.key, p.channel, p.loaded)];
    }

    /** The call is dropped where it awaits; the registry is not told. */
    method DropCall(c: Caller)
      requires Inv(codec, View()) && Enabled(View(), Cancel(c))
      modifies this`callers
      ensures View() == Apply(codec, old(View()), Cancel(c)) && Inv(codec, View())
    {
      StepKeepsInv(codec, View(), Cancel(c));
      callers := callers[c := Dropped(callers[c])];
    }

    /** A subscribed waiter takes the one message. */
    method ReceiveResult(c: Caller) returns (r: Outcome)
      requires Inv(codec, View()) && Enabled(View(), Receive(c))
      modifies this`callers
      ensures View() == Apply(codec, old(View()), Receive(c)) && Inv(codec, View())
      ensures r == callers[c].outcome
    {
      StepKeepsInv(codec, View(), Receive(c));
      var p := callers[c];
      r := Unwire(codec, channels[p.channel].sent[p.from]);
      callers := callers[c := ReturnedWaiter(p.key, p.channel, p.from, r)];
    }
  }
}
