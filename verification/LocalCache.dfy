/** The in-process cache: a live map that may evict at any time, and an index of keys by (realm, class). */
module LocalCache {
  import opened Prelude
  import opened CacheKeys

  type Bytes = seq<nat>
  type Bucket = (string, string)

  function BucketOf(realm: RealmId, c: CacheClass): Bucket {
    (PrintRealm(realm), AsStr(c))
  }

  datatype State = State(live: map<string, Bytes>, index: map<Bucket, seq<string>>)

  function Listed(s: State, b: Bucket): seq<string> {
    if b in s.index then s.index[b] else []
  }

  function Without(keys: seq<string>, k: string): seq<string> {
    if keys == [] then []
    else Without(keys[..|keys| - 1], k) + if keys[|keys| - 1] == k then [] else [keys[|keys| - 1]]
  }

  lemma {:induction false} WithoutMembers(keys: seq<string>, k: string, x: string)
    ensures x in Without(keys, k) <==> x in keys && x != k
  {
    if keys == [] {
    } else {
      WithoutMembers(keys[..|keys| - 1], k, x);
      assert keys == keys[..|keys| - 1] + [keys[|keys| - 1]];
    }
  }

  datatype Op =
    | OpPut(key: CacheKey, bytes: Bytes)
    | OpPutNegative(key: CacheKey)
    | OpInvalidate(key: CacheKey)
    | OpInvalidatePrefix(prefix: Prefix)
    | OpEvict(gone: set<string>)

  function Put(s: State, key: CacheKey, bytes: Bytes): State {
    var b, k := BucketOf(key.realm, key.class_), PrintKey(key);
    State(s.live[k := bytes], s.index[b := Listed(s, b) + [k]])
  }

  function Drop(s: State, key: CacheKey): State {
    var b, k := BucketOf(key.realm, key.class_), PrintKey(key);
    State(s.live - {k}, if b in s.index then s.index[b := Without(s.index[b], k)] else s.index)
  }

  function DropPrefix(s: State, prefix: Prefix): State {
    var b := BucketOf(prefix.realm, prefix.class_);
    State(s.live - (set k | k in Listed(s, b)), s.index - {b})
  }

  function Perform(s: State, op: Op): State {
    match op
    case OpPut(key, bytes) => Put(s, key, bytes)
    case OpPutNegative(key) => Put(s, key, [])
    case OpInvalidate(key) => Drop(s, key)
    case OpInvalidatePrefix(prefix) => DropPrefix(s, prefix)
    case OpEvict(gone) => s.(live := s.live - gone)
  }

  // ---- The plain map it stands for ----

  type Plain = map<CacheKey, Bytes>

  function PerformPlain(m: Plain, op: Op): Plain {
    match op
    case OpPut(key, bytes) => m[key := bytes]
    case OpPutNegative(key) => m[key := []]
    case OpInvalidate(key) => m - {key}
    case OpInvalidatePrefix(prefix) => map key | key in m && !prefix.Matches(key) :: m[key]
    case OpEvict(_) => m
  }

  /** Whatever is live is listed in its own bucket and is what the plain map holds. */
  predicate KeyAgrees(s: State, m: Plain, key: CacheKey) {
    PrintKey(key) in s.live ==>
      && PrintKey(key) in Listed(s, BucketOf(key.realm, key.class_))
      && key in m && s.live[PrintKey(key)] == m[key]
  }

  /** A bucket lists only printed keys of its own realm and class. */
  predicate KeyFiled(s: State, key: CacheKey, realm: RealmId, c: CacheClass) {
    PrintKey(key) in Listed(s, BucketOf(realm, c)) ==> key.realm == realm && key.class_ == c
  }

  ghost predicate Refines(s: State, m: Plain) {
    && (forall key: CacheKey :: KeyAgrees(s, m, key))
    && (forall key: CacheKey, realm: RealmId, c: CacheClass :: KeyFiled(s, key, realm, c))
  }

  lemma SameBucket(r: RealmId, c: CacheClass, r': RealmId, c': CacheClass)
    requires BucketOf(r, c) == BucketOf(r', c')
    ensures r == r' && c == c'
  {
    RealmRoundTrip(r);
    RealmRoundTrip(r');
    ClassRoundTrip(c);
    ClassRoundTrip(c');
  }

  /** The only facts about printing the cache needs: distinct keys print apart, distinct classes are filed apart. */
  lemma Distinct(a: CacheKey, b: CacheKey, realm: RealmId, c: CacheClass)
    ensures PrintKey(a) == PrintKey(b) ==> a == b
    ensures BucketOf(a.realm, a.class_) == BucketOf(b.realm, b.class_) ==> a.realm == b.realm && a.class_ == b.class_
    ensures BucketOf(a.realm, a.class_) == BucketOf(realm, c) ==> a.realm == realm && a.class_ == c
  {
    hide PrintKey, BucketOf;
    if PrintKey(a) == PrintKey(b) {
      PrintKeyInjective(a, b);
    }
    if BucketOf(a.realm, a.class_) == BucketOf(b.realm, b.class_) {
      SameBucket(a.realm, a.class_, b.realm, b.class_);
    }
    if BucketOf(a.realm, a.class_) == BucketOf(realm, c) {
      SameBucket(a.realm, a.class_, realm, c);
    }
  }

  lemma RefinesAt(s: State, m: Plain, key: CacheKey, realm: RealmId, c: CacheClass)
    requires Refines(s, m)
    ensures KeyAgrees(s, m, key) && KeyFiled(s, key, realm, c)
  {
  }

  lemma StepAgrees(s: State, m: Plain, op: Op, key: CacheKey)
    requires Refines(s, m)
    ensures KeyAgrees(Perform(s, op), PerformPlain(m, op), key)
  {
    hide PrintKey, BucketOf, Refines;
    RefinesAt(s, m, key, key.realm, key.class_);
    match op {
      case OpPut(k, _) => Distinct(key, k, key.realm, key.class_);
      case OpPutNegative(k) => Distinct(key, k, key.realm, key.class_);
      case OpInvalidate(k) =>
        Distinct(key, k, key.realm, key.class_);
        var b := BucketOf(k.realm, k.class_);
        if b in s.index {
          WithoutMembers(s.index[b], PrintKey(k), PrintKey(key));
        }
      case OpInvalidatePrefix(p) => Distinct(key, key, p.realm, p.class_);
      case OpEvict(_) =>
    }
  }

  lemma StepFiled(s: State, m: Plain, op: Op, key: CacheKey, realm: RealmId, c: CacheClass)
    requires Refines(s, m)
    ensures KeyFiled(Perform(s, op), key, realm, c)
  {
    hide PrintKey, BucketOf, Refines;
    RefinesAt(s, m, key, realm, c);
    match op {
      case OpPut(k, _) => Distinct(k, key, realm, c);
      case OpPutNegative(k) => Distinct(k, key, realm, c);
      case OpInvalidate(k) =>
        var b := BucketOf(k.realm, k.class_);
        if b in s.index {
          WithoutMembers(s.index[b], PrintKey(k), PrintKey(key));
        }
      case _ =>
    }
  }

  lemma StepRefines(s: State, m: Plain, op: Op)
    requires Refines(s, m)
    ensures Refines(Perform(s, op), PerformPlain(m, op))
  {
    hide Perform, PerformPlain, KeyAgrees, KeyFiled;
    forall key: CacheKey { StepAgrees(s, m, op, key); }
    forall key: CacheKey, realm: RealmId, c: CacheClass { StepFiled(s, m, op, key, realm, c); }
  }

  function PerformAll(s: State, ops: seq<Op>): State {
    if ops == [] then s else Perform(PerformAll(s, ops[..|ops| - 1]), ops[|ops| - 1])
  }

  function PerformAllPlain(m: Plain, ops: seq<Op>): Plain {
    if ops == [] then m else PerformPlain(PerformAllPlain(m, ops[..|ops| - 1]), ops[|ops| - 1])
  }

  /**
   Over every run of puts, negative puts, invalidations, prefix invalidations and evictions, every live
   key is listed in its bucket and holds what a plain map put through the same run would hold.
   */
  lemma {:induction false} RunRefinesPlainMap(ops: seq<Op>)
    ensures Refines(PerformAll(State(map[], map[]), ops), PerformAllPlain(map[], ops))
    decreases |ops|
  {
    if ops == [] {
    } else {
      hide Refines, Perform, PerformPlain;
      RunRefinesPlainMap(ops[..|ops| - 1]);
      var init, last := ops[..|ops| - 1], ops[|ops| - 1];
      StepRefines(PerformAll(State(map[], map[]), init), PerformAllPlain(map[], init), last);
    }
  }

  /** Without evictions nothing is lost either: the live map is the plain map. */
  lemma {:induction false} RunWithoutEvictionLosesNothing(ops: seq<Op>, key: CacheKey)
    requires forall i :: 0 <= i < |ops| ==> !ops[i].OpEvict?
    ensures key in PerformAllPlain(map[], ops) ==> PrintKey(key) in PerformAll(State(map[], map[]), ops).live
    decreases |ops|
  {
    hide PrintKey, BucketOf, Refines;
    if ops == [] {
    } else {
      var init, op := ops[..|ops| - 1], ops[|ops| - 1];
      RunWithoutEvictionLosesNothing(init, key);
      RunRefinesPlainMap(init);
      var s, m := PerformAll(State(map[], map[]), init), PerformAllPlain(map[], init);
      match op {
        case OpPut(k, _) =>
        case OpPutNegative(k) =>
        case OpInvalidate(k) => Distinct(key, k, key.realm, key.class_);
        case OpInvalidatePrefix(p) => RefinesAt(s, m, key, p.realm, p.class_);
      }
    }
  }

  /** Prefix invalidation leaves no live key of the class and touches no other key. */
  lemma PrefixInvalidationExact(s: State, m: Plain, prefix: Prefix, key: CacheKey)
    requires Refines(s, m)
    ensures var t := DropPrefix(s, prefix);
            if prefix.Matches(key) then PrintKey(key) !in t.live
            else (PrintKey(key) in t.live <==> PrintKey(key) in s.live)
                 && (PrintKey(key) in t.live ==> t.live[PrintKey(key)] == s.live[PrintKey(key)])
  {
    hide PrintKey, BucketOf, Refines;
    RefinesAt(s, m, key, prefix.realm, prefix.class_);
  }

  /** A peer that applies a payload: the named (realm, class) is dropped; anything else is ignored. */
  function ApplyPayload(s: State, payload: string): State {
    match Route(payload)
    case Some(prefix) => DropPrefix(s, prefix)
    case None => s
  }

  /**
   A published invalidation reaches its target: after applying the payload for a key, that key is gone
   from the peer's cache, and no key outside its realm and class has changed.
   */
  lemma PublishedKeyIsDropped(s: State, m: Plain, k: CacheKey, other: CacheKey)
    requires Refines(s, m)
    ensures var t := ApplyPayload(s, KeyPayload(k));
            && PrintKey(k) !in t.live
            && (other.realm != k.realm || other.class_ != k.class_ ==>
                  (PrintKey(other) in t.live <==> PrintKey(other) in s.live))
  {
    hide PrintKey, Route, KeyPayload, DropPrefix, Refines;
    KeyPayloadRoutes(k);
    PrefixInvalidationExact(s, m, Prefix(k.realm, k.class_), k);
    PrefixInvalidationExact(s, m, Prefix(k.realm, k.class_), other);
  }

  // ---- Operations that interleave ----

  /** What an operation still has to do to the live map after its turn at the index. */
  datatype Work = Inserting(key: CacheKey, bytes: Bytes) | Removing(k: string) | Clearing(keys: seq<string>)

  datatype Busy = Busy(cache: State, work: map<nat, Work>)

  /** Each operation takes its turn at the index first and then changes the live map, one key at a time. */
  datatype Turn =
    | Record(w: nat, key: CacheKey, bytes: Bytes)
    | Unlist(w: nat, key: CacheKey)
    | Take(w: nat, prefix: Prefix)
    | Finish(w: nat)
    | Evict(gone: set<string>)

  predicate Fits(s: Busy, turn: Turn) {
    match turn
    case Finish(w) => w in s.work
    case Evict(_) => true
    case _ => turn.w !in s.work
  }

  /** A turn that does not fit does nothing. */
  function TakeTurn(s: Busy, turn: Turn): Busy {
    if !Fits(s, turn) then s
    else
      match turn
      case Record(w, key, bytes) =>
        var b := BucketOf(key.realm, key.class_);
        Busy(s.cache.(index := s.cache.index[b := Listed(s.cache, b) + [PrintKey(key)]]),
             s.work[w := Inserting(key, bytes)])
      case Unlist(w, key) =>
        Busy(Drop(s.cache, key).(live := s.cache.live), s.work[w := Removing(PrintKey(key))])
      case Take(w, prefix) =>
        var b := BucketOf(prefix.realm, prefix.class_);
        Busy(s.cache.(index := s.cache.index - {b}), s.work[w := Clearing(Listed(s.cache, b))])
      case Finish(w) =>
        (match s.work[w]
         case Inserting(key, bytes) =>
           Busy(s.cache.(live := s.cache.live[PrintKey(key) := bytes]), s.work - {w})
         case Removing(k) => Busy(s.cache.(live := s.cache.live - {k}), s.work - {w})
         case Clearing(keys) =>
           if keys == [] then Busy(s.cache, s.work - {w})
           else Busy(s.cache.(live := s.cache.live - {keys[0]}), s.work[w := Clearing(keys[1..])]))
      case Evict(gone) => Busy(s.cache.(live := s.cache.live - gone), s.work)
  }

  predicate Removes(work: Work, k: string) {
    match work
    case Inserting(_, _) => false
    case Removing(x) => x == k
    case Clearing(keys) => k in keys
  }

  ghost predicate Doomed(s: Busy, k: string) {
    exists w :: w in s.work && Removes(s.work[w], k)
  }

  predicate IsListed(s: State, key: CacheKey) {
    PrintKey(key) in Listed(s, BucketOf(key.realm, key.class_))
  }

  /** A live key is in its bucket, or some operation is about to remove it. */
  ghost predicate Covered(s: Busy, key: CacheKey) {
    PrintKey(key) in s.cache.live ==> IsListed(s.cache, key) || Doomed(s, PrintKey(key))
  }

  /** An insertion whose key has been taken out of the index, and removed, since it was recorded. */
  ghost predicate LateInsert(s: Busy, turn: Turn, key: CacheKey) {
    && turn.Finish? && turn.w in s.work && s.work[turn.w].Inserting? && s.work[turn.w].key == key
    && !IsListed(s.cache, key) && !Doomed(s, PrintKey(key))
  }

  /** Nobody who is still going to remove `k` stops being so, except by removing it. */
  lemma TurnKeepsDoom(s: Busy, turn: Turn, k: string)
    requires Doomed(s, k)
    ensures Doomed(TakeTurn(s, turn), k) || k !in TakeTurn(s, turn).cache.live
  {
    hide PrintKey, BucketOf, Listed, Drop;
    var t := TakeTurn(s, turn);
    var w :| w in s.work && Removes(s.work[w], k);
    if !(turn.Finish? && turn.w == w) {
      assert w in t.work && t.work[w] == s.work[w];
    } else if s.work[w].Clearing? && k != s.work[w].keys[0] {
      assert k in s.work[w].keys[1..];
      assert Removes(t.work[w], k);
    }
  }

  /** A listed key stays listed, or whoever takes it out is about to remove it. */
  lemma TurnKeepsListed(s: Busy, turn: Turn, key: CacheKey)
    requires IsListed(s.cache, key)
    ensures IsListed(TakeTurn(s, turn).cache, key) || Doomed(TakeTurn(s, turn), PrintKey(key))
  {
    hide PrintKey, BucketOf;
    var t := TakeTurn(s, turn);
    if turn.Unlist? && Fits(s, turn) {
      var b := BucketOf(turn.key.realm, turn.key.class_);
      if b in s.cache.index {
        WithoutMembers(s.cache.index[b], PrintKey(turn.key), PrintKey(key));
      }
      if PrintKey(turn.key) == PrintKey(key) {
        assert Removes(t.work[turn.w], PrintKey(key));
      }
    } else if turn.Take? && Fits(s, turn) {
      var b := BucketOf(turn.prefix.realm, turn.prefix.class_);
      assert b == BucketOf(key.realm, key.class_) ==> Removes(t.work[turn.w], PrintKey(key));
    }
  }

  lemma LateInsertUncovers(s: Busy, turn: Turn, key: CacheKey)
    requires LateInsert(s, turn, key)
    ensures !Covered(TakeTurn(s, turn), key)
  {
    hide PrintKey, BucketOf;
    var t := TakeTurn(s, turn);
    forall w | w in t.work
      ensures !Removes(t.work[w], PrintKey(key))
    {
      assert t.work[w] == s.work[w];
    }
  }

  /** A turn keeps a key covered exactly if it is not a late insertion of it. */
  lemma TurnCoversIff(s: Busy, turn: Turn, key: CacheKey)
    requires Covered(s, key)
    ensures Covered(TakeTurn(s, turn), key) <==> !LateInsert(s, turn, key)
  {
    hide PrintKey, BucketOf, Listed;
    var t, k := TakeTurn(s, turn), PrintKey(key);
    if LateInsert(s, turn, key) {
      LateInsertUncovers(s, turn, key);
    } else if k in t.cache.live {
      if Doomed(s, k) {
        TurnKeepsDoom(s, turn, k);
      } else if IsListed(s.cache, key) {
        TurnKeepsListed(s, turn, key);
      } else {
        assert k !in s.cache.live;
        NewlyLive(s, turn, key);
      }
    }
  }

  /** Only an insertion of the key itself makes it live. */
  lemma NewlyLive(s: Busy, turn: Turn, key: CacheKey)
    requires PrintKey(key) !in s.cache.live && PrintKey(key) in TakeTurn(s, turn).cache.live
    ensures turn.Finish? && turn.w in s.work && s.work[turn.w].Inserting? && s.work[turn.w].key == key
  {
    hide PrintKey, BucketOf;
    if turn.Finish? && turn.w in s.work && s.work[turn.w].Inserting? {
      Distinct(s.work[turn.w].key, key, key.realm, key.class_);
    }
  }

  function TakeTurns(turns: seq<Turn>): Busy {
    if turns == [] then Busy(State(map[], map[]), map[])
    else TakeTurn(TakeTurns(turns[..|turns| - 1]), turns[|turns| - 1])
  }

  /** No insertion in the run is late. */
  ghost predicate NoneLate(turns: seq<Turn>, key: CacheKey) {
    forall i :: 0 <= i < |turns| ==> !LateInsert(TakeTurns(turns[..i]), turns[i], key)
  }

  /** In every interleaving without a late insertion of it, a key is covered all along. */
  lemma {:induction false} TimelyRunsCover(turns: seq<Turn>, key: CacheKey)
    requires NoneLate(turns, key)
    ensures Covered(TakeTurns(turns), key)
    decreases |turns|
  {
    hide TakeTurn, LateInsert;
    if turns == [] {
    } else {
      var init, last := turns[..|turns| - 1], turns[|turns| - 1];
      assert forall i :: 0 <= i < |init| ==> init[..i] == turns[..i];
      TimelyRunsCover(init, key);
      assert !LateInsert(TakeTurns(turns[..|turns| - 1]), turns[|turns| - 1], key);
      hide Covered;
      TurnCoversIff(TakeTurns(init), last, key);
    }
  }

  /** Once all operations are done, a live key is found by invalidating its class exactly if it is listed. */
  lemma PrefixFindsIffListed(s: State, key: CacheKey)
    requires PrintKey(key) in s.live
    ensures PrintKey(key) !in DropPrefix(s, Prefix(key.realm, key.class_)).live <==> IsListed(s, key)
  {
  }

  /** With nothing left to do, covered means listed. */
  lemma QuietMeansListed(turns: seq<Turn>, key: CacheKey)
    requires NoneLate(turns, key) && TakeTurns(turns).work == map[] && PrintKey(key) in TakeTurns(turns).cache.live
    ensures PrintKey(key) !in DropPrefix(TakeTurns(turns).cache, Prefix(key.realm, key.class_)).live
  {
    hide TakeTurns, NoneLate, DropPrefix, PrintKey, IsListed;
    TimelyRunsCover(turns, key);
    PrefixFindsIffListed(TakeTurns(turns).cache, key);
  }

  /**
   A prefix invalidation between the two halves of a put leaves, when all is done, a live key that no
   bucket lists and that invalidating its class does not find.
   */
  lemma LateInsertReachable(key: CacheKey, bytes: Bytes) returns (turns: seq<Turn>)
    ensures var s := TakeTurns(turns);
            && s.work == map[] && PrintKey(key) in s.cache.live && !IsListed(s.cache, key)
            && PrintKey(key) in DropPrefix(s.cache, Prefix(key.realm, key.class_)).live
  {
    hide PrintKey, BucketOf;
    var b, k := BucketOf(key.realm, key.class_), PrintKey(key);
    turns := [];
    var s := TakeTurns(turns);
    turns, s := Extend(turns, Record(0, key, bytes));
    assert Listed(s.cache, b) == [k];
    turns, s := Extend(turns, Take(1, Prefix(key.realm, key.class_)));
    turns, s := Extend(turns, Finish(1));
    turns, s := Extend(turns, Finish(1));
    turns, s := Extend(turns, Finish(0));
    assert s.work == map[];
    PrefixFindsIffListed(s.cache, key);
  }

  lemma Extend(turns: seq<Turn>, turn: Turn) returns (longer: seq<Turn>, s: Busy)
    ensures longer == turns + [turn] && s == TakeTurns(longer) && s == TakeTurn(TakeTurns(turns), turn)
  {
    longer := turns + [turn];
    assert longer[..|turns|] == turns;
    s := TakeTurns(longer);
  }

  /** The cache object. */
  class Cache {
    var live: map<string, Bytes>
    var index: map<Bucket, seq<string>>
    var hits: nat
    var misses: nat

    constructor ()
      ensures View() == State(map[], map[]) && hits == 0 && misses == 0
    {
      live, index := map[], map[];
      hits, misses := 0, 0;
    }

    function View(): State
      reads this
    {
      State(live, index)
    }

    method GetRaw(key: CacheKey) returns (r: Option<Bytes>)
      modifies this`hits, this`misses
      ensures r == if PrintKey(key) in live then Some(live[PrintKey(key)]) else None
      ensures hits + misses == old(hits + misses) + 1 && (hits > old(hits) <==> r.Some?) && hits >= old(hits)
    {
      var k := PrintKey(key);
      if k in live {
        hits := hits + 1;
        return Some(live[k]);
      }
      misses := misses + 1;
      r := None;
    }

    method RecordKey(key: CacheKey)
      modifies this`index
      ensures index == old(index)[BucketOf(key.realm, key.class_) :=
                Listed(old(View()), BucketOf(key.realm, key.class_)) + [PrintKey(key)]]
    {
      var bucket := BucketOf(key.realm, key.class_);
      index := index[bucket := (if bucket in index then index[bucket] else []) + [PrintKey(key)]];
    }

    method PutRaw(key: CacheKey, bytes: Bytes)
      modifies this`live, this`index
      ensures View() == Put(old(View()), key, bytes)
    {
      RecordKey(key);
      live := live[PrintKey(key) := bytes];
    }

    method PutNegative(key: CacheKey)
      modifies this`live, this`index
      ensures View() == Put(old(View()), key, [])
    {
      RecordKey(key);
      live := live[PrintKey(key) := []];
    }

    /** `retain`: keep the listed strings that differ from `k`, in order. */
    method Retain(keys: seq<string>, k: string) returns (kept: seq<string>)
      ensures kept == Without(keys, k)
    {
      kept := [];
      for i := 0 to |keys|
        invariant kept == Without(keys[..i], k)
      {
        assert keys[..i + 1][..i] == keys[..i];
        if keys[i] != k {
          kept := kept + [keys[i]];
        }
      }
      assert keys[..|keys|] == keys;
    }

    method Invalidate(key: CacheKey)
      modifies this`live, this`index
      ensures View() == Drop(old(View()), key)
    {
      var bucket, k := BucketOf(key.realm, key.class_), PrintKey(key);
      if bucket in index {
        var kept := Retain(index[bucket], k);
        index := index[bucket := kept];
      }
      live := live - {k};
    }

    /** Take the bucket out of the index, then invalidate what it listed, one by one. */
    method InvalidatePrefix(prefix: Prefix)
      modifies this`live, this`index
      ensures View() == DropPrefix(old(View()), prefix)
    {
      hide BucketOf;
      var bucket := BucketOf(prefix.realm, prefix.class_);
      var keys := if bucket in index then index[bucket] else [];
      index := index - {bucket};
      for i := 0 to |keys|
        invariant index == old(index) - {bucket}
        invariant live == old(live) - (set k | k in keys[..i])
      {
        live := live - {keys[i]};
      }
      assert keys[..|keys|] == keys;
    }

    method Apply(payload: string)
      modifies this`live, this`index
      ensures View() == ApplyPayload(old(View()), payload)
    {
      match Route(payload) {
        case Some(prefix) => InvalidatePrefix(prefix);
        case None =>
      }
    }
  }
}
