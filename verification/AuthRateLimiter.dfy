/**
  The fixed-window limiter of apps/api/src/modules/auth/auth-rate-limiter.ts: an insertion-ordered
  map of buckets, bounded by trimming. Key hashes are taken as injective.
 */
module AuthRateLimiter {
  import opened Utf16

  datatype Scope = Register | Login | Refresh

  datatype Key = Key(scope: Scope, identifier: Text)

  datatype Bucket = Bucket(count: nat, windowStartedAt: int)

  datatype Policy = Policy(limit: nat, windowMs: int)

  const MAX_BUCKETS: nat := 10_000
  const LONGEST_WINDOW := 900_000

  const ANONYMOUS: Text := Ascii("anonymous")

  /** The non-empty identifiers, each once, in order of first occurrence; without any, one anonymous key. */
  function DistinctKeys(scope: Scope, identifiers: seq<Text>): (keys: seq<Key>)
    ensures forall i, j :: 0 <= i < j < |keys| ==> keys[i] != keys[j]
    ensures forall i :: 0 <= i < |keys| ==> keys[i].scope == scope
  {
    if identifiers == [] then []
    else
      var before := DistinctKeys(scope, identifiers[..|identifiers| - 1]);
      var key := Key(scope, identifiers[|identifiers| - 1]);
      if key.identifier == [] || key in before then before else before + [key]
  }

  function EffectiveKeys(scope: Scope, identifiers: seq<Text>): (keys: seq<Key>)
    ensures keys != [] && forall i, j :: 0 <= i < j < |keys| ==> keys[i] != keys[j]
    ensures forall i :: 0 <= i < |keys| ==> keys[i].scope == scope
  {
    var keys := DistinctKeys(scope, identifiers);
    if keys == [] then [Key(scope, ANONYMOUS)] else keys
  }

  lemma {:induction false} DistinctKeysAre(scope: Scope, identifiers: seq<Text>, x: Text)
    ensures Key(scope, x) in DistinctKeys(scope, identifiers) <==> x != [] && x in identifiers
  {
    if identifiers != [] {
      var before := identifiers[..|identifiers| - 1];
      DistinctKeysAre(scope, before, x);
      assert identifiers == before + [identifiers[|identifiers| - 1]];
      assert x in identifiers <==> x in before || x == identifiers[|identifiers| - 1];
    }
  }

  /** A call counts every non-empty identifier it is given, and the anonymous one exactly when it is given none. */
  lemma EffectiveKeysAre(scope: Scope, identifiers: seq<Text>, x: Text)
    ensures Key(scope, x) in EffectiveKeys(scope, identifiers) <==>
      (x != [] && x in identifiers) || (x == ANONYMOUS && forall y :: y in identifiers ==> y == [])
  {
    DistinctKeysAre(scope, identifiers, x);
    var keys := DistinctKeys(scope, identifiers);
    if keys != [] {
      assert keys[0] == Key(scope, keys[0].identifier);
      DistinctKeysAre(scope, identifiers, keys[0].identifier);
    } else {
      forall y | y in identifiers ensures y == [] {
        DistinctKeysAre(scope, identifiers, y);
      }
    }
  }

  // ---------------------------------------------------------------- what the operations do

  /** The map: its keys in insertion order, and its buckets. */
  datatype State = State(order: seq<Key>, buckets: map<Key, Bucket>)

  const EMPTY := State([], map[])

  ghost predicate WellFormed(s: State) {
    && (forall k :: k in s.order <==> k in s.buckets)
    && forall i, j :: 0 <= i < j < |s.order| ==> s.order[i] != s.order[j]
  }

  predicate Expired(b: Bucket, now: int) {
    now - b.windowStartedAt >= LONGEST_WINDOW
  }

  predicate InWindow(b: Bucket, windowMs: int, now: int) {
    now - b.windowStartedAt < windowMs
  }

  function Delete(s: State, key: Key): State {
    State(Without(s.order, key), s.buckets - {key})
  }

  function Without(order: seq<Key>, key: Key): seq<Key> {
    if order == [] then [] else (if order[0] == key then [] else [order[0]]) + Without(order[1..], key)
  }

  /** The first loop of trim, over the given keys. */
  function DropExpired(s: State, keys: seq<Key>, now: int): State
    decreases |keys|
  {
    if keys == [] then s
    else DropExpired(if keys[0] in s.buckets && Expired(s.buckets[keys[0]], now) then Delete(s, keys[0]) else s,
      keys[1..], now)
  }

  /** The second loop of trim: oldest insertions first. */
  function DropOverflow(s: State): State
    decreases |s.order|
  {
    if |s.order| <= MAX_BUCKETS then s else DropOverflow(State(s.order[1..], s.buckets - {s.order[0]}))
  }

  function AfterTrim(s: State, now: int): State {
    DropOverflow(DropExpired(s, s.order, now))
  }

  /** Setting a key that is present keeps its place in the order. */
  function Put(s: State, key: Key, b: Bucket): State {
    State(if key in s.buckets then s.order else s.order + [key], s.buckets[key := b])
  }

  function WithBucket(s: State, key: Key, windowMs: int, now: int): (State, Bucket) {
    if key in s.buckets && InWindow(s.buckets[key], windowMs, now) then (s, s.buckets[key])
    else (Put(if |s.order| >= MAX_BUCKETS then AfterTrim(s, now) else s, key, Bucket(0, now)), Bucket(0, now))
  }

  function WithBuckets(s: State, keys: seq<Key>, windowMs: int, now: int): (r: (State, seq<Bucket>))
    ensures |r.1| == |keys|
  {
    if keys == [] then (s, [])
    else
      var (before, held) := WithBuckets(s, keys[..|keys| - 1], windowMs, now);
      var (after, b) := WithBucket(before, keys[|keys| - 1], windowMs, now);
      (after, held + [b])
  }

  /** The increments reach the buckets that are still in the map. */
  function Incremented(s: State, keys: seq<Key>): State {
    if keys == [] then s
    else
      var before := Incremented(s, keys[..|keys| - 1]);
      var key := keys[|keys| - 1];
      if key in before.buckets
        then before.(buckets := before.buckets[key := before.buckets[key].(count := before.buckets[key].count + 1)])
        else before
  }

  datatype Decision = Allowed(remaining: nat) | Denied(retryAfterSeconds: nat)

  function RetryAfterSeconds(b: Bucket, policy: Policy, now: int): (seconds: nat)
    ensures seconds >= 1
  {
    var wait := (b.windowStartedAt + policy.windowMs - now + 999) / 1000;
    if wait < 1 then 1 else wait
  }

  /** Index of the first bucket at its limit, or the number of buckets. */
  function FirstBlocked(held: seq<Bucket>, limit: nat): (i: nat)
    ensures i <= |held|
    ensures i < |held| ==> held[i].count >= limit
    ensures forall j :: 0 <= j < i ==> held[j].count < limit
  {
    if held == [] then 0 else if held[0].count >= limit then 0 else 1 + FirstBlocked(held[1..], limit)
  }

  function Largest(held: seq<Bucket>): nat {
    if held == [] then 0
    else var rest := Largest(held[1..]); if held[0].count > rest then held[0].count else rest
  }

  function Remaining(held: seq<Bucket>, limit: nat): nat {
    if limit > Largest(held) + 1 then limit - Largest(held) - 1 else 0
  }

  function Consume(s: State, keys: seq<Key>, policy: Policy, now: int): (State, Decision) {
    var (ready, held) := WithBuckets(s, keys, policy.windowMs, now);
    var blocked := FirstBlocked(held, policy.limit);
    if blocked < |held| then (ready, Denied(RetryAfterSeconds(held[blocked], policy, now)))
    else (AfterTrim(Incremented(ready, keys), now), Allowed(Remaining(held, policy.limit)))
  }

  // ---------------------------------------------------------------- the limiter

  lemma {:induction false} DropExpiredSplit(s: State, keys: seq<Key>, i: nat, now: int)
    requires i < |keys|
    ensures DropExpired(s, keys[i..], now) ==
      DropExpired(if keys[i] in s.buckets && Expired(s.buckets[keys[i]], now) then Delete(s, keys[i]) else s,
        keys[i + 1..], now)
  {
    assert keys[i..][1..] == keys[i + 1..];
  }

  class Limiter {
    var order: seq<Key>
    var buckets: map<Key, Bucket>
    const policies: Scope -> Policy

    ghost function Contents(): State
      reads this
    {
      State(order, buckets)
    }

    constructor (policies: Scope -> Policy)
      ensures Contents() == EMPTY && this.policies == policies
    {
      order, buckets := [], map[];
      this.policies := policies;
    }

    method Clear()
      modifies this
      ensures Contents() == EMPTY
    {
      order, buckets := [], map[];
    }

    method Trim(now: int)
      requires WellFormed(Contents())
      modifies this
      ensures Contents() == AfterTrim(old(Contents()), now)
    {
      var keys := order;
      var i := 0;
      while i < |keys|
        invariant 0 <= i <= |keys|
        invariant DropExpired(old(Contents()), keys, now) == DropExpired(Contents(), keys[i..], now)
      {
        DropExpiredSplit(Contents(), keys, i, now);
        if keys[i] in buckets && Expired(buckets[keys[i]], now) {
          order, buckets := Without(order, keys[i]), buckets - {keys[i]};
        }
        i := i + 1;
      }
      while |order| > MAX_BUCKETS
        invariant DropOverflow(DropExpired(old(Contents()), keys, now)) == DropOverflow(Contents())
        decreases |order|
      {
        buckets := buckets - {order[0]};
        order := order[1..];
      }
    }

    method GetBucket(key: Key, windowMs: int, now: int) returns (b: Bucket)
      requires WellFormed(Contents())
      modifies this
      ensures (Contents(), b) == WithBucket(old(Contents()), key, windowMs, now)
    {
      if key in buckets && now - buckets[key].windowStartedAt < windowMs {
        return buckets[key];
      }
      if |order| >= MAX_BUCKETS {
        Trim(now);
      }
      b := Bucket(0, now);
      if key !in buckets {
        order := order + [key];
      }
      buckets := buckets[key := b];
    }

    method GetBuckets(keys: seq<Key>, windowMs: int, now: int) returns (held: seq<Bucket>)
      requires WellFormed(Contents())
      modifies this
      ensures (Contents(), held) == WithBuckets(old(Contents()), keys, windowMs, now)
      ensures WellFormed(Contents())
    {
      held := [];
      var i := 0;
      while i < |keys|
        invariant 0 <= i <= |keys|
        invariant (Contents(), held) == WithBuckets(old(Contents()), keys[..i], windowMs, now)
        invariant WellFormed(Contents())
      {
        assert keys[..i + 1][..i] == keys[..i];
        WithBucketWellFormed(Contents(), keys[i], windowMs, now);
        var b := GetBucket(keys[i], windowMs, now);
        held := held + [b];
        i := i + 1;
      }
      assert keys[..i] == keys;
    }

    method ConsumeOnce(scope: Scope, identifiers: seq<Text>, now: int) returns (d: Decision)
      requires WellFormed(Contents())
      modifies this
      ensures (Contents(), d) == Consume(old(Contents()), EffectiveKeys(scope, identifiers), policies(scope), now)
    {
      var policy := policies(scope);
      var keys := EffectiveKeys(scope, identifiers);
      var held := GetBuckets(keys, policy.windowMs, now);
      var blocked := FirstBlocked(held, policy.limit);
      if blocked < |held| {
        return Denied(RetryAfterSeconds(held[blocked], policy, now));
      }
      IncrementedWellFormed(Contents(), keys);
      CountUp(keys);
      Trim(now);
      d := Allowed(Remaining(held, policy.limit));
    }

    method CountUp(keys: seq<Key>)
      modifies this`buckets
      ensures Contents() == Incremented(old(Contents()), keys)
    {
      var i := 0;
      while i < |keys|
        invariant 0 <= i <= |keys|
        invariant Contents() == Incremented(old(Contents()), keys[..i])
      {
        assert keys[..i + 1][..i] == keys[..i];
        if keys[i] in buckets {
          buckets := buckets[keys[i] := buckets[keys[i]].(count := buckets[keys[i]].count + 1)];
        }
        i := i + 1;
      }
      assert keys[..i] == keys;
    }
  }

  // ---------------------------------------------------------------- the map stays well-formed and bounded

  lemma {:induction false} WithoutRemoves(order: seq<Key>, key: Key)
    requires forall i, j :: 0 <= i < j < |order| ==> order[i] != order[j]
    ensures forall k :: k in Without(order, key) <==> k in order && k != key
    ensures forall i, j :: 0 <= i < j < |Without(order, key)| ==> Without(order, key)[i] != Without(order, key)[j]
    ensures |Without(order, key)| <= |order|
  {
    if order != [] {
      WithoutRemoves(order[1..], key);
      var rest := Without(order[1..], key);
      assert order[0] !in order[1..];
      assert forall j :: 0 <= j < |rest| ==> rest[j] in order[1..];
      assert order == [order[0]] + order[1..];
    }
  }

  lemma DeleteWellFormed(s: State, key: Key)
    requires WellFormed(s)
    ensures WellFormed(Delete(s, key)) && |Delete(s, key).order| <= |s.order|
  {
    WithoutRemoves(s.order, key);
  }

  /** Dropping expired buckets keeps every bucket that is not expired, and adds none. */
  lemma {:induction false} DropExpiredKeeps(s: State, keys: seq<Key>, now: int)
    requires WellFormed(s)
    ensures var t := DropExpired(s, keys, now);
      && WellFormed(t) && |t.order| <= |s.order|
      && (forall k :: k in t.buckets ==> k in s.buckets && t.buckets[k] == s.buckets[k])
      && (forall k :: k in s.buckets && !Expired(s.buckets[k], now) ==> k in t.buckets)
    decreases |keys|
  {
    if keys != [] {
      if keys[0] in s.buckets && Expired(s.buckets[keys[0]], now) {
        DeleteWellFormed(s, keys[0]);
        DropExpiredKeeps(Delete(s, keys[0]), keys[1..], now);
      } else {
        DropExpiredKeeps(s, keys[1..], now);
      }
    }
  }

  lemma DropFirst(s: State)
    requires WellFormed(s) && s.order != []
    ensures WellFormed(State(s.order[1..], s.buckets - {s.order[0]}))
  {
    var t := State(s.order[1..], s.buckets - {s.order[0]});
    forall k ensures k in t.order <==> k in t.buckets {
      assert k in s.order <==> k == s.order[0] || k in t.order;
    }
  }

  lemma {:induction false} DropOverflowBounds(s: State)
    requires WellFormed(s)
    ensures WellFormed(DropOverflow(s)) && |DropOverflow(s).order| <= MAX_BUCKETS
    ensures |s.order| <= MAX_BUCKETS ==> DropOverflow(s) == s
    decreases |s.order|
  {
    if |s.order| > MAX_BUCKETS {
      DropFirst(s);
      DropOverflowBounds(State(s.order[1..], s.buckets - {s.order[0]}));
    }
  }

  /** The overflow loop drops the oldest insertions and keeps the newest. */
  lemma {:induction false} OverflowDropsOldest(s: State)
    requires WellFormed(s)
    ensures |s.order| > MAX_BUCKETS ==> DropOverflow(s).order == s.order[|s.order| - MAX_BUCKETS..]
    ensures forall k :: k in DropOverflow(s).buckets ==> k in s.buckets && DropOverflow(s).buckets[k] == s.buckets[k]
    decreases |s.order|
  {
    if |s.order| > MAX_BUCKETS {
      var t := State(s.order[1..], s.buckets - {s.order[0]});
      DropFirst(s);
      OverflowDropsOldest(t);
      DropOverflowBounds(t);
      DropAfterFirst(s.order, |t.order| - MAX_BUCKETS);
    }
  }

  lemma DropAfterFirst(order: seq<Key>, n: nat)
    requires n < |order|
    ensures order[1..][n..] == order[n + 1..]
  {
  }

  lemma {:induction false} AfterTrimBounds(s: State, now: int)
    requires WellFormed(s)
    ensures WellFormed(AfterTrim(s, now)) && |AfterTrim(s, now).order| <= MAX_BUCKETS
    ensures |s.order| <= MAX_BUCKETS ==> AfterTrim(s, now) == DropExpired(s, s.order, now)
  {
    DropExpiredKeeps(s, s.order, now);
    DropOverflowBounds(DropExpired(s, s.order, now));
  }

  lemma PutWellFormed(s: State, key: Key, b: Bucket)
    requires WellFormed(s)
    ensures WellFormed(Put(s, key, b)) && |Put(s, key, b).order| <= |s.order| + 1
  {
  }

  lemma WithBucketWellFormed(s: State, key: Key, windowMs: int, now: int)
    requires WellFormed(s)
    ensures var t := WithBucket(s, key, windowMs, now).0;
      WellFormed(t) && (|s.order| <= MAX_BUCKETS + 1 ==> |t.order| <= MAX_BUCKETS + 1)
  {
    if !(key in s.buckets && InWindow(s.buckets[key], windowMs, now)) {
      AfterTrimBounds(s, now);
      PutWellFormed(if |s.order| >= MAX_BUCKETS then AfterTrim(s, now) else s, key, Bucket(0, now));
    }
  }

  lemma {:induction false} WithBucketsWellFormed(s: State, keys: seq<Key>, windowMs: int, now: int)
    requires WellFormed(s)
    ensures var t := WithBuckets(s, keys, windowMs, now).0;
      WellFormed(t) && (|s.order| <= MAX_BUCKETS + 1 ==> |t.order| <= MAX_BUCKETS + 1)
  {
    if keys != [] {
      WithBucketsWellFormed(s, keys[..|keys| - 1], windowMs, now);
      WithBucketWellFormed(WithBuckets(s, keys[..|keys| - 1], windowMs, now).0, keys[|keys| - 1], windowMs, now);
    }
  }

  lemma {:induction false} IncrementedWellFormed(s: State, keys: seq<Key>)
    requires WellFormed(s)
    ensures WellFormed(Incremented(s, keys)) && Incremented(s, keys).order == s.order
  {
    if keys != [] {
      IncrementedWellFormed(s, keys[..|keys| - 1]);
    }
  }

  /** One call: the map holds at most one bucket above the maximum, and at most the maximum after an allowed call. */
  lemma ConsumeBounds(s: State, keys: seq<Key>, policy: Policy, now: int)
    requires WellFormed(s) && |s.order| <= MAX_BUCKETS + 1
    ensures var (t, d) := Consume(s, keys, policy, now);
      WellFormed(t) && |t.order| <= MAX_BUCKETS + 1 && (d.Allowed? ==> |t.order| <= MAX_BUCKETS)
  {
    var ready := WithBuckets(s, keys, policy.windowMs, now).0;
    WithBucketsWellFormed(s, keys, policy.windowMs, now);
    IncrementedWellFormed(ready, keys);
    AfterTrimBounds(Incremented(ready, keys), now);
  }

  // ---------------------------------------------------------------- runs

  datatype Call = Call(scope: Scope, identifiers: seq<Text>, now: int)

  function KeysOf(c: Call): (keys: seq<Key>)
    ensures keys != [] && forall i, j :: 0 <= i < j < |keys| ==> keys[i] != keys[j]
    ensures forall i :: 0 <= i < |keys| ==> keys[i].scope == c.scope
  {
    EffectiveKeys(c.scope, c.identifiers)
  }

  function Run(policies: Scope -> Policy, calls: seq<Call>): State {
    if calls == [] then EMPTY
    else var c := calls[|calls| - 1];
      Consume(Run(policies, calls[..|calls| - 1]), KeysOf(c), policies(c.scope), c.now).0
  }

  function DecisionAt(policies: Scope -> Policy, calls: seq<Call>, i: nat): Decision
    requires i < |calls|
  {
    Consume(Run(policies, calls[..i]), KeysOf(calls[i]), policies(calls[i].scope), calls[i].now).1
  }

  /** In every run the map holds at most MAX + 1 buckets, and at most MAX after an allowed call. */
  lemma {:induction false} EveryRunIsBounded(policies: Scope -> Policy, calls: seq<Call>)
    ensures WellFormed(Run(policies, calls)) && |Run(policies, calls).order| <= 10_001
    ensures calls != [] && DecisionAt(policies, calls, |calls| - 1).Allowed? ==>
      |Run(policies, calls).order| <= 10_000
  {
    if calls != [] {
      var c := calls[|calls| - 1];
      EveryRunIsBounded(policies, calls[..|calls| - 1]);
      ConsumeBounds(Run(policies, calls[..|calls| - 1]), KeysOf(c), policies(c.scope), c.now);
    }
  }

  /** Waiting the announced time is enough for the blocking bucket's window to end, and one second less is not. */
  lemma RetryAfterIsExact(b: Bucket, policy: Policy, now: int)
    requires InWindow(b, policy.windowMs, now)
    ensures !InWindow(b, policy.windowMs, now + RetryAfterSeconds(b, policy, now) * 1000)
    ensures InWindow(b, policy.windowMs, now + (RetryAfterSeconds(b, policy, now) - 1) * 1000)
  {
  }

  // ---------------------------------------------------------------- without overflow, key by key

  /** The unexpired buckets are those of the given keys, of which there are at most as many as the map may hold. */
  ghost predicate Within(s: State, universe: set<Key>, now: int) {
    && WellFormed(s) && |universe| <= MAX_BUCKETS
    && forall k :: k in s.buckets && !Expired(s.buckets[k], now) ==> k in universe
  }

  function Unexpired(s: State, now: int): set<Key> {
    set k | k in s.buckets && !Expired(s.buckets[k], now)
  }

  lemma {:induction false} DistinctFit(order: seq<Key>, universe: set<Key>)
    requires forall i, j :: 0 <= i < j < |order| ==> order[i] != order[j]
    requires forall i :: 0 <= i < |order| ==> order[i] in universe
    ensures |order| <= |universe|
  {
    if order != [] {
      DistinctFit(order[1..], universe - {order[0]});
    }
  }

  /** Everything in t was in s, and nothing unexpired was lost. */
  ghost predicate Keeps(s: State, t: State, now: int) {
    && (forall k :: k in t.buckets ==> k in s.buckets && t.buckets[k] == s.buckets[k])
    && (forall k :: k in s.buckets && !Expired(s.buckets[k], now) ==> k in t.buckets)
  }

  /** The first loop of trim drops every expired bucket it walks over. */
  lemma {:induction false} DropExpiredDropsAll(s: State, keys: seq<Key>, now: int)
    requires WellFormed(s)
    ensures forall k :: k in keys && k in DropExpired(s, keys, now).buckets ==>
      k in s.buckets && !Expired(s.buckets[k], now)
    decreases |keys|
  {
    DropExpiredKeeps(s, keys, now);
    if keys != [] {
      var t := if keys[0] in s.buckets && Expired(s.buckets[keys[0]], now) then Delete(s, keys[0]) else s;
      DeleteWellFormed(s, keys[0]);
      DropExpiredDropsAll(t, keys[1..], now);
      DropExpiredKeeps(t, keys[1..], now);
      assert forall k :: k in keys <==> k == keys[0] || k in keys[1..];
    }
  }

  lemma TrimKeeps(s: State, universe: set<Key>, now: int)
    requires Within(s, universe, now)
    ensures Within(AfterTrim(s, now), universe, now) && Keeps(s, AfterTrim(s, now), now)
  {
    var t := DropExpired(s, s.order, now);
    DropExpiredKeeps(s, s.order, now);
    DropExpiredDropsAll(s, s.order, now);
    forall i | 0 <= i < |t.order| ensures t.order[i] in universe {
      assert t.order[i] in t.buckets;
    }
    DistinctFit(t.order, universe);
    DropOverflowBounds(t);
  }

  /** While the unexpired buckets fit, trimming drops exactly those whose window began 15 minutes ago or earlier. */
  lemma TrimIsExact(s: State, now: int)
    requires WellFormed(s) && |Unexpired(s, now)| <= 10_000
    ensures forall k :: k in AfterTrim(s, now).buckets <==>
      k in s.buckets && now - s.buckets[k].windowStartedAt < 900_000
    ensures forall k :: k in AfterTrim(s, now).buckets ==> AfterTrim(s, now).buckets[k] == s.buckets[k]
  {
    TrimKeeps(s, Unexpired(s, now), now);
    forall k | k in AfterTrim(s, now).buckets ensures !Expired(s.buckets[k], now) {
      TrimDropsExpired(s, now, k);
    }
  }

  lemma TrimDropsExpired(s: State, now: int, k: Key)
    requires WellFormed(s) && |Unexpired(s, now)| <= 10_000 && k in AfterTrim(s, now).buckets
    ensures k in s.buckets && !Expired(s.buckets[k], now)
  {
    var t := DropExpired(s, s.order, now);
    DropExpiredKeeps(s, s.order, now);
    OverflowDropsOldest(t);
    DropExpiredDropsAll(s, s.order, now);
    assert k in t.order;
  }

  predicate Live(s: State, k: Key, windowMs: int, now: int) {
    k in s.buckets && InWindow(s.buckets[k], windowMs, now)
  }

  /** The bucket a call finds or creates for a key. */
  function Fetched(s: State, k: Key, windowMs: int, now: int): Bucket {
    if Live(s, k, windowMs, now) then s.buckets[k] else Bucket(0, now)
  }

  /** The state after fetching: the fetched keys have their buckets, the others are kept unless expired. */
  ghost predicate FetchedAll(s: State, t: State, keys: seq<Key>, windowMs: int, now: int) {
    && (forall k :: k in keys ==> k in t.buckets && t.buckets[k] == Fetched(s, k, windowMs, now))
    && (forall k :: k !in keys && k in t.buckets ==> k in s.buckets && t.buckets[k] == s.buckets[k])
    && (forall k :: k !in keys && k in s.buckets && !Expired(s.buckets[k], now) ==> k in t.buckets)
  }

  lemma PutFetched(s: State, t: State, u: State, keys: seq<Key>, key: Key, windowMs: int, now: int)
    requires FetchedAll(s, t, keys, windowMs, now) && Keeps(t, u, now) && key !in keys && 0 < windowMs <= LONGEST_WINDOW
    requires !Live(t, key, windowMs, now)
    ensures FetchedAll(s, Put(u, key, Bucket(0, now)), keys + [key], windowMs, now)
    ensures Fetched(s, key, windowMs, now) == Bucket(0, now)
  {
    assert forall k :: k in keys + [key] <==> k in keys || k == key;
  }

  lemma LiveFetched(s: State, t: State, keys: seq<Key>, key: Key, windowMs: int, now: int)
    requires FetchedAll(s, t, keys, windowMs, now) && key !in keys && Live(t, key, windowMs, now)
    ensures FetchedAll(s, t, keys + [key], windowMs, now) && Fetched(s, key, windowMs, now) == t.buckets[key]
  {
    assert forall k :: k in keys + [key] <==> k in keys || k == key;
  }

  lemma FetchOne(s: State, t: State, keys: seq<Key>, key: Key, universe: set<Key>, windowMs: int, now: int)
    requires Within(t, universe, now) && FetchedAll(s, t, keys, windowMs, now) && key in universe && key !in keys
    requires 0 < windowMs <= LONGEST_WINDOW
    ensures var (u, b) := WithBucket(t, key, windowMs, now);
      Within(u, universe, now) && FetchedAll(s, u, keys + [key], windowMs, now) && b == Fetched(s, key, windowMs, now)
  {
    if Live(t, key, windowMs, now) {
      LiveFetched(s, t, keys, key, windowMs, now);
    } else {
      TrimKeeps(t, universe, now);
      var u := if |t.order| >= MAX_BUCKETS then AfterTrim(t, now) else t;
      PutWellFormed(u, key, Bucket(0, now));
      PutFetched(s, t, u, keys, key, windowMs, now);
    }
  }

  lemma {:induction false} FetchAll(s: State, keys: seq<Key>, universe: set<Key>, windowMs: int, now: int)
    requires Within(s, universe, now) && 0 < windowMs <= LONGEST_WINDOW
    requires forall i, j :: 0 <= i < j < |keys| ==> keys[i] != keys[j]
    requires forall i :: 0 <= i < |keys| ==> keys[i] in universe
    ensures var (t, held) := WithBuckets(s, keys, windowMs, now);
      && Within(t, universe, now) && FetchedAll(s, t, keys, windowMs, now)
      && forall i :: 0 <= i < |keys| ==> held[i] == Fetched(s, keys[i], windowMs, now)
  {
    if keys != [] {
      var (before, key) := (keys[..|keys| - 1], keys[|keys| - 1]);
      FetchAll(s, before, universe, windowMs, now);
      assert key !in before;
      FetchOne(s, WithBuckets(s, before, windowMs, now).0, before, key, universe, windowMs, now);
      assert before + [key] == keys;
    }
  }

  function Settled(b: Bucket, allowed: bool): Bucket {
    if allowed then b.(count := b.count + 1) else b
  }

  lemma {:induction false} IncrementEach(s: State, keys: seq<Key>)
    requires forall i, j :: 0 <= i < j < |keys| ==> keys[i] != keys[j]
    requires forall i :: 0 <= i < |keys| ==> keys[i] in s.buckets
    ensures var t := Incremented(s, keys);
      && t.order == s.order && t.buckets.Keys == s.buckets.Keys
      && forall k :: k in s.buckets ==>
           t.buckets[k] == Settled(s.buckets[k], k in keys)
  {
    if keys != [] {
      var before := keys[..|keys| - 1];
      IncrementEach(s, before);
      assert keys[|keys| - 1] !in before;
      assert forall k :: k in keys <==> k in before || k == keys[|keys| - 1];
    }
  }

  /** What one call does to every key. */
  ghost predicate CallEffect(s: State, t: State, d: Decision, keys: seq<Key>, policy: Policy, now: int) {
    && (forall k :: k in keys ==>
      k in t.buckets && t.buckets[k] == Settled(Fetched(s, k, policy.windowMs, now), d.Allowed?))
    && (forall k :: k in keys && d.Allowed? ==> Fetched(s, k, policy.windowMs, now).count < policy.limit)
    && (forall k :: k !in keys && k in t.buckets ==> k in s.buckets && t.buckets[k] == s.buckets[k])
    && (forall k :: k !in keys && k in s.buckets && !Expired(s.buckets[k], now) ==> k in t.buckets)
  }

  /** Counting up the fetched buckets, then trimming with nothing evicted for space. */
  lemma {:induction false} CountedEffect(s: State, ready: State, keys: seq<Key>, universe: set<Key>, policy: Policy,
      now: int, d: Decision)
    requires Within(ready, universe, now) && FetchedAll(s, ready, keys, policy.windowMs, now) &&
      0 < policy.windowMs <= LONGEST_WINDOW
    requires forall i, j :: 0 <= i < j < |keys| ==> keys[i] != keys[j]
    requires forall k :: k in keys ==> Fetched(s, k, policy.windowMs, now).count < policy.limit
    requires d.Allowed?
    ensures var t := AfterTrim(Incremented(ready, keys), now);
      Within(t, universe, now) && CallEffect(s, t, d, keys, policy, now)
  {
    IncrementEach(ready, keys);
    IncrementedWellFormed(ready, keys);
    var counted := Incremented(ready, keys);
    TrimKeeps(counted, universe, now);
    KeptEffect(s, ready, counted, AfterTrim(counted, now), keys, policy, now, d);
  }

  lemma KeptEffect(s: State, ready: State, counted: State, t: State, keys: seq<Key>, policy: Policy, now: int,
      d: Decision)
    requires FetchedAll(s, ready, keys, policy.windowMs, now) && 0 < policy.windowMs <= LONGEST_WINDOW && d.Allowed?
    requires forall k :: k in keys ==> Fetched(s, k, policy.windowMs, now).count < policy.limit
    requires counted.buckets.Keys == ready.buckets.Keys
    requires forall k :: k in ready.buckets ==> counted.buckets[k] == Settled(ready.buckets[k], k in keys)
    requires Keeps(counted, t, now)
    ensures CallEffect(s, t, d, keys, policy, now)
  {
  }

  lemma {:induction false} NoneBlocked(s: State, keys: seq<Key>, held: seq<Bucket>, policy: Policy, now: int)
    requires |held| == |keys| && FirstBlocked(held, policy.limit) == |held|
    requires forall i :: 0 <= i < |keys| ==> held[i] == Fetched(s, keys[i], policy.windowMs, now)
    ensures forall k :: k in keys ==> Fetched(s, k, policy.windowMs, now).count < policy.limit
  {
  }

  lemma ConsumeEffect(s: State, keys: seq<Key>, universe: set<Key>, policy: Policy, now: int)
    requires Within(s, universe, now) && 0 < policy.windowMs <= LONGEST_WINDOW
    requires forall i, j :: 0 <= i < j < |keys| ==> keys[i] != keys[j]
    requires forall i :: 0 <= i < |keys| ==> keys[i] in universe
    ensures var (t, d) := Consume(s, keys, policy, now);
      Within(t, universe, now) && CallEffect(s, t, d, keys, policy, now)
  {
    FetchAll(s, keys, universe, policy.windowMs, now);
    var (ready, held) := WithBuckets(s, keys, policy.windowMs, now);
    if FirstBlocked(held, policy.limit) == |held| {
      NoneBlocked(s, keys, held, policy, now);
      CountedEffect(s, ready, keys, universe, policy, now, Allowed(Remaining(held, policy.limit)));
    }
  }

  /** Index of a bucket at its limit before which all are below it. */
  predicate FirstAtLimit(s: State, keys: seq<Key>, policy: Policy, now: int, i: nat)
    requires i < |keys|
  {
    && Fetched(s, keys[i], policy.windowMs, now).count >= policy.limit
    && forall j :: 0 <= j < i ==> Fetched(s, keys[j], policy.windowMs, now).count < policy.limit
  }

  lemma {:induction false} LargestIsReached(held: seq<Bucket>)
    ensures forall i :: 0 <= i < |held| ==> held[i].count <= Largest(held)
    ensures held != [] ==> exists i :: 0 <= i < |held| && held[i].count == Largest(held)
  {
    if held != [] {
      LargestIsReached(held[1..]);
      if held[0].count <= Largest(held[1..]) && |held| > 1 {
        var i :| 0 <= i < |held[1..]| && held[1..][i].count == Largest(held[1..]);
        assert held[i + 1].count == Largest(held);
      } else {
        assert held[0].count == Largest(held);
      }
    }
  }

  /** A bucket that leaves exactly `remaining` further calls, of which none leaves fewer. */
  predicate LeavesExactly(s: State, keys: seq<Key>, policy: Policy, now: int, remaining: nat) {
    && (forall i :: 0 <= i < |keys| ==>
          Fetched(s, keys[i], policy.windowMs, now).count + 1 + remaining <= policy.limit)
    && exists i :: 0 <= i < |keys| && Fetched(s, keys[i], policy.windowMs, now).count + 1 + remaining == policy.limit
  }

  lemma HeldLeaves(s: State, keys: seq<Key>, held: seq<Bucket>, policy: Policy, now: int)
    requires keys != [] && |held| == |keys|
    requires forall i :: 0 <= i < |keys| ==> held[i] == Fetched(s, keys[i], policy.windowMs, now)
    requires forall i :: 0 <= i < |keys| ==> held[i].count < policy.limit
    ensures LeavesExactly(s, keys, policy, now, Remaining(held, policy.limit))
  {
    LargestIsReached(held);
    var i :| 0 <= i < |held| && held[i].count == Largest(held);
    assert Fetched(s, keys[i], policy.windowMs, now).count + 1 + Remaining(held, policy.limit) == policy.limit;
  }

  /**
    What a call answers: it is allowed exactly while each of its keys is below the limit, with the
    number of calls its fullest bucket still has; a denial announces the end of the window of the
    first bucket at the limit.
   */
  lemma ConsumeAnswers(s: State, keys: seq<Key>, policy: Policy, now: int)
    requires WellFormed(s) && |Crowd(s, keys, now)| <= MAX_BUCKETS && 0 < policy.windowMs <= LONGEST_WINDOW
    requires keys != [] && forall i, j :: 0 <= i < j < |keys| ==> keys[i] != keys[j]
    ensures var d := Consume(s, keys, policy, now).1;
      && (d.Allowed? <==> forall i :: 0 <= i < |keys| ==>
        Fetched(s, keys[i], policy.windowMs, now).count < policy.limit)
      && (d.Allowed? ==> LeavesExactly(s, keys, policy, now, d.remaining))
      && (d.Denied? ==> DeniedAtLimit(s, keys, policy, now, d.retryAfterSeconds))
  {
    FetchAll(s, keys, Crowd(s, keys, now), policy.windowMs, now);
    var held := WithBuckets(s, keys, policy.windowMs, now).1;
    if FirstBlocked(held, policy.limit) < |held| {
      BlockedAtLimit(s, keys, held, policy, now);
    } else {
      HeldLeaves(s, keys, held, policy, now);
    }
  }

  lemma {:induction false} BlockedAtLimit(s: State, keys: seq<Key>, held: seq<Bucket>, policy: Policy, now: int)
    requires |held| == |keys| && 0 < policy.windowMs && FirstBlocked(held, policy.limit) < |held|
    requires forall i :: 0 <= i < |keys| ==> held[i] == Fetched(s, keys[i], policy.windowMs, now)
    ensures var b := FirstBlocked(held, policy.limit);
      && Fetched(s, keys[b], policy.windowMs, now).count >= policy.limit
      && DeniedAtLimit(s, keys, policy, now, RetryAfterSeconds(held[b], policy, now))
  {
    var b := FirstBlocked(held, policy.limit);
    assert held[b] == Fetched(s, keys[b], policy.windowMs, now);
    assert FirstAtLimit(s, keys, policy, now, b);
    RetryAfterIsExact(held[b], policy, now);
  }

  /** The first bucket at its limit ends its window after the announced seconds. */
  predicate DeniedAtLimit(s: State, keys: seq<Key>, policy: Policy, now: int, seconds: nat) {
    exists i: nat ::
      && i < |keys| && FirstAtLimit(s, keys, policy, now, i)
      && EndsWindow(Fetched(s, keys[i], policy.windowMs, now), policy, now, seconds)
  }

  /** After this many seconds the bucket's window is over, and a second earlier it is not. */
  predicate EndsWindow(b: Bucket, policy: Policy, now: int, seconds: nat) {
    !InWindow(b, policy.windowMs, now + seconds * 1000) && InWindow(b, policy.windowMs, now + (seconds - 1) * 1000)
  }

  /** The keys that share the map during a call: those with an unexpired bucket and the call's own. */
  function Crowd(s: State, keys: seq<Key>, now: int): set<Key> {
    Unexpired(s, now) + set k | k in keys
  }

  /** A denied call changes the count of no bucket whose window is still running. */
  lemma DeniedChangesNoLiveCount(s: State, keys: seq<Key>, policies: Scope -> Policy, scope: Scope, now: int, k: Key)
    requires WellFormed(s) && Sane(policies) && |Crowd(s, keys, now)| <= MAX_BUCKETS
    requires forall i, j :: 0 <= i < j < |keys| ==> keys[i] != keys[j]
    requires forall i :: 0 <= i < |keys| ==> keys[i].scope == scope
    requires Consume(s, keys, policies(scope), now).1.Denied? && Live(s, k, policies(k.scope).windowMs, now)
    ensures var t := Consume(s, keys, policies(scope), now).0;
      k in t.buckets && t.buckets[k] == s.buckets[k]
  {
    ConsumeEffect(s, keys, Crowd(s, keys, now), policies(scope), now);
    assert 0 < policies(k.scope).windowMs <= LONGEST_WINDOW;
  }

  // ---------------------------------------------------------------- allowed calls per window

  /** A bucket window and the times of the calls it allowed. */
  datatype Window = Window(start: int, times: seq<int>)

  function Allowing(h: seq<Window>, now: int): seq<Window>
    requires h != []
  {
    var last := h[|h| - 1];
    h[..|h| - 1] + [Window(last.start, last.times + [now])]
  }

  /** The windows once a call has found or created the key's bucket. */
  function Opened(s: State, h: seq<Window>, k: Key, windowMs: int, now: int): (open: seq<Window>)
    ensures open != []
  {
    if Live(s, k, windowMs, now) && h != [] then h else h + [Window(now, [])]
  }

  /** The windows after a call that counts the key. */
  function Extended(s: State, h: seq<Window>, k: Key, windowMs: int, now: int, allowed: bool): seq<Window> {
    if allowed then Allowing(Opened(s, h, k, windowMs, now), now) else Opened(s, h, k, windowMs, now)
  }

  /** The bucket windows a key has had, newest last. */
  function History(policies: Scope -> Policy, calls: seq<Call>, k: Key): (h: seq<Window>) {
    if calls == [] then []
    else
      var (before, c) := (calls[..|calls| - 1], calls[|calls| - 1]);
      var (s, h) := (Run(policies, before), History(policies, before, k));
      if k !in KeysOf(c) then h
      else Extended(s, h, k, policies(c.scope).windowMs, c.now, DecisionAt(policies, calls, |calls| - 1).Allowed?)
  }

  /** The times of all allowed calls that counted a key. */
  function AllowedTimes(policies: Scope -> Policy, calls: seq<Call>, k: Key): seq<int> {
    if calls == [] then []
    else
      var (before, c) := (calls[..|calls| - 1], calls[|calls| - 1]);
      AllowedTimes(policies, before, k)
      + if k in KeysOf(c) && DecisionAt(policies, calls, |calls| - 1).Allowed? then [c.now] else []
  }

  predicate WindowOk(w: Window, policy: Policy) {
    |w.times| <= policy.limit && forall i :: 0 <= i < |w.times| ==> w.start <= w.times[i] < w.start + policy.windowMs
  }

  /** Each window allows at most the limit, and windows do not overlap. */
  predicate Spaced(h: seq<Window>, policy: Policy) {
    && (forall i :: 0 <= i < |h| ==> WindowOk(h[i], policy))
    && (forall i, j :: 0 <= i < |h| && j == i + 1 < |h| ==> h[i].start + policy.windowMs <= h[j].start)
  }

  /** The map's bucket for a key is its newest window; without a bucket that window is over. */
  predicate Tracks(s: State, h: seq<Window>, k: Key, policy: Policy, clock: int) {
    && Spaced(h, policy)
    && (k in s.buckets ==>
      h != [] && s.buckets[k] == Bucket(|h[|h| - 1].times|, h[|h| - 1].start) && h[|h| - 1].start <= clock)
    && (k !in s.buckets && h != [] ==> h[|h| - 1].start + policy.windowMs <= clock)
  }

  lemma SpacedAppend(h: seq<Window>, w: Window, policy: Policy)
    requires Spaced(h, policy) && WindowOk(w, policy) && (h != [] ==> h[|h| - 1].start + policy.windowMs <= w.start)
    ensures Spaced(h + [w], policy)
  {
    var longer := h + [w];
    forall i | 0 <= i < |longer| ensures WindowOk(longer[i], policy) {
      assert i < |h| ==> longer[i] == h[i];
    }
    forall i, j | 0 <= i < |longer| && j == i + 1 < |longer|
      ensures longer[i].start + policy.windowMs <= longer[j].start {
      assert longer[i] == h[i];
      assert j < |h| ==> longer[j] == h[j];
    }
  }

  lemma OpenWindow(s: State, h: seq<Window>, k: Key, policy: Policy, clock: int, now: int)
    requires Tracks(s, h, k, policy, clock) && clock <= now && 0 < policy.windowMs
    ensures var open := Opened(s, h, k, policy.windowMs, now);
      && Spaced(open, policy)
      && Fetched(s, k, policy.windowMs, now) == Bucket(|open[|open| - 1].times|, open[|open| - 1].start)
      && open[|open| - 1].start <= now < open[|open| - 1].start + policy.windowMs
  {
    if !Live(s, k, policy.windowMs, now) {
      SpacedAppend(h, Window(now, []), policy);
    }
  }

  lemma AllowInWindow(open: seq<Window>, policy: Policy, now: int)
    requires open != [] && Spaced(open, policy) && |open[|open| - 1].times| < policy.limit
    requires open[|open| - 1].start <= now < open[|open| - 1].start + policy.windowMs
    ensures Spaced(Allowing(open, now), policy)
  {
    var last := open[|open| - 1];
    SpacedPrefix(open, policy);
    SpacedAppend(open[..|open| - 1], Window(last.start, last.times + [now]), policy);
  }

  lemma TrackCall(s: State, t: State, d: Decision, keys: seq<Key>, h: seq<Window>, k: Key, policy: Policy, clock: int,
      now: int)
    requires Tracks(s, h, k, policy, clock) && clock <= now && 0 < policy.windowMs <= LONGEST_WINDOW && k in keys
    requires CallEffect(s, t, d, keys, policy, now)
    ensures Tracks(t, Extended(s, h, k, policy.windowMs, now, d.Allowed?), k, policy, now)
  {
    OpenWindow(s, h, k, policy, clock, now);
    if d.Allowed? {
      AllowInWindow(Opened(s, h, k, policy.windowMs, now), policy, now);
    }
  }

  lemma TrackOther(s: State, t: State, d: Decision, keys: seq<Key>, h: seq<Window>, k: Key, own: Policy, policy: Policy,
      clock: int, now: int)
    requires Tracks(s, h, k, own, clock) && clock <= now && 0 < own.windowMs <= LONGEST_WINDOW && k !in keys
    requires CallEffect(s, t, d, keys, policy, now)
    ensures Tracks(t, h, k, own, now)
  {
  }

  /** One call keeps a key's windows in step with the map. */
  lemma TracksAfter(policies: Scope -> Policy, s: State, h: seq<Window>, c: Call, k: Key, clock: int)
    requires WellFormed(s) && |Crowd(s, KeysOf(c), c.now)| <= MAX_BUCKETS
    requires Sane(policies) && Tracks(s, h, k, policies(k.scope), clock) && clock <= c.now
    ensures var (t, d) := Consume(s, KeysOf(c), policies(c.scope), c.now);
      var after := if k in KeysOf(c) then Extended(s, h, k, policies(c.scope).windowMs, c.now, d.Allowed?) else h;
      Tracks(t, after, k, policies(k.scope), c.now)
  {
    assert 0 < policies(c.scope).windowMs <= LONGEST_WINDOW && 0 < policies(k.scope).windowMs <= LONGEST_WINDOW;
    var keys := KeysOf(c);
    ConsumeEffect(s, keys, Crowd(s, keys, c.now), policies(c.scope), c.now);
    var (t, d) := Consume(s, keys, policies(c.scope), c.now);
    if k in keys {
      TrackCall(s, t, d, keys, h, k, policies(c.scope), clock, c.now);
    } else {
      TrackOther(s, t, d, keys, h, k, policies(k.scope), policies(c.scope), clock, c.now);
    }
  }

  ghost predicate Sane(policies: Scope -> Policy) {
    forall sc :: 0 < policies(sc).windowMs <= 900_000
  }

  /**
    Times never decrease, and at no call are more buckets needed than the map may hold, so none is
    evicted for space.
   */
  ghost predicate Calm(policies: Scope -> Policy, calls: seq<Call>) {
    && (forall i, j :: 0 <= i <= j < |calls| ==> calls[i].now <= calls[j].now)
    && (forall i :: 0 <= i < |calls| ==> |CrowdAt(policies, calls, i)| <= MAX_BUCKETS)
  }

  function CrowdAt(policies: Scope -> Policy, calls: seq<Call>, i: nat): set<Key>
    requires i < |calls|
  {
    Crowd(Run(policies, calls[..i]), KeysOf(calls[i]), calls[i].now)
  }

  function Clock(calls: seq<Call>, otherwise: int): int {
    if calls == [] then otherwise else calls[|calls| - 1].now
  }

  lemma CalmPrefix(policies: Scope -> Policy, calls: seq<Call>)
    requires Calm(policies, calls) && calls != []
    ensures Calm(policies, calls[..|calls| - 1])
  {
    var before := calls[..|calls| - 1];
    forall i | 0 <= i < |before| ensures |CrowdAt(policies, before, i)| <= MAX_BUCKETS {
      assert before[..i] == calls[..i];
      assert |CrowdAt(policies, calls, i)| <= MAX_BUCKETS;
    }
  }

  lemma {:induction false} RunTracks(policies: Scope -> Policy, calls: seq<Call>, k: Key, start: int)
    requires Sane(policies) && Calm(policies, calls) && (calls != [] ==> start <= calls[0].now)
    ensures Tracks(Run(policies, calls), History(policies, calls, k), k, policies(k.scope), Clock(calls, start))
  {
    if calls != [] {
      var (before, c) := (calls[..|calls| - 1], calls[|calls| - 1]);
      CalmPrefix(policies, calls);
      RunTracks(policies, before, k, start);
      EveryRunIsBounded(policies, before);
      assert |CrowdAt(policies, calls, |calls| - 1)| <= MAX_BUCKETS;
      assert Clock(before, start) <= c.now;
      TracksAfter(policies, Run(policies, before), History(policies, before, k), c, k, Clock(before, start));
    }
  }

  // ---------------------------------------------------------------- allowed calls per interval

  function CountIn(times: seq<int>, from: int, to: int): nat {
    if times == [] then 0
    else CountIn(times[..|times| - 1], from, to) + if from <= times[|times| - 1] < to then 1 else 0
  }

  function Flatten(h: seq<Window>): seq<int> {
    if h == [] then [] else Flatten(h[..|h| - 1]) + h[|h| - 1].times
  }

  lemma {:induction false} CountConcat(a: seq<int>, b: seq<int>, from: int, to: int)
    ensures CountIn(a + b, from, to) == CountIn(a, from, to) + CountIn(b, from, to)
    decreases |b|
  {
    if b == [] {
      assert a + b == a;
    } else {
      assert (a + b)[..|a + b| - 1] == a + b[..|b| - 1];
      CountConcat(a, b[..|b| - 1], from, to);
    }
  }

  lemma {:induction false} CountAtMost(times: seq<int>, from: int, to: int)
    ensures CountIn(times, from, to) <= |times|
  {
    if times != [] {
      CountAtMost(times[..|times| - 1], from, to);
    }
  }

  lemma {:induction false} CountOutside(times: seq<int>, from: int, to: int)
    requires forall i :: 0 <= i < |times| ==> times[i] < from || times[i] >= to
    ensures CountIn(times, from, to) == 0
  {
    if times != [] {
      CountOutside(times[..|times| - 1], from, to);
    }
  }

  lemma SpacedPrefix(h: seq<Window>, policy: Policy)
    requires Spaced(h, policy) && h != []
    ensures Spaced(h[..|h| - 1], policy) && WindowOk(h[|h| - 1], policy)
    ensures |h| > 1 ==> h[..|h| - 1][|h| - 2].start + policy.windowMs <= h[|h| - 1].start
  {
    var before := h[..|h| - 1];
    assert forall i :: 0 <= i < |before| ==> before[i] == h[i];
    assert WindowOk(h[|h| - 1], policy);
    if |h| > 1 {
      assert h[|h| - 1 - 1].start + policy.windowMs <= h[|h| - 1].start;
    }
  }

  lemma LastCounts(h: seq<Window>, from: int, to: int)
    requires h != []
    ensures CountIn(Flatten(h), from, to)
      == CountIn(Flatten(h[..|h| - 1]), from, to) + CountIn(h[|h| - 1].times, from, to)
  {
    CountConcat(Flatten(h[..|h| - 1]), h[|h| - 1].times, from, to);
  }

  /** Windows that all began a whole window before an instant allowed nothing from it on. */
  lemma {:induction false} NothingLater(h: seq<Window>, policy: Policy, from: int, to: int)
    requires Spaced(h, policy) && 0 < policy.windowMs && (h != [] ==> h[|h| - 1].start + policy.windowMs <= from)
    ensures CountIn(Flatten(h), from, to) == 0
  {
    if h != [] {
      SpacedPrefix(h, policy);
      LastCounts(h, from, to);
      NothingLater(h[..|h| - 1], policy, from, to);
      CountOutside(h[|h| - 1].times, from, to);
    }
  }

  /** Windows that began before an instant allowed at most the limit from it on. */
  lemma {:induction false} AtMostOneWindow(h: seq<Window>, policy: Policy, from: int, to: int)
    requires Spaced(h, policy) && 0 < policy.windowMs && (h != [] ==> h[|h| - 1].start <= from)
    ensures CountIn(Flatten(h), from, to) <= policy.limit
  {
    if h != [] {
      SpacedPrefix(h, policy);
      LastCounts(h, from, to);
      NothingLater(h[..|h| - 1], policy, from, to);
      CountAtMost(h[|h| - 1].times, from, to);
    }
  }

  /** An interval as long as a window meets at most two windows. */
  lemma {:induction false} AtMostTwoWindows(h: seq<Window>, policy: Policy, from: int, to: int)
    requires Spaced(h, policy) && 0 < policy.windowMs && to == from + policy.windowMs
    ensures CountIn(Flatten(h), from, to) <= policy.limit + policy.limit
  {
    if h != [] {
      var last := h[|h| - 1];
      SpacedPrefix(h, policy);
      LastCounts(h, from, to);
      if last.start >= to {
        CountOutside(last.times, from, to);
        AtMostTwoWindows(h[..|h| - 1], policy, from, to);
      } else {
        CountAtMost(last.times, from, to);
        AtMostOneWindow(h[..|h| - 1], policy, from, to);
      }
    }
  }

  lemma {:induction false} FlattenAllowing(h: seq<Window>, now: int)
    requires h != []
    ensures Flatten(Allowing(h, now)) == Flatten(h) + [now]
  {
    var next := Allowing(h, now);
    assert next[..|next| - 1] == h[..|h| - 1];
  }

  lemma {:induction false} FlattenOpen(h: seq<Window>, now: int)
    ensures Flatten(h + [Window(now, [])]) == Flatten(h)
  {
    assert (h + [Window(now, [])])[..|h|] == h;
  }

  lemma {:induction false} FlattenExtended(s: State, h: seq<Window>, k: Key, windowMs: int, now: int, allowed: bool)
    ensures Flatten(Extended(s, h, k, windowMs, now, allowed)) == Flatten(h) + if allowed then [now] else []
  {
    FlattenOpen(h, now);
    FlattenAllowing(Opened(s, h, k, windowMs, now), now);
  }

  /** The windows hold exactly the allowed calls. */
  lemma {:induction false} HistoryIsComplete(policies: Scope -> Policy, calls: seq<Call>, k: Key)
    ensures Flatten(History(policies, calls, k)) == AllowedTimes(policies, calls, k)
  {
    if calls != [] {
      var (before, c) := (calls[..|calls| - 1], calls[|calls| - 1]);
      HistoryIsComplete(policies, before, k);
      FlattenExtended(Run(policies, before), History(policies, before, k), k, policies(c.scope).windowMs, c.now,
                      DecisionAt(policies, calls, |calls| - 1).Allowed?);
    }
  }

  lemma {:induction false} HistoryIsSpaced(policies: Scope -> Policy, calls: seq<Call>, k: Key)
    requires Sane(policies) && Calm(policies, calls)
    ensures Spaced(History(policies, calls, k), policies(k.scope)) && 0 < policies(k.scope).windowMs
  {
    RunTracks(policies, calls, k, if calls == [] then 0 else calls[0].now);
  }

  /**
    One identifier gets at most `limit` allowed calls in each of its bucket windows, and at most
    twice that in any interval as long as a window.
   */
  lemma {:induction false} AllowedCallsAreBounded(policies: Scope -> Policy, calls: seq<Call>, k: Key, from: int,
      to: int)
    requires Sane(policies) && Calm(policies, calls) && to == from + policies(k.scope).windowMs
    ensures Spaced(History(policies, calls, k), policies(k.scope))
    ensures Flatten(History(policies, calls, k)) == AllowedTimes(policies, calls, k)
    ensures CountIn(AllowedTimes(policies, calls, k), from, to) <= 2 * policies(k.scope).limit
  {
    HistoryIsSpaced(policies, calls, k);
    HistoryIsComplete(policies, calls, k);
    AtMostTwoWindows(History(policies, calls, k), policies(k.scope), from, to);
  }

  // ---------------------------------------------------------------- the same for an identifier

  /** The times of all allowed calls of a scope that were given an identifier. */
  function IdentifierTimes(policies: Scope -> Policy, calls: seq<Call>, scope: Scope, x: Text): seq<int> {
    if calls == [] then []
    else
      var (before, c) := (calls[..|calls| - 1], calls[|calls| - 1]);
      IdentifierTimes(policies, before, scope, x) +
      if c.scope == scope && x in c.identifiers && DecisionAt(policies, calls, |calls| - 1).Allowed? then [c.now]
      else []
  }

  lemma IdentifierIsKey(c: Call, scope: Scope, x: Text)
    requires x != [] && (x == ANONYMOUS ==> exists y :: y in c.identifiers && y != [])
    ensures Key(scope, x) in KeysOf(c) <==> c.scope == scope && x in c.identifiers
  {
    EffectiveKeysAre(c.scope, c.identifiers, x);
  }

  /** No call without identifiers: such calls share the anonymous key. */
  ghost predicate AllNamed(calls: seq<Call>) {
    forall i :: 0 <= i < |calls| ==> Named(calls[i])
  }

  predicate Named(c: Call) {
    exists y :: y in c.identifiers && y != []
  }

  lemma {:induction false} IdentifierTimesAreKeyTimes(policies: Scope -> Policy, calls: seq<Call>, scope: Scope,
      x: Text)
    requires x != [] && (x == ANONYMOUS ==> AllNamed(calls))
    ensures IdentifierTimes(policies, calls, scope, x) == AllowedTimes(policies, calls, Key(scope, x))
  {
    if calls != [] {
      var before := calls[..|calls| - 1];
      assert AllNamed(calls) ==> AllNamed(before) && Named(calls[|calls| - 1]);
      IdentifierTimesAreKeyTimes(policies, before, scope, x);
      IdentifierIsKey(calls[|calls| - 1], scope, x);
    }
  }

  /**
    Whatever else the calls are given, one address or email gets at most `limit` allowed calls in
    each of its windows, and at most twice that in any interval as long as a window.
   */
  lemma {:induction false} IdentifierCallsAreBounded(policies: Scope -> Policy, calls: seq<Call>, scope: Scope, x: Text,
      from: int, to: int)
    requires Sane(policies) && Calm(policies, calls) && to == from + policies(scope).windowMs
    requires x != [] && (x == ANONYMOUS ==> AllNamed(calls))
    ensures Spaced(History(policies, calls, Key(scope, x)), policies(scope))
    ensures Flatten(History(policies, calls, Key(scope, x))) == IdentifierTimes(policies, calls, scope, x)
    ensures CountIn(IdentifierTimes(policies, calls, scope, x), from, to) <= 2 * policies(scope).limit
  {
    IdentifierTimesAreKeyTimes(policies, calls, scope, x);
    AllowedCallsAreBounded(policies, calls, Key(scope, x), from, to);
  }
}
