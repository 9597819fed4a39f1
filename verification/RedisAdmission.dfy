/**
  The two Lua scripts of apps/api/src/modules/redis/redis.admission.ts over the keys of one
  identity, UTC day and mode: a counter and one marker per admission id.
  Scripts run atomically; `now` is the server time in milliseconds.
 */
module RedisAdmission {
  import opened Utf16

  /** A Redis value with its optional expiry instant; it is live strictly before that instant. */
  datatype Counter = Counter(value: nat, expiresAt: Option<int>)
  datatype MarkerKey = MarkerKey(text: Text, expiresAt: Option<int>)

  predicate Alive(expiresAt: Option<int>, now: int) {
    expiresAt.None? || now < expiresAt.value
  }

  /** PTTL of a live key: -1 without an expiry. */
  function Pttl(expiresAt: Option<int>, now: int): int
    requires Alive(expiresAt, now)
  {
    if expiresAt.None? then -1 else expiresAt.value - now
  }

  // ---------------------------------------------------------------- marker text

  const BAR: CodeUnit := 124
  const DENIED: nat := 0
  const RESERVED: nat := 1
  const COMPENSATED: nat := 2

  datatype AdmissionId = AdmissionId(text: Text)

  datatype Marker = Marker(owner: AdmissionId, outcome: nat, used: nat, remaining: nat, retryAfter: nat)

  function FormatMarker(m: Marker): Text {
    JoinWith([m.owner.text, Digits(m.outcome), Digits(m.used), Digits(m.remaining), Digits(m.retryAfter)], BAR)
  }

  /** The Lua pattern `^([^|]+)|([012])|(%d+)|(%d+)|(%d+)$`. */
  function ParseMarker(t: Text): Option<Marker> {
    ParseFields(SplitAt(t, BAR))
  }

  predicate Numeral(t: Text) {
    t != [] && AllDigits(t)
  }

  function ParseFields(f: seq<Text>): Option<Marker> {
    if |f| == 5 && f[0] != [] && (f[1] == [48] || f[1] == [49] || f[1] == [50]) &&
       Numeral(f[2]) && Numeral(f[3]) && Numeral(f[4])
    then Some(Marker(AdmissionId(f[0]), f[1][0] as nat - 48, NumberOf(f[2]), NumberOf(f[3]), NumberOf(f[4])))
    else None
  }

  /** Admission ids are non-empty and, by the key-component pattern, contain no bar. */
  predicate SafeId(id: AdmissionId) {
    id.text != [] && BAR !in id.text
  }

  predicate WellFormed(m: Marker) {
    SafeId(m.owner) && m.outcome <= COMPENSATED
  }

  lemma MarkerTextRoundTrip(m: Marker)
    requires WellFormed(m)
    ensures ParseMarker(FormatMarker(m)) == Some(m)
  {
    var f := [m.owner.text, Digits(m.outcome), Digits(m.used), Digits(m.remaining), Digits(m.retryAfter)];
    SplitInvertsJoin(f, BAR);
    DigitsRoundTrip(m.used);
    DigitsRoundTrip(m.remaining);
    DigitsRoundTrip(m.retryAfter);
  }

  /** How markers are written and read back; the proofs below use only that reading inverts writing. */
  datatype Codec = Codec(format: Marker -> Text, parse: Text -> Option<Marker>)

  const LUA := Codec(FormatMarker, ParseMarker)

  ghost predicate Faithful(c: Codec) {
    forall m :: WellFormed(m) ==> c.parse(c.format(m)) == Some(m)
  }

  lemma LuaIsFaithful()
    ensures Faithful(LUA)
  {
    forall m | WellFormed(m) ensures LUA.parse(LUA.format(m)) == Some(m) {
      MarkerTextRoundTrip(m);
    }
  }

  // ---------------------------------------------------------------- script semantics

  datatype Store = Store(counter: Option<Counter>, markers: map<AdmissionId, MarkerKey>)

  const EMPTY := Store(None, map[])

  datatype Reply = ErrorReply | Tuple(values: seq<int>)

  function Max0(n: int): nat {
    if n < 0 then 0 else n
  }

  function CeilSeconds(ms: nat): nat {
    (ms + 999) / 1000
  }

  predicate MarkerLive(s: Store, id: AdmissionId, now: int) {
    id in s.markers && Alive(s.markers[id].expiresAt, now)
  }

  predicate CounterLive(s: Store, now: int) {
    s.counter.Some? && Alive(s.counter.value.expiresAt, now)
  }

  function CounterPttl(s: Store, now: int): int {
    if CounterLive(s, now) then Pttl(s.counter.value.expiresAt, now) else -2
  }

  function MarkerOf(c: Codec, s: Store, id: AdmissionId, now: int): Option<Marker> {
    if MarkerLive(s, id, now) then c.parse(s.markers[id].text) else None
  }

  function CounterValue(s: Store, now: int): nat {
    if CounterLive(s, now) then s.counter.value.value else 0
  }

  /** Sets the owner's marker together with a new counter value. */
  function Written(c: Codec, s: Store, counter: Option<Counter>, m: Marker, expiry: int): Store {
    Store(counter, s.markers[m.owner := MarkerKey(c.format(m), Some(expiry))])
  }

  /** A live counter keeps its expiry; otherwise the day's remaining time starts one. */
  function Lifetime(s: Store, ttlMs: nat, now: int): nat {
    if CounterPttl(s, now) > 0 then CounterPttl(s, now) else ttlMs
  }

  function ReservationMarker(s: Store, limit: nat, ttlMs: nat, id: AdmissionId, now: int): Marker {
    var granted := CounterValue(s, now) < limit;
    var used := CounterValue(s, now) + if granted then 1 else 0;
    Marker(id, if granted then RESERVED else DENIED, used, Max0(limit - used), CeilSeconds(Lifetime(s, ttlMs, now)))
  }

  function CounterAfterReserve(s: Store, limit: nat, ttlMs: nat, now: int): Option<Counter> {
    if CounterValue(s, now) < limit then Some(Counter(CounterValue(s, now) + 1, Some(now + Lifetime(s, ttlMs, now))))
    else if CounterLive(s, now) then Some(Counter(CounterValue(s, now), Some(now + Lifetime(s, ttlMs, now))))
    else s.counter
  }

  /** What one run of the reservation script does to the keys, and its reply. */
  function Reserve(c: Codec, s: Store, limit: nat, ttlMs: nat, id: AdmissionId, now: int): (Store, Reply) {
    if MarkerLive(s, id, now) then
      match MarkerOf(c, s, id, now)
      case Some(m) =>
        if m.owner == id then (s, Tuple([m.outcome, m.used, m.remaining, m.retryAfter, 1])) else (s, ErrorReply)
      case None => (s, ErrorReply)
    else
      var m := ReservationMarker(s, limit, ttlMs, id, now);
      (Written(c, s, CounterAfterReserve(s, limit, ttlMs, now), m, now + Lifetime(s, ttlMs, now)),
       Tuple([m.outcome, m.used, m.remaining, m.retryAfter, 0]))
  }

  /** What one run of the compensation script does to the keys, and its reply. */
  function Compensate(c: Codec, s: Store, limit: nat, id: AdmissionId, now: int): (Store, Reply) {
    if !MarkerLive(s, id, now) then (s, Tuple([0, 0, limit, 0]))
    else
      match MarkerOf(c, s, id, now)
      case None => (s, ErrorReply)
      case Some(m) =>
        var lifetime := Pttl(s.markers[id].expiresAt, now);
        if m.owner != id then (s, ErrorReply)
        else if lifetime <= 0 || m.outcome != RESERVED then (s, Tuple([0, m.used, m.remaining, m.retryAfter]))
        else
          var used := Max0(CounterValue(s, now) - 1);
          var counter := if CounterValue(s, now) == 0 then s.counter
                         else if used == 0 then None
                         else Some(Counter(used, Some(now + lifetime)));
          var tombstone := Marker(id, COMPENSATED, used, Max0(limit - used), CeilSeconds(lifetime));
          (Written(c, s, counter, tombstone, now + lifetime),
           Tuple([1, used, tombstone.remaining, tombstone.retryAfter]))
  }

  /** The keys themselves, changed one Redis command at a time as the scripts do. */
  class AdmissionKeys {
    var counter: Option<Counter>
    var markers: map<AdmissionId, MarkerKey>
    const codec: Codec

    function Contents(): Store
      reads this
    {
      Store(counter, markers)
    }

    constructor ()
      ensures Contents() == EMPTY && codec == LUA
    {
      counter, markers, codec := None, map[], LUA;
    }

    method Incr(now: int) returns (value: nat)
      modifies this`counter
      ensures value == old(CounterValue(Contents(), now)) + 1
      ensures counter
        == Some(Counter(value, if old(CounterLive(Contents(), now)) then old(counter.value.expiresAt) else None))
    {
      if CounterLive(Contents(), now) {
        counter := Some(Counter(counter.value.value + 1, counter.value.expiresAt));
      } else {
        counter := Some(Counter(1, None));
      }
      value := counter.value.value;
    }

    method PExpireAt(at: int, now: int)
      modifies this`counter
      ensures counter == if !old(CounterLive(Contents(), now)) then old(counter)
                         else if at <= now then None
                         else Some(Counter(old(counter.value.value), Some(at)))
    {
      if CounterLive(Contents(), now) {
        counter := if at <= now then None else Some(Counter(counter.value.value, Some(at)));
      }
    }

    /** RESERVE_QUOTA_ADMISSION_SCRIPT, command by command. */
    method RunReserve(limit: nat, ttlMs: nat, id: AdmissionId, now: int) returns (reply: Reply)
      requires ttlMs > 0
      modifies this
      ensures (Contents(), reply) == Reserve(codec, old(Contents()), limit, ttlMs, id, now)
    {
      if MarkerLive(Contents(), id, now) {
        var marker := codec.parse(markers[id].text);
        if marker.None? || marker.value.owner != id {
          return ErrorReply;
        }
        var m := marker.value;
        return Tuple([m.outcome, m.used, m.remaining, m.retryAfter, 1]);
      }
      var present := CounterLive(Contents(), now);
      var used := CounterValue(Contents(), now);
      var currentPttl := CounterPttl(Contents(), now);
      var expiryAt := now + ttlMs;
      if currentPttl > 0 {
        expiryAt := now + currentPttl;
      }
      var outcome := DENIED;
      if used < limit {
        used := Incr(now);
        outcome := RESERVED;
        PExpireAt(expiryAt, now);
      } else if currentPttl <= 0 && present {
        PExpireAt(expiryAt, now);
      }
      var remaining: int := limit - used;
      if remaining < 0 {
        remaining := 0;
      }
      var retryAfter := CeilSeconds(expiryAt - now);
      markers := markers[id :=
        MarkerKey(codec.format(Marker(id, outcome, used, remaining, retryAfter)), Some(expiryAt))];
      reply := Tuple([outcome, used, remaining, retryAfter, 0]);
    }

    /** COMPENSATE_QUOTA_ADMISSION_SCRIPT, command by command. */
    method RunCompensate(limit: nat, id: AdmissionId, now: int) returns (reply: Reply)
      modifies this
      ensures (Contents(), reply) == Compensate(codec, old(Contents()), limit, id, now)
    {
      if !MarkerLive(Contents(), id, now) {
        return Tuple([0, 0, limit, 0]);
      }
      var marker := codec.parse(markers[id].text);
      if marker.None? || marker.value.owner != id {
        return ErrorReply;
      }
      var m := marker.value;
      var markerPttl := Pttl(markers[id].expiresAt, now);
      if markerPttl <= 0 || m.outcome != RESERVED {
        return Tuple([0, m.used, m.remaining, m.retryAfter]);
      }
      var expiryAt := now + markerPttl;
      var nextUsed := CounterValue(Contents(), now);
      if nextUsed > 0 {
        nextUsed := nextUsed - 1;
        counter := Some(Counter(nextUsed, counter.value.expiresAt));
        if nextUsed <= 0 {
          counter := None;
          nextUsed := 0;
        } else {
          PExpireAt(expiryAt, now);
        }
      }
      var nextRemaining: int := limit - nextUsed;
      if nextRemaining < 0 {
        nextRemaining := 0;
      }
      var retryAfter := CeilSeconds(expiryAt - now);
      markers := markers[id :=
        MarkerKey(codec.format(Marker(id, COMPENSATED, nextUsed, nextRemaining, retryAfter)), Some(expiryAt))];
      reply := Tuple([1, nextUsed, nextRemaining, retryAfter]);
    }
  }

  // ---------------------------------------------------------------- the TypeScript result checks

  const MAX_SAFE_INTEGER := 9007199254740991

  predicate RedisIntegers(values: seq<int>) {
    forall i :: 0 <= i < |values| ==> 0 <= values[i] <= MAX_SAFE_INTEGER
  }

  datatype ReservationResult = ReservationResult(outcome: nat, allowed: bool, used: nat, remaining: nat,
    retryAfterSeconds: nat, replayed: bool)

  /** parseReservationResult; None stands for the thrown RedisCommandError. */
  function ParseReservation(raw: Reply, limit: nat, maxTtlSeconds: nat): Option<ReservationResult> {
    if raw.ErrorReply? || |raw.values| != 5 || !RedisIntegers(raw.values) then None
    else
      var v := raw.values;
      if v[0] > 2 || v[2] != Max0(limit - v[1]) || v[4] > 1 || v[3] > maxTtlSeconds
         || (v[0] == RESERVED && (v[1] == 0 || v[1] > limit)) || (v[0] == DENIED && v[1] < limit)
      then None
      else Some(ReservationResult(v[0], v[0] == RESERVED, v[1], v[2], v[3], v[4] == 1))
  }

  datatype CompensationResult = CompensationResult(compensated: bool, used: nat, remaining: nat, retryAfterSeconds: nat)

  /** parseCompensationResult; None stands for the thrown RedisCommandError. */
  function ParseCompensation(raw: Reply, limit: nat, maxTtlSeconds: nat): Option<CompensationResult> {
    if raw.ErrorReply? || |raw.values| != 4 || !RedisIntegers(raw.values) then None
    else
      var v := raw.values;
      if v[0] > 1 || v[2] != Max0(limit - v[1]) || v[3] > maxTtlSeconds then None
      else Some(CompensationResult(v[0] == 1, v[1], v[2], v[3]))
  }

  /**
    A reply that passes the checks is consistent: what remains is what is not used, and only a use
    within the limit is allowed.
   */
  lemma CheckedReplies(raw: Reply, limit: nat, maxTtlSeconds: nat)
    ensures ParseReservation(raw, limit, maxTtlSeconds).Some? ==>
      var r := ParseReservation(raw, limit, maxTtlSeconds).value;
      && r.outcome in {DENIED, RESERVED, COMPENSATED} && r.remaining == (if r.used < limit then limit - r.used else 0)
      && r.retryAfterSeconds <= maxTtlSeconds && (r.allowed <==> r.outcome == RESERVED)
      && (r.allowed ==> 1 <= r.used <= limit) && (r.outcome == DENIED ==> r.used >= limit)
    ensures ParseCompensation(raw, limit, maxTtlSeconds).Some? ==>
      var r := ParseCompensation(raw, limit, maxTtlSeconds).value;
      r.remaining == (if r.used < limit then limit - r.used else 0) && r.retryAfterSeconds <= maxTtlSeconds
  {
  }

  // ---------------------------------------------------------------- coherence of reachable keys

  predicate SoundMarker(c: Codec, id: AdmissionId, e: MarkerKey, limit: nat, maxTtlSeconds: nat, now: int) {
    && e.expiresAt.Some? && e.expiresAt.value - now <= maxTtlSeconds * 1000
    && c.parse(e.text).Some?
    && var m := c.parse(e.text).value;
       && m.owner == id && m.outcome <= COMPENSATED
       && m.used <= limit && m.remaining == limit - m.used && m.retryAfter <= maxTtlSeconds
       && (m.outcome == RESERVED ==> m.used >= 1)
       && (m.outcome == DENIED ==> m.used == limit)
  }

  /** The ids whose live marker records a reservation that was not compensated. */
  function Granted(c: Codec, s: Store, now: int): set<AdmissionId> {
    set id | id in s.markers && MarkerOf(c, s, id, now).Some? && MarkerOf(c, s, id, now).value.outcome == RESERVED
  }

  predicate AllSound(c: Codec, s: Store, limit: nat, maxTtlSeconds: nat, now: int) {
    forall id :: id in s.markers ==> SoundMarker(c, id, s.markers[id], limit, maxTtlSeconds, now)
  }

  /**
    What every reachable store satisfies: the counter is the number of granted ids, shares its
    expiry with all their markers, and never exceeds the limit.
   */
  predicate Coherent(c: Codec, s: Store, limit: nat, maxTtlSeconds: nat, now: int) {
    && AllSound(c, s, limit, maxTtlSeconds, now)
    && CounterAgrees(c, s, limit, maxTtlSeconds, now)
  }

  predicate CounterAgrees(c: Codec, s: Store, limit: nat, maxTtlSeconds: nat, now: int) {
    && CounterValue(s, now) == |Granted(c, s, now)| <= limit
    && (CounterLive(s, now) ==>
          && s.counter.value.value >= 1
          && s.counter.value.expiresAt.Some? && s.counter.value.expiresAt.value - now <= maxTtlSeconds * 1000
          && forall id :: id in Granted(c, s, now) ==> s.markers[id].expiresAt == s.counter.value.expiresAt)
  }

  lemma TimeKeepsCoherent(c: Codec, s: Store, limit: nat, maxTtlSeconds: nat, now: int, later: int)
    requires Coherent(c, s, limit, maxTtlSeconds, now) && now <= later
    ensures Coherent(c, s, limit, maxTtlSeconds, later)
  {
    assert forall id :: id in s.markers && MarkerLive(s, id, later) ==> MarkerLive(s, id, now);
    assert Granted(c, s, later) <= Granted(c, s, now);
    if !CounterLive(s, later) {
      if CounterLive(s, now) {
        assert Granted(c, s, later) == {};
      } else {
        assert Granted(c, s, now) == {};
      }
    } else {
      assert Granted(c, s, later) == Granted(c, s, now);
    }
  }

  /** Writing one sound marker changes what is read back for its owner only. */
  lemma WrittenMarker(c: Codec, s: Store, counter: Option<Counter>, m: Marker, expiry: int,
                      limit: nat, maxTtlSeconds: nat, now: int)
    requires AllSound(c, s, limit, maxTtlSeconds, now)
    requires Faithful(c) && WellFormed(m)
    requires now < expiry <= now + maxTtlSeconds * 1000
    requires m.used <= limit && m.remaining == limit - m.used && m.retryAfter <= maxTtlSeconds
    requires m.outcome == RESERVED ==> m.used >= 1
    requires m.outcome == DENIED ==> m.used == limit
    ensures var s' := Written(c, s, counter, m, expiry);
      && AllSound(c, s', limit, maxTtlSeconds, now)
      && MarkerOf(c, s', m.owner, now) == Some(m)
      && Granted(c, s', now) == if m.outcome == RESERVED then Granted(c, s, now) + {m.owner}
        else Granted(c, s, now) - {m.owner}
  {
    var s' := Written(c, s, counter, m, expiry);
    assert forall id :: id in s.markers && id != m.owner ==> MarkerOf(c, s', id, now) == MarkerOf(c, s, id, now);
  }

  lemma LifetimeBounds(c: Codec, s: Store, limit: nat, maxTtlSeconds: nat, ttlSeconds: nat, now: int)
    requires Coherent(c, s, limit, maxTtlSeconds, now) && 1 <= ttlSeconds <= maxTtlSeconds
    ensures 0 < Lifetime(s, ttlSeconds * 1000, now) <= maxTtlSeconds * 1000
    ensures CeilSeconds(Lifetime(s, ttlSeconds * 1000, now)) <= maxTtlSeconds
    ensures CounterLive(s, now) ==> s.counter.value.expiresAt == Some(now + Lifetime(s, ttlSeconds * 1000, now))
  {
  }

  lemma ReserveKeepsCoherent(c: Codec, s: Store, limit: nat, maxTtlSeconds: nat, ttlSeconds: nat, id: AdmissionId,
      now: int)
    requires Faithful(c) && Coherent(c, s, limit, maxTtlSeconds, now)
    requires SafeId(id) && 1 <= ttlSeconds <= maxTtlSeconds
    ensures Coherent(c, Reserve(c, s, limit, ttlSeconds * 1000, id, now).0, limit, maxTtlSeconds, now)
  {
    if !MarkerLive(s, id, now) {
      LifetimeBounds(c, s, limit, maxTtlSeconds, ttlSeconds, now);
      var expiry := now + Lifetime(s, ttlSeconds * 1000, now);
      var m := ReservationMarker(s, limit, ttlSeconds * 1000, id, now);
      GrantKeepsCoherent(c, s, CounterAfterReserve(s, limit, ttlSeconds * 1000, now), m, expiry, limit, maxTtlSeconds,
        now);
    }
  }

  lemma GrantKeepsCoherent(c: Codec, s: Store, counter: Option<Counter>, m: Marker, expiry: int,
                           limit: nat, maxTtlSeconds: nat, now: int)
    requires Faithful(c) && Coherent(c, s, limit, maxTtlSeconds, now)
    requires WellFormed(m) && !MarkerLive(s, m.owner, now)
    requires now < expiry <= now + maxTtlSeconds * 1000 && m.retryAfter <= maxTtlSeconds
    requires CounterLive(s, now) ==> s.counter.value.expiresAt == Some(expiry)
    requires m.outcome == if CounterValue(s, now) < limit then RESERVED else DENIED
    requires m.used == CounterValue(s, now) + m.outcome && m.remaining == limit - m.used
    requires counter == if m.outcome == RESERVED || CounterLive(s, now) then Some(Counter(m.used, Some(expiry)))
      else s.counter
    ensures Coherent(c, Written(c, s, counter, m, expiry), limit, maxTtlSeconds, now)
  {
    WrittenMarker(c, s, counter, m, expiry, limit, maxTtlSeconds, now);
    assert m.owner !in Granted(c, s, now);
    if !CounterLive(s, now) {
      assert Granted(c, s, now) == {};
    }
  }

  lemma CompensateKeepsCoherent(c: Codec, s: Store, limit: nat, maxTtlSeconds: nat, id: AdmissionId, now: int)
    requires Faithful(c) && Coherent(c, s, limit, maxTtlSeconds, now)
    requires SafeId(id)
    ensures Coherent(c, Compensate(c, s, limit, id, now).0, limit, maxTtlSeconds, now)
  {
    if MarkerOf(c, s, id, now).Some? && MarkerOf(c, s, id, now).value.outcome == RESERVED {
      assert id in Granted(c, s, now);
      var used := CounterValue(s, now) - 1;
      var expiry := s.markers[id].expiresAt.value;
      var m := Marker(id, COMPENSATED, used, Max0(limit - used), CeilSeconds(expiry - now));
      var counter := if used == 0 then None else Some(Counter(used, Some(expiry)));
      assert Compensate(c, s, limit, id, now).0 == Written(c, s, counter, m, expiry);
      RevokeKeepsCoherent(c, s, counter, m, expiry, limit, maxTtlSeconds, now);
    }
  }

  lemma RevokeKeepsCoherent(c: Codec, s: Store, counter: Option<Counter>, m: Marker, expiry: int,
                            limit: nat, maxTtlSeconds: nat, now: int)
    requires Faithful(c) && Coherent(c, s, limit, maxTtlSeconds, now)
    requires WellFormed(m) && m.owner in Granted(c, s, now) && s.markers[m.owner].expiresAt == Some(expiry)
    requires m.outcome == COMPENSATED && m.retryAfter <= maxTtlSeconds
    requires m.used == CounterValue(s, now) - 1 && m.remaining == limit - m.used
    requires counter == if m.used == 0 then None else Some(Counter(m.used, Some(expiry)))
    ensures Coherent(c, Written(c, s, counter, m, expiry), limit, maxTtlSeconds, now)
  {
    WrittenMarker(c, s, counter, m, expiry, limit, maxTtlSeconds, now);
  }

  // ---------------------------------------------------------------- all runs of both scripts

  datatype Command =
    | ReserveCommand(id: AdmissionId, ttlSeconds: nat, now: int)
    | CompensateCommand(id: AdmissionId, now: int)

  function Exec(c: Codec, s: Store, limit: nat, command: Command): (Store, Reply) {
    match command
    case ReserveCommand(id, ttlSeconds, now) => Reserve(c, s, limit, ttlSeconds * 1000, id, now)
    case CompensateCommand(id, now) => Compensate(c, s, limit, id, now)
  }

  function Run(c: Codec, limit: nat, commands: seq<Command>): Store {
    if commands == [] then EMPTY
    else Exec(c, Run(c, limit, commands[..|commands| - 1]), limit, commands[|commands| - 1]).0
  }

  /** Calls the services can make: safe ids, a bounded positive TTL, and a clock that never goes back. */
  predicate Scheduled(commands: seq<Command>, maxTtlSeconds: nat) {
    && (forall k :: 0 <= k < |commands| ==>
          SafeId(commands[k].id) && (commands[k].ReserveCommand? ==> 1 <= commands[k].ttlSeconds <= maxTtlSeconds))
    && forall i, j :: 0 <= i <= j < |commands| ==> commands[i].now <= commands[j].now
  }

  lemma {:induction false} EveryRunIsCoherent(c: Codec, limit: nat, maxTtlSeconds: nat, commands: seq<Command>,
      now: int)
    requires Faithful(c) && Scheduled(commands, maxTtlSeconds)
    requires commands != [] ==> commands[|commands| - 1].now <= now
    ensures Coherent(c, Run(c, limit, commands), limit, maxTtlSeconds, now)
  {
    if commands == [] {
      assert Granted(c, EMPTY, now) == {};
    } else {
      var last := commands[|commands| - 1];
      var before := Run(c, limit, commands[..|commands| - 1]);
      EveryRunIsCoherent(c, limit, maxTtlSeconds, commands[..|commands| - 1], last.now);
      match last {
        case ReserveCommand(id, ttlSeconds, at) =>
          ReserveKeepsCoherent(c, before, limit, maxTtlSeconds, ttlSeconds, id, at);
        case CompensateCommand(id, at) =>
          CompensateKeepsCoherent(c, before, limit, maxTtlSeconds, id, at);
      }
      TimeKeepsCoherent(c, Run(c, limit, commands), limit, maxTtlSeconds, last.now, now);
    }
  }

  /** Every reservation reply of a run passes the checks, and says whether the id is now granted. */
  lemma {:induction false} ReservationRepliesAccepted(c: Codec, limit: nat, maxTtlSeconds: nat, commands: seq<Command>,
      ttlSeconds: nat,
                                   id: AdmissionId, now: int)
    requires Faithful(c) && Scheduled(commands + [ReserveCommand(id, ttlSeconds, now)], maxTtlSeconds)
    requires limit <= 100_000 && maxTtlSeconds <= 86_400
    ensures var before := Run(c, limit, commands);
      var (after, reply) := Reserve(c, before, limit, ttlSeconds * 1000, id, now);
      var parsed := ParseReservation(reply, limit, maxTtlSeconds);
      && parsed.Some?
      && parsed.value.replayed == MarkerLive(before, id, now)
      && (parsed.value.allowed <==> id in Granted(c, after, now))
      && (!parsed.value.replayed && parsed.value.allowed ==>
            parsed.value.used == CounterValue(after, now) == CounterValue(before, now) + 1)
  {
    var all := commands + [ReserveCommand(id, ttlSeconds, now)];
    assert all[|commands|].id == id && all[..|commands|] == commands;
    assert Scheduled(commands, maxTtlSeconds) by {
      assert forall k :: 0 <= k < |commands| ==> commands[k] == all[k];
    }
    if commands != [] { assert commands[|commands| - 1] == all[|commands| - 1]; }
    EveryRunIsCoherent(c, limit, maxTtlSeconds, commands, now);
    var before := Run(c, limit, commands);
    ReserveReplyAccepted(c, before, limit, maxTtlSeconds, ttlSeconds, id, now);
  }

  /** The figures of a sound marker form an acceptable reply, fresh or replayed. */
  lemma MarkerReplyAccepted(m: Marker, limit: nat, maxTtlSeconds: nat, replayed: int)
    requires m.outcome <= COMPENSATED && m.used <= limit <= 100_000 && m.remaining == limit - m.used
    requires m.retryAfter <= maxTtlSeconds <= 86_400 && 0 <= replayed <= 1
    requires m.outcome == RESERVED ==> m.used >= 1
    requires m.outcome == DENIED ==> m.used == limit
    ensures ParseReservation(Tuple([m.outcome, m.used, m.remaining, m.retryAfter, replayed]), limit, maxTtlSeconds)
         == Some(ReservationResult(m.outcome, m.outcome == RESERVED, m.used, m.remaining, m.retryAfter, replayed == 1))
    ensures replayed == 0 ==>
      ParseCompensation(Tuple([if m.outcome == COMPENSATED then 1 else 0, m.used, m.remaining, m.retryAfter]), limit,
        maxTtlSeconds)
        == Some(CompensationResult(m.outcome == COMPENSATED, m.used, m.remaining, m.retryAfter))
  {
  }

  lemma ReservationFigures(c: Codec, s: Store, limit: nat, maxTtlSeconds: nat, ttlSeconds: nat, id: AdmissionId,
      now: int)
    requires Coherent(c, s, limit, maxTtlSeconds, now) && 1 <= ttlSeconds <= maxTtlSeconds
    ensures var m := ReservationMarker(s, limit, ttlSeconds * 1000, id, now);
      && m.used <= limit && m.remaining == limit - m.used && m.retryAfter <= maxTtlSeconds
      && m.used == CounterValue(s, now) + m.outcome
      && m.outcome == if CounterValue(s, now) < limit then RESERVED else DENIED
  {
    LifetimeBounds(c, s, limit, maxTtlSeconds, ttlSeconds, now);
  }

  lemma FreshReservation(c: Codec, s: Store, limit: nat, maxTtlSeconds: nat, ttlSeconds: nat, id: AdmissionId, now: int)
    requires Faithful(c) && Coherent(c, s, limit, maxTtlSeconds, now) && !MarkerLive(s, id, now)
    requires SafeId(id) && 1 <= ttlSeconds <= maxTtlSeconds
    ensures var m := ReservationMarker(s, limit, ttlSeconds * 1000, id, now);
      var after := Reserve(c, s, limit, ttlSeconds * 1000, id, now).0;
      && CounterValue(after, now) == m.used
      && MarkerOf(c, after, id, now) == Some(m)
      && forall o :: o != id ==> MarkerOf(c, after, o, now) == MarkerOf(c, s, o, now)
  {
    LifetimeBounds(c, s, limit, maxTtlSeconds, ttlSeconds, now);
  }

  /**
    A fresh reservation's marker expires with the live counter, or else after the given time; its
    reply announces that expiry, rounded up to whole seconds.
   */
  lemma ReservationTiming(c: Codec, s: Store, limit: nat, maxTtlSeconds: nat, ttlSeconds: nat, id: AdmissionId,
      now: int)
    requires Faithful(c) && Coherent(c, s, limit, maxTtlSeconds, now) && !MarkerLive(s, id, now)
    requires SafeId(id) && 1 <= ttlSeconds <= maxTtlSeconds
    ensures var (after, reply) := Reserve(c, s, limit, ttlSeconds * 1000, id, now);
      && reply.Tuple? && |reply.values| == 5 && id in after.markers && after.markers[id].expiresAt.Some?
      && var expiry := after.markers[id].expiresAt.value;
         && expiry <= now + reply.values[3] * 1000 < expiry + 1000
         && (CounterLive(s, now) ==> Some(expiry) == s.counter.value.expiresAt)
         && (!CounterLive(s, now) ==> expiry == now + ttlSeconds * 1000)
         && (CounterLive(after, now) ==> after.counter.value.expiresAt == Some(expiry))
  {
    LifetimeBounds(c, s, limit, maxTtlSeconds, ttlSeconds, now);
  }

  /** A reservation that finds a live marker answers with the marker's own figures and changes nothing. */
  lemma ReplayRepeats(c: Codec, s: Store, limit: nat, maxTtlSeconds: nat, ttlMs: nat, id: AdmissionId, now: int)
    requires Coherent(c, s, limit, maxTtlSeconds, now) && MarkerLive(s, id, now)
    ensures var m := c.parse(s.markers[id].text);
      && m.Some?
      && Reserve(c, s, limit, ttlMs, id, now) ==
           (s, Tuple([m.value.outcome, m.value.used, m.value.remaining, m.value.retryAfter, 1]))
  {
    assert SoundMarker(c, id, s.markers[id], limit, maxTtlSeconds, now);
  }

  /** A compensation leaves a tombstone with the marker's expiry, which its reply announces in whole seconds. */
  lemma CompensationTiming(c: Codec, s: Store, limit: nat, maxTtlSeconds: nat, id: AdmissionId, now: int)
    requires Faithful(c) && Coherent(c, s, limit, maxTtlSeconds, now) && SafeId(id) && id in Granted(c, s, now)
    ensures var (after, reply) := Compensate(c, s, limit, id, now);
      && reply.Tuple? && |reply.values| == 4 && id in after.markers
      && after.markers[id].expiresAt == s.markers[id].expiresAt && s.markers[id].expiresAt.Some?
      && Tombstoned(c, after, id)
      && var expiry := s.markers[id].expiresAt.value;
         expiry <= now + reply.values[3] * 1000 < expiry + 1000
  {
    var used := CounterValue(s, now) - 1;
    var expiry := s.markers[id].expiresAt.value;
    var m := Marker(id, COMPENSATED, used, Max0(limit - used), CeilSeconds(expiry - now));
    assert c.parse(c.format(m)) == Some(m);
  }

  lemma ReserveReplyAccepted(c: Codec, s: Store, limit: nat, maxTtlSeconds: nat, ttlSeconds: nat, id: AdmissionId,
      now: int)
    requires Faithful(c) && Coherent(c, s, limit, maxTtlSeconds, now)
    requires SafeId(id) && 1 <= ttlSeconds <= maxTtlSeconds <= 86_400 && limit <= 100_000
    ensures var (after, reply) := Reserve(c, s, limit, ttlSeconds * 1000, id, now);
      var parsed := ParseReservation(reply, limit, maxTtlSeconds);
      && parsed.Some?
      && parsed.value.replayed == MarkerLive(s, id, now)
      && (parsed.value.allowed <==> id in Granted(c, after, now))
      && (!parsed.value.replayed && parsed.value.allowed ==>
        parsed.value.used == CounterValue(after, now) == CounterValue(s, now) + 1)
  {
    if MarkerLive(s, id, now) {
      MarkerReplyAccepted(MarkerOf(c, s, id, now).value, limit, maxTtlSeconds, 1);
    } else {
      FreshReservation(c, s, limit, maxTtlSeconds, ttlSeconds, id, now);
      ReservationFigures(c, s, limit, maxTtlSeconds, ttlSeconds, id, now);
      MarkerReplyAccepted(ReservationMarker(s, limit, ttlSeconds * 1000, id, now), limit, maxTtlSeconds, 0);
    }
  }

  /** A compensation reply passes its checks, and exactly a granted id is given back. */
  lemma CompensateReplyAccepted(c: Codec, s: Store, limit: nat, maxTtlSeconds: nat, id: AdmissionId, now: int)
    requires Faithful(c) && Coherent(c, s, limit, maxTtlSeconds, now)
    requires SafeId(id) && maxTtlSeconds <= 86_400 && limit <= 100_000
    ensures var (after, reply) := Compensate(c, s, limit, id, now);
      var parsed := ParseCompensation(reply, limit, maxTtlSeconds);
      && parsed.Some?
      && (parsed.value.compensated <==> id in Granted(c, s, now))
      && Granted(c, after, now) == Granted(c, s, now) - {id}
      && CounterValue(after, now) == CounterValue(s, now) - if parsed.value.compensated then 1 else 0
  {
    if id in Granted(c, s, now) {
      var used := CounterValue(s, now) - 1;
      var expiry := s.markers[id].expiresAt.value;
      var m := Marker(id, COMPENSATED, used, Max0(limit - used), CeilSeconds(expiry - now));
      var counter := if used == 0 then None else Some(Counter(used, Some(expiry)));
      assert Compensate(c, s, limit, id, now)
        == (Written(c, s, counter, m, expiry), Tuple([1, m.used, m.remaining, m.retryAfter]));
      WrittenMarker(c, s, counter, m, expiry, limit, maxTtlSeconds, now);
      MarkerReplyAccepted(m, limit, maxTtlSeconds, 0);
    } else {
      UncompensatedReply(c, s, limit, maxTtlSeconds, id, now);
    }
  }

  lemma UncompensatedReply(c: Codec, s: Store, limit: nat, maxTtlSeconds: nat, id: AdmissionId, now: int)
    requires Coherent(c, s, limit, maxTtlSeconds, now) && id !in Granted(c, s, now)
    requires maxTtlSeconds <= 86_400 && limit <= 100_000
    ensures Compensate(c, s, limit, id, now).0 == s
    ensures var parsed := ParseCompensation(Compensate(c, s, limit, id, now).1, limit, maxTtlSeconds);
      parsed.Some? && !parsed.value.compensated
  {
  }

  // ---------------------------------------------------------------- while a marker lives

  /** A reservation that incremented the counter, as opposed to a replay. */
  predicate FreshGrant(c: Codec, limit: nat, commands: seq<Command>, i: nat)
    requires i < |commands|
  {
    var reply := Exec(c, Run(c, limit, commands[..i]), limit, commands[i]).1;
    commands[i].ReserveCommand? && reply.Tuple? && |reply.values| == 5 && reply.values[0] == RESERVED &&
      reply.values[4] == 0
  }

  predicate Compensates(c: Codec, limit: nat, commands: seq<Command>, i: nat)
    requires i < |commands|
  {
    var reply := Exec(c, Run(c, limit, commands[..i]), limit, commands[i]).1;
    commands[i].CompensateCommand? && reply.Tuple? && |reply.values| == 4 && reply.values[0] == 1
  }

  predicate Tombstoned(c: Codec, s: Store, id: AdmissionId) {
    id in s.markers && c.parse(s.markers[id].text).Some? && c.parse(s.markers[id].text).value.outcome == COMPENSATED
  }

  lemma MarkerSurvivesCommand(c: Codec, s: Store, limit: nat, command: Command, id: AdmissionId)
    requires MarkerLive(s, id, command.now)
    ensures var after := Exec(c, s, limit, command).0;
      && id in after.markers && after.markers[id].expiresAt == s.markers[id].expiresAt
      && (Tombstoned(c, s, id) ==> after.markers[id] == s.markers[id])
  {
  }

  /** Until it expires a marker is never forgotten or extended, and a tombstone stays a tombstone. */
  lemma {:induction false} MarkersPersist(c: Codec, limit: nat, commands: seq<Command>, i: nat, j: nat, id: AdmissionId,
      now: int)
    requires i <= j <= |commands| && MarkerLive(Run(c, limit, commands[..i]), id, now)
    requires forall k :: i <= k < j ==> commands[k].now <= now
    ensures MarkerLive(Run(c, limit, commands[..j]), id, now)
    ensures Tombstoned(c, Run(c, limit, commands[..i]), id) ==> Tombstoned(c, Run(c, limit, commands[..j]), id)
    decreases j
  {
    if i < j {
      MarkersPersist(c, limit, commands, i, j - 1, id, now);
      assert commands[..j][..j - 1] == commands[..j - 1];
      MarkerSurvivesCommand(c, Run(c, limit, commands[..j - 1]), limit, commands[j - 1], id);
    }
  }

  /** An id increments the counter a second time only after the marker of the first time has expired. */
  lemma {:induction false} OneIncrementPerId(c: Codec, limit: nat, maxTtlSeconds: nat, commands: seq<Command>, i: nat,
      j: nat)
    requires Scheduled(commands, maxTtlSeconds) && i < j < |commands|
    requires FreshGrant(c, limit, commands, i) && FreshGrant(c, limit, commands, j) && commands[i].id == commands[j].id
    ensures commands[i].id in Run(c, limit, commands[..i + 1]).markers
    ensures !MarkerLive(Run(c, limit, commands[..i + 1]), commands[i].id, commands[j].now)
  {
    assert commands[..i + 1][..i] == commands[..i];
    if MarkerLive(Run(c, limit, commands[..i + 1]), commands[i].id, commands[j].now) {
      MarkersPersist(c, limit, commands, i + 1, j, commands[i].id, commands[j].now);
    }
  }

  lemma OtherCommandsKeepMarker(c: Codec, s: Store, limit: nat, command: Command, id: AdmissionId)
    requires command.id != id
    ensures var after := Exec(c, s, limit, command).0;
      (id in after.markers <==> id in s.markers) && (id in s.markers ==> after.markers[id] == s.markers[id])
  {
  }

  lemma {:induction false} UntouchedMarker(c: Codec, limit: nat, commands: seq<Command>, i: nat, j: nat,
      id: AdmissionId, now: int)
    requires i <= j <= |commands| && forall k :: i <= k < j ==> commands[k].id != id
    ensures MarkerLive(Run(c, limit, commands[..j]), id, now) == MarkerLive(Run(c, limit, commands[..i]), id, now)
    decreases j
  {
    if i < j {
      UntouchedMarker(c, limit, commands, i, j - 1, id, now);
      assert commands[..j][..j - 1] == commands[..j - 1];
      OtherCommandsKeepMarker(c, Run(c, limit, commands[..j - 1]), limit, commands[j - 1], id);
    }
  }

  lemma {:induction false} FreshGrantIff(c: Codec, limit: nat, maxTtlSeconds: nat, commands: seq<Command>, j: nat)
    requires Faithful(c) && Scheduled(commands, maxTtlSeconds) && j < |commands| && commands[j].ReserveCommand?
    ensures var s := Run(c, limit, commands[..j]);
      FreshGrant(c, limit, commands, j) <==>
      !MarkerLive(s, commands[j].id, commands[j].now) && CounterValue(s, commands[j].now) < limit
  {
    EveryRunIsCoherent(c, limit, maxTtlSeconds, commands[..j], commands[j].now);
    var (s, r) := (Run(c, limit, commands[..j]), commands[j]);
    if !MarkerLive(s, r.id, r.now) {
      ReservationFigures(c, s, limit, maxTtlSeconds, r.ttlSeconds, r.id, r.now);
    }
  }

  /**
    The next reservation of a granted id increments again exactly when its marker has expired and the
    counter is below the limit.
   */
  lemma {:induction false} SecondGrantIff(c: Codec, limit: nat, maxTtlSeconds: nat, commands: seq<Command>, i: nat,
      j: nat)
    requires Faithful(c) && Scheduled(commands, maxTtlSeconds) && i < j < |commands|
    requires FreshGrant(c, limit, commands, i) && commands[j].ReserveCommand? && commands[j].id == commands[i].id
    requires forall k :: i < k < j ==> commands[k].id != commands[i].id
    ensures FreshGrant(c, limit, commands, j) <==>
      !MarkerLive(Run(c, limit, commands[..i + 1]), commands[i].id, commands[j].now)
      && CounterValue(Run(c, limit, commands[..j]), commands[j].now) < limit
  {
    UntouchedMarker(c, limit, commands, i + 1, j, commands[i].id, commands[j].now);
    FreshGrantIff(c, limit, maxTtlSeconds, commands, j);
  }

  lemma {:induction false} CompensationLeavesTombstone(c: Codec, limit: nat, maxTtlSeconds: nat, commands: seq<Command>,
      i: nat)
    requires Faithful(c) && Scheduled(commands, maxTtlSeconds) && i < |commands|
    requires Compensates(c, limit, commands, i)
    ensures Tombstoned(c, Run(c, limit, commands[..i + 1]), commands[i].id)
  {
    assert commands[..i + 1][..i] == commands[..i];
    var s := Run(c, limit, commands[..i]);
    EveryRunIsCoherent(c, limit, maxTtlSeconds, commands[..i], commands[i].now);
    assert MarkerLive(s, commands[i].id, commands[i].now);
    assert SafeId(commands[i].id);
  }

  lemma TombstoneReplays(c: Codec, s: Store, limit: nat, maxTtlSeconds: nat, ttlSeconds: nat, id: AdmissionId, now: int)
    requires Coherent(c, s, limit, maxTtlSeconds, now) && limit <= 100_000 && maxTtlSeconds <= 86_400
    requires Tombstoned(c, s, id) && MarkerLive(s, id, now)
    ensures var parsed := ParseReservation(Reserve(c, s, limit, ttlSeconds * 1000, id, now).1, limit, maxTtlSeconds);
      parsed.Some? && parsed.value.outcome == COMPENSATED && parsed.value.replayed && !parsed.value.allowed
  {
    MarkerReplyAccepted(MarkerOf(c, s, id, now).value, limit, maxTtlSeconds, 1);
  }

  /** While the tombstone of a compensated id lives, every later reservation of the id replays it. */
  lemma {:induction false} CompensatedIdNeverReserves(c: Codec, limit: nat, maxTtlSeconds: nat, commands: seq<Command>,
      i: nat, j: nat)
    requires Faithful(c) && Scheduled(commands, maxTtlSeconds) && i < j < |commands|
    requires limit <= 100_000 && maxTtlSeconds <= 86_400
    requires Compensates(c, limit, commands, i) && commands[j].ReserveCommand? && commands[j].id == commands[i].id
    requires MarkerLive(Run(c, limit, commands[..i + 1]), commands[i].id, commands[j].now)
    ensures var parsed :=
      ParseReservation(Exec(c, Run(c, limit, commands[..j]), limit, commands[j]).1, limit, maxTtlSeconds);
      parsed.Some? && parsed.value.outcome == COMPENSATED && parsed.value.replayed && !parsed.value.allowed
  {
    CompensationLeavesTombstone(c, limit, maxTtlSeconds, commands, i);
    MarkersPersist(c, limit, commands, i + 1, j, commands[i].id, commands[j].now);
    EveryRunIsCoherent(c, limit, maxTtlSeconds, commands[..j], commands[j].now);
    TombstoneReplays(c, Run(c, limit, commands[..j]), limit, maxTtlSeconds, commands[j].ttlSeconds, commands[j].id,
      commands[j].now);
  }

  // ---------------------------------------------------------------- conservation

  /** The number of increments minus the number of compensations of a run. */
  function Net(c: Codec, limit: nat, commands: seq<Command>): int {
    if commands == [] then 0
    else
      var n := |commands| - 1;
      Net(c, limit, commands[..n]) + (if FreshGrant(c, limit, commands, n) then 1 else 0)
                                   - (if Compensates(c, limit, commands, n) then 1 else 0)
  }

  lemma CommandNet(c: Codec, s: Store, limit: nat, maxTtlSeconds: nat, command: Command)
    requires Faithful(c) && Coherent(c, s, limit, maxTtlSeconds, command.now) && SafeId(command.id)
    requires command.ReserveCommand? ==> 1 <= command.ttlSeconds <= maxTtlSeconds
    ensures var (after, reply) := Exec(c, s, limit, command);
      && reply.Tuple? && |reply.values| == (if command.ReserveCommand? then 5 else 4)
      && CounterValue(after, command.now) == CounterValue(s, command.now)
           + (if command.ReserveCommand? && reply.values[0] == RESERVED && reply.values[4] == 0 then 1 else 0)
           - (if command.CompensateCommand? && reply.values[0] == 1 then 1 else 0)
  {
    if command.ReserveCommand? && !MarkerLive(s, command.id, command.now) {
      FreshReservation(c, s, limit, maxTtlSeconds, command.ttlSeconds, command.id, command.now);
      ReservationFigures(c, s, limit, maxTtlSeconds, command.ttlSeconds, command.id, command.now);
    }
    if command.CompensateCommand? && MarkerOf(c, s, command.id, command.now).Some?
       && MarkerOf(c, s, command.id, command.now).value.outcome == RESERVED {
      assert command.id in Granted(c, s, command.now);
    }
  }

  /** What the counter forgets by expiring before the next command, or before `now`. */
  function Lapsed(c: Codec, limit: nat, commands: seq<Command>, now: int): int {
    if commands == [] then 0
    else
      var (n, s) := (|commands| - 1, Run(c, limit, commands));
      Lapsed(c, limit, commands[..n], commands[n].now) + CounterValue(s, commands[n].now) - CounterValue(s, now)
  }

  /** After the first k commands a live counter expires before the next command, or before `now`. */
  predicate LapsesAt(c: Codec, limit: nat, commands: seq<Command>, now: int, k: nat)
    requires 0 < k <= |commands|
  {
    var s := Run(c, limit, commands[..k]);
    CounterLive(s, commands[k - 1].now) && !CounterLive(s, if k < |commands| then commands[k].now else now)
  }

  ghost predicate NeverLapses(c: Codec, limit: nat, commands: seq<Command>, now: int) {
    forall k {:trigger LapsesAt(c, limit, commands, now, k)} :: 0 < k <= |commands| ==>
      !LapsesAt(c, limit, commands, now, k)
  }

  lemma LapsesEarlier(c: Codec, limit: nat, commands: seq<Command>, now: int, k: nat)
    requires 0 < k < |commands|
    ensures LapsesAt(c, limit, commands, now, k)
      <==> LapsesAt(c, limit, commands[..|commands| - 1], commands[|commands| - 1].now, k)
  {
    assert commands[..|commands| - 1][..k] == commands[..k];
  }

  lemma NeverLapsesStep(c: Codec, limit: nat, commands: seq<Command>, now: int)
    requires commands != []
    ensures var n := |commands| - 1;
      NeverLapses(c, limit, commands, now) <==>
      NeverLapses(c, limit, commands[..n], commands[n].now) && !LapsesAt(c, limit, commands, now, n + 1)
  {
    var n := |commands| - 1;
    forall k: nat | 0 < k <= n
      ensures LapsesAt(c, limit, commands, now, k) <==> LapsesAt(c, limit, commands[..n], commands[n].now, k)
    {
      LapsesEarlier(c, limit, commands, now, k);
    }
  }

  /** A live counter is positive, and keeps its value until it expires. */
  lemma CounterForgets(c: Codec, s: Store, limit: nat, maxTtlSeconds: nat, now: int, later: int)
    requires Coherent(c, s, limit, maxTtlSeconds, now) && now <= later
    ensures CounterValue(s, later) <= CounterValue(s, now)
    ensures CounterValue(s, later) < CounterValue(s, now) <==> CounterLive(s, now) && !CounterLive(s, later)
  {
  }

  lemma ScheduledPrefix(commands: seq<Command>, maxTtlSeconds: nat)
    requires Scheduled(commands, maxTtlSeconds) && commands != []
    ensures Scheduled(commands[..|commands| - 1], maxTtlSeconds)
  {
  }

  /**
    Conservation: increments minus compensations are what the counter shows plus what it forgot by
    expiring, so the counter shows exactly the net count when no live counter ever expired.
   */
  lemma {:induction false} CounterIsNetIff(c: Codec, limit: nat, maxTtlSeconds: nat, commands: seq<Command>, now: int)
    requires Faithful(c) && Scheduled(commands, maxTtlSeconds)
    requires commands != [] ==> commands[|commands| - 1].now <= now
    ensures Net(c, limit, commands) == CounterValue(Run(c, limit, commands), now) + Lapsed(c, limit, commands, now)
    ensures Lapsed(c, limit, commands, now) >= 0
    ensures CounterValue(Run(c, limit, commands), now) == Net(c, limit, commands) <==>
      NeverLapses(c, limit, commands, now)
  {
    if commands != [] {
      var n := |commands| - 1;
      ScheduledPrefix(commands, maxTtlSeconds);
      CounterIsNetIff(c, limit, maxTtlSeconds, commands[..n], commands[n].now);
      EveryRunIsCoherent(c, limit, maxTtlSeconds, commands[..n], commands[n].now);
      CommandNet(c, Run(c, limit, commands[..n]), limit, maxTtlSeconds, commands[n]);
      EveryRunIsCoherent(c, limit, maxTtlSeconds, commands, commands[n].now);
      assert commands[..n + 1] == commands;
      CounterForgets(c, Run(c, limit, commands), limit, maxTtlSeconds, commands[n].now, now);
      NeverLapsesStep(c, limit, commands, now);
    }
  }

  /** While no live counter expires, at most `limit` more ids are granted than given back. */
  lemma {:induction false} GrantsStayWithinLimit(c: Codec, limit: nat, maxTtlSeconds: nat, commands: seq<Command>,
      now: int)
    requires Faithful(c) && Scheduled(commands, maxTtlSeconds)
    requires commands != [] ==> commands[|commands| - 1].now <= now
    ensures Net(c, limit, commands) <= limit + Lapsed(c, limit, commands, now)
    ensures NeverLapses(c, limit, commands, now) ==> Net(c, limit, commands) <= limit
  {
    CounterIsNetIff(c, limit, maxTtlSeconds, commands, now);
    EveryRunIsCoherent(c, limit, maxTtlSeconds, commands, now);
  }

  // ---------------------------------------------------------------- one UTC day

  /** Scripts for a day's keys run before midnight, with a TTL that reaches midnight. */
  predicate DayBound(commands: seq<Command>, midnight: int) {
    forall k :: 0 <= k < |commands| ==>
      commands[k].now < midnight &&
      (commands[k].ReserveCommand? ==> midnight <= commands[k].now + commands[k].ttlSeconds * 1000)
  }

  /** No key written during the day expires before midnight. */
  predicate HeldPast(s: Store, midnight: int) {
    && (s.counter.Some? ==> s.counter.value.expiresAt.Some? && midnight <= s.counter.value.expiresAt.value)
    && forall id :: id in s.markers ==> s.markers[id].expiresAt.Some? && midnight <= s.markers[id].expiresAt.value
  }

  lemma {:induction false} DayKeysAreHeld(c: Codec, limit: nat, commands: seq<Command>, midnight: int)
    requires DayBound(commands, midnight)
    ensures HeldPast(Run(c, limit, commands), midnight)
  {
    if commands != [] {
      DayKeysAreHeld(c, limit, commands[..|commands| - 1], midnight);
    }
  }

  /** During the day nothing expires: each id increments at most once and the counter shows the net count. */
  lemma {:induction false} DayIsCounted(c: Codec, limit: nat, maxTtlSeconds: nat, commands: seq<Command>, midnight: int,
      now: int)
    requires Faithful(c) && Scheduled(commands, maxTtlSeconds) && DayBound(commands, midnight) && now < midnight
    requires commands != [] ==> commands[|commands| - 1].now <= now
    ensures forall i, j ::
      0 <= i < j < |commands| && FreshGrant(c, limit, commands, i) && FreshGrant(c, limit, commands, j) ==>
        commands[i].id != commands[j].id
    ensures CounterValue(Run(c, limit, commands), now) == Net(c, limit, commands)
  {
    forall k: nat | k <= |commands| ensures HeldPast(Run(c, limit, commands[..k]), midnight) {
      DayKeysAreHeld(c, limit, commands[..k], midnight);
    }
    forall i, j | 0 <= i < j < |commands| && FreshGrant(c, limit, commands, i) && FreshGrant(c, limit, commands, j)
      ensures commands[i].id != commands[j].id
    {
      if commands[i].id == commands[j].id {
        OneIncrementPerId(c, limit, maxTtlSeconds, commands, i, j);
      }
    }
    CounterIsNetIff(c, limit, maxTtlSeconds, commands, now);
  }

  /**
    Why the day bound matters: a script that runs when the counter of its day has already expired
    starts a second count, so a limit of one admits two ids.
   */
  lemma LateScriptGrantsTwice(c: Codec, first: AdmissionId, second: AdmissionId)
    requires first != second
    ensures var commands := [ReserveCommand(first, 1, 0), ReserveCommand(second, 1, 1000)];
      FreshGrant(c, 1, commands, 0) && FreshGrant(c, 1, commands, 1)
  {
    var commands := [ReserveCommand(first, 1, 0), ReserveCommand(second, 1, 1000)];
    assert commands[..0] == [];
    assert commands[..1] == [commands[0]] && commands[..1][..0] == [];
    assert Run(c, 1, commands[..1]) == Exec(c, EMPTY, 1, commands[0]).0;
  }
}
