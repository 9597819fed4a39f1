/**
  Safety of quota admission over every run of the protocol: the inductive invariant, step by
  step, and the theorems read off it.
 */
module QuotaSafety {
  import opened Utf16
  import opened UtcDay
  import opened QuotaAdmission
  import opened QuotaInvariant
  import R = RedisAdmission

  lemma CallOkMonotone(s: State, t: State, call: Call)
    requires CallOk(s, call) && Extends(s, t)
    requires call.candidate in t.rows ==> call.candidate in s.rows || Matches(call, t.rows[call.candidate])
    ensures CallOk(t, call)
  {
    match call.pc
    case Persisting(id, rec, target) => assert GrantedAt(s.granted, KeyOf(rec)) <= GrantedAt(t.granted, KeyOf(rec));
    case RaceRereading(id, rec, target) => assert GrantedAt(s.granted, KeyOf(rec)) <= GrantedAt(t.granted, KeyOf(rec));
    case _ =>
  }

  lemma GotoKeepsCallsOk(s: State, t: State, c: nat, pc: Pc)
    requires CallsOk(s) && c in s.calls && t.calls == s.calls && Extends(s, t)
    requires forall d :: d in s.calls && d != c && s.calls[d].candidate in t.rows ==> s.calls[d].candidate in s.rows
    requires s.calls[c].candidate in t.rows ==> Matches(s.calls[c], t.rows[s.calls[c].candidate])
    requires PcOk(t, s.calls[c], pc)
    ensures CallsOk(Goto(t, c, pc))
  {
    var u := Goto(t, c, pc);
    forall d | d in u.calls ensures CallOk(u, u.calls[d]) {
      if d != c {
        assert Extends(s, u);
        CallOkMonotone(s, u, s.calls[d]);
      } else {
        PcOkHere(t, u, s.calls[c], pc);
      }
    }
  }

  lemma PcOkHere(t: State, u: State, call: Call, pc: Pc)
    requires u == t.(calls := u.calls) && PcOk(t, call, pc)
    ensures PcOk(u, call.(pc := pc), pc)
  {
  }

  lemma GotoKeepsCreatedOnce(s: State, c: nat, pc: Pc)
    requires CreatedOnce(s.calls) && c in s.calls
    requires pc.Done? && pc.outcome.Success? && pc.outcome.created ==>
      forall d :: d in s.calls && d != c ==> !ReportsCreated(s.calls[d], pc.outcome.reviewId)
    ensures CreatedOnce(Goto(s, c, pc).calls)
  {
  }

  /** The shape of every step of a call: a durable effect that only extends, then a new program point. */
  lemma EffectThenGoto(cfg: Config, s: State, t: State, c: nat, pc: Pc)
    requires Inv(cfg, s) && c in s.calls && t.calls == s.calls
    requires Durable(cfg, t) && Extends(s, t)
    requires forall d :: d in s.calls && d != c && s.calls[d].candidate in t.rows ==> s.calls[d].candidate in s.rows
    requires s.calls[c].candidate in t.rows ==> Matches(s.calls[c], t.rows[s.calls[c].candidate])
    requires PcOk(t, s.calls[c], pc)
    requires pc.Done? && pc.outcome.Success? && pc.outcome.created ==>
      forall d :: d in s.calls && d != c ==> !ReportsCreated(s.calls[d], pc.outcome.reviewId)
    ensures Inv(cfg, Goto(t, c, pc))
  {
    GotoKeepsCallsOk(s, t, c, pc);
    GotoKeepsCreatedOnce(t, c, pc);
  }

  // ---------------------------------------------------------------- durable effects

  lemma SetStatusSound(rows: map<Id, Row>, byOwner: map<OwnerKey, Id>, byReview: map<nat, Id>, id: Id, to: Status)
    requires Indexed(rows, byOwner, byReview) && id in rows && rows[id].status !in {ADMITTED, DENIED}
    ensures Indexed(rows[id := rows[id].(status := to)], byOwner, byReview)
  {
  }

  lemma SetStatusExtends(s: State, id: Id, to: Status, reviews: map<nat, Review>)
    requires id in s.rows && s.rows[id].status !in {ADMITTED, DENIED} && ReviewsEvolve(s.reviews, reviews)
    ensures Extends(s, s.(rows := s.rows[id := s.rows[id].(status := to)], reviews := reviews))
  {
    assert RowsEvolve(s.rows, s.rows[id := s.rows[id].(status := to)]);
  }

  lemma SetStatusAccounted(rows: map<Id, Row>, reviews: map<nat, Review>, byReview: map<nat, Id>,
                           granted: map<QuotaKey, set<Id>>, id: Id, to: Status)
    requires Accounted(rows, reviews, byReview) && Backed(rows, granted)
    requires id in rows && rows[id].status != ADMITTED && to != ADMITTED
    requires to == RESERVED ==> id in GrantedAt(granted, KeyOf(rows[id]))
    ensures Accounted(rows[id := rows[id].(status := to)], reviews, byReview)
    ensures Backed(rows[id := rows[id].(status := to)], granted)
  {
  }

  lemma SetStatusDurable(cfg: Config, s: State, id: Id, to: Status)
    requires Durable(cfg, s) && id in s.rows && s.rows[id].status !in {ADMITTED, DENIED}
    requires to != ADMITTED && (to == RESERVED ==> id in GrantedAt(s.granted, KeyOf(s.rows[id])))
    ensures Durable(cfg, s.(rows := s.rows[id := s.rows[id].(status := to)]))
  {
    SetStatusSound(s.rows, s.byOwner, s.byReview, id, to);
    SetStatusAccounted(s.rows, s.reviews, s.byReview, s.granted, id, to);
  }

  lemma TransitionEffect(s: State, user: nat, id: Id, to: Status)
    requires to in {DENIED, RESERVED, INDETERMINATE, RECONCILE_REQUIRED}
    ensures var t := Transition(s, user, id, to).0;
      t == s || (id in s.rows && s.rows[id].status !in {ADMITTED, DENIED} &&
        t == s.(rows := s.rows[id := s.rows[id].(status := to)]))
  {
  }

  lemma TransitionSound(cfg: Config, s: State, user: nat, id: Id, to: Status)
    requires Durable(cfg, s) && to in {DENIED, RESERVED, INDETERMINATE, RECONCILE_REQUIRED}
    requires to == RESERVED && id in s.rows ==> id in GrantedAt(s.granted, KeyOf(s.rows[id]))
    ensures Durable(cfg, Transition(s, user, id, to).0)
  {
    TransitionEffect(s, user, id, to);
    if Transition(s, user, id, to).0 != s {
      SetStatusDurable(cfg, s, id, to);
    }
  }

  lemma TransitionExtends(s: State, user: nat, id: Id, to: Status)
    requires to in {DENIED, RESERVED, INDETERMINATE, RECONCILE_REQUIRED}
    ensures Extends(s, Transition(s, user, id, to).0)
  {
    if id in s.rows && s.rows[id].owner.user == user && s.rows[id].status in AllowedSources(to) {
      SetStatusExtends(s, id, to, s.reviews);
    } else {
      assert Transition(s, user, id, to).0 == s;
    }
  }

  lemma InsertIndexed(rows: map<Id, Row>, byOwner: map<OwnerKey, Id>, byReview: map<nat, Id>, id: Id, row: Row)
    requires Indexed(rows, byOwner, byReview) && R.SafeId(id)
    requires id !in rows && row.owner !in byOwner && row.reviewId !in byReview
    ensures Indexed(rows[id := row], byOwner[row.owner := id], byReview[row.reviewId := id])
  {
  }

  lemma InsertAccounted(rows: map<Id, Row>, reviews: map<nat, Review>, byReview: map<nat, Id>, id: Id, row: Row)
    requires Accounted(rows, reviews, byReview) && id !in rows && row.reviewId !in byReview && row.status == PENDING
    ensures Accounted(rows[id := row], reviews, byReview[row.reviewId := id])
  {
    assert row.reviewId !in reviews;
  }

  lemma InsertSound(cfg: Config, s: State, id: Id, row: Row)
    requires Durable(cfg, s) && !UniqueViolation(s, id, row) && R.SafeId(id) && row.status == PENDING
    ensures Durable(cfg, Insert(s, id, row))
  {
    InsertIndexed(s.rows, s.byOwner, s.byReview, id, row);
    InsertAccounted(s.rows, s.reviews, s.byReview, id, row);
  }

  lemma AdmitSound(rows: map<Id, Row>, reviews: map<nat, Review>, byOwner: map<OwnerKey, Id>, byReview: map<nat, Id>,
                   id: Id, review: Review)
    requires Indexed(rows, byOwner, byReview) && Accounted(rows, reviews, byReview)
    requires id in rows && rows[id].reviewId !in reviews && ReviewKey(review) == KeyOf(rows[id])
    ensures Accounted(rows[id := rows[id].(status := ADMITTED)], reviews[rows[id].reviewId := review], byReview)
  {
    assert forall o :: o in rows && o != id ==> rows[o].reviewId != rows[id].reviewId;
  }

  lemma AdmitDurable(cfg: Config, s: State, id: Id, review: Review)
    requires Durable(cfg, s) && id in s.rows && s.rows[id].status == RESERVED
    requires s.rows[id].reviewId !in s.reviews && ReviewKey(review) == KeyOf(s.rows[id])
    ensures var row := s.rows[id];
      Durable(cfg, s.(rows := s.rows[id := row.(status := ADMITTED)], reviews := s.reviews[row.reviewId := review]))
  {
    SetStatusSound(s.rows, s.byOwner, s.byReview, id, ADMITTED);
    AdmitSound(s.rows, s.reviews, s.byOwner, s.byReview, id, review);
    AdmitBacked(s.rows, s.granted, id);
  }

  lemma FinalizeSound(cfg: Config, s: State, call: Call, id: Id, rec: Row)
    requires Durable(cfg, s) && HoldsRecord(s.rows, call, id, rec)
    ensures Durable(cfg, Finalize(s, call, id, rec).0)
  {
    if Finalize(s, call, id, rec).1.Finalized? {
      AdmitDurable(cfg, s, id, Review(rec.owner.user, rec.mode, call.now, false));
    }
  }

  lemma FinalizeExtends(s: State, call: Call, id: Id, rec: Row)
    ensures Extends(s, Finalize(s, call, id, rec).0)
  {
    var (t, reply) := Finalize(s, call, id, rec);
    if reply.Finalized? {
      SetStatusExtends(s, id, ADMITTED, t.reviews);
    } else {
      assert t == s;
    }
  }

  lemma AdmitBacked(rows: map<Id, Row>, granted: map<QuotaKey, set<Id>>, id: Id)
    requires Backed(rows, granted) && id in rows && rows[id].status == RESERVED
    ensures Backed(rows[id := rows[id].(status := ADMITTED)], granted)
  {
  }

  lemma InsertExtends(s: State, id: Id, row: Row)
    requires !UniqueViolation(s, id, row)
    ensures Extends(s, Insert(s, id, row))
  {
  }

  /** Markers of a day never expire during that day, so the live grants are all grants. */
  lemma LiveGrantsAreAll(c: R.Codec, store: R.Store, midnight: int, now: int)
    requires R.HeldPast(store, midnight) && now < midnight
    ensures R.Granted(c, store, now) == Marked(c, store)
  {
  }

  lemma ReserveHolds(c: R.Codec, store: R.Store, limit: nat, ttlMs: nat, id: Id, now: int, midnight: int)
    requires R.HeldPast(store, midnight) && now < midnight <= now + ttlMs
    ensures R.HeldPast(R.Reserve(c, store, limit, ttlMs, id, now).0, midnight)
  {
  }

  ghost predicate Returns(reply: R.Reply) {
    reply.Tuple? && |reply.values| == 5 && reply.values[0] == R.RESERVED
  }

  lemma ReplayMarks(c: R.Codec, store: R.Store, limit: nat, maxTtlSeconds: nat, ttlMs: nat, id: Id, now: int)
    requires R.Coherent(c, store, limit, maxTtlSeconds, now) && R.MarkerLive(store, id, now)
    ensures R.Reserve(c, store, limit, ttlMs, id, now).0 == store
    ensures Returns(R.Reserve(c, store, limit, ttlMs, id, now).1) <==> id in Marked(c, store)
  {
    assert R.SoundMarker(c, id, store.markers[id], limit, maxTtlSeconds, now);
  }

  lemma FreshMarks(c: R.Codec, store: R.Store, limit: nat, ttlMs: nat, id: Id, now: int)
    requires R.Faithful(c) && R.SafeId(id) && id !in store.markers
    ensures var (after, reply) := R.Reserve(c, store, limit, ttlMs, id, now);
      && id in after.markers && after.markers == store.markers[id := after.markers[id]]
      && c.parse(after.markers[id].text).Some?
      && (Returns(reply) <==> c.parse(after.markers[id].text).value.outcome == R.RESERVED)
  {
    var m := R.ReservationMarker(store, limit, ttlMs, id, now);
    assert c.parse(c.format(m)) == Some(m);
  }

  lemma ReserveMarks(cfg: Config, k: QuotaKey, store: R.Store, granted: set<Id>, ttlSeconds: nat, id: Id, now: int)
    requires ValidConfig(cfg) && KeySound(cfg, now, k, store, granted) && R.SafeId(id)
    requires 1 <= ttlSeconds <= cfg.maxTtlSeconds && now < Midnight(k.day)
    ensures var (after, reply) := R.Reserve(cfg.codec, store, Limit(cfg, k.mode), ttlSeconds * 1000, id, now);
      Marked(cfg.codec, after) == Marked(cfg.codec, store) + if Returns(reply) then {id} else {}
  {
    if R.MarkerLive(store, id, now) {
      ReplayKeepsMarks(cfg.codec, store, Limit(cfg, k.mode), cfg.maxTtlSeconds, ttlSeconds * 1000, id, now);
    } else {
      DeadIsAbsent(store, id, now, Midnight(k.day));
      FreshAddsMark(cfg.codec, store, Limit(cfg, k.mode), ttlSeconds * 1000, id, now);
    }
  }

  lemma DeadIsAbsent(store: R.Store, id: Id, now: int, midnight: int)
    requires R.HeldPast(store, midnight) && now < midnight && !R.MarkerLive(store, id, now)
    ensures id !in store.markers
  {
  }

  lemma ReplayKeepsMarks(c: R.Codec, store: R.Store, limit: nat, maxTtlSeconds: nat, ttlMs: nat, id: Id, now: int)
    requires R.Coherent(c, store, limit, maxTtlSeconds, now) && R.MarkerLive(store, id, now)
    ensures var (after, reply) := R.Reserve(c, store, limit, ttlMs, id, now);
      Marked(c, after) == Marked(c, store) + if Returns(reply) then {id} else {}
  {
    ReplayMarks(c, store, limit, maxTtlSeconds, ttlMs, id, now);
  }

  lemma FreshAddsMark(c: R.Codec, store: R.Store, limit: nat, ttlMs: nat, id: Id, now: int)
    requires R.Faithful(c) && R.SafeId(id) && id !in store.markers
    ensures var (after, reply) := R.Reserve(c, store, limit, ttlMs, id, now);
      Marked(c, after) == Marked(c, store) + if Returns(reply) then {id} else {}
  {
    FreshMarks(c, store, limit, ttlMs, id, now);
    MarkedAfterWrite(c, store, R.Reserve(c, store, limit, ttlMs, id, now).0, id);
  }

  lemma MarkedAfterWrite(c: R.Codec, store: R.Store, after: R.Store, id: Id)
    requires id in after.markers && after.markers == store.markers[id := after.markers[id]]
    requires c.parse(after.markers[id].text).Some?
    ensures Marked(c, after) == (Marked(c, store) - {id})
              + if c.parse(after.markers[id].text).value.outcome == R.RESERVED then {id} else {}
  {
  }

  lemma KeySoundAfterReserve(cfg: Config, k: QuotaKey, store: R.Store, granted: set<Id>, ttlSeconds: nat, id: Id,
      now: int)
    requires ValidConfig(cfg) && KeySound(cfg, now, k, store, granted) && R.SafeId(id)
    requires 1 <= ttlSeconds <= cfg.maxTtlSeconds && now < Midnight(k.day) <= now + ttlSeconds * 1000
    ensures var (after, reply) := R.Reserve(cfg.codec, store, Limit(cfg, k.mode), ttlSeconds * 1000, id, now);
      KeySound(cfg, now, k, after, granted + if Returns(reply) then {id} else {})
  {
    var after := R.Reserve(cfg.codec, store, Limit(cfg, k.mode), ttlSeconds * 1000, id, now).0;
    ReserveHolds(cfg.codec, store, Limit(cfg, k.mode), ttlSeconds * 1000, id, now, Midnight(k.day));
    ReserveMarks(cfg, k, store, granted, ttlSeconds, id, now);
    R.ReserveKeepsCoherent(cfg.codec, store, Limit(cfg, k.mode), cfg.maxTtlSeconds, ttlSeconds, id, now);
    LiveGrantsAreAll(cfg.codec, after, Midnight(k.day), now);
  }

  lemma KeySoundHere(cfg: Config, s: State, k: QuotaKey)
    requires ValidConfig(cfg) && KeysSound(cfg, s.clock, s.stores, s.granted)
    ensures KeySound(cfg, s.clock, k, StoreAt(s, k), GrantedAt(s.granted, k))
  {
    if k !in s.stores {
      R.EveryRunIsCoherent(cfg.codec, Limit(cfg, k.mode), cfg.maxTtlSeconds, [], s.clock);
      assert Marked(cfg.codec, R.EMPTY) == {};
    }
  }

  lemma OneKeyChanges(cfg: Config, clock: int, stores: map<QuotaKey, R.Store>, granted: map<QuotaKey, set<Id>>,
                      k: QuotaKey, store: R.Store, grants: set<Id>)
    requires KeysSound(cfg, clock, stores, granted) && KeySound(cfg, clock, k, store, grants) &&
      GrantedAt(granted, k) <= grants
    ensures KeysSound(cfg, clock, stores[k := store], granted[k := grants])
    ensures GrantsGrow(granted, granted[k := grants])
  {
  }

  lemma ScriptSound(cfg: Config, s: State, call: Call, id: Id, rec: Row)
    requires ValidConfig(cfg) && Durable(cfg, s) && HoldsRecord(s.rows, call, id, rec)
    requires ParametersAccepted(cfg, call, rec) && call.now <= s.clock && DayOf(s.clock) == DayOf(call.now)
    ensures var (t, reply) := RunScript(cfg, s, call, id, rec);
      && Durable(cfg, t) && Extends(s, t) && t.rows == s.rows && t.calls == s.calls
      && (Returns(reply) ==> id in GrantedAt(t.granted, KeyOf(rec)))
  {
    var t := RunScript(cfg, s, call, id, rec).0;
    var k := KeyOf(rec);
    TtlReachesMidnight(call.now, s.clock);
    KeySoundHere(cfg, s, k);
    KeySoundAfterReserve(cfg, k, StoreAt(s, k), GrantedAt(s.granted, k), TtlSeconds(call.now), id, s.clock);
    OneKeyChanges(cfg, s.clock, s.stores, s.granted, k, t.stores[k], t.granted[k]);
    BackedGrows(s.rows, s.granted, t.granted);
  }

  lemma BackedGrows(rows: map<Id, Row>, before: map<QuotaKey, set<Id>>, after: map<QuotaKey, set<Id>>)
    requires Backed(rows, before) && GrantsGrow(before, after)
    ensures Backed(rows, after)
  {
    forall id | id in rows && rows[id].status in {RESERVED, ADMITTED} ensures id in GrantedAt(after, KeyOf(rows[id])) {
      assert GrantedAt(before, KeyOf(rows[id])) <= GrantedAt(after, KeyOf(rows[id]));
    }
  }

  lemma TimeKeepsKeysSound(cfg: Config, clock: int, later: int,
      stores: map<QuotaKey, R.Store>, granted: map<QuotaKey, set<Id>>)
    requires KeysSound(cfg, clock, stores, granted) && clock <= later
    ensures KeysSound(cfg, later, stores, granted)
  {
    forall k | k in stores ensures KeySound(cfg, later, k, stores[k], granted[k]) {
      R.TimeKeepsCoherent(cfg.codec, stores[k], Limit(cfg, k.mode), cfg.maxTtlSeconds, clock, later);
    }
  }

  lemma TickSound(cfg: Config, s: State, to: int)
    requires Inv(cfg, s) && s.clock <= to
    ensures Inv(cfg, s.(clock := to))
  {
    var t := s.(clock := to);
    TimeKeepsKeysSound(cfg, s.clock, to, s.stores, s.granted);
    forall c | c in t.calls ensures CallOk(t, t.calls[c]) {
      CallOkMonotone(s, t, s.calls[c]);
    }
  }

  // ---------------------------------------------------------------- the steps of a call

  ghost predicate NobodyReported(calls: map<nat, Call>, r: nat) {
    forall d :: d in calls ==> !ReportsCreated(calls[d], r)
  }

  /** A step that only moves the program point, or changes a status of an existing row. */
  lemma ExistingRowsThenGoto(cfg: Config, s: State, t: State, c: nat, pc: Pc)
    requires Inv(cfg, s) && c in s.calls && t.calls == s.calls
    requires Durable(cfg, t) && Extends(s, t) && t.rows.Keys == s.rows.Keys
    requires PcOk(t, s.calls[c], pc)
    requires pc.Done? && pc.outcome.Success? && pc.outcome.created ==> NobodyReported(s.calls, pc.outcome.reviewId)
    ensures Inv(cfg, Goto(t, c, pc))
  {
    MatchesStays(s, t, s.calls[c]);
    EffectThenGoto(cfg, s, t, c, pc);
  }

  lemma MatchesStays(s: State, t: State, call: Call)
    requires CallOk(s, call) && RowsEvolve(s.rows, t.rows) && t.rows.Keys == s.rows.Keys
    ensures call.candidate in t.rows ==> Matches(call, t.rows[call.candidate])
  {
    if call.candidate in t.rows {
      assert call.candidate in s.rows;
    }
  }

  lemma GotoOnly(cfg: Config, s: State, c: nat, pc: Pc)
    requires Inv(cfg, s) && c in s.calls && PcOk(s, s.calls[c], pc)
    requires pc.Done? && pc.outcome.Success? ==> !pc.outcome.created
    ensures Inv(cfg, Goto(s, c, pc))
  {
    ExistingRowsThenGoto(cfg, s, s, c, pc);
  }

  lemma MarkCandidateOk(s: State, call: Call)
    requires CallOk(s, call)
    ensures PcOk(s, call, Marking(call.candidate, RECONCILE_REQUIRED, false))
  {
  }

  lemma FindingKeeps(cfg: Config, s: State, c: nat, fault: Fault)
    requires Inv(cfg, s) && c in s.calls
    ensures Inv(cfg, StepFinding(s, c, s.calls[c], fault)) && Inv(cfg, StepRaceFinding(s, c, s.calls[c], fault))
  {
    var call := s.calls[c];
    MarkCandidateOk(s, call);
    if fault != NoFault {
      GotoOnly(cfg, s, c, Marking(call.candidate, RECONCILE_REQUIRED, false));
    } else if call.owner in s.byOwner {
      GotoOnly(cfg, s, c, AfterIntent(call, s.byOwner[call.owner], s.rows[s.byOwner[call.owner]]));
    } else {
      GotoOnly(cfg, s, c, Creating);
      GotoOnly(cfg, s, c, Done(Conflict));
    }
  }

  lemma CreatingKeeps(cfg: Config, s: State, c: nat, fault: Fault)
    requires Inv(cfg, s) && c in s.calls
    ensures Inv(cfg, StepCreating(s, c, s.calls[c], fault))
  {
    var call := s.calls[c];
    var row := NewRow(call);
    MarkCandidateOk(s, call);
    if fault == FailsBefore || UniqueViolation(s, call.candidate, row) {
      GotoOnly(cfg, s, c, if fault == NoFault then RaceFinding else Marking(call.candidate, RECONCILE_REQUIRED, false));
    } else {
      InsertSound(cfg, s, call.candidate, row);
      InsertExtends(s, call.candidate, row);
      EffectThenGoto(cfg, s, Insert(s, call.candidate, row), c,
        if fault == NoFault then Reserving(call.candidate, row)
        else Marking(call.candidate, RECONCILE_REQUIRED, false));
    }
  }

  lemma RereadingKeeps(cfg: Config, s: State, c: nat, fault: Fault)
    requires Inv(cfg, s) && c in s.calls && s.calls[c].pc.Rereading?
    ensures Inv(cfg, StepRereading(s, c, s.calls[c], fault))
  {
    var call := s.calls[c];
    assert PcOk(s, call, call.pc);
    RoutePcOk(s, call, call.pc.id, call.pc.rec);
    GotoOnly(cfg, s, c, Marking(call.pc.id, RECONCILE_REQUIRED, false));
    GotoOnly(cfg, s, c, Route(call.pc.id, s.rows[call.pc.id]));
  }

  lemma RoutePcOk(s: State, call: Call, id: Id, rec: Row)
    requires HoldsRecord(s.rows, call, id, rec)
    ensures PcOk(s, call, Marking(id, RECONCILE_REQUIRED, false)) && PcOk(s, call, Route(id, s.rows[id]))
    ensures var pc := Route(id, s.rows[id]); !(pc.Done? && pc.outcome.Success?)
  {
  }

  lemma AfterScriptOk(cfg: Config, t: State, call: Call, id: Id, rec: Row, reply: R.Reply)
    requires HoldsRecord(t.rows, call, id, rec) && (Returns(reply) ==> id in GrantedAt(t.granted, KeyOf(rec)))
    ensures PcOk(t, call, AfterScript(cfg, id, rec, reply))
  {
  }

  lemma ScriptEffect(cfg: Config, s: State, c: nat)
    requires ValidConfig(cfg) && Inv(cfg, s) && c in s.calls && s.calls[c].pc.Reserving?
    requires ParametersAccepted(cfg, s.calls[c], s.calls[c].pc.rec) && DayOf(s.clock) == DayOf(s.calls[c].now)
    ensures var call := s.calls[c];
      var (t, reply) := RunScript(cfg, s, call, call.pc.id, call.pc.rec);
      && Durable(cfg, t) && Extends(s, t) && t.rows == s.rows && t.calls == s.calls
      && PcOk(t, call, AfterScript(cfg, call.pc.id, call.pc.rec, reply))
      && PcOk(t, call, Marking(call.pc.id, INDETERMINATE, false))
  {
    var call := s.calls[c];
    assert CallOk(s, call);
    ScriptSound(cfg, s, call, call.pc.id, call.pc.rec);
    AfterScriptOk(cfg, RunScript(cfg, s, call, call.pc.id, call.pc.rec).0, call, call.pc.id, call.pc.rec,
                  RunScript(cfg, s, call, call.pc.id, call.pc.rec).1);
  }

  lemma ReservingKeeps(cfg: Config, s: State, c: nat, fault: Fault)
    requires ValidConfig(cfg) && Inv(cfg, s) && c in s.calls && s.calls[c].pc.Reserving?
    ensures Inv(cfg, StepReserving(cfg, s, c, s.calls[c], fault))
  {
    var call := s.calls[c];
    var (id, rec) := (call.pc.id, call.pc.rec);
    if fault == FailsBefore || !ParametersAccepted(cfg, call, rec) {
      assert HoldsRecord(s.rows, call, id, rec);
      GotoOnly(cfg, s, c, Marking(id, INDETERMINATE, false));
    } else if DayOf(s.clock) == DayOf(call.now) {
      RunThenGoto(cfg, s, c, fault);
    }
  }

  lemma RunThenGoto(cfg: Config, s: State, c: nat, fault: Fault)
    requires ValidConfig(cfg) && Inv(cfg, s) && c in s.calls && s.calls[c].pc.Reserving?
    requires ParametersAccepted(cfg, s.calls[c], s.calls[c].pc.rec) && DayOf(s.clock) == DayOf(s.calls[c].now)
    ensures var Reserving(id, rec) := s.calls[c].pc;
      var (t, reply) := RunScript(cfg, s, s.calls[c], id, rec);
      Inv(cfg, Goto(t, c, if fault == NoFault then AfterScript(cfg, id, rec, reply)
        else Marking(id, INDETERMINATE, false)))
  {
    ScriptEffect(cfg, s, c);
    var Reserving(id, rec) := s.calls[c].pc;
    var (t, reply) := RunScript(cfg, s, s.calls[c], id, rec);
    var pc := if fault == NoFault then AfterScript(cfg, id, rec, reply) else Marking(id, INDETERMINATE, false);
    assert PcOk(t, s.calls[c], pc);
    ExistingRowsThenGoto(cfg, s, t, c, pc);
  }

  lemma TransitionReplies(s: State, user: nat, id: Id, to: Status)
    ensures var (t, reply) := Transition(s, user, id, to);
      && t.rows.Keys == s.rows.Keys && t.calls == s.calls
      && (reply.Updated? ==> id in t.rows && reply.row == t.rows[id] && t.rows[id].status == to)
  {
  }

  lemma DecisionPcOk(s: State, t: State, call: Call, id: Id, rec: Row, row: Row, target: Status)
    requires HoldsRecord(s.rows, call, id, rec) && HoldsDecision(s.granted, id, rec, target)
    requires RowsEvolve(s.rows, t.rows) && GrantsGrow(s.granted, t.granted)
    ensures PcOk(t, call, RaceRereading(id, rec, target))
    ensures row == t.rows[id] ==> PcOk(t, call, AfterDecision(id, row, target))
  {
    assert GrantedAt(s.granted, KeyOf(rec)) <= GrantedAt(t.granted, KeyOf(rec));
  }

  lemma PersistingKeeps(cfg: Config, s: State, c: nat, fault: Fault)
    requires Inv(cfg, s) && c in s.calls && s.calls[c].pc.Persisting?
    ensures Inv(cfg, StepPersisting(s, c, s.calls[c], fault))
  {
    var call := s.calls[c];
    var (id, rec, target) := (call.pc.id, call.pc.rec, call.pc.target);
    assert CallOk(s, call);
    if fault == FailsBefore {
      GotoOnly(cfg, s, c, RaceRereading(id, rec, target));
    } else {
      PersistThenGoto(cfg, s, c, fault, id, rec, target);
    }
  }

  lemma PersistThenGoto(cfg: Config, s: State, c: nat, fault: Fault, id: Id, rec: Row, target: Status)
    requires Inv(cfg, s) && c in s.calls
    requires HoldsRecord(s.rows, s.calls[c], id, rec) && HoldsDecision(s.granted, id, rec, target)
    ensures var (t, reply) := Transition(s, s.calls[c].owner.user, id, target);
      Inv(cfg, Goto(t, c, if fault == NoFault && reply.Updated? then AfterDecision(id, reply.row, target)
        else RaceRereading(id, rec, target)))
  {
    var call := s.calls[c];
    var (t, reply) := Transition(s, call.owner.user, id, target);
    TransitionSound(cfg, s, call.owner.user, id, target);
    TransitionExtends(s, call.owner.user, id, target);
    TransitionReplies(s, call.owner.user, id, target);
    DecisionPcOk(s, t, call, id, rec, t.rows[id], target);
    DecisionReportsNothing(id, t.rows[id], target);
    ExistingRowsThenGoto(cfg, s, t, c,
      if fault == NoFault && reply.Updated? then AfterDecision(id, reply.row, target)
      else RaceRereading(id, rec, target));
  }

  lemma DecisionReportsNothing(id: Id, row: Row, target: Status)
    ensures var pc := AfterDecision(id, row, target); !(pc.Done? && pc.outcome.Success? && pc.outcome.created)
  {
  }

  lemma RaceRereadingKeeps(cfg: Config, s: State, c: nat, fault: Fault)
    requires Inv(cfg, s) && c in s.calls && s.calls[c].pc.RaceRereading?
    ensures Inv(cfg, StepRaceRereading(s, c, s.calls[c], fault))
  {
    var call := s.calls[c];
    var (id, rec, target) := (call.pc.id, call.pc.rec, call.pc.target);
    assert PcOk(s, call, call.pc);
    RoutePcOk(s, call, id, rec);
    DecisionPcOk(s, s, call, id, rec, s.rows[id], target);
    DecisionReportsNothing(id, s.rows[id], target);
    GotoOnly(cfg, s, c, Marking(id, RECONCILE_REQUIRED, false));
    GotoOnly(cfg, s, c, AfterDecision(id, s.rows[id], target));
  }

  /** A call that reports CREATED moved its row to ADMITTED, so no other call can have reported it before. */
  lemma NobodyCreatedYet(s: State, id: Id, r: nat)
    requires CallsOk(s) && Indexed(s.rows, s.byOwner, s.byReview)
    requires id in s.rows && s.rows[id].reviewId == r && s.rows[id].status != ADMITTED
    ensures NobodyReported(s.calls, r)
  {
    forall d | d in s.calls ensures !ReportsCreated(s.calls[d], r) {
      assert CallOk(s, s.calls[d]);
    }
  }

  lemma FinalizeReplies(s: State, call: Call, id: Id, rec: Row)
    ensures var (t, reply) := Finalize(s, call, id, rec);
      && t.rows.Keys == s.rows.Keys && t.calls == s.calls
      && (reply.Finalized? ==> id in s.rows && s.rows[id].status != ADMITTED && s.rows[id].reviewId == rec.reviewId)
  {
  }

  lemma FinalizingKeeps(cfg: Config, s: State, c: nat, fault: Fault)
    requires Inv(cfg, s) && c in s.calls && s.calls[c].pc.Finalizing?
    ensures Inv(cfg, StepFinalizing(s, c, s.calls[c], fault))
  {
    var call := s.calls[c];
    var (id, rec) := (call.pc.id, call.pc.rec);
    assert CallOk(s, call);
    if fault == FailsBefore {
      GotoOnly(cfg, s, c, Marking(id, RECONCILE_REQUIRED, false));
    } else {
      FinalizeThenGoto(cfg, s, c, fault, id, rec);
    }
  }

  function FinalizeNext(id: Id, rec: Row, reply: FinalizeReply, fault: Fault): Pc {
    if fault == NoFault then AfterFinalize(id, rec, reply) else Marking(id, RECONCILE_REQUIRED, false)
  }

  lemma FinalizeNextOk(s: State, c: nat, fault: Fault, id: Id, rec: Row)
    requires CallsOk(s) && Indexed(s.rows, s.byOwner, s.byReview) && c in s.calls &&
      HoldsRecord(s.rows, s.calls[c], id, rec)
    ensures var (t, reply) := Finalize(s, s.calls[c], id, rec);
      var pc := FinalizeNext(id, rec, reply, fault);
      && PcOk(t, s.calls[c], pc)
      && (pc.Done? && pc.outcome.Success? && pc.outcome.created ==> NobodyReported(s.calls, pc.outcome.reviewId))
  {
    FinalizePcOk(s, s.calls[c], id, rec);
    FinalizeReplies(s, s.calls[c], id, rec);
    if Finalize(s, s.calls[c], id, rec).1.Finalized? {
      NobodyCreatedYet(s, id, rec.reviewId);
    }
  }

  lemma FinalizeThenGoto(cfg: Config, s: State, c: nat, fault: Fault, id: Id, rec: Row)
    requires Inv(cfg, s) && c in s.calls && HoldsRecord(s.rows, s.calls[c], id, rec)
    ensures var (t, reply) := Finalize(s, s.calls[c], id, rec);
      Inv(cfg, Goto(t, c, FinalizeNext(id, rec, reply, fault)))
  {
    var (t, reply) := Finalize(s, s.calls[c], id, rec);
    FinalizeSound(cfg, s, s.calls[c], id, rec);
    FinalizeExtends(s, s.calls[c], id, rec);
    FinalizeReplies(s, s.calls[c], id, rec);
    FinalizeNextOk(s, c, fault, id, rec);
    ExistingRowsThenGoto(cfg, s, t, c, FinalizeNext(id, rec, reply, fault));
  }

  lemma FinalizePcOk(s: State, call: Call, id: Id, rec: Row)
    requires HoldsRecord(s.rows, call, id, rec) && Indexed(s.rows, s.byOwner, s.byReview)
    ensures var (t, reply) := Finalize(s, call, id, rec);
      PcOk(t, call, AfterFinalize(id, rec, reply)) && PcOk(t, call, Marking(id, RECONCILE_REQUIRED, false))
  {
  }

  lemma MarkPcOk(s: State, t: State, call: Call, id: Id, preferred: Status, fallback: bool)
    requires PcOk(s, call, Marking(id, preferred, fallback)) && RowsEvolve(s.rows, t.rows) && t.rows.Keys == s.rows.Keys
    ensures PcOk(t, call, Marking(id, if preferred == INDETERMINATE then RECONCILE_REQUIRED else INDETERMINATE, true))
  {
  }

  lemma MarkingKeeps(cfg: Config, s: State, c: nat, fault: Fault)
    requires Inv(cfg, s) && c in s.calls && s.calls[c].pc.Marking?
    ensures Inv(cfg, StepMarking(s, c, s.calls[c], fault))
  {
    var call := s.calls[c];
    var Marking(id, preferred, fallback) := call.pc;
    assert CallOk(s, call);
    if fault != FailsBefore {
      MarkThenGoto(cfg, s, c, id, preferred, fallback);
    } else {
      MarkPcOk(s, s, call, id, preferred, fallback);
      GotoOnly(cfg, s, c, if fallback then Done(Unavailable)
        else Marking(id, if preferred == INDETERMINATE then RECONCILE_REQUIRED else INDETERMINATE, true));
    }
  }

  lemma MarkThenGoto(cfg: Config, s: State, c: nat, id: Id, preferred: Status, fallback: bool)
    requires Inv(cfg, s) && c in s.calls && PcOk(s, s.calls[c], Marking(id, preferred, fallback))
    ensures var t := Transition(s, s.calls[c].owner.user, id, preferred).0;
      && Inv(cfg, Goto(t, c, Done(Unavailable)))
      && Inv(cfg, Goto(t, c,
        Marking(id, if preferred == INDETERMINATE then RECONCILE_REQUIRED else INDETERMINATE, true)))
  {
    var call := s.calls[c];
    var t := Transition(s, call.owner.user, id, preferred).0;
    TransitionSound(cfg, s, call.owner.user, id, preferred);
    TransitionExtends(s, call.owner.user, id, preferred);
    TransitionReplies(s, call.owner.user, id, preferred);
    MarkPcOk(s, t, call, id, preferred, fallback);
    ExistingRowsThenGoto(cfg, s, t, c,
      Marking(id, if preferred == INDETERMINATE then RECONCILE_REQUIRED else INDETERMINATE, true));
    ExistingRowsThenGoto(cfg, s, t, c, Done(Unavailable));
  }

  lemma StepKeepsInv(cfg: Config, s: State, move: Move)
    requires ValidConfig(cfg) && Inv(cfg, s)
    ensures Inv(cfg, Step(cfg, s, move))
  {
    match move
    case Tick(to) => if to >= s.clock { TickSound(cfg, s, to); }
    case Start(c, owner, fingerprint, mode, candidate, candidateReview) => StartKeeps(cfg, s, move);
    case Advance(c, fault) =>
      if c in s.calls {
        match s.calls[c].pc
        case Finding => FindingKeeps(cfg, s, c, fault);
        case Creating => CreatingKeeps(cfg, s, c, fault);
        case RaceFinding => FindingKeeps(cfg, s, c, fault);
        case Rereading(_, _) => RereadingKeeps(cfg, s, c, fault);
        case Reserving(_, _) => ReservingKeeps(cfg, s, c, fault);
        case Persisting(_, _, _) => PersistingKeeps(cfg, s, c, fault);
        case RaceRereading(_, _, _) => RaceRereadingKeeps(cfg, s, c, fault);
        case Finalizing(_, _) => FinalizingKeeps(cfg, s, c, fault);
        case Marking(_, _, _) => MarkingKeeps(cfg, s, c, fault);
        case Done(_) =>
      }
    case Crash(c) => if c in s.calls { GotoOnly(cfg, s, c, Done(Crashed)); }
    case DeleteReview(r) => if r in s.reviews { DeleteKeeps(cfg, s, r); }
  }

  lemma CallsOkMonotone(s: State, t: State)
    requires CallsOk(s) && Extends(s, t) && t.rows.Keys == s.rows.Keys
    ensures forall c :: c in s.calls ==> CallOk(t, s.calls[c])
  {
    forall c | c in s.calls ensures CallOk(t, s.calls[c]) {
      CallOkMonotone(s, t, s.calls[c]);
    }
  }

  lemma NewCallKeeps(s: State, c: nat, call: Call)
    requires CallsOk(s) && DistinctCandidates(s.calls) && CreatedOnce(s.calls) && c !in s.calls
    requires call.pc == Finding && call.now == s.clock && R.SafeId(call.candidate) && call.candidate !in s.rows
    requires forall d :: d in s.calls ==> s.calls[d].candidate != call.candidate
    ensures var t := s.(calls := s.calls[c := call]);
      CallsOk(t) && DistinctCandidates(t.calls) && CreatedOnce(t.calls)
  {
    var t := s.(calls := s.calls[c := call]);
    assert Extends(s, t);
    CallsOkMonotone(s, t);
  }

  lemma StartKeeps(cfg: Config, s: State, move: Move)
    requires Inv(cfg, s) && move.Start?
    ensures Inv(cfg, Step(cfg, s, move))
  {
    var Start(c, owner, fingerprint, mode, candidate, candidateReview) := move;
    if c !in s.calls && FreshCandidates(s, candidate, candidateReview) {
      NewCallKeeps(s, c, Call(owner, fingerprint, mode, s.clock, candidate, candidateReview, Finding));
    }
  }

  lemma DeleteAccounted(rows: map<Id, Row>, reviews: map<nat, Review>, byReview: map<nat, Id>, r: nat)
    requires Accounted(rows, reviews, byReview) && r in reviews
    ensures Accounted(rows, reviews[r := reviews[r].(deleted := true)], byReview)
  {
  }

  lemma DeleteKeeps(cfg: Config, s: State, r: nat)
    requires Inv(cfg, s) && r in s.reviews
    ensures Inv(cfg, s.(reviews := s.reviews[r := s.reviews[r].(deleted := true)]))
  {
    var t := s.(reviews := s.reviews[r := s.reviews[r].(deleted := true)]);
    DeleteAccounted(s.rows, s.reviews, s.byReview, r);
    CallsOkMonotone(s, t);
  }

  lemma {:induction false} EveryRunSatisfiesInv(cfg: Config, clock: int, moves: seq<Move>)
    requires ValidConfig(cfg)
    ensures Inv(cfg, Run(cfg, clock, moves))
  {
    if moves != [] {
      EveryRunSatisfiesInv(cfg, clock, moves[..|moves| - 1]);
      StepKeepsInv(cfg, Run(cfg, clock, moves[..|moves| - 1]), moves[|moves| - 1]);
    }
  }
}
