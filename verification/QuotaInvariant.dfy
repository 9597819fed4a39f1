/**
  What holds in every reachable state of quota admission, and how durable state may evolve.
 */
module QuotaInvariant {
  import opened Utf16
  import opened UtcDay
  import opened QuotaAdmission
  import R = RedisAdmission

  /** The unique indexes agree with the admission table. */
  ghost predicate Indexed(rows: map<Id, Row>, byOwner: map<OwnerKey, Id>, byReview: map<nat, Id>) {
    && (forall id :: id in rows ==>
          && R.SafeId(id)
          && rows[id].owner in byOwner && byOwner[rows[id].owner] == id
          && rows[id].reviewId in byReview && byReview[rows[id].reviewId] == id)
    && (forall k :: k in byOwner ==> byOwner[k] in rows && rows[byOwner[k]].owner == k)
    && (forall r :: r in byReview ==> byReview[r] in rows && rows[byReview[r]].reviewId == r)
  }

  function ReviewKey(review: Review): QuotaKey {
    QuotaKey(review.user, review.mode, DayOf(review.createdAt))
  }

  /** An admission is ADMITTED exactly when its preallocated review row exists. */
  ghost predicate Accounted(rows: map<Id, Row>, reviews: map<nat, Review>, byReview: map<nat, Id>) {
    && (forall id :: id in rows ==> (rows[id].status == ADMITTED <==> rows[id].reviewId in reviews))
    && (forall r :: r in reviews ==>
          r in byReview && byReview[r] in rows && ReviewKey(reviews[r]) == KeyOf(rows[byReview[r]]))
  }

  /** RESERVED and ADMITTED are reached only after the script returned RESERVED for the id. */
  ghost predicate Backed(rows: map<Id, Row>, granted: map<QuotaKey, set<Id>>) {
    forall id :: id in rows && rows[id].status in {RESERVED, ADMITTED} ==> id in GrantedAt(granted, KeyOf(rows[id]))
  }

  /** The ids whose marker text records a reservation, live or not. */
  function Marked(c: R.Codec, store: R.Store): set<Id> {
    set id | id in store.markers && c.parse(store.markers[id].text).Some? &&
      c.parse(store.markers[id].text).value.outcome == R.RESERVED
  }

  ghost predicate KeySound(cfg: Config, clock: int, k: QuotaKey, store: R.Store, granted: set<Id>) {
    && R.Coherent(cfg.codec, store, Limit(cfg, k.mode), cfg.maxTtlSeconds, clock)
    && R.HeldPast(store, Midnight(k.day))
    && granted == Marked(cfg.codec, store)
    && |granted| <= Limit(cfg, k.mode)
  }

  ghost predicate KeysSound(cfg: Config, clock: int, stores: map<QuotaKey, R.Store>, granted: map<QuotaKey, set<Id>>) {
    && stores.Keys == granted.Keys
    && forall k :: k in stores ==> KeySound(cfg, clock, k, stores[k], granted[k])
  }

  ghost predicate Durable(cfg: Config, s: State) {
    && Indexed(s.rows, s.byOwner, s.byReview)
    && Accounted(s.rows, s.reviews, s.byReview)
    && Backed(s.rows, s.granted)
    && KeysSound(cfg, s.clock, s.stores, s.granted)
  }

  predicate SameIdentity(a: Row, b: Row) {
    a.owner == b.owner && a.fingerprint == b.fingerprint && a.reviewId == b.reviewId && a.mode == b.mode &&
      a.day == b.day
  }

  /** The row was created for a request with this call's owner, key and fingerprint. */
  predicate Matches(call: Call, row: Row) {
    row.owner == call.owner && row.fingerprint == call.fingerprint
  }

  ghost predicate HoldsRecord(rows: map<Id, Row>, call: Call, id: Id, rec: Row) {
    && id in rows && SameIdentity(rows[id], rec)
    && Matches(call, rec) && rec.mode == call.mode && rec.day == DayOf(call.now)
  }

  ghost predicate HoldsDecision(granted: map<QuotaKey, set<Id>>, id: Id, rec: Row, target: Status) {
    target in {RESERVED, DENIED} && (target == RESERVED ==> id in GrantedAt(granted, KeyOf(rec)))
  }

  /** What a call knows at each program point. */
  ghost predicate PcOk(s: State, call: Call, pc: Pc) {
    match pc
    case Rereading(id, rec) => HoldsRecord(s.rows, call, id, rec)
    case Reserving(id, rec) => HoldsRecord(s.rows, call, id, rec)
    case Persisting(id, rec, target) => HoldsRecord(s.rows, call, id, rec) && HoldsDecision(s.granted, id, rec, target)
    case RaceRereading(id, rec, target) =>
      HoldsRecord(s.rows, call, id, rec) && HoldsDecision(s.granted, id, rec, target)
    case Finalizing(id, rec) => HoldsRecord(s.rows, call, id, rec)
    case Marking(id, preferred, _) =>
      preferred in {INDETERMINATE, RECONCILE_REQUIRED} && (id == call.candidate || id in s.rows) &&
        (id in s.rows ==> Matches(call, s.rows[id]))
    case Done(Success(_, r)) =>
      r in s.byReview && s.byReview[r] in s.rows && s.rows[s.byReview[r]].status == ADMITTED &&
        Matches(call, s.rows[s.byReview[r]])
    case _ => true
  }

  ghost predicate CallOk(s: State, call: Call) {
    && call.now <= s.clock && R.SafeId(call.candidate)
    && (call.candidate in s.rows ==> Matches(call, s.rows[call.candidate]))
    && PcOk(s, call, call.pc)
  }

  ghost predicate CallsOk(s: State) {
    forall c :: c in s.calls ==> CallOk(s, s.calls[c])
  }

  ghost predicate DistinctCandidates(calls: map<nat, Call>) {
    forall c, d :: c in calls && d in calls && c != d ==> calls[c].candidate != calls[d].candidate
  }

  predicate ReportsCreated(call: Call, r: nat) {
    call.pc == Done(Success(true, r))
  }

  ghost predicate CreatedOnce(calls: map<nat, Call>) {
    forall c, d, r :: c in calls && d in calls && c != d && ReportsCreated(calls[c], r) ==> !ReportsCreated(calls[d], r)
  }

  ghost predicate Inv(cfg: Config, s: State) {
    Durable(cfg, s) && CallsOk(s) && DistinctCandidates(s.calls) && CreatedOnce(s.calls)
  }

  /** Rows keep their identity, and ADMITTED and DENIED are absorbing. */
  ghost predicate RowsEvolve(before: map<Id, Row>, after: map<Id, Row>) {
    forall id :: id in before ==>
      && id in after && SameIdentity(before[id], after[id])
      && (before[id].status in {ADMITTED, DENIED} ==> after[id].status == before[id].status)
  }

  ghost predicate GrantsGrow(before: map<QuotaKey, set<Id>>, after: map<QuotaKey, set<Id>>) {
    forall k :: GrantedAt(before, k) <= GrantedAt(after, k)
  }

  ghost predicate ReviewsEvolve(before: map<nat, Review>, after: map<nat, Review>) {
    forall r :: r in before ==> r in after && ReviewKey(after[r]) == ReviewKey(before[r])
  }

  ghost predicate IndexGrows<K(!new)>(before: map<K, Id>, after: map<K, Id>) {
    forall k :: k in before ==> k in after && after[k] == before[k]
  }

  /** How durable state may evolve. */
  ghost predicate Extends(s: State, t: State) {
    && s.clock <= t.clock && RowsEvolve(s.rows, t.rows) && GrantsGrow(s.granted, t.granted) &&
      ReviewsEvolve(s.reviews, t.reviews)
    && IndexGrows(s.byOwner, t.byOwner) && IndexGrows(s.byReview, t.byReview)
  }
}
