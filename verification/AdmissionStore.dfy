/**
  The in-memory adapters of quota admission and how they refine the durable protocol:
  apps/api/src/modules/usage/in-memory-quota-admission.repository.ts keeps two indexes of which one
  goes stale, and apps/api/src/modules/usage/in-memory-review-finalizer.ts rolls back by hand.
 */
module AdmissionStore {
  import opened Utf16
  import opened QuotaAdmission

  datatype Record = Record(id: Id, row: Row)

  // ---------------------------------------------------------------- the two indexes

  datatype Tables = Tables(byHash: map<OwnerKey, Record>, byId: map<Id, Record>)

  datatype IntentReply = Created(record: Record) | Found(record: Record) | IntentConflict

  function CreateOrGet(t: Tables, record: Record): (Tables, IntentReply) {
    if record.row.owner in t.byHash then
      var existing := t.byHash[record.row.owner];
      (t, if existing.row.fingerprint == record.row.fingerprint then Found(existing) else IntentConflict)
    else if record.id in t.byId then (t, IntentConflict)
    else
      var pending := record.(row := record.row.(status := PENDING));
      (Tables(t.byHash[record.row.owner := pending], t.byId[record.id := pending]), Created(pending))
  }

  function FindForOwner(t: Tables, user: nat, id: Id): Option<Row> {
    if id in t.byId && t.byId[id].row.owner.user == user then Some(t.byId[id].row) else None
  }

  function TransitionForOwner(t: Tables, user: nat, id: Id, to: Status): (Tables, TransitionReply) {
    if id !in t.byId || t.byId[id].row.owner.user != user then (t, Missing)
    else
      var current := t.byId[id];
      if current.row.status == to then (t, Updated(current.row))
      else if current.row.status !in AllowedSources(to) then (t, Refused)
      else
        var updated := current.(row := current.row.(status := to));
        (t.(byId := t.byId[id := updated]), Updated(updated.row))
  }

  class InMemoryQuotaAdmissionRepository {
    var byHash: map<OwnerKey, Record>
    var byId: map<Id, Record>

    ghost function Contents(): Tables
      reads this
    {
      Tables(byHash, byId)
    }

    constructor ()
      ensures Contents() == Tables(map[], map[])
    {
      byHash, byId := map[], map[];
    }

    method CreateOrGetIntent(id: Id, owner: OwnerKey, fingerprint: nat, reviewId: nat, mode: Mode,
        day: int) returns (reply: IntentReply)
      modifies this
      ensures (Contents(), reply)
        == CreateOrGet(old(Contents()), Record(id, Row(owner, fingerprint, reviewId, mode, day, PENDING)))
    {
      if owner in byHash {
        var existing := byHash[owner];
        if existing.row.fingerprint != fingerprint {
          return IntentConflict;
        }
        return Found(existing);
      }
      if id in byId {
        return IntentConflict;
      }
      var record := Record(id, Row(owner, fingerprint, reviewId, mode, day, PENDING));
      byHash := byHash[owner := record];
      byId := byId[id := record];
      reply := Created(record);
    }

    method Find(user: nat, id: Id) returns (row: Option<Row>)
      ensures row == FindForOwner(Contents(), user, id)
    {
      if id !in byId || byId[id].row.owner.user != user {
        return None;
      }
      row := Some(byId[id].row);
    }

    /** Only the index by id is refreshed. */
    method TransitionRecord(user: nat, id: Id, to: Status) returns (reply: TransitionReply)
      modifies this`byId
      ensures (Contents(), reply) == TransitionForOwner(old(Contents()), user, id, to)
    {
      if id !in byId || byId[id].row.owner.user != user {
        return Missing;
      }
      var current := byId[id];
      if current.row.status == to {
        return Updated(current.row);
      }
      if current.row.status !in AllowedSources(to) {
        return Refused;
      }
      var updated := current.(row := current.row.(status := to));
      byId := byId[id := updated];
      reply := Updated(updated.row);
    }
  }

  // ---------------------------------------------------------------- staleness

  /** The two indexes name the same records; the one by hash keeps the status of creation. */
  ghost predicate Aligned(t: Tables) {
    && (forall k :: k in t.byHash ==>
          var r := t.byHash[k];
          r.row.owner == k && r.row.status == PENDING && r.id in t.byId &&
            t.byId[r.id].row.(status := PENDING) == r.row)
    && (forall id :: id in t.byId ==>
      t.byId[id].id == id && t.byId[id].row.owner in t.byHash && t.byHash[t.byId[id].row.owner].id == id)
  }

  lemma CreateKeepsAligned(t: Tables, record: Record)
    requires Aligned(t)
    ensures Aligned(CreateOrGet(t, record).0)
  {
  }

  lemma TransitionKeepsAligned(t: Tables, user: nat, id: Id, to: Status)
    requires Aligned(t)
    ensures Aligned(TransitionForOwner(t, user, id, to).0)
  {
  }

  datatype Op = CreateIntent(record: Record) | Transit(user: nat, id: Id, to: Status)

  function Apply(t: Tables, op: Op): Tables {
    match op case CreateIntent(record) => CreateOrGet(t, record).0 case Transit(user, id, to) =>
      TransitionForOwner(t, user, id, to).0
  }

  function RunStore(ops: seq<Op>): Tables {
    if ops == [] then Tables(map[], map[]) else Apply(RunStore(ops[..|ops| - 1]), ops[|ops| - 1])
  }

  lemma {:induction false} EveryStoreIsAligned(ops: seq<Op>)
    ensures Aligned(RunStore(ops))
  {
    if ops != [] {
      EveryStoreIsAligned(ops[..|ops| - 1]);
      match ops[|ops| - 1]
      case CreateIntent(record) => CreateKeepsAligned(RunStore(ops[..|ops| - 1]), record);
      case Transit(user, id, to) => TransitionKeepsAligned(RunStore(ops[..|ops| - 1]), user, id, to);
    }
  }

  // ---------------------------------------------------------------- refinement of the durable store

  /** The durable rows and their index by owner that the two maps stand for. */
  ghost predicate Represents(t: Tables, s: State) {
    && s.rows.Keys == t.byId.Keys && (forall id :: id in t.byId ==> s.rows[id] == t.byId[id].row)
    && s.byOwner.Keys == t.byHash.Keys && (forall k :: k in t.byHash ==> s.byOwner[k] == t.byHash[k].id)
  }

  /** A status transition replies and writes as the durable one does. */
  lemma TransitionRefines(t: Tables, s: State, user: nat, id: Id, to: Status)
    requires Represents(t, s)
    ensures var (t', reply) := TransitionForOwner(t, user, id, to);
      var (s', durable) := Transition(s, user, id, to);
      reply == durable && Represents(t', s')
  {
    if id in t.byId && t.byId[id].row.owner.user == user && t.byId[id].row.status in AllowedSources(to) {
      WriteRefines(t, s, id, t.byId[id].(row := t.byId[id].row.(status := to)));
    }
  }

  lemma WriteRefines(t: Tables, s: State, id: Id, record: Record)
    requires Represents(t, s) && id in t.byId
    ensures Represents(t.(byId := t.byId[id := record]), s.(rows := s.rows[id := record.row]))
  {
  }

  /**
    Creating an intent agrees with the durable insert whenever the review id is unused; only the
    durable table enforces that review ids are unique.
   */
  lemma CreateRefines(t: Tables, s: State, record: Record)
    requires Aligned(t) && Represents(t, s) && record.row.status == PENDING && record.row.owner !in t.byHash
    ensures var (t', reply) := CreateOrGet(t, record);
      && (reply.Created? ==> Represents(t', Insert(s, record.id, record.row)))
      && (reply.IntentConflict? ==> t' == t && UniqueViolation(s, record.id, record.row))
      && (record.row.reviewId !in s.byReview ==> (reply.Created? <==> !UniqueViolation(s, record.id, record.row)))
  {
  }

  /**
    For a known owner and key the store answers with the status of creation. That is the current
    status exactly while the row is PENDING; the reread by id that follows in `admit` always gives
    the row the durable store holds.
   */
  lemma RereadCompensatesStaleness(t: Tables, s: State, record: Record)
    requires Aligned(t) && Represents(t, s) && record.row.owner in t.byHash
    ensures record.row.owner in s.byOwner && s.byOwner[record.row.owner] in s.rows
    ensures var (id, durable) := (s.byOwner[record.row.owner], s.rows[s.byOwner[record.row.owner]]);
      var (t', reply) := CreateOrGet(t, record);
      && t' == t
      && (reply.IntentConflict? <==> durable.fingerprint != record.row.fingerprint)
      && (reply.Found? ==>
            && reply.record.id == id && reply.record.row.(status := durable.status) == durable
            && (reply.record.row.status == durable.status <==> durable.status == PENDING)
            && FindForOwner(t, record.row.owner.user, reply.record.id) == Some(durable))
  {
  }

  // ---------------------------------------------------------------- whole runs of both stores

  datatype StoreReply = Intent(intent: IntentReply) | Transitioned(transition: TransitionReply)

  function ReplyTo(t: Tables, op: Op): StoreReply {
    match op
    case CreateIntent(record) => Intent(CreateOrGet(t, record).1)
    case Transit(user, id, to) => Transitioned(TransitionForOwner(t, user, id, to).1)
  }

  /** createOrGet of the durable store, which answers with the current row and guards three unique columns. */
  function DurableCreateOrGet(s: State, record: Record): (State, IntentReply) {
    var row := record.row.(status := PENDING);
    if row.owner in s.byOwner && s.byOwner[row.owner] in s.rows then
      var existing := Record(s.byOwner[row.owner], s.rows[s.byOwner[row.owner]]);
      (s, if existing.row.fingerprint == row.fingerprint then Found(existing) else IntentConflict)
    else if UniqueViolation(s, record.id, row) then (s, IntentConflict)
    else (Insert(s, record.id, row), Created(Record(record.id, row)))
  }

  function DurableApply(s: State, op: Op): (State, StoreReply) {
    match op
    case CreateIntent(record) => var (after, reply) := DurableCreateOrGet(s, record); (after, Intent(reply))
    case Transit(user, id, to) => var (after, reply) := Transition(s, user, id, to); (after, Transitioned(reply))
  }

  function DurableRun(ops: seq<Op>): State {
    if ops == [] then Init(0) else DurableApply(DurableRun(ops[..|ops| - 1]), ops[|ops| - 1]).0
  }

  /** Equal replies, except that a found record may carry the status of its creation. */
  predicate SameReply(a: StoreReply, b: StoreReply) {
    if a.Intent? && b.Intent? && a.intent.Found? && b.intent.Found?
    then
      && a.intent.record.id == b.intent.record.id
      && a.intent.record.row.(status := b.intent.record.row.status) == b.intent.record.row
    else a == b
  }

  /** A new intent under a free id whose review id is already taken by another one. */
  predicate ReusesReview(s: State, op: Op) {
    && op.CreateIntent? && op.record.row.owner !in s.byOwner && op.record.id !in s.rows
    && op.record.row.reviewId in s.byReview
  }

  predicate NeverReusesReview(ops: seq<Op>) {
    ops != [] ==>
      NeverReusesReview(ops[..|ops| - 1]) && !ReusesReview(DurableRun(ops[..|ops| - 1]), ops[|ops| - 1])
  }

  /** The two stores have given the same replies throughout. */
  predicate RepliesAgree(ops: seq<Op>) {
    ops != [] ==>
      var (before, op) := (ops[..|ops| - 1], ops[|ops| - 1]);
      RepliesAgree(before) && SameReply(ReplyTo(RunStore(before), op), DurableApply(DurableRun(before), op).1)
  }

  lemma CreationSimulates(t: Tables, s: State, record: Record)
    requires Aligned(t) && Represents(t, s)
    ensures var op := CreateIntent(record);
      var (after, reply) := DurableApply(s, op);
      && (SameReply(ReplyTo(t, op), reply) <==> !ReusesReview(s, op))
      && (!ReusesReview(s, op) ==> Represents(Apply(t, op), after))
  {
    if record.row.owner in t.byHash {
      RereadCompensatesStaleness(t, s, record);
    } else {
      CreateRefines(t, s, record.(row := record.row.(status := PENDING)));
    }
  }

  lemma OneSimulates(t: Tables, s: State, op: Op)
    requires Aligned(t) && Represents(t, s)
    ensures var (after, reply) := DurableApply(s, op);
      && (SameReply(ReplyTo(t, op), reply) <==> !ReusesReview(s, op))
      && (!ReusesReview(s, op) ==> Represents(Apply(t, op), after))
  {
    match op
    case CreateIntent(record) => CreationSimulates(t, s, record);
    case Transit(user, id, to) => TransitionRefines(t, s, user, id, to);
  }

  /**
    Over any run the in-memory store answers as the durable one, stale statuses aside, exactly when
    no new intent takes the review id of another; then its maps stand for the durable rows.
   */
  lemma {:induction false} StoresAgreeIff(ops: seq<Op>)
    ensures RepliesAgree(ops) <==> NeverReusesReview(ops)
    ensures NeverReusesReview(ops) ==> Represents(RunStore(ops), DurableRun(ops))
  {
    if ops != [] {
      var before := ops[..|ops| - 1];
      StoresAgreeIff(before);
      EveryStoreIsAligned(before);
      if NeverReusesReview(before) {
        OneSimulates(RunStore(before), DurableRun(before), ops[|ops| - 1]);
      }
    }
  }

  // ---------------------------------------------------------------- the finalizer with rollback

  datatype FinalizerTables = FinalizerTables(admissions: map<Id, Row>, reviews: map<nat, Review>)

  datatype FinalizerReply = Replied(reply: FinalizeReply) | ThrewAfterCreate

  datatype FinalizeInput = FinalizeInput(id: Id, user: nat, reviewId: nat, mode: Mode, fingerprint: nat, now: int)

  class InMemoryReviewFinalizer {
    var admissions: map<Id, Row>
    var reviews: map<nat, Review>
    const failAfterReviewCreate: bool

    ghost function Contents(): FinalizerTables
      reads this
    {
      FinalizerTables(admissions, reviews)
    }

    constructor (failAfterReviewCreate: bool)
      ensures Contents() == FinalizerTables(map[], map[]) && this.failAfterReviewCreate == failAfterReviewCreate
    {
      admissions, reviews := map[], map[];
      this.failAfterReviewCreate := failAfterReviewCreate;
    }

    method Seed(id: Id, row: Row)
      modifies this`admissions
      ensures admissions == old(admissions)[id := row]
    {
      admissions := admissions[id := row];
    }

    /** The review is created first; when the admission write fails, both writes are taken back. */
    method FinalizeReview(i: FinalizeInput) returns (r: FinalizerReply)
      modifies this
      ensures (Contents(), r) == FinalizeTables(old(Contents()), failAfterReviewCreate, i)
    {
      if i.id !in admissions || admissions[i.id].owner.user != i.user {
        return Replied(FinalizeMissing);
      }
      var admission := admissions[i.id];
      if admission.reviewId != i.reviewId || admission.mode != i.mode || admission.fingerprint != i.fingerprint {
        return Replied(FinalizeConflict);
      }
      if admission.status == ADMITTED {
        if admission.reviewId !in reviews || reviews[admission.reviewId].user != i.user {
          return Replied(FinalizeIndeterminate);
        }
        return Replied(Replayed);
      }
      if admission.status != RESERVED || i.reviewId in reviews {
        return Replied(FinalizeConflict);
      }
      reviews := reviews[i.reviewId := Review(i.user, i.mode, i.now, false)];
      if failAfterReviewCreate {
        reviews := reviews - {i.reviewId};
        admissions := admissions[i.id := admission];
        assert reviews == old(reviews) && admissions == old(admissions);
        return ThrewAfterCreate;
      }
      admissions := admissions[i.id := admission.(status := ADMITTED)];
      r := Replied(Finalized);
    }
  }

  function FinalizeTables(t: FinalizerTables, fails: bool, i: FinalizeInput): (FinalizerTables, FinalizerReply) {
    if i.id !in t.admissions || t.admissions[i.id].owner.user != i.user then (t, Replied(FinalizeMissing))
    else
      var row := t.admissions[i.id];
      if row.reviewId != i.reviewId || row.mode != i.mode || row.fingerprint != i.fingerprint
        then (t, Replied(FinalizeConflict))
      else if row.status == ADMITTED then
        (t, Replied(if row.reviewId !in t.reviews || t.reviews[row.reviewId].user != i.user then FinalizeIndeterminate
          else Replayed))
      else if row.status != RESERVED || i.reviewId in t.reviews then (t, Replied(FinalizeConflict))
      else if fails then (t, ThrewAfterCreate)
      else
        (FinalizerTables(t.admissions[i.id := row.(status := ADMITTED)],
          t.reviews[i.reviewId := Review(i.user, i.mode, i.now, false)]),
         Replied(Finalized))
  }

  /** The stored review of an admitted row, if any, is not deleted and has the row's mode; this store can do neither. */
  predicate PlainReviews(t: FinalizerTables, i: FinalizeInput) {
    i.id in t.admissions && t.admissions[i.id].reviewId in t.reviews ==>
      var (row, review) := (t.admissions[i.id], t.reviews[t.admissions[i.id].reviewId]);
      !review.deleted && review.mode == row.mode
  }

  /**
    Without an injected failure the in-memory finalizer replies and writes as the durable transaction;
    with one it writes nothing.
   */
  lemma FinalizerRefines(t: FinalizerTables, fails: bool, i: FinalizeInput, s: State, call: Call, rec: Row)
    requires s.rows == t.admissions && s.reviews == t.reviews && PlainReviews(t, i)
    requires rec.owner.user == i.user && rec.reviewId == i.reviewId && rec.mode == i.mode &&
      call.fingerprint == i.fingerprint && call.now == i.now
    ensures var (t', r) := FinalizeTables(t, fails, i);
      var (s', durable) := Finalize(s, call, i.id, rec);
      && (r.ThrewAfterCreate? ==> t' == t && fails)
      && (!fails ==> r == Replied(durable) && s' == s.(rows := t'.admissions, reviews := t'.reviews))
  {
  }
}
