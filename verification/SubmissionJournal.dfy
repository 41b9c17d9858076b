/**
 * The durable submission journal: one shared table of submission rows, and any number of
 * journal handles, each with the claims it owns in volatile memory.
 */
module SubmissionJournal {
  import opened Basics

  datatype State = Claimed | Submitting | Submitted | Uncertain | Reconciled

  datatype Resolution = BrokerOrderFound | NotSubmitted

  datatype Error =
    | IdentityInvalid
    | IdentityMismatch
    | OwnerMissing
    | TransitionRejected
    | ClockRollback
    | CapacityReached
    | ReconciliationInvalid
    | Corrupt
    | Unavailable

  datatype Row = Row(
    submissionId: string,
    receiptId: string,
    requestHash: string,
    clientOrderId: string,
    expiresAt: Instant,
    state: State,
    owner: Option<string>,
    attempts: nat,
    claimedAt: Instant,
    submittingAt: Option<Instant>,
    submittedAt: Option<Instant>,
    uncertainAt: Option<Instant>,
    reconciledAt: Option<Instant>,
    brokerOrderId: Option<string>,
    resolution: Option<Resolution>,
    lastErrorType: Option<string>,
    updatedAt: Instant)

  /** The durable part: the rows by request hash, and the last clock that was recorded. */
  datatype Db = Db(rows: map<string, Row>, lastClock: Option<Instant>)

  /** What one handle sees: the shared table and its own claims. */
  datatype Handle = Handle(db: Db, owned: map<string, string>)

  datatype Done<+T> = Done(handle: Handle, out: Result<T, Error>)

  /** Where an exception strikes a transaction that would otherwise commit. */
  datatype Fault = NoFault | BeforeCommit | AfterCommit

  // ----- identities -----

  predicate RequiredText(s: string, maximum: nat) {
    Trimmed(s) && Utf8Length(s) <= maximum && '\0' !in s
  }

  function ClientOrderId(requestHash: string): string {
    "llts-" + requestHash
  }

  function SubmissionId(requestHash: string): string {
    "llts-submission-" + requestHash
  }

  lemma ClientOrderIdInjective(a: string, b: string)
    requires ClientOrderId(a) == ClientOrderId(b)
    ensures a == b
  {
    assert a == ClientOrderId(a)[5..];
    assert b == ClientOrderId(b)[5..];
  }

  /** The checks of the row reader; a row that fails one is reported as corrupt. */
  predicate RecordOk(row: Row) {
    && IsDigest(row.requestHash)
    && RequiredText(row.receiptId, 256)
    && row.clientOrderId == ClientOrderId(row.requestHash)
    && row.submissionId == SubmissionId(row.requestHash)
    && row.attempts in {0, 1}
    && (row.state == Claimed ==> row.attempts == 0)
    && (row.state in {Submitting, Submitted, Uncertain} ==> row.attempts == 1)
    && (row.state == Submitted ==> row.brokerOrderId.Some? && row.brokerOrderId.value != "")
    && (row.state == Reconciled ==>
          && row.resolution.Some?
          && (row.resolution.value == BrokerOrderFound ==>
                row.brokerOrderId.Some? && row.brokerOrderId.value != ""))
  }

  // ----- transactions as functions of what the handle sees -----

  predicate ClockOk(db: Db, now: Instant) {
    db.lastClock.None? || db.lastClock.value <= now
  }

  function Settle<T>(before: Handle, db: Db, owned: map<string, string>, out: T, fault: Fault): Done<T> {
    match fault
    case NoFault => Done(Handle(db, owned), Ok(out))
    case BeforeCommit => Done(before, Err(Unavailable))
    case AfterCommit => Done(Handle(db, before.owned), Err(Unavailable))
  }

  /** The UNIQUE and PRIMARY KEY constraints of the table. */
  predicate Collides(rows: map<string, Row>, receiptId: string, requestHash: string) {
    exists h :: h in rows &&
                (|| rows[h].requestHash == requestHash
                 || rows[h].receiptId == receiptId
                 || rows[h].clientOrderId == ClientOrderId(requestHash)
                 || rows[h].submissionId == SubmissionId(requestHash))
  }

  function ClaimedRow(receiptId: string, requestHash: string, expiry: Instant, token: string, now: Instant): Row {
    Row(SubmissionId(requestHash), receiptId, requestHash, ClientOrderId(requestHash), expiry, Claimed,
        Some(token), 0, now, None, None, None, None, None, None, None, now)
  }

  function ConsumeSpec(h: Handle, receiptId: string, requestHash: string, expiry: Instant, now: Instant,
                       token: string, capacity: nat, fault: Fault): Done<bool>
  {
    var clocked := h.db.(lastClock := Some(now));
    if !RequiredText(receiptId, 256) || !IsDigest(requestHash) then Done(h, Err(IdentityInvalid))
    else if !ClockOk(h.db, now) then Done(h, Err(ClockRollback))
    else if expiry <= now then Settle(h, clocked, h.owned, false, fault)
    else if |h.db.rows| >= capacity then Done(h, Err(CapacityReached))
    else if Collides(h.db.rows, receiptId, requestHash) then Done(h, Ok(false))
    else
      var row := ClaimedRow(receiptId, requestHash, expiry, token, now);
      Settle(h, clocked.(rows := h.db.rows[requestHash := row]), h.owned[requestHash := token], true, fault)
  }

  function BegunRow(row: Row, now: Instant): Row {
    row.(state := Submitting, attempts := 1, submittingAt := Some(now), updatedAt := now)
  }

  function BeginSpec(h: Handle, receiptId: string, requestHash: string, clientOrderId: string,
                     now: Instant, fault: Fault): Done<Row>
  {
    var rows := h.db.rows;
    if !RequiredText(receiptId, 256) || !IsDigest(requestHash) then Done(h, Err(IdentityInvalid))
    else if clientOrderId != ClientOrderId(requestHash) then Done(h, Err(IdentityMismatch))
    else if requestHash !in h.owned then Done(h, Err(OwnerMissing))
    else if !ClockOk(h.db, now) then Done(h, Err(ClockRollback))
    else if !(&& requestHash in rows
              && rows[requestHash].receiptId == receiptId
              && rows[requestHash].clientOrderId == clientOrderId
              && rows[requestHash].state == Claimed
              && rows[requestHash].attempts == 0
              && rows[requestHash].owner == Some(h.owned[requestHash])) then Done(h, Err(TransitionRejected))
    else
      var row := BegunRow(rows[requestHash], now);
      if !RecordOk(row) then Done(h, Err(Corrupt))
      else Settle(h, Db(rows[requestHash := row], Some(now)), h.owned, row, fault)
  }

  /** How an attempt that reached the broker ends. */
  datatype Ending = Accepted(brokerOrderId: string) | Unknown(errorType: string)

  predicate EndingOk(ending: Ending) {
    match ending
    case Accepted(id) => RequiredText(id, 256)
    case Unknown(errorType) => RequiredText(errorType, 128)
  }

  function FinishedRow(row: Row, ending: Ending, now: Instant): Row {
    match ending
    case Accepted(id) =>
      row.(state := Submitted, submittedAt := Some(now), brokerOrderId := Some(id),
           lastErrorType := None, owner := None, updatedAt := now)
    case Unknown(errorType) =>
      row.(state := Uncertain, uncertainAt := Some(now), brokerOrderId := None,
           lastErrorType := Some(errorType), owner := None, updatedAt := now)
  }

  function Drop<K, V>(m: map<K, V>, key: K): map<K, V> {
    m - {key}
  }

  function FinishSpec(h: Handle, receiptId: string, requestHash: string, clientOrderId: string, ending: Ending,
                      now: Instant, fault: Fault): Done<Row>
  {
    var rows := h.db.rows;
    if !EndingOk(ending) || !RequiredText(receiptId, 256) || !IsDigest(requestHash)
    then Done(h, Err(IdentityInvalid))
    else if clientOrderId != ClientOrderId(requestHash) then Done(h, Err(IdentityMismatch))
    else if requestHash !in h.owned then Done(h, Err(OwnerMissing))
    else if !ClockOk(h.db, now) then Done(h, Err(ClockRollback))
    else if requestHash !in rows then Done(h, Err(TransitionRejected))
    else
      var row := rows[requestHash];
      var left := Drop(h.owned, requestHash);
      if && row.receiptId == receiptId
         && row.clientOrderId == clientOrderId
         && row.state == Submitting
         && row.attempts == 1
         && row.owner == Some(h.owned[requestHash])
      then
        var row' := FinishedRow(row, ending, now);
        if !RecordOk(row') then Done(h, Err(Corrupt))
        else Settle(h, Db(rows[requestHash := row'], Some(now)), left, row', fault)
      else if row.state == Reconciled && ending.Accepted? && row.brokerOrderId == Some(ending.brokerOrderId)
      then
        if !RecordOk(row) then Done(h, Err(Corrupt))
        else Settle(h, h.db.(lastClock := Some(now)), left, row, fault)
      else Done(h, Err(TransitionRejected))
  }

  function EligibleStates(resolution: Resolution): set<State> {
    match resolution
    case BrokerOrderFound => {Submitting, Uncertain, Submitted}
    case NotSubmitted => {Claimed}
  }

  function ReconciledRow(row: Row, resolution: Resolution, brokerOrderId: Option<string>, now: Instant): Row {
    row.(state := Reconciled, reconciledAt := Some(now), brokerOrderId := brokerOrderId,
         resolution := Some(resolution), owner := None, updatedAt := now)
  }

  function ReconcileSpec(h: Handle, requestHash: string, resolution: Resolution, brokerOrderId: Option<string>,
                         now: Instant, fault: Fault): Done<Row>
  {
    var rows := h.db.rows;
    if !IsDigest(requestHash) then Done(h, Err(IdentityInvalid))
    else if (resolution == BrokerOrderFound) != brokerOrderId.Some? then Done(h, Err(ReconciliationInvalid))
    else if brokerOrderId.Some? && !RequiredText(brokerOrderId.value, 256) then Done(h, Err(IdentityInvalid))
    else if !ClockOk(h.db, now) then Done(h, Err(ClockRollback))
    else if requestHash !in rows then Done(h, Err(TransitionRejected))
    else
      var row := rows[requestHash];
      if row.state in EligibleStates(resolution) then
        var row' := ReconciledRow(row, resolution, brokerOrderId, now);
        if !RecordOk(row') then Done(h, Err(Corrupt))
        else Settle(h, Db(rows[requestHash := row'], Some(now)), Drop(h.owned, requestHash), row', fault)
      else if row.state == Reconciled && row.resolution == Some(resolution) && row.brokerOrderId == brokerOrderId
      then
        if !RecordOk(row) then Done(h, Err(Corrupt))
        else Settle(h, h.db.(lastClock := Some(now)), h.owned, row, fault)
      else Done(h, Err(TransitionRejected))
  }

  function GetSpec(db: Db, requestHash: string): Result<Option<Row>, Error> {
    if !IsDigest(requestHash) then Err(IdentityInvalid)
    else if requestHash !in db.rows then Ok(None)
    else if !RecordOk(db.rows[requestHash]) then Err(Corrupt)
    else Ok(Some(db.rows[requestHash]))
  }

  predicate Unresolved(row: Row) {
    row.state in {Claimed, Submitting, Uncertain}
  }

  // ----- the table invariant -----

  /** The lifecycle clocks that a row in each state carries, in order. */
  predicate TimelineOk(row: Row) {
    match row.state
    case Claimed =>
      && row.submittingAt.None? && row.submittedAt.None? && row.uncertainAt.None? && row.reconciledAt.None?
      && row.claimedAt == row.updatedAt
    case Submitting =>
      && row.submittedAt.None? && row.uncertainAt.None? && row.reconciledAt.None?
      && row.submittingAt == Some(row.updatedAt) && row.claimedAt <= row.updatedAt
    case Submitted =>
      && row.submittingAt.Some? && row.uncertainAt.None? && row.reconciledAt.None?
      && row.submittedAt == Some(row.updatedAt) && row.claimedAt <= row.submittingAt.value <= row.updatedAt
    case Uncertain =>
      && row.submittingAt.Some? && row.submittedAt.None? && row.reconciledAt.None?
      && row.uncertainAt == Some(row.updatedAt) && row.claimedAt <= row.submittingAt.value <= row.updatedAt
    case Reconciled =>
      && row.reconciledAt == Some(row.updatedAt) && row.claimedAt <= row.updatedAt
      && (row.submittingAt.Some? ==> row.claimedAt <= row.submittingAt.value <= row.updatedAt)
      && (row.submittedAt.Some? ==>
            row.submittingAt.Some? && row.submittingAt.value <= row.submittedAt.value <= row.updatedAt)
      && (row.uncertainAt.Some? ==>
            row.submittingAt.Some? && row.submittingAt.value <= row.uncertainAt.value <= row.updatedAt)
      && (row.submittedAt.None? || row.uncertainAt.None?)
      && row.submittingAt.Some? == (row.resolution == Some(BrokerOrderFound))
  }

  predicate RowInv(row: Row) {
    && RecordOk(row)
    && (row.owner.Some? <==> row.state in {Claimed, Submitting})
    && (row.attempts == 0 <==> row.state == Claimed || (row.state == Reconciled && row.resolution == Some(NotSubmitted)))
    && (row.resolution.Some? <==> row.state == Reconciled)
    && (row.brokerOrderId.Some? <==> row.state == Submitted || row.resolution == Some(BrokerOrderFound))
    && TimelineOk(row)
  }

  ghost predicate DbInv(db: Db) {
    && (forall h :: h in db.rows ==>
          && db.rows[h].requestHash == h
          && RowInv(db.rows[h])
          && db.lastClock.Some?
          && db.rows[h].updatedAt <= db.lastClock.value)
    && (forall h, k :: h in db.rows && k in db.rows && db.rows[h].receiptId == db.rows[k].receiptId ==> h == k)
  }

  function Rank(state: State): nat {
    match state
    case Claimed => 0
    case Submitting => 1
    case Submitted => 2
    case Uncertain => 2
    case Reconciled => 3
  }

  /** Rows are never deleted, keep their identities, and only move forward. */
  predicate Forward(a: State, b: State) {
    a == b || Rank(a) < Rank(b)
  }

  predicate RowAdvances(a: Row, b: Row) {
    && a.receiptId == b.receiptId
    && a.requestHash == b.requestHash
    && a.expiresAt == b.expiresAt
    && a.claimedAt == b.claimedAt
    && a.attempts <= b.attempts
    && a.updatedAt <= b.updatedAt
    && Forward(a.state, b.state)
    && (a.state == Reconciled ==> a == b)
    && (a.brokerOrderId.Some? ==> b.brokerOrderId.Some?)
    && (b.resolution == Some(NotSubmitted) ==> a.attempts == 0)
    && (b.owner.Some? ==> a.owner == b.owner)
  }

  ghost predicate DbAdvances(a: Db, b: Db) {
    && (forall h :: h in a.rows ==> h in b.rows && RowAdvances(a.rows[h], b.rows[h]))
    && (a.lastClock.Some? ==> b.lastClock.Some? && a.lastClock.value <= b.lastClock.value)
  }

  /** A transaction that only records its clock, or rolls back, changes no row. */
  lemma ClockKeeps(db: Db, now: Instant)
    requires DbInv(db)
    ensures DbAdvances(db, db)
    ensures ClockOk(db, now) ==> DbInv(db.(lastClock := Some(now))) && DbAdvances(db, db.(lastClock := Some(now)))
  {
  }

  /** Replacing one row by a legal successor, or adding one under fresh identities, keeps the table invariant. */
  lemma PutKeeps(db: Db, key: string, row: Row, now: Instant)
    requires DbInv(db) && ClockOk(db, now)
    requires row.requestHash == key && RowInv(row) && row.updatedAt == now
    requires key in db.rows ==> RowAdvances(db.rows[key], row)
    requires key !in db.rows ==> forall k :: k in db.rows ==> db.rows[k].receiptId != row.receiptId
    ensures var after := Db(db.rows[key := row], Some(now)); DbInv(after) && DbAdvances(db, after)
  {
    var after := Db(db.rows[key := row], Some(now));
    forall k | k in db.rows
      ensures RowAdvances(db.rows[k], after.rows[k])
    {
    }
  }

  lemma BegunRowKeeps(row: Row, now: Instant)
    requires RowInv(row) && row.state == Claimed && row.updatedAt <= now
    ensures RowInv(BegunRow(row, now)) && RowAdvances(row, BegunRow(row, now))
  {
  }

  lemma FinishedRowKeeps(row: Row, ending: Ending, now: Instant)
    requires RowInv(row) && row.state == Submitting && row.updatedAt <= now && EndingOk(ending)
    ensures RowInv(FinishedRow(row, ending, now)) && RowAdvances(row, FinishedRow(row, ending, now))
  {
  }

  lemma ReconciledRowKeeps(row: Row, resolution: Resolution, brokerOrderId: Option<string>, now: Instant)
    requires RowInv(row) && row.state in EligibleStates(resolution) && row.updatedAt <= now
    requires (resolution == BrokerOrderFound) == brokerOrderId.Some?
    requires brokerOrderId.Some? ==> RequiredText(brokerOrderId.value, 256)
    ensures RowInv(ReconciledRow(row, resolution, brokerOrderId, now))
    ensures RowAdvances(row, ReconciledRow(row, resolution, brokerOrderId, now))
  {
  }

  /** One committed transaction: nothing changed, the clock was recorded, or one row was put. */
  ghost predicate Commits(a: Db, b: Db, key: string, row: Row, now: Instant) {
    || b == a
    || (ClockOk(a, now) && b == a.(lastClock := Some(now)))
    || (ClockOk(a, now) && b == Db(a.rows[key := row], Some(now)) && row.requestHash == key && RowInv(row)
        && row.updatedAt == now
        && (key in a.rows ==> RowAdvances(a.rows[key], row))
        && (key !in a.rows ==> forall k :: k in a.rows ==> a.rows[k].receiptId != row.receiptId))
  }

  lemma CommitKeeps(a: Db, b: Db, key: string, row: Row, now: Instant)
    requires DbInv(a) && Commits(a, b, key, row, now)
    ensures DbInv(b) && DbAdvances(a, b)
  {
    ClockKeeps(a, now);
    if b != a && b != a.(lastClock := Some(now)) {
      PutKeeps(a, key, row, now);
    }
  }

  lemma ConsumeKeeps(h: Handle, receiptId: string, requestHash: string, expiry: Instant, now: Instant,
                     token: string, capacity: nat, fault: Fault)
    requires DbInv(h.db)
    ensures var d := ConsumeSpec(h, receiptId, requestHash, expiry, now, token, capacity, fault);
            DbInv(d.handle.db) && DbAdvances(h.db, d.handle.db)
  {
    var d := ConsumeSpec(h, receiptId, requestHash, expiry, now, token, capacity, fault);
    var row := ClaimedRow(receiptId, requestHash, expiry, token, now);
    if d.handle.db == h.db || d.handle.db == h.db.(lastClock := Some(now)) {
      ClockKeeps(h.db, now);
    } else {
      assert !Collides(h.db.rows, receiptId, requestHash) && requestHash !in h.db.rows;
      CommitKeeps(h.db, d.handle.db, requestHash, row, now);
    }
  }

  lemma BeginKeeps(h: Handle, receiptId: string, requestHash: string, clientOrderId: string, now: Instant, fault: Fault)
    requires DbInv(h.db)
    ensures var d := BeginSpec(h, receiptId, requestHash, clientOrderId, now, fault);
            DbInv(d.handle.db) && DbAdvances(h.db, d.handle.db) && d.out != Err(Corrupt)
  {
    var d := BeginSpec(h, receiptId, requestHash, clientOrderId, now, fault);
    if requestHash in h.db.rows && h.db.rows[requestHash].state == Claimed && ClockOk(h.db, now) {
      BegunRowKeeps(h.db.rows[requestHash], now);
      CommitKeeps(h.db, d.handle.db, requestHash, BegunRow(h.db.rows[requestHash], now), now);
    } else {
      ClockKeeps(h.db, now);
    }
  }

  lemma FinishKeeps(h: Handle, receiptId: string, requestHash: string, clientOrderId: string, ending: Ending,
                    now: Instant, fault: Fault)
    requires DbInv(h.db)
    ensures var d := FinishSpec(h, receiptId, requestHash, clientOrderId, ending, now, fault);
            DbInv(d.handle.db) && DbAdvances(h.db, d.handle.db) && d.out != Err(Corrupt)
  {
    var d := FinishSpec(h, receiptId, requestHash, clientOrderId, ending, now, fault);
    if requestHash in h.db.rows && ClockOk(h.db, now) && EndingOk(ending) && h.db.rows[requestHash].state == Submitting {
      FinishedRowKeeps(h.db.rows[requestHash], ending, now);
      CommitKeeps(h.db, d.handle.db, requestHash, FinishedRow(h.db.rows[requestHash], ending, now), now);
    } else {
      ClockKeeps(h.db, now);
    }
  }

  lemma ReconcileKeeps(h: Handle, requestHash: string, resolution: Resolution, brokerOrderId: Option<string>,
                       now: Instant, fault: Fault)
    requires DbInv(h.db)
    ensures var d := ReconcileSpec(h, requestHash, resolution, brokerOrderId, now, fault);
            DbInv(d.handle.db) && DbAdvances(h.db, d.handle.db) && d.out != Err(Corrupt)
  {
    var d := ReconcileSpec(h, requestHash, resolution, brokerOrderId, now, fault);
    if && requestHash in h.db.rows && ClockOk(h.db, now)
       && (resolution == BrokerOrderFound) == brokerOrderId.Some?
       && (brokerOrderId.Some? ==> RequiredText(brokerOrderId.value, 256))
       && h.db.rows[requestHash].state in EligibleStates(resolution)
    {
      ReconciledRowKeeps(h.db.rows[requestHash], resolution, brokerOrderId, now);
      CommitKeeps(h.db, d.handle.db, requestHash, ReconciledRow(h.db.rows[requestHash], resolution, brokerOrderId, now), now);
    } else {
      ClockKeeps(h.db, now);
    }
  }

  // ----- the objects themselves -----

  /** The SQLite file that every handle opens. */
  class Store {
    var rows: map<string, Row>
    var lastClock: Option<Instant>

    constructor ()
      ensures rows == map[] && lastClock == None
    {
      rows, lastClock := map[], None;
    }
  }

  /** One process's handle: the shared file plus the claims this process made. */
  class Journal {
    const store: Store
    const maxEntries: nat
    var owned: map<string, string>

    ghost function View(): Handle
      reads this, store
    {
      Handle(Db(store.rows, store.lastClock), owned)
    }

    constructor (store: Store, maxEntries: nat)
      ensures this.store == store && this.maxEntries == maxEntries && owned == map[]
    {
      this.store, this.maxEntries, this.owned := store, maxEntries, map[];
    }

    method RecordClock(now: Instant) returns (ok: bool)
      modifies store`lastClock
      ensures ok == old(ClockOk(View().db, now))
      ensures store.lastClock == if ok then Some(now) else old(store.lastClock)
    {
      if store.lastClock.Some? && now < store.lastClock.value {
        return false;
      }
      store.lastClock := Some(now);
      return true;
    }

    method Rollback(rows: map<string, Row>, clock: Option<Instant>)
      modifies store
      ensures store.rows == rows && store.lastClock == clock
    {
      store.rows, store.lastClock := rows, clock;
    }

    /** Commits, unless the commit itself raises; file hardening after the commit may raise too. */
    method Commit(rows: map<string, Row>, clock: Option<Instant>, fault: Fault) returns (raised: bool)
      modifies store
      ensures raised == (fault != NoFault)
      ensures if fault == BeforeCommit then store.rows == rows && store.lastClock == clock
              else store.rows == old(store.rows) && store.lastClock == old(store.lastClock)
    {
      if fault == BeforeCommit {
        Rollback(rows, clock);
      }
      return fault != NoFault;
    }

    method Consume(receiptId: string, requestHash: string, expiry: Instant, now: Instant, token: string, fault: Fault)
      returns (r: Result<bool, Error>)
      modifies this`owned, store
      ensures Done(View(), r)
           == ConsumeSpec(old(View()), receiptId, requestHash, expiry, now, token, maxEntries, fault)
      ensures r == Ok(true) <==>
                && Trimmed(receiptId) && Utf8Length(receiptId) <= 256 && '\0' !in receiptId && IsDigest(requestHash)
                && (old(store.lastClock).Some? ==> old(store.lastClock).value <= now)
                && now < expiry
                && |old(store.rows)| < maxEntries
                && (forall k :: k in old(store.rows) ==>
                      && old(store.rows)[k].requestHash != requestHash && old(store.rows)[k].receiptId != receiptId
                      && old(store.rows)[k].clientOrderId != "llts-" + requestHash
                      && old(store.rows)[k].submissionId != "llts-submission-" + requestHash)
                && fault == NoFault
    {
      if !RequiredText(receiptId, 256) || !IsDigest(requestHash) {
        return Err(IdentityInvalid);
      }
      var rows, clock := store.rows, store.lastClock;
      var clockOk := RecordClock(now);
      if !clockOk {
        return Err(ClockRollback);
      }
      if expiry <= now {
        var raised := Commit(rows, clock, fault);
        return if raised then Err(Unavailable) else Ok(false);
      }
      if |store.rows| >= maxEntries {
        Rollback(rows, clock);
        return Err(CapacityReached);
      }
      if Collides(store.rows, receiptId, requestHash) {
        Rollback(rows, clock);
        return Ok(false);
      }
      store.rows := store.rows[requestHash := ClaimedRow(receiptId, requestHash, expiry, token, now)];
      var raised := Commit(rows, clock, fault);
      if raised {
        return Err(Unavailable);
      }
      owned := owned[requestHash := token];
      return Ok(true);
    }

    method BeginSubmission(receiptId: string, requestHash: string, clientOrderId: string, now: Instant, fault: Fault)
      returns (r: Result<Row, Error>)
      modifies store
      ensures Done(View(), r) == BeginSpec(old(View()), receiptId, requestHash, clientOrderId, now, fault)
    {
      if !RequiredText(receiptId, 256) || !IsDigest(requestHash) {
        return Err(IdentityInvalid);
      }
      if clientOrderId != ClientOrderId(requestHash) {
        return Err(IdentityMismatch);
      }
      if requestHash !in owned {
        return Err(OwnerMissing);
      }
      var rows, clock := store.rows, store.lastClock;
      var clockOk := RecordClock(now);
      if !clockOk {
        return Err(ClockRollback);
      }
      if || requestHash !in rows || rows[requestHash].receiptId != receiptId
         || rows[requestHash].clientOrderId != clientOrderId || rows[requestHash].state != Claimed
         || rows[requestHash].attempts != 0 || rows[requestHash].owner != Some(owned[requestHash])
      {
        Rollback(rows, clock);
        return Err(TransitionRejected);
      }
      var row := BegunRow(rows[requestHash], now);
      store.rows := store.rows[requestHash := row];
      if !RecordOk(row) {
        Rollback(rows, clock);
        return Err(Corrupt);
      }
      var raised := Commit(rows, clock, fault);
      return if raised then Err(Unavailable) else Ok(row);
    }

    method FinishOwnedAttempt(receiptId: string, requestHash: string, clientOrderId: string, ending: Ending,
                              now: Instant, fault: Fault) returns (r: Result<Row, Error>)
      modifies this`owned, store
      ensures Done(View(), r) == FinishSpec(old(View()), receiptId, requestHash, clientOrderId, ending, now, fault)
    {
      if !EndingOk(ending) || !RequiredText(receiptId, 256) || !IsDigest(requestHash) {
        return Err(IdentityInvalid);
      }
      if clientOrderId != ClientOrderId(requestHash) {
        return Err(IdentityMismatch);
      }
      if requestHash !in owned {
        return Err(OwnerMissing);
      }
      var rows, clock := store.rows, store.lastClock;
      var clockOk := RecordClock(now);
      if !clockOk {
        return Err(ClockRollback);
      }
      if requestHash !in rows {
        Rollback(rows, clock);
        return Err(TransitionRejected);
      }
      var row := rows[requestHash];
      if && row.receiptId == receiptId && row.clientOrderId == clientOrderId && row.state == Submitting
         && row.attempts == 1 && row.owner == Some(owned[requestHash])
      {
        row := FinishedRow(row, ending, now);
        store.rows := store.rows[requestHash := row];
      } else if !(row.state == Reconciled && ending.Accepted? && row.brokerOrderId == Some(ending.brokerOrderId)) {
        Rollback(rows, clock);
        return Err(TransitionRejected);
      }
      if !RecordOk(row) {
        Rollback(rows, clock);
        return Err(Corrupt);
      }
      var raised := Commit(rows, clock, fault);
      if raised {
        return Err(Unavailable);
      }
      owned := Drop(owned, requestHash);
      return Ok(row);
    }

    method MarkReconciled(requestHash: string, resolution: Resolution, brokerOrderId: Option<string>,
                          now: Instant, fault: Fault) returns (r: Result<Row, Error>)
      modifies this`owned, store
      ensures Done(View(), r) == ReconcileSpec(old(View()), requestHash, resolution, brokerOrderId, now, fault)
    {
      if !IsDigest(requestHash) {
        return Err(IdentityInvalid);
      }
      if (resolution == BrokerOrderFound) != brokerOrderId.Some? {
        return Err(ReconciliationInvalid);
      }
      if brokerOrderId.Some? && !RequiredText(brokerOrderId.value, 256) {
        return Err(IdentityInvalid);
      }
      var rows, clock := store.rows, store.lastClock;
      var clockOk := RecordClock(now);
      if !clockOk {
        return Err(ClockRollback);
      }
      if requestHash !in rows {
        Rollback(rows, clock);
        return Err(TransitionRejected);
      }
      var row := rows[requestHash];
      var changed := row.state in EligibleStates(resolution);
      if changed {
        row := ReconciledRow(row, resolution, brokerOrderId, now);
        store.rows := store.rows[requestHash := row];
      } else if !(row.state == Reconciled && row.resolution == Some(resolution) && row.brokerOrderId == brokerOrderId) {
        Rollback(rows, clock);
        return Err(TransitionRejected);
      }
      if !RecordOk(row) {
        Rollback(rows, clock);
        return Err(Corrupt);
      }
      var raised := Commit(rows, clock, fault);
      if raised {
        return Err(Unavailable);
      }
      if changed {
        owned := Drop(owned, requestHash);
      }
      return Ok(row);
    }
  }
}
