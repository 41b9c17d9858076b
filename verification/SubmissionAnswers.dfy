/**
 * What each transaction of the journal answers, and what it writes: stated for every table that keeps the
 * invariant, column by column, and not by way of the functions that compute it.
 */
module SubmissionAnswers {
  import opened Basics
  import opened SubmissionJournal

  /** Text the journal takes: trimmed, at most 256 bytes of UTF-8, no NUL. */
  predicate IsText(s: string, maximum: nat) {
    s != "" && !IsSpace(s[0]) && !IsSpace(s[|s| - 1]) && Utf8Length(s) <= maximum && '\0' !in s
  }

  /** Neither the request nor the receipt has a row. */
  predicate IsNew(rows: map<string, Row>, receiptId: string, requestHash: string) {
    requestHash !in rows && forall k :: k in rows ==> rows[k].receiptId != receiptId
  }

  /** The other UNIQUE columns are derived from the request hash. */
  lemma NewMeansNoCollision(db: Db, receiptId: string, requestHash: string)
    requires DbInv(db)
    ensures Collides(db.rows, receiptId, requestHash) <==> !IsNew(db.rows, receiptId, requestHash)
  {
    forall k | k in db.rows && (db.rows[k].clientOrderId == ClientOrderId(requestHash)
                                || db.rows[k].submissionId == SubmissionId(requestHash))
      ensures k == requestHash
    {
      assert RowInv(db.rows[k]) && db.rows[k].requestHash == k;
      assert ClientOrderId(k)[5..] == k && ClientOrderId(requestHash)[5..] == requestHash;
      assert SubmissionId(k)[16..] == k && SubmissionId(requestHash)[16..] == requestHash;
    }
  }

  /** The clock has not gone back. */
  predicate InOrder(db: Db, now: Instant) {
    db.lastClock.Some? ==> db.lastClock.value <= now
  }

  /**
   * A claim is granted exactly for two valid identities without a row, at a clock that has not gone back, before the
   * receipt expires, while the table has room, and when nothing strikes the commit; and each refusal has its condition.
   */
  lemma ClaimGrantedExactlyWhen(h: Handle, receiptId: string, requestHash: string, expiry: Instant, now: Instant,
                                token: string, capacity: nat, fault: Fault)
    requires DbInv(h.db)
    ensures var out := ConsumeSpec(h, receiptId, requestHash, expiry, now, token, capacity, fault).out;
            var named := IsText(receiptId, 256) && IsDigest(requestHash);
            var timely := named && InOrder(h.db, now);
            var roomy := timely && now < expiry && |h.db.rows| < capacity;
            var unseen := roomy && IsNew(h.db.rows, receiptId, requestHash);
            && (out == Ok(true) <==> unseen && fault == NoFault)
            && (out == Ok(false) <==> (roomy && !unseen) || (timely && expiry <= now && fault == NoFault))
            && (out == Err(IdentityInvalid) <==> !named)
            && (out == Err(ClockRollback) <==> named && !timely)
            && (out == Err(CapacityReached) <==> timely && now < expiry && capacity <= |h.db.rows|)
            && (out == Err(Unavailable) <==> fault != NoFault && (unseen || (timely && expiry <= now)))
  {
    NewMeansNoCollision(h.db, receiptId, requestHash);
  }

  /** A granted claim adds this row, remembers its token and the clock, and changes nothing else. */
  lemma ClaimWrites(h: Handle, receiptId: string, requestHash: string, expiry: Instant, now: Instant, token: string,
                    capacity: nat, fault: Fault)
    ensures var d := ConsumeSpec(h, receiptId, requestHash, expiry, now, token, capacity, fault);
            && (d.out == Ok(true) ==>
                  && d.handle.owned == h.owned[requestHash := token] && d.handle.db.lastClock == Some(now)
                  && d.handle.db.rows == h.db.rows[requestHash := Row(
                       "llts-submission-" + requestHash, receiptId, requestHash, "llts-" + requestHash, expiry, Claimed,
                       Some(token), 0, now, None, None, None, None, None, None, None, now)])
            && (d.out != Ok(true) ==> d.handle.owned == h.owned)
            && (d.out.Ok? && !d.out.value ==> d.handle.db.rows == h.db.rows)
            && (d.out.Err? && !(d.out.error == Unavailable && fault == AfterCommit) ==> d.handle == h)
            && (d.out == Ok(false) && expiry <= now ==> d.handle.db.lastClock == Some(now))
  {
  }

  predicate SameIdentity(a: Row, b: Row) {
    && b.submissionId == a.submissionId && b.receiptId == a.receiptId && b.requestHash == a.requestHash
    && b.clientOrderId == a.clientOrderId && b.expiresAt == a.expiresAt && b.claimedAt == a.claimedAt
  }

  /** The attempt begins exactly for the holder of the claim, on a row that is still claimed under that claim's token. */
  lemma AttemptBegunExactlyWhen(h: Handle, receiptId: string, requestHash: string, clientOrderId: string, now: Instant, fault: Fault)
    requires DbInv(h.db)
    ensures var out := BeginSpec(h, receiptId, requestHash, clientOrderId, now, fault).out;
            var named := IsText(receiptId, 256) && IsDigest(requestHash);
            var bound := named && clientOrderId == "llts-" + requestHash;
            var timely := bound && requestHash in h.owned && InOrder(h.db, now);
            var ready := && timely && requestHash in h.db.rows && h.db.rows[requestHash].state == Claimed
                         && h.db.rows[requestHash].receiptId == receiptId
                         && h.db.rows[requestHash].owner == Some(h.owned[requestHash]);
            && (out.Ok? <==> ready && fault == NoFault)
            && (out == Err(IdentityInvalid) <==> !named)
            && (out == Err(IdentityMismatch) <==> named && !bound)
            && (out == Err(OwnerMissing) <==> bound && requestHash !in h.owned)
            && (out == Err(ClockRollback) <==> bound && requestHash in h.owned && !timely)
            && (out == Err(TransitionRejected) <==> timely && !ready)
            && (out == Err(Unavailable) <==> ready && fault != NoFault)
  {
    if requestHash in h.db.rows {
      assert RowInv(h.db.rows[requestHash]);
      if h.db.rows[requestHash].state == Claimed && InOrder(h.db, now) {
        BegunRowKeeps(h.db.rows[requestHash], now);
      }
    }
  }

  lemma BeginWrites(h: Handle, receiptId: string, requestHash: string, clientOrderId: string, now: Instant, fault: Fault)
    ensures var d := BeginSpec(h, receiptId, requestHash, clientOrderId, now, fault);
            && d.handle.owned == h.owned
            && (d.out.Ok? ==>
                  && requestHash in h.db.rows && d.handle.db.lastClock == Some(now)
                  && d.handle.db.rows == h.db.rows[requestHash := d.out.value]
                  && SameIdentity(h.db.rows[requestHash], d.out.value) && d.out.value.owner == h.db.rows[requestHash].owner
                  && d.out.value.state == Submitting && d.out.value.attempts == 1 && d.out.value.submittingAt == Some(now)
                  && d.out.value.updatedAt == now && d.out.value.lastErrorType == h.db.rows[requestHash].lastErrorType)
            && (d.out.Err? && !(d.out.error == Unavailable && fault == AfterCommit) ==> d.handle == h)
  {
  }

  /** The two ways in which a mark succeeds: it ends the attempt, or a reconciler has recorded this very order. */
  predicate OwnAttempt(h: Handle, receiptId: string, requestHash: string) {
    && requestHash in h.owned && requestHash in h.db.rows && h.db.rows[requestHash].state == Submitting
    && h.db.rows[requestHash].receiptId == receiptId && h.db.rows[requestHash].owner == Some(h.owned[requestHash])
  }

  predicate Overtaken(h: Handle, requestHash: string, ending: Ending) {
    && requestHash in h.db.rows && h.db.rows[requestHash].state == Reconciled
    && ending.Accepted? && h.db.rows[requestHash].brokerOrderId == Some(ending.brokerOrderId)
  }

  predicate IsEnding(ending: Ending) {
    match ending
    case Accepted(id) => IsText(id, 256)
    case Unknown(errorType) => IsText(errorType, 128)
  }

  lemma EndedRowIsReadable(row: Row, ending: Ending, now: Instant)
    requires RowInv(row) && row.state == Submitting && EndingOk(ending)
    ensures RecordOk(FinishedRow(row, ending, now))
  {
  }

  /** What the invariant says of a row that an attempt may end on. */
  predicate EndsReadably(row: Row, requestHash: string, ending: Ending, now: Instant) {
    && row.clientOrderId == ClientOrderId(requestHash) && (row.state == Submitting ==> row.attempts == 1)
    && (row.state == Submitting && EndingOk(ending) ==> RecordOk(FinishedRow(row, ending, now)))
    && (row.state == Reconciled ==> RecordOk(row))
  }

  lemma AttemptEndedOn(h: Handle, receiptId: string, requestHash: string, clientOrderId: string, ending: Ending,
                       now: Instant, fault: Fault)
    requires requestHash in h.db.rows ==> EndsReadably(h.db.rows[requestHash], requestHash, ending, now)
    ensures var out := FinishSpec(h, receiptId, requestHash, clientOrderId, ending, now, fault).out;
            var named := IsEnding(ending) && IsText(receiptId, 256) && IsDigest(requestHash);
            var bound := named && clientOrderId == "llts-" + requestHash;
            var timely := bound && requestHash in h.owned && InOrder(h.db, now);
            var ready := timely && (OwnAttempt(h, receiptId, requestHash) || Overtaken(h, requestHash, ending));
            && (out.Ok? <==> ready && fault == NoFault)
            && (out == Err(IdentityInvalid) <==> !named)
            && (out == Err(IdentityMismatch) <==> named && !bound)
            && (out == Err(OwnerMissing) <==> bound && requestHash !in h.owned)
            && (out == Err(ClockRollback) <==> bound && requestHash in h.owned && !timely)
            && (out == Err(TransitionRejected) <==> timely && !ready)
            && (out == Err(Unavailable) <==> ready && fault != NoFault)
  {
  }

  lemma AttemptEndedExactlyWhen(h: Handle, receiptId: string, requestHash: string, clientOrderId: string, ending: Ending,
                                now: Instant, fault: Fault)
    requires DbInv(h.db)
    ensures var out := FinishSpec(h, receiptId, requestHash, clientOrderId, ending, now, fault).out;
            var named := IsEnding(ending) && IsText(receiptId, 256) && IsDigest(requestHash);
            var bound := named && clientOrderId == "llts-" + requestHash;
            var timely := bound && requestHash in h.owned && InOrder(h.db, now);
            var ready := timely && (OwnAttempt(h, receiptId, requestHash) || Overtaken(h, requestHash, ending));
            && (out.Ok? <==> ready && fault == NoFault)
            && (out == Err(IdentityInvalid) <==> !named)
            && (out == Err(IdentityMismatch) <==> named && !bound)
            && (out == Err(OwnerMissing) <==> bound && requestHash !in h.owned)
            && (out == Err(ClockRollback) <==> bound && requestHash in h.owned && !timely)
            && (out == Err(TransitionRejected) <==> timely && !ready)
            && (out == Err(Unavailable) <==> ready && fault != NoFault)
  {
    if requestHash in h.db.rows {
      assert RowInv(h.db.rows[requestHash]);
      if h.db.rows[requestHash].state == Submitting && EndingOk(ending) {
        EndedRowIsReadable(h.db.rows[requestHash], ending, now);
      }
      assert EndsReadably(h.db.rows[requestHash], requestHash, ending, now);
    }
    AttemptEndedOn(h, receiptId, requestHash, clientOrderId, ending, now, fault);
  }

  /** An attempt ends as submitted under the broker's id or as uncertain under the type of the error, and gives up its claim. */
  lemma EndingWrites(h: Handle, receiptId: string, requestHash: string, clientOrderId: string, ending: Ending,
                     now: Instant, fault: Fault)
    requires requestHash in h.db.rows
    ensures var d := FinishSpec(h, receiptId, requestHash, clientOrderId, ending, now, fault);
            var before := h.db.rows[requestHash];
            && (d.out.Ok? ==>
                  && d.handle.db.lastClock == Some(now) && d.handle.db.rows == h.db.rows[requestHash := d.out.value]
                  && d.handle.owned == h.owned - {requestHash}
                  && (before.state == Reconciled ==> d.out.value == before)
                  && (before.state != Reconciled ==>
                        && SameIdentity(before, d.out.value) && d.out.value.submittingAt == before.submittingAt
                        && d.out.value.attempts == before.attempts && d.out.value.owner.None? && d.out.value.updatedAt == now
                        && match ending
                           case Accepted(id) =>
                             && d.out.value.state == Submitted && d.out.value.submittedAt == Some(now)
                             && d.out.value.brokerOrderId == Some(id) && d.out.value.lastErrorType.None?
                           case Unknown(errorType) =>
                             && d.out.value.state == Uncertain && d.out.value.uncertainAt == Some(now)
                             && d.out.value.brokerOrderId.None? && d.out.value.lastErrorType == Some(errorType)))
            && (d.out.Err? && !(d.out.error == Unavailable && fault == AfterCommit) ==> d.handle == h)
            && (d.out.Err? ==> d.handle.owned == h.owned)
  {
  }

  /** The states from which each resolution may be recorded. */
  predicate Open(row: Row, resolution: Resolution) {
    if resolution == NotSubmitted then row.state == Claimed
    else row.state == Submitting || row.state == Uncertain || row.state == Submitted
  }

  predicate AlreadyResolved(row: Row, resolution: Resolution, brokerOrderId: Option<string>) {
    row.state == Reconciled && row.resolution == Some(resolution) && row.brokerOrderId == brokerOrderId
  }

  lemma ClosedRowIsReadable(row: Row, resolution: Resolution, brokerOrderId: Option<string>, now: Instant)
    requires RowInv(row) && (brokerOrderId.Some? <==> resolution == BrokerOrderFound)
    requires brokerOrderId.Some? ==> RequiredText(brokerOrderId.value, 256)
    ensures Open(row, resolution) <==> row.state in EligibleStates(resolution)
    ensures Open(row, resolution) ==> RecordOk(ReconciledRow(row, resolution, brokerOrderId, now))
  {
  }

  /** What the invariant says of a row that may be reconciled. */
  predicate ClosesReadably(row: Row, resolution: Resolution, brokerOrderId: Option<string>, now: Instant) {
    && (Open(row, resolution) <==> row.state in EligibleStates(resolution))
    && (Open(row, resolution) ==> RecordOk(ReconciledRow(row, resolution, brokerOrderId, now)))
    && (row.state == Reconciled ==> RecordOk(row))
  }

  lemma ReconciledOn(h: Handle, requestHash: string, resolution: Resolution, brokerOrderId: Option<string>,
                     now: Instant, fault: Fault)
    requires && requestHash in h.db.rows && (brokerOrderId.Some? <==> resolution == BrokerOrderFound)
             && (brokerOrderId.Some? ==> RequiredText(brokerOrderId.value, 256))
             ==> ClosesReadably(h.db.rows[requestHash], resolution, brokerOrderId, now)
    ensures var out := ReconcileSpec(h, requestHash, resolution, brokerOrderId, now, fault).out;
            var paired := IsDigest(requestHash) && (brokerOrderId.Some? <==> resolution == BrokerOrderFound);
            var named := paired && (brokerOrderId.Some? ==> IsText(brokerOrderId.value, 256));
            var timely := named && InOrder(h.db, now);
            var ready := && timely && requestHash in h.db.rows
                         && (Open(h.db.rows[requestHash], resolution)
                             || AlreadyResolved(h.db.rows[requestHash], resolution, brokerOrderId));
            && (out.Ok? <==> ready && fault == NoFault)
            && (out == Err(IdentityInvalid) <==> !IsDigest(requestHash) || (paired && !named))
            && (out == Err(ReconciliationInvalid) <==> IsDigest(requestHash) && !paired)
            && (out == Err(ClockRollback) <==> named && !timely)
            && (out == Err(TransitionRejected) <==> timely && !ready)
            && (out == Err(Unavailable) <==> ready && fault != NoFault)
  {
  }

  lemma ReconciledExactlyWhen(h: Handle, requestHash: string, resolution: Resolution, brokerOrderId: Option<string>,
                              now: Instant, fault: Fault)
    requires DbInv(h.db)
    ensures var out := ReconcileSpec(h, requestHash, resolution, brokerOrderId, now, fault).out;
            var paired := IsDigest(requestHash) && (brokerOrderId.Some? <==> resolution == BrokerOrderFound);
            var named := paired && (brokerOrderId.Some? ==> IsText(brokerOrderId.value, 256));
            var timely := named && InOrder(h.db, now);
            var ready := && timely && requestHash in h.db.rows
                         && (Open(h.db.rows[requestHash], resolution)
                             || AlreadyResolved(h.db.rows[requestHash], resolution, brokerOrderId));
            && (out.Ok? <==> ready && fault == NoFault)
            && (out == Err(IdentityInvalid) <==> !IsDigest(requestHash) || (paired && !named))
            && (out == Err(ReconciliationInvalid) <==> IsDigest(requestHash) && !paired)
            && (out == Err(ClockRollback) <==> named && !timely)
            && (out == Err(TransitionRejected) <==> timely && !ready)
            && (out == Err(Unavailable) <==> ready && fault != NoFault)
  {
    if && requestHash in h.db.rows && (brokerOrderId.Some? <==> resolution == BrokerOrderFound)
       && (brokerOrderId.Some? ==> RequiredText(brokerOrderId.value, 256))
    {
      assert RowInv(h.db.rows[requestHash]);
      ClosedRowIsReadable(h.db.rows[requestHash], resolution, brokerOrderId, now);
      assert ClosesReadably(h.db.rows[requestHash], resolution, brokerOrderId, now);
    }
    ReconciledOn(h, requestHash, resolution, brokerOrderId, now, fault);
  }

  /** Reconciling closes the row under the resolution and the broker's id; a row already closed so is left as it is. */
  lemma ReconciliationWrites(h: Handle, requestHash: string, resolution: Resolution, brokerOrderId: Option<string>,
                             now: Instant, fault: Fault)
    requires requestHash in h.db.rows
    ensures var d := ReconcileSpec(h, requestHash, resolution, brokerOrderId, now, fault);
            var before := h.db.rows[requestHash];
            && (d.out.Ok? ==>
                  && d.handle.db.lastClock == Some(now) && d.handle.db.rows == h.db.rows[requestHash := d.out.value]
                  && d.handle.owned == (if before.state == Reconciled then h.owned else h.owned - {requestHash})
                  && (before.state == Reconciled ==> d.out.value == before)
                  && (before.state != Reconciled ==>
                        && SameIdentity(before, d.out.value) && d.out.value.attempts == before.attempts
                        && d.out.value.submittingAt == before.submittingAt && d.out.value.submittedAt == before.submittedAt
                        && d.out.value.uncertainAt == before.uncertainAt && d.out.value.lastErrorType == before.lastErrorType
                        && d.out.value.state == Reconciled && d.out.value.reconciledAt == Some(now)
                        && d.out.value.resolution == Some(resolution) && d.out.value.brokerOrderId == brokerOrderId
                        && d.out.value.owner.None? && d.out.value.updatedAt == now))
            && (d.out.Err? && !(d.out.error == Unavailable && fault == AfterCommit) ==> d.handle == h)
            && (d.out.Err? ==> d.handle.owned == h.owned)
  {
  }

  /** A read answers with the row of the request, if there is one. */
  lemma ReadExactly(db: Db, requestHash: string)
    requires DbInv(db)
    ensures GetSpec(db, requestHash)
            == if !IsDigest(requestHash) then Err(IdentityInvalid)
               else if requestHash in db.rows then Ok(Some(db.rows[requestHash])) else Ok(None)
  {
    assert requestHash in db.rows ==> RowInv(db.rows[requestHash]);
  }
}
