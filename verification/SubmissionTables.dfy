/**
 * The transactions of the journal on any table at all, also one that somebody else has written: which rows are reported
 * as corrupt, and what a row has to say in every column for a transaction to go through.
 */
module SubmissionTables {
  import opened Basics
  import opened SubmissionJournal
  import opened SubmissionAnswers

  /** What the row reader demands of a row. */
  predicate IsReadable(row: Row) {
    && IsDigest(row.requestHash) && IsText(row.receiptId, 256)
    && row.clientOrderId == "llts-" + row.requestHash && row.submissionId == "llts-submission-" + row.requestHash
    && match row.state
       case Claimed => row.attempts == 0
       case Submitting => row.attempts == 1
       case Uncertain => row.attempts == 1
       case Submitted => row.attempts == 1 && row.brokerOrderId.Some? && |row.brokerOrderId.value| > 0
       case Reconciled =>
         && row.attempts <= 1 && row.resolution.Some?
         && (row.resolution.value == BrokerOrderFound ==> row.brokerOrderId.Some? && |row.brokerOrderId.value| > 0)
  }

  lemma ReadableExactlyWhen(row: Row)
    ensures RecordOk(row) <==> IsReadable(row)
  {
    match row.state
    case Claimed =>
    case Submitting =>
    case Submitted =>
    case Uncertain =>
    case Reconciled =>
  }

  lemma ReadOnAnyTable(db: Db, requestHash: string)
    ensures GetSpec(db, requestHash)
            == if !IsDigest(requestHash) then Err(IdentityInvalid)
               else if requestHash !in db.rows then Ok(None)
               else if IsReadable(db.rows[requestHash]) then Ok(Some(db.rows[requestHash]))
               else Err(Corrupt)
  {
    if requestHash in db.rows {
      ReadableExactlyWhen(db.rows[requestHash]);
    }
  }

  /** The identity is valid, its claim is in memory, and the clock has not gone back. */
  predicate MayWrite(h: Handle, receiptId: string, requestHash: string, clientOrderId: string, now: Instant) {
    && IsText(receiptId, 256) && IsDigest(requestHash) && clientOrderId == "llts-" + requestHash
    && requestHash in h.owned && (h.db.lastClock.Some? ==> h.db.lastClock.value <= now)
  }

  /** The row is this claim's own, column by column. */
  predicate IsOwn(h: Handle, receiptId: string, requestHash: string, clientOrderId: string, state: State, attempts: nat) {
    && requestHash in h.owned && requestHash in h.db.rows
    && h.db.rows[requestHash].receiptId == receiptId && h.db.rows[requestHash].clientOrderId == clientOrderId
    && h.db.rows[requestHash].state == state && h.db.rows[requestHash].attempts == attempts
    && h.db.rows[requestHash].owner == Some(h.owned[requestHash])
  }

  lemma BegunOnAnyTable(h: Handle, receiptId: string, requestHash: string, clientOrderId: string, now: Instant, fault: Fault)
    requires MayWrite(h, receiptId, requestHash, clientOrderId, now)
    ensures var out := BeginSpec(h, receiptId, requestHash, clientOrderId, now, fault).out;
            if !IsOwn(h, receiptId, requestHash, clientOrderId, Claimed, 0) then out == Err(TransitionRejected)
            else
              var row := h.db.rows[requestHash].(state := Submitting, attempts := 1, submittingAt := Some(now), updatedAt := now);
              if !IsReadable(row) then out == Err(Corrupt)
              else if fault != NoFault then out == Err(Unavailable)
              else out == Ok(row)
  {
    if requestHash in h.db.rows {
      ReadableExactlyWhen(BegunRow(h.db.rows[requestHash], now));
    }
  }

  /** What a reconciler has already recorded about this very order is given back as it stands. */
  predicate IsSettled(h: Handle, requestHash: string, ending: Ending) {
    && requestHash in h.db.rows && h.db.rows[requestHash].state == Reconciled
    && ending.Accepted? && h.db.rows[requestHash].brokerOrderId == Some(ending.brokerOrderId)
  }

  lemma EndedOnAnyTable(h: Handle, receiptId: string, requestHash: string, clientOrderId: string, ending: Ending,
                        now: Instant, fault: Fault)
    requires MayWrite(h, receiptId, requestHash, clientOrderId, now) && IsEnding(ending)
    ensures var out := FinishSpec(h, receiptId, requestHash, clientOrderId, ending, now, fault).out;
            if IsOwn(h, receiptId, requestHash, clientOrderId, Submitting, 1) then
              var row := FinishedRow(h.db.rows[requestHash], ending, now);
              if !IsReadable(row) then out == Err(Corrupt) else if fault != NoFault then out == Err(Unavailable) else out == Ok(row)
            else if IsSettled(h, requestHash, ending) then
              var row := h.db.rows[requestHash];
              if !IsReadable(row) then out == Err(Corrupt) else if fault != NoFault then out == Err(Unavailable) else out == Ok(row)
            else out == Err(TransitionRejected)
  {
    if requestHash in h.db.rows {
      ReadableExactlyWhen(FinishedRow(h.db.rows[requestHash], ending, now));
      ReadableExactlyWhen(h.db.rows[requestHash]);
    }
  }

  lemma ReconciledOnAnyTable(h: Handle, requestHash: string, resolution: Resolution, brokerOrderId: Option<string>,
                             now: Instant, fault: Fault)
    requires IsDigest(requestHash) && (brokerOrderId.Some? <==> resolution == BrokerOrderFound)
    requires brokerOrderId.Some? ==> IsText(brokerOrderId.value, 256)
    requires requestHash in h.db.rows && (h.db.lastClock.Some? ==> h.db.lastClock.value <= now)
    ensures var out := ReconcileSpec(h, requestHash, resolution, brokerOrderId, now, fault).out;
            if Open(h.db.rows[requestHash], resolution) then
              var row := ReconciledRow(h.db.rows[requestHash], resolution, brokerOrderId, now);
              if !IsReadable(row) then out == Err(Corrupt) else if fault != NoFault then out == Err(Unavailable) else out == Ok(row)
            else if AlreadyResolved(h.db.rows[requestHash], resolution, brokerOrderId) then
              var row := h.db.rows[requestHash];
              if !IsReadable(row) then out == Err(Corrupt) else if fault != NoFault then out == Err(Unavailable) else out == Ok(row)
            else out == Err(TransitionRejected)
  {
    ReadableExactlyWhen(ReconciledRow(h.db.rows[requestHash], resolution, brokerOrderId, now));
    ReadableExactlyWhen(h.db.rows[requestHash]);
    OpenExactlyWhen(h.db.rows[requestHash], resolution);
  }

  lemma OpenExactlyWhen(row: Row, resolution: Resolution)
    ensures Open(row, resolution) <==> row.state in EligibleStates(resolution)
  {
    match row.state
    case Claimed =>
    case Submitting =>
    case Submitted =>
    case Uncertain =>
    case Reconciled =>
  }
}
