/**
 * The outbox table and the OutboxScheduler that re-sends its FAILED rows: rows are taken
 * oldest createdAt first and retried one at a time; a delivered row is deleted, a failed one has
 * its retryCount incremented and becomes FATAL_ERROR at the tenth failure.
 */
module Outbox {
  import opened Wrappers
  import opened FraudDomain

  datatype OutboxEventStatus = Pending | Failed | Processing | Completed | FatalError

  /** The enum constant's name(), which is what the scheduler reads and writes in the status column. */
  function StatusName(s: OutboxEventStatus): string {
    match s
    case Pending => "PENDING"
    case Failed => "FAILED"
    case Processing => "PROCESSING"
    case Completed => "COMPLETED"
    case FatalError => "FATAL_ERROR"
  }

  /** The enum's code field. */
  function StatusCode(s: OutboxEventStatus): string {
    match s
    case Pending => "PENDING"
    case Failed => "FAILED"
    case Processing => "PROCESSING"
    case Completed => "COMPLETED"
    case FatalError => "FATAL"
  }

  lemma StatusNamesDistinct(s: OutboxEventStatus, t: OutboxEventStatus)
    requires s != t
    ensures StatusName(s) != StatusName(t)
  {
  }

  /** Only FATAL_ERROR has a code that differs from its name ("FATAL"). */
  lemma OnlyFatalCodeDiffersFromName(s: OutboxEventStatus)
    ensures StatusCode(s) != StatusName(s) <==> s == FatalError
  {
  }

  /** Failures after which a row stops being retried. */
  const MaxRetries: nat := 10

  /** The JSON payload column: a serialised TransactionEvent, or text that does not read back as one. */
  datatype Payload = Serialized(event: TransactionEvent) | Unreadable(text: string)

  /** objectMapper.readValue on the payload; None where it throws. */
  function Deserialize(p: Payload): Option<TransactionEvent> {
    match p
    case Serialized(e) => Some(e)
    case Unreadable(_) => None
  }

  /** An outbox_events row; createdAt is the clock value the query orders by, updatedAt is dropped. */
  datatype OutboxRow = OutboxRow(
    id: nat,
    transactionId: string,
    payload: Payload,
    status: string,
    errorMessage: string,
    retryCount: nat,
    createdAt: int)

  predicate UniqueIds(rows: seq<OutboxRow>) {
    forall i, j :: 0 <= i < j < |rows| ==> rows[i].id != rows[j].id
  }

  predicate SortedByCreatedAt(rows: seq<OutboxRow>) {
    forall i, j :: 0 <= i < j < |rows| ==> rows[i].createdAt <= rows[j].createdAt
  }

  /** Rows with the given status column, in table order. */
  function WithStatus(rows: seq<OutboxRow>, status: string): (r: seq<OutboxRow>)
    ensures forall x :: x in r <==> x in rows && x.status == status
  {
    if |rows| == 0 then []
    else if rows[0].status == status then [rows[0]] + WithStatus(rows[1..], status)
    else WithStatus(rows[1..], status)
  }

  /** Inserts x after every row not newer than it. */
  function InsertByCreatedAt(x: OutboxRow, sorted: seq<OutboxRow>): (r: seq<OutboxRow>)
    requires SortedByCreatedAt(sorted)
    ensures forall y :: y in r ==> y == x || y in sorted
    ensures SortedByCreatedAt(r)
  {
    if |sorted| == 0 then [x]
    else if x.createdAt < sorted[0].createdAt then [x] + sorted
    else
      var tail := InsertByCreatedAt(x, sorted[1..]);
      assert forall y :: y in sorted[1..] ==> sorted[0].createdAt <= y.createdAt;
      [sorted[0]] + tail
  }

  /** Insertion adds exactly x and loses nothing. */
  lemma {:induction false} InsertCounts(x: OutboxRow, sorted: seq<OutboxRow>)
    requires SortedByCreatedAt(sorted)
    ensures multiset(InsertByCreatedAt(x, sorted)) == multiset(sorted) + multiset{x}
  {
    if |sorted| > 0 && x.createdAt >= sorted[0].createdAt {
      InsertCounts(x, sorted[1..]);
      assert sorted == [sorted[0]] + sorted[1..];
    }
  }

  function SortByCreatedAt(rows: seq<OutboxRow>): (r: seq<OutboxRow>)
    ensures SortedByCreatedAt(r)
  {
    if |rows| == 0 then []
    else InsertByCreatedAt(rows[|rows| - 1], SortByCreatedAt(rows[..|rows| - 1]))
  }

  /** Sorting is a permutation. */
  lemma {:induction false} SortCounts(rows: seq<OutboxRow>)
    ensures multiset(SortByCreatedAt(rows)) == multiset(rows)
  {
    if |rows| > 0 {
      SortCounts(rows[..|rows| - 1]);
      InsertCounts(rows[|rows| - 1], SortByCreatedAt(rows[..|rows| - 1]));
      assert rows == rows[..|rows| - 1] + [rows[|rows| - 1]];
    }
  }

  /**
   * findByStatusOrderByCreatedAtAsc: exactly the rows carrying `status`, oldest first (ties in
   * table order).
   */
  function ByStatusOldestFirst(rows: seq<OutboxRow>, status: string): (batch: seq<OutboxRow>)
    ensures SortedByCreatedAt(batch)
    ensures multiset(batch) == multiset(WithStatus(rows, status))
    ensures forall x :: x in batch <==> x in rows && x.status == status
  {
    var selected := WithStatus(rows, status);
    SortCounts(selected);
    var b := SortByCreatedAt(selected);
    assert forall x :: x in b <==> x in multiset(selected);
    b
  }

  /** ReactiveCrudRepository.delete: the row with that id leaves the table. */
  function RemoveId(rows: seq<OutboxRow>, id: nat): (r: seq<OutboxRow>)
    ensures forall x :: x in r <==> x in rows && x.id != id
  {
    if |rows| == 0 then []
    else
      var tail := RemoveId(rows[1..], id);
      assert forall x :: x in rows[1..] ==> x in rows;
      if rows[0].id == id then tail else [rows[0]] + tail
  }

  lemma {:induction false} RemoveIdKeepsUniqueIds(rows: seq<OutboxRow>, id: nat)
    requires UniqueIds(rows)
    ensures UniqueIds(RemoveId(rows, id))
  {
    if |rows| > 0 {
      RemoveIdKeepsUniqueIds(rows[1..], id);
      var tail := RemoveId(rows[1..], id);
      forall x | x in tail
        ensures x.id != rows[0].id
      {
        var k :| 0 <= k < |rows[1..]| && rows[1..][k] == x;
        assert rows[k + 1] == x;
      }
    }
  }

  /** ReactiveCrudRepository.save of a stored entity: the row with that id is overwritten. */
  function ReplaceId(rows: seq<OutboxRow>, entity: OutboxRow): (r: seq<OutboxRow>)
    ensures |r| == |rows|
    ensures forall i :: 0 <= i < |r| ==> r[i].id == rows[i].id
    ensures forall x :: x in r ==> x == entity || (x in rows && x.id != entity.id)
    ensures forall x :: x in rows && x.id != entity.id ==> x in r
  {
    if |rows| == 0 then []
    else
      var tail := ReplaceId(rows[1..], entity);
      assert forall x :: x in rows[1..] ==> x in rows;
      [if rows[0].id == entity.id then entity else rows[0]] + tail
  }

  lemma ReplaceIdKeepsUniqueIds(rows: seq<OutboxRow>, entity: OutboxRow)
    requires UniqueIds(rows)
    ensures UniqueIds(ReplaceId(rows, entity))
  {
    var r := ReplaceId(rows, entity);
    forall i, j | 0 <= i < j < |r|
      ensures r[i].id != r[j].id
    {
      assert r[i].id == rows[i].id && r[j].id == rows[j].id;
    }
  }

  /** The entity after onErrorResume: one more failure, and FATAL_ERROR from the tenth on. */
  function Retried(entity: OutboxRow): (r: OutboxRow)
    ensures r.retryCount == entity.retryCount + 1
    ensures r.retryCount >= MaxRetries ==> r.status == StatusName(FatalError)
    ensures r.retryCount < MaxRetries ==> r.status == entity.status
    ensures r.id == entity.id && r.transactionId == entity.transactionId && r.payload == entity.payload
    ensures r.errorMessage == entity.errorMessage && r.createdAt == entity.createdAt
  {
    var counted := entity.(retryCount := entity.retryCount + 1);
    if counted.retryCount >= MaxRetries then counted.(status := StatusName(FatalError)) else counted
  }

  /**
   * What the environment does to one retryEvent: whether Kafka acknowledged the send, whether
   * the delete succeeded, and whether the save in the failure branch succeeded.
   */
  datatype Attempt = Attempt(sendOk: bool, deleteOk: bool, saveOk: bool)

  /** The payload read back, Kafka acknowledged it and the row was deleted. */
  predicate Delivered(entity: OutboxRow, attempt: Attempt) {
    Deserialize(entity.payload).Some? && attempt.sendOk && attempt.deleteOk
  }

  /** retryEvent's Mono errors: the row was not delivered and the save of the counted row failed too. */
  predicate Errors(entity: OutboxRow, attempt: Attempt) {
    !Delivered(entity, attempt) && !attempt.saveOk
  }

  /** retryEvent on the table: the new table, or None when the Mono errors. */
  function RetryStep(rows: seq<OutboxRow>, entity: OutboxRow, attempt: Attempt): (r: Option<seq<OutboxRow>>)
    ensures r.None? <==> Errors(entity, attempt)
  {
    if Delivered(entity, attempt) then Some(RemoveId(rows, entity.id))
    else if attempt.saveOk then Some(ReplaceId(rows, Retried(entity)))
    else None
  }

  /** A successful resend deletes the row and leaves every other row as it was. */
  lemma DeliveredRowIsDeleted(rows: seq<OutboxRow>, entity: OutboxRow, attempt: Attempt)
    requires entity.payload.Serialized? && attempt.sendOk && attempt.deleteOk
    ensures RetryStep(rows, entity, attempt).Some?
    ensures forall x :: x in RetryStep(rows, entity, attempt).value <==> x in rows && x.id != entity.id
  {
  }

  /** A failed resend stores the row once more with exactly one more failure counted. */
  lemma FailedRowIsCounted(rows: seq<OutboxRow>, entity: OutboxRow, attempt: Attempt)
    requires !attempt.sendOk && attempt.saveOk
    requires entity in rows
    ensures RetryStep(rows, entity, attempt).Some?
    ensures Retried(entity) in RetryStep(rows, entity, attempt).value
    ensures Retried(entity).retryCount == entity.retryCount + 1
    ensures forall x :: x in rows && x.id != entity.id ==> x in RetryStep(rows, entity, attempt).value
  {
    var i :| 0 <= i < |rows| && rows[i] == entity;
    assert ReplaceId(rows, Retried(entity))[i] == Retried(entity);
  }

  /** A payload that does not deserialise takes the same branch as a send that fails. */
  lemma UnreadablePayloadIsASendFailure(rows: seq<OutboxRow>, entity: OutboxRow, attempt: Attempt)
    requires entity.payload.Unreadable?
    ensures RetryStep(rows, entity, attempt) == RetryStep(rows, entity, attempt.(sendOk := false))
  {
  }

  /** A send that Kafka acknowledged but whose delete failed is counted as a failure and stays FAILED. */
  lemma FailedDeleteKeepsDeliveredRow(rows: seq<OutboxRow>, entity: OutboxRow, attempt: Attempt)
    requires entity.payload.Serialized? && attempt.sendOk && !attempt.deleteOk
    ensures RetryStep(rows, entity, attempt) == RetryStep(rows, entity, attempt.(sendOk := false))
  {
  }

  /** A FAILED row becomes FATAL_ERROR on the failure that brings it to ten, and not before. */
  lemma TenthFailureIsFatal(entity: OutboxRow)
    requires entity.status == StatusName(Failed)
    ensures Retried(entity).status == StatusName(FatalError) <==> entity.retryCount + 1 >= MaxRetries
    ensures Retried(entity).status == StatusName(Failed) <==> entity.retryCount + 1 < MaxRetries
  {
  }

  /*
   * concatMap(retryEvent) over the first n rows of the batch, outcome(i) being the environment of
   * the i-th retry. Once a retry errors the flux terminates and later rows are not attempted;
   * the three functions below give whether that happened, the rows attempted, and the table.
   */

  predicate HaltedWithin(batch: seq<OutboxRow>, outcome: nat -> Attempt, n: nat)
    requires n <= |batch|
  {
    n > 0 && (HaltedWithin(batch, outcome, n - 1) || Errors(batch[n - 1], outcome(n - 1)))
  }

  function AttemptedWithin(batch: seq<OutboxRow>, outcome: nat -> Attempt, n: nat): seq<OutboxRow>
    requires n <= |batch|
  {
    if n == 0 then []
    else if HaltedWithin(batch, outcome, n - 1) then AttemptedWithin(batch, outcome, n - 1)
    else AttemptedWithin(batch, outcome, n - 1) + [batch[n - 1]]
  }

  function TableAfter(rows: seq<OutboxRow>, batch: seq<OutboxRow>, outcome: nat -> Attempt, n: nat): seq<OutboxRow>
    requires n <= |batch|
  {
    if n == 0 then rows
    else
      var before := TableAfter(rows, batch, outcome, n - 1);
      if HaltedWithin(batch, outcome, n - 1) then before
      else RetryStep(before, batch[n - 1], outcome(n - 1)).GetOr(before)
  }

  /** The outcome of a sweep: the table, the rows attempted in order, and whether it stopped early. */
  datatype SweepState = SweepState(rows: seq<OutboxRow>, attempted: seq<OutboxRow>, halted: bool)

  /** processFailedEvents: one sweep over the FAILED rows. */
  function Swept(rows: seq<OutboxRow>, outcome: nat -> Attempt): SweepState {
    var batch := ByStatusOldestFirst(rows, StatusName(Failed));
    SweepState(TableAfter(rows, batch, outcome, |batch|), AttemptedWithin(batch, outcome, |batch|), HaltedWithin(batch, outcome, |batch|))
  }

  /** After a halt nothing more happens. */
  lemma {:induction false} HaltedSweepStays(rows: seq<OutboxRow>, batch: seq<OutboxRow>, outcome: nat -> Attempt, n: nat, m: nat)
    requires n <= m <= |batch|
    requires HaltedWithin(batch, outcome, n)
    ensures HaltedWithin(batch, outcome, m)
    ensures AttemptedWithin(batch, outcome, m) == AttemptedWithin(batch, outcome, n)
    ensures TableAfter(rows, batch, outcome, m) == TableAfter(rows, batch, outcome, n)
    decreases m
  {
    if m > n {
      HaltedSweepStays(rows, batch, outcome, n, m - 1);
    }
  }

  /** The rows are attempted in batch order, one each, and all of them unless a retry errored. */
  lemma {:induction false} AttemptsFollowBatch(batch: seq<OutboxRow>, outcome: nat -> Attempt, n: nat)
    requires n <= |batch|
    ensures var attempted := AttemptedWithin(batch, outcome, n);
      |attempted| <= n && (forall i :: 0 <= i < |attempted| ==> attempted[i] == batch[i]) &&
      (!HaltedWithin(batch, outcome, n) ==> |attempted| == n)
  {
    if n > 0 {
      AttemptsFollowBatch(batch, outcome, n - 1);
    }
  }

  /**
   * Every row of the table after a sweep was already there, or is a FAILED row of the original
   * table with one more failure counted.
   */
  predicate EvolvedFrom(rows0: seq<OutboxRow>, rows: seq<OutboxRow>) {
    forall r :: r in rows ==> r in rows0 || exists e :: e in rows0 && e.status == StatusName(Failed) && r == Retried(e)
  }

  lemma {:induction false} SweepOnlyCountsFailures(rows: seq<OutboxRow>, batch: seq<OutboxRow>, outcome: nat -> Attempt, n: nat)
    requires n <= |batch|
    requires forall b :: b in batch ==> b in rows && b.status == StatusName(Failed)
    ensures EvolvedFrom(rows, TableAfter(rows, batch, outcome, n))
  {
    if n > 0 {
      SweepOnlyCountsFailures(rows, batch, outcome, n - 1);
      assert batch[n - 1] in batch;
    }
  }

  /** Rows that are not FAILED (a FATAL_ERROR row in particular) are never touched by a sweep. */
  lemma {:induction false} SweepKeepsOtherRows(rows: seq<OutboxRow>, batch: seq<OutboxRow>, outcome: nat -> Attempt, n: nat)
    requires n <= |batch|
    requires UniqueIds(rows)
    requires forall b :: b in batch ==> b in rows && b.status == StatusName(Failed)
    ensures forall r :: r in rows && r.status != StatusName(Failed) ==> r in TableAfter(rows, batch, outcome, n)
  {
    if n > 0 {
      SweepKeepsOtherRows(rows, batch, outcome, n - 1);
      var e := batch[n - 1];
      assert e in batch;
      forall r | r in rows && r.status != StatusName(Failed)
        ensures r.id != e.id
      {
        var i :| 0 <= i < |rows| && rows[i] == r;
        var j :| 0 <= j < |rows| && rows[j] == e;
        assert i != j;
      }
    }
  }

  lemma {:induction false} SweepKeepsUniqueIds(rows: seq<OutboxRow>, batch: seq<OutboxRow>, outcome: nat -> Attempt, n: nat)
    requires n <= |batch|
    requires UniqueIds(rows)
    ensures UniqueIds(TableAfter(rows, batch, outcome, n))
  {
    if n > 0 {
      SweepKeepsUniqueIds(rows, batch, outcome, n - 1);
      var before := TableAfter(rows, batch, outcome, n - 1);
      if Delivered(batch[n - 1], outcome(n - 1)) {
        RemoveIdKeepsUniqueIds(before, batch[n - 1].id);
      } else {
        ReplaceIdKeepsUniqueIds(before, Retried(batch[n - 1]));
      }
    }
  }

  /** FAILED rows have fewer than ten failures and FATAL_ERROR rows at least ten. */
  predicate RetriesWithinCeiling(rows: seq<OutboxRow>) {
    forall r :: r in rows ==>
      (r.status == StatusName(Failed) ==> r.retryCount < MaxRetries) &&
      (r.status == StatusName(FatalError) ==> r.retryCount >= MaxRetries)
  }

  /** The unique ids of the table survive a sweep. */
  lemma SweptKeepsUniqueIds(rows: seq<OutboxRow>, outcome: nat -> Attempt)
    requires UniqueIds(rows)
    ensures UniqueIds(Swept(rows, outcome).rows)
  {
    var batch := ByStatusOldestFirst(rows, StatusName(Failed));
    SweepKeepsUniqueIds(rows, batch, outcome, |batch|);
  }

  /**
   * A sweep keeps every row that is not FAILED exactly as it was, so a FATAL_ERROR row is never
   * picked up again; and every row it attempts is a FAILED one.
   */
  lemma SweptLeavesOtherRows(rows: seq<OutboxRow>, outcome: nat -> Attempt)
    requires UniqueIds(rows)
    ensures forall r :: r in rows && r.status != StatusName(Failed) ==> r in Swept(rows, outcome).rows
    ensures forall r :: r in Swept(rows, outcome).attempted ==> r in rows && r.status == StatusName(Failed)
  {
    var batch := ByStatusOldestFirst(rows, StatusName(Failed));
    SweepKeepsOtherRows(rows, batch, outcome, |batch|);
    AttemptsFollowBatch(batch, outcome, |batch|);
    var attempted := AttemptedWithin(batch, outcome, |batch|);
    assert forall r :: r in attempted ==> r in batch;
  }

  /**
   * Each row after a sweep matches a row of the table before it with the same id, transaction,
   * payload and creation time, and a retryCount that grew by at most one.
   */
  lemma SweptRetryCountsGrowByAtMostOne(rows: seq<OutboxRow>, outcome: nat -> Attempt)
    ensures forall r :: r in Swept(rows, outcome).rows ==>
      exists o :: (o in rows && o.id == r.id && o.transactionId == r.transactionId && o.payload == r.payload &&
                   o.createdAt == r.createdAt && o.retryCount <= r.retryCount <= o.retryCount + 1)
  {
    var batch := ByStatusOldestFirst(rows, StatusName(Failed));
    SweepOnlyCountsFailures(rows, batch, outcome, |batch|);
    var after := TableAfter(rows, batch, outcome, |batch|);
    forall r | r in after
      ensures exists o :: (o in rows && o.id == r.id && o.transactionId == r.transactionId && o.payload == r.payload &&
                           o.createdAt == r.createdAt && o.retryCount <= r.retryCount <= o.retryCount + 1)
    {
      if r !in rows {
        var e :| e in rows && e.status == StatusName(Failed) && r == Retried(e);
        assert e.id == r.id;
      }
    }
  }

  /** The retry ceiling is an invariant of the sweep: it never leaves a FAILED row at ten. */
  lemma SweptKeepsRetriesWithinCeiling(rows: seq<OutboxRow>, outcome: nat -> Attempt)
    requires RetriesWithinCeiling(rows)
    ensures RetriesWithinCeiling(Swept(rows, outcome).rows)
  {
    var batch := ByStatusOldestFirst(rows, StatusName(Failed));
    SweepOnlyCountsFailures(rows, batch, outcome, |batch|);
    var after := TableAfter(rows, batch, outcome, |batch|);
    forall r | r in after && r !in rows
      ensures (r.status == StatusName(Failed) ==> r.retryCount < MaxRetries) &&
        (r.status == StatusName(FatalError) ==> r.retryCount >= MaxRetries)
    {
      var e :| e in rows && e.status == StatusName(Failed) && r == Retried(e);
    }
  }

  /** Rows are attempted oldest first, in a prefix of the FAILED rows, and all of them unless a save failed. */
  lemma SweptAttemptsOldestFirst(rows: seq<OutboxRow>, outcome: nat -> Attempt)
    ensures var s := Swept(rows, outcome);
      var batch := ByStatusOldestFirst(rows, StatusName(Failed));
      |s.attempted| <= |batch| && s.attempted == batch[..|s.attempted|] && SortedByCreatedAt(s.attempted) &&
      (!s.halted ==> s.attempted == batch)
  {
    var batch := ByStatusOldestFirst(rows, StatusName(Failed));
    AttemptsFollowBatch(batch, outcome, |batch|);
  }

  /** Some row of the table carries this id. */
  predicate HasId(rows: seq<OutboxRow>, id: nat) {
    exists y :: y in rows && y.id == id
  }

  /** Among the first n retries of the sweep, one that ran delivered the row with this id. */
  predicate DeliveredWithin(batch: seq<OutboxRow>, outcome: nat -> Attempt, n: nat, id: nat)
    requires n <= |batch|
  {
    exists j :: 0 <= j < n && !HaltedWithin(batch, outcome, j) && batch[j].id == id && Delivered(batch[j], outcome(j))
  }

  /** One retryEvent removes a row's id only by delivering that row. */
  lemma RetryLosesOnlyDelivered(before: seq<OutboxRow>, entity: OutboxRow, attempt: Attempt, id: nat)
    requires HasId(before, id)
    ensures HasId(RetryStep(before, entity, attempt).GetOr(before), id) || (id == entity.id && Delivered(entity, attempt))
  {
    var y :| y in before && y.id == id;
    if Delivered(entity, attempt) {
      if id != entity.id {
        assert y in RemoveId(before, entity.id);
      }
    } else if attempt.saveOk {
      var i :| 0 <= i < |before| && before[i] == y;
      assert ReplaceId(before, Retried(entity))[i].id == id;
    }
  }

  lemma {:induction false} SweepLosesOnlyDelivered(rows: seq<OutboxRow>, batch: seq<OutboxRow>, outcome: nat -> Attempt, n: nat)
    requires n <= |batch|
    ensures forall x :: x in rows ==> HasId(TableAfter(rows, batch, outcome, n), x.id) || DeliveredWithin(batch, outcome, n, x.id)
  {
    if n > 0 {
      SweepLosesOnlyDelivered(rows, batch, outcome, n - 1);
      var before := TableAfter(rows, batch, outcome, n - 1);
      forall x | x in rows
        ensures HasId(TableAfter(rows, batch, outcome, n), x.id) || DeliveredWithin(batch, outcome, n, x.id)
      {
        if DeliveredWithin(batch, outcome, n - 1, x.id) {
          var j :| 0 <= j < n - 1 && !HaltedWithin(batch, outcome, j) && batch[j].id == x.id && Delivered(batch[j], outcome(j));
          assert DeliveredWithin(batch, outcome, n, x.id);
        } else if !HaltedWithin(batch, outcome, n - 1) {
          RetryLosesOnlyDelivered(before, batch[n - 1], outcome(n - 1), x.id);
          if !HasId(TableAfter(rows, batch, outcome, n), x.id) {
            assert DeliveredWithin(batch, outcome, n, x.id) by {
              assert !HaltedWithin(batch, outcome, n - 1) && batch[n - 1].id == x.id && Delivered(batch[n - 1], outcome(n - 1));
            }
          }
        }
      }
    }
  }

  /**
   * At-least-once delivery on the outbox side: a sweep deletes a row only after its retry read
   * the payload, Kafka acknowledged the event and the delete ran; every other row's id is still
   * in the table afterwards.
   */
  lemma SweptLosesOnlyDelivered(rows: seq<OutboxRow>, outcome: nat -> Attempt)
    ensures var batch := ByStatusOldestFirst(rows, StatusName(Failed));
      forall x :: x in rows ==>
        HasId(Swept(rows, outcome).rows, x.id) ||
        exists j :: 0 <= j < |batch| && !HaltedWithin(batch, outcome, j) && batch[j].id == x.id && Delivered(batch[j], outcome(j))
  {
    var batch := ByStatusOldestFirst(rows, StatusName(Failed));
    SweepLosesOnlyDelivered(rows, batch, outcome, |batch|);
  }

  /** The table after the first n retries of a sweep in which every send and delete succeeded. */
  lemma {:induction false} DeliveriesRemoveAttempted(rows: seq<OutboxRow>, batch: seq<OutboxRow>, outcome: nat -> Attempt, n: nat)
    requires n <= |batch|
    requires forall b :: b in batch ==> b.payload.Serialized?
    requires forall i: nat :: i < |batch| ==> outcome(i).sendOk && outcome(i).deleteOk
    ensures !HaltedWithin(batch, outcome, n)
    ensures forall x :: x in TableAfter(rows, batch, outcome, n) <==> x in rows && forall j :: 0 <= j < n ==> batch[j].id != x.id
  {
    if n > 0 {
      DeliveriesRemoveAttempted(rows, batch, outcome, n - 1);
      assert batch[n - 1] in batch;
    }
  }

  /** When Kafka and the database are healthy, a sweep drains every FAILED row. */
  lemma HealthySweepDrainsOutbox(rows: seq<OutboxRow>, outcome: nat -> Attempt)
    requires forall r :: r in rows ==> r.payload.Serialized?
    requires forall i: nat :: outcome(i).sendOk && outcome(i).deleteOk
    ensures !Swept(rows, outcome).halted
    ensures forall r :: r in Swept(rows, outcome).rows ==> r.status != StatusName(Failed)
  {
    var batch := ByStatusOldestFirst(rows, StatusName(Failed));
    DeliveriesRemoveAttempted(rows, batch, outcome, |batch|);
  }

  /** The outbox_events table behind OutboxRepository. */
  class OutboxRepository {
    var rows: seq<OutboxRow>
    /** The next surrogate id the table's sequence hands out. */
    var nextId: nat

    ghost predicate Valid()
      reads this
    {
      UniqueIds(rows) && forall r :: r in rows ==> r.id < nextId
    }

    constructor (initial: seq<OutboxRow>, nextId: nat)
      requires UniqueIds(initial) && forall r :: r in initial ==> r.id < nextId
      ensures this.rows == initial && this.nextId == nextId
      ensures Valid()
    {
      this.rows := initial;
      this.nextId := nextId;
    }

    method FindByStatusOrderByCreatedAtAsc(status: string) returns (batch: seq<OutboxRow>)
      ensures batch == ByStatusOldestFirst(rows, status)
      ensures SortedByCreatedAt(batch) && forall x :: x in batch <==> x in rows && x.status == status
    {
      batch := ByStatusOldestFirst(rows, status);
    }

    /** delete(entity); `lands` says whether the statement succeeded. */
    method Delete(entity: OutboxRow, lands: bool)
      modifies this
      ensures rows == if lands then RemoveId(old(rows), entity.id) else old(rows)
      ensures nextId == old(nextId)
      ensures old(Valid()) ==> Valid()
    {
      if lands {
        if UniqueIds(rows) {
          RemoveIdKeepsUniqueIds(rows, entity.id);
        }
        rows := RemoveId(rows, entity.id);
      }
    }

    /** save(entity) of a stored row; `lands` says whether the statement succeeded. */
    method Save(entity: OutboxRow, lands: bool)
      modifies this
      ensures rows == if lands then ReplaceId(old(rows), entity) else old(rows)
      ensures nextId == old(nextId)
      ensures old(Valid()) ==> Valid()
    {
      if lands {
        if UniqueIds(rows) {
          ReplaceIdKeepsUniqueIds(rows, entity);
        }
        rows := ReplaceId(rows, entity);
      }
    }

    /** save(entity) of a new row: the table assigns the next id. */
    method Insert(entity: OutboxRow, lands: bool) returns (saved: Option<OutboxRow>)
      requires Valid()
      modifies this
      ensures saved.Some? <==> lands
      ensures lands ==> saved == Some(entity.(id := old(nextId))) && rows == old(rows) + [saved.value] && nextId == old(nextId) + 1
      ensures !lands ==> rows == old(rows) && nextId == old(nextId)
      ensures Valid()
    {
      if !lands {
        return None;
      }
      var row := entity.(id := nextId);
      rows := rows + [row];
      nextId := nextId + 1;
      saved := Some(row);
    }
  }

  class OutboxScheduler {
    const repository: OutboxRepository

    constructor (repository: OutboxRepository)
      ensures this.repository == repository
    {
      this.repository := repository;
    }

    /**
     * retryEvent: send the row's event again; delete the row once Kafka acknowledged it,
     * otherwise count the failure (FATAL_ERROR from the tenth) and save the row. `completed`
     * is false when that save failed, which errors the Mono.
     */
    method RetryEvent(entity: OutboxRow, attempt: Attempt) returns (completed: bool)
      modifies repository
      ensures completed <==> RetryStep(old(repository.rows), entity, attempt).Some?
      ensures completed ==> repository.rows == RetryStep(old(repository.rows), entity, attempt).value
      ensures !completed ==> repository.rows == old(repository.rows)
      ensures repository.nextId == old(repository.nextId)
      ensures old(repository.Valid()) ==> repository.Valid()
    {
      var event := Deserialize(entity.payload);
      if event.Some? && attempt.sendOk && attempt.deleteOk {
        repository.Delete(entity, true);
        return true;
      }
      var counted := entity;
      counted := counted.(retryCount := counted.retryCount + 1);
      if counted.retryCount >= MaxRetries {
        counted := counted.(status := StatusName(FatalError));
      }
      if !attempt.saveOk {
        return false;
      }
      repository.Save(counted, true);
      completed := true;
    }

    /**
     * processFailedEvents: query the FAILED rows oldest first and retry them one after another,
     * stopping at the first retry that errors. Returns the rows attempted, in order.
     */
    method ProcessFailedEvents(outcome: nat -> Attempt) returns (attempted: seq<OutboxRow>)
      modifies repository
      ensures repository.rows == Swept(old(repository.rows), outcome).rows
      ensures attempted == Swept(old(repository.rows), outcome).attempted
      ensures repository.nextId == old(repository.nextId)
      ensures old(repository.Valid()) ==> repository.Valid()
    {
      var batch := repository.FindByStatusOrderByCreatedAtAsc(StatusName(Failed));
      ghost var rows0 := repository.rows;
      var i := 0;
      var halted := false;
      attempted := [];
      while i < |batch| && !halted
        invariant 0 <= i <= |batch|
        invariant repository.rows == TableAfter(rows0, batch, outcome, i)
        invariant attempted == AttemptedWithin(batch, outcome, i)
        invariant halted == HaltedWithin(batch, outcome, i)
        invariant repository.nextId == old(repository.nextId)
        invariant old(repository.Valid()) ==> repository.Valid()
        decreases |batch| - i
      {
        attempted := attempted + [batch[i]];
        var completed := RetryEvent(batch[i], outcome(i));
        halted := !completed;
        i := i + 1;
      }
      if halted {
        HaltedSweepStays(rows0, batch, outcome, i, |batch|);
      }
    }
  }
}
