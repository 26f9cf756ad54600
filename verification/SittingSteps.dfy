/**
  How a transaction of the attempt lifecycle moves the rows it does not create, and what it never
  touches. Over any number of steps, a finished row is frozen within its generation.
 */
module SittingSteps {
  import opened Common
  import opened Entities
  import opened AttemptModel
  import opened SittingInvariant

  /** Two finished rows differ at most in the harvest mark. */
  predicate SameFinished(a: Attempt, b: Attempt) {
    a.(harvestedAt := None) == b.(harvestedAt := None)
  }

  /** One step on one row: open rows keep their generation, finished rows are frozen or reopened. */
  predicate Moves(a: Attempt, b: Attempt) {
    && SameSitting(a, b) && (a.deviceId != "" ==> b.deviceId == a.deviceId)
    && (a.status.InProgress? ==> b.resetGeneration == a.resetGeneration)
    && (a.Finished() && b.Finished() ==>
          SameFinished(a, b) && (a.harvestedAt.Some? ==> b.harvestedAt == a.harvestedAt))
    && (a.Finished() && b.status.InProgress? ==> b.resetGeneration == a.resetGeneration + 1)
  }

  /** The same over any number of steps: within one generation a finished row is frozen. */
  predicate Evolves(a: Attempt, b: Attempt) {
    && SameSitting(a, b) && (a.deviceId != "" ==> b.deviceId == a.deviceId)
    && a.resetGeneration <= b.resetGeneration
    && (a.Finished() && b.resetGeneration == a.resetGeneration ==>
          SameFinished(a, b) && (a.harvestedAt.Some? ==> b.harvestedAt == a.harvestedAt))
  }

  ghost predicate AllMove(before: Attempts, after: Attempts) {
    && (forall id :: id in before ==> id in after && Moves(before[id], after[id]))
    && (forall id :: id in after && id !in before ==> after[id].status.InProgress? && after[id].resetGeneration == 0)
  }

  /** No row gains a harvest mark. */
  ghost predicate NoNewMarks(before: Attempts, after: Attempts) {
    forall id :: id in before && id in after && after[id].Finished() && after[id].harvestedAt.Some? ==>
      before[id].harvestedAt == after[id].harvestedAt && before[id].resetGeneration == after[id].resetGeneration
  }

  /** Receipts are never changed or removed. */
  ghost predicate ReceiptsKept(before: Operations, after: Operations) {
    forall r :: r in before ==> r in after && after[r] == before[r]
  }

  /** What start, bind, finalise, reset and preview do, as seen from outside. */
  ghost predicate Transaction(db: Database, db': Database) {
    && db'.exams == db.exams && db'.items == db.items && db'.answers == db.answers
    && AllMove(db.attempts, db'.attempts) && NoNewMarks(db.attempts, db'.attempts)
    && ReceiptsKept(db.operations, db'.operations)
  }

  /** Rewriting one row in an allowed way is a transaction. */
  lemma RowTransaction(db: Database, id: Id, a: Attempt)
    requires id in db.attempts && Moves(db.attempts[id], a)
    requires a.harvestedAt.Some? ==> a.harvestedAt == db.attempts[id].harvestedAt && a.resetGeneration == db.attempts[id].resetGeneration
    ensures Transaction(db, PutAttempt(db, id, a))
  {
  }

  lemma NoWrite(db: Database)
    ensures Transaction(db, db)
  {
  }

  /** Storing a receipt under a new request is a transaction. */
  lemma ReceiptTransaction(db: Database, op: ResetOperation)
    requires op.requestId !in db.operations
    ensures Transaction(db, PutOperation(db, op))
  {
  }

  lemma FinalizeTransaction(db: Database, id: Id, auto: bool, now: Time)
    requires PlacesOk(db.participants, db.attempts) && RowsOk(db.exams, db.attempts)
    ensures Transaction(db, FinalizeAttempt(db, id, auto, now).0)
  {
    if id in db.attempts {
      assert PlacedOk(db.participants, db.attempts, id) && RowOk(db.exams, db.attempts[id]);
      FinalizeEffect(db, id, auto, now);
      if db.attempts[id].status.InProgress? {
        RowTransaction(db, id, Finalized(db.attempts[id], db.exams[db.attempts[id].examId], db.AnswersOf(id), auto, now));
      }
    }
  }

  lemma BindTransaction(db: Database, id: Id, device: string)
    requires BindAttemptDevice(db, id, device).Ok?
    ensures Transaction(db, BindAttemptDevice(db, id, device).value)
  {
    RowTransaction(db, id, db.attempts[id].(deviceId := device));
  }

  /** Creating an attempt is a transaction. */
  lemma CreateTransaction(db: Database, p: Participant, exam: Exam, device: string, now: Time, newId: Id)
    requires CreateNext(db, p, exam, device, now, newId).Ok?
    ensures Transaction(db, CreateNext(db, p, exam, device, now, newId).value.0)
    ensures forall id :: id in db.attempts ==> CreateNext(db, p, exam, device, now, newId).value.0.attempts[id] == db.attempts[id]
  {
  }

  /** Rows that change at most an open row's device. */
  predicate OnlyBinds(a: Attempt, b: Attempt) {
    && b == a.(deviceId := b.deviceId) && (a.deviceId != "" ==> b.deviceId == a.deviceId)
    && (a.Finished() ==> b == a)
  }

  lemma BindThenMove(a: Attempt, b: Attempt, c: Attempt)
    requires OnlyBinds(a, b) && Moves(b, c)
    ensures Moves(a, c)
  {
  }

  /** Binding first and then moving is moving. */
  lemma BindThenTransaction(db: Database, bound: Database, after: Database)
    requires bound == db.(attempts := bound.attempts) && bound.attempts.Keys == db.attempts.Keys
    requires forall id :: id in db.attempts ==> OnlyBinds(db.attempts[id], bound.attempts[id])
    requires Transaction(bound, after)
    ensures Transaction(db, after)
  {
    forall id | id in db.attempts ensures Moves(db.attempts[id], after.attempts[id]) {
      BindThenMove(db.attempts[id], bound.attempts[id], after.attempts[id]);
    }
  }

  /** Moving and then creating a new row is moving. */
  lemma TransactionThenCreate(db: Database, closed: Database, after: Database)
    requires Transaction(db, closed) && Transaction(closed, after)
    requires forall id :: id in closed.attempts ==> id in after.attempts && after.attempts[id] == closed.attempts[id]
    ensures Transaction(db, after)
  {
  }

  /** A sitting that is bound and then finalised. */
  lemma CloseTransaction(db: Database, bound: Database, id: Id, device: string, clock: Time)
    requires PlacesOk(bound.participants, bound.attempts) && RowsOk(bound.exams, bound.attempts)
    requires id in db.attempts && BindIfUnbound(db, id, device) == Ok(bound)
    ensures Transaction(db, bound) && Transaction(db, FinalizeAttempt(bound, id, true, clock).0)
  {
    hide PlacesOk, RowsOk, FinalizeAttempt;
    BindEffect(db, id, device);
    NoWrite(bound);
    BindThenTransaction(db, bound, bound);
    FinalizeTransaction(bound, id, true, clock);
    BindThenTransaction(db, bound, FinalizeAttempt(bound, id, true, clock).0);
  }

  lemma ResumeTransaction(db: Database, id: Id, p: Participant, exam: Exam, device: string, now: Time, clock: Time,
                          newId: Id)
    requires Invariant(db) && id in db.attempts
    ensures Transaction(db, ResumeActive(db, id, p, exam, device, now, clock, newId).0)
  {
    ResumeCases(db, id, p, exam, device, now, clock, newId);
    NoWrite(db);
    if BindIfUnbound(db, id, device).Ok? {
      var bound := BindIfUnbound(db, id, device).value;
      assert PlacesOk(bound.participants, bound.attempts) && RowsOk(bound.exams, bound.attempts) by {
        BindIfUnboundKeeps(db, id, device);
      }
      CloseTransaction(db, bound, id, device, clock);
      var closed := FinalizeAttempt(bound, id, true, clock).0;
      if CreateNext(closed, p, exam, device, now, newId).Ok? {
        CreateTransaction(closed, p, exam, device, now, newId);
        TransactionThenCreate(db, closed, CreateNext(closed, p, exam, device, now, newId).value.0);
      }
    }
  }

  lemma StartTransactionMoves(db: Database, pid: Id, exam: Exam, device: string, now: Time, clock: Time, newId: Id)
    requires Invariant(db)
    ensures Transaction(db, StartTransaction(db, pid, exam, device, now, clock, newId).0)
  {
    NoWrite(db);
    if pid in db.participants {
      var locked := db.participants[pid];
      match FindActive(db, locked.id, exam.id)
      case Some(id) => ResumeTransaction(db, id, locked, exam, device, now, clock, newId);
      case None =>
        if CreateNext(db, locked, exam, device, now, newId).Ok? {
          CreateTransaction(db, locked, exam, device, now, newId);
        }
    }
  }

  lemma ReopenTransaction(db: Database, c: ResetCommand, now: Time, writeNow: Time)
    requires ValidateReset(c).None? && c.requestId !in db.operations && Decide(db, c, now, writeNow).Reopen?
    requires c.attemptId in db.attempts && db.attempts[c.attemptId].id == c.attemptId
    ensures Transaction(db, ApplyReset(db, c, now, writeNow).0)
  {
    ReopenEffect(db, c, now, writeNow);
    RowTransaction(db, c.attemptId, Reopened(db.attempts[c.attemptId], c));
  }

  /** A request whose receipt is settled writes nothing: it is replayed or conflicts. */
  lemma SettledWritesNothing(db: Database, c: ResetCommand, now: Time, writeNow: Time)
    requires c.requestId in db.operations && !db.operations[c.requestId].status.OperationPending?
    ensures ApplyReset(db, c, now, writeNow).0 == db && PreviewReset(db, c, now).0 == db
  {
  }

  lemma ResetTransaction(db: Database, c: ResetCommand, now: Time, writeNow: Time)
    requires ReceiptsOk(db.operations, db.attempts) && PlacesOk(db.participants, db.attempts)
    ensures Transaction(db, ApplyReset(db, c, now, writeNow).0)
  {
    NoWrite(db);
    if c.requestId in db.operations {
      assert OperationOk(db.attempts, db.operations[c.requestId], c.requestId);
      SettledWritesNothing(db, c, now, writeNow);
    } else if ValidateReset(c).None? {
      assert c.attemptId in db.attempts ==> PlacedOk(db.participants, db.attempts, c.attemptId);
      if Decide(db, c, now, writeNow).Reopen? {
        ReopenTransaction(db, c, now, writeNow);
      } else {
        NotAppliedEffect(db, c, now, writeNow);
        ReceiptTransaction(db, ApplyReset(db, c, now, writeNow).0.operations[c.requestId]);
      }
    }
  }

  lemma PreviewTransaction(db: Database, c: ResetCommand, now: Time)
    requires ReceiptsOk(db.operations, db.attempts)
    ensures Transaction(db, PreviewReset(db, c, now).0)
    ensures PreviewReset(db, c, now).0.attempts == db.attempts
  {
    NoWrite(db);
    if c.requestId in db.operations {
      assert OperationOk(db.attempts, db.operations[c.requestId], c.requestId);
      SettledWritesNothing(db, c, now, now);
    } else if ValidatePreview(c).None? {
      PreviewEffect(db, c, now);
      ReceiptTransaction(db, PreviewReset(db, c, now).0.operations[c.requestId]);
    }
  }
}
