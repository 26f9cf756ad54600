/**
  Reset and preview commands, step by step: find or create the durable operation, check, write the
  attempt, and settle the operation. Each transaction leaves exactly what `ApplyReset` and
  `PreviewReset` of the model say.
 */
module AttemptResetService {
  import opened Common
  import opened Entities
  import opened NodeRepository
  import M = AttemptModel
  import Inv = SittingInvariant

  /** The outcome of looking up or creating the operation: an operation to work on, or the reply. */
  datatype Opened = Working(op: ResetOperation) | Answered(reply: Result<ResetOutcome, NodeError>)

  class Service {
    const repo: Repository

    constructor (repo: Repository)
      ensures this.repo == repo
    {
      this.repo := repo;
    }

    /** Answers a repeated request from its receipt, refuses a different one, or stores a pending operation. */
    method OpenOperation(c: ResetCommand) returns (r: Opened)
      modifies repo`operations
      ensures match M.FindOperation(old(repo.Db()), c)
              case Conflicting => r == Answered(Err(ResetConflict)) && repo.Db() == old(repo.Db())
              case Replayed(o) => r == Answered(Ok(o)) && repo.Db() == old(repo.Db())
              case Fresh(op) => r == Working(op) && repo.Db() == M.PutOperation(old(repo.Db()), op)
    {
      if c.requestId in repo.operations {
        var stored := repo.operations[c.requestId];
        if stored.commandHash != c || !M.SameResetCommand(stored, c) {
          return Answered(Err(ResetConflict));
        }
        if !stored.status.OperationPending? {
          return Answered(Ok(M.OperationOutcome(stored)));
        }
        assert repo.operations == repo.operations[stored.requestId := stored];
        return Working(stored);
      }
      var op := M.NewOperation(c);
      repo.SaveOperation(op);
      r := Working(op);
    }

    method FinishRejectedReset(op: ResetOperation, status: OperationStatus, code: string) returns (o: ResetOutcome)
      modifies repo`operations
      ensures repo.Db() == M.PutOperation(old(repo.Db()), M.Refused(op, status, code))
      ensures o == M.OperationOutcome(M.Refused(op, status, code))
    {
      var done := op.(status := status, code := code);
      repo.SaveOperation(done);
      o := M.OperationOutcome(done);
    }

    method FinishOutcome(op: ResetOperation, a: Attempt, status: OperationStatus,
                         code: string) returns (o: ResetOutcome)
      modifies repo`operations
      ensures repo.Db() == M.PutOperation(old(repo.Db()), M.Observed(op, a, status, code))
      ensures o == M.OperationOutcome(M.Observed(op, a, status, code))
    {
      var done := op.(status := status, code := code, attemptId := a.id, attemptNo := a.attemptNo, attemptStatus := Some(a.status));
      if status.OperationApplied? {
        done := done.(targetGeneration := a.resetGeneration);
      }
      done := done.(startedAt := a.startedAt, dueAt := a.dueAt, submittedAt := a.submittedAt, autoSubmittedAt := a.autoSubmittedAt);
      repo.SaveOperation(done);
      o := M.OperationOutcome(done);
    }
  
    /** The checks of a reset in order, then the compare-and-set write; every way out settles the operation. */
    method ExecuteReset(op: ResetOperation, c: ResetCommand, now: Time, writeNow: Time) returns (o: ResetOutcome)
      modifies repo`attempts, repo`operations
      ensures (repo.Db(), o) == M.Execute(old(repo.Db()), op, c, now, writeNow)
    {
      hide M.OperationOutcome, M.PutOperation, M.Refused, M.Observed, M.Reopening;
      if now >= c.deadline {
        o := FinishRejectedReset(op, OperationExpired, "reset_deadline_expired"); return;
      }
      if c.examId !in repo.exams {
        o := FinishRejectedReset(op, OperationRejected, "exam_not_loaded"); return;
      }
      var exam := repo.exams[c.examId];
      if exam.deploymentId != c.deploymentId {
        o := FinishRejectedReset(op, OperationRejected, "deployment_mismatch"); return;
      }
      if exam.fencedAt.Some? {
        o := FinishRejectedReset(op, OperationRejected, "deployment_fenced"); return;
      }
      if now >= exam.endsAt {
        o := FinishRejectedReset(op, OperationExpired, "exam_window_closed"); return;
      }
      if c.participantId !in repo.participants {
        o := FinishRejectedReset(op, OperationRejected, "participant_not_found"); return;
      }
      var participant := repo.participants[c.participantId];
      if c.attemptId !in repo.attempts {
        o := FinishRejectedReset(op, OperationRejected, "attempt_not_found"); return;
      }
      var attempt := repo.attempts[c.attemptId];
      if participant.examId != c.examId || participant.deploymentId != c.deploymentId || participant.studentId != c.studentId
         || attempt.participantId != participant.id || attempt.examId != c.examId || attempt.studentId != c.studentId
         || participant.latestAttemptId.None? || participant.latestAttemptId.value != attempt.id {
        o := FinishRejectedReset(op, OperationRejected, "target_conflict"); return;
      }
      if attempt.resetGeneration != c.expectedGeneration || attempt.dueAt != c.expectedDueAt
         || attempt.submittedAt != c.expectedSubmittedAt || attempt.autoSubmittedAt != c.expectedAutoSubmittedAt {
        o := FinishRejectedReset(op, OperationRejected, "target_changed"); return;
      }
      if attempt.status.InProgress? {
        if !c.expectedStatus.InProgress? {
          o := FinishRejectedReset(op, OperationRejected, "target_changed"); return;
        }
        o := FinishOutcome(op, attempt, OperationAlreadyInProgress, "already_in_progress"); return;
      }
      if attempt.status != c.expectedStatus {
        o := FinishRejectedReset(op, OperationRejected, "target_changed"); return;
      }
      if now >= attempt.dueAt {
        o := FinishRejectedReset(op, OperationExpired, "attempt_deadline_expired"); return;
      }
      if !attempt.status.Submitted? && !attempt.status.AutoSubmitted? {
        o := FinishRejectedReset(op, OperationRejected, "status_not_resettable"); return;
      }
      if c.targetGeneration != c.expectedGeneration + 1 {
        o := FinishRejectedReset(op, OperationRejected, "generation_invalid"); return;
      }
      if writeNow >= c.deadline {
        o := FinishRejectedReset(op, OperationExpired, "reset_deadline_expired"); return;
      }
      if writeNow >= attempt.dueAt {
        o := FinishRejectedReset(op, OperationExpired, "attempt_deadline_expired"); return;
      }
      if writeNow >= exam.endsAt {
        o := FinishRejectedReset(op, OperationExpired, "exam_window_closed"); return;
      }
      o := Reopen(op, c, attempt);
    }

    /** The compare-and-set write and the operation it settles. */
    method Reopen(op: ResetOperation, c: ResetCommand, found: Attempt) returns (o: ResetOutcome)
      modifies repo`attempts, repo`operations
      ensures (repo.Db(), o) == M.Reopening(old(repo.Db()), op, c, found)
    {
      var attempt := found.(status := InProgress, submittedAt := None, autoSubmittedAt := None, score := None,
                            gradingStatus := Pending, resetGeneration := c.targetGeneration);
      var err := repo.ResetAttempt(attempt, c.expectedStatus, c.expectedGeneration);
      if err.Some? {
        o := FinishRejectedReset(op, OperationRejected, "reset_conflict");
      } else {
        o := FinishOutcome(op, attempt, OperationApplied, "reset_applied");
      }
    }

    method ApplyReset(c: ResetCommand, now: Time, writeNow: Time) returns (r: Result<ResetOutcome, NodeError>)
      modifies repo
      ensures (repo.Db(), r) == M.ApplyReset(old(repo.Db()), c, now, writeNow)
    {
      hide M.ValidateReset, M.Execute;
      if M.ValidateReset(c).Some? {
        return Err(M.ValidateReset(c).value);
      }
      ghost var before := repo.Db();
      var begun := OpenOperation(c);
      if begun.Answered? {
        return begun.reply;
      }
      OwnOperation(before, begun.op, c, now, writeNow);
      var o := ExecuteReset(begun.op, c, now, writeNow);
      r := Ok(o);
    }

    /**
      The checks of a preview in order; the latest attempt's metadata goes into the operation, nothing else is
      written.
     */
    method ExecutePreview(op: ResetOperation, c: ResetCommand, now: Time) returns (o: ResetOutcome)
      requires Inv.SittingsOk(repo.Db())
      modifies repo`operations
      ensures (repo.Db(), o) == M.Settled(old(repo.Db()), M.PreviewDone(old(repo.Db()), op, c, now))
    {
      hide M.OperationOutcome, M.PutOperation, M.Refused, M.FindLatest, Inv.SittingsOk;
      if now >= c.deadline {
        o := FinishRejectedReset(op, OperationExpired, "preview_deadline_expired"); return;
      }
      if c.examId !in repo.exams {
        o := FinishRejectedReset(op, OperationRejected, "exam_not_loaded"); return;
      }
      if repo.exams[c.examId].deploymentId != c.deploymentId {
        o := FinishRejectedReset(op, OperationRejected, "deployment_mismatch"); return;
      }
      if repo.exams[c.examId].fencedAt.Some? {
        o := FinishRejectedReset(op, OperationRejected, "deployment_fenced"); return;
      }
      if c.participantId !in repo.participants {
        o := FinishRejectedReset(op, OperationRejected, "participant_not_found"); return;
      }
      var participant := repo.participants[c.participantId];
      if participant.examId != c.examId || participant.deploymentId != c.deploymentId || participant.studentId != c.studentId {
        o := FinishRejectedReset(op, OperationRejected, "target_conflict"); return;
      }
      var latest := repo.FindLatestAttempt(participant.id, c.examId);
      if latest.None? {
        o := FinishRejectedReset(op, OperationRejected, "attempt_not_found"); return;
      }
      var attempt := repo.attempts[latest.value];
      if participant.latestAttemptId.None? || participant.latestAttemptId.value != attempt.id {
        o := FinishRejectedReset(op, OperationRejected, "target_conflict"); return;
      }
      var done := op.(attemptId := attempt.id, attemptNo := attempt.attemptNo, attemptStatus := Some(attempt.status),
                      targetGeneration := attempt.resetGeneration, startedAt := attempt.startedAt, dueAt := attempt.dueAt,
                      submittedAt := attempt.submittedAt, autoSubmittedAt := attempt.autoSubmittedAt,
                      status := OperationApplied, code := "preview_ready");
      repo.SaveOperation(done);
      o := M.OperationOutcome(done);
    }

    method PreviewReset(c: ResetCommand, now: Time) returns (r: Result<ResetOutcome, NodeError>)
      requires Inv.SittingsOk(repo.Db())
      modifies repo`operations
      ensures (repo.Db(), r) == M.PreviewReset(old(repo.Db()), c, now)
    {
      hide M.ValidatePreview, M.DecidePreview, M.OperationOutcome;
      if M.ValidatePreview(c).Some? {
        return Err(M.ValidatePreview(c).value);
      }
      ghost var before := repo.Db();
      var begun := OpenOperation(c);
      if begun.Answered? {
        return begun.reply;
      }
      OwnPreview(before, begun.op, c, now);
      var o := ExecutePreview(begun.op, c, now);
      r := Ok(o);
    }
  }

  /** The pending operation stored first does not change what a preview reports or leaves. */
  lemma OwnPreview(db: Database, op: ResetOperation, c: ResetCommand, now: Time)
    requires Inv.SittingsOk(db)
    ensures Inv.SittingsOk(M.PutOperation(db, op))
    ensures M.Settled(M.PutOperation(db, op), M.PreviewDone(M.PutOperation(db, op), op, c, now))
         == M.Settled(db, M.PreviewDone(db, op, c, now))
  {
    hide M.OperationOutcome, M.Settled, M.FindLatest, M.DecidePreview, Inv.SittingsOk;
    SameLatest(db, op, c);
    SamePreview(db, op, c, now);
    Overwrites(db, op, M.PreviewDone(db, op, c, now));
  }

  lemma SamePreview(db: Database, op: ResetOperation, c: ResetCommand, now: Time)
    requires forall p, e :: M.FindLatest(M.PutOperation(db, op), p, e) == M.FindLatest(db, p, e)
    ensures M.DecidePreview(M.PutOperation(db, op), c, now) == M.DecidePreview(db, c, now)
  {
    hide M.FindLatest;
  }

  lemma SameLatest(db: Database, op: ResetOperation, c: ResetCommand)
    requires Inv.SittingsOk(db)
    ensures Inv.SittingsOk(M.PutOperation(db, op))
    ensures forall p, e :: M.FindLatest(M.PutOperation(db, op), p, e) == M.FindLatest(db, p, e)
  {
    forall p, e ensures M.FindLatest(M.PutOperation(db, op), p, e) == M.FindLatest(db, p, e) {
      hide Inv.BundleOk, Inv.CountersOk, Inv.PlacesOk, Inv.RowsOk, Inv.NumbersUnique, Inv.NumbersComplete, Inv.AnswersOk;
      forall id ensures M.IsLatest(M.PutOperation(db, op), id, p, e) <==> M.IsLatest(db, id, p, e) {
      }
      var a, b := M.FindLatest(db, p, e), M.FindLatest(M.PutOperation(db, op), p, e);
      if a.Some? {
        assert M.IsLatest(M.PutOperation(db, op), a.value, p, e);
        Inv.OneLatest(db, a.value, b.value, p, e);
      }
    }
  }

  lemma Overwrites(db: Database, op: ResetOperation, done: ResetOperation)
    requires done.requestId == op.requestId
    ensures M.Settled(M.PutOperation(db, op), done) == M.Settled(db, done)
  {
    hide M.OperationOutcome;
    assert db.operations[op.requestId := op][op.requestId := done] == db.operations[op.requestId := done];
  }

  lemma OwnReopening(db: Database, op: ResetOperation, c: ResetCommand, found: Attempt)
    ensures M.Reopening(M.PutOperation(db, op), op, c, found) == M.Reopening(db, op, c, found)
  {
    hide M.OperationOutcome, M.Settled;
    var reopened := found.(status := InProgress, submittedAt := None, autoSubmittedAt := None, score := None,
                           gradingStatus := Pending, resetGeneration := c.targetGeneration);
    Overwrites(db, op, M.Refused(op, OperationRejected, "reset_conflict"));
    match M.ResetAttempt(db, reopened, c.expectedStatus, c.expectedGeneration)
    case Ok(after) =>
      assert M.ResetAttempt(M.PutOperation(db, op), reopened, c.expectedStatus, c.expectedGeneration) == Ok(M.PutOperation(after, op));
      Overwrites(after, op, M.Observed(op, reopened, OperationApplied, "reset_applied"));
    case Err(_) =>
  }

  /** The pending operation stored first does not change what the command decides or finally leaves. */
  lemma OwnOperation(db: Database, op: ResetOperation, c: ResetCommand, now: Time, writeNow: Time)
    ensures M.Execute(M.PutOperation(db, op), op, c, now, writeNow) == M.Execute(db, op, c, now, writeNow)
  {
    hide M.OperationOutcome, M.Settled, M.Reopening;
    SameDecision(db, op, c, now, writeNow);
    match M.Decide(db, c, now, writeNow)
    case Refuse(status, code) => Overwrites(db, op, M.Refused(op, status, code));
    case Observe => Overwrites(db, op, M.Observed(op, db.attempts[c.attemptId], OperationAlreadyInProgress, "already_in_progress"));
    case Reopen => OwnReopening(db, op, c, db.attempts[c.attemptId]);
  }

  lemma SameDecision(db: Database, op: ResetOperation, c: ResetCommand, now: Time, writeNow: Time)
    ensures M.Decide(M.PutOperation(db, op), c, now, writeNow) == M.Decide(db, c, now, writeNow)
  {
    hide M.OnTarget, M.Unchanged;
  }
}
