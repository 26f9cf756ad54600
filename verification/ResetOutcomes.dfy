/** What becomes of a new reset or preview command, told from its fields and the tables alone. */
module ResetOutcomes {
  import opened Common
  import opened Entities
  import opened AttemptModel
  import Grading

  predicate Named(s: string) {
    exists c :: c in s && !Grading.IsSpace(c)
  }

  /** A reset command that may be carried out at all. */
  predicate CompleteReset(c: ResetCommand) {
    && c.operation.ResetKind? && Named(c.requestId) && Named(c.nodeId) && Named(c.deploymentId) && Named(c.examId)
    && Named(c.studentId) && Named(c.participantId) && Named(c.attemptId) && c.expectedDueAt != ZERO_TIME
    && c.deadline != ZERO_TIME && c.targetGeneration == c.expectedGeneration + 1 && !c.expectedStatus.Graded?
  }

  predicate CompletePreview(c: ResetCommand) {
    && c.operation.PreviewKind? && Named(c.requestId) && Named(c.nodeId) && Named(c.deploymentId) && Named(c.examId)
    && Named(c.studentId) && Named(c.participantId) && c.deadline != ZERO_TIME
  }

  /** The exam is loaded under the command's deployment and not fenced. */
  predicate ExamReachable(db: Database, c: ResetCommand) {
    && c.examId in db.exams && db.exams[c.examId].deploymentId == c.deploymentId && db.exams[c.examId].fencedAt.None?
  }

  /** The participant is the command's student in its exam and deployment. */
  predicate ParticipantMeant(db: Database, c: ResetCommand) {
    && c.participantId in db.participants
    && var p := db.participants[c.participantId];
       p.examId == c.examId && p.deploymentId == c.deploymentId && p.studentId == c.studentId
  }

  /** The attempt is that participant's latest, and stands as the command expects it. */
  predicate AttemptMeant(db: Database, c: ResetCommand)
    requires c.participantId in db.participants
  {
    && c.attemptId in db.attempts
    && var (p, a) := (db.participants[c.participantId], db.attempts[c.attemptId]);
       && a.participantId == p.id && a.examId == c.examId && a.studentId == c.studentId && p.latestAttemptId == Some(a.id)
       && a.status == c.expectedStatus && a.resetGeneration == c.expectedGeneration && a.dueAt == c.expectedDueAt
       && a.submittedAt == c.expectedSubmittedAt && a.autoSubmittedAt == c.expectedAutoSubmittedAt
  }

  /** Neither the command's deadline, nor the attempt's due time, nor the exam's end has come. */
  predicate Open(db: Database, c: ResetCommand, at: Time)
    requires c.examId in db.exams && c.attemptId in db.attempts
  {
    at < c.deadline && at < db.attempts[c.attemptId].dueAt && at < db.exams[c.examId].endsAt
  }

  predicate MayReset(db: Database, c: ResetCommand, now: Time, writeNow: Time) {
    && ExamReachable(db, c) && ParticipantMeant(db, c) && AttemptMeant(db, c) && Open(db, c, now) && Open(db, c, writeNow)
    && (db.attempts[c.attemptId].status.Submitted? || db.attempts[c.attemptId].status.AutoSubmitted?)
  }

  /** The attempt expected in progress is in progress, so there is nothing to reset. */
  predicate InProgressAlready(db: Database, c: ResetCommand, now: Time) {
    && ExamReachable(db, c) && ParticipantMeant(db, c) && AttemptMeant(db, c) && db.attempts[c.attemptId].status.InProgress?
    && now < c.deadline && now < db.exams[c.examId].endsAt
  }

  /** The reply names the command it answers. */
  predicate Replies(o: ResetOutcome, c: ResetCommand) {
    && o.requestId == c.requestId && o.operation == c.operation && o.nodeId == c.nodeId && o.deploymentId == c.deploymentId
    && o.examId == c.examId && o.studentId == c.studentId && o.participantId == c.participantId
  }

  /** The reply reports the attempt as it stands. */
  predicate ReportsAttempt(o: ResetOutcome, a: Attempt) {
    && o.attemptId == a.id && o.attemptNo == a.attemptNo && o.resetGeneration == a.resetGeneration
    && o.attemptStatus == Some(a.status) && o.startedAt == a.startedAt && o.dueAt == a.dueAt
    && o.submittedAt == a.submittedAt && o.autoSubmittedAt == a.autoSubmittedAt
  }

  /** The attempt is open again under the next generation, without submission, score, grade or harvest mark. */
  predicate Reopened(a: Attempt, b: Attempt, c: ResetCommand) {
    && b == a.(status := InProgress, submittedAt := None, autoSubmittedAt := None, score := None, gradingStatus := Pending,
               resetGeneration := b.resetGeneration, harvestedAt := None)
    && b.resetGeneration == a.resetGeneration + 1
  }

  /** Every other table stands; the operation is stored under its request. */
  predicate Stored(before: Database, after: Database, c: ResetCommand) {
    && after == before.(attempts := after.attempts, operations := after.operations)
    && after.operations.Keys == before.operations.Keys + {c.requestId}
    && forall r :: r in before.operations && r != c.requestId ==> after.operations[r] == before.operations[r]
  }

  lemma NamedIff(s: string)
    ensures Named(s) <==> NonBlank(s)
  {
    if c :| c in s && !Grading.IsSpace(c) {
      var i :| 0 <= i < |s| && s[i] == c;
    }
    if i :| 0 <= i < |s| && !Grading.IsSpace(s[i]) {
      assert s[i] in s;
    }
  }

  lemma CompleteResetIff(c: ResetCommand)
    ensures CompleteReset(c) <==> ValidateReset(c).None?
  {
    hide NonBlank, Named;
    forall s ensures Named(s) <==> NonBlank(s) {
      NamedIff(s);
    }
  }

  lemma CompletePreviewIff(c: ResetCommand)
    ensures CompletePreview(c) <==> ValidatePreview(c).None?
  {
    hide NonBlank, Named;
    forall s ensures Named(s) <==> NonBlank(s) {
      NamedIff(s);
    }
  }

  lemma MayResetIff(db: Database, c: ResetCommand, now: Time, writeNow: Time)
    requires CompleteReset(c)
    ensures MayReset(db, c, now, writeNow) <==> Decide(db, c, now, writeNow).Reopen?
  {
    hide Named;
  }

  lemma InProgressIff(db: Database, c: ResetCommand, now: Time, writeNow: Time)
    requires CompleteReset(c)
    ensures InProgressAlready(db, c, now) <==> Decide(db, c, now, writeNow).Observe?
  {
    hide Named;
  }

  lemma InProgressFacts(db: Database, c: ResetCommand, now: Time)
    requires InProgressAlready(db, c, now)
    ensures c.attemptId in db.attempts && db.attempts[c.attemptId].resetGeneration == c.expectedGeneration
  {
  }

  /** A new command that is not complete is refused and writes nothing. */
  lemma IncompleteRefused(db: Database, c: ResetCommand, now: Time, writeNow: Time)
    ensures CompleteReset(c) || c.requestId in db.operations ||
            (ApplyReset(db, c, now, writeNow).0 == db && ApplyReset(db, c, now, writeNow).1.Err?)
    ensures CompleteReset(c) && c.requestId !in db.operations ==> ApplyReset(db, c, now, writeNow).1.Ok?
  {
    hide Execute, ValidateReset;
    CompleteResetIff(c);
  }

  type Reply = Result<ResetOutcome, NodeError>

  /** Applied: the attempt alone is reopened, and reported as it is now. */
  ghost predicate WasReset(before: Database, after: Database, c: ResetCommand, r: Reply) {
    && r.Ok? && Replies(r.value, c) && r.value.status.OperationApplied? && Stored(before, after, c)
    && c.attemptId in before.attempts && c.attemptId in after.attempts
    && after.attempts == before.attempts[c.attemptId := after.attempts[c.attemptId]]
    && Reopened(before.attempts[c.attemptId], after.attempts[c.attemptId], c) && ReportsAttempt(r.value, after.attempts[c.attemptId])
  }

  /** Settled without touching any attempt. */
  ghost predicate WasNotReset(before: Database, after: Database, c: ResetCommand, r: Reply) {
    && r.Ok? && Replies(r.value, c) && !r.value.status.OperationApplied? && !r.value.status.OperationPending? && r.value.code != ""
    && Stored(before, after, c) && after.attempts == before.attempts
  }

  lemma ReopeningResets(db: Database, c: ResetCommand)
    requires c.attemptId in db.attempts && db.attempts[c.attemptId].id == c.attemptId && c.targetGeneration == c.expectedGeneration + 1
    requires db.attempts[c.attemptId].status == c.expectedStatus && db.attempts[c.attemptId].resetGeneration == c.expectedGeneration
    ensures var (after, o) := Reopening(db, NewOperation(c), c, db.attempts[c.attemptId]);
      WasReset(db, after, c, Ok(o)) && o.status.OperationApplied?
  {
  }

  lemma RefusingResetsNot(db: Database, c: ResetCommand, status: OperationStatus, code: string)
    requires !status.OperationApplied? && !status.OperationPending? && code != ""
    ensures var (after, o) := Settled(db, Refused(NewOperation(c), status, code));
      WasNotReset(db, after, c, Ok(o)) && o.status == status
  {
  }

  lemma ObservingResetsNot(db: Database, c: ResetCommand, a: Attempt)
    ensures var (after, o) := Settled(db, Observed(NewOperation(c), a, OperationAlreadyInProgress, "already_in_progress"));
      WasNotReset(db, after, c, Ok(o)) && o.status.OperationAlreadyInProgress?
      && (a.resetGeneration == c.expectedGeneration ==> ReportsAttempt(o, a))
  {
  }

  lemma NewIsExecuted(db: Database, c: ResetCommand, now: Time, writeNow: Time)
    requires CompleteReset(c) && c.requestId !in db.operations
    ensures var (after, o) := Execute(db, NewOperation(c), c, now, writeNow);
      ApplyReset(db, c, now, writeNow) == (after, Ok(o))
  {
    hide Named, ValidateReset, Execute, CompleteReset, NewOperation;
    CompleteResetIff(c);
  }

  /**
    A new, complete reset is applied exactly when the tables and both clocks allow it. Then its attempt is open again
    under the next generation and reported so; otherwise no attempt changes.
   */
  lemma ResetAppliedIff(db: Database, c: ResetCommand, now: Time, writeNow: Time)
    requires CompleteReset(c) && c.requestId !in db.operations
    requires c.attemptId in db.attempts ==> db.attempts[c.attemptId].id == c.attemptId
    ensures var (after, r) := ApplyReset(db, c, now, writeNow);
      && (if MayReset(db, c, now, writeNow) then WasReset(db, after, c, r) else WasNotReset(db, after, c, r))
      && (r.Ok? && r.value.status.OperationAlreadyInProgress? <==> InProgressAlready(db, c, now))
      && (InProgressAlready(db, c, now) ==> r.Ok? && ReportsAttempt(r.value, db.attempts[c.attemptId]))
  {
    hide Named, MayReset, InProgressAlready, ReportsAttempt, Decide, ApplyReset, WasReset, WasNotReset;
    hide NewOperation, Settled, Refused, Observed, Reopening;
    NewIsExecuted(db, c, now, writeNow);
    MayResetIff(db, c, now, writeNow);
    InProgressIff(db, c, now, writeNow);
    RefusalsOnly(db, c, now, writeNow);
    match Decide(db, c, now, writeNow)
    case Refuse(status, code) => RefusingResetsNot(db, c, status, code);
    case Observe =>
      InProgressFacts(db, c, now);
      ObservingResetsNot(db, c, db.attempts[c.attemptId]);
    case Reopen =>
      MeantFacts(db, c, now, writeNow);
      ReopeningResets(db, c);
  }

  lemma MeantFacts(db: Database, c: ResetCommand, now: Time, writeNow: Time)
    requires MayReset(db, c, now, writeNow)
    ensures c.attemptId in db.attempts && db.attempts[c.attemptId].status == c.expectedStatus
    ensures db.attempts[c.attemptId].resetGeneration == c.expectedGeneration
  {
  }

  lemma RefusalsOnly(db: Database, c: ResetCommand, now: Time, writeNow: Time)
    ensures match Decide(db, c, now, writeNow)
            case Refuse(status, code) =>
              !status.OperationApplied? && !status.OperationPending? && !status.OperationAlreadyInProgress? && code != ""
            case Observe => c.attemptId in db.attempts && db.attempts[c.attemptId].status.InProgress?
            case Reopen => true
  {
  }

  /** The participant's attempt of the exam with the largest number. */
  ghost predicate LatestOf(db: Database, c: ResetCommand, id: Id) {
    && id in db.attempts && db.attempts[id].participantId == c.participantId && db.attempts[id].examId == c.examId
    && forall k :: k in db.attempts && db.attempts[k].participantId == c.participantId && db.attempts[k].examId == c.examId ==>
         db.attempts[k].attemptNo <= db.attempts[id].attemptNo
  }

  /** The participant's pointer names its latest attempt of the exam, before the deadline. */
  ghost predicate MayPreview(db: Database, c: ResetCommand, now: Time) {
    && now < c.deadline && ExamReachable(db, c) && ParticipantMeant(db, c)
    && exists id :: LatestOf(db, c, id) && db.participants[c.participantId].latestAttemptId == Some(id)
  }

  /** Ready: the reply reports that attempt, and the operation table alone has changed. */
  ghost predicate WasPreviewed(before: Database, after: Database, c: ResetCommand, r: Reply) {
    && r.Ok? && Replies(r.value, c) && r.value.status.OperationApplied? && Stored(before, after, c) && after.attempts == before.attempts
    && exists id :: LatestOf(before, c, id) && ReportsAttempt(r.value, before.attempts[id])
  }

  lemma PreviewDecision(db: Database, c: ResetCommand, now: Time)
    requires c.participantId in db.participants ==> db.participants[c.participantId].id == c.participantId
    requires forall id :: id in db.attempts ==> db.attempts[id].id == id
    requires forall i, j :: LatestOf(db, c, i) && LatestOf(db, c, j) ==> i == j
    ensures match DecidePreview(db, c, now)
            case Ok(id) => MayPreview(db, c, now) && LatestOf(db, c, id)
            case Err((status, code)) => !MayPreview(db, c, now) && !status.OperationApplied? && !status.OperationPending? && code != ""
  {
    if c.participantId in db.participants {
      var latest := FindLatest(db, c.participantId, c.examId);
      forall id ensures LatestOf(db, c, id) <==> IsLatest(db, id, c.participantId, c.examId) {
      }
      assert latest.Some? ==> LatestOf(db, c, latest.value);
    }
  }

  lemma PreviewedReports(db: Database, c: ResetCommand, id: Id)
    requires LatestOf(db, c, id)
    ensures var (after, o) := Settled(db, Previewed(NewOperation(c), db.attempts[id]));
      WasPreviewed(db, after, c, Ok(o))
  {
    hide LatestOf;
  }

  lemma NewIsPreviewed(db: Database, c: ResetCommand, now: Time)
    requires CompletePreview(c) && c.requestId !in db.operations
    ensures var (after, o) := Settled(db, PreviewDone(db, NewOperation(c), c, now));
      PreviewReset(db, c, now) == (after, Ok(o))
  {
    hide Named, ValidatePreview, PreviewDone, CompletePreview, NewOperation, Settled;
    CompletePreviewIff(c);
  }

  /** A new, complete preview is ready exactly when the participant's pointer names its latest attempt, which it reports. */
  lemma PreviewReadyIff(db: Database, c: ResetCommand, now: Time)
    requires CompletePreview(c) && c.requestId !in db.operations
    requires c.participantId in db.participants ==> db.participants[c.participantId].id == c.participantId
    requires forall id :: id in db.attempts ==> db.attempts[id].id == id
    requires forall i, j :: LatestOf(db, c, i) && LatestOf(db, c, j) ==> i == j
    ensures var (after, r) := PreviewReset(db, c, now);
      if MayPreview(db, c, now) then WasPreviewed(db, after, c, r) else WasNotReset(db, after, c, r)
  {
    hide Named, MayPreview, DecidePreview, PreviewReset, WasPreviewed, WasNotReset, NewOperation, Settled, Refused, Previewed, LatestOf;
    NewIsPreviewed(db, c, now);
    PreviewDecision(db, c, now);
    match DecidePreview(db, c, now)
    case Ok(id) => PreviewedReports(db, c, id);
    case Err((status, code)) => RefusingResetsNot(db, c, status, code);
  }
}
