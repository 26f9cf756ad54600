/**
  What each atomic step of the attempt lifecycle does to the tables: the repository's guarded
  single-statement writes, and the transaction bodies of finalisation, start, reset and preview.
  A failing transaction leaves the tables as they were.
 */
module AttemptModel {
  import opened Common
  import opened Entities
  import Answers
  import Grading

  const SECONDS_PER_MINUTE := 60

  // ---- Guarded single-statement writes ----

  predicate Resettable(s: Status) {
    s.Submitted? || s.AutoSubmitted?
  }

  function PutAttempt(db: Database, id: Id, a: Attempt): Database {
    db.(attempts := db.attempts[id := a])
  }

  /** Conditional on in_progress: whoever finalises second writes nothing. */
  function UpdateAttempt(db: Database, a: Attempt): Result<Database, NodeError> {
    if a.id in db.attempts && db.attempts[a.id].status.InProgress? then
      Ok(PutAttempt(db, a.id, db.attempts[a.id].(
        deviceId := a.deviceId, status := a.status, submittedAt := a.submittedAt,
        autoSubmittedAt := a.autoSubmittedAt, score := a.score, gradingStatus := a.gradingStatus)))
    else Err(AttemptLocked)
  }

  /** The only write that reopens a finished attempt; compare-and-set on status and generation. */
  function ResetAttempt(db: Database, a: Attempt, status: Status, generation: int): Result<Database, NodeError> {
    if a.id in db.attempts && db.attempts[a.id].status == status && db.attempts[a.id].resetGeneration == generation then
      Ok(PutAttempt(db, a.id, db.attempts[a.id].(
        status := InProgress, submittedAt := None, autoSubmittedAt := None, score := None,
        gradingStatus := Pending, resetGeneration := a.resetGeneration, harvestedAt := None)))
    else Err(ResetConflict)
  }

  /** An in-progress attempt with no device, or already with this one, takes the device. */
  function BindAttemptDevice(db: Database, id: Id, device: string): Result<Database, NodeError> {
    if id !in db.attempts then Err(AttemptNotFound)
    else if db.attempts[id].status.InProgress? && (db.attempts[id].deviceId == "" || db.attempts[id].deviceId == device) then
      Ok(PutAttempt(db, id, db.attempts[id].(deviceId := device)))
    else Err(DeviceMismatch)
  }

  /** Marks the finished, unharvested attempts whose generation is the acknowledged one. */
  predicate Markable(id: Id, a: Attempt, generations: map<Id, int>) {
    && id in generations && a.resetGeneration == generations[id]
    && Resettable(a.status) && a.harvestedAt.None?
  }

  function MarkedRows(attempts: map<Id, Attempt>, generations: map<Id, int>, at: Time): map<Id, Attempt> {
    map id | id in attempts :: if Markable(id, attempts[id], generations) then attempts[id].(harvestedAt := Some(at)) else attempts[id]
  }

  function MarkHarvested(db: Database, generations: map<Id, int>, at: Time): Database {
    db.(attempts := MarkedRows(db.attempts, generations, at))
  }

  function MarkedIds(db: Database, generations: map<Id, int>): set<Id> {
    set id | id in db.attempts && Markable(id, db.attempts[id], generations)
  }

  /** The upsert of one answer row. */
  function PutAnswer(db: Database, w: Answer): Database {
    db.(answers := db.answers[w.attemptId := Answers.Upsert(db.AnswersOf(w.attemptId), w)])
  }

  // ---- Lookups ----

  ghost predicate IsActive(db: Database, id: Id, participantId: Id, examId: Id) {
    && id in db.attempts && db.attempts[id].participantId == participantId
    && db.attempts[id].examId == examId && db.attempts[id].status.InProgress?
  }

  ghost function FindActive(db: Database, participantId: Id, examId: Id): (r: Option<Id>)
    ensures r.Some? ==> IsActive(db, r.value, participantId, examId)
    ensures r.None? ==> forall id :: !IsActive(db, id, participantId, examId)
  {
    if id :| IsActive(db, id, participantId, examId) then Some(id) else None
  }

  ghost predicate IsLatest(db: Database, id: Id, participantId: Id, examId: Id) {
    && id in db.attempts && db.attempts[id].participantId == participantId && db.attempts[id].examId == examId
    && forall k :: k in db.attempts && db.attempts[k].participantId == participantId && db.attempts[k].examId == examId
         ==> db.attempts[k].attemptNo <= db.attempts[id].attemptNo
  }

  /** The first row by descending attempt number. */
  ghost function FindLatest(db: Database, participantId: Id, examId: Id): (r: Option<Id>)
    ensures r.Some? ==> IsLatest(db, r.value, participantId, examId)
    ensures r.None? ==> forall id :: !IsLatest(db, id, participantId, examId)
  {
    if id :| IsLatest(db, id, participantId, examId) then Some(id) else None
  }

  // ---- Finalisation ----

  /** The finalised form of an in-progress attempt. */
  function Finalized(a: Attempt, exam: Exam, rows: seq<Answer>, auto: bool, now: Time): Attempt {
    var (total, grading) := Answers.FinalizeStatus(rows, exam.hasManualItems);
    a.(score := Some(total), gradingStatus := grading, submittedAt := Some(now),
       status := if auto then AutoSubmitted else Submitted,
       autoSubmittedAt := if auto then Some(now) else a.autoSubmittedAt)
  }

  /** The tables and, unless it fails, the attempt with whether this call finalised it. */
  function FinalizeAttempt(db: Database, id: Id, auto: bool, now: Time): (Database, Result<(Attempt, bool),
                           NodeError>) {
    if id !in db.attempts then (db, Err(AttemptNotFound))
    else
      var a := db.attempts[id];
      if !a.status.InProgress? then (db, Ok((a, false)))
      else if a.examId !in db.exams then (db, Err(ExamNotLoaded))
      else
        var done := Finalized(a, db.exams[a.examId], db.AnswersOf(id), auto, now);
        match UpdateAttempt(db, done)
        case Ok(db') => (db', Ok((done, true)))
        case Err(e) => (db, Err(e))
  }

  // ---- Starting a sitting ----

  function DueAt(exam: Exam, now: Time): Time {
    Min(now + exam.durationMinutes * SECONDS_PER_MINUTE, exam.endsAt)
  }

  function NewAttempt(p: Participant, exam: Exam, device: string, now: Time, newId: Id): Attempt {
    Attempt(newId, p.id, p.studentId, exam.id, device, p.attemptCount + 1, InProgress, now, DueAt(exam, now),
            None, None, None, exam.maxScore, Pending, 0, None)
  }

  /** Creates the next attempt of `p`, or fails at the attempt limit or on a used key. */
  function CreateNext(db: Database, p: Participant, exam: Exam, device: string, now: Time, newId: Id)
    : Result<(Database, Attempt), NodeError>
  {
    if p.attemptCount >= exam.maxAttempts then Err(MaxAttemptsReached)
    else if newId in db.attempts then Err(DuplicateKey)
    else
      var a := NewAttempt(p, exam, device, now, newId);
      Ok((PutAttempt(db, newId, a).(participants :=
           db.participants[p.id := p.(attemptCount := p.attemptCount + 1, latestAttemptId := Some(newId))]), a))
  }

  function DeviceRefused(a: Attempt, device: string): bool {
    a.deviceId != "" && a.deviceId != device
  }

  /** Binds an unbound active attempt to the starting device. */
  function BindIfUnbound(db: Database, id: Id, device: string): Result<Database, NodeError>
    requires id in db.attempts
  {
    if db.attempts[id].deviceId == "" && device != "" then BindAttemptDevice(db, id, device) else Ok(db)
  }

  /** Starting over an active sitting: bind it, return it while it is open, or close it and create the next. */
  ghost function ResumeActive(db: Database, id: Id, locked: Participant, exam: Exam, device: string, now: Time,
                              clock: Time, newId: Id)
    : (Database, Result<Attempt, NodeError>)
    requires id in db.attempts
  {
    if DeviceRefused(db.attempts[id], device) then (db, Err(DeviceMismatch))
    else
      match BindIfUnbound(db, id, device)
      case Err(e) => (db, Err(e))
      case Ok(bound) =>
        if now <= db.attempts[id].dueAt then (bound, Ok(bound.attempts[id]))
        else CloseAndCreate(db, bound, id, locked, exam, device, now, clock, newId)
  }

  ghost function CloseAndCreate(db: Database, bound: Database, id: Id, locked: Participant, exam: Exam, device: string,
                                now: Time, clock: Time, newId: Id): (Database, Result<Attempt, NodeError>)
  {
    var (closed, r) := FinalizeAttempt(bound, id, true, clock);
    match r
    case Err(e) => (db, Err(e))
    case Ok(_) =>
      match FindActive(closed, locked.id, exam.id)
      case Some(other) => (closed, Ok(closed.attempts[other]))
      case None => Created(db, CreateNext(closed, locked, exam, device, now, newId))
  }

  /** The transaction body of starting: `now` and `exam` were read before the transaction began. */
  ghost function StartTransaction(db: Database, participantId: Id, exam: Exam, device: string, now: Time, clock: Time,
                                  newId: Id)
    : (Database, Result<Attempt, NodeError>)
  {
    if participantId !in db.participants then (db, Err(ParticipantNotFound))
    else
      var locked := db.participants[participantId];
      if locked.examId != exam.id then (db, Err(Forbidden))
      else
        match FindActive(db, locked.id, exam.id)
        case Some(id) => ResumeActive(db, id, locked, exam, device, now, clock, newId)
        case None => Created(db, CreateNext(db, locked, exam, device, now, newId))
  }

  function Created(db: Database, r: Result<(Database, Attempt), NodeError>): (Database, Result<Attempt, NodeError>) {
    match r
    case Ok((db', a)) => (db', Ok(a))
    case Err(e) => (db, Err(e))
  }

  // ---- Reset commands ----

  predicate NonBlank(s: string) {
    exists i :: 0 <= i < |s| && !Grading.IsSpace(s[i])
  }

  function ValidateReset(c: ResetCommand): Option<NodeError> {
    if !c.operation.ResetKind? then Some(ResetConflict)
    else if !(NonBlank(c.requestId) && NonBlank(c.nodeId) && NonBlank(c.deploymentId) && NonBlank(c.examId)
              && NonBlank(c.studentId) && NonBlank(c.participantId) && NonBlank(c.attemptId)) then Some(FieldRequired)
    else if c.expectedDueAt == ZERO_TIME || c.deadline == ZERO_TIME then Some(FieldRequired)
    else if c.targetGeneration != c.expectedGeneration + 1 then Some(ResetConflict)
    else if c.expectedStatus.Graded? then Some(ResetNotAllowed)
    else None
  }

  function ValidatePreview(c: ResetCommand): Option<NodeError> {
    if !c.operation.PreviewKind? then Some(ResetConflict)
    else if !(NonBlank(c.requestId) && NonBlank(c.nodeId) && NonBlank(c.deploymentId) && NonBlank(c.examId)
              && NonBlank(c.studentId) && NonBlank(c.participantId)) then Some(FieldRequired)
    else if c.deadline == ZERO_TIME then Some(FieldRequired)
    else None
  }

  function NewOperation(c: ResetCommand): ResetOperation {
    ResetOperation(c.requestId, c.operation, c, OperationPending, "", c.nodeId, c.deploymentId, c.examId, c.studentId,
                   c.participantId, c.attemptId, c.expectedGeneration, c.targetGeneration, c.expectedStatus,
                   c.expectedDueAt, c.expectedSubmittedAt, c.expectedAutoSubmittedAt, c.deadline, 0, None,
                   ZERO_TIME, ZERO_TIME, None, None)
  }

  /** The stored operation still carries the command's own fields. */
  predicate SameResetCommand(op: ResetOperation, c: ResetCommand) {
    && op.requestId == c.requestId && op.operation == c.operation && op.nodeId == c.nodeId
    && op.deploymentId == c.deploymentId && op.examId == c.examId && op.studentId == c.studentId
    && op.participantId == c.participantId && op.expectedGeneration == c.expectedGeneration
    && op.expectedStatus == c.expectedStatus && op.expectedDueAt == c.expectedDueAt
    && op.expectedSubmittedAt == c.expectedSubmittedAt && op.expectedAutoSubmittedAt == c.expectedAutoSubmittedAt
    && op.deadline == c.deadline
    && if op.operation.PreviewKind? then c.attemptId == ""
       else op.attemptId == c.attemptId && op.targetGeneration == c.targetGeneration
  }

  function OperationOutcome(op: ResetOperation): ResetOutcome {
    ResetOutcome(op.requestId, op.operation, op.status, op.code, op.nodeId, op.deploymentId, op.examId, op.studentId,
                 op.participantId, op.attemptId, op.attemptNo,
                 if op.status.OperationAlreadyInProgress? then op.expectedGeneration else op.targetGeneration,
                 op.attemptStatus, op.startedAt, op.dueAt, op.submittedAt, op.autoSubmittedAt)
  }

  /** What a reset command is decided to do. */
  datatype Verdict =
    | Refuse(status: OperationStatus, code: string)
    | Observe
    | Reopen

  /** The checks of a reset in the code's order; `now` is read first, `writeNow` just before writing. */
  function Decide(db: Database, c: ResetCommand, now: Time, writeNow: Time): Verdict {
    if now >= c.deadline then Refuse(OperationExpired, "reset_deadline_expired")
    else if c.examId !in db.exams then Refuse(OperationRejected, "exam_not_loaded")
    else
      var exam := db.exams[c.examId];
      if exam.deploymentId != c.deploymentId then Refuse(OperationRejected, "deployment_mismatch")
      else if exam.fencedAt.Some? then Refuse(OperationRejected, "deployment_fenced")
      else if now >= exam.endsAt then Refuse(OperationExpired, "exam_window_closed")
      else if c.participantId !in db.participants then Refuse(OperationRejected, "participant_not_found")
      else if c.attemptId !in db.attempts then Refuse(OperationRejected, "attempt_not_found")
      else
        var p, a := db.participants[c.participantId], db.attempts[c.attemptId];
        if !OnTarget(p, a, c) then Refuse(OperationRejected, "target_conflict")
        else if !Unchanged(a, c) then Refuse(OperationRejected, "target_changed")
        else if a.status.InProgress? then
          if c.expectedStatus.InProgress? then Observe else Refuse(OperationRejected, "target_changed")
        else if a.status != c.expectedStatus then Refuse(OperationRejected, "target_changed")
        else if now >= a.dueAt then Refuse(OperationExpired, "attempt_deadline_expired")
        else if !Resettable(a.status) then Refuse(OperationRejected, "status_not_resettable")
        else if c.targetGeneration != c.expectedGeneration + 1 then Refuse(OperationRejected, "generation_invalid")
        else if writeNow >= c.deadline then Refuse(OperationExpired, "reset_deadline_expired")
        else if writeNow >= a.dueAt then Refuse(OperationExpired, "attempt_deadline_expired")
        else if writeNow >= exam.endsAt then Refuse(OperationExpired, "exam_window_closed")
        else Reopen
  }

  /** The participant and the attempt are the command's, and the attempt is the latest one. */
  predicate OnTarget(p: Participant, a: Attempt, c: ResetCommand) {
    && p.examId == c.examId && p.deploymentId == c.deploymentId && p.studentId == c.studentId
    && a.participantId == p.id && a.examId == c.examId && a.studentId == c.studentId
    && p.latestAttemptId == Some(a.id)
  }

  /** Nothing the command compares has moved since it was prepared, status aside. */
  predicate Unchanged(a: Attempt, c: ResetCommand) {
    && a.resetGeneration == c.expectedGeneration && a.dueAt == c.expectedDueAt
    && a.submittedAt == c.expectedSubmittedAt && a.autoSubmittedAt == c.expectedAutoSubmittedAt
  }

  function Refused(op: ResetOperation, status: OperationStatus, code: string): ResetOperation {
    op.(status := status, code := code)
  }

  function Observed(op: ResetOperation, a: Attempt, status: OperationStatus, code: string): ResetOperation {
    op.(status := status, code := code, attemptId := a.id, attemptNo := a.attemptNo, attemptStatus := Some(a.status),
        targetGeneration := if status.OperationApplied? then a.resetGeneration else op.targetGeneration,
        startedAt := a.startedAt, dueAt := a.dueAt, submittedAt := a.submittedAt, autoSubmittedAt := a.autoSubmittedAt)
  }

  function PutOperation(db: Database, op: ResetOperation): Database {
    db.(operations := db.operations[op.requestId := op])
  }

  /** The reopening write and the operation it settles. */
  function Reopening(db: Database, op: ResetOperation, c: ResetCommand, found: Attempt): (Database, ResetOutcome) {
    var reopened := found.(status := InProgress, submittedAt := None, autoSubmittedAt := None, score := None,
                           gradingStatus := Pending, resetGeneration := c.targetGeneration);
    match ResetAttempt(db, reopened, c.expectedStatus, c.expectedGeneration)
    case Ok(db') => Settled(db', Observed(op, reopened, OperationApplied, "reset_applied"))
    case Err(_) => Settled(db, Refused(op, OperationRejected, "reset_conflict"))
  }

  function Settled(db: Database, done: ResetOperation): (Database, ResetOutcome) {
    (PutOperation(db, done), OperationOutcome(done))
  }

  /** Carries out the verdict on a pending operation. */
  function Execute(db: Database, op: ResetOperation, c: ResetCommand, now: Time, writeNow: Time): (Database,
                   ResetOutcome) {
    match Decide(db, c, now, writeNow)
    case Refuse(status, code) => Settled(db, Refused(op, status, code))
    case Observe => Settled(db, Observed(op, db.attempts[c.attemptId], OperationAlreadyInProgress, "already_in_progress"))
    case Reopen => Reopening(db, op, c, db.attempts[c.attemptId])
  }

  /** A stored operation answers a repeated command from its receipt, or refuses a different one. */
  datatype Lookup = Replayed(outcome: ResetOutcome) | Conflicting | Fresh(op: ResetOperation)

  function FindOperation(db: Database, c: ResetCommand): Lookup {
    if c.requestId !in db.operations then Fresh(NewOperation(c))
    else
      var op := db.operations[c.requestId];
      if op.commandHash != c || !SameResetCommand(op, c) then Conflicting
      else if !op.status.OperationPending? then Replayed(OperationOutcome(op))
      else Fresh(op)
  }

  /** The transaction body of a reset. */
  function ApplyReset(db: Database, c: ResetCommand, now: Time, writeNow: Time): (Database, Result<ResetOutcome,
                      NodeError>) {
    if ValidateReset(c).Some? then (db, Err(ValidateReset(c).value))
    else
      match FindOperation(db, c)
      case Conflicting => (db, Err(ResetConflict))
      case Replayed(o) => (db, Ok(o))
      case Fresh(op) =>
        var (db', o) := Execute(db, op, c, now, writeNow);
        (db', Ok(o))
  }

  /** The checks of a preview, or the attempt it reports. */
  ghost function DecidePreview(db: Database, c: ResetCommand, now: Time): Result<Id, (OperationStatus, string)> {
    if now >= c.deadline then Err((OperationExpired, "preview_deadline_expired"))
    else if c.examId !in db.exams then Err((OperationRejected, "exam_not_loaded"))
    else
      var exam := db.exams[c.examId];
      if exam.deploymentId != c.deploymentId then Err((OperationRejected, "deployment_mismatch"))
      else if exam.fencedAt.Some? then Err((OperationRejected, "deployment_fenced"))
      else if c.participantId !in db.participants then Err((OperationRejected, "participant_not_found"))
      else
        var p := db.participants[c.participantId];
        if p.examId != c.examId || p.deploymentId != c.deploymentId || p.studentId != c.studentId then
          Err((OperationRejected, "target_conflict"))
        else
          match FindLatest(db, p.id, c.examId)
          case None => Err((OperationRejected, "attempt_not_found"))
          case Some(id) =>
            if p.latestAttemptId != Some(db.attempts[id].id) then Err((OperationRejected, "target_conflict")) else Ok(id)
  }

  function Previewed(op: ResetOperation, a: Attempt): ResetOperation {
    op.(attemptId := a.id, attemptNo := a.attemptNo, attemptStatus := Some(a.status), targetGeneration := a.resetGeneration,
        startedAt := a.startedAt, dueAt := a.dueAt, submittedAt := a.submittedAt, autoSubmittedAt := a.autoSubmittedAt,
        status := OperationApplied, code := "preview_ready")
  }

  ghost function PreviewDone(db: Database, op: ResetOperation, c: ResetCommand, now: Time): ResetOperation {
    match DecidePreview(db, c, now)
    case Err((status, code)) => Refused(op, status, code)
    case Ok(id) => Previewed(op, db.attempts[id])
  }

  /** The transaction body of a preview: it writes the operation table only. */
  ghost function PreviewReset(db: Database, c: ResetCommand, now: Time): (Database, Result<ResetOutcome, NodeError>) {
    if ValidatePreview(c).Some? then (db, Err(ValidatePreview(c).value))
    else
      match FindOperation(db, c)
      case Conflicting => (db, Err(ResetConflict))
      case Replayed(o) => (db, Ok(o))
      case Fresh(op) =>
        var (db', o) := Settled(db, PreviewDone(db, op, c, now));
        (db', Ok(o))
  }
}
