/**
  The node's records and the tables that hold them. A table is a map from primary key to row;
  the answer and integrity-event tables keep each attempt's rows in insertion order.
  Points are whole hundredths.
 */
module Entities {
  import opened Common

  datatype NodeError =
    | Forbidden | ExamNotLoaded | ExamContentNotReady | ExamNotOpen | MaxAttemptsReached
    | AttemptNotFound | AttemptExpired | AttemptLocked | DeviceMismatch | DeviceIdInvalid
    | StaleAnswerWrite | ItemNotFound | ParticipantNotFound | DuplicateKey
    | ResetConflict | ResetNotAllowed | FieldRequired
    | IntegrityFlood | BundleChecksum | BundleFileUpload | BundleRosterImmutable | PreflightFailed
    | RosterPayloadConflict | RosterRevisionGap | RosterCodeConflict | RosterInvalid | Unavailable

  /**
    A decoded JSON value, or one of the two typed containers Go code may hold instead. Numbers,
    booleans and containers carry the text the formatter prints for them.
   */
  datatype Json =
    | Null
    | Text(text: string)
    | Scalar(printed: string)
    | List(elems: seq<Json>, printed: string)
    | Strings(texts: seq<string>, printed: string)
    | Object(fields: map<string, Json>, printed: string)

  type Fields = map<string, Json>

  datatype QuestionType =
    | SingleChoice | MultipleChoice | TrueFalse | ShortAnswer | Essay | Matching | Ordering
    | FileUpload | Other(name: string)

  datatype Rubric = Rubric(id: Id, title: string, maxPoints: int, sortOrder: int)

  datatype Item = Item(
    id: Id, examId: Id, sectionId: Id, sectionTitle: string, sectionSortOrder: int, sortOrder: int,
    questionType: QuestionType, prompt: string, options: seq<Fields>, answerKey: Fields,
    rubric: seq<Rubric>, points: int, requiresManualGrading: bool)

  /** Exam settings that no rule modelled here reads, but that the content hash covers. */
  datatype Presentation = Presentation(
    title: string, instruction: Option<string>, shuffleQuestions: bool, shuffleOptions: bool,
    showResultImmediately: bool, passingScore: Option<int>, resultSelectionPolicy: string)

  datatype Exam = Exam(
    id: Id, deploymentId: Id, presentation: Presentation, startsAt: Time, endsAt: Time,
    durationMinutes: int, maxAttempts: int, maxScore: int, hasManualItems: bool,
    accessCodePrefix: string, bundleChecksum: string, contentHash: Option<HashView>,
    rosterRevision: int, fencedAt: Option<Time>)

  datatype Participant = Participant(
    id: Id, examId: Id, deploymentId: Id, studentId: Id, studentName: string, accessCode: string,
    rosterRevision: int, attemptCount: int, latestAttemptId: Option<Id>)

  datatype Status = InProgress | Submitted | AutoSubmitted | Graded

  datatype GradingStatus = Pending | AutoGraded | ManualRequired

  datatype Attempt = Attempt(
    id: Id, participantId: Id, studentId: Id, examId: Id, deviceId: string, attemptNo: int,
    status: Status, startedAt: Time, dueAt: Time,
    submittedAt: Option<Time>, autoSubmittedAt: Option<Time>,
    score: Option<int>, maxScore: int, gradingStatus: GradingStatus,
    resetGeneration: int, harvestedAt: Option<Time>)
  {
    predicate Finished() { status != InProgress }
  }

  datatype Answer = Answer(
    id: Id, attemptId: Id, itemId: Id, json: Fields, text: Option<string>, score: Option<int>,
    maxScore: int, gradingStatus: GradingStatus, lastSavedAt: Time, clientSeq: int)

  datatype IntegrityEvent = IntegrityEvent(
    id: Id, attemptId: Id, studentId: Id, eventType: string, createdAt: Time)

  // ---- Attempt reset commands and their durable receipts ----

  datatype ResetKind = PreviewKind | ResetKind

  datatype ResetCommand = ResetCommand(
    requestId: Id, operation: ResetKind, nodeId: Id, deploymentId: Id, examId: Id, studentId: Id,
    participantId: Id, attemptId: Id, expectedGeneration: int, expectedStatus: Status,
    expectedDueAt: Time, expectedSubmittedAt: Option<Time>, expectedAutoSubmittedAt: Option<Time>,
    targetGeneration: int, deadline: Time)

  datatype OperationStatus =
    | OperationPending | OperationApplied | OperationRejected | OperationExpired
    | OperationAlreadyInProgress

  /** `commandHash` stands for the digest of the stored command: it is that command. */
  datatype ResetOperation = ResetOperation(
    requestId: Id, operation: ResetKind, commandHash: ResetCommand, status: OperationStatus,
    code: string, nodeId: Id, deploymentId: Id, examId: Id, studentId: Id, participantId: Id,
    attemptId: Id, expectedGeneration: int, targetGeneration: int, expectedStatus: Status,
    expectedDueAt: Time, expectedSubmittedAt: Option<Time>, expectedAutoSubmittedAt: Option<Time>,
    deadline: Time, attemptNo: int, attemptStatus: Option<Status>, startedAt: Time, dueAt: Time,
    submittedAt: Option<Time>, autoSubmittedAt: Option<Time>)

  datatype ResetOutcome = ResetOutcome(
    requestId: Id, operation: ResetKind, status: OperationStatus, code: string, nodeId: Id,
    deploymentId: Id, examId: Id, studentId: Id, participantId: Id, attemptId: Id, attemptNo: int,
    resetGeneration: int, attemptStatus: Option<Status>, startedAt: Time, dueAt: Time,
    submittedAt: Option<Time>, autoSubmittedAt: Option<Time>)

  // ---- Harvest payloads ----

  datatype AnswerPayload = AnswerPayload(
    id: Id, itemId: Id, json: Fields, text: Option<string>, score: Option<int>,
    gradingStatus: GradingStatus, lastSavedAt: Time)

  datatype AttemptPayload = AttemptPayload(
    id: Id, participantId: Id, studentId: Id, attemptNo: int, status: Status, resetGeneration: int,
    startedAt: Time, dueAt: Time, submittedAt: Option<Time>, autoSubmittedAt: Option<Time>,
    answers: seq<AnswerPayload>)

  // ---- Roster events and receipts ----

  datatype EventStatus =
    | EventPending | EventApplied | EventRejected | EventExpired | EventCancelled
    | EventUnknown(name: string)

  datatype RosterEvent = RosterEvent(
    eventId: Id, deploymentId: Id, examId: Id, participantId: Id, studentId: Id,
    studentName: string, accessCode: string, revision: int, deadline: Time, createdAt: Time,
    status: EventStatus, outcomeCode: string)

  /** The fields of a roster event its payload hash covers; the hash is this value. */
  datatype EventIdentity = EventIdentity(
    eventId: Id, deploymentId: Id, examId: Id, participantId: Id, studentId: Id,
    studentName: string, accessCode: string, revision: int, deadline: Time, createdAt: Time)

  datatype Receipt = Receipt(
    eventId: Id, deploymentId: Id, examId: Id, revision: int, participantId: Id,
    payloadHash: EventIdentity, status: EventStatus, outcomeCode: string)

  datatype RosterOutcome = RosterOutcome(
    eventId: Id, deploymentId: Id, revision: int, status: EventStatus, code: string)

  // ---- The canonical content view the content hash is taken of; the hash is this value ----

  datatype ExamRow = ExamRow(
    id: Id, deploymentId: Id, presentation: Presentation, startsAt: Time, endsAt: Time,
    durationMinutes: int, maxAttempts: int, maxScore: int, hasManualItems: bool,
    accessCodePrefix: string)

  datatype ParticipantRow = ParticipantRow(id: Id, examId: Id, studentId: Id, accessCode: string)

  datatype HashView = HashView(
    exam: ExamRow, items: seq<Item>, participants: seq<ParticipantRow>)

  // ---- All tables ----

  datatype Database = Database(
    exams: map<Id, Exam>, items: map<Id, Item>, participants: map<Id, Participant>,
    attempts: map<Id, Attempt>, answers: map<Id, seq<Answer>>,
    operations: map<Id, ResetOperation>, receipts: map<Id, Receipt>,
    events: map<Id, seq<IntegrityEvent>>)
  {
    function AnswersOf(attemptId: Id): seq<Answer> {
      if attemptId in answers then answers[attemptId] else []
    }

    function EventsOf(attemptId: Id): seq<IntegrityEvent> {
      if attemptId in events then events[attemptId] else []
    }
  }
}
