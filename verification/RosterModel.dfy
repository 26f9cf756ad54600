/**
  One roster event's transaction: replay from its receipt, refuse it, reject it with or without
  advancing the exam's revision, or admit the participant and advance. A failing transaction leaves
  the tables as they were.
 */
module RosterModel {
  import opened Common
  import opened Entities
  import opened ContentHash

  type Receipts = map<Id, Receipt>
  type Participants = map<Id, Participant>

  /** The payload fields the receipt's hash covers: everything but the status and its code. */
  function Identity(ev: RosterEvent): EventIdentity {
    EventIdentity(ev.eventId, ev.deploymentId, ev.examId, ev.participantId, ev.studentId, ev.studentName, ev.accessCode,
                  ev.revision, ev.deadline, ev.createdAt)
  }

  predicate ValidEvent(ev: RosterEvent) {
    && ev.eventId != "" && ev.deploymentId != "" && ev.examId != "" && ev.participantId != "" && ev.studentId != ""
    && ev.accessCode != "" && ev.revision >= 1 && ev.deadline != ZERO_TIME && !ev.status.EventUnknown?
  }

  // ---- Statements ----

  ghost predicate IsStudent(ps: Participants, e: Id, studentId: Id, k: Id) {
    k in ps && ps[k].examId == e && ps[k].studentId == studentId
  }

  ghost function FindStudent(ps: Participants, e: Id, studentId: Id): (r: Option<Id>)
    ensures r.Some? ==> IsStudent(ps, e, studentId, r.value)
    ensures r.None? ==> forall k :: !IsStudent(ps, e, studentId, k)
  {
    if k :| IsStudent(ps, e, studentId, k) then Some(k) else None
  }

  /** The unique keys of the participant table: its primary key and the access code. */
  predicate KeyTaken(ps: Participants, p: Participant) {
    p.id in ps || exists k :: k in ps && ps[k].accessCode == p.accessCode
  }

  datatype Insertion = Existing(id: Id) | Inserted | CodeConflict

  /** A student already on the roster is returned; otherwise the row goes in unless a unique key is taken. */
  ghost function InsertIfAbsent(ps: Participants, p: Participant): Insertion {
    match FindStudent(ps, p.examId, p.studentId)
    case Some(k) => Existing(k)
    case None => if KeyTaken(ps, p) then CodeConflict else Inserted
  }

  predicate AtSlot(receipts: Receipts, deploymentId: Id, revision: int, k: Id) {
    k in receipts && receipts[k].deploymentId == deploymentId && receipts[k].revision == revision
  }

  predicate SlotTaken(receipts: Receipts, deploymentId: Id, revision: int) {
    exists k :: k in receipts && AtSlot(receipts, deploymentId, revision, k)
  }

  /** Inserting a receipt does nothing when its event or its deployment's revision has one. */
  function PutReceipt(receipts: Receipts, r: Receipt): Receipts {
    if r.eventId in receipts || SlotTaken(receipts, r.deploymentId, r.revision) then receipts else receipts[r.eventId := r]
  }

  // ---- The transaction ----

  function NewParticipant(ev: RosterEvent): Participant {
    Participant(ev.participantId, ev.examId, "", ev.studentId, ev.studentName, ev.accessCode, ev.revision, 0, None)
  }

  function ReceiptOf(ev: RosterEvent, status: EventStatus, code: string): Receipt {
    Receipt(ev.eventId, ev.deploymentId, ev.examId, ev.revision, ev.participantId, Identity(ev), status, code)
  }

  function RejectedReceipt(ev: RosterEvent, code: string): Receipt {
    ReceiptOf(ev, if ev.status.EventCancelled? || ev.status.EventExpired? then ev.status else EventRejected, code)
  }

  /** What Central is told: applied, or rejected with a code. */
  function OutcomeOf(r: Receipt): RosterOutcome {
    RosterOutcome(r.eventId, r.deploymentId, r.revision, if r.status.EventApplied? then EventApplied else EventRejected, r.outcomeCode)
  }

  function StatusName(s: EventStatus): string {
    match s
    case EventPending => "pending"
    case EventApplied => "applied"
    case EventRejected => "rejected"
    case EventExpired => "expired"
    case EventCancelled => "cancelled"
    case EventUnknown(name) => name
  }

  /** The stored student is the event's, field by field. */
  predicate SameStudent(p: Participant, ev: RosterEvent) {
    p.id == ev.participantId && p.studentId == ev.studentId && p.accessCode == ev.accessCode && p.studentName == ev.studentName
  }

  datatype Decision =
    | Refuse(error: NodeError)
    | Replay(outcome: RosterOutcome)
    | RejectOnly(code: string)
    | RejectAndAdvance(code: string)
    | Admit(participants: Participants)

  /** The checks in the code's order. */
  ghost function Decide(db: Database, ev: RosterEvent, now: Time): Decision {
    if !ValidEvent(ev) then Refuse(RosterInvalid)
    else if ev.examId !in db.exams then Refuse(ExamNotLoaded)
    else if ev.eventId in db.receipts then
      if db.receipts[ev.eventId].payloadHash != Identity(ev) then Refuse(RosterPayloadConflict)
      else Replay(OutcomeOf(db.receipts[ev.eventId]))
    else
      var exam := db.exams[ev.examId];
      if ev.deploymentId != exam.deploymentId then RejectOnly("roster_deployment_mismatch")
      else if ev.revision != exam.rosterRevision + 1 then Refuse(RosterRevisionGap)
      else DecideNext(db, exam, ev, now)
  }

  /** The next event of the exam's own deployment. */
  ghost function DecideNext(db: Database, exam: Exam, ev: RosterEvent, now: Time): Decision {
    if ev.status.EventCancelled? || ev.status.EventRejected? || ev.status.EventExpired? then
      RejectAndAdvance(if ev.outcomeCode == "" then StatusName(ev.status) else ev.outcomeCode)
    else if ev.status.EventPending? && exam.fencedAt.Some? then RejectAndAdvance("roster_exam_fenced")
    else if ev.status.EventPending? && (now >= ev.deadline || now >= exam.endsAt) then RejectAndAdvance("roster_expired")
    else
      match InsertIfAbsent(db.participants, NewParticipant(ev))
      case CodeConflict => RejectAndAdvance("roster_code_conflict")
      case Existing(k) =>
        if SameStudent(db.participants[k], ev) then Admit(db.participants) else RejectAndAdvance("participant_identity_conflict")
      case Inserted => Admit(db.participants[ev.participantId := NewParticipant(ev)])
  }

  function Advance(db: Database, ev: RosterEvent): Database
    requires ev.examId in db.exams
  {
    db.(exams := db.exams[ev.examId := db.exams[ev.examId].(rosterRevision := ev.revision)])
  }

  function WithReceipt(db: Database, r: Receipt): Database {
    db.(receipts := PutReceipt(db.receipts, r))
  }

  /** Stores the roster, then the recomputed content hash with the new revision. */
  ghost function Admitted(db: Database, ev: RosterEvent, participants: Participants): Database
    requires ev.examId in db.exams
  {
    var exam := db.exams[ev.examId];
    db.(participants := participants,
        exams := db.exams[ev.examId := exam.(rosterRevision := ev.revision,
                                             contentHash := Some(StoredView(exam, db.items, participants)))])
  }

  ghost function Apply(db: Database, ev: RosterEvent, now: Time): (Database, Result<RosterOutcome, NodeError>) {
    match Decide(db, ev, now)
    case Refuse(error) => (db, Err(error))
    case Replay(outcome) => (db, Ok(outcome))
    case RejectOnly(code) => (WithReceipt(db, RejectedReceipt(ev, code)), Ok(OutcomeOf(RejectedReceipt(ev, code))))
    case RejectAndAdvance(code) =>
      (WithReceipt(Advance(db, ev), RejectedReceipt(ev, code)), Ok(OutcomeOf(RejectedReceipt(ev, code))))
    case Admit(participants) =>
      (WithReceipt(Admitted(db, ev, participants), ReceiptOf(ev, EventApplied, "")), Ok(OutcomeOf(ReceiptOf(ev, EventApplied, ""))))
  }
}
