/** What becomes of a roster event, told from its fields and the tables alone. */
module RosterOutcomes {
  import opened Common
  import opened Entities
  import opened RosterModel
  import opened RosterInvariant
  import Hash = ContentHash

  /** Every field that must be is filled in, revisions count from one, and the status is known. */
  predicate WellFormed(ev: RosterEvent) {
    && ev.eventId != "" && ev.deploymentId != "" && ev.examId != "" && ev.participantId != "" && ev.studentId != ""
    && ev.accessCode != "" && ev.revision >= 1 && ev.deadline != ZERO_TIME && !ev.status.EventUnknown?
  }

  /** The receipt was made for this very event, its status aside. */
  predicate MadeFor(r: Receipt, ev: RosterEvent) {
    var was := r.payloadHash;
    && was.eventId == ev.eventId && was.deploymentId == ev.deploymentId && was.examId == ev.examId
    && was.participantId == ev.participantId && was.studentId == ev.studentId && was.studentName == ev.studentName
    && was.accessCode == ev.accessCode && was.revision == ev.revision && was.deadline == ev.deadline && was.createdAt == ev.createdAt
  }

  /** The next event of the exam's own deployment, not seen before. */
  predicate IsNext(db: Database, ev: RosterEvent) {
    && WellFormed(ev) && ev.examId in db.exams && ev.eventId !in db.receipts
    && ev.deploymentId == db.exams[ev.examId].deploymentId && ev.revision == db.exams[ev.examId].rosterRevision + 1
  }

  /** Already applied elsewhere, or pending while the exam is unfenced and neither deadline has come. */
  predicate InTime(exam: Exam, ev: RosterEvent, now: Time) {
    || ev.status.EventApplied?
    || (ev.status.EventPending? && exam.fencedAt.None? && now < ev.deadline && now < exam.endsAt)
  }

  /** The row is the event's student in the event's exam. */
  predicate IsTheStudent(ps: Participants, ev: RosterEvent, k: Id) {
    k in ps && ps[k].examId == ev.examId && ps[k].studentId == ev.studentId
  }

  ghost predicate StudentStored(ps: Participants, ev: RosterEvent) {
    exists k :: IsTheStudent(ps, ev, k)
  }

  /** The stored student is the event's field by field, or no row has that student, identifier or code. */
  ghost predicate Fits(ps: Participants, ev: RosterEvent) {
    || (exists k :: IsTheStudent(ps, ev, k) && ps[k].id == ev.participantId && ps[k].accessCode == ev.accessCode
                    && ps[k].studentName == ev.studentName)
    || (!StudentStored(ps, ev) && ev.participantId !in ps && forall k :: k in ps ==> ps[k].accessCode != ev.accessCode)
  }

  /** Why an event that does not take effect is rejected: the first of the failing conditions. */
  ghost function RejectionCode(db: Database, ev: RosterEvent, now: Time): string
    requires ev.examId in db.exams
  {
    if !ev.status.EventPending? && !ev.status.EventApplied? then
      if ev.outcomeCode != "" then ev.outcomeCode
      else if ev.status.EventCancelled? then "cancelled" else if ev.status.EventExpired? then "expired" else "rejected"
    else if ev.status.EventPending? && db.exams[ev.examId].fencedAt.Some? then "roster_exam_fenced"
    else if !InTime(db.exams[ev.examId], ev, now) then "roster_expired"
    else if StudentStored(db.participants, ev) then "participant_identity_conflict"
    else "roster_code_conflict"
  }

  /** Nobody else's row changes, and the student's is added unless stored. */
  ghost predicate Joined(before: Participants, after: Participants, ev: RosterEvent) {
    if StudentStored(before, ev) then after == before
    else
      && after.Keys == before.Keys + {ev.participantId} && (forall k :: k in before && k != ev.participantId ==> after[k] == before[k])
      && var p := after[ev.participantId];
         && p.id == ev.participantId && p.examId == ev.examId && p.studentId == ev.studentId && p.studentName == ev.studentName
         && p.accessCode == ev.accessCode && p.rosterRevision == ev.revision && p.attemptCount == 0 && p.latestAttemptId.None?
  }

  /** Central is told the event's own identity, and the receipt, if its slot is free, records the same. */
  ghost predicate Answers(before: Receipts, after: Receipts, ev: RosterEvent, o: RosterOutcome, applied: bool, code: string) {
    && o.eventId == ev.eventId && o.deploymentId == ev.deploymentId && o.revision == ev.revision && o.code == code
    && o.status == (if applied then EventApplied else EventRejected)
    && if ev.eventId in before || SlotTaken(before, ev.deploymentId, ev.revision) then after == before
       else
         && after.Keys == before.Keys + {ev.eventId} && (forall k :: k in before ==> after[k] == before[k])
         && var r := after[ev.eventId];
            && MadeFor(r, ev) && r.eventId == ev.eventId && r.deploymentId == ev.deploymentId && r.examId == ev.examId
            && r.revision == ev.revision && r.participantId == ev.participantId && r.outcomeCode == code
            && r.status == if applied then EventApplied
                           else if ev.status.EventCancelled? || ev.status.EventExpired? then ev.status else EventRejected
  }

  /** The exam's revision moves to the event's, its hash to the stored rows' if anything was applied, and nothing else. */
  ghost predicate Advanced(before: Database, after: Database, ev: RosterEvent, applied: bool)
    requires ev.examId in before.exams
  {
    && after.items == before.items && after.attempts == before.attempts && after.answers == before.answers
    && after.operations == before.operations && after.events == before.events && after.exams.Keys == before.exams.Keys
    && (forall e :: e in before.exams && e != ev.examId ==> after.exams[e] == before.exams[e])
    && var (exam, now) := (before.exams[ev.examId], after.exams[ev.examId]);
       && now == exam.(rosterRevision := ev.revision, contentHash := now.contentHash)
       && now.contentHash == if applied then Some(Hash.StoredView(exam, after.items, after.participants)) else exam.contentHash
  }

  lemma WellFormedIff(ev: RosterEvent)
    ensures WellFormed(ev) <==> ValidEvent(ev)
  {
  }

  lemma MadeForIff(r: Receipt, ev: RosterEvent)
    ensures MadeFor(r, ev) <==> r.payloadHash == Identity(ev)
  {
  }

  lemma StudentFound(ps: Participants, ev: RosterEvent)
    requires StudentsUnique(ps)
    ensures FindStudent(ps, ev.examId, ev.studentId).Some? <==> StudentStored(ps, ev)
    ensures forall k :: IsTheStudent(ps, ev, k) ==> FindStudent(ps, ev.examId, ev.studentId) == Some(k)
  {
    var found := FindStudent(ps, ev.examId, ev.studentId);
    forall k | IsTheStudent(ps, ev, k) ensures found == Some(k) {
      assert IsStudent(ps, ev.examId, ev.studentId, k);
    }
    if found.Some? {
      assert IsTheStudent(ps, ev, found.value);
    }
  }

  /** The decision on the exam's next event. */
  lemma NextDecision(db: Database, ev: RosterEvent, now: Time)
    requires TablesOk(db) && IsNext(db, ev)
    ensures var exam := db.exams[ev.examId];
      match DecideNext(db, exam, ev, now)
      case Admit(ps) => InTime(exam, ev, now) && Fits(db.participants, ev) && Joined(db.participants, ps, ev)
      case RejectAndAdvance(code) => !(InTime(exam, ev, now) && Fits(db.participants, ev)) && code == RejectionCode(db, ev, now)
      case _ => false
  {
    hide SlotsUnique, CodesUnique;
    StudentFound(db.participants, ev);
    var ps, found := db.participants, FindStudent(db.participants, ev.examId, ev.studentId);
    if InTime(db.exams[ev.examId], ev, now) {
      if found.Some? {
        assert Fits(ps, ev) <==> SameStudent(ps[found.value], ev) by {
          assert IsTheStudent(ps, ev, found.value);
        }
      } else {
        assert KeyTaken(ps, NewParticipant(ev)) <==> !Fits(ps, ev);
      }
    }
  }

  lemma NextIsDecided(db: Database, ev: RosterEvent, now: Time)
    requires IsNext(db, ev)
    ensures match DecideNext(db, db.exams[ev.examId], ev, now)
            case Admit(ps) =>
              var r := ReceiptOf(ev, EventApplied, "");
              Apply(db, ev, now) == (WithReceipt(Admitted(db, ev, ps), r), Ok(OutcomeOf(r)))
            case RejectAndAdvance(code) =>
              var r := RejectedReceipt(ev, code);
              Apply(db, ev, now) == (WithReceipt(Advance(db, ev), r), Ok(OutcomeOf(r)))
            case _ => true
  {
    hide DecideNext, WithReceipt, Admitted, Advance, OutcomeOf, ReceiptOf, RejectedReceipt;
    WellFormedIff(ev);
  }

  lemma AppliedAnswers(before: Receipts, ev: RosterEvent)
    ensures var r := ReceiptOf(ev, EventApplied, "");
      Answers(before, PutReceipt(before, r), ev, OutcomeOf(r), true, "")
  {
    hide SlotTaken;
  }

  lemma RejectedAnswers(before: Receipts, ev: RosterEvent, code: string)
    ensures Answers(before, PutReceipt(before, RejectedReceipt(ev, code)), ev, OutcomeOf(RejectedReceipt(ev, code)), false, code)
  {
    hide SlotTaken;
  }

  lemma AdmitAdvances(db: Database, ev: RosterEvent, ps: Participants, r: Receipt)
    requires ev.examId in db.exams
    ensures var after := WithReceipt(Admitted(db, ev, ps), r);
      Advanced(db, after, ev, true) && after.participants == ps && after.receipts == PutReceipt(db.receipts, r)
  {
    hide Hash.StoredView, PutReceipt;
  }

  lemma RejectAdvances(db: Database, ev: RosterEvent, r: Receipt)
    requires ev.examId in db.exams
    ensures var after := WithReceipt(Advance(db, ev), r);
      Advanced(db, after, ev, false) && after.participants == db.participants && after.receipts == PutReceipt(db.receipts, r)
  {
    hide Hash.StoredView, PutReceipt;
  }

  type Reply = Result<RosterOutcome, NodeError>

  /** The event was applied: its student is on the roster, and the reply, the receipt and the exam say so. */
  ghost predicate TookEffect(before: Database, after: Database, ev: RosterEvent, r: Reply)
    requires ev.examId in before.exams
  {
    && r.Ok? && Answers(before.receipts, after.receipts, ev, r.value, true, "") && Advanced(before, after, ev, true)
    && Joined(before.participants, after.participants, ev)
  }

  /** The event was rejected with this code: the roster is as it was, and the exam has moved past the event. */
  ghost predicate WasRejected(before: Database, after: Database, ev: RosterEvent, r: Reply, code: string)
    requires ev.examId in before.exams
  {
    && r.Ok? && Answers(before.receipts, after.receipts, ev, r.value, false, code) && Advanced(before, after, ev, false)
    && after.participants == before.participants
  }

  lemma AdmitTakesEffect(db: Database, ev: RosterEvent, ps: Participants)
    requires ev.examId in db.exams && Joined(db.participants, ps, ev)
    ensures var r := ReceiptOf(ev, EventApplied, "");
      TookEffect(db, WithReceipt(Admitted(db, ev, ps), r), ev, Ok(OutcomeOf(r)))
  {
    hide Answers, Advanced, Joined, WithReceipt, Admitted, ReceiptOf, OutcomeOf, PutReceipt;
    AppliedAnswers(db.receipts, ev);
    AdmitAdvances(db, ev, ps, ReceiptOf(ev, EventApplied, ""));
  }

  lemma RejectIsRejected(db: Database, ev: RosterEvent, code: string)
    requires ev.examId in db.exams
    ensures var r := RejectedReceipt(ev, code);
      WasRejected(db, WithReceipt(Advance(db, ev), r), ev, Ok(OutcomeOf(r)), code)
  {
    hide Answers, Advanced, WithReceipt, Advance, RejectedReceipt, OutcomeOf, PutReceipt;
    RejectedAnswers(db.receipts, ev, code);
    RejectAdvances(db, ev, RejectedReceipt(ev, code));
  }

  /**
    The exam's own next event is applied exactly when it is in time and fits the roster; otherwise it is rejected with
    the first failing condition's code. Either way the revision advances and the receipt records the answer.
   */
  lemma NextAppliedIff(db: Database, ev: RosterEvent, now: Time)
    requires TablesOk(db) && IsNext(db, ev)
    ensures var (after, r) := Apply(db, ev, now);
      if InTime(db.exams[ev.examId], ev, now) && Fits(db.participants, ev) then TookEffect(db, after, ev, r)
      else WasRejected(db, after, ev, r, RejectionCode(db, ev, now))
  {
    assert ev.examId in db.exams;
    hide *;
    NextIsDecided(db, ev, now);
    NextDecision(db, ev, now);
    match DecideNext(db, db.exams[ev.examId], ev, now)
    case Admit(ps) => AdmitTakesEffect(db, ev, ps);
    case RejectAndAdvance(code) => RejectIsRejected(db, ev, code);
    case _ =>
  }

  /** Any other event: refused, answered from its receipt, or rejected without moving the exam. */
  lemma OtherReply(db: Database, ev: RosterEvent, now: Time)
    requires !IsNext(db, ev)
    ensures var (after, r) := Apply(db, ev, now);
      if !WellFormed(ev) then after == db && r == Err(RosterInvalid)
      else if ev.examId !in db.exams then after == db && r == Err(ExamNotLoaded)
      else if ev.eventId in db.receipts then
        var was := db.receipts[ev.eventId];
        && after == db
        && if MadeFor(was, ev) then
             && r.Ok? && r.value.eventId == was.eventId && r.value.deploymentId == was.deploymentId && r.value.revision == was.revision
             && r.value.code == was.outcomeCode && r.value.status == if was.status.EventApplied? then EventApplied else EventRejected
           else r == Err(RosterPayloadConflict)
      else if ev.deploymentId != db.exams[ev.examId].deploymentId then
        && after == db.(receipts := after.receipts)
        && r.Ok? && Answers(db.receipts, after.receipts, ev, r.value, false, "roster_deployment_mismatch")
      else after == db && r == Err(RosterRevisionGap)
  {
    hide DecideNext, SlotTaken;
    WellFormedIff(ev);
    if ev.eventId in db.receipts {
      MadeForIff(db.receipts[ev.eventId], ev);
    }
  }
}
