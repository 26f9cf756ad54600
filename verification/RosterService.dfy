/** Applying one roster event, step by step inside its transaction. */
module RosterService {
  import opened Common
  import opened Entities
  import opened NodeRepository
  import Hash = ContentHash
  import M = RosterModel
  import Inv = RosterInvariant
  import Outcomes = RosterOutcomes

  type Reply = Result<RosterOutcome, NodeError>

  /** The exam's next event is applied if it is in time and fits the roster, and otherwise rejected with the reason. */
  ghost predicate Answered(before: Database, after: Database, ev: RosterEvent, now: Time, r: Reply)
    requires ev.examId in before.exams
  {
    if Outcomes.InTime(before.exams[ev.examId], ev, now) && Outcomes.Fits(before.participants, ev)
    then Outcomes.TookEffect(before, after, ev, r)
    else Outcomes.WasRejected(before, after, ev, r, Outcomes.RejectionCode(before, ev, now))
  }

  lemma NextAnswered(db: Database, ev: RosterEvent, now: Time)
    requires Inv.TablesOk(db) && Outcomes.IsNext(db, ev)
    ensures match M.DecideNext(db, db.exams[ev.examId], ev, now)
            case RejectAndAdvance(code) =>
              var receipt := M.RejectedReceipt(ev, code);
              Answered(db, M.WithReceipt(M.Advance(db, ev), receipt), ev, now, Ok(M.OutcomeOf(receipt)))
            case Admit(ps) =>
              var receipt := M.ReceiptOf(ev, EventApplied, "");
              Answered(db, M.WithReceipt(M.Admitted(db, ev, ps), receipt), ev, now, Ok(M.OutcomeOf(receipt)))
            case _ => true
  {
    hide Inv.TablesOk, M.DecideNext, Outcomes.InTime, Outcomes.Fits, Outcomes.TookEffect, Outcomes.WasRejected, Outcomes.RejectionCode,
      Outcomes.Joined;
    Outcomes.NextAppliedIff(db, ev, now);
    Outcomes.NextIsDecided(db, ev, now);
  }

  class Service {
    const repo: Repository

    constructor (repo: Repository)
      ensures this.repo == repo
    {
      this.repo := repo;
    }

    method RejectEvent(ev: RosterEvent, code: string) returns (outcome: RosterOutcome)
      modifies repo`receipts
      ensures repo.Db() == M.WithReceipt(old(repo.Db()), M.RejectedReceipt(ev, code))
      ensures outcome == M.OutcomeOf(M.RejectedReceipt(ev, code))
    {
      var receipt := M.ReceiptOf(ev, EventRejected, code);
      if ev.status.EventCancelled? {
        receipt := receipt.(status := EventCancelled);
      }
      if ev.status.EventExpired? {
        receipt := receipt.(status := EventExpired);
      }
      repo.InsertReceipt(receipt);
      outcome := M.OutcomeOf(receipt);
    }

    method RejectAndAdvance(ev: RosterEvent, code: string) returns (outcome: RosterOutcome)
      requires ev.examId in repo.exams
      modifies repo`receipts, repo`exams
      ensures repo.Db() == M.WithReceipt(M.Advance(old(repo.Db()), ev), M.RejectedReceipt(ev, code))
      ensures outcome == M.OutcomeOf(M.RejectedReceipt(ev, code))
    {
      repo.UpdateExamRosterState(ev.examId, ev.revision, repo.exams[ev.examId].contentHash);
      assert repo.Db() == M.Advance(old(repo.Db()), ev);
      outcome := RejectEvent(ev, code);
    }

    /** Recomputes the content hash from the stored rows and stores it with the new revision and the receipt. */
    method FinishApplied(ev: RosterEvent, ghost before: Database) returns (outcome: RosterOutcome)
      requires ev.examId in repo.exams && repo.exams[ev.examId].id == ev.examId
      requires Hash.KeyedItems(repo.items) && Hash.KeyedParticipants(repo.participants)
      requires repo.Db() == before.(participants := repo.participants)
      modifies repo`receipts, repo`exams
      ensures repo.Db() == M.WithReceipt(M.Admitted(before, ev, repo.participants), M.ReceiptOf(ev, EventApplied, ""))
      ensures outcome == M.OutcomeOf(M.ReceiptOf(ev, EventApplied, ""))
    {
      hide Hash.View, Hash.Listing, M.PutReceipt;
      var exam := repo.exams[ev.examId];
      var items := repo.ListItemsByExam(ev.examId);
      var participants := repo.ListParticipantsByExam(ev.examId);
      var hash := Hash.ContentHashView(items, participants, exam);
      Hash.AnyListing(exam, repo.items, repo.participants, items, participants);
      repo.UpdateExamRosterState(ev.examId, ev.revision, Some(hash));
      assert repo.Db() == M.Admitted(before, ev, repo.participants);
      var receipt := M.ReceiptOf(ev, EventApplied, "");
      repo.InsertReceipt(receipt);
      outcome := M.OutcomeOf(receipt);
    }

    /** The exam's next event: rejected with its code, or admitted. */
    method ApplyNext(ev: RosterEvent, now: Time) returns (outcome: RosterOutcome)
      requires Inv.TablesOk(repo.Db()) && ev.examId in repo.exams
      modifies repo`participants, repo`receipts, repo`exams
      ensures match M.DecideNext(old(repo.Db()), old(repo.exams)[ev.examId], ev, now)
              case RejectAndAdvance(code) =>
                repo.Db() == M.WithReceipt(M.Advance(old(repo.Db()), ev), M.RejectedReceipt(ev, code))
                && outcome == M.OutcomeOf(M.RejectedReceipt(ev, code))
              case Admit(ps) =>
                repo.Db() == M.WithReceipt(M.Admitted(old(repo.Db()), ev, ps), M.ReceiptOf(ev, EventApplied, ""))
                && outcome == M.OutcomeOf(M.ReceiptOf(ev, EventApplied, ""))
              case _ => false
      ensures Outcomes.IsNext(old(repo.Db()), ev) ==> Answered(old(repo.Db()), repo.Db(), ev, now, Ok(outcome))
    {
      hide Inv.StudentsUnique, Inv.CodesUnique, Inv.SlotsUnique, M.WithReceipt, M.Admitted, M.Advance, M.OutcomeOf, M.InsertIfAbsent,
        Answered, M.RejectedReceipt, M.ReceiptOf;
      if Outcomes.IsNext(repo.Db(), ev) { NextAnswered(repo.Db(), ev, now); }
      var exam := repo.exams[ev.examId];
      if ev.status.EventCancelled? || ev.status.EventRejected? || ev.status.EventExpired? {
        outcome := RejectAndAdvance(ev, if ev.outcomeCode == "" then M.StatusName(ev.status) else ev.outcomeCode);
        return;
      }
      if ev.status.EventPending? {
        if exam.fencedAt.Some? {
          outcome := RejectAndAdvance(ev, "roster_exam_fenced");
          return;
        }
        if now >= ev.deadline || now >= exam.endsAt {
          outcome := RejectAndAdvance(ev, "roster_expired");
          return;
        }
      }
      ghost var before := repo.Db();
      InsertedFacts(before.participants, M.NewParticipant(ev));
      var inserted := repo.InsertParticipantIfAbsent(M.NewParticipant(ev));
      if inserted.CodeConflict? {
        outcome := RejectAndAdvance(ev, "roster_code_conflict");
        return;
      }
      if inserted.Existing? && !M.SameStudent(repo.participants[inserted.id], ev) {
        outcome := RejectAndAdvance(ev, "participant_identity_conflict");
        return;
      }
      outcome := FinishApplied(ev, before);
    }

    /** One event under the exam's lock: replayed, refused, rejected in place, or the exam's next. */
    method Apply(ev: RosterEvent, now: Time) returns (r: Reply)
      requires Inv.TablesOk(repo.Db())
      modifies repo`participants, repo`receipts, repo`exams
      ensures (repo.Db(), r) == M.Apply(old(repo.Db()), ev, now)
      ensures Outcomes.IsNext(old(repo.Db()), ev) ==> Answered(old(repo.Db()), repo.Db(), ev, now, r)
    {
      hide Answered, Inv.TablesOk, M.DecideNext, M.WithReceipt, M.Admitted, M.Advance, M.OutcomeOf, M.Identity, M.ValidEvent;
      Outcomes.WellFormedIff(ev);
      if !M.ValidEvent(ev) {
        return Err(RosterInvalid);
      }
      if ev.examId !in repo.exams {
        return Err(ExamNotLoaded);
      }
      if ev.eventId in repo.receipts {
        if repo.receipts[ev.eventId].payloadHash != M.Identity(ev) {
          return Err(RosterPayloadConflict);
        }
        return Ok(M.OutcomeOf(repo.receipts[ev.eventId]));
      }
      if ev.deploymentId != repo.exams[ev.examId].deploymentId {
        var outcome := RejectEvent(ev, "roster_deployment_mismatch");
        return Ok(outcome);
      }
      if ev.revision != repo.exams[ev.examId].rosterRevision + 1 {
        return Err(RosterRevisionGap);
      }
      var outcome := ApplyNext(ev, now);
      r := Ok(outcome);
    }
  }

  /** What an insertion reports, and the keys it keeps. */
  lemma InsertedFacts(ps: M.Participants, p: Participant)
    requires Hash.KeyedParticipants(ps)
    ensures Hash.KeyedParticipants(ps[p.id := p])
    ensures M.InsertIfAbsent(ps, p).Existing? ==> M.InsertIfAbsent(ps, p).id in ps
  {
  }
}
