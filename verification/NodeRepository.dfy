/**
  The repository as the services see it: tables that single guarded statements rewrite in place.
  Each method is one statement and says exactly which tables it leaves.
 */
module NodeRepository {
  import opened Common
  import opened Entities
  import M = AttemptModel
  import Inv = SittingInvariant
  import Answers
  import Hash = ContentHash
  import Roster = RosterModel
  import RosterInv = RosterInvariant
  import Bundle = BundleModel

  /** A statement either left these tables, or failed with this error and left the old ones. */
  predicate Wrote(r: Result<Database, NodeError>, before: Database, after: Database, err: Option<NodeError>) {
    match r
    case Ok(db) => after == db && err.None?
    case Err(e) => after == before && err == Some(e)
  }

  class Repository {
    var exams: map<Id, Exam>
    var items: map<Id, Item>
    var participants: map<Id, Participant>
    var attempts: map<Id, Attempt>
    var answers: map<Id, seq<Answer>>
    var operations: map<Id, ResetOperation>
    var receipts: map<Id, Receipt>
    var events: map<Id, seq<IntegrityEvent>>

    function Db(): Database
      reads this
    {
      Database(exams, items, participants, attempts, answers, operations, receipts, events)
    }

    constructor (db: Database)
      ensures Db() == db
    {
      exams, items, participants, attempts := db.exams, db.items, db.participants, db.attempts;
      answers, operations, receipts, events := db.answers, db.operations, db.receipts, db.events;
    }

    /** Rolls a failed transaction back to where it began. */
    method Restore(db: Database)
      modifies this
      ensures Db() == db
    {
      exams, items, participants, attempts := db.exams, db.items, db.participants, db.attempts;
      answers, operations, receipts, events := db.answers, db.operations, db.receipts, db.events;
    }

    /** Conditional on in_progress: whoever finalises second writes nothing. */
    method UpdateAttempt(a: Attempt) returns (err: Option<NodeError>)
      modifies this`attempts
      ensures Wrote(M.UpdateAttempt(old(Db()), a), old(Db()), Db(), err)
    {
      if a.id !in attempts || !attempts[a.id].status.InProgress? {
        return Some(AttemptLocked);
      }
      attempts := attempts[a.id := attempts[a.id].(
        deviceId := a.deviceId, status := a.status, submittedAt := a.submittedAt,
        autoSubmittedAt := a.autoSubmittedAt, score := a.score, gradingStatus := a.gradingStatus)];
      err := None;
    }

    /** The only write that reopens a finished attempt, guarded by its status and generation. */
    method ResetAttempt(a: Attempt, status: Status, generation: int) returns (err: Option<NodeError>)
      modifies this`attempts
      ensures Wrote(M.ResetAttempt(old(Db()), a, status, generation), old(Db()), Db(), err)
    {
      if a.id !in attempts || attempts[a.id].status != status || attempts[a.id].resetGeneration != generation {
        return Some(ResetConflict);
      }
      attempts := attempts[a.id := attempts[a.id].(
        status := InProgress, submittedAt := None, autoSubmittedAt := None, score := None,
        gradingStatus := Pending, resetGeneration := a.resetGeneration, harvestedAt := None)];
      err := None;
    }

    method BindAttemptDevice(id: Id, device: string) returns (err: Option<NodeError>)
      modifies this`attempts
      ensures Wrote(M.BindAttemptDevice(old(Db()), id, device), old(Db()), Db(), err)
    {
      if id !in attempts {
        return Some(AttemptNotFound);
      }
      if !attempts[id].status.InProgress? || !(attempts[id].deviceId == "" || attempts[id].deviceId == device) {
        return Some(DeviceMismatch);
      }
      attempts := attempts[id := attempts[id].(deviceId := device)];
      err := None;
    }

    /** Inserts the answer, replaces an older one of its item, or reports the write stale. */
    method UpsertAnswer(w: Answer) returns (err: Option<NodeError>)
      modifies this`answers
      ensures Db() == M.PutAnswer(old(Db()), w)
      ensures err == if Answers.Stale(Answers.AnswerFor(old(Db()).AnswersOf(w.attemptId), w.itemId), w)
                     then Some(StaleAnswerWrite) else None
    {
      var rows := if w.attemptId in answers then answers[w.attemptId] else [];
      answers := answers[w.attemptId := Answers.Upsert(rows, w)];
      err := if Answers.Stale(Answers.AnswerFor(rows, w.itemId), w) then Some(StaleAnswerWrite) else None;
    }

    /** Marks the rows that still have the acknowledged generation and says how many it marked. */
    method MarkAttemptsHarvestedForGeneration(generations: map<Id, int>, at: Time) returns (marked: nat)
      modifies this`attempts
      ensures Db() == M.MarkHarvested(old(Db()), generations, at)
      ensures marked == |M.MarkedIds(old(Db()), generations)|
      ensures attempts.Keys == old(attempts).Keys && forall id :: id in attempts ==> var a := old(attempts)[id];
        var acked := id in generations && generations[id] == a.resetGeneration && a.harvestedAt.None?
                     && (a.status == Submitted || a.status == AutoSubmitted);
        attempts[id] == if acked then a.(harvestedAt := Some(at)) else a
    {
      var ids := set id | id in attempts && M.Markable(id, attempts[id], generations);
      attempts := map id | id in attempts :: if id in ids then attempts[id].(harvestedAt := Some(at)) else attempts[id];
      marked := |ids|;
    }

    method CreateAttempt(a: Attempt) returns (err: Option<NodeError>)
      modifies this`attempts
      ensures if a.id in old(attempts) then err == Some(DuplicateKey) && Db() == old(Db())
              else err.None? && Db() == M.PutAttempt(old(Db()), a.id, a)
    {
      if a.id in attempts {
        return Some(DuplicateKey);
      }
      attempts := attempts[a.id := a];
      err := None;
    }

    method UpdateParticipant(p: Participant)
      modifies this`participants
      ensures Db() == old(Db()).(participants := old(participants)[p.id := p])
    {
      participants := participants[p.id := p];
    }

    method SaveOperation(op: ResetOperation)
      modifies this`operations
      ensures Db() == M.PutOperation(old(Db()), op)
    {
      operations := operations[op.requestId := op];
    }

    /** An open attempt of the participant in the exam: the only one, while the tables are in order. */
    method FindActiveAttempt(participantId: Id, examId: Id) returns (r: Option<Id>)
      ensures r.Some? ==> M.IsActive(Db(), r.value, participantId, examId)
      ensures Inv.SittingsOk(Db()) ==> r == M.FindActive(Db(), participantId, examId)
    {
      if id :| id in attempts && attempts[id].participantId == participantId && attempts[id].examId == examId
               && attempts[id].status.InProgress? {
        r := Some(id);
      } else {
        r := None;
        assert forall id :: !M.IsActive(Db(), id, participantId, examId);
      }
      if Inv.SittingsOk(Db()) && r.Some? {
        assert M.IsActive(Db(), r.value, participantId, examId);
        Inv.SingleSitting(Db(), r.value, M.FindActive(Db(), participantId, examId).value);
      }
    }

    /** The attempt with the largest number: the one the participant's pointer names, while the tables are in order. */
    method FindLatestAttempt(participantId: Id, examId: Id) returns (r: Option<Id>)
      ensures r.Some? ==> M.IsLatest(Db(), r.value, participantId, examId)
      ensures Inv.SittingsOk(Db()) ==> r == M.FindLatest(Db(), participantId, examId)
    {
      if id :| id in attempts && attempts[id].participantId == participantId && attempts[id].examId == examId
               && forall k :: k in attempts && attempts[k].participantId == participantId && attempts[k].examId == examId
                    ==> attempts[k].attemptNo <= attempts[id].attemptNo {
        r := Some(id);
      } else {
        r := None;
        assert forall id :: !M.IsLatest(Db(), id, participantId, examId);
      }
      if Inv.SittingsOk(Db()) && r.Some? {
        assert M.IsLatest(Db(), r.value, participantId, examId);
        Inv.OneLatest(Db(), r.value, M.FindLatest(Db(), participantId, examId).value, participantId, examId);
      }
    }

    // ---- Roster statements ----

    /** A student already on the roster is returned; otherwise the row goes in unless a unique key is taken. */
    method InsertParticipantIfAbsent(p: Participant) returns (r: Roster.Insertion)
      requires RosterInv.StudentsUnique(participants)
      modifies this`participants
      ensures r == Roster.InsertIfAbsent(old(participants), p)
      ensures participants == if r.Inserted? then old(participants)[p.id := p] else old(participants)
    {
      if k :| k in participants && participants[k].examId == p.examId && participants[k].studentId == p.studentId {
        assert Roster.IsStudent(participants, p.examId, p.studentId, k);
        return Roster.Existing(k);
      }
      assert forall k :: !Roster.IsStudent(participants, p.examId, p.studentId, k);
      if p.id in participants || exists k :: k in participants && participants[k].accessCode == p.accessCode {
        return Roster.CodeConflict;
      }
      participants := participants[p.id := p];
      r := Roster.Inserted;
    }

    /** Does nothing when the event, or its deployment's revision, already has a receipt. */
    method InsertReceipt(r: Receipt)
      modifies this`receipts
      ensures Db() == Roster.WithReceipt(old(Db()), r)
    {
      if r.eventId in receipts || Roster.SlotTaken(receipts, r.deploymentId, r.revision) {
        return;
      }
      receipts := receipts[r.eventId := r];
    }

    method UpdateExamRosterState(e: Id, revision: int, hash: Option<HashView>)
      requires e in exams
      modifies this`exams
      ensures exams == old(exams)[e := old(exams[e]).(rosterRevision := revision, contentHash := hash)]
    {
      exams := exams[e := exams[e].(rosterRevision := revision, contentHash := hash)];
    }

    /** The exam's items, in some order. */
    method ListItemsByExam(e: Id) returns (rows: seq<Item>)
      ensures multiset(rows) == multiset(Hash.ItemRows(items, e))
    {
      var rest := set i | i in items && items[i].examId == e :: items[i];
      rows := [];
      while rest != {}
        invariant multiset(rows) + multiset(rest) == multiset(Hash.ItemRows(items, e))
        decreases |rest|
      {
        var row :| row in rest;
        rows, rest := rows + [row], rest - {row};
      }
    }

    /** The exam's roster, in some order. */
    method ListParticipantsByExam(e: Id) returns (rows: seq<Participant>)
      ensures multiset(rows) == multiset(Hash.ParticipantRows(participants, e))
    {
      var rest := set p | p in participants && participants[p].examId == e :: participants[p];
      rows := [];
      while rest != {}
        invariant multiset(rows) + multiset(rest) == multiset(Hash.ParticipantRows(participants, e))
        decreases |rest|
      {
        var row :| row in rest;
        rows, rest := rows + [row], rest - {row};
      }
    }

    // ---- Replacing a bundle ----

    /** The update of one retained participant's names, refused on a taken unique key. */
    method UpdateNames(p: Participant) returns (ok: bool)
      modifies this`participants
      ensures ok <==> Bundle.UpdateOne(old(participants), p).Some?
      ensures participants == if ok then Bundle.UpdateOne(old(participants), p).value else old(participants)
    {
      if p.id !in participants {
        return true;
      }
      var row := participants[p.id];
      if exists l :: l in participants && l != p.id && (participants[l].accessCode == p.accessCode
                       || (participants[l].examId == row.examId && participants[l].studentId == p.studentId)) {
        return false;
      }
      participants := participants[p.id := row.(studentId := p.studentId, studentName := p.studentName, accessCode := p.accessCode)];
      ok := true;
    }

    /** Reconciles the roster by id: updates retained rows, deletes stale ones, inserts new ones. */
    method ReconcileRoster(e: Id, rows: seq<Participant>) returns (ok: bool)
      modifies this`participants
      ensures ok <==> Bundle.ReplaceRoster(old(participants), e, rows).Some?
      ensures ok ==> participants == Bundle.ReplaceRoster(old(participants), e, rows).value
    {
      hide Bundle.UpdateOne, Bundle.InsertNew;
      ghost var before := participants;
      var existing := set k | k in participants && participants[k].examId == e;
      var keep: set<Id>, newOnes: seq<Participant> := {}, [];
      for i := 0 to |rows|
        invariant keep == Bundle.Kept(rows[..i]) && newOnes == Bundle.NewOnes(existing, rows[..i])
        invariant Bundle.UpdateRetained(before, existing, rows[..i]) == Some(participants)
      {
        var p := rows[i];
        assert rows[..i + 1][..i] == rows[..i] && rows[..i + 1] == rows[..i] + [p];
        keep := keep + {p.id};
        if p.id in existing {
          var updated := UpdateNames(p);
          if !updated {
            Bundle.UpdatesStop(before, existing, rows, i);
            return false;
          }
        } else {
          newOnes := newOnes + [p];
        }
      }
      assert rows[..|rows|] == rows;
      DeleteStale(existing, keep);
      match Bundle.InsertNew(participants, newOnes) {
        case None => return false;
        case Some(inserted) => participants := inserted;
      }
      ok := true;
    }

    method DeleteStale(existing: set<Id>, keep: set<Id>)
      modifies this`participants
      ensures participants == Bundle.WithoutStale(old(participants), existing, keep)
    {
      ghost var before := participants;
      var rest := existing;
      while rest != {}
        invariant rest <= existing
        invariant participants == map k | k in before && (k !in existing || k in keep || k in rest) :: before[k]
        decreases |rest|
      {
        var k :| k in rest;
        if k !in keep {
          participants := participants - {k};
        }
        rest := rest - {k};
      }
    }

    /** Swaps one exam's bundle; after a failure the caller rolls back. */
    method ReplaceBundle(exam: Exam, rows: seq<Item>, roster: seq<Participant>) returns (ok: bool)
      modifies this`exams, this`items, this`participants
      ensures ok <==> Bundle.ReplaceBundle(old(Db()), exam, rows, roster).Some?
      ensures ok ==> Db() == Bundle.ReplaceBundle(old(Db()), exam, rows, roster).value
    {
      hide Bundle.InsertItems, Bundle.ReplaceRoster, Bundle.OtherItems;
      ghost var before := Db();
      DeleteItems(exam.id);
      DeleteExam(exam.id);
      match Bundle.InsertItems(items, rows) {
        case None => return false;
        case Some(inserted) => items := inserted;
      }
      ok := ReconcileRoster(exam.id, roster);
      if !ok {
        return;
      }
      exams := exams[exam.id := exam];
      Reinserted(before.exams, exam.id, exam);
    }

    method DeleteItems(e: Id)
      modifies this`items
      ensures items == Bundle.OtherItems(old(items), e)
    {
      items := map i | i in items && items[i].examId != e :: items[i];
    }

    method DeleteExam(e: Id)
      modifies this`exams
      ensures exams == old(exams) - {e}
    {
      exams := exams - {e};
    }
  }

  lemma Reinserted<T>(m: map<Id, T>, k: Id, v: T)
    ensures (m - {k})[k := v] == m[k := v]
  {
  }
}
