/**
  The attempt use cases, step by step over the repository. Each method leaves exactly the tables,
  and returns exactly the result, of the transaction it stands for; uninterrupted, it is a run of
  the node's machine.
 */
module AttemptService {
  import opened Common
  import opened Entities
  import opened NodeRepository
  import opened AttemptUseCases
  import M = AttemptModel
  import Inv = SittingInvariant
  import Machine = SittingMachine
  import Answers
  import Grading

  // ---- Finalisation ----

  /** The finalising transaction: locks the attempt, totals its answers and stores the result. */
  method FinalizeAttempt(repo: Repository, id: Id, auto: bool, now: Time) returns (r: Result<(Attempt, bool),
                         NodeError>)
    requires id in repo.attempts ==> repo.attempts[id].id == id
    modifies repo`attempts
    ensures (repo.Db(), r) == M.FinalizeAttempt(old(repo.Db()), id, auto, now)
  {
    if id !in repo.attempts {
      return Err(AttemptNotFound);
    }
    var attempt := repo.attempts[id];
    if !attempt.status.InProgress? {
      return Ok((attempt, false));
    }
    if attempt.examId !in repo.exams {
      return Err(ExamNotLoaded);
    }
    var total, grading := Answers.ComputeFinalizeStatus(repo.Db().AnswersOf(id), repo.exams[attempt.examId].hasManualItems);
    attempt := attempt.(score := Some(total), gradingStatus := grading, submittedAt := Some(now));
    if auto {
      attempt := attempt.(status := AutoSubmitted, autoSubmittedAt := Some(now));
    } else {
      attempt := attempt.(status := Submitted);
    }
    var err := repo.UpdateAttempt(attempt);
    match err
    case Some(e) => r := Err(e);
    case None => r := Ok((attempt, true));
  }

  // ---- Starting ----

  /** Creating the next attempt inside the start transaction; `saved` is where the transaction began. */
  method CreateNextAttempt(repo: Repository, saved: Database, locked: Participant, exam: Exam, device: string,
                           now: Time, newId: Id)
    returns (r: Result<Attempt, NodeError>)
    modifies repo
    ensures (repo.Db(), r) == M.Created(saved, M.CreateNext(old(repo.Db()), locked, exam, device, now, newId))
  {
    if locked.attemptCount >= exam.maxAttempts {
      repo.Restore(saved);
      return Err(MaxAttemptsReached);
    }
    var attempt := M.NewAttempt(locked, exam, device, now, newId);
    var err := repo.CreateAttempt(attempt);
    if err.Some? {
      repo.Restore(saved);
      return Err(err.value);
    }
    repo.UpdateParticipant(locked.(attemptCount := attempt.attemptNo, latestAttemptId := Some(attempt.id)));
    r := Ok(attempt);
  }

  /** Closes the expired active sitting and creates the next one, unless another is open by then. */
  method CloseAndCreate(repo: Repository, saved: Database, id: Id, locked: Participant, exam: Exam, device: string,
                        now: Time, clock: Time, newId: Id) returns (r: Result<Attempt, NodeError>)
    requires Inv.Invariant(repo.Db())
    modifies repo
    ensures (repo.Db(), r) == M.CloseAndCreate(saved, old(repo.Db()), id, locked, exam, device, now, clock, newId)
  {
    Inv.FinalizeKeeps(repo.Db(), id, true, clock);
    Inv.RowId(repo.Db(), id);
    hide Inv.Invariant, M.FindActive, M.FinalizeAttempt, M.CreateNext;
    var closed := FinalizeAttempt(repo, id, true, clock);
    if closed.Err? {
      repo.Restore(saved);
      return Err(closed.error);
    }
    Inv.InvariantSittings(repo.Db());
    var active := repo.FindActiveAttempt(locked.id, exam.id);
    if active.Some? {
      return Ok(repo.attempts[active.value]);
    }
    r := CreateNextAttempt(repo, saved, locked, exam, device, now, newId);
  }

  /** The start transaction: everything is decided again under the participant's row lock. */
  method StartLocked(repo: Repository, participantId: Id, exam: Exam, device: string, now: Time, clock: Time, newId: Id)
    returns (r: Result<Attempt, NodeError>)
    requires Inv.Invariant(repo.Db())
    modifies repo
    ensures (repo.Db(), r) == M.StartTransaction(old(repo.Db()), participantId, exam, device, now, clock, newId)
  {
    hide Inv.Invariant, M.FindActive, M.CloseAndCreate, M.CreateNext;
    var saved := repo.Db();
    if participantId !in repo.participants {
      return Err(ParticipantNotFound);
    }
    var locked := repo.participants[participantId];
    if locked.examId != exam.id {
      return Err(Forbidden);
    }
    Inv.InvariantSittings(repo.Db());
    var active := repo.FindActiveAttempt(locked.id, exam.id);
    if active.None? {
      r := CreateNextAttempt(repo, saved, locked, exam, device, now, newId);
      return;
    }
    var attempt := repo.attempts[active.value];
    if attempt.deviceId != "" && attempt.deviceId != device {
      return Err(DeviceMismatch);
    }
    if attempt.deviceId == "" && device != "" {
      var err := repo.BindAttemptDevice(active.value, device);
      match err {
        case Some(e) => return Err(e);
        case None =>
      }
    }
    assert M.BindIfUnbound(saved, active.value, device) == Ok(repo.Db());
    if now <= attempt.dueAt {
      return Ok(repo.attempts[active.value]);
    }
    Inv.BindIfUnboundKeeps(saved, active.value, device);
    r := CloseAndCreate(repo, saved, active.value, locked, exam, device, now, clock, newId);
  }

  // ---- The use cases ----

  class Service {
    const repo: Repository

    constructor (repo: Repository)
      ensures this.repo == repo
    {
      this.repo := repo;
    }

    method StartAttempt(pid: Id, examId: Id, deviceId: string, now: Time, preClock: Time, clock: Time, newId: Id)
      returns (r: Reply<Attempt>)
      requires Inv.Invariant(repo.Db())
      modifies repo
      ensures (repo.Db(), r) == Start(old(repo.Db()), pid, examId, deviceId, now, preClock, clock, newId)
      ensures forall device :: Grading.Core(deviceId, device) ==>
        Starting(old(repo.Db()), repo.Db(), pid, examId, device, now, preClock, newId, r)
    {
      hide Inv.Invariant, M.FindActive, M.StartTransaction, M.FinalizeAttempt, Starting, Grading.Core, Grading.TrimSpace;
      var before := repo.Db();
      AnyStart(before, pid, examId, deviceId, now, preClock, clock, newId);
      var device := Grading.TrimSpace(deviceId);
      if |device| > MAX_DEVICE_ID {
        return Err(DeviceIdInvalid);
      }
      if examId !in repo.exams {
        return Err(ExamNotLoaded);
      }
      var exam := repo.exams[examId];
      if now < exam.startsAt || now > exam.endsAt {
        return Err(ExamNotOpen);
      }
      if pid !in repo.participants {
        return Err(ParticipantNotFound);
      }
      var participant := repo.participants[pid];
      if participant.examId != examId {
        return Err(Forbidden);
      }
      Inv.InvariantSittings(before);
      var active := repo.FindActiveAttempt(pid, examId);
      if active.Some? {
        var attempt := repo.attempts[active.value];
        if attempt.deviceId != "" && attempt.deviceId != device {
          return Err(DeviceMismatch);
        }
        if attempt.deviceId == "" && device != "" {
          var err := repo.BindAttemptDevice(active.value, device);
          match err {
            case Some(e) => return Err(e);
            case None =>
          }
        }
        assert M.BindIfUnbound(before, active.value, device) == Ok(repo.Db());
        if now <= attempt.dueAt {
          return Ok(repo.attempts[active.value]);
        }
        Inv.BindIfUnboundKeeps(before, active.value, device);
        Inv.RowId(repo.Db(), active.value);
        Inv.FinalizeKeeps(repo.Db(), active.value, true, preClock);
        var closed := FinalizeAttempt(repo, active.value, true, preClock);
        if closed.Err? {
          return Err(closed.error);
        }
      }
      if participant.attemptCount >= exam.maxAttempts {
        return Err(MaxAttemptsReached);
      }
      r := StartLocked(repo, pid, exam, device, now, clock, newId);
    }

    method GetAttemptState(pid: Id, id: Id, now: Time, clock: Time) returns (r: Reply<(Attempt, seq<Answer>)>)
      requires id in repo.attempts ==> repo.attempts[id].id == id
      modifies repo`attempts
      ensures (repo.Db(), r) == GetState(old(repo.Db()), pid, id, now, clock)
      ensures Reading(old(repo.Db()), repo.Db(), id, pid, now, clock, r)
    {
      hide M.FinalizeAttempt, Reading;
      StateReads(repo.Db(), id, pid, now, clock);
      if id !in repo.attempts {
        return Err(AttemptNotFound);
      }
      var attempt := repo.attempts[id];
      if attempt.participantId != pid {
        return Err(Forbidden);
      }
      if attempt.status.InProgress? && now > attempt.dueAt {
        var closed := FinalizeAttempt(repo, id, true, clock);
        if closed.Err? {
          return Err(closed.error);
        }
        attempt := closed.value.0;
      }
      r := Ok((attempt, repo.Db().AnswersOf(id)));
    }

    method SubmitAttempt(id: Id, pid: Id, now: Time, clock: Time) returns (r: Reply<Attempt>)
      requires id in repo.attempts ==> repo.attempts[id].id == id
      modifies repo`attempts
      ensures (repo.Db(), r) == Submit(old(repo.Db()), id, pid, now, clock)
      ensures Submitting(old(repo.Db()), repo.Db(), id, pid, now, clock, r)
    {
      hide M.FinalizeAttempt, Submitting;
      SubmitOkIff(repo.Db(), id, pid, now, clock);
      if id !in repo.attempts {
        return Err(AttemptNotFound);
      }
      var attempt := repo.attempts[id];
      if attempt.participantId != pid {
        return Err(Forbidden);
      }
      if !attempt.status.InProgress? {
        return Ok(attempt);
      }
      if now > attempt.dueAt {
        return Err(AttemptExpired);
      }
      var closed := FinalizeAttempt(repo, id, false, clock);
      r := if closed.Err? then Err(closed.error) else Ok(closed.value.0);
    }

    method AutosaveAnswer(id: Id, itemId: Id, json: Fields, text: Option<string>, clientSeq: int, pid: Id, now: Time,
                          newId: Id)
      returns (r: Reply<Answer>, ghost grade: (int, bool))
      requires itemId in repo.items ==> repo.items[itemId].id == itemId
      modifies repo`answers
      ensures (repo.Db(), r) == Autosave(old(repo.Db()), id, itemId, json, text, clientSeq, pid, now, newId, grade)
      ensures r.Ok? || r.error.StaleAnswerWrite? ==> itemId in repo.items && Grading.MayGrade(repo.items[itemId], json, grade)
      ensures Answers.OnePerItem(old(repo.Db()).AnswersOf(id)) ==>
        Saving(old(repo.Db()), repo.Db(), id, itemId, json, text, clientSeq, pid, now, newId, grade, r)
    {
      hide Grading.MayGrade, Saving, Answers.OnePerItem;
      if Answers.OnePerItem(repo.Db().AnswersOf(id)) {
        AnyAutosave(repo.Db(), id, itemId, json, text, clientSeq, pid, now, newId);
      }
      grade := (0, false);
      if id !in repo.attempts {
        return Err(AttemptNotFound), grade;
      }
      var attempt := repo.attempts[id];
      if attempt.participantId != pid {
        return Err(Forbidden), grade;
      }
      if !attempt.status.InProgress? {
        return Err(AttemptLocked), grade;
      }
      if now > attempt.dueAt {
        return Err(AttemptExpired), grade;
      }
      if itemId !in repo.items {
        return Err(ItemNotFound), grade;
      }
      var item := repo.items[itemId];
      if item.examId != "" && item.examId != attempt.examId {
        return Err(Forbidden), grade;
      }
      var score, graded := Grading.GradeObjectiveAnswer(item, json);
      grade := (score, graded);
      var status := if graded then AutoGraded else if item.requiresManualGrading then ManualRequired else Pending;
      var answer := Answer(newId, id, itemId, json, text, if graded then Some(score) else None, item.points, status, now, clientSeq);
      var err := repo.UpsertAnswer(answer);
      r := if err.Some? then Err(err.value) else Ok(answer);
    }
  }
}
