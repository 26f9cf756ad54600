/**
  The attempt use cases as functions of the tables, and what each of them does, told from the columns alone: who is
  refused and why, which row changes, and what the caller is told.
 */
module AttemptUseCases {
  import opened Common
  import opened Entities
  import M = AttemptModel
  import Inv = SittingInvariant
  import Machine = SittingMachine
  import Answers
  import Grading

  const MAX_DEVICE_ID := 128

  type Reply<T> = Result<T, NodeError>

  ghost function StartFresh(db: Database, count: int, pid: Id, exam: Exam, device: string, now: Time, clock: Time,
                            newId: Id)
    : (Database, Reply<Attempt>)
  {
    if count >= exam.maxAttempts then (db, Err(MaxAttemptsReached))
    else M.StartTransaction(db, pid, exam, device, now, clock, newId)
  }

  /** An active sitting found before the transaction: bound and returned, or closed in a transaction of its own. */
  ghost function StartOver(db: Database, id: Id, pid: Id, exam: Exam, device: string, now: Time, preClock: Time,
                           clock: Time, newId: Id)
    : (Database, Reply<Attempt>)
    requires id in db.attempts && pid in db.participants
  {
    if M.DeviceRefused(db.attempts[id], device) then (db, Err(DeviceMismatch))
    else
      match M.BindIfUnbound(db, id, device)
      case Err(e) => (db, Err(e))
      case Ok(bound) =>
        if now <= db.attempts[id].dueAt then (bound, Ok(bound.attempts[id]))
        else
          var (closed, r) := M.FinalizeAttempt(bound, id, true, preClock);
          if r.Err? then (closed, Err(r.error))
          else StartFresh(closed, db.participants[pid].attemptCount, pid, exam, device, now, clock, newId)
  }

  /** Starting a sitting; the window is closed on both ends. */
  ghost function Start(db: Database, pid: Id, examId: Id, deviceId: string, now: Time, preClock: Time, clock: Time,
                       newId: Id)
    : (Database, Reply<Attempt>)
  {
    var device := Grading.TrimSpace(deviceId);
    if |device| > MAX_DEVICE_ID then (db, Err(DeviceIdInvalid))
    else if examId !in db.exams then (db, Err(ExamNotLoaded))
    else if now < db.exams[examId].startsAt || now > db.exams[examId].endsAt then (db, Err(ExamNotOpen))
    else if pid !in db.participants then (db, Err(ParticipantNotFound))
    else if db.participants[pid].examId != examId then (db, Err(Forbidden))
    else
      match M.FindActive(db, pid, examId)
      case Some(id) => StartOver(db, id, pid, db.exams[examId], device, now, preClock, clock, newId)
      case None => StartFresh(db, db.participants[pid].attemptCount, pid, db.exams[examId], device, now, clock, newId)
  }

  ghost function GetState(db: Database, pid: Id, id: Id, now: Time, clock: Time): (Database, Reply<(Attempt,
                          seq<Answer>)>) {
    if id !in db.attempts then (db, Err(AttemptNotFound))
    else if db.attempts[id].participantId != pid then (db, Err(Forbidden))
    else if db.attempts[id].status.InProgress? && now > db.attempts[id].dueAt then
      var (closed, r) := M.FinalizeAttempt(db, id, true, clock);
      if r.Err? then (closed, Err(r.error)) else (closed, Ok((r.value.0, closed.AnswersOf(id))))
    else (db, Ok((db.attempts[id], db.AnswersOf(id))))
  }

  ghost function Submit(db: Database, id: Id, pid: Id, now: Time, clock: Time): (Database, Reply<Attempt>) {
    if id !in db.attempts then (db, Err(AttemptNotFound))
    else if db.attempts[id].participantId != pid then (db, Err(Forbidden))
    else if db.attempts[id].Finished() then (db, Ok(db.attempts[id]))
    else if now > db.attempts[id].dueAt then (db, Err(AttemptExpired))
    else
      var (closed, r) := M.FinalizeAttempt(db, id, false, clock);
      if r.Err? then (closed, Err(r.error)) else (closed, Ok(r.value.0))
  }

  ghost function Autosave(db: Database, id: Id, itemId: Id, json: Fields, text: Option<string>, clientSeq: int,
                          pid: Id, now: Time, newId: Id, grade: (int, bool))
    : (Database, Reply<Answer>)
  {
    if id !in db.attempts then (db, Err(AttemptNotFound))
    else if db.attempts[id].participantId != pid then (db, Err(Forbidden))
    else if db.attempts[id].Finished() then (db, Err(AttemptLocked))
    else if now > db.attempts[id].dueAt then (db, Err(AttemptExpired))
    else if itemId !in db.items then (db, Err(ItemNotFound))
    else if db.items[itemId].examId != "" && db.items[itemId].examId != db.attempts[id].examId then (db, Err(Forbidden))
    else
      var w := Machine.GradedAnswer(db.items[itemId], id, json, text, clientSeq, newId, now, grade);
      (M.PutAnswer(db, w),
       if Answers.Stale(Answers.AnswerFor(db.AnswersOf(id), itemId), w) then Err(StaleAnswerWrite) else Ok(w))
  }

  /**
    A participant without an open sitting and with attempts left is admitted exactly from the opening to the
    closing instant, both included; at the closing instant the sitting is due at once.
   */
  lemma AdmittedIff(db: Database, pid: Id, examId: Id, deviceId: string, now: Time, preClock: Time, clock: Time,
                    newId: Id)
    requires |Grading.TrimSpace(deviceId)| <= 128 && examId in db.exams && pid in db.participants
    requires db.exams[examId].id == examId && db.exams[examId].durationMinutes >= 0
    requires db.participants[pid].id == pid && db.participants[pid].examId == examId
    requires db.participants[pid].attemptCount < db.exams[examId].maxAttempts && newId !in db.attempts
    requires M.FindActive(db, pid, examId).None?
    ensures var (exam, r) := (db.exams[examId], Start(db, pid, examId, deviceId, now, preClock, clock, newId).1);
      && (r.Ok? <==> exam.startsAt <= now <= exam.endsAt)
      && (r.Err? ==> r.error == ExamNotOpen)
      && (r.Ok? && now == exam.endsAt ==> r.value.startedAt == r.value.dueAt == now)
  {
    hide Grading.TrimSpace, M.FindActive;
  }

  // ---- What each use case does ----

  /** The stored answers of an attempt. */
  function Stored(db: Database, id: Id): seq<Answer> {
    if id in db.answers then db.answers[id] else []
  }

  /** The open row as it is after finalisation: scored with the total of its answers, and nothing else changed. */
  ghost predicate FinishedAs(a: Attempt, b: Attempt, exam: Exam, rows: seq<Answer>, auto: bool, at: Time) {
    && b == a.(status := b.status, submittedAt := b.submittedAt, autoSubmittedAt := b.autoSubmittedAt, score := b.score,
               gradingStatus := b.gradingStatus)
    && b.status == (if auto then AutoSubmitted else Submitted) && b.submittedAt == Some(at)
    && b.autoSubmittedAt == (if auto then Some(at) else a.autoSubmittedAt) && b.score == Some(Answers.Total(rows))
    && b.gradingStatus == if exam.hasManualItems || exists w :: w in rows && w.gradingStatus.ManualRequired? then ManualRequired
                          else AutoGraded
  }

  ghost predicate Refused<T>(before: Database, after: Database, r: Reply<T>, error: NodeError) {
    after == before && r == Err(error)
  }

  /**
    A submission: an open attempt of the caller is finished when it is not past its due time, an already finished one is
    returned, and whatever is refused writes nothing.
   */
  ghost predicate Submitting(before: Database, after: Database, id: Id, pid: Id, now: Time, clock: Time, r: Reply<Attempt>) {
    if id !in before.attempts then Refused(before, after, r, AttemptNotFound)
    else
      var a := before.attempts[id];
      if a.participantId != pid then Refused(before, after, r, Forbidden)
      else if !a.status.InProgress? then after == before && r == Ok(a)
      else if now > a.dueAt then Refused(before, after, r, AttemptExpired)
      else if a.examId !in before.exams then Refused(before, after, r, ExamNotLoaded)
      else
        && r.Ok? && after == before.(attempts := before.attempts[id := r.value])
        && FinishedAs(a, r.value, before.exams[a.examId], Stored(before, id), false, clock)
  }

  /** A state read: an open attempt past its due time is closed first; the reply holds the row and its stored answers. */
  ghost predicate Reading(before: Database, after: Database, id: Id, pid: Id, now: Time, clock: Time,
                          r: Reply<(Attempt, seq<Answer>)>)
  {
    if id !in before.attempts then Refused(before, after, r, AttemptNotFound)
    else
      var a := before.attempts[id];
      if a.participantId != pid then Refused(before, after, r, Forbidden)
      else if !a.status.InProgress? || now <= a.dueAt then after == before && r == Ok((a, Stored(before, id)))
      else if a.examId !in before.exams then Refused(before, after, r, ExamNotLoaded)
      else
        && r.Ok? && after == before.(attempts := before.attempts[id := r.value.0]) && r.value.1 == Stored(before, id)
        && FinishedAs(a, r.value.0, before.exams[a.examId], Stored(before, id), true, clock)
  }

  /** The answer as it was sent, graded or left to a human. */
  ghost predicate SavedAs(w: Answer, item: Item, id: Id, json: Fields, text: Option<string>, clientSeq: int, now: Time,
                          grade: (int, bool))
  {
    && w.attemptId == id && w.itemId == item.id && w.json == json && w.text == text && w.clientSeq == clientSeq
    && w.lastSavedAt == now && w.maxScore == item.points && w.score == (if grade.1 then Some(grade.0) else None)
    && w.gradingStatus == if grade.1 then AutoGraded else if item.requiresManualGrading then ManualRequired else Pending
  }

  /** The item's row is replaced under its own key, or added, and the other rows stay. */
  ghost predicate Overwrites(before: seq<Answer>, after: seq<Answer>, w: Answer) {
    if exists i :: 0 <= i < |before| && before[i].itemId == w.itemId
    then exists i :: 0 <= i < |before| && before[i].itemId == w.itemId && after == before[i := w.(id := before[i].id)]
    else after == before + [w]
  }

  ghost predicate NewerStored(rows: seq<Answer>, itemId: Id, clientSeq: int) {
    exists i :: 0 <= i < |rows| && rows[i].itemId == itemId && clientSeq <= rows[i].clientSeq
  }

  /**
    An autosave: the caller's open attempt, an item of its exam, and a sequence newer than the stored one; then what is
    stored is what was sent.
   */
  ghost predicate Saving(before: Database, after: Database, id: Id, itemId: Id, json: Fields, text: Option<string>, clientSeq: int,
                         pid: Id, now: Time, newId: Id, grade: (int, bool), r: Reply<Answer>)
  {
    if id !in before.attempts then Refused(before, after, r, AttemptNotFound)
    else
      var a := before.attempts[id];
      if a.participantId != pid then Refused(before, after, r, Forbidden)
      else if !a.status.InProgress? then Refused(before, after, r, AttemptLocked)
      else if now > a.dueAt then Refused(before, after, r, AttemptExpired)
      else if itemId !in before.items then Refused(before, after, r, ItemNotFound)
      else if before.items[itemId].examId != "" && before.items[itemId].examId != a.examId then Refused(before, after, r, Forbidden)
      else if NewerStored(Stored(before, id), itemId, clientSeq) then
        r == Err(StaleAnswerWrite) && Stored(after, id) == Stored(before, id) && after == before.(answers := after.answers)
      else
        && r.Ok? && r.value.id == newId && SavedAs(r.value, before.items[itemId], id, json, text, clientSeq, now, grade)
        && after == before.(answers := before.answers[id := Stored(after, id)])
        && Overwrites(Stored(before, id), Stored(after, id), r.value)
  }

  lemma FinalizeFinishes(db: Database, id: Id, auto: bool, at: Time)
    requires id in db.attempts && db.attempts[id].id == id && db.attempts[id].status.InProgress?
    ensures var (after, r) := M.FinalizeAttempt(db, id, auto, at);
      if db.attempts[id].examId !in db.exams then after == db && r == Err(ExamNotLoaded)
      else
        && r.Ok? && after == db.(attempts := db.attempts[id := r.value.0])
        && FinishedAs(db.attempts[id], r.value.0, db.exams[db.attempts[id].examId], Stored(db, id), auto, at)
  {
    hide Answers.Total;
  }

  /** An open attempt of the caller whose exam is loaded is submitted exactly until its due time. */
  lemma SubmitOkIff(db: Database, id: Id, pid: Id, now: Time, clock: Time)
    requires id in db.attempts ==> db.attempts[id].id == id
    ensures var (after, r) := Submit(db, id, pid, now, clock); Submitting(db, after, id, pid, now, clock, r)
  {
    hide M.FinalizeAttempt, FinishedAs;
    if id in db.attempts && db.attempts[id].status.InProgress? {
      FinalizeFinishes(db, id, false, clock);
    }
  }

  lemma StateReads(db: Database, id: Id, pid: Id, now: Time, clock: Time)
    requires id in db.attempts ==> db.attempts[id].id == id
    ensures var (after, r) := GetState(db, pid, id, now, clock); Reading(db, after, id, pid, now, clock, r)
  {
    hide M.FinalizeAttempt, FinishedAs;
    if id in db.attempts && db.attempts[id].status.InProgress? {
      FinalizeFinishes(db, id, true, clock);
    }
  }

  lemma {:induction false} UpsertOverwrites(rows: seq<Answer>, w: Answer)
    requires Answers.OnePerItem(rows)
    ensures Answers.Stale(Answers.AnswerFor(rows, w.itemId), w) <==> NewerStored(rows, w.itemId, w.clientSeq)
    ensures if NewerStored(rows, w.itemId, w.clientSeq) then Answers.Upsert(rows, w) == rows
            else Overwrites(rows, Answers.Upsert(rows, w), w)
  {
    if rows != [] {
      var rest := rows[1..];
      assert rows == [rows[0]] + rest;
      if rows[0].itemId == w.itemId {
        forall i | 0 < i < |rows| ensures rows[i].itemId != w.itemId {
        }
        if !NewerStored(rows, w.itemId, w.clientSeq) {
          assert Answers.Upsert(rows, w) == rows[0 := w.(id := rows[0].id)];
        }
      } else {
        UpsertOverwrites(rest, w);
        forall i | 0 < i < |rows| ensures rows[i] == rest[i - 1] {
        }
        assert NewerStored(rows, w.itemId, w.clientSeq) <==> NewerStored(rest, w.itemId, w.clientSeq) by {
          if i :| 0 <= i < |rest| && rest[i].itemId == w.itemId && w.clientSeq <= rest[i].clientSeq {
            assert rows[i + 1] == rest[i];
          }
        }
        RestOverwrites(rows, w, Answers.Upsert(rest, w));
      }
    }
  }

  lemma RestOverwrites(rows: seq<Answer>, w: Answer, after: seq<Answer>)
    requires rows != [] && rows[0].itemId != w.itemId
    ensures Overwrites(rows[1..], after, w) ==> Overwrites(rows, [rows[0]] + after, w)
  {
    var rest := rows[1..];
    if Overwrites(rest, after, w) {
      if i :| 0 <= i < |rest| && rest[i].itemId == w.itemId && after == rest[i := w.(id := rest[i].id)] {
        assert rows[i + 1] == rest[i];
        assert [rows[0]] + after == rows[i + 1 := w.(id := rows[i + 1].id)];
      } else {
        forall i | 0 <= i < |rows| ensures rows[i].itemId != w.itemId {
          assert i > 0 ==> rows[i] == rest[i - 1];
        }
        assert [rows[0]] + (rest + [w]) == rows + [w];
      }
    }
  }

  /** What an autosave stores is what was sent, unless it is refused. */
  lemma AutosaveStores(db: Database, id: Id, itemId: Id, json: Fields, text: Option<string>, clientSeq: int, pid: Id, now: Time,
                       newId: Id, grade: (int, bool))
    requires Answers.OnePerItem(db.AnswersOf(id)) && (itemId in db.items ==> db.items[itemId].id == itemId)
    ensures var (after, r) := Autosave(db, id, itemId, json, text, clientSeq, pid, now, newId, grade);
      Saving(db, after, id, itemId, json, text, clientSeq, pid, now, newId, grade, r)
  {
    hide Answers.Upsert, Answers.AnswerFor, Answers.Stale, Answers.OnePerItem, Overwrites, NewerStored;
    if itemId in db.items {
      UpsertOverwrites(db.AnswersOf(id), Machine.GradedAnswer(db.items[itemId], id, json, text, clientSeq, newId, now, grade));
    }
  }

  // ---- Starting ----

  predicate OpenSitting(db: Database, id: Id, pid: Id, examId: Id) {
    && id in db.attempts && db.attempts[id].participantId == pid && db.attempts[id].examId == examId
    && db.attempts[id].status.InProgress?
  }

  /** A first row of its generation, due at the earlier of its duration's end and the exam's. */
  predicate IsNewSitting(a: Attempt, p: Participant, exam: Exam, device: string, now: Time, newId: Id) {
    && a.id == newId && a.participantId == p.id && a.studentId == p.studentId && a.examId == exam.id && a.deviceId == device
    && a.attemptNo == p.attemptCount + 1 && a.status.InProgress? && a.startedAt == now
    && a.dueAt == (if now + exam.durationMinutes * 60 <= exam.endsAt then now + exam.durationMinutes * 60 else exam.endsAt)
    && a.submittedAt.None? && a.autoSubmittedAt.None? && a.score.None? && a.maxScore == exam.maxScore && a.gradingStatus.Pending?
    && a.resetGeneration == 0 && a.harvestedAt.None?
  }

  /** Over these attempts: the participant's next sitting, or a refusal at the limit or on a used key. */
  ghost predicate Creating(before: Database, attempts: map<Id, Attempt>, after: Database, pid: Id, exam: Exam, device: string,
                           now: Time, newId: Id, r: Reply<Attempt>)
    requires pid in before.participants
  {
    var p := before.participants[pid];
    if p.attemptCount >= exam.maxAttempts then after == before.(attempts := attempts) && r == Err(MaxAttemptsReached)
    else if newId in attempts then after == before.(attempts := attempts) && r == Err(DuplicateKey)
    else
      && r.Ok? && IsNewSitting(r.value, p, exam, device, now, newId)
      && after == before.(attempts := attempts[newId := r.value],
                          participants := before.participants[pid := p.(attemptCount := p.attemptCount + 1,
                                                                        latestAttemptId := Some(newId))])
  }

  /** The device an attempt has after this one starts or resumes it. */
  function WithDevice(a: Attempt, device: string): Attempt {
    a.(deviceId := if a.deviceId == "" then device else a.deviceId)
  }

  /** Over an open sitting: refused to another device, resumed until its due time, and then closed and followed by the next. */
  ghost predicate Resuming(before: Database, after: Database, id: Id, pid: Id, exam: Exam, device: string, now: Time,
                           preClock: Time, newId: Id, r: Reply<Attempt>)
    requires id in before.attempts && pid in before.participants
  {
    var a := before.attempts[id];
    if a.deviceId != "" && a.deviceId != device then Refused(before, after, r, DeviceMismatch)
    else if now <= a.dueAt then
      r == Ok(WithDevice(a, device)) && after == before.(attempts := before.attempts[id := WithDevice(a, device)])
    else exists b :: FinishedAs(WithDevice(a, device), b, exam, Stored(before, id), true, preClock)
                     && Creating(before, before.attempts[id := b], after, pid, exam, device, now, newId, r)
  }

  /** A start: the exam's window is closed on both ends, and an open sitting is resumed or closed before a new one. */
  ghost predicate Starting(before: Database, after: Database, pid: Id, examId: Id, device: string, now: Time, preClock: Time,
                           newId: Id, r: Reply<Attempt>)
  {
    if |device| > 128 then Refused(before, after, r, DeviceIdInvalid)
    else if examId !in before.exams then Refused(before, after, r, ExamNotLoaded)
    else
      var exam := before.exams[examId];
      if now < exam.startsAt || exam.endsAt < now then Refused(before, after, r, ExamNotOpen)
      else if pid !in before.participants then Refused(before, after, r, ParticipantNotFound)
      else if before.participants[pid].examId != examId then Refused(before, after, r, Forbidden)
      else if exists id :: OpenSitting(before, id, pid, examId) then
        forall id :: OpenSitting(before, id, pid, examId) ==>
          Resuming(before, after, id, pid, exam, device, now, preClock, newId, r)
      else Creating(before, before.attempts, after, pid, exam, device, now, newId, r)
  }

  lemma OnlyOneOpen(db: Database, i: Id, j: Id, pid: Id, examId: Id)
    requires Inv.Invariant(db) && OpenSitting(db, i, pid, examId) && OpenSitting(db, j, pid, examId)
    ensures i == j && pid in db.participants
  {
    hide Inv.BundleOk, Inv.CountersOk, Inv.PlacesOk, Inv.RowsOk, Inv.NumbersUnique, Inv.NumbersComplete, Inv.AnswersOk,
      Inv.OperationsOk;
    Inv.SingleSitting(db, i, j);
    Inv.ActiveIsLatest(db, i);
  }

  lemma CreateIsCreating(db: Database, pid: Id, exam: Exam, device: string, now: Time, clock: Time, newId: Id)
    requires pid in db.participants && db.participants[pid].id == pid && db.participants[pid].examId == exam.id
    requires forall id :: !OpenSitting(db, id, pid, exam.id)
    ensures var (after, r) := StartFresh(db, db.participants[pid].attemptCount, pid, exam, device, now, clock, newId);
      Creating(db, db.attempts, after, pid, exam, device, now, newId, r)
  {
    hide M.ResumeActive, M.FindActive;
    forall id ensures !M.IsActive(db, id, pid, exam.id) {
      assert !OpenSitting(db, id, pid, exam.id);
    }
    assert M.FindActive(db, pid, exam.id).None?;
    assert db.(attempts := db.attempts) == db;
  }

  lemma StartOverResumes(db: Database, id: Id, pid: Id, exam: Exam, device: string, now: Time, preClock: Time, clock: Time, newId: Id)
    requires Inv.Invariant(db) && pid in db.participants && OpenSitting(db, id, pid, exam.id)
    requires exam.id in db.exams && db.exams[exam.id] == exam && db.participants[pid].examId == exam.id
    ensures var (after, r) := StartOver(db, id, pid, exam, device, now, preClock, clock, newId);
      Resuming(db, after, id, pid, exam, device, now, preClock, newId, r)
  {
    hide Inv.Invariant, M.FinalizeAttempt, FinishedAs, StartFresh, Creating;
    var a := db.attempts[id];
    Inv.RowId(db, id);
    ParticipantId(db, pid);
    if !M.DeviceRefused(a, device) {
      var bound := M.BindIfUnbound(db, id, device).value;
      assert bound == db.(attempts := db.attempts[id := WithDevice(a, device)]);
      if now > a.dueAt {
        ClosedThenCreated(db, bound, id, pid, exam, device, now, preClock, clock, newId);
      }
    }
  }

  lemma ClosedThenCreated(db: Database, bound: Database, id: Id, pid: Id, exam: Exam, device: string, now: Time, preClock: Time,
                          clock: Time, newId: Id)
    requires Inv.Invariant(db) && pid in db.participants && OpenSitting(db, id, pid, exam.id)
    requires exam.id in db.exams && db.exams[exam.id] == exam && db.participants[pid].examId == exam.id
    requires bound == db.(attempts := db.attempts[id := WithDevice(db.attempts[id], device)])
    ensures M.FinalizeAttempt(bound, id, true, preClock).1.Ok?
    ensures var (after, r) := StartFresh(M.FinalizeAttempt(bound, id, true, preClock).0, db.participants[pid].attemptCount, pid, exam,
                                         device, now, clock, newId);
      exists b :: FinishedAs(WithDevice(db.attempts[id], device), b, exam, Stored(db, id), true, preClock)
                  && Creating(db, db.attempts[id := b], after, pid, exam, device, now, newId, r)
  {
    hide Inv.Invariant, M.FinalizeAttempt, FinishedAs, StartFresh, Creating;
    Inv.RowId(db, id);
    ParticipantId(db, pid);
    FinalizeFinishes(bound, id, true, preClock);
    var (closed, done) := M.FinalizeAttempt(bound, id, true, preClock);
    var b := done.value.0;
    assert Stored(bound, id) == Stored(db, id);
    assert bound.attempts[id := b] == db.attempts[id := b];
    FinishedIsClosed(bound.attempts[id], b, exam, Stored(bound, id), preClock);
    forall k ensures !OpenSitting(closed, k, pid, exam.id) {
      if OpenSitting(closed, k, pid, exam.id) {
        OnlyOneOpen(db, id, k, pid, exam.id);
      }
    }
    CreateIsCreating(closed, pid, exam, device, now, clock, newId);
    var (after, r) := StartFresh(closed, db.participants[pid].attemptCount, pid, exam, device, now, clock, newId);
    SameCreating(closed, db, db.attempts[id := b], after, pid, exam, device, now, newId, r);
  }

  lemma FinishedIsClosed(a: Attempt, b: Attempt, exam: Exam, rows: seq<Answer>, at: Time)
    requires FinishedAs(a, b, exam, rows, true, at)
    ensures !b.status.InProgress?
  {
  }

  lemma SameCreating(closed: Database, before: Database, attempts: map<Id, Attempt>, after: Database, pid: Id, exam: Exam,
                     device: string, now: Time, newId: Id, r: Reply<Attempt>)
    requires pid in before.participants && closed == before.(attempts := attempts)
    requires Creating(closed, closed.attempts, after, pid, exam, device, now, newId, r)
    ensures Creating(before, attempts, after, pid, exam, device, now, newId, r)
  {
  }

  lemma ParticipantId(db: Database, pid: Id)
    requires Inv.Invariant(db) && pid in db.participants
    ensures db.participants[pid].id == pid
  {
    hide Inv.BundleOk, Inv.PlacesOk, Inv.RowsOk, Inv.NumbersUnique, Inv.NumbersComplete, Inv.OperationsOk, Inv.AnswersOk;
    assert Inv.CounterOk(db.exams, db.participants, db.attempts, pid);
  }

  /** A start does exactly that, whatever it finds. */
  lemma StartStarts(db: Database, pid: Id, examId: Id, deviceId: string, device: string, now: Time, preClock: Time, clock: Time,
                    newId: Id)
    requires Inv.Invariant(db) && Grading.Core(deviceId, device)
    ensures var (after, r) := Start(db, pid, examId, deviceId, now, preClock, clock, newId);
      Starting(db, after, pid, examId, device, now, preClock, newId, r)
  {
    hide Inv.Invariant, M.FindActive, StartOver, StartFresh, Resuming, Creating, Grading.Core, Grading.TrimSpace;
    assert device == Grading.TrimSpace(deviceId) by { Grading.CoreIsTrimmed(deviceId, device); }
    if examId in db.exams && pid in db.participants && db.participants[pid].examId == examId {
      ExamId(db, examId);
      ParticipantId(db, pid);
      var found := M.FindActive(db, pid, examId);
      if found.Some? {
        assert OpenSitting(db, found.value, pid, examId);
        StartOverResumes(db, found.value, pid, db.exams[examId], device, now, preClock, clock, newId);
        forall id | OpenSitting(db, id, pid, examId) ensures id == found.value {
          OnlyOneOpen(db, id, found.value, pid, examId);
        }
      } else {
        forall id ensures !OpenSitting(db, id, pid, examId) {
          assert !M.IsActive(db, id, pid, examId);
        }
        CreateIsCreating(db, pid, db.exams[examId], device, now, clock, newId);
      }
    }
  }

  lemma AnyStart(db: Database, pid: Id, examId: Id, deviceId: string, now: Time, preClock: Time, clock: Time, newId: Id)
    requires Inv.Invariant(db)
    ensures forall device :: Grading.Core(deviceId, device) ==>
      var (after, r) := Start(db, pid, examId, deviceId, now, preClock, clock, newId);
      Starting(db, after, pid, examId, device, now, preClock, newId, r)
  {
    hide *;
    forall device | Grading.Core(deviceId, device)
      ensures var (after, r) := Start(db, pid, examId, deviceId, now, preClock, clock, newId);
        Starting(db, after, pid, examId, device, now, preClock, newId, r)
    {
      StartStarts(db, pid, examId, deviceId, device, now, preClock, clock, newId);
    }
  }

  lemma AnyAutosave(db: Database, id: Id, itemId: Id, json: Fields, text: Option<string>, clientSeq: int, pid: Id, now: Time,
                    newId: Id)
    requires Answers.OnePerItem(db.AnswersOf(id)) && (itemId in db.items ==> db.items[itemId].id == itemId)
    ensures forall grade ::
      var (after, r) := Autosave(db, id, itemId, json, text, clientSeq, pid, now, newId, grade);
      Saving(db, after, id, itemId, json, text, clientSeq, pid, now, newId, grade, r)
  {
    hide *;
    forall grade
      ensures var (after, r) := Autosave(db, id, itemId, json, text, clientSeq, pid, now, newId, grade);
        Saving(db, after, id, itemId, json, text, clientSeq, pid, now, newId, grade, r)
    {
      AutosaveStores(db, id, itemId, json, text, clientSeq, pid, now, newId, grade);
    }
  }

  lemma ExamId(db: Database, examId: Id)
    requires Inv.Invariant(db) && examId in db.exams
    ensures db.exams[examId].id == examId
  {
    hide Inv.PlacesOk, Inv.RowsOk, Inv.NumbersUnique, Inv.NumbersComplete, Inv.OperationsOk, Inv.AnswersOk, Inv.CountersOk;
  }
}
