/** Sitting transactions happen while rosters are in order: they leave every exam's roster as it was. */
module SittingRoster {
  import opened Common
  import opened Entities
  import opened AttemptModel
  import opened SittingInvariant
  import opened SittingMachine
  import opened SittingSteps
  import Answers
  import Hash = ContentHash
  import Roster = RosterInvariant
  import RosterModel
  import SittingHistory

  // ---- Rosters whose students only attempt ----

  /** The participants are the same but for their attempt counters. */
  predicate OnlyAttempts(a: Participant, b: Participant) {
    b == a.(attemptCount := b.attemptCount, latestAttemptId := b.latestAttemptId)
  }

  ghost predicate SameRoster(before: Participants, after: Participants) {
    before.Keys == after.Keys && forall k :: k in before ==> OnlyAttempts(before[k], after[k])
  }

  /** Exams, items and receipts stand, and participants but for their counters. */
  ghost predicate Beside(db: Database, db': Database) {
    db'.exams == db.exams && db'.items == db.items && db'.receipts == db.receipts && SameRoster(db.participants, db'.participants)
  }

  lemma BesideTransitive(a: Database, b: Database, c: Database)
    requires Beside(a, b) && Beside(b, c)
    ensures Beside(a, c)
  {
  }

  lemma SameTablesBeside(db: Database, db': Database)
    requires db'.exams == db.exams && db'.items == db.items && db'.receipts == db.receipts && db'.participants == db.participants
    ensures Beside(db, db')
  {
  }

  /** The same students, as rows of the new table, in the order of `ys`. */
  ghost function Rewritten(ys: seq<Participant>, after: Participants): seq<Participant>
    requires forall y :: y in ys ==> y.id in after
  {
    seq(|ys|, i requires 0 <= i < |ys| => after[ys[i].id])
  }

  lemma ListedRows(before: Participants, e: Id, ys: seq<Participant>)
    requires Hash.KeyedParticipants(before) && multiset(ys) == multiset(Hash.ParticipantRows(before, e))
    ensures forall y :: y in ys <==> y in Hash.ParticipantRows(before, e)
    ensures forall y :: y in ys ==> y.id in before && before[y.id] == y && y.examId == e
    ensures Distinct(ys)
  {
    forall y ensures y in ys <==> y in Hash.ParticipantRows(before, e) {
      assert y in ys <==> y in multiset(ys);
    }
    DistinctByMultiset(ys);
  }

  lemma RewrittenRow(before: Participants, after: Participants, e: Id, ys: seq<Participant>, i: nat)
    requires Hash.KeyedParticipants(before) && SameRoster(before, after) && i < |ys|
    requires forall y :: y in ys ==> y.id in before && before[y.id] == y && y.examId == e
    ensures ys[i].id in after && after[ys[i].id].id == ys[i].id && after[ys[i].id].examId == e
    ensures Hash.RosterRow(after[ys[i].id]) == Hash.RosterRow(ys[i])
  {
    assert ys[i] in ys && OnlyAttempts(before[ys[i].id], after[ys[i].id]);
  }

  lemma RewrittenDistinct(before: Participants, after: Participants, ys: seq<Participant>)
    requires Distinct(ys) && forall y :: y in ys ==> y.id in before && before[y.id] == y
    requires forall i :: 0 <= i < |ys| ==> ys[i].id in after && after[ys[i].id].id == ys[i].id
    ensures Distinct(Rewritten(ys, after))
  {
    var zs := Rewritten(ys, after);
    forall i, j | 0 <= i < j < |zs| ensures zs[i] != zs[j] {
      assert ys[i] in ys && ys[j] in ys && ys[i] != ys[j];
    }
  }

  lemma RewrittenRows(before: Participants, after: Participants, e: Id, ys: seq<Participant>)
    requires Hash.KeyedParticipants(before) && SameRoster(before, after) && multiset(ys) == multiset(Hash.ParticipantRows(before, e))
    ensures forall y :: y in ys ==> y.id in after
    ensures multiset(Rewritten(ys, after)) == multiset(Hash.ParticipantRows(after, e))
    ensures Hash.RosterRows(Rewritten(ys, after)) == Hash.RosterRows(ys)
  {
    ListedRows(before, e, ys);
    hide SameRoster, Hash.RosterRow, Hash.KeyedParticipants;
    forall i | 0 <= i < |ys|
      ensures ys[i].id in after && after[ys[i].id].id == ys[i].id && after[ys[i].id].examId == e
      ensures Hash.RosterRow(after[ys[i].id]) == Hash.RosterRow(ys[i])
    {
      RewrittenRow(before, after, e, ys, i);
    }
    var zs := Rewritten(ys, after);
    RewrittenDistinct(before, after, ys);
    forall z | z in Hash.ParticipantRows(after, e) ensures z in zs {
      var k :| k in after && after[k].examId == e && after[k] == z;
      OldRow(before, after, e, k);
      var i :| 0 <= i < |ys| && ys[i] == before[k];
      assert zs[i] == z;
    }
    forall z | z in zs ensures z in Hash.ParticipantRows(after, e) {
      var i :| 0 <= i < |zs| && zs[i] == z;
      assert after[ys[i].id] == z;
    }
    ListOfSet(zs, Hash.ParticipantRows(after, e));
  }

  lemma OldRow(before: Participants, after: Participants, e: Id, k: Id)
    requires Hash.KeyedParticipants(before) && SameRoster(before, after) && k in after && after[k].examId == e
    ensures k in before && before[k].id == k && before[k] in Hash.ParticipantRows(before, e)
  {
    assert OnlyAttempts(before[k], after[k]);
  }

  /** Attempt counters are not hashed. */
  lemma SameView(exam: Exam, items: Items, before: Participants, after: Participants)
    requires Hash.KeyedItems(items) && Hash.KeyedParticipants(before) && SameRoster(before, after)
    ensures Hash.StoredView(exam, items, after) == Hash.StoredView(exam, items, before)
  {
    hide Hash.View, Hash.RosterRows, Hash.ItemRows, Hash.ParticipantRows, Hash.Listing, Rewritten;
    var xs, ys := Hash.Listing(Hash.ItemRows(items, exam.id)), Hash.Listing(Hash.ParticipantRows(before, exam.id));
    RewrittenRows(before, after, exam.id, ys);
    var zs := Rewritten(ys, after);
    KeysStand(before, after);
    UniqueListing(items, before, exam.id, xs, ys);
    UniqueListing(items, after, exam.id, xs, zs);
    Hash.SameViewIff(exam, exam, xs, xs, ys, zs);
    Hash.AnyListing(exam, items, after, xs, zs);
  }

  lemma KeysStand(before: Participants, after: Participants)
    requires Hash.KeyedParticipants(before) && SameRoster(before, after)
    ensures Hash.KeyedParticipants(after)
  {
    forall k | k in after ensures after[k].id == k {
      assert OnlyAttempts(before[k], after[k]);
    }
  }

  lemma UniqueListing(items: Items, ps: Participants, e: Id, xs: seq<Item>, ys: seq<Participant>)
    requires Hash.KeyedItems(items) && Hash.KeyedParticipants(ps)
    requires multiset(xs) == multiset(Hash.ItemRows(items, e)) && multiset(ys) == multiset(Hash.ParticipantRows(ps, e))
    ensures Hash.UniqueItems(multiset(xs)) && Hash.UniqueParticipants(multiset(ys))
  {
  }

  lemma SameKeys(before: Participants, after: Participants)
    requires SameRoster(before, after)
    ensures Roster.StudentsUnique(before) ==> Roster.StudentsUnique(after)
    ensures Roster.CodesUnique(before) ==> Roster.CodesUnique(after)
  {
    forall k | k in after ensures OnlyAttempts(before[k], after[k]) {
    }
    assert forall e, st, k :: RosterModel.IsStudent(after, e, st, k) ==> RosterModel.IsStudent(before, e, st, k);
    assert forall code, k :: Roster.HasCode(after, code, k) ==> Roster.HasCode(before, code, k);
  }

  /** What stands beside a roster in order leaves it in order. */
  lemma BesideKeepsRoster(db: Database, db': Database, e: Id)
    requires Roster.TablesOk(db) && Roster.RosterOk(db, e) && Beside(db, db')
    ensures Roster.TablesOk(db') && Roster.RosterOk(db', e)
    ensures Roster.AppliedPresent(db.receipts, db.participants) ==> Roster.AppliedPresent(db'.receipts, db'.participants)
  {
    hide Hash.StoredView, Roster.StudentsUnique, Roster.CodesUnique, Roster.SlotsUnique, Roster.ReceiptsExact;
    KeysStand(db.participants, db'.participants);
    SameKeys(db.participants, db'.participants);
    SameView(db.exams[e], db.items, db.participants, db'.participants);
  }

  // ---- The sitting transactions ----

  lemma UpdateBeside(db: Database, a: Attempt)
    ensures UpdateAttempt(db, a).Ok? ==> Beside(db, UpdateAttempt(db, a).value)
  {
  }

  lemma FinalizeBeside(db: Database, id: Id, auto: bool, now: Time)
    ensures Beside(db, FinalizeAttempt(db, id, auto, now).0)
  {
    hide Finalized, UpdateAttempt, Beside;
    SameTablesBeside(db, db);
    if id in db.attempts && db.attempts[id].examId in db.exams {
      UpdateBeside(db, Finalized(db.attempts[id], db.exams[db.attempts[id].examId], db.AnswersOf(id), auto, now));
    }
  }

  lemma BindBeside(db: Database, id: Id, device: string)
    ensures BindAttemptDevice(db, id, device).Ok? ==> Beside(db, BindAttemptDevice(db, id, device).value)
  {
  }

  lemma CreateBeside(db: Database, p: Participant, exam: Exam, device: string, now: Time, newId: Id)
    requires p.id in db.participants && OnlyAttempts(db.participants[p.id], p)
    ensures CreateNext(db, p, exam, device, now, newId).Ok? ==> Beside(db, CreateNext(db, p, exam, device, now, newId).value.0)
  {
  }

  lemma ResumeBeside(db: Database, id: Id, p: Participant, exam: Exam, device: string, now: Time, clock: Time, newId: Id)
    requires id in db.attempts && p.id in db.participants && db.participants[p.id] == p
    ensures Beside(db, ResumeActive(db, id, p, exam, device, now, clock, newId).0)
  {
    hide ResumeActive, FinalizeAttempt, FindActive, BindIfUnbound, CreateNext, Beside, OnlyAttempts;
    SameTablesBeside(db, db);
    ResumeCases(db, id, p, exam, device, now, clock, newId);
    if BindIfUnbound(db, id, device).Ok? {
      BindEffect(db, id, device);
      var bound := BindIfUnbound(db, id, device).value;
      FinalizeBeside(bound, id, true, clock);
      var closed := FinalizeAttempt(bound, id, true, clock).0;
      SameTablesBeside(db, bound);
      BesideTransitive(db, bound, closed);
      StandsBeside(db, closed, p);
      CreateBeside(closed, p, exam, device, now, newId);
      if CreateNext(closed, p, exam, device, now, newId).Ok? {
        BesideTransitive(db, closed, CreateNext(closed, p, exam, device, now, newId).value.0);
      }
    }
  }

  lemma StandsBeside(db: Database, closed: Database, p: Participant)
    requires Beside(db, closed) && p.id in db.participants && db.participants[p.id] == p
    ensures p.id in closed.participants && OnlyAttempts(closed.participants[p.id], p)
  {
    assert OnlyAttempts(db.participants[p.id], closed.participants[p.id]);
  }

  lemma StartBeside(db: Database, pid: Id, exam: Exam, device: string, now: Time, clock: Time, newId: Id)
    requires Invariant(db)
    ensures Beside(db, StartTransaction(db, pid, exam, device, now, clock, newId).0)
  {
    hide ResumeActive, FindActive, CreateNext, Beside, Invariant;
    SameTablesBeside(db, db);
    if pid in db.participants {
      var p := db.participants[pid];
      ParticipantId(db, pid);
      match FindActive(db, p.id, exam.id)
      case Some(id) => ResumeBeside(db, id, p, exam, device, now, clock, newId);
      case None => CreateBeside(db, p, exam, device, now, newId);
    }
  }

  lemma ParticipantId(db: Database, pid: Id)
    requires Invariant(db) && pid in db.participants
    ensures db.participants[pid].id == pid
  {
    hide BundleOk, PlacesOk, RowsOk, NumbersUnique, NumbersComplete, AnswersOk, OperationsOk;
    assert CounterOk(db.exams, db.participants, db.attempts, pid);
  }

  lemma ResetAttemptBeside(db: Database, a: Attempt, status: Status, generation: int)
    ensures ResetAttempt(db, a, status, generation).Ok? ==> Beside(db, ResetAttempt(db, a, status, generation).value)
  {
  }

  lemma SettledBeside(db: Database, done: ResetOperation)
    ensures Beside(db, Settled(db, done).0)
  {
    hide OperationOutcome;
  }

  lemma ReopeningBeside(db: Database, op: ResetOperation, c: ResetCommand, found: Attempt)
    ensures Beside(db, Reopening(db, op, c, found).0)
  {
    hide Observed, Refused, Settled, ResetAttempt, Beside;
    var reopened := found.(status := InProgress, submittedAt := None, autoSubmittedAt := None, score := None,
                           gradingStatus := Pending, resetGeneration := c.targetGeneration);
    ResetAttemptBeside(db, reopened, c.expectedStatus, c.expectedGeneration);
    match ResetAttempt(db, reopened, c.expectedStatus, c.expectedGeneration)
    case Ok(db') =>
      var done := Observed(op, reopened, OperationApplied, "reset_applied");
      SettledBeside(db', done);
      BesideTransitive(db, db', Settled(db', done).0);
    case Err(_) => SettledBeside(db, Refused(op, OperationRejected, "reset_conflict"));
  }

  lemma ExecuteBeside(db: Database, op: ResetOperation, c: ResetCommand, now: Time, writeNow: Time)
    ensures Beside(db, Execute(db, op, c, now, writeNow).0)
  {
    hide Decide, Observed, Refused, OperationOutcome, Reopening;
    DecideFindsTarget(db, c, now, writeNow);
    match Decide(db, c, now, writeNow)
    case Refuse(_, _) =>
    case Observe =>
    case Reopen => ReopeningBeside(db, op, c, db.attempts[c.attemptId]);
  }

  lemma ResetBeside(db: Database, c: ResetCommand, now: Time, writeNow: Time)
    ensures Beside(db, ApplyReset(db, c, now, writeNow).0)
  {
    hide Execute, ValidateReset, FindOperation, Beside;
    SameTablesBeside(db, db);
    match FindOperation(db, c)
    case Conflicting =>
    case Replayed(_) =>
    case Fresh(op) => ExecuteBeside(db, op, c, now, writeNow);
  }

  lemma PreviewBeside(db: Database, c: ResetCommand, now: Time)
    ensures Beside(db, PreviewReset(db, c, now).0)
  {
    hide PreviewDone, ValidatePreview, FindOperation, Settled, Beside;
    SameTablesBeside(db, db);
    match FindOperation(db, c)
    case Conflicting =>
    case Replayed(_) =>
    case Fresh(op) => SettledBeside(db, PreviewDone(db, op, c, now));
  }

  lemma StartStepBeside(s: State, e: Event)
    requires Invariant(s.db) && e.Start?
    ensures Beside(s.db, DbAfter(s, e))
  {
    hide Invariant, StartTransaction, Beside;
    SameTablesBeside(s.db, s.db);
    if e.examId in s.db.exams {
      StartBeside(s.db, e.participantId, s.db.exams[e.examId], e.device, e.now, s.clock, e.newId);
    }
  }

  lemma FinalizeStepBeside(s: State, e: Event)
    requires e.Submit? || e.Expire?
    ensures Beside(s.db, DbAfter(s, e))
  {
    hide FinalizeAttempt, Beside;
    SameTablesBeside(s.db, s.db);
    FinalizeBeside(s.db, e.id, e.Expire?, s.clock);
  }

  lemma ResetStepBeside(s: State, e: Event)
    requires e.Reset? || e.Preview?
    ensures Beside(s.db, DbAfter(s, e))
  {
    hide ApplyReset, PreviewReset, Beside;
    if e.Reset? {
      ResetBeside(s.db, e.c, s.clock, s.clock + e.delay);
    } else {
      PreviewBeside(s.db, e.c, s.clock);
    }
  }

  lemma RowStepBeside(s: State, e: Event)
    requires e.Bind? || e.LandAutosave? || e.Mark?
    ensures Beside(s.db, DbAfter(s, e))
  {
    hide BindAttemptDevice, MarkHarvested, PutAnswer, Beside;
    SameTablesBeside(s.db, s.db);
    match e
    case Bind(id, device) => BindBeside(s.db, id, device);
    case LandAutosave(w) => AnswerBeside(s.db, w);
    case Mark =>
      if s.drain.Draining? { MarkBeside(s.db, s.drain.toMark, s.clock); }
  }

  lemma AnswerBeside(db: Database, w: Answer)
    ensures Beside(db, PutAnswer(db, w))
  {
    hide Answers.Upsert;
  }

  lemma MarkBeside(db: Database, generations: map<Id, int>, at: Time)
    ensures Beside(db, MarkHarvested(db, generations, at))
  {
    hide MarkedRows;
  }

  lemma StepBeside(s: State, e: Event)
    requires Invariant(s.db) && !e.JoinRoster?
    ensures Beside(s.db, DbAfter(s, e))
  {
    hide Invariant, DbAfter, Beside;
    if e.Start? {
      StartStepBeside(s, e);
    } else if e.Submit? || e.Expire? {
      FinalizeStepBeside(s, e);
    } else if e.Reset? || e.Preview? {
      ResetStepBeside(s, e);
    } else if e.Bind? || e.LandAutosave? || e.Mark? {
      RowStepBeside(s, e);
    } else {
      QuietRows(s, e);
      SameTablesBeside(s.db, s.db);
    }
  }

  /** Every step of the sittings keeps every exam's roster in order; participants join by roster events instead. */
  lemma StepKeepsRosters(s: State, e: Event, exam: Id)
    requires Invariant(s.db) && !e.JoinRoster?
    requires Roster.TablesOk(s.db) && Roster.AppliedPresent(s.db.receipts, s.db.participants) && Roster.RosterOk(s.db, exam)
    ensures var t := Next(s, e).db;
      Roster.TablesOk(t) && Roster.AppliedPresent(t.receipts, t.participants) && Roster.RosterOk(t, exam)
  {
    hide *;
    StepBeside(s, e);
    BesideKeepsRoster(s.db, DbAfter(s, e), exam);
    NextDb(s, e);
  }

  /** So does every run of them. */
  lemma {:induction false} RunKeepsRosters(s: State, es: seq<Event>, exam: Id)
    requires NodeOk(s) && forall e :: e in es ==> !e.JoinRoster?
    requires Roster.TablesOk(s.db) && Roster.AppliedPresent(s.db.receipts, s.db.participants) && Roster.RosterOk(s.db, exam)
    ensures var t := Run(s, es).db;
      Roster.TablesOk(t) && Roster.AppliedPresent(t.receipts, t.participants) && Roster.RosterOk(t, exam)
  {
    hide Next, NodeOk, Invariant, Roster.TablesOk, Roster.AppliedPresent, Roster.RosterOk;
    if es != [] {
      var front := es[..|es| - 1];
      RunKeepsRosters(s, front, exam);
      RunKeeps(s, front);
      SittingHistory.NodeInvariant(Run(s, front));
      StepKeepsRosters(Run(s, front), es[|es| - 1], exam);
    }
  }
}
