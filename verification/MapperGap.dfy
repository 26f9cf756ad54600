/**
  Reset commands compare the participant's deployment, which the persistence mapper never fills. While
  it is empty no reset is ever applied: every attempt keeps generation zero in every run.
 */
module MapperGap {
  import opened Common
  import opened Entities
  import opened AttemptModel
  import opened SittingInvariant
  import opened SittingSteps
  import opened SittingMachine
  import opened SittingHistory

  /** Participants as the mapper reads them back. */
  ghost predicate Unfilled(ps: Participants) {
    forall p :: p in ps ==> ps[p].deploymentId == ""
  }

  /** Participants that join do so without a deployment too. */
  ghost predicate JoinsUnfilled(es: seq<Event>) {
    forall e :: e in es && e.JoinRoster? ==> e.p.deploymentId == ""
  }

  /** A new command for an unfilled participant is refused and reopens nothing. */
  lemma RefusedUnfilled(db: Database, c: ResetCommand, now: Time, writeNow: Time)
    requires ValidateReset(c).None? && Unfilled(db.participants)
    ensures Decide(db, c, now, writeNow).Refuse?
  {
    hide Unchanged;
    assert c.deploymentId != "";
  }

  lemma ResetKeepsRows(db: Database, c: ResetCommand, now: Time, writeNow: Time)
    requires Invariant(db) && Unfilled(db.participants)
    ensures AfterReset(db, c, now, writeNow).participants == db.participants
    ensures AfterReset(db, c, now, writeNow).attempts == db.attempts
  {
    hide SittingsOk, OperationsOk, Decide, SameResetCommand, Unfilled;
    ReceiptSettled(db, c.requestId);
    RowId(db, c.attemptId);
    if c.requestId !in db.operations && ValidateReset(c).None? {
      RefusedUnfilled(db, c, now, writeNow);
    }
  }

  lemma StartKeepsUnfilled(db: Database, pid: Id, exam: Exam, device: string, now: Time, clock: Time, newId: Id)
    requires Unfilled(db.participants)
    ensures Unfilled(StartTransaction(db, pid, exam, device, now, clock, newId).0.participants)
  {
    hide ResumeActive, FindActive;
    if pid in db.participants {
      match FindActive(db, db.participants[pid].id, exam.id)
      case Some(id) => ResumeKeepsUnfilled(db, id, db.participants[pid], exam, device, now, clock, newId);
      case None =>
    }
  }

  lemma ResumeKeepsUnfilled(db: Database, id: Id, p: Participant, exam: Exam, device: string, now: Time, clock: Time,
                            newId: Id)
    requires Unfilled(db.participants) && id in db.attempts && p.deploymentId == ""
    ensures Unfilled(ResumeActive(db, id, p, exam, device, now, clock, newId).0.participants)
  {
    hide ResumeActive, FinalizeAttempt, FindActive, BindIfUnbound, CreateNext;
    ResumeCases(db, id, p, exam, device, now, clock, newId);
    if BindIfUnbound(db, id, device).Ok? {
      BindEffect(db, id, device);
      var bound := BindIfUnbound(db, id, device).value;
      FinalizeKeepsPeople(bound, id, true, clock);
      CreateKeepsUnfilled(FinalizeAttempt(bound, id, true, clock).0, p, exam, device, now, newId);
    }
  }

  lemma CreateKeepsUnfilled(db: Database, p: Participant, exam: Exam, device: string, now: Time, newId: Id)
    requires Unfilled(db.participants) && p.deploymentId == ""
    ensures CreateNext(db, p, exam, device, now, newId).Ok? ==>
      Unfilled(CreateNext(db, p, exam, device, now, newId).value.0.participants)
  {
  }

  lemma UpdateKeepsPeople(db: Database, a: Attempt)
    ensures UpdateAttempt(db, a).Ok? ==> UpdateAttempt(db, a).value.participants == db.participants
  {
  }

  lemma FinalizeKeepsPeople(db: Database, id: Id, auto: bool, now: Time)
    ensures FinalizeAttempt(db, id, auto, now).0.participants == db.participants
  {
    hide Finalized, UpdateAttempt;
    if id in db.attempts && db.attempts[id].examId in db.exams {
      UpdateKeepsPeople(db, Finalized(db.attempts[id], db.exams[db.attempts[id].examId], db.AnswersOf(id), auto, now));
    }
  }

  lemma StepKeepsUnfilled(s: State, e: Event)
    requires Invariant(s.db) && Unfilled(s.db.participants) && (e.JoinRoster? ==> e.p.deploymentId == "")
    ensures Unfilled(DbAfter(s, e).participants)
  {
    hide Invariant, AfterReset, AfterFinalize, StartTransaction, PreviewReset;
    if e.Start? {
      if e.examId in s.db.exams {
        StartKeepsUnfilled(s.db, e.participantId, s.db.exams[e.examId], e.device, e.now, s.clock, e.newId);
      }
    } else if e.Reset? {
      ResetKeepsRows(s.db, e.c, s.clock, s.clock + e.delay);
    } else if e.Submit? || e.Expire? {
      AfterFinalizeIs(s.db, e.id, e.Expire?, s.clock);
      FinalizeKeepsPeople(s.db, e.id, e.Expire?, s.clock);
    } else if e.Preview? {
      PreviewKeepsPeople(s.db, e.c, s.clock);
    }
  }

  lemma AfterFinalizeIs(db: Database, id: Id, auto: bool, now: Time)
    ensures AfterFinalize(db, id, auto, now) == FinalizeAttempt(db, id, auto, now).0
  {
    hide FinalizeAttempt;
  }

  lemma PreviewKeepsPeople(db: Database, c: ResetCommand, now: Time)
    requires Invariant(db)
    ensures PreviewReset(db, c, now).0.participants == db.participants
  {
    hide Invariant, DecidePreview, PreviewDone;
  }

  lemma {:induction false} RunKeepsUnfilled(s: State, es: seq<Event>)
    requires Init(s) && Unfilled(s.db.participants) && JoinsUnfilled(es)
    ensures Unfilled(Run(s, es).db.participants)
  {
    hide Init, Next, Unfilled, Invariant, NodeOk, DbAfter;
    if es != [] {
      var front, e := es[..|es| - 1], es[|es| - 1];
      assert e in es && forall f :: f in front ==> f in es;
      RunKeepsUnfilled(s, front);
      Reachable(s, front);
      NextDb(Run(s, front), e);
      StepKeepsUnfilled(Run(s, front), e);
    }
  }

  /** In every run over mapper-filled participants, no reset command ever changes an attempt. */
  lemma ResetsNeverReopen(s: State, es: seq<Event>, c: ResetCommand, delay: nat)
    requires Init(s) && Unfilled(s.db.participants) && JoinsUnfilled(es)
    ensures Next(Run(s, es), Reset(c, delay)).db.attempts == Run(s, es).db.attempts
  {
    hide Init, Run, Next, Unfilled, JoinsUnfilled, Invariant, NodeOk, DbAfter, AfterReset;
    RunKeepsUnfilled(s, es);
    Reachable(s, es);
    var t := Run(s, es);
    NextDb(t, Reset(c, delay));
    ResetIsAfter(t, Reset(c, delay));
    ResetKeepsRows(t.db, c, t.clock, t.clock + delay);
  }

  // ---- What filling the column would change ----

  /** The tables with the target participant's deployment filled in. */
  function Filled(db: Database, c: ResetCommand): Database
    requires c.participantId in db.participants
  {
    db.(participants := db.participants[c.participantId := db.participants[c.participantId].(deploymentId := c.deploymentId)])
  }

  /** A command that would reopen with the column filled reopens exactly if it is, and else conflicts on its target. */
  lemma ReopensIffFilled(db: Database, c: ResetCommand, now: Time, writeNow: Time)
    requires c.participantId in db.participants && Decide(Filled(db, c), c, now, writeNow).Reopen?
    ensures Decide(db, c, now, writeNow) ==
            if db.participants[c.participantId].deploymentId == c.deploymentId then Reopen
            else Refuse(OperationRejected, "target_conflict")
  {
  }

  /** The whole transaction: applied exactly if the column is filled, and otherwise no attempt changes. */
  lemma AppliesIffFilled(db: Database, c: ResetCommand, now: Time, writeNow: Time)
    requires ValidateReset(c).None? && c.requestId !in db.operations && c.participantId in db.participants
    requires forall id :: id in db.attempts ==> db.attempts[id].id == id
    requires Decide(Filled(db, c), c, now, writeNow).Reopen?
    ensures var ((after, r), filled) := (ApplyReset(db, c, now, writeNow), db.participants[c.participantId].deploymentId == c.deploymentId);
      && r.Ok? && (r.value.status.OperationApplied? <==> filled)
      && after.attempts == if filled then db.attempts[c.attemptId := Reopened(db.attempts[c.attemptId], c)] else db.attempts
  {
    hide ApplyReset, Decide, ValidateReset;
    ReopensIffFilled(db, c, now, writeNow);
    DecideFindsTarget(Filled(db, c), c, now, writeNow);
    if Decide(db, c, now, writeNow).Reopen? {
      ReopenEffect(db, c, now, writeNow);
    } else {
      NotAppliedEffect(db, c, now, writeNow);
    }
  }

  /** The same of a preview: it reports the attempt exactly if the column is filled. */
  lemma PreviewsIffFilled(db: Database, c: ResetCommand, now: Time)
    requires NumbersUnique(db.attempts) && c.participantId in db.participants
    requires db.participants[c.participantId].id == c.participantId
    requires DecidePreview(Filled(db, c), c, now).Ok?
    ensures DecidePreview(db, c, now) ==
            if db.participants[c.participantId].deploymentId == c.deploymentId then DecidePreview(Filled(db, c), c, now)
            else Err((OperationRejected, "target_conflict"))
  {
    hide FindLatest, NumbersUnique, IsLatest;
    SameLatest(db, Filled(db, c), c.participantId, c.examId);
  }

  /** The whole preview transaction, which writes its receipt either way. */
  lemma PreviewReportsIffFilled(db: Database, c: ResetCommand, now: Time)
    requires ValidatePreview(c).None? && c.requestId !in db.operations
    requires NumbersUnique(db.attempts) && c.participantId in db.participants
    requires db.participants[c.participantId].id == c.participantId
    requires DecidePreview(Filled(db, c), c, now).Ok?
    ensures var (r, filled) := (PreviewReset(db, c, now).1, db.participants[c.participantId].deploymentId == c.deploymentId);
      && r.Ok? && (r.value.status.OperationApplied? <==> filled) && (!filled ==> r.value.code == "target_conflict")
  {
    hide DecidePreview, ValidatePreview, NumbersUnique;
    PreviewsIffFilled(db, c, now);
  }

  lemma SameLatest(a: Database, b: Database, p: Id, e: Id)
    requires NumbersUnique(a.attempts) && b.attempts == a.attempts
    ensures FindLatest(a, p, e) == FindLatest(b, p, e)
  {
    hide NumbersUnique;
    var x, y := FindLatest(a, p, e), FindLatest(b, p, e);
    assert forall id :: IsLatest(a, id, p, e) <==> IsLatest(b, id, p, e);
    if x.Some? && y.Some? {
      OneLatest(a, x.value, y.value, p, e);
    }
  }
}
