/**
  What finishing a sitting records, and how long it stays true. An autosave checks the attempt and
  writes the answer in two steps; a write that lands after the sitting was finished changes the
  stored answers under a score and a harvested payload that no longer show it.
 */
module LateAnswers {
  import opened Common
  import opened Entities
  import opened AttemptModel
  import opened SittingInvariant
  import opened SittingSteps
  import opened SittingMachine
  import opened SittingHistory
  import opened Payloads
  import Answers

  // ---- How a step finishes a row ----

  /** The row records the total of these answers, and is auto-submitted only past its due time. */
  predicate FinishedWell(b: Attempt, rows: seq<Answer>) {
    && b.score == Some(Answers.Total(rows))
    && (b.status.AutoSubmitted? ==> b.autoSubmittedAt.Some? && b.dueAt < b.autoSubmittedAt.value)
  }

  ghost predicate FinishesWell(db: Database, after: Attempts) {
    forall id :: id in db.attempts && id in after && db.attempts[id].status.InProgress? && after[id].Finished() ==>
      FinishedWell(after[id], db.AnswersOf(id))
  }

  lemma FinishOne(db: Database, id: Id, auto: bool, now: Time)
    requires id in db.attempts ==> db.attempts[id].id == id && (auto ==> db.attempts[id].dueAt < now)
    requires id in db.attempts && db.attempts[id].status.InProgress? ==> db.attempts[id].autoSubmittedAt.None?
    ensures FinishesWell(db, AfterFinalize(db, id, auto, now).attempts)
  {
    FinalizeEffect(db, id, auto, now);
  }

  /** Rows that were bound and then finished well were finished well. */
  lemma BoundFinishesWell(db: Database, bound: Database, after: Attempts)
    requires bound.attempts.Keys == db.attempts.Keys && bound.answers == db.answers && FinishesWell(bound, after)
    requires forall k :: k in db.attempts ==> bound.attempts[k].status == db.attempts[k].status
    ensures FinishesWell(db, after)
  {
    hide FinishedWell;
    forall k | k in db.attempts && k in after && db.attempts[k].status.InProgress? && after[k].Finished()
      ensures FinishedWell(after[k], db.AnswersOf(k))
    {
      assert FinishedWell(after[k], bound.AnswersOf(k));
    }
  }

  lemma StartFinishesWell(s: State, e: Event)
    requires Invariant(s.db) && e.Start?
    ensures FinishesWell(s.db, DbAfter(s, e).attempts)
  {
    hide Invariant, StartTransaction, FinishedWell;
    if e.examId in s.db.exams && s.db.exams[e.examId].startsAt <= e.now <= s.db.exams[e.examId].endsAt && e.now <= s.clock {
      StartedFinishesWell(s.db, e.participantId, s.db.exams[e.examId], e.device, e.now, s.clock, e.newId);
    }
  }

  lemma StartedFinishesWell(db: Database, pid: Id, exam: Exam, device: string, now: Time, clock: Time, newId: Id)
    requires Invariant(db) && now <= clock
    ensures FinishesWell(db, StartTransaction(db, pid, exam, device, now, clock, newId).0.attempts)
  {
    hide Invariant, ResumeActive, CreateNext, FinishedWell;
    if pid in db.participants {
      match FindActive(db, db.participants[pid].id, exam.id)
      case Some(id) => ResumeFinishesWell(db, id, db.participants[pid], exam, device, now, clock, newId);
      case None => CreateFinishesNone(db, db.participants[pid], exam, device, now, newId);
    }
  }

  lemma CreateFinishesNone(db: Database, p: Participant, exam: Exam, device: string, now: Time, newId: Id)
    ensures var r := CreateNext(db, p, exam, device, now, newId);
      r.Ok? ==> FinishesWell(db, r.value.0.attempts)
                && forall k :: k in db.attempts ==> k in r.value.0.attempts && r.value.0.attempts[k] == db.attempts[k]
  {
  }

  lemma BindFinishesNone(db: Database, id: Id, device: string)
    requires id in db.attempts && BindIfUnbound(db, id, device).Ok?
    ensures FinishesWell(db, BindIfUnbound(db, id, device).value.attempts)
  {
    hide FinishedWell;
    BindEffect(db, id, device);
  }

  lemma BindKeepsStatus(db: Database, id: Id, device: string)
    requires id in db.attempts && BindIfUnbound(db, id, device).Ok?
    ensures var bound := BindIfUnbound(db, id, device).value;
      && bound.attempts.Keys == db.attempts.Keys && bound.answers == db.answers
      && (forall k :: k in db.attempts ==> bound.attempts[k].status == db.attempts[k].status)
      && bound.attempts[id].id == db.attempts[id].id && bound.attempts[id].dueAt == db.attempts[id].dueAt
      && bound.attempts[id].autoSubmittedAt == db.attempts[id].autoSubmittedAt
  {
    hide BindIfUnbound;
    BindEffect(db, id, device);
  }

  lemma CloseFinishesWell(db: Database, id: Id, device: string, clock: Time)
    requires id in db.attempts && db.attempts[id].id == id && db.attempts[id].dueAt < clock
    requires db.attempts[id].status.InProgress? ==> db.attempts[id].autoSubmittedAt.None?
    requires BindIfUnbound(db, id, device).Ok?
    ensures FinishesWell(db, BindIfUnbound(db, id, device).value.attempts)
    ensures FinishesWell(db, FinalizeAttempt(BindIfUnbound(db, id, device).value, id, true, clock).0.attempts)
    ensures forall k :: k in db.attempts ==> k in FinalizeAttempt(BindIfUnbound(db, id, device).value, id, true, clock).0.attempts
  {
    hide BindIfUnbound, FinalizeAttempt, FinishesWell, Finalized;
    var bound := BindIfUnbound(db, id, device).value;
    BindFinishesNone(db, id, device);
    BindKeepsStatus(db, id, device);
    FinishOne(bound, id, true, clock);
    FinalizeEffect(bound, id, true, clock);
    BoundFinishesWell(db, bound, FinalizeAttempt(bound, id, true, clock).0.attempts);
  }

  /** A row created beside the finished ones finishes nothing. */
  lemma GrownFinishesWell(db: Database, closed: Attempts, after: Attempts)
    requires FinishesWell(db, closed) && forall k :: k in closed ==> k in after && after[k] == closed[k]
    requires forall k :: k in db.attempts ==> k in closed
    ensures FinishesWell(db, after)
  {
    hide FinishedWell;
  }

  lemma ResumeFinishesWell(db: Database, id: Id, p: Participant, exam: Exam, device: string, now: Time, clock: Time,
                           newId: Id)
    requires Invariant(db) && now <= clock && id in db.attempts
    ensures FinishesWell(db, ResumeActive(db, id, p, exam, device, now, clock, newId).0.attempts)
  {
    hide *;
    SameFinishesNone(db);
    ResumeCases(db, id, p, exam, device, now, clock, newId);
    if BindIfUnbound(db, id, device).Ok? {
      BindFinishesNone(db, id, device);
      if now > db.attempts[id].dueAt {
        RowFacts(db, id);
        CloseFinishesWell(db, id, device, clock);
        var closed := FinalizeAttempt(BindIfUnbound(db, id, device).value, id, true, clock).0;
        CreateFinishesNone(closed, p, exam, device, now, newId);
        if CreateNext(closed, p, exam, device, now, newId).Ok? {
          GrownFinishesWell(db, closed.attempts, CreateNext(closed, p, exam, device, now, newId).value.0.attempts);
        }
      }
    }
  }

  lemma RowFacts(db: Database, id: Id)
    requires Invariant(db) && id in db.attempts
    ensures db.attempts[id].id == id && (db.attempts[id].status.InProgress? ==> db.attempts[id].autoSubmittedAt.None?)
  {
    hide BundleOk, CountersOk, NumbersUnique, NumbersComplete, AnswersOk, OperationsOk;
    assert PlacedOk(db.participants, db.attempts, id) && RowOk(db.exams, db.attempts[id]);
  }

  lemma SameFinishesNone(db: Database)
    ensures FinishesWell(db, db.attempts)
  {
  }

  lemma ResetFinishesNone(db: Database, c: ResetCommand, now: Time, writeNow: Time)
    requires Invariant(db)
    ensures FinishesWell(db, AfterReset(db, c, now, writeNow).attempts)
  {
    hide Invariant, FinishedWell, ApplyReset;
    ResetCases(db, c, now, writeNow);
  }

  lemma ResetStepFinishes(s: State, e: Event)
    requires Invariant(s.db) && e.Reset?
    ensures FinishesWell(s.db, DbAfter(s, e).attempts)
  {
    hide *;
    ResetIsAfter(s, e);
    ResetFinishesNone(s.db, e.c, s.clock, s.clock + e.delay);
  }

  lemma FinalizeStepFinishes(s: State, e: Event)
    requires Invariant(s.db) && SeenOk(s) && (e.Submit? || e.Expire?)
    ensures FinishesWell(s.db, DbAfter(s, e).attempts)
  {
    hide Invariant, FinalizeAttempt, FinishedWell;
    if e.id in s.db.attempts {
      RowFacts(s.db, e.id);
    }
    SameFinishesNone(s.db);
    if e.Submit? || e.id in s.seenExpired {
      FinishOne(s.db, e.id, e.Expire?, s.clock);
    }
  }

  lemma OtherStepFinishes(s: State, e: Event)
    requires e.JoinRoster? || e.Bind? || e.LandAutosave? || e.Mark? || e.Preview?
    requires e.Preview? ==> Invariant(s.db)
    ensures FinishesWell(s.db, DbAfter(s, e).attempts)
  {
    hide FinishedWell, Invariant, StartTransaction, AfterFinalize, AfterReset, PreviewReset;
    if e.Preview? {
      PreviewStepFinishes(s, e);
    }
  }

  lemma PreviewStepFinishes(s: State, e: Event)
    requires Invariant(s.db) && e.Preview?
    ensures DbAfter(s, e).attempts == s.db.attempts
  {
    hide PreviewReset;
    PreviewTransaction(s.db, e.c, s.clock);
  }

  /** Every step that finishes a sitting records the stored answers' total, and auto-submits only past the due time. */
  lemma StepFinishesWell(s: State, e: Event)
    requires NodeOk(s)
    ensures FinishesWell(s.db, Next(s, e).db.attempts)
  {
    hide DbAfter, Invariant, FinishesWell, PendingOk, HarvestOk, SeenOk, CheckedAnswers, Next;
    NextDb(s, e);
    if e.Start? { StartFinishesWell(s, e); }
    else if e.Reset? { ResetStepFinishes(s, e); }
    else if e.Submit? || e.Expire? { FinalizeStepFinishes(s, e); }
    else if Quiet(e) { QuietRows(s, e); SameFinishesNone(s.db); }
    else { OtherStepFinishes(s, e); }
  }

  // ---- Automatic submission only past the due time ----

  ghost predicate AutoLate(attempts: Attempts) {
    forall id :: id in attempts && attempts[id].status.AutoSubmitted? ==>
      attempts[id].autoSubmittedAt.Some? && attempts[id].dueAt < attempts[id].autoSubmittedAt.value
  }

  lemma AutoLateStep(db: Database, after: Attempts)
    requires AutoLate(db.attempts) && AllMove(db.attempts, after) && FinishesWell(db, after)
    ensures AutoLate(after)
  {
    forall id | id in after && after[id].status.AutoSubmitted?
      ensures after[id].autoSubmittedAt.Some? && after[id].dueAt < after[id].autoSubmittedAt.value
    {
      assert id in db.attempts && Moves(db.attempts[id], after[id]);
      assert db.attempts[id].status.InProgress? ==> FinishedWell(after[id], db.AnswersOf(id));
    }
  }

  /** Sweeper, state read and restart auto-submit a sitting only after its due time, over every run. */
  lemma {:induction false} AutoSubmittedLate(s: State, es: seq<Event>)
    requires Init(s)
    ensures AutoLate(Run(s, es).db.attempts)
  {
    hide Init, Next, NodeOk, Invariant, AutoLate, AllMove, FinishesWell;
    if es == [] {
      InitEmpty(s);
      assert AutoLate(map[]) by { NobodyLate(); }
    } else {
      var before, e := Run(s, es[..|es| - 1]), es[|es| - 1];
      AutoSubmittedLate(s, es[..|es| - 1]);
      Reachable(s, es[..|es| - 1]);
      StepMoves(before, e);
      StepFinishesWell(before, e);
      AutoLateStep(before.db, Next(before, e).db.attempts);
    }
  }

  lemma NobodyLate()
    ensures AutoLate(map[])
  {
  }

  // ---- Writes that land late ----

  /** A write newer than what is stored lands on a sitting that was finished after its check. */
  predicate LateWrite(s: State, e: Event, id: Id) {
    && e.LandAutosave? && e.w in s.pending && e.w.attemptId == id
    && id in s.db.attempts && s.db.attempts[id].Finished()
    && !Answers.Stale(Answers.AnswerFor(s.db.AnswersOf(id), e.w.itemId), e.w)
  }

  /** The stored answers of a finished sitting change exactly when such a write lands. */
  lemma FinishedAnswersFrozenIff(s: State, e: Event, id: Id)
    requires NodeOk(s) && id in s.db.attempts && s.db.attempts[id].Finished()
    ensures Next(s, e).db.AnswersOf(id) == s.db.AnswersOf(id) <==> !LateWrite(s, e, id)
  {
    hide Invariant, PendingOk, SeenOk, HarvestOk, AllMove, ReceiptsKept, Next;
    StepMoves(s, e);
    if e.LandAutosave? {
      LandedAnswers(s, e.w, id);
      Answers.UpsertChangesIffFresh(s.db.AnswersOf(id), e.w);
    }
  }

  lemma LandedAnswers(s: State, w: Answer, id: Id)
    ensures Next(s, LandAutosave(w)).db.AnswersOf(id) ==
      if w in s.pending && w.attemptId == id then Answers.Upsert(s.db.AnswersOf(id), w) else s.db.AnswersOf(id)
  {
    hide Answers.Upsert;
  }

  ghost predicate Timely(s: State, e: Event) {
    forall id :: !LateWrite(s, e, id)
  }

  /** A run in which every write lands before its sitting is finished, or is stale by then. */
  ghost predicate TimelyRun(s: State, es: seq<Event>) {
    es == [] || (TimelyRun(s, es[..|es| - 1]) && Timely(Run(s, es[..|es| - 1]), es[|es| - 1]))
  }

  /** Payloads of the present generation carry the stored answers, and scores are their totals. */
  ghost predicate AnswersCurrent(s: State) {
    && (forall p :: InPlay(s, p) && p.id in s.db.attempts && p.resetGeneration == s.db.attempts[p.id].resetGeneration ==>
          p.answers == AnswerPayloads(s.db.AnswersOf(p.id)))
    && (forall id :: id in s.db.attempts && s.db.attempts[id].Finished() ==>
          s.db.attempts[id].score == Some(Answers.Total(s.db.AnswersOf(id))))
  }

  lemma ScoresStayCurrent(s: State, e: Event, id: Id)
    requires NodeOk(s) && AnswersCurrent(s) && Timely(s, e)
    requires id in Next(s, e).db.attempts && Next(s, e).db.attempts[id].Finished()
    ensures Next(s, e).db.attempts[id].score == Some(Answers.Total(Next(s, e).db.AnswersOf(id)))
  {
    hide Invariant, PendingOk, SeenOk, HarvestOk, ReceiptsKept, Next, AnswerPayloads;
    assert !LateWrite(s, e, id);
    StepMoves(s, e);
    StepFinishesWell(s, e);
    assert id in s.db.attempts && Moves(s.db.attempts[id], Next(s, e).db.attempts[id]);
    if s.db.attempts[id].Finished() {
      FinishedAnswersFrozenIff(s, e, id);
    } else {
      assert FinishedWell(Next(s, e).db.attempts[id], s.db.AnswersOf(id));
      if e.LandAutosave? { NextDb(s, e); }
    }
  }

  /** A payload in play after a step was in play before, or was read from the stored answers in it. */
  lemma PlayGrows(s: State, e: Event, p: AttemptPayload)
    requires InPlay(Next(s, e), p)
    ensures InPlay(s, p) || (e.ReadAnswers? && s.drain.Draining? && e.row in s.drain.listed
                             && p == PayloadOf(e.row, AnswerPayloads(s.db.AnswersOf(e.row.id))))
  {
    hide DbAfter, CheckedAnswers, AnswerPayloads, PayloadOf;
  }

  lemma PayloadsStayCurrent(s: State, e: Event, p: AttemptPayload)
    requires NodeOk(s) && AnswersCurrent(s) && Timely(s, e)
    requires InPlay(Next(s, e), p) && p.id in Next(s, e).db.attempts
    requires p.resetGeneration == Next(s, e).db.attempts[p.id].resetGeneration
    ensures p.answers == AnswerPayloads(Next(s, e).db.AnswersOf(p.id))
  {
    hide Invariant, PendingOk, SeenOk, ReceiptsKept, Next, AnswerPayloads, MarksAccepted, InPlay;
    assert !LateWrite(s, e, p.id);
    PlayGrows(s, e, p);
    StepMoves(s, e);
    if InPlay(s, p) {
      assert PayloadOk(s.db.attempts, p);
      assert Moves(s.db.attempts[p.id], Next(s, e).db.attempts[p.id]);
      FinishedAnswersFrozenIff(s, e, p.id);
    }
  }

  lemma {:induction false} TimelyRunCurrent(s: State, es: seq<Event>)
    requires Init(s) && TimelyRun(s, es)
    ensures AnswersCurrent(Run(s, es))
  {
    hide Next, NodeOk, Invariant, Timely, AnswerPayloads;
    if es != [] {
      var before, e := Run(s, es[..|es| - 1]), es[|es| - 1];
      TimelyRunCurrent(s, es[..|es| - 1]);
      Reachable(s, es[..|es| - 1]);
      StaysCurrent(before, e);
    }
  }

  lemma StaysCurrent(s: State, e: Event)
    requires NodeOk(s) && AnswersCurrent(s) && Timely(s, e)
    ensures AnswersCurrent(Next(s, e))
  {
    hide Next, NodeOk, Timely, AnswerPayloads, InPlay;
    forall p | InPlay(Next(s, e), p) && p.id in Next(s, e).db.attempts
               && p.resetGeneration == Next(s, e).db.attempts[p.id].resetGeneration
      ensures p.answers == AnswerPayloads(Next(s, e).db.AnswersOf(p.id))
    {
      hide AnswersCurrent;
      PayloadsStayCurrent(s, e, p);
    }
    forall id | id in Next(s, e).db.attempts && Next(s, e).db.attempts[id].Finished()
      ensures Next(s, e).db.attempts[id].score == Some(Answers.Total(Next(s, e).db.AnswersOf(id)))
    {
      hide AnswersCurrent;
      ScoresStayCurrent(s, e, id);
    }
  }

  /** In a timely run whoever is marked harvested was accepted with exactly the stored answers. */
  lemma TimelyRunDelivers(s: State, es: seq<Event>, id: Id)
    requires Init(s) && TimelyRun(s, es)
    requires id in Run(s, es).db.attempts && Run(s, es).db.attempts[id].harvestedAt.Some?
    ensures var t := Run(s, es);
      t.db.attempts[id].Finished() && Accepted(t.central, t.db.attempts[id], t.db.AnswersOf(id))
  {
    hide Init, Run, TimelyRun, NodeOk, AnswerPayloads, Accepted;
    TimelyRunCurrent(s, es);
    HarvestedWasAccepted(s, es, id);
    var t := Run(s, es);
    AcceptedIff(t.central, t.db.attempts[id], t.db.AnswersOf(id));
    var p :| p in t.central && Describes(p, t.db.attempts[id]);
    DescribesIff(p, t.db.attempts[id]);
    assert InPlay(t, p) && p.id == t.db.attempts[id].id;
    Reachable(s, es);
    assert t.db.attempts[id].id == id by { hide *; RowFacts(t.db, id); }
  }

  /** In a timely run the score of a finished sitting is the total of its stored answers, and stays so. */
  lemma TimelyScore(s: State, es: seq<Event>, id: Id)
    requires Init(s) && TimelyRun(s, es)
    requires id in Run(s, es).db.attempts && Run(s, es).db.attempts[id].Finished()
    ensures Run(s, es).db.attempts[id].score == Some(Answers.Total(Run(s, es).db.AnswersOf(id)))
  {
    hide Init, Run, TimelyRun, AnswerPayloads;
    TimelyRunCurrent(s, es);
  }

  // ---- Autosaves as one step ----

  /** No other step comes between an autosave's check and its write. */
  ghost predicate WholeAutosaves(s: State, es: seq<Event>) {
    es == [] || (WholeAutosaves(s, es[..|es| - 1])
                 && (Run(s, es[..|es| - 1]).pending == {} || es[|es| - 1].LandAutosave?))
  }

  /** Every checked write is for a sitting that is still open. */
  ghost predicate PendingOpen(s: State) {
    forall w :: w in s.pending ==> w.attemptId in s.db.attempts && s.db.attempts[w.attemptId].status.InProgress?
  }

  lemma PendingStaysOpen(s: State, e: Event)
    requires PendingOpen(s) && (s.pending == {} || e.LandAutosave?)
    ensures PendingOpen(Next(s, e))
  {
    hide Answers.Upsert;
    if e.CheckAutosave? {
      assert DbAfter(s, e) == s.db;
    }
  }

  /** Were an autosave one step, every run would be timely, and no work would ever be lost. */
  lemma {:induction false} WholeAutosavesAreTimely(s: State, es: seq<Event>)
    requires Init(s) && WholeAutosaves(s, es)
    ensures TimelyRun(s, es) && PendingOpen(Run(s, es))
  {
    hide Next;
    if es != [] {
      WholeAutosavesAreTimely(s, es[..|es| - 1]);
      PendingStaysOpen(Run(s, es[..|es| - 1]), es[|es| - 1]);
    }
  }
}
