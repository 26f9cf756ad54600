/**
  What holds of whole runs of the node: payloads Central accepted, finalisations per generation,
  frozen rows, receipts that outlive everything, and the time windows.
 */
module SittingHistory {
  import opened Common
  import opened Entities
  import opened AttemptModel
  import opened SittingInvariant
  import opened SittingSteps
  import opened SittingMachine
  import opened Payloads
  import Answers

  // ---- Runs ----

  /** Every state a node can reach is in order. */
  lemma Reachable(s: State, es: seq<Event>)
    requires Init(s)
    ensures NodeOk(Run(s, es)) && Invariant(Run(s, es).db)
  {
    hide Run, Init, Invariant, PendingOk, SeenOk, HarvestOk;
    InitOk(s);
    RunKeeps(s, es);
  }

  lemma RunNext(s: State, es: seq<Event>, e: Event)
    ensures Run(s, es + [e]) == Next(Run(s, es), e)
  {
    hide Next;
    assert (es + [e])[..|es + [e]| - 1] == es;
  }

  lemma {:induction false} RunOn(s: State, es: seq<Event>, more: seq<Event>)
    ensures Run(s, es + more) == Run(Run(s, es), more)
  {
    hide Next;
    if more == [] {
      assert es + more == es;
    } else {
      var front := more[..|more| - 1];
      assert (es + more)[..|es + more| - 1] == es + front;
      RunOn(s, es, front);
    }
  }

  // ---- No lost work, for every run ----

  /** Whoever is marked harvested is finished, and Central accepted a payload of its generation, status and times. */
  lemma HarvestedWasAccepted(s: State, es: seq<Event>, id: Id)
    requires Init(s)
    requires id in Run(s, es).db.attempts && Run(s, es).db.attempts[id].harvestedAt.Some?
    ensures Run(s, es).db.attempts[id].Finished()
    ensures exists p :: p in Run(s, es).central && Describes(p, Run(s, es).db.attempts[id])
  {
    hide Run, Init, Invariant, PendingOk, SeenOk, ListedOk;
    Reachable(s, es);
    HarvestedInState(Run(s, es), id);
  }

  lemma HarvestedInState(t: State, id: Id)
    requires HarvestOk(t) && id in t.db.attempts && t.db.attempts[id].harvestedAt.Some?
    ensures t.db.attempts[id].Finished()
    ensures exists p :: p in t.central && Describes(p, t.db.attempts[id])
  {
    hide ListedOk;
    var a := t.db.attempts[id];
    assert AcceptedAt(t.central, id, a.resetGeneration);
    var p :| p in t.central && p.id == id && p.resetGeneration == a.resetGeneration;
    assert InPlay(t, p);
    DescribesIff(p, a);
  }

  // ---- Finalisations ----

  /** This step takes the attempt from in progress to finished. */
  ghost predicate Finalises(s: State, e: Event, id: Id) {
    && id in s.db.attempts && s.db.attempts[id].status.InProgress?
    && id in Next(s, e).db.attempts && Next(s, e).db.attempts[id].Finished()
  }

  /** How often a run finalises the attempt while it is in generation `g`. */
  ghost function FinalisationsIn(s: State, es: seq<Event>, id: Id, g: int): nat {
    if es == [] then 0
    else
      var before, e := Run(s, es[..|es| - 1]), es[|es| - 1];
      FinalisationsIn(s, es[..|es| - 1], id, g) +
      if Finalises(before, e, id) && before.db.attempts[id].resetGeneration == g then 1 else 0
  }

  /**
    Submit, sweep, state read and restart together finalise each past generation once, and the present one
    once it is finished.
   */
  lemma {:induction false} OneWinnerPerGeneration(s: State, es: seq<Event>, id: Id, g: int)
    requires Init(s) && g >= 0
    ensures var t := Run(s, es).db.attempts;
      FinalisationsIn(s, es, id, g) ==
      if id in t && (g < t[id].resetGeneration || (g == t[id].resetGeneration && t[id].Finished())) then 1 else 0
    ensures id in Run(s, es).db.attempts ==> 0 <= Run(s, es).db.attempts[id].resetGeneration
  {
    hide Init, Next, DbAfter, Invariant, NodeOk;
    if es == [] {
      assert s.db.attempts == map[] by { InitEmpty(s); }
    } else {
      var before, e := Run(s, es[..|es| - 1]), es[|es| - 1];
      OneWinnerPerGeneration(s, es[..|es| - 1], id, g);
      Reachable(s, es[..|es| - 1]);
      StepMoves(before, e);
      assert id in before.db.attempts ==> Moves(before.db.attempts[id], Next(before, e).db.attempts[id]);
    }
  }

  lemma InitEmpty(s: State)
    requires Init(s)
    ensures s.db.attempts == map[]
  {
  }

  lemma StepMoves(s: State, e: Event)
    requires Invariant(s.db)
    ensures AllMove(s.db.attempts, Next(s, e).db.attempts) && ReceiptsKept(s.db.operations, Next(s, e).db.operations)
    ensures Next(s, e).db.exams == s.db.exams && Next(s, e).db.items == s.db.items
    ensures !e.LandAutosave? ==> Next(s, e).db.answers == s.db.answers
  {
    hide Invariant, DbAfter, AllMove, ReceiptsKept;
    StepRows(s, e);
    WithDb(s, e, DbAfter(s, e), CheckedAnswers(s, e));
  }

  /** The number of finalisations of one attempt over all its generations. */
  ghost function Finalisations(s: State, es: seq<Event>, id: Id): nat {
    if es == [] then 0
    else Finalisations(s, es[..|es| - 1], id) + if Finalises(Run(s, es[..|es| - 1]), es[|es| - 1], id) then 1 else 0
  }

  /** Finalisations are conserved: one per reset, and one more when the attempt is finished. */
  lemma {:induction false} FinalisationsConserved(s: State, es: seq<Event>, id: Id)
    requires Init(s)
    ensures var t := Run(s, es).db.attempts;
      Finalisations(s, es, id) == if id in t then t[id].resetGeneration + (if t[id].Finished() then 1 else 0) else 0
  {
    hide Init, Next, DbAfter, Invariant, NodeOk;
    if es == [] {
      assert s.db.attempts == map[] by { InitEmpty(s); }
    } else {
      var before, e := Run(s, es[..|es| - 1]), es[|es| - 1];
      FinalisationsConserved(s, es[..|es| - 1], id);
      Reachable(s, es[..|es| - 1]);
      StepMoves(before, e);
      assert id in before.db.attempts ==> Moves(before.db.attempts[id], Next(before, e).db.attempts[id]);
    }
  }

  // ---- Frozen rows and fixed windows ----

  lemma EvolvesOn(a: Attempt, b: Attempt, c: Attempt)
    requires Evolves(a, b) && Moves(b, c)
    ensures Evolves(a, c)
  {
  }

  /** Over any run a row keeps its window, number and device, and is frozen while finished in one generation. */
  lemma {:induction false} RowsEvolve(s: State, es: seq<Event>, id: Id)
    requires NodeOk(s) && id in s.db.attempts
    ensures NodeOk(Run(s, es)) && id in Run(s, es).db.attempts && Evolves(s.db.attempts[id], Run(s, es).db.attempts[id])
  {
    hide Next, NodeOk, Invariant, Evolves, Moves;
    if es == [] {
      assert Evolves(s.db.attempts[id], s.db.attempts[id]) by { Reflexive(s.db.attempts[id]); }
    } else {
      var before, e := Run(s, es[..|es| - 1]), es[|es| - 1];
      RowsEvolve(s, es[..|es| - 1], id);
      StepKeeps(before, e);
      assert Invariant(before.db) by { NodeInvariant(before); }
      StepMoves(before, e);
      EvolvesOn(s.db.attempts[id], before.db.attempts[id], Next(before, e).db.attempts[id]);
    }
  }

  lemma Reflexive(a: Attempt)
    ensures Evolves(a, a)
  {
  }

  lemma NodeInvariant(s: State)
    requires NodeOk(s)
    ensures Invariant(s.db)
  {
    hide Invariant;
  }

  /** The window of a sitting is set once, ends with its duration or its exam, whichever is earlier, and never moves again. */
  lemma WindowFixed(s: State, es: seq<Event>, more: seq<Event>, id: Id)
    requires Init(s) && id in Run(s, es).db.attempts
    ensures id in Run(s, es + more).db.attempts
    ensures var (a, b) := (Run(s, es).db.attempts[id], Run(s, es + more).db.attempts[id]);
      && a.startedAt == b.startedAt && a.dueAt == b.dueAt && a.attemptNo == b.attemptNo && a.participantId == b.participantId
      && (a.deviceId != "" ==> b.deviceId == a.deviceId)
      && (a.Finished() && a.resetGeneration == b.resetGeneration ==> b.(harvestedAt := None) == a.(harvestedAt := None))
    ensures var (t, b) := (Run(s, es + more).db, Run(s, es + more).db.attempts[id]);
      b.examId in t.exams && var (last, end) := (b.startedAt + t.exams[b.examId].durationMinutes * 60, t.exams[b.examId].endsAt);
      b.startedAt <= b.dueAt && b.dueAt == if last <= end then last else end
  {
    hide Init, Run, Invariant, NodeOk, RowOk;
    Reachable(s, es);
    RunOn(s, es, more);
    RowsEvolve(Run(s, es), more, id);
    Reachable(s, es + more);
    WindowOk(Run(s, es + more).db, id);
  }

  lemma WindowOk(db: Database, id: Id)
    requires Invariant(db) && id in db.attempts
    ensures var b := db.attempts[id];
      b.examId in db.exams && var (last, end) := (b.startedAt + db.exams[b.examId].durationMinutes * 60, db.exams[b.examId].endsAt);
      b.startedAt <= b.dueAt && b.dueAt == if last <= end then last else end
  {
    hide BundleOk, CountersOk, PlacesOk, NumbersUnique, NumbersComplete, AnswersOk, OperationsOk;
    assert RowOk(db.exams, db.attempts[id]);
  }

  // ---- One sitting at a time ----

  /**
    In every reachable state a participant's attempts are numbered 1 to the count, and at most one, the
    latest, is open.
   */
  lemma OneSittingAtATime(s: State, es: seq<Event>, p: Id, n: int)
    requires Init(s) && p in Run(s, es).db.participants
    ensures var t := Run(s, es).db;
      var r := t.participants[p];
      && (HasNumber(t.attempts, p, n) <==> 1 <= n <= r.attemptCount)
      && (forall i, j :: NumberedAt(t.attempts, p, n, i) && NumberedAt(t.attempts, p, n, j) ==> i == j)
      && FindLatest(t, p, r.examId) == r.latestAttemptId
      && (r.attemptCount > 0 ==> r.examId in t.exams && r.attemptCount <= t.exams[r.examId].maxAttempts)
    ensures var t := Run(s, es).db;
      forall i :: i in t.attempts && t.attempts[i].participantId == p && t.attempts[i].status.InProgress? ==>
        t.participants[p].latestAttemptId == Some(i)
  {
    hide Init, Run, SittingsOk, OperationsOk, FindLatest, HasNumber;
    Reachable(s, es);
    var t := Run(s, es).db;
    AttemptNumbers(t, p, n);
    LatestAgrees(t, p);
    forall i | i in t.attempts && t.attempts[i].participantId == p && t.attempts[i].status.InProgress?
      ensures t.participants[p].latestAttemptId == Some(i)
    {
      SingleSitting(t, i, i);
    }
  }

  /** Every finalised score lies between zero and the exam's maximum, and needs a human exactly when an item does. */
  lemma ScoresBounded(s: State, es: seq<Event>, id: Id)
    requires Init(s) && id in Run(s, es).db.attempts && Run(s, es).db.attempts[id].Finished()
    ensures var (t, a) := (Run(s, es).db, Run(s, es).db.attempts[id]);
      && a.examId in t.exams && a.score.Some?
      && 0 <= a.score.value <= t.exams[a.examId].maxScore
      && t.exams[a.examId].maxScore == Answers.PointsOf(t.items, Answers.ItemsOfExam(t.items, a.examId))
      && (a.gradingStatus.ManualRequired? <==>
            exists i :: i in t.items && t.items[i].examId == a.examId && t.items[i].requiresManualGrading)
  {
    hide Init, Run, OperationsOk, CountersOk, PlacesOk, NumbersUnique, NumbersComplete, AnswersOk;
    Reachable(s, es);
    var t := Run(s, es).db;
    assert RowOk(t.exams, t.attempts[id]);
    assert ExamOk(t.exams, t.items, t.attempts[id].examId);
  }
}
