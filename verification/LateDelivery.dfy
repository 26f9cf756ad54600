/**
  Exactly when a harvested sitting's stored answers were accepted by Central, and how far a score drifts from
  the stored answers, over every run: writes may land after the sitting was finished, read or harvested.
 */
module LateDelivery {
  import opened Common
  import opened Entities
  import opened AttemptModel
  import opened SittingInvariant
  import opened SittingSteps
  import opened SittingMachine
  import opened SittingHistory
  import opened LateAnswers
  import opened Overwrites
  import opened Payloads
  import Answers

  /** The answers written to an attempt in the steps of a run from step `i` on. */
  ghost function Landed(s: State, es: seq<Event>, i: nat, id: Id): seq<Answer>
    requires i <= |es|
  {
    if i == |es| then []
    else
      var before, e := Run(s, es[..|es| - 1]), es[|es| - 1];
      Landed(s, es[..|es| - 1], i, id) + if Lands(before, e, id) then [e.w] else []
  }

  predicate Lands(s: State, e: Event, id: Id) {
    e.LandAutosave? && e.w in s.pending && e.w.attemptId == id
  }

  /** The stored answers are those stored at step `i`, overwritten by what landed since. */
  lemma {:induction false} AnswersSince(s: State, es: seq<Event>, i: nat, id: Id)
    requires Init(s) && i <= |es|
    ensures Run(s, es).db.AnswersOf(id) == Answers.UpsertAll(Run(s, es[..i]).db.AnswersOf(id), Landed(s, es, i, id))
  {
    hide Init, Next, NodeOk, Invariant, Answers.Upsert, AllMove, ReceiptsKept;
    if i == |es| {
      assert es[..i] == es;
    } else {
      var front, e := es[..|es| - 1], es[|es| - 1];
      var before := Run(s, front);
      AnswersSince(s, front, i, id);
      assert front[..i] == es[..i];
      Reachable(s, front);
      StepAnswers(before, e, id);
      var ws := Landed(s, es, i, id);
      if Lands(before, e, id) {
        assert ws[..|ws| - 1] == Landed(s, front, i, id) && ws[|ws| - 1] == e.w;
      } else {
        assert ws == Landed(s, front, i, id);
      }
    }
  }

  lemma StepAnswers(s: State, e: Event, id: Id)
    requires Invariant(s.db)
    ensures Next(s, e).db.AnswersOf(id) == if Lands(s, e, id) then Answers.Upsert(s.db.AnswersOf(id), e.w) else s.db.AnswersOf(id)
  {
    hide Invariant, Next, AllMove, ReceiptsKept;
    StepMoves(s, e);
    if e.LandAutosave? {
      LandedAnswers(s, e.w, id);
    }
  }

  // ---- Payloads and the step that read them ----

  /** Step `i` of the run reads this payload. */
  ghost predicate ReadAt(s: State, es: seq<Event>, i: int, p: AttemptPayload) {
    && 0 <= i < |es| && es[i].ReadAnswers?
    && var before, row := Run(s, es[..i]), es[i].row;
    && before.drain.Draining? && row in before.drain.listed
    && Reports(p, row, before.db.AnswersOf(row.id))
  }

  lemma {:induction false} PayloadsWereRead(s: State, es: seq<Event>, p: AttemptPayload)
    requires Init(s) && InPlay(Run(s, es), p)
    ensures exists i :: ReadAt(s, es, i, p)
  {
    hide Next, AnswerPayloads, PayloadOf, Reports;
    if es != [] {
      hide Init;
      var front, e := es[..|es| - 1], es[|es| - 1];
      PlayGrows(Run(s, front), e, p);
      if e.ReadAnswers? { ReportsIff(p, e.row, Run(s, front).db.AnswersOf(e.row.id)); }
      if InPlay(Run(s, front), p) {
        PayloadsWereRead(s, front, p);
        var i :| ReadAt(s, front, i, p);
        assert front[..i] == es[..i];
        assert ReadAt(s, es, i, p);
      } else {
        assert ReadAt(s, es, |front|, p);
      }
    }
  }

  // ---- Delivery ----

  /** Central accepted a payload with the row's generation, status and times and exactly the stored answers. */
  ghost predicate Delivered(t: State, id: Id)
    requires id in t.db.attempts
  {
    Accepted(t.central, t.db.attempts[id], t.db.AnswersOf(id))
  }

  /**
    Step `i` read a payload of this generation that Central accepted by the end of the run, and the answers landed
    since show what was read.
   */
  ghost predicate ReadForGood(s: State, es: seq<Event>, i: int, p: AttemptPayload, id: Id, generation: int) {
    && ReadAt(s, es, i, p) && p.id == id && p.resetGeneration == generation && p in Run(s, es).central
    && Repeats(Run(s, es[..i]).db.AnswersOf(id), Landed(s, es, i, id))
  }

  lemma SinceShowsIff(s: State, es: seq<Event>, i: nat, id: Id)
    requires Init(s) && i <= |es|
    ensures AnswerPayloads(Run(s, es).db.AnswersOf(id)) == AnswerPayloads(Run(s, es[..i]).db.AnswersOf(id))
        <==> Repeats(Run(s, es[..i]).db.AnswersOf(id), Landed(s, es, i, id))
  {
    hide *;
    Reachable(s, es[..i]);
    OneRowPerItem(Run(s, es[..i]).db, id);
    AnswersSince(s, es, i, id);
    ShownIffRepeats(Run(s, es[..i]).db.AnswersOf(id), Landed(s, es, i, id));
  }

  lemma OneRowPerItem(db: Database, id: Id)
    requires Invariant(db)
    ensures Answers.OnePerItem(db.AnswersOf(id))
  {
    hide BundleOk, CountersOk, PlacesOk, RowsOk, NumbersUnique, NumbersComplete, OperationsOk, Answers.OnePerItem;
    AnswersOfOk(db, id);
  }

  /**
    No lost work, exactly: a harvested sitting's stored answers were accepted by Central if and only if some accepted
    payload of its present generation was read, and the writes landed since then show what was read.
   */
  lemma NoLostWork(s: State, es: seq<Event>, id: Id)
    requires Init(s)
    requires id in Run(s, es).db.attempts && Run(s, es).db.attempts[id].harvestedAt.Some?
    ensures Run(s, es).db.attempts[id].Finished()
    ensures Delivered(Run(s, es), id) <==>
            exists i, p :: ReadForGood(s, es, i, p, id, Run(s, es).db.attempts[id].resetGeneration)
  {
    hide Init, Run, NodeOk, AnswerPayloads, Repeats, Landed, Accepted, Reports;
    var t := Run(s, es);
    AcceptedIff(t.central, t.db.attempts[id], t.db.AnswersOf(id));
    HarvestedWasAccepted(s, es, id);
    Reachable(s, es);
    assert t.db.attempts[id].id == id by { hide *; RowFacts(t.db, id); }
    if Delivered(t, id) {
      var p := PayloadOf(t.db.attempts[id], AnswerPayloads(t.db.AnswersOf(id)));
      PayloadsWereRead(s, es, p);
      var i :| ReadAt(s, es, i, p);
      ReportsIff(p, es[i].row, Run(s, es[..i]).db.AnswersOf(es[i].row.id));
      SinceShowsIff(s, es, i, id);
      assert ReadForGood(s, es, i, p, id, t.db.attempts[id].resetGeneration);
    }
    if i, p :| ReadForGood(s, es, i, p, id, t.db.attempts[id].resetGeneration) {
      SinceShowsIff(s, es, i, id);
      ReportsIff(p, es[i].row, Run(s, es[..i]).db.AnswersOf(es[i].row.id));
      assert InPlay(t, p);
      PayloadIsRow(t, p);
    }
  }

  lemma PayloadIsRow(t: State, p: AttemptPayload)
    requires NodeOk(t) && InPlay(t, p) && p.id in t.db.attempts && p.resetGeneration == t.db.attempts[p.id].resetGeneration
    ensures p == PayloadOf(t.db.attempts[p.id], p.answers)
  {
    hide Invariant, PendingOk, SeenOk, InPlay, MarksAccepted;
  }

  /** The statement that marks: what it newly marks is delivered on exactly this condition on the run before it. */
  lemma MarkDeliversIff(s: State, es: seq<Event>, id: Id)
    requires Init(s) && id in Run(s, es).db.attempts && Run(s, es).db.attempts[id].harvestedAt.None?
    requires id in Next(Run(s, es), Mark).db.attempts && Next(Run(s, es), Mark).db.attempts[id].harvestedAt.Some?
    ensures Delivered(Next(Run(s, es), Mark), id) <==>
            exists i, p :: ReadForGood(s, es, i, p, id, Run(s, es).db.attempts[id].resetGeneration)
  {
    hide Init, Run, Next, NodeOk, Delivered, ReadForGood;
    var more := es + [Mark];
    assert Run(s, more) == Next(Run(s, es), Mark) by { RunNext(s, es, Mark); }
    NoLostWork(s, more, id);
    Reachable(s, es);
    MarkKeepsGeneration(Run(s, es), id);
    forall i, p ensures ReadForGood(s, more, i, p, id, Run(s, es).db.attempts[id].resetGeneration)
                   <==> ReadForGood(s, es, i, p, id, Run(s, es).db.attempts[id].resetGeneration) {
      ReadBeforeMark(s, es, i, p, id, Run(s, es).db.attempts[id].resetGeneration);
    }
  }

  lemma MarkKeepsGeneration(s: State, id: Id)
    requires NodeOk(s) && id in s.db.attempts
    ensures id in Next(s, Mark).db.attempts && Next(s, Mark).db.attempts[id].resetGeneration == s.db.attempts[id].resetGeneration
    ensures Next(s, Mark).central == s.central
  {
    hide NodeOk;
  }

  lemma ReadBeforeMark(s: State, es: seq<Event>, i: int, p: AttemptPayload, id: Id, generation: int)
    requires Run(s, es + [Mark]).central == Run(s, es).central
    ensures ReadForGood(s, es + [Mark], i, p, id, generation) <==> ReadForGood(s, es, i, p, id, generation)
  {
    hide Next, AnswerPayloads, Repeats, PayloadOf;
    var more := es + [Mark];
    assert more[..|more| - 1] == es && more[|more| - 1] == Mark;
    if 0 <= i < |es| {
      assert more[..i] == es[..i];
      assert Landed(s, more, i, id) == Landed(s, es, i, id);
    }
  }

  /**
    One step: a delivered sitting stays delivered exactly unless a late write lands on it that makes its answers show
    what Central has not accepted.
   */
  lemma StepDeliversIff(s: State, e: Event, id: Id)
    requires NodeOk(s) && id in s.db.attempts && s.db.attempts[id].harvestedAt.Some? && Delivered(s, id)
    ensures var t := Next(s, e);
      && id in t.db.attempts
      && ((t.db.attempts[id].harvestedAt.Some? ==> Delivered(t, id)) <==>
          !(LateWrite(s, e, id)
            && !Accepted(s.central, s.db.attempts[id], Answers.Upsert(s.db.AnswersOf(id), e.w))))
  {
    hide Next, NodeOk, Invariant, AnswerPayloads, Answers.Upsert, ReceiptsKept, Accepted;
    var t := Next(s, e);
    AcceptedIff(s.central, s.db.attempts[id], s.db.AnswersOf(id));
    if e.LandAutosave? { AcceptedIff(s.central, s.db.attempts[id], Answers.Upsert(s.db.AnswersOf(id), e.w)); }
    if id in t.db.attempts { AcceptedIff(t.central, t.db.attempts[id], t.db.AnswersOf(id)); }
    NodeInvariant(s);
    HarvestedIsFinished(s.db, id);
    StepMoves(s, e);
    StepAnswers(s, e, id);
    CentralGrows(s, e);
    StepKeeps(s, e);
    NodeInvariant(t);
    if t.db.attempts[id].harvestedAt.Some? {
      HarvestedIsFinished(t.db, id);
    }
    FinishedAnswersFrozenIff(s, e, id);
    if LateWrite(s, e, id) {
      LandingOnly(s, e.w);
    }
  }

  lemma HarvestedIsFinished(db: Database, id: Id)
    requires Invariant(db) && id in db.attempts && db.attempts[id].harvestedAt.Some?
    ensures db.attempts[id].Finished()
  {
    hide BundleOk, CountersOk, PlacesOk, NumbersUnique, NumbersComplete, OperationsOk, AnswersOk;
  }

  lemma CentralGrows(s: State, e: Event)
    ensures s.central <= Next(s, e).central
  {
    hide DbAfter, CheckedAnswers;
  }

  lemma LandingOnly(s: State, w: Answer)
    requires w in s.pending
    ensures Next(s, LandAutosave(w)).db.attempts == s.db.attempts && Next(s, LandAutosave(w)).central == s.central
  {
    hide Answers.Upsert;
  }

  // ---- Scores ----

  /** What the writes landed since an attempt was last finalised add to its total. */
  ghost function LateGain(s: State, es: seq<Event>, id: Id): int {
    if es == [] then 0
    else
      var before, e := Run(s, es[..|es| - 1]), es[|es| - 1];
      if Finalises(before, e, id) then 0
      else LateGain(s, es[..|es| - 1], id) + if Lands(before, e, id) then Gain(before.db.AnswersOf(id), e.w) else 0
  }

  /** The score of a finished sitting is the total of its stored answers, less what late writes added since. */
  lemma {:induction false} ScoreDrift(s: State, es: seq<Event>, id: Id)
    requires Init(s) && id in Run(s, es).db.attempts && Run(s, es).db.attempts[id].Finished()
    ensures Run(s, es).db.attempts[id].score == Some(Answers.Total(Run(s, es).db.AnswersOf(id)) - LateGain(s, es, id))
  {
    hide Next, NodeOk, Invariant, ReceiptsKept, Gain, Answers.Upsert, Answers.Total;
    if es == [] {
      InitEmpty(s);
    } else {
      hide Init;
      var front, e := es[..|es| - 1], es[|es| - 1];
      var before := Run(s, front);
      Reachable(s, front);
      StepMoves(before, e);
      StepAnswers(before, e, id);
      StepFinishesWell(before, e);
      assert id in before.db.attempts && Moves(before.db.attempts[id], Next(before, e).db.attempts[id]);
      if Finalises(before, e, id) {
        assert FinishedWell(Next(before, e).db.attempts[id], before.db.AnswersOf(id));
        if Lands(before, e, id) { LandingOnly(before, e.w); }
      } else {
        ScoreDrift(s, front, id);
        if Lands(before, e, id) { UpsertGains(before.db.AnswersOf(id), e.w); }
      }
    }
  }

  /** The score of a finished sitting is the total of its stored answers exactly when late writes added nothing to it. */
  lemma ScoreIsTotal(s: State, es: seq<Event>, id: Id)
    requires Init(s) && id in Run(s, es).db.attempts && Run(s, es).db.attempts[id].Finished()
    ensures Run(s, es).db.attempts[id].score == Some(Answers.Total(Run(s, es).db.AnswersOf(id))) <==> LateGain(s, es, id) == 0
  {
    hide *;
    ScoreDrift(s, es, id);
  }
}
