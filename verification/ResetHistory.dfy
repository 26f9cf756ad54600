/**
  Reset commands over whole runs: a receipt never changes, a repeated request is answered from it,
  and every generation of an attempt was produced by exactly one applied request.
 */
module ResetHistory {
  import opened Common
  import opened Entities
  import opened AttemptModel
  import opened SittingInvariant
  import opened SittingSteps
  import opened SittingMachine
  import opened SittingHistory

  /** No receipt is changed or removed by any later step. */
  lemma {:induction false} ReceiptsForever(s: State, es: seq<Event>)
    requires NodeOk(s)
    ensures NodeOk(Run(s, es)) && ReceiptsKept(s.db.operations, Run(s, es).db.operations)
  {
    hide Next, NodeOk, Invariant;
    if es != [] {
      var before, e := Run(s, es[..|es| - 1]), es[|es| - 1];
      ReceiptsForever(s, es[..|es| - 1]);
      StepKeeps(before, e);
      NodeInvariant(before);
      StepMoves(before, e);
    }
  }

  /** The receipt that answers a command: settled, of this very command, with this outcome. */
  ghost predicate Settles(operations: Operations, c: ResetCommand, o: ResetOutcome) {
    && c.requestId in operations
    && var op := operations[c.requestId];
    && op.commandHash == c && !op.status.OperationPending? && o == OperationOutcome(op)
  }

  /** An accepted reset leaves the receipt that answers it. */
  lemma ResetIsAnswered(db: Database, c: ResetCommand, now: Time, writeNow: Time)
    requires Invariant(db) && ApplyReset(db, c, now, writeNow).1.Ok?
    ensures ValidateReset(c).None?
    ensures Settles(AfterReset(db, c, now, writeNow).operations, c, ApplyReset(db, c, now, writeNow).1.value)
    ensures SameResetCommand(AfterReset(db, c, now, writeNow).operations[c.requestId], c)
  {
    assert ReceiptsOk(db.operations, db.attempts) && PlacesOk(db.participants, db.attempts);
    hide Invariant, Decide, OperationOk, SameResetCommand;
    if c.requestId in db.operations {
    } else {
      assert c.attemptId in db.attempts ==> PlacedOk(db.participants, db.attempts, c.attemptId);
      if Decide(db, c, now, writeNow).Reopen? {
        ReopenEffect(db, c, now, writeNow);
      } else {
        NotAppliedEffect(db, c, now, writeNow);
      }
    }
  }

  /** Resubmitting a reset at any later point returns the same outcome and writes nothing. */
  lemma ResetReplays(s: State, c: ResetCommand, delay: nat, es: seq<Event>, now: Time, writeNow: Time)
    requires NodeOk(s) && ApplyReset(s.db, c, s.clock, s.clock + delay).1.Ok?
    ensures var later := Run(Next(s, Reset(c, delay)), es).db;
      ApplyReset(later, c, now, writeNow) == (later, ApplyReset(s.db, c, s.clock, s.clock + delay).1)
  {
    hide *;
    var e := Reset(c, delay);
    NodeInvariant(s);
    ResetIsAnswered(s.db, c, s.clock, s.clock + delay);
    ResetIsAfter(s, e);
    NextDb(s, e);
    StepKeeps(s, e);
    ReceiptsForever(Next(s, e), es);
    var o := ApplyReset(s.db, c, s.clock, s.clock + delay).1.value;
    AnsweredIsReplayed(Next(s, e).db, Run(Next(s, e), es).db, c, o, now, writeNow);
  }

  lemma AnsweredIsReplayed(db: Database, later: Database, c: ResetCommand, o: ResetOutcome, now: Time, writeNow: Time)
    requires ReceiptsKept(db.operations, later.operations)
    requires Settles(db.operations, c, o) && SameResetCommand(db.operations[c.requestId], c) && ValidateReset(c).None?
    ensures ApplyReset(later, c, now, writeNow) == (later, Ok(o))
  {
    hide ValidateReset, SameResetCommand, OperationOutcome, Execute;
  }

  /** The receipt an accepted preview leaves; a command that names an attempt cannot have been a replay. */
  lemma PreviewIsAnswered(db: Database, c: ResetCommand, now: Time)
    requires Invariant(db) && PreviewReset(db, c, now).1.Ok?
    ensures ValidatePreview(c).None?
    ensures Settles(PreviewReset(db, c, now).0.operations, c, PreviewReset(db, c, now).1.value)
    ensures SameResetCommand(PreviewReset(db, c, now).0.operations[c.requestId], c) <==> c.attemptId == ""
  {
    assert ReceiptsOk(db.operations, db.attempts);
    hide Invariant, DecidePreview, FindLatest;
    if c.requestId !in db.operations {
      PreviewEffect(db, c, now);
    }
  }

  lemma PreviewIsAfter(s: State, c: ResetCommand)
    ensures Next(s, Preview(c)).db == PreviewReset(s.db, c, s.clock).0
  {
    hide PreviewReset;
  }

  lemma PreviewAnsweredAgain(db: Database, later: Database, c: ResetCommand, o: ResetOutcome, now: Time)
    requires ReceiptsKept(db.operations, later.operations)
    requires Settles(db.operations, c, o) && ValidatePreview(c).None?
    ensures PreviewReset(later, c, now) ==
            (later, if SameResetCommand(db.operations[c.requestId], c) then Ok(o) else Err(ResetConflict))
  {
    hide ValidatePreview, SameResetCommand, OperationOutcome, DecidePreview, FindLatest;
  }

  /**
    Resubmitting a preview returns the same outcome exactly when the command names no attempt; otherwise it
    conflicts.
   */
  lemma PreviewReplaysIff(s: State, c: ResetCommand, es: seq<Event>, now: Time)
    requires NodeOk(s) && PreviewReset(s.db, c, s.clock).1.Ok?
    ensures var later := Run(Next(s, Preview(c)), es).db;
      && PreviewReset(later, c, now).0 == later
      && (PreviewReset(later, c, now).1 == PreviewReset(s.db, c, s.clock).1 <==> c.attemptId == "")
      && (c.attemptId != "" ==> PreviewReset(later, c, now).1 == Err(ResetConflict))
  {
    hide *;
    NodeInvariant(s);
    PreviewIsAnswered(s.db, c, s.clock);
    PreviewIsAfter(s, c);
    StepKeeps(s, Preview(c));
    ReceiptsForever(Next(s, Preview(c)), es);
    var o := PreviewReset(s.db, c, s.clock).1.value;
    PreviewAnsweredAgain(Next(s, Preview(c)).db, Run(Next(s, Preview(c)), es).db, c, o, now);
  }

  // ---- One applied request per generation ----

  /** Distinct members of a set with distinct images fill an interval of the same size. */
  lemma {:induction false} Pigeonhole(xs: set<Id>, f: Id -> int, lo: int, hi: int, g: int)
    requires forall x :: x in xs ==> lo < f(x) <= hi
    requires forall x, y :: x in xs && y in xs && x != y ==> f(x) != f(y)
    requires |xs| == hi - lo && lo < g <= hi
    ensures exists x :: x in xs && f(x) == g
    decreases hi - lo
  {
    if forall x :: x in xs ==> f(x) != g {
      Crowded(xs, f, lo, hi, g);
    }
  }

  lemma {:induction false} Crowded(xs: set<Id>, f: Id -> int, lo: int, hi: int, g: int)
    requires forall x :: x in xs ==> lo < f(x) <= hi && f(x) != g
    requires forall x, y :: x in xs && y in xs && x != y ==> f(x) != f(y)
    requires lo < g <= hi
    ensures |xs| < hi - lo
    decreases hi - lo
  {
    if x :| x in xs && f(x) == hi {
      var rest := xs - {x};
      if hi - lo > 1 {
        Crowded(rest, f, lo, hi - 1, g);
      }
    } else if g == hi {
      Spread(xs, f, lo, hi - 1);
    } else {
      Crowded(xs, f, lo, hi - 1, g);
    }
  }

  lemma {:induction false} Spread(xs: set<Id>, f: Id -> int, lo: int, hi: int)
    requires forall x :: x in xs ==> lo < f(x) <= hi
    requires forall x, y :: x in xs && y in xs && x != y ==> f(x) != f(y)
    requires lo <= hi
    ensures |xs| <= hi - lo
    decreases hi - lo
  {
    if lo == hi {
      assert xs == {};
    } else if x :| x in xs && f(x) == hi {
      Spread(xs - {x}, f, lo, hi - 1);
    } else {
      Spread(xs, f, lo, hi - 1);
    }
  }

  /** The request `r` applied and took the attempt from generation `g - 1` to `g`. */
  ghost predicate Produced(operations: Operations, id: Id, g: int, r: Id) {
    r in AppliedResets(operations, id) && operations[r].targetGeneration == g && operations[r].expectedGeneration == g - 1
  }

  /** An attempt's generation counts the resets applied to it, and each generation came from exactly one request. */
  lemma GenerationsAreResets(s: State, es: seq<Event>, id: Id, g: int)
    requires Init(s) && id in Run(s, es).db.attempts
    ensures var t := Run(s, es).db;
      && t.attempts[id].resetGeneration == |AppliedResets(t.operations, id)|
      && ((exists r :: Produced(t.operations, id, g, r)) <==> 1 <= g <= t.attempts[id].resetGeneration)
      && (forall r, q :: Produced(t.operations, id, g, r) && Produced(t.operations, id, g, q) ==> r == q)
    ensures forall r :: r in Run(s, es).db.operations ==> !Run(s, es).db.operations[r].status.OperationPending?
  {
    hide Init, Run, SittingsOk;
    Reachable(s, es);
    GenerationsProduced(Run(s, es).db.operations, Run(s, es).db.attempts, id, g);
    var t := Run(s, es).db;
    forall r | r in t.operations ensures !t.operations[r].status.OperationPending? {
      assert OperationOk(t.attempts, t.operations[r], r);
    }
  }

  lemma GenerationsProduced(operations: Operations, attempts: Attempts, id: Id, g: int)
    requires OperationsOk(operations, attempts) && id in attempts
    ensures attempts[id].resetGeneration == |AppliedResets(operations, id)|
    ensures (exists r :: Produced(operations, id, g, r)) <==> 1 <= g <= attempts[id].resetGeneration
    ensures forall r, q :: Produced(operations, id, g, r) && Produced(operations, id, g, q) ==> r == q
  {
    hide SameResetCommand, ReceiptCommand;
    var xs := AppliedResets(operations, id);
    var f := (r: Id) => if r in operations then operations[r].targetGeneration else 0;
    forall r | r in xs ensures 0 < f(r) <= attempts[id].resetGeneration && operations[r].expectedGeneration == f(r) - 1 {
      assert OperationOk(attempts, operations[r], r);
    }
    if 1 <= g <= attempts[id].resetGeneration {
      Pigeonhole(xs, f, 0, attempts[id].resetGeneration, g);
      var r :| r in xs && f(r) == g;
      assert Produced(operations, id, g, r);
    }
  }

  /** Of racing requests that expect the same generation at most one is ever applied. */
  lemma RacingResets(s: State, es: seq<Event>, id: Id, r: Id, q: Id)
    requires Init(s)
    requires var t := Run(s, es).db;
      && r in t.operations && AppliedReset(t.operations[r], id) && q in t.operations && AppliedReset(t.operations[q], id)
      && t.operations[r].expectedGeneration == t.operations[q].expectedGeneration
    ensures r == q
  {
    hide Init, Run, SittingsOk, SameResetCommand;
    Reachable(s, es);
    var t := Run(s, es).db;
    assert OperationOk(t.attempts, t.operations[r], r) && OperationOk(t.attempts, t.operations[q], q);
    assert r in AppliedResets(t.operations, id) && q in AppliedResets(t.operations, id);
  }

  // ---- When a reset is applied ----

  /**
    A reset takes effect strictly before the command deadline, the due time and the exam's end, on the latest
    attempt only.
   */
  lemma AppliedInTime(s: State, c: ResetCommand, delay: nat)
    requires NodeOk(s) && c.requestId !in s.db.operations
    requires var t := Next(s, Reset(c, delay)).db;
      c.requestId in t.operations && t.operations[c.requestId].status.OperationApplied?
    ensures var (d, t, at) := (s.db, Next(s, Reset(c, delay)).db, s.clock + delay);
      && c.attemptId in d.attempts && c.examId in d.exams && c.participantId in d.participants
      && at < c.deadline && at < d.attempts[c.attemptId].dueAt && at < d.exams[c.examId].endsAt
      && d.participants[c.participantId].latestAttemptId == Some(c.attemptId)
      && d.attempts[c.attemptId].Finished() && d.attempts[c.attemptId].resetGeneration == c.expectedGeneration
      && t.attempts == d.attempts[c.attemptId := Reopened(d.attempts[c.attemptId], c)]
      && t.participants == d.participants && t.answers == d.answers
  {
    hide *;
    NodeInvariant(s);
    ResetIsAfter(s, Reset(c, delay));
    NextDb(s, Reset(c, delay));
    AppliedInTimeHere(s.db, c, s.clock, s.clock + delay);
  }

  lemma AppliedInTimeHere(d: Database, c: ResetCommand, now: Time, writeNow: Time)
    requires Invariant(d) && c.requestId !in d.operations && now <= writeNow
    requires var t := AfterReset(d, c, now, writeNow);
      c.requestId in t.operations && t.operations[c.requestId].status.OperationApplied?
    ensures var t := AfterReset(d, c, now, writeNow);
      && c.attemptId in d.attempts && c.examId in d.exams && c.participantId in d.participants
      && writeNow < c.deadline && writeNow < d.attempts[c.attemptId].dueAt && writeNow < d.exams[c.examId].endsAt
      && d.participants[c.participantId].latestAttemptId == Some(c.attemptId)
      && d.attempts[c.attemptId].Finished() && d.attempts[c.attemptId].resetGeneration == c.expectedGeneration
      && t.attempts == d.attempts[c.attemptId := Reopened(d.attempts[c.attemptId], c)]
      && t.participants == d.participants && t.answers == d.answers
  {
    assert c.attemptId in d.attempts ==> PlacedOk(d.participants, d.attempts, c.attemptId);
    hide Invariant, Reopened, SameResetCommand, OperationOk;
    if ValidateReset(c).None? {
      if Decide(d, c, now, writeNow).Reopen? {
        ReopenEffect(d, c, now, writeNow);
      } else {
        NotAppliedEffect(d, c, now, writeNow);
      }
    }
  }
}
