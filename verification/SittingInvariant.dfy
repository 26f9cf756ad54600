/**
  What every transaction of the attempt lifecycle keeps about the tables. The bundle (exams and
  items) is fixed while students sit; participants may be added. Each clause names only the
  tables it reads.
 */
module SittingInvariant {
  import opened Common
  import opened Entities
  import opened AttemptModel
  import Answers

  type Exams = map<Id, Exam>
  type Items = map<Id, Item>
  type Participants = map<Id, Participant>
  type Attempts = map<Id, Attempt>
  type AnswerTable = map<Id, seq<Answer>>
  type Operations = map<Id, ResetOperation>

  // ---- The invariant ----

  /** What loading a bundle establishes about one exam. */
  ghost predicate ExamOk(exams: Exams, items: Items, e: Id) {
    && e in exams && exams[e].id == e && exams[e].durationMinutes >= 0
    && exams[e].maxScore == Answers.PointsOf(items, Answers.ItemsOfExam(items, e))
    && (exams[e].hasManualItems <==> exists i :: i in items && items[i].examId == e && items[i].requiresManualGrading)
  }

  ghost predicate BundleOk(exams: Exams, items: Items) {
    && (forall e :: e in exams ==> ExamOk(exams, items, e))
    && (forall i :: i in items ==> items[i].id == i && items[i].examId != "" && items[i].points >= 0)
  }

  /** `id` is the attempt of `p` with number `n`. */
  ghost predicate NumberedAt(attempts: Attempts, p: Id, n: int, id: Id) {
    id in attempts && attempts[id].participantId == p && attempts[id].attemptNo == n
  }

  ghost predicate HasNumber(attempts: Attempts, p: Id, n: int) {
    exists id :: NumberedAt(attempts, p, n, id)
  }

  /** Counter, latest pointer and attempt limit of one participant. */
  ghost predicate CounterOk(exams: Exams, participants: Participants, attempts: Attempts, p: Id) {
    && p in participants
    && var r := participants[p];
    && r.id == p && r.examId in exams
    && 0 <= r.attemptCount && (r.attemptCount == 0 || r.attemptCount <= exams[r.examId].maxAttempts)
    && (r.latestAttemptId.None? <==> r.attemptCount == 0)
    && (r.latestAttemptId.Some? ==> NumberedAt(attempts, p, r.attemptCount, r.latestAttemptId.value))
  }

  ghost predicate CountersOk(exams: Exams, participants: Participants, attempts: Attempts) {
    forall p :: p in participants ==> CounterOk(exams, participants, attempts, p)
  }

  /** An attempt belongs to its participant and exam; one in progress is its participant's latest. */
  ghost predicate PlacedOk(participants: Participants, attempts: Attempts, id: Id) {
    && id in attempts
    && var a := attempts[id];
    && a.id == id && a.participantId in participants && a.examId == participants[a.participantId].examId
    && 1 <= a.attemptNo <= participants[a.participantId].attemptCount
    && (a.status.InProgress? ==> a.attemptNo == participants[a.participantId].attemptCount)
  }

  ghost predicate PlacesOk(participants: Participants, attempts: Attempts) {
    forall id :: id in attempts ==> PlacedOk(participants, attempts, id)
  }

  /** The window of a sitting and the columns its status determines. */
  function Earlier(s: Time, t: Time): Time {
    if s <= t then s else t
  }

  ghost predicate RowOk(exams: Exams, a: Attempt) {
    && a.examId in exams
    && var exam := exams[a.examId];
    && a.startedAt <= a.dueAt && a.dueAt == Earlier(a.startedAt + exam.durationMinutes * 60, exam.endsAt)
    && a.maxScore == exam.maxScore
    && (a.status.InProgress? ==>
          a.submittedAt.None? && a.autoSubmittedAt.None? && a.score.None? && a.gradingStatus.Pending? && a.harvestedAt.None?)
    && (a.Finished() ==>
          && !a.status.Graded? && a.submittedAt.Some? && (a.autoSubmittedAt.Some? <==> a.status.AutoSubmitted?)
          && a.score.Some? && 0 <= a.score.value <= a.maxScore
          && a.gradingStatus == (if exam.hasManualItems then ManualRequired else AutoGraded))
  }

  ghost predicate RowsOk(exams: Exams, attempts: Attempts) {
    forall id :: id in attempts ==> RowOk(exams, attempts[id])
  }

  ghost predicate NumbersUnique(attempts: Attempts) {
    forall p, n, i, j :: NumberedAt(attempts, p, n, i) && NumberedAt(attempts, p, n, j) ==> i == j
  }

  ghost predicate NumbersComplete(participants: Participants, attempts: Attempts) {
    forall p, n :: p in participants && 1 <= n <= participants[p].attemptCount ==> HasNumber(attempts, p, n)
  }

  /** A stored or pending answer was graded from an item of its attempt's exam. */
  ghost predicate AnswerOk(items: Items, attempts: Attempts, a: Answer) {
    && a.attemptId in attempts && Answers.ScoredFrom(items, a)
    && items[a.itemId].examId == attempts[a.attemptId].examId
    && (a.gradingStatus.ManualRequired? ==> items[a.itemId].requiresManualGrading)
  }

  ghost predicate AnswerRowsOk(items: Items, attempts: Attempts, rows: seq<Answer>, id: Id) {
    && Answers.OnePerItem(rows)
    && forall a :: a in rows ==> a.attemptId == id && AnswerOk(items, attempts, a)
  }

  ghost predicate AnswersOk(items: Items, attempts: Attempts, answers: AnswerTable) {
    forall id :: id in answers ==> AnswerRowsOk(items, attempts, answers[id], id)
  }

  ghost predicate SittingsOk(db: Database) {
    && BundleOk(db.exams, db.items)
    && CountersOk(db.exams, db.participants, db.attempts)
    && PlacesOk(db.participants, db.attempts)
    && RowsOk(db.exams, db.attempts)
    && NumbersUnique(db.attempts)
    && NumbersComplete(db.participants, db.attempts)
    && AnswersOk(db.items, db.attempts, db.answers)
  }

  predicate AppliedReset(op: ResetOperation, id: Id) {
    op.operation.ResetKind? && op.status.OperationApplied? && op.attemptId == id
  }

  /** The applied reset operations that target one attempt. */
  function AppliedResets(operations: Operations, id: Id): set<Id> {
    set r | r in operations && AppliedReset(operations[r], id)
  }

  /** The command a receipt must still carry; a preview's receipt owns its attempt and generation. */
  function ReceiptCommand(op: ResetOperation): ResetCommand {
    if op.operation.PreviewKind? then op.commandHash.(attemptId := "") else op.commandHash
  }

  /** A receipt is settled, carries its command, and an applied reset produced an existing generation. */
  ghost predicate OperationOk(attempts: Attempts, op: ResetOperation, r: Id) {
    && op.requestId == r && !op.status.OperationPending? && op.commandHash.requestId == r
    && SameResetCommand(op, ReceiptCommand(op))
    && (op.operation.ResetKind? ==> op.targetGeneration == op.expectedGeneration + 1)
    && (AppliedReset(op, op.attemptId) ==>
          op.attemptId in attempts && 1 <= op.targetGeneration <= attempts[op.attemptId].resetGeneration)
  }

  ghost predicate ReceiptsOk(operations: Operations, attempts: Attempts) {
    forall r :: r in operations ==> OperationOk(attempts, operations[r], r)
  }

  ghost predicate TargetsDistinct(operations: Operations) {
    forall r, t, id :: r in AppliedResets(operations, id) && t in AppliedResets(operations, id) && r != t ==>
      operations[r].targetGeneration != operations[t].targetGeneration
  }

  ghost predicate GenerationsCount(operations: Operations, attempts: Attempts) {
    forall id :: id in attempts ==> |AppliedResets(operations, id)| == attempts[id].resetGeneration
  }

  ghost predicate OperationsOk(operations: Operations, attempts: Attempts) {
    ReceiptsOk(operations, attempts) && TargetsDistinct(operations) && GenerationsCount(operations, attempts)
  }

  ghost predicate Invariant(db: Database) {
    SittingsOk(db) && OperationsOk(db.operations, db.attempts)
  }

  lemma RowId(db: Database, id: Id)
    requires Invariant(db)
    ensures id in db.attempts ==> db.attempts[id].id == id
  {
    if id in db.attempts {
      assert PlacedOk(db.participants, db.attempts, id);
    }
  }

  lemma InvariantSittings(db: Database)
    requires Invariant(db)
    ensures SittingsOk(db)
  {
  }

  // ---- Single sitting ----

  /** An attempt in progress is the one its participant's latest pointer names. */
  lemma ActiveIsLatest(db: Database, id: Id)
    requires CountersOk(db.exams, db.participants, db.attempts) && PlacesOk(db.participants, db.attempts)
    requires NumbersUnique(db.attempts)
    requires id in db.attempts && db.attempts[id].status.InProgress?
    ensures db.attempts[id].participantId in db.participants
    ensures db.participants[db.attempts[id].participantId].latestAttemptId == Some(id)
  {
    assert PlacedOk(db.participants, db.attempts, id);
    var p := db.attempts[id].participantId;
    assert CounterOk(db.exams, db.participants, db.attempts, p);
    assert NumberedAt(db.attempts, p, db.participants[p].attemptCount, id);
  }

  /** A participant has at most one attempt in progress. */
  lemma SingleSitting(db: Database, i: Id, j: Id)
    requires SittingsOk(db) && i in db.attempts && j in db.attempts
    requires db.attempts[i].participantId == db.attempts[j].participantId
    requires db.attempts[i].status.InProgress? && db.attempts[j].status.InProgress?
    ensures i == j && db.participants[db.attempts[i].participantId].latestAttemptId == Some(i)
  {
    ActiveIsLatest(db, i);
    ActiveIsLatest(db, j);
  }

  /** The participant's pointer agrees with the lookup by descending attempt number. */
  lemma LatestAgrees(db: Database, p: Id)
    requires SittingsOk(db) && p in db.participants
    ensures FindLatest(db, p, db.participants[p].examId) == db.participants[p].latestAttemptId
  {
    var r := db.participants[p];
    assert CounterOk(db.exams, db.participants, db.attempts, p);
    forall k | k in db.attempts && db.attempts[k].participantId == p
      ensures r.attemptCount > 0 && db.attempts[k].attemptNo <= r.attemptCount
    {
      assert PlacedOk(db.participants, db.attempts, k);
    }
    if r.latestAttemptId.Some? {
      var last := r.latestAttemptId.value;
      assert PlacedOk(db.participants, db.attempts, last);
      assert IsLatest(db, last, p, r.examId);
      var found := FindLatest(db, p, r.examId).value;
      assert NumberedAt(db.attempts, p, r.attemptCount, found);
    }
  }

  /** The lookup by descending attempt number has one answer. */
  lemma OneLatest(db: Database, i: Id, j: Id, participantId: Id, examId: Id)
    requires NumbersUnique(db.attempts)
    requires IsLatest(db, i, participantId, examId) && IsLatest(db, j, participantId, examId)
    ensures i == j
  {
    assert NumberedAt(db.attempts, participantId, db.attempts[i].attemptNo, i);
    assert NumberedAt(db.attempts, participantId, db.attempts[i].attemptNo, j);
  }

  /** The attempt numbers of a participant are exactly 1..AttemptCount, within the attempt limit. */
  lemma AttemptNumbers(db: Database, p: Id, n: int)
    requires SittingsOk(db) && p in db.participants
    ensures HasNumber(db.attempts, p, n) <==> 1 <= n <= db.participants[p].attemptCount
    ensures forall i, j :: NumberedAt(db.attempts, p, n, i) && NumberedAt(db.attempts, p, n, j) ==> i == j
    ensures db.participants[p].attemptCount > 0 ==>
      db.participants[p].examId in db.exams
      && db.participants[p].attemptCount <= db.exams[db.participants[p].examId].maxAttempts
  {
    assert CounterOk(db.exams, db.participants, db.attempts, p);
    if id :| NumberedAt(db.attempts, p, n, id) {
      assert PlacedOk(db.participants, db.attempts, id);
    }
  }

  // ---- Rewriting rows ----

  /** The columns no transaction may change after creation. */
  predicate SameSitting(a: Attempt, b: Attempt) {
    && a.id == b.id && a.participantId == b.participantId && a.studentId == b.studentId && a.examId == b.examId
    && a.attemptNo == b.attemptNo && a.startedAt == b.startedAt && a.dueAt == b.dueAt && a.maxScore == b.maxScore
  }

  ghost predicate Rewrites(before: Attempts, after: Attempts) {
    before.Keys == after.Keys && forall id :: id in before ==> SameSitting(before[id], after[id])
  }

  lemma RewriteNumbers(participants: Participants, before: Attempts, after: Attempts)
    requires Rewrites(before, after)
    ensures forall p, n, id :: NumberedAt(after, p, n, id) <==> NumberedAt(before, p, n, id)
    ensures NumbersUnique(before) ==> NumbersUnique(after)
    ensures NumbersComplete(participants, before) ==> NumbersComplete(participants, after)
  {
    if NumbersComplete(participants, before) {
      forall p, n | p in participants && 1 <= n <= participants[p].attemptCount ensures HasNumber(after, p, n) {
        assert HasNumber(before, p, n);
        var id :| NumberedAt(before, p, n, id);
        assert NumberedAt(after, p, n, id);
      }
    }
  }

  lemma RewriteCounters(exams: Exams, participants: Participants, before: Attempts, after: Attempts)
    requires Rewrites(before, after) && CountersOk(exams, participants, before)
    ensures CountersOk(exams, participants, after)
  {
    forall p | p in participants ensures CounterOk(exams, participants, after, p) {
      assert CounterOk(exams, participants, before, p);
    }
  }

  lemma RewritePlaces(participants: Participants, before: Attempts, after: Attempts)
    requires Rewrites(before, after) && PlacesOk(participants, before)
    requires forall id :: id in after && after[id].status.InProgress? ==>
      before[id].status.InProgress? || after[id].attemptNo == participants[after[id].participantId].attemptCount
    ensures PlacesOk(participants, after)
  {
    forall id | id in after ensures PlacedOk(participants, after, id) {
      assert PlacedOk(participants, before, id);
    }
  }

  lemma RewriteAnswers(items: Items, before: Attempts, after: Attempts, answers: AnswerTable)
    requires Rewrites(before, after) && AnswersOk(items, before, answers)
    ensures AnswersOk(items, after, answers)
  {
    forall id | id in answers ensures AnswerRowsOk(items, after, answers[id], id) {
      assert AnswerRowsOk(items, before, answers[id], id);
      forall a | a in answers[id] ensures AnswerOk(items, after, a) {
        assert AnswerOk(items, before, a);
      }
    }
  }

  /** A row may be reopened when it is its participant's latest. */
  ghost predicate MayHold(db: Database, id: Id, a: Attempt) {
    && id in db.attempts && SameSitting(db.attempts[id], a) && RowOk(db.exams, a)
    && (a.status.InProgress? && db.attempts[id].Finished() ==>
          a.participantId in db.participants && db.participants[a.participantId].latestAttemptId == Some(id))
  }

  /** Rewriting rows within `MayHold` keeps every clause about sittings. */
  lemma RewriteKeeps(db: Database, db': Database)
    requires SittingsOk(db) && Rewrites(db.attempts, db'.attempts)
    requires db'.exams == db.exams && db'.items == db.items && db'.participants == db.participants
    requires db'.answers == db.answers
    requires forall id :: id in db'.attempts ==> MayHold(db, id, db'.attempts[id])
    ensures SittingsOk(db')
  {
    hide BundleOk, NumbersUnique, NumbersComplete, AnswersOk, RowOk;
    RewriteNumbers(db.participants, db.attempts, db'.attempts);
    RewriteCounters(db.exams, db.participants, db.attempts, db'.attempts);
    RewriteAnswers(db.items, db.attempts, db'.attempts, db.answers);
    forall id | id in db'.attempts && db'.attempts[id].status.InProgress?
      ensures db.attempts[id].status.InProgress? ||
              db'.attempts[id].attemptNo == db.participants[db'.attempts[id].participantId].attemptCount
    {
      assert MayHold(db, id, db'.attempts[id]) && PlacedOk(db.participants, db.attempts, id);
      assert CounterOk(db.exams, db.participants, db.attempts, db.attempts[id].participantId);
    }
    RewritePlaces(db.participants, db.attempts, db'.attempts);
    assert RowsOk(db'.exams, db'.attempts) by {
      forall id | id in db'.attempts ensures RowOk(db'.exams, db'.attempts[id]) {
        assert MayHold(db, id, db'.attempts[id]);
      }
    }
  }

  lemma RowKeeps(db: Database, id: Id, a: Attempt)
    requires SittingsOk(db) && MayHold(db, id, a)
    ensures SittingsOk(PutAttempt(db, id, a))
  {
    hide BundleOk, CountersOk, PlacesOk, NumbersUnique, NumbersComplete, AnswersOk;
    var db' := PutAttempt(db, id, a);
    forall k | k in db'.attempts ensures MayHold(db, k, db'.attempts[k]) {
      if k != id {
        assert RowOk(db.exams, db.attempts[k]);
      }
    }
    RewriteKeeps(db, db');
  }

  /** Rows that keep their generation keep the operations in order. */
  lemma GenerationsKept(operations: Operations, before: Attempts, after: Attempts)
    requires OperationsOk(operations, before) && before.Keys == after.Keys
    requires forall id :: id in before ==> after[id].resetGeneration == before[id].resetGeneration
    ensures OperationsOk(operations, after)
  {
    forall r | r in operations ensures OperationOk(after, operations[r], r) {
      assert OperationOk(before, operations[r], r);
    }
  }

  /** Rewriting one row without touching its generation. */
  lemma RowUpdateKeeps(db: Database, id: Id, a: Attempt)
    requires Invariant(db) && MayHold(db, id, a) && a.resetGeneration == db.attempts[id].resetGeneration
    ensures Invariant(PutAttempt(db, id, a))
  {
    hide SittingsOk, OperationsOk, RowOk;
    GenerationsKept(db.operations, db.attempts, db.attempts[id := a]);
    assert OperationsOk(db.operations, db.attempts[id := a]);
    assert SittingsOk(PutAttempt(db, id, a)) by { RowKeeps(db, id, a); }
  }

  // ---- Finalisation ----

  lemma AnswersOfOk(db: Database, id: Id)
    requires AnswersOk(db.items, db.attempts, db.answers)
    ensures AnswerRowsOk(db.items, db.attempts, db.AnswersOf(id), id)
  {
    if id in db.answers {
      assert AnswerRowsOk(db.items, db.attempts, db.answers[id], id);
    }
  }

  /** The answers of an attempt total between zero and the exam's maximum, and need a human only if the exam does. */
  lemma TotalsOk(items: Items, attempts: Attempts, rows: seq<Answer>, id: Id, exams: Exams)
    requires BundleOk(exams, items) && id in attempts && attempts[id].examId in exams
    requires AnswerRowsOk(items, attempts, rows, id)
    ensures 0 <= Answers.Total(rows) <= exams[attempts[id].examId].maxScore
    ensures forall r :: r in rows && r.gradingStatus.ManualRequired? ==> exams[attempts[id].examId].hasManualItems
  {
    var e := attempts[id].examId;
    assert ExamOk(exams, items, e);
    var all := Answers.ItemsOfExam(items, e);
    forall r | r in rows ensures r.itemId in all && Answers.ScoredFrom(items, r)
                              && (r.gradingStatus.ManualRequired? ==> exams[e].hasManualItems) {
      assert AnswerOk(items, attempts, r);
    }
    Answers.ScoreBound(items, rows, all);
  }

  lemma FinalizedMayHold(db: Database, id: Id, auto: bool, now: Time)
    requires SittingsOk(db) && id in db.attempts && db.attempts[id].status.InProgress?
    ensures db.attempts[id].examId in db.exams && db.attempts[id].id == id
    ensures MayHold(db, id, Finalized(db.attempts[id], db.exams[db.attempts[id].examId], db.AnswersOf(id), auto, now))
  {
    assert RowOk(db.exams, db.attempts[id]) && PlacedOk(db.participants, db.attempts, id);
    AnswersOfOk(db, id);
    TotalsOk(db.items, db.attempts, db.AnswersOf(id), id, db.exams);
  }

  /** What a finalisation writes: the one row, when it is in progress. */
  lemma FinalizeEffect(db: Database, id: Id, auto: bool, now: Time)
    requires id in db.attempts ==> db.attempts[id].id == id
    ensures FinalizeAttempt(db, id, auto, now).0 ==
            if id in db.attempts && db.attempts[id].status.InProgress? && db.attempts[id].examId in db.exams
            then PutAttempt(db, id, Finalized(db.attempts[id], db.exams[db.attempts[id].examId], db.AnswersOf(id), auto, now))
            else db
  {
  }

  lemma FinalizeKeeps(db: Database, id: Id, auto: bool, now: Time)
    requires Invariant(db)
    ensures Invariant(FinalizeAttempt(db, id, auto, now).0)
  {
    if id in db.attempts && db.attempts[id].status.InProgress? {
      FinalizedMayHold(db, id, auto, now);
      FinalizeEffect(db, id, auto, now);
      RowUpdateKeeps(db, id, Finalized(db.attempts[id], db.exams[db.attempts[id].examId], db.AnswersOf(id), auto, now));
    }
  }

  // ---- Device binding and harvest marks ----

  lemma BindKeeps(db: Database, id: Id, device: string)
    requires Invariant(db) && BindAttemptDevice(db, id, device).Ok?
    ensures Invariant(BindAttemptDevice(db, id, device).value)
  {
    hide BundleOk, CountersOk, PlacesOk, NumbersUnique, NumbersComplete, AnswersOk, OperationsOk;
    assert RowOk(db.exams, db.attempts[id]);
    RowUpdateKeeps(db, id, db.attempts[id].(deviceId := device));
  }

  lemma MarkedMayHold(db: Database, generations: map<Id, int>, at: Time)
    requires RowsOk(db.exams, db.attempts)
    ensures Rewrites(db.attempts, MarkHarvested(db, generations, at).attempts)
    ensures forall k :: k in db.attempts ==> MayHold(db, k, MarkHarvested(db, generations, at).attempts[k])
  {
    forall k | k in db.attempts ensures MayHold(db, k, MarkHarvested(db, generations, at).attempts[k]) {
      assert RowOk(db.exams, db.attempts[k]);
    }
  }

  lemma MarkKeeps(db: Database, generations: map<Id, int>, at: Time)
    requires Invariant(db)
    ensures Invariant(MarkHarvested(db, generations, at))
  {
    hide BundleOk, CountersOk, PlacesOk, NumbersUnique, NumbersComplete, AnswersOk, OperationsOk;
    MarkedMayHold(db, generations, at);
    RewriteKeeps(db, MarkHarvested(db, generations, at));
    GenerationsKept(db.operations, db.attempts, MarkHarvested(db, generations, at).attempts);
  }

  // ---- Starting ----

  /** What creating an attempt does to the two tables it writes. */
  ghost predicate Creates(db: Database, db': Database, a: Attempt) {
    && a.id !in db.attempts && db'.attempts == db.attempts[a.id := a]
    && a.participantId in db.participants
    && var p := db.participants[a.participantId];
    && db'.participants == db.participants[p.id := p.(attemptCount := p.attemptCount + 1, latestAttemptId := Some(a.id))]
    && p.id == a.participantId && a.examId == p.examId && a.attemptNo == p.attemptCount + 1
    && a.examId in db.exams && a.attemptNo <= db.exams[a.examId].maxAttempts
    && RowOk(db.exams, a) && a.status.InProgress? && a.resetGeneration == 0
    && db' == db.(attempts := db'.attempts, participants := db'.participants)
  }

  lemma CreatesNumbers(db: Database, db': Database, a: Attempt)
    requires Creates(db, db', a) && NumbersUnique(db.attempts) && NumbersComplete(db.participants, db.attempts)
    requires PlacesOk(db.participants, db.attempts)
    ensures forall q, n, i :: NumberedAt(db'.attempts, q, n, i) <==>
      NumberedAt(db.attempts, q, n, i) || (i == a.id && q == a.participantId && n == a.attemptNo)
    ensures NumbersUnique(db'.attempts) && NumbersComplete(db'.participants, db'.attempts)
  {
    forall q, n, i, j | NumberedAt(db'.attempts, q, n, i) && NumberedAt(db'.attempts, q, n, j) ensures i == j {
      assert i != a.id ==> PlacedOk(db.participants, db.attempts, i) && NumberedAt(db.attempts, q, n, i);
      assert j != a.id ==> PlacedOk(db.participants, db.attempts, j) && NumberedAt(db.attempts, q, n, j);
    }
    forall q, n | q in db'.participants && 1 <= n <= db'.participants[q].attemptCount ensures HasNumber(db'.attempts, q, n) {
      if q == a.participantId && n == a.attemptNo {
        assert NumberedAt(db'.attempts, q, n, a.id);
      } else {
        assert HasNumber(db.attempts, q, n);
        var i :| NumberedAt(db.attempts, q, n, i);
        assert NumberedAt(db'.attempts, q, n, i);
      }
    }
  }

  lemma CreatesCounters(db: Database, db': Database, a: Attempt)
    requires Creates(db, db', a) && CountersOk(db.exams, db.participants, db.attempts)
    ensures CountersOk(db'.exams, db'.participants, db'.attempts)
  {
    forall q | q in db'.participants ensures CounterOk(db'.exams, db'.participants, db'.attempts, q) {
      assert CounterOk(db.exams, db.participants, db.attempts, q);
    }
  }

  lemma CreatesPlaces(db: Database, db': Database, a: Attempt)
    requires Creates(db, db', a) && PlacesOk(db.participants, db.attempts)
    requires CountersOk(db.exams, db.participants, db.attempts)
    requires forall k :: k in db.attempts && db.attempts[k].participantId == a.participantId ==> db.attempts[k].Finished()
    ensures PlacesOk(db'.participants, db'.attempts)
  {
    assert CounterOk(db.exams, db.participants, db.attempts, a.participantId);
    forall k | k in db'.attempts ensures PlacedOk(db'.participants, db'.attempts, k) {
      if k != a.id {
        assert PlacedOk(db.participants, db.attempts, k);
      }
    }
  }

  lemma GrowAnswers(items: Items, before: Attempts, after: Attempts, answers: AnswerTable)
    requires AnswersOk(items, before, answers)
    requires forall id :: id in before ==> id in after && after[id].examId == before[id].examId
    ensures AnswersOk(items, after, answers)
  {
    forall id | id in answers ensures AnswerRowsOk(items, after, answers[id], id) {
      assert AnswerRowsOk(items, before, answers[id], id);
      forall a | a in answers[id] ensures AnswerOk(items, after, a) {
        assert AnswerOk(items, before, a);
      }
    }
  }

  lemma CreatesOperations(operations: Operations, before: Attempts, a: Attempt)
    requires OperationsOk(operations, before) && a.id !in before && a.resetGeneration == 0
    ensures OperationsOk(operations, before[a.id := a])
  {
    var after := before[a.id := a];
    forall r | r in operations ensures OperationOk(after, operations[r], r) {
      assert OperationOk(before, operations[r], r);
    }
    forall r | r in operations ensures r !in AppliedResets(operations, a.id) {
      assert OperationOk(before, operations[r], r);
    }
    assert AppliedResets(operations, a.id) == {};
  }

  lemma CreateKeeps(db: Database, db': Database, a: Attempt)
    requires Invariant(db) && Creates(db, db', a)
    requires forall k :: k in db.attempts && db.attempts[k].participantId == a.participantId ==> db.attempts[k].Finished()
    ensures Invariant(db')
  {
    hide BundleOk, CountersOk, PlacesOk, NumbersUnique, NumbersComplete, AnswersOk, OperationsOk, RowOk;
    CreatesNumbers(db, db', a);
    CreatesCounters(db, db', a);
    CreatesPlaces(db, db', a);
    GrowAnswers(db.items, db.attempts, db'.attempts, db.answers);
    CreatesOperations(db.operations, db.attempts, a);
    assert RowsOk(db'.exams, db'.attempts);
  }

  /** Creating the next attempt of a participant with none in progress. */
  lemma CreateNextKeeps(db: Database, p: Participant, exam: Exam, device: string, now: Time, newId: Id)
    requires Invariant(db) && p.id in db.participants && db.participants[p.id] == p
    requires exam.id in db.exams && db.exams[exam.id] == exam && p.examId == exam.id && now <= exam.endsAt
    requires FindActive(db, p.id, exam.id).None?
    requires CreateNext(db, p, exam, device, now, newId).Ok?
    ensures Invariant(CreateNext(db, p, exam, device, now, newId).value.0)
  {
    var (db', a) := CreateNext(db, p, exam, device, now, newId).value;
    assert ExamOk(db.exams, db.items, exam.id);
    assert CounterOk(db.exams, db.participants, db.attempts, p.id);
    CreateNextCreates(db, p, exam, device, now, newId);
    forall k | k in db.attempts && db.attempts[k].participantId == p.id ensures db.attempts[k].Finished() {
      assert PlacedOk(db.participants, db.attempts, k);
      assert !IsActive(db, k, p.id, exam.id);
    }
    hide Creates, CreateNext;
    CreateKeeps(db, db', a);
  }

  lemma CreateNextCreates(db: Database, p: Participant, exam: Exam, device: string, now: Time, newId: Id)
    requires p.id in db.participants && db.participants[p.id] == p && p.attemptCount >= 0
    requires exam.id in db.exams && db.exams[exam.id] == exam && p.examId == exam.id && now <= exam.endsAt
    requires exam.durationMinutes >= 0
    requires CreateNext(db, p, exam, device, now, newId).Ok?
    ensures var (db', a) := CreateNext(db, p, exam, device, now, newId).value;
      Creates(db, db', a) && a.participantId == p.id
  {
    assert RowOk(db.exams, CreateNext(db, p, exam, device, now, newId).value.1);
  }

  /** Binding writes one column of one open row. */
  lemma BindEffect(db: Database, id: Id, device: string)
    requires id in db.attempts && BindIfUnbound(db, id, device).Ok?
    ensures var a := db.attempts[id];
      BindIfUnbound(db, id, device).value ==
      if a.deviceId == "" && device != "" then PutAttempt(db, id, a.(deviceId := device)) else db
    ensures db.attempts[id].deviceId == "" && device != "" ==> db.attempts[id].status.InProgress?
  {
  }

  lemma BindIfUnboundKeeps(db: Database, id: Id, device: string)
    requires Invariant(db) && id in db.attempts && BindIfUnbound(db, id, device).Ok?
    ensures Invariant(BindIfUnbound(db, id, device).value)
  {
    if db.attempts[id].deviceId == "" && device != "" {
      BindKeeps(db, id, device);
    }
  }

  /**
    The tables a start leaves over an active sitting: unchanged, bound, closed, or closed with the next one
    created.
   */
  lemma ResumeCases(db: Database, id: Id, p: Participant, exam: Exam, device: string, now: Time, clock: Time, newId: Id)
    requires id in db.attempts
    ensures var after := ResumeActive(db, id, p, exam, device, now, clock, newId).0;
      || after == db
      || (BindIfUnbound(db, id, device).Ok?
          && var bound := BindIfUnbound(db, id, device).value;
             var closed := FinalizeAttempt(bound, id, true, clock).0;
             || after == bound
             || (now > db.attempts[id].dueAt && after == closed)
             || (now > db.attempts[id].dueAt && FindActive(closed, p.id, exam.id).None?
                 && CreateNext(closed, p, exam, device, now, newId).Ok?
                 && after == CreateNext(closed, p, exam, device, now, newId).value.0))
  {
  }

  lemma ResumeKeeps(db: Database, id: Id, p: Participant, exam: Exam, device: string, now: Time, clock: Time, newId: Id)
    requires Invariant(db) && exam.id in db.exams && db.exams[exam.id] == exam && now <= exam.endsAt
    requires p.id in db.participants && db.participants[p.id] == p && p.examId == exam.id && id in db.attempts
    ensures Invariant(ResumeActive(db, id, p, exam, device, now, clock, newId).0)
  {
    hide Invariant, FinalizeAttempt, CreateNext, FindActive, ResumeActive, BindIfUnbound;
    if BindIfUnbound(db, id, device).Ok? {
      var bound := BindIfUnbound(db, id, device).value;
      BindIfUnboundKeeps(db, id, device);
      BindEffect(db, id, device);
      var closed := FinalizeAttempt(bound, id, true, clock).0;
      FinalizeKeeps(bound, id, true, clock);
      RowId(bound, id);
      FinalizeEffect(bound, id, true, clock);
      if FindActive(closed, p.id, exam.id).None? && CreateNext(closed, p, exam, device, now, newId).Ok? {
        CreateNextKeeps(closed, p, exam, device, now, newId);
      }
    }
    ResumeCases(db, id, p, exam, device, now, clock, newId);
  }

  /** The start transaction: finalising an expired sitting and creating the next one keep order. */
  lemma StartKeeps(db: Database, pid: Id, exam: Exam, device: string, now: Time, clock: Time, newId: Id)
    requires Invariant(db) && exam.id in db.exams && db.exams[exam.id] == exam && now <= exam.endsAt
    ensures Invariant(StartTransaction(db, pid, exam, device, now, clock, newId).0)
  {
    if pid in db.participants && db.participants[pid].examId == exam.id {
      var locked := db.participants[pid];
      assert CounterOk(db.exams, db.participants, db.attempts, pid);
      match FindActive(db, locked.id, exam.id)
      case None =>
        if CreateNext(db, locked, exam, device, now, newId).Ok? {
          CreateNextKeeps(db, locked, exam, device, now, newId);
        }
      case Some(id) =>
        ResumeKeeps(db, id, locked, exam, device, now, clock, newId);
    }
  }

  // ---- Resets ----

  /** Storing a settled operation that is not an applied reset. */
  lemma SettledKeeps(operations: Operations, attempts: Attempts, op: ResetOperation)
    requires OperationsOk(operations, attempts) && op.requestId !in operations
    requires OperationOk(attempts, op, op.requestId) && !AppliedReset(op, op.attemptId)
    ensures OperationsOk(operations[op.requestId := op], attempts)
  {
    var operations' := operations[op.requestId := op];
    assert forall id :: AppliedResets(operations', id) == AppliedResets(operations, id);
  }

  lemma AppliedAdds(operations: Operations, op: ResetOperation, k: Id)
    requires op.requestId !in operations && AppliedReset(op, op.attemptId)
    ensures AppliedResets(operations[op.requestId := op], k) ==
            AppliedResets(operations, k) + (if k == op.attemptId then {op.requestId} else {})
  {
  }

  lemma AppliedDistinct(operations: Operations, before: Attempts, op: ResetOperation)
    requires OperationsOk(operations, before) && op.requestId !in operations && op.attemptId in before
    requires before[op.attemptId].resetGeneration < op.targetGeneration && AppliedReset(op, op.attemptId)
    ensures TargetsDistinct(operations[op.requestId := op])
  {
    var operations' := operations[op.requestId := op];
    forall r, t, k | r in AppliedResets(operations', k) && t in AppliedResets(operations', k) && r != t
      ensures operations'[r].targetGeneration != operations'[t].targetGeneration
    {
      if r != op.requestId {
        assert r in AppliedResets(operations, k) && OperationOk(before, operations[r], r);
      }
      if t != op.requestId {
        assert t in AppliedResets(operations, k) && OperationOk(before, operations[t], t);
      }
    }
  }

  lemma AppliedReceipts(operations: Operations, before: Attempts, row: Attempt, op: ResetOperation)
    requires ReceiptsOk(operations, before) && op.attemptId in before
    requires row.resetGeneration >= before[op.attemptId].resetGeneration
    requires OperationOk(before[op.attemptId := row], op, op.requestId)
    ensures ReceiptsOk(operations[op.requestId := op], before[op.attemptId := row])
  {
    forall r | r in operations ensures OperationOk(before[op.attemptId := row], operations[r], r) {
      assert OperationOk(before, operations[r], r);
    }
  }

  lemma AppliedCounts(operations: Operations, before: Attempts, row: Attempt, op: ResetOperation)
    requires GenerationsCount(operations, before) && op.requestId !in operations && op.attemptId in before
    requires row.resetGeneration == before[op.attemptId].resetGeneration + 1 && AppliedReset(op, op.attemptId)
    ensures GenerationsCount(operations[op.requestId := op], before[op.attemptId := row])
  {
    forall k | k in before
      ensures |AppliedResets(operations[op.requestId := op], k)| == before[op.attemptId := row][k].resetGeneration
    {
      AppliedAdds(operations, op, k);
    }
  }

  /** Storing an applied reset together with the generation it produced. */
  lemma AppliedKeeps(operations: Operations, before: Attempts, row: Attempt, op: ResetOperation)
    requires OperationsOk(operations, before) && op.requestId !in operations && op.attemptId in before
    requires row.resetGeneration == before[op.attemptId].resetGeneration + 1 == op.targetGeneration
    requires OperationOk(before[op.attemptId := row], op, op.requestId) && AppliedReset(op, op.attemptId)
    ensures OperationsOk(operations[op.requestId := op], before[op.attemptId := row])
  {
    AppliedDistinct(operations, before, op);
    AppliedReceipts(operations, before, row, op);
    AppliedCounts(operations, before, row, op);
  }

  /** The row a reset writes. */
  function Reopened(a: Attempt, c: ResetCommand): Attempt {
    a.(status := InProgress, submittedAt := None, autoSubmittedAt := None, score := None, gradingStatus := Pending,
       resetGeneration := c.targetGeneration, harvestedAt := None)
  }

  /** Exactly when a new reset command is applied, and everything it then writes. */
  lemma ReopenEffect(db: Database, c: ResetCommand, now: Time, writeNow: Time)
    requires ValidateReset(c).None? && FindOperation(db, c) == Fresh(NewOperation(c))
    requires Decide(db, c, now, writeNow).Reopen?
    requires c.attemptId in db.attempts && db.attempts[c.attemptId].id == c.attemptId
    ensures var a := db.attempts[c.attemptId];
      && a.Finished() && a.resetGeneration == c.expectedGeneration
      && now < c.deadline && writeNow < c.deadline && now < a.dueAt && writeNow < a.dueAt
      && c.examId in db.exams && writeNow < db.exams[c.examId].endsAt
      && c.participantId in db.participants && db.participants[c.participantId].latestAttemptId == Some(c.attemptId)
      && a.participantId == db.participants[c.participantId].id
      && var (db', r) := ApplyReset(db, c, now, writeNow);
      && r.Ok? && r.value.status.OperationApplied? && r.value.resetGeneration == c.targetGeneration
      && c.requestId in db'.operations && AppliedReset(db'.operations[c.requestId], c.attemptId)
      && db'.operations[c.requestId].targetGeneration == c.targetGeneration
      && db'.operations[c.requestId].requestId == c.requestId
      && SameResetCommand(db'.operations[c.requestId], c) && db'.operations[c.requestId].commandHash == c
      && r.value == OperationOutcome(db'.operations[c.requestId])
      && db' == db.(attempts := db.attempts[c.attemptId := Reopened(a, c)],
                    operations := db.operations[c.requestId := db'.operations[c.requestId]])
  {
  }

  lemma ReopenedMayHold(db: Database, c: ResetCommand)
    requires SittingsOk(db) && c.attemptId in db.attempts && c.participantId in db.participants
    requires db.participants[c.participantId].latestAttemptId == Some(c.attemptId)
    requires db.attempts[c.attemptId].participantId == db.participants[c.participantId].id
    ensures MayHold(db, c.attemptId, Reopened(db.attempts[c.attemptId], c))
  {
    hide BundleOk, PlacesOk, NumbersUnique, NumbersComplete, AnswersOk;
    assert CounterOk(db.exams, db.participants, db.attempts, c.participantId) && RowOk(db.exams, db.attempts[c.attemptId]);
  }

  /** An applied reset adds one generation and one receipt, with a target no other receipt has. */
  lemma ReopenKeeps(db: Database, c: ResetCommand, now: Time, writeNow: Time)
    requires Invariant(db) && ValidateReset(c).None? && c.requestId !in db.operations
    requires Decide(db, c, now, writeNow).Reopen?
    ensures Invariant(ApplyReset(db, c, now, writeNow).0)
  {
    hide SittingsOk, OperationsOk, ApplyReset, Decide, SameResetCommand, MayHold, Reopened;
    DecideFindsTarget(db, c, now, writeNow);
    RowId(db, c.attemptId);
    ReopenEffect(db, c, now, writeNow);
    var db' := ApplyReset(db, c, now, writeNow).0;
    var row := Reopened(db.attempts[c.attemptId], c);
    ReopenedMayHold(db, c);
    RowKeeps(db, c.attemptId, row);
    SittingsIgnoreOperations(PutAttempt(db, c.attemptId, row), db'.operations);
    ReopenedOperations(db, c, db'.operations[c.requestId]);
    assert db' == PutAttempt(db, c.attemptId, row).(operations := db'.operations);
  }

  lemma SittingsIgnoreOperations(db: Database, operations: Operations)
    requires SittingsOk(db)
    ensures SittingsOk(db.(operations := operations))
  {
    hide BundleOk, CountersOk, PlacesOk, RowsOk, NumbersUnique, NumbersComplete, AnswersOk;
  }

  lemma ReopenedOperations(db: Database, c: ResetCommand, op: ResetOperation)
    requires OperationsOk(db.operations, db.attempts) && c.requestId !in db.operations && c.attemptId in db.attempts
    requires ValidateReset(c).None? && db.attempts[c.attemptId].resetGeneration == c.expectedGeneration
    requires AppliedReset(op, c.attemptId) && op.targetGeneration == c.targetGeneration && op.requestId == c.requestId
    requires SameResetCommand(op, c) && op.commandHash == c
    ensures OperationsOk(db.operations[c.requestId := op], db.attempts[c.attemptId := Reopened(db.attempts[c.attemptId], c)])
  {
    assert c.expectedGeneration == |AppliedResets(db.operations, c.attemptId)|;
    AppliedKeeps(db.operations, db.attempts, Reopened(db.attempts[c.attemptId], c), op);
  }

  /** A refusal is final: rejected or expired. */
  lemma RefusalSettles(db: Database, c: ResetCommand, now: Time, writeNow: Time)
    ensures var v := Decide(db, c, now, writeNow);
      && (v.Refuse? ==> v.status.OperationRejected? || v.status.OperationExpired?)
      && (v.Observe? ==> c.attemptId in db.attempts)
  {
    hide OnTarget, Unchanged;
  }

  /** A command that is refused or finds the sitting live writes its receipt and nothing else. */
  lemma NotAppliedEffect(db: Database, c: ResetCommand, now: Time, writeNow: Time)
    requires ValidateReset(c).None? && c.requestId !in db.operations && !Decide(db, c, now, writeNow).Reopen?
    requires c.attemptId in db.attempts ==> db.attempts[c.attemptId].id == c.attemptId
    ensures var (db', r) := ApplyReset(db, c, now, writeNow);
      && r.Ok? && !r.value.status.OperationApplied?
      && c.requestId in db'.operations && r.value == OperationOutcome(db'.operations[c.requestId])
      && db' == db.(operations := db.operations[c.requestId := db'.operations[c.requestId]])
      && db'.operations[c.requestId].requestId == c.requestId
      && OperationOk(db.attempts, db'.operations[c.requestId], c.requestId)
      && !db'.operations[c.requestId].status.OperationApplied? && db'.operations[c.requestId].commandHash == c
      && SameResetCommand(db'.operations[c.requestId], c)
  {
    RefusalSettles(db, c, now, writeNow);
    hide Decide;
  }

  /** A reset leaves the rows as they were, or reopens its target. */
  lemma ResetCases(db: Database, c: ResetCommand, now: Time, writeNow: Time)
    requires Invariant(db)
    ensures var after := ApplyReset(db, c, now, writeNow).0.attempts;
      after == db.attempts || (c.attemptId in db.attempts && after == db.attempts[c.attemptId := Reopened(db.attempts[c.attemptId], c)])
  {
    hide SittingsOk, OperationsOk, Reopened, SameResetCommand, Execute, Decide;
    ReceiptSettled(db, c.requestId);
    RowId(db, c.attemptId);
    if c.requestId !in db.operations && ValidateReset(c).None? {
      DecideFindsTarget(db, c, now, writeNow);
      if Decide(db, c, now, writeNow).Reopen? {
        ReopenEffect(db, c, now, writeNow);
      } else {
        NotAppliedEffect(db, c, now, writeNow);
      }
    }
  }

  lemma ReceiptSettled(db: Database, r: Id)
    requires Invariant(db)
    ensures r in db.operations ==> !db.operations[r].status.OperationPending?
  {
    hide SittingsOk;
    if r in db.operations {
      assert OperationOk(db.attempts, db.operations[r], r);
    }
  }

  lemma DecideFindsTarget(db: Database, c: ResetCommand, now: Time, writeNow: Time)
    ensures Decide(db, c, now, writeNow).Reopen? ==> c.attemptId in db.attempts
  {
    hide OnTarget, Unchanged;
  }

  lemma ResetKeeps(db: Database, c: ResetCommand, now: Time, writeNow: Time)
    requires Invariant(db)
    ensures Invariant(ApplyReset(db, c, now, writeNow).0)
  {
    hide SittingsOk, OperationsOk, Execute, Decide, SameResetCommand, OperationOk;
    ReceiptSettled(db, c.requestId);
    RowId(db, c.attemptId);
    if c.requestId !in db.operations && ValidateReset(c).None? {
      if Decide(db, c, now, writeNow).Reopen? {
        ReopenKeeps(db, c, now, writeNow);
      } else {
        NotAppliedEffect(db, c, now, writeNow);
        SettledKeeps(db.operations, db.attempts, ApplyReset(db, c, now, writeNow).0.operations[c.requestId]);
        SittingsIgnoreOperations(db, ApplyReset(db, c, now, writeNow).0.operations);
      }
    }
  }

  /** A preview writes its receipt and nothing else. */
  lemma PreviewEffect(db: Database, c: ResetCommand, now: Time)
    requires ValidatePreview(c).None? && c.requestId !in db.operations
    ensures var (db', r) := PreviewReset(db, c, now);
      && r.Ok? && c.requestId in db'.operations && r.value == OperationOutcome(db'.operations[c.requestId])
      && db' == db.(operations := db.operations[c.requestId := db'.operations[c.requestId]])
      && OperationOk(db.attempts, db'.operations[c.requestId], c.requestId)
      && db'.operations[c.requestId].operation.PreviewKind? && db'.operations[c.requestId].commandHash == c
  {
    hide FindLatest, OperationOutcome;
  }

  lemma PreviewKeeps(db: Database, c: ResetCommand, now: Time)
    requires Invariant(db)
    ensures Invariant(PreviewReset(db, c, now).0)
  {
    if c.requestId in db.operations {
      assert OperationOk(db.attempts, db.operations[c.requestId], c.requestId);
    } else if ValidatePreview(c).None? {
      PreviewEffect(db, c, now);
      SettledKeeps(db.operations, db.attempts, PreviewReset(db, c, now).0.operations[c.requestId]);
    }
  }

  // ---- Answers and participants ----

  lemma PutAnswerKeeps(db: Database, w: Answer)
    requires Invariant(db) && AnswerOk(db.items, db.attempts, w)
    ensures Invariant(PutAnswer(db, w))
  {
    hide BundleOk, CountersOk, PlacesOk, RowsOk, NumbersUnique, NumbersComplete, OperationsOk;
    var rows, id := db.AnswersOf(w.attemptId), w.attemptId;
    AnswersOfOk(db, id);
    Answers.UpsertEffect(rows, w, w.itemId);
    forall a | a in Answers.Upsert(rows, w) ensures a.attemptId == id && AnswerOk(db.items, db.attempts, a) {
      assert a in rows ==> AnswerOk(db.items, db.attempts, a);
    }
    assert AnswerRowsOk(db.items, db.attempts, Answers.Upsert(rows, w), id);
  }

  function AddParticipant(db: Database, p: Participant): Database {
    db.(participants := db.participants[p.id := p])
  }

  lemma AddParticipantKeeps(db: Database, p: Participant)
    requires Invariant(db) && p.id !in db.participants && p.examId in db.exams
    requires p.attemptCount == 0 && p.latestAttemptId.None?
    ensures Invariant(AddParticipant(db, p))
  {
    hide OperationsOk, BundleOk, NumbersUnique, AnswersOk, RowsOk;
    var db' := AddParticipant(db, p);
    forall q | q in db'.participants ensures CounterOk(db'.exams, db'.participants, db'.attempts, q) {
      assert q != p.id ==> CounterOk(db.exams, db.participants, db.attempts, q);
    }
    forall k | k in db'.attempts ensures PlacedOk(db'.participants, db'.attempts, k) {
      assert PlacedOk(db.participants, db.attempts, k);
    }
    assert NumbersComplete(db'.participants, db'.attempts);
  }
}
