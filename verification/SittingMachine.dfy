/**
  The node while students sit: every transaction and every single statement is one atomic step,
  and whatever the code does between two of them is a separate step that any other may precede.
  Central answers a push however it likes.
 */
module SittingMachine {
  import opened Common
  import opened Entities
  import opened AttemptModel
  import opened SittingInvariant
  import opened SittingSteps
  import Answers
  import Grading

  /** A harvest in flight: the rows listed, the payloads read so far, and the generations to mark. */
  datatype Drain = Idle | Draining(listed: seq<Attempt>, built: seq<AttemptPayload>, toMark: map<Id, int>)

  /** `pending` holds answer writes whose status check has passed; `central` what Central accepted. */
  datatype State = State(
    db: Database, clock: Time, seenExpired: set<Id>, pending: set<Answer>, drain: Drain, central: set<AttemptPayload>)

  datatype Event =
    | Tick(seconds: nat)
    | JoinRoster(p: Participant)
    | Bind(id: Id, device: string)
    | Start(participantId: Id, examId: Id, device: string, now: Time, newId: Id)
    | CheckAutosave(attemptId: Id, participantId: Id, itemId: Id, json: Fields, text: Option<string>, clientSeq: int, answerId: Id,
                    grade: (int, bool))
    | LandAutosave(w: Answer)
    | Submit(id: Id)
    | SeeExpired(id: Id)
    | Expire(id: Id)
    | Reset(c: ResetCommand, delay: nat)
    | Preview(c: ResetCommand)
    | ListUnpushed(rows: seq<Attempt>)
    | ReadAnswers(row: Attempt)
    | Push(accepted: set<Id>, failures: set<Id>)
    | Mark
    | EndDrain

  // ---- Steps ----

  /** The status, window and item checks of an autosave, made before its write. */
  predicate MayAutosave(db: Database, attemptId: Id, participantId: Id, itemId: Id, now: Time) {
    && attemptId in db.attempts && db.attempts[attemptId].participantId == participantId
    && db.attempts[attemptId].status.InProgress? && now <= db.attempts[attemptId].dueAt
    && itemId in db.items && (db.items[itemId].examId == "" || db.items[itemId].examId == db.attempts[attemptId].examId)
  }

  /** The row an autosave goes on to write, given its score and whether it was graded automatically. */
  function GradedAnswer(item: Item, attemptId: Id, json: Fields, text: Option<string>, clientSeq: int, answerId: Id,
                        now: Time, grade: (int, bool)): Answer {
    var (score, graded) := grade;
    Answer(answerId, attemptId, item.id, json, text, if graded then Some(score) else None, item.points,
           if graded then AutoGraded else if item.requiresManualGrading then ManualRequired else Pending, now, clientSeq)
  }

  /** What the harvest reports of an answer: every column but its sequence and maximum score. */
  function Shown(a: Answer): AnswerPayload {
    AnswerPayload(a.id, a.itemId, a.json, a.text, a.score, a.gradingStatus, a.lastSavedAt)
  }

  function AnswerPayloads(rows: seq<Answer>): seq<AnswerPayload> {
    seq(|rows|, i requires 0 <= i < |rows| => Shown(rows[i]))
  }

  function PayloadOf(a: Attempt, answers: seq<AnswerPayload>): AttemptPayload {
    AttemptPayload(a.id, a.participantId, a.studentId, a.attemptNo, a.status, a.resetGeneration, a.startedAt, a.dueAt,
                   a.submittedAt, a.autoSubmittedAt, answers)
  }

  predicate Unpushed(db: Database, row: Attempt) {
    row.id in db.attempts && db.attempts[row.id] == row && Resettable(row.status) && row.harvestedAt.None?
  }

  function PayloadIds(built: seq<AttemptPayload>): set<Id> {
    set p | p in built :: p.id
  }

  /** The pushed payloads Central's reply accepts: named as accepted and not also as failed. */
  function AcceptedPayloads(built: seq<AttemptPayload>, accepted: set<Id>, failures: set<Id>): set<AttemptPayload> {
    set p | p in built && p.id in accepted && p.id !in failures
  }

  /** The generation of the first payload that carries an identifier. */
  function GenerationIn(built: seq<AttemptPayload>, id: Id): int
    requires id in PayloadIds(built)
  {
    if built[0].id == id then built[0].resetGeneration else GenerationIn(built[1..], id)
  }

  function GenerationsToMark(built: seq<AttemptPayload>, accepted: set<Id>, failures: set<Id>): map<Id, int> {
    map id | id in PayloadIds(built) && id in accepted && id !in failures :: GenerationIn(built, id)
  }

  function AfterReset(db: Database, c: ResetCommand, now: Time, writeNow: Time): Database {
    ApplyReset(db, c, now, writeNow).0
  }

  function AfterFinalize(db: Database, id: Id, auto: bool, now: Time): Database {
    FinalizeAttempt(db, id, auto, now).0
  }

  /** The tables after a step; an event whose guard fails leaves them as they are. */
  ghost function DbAfter(s: State, e: Event): Database {
    match e
    case JoinRoster(p) =>
      if p.id !in s.db.participants && p.examId in s.db.exams && p.attemptCount == 0 && p.latestAttemptId.None?
      then AddParticipant(s.db, p) else s.db
    case Bind(id, device) =>
      if BindAttemptDevice(s.db, id, device).Ok? then BindAttemptDevice(s.db, id, device).value else s.db
    case Start(pid, examId, device, now, newId) =>
      if examId in s.db.exams && s.db.exams[examId].startsAt <= now <= s.db.exams[examId].endsAt && now <= s.clock
      then StartTransaction(s.db, pid, s.db.exams[examId], device, now, s.clock, newId).0 else s.db
    case LandAutosave(w) => if w in s.pending then PutAnswer(s.db, w) else s.db
    case Submit(id) => AfterFinalize(s.db, id, false, s.clock)
    case Expire(id) => if id in s.seenExpired then AfterFinalize(s.db, id, true, s.clock) else s.db
    case Reset(c, delay) => AfterReset(s.db, c, s.clock, s.clock + delay)
    case Preview(c) => PreviewReset(s.db, c, s.clock).0
    case Mark => if s.drain.Draining? then MarkHarvested(s.db, s.drain.toMark, s.clock) else s.db
    case _ => s.db
  }

  /** The answer whose write a step allows, if it is an autosave check that passes, under a grade it may be given. */
  ghost function CheckedAnswers(s: State, e: Event): set<Answer> {
    if e.CheckAutosave? && MayAutosave(s.db, e.attemptId, e.participantId, e.itemId, s.clock)
       && Grading.MayGrade(s.db.items[e.itemId], e.json, e.grade)
    then {GradedAnswer(s.db.items[e.itemId], e.attemptId, e.json, e.text, e.clientSeq, e.answerId, s.clock, e.grade)}
    else {}
  }

  /** Everything else a step changes, given the tables it leaves and the answer it checked. */
  ghost function With(s: State, e: Event, db: Database, checked: set<Answer>): State {
    var t := s.(db := db);
    match e
    case Tick(seconds) => t.(clock := s.clock + seconds)
    case CheckAutosave(_, _, _, _, _, _, _, _) => t.(pending := s.pending + checked)
    case LandAutosave(w) => t.(pending := s.pending - {w})
    case SeeExpired(id) =>
      if id in s.db.attempts && s.db.attempts[id].status.InProgress? && s.db.attempts[id].dueAt < s.clock
      then t.(seenExpired := s.seenExpired + {id}) else t
    case Reset(c, delay) => t.(clock := s.clock + delay)
    case _ => t.(drain := DrainAfter(s, e), central := CentralAfter(s, e))
  }

  /** The harvest in flight after one of its own steps. */
  ghost function DrainAfter(s: State, e: Event): Drain {
    match e
    case ListUnpushed(rows) =>
      if s.drain.Idle? && forall r :: r in rows ==> Unpushed(s.db, r) then Draining(rows, [], map[]) else s.drain
    case ReadAnswers(row) =>
      if s.drain.Draining? && row in s.drain.listed && row.id !in PayloadIds(s.drain.built)
      then s.drain.(built := s.drain.built + [PayloadOf(row, AnswerPayloads(s.db.AnswersOf(row.id)))]) else s.drain
    case Push(accepted, failures) =>
      if s.drain.Draining? then s.drain.(built := [], toMark := GenerationsToMark(s.drain.built, accepted, failures)) else s.drain
    case Mark => if s.drain.Draining? then s.drain.(toMark := map[]) else s.drain
    case EndDrain => Idle
    case _ => s.drain
  }

  ghost function CentralAfter(s: State, e: Event): set<AttemptPayload> {
    if e.Push? && s.drain.Draining? then s.central + AcceptedPayloads(s.drain.built, e.accepted, e.failures) else s.central
  }

  ghost function Next(s: State, e: Event): State {
    With(s, e, DbAfter(s, e), CheckedAnswers(s, e))
  }

  ghost function Run(s: State, es: seq<Event>): State {
    if es == [] then s else Next(Run(s, es[..|es| - 1]), es[|es| - 1])
  }

  /** A node whose bundles are loaded and that nobody has used yet. */
  ghost predicate Init(s: State) {
    && BundleOk(s.db.exams, s.db.items)
    && (forall p :: p in s.db.participants ==>
          && s.db.participants[p].id == p && s.db.participants[p].examId in s.db.exams
          && s.db.participants[p].attemptCount == 0 && s.db.participants[p].latestAttemptId.None?)
    && s.db.attempts == map[] && s.db.answers == map[] && s.db.operations == map[]
    && s.seenExpired == {} && s.pending == {} && s.drain == Idle && s.central == {}
  }

  // ---- The invariant of the whole node ----

  ghost predicate PendingOk(s: State) {
    forall w :: w in s.pending ==> AnswerOk(s.db.items, s.db.attempts, w)
  }

  ghost predicate SeenOk(s: State) {
    forall id :: id in s.seenExpired ==> id in s.db.attempts && s.db.attempts[id].dueAt < s.clock
  }

  /** A listed row is a finished past of the stored row, and its present while the generation stands. */
  ghost predicate ListedOk(attempts: Attempts, row: Attempt) {
    row.id in attempts && row.Finished() && Evolves(row, attempts[row.id])
  }

  /** A payload reports a finished past of the stored row, and its present while the generation stands. */
  ghost predicate PayloadOk(attempts: Attempts, p: AttemptPayload) {
    && p.id in attempts && p.resetGeneration <= attempts[p.id].resetGeneration
    && (p.resetGeneration == attempts[p.id].resetGeneration ==>
          attempts[p.id].Finished() && p == PayloadOf(attempts[p.id], p.answers))
  }

  /** Central accepted a payload of `id` with this generation. */
  ghost predicate AcceptedAt(central: set<AttemptPayload>, id: Id, generation: int) {
    exists p :: p in central && p.id == id && p.resetGeneration == generation
  }

  /** Whoever is marked harvested was accepted by Central in its current generation. */
  ghost predicate MarksAccepted(attempts: Attempts, central: set<AttemptPayload>) {
    forall id :: id in attempts && attempts[id].harvestedAt.Some? ==> AcceptedAt(central, id, attempts[id].resetGeneration)
  }

  /** Every payload ever read, in flight or accepted. */
  ghost predicate InPlay(s: State, p: AttemptPayload) {
    p in s.central || (s.drain.Draining? && p in s.drain.built)
  }

  ghost predicate HarvestOk(s: State) {
    && (s.drain.Draining? ==> forall row :: row in s.drain.listed ==> ListedOk(s.db.attempts, row))
    && (forall p :: InPlay(s, p) ==> PayloadOk(s.db.attempts, p))
    && (s.drain.Draining? ==> forall id :: id in s.drain.toMark ==> AcceptedAt(s.central, id, s.drain.toMark[id]))
    && MarksAccepted(s.db.attempts, s.central)
  }

  ghost predicate NodeOk(s: State) {
    Invariant(s.db) && PendingOk(s) && SeenOk(s) && HarvestOk(s)
  }

  lemma InitOk(s: State)
    requires Init(s)
    ensures NodeOk(s)
  {
    forall p | p in s.db.participants ensures CounterOk(s.db.exams, s.db.participants, s.db.attempts, p) {
    }
    assert OperationsOk(s.db.operations, s.db.attempts);
  }

  /** What every step does to the rows, as far as the rest of the node depends on it. */
  ghost predicate RowsStep(s: State, e: Event, db: Database) {
    && AllMove(s.db.attempts, db.attempts)
    && db.exams == s.db.exams && db.items == s.db.items && ReceiptsKept(s.db.operations, db.operations)
    && (!e.Mark? ==> NoNewMarks(s.db.attempts, db.attempts))
    && (!e.LandAutosave? ==> db.answers == s.db.answers)
    && (e.LandAutosave? ==> db == if e.w in s.pending then PutAnswer(s.db, e.w) else s.db)
    && (e.Mark? ==> db == if s.drain.Draining? then MarkHarvested(s.db, s.drain.toMark, s.clock) else s.db)
  }

  lemma TransactionIsRowsStep(s: State, e: Event, db: Database)
    requires !e.LandAutosave? && !e.Mark? && Transaction(s.db, db)
    ensures RowsStep(s, e, db)
  {
  }

  /** Every step moves rows only in allowed ways, fixes the bundle and keeps the receipts. */
  lemma StepRows(s: State, e: Event)
    requires Invariant(s.db)
    ensures RowsStep(s, e, DbAfter(s, e))
  {
    hide *;
    if e.LandAutosave? || e.Mark? {
      LandAndMarkRows(s, e);
    } else {
      StepTransaction(s, e);
      TransactionIsRowsStep(s, e, DbAfter(s, e));
    }
  }

  lemma LandAndMarkRows(s: State, e: Event)
    requires e.LandAutosave? || e.Mark?
    ensures RowsStep(s, e, DbAfter(s, e))
  {
    NoWrite(s.db);
    if e.Mark? && s.drain.Draining? {
      MarkMoves(s.db, s.drain.toMark, s.clock);
    }
  }

  lemma MarkMoves(db: Database, generations: map<Id, int>, at: Time)
    ensures AllMove(db.attempts, MarkHarvested(db, generations, at).attempts)
  {
  }

  lemma StepTransaction(s: State, e: Event)
    requires Invariant(s.db) && !e.LandAutosave? && !e.Mark?
    ensures Transaction(s.db, DbAfter(s, e))
  {
    hide DbAfter, Invariant, Transaction;
    if e.Start? { StartRows(s, e); }
    else if e.JoinRoster? || e.Bind? { BindRows(s, e); }
    else if e.Submit? || e.Expire? { FinalizeRows(s, e); }
    else if e.Reset? { ResetRows(s, e); }
    else if e.Preview? { PreviewRows(s, e); }
    else { QuietRows(s, e); NoWrite(s.db); }
  }

  /** The steps that write no table. */
  predicate Quiet(e: Event) {
    !e.Start? && !e.JoinRoster? && !e.Bind? && !e.Submit? && !e.Expire? && !e.Reset? && !e.Preview? && !e.LandAutosave? && !e.Mark?
  }

  lemma QuietRows(s: State, e: Event)
    requires Quiet(e)
    ensures DbAfter(s, e) == s.db
  {
  }

  lemma StartRows(s: State, e: Event)
    requires Invariant(s.db) && e.Start?
    ensures Transaction(s.db, DbAfter(s, e))
  {
    NoWrite(s.db);
    if e.examId in s.db.exams {
      StartTransactionMoves(s.db, e.participantId, s.db.exams[e.examId], e.device, e.now, s.clock, e.newId);
    }
  }

  lemma BindRows(s: State, e: Event)
    requires e.JoinRoster? || e.Bind?
    ensures Transaction(s.db, DbAfter(s, e))
  {
    NoWrite(s.db);
    if e.Bind? && BindAttemptDevice(s.db, e.id, e.device).Ok? {
      BindTransaction(s.db, e.id, e.device);
    }
  }

  lemma FinalizeRows(s: State, e: Event)
    requires Invariant(s.db) && (e.Submit? || e.Expire?)
    ensures Transaction(s.db, DbAfter(s, e))
  {
    NoWrite(s.db);
    FinalizeTransaction(s.db, e.id, e.Expire?, s.clock);
  }

  lemma ResetIsAfter(s: State, e: Event)
    requires e.Reset?
    ensures DbAfter(s, e) == AfterReset(s.db, e.c, s.clock, s.clock + e.delay)
  {
    hide AfterReset, AfterFinalize, StartTransaction, BindAttemptDevice, PreviewReset, MarkHarvested, PutAnswer, AddParticipant;
  }

  lemma AfterResetOk(db: Database, c: ResetCommand, now: Time, writeNow: Time)
    requires Invariant(db)
    ensures Invariant(AfterReset(db, c, now, writeNow)) && Transaction(db, AfterReset(db, c, now, writeNow))
  {
    ResetKeeps(db, c, now, writeNow);
    ResetTransaction(db, c, now, writeNow);
  }

  lemma ResetRows(s: State, e: Event)
    requires Invariant(s.db) && e.Reset?
    ensures Transaction(s.db, DbAfter(s, e))
  {
    hide *;
    ResetIsAfter(s, e);
    AfterResetOk(s.db, e.c, s.clock, s.clock + e.delay);
  }

  lemma PreviewRows(s: State, e: Event)
    requires Invariant(s.db) && e.Preview?
    ensures Transaction(s.db, DbAfter(s, e))
  {
    PreviewTransaction(s.db, e.c, s.clock);
  }

  /** Every step keeps the tables in order. */
  lemma StepTables(s: State, e: Event)
    requires Invariant(s.db) && PendingOk(s)
    ensures Invariant(DbAfter(s, e))
  {
    hide DbAfter, Invariant, PendingOk;
    if e.Start? { StartTables(s, e); }
    else if e.JoinRoster? { RosterTables(s, e); }
    else if e.Bind? { BindTables(s, e); }
    else if e.Submit? || e.Expire? { FinalizeTables(s, e); }
    else if e.Reset? { ResetTables(s, e); }
    else if e.Preview? { PreviewTables(s, e); }
    else if e.LandAutosave? { LandTables(s, e); }
    else if e.Mark? { MarkTables(s, e); }
    else { QuietRows(s, e); }
  }

  lemma FinalizeTables(s: State, e: Event)
    requires Invariant(s.db) && (e.Submit? || e.Expire?)
    ensures Invariant(DbAfter(s, e))
  {
    FinalizeKeeps(s.db, e.id, e.Expire?, s.clock);
  }

  lemma ResetTables(s: State, e: Event)
    requires Invariant(s.db) && e.Reset?
    ensures Invariant(DbAfter(s, e))
  {
    hide *;
    ResetIsAfter(s, e);
    AfterResetOk(s.db, e.c, s.clock, s.clock + e.delay);
  }

  lemma PreviewTables(s: State, e: Event)
    requires Invariant(s.db) && e.Preview?
    ensures Invariant(DbAfter(s, e))
  {
    PreviewKeeps(s.db, e.c, s.clock);
  }

  lemma RosterTables(s: State, e: Event)
    requires Invariant(s.db) && e.JoinRoster?
    ensures Invariant(DbAfter(s, e))
  {
    if e.p.id !in s.db.participants && e.p.examId in s.db.exams && e.p.attemptCount == 0 && e.p.latestAttemptId.None? {
      AddParticipantKeeps(s.db, e.p);
    }
  }

  lemma BindTables(s: State, e: Event)
    requires Invariant(s.db) && e.Bind?
    ensures Invariant(DbAfter(s, e))
  {
    if BindAttemptDevice(s.db, e.id, e.device).Ok? {
      BindKeeps(s.db, e.id, e.device);
    }
  }

  lemma StartTables(s: State, e: Event)
    requires Invariant(s.db) && e.Start?
    ensures Invariant(DbAfter(s, e))
  {
    if e.examId in s.db.exams && e.now <= s.db.exams[e.examId].endsAt {
      assert ExamOk(s.db.exams, s.db.items, e.examId);
      StartKeeps(s.db, e.participantId, s.db.exams[e.examId], e.device, e.now, s.clock, e.newId);
    }
  }

  lemma LandTables(s: State, e: Event)
    requires Invariant(s.db) && PendingOk(s) && e.LandAutosave?
    ensures Invariant(DbAfter(s, e))
  {
    hide Invariant, PutAnswer, AnswerOk;
    if e.w in s.pending {
      PutAnswerKeeps(s.db, e.w);
    }
  }

  lemma MarkTables(s: State, e: Event)
    requires Invariant(s.db) && e.Mark?
    ensures Invariant(DbAfter(s, e))
  {
    if s.drain.Draining? {
      MarkKeeps(s.db, s.drain.toMark, s.clock);
    }
  }

  /** A checked answer was graded from an item of the attempt's exam. */
  lemma CheckedOk(s: State, e: Event)
    requires Invariant(s.db)
    ensures forall w :: w in CheckedAnswers(s, e) ==> AnswerOk(s.db.items, s.db.attempts, w)
  {
    hide Grading.MayGrade;
    if e.CheckAutosave? && MayAutosave(s.db, e.attemptId, e.participantId, e.itemId, s.clock)
       && Grading.MayGrade(s.db.items[e.itemId], e.json, e.grade) {
      Grading.GradeRange(s.db.items[e.itemId], e.json, e.grade);
    }
  }

  lemma KeepsPending(s: State, e: Event, db: Database, checked: set<Answer>)
    requires PendingOk(s) && SeenOk(s) && RowsStep(s, e, db)
    requires forall w :: w in checked ==> AnswerOk(s.db.items, s.db.attempts, w)
    ensures PendingOk(With(s, e, db, checked)) && SeenOk(With(s, e, db, checked))
  {
    hide SameFinished, NoNewMarks, ReceiptsKept, PutAnswer, MarkHarvested, DrainAfter, CentralAfter;
    var s' := With(s, e, db, checked);
    forall w | w in s'.pending ensures AnswerOk(s'.db.items, s'.db.attempts, w) {
      assert AnswerOk(s.db.items, s.db.attempts, w);
      assert Moves(s.db.attempts[w.attemptId], db.attempts[w.attemptId]);
    }
    forall id | id in s'.seenExpired ensures id in s'.db.attempts && s'.db.attempts[id].dueAt < s'.clock {
      assert id in s.db.attempts && Moves(s.db.attempts[id], db.attempts[id]);
    }
  }

  /** What was true of a row's past stays true of what the row becomes. */
  lemma ListedKept(before: Attempts, after: Attempts, row: Attempt)
    requires AllMove(before, after) && ListedOk(before, row)
    ensures ListedOk(after, row)
  {
    assert Moves(before[row.id], after[row.id]);
  }

  lemma PayloadKept(before: Attempts, after: Attempts, p: AttemptPayload)
    requires AllMove(before, after) && PayloadOk(before, p)
    ensures PayloadOk(after, p)
  {
    assert Moves(before[p.id], after[p.id]);
  }

  /** An unpushed row may be listed, and a listed row read into a payload. */
  lemma UnpushedIsListed(db: Database, row: Attempt)
    requires Unpushed(db, row)
    ensures ListedOk(db.attempts, row)
  {
  }

  lemma ListedIsReadable(attempts: Attempts, row: Attempt, answers: seq<AnswerPayload>)
    requires ListedOk(attempts, row)
    ensures PayloadOk(attempts, PayloadOf(row, answers))
  {
  }

  lemma {:induction false} GenerationAccepted(built: seq<AttemptPayload>, id: Id)
    requires id in PayloadIds(built)
    ensures exists p :: p in built && p.id == id && p.resetGeneration == GenerationIn(built, id)
  {
    if built[0].id != id {
      GenerationAccepted(built[1..], id);
    }
  }

  lemma MarksWereAccepted(built: seq<AttemptPayload>, accepted: set<Id>, failures: set<Id>, id: Id)
    requires id in GenerationsToMark(built, accepted, failures)
    ensures AcceptedAt(AcceptedPayloads(built, accepted, failures), id, GenerationsToMark(built, accepted, failures)[id])
  {
    GenerationAccepted(built, id);
    var p :| p in built && p.id == id && p.resetGeneration == GenerationIn(built, id);
    assert p in AcceptedPayloads(built, accepted, failures);
  }

  lemma KeepsListed(s: State, e: Event, db: Database, checked: set<Answer>)
    requires HarvestOk(s) && RowsStep(s, e, db) && With(s, e, db, checked).drain.Draining?
    ensures forall row :: row in With(s, e, db, checked).drain.listed ==> ListedOk(db.attempts, row)
  {
    hide AllMove, NoNewMarks, ReceiptsKept, MarksAccepted, AnswerPayloads, PutAnswer, MarkHarvested, ListedOk, PayloadOk, Unpushed;
    forall row | row in With(s, e, db, checked).drain.listed ensures ListedOk(db.attempts, row) {
      if !(s.drain.Draining? && row in s.drain.listed) {
        UnpushedIsListed(s.db, row);
      }
      ListedKept(s.db.attempts, db.attempts, row);
    }
  }

  lemma KeepsPayloads(s: State, e: Event, db: Database, checked: set<Answer>)
    requires HarvestOk(s) && RowsStep(s, e, db)
    ensures forall p :: InPlay(With(s, e, db, checked), p) ==> PayloadOk(db.attempts, p)
  {
    hide AllMove, NoNewMarks, ReceiptsKept, MarksAccepted, AnswerPayloads, PutAnswer, MarkHarvested, ListedOk, PayloadOk, PayloadOf;
    forall p | InPlay(With(s, e, db, checked), p) ensures PayloadOk(db.attempts, p) {
      if !InPlay(s, p) {
        ListedIsReadable(s.db.attempts, e.row, AnswerPayloads(s.db.AnswersOf(e.row.id)));
      }
      PayloadKept(s.db.attempts, db.attempts, p);
    }
  }

  lemma AcceptedGrows(small: set<AttemptPayload>, large: set<AttemptPayload>, id: Id, generation: int)
    requires small <= large && AcceptedAt(small, id, generation)
    ensures AcceptedAt(large, id, generation)
  {
  }

  lemma KeepsToMark(s: State, e: Event, db: Database, checked: set<Answer>)
    requires HarvestOk(s) && RowsStep(s, e, db)
    ensures var s' := With(s, e, db, checked);
      s'.drain.Draining? ==> forall id :: id in s'.drain.toMark ==> AcceptedAt(s'.central, id, s'.drain.toMark[id])
  {
    var s' := With(s, e, db, checked);
    if s'.drain.Draining? {
      forall id | id in s'.drain.toMark ensures AcceptedAt(s'.central, id, s'.drain.toMark[id]) {
        if e.Push? {
          MarksWereAccepted(s.drain.built, e.accepted, e.failures, id);
          AcceptedGrows(AcceptedPayloads(s.drain.built, e.accepted, e.failures), s'.central, id, s'.drain.toMark[id]);
        }
      }
    }
  }

  /** A row the marking statement marks carries the generation it was given. */
  lemma MarkedWasAccepted(db: Database, generations: map<Id, int>, at: Time, central: set<AttemptPayload>, id: Id)
    requires id in db.attempts
    requires MarkHarvested(db, generations, at).attempts[id].harvestedAt.Some?
    requires forall k :: k in generations ==> AcceptedAt(central, k, generations[k])
    requires db.attempts[id].harvestedAt.Some? ==> AcceptedAt(central, id, db.attempts[id].resetGeneration)
    ensures AcceptedAt(central, id, MarkHarvested(db, generations, at).attempts[id].resetGeneration)
  {
    hide AcceptedAt;
  }

  /** Where no step marks, a harvest mark was there before with the same generation. */
  lemma MarkWasThere(exams: Exams, before: Attempts, after: Attempts, id: Id)
    requires RowsOk(exams, after) && AllMove(before, after) && NoNewMarks(before, after)
    requires id in after && after[id].harvestedAt.Some?
    ensures id in before && before[id].harvestedAt.Some? && before[id].resetGeneration == after[id].resetGeneration
  {
    assert RowOk(exams, after[id]);
  }

  lemma MarksAcceptedKept(exams: Exams, before: Attempts, after: Attempts, small: set<AttemptPayload>,
                          large: set<AttemptPayload>)
    requires RowsOk(exams, after) && AllMove(before, after) && NoNewMarks(before, after)
    requires MarksAccepted(before, small) && small <= large
    ensures MarksAccepted(after, large)
  {
    hide RowsOk, AllMove, NoNewMarks;
    forall id | id in after && after[id].harvestedAt.Some?
      ensures AcceptedAt(large, id, after[id].resetGeneration)
    {
      MarkWasThere(exams, before, after, id);
      AcceptedGrows(small, large, id, after[id].resetGeneration);
    }
  }

  lemma MarkingAccepted(db: Database, generations: map<Id, int>, at: Time, central: set<AttemptPayload>)
    requires MarksAccepted(db.attempts, central)
    requires forall k :: k in generations ==> AcceptedAt(central, k, generations[k])
    ensures MarksAccepted(MarkHarvested(db, generations, at).attempts, central)
  {
    forall id | id in db.attempts && MarkHarvested(db, generations, at).attempts[id].harvestedAt.Some?
      ensures AcceptedAt(central, id, MarkHarvested(db, generations, at).attempts[id].resetGeneration)
    {
      MarkedWasAccepted(db, generations, at, central, id);
    }
  }

  /** A harvest mark was there before with the same generation, or is set by the marking statement. */
  lemma KeepsHarvested(s: State, e: Event, db: Database, checked: set<Answer>)
    requires HarvestOk(s) && RowsStep(s, e, db) && Invariant(s.db) && Invariant(db)
    ensures MarksAccepted(With(s, e, db, checked).db.attempts, With(s, e, db, checked).central)
  {
    hide BundleOk, CountersOk, PlacesOk, RowsOk, NumbersUnique, NumbersComplete, AnswersOk, OperationsOk, AllMove, NoNewMarks,
      ReceiptsKept, MarksAccepted, AcceptedAt, ListedOk, PayloadOk, PutAnswer, MarkHarvested;
    if e.Mark? && s.drain.Draining? {
      MarkingAccepted(s.db, s.drain.toMark, s.clock, s.central);
    } else if !e.Mark? {
      MarksAcceptedKept(s.db.exams, s.db.attempts, db.attempts, s.central, With(s, e, db, checked).central);
    }
  }

  /** Every step, whatever its order and whatever Central answers, keeps the node in order. */
  lemma StepKeeps(s: State, e: Event)
    requires NodeOk(s)
    ensures NodeOk(Next(s, e))
  {
    hide DbAfter, CheckedAnswers, Invariant, PendingOk, SeenOk, HarvestOk, With, RowsStep, AnswerOk, BundleOk;
    var db, checked := DbAfter(s, e), CheckedAnswers(s, e);
    StepTables(s, e);
    StepRows(s, e);
    CheckedOk(s, e);
    AssembleKeeps(s, e, db, checked);
  }

  lemma WithDb(s: State, e: Event, db: Database, checked: set<Answer>)
    ensures With(s, e, db, checked).db == db
  {
  }

  lemma NextDb(s: State, e: Event)
    ensures Next(s, e).db == DbAfter(s, e)
  {
    hide DbAfter, CheckedAnswers;
  }

  lemma AssembleKeeps(s: State, e: Event, db: Database, checked: set<Answer>)
    requires NodeOk(s) && Invariant(db) && RowsStep(s, e, db)
    requires forall w :: w in checked ==> AnswerOk(s.db.items, s.db.attempts, w)
    ensures NodeOk(With(s, e, db, checked))
  {
    hide With, Invariant, PendingOk, SeenOk, RowsStep;
    assert With(s, e, db, checked).db == db by { WithDb(s, e, db, checked); }
    KeepsPending(s, e, db, checked);
    KeepsPayloads(s, e, db, checked);
    KeepsToMark(s, e, db, checked);
    KeepsHarvested(s, e, db, checked);
    if With(s, e, db, checked).drain.Draining? {
      KeepsListed(s, e, db, checked);
    }
  }

  lemma {:induction false} RunKeeps(s: State, es: seq<Event>)
    requires NodeOk(s)
    ensures NodeOk(Run(s, es))
  {
    hide NodeOk;
    if es != [] {
      RunKeeps(s, es[..|es| - 1]);
      StepKeeps(Run(s, es[..|es| - 1]), es[|es| - 1]);
    }
  }
}
