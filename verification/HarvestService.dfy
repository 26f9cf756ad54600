/**
  The harvest: list the finished sittings, group them by deployment, push one batch per deployment
  to Central, believe only the acknowledgements of what was sent, and mark those rows that still
  have the generation they were sent with. Other transactions may run between any two statements; with
  them, every drain is a run of the node's machine, whose state the methods carry along.
 */
module HarvestService {
  import opened Common
  import opened Entities
  import opened NodeRepository
  import opened Sorting
  import M = AttemptModel
  import Grading
  import Payloads
  import Machine = SittingMachine
  import Steps = HarvestSteps
  import SweepRuns
  import SweeperService

  const MAX_BATCH_ATTEMPTS := 500

  datatype Reply = PushFailed | NilAck | Ack(accepted: seq<Id>, failures: map<Id, string>)

  datatype Push = Push(deploymentId: Id, batch: seq<AttemptPayload>, final: bool, reply: Reply)

  datatype Failure = NotAcknowledged | AckMismatch(marked: nat, accepted: nat) | Rejections(count: nat)

  /**
    One push, the answers stored when each payload was read, the rows at the marking statement, the rows it
    marked, and what was reported back.
   */
  datatype Outcome = Outcome(
    push: Push, read: seq<Steps.Reading>, rows: map<Id, Attempt>, marked: set<Id>, n: nat, err: Option<Failure>)

  /** Central answers a push however it likes. */
  class Central {
    var pushes: seq<Push>

    constructor ()
      ensures pushes == []
    {
      pushes := [];
    }

    method Receive(deploymentId: Id, batch: seq<AttemptPayload>, final: bool) returns (reply: Reply)
      modifies this
      ensures pushes == old(pushes) + [Push(deploymentId, batch, final, reply)]
    {
      reply := *;
      pushes := pushes + [Push(deploymentId, batch, final, reply)];
    }
  }

  // ---- What one deployment's drain does ----

  /** The sent identifiers Central accepts and does not also reject. */
  function Acked(p: Push): set<Id> {
    if p.reply.Ack? then set id | id in Machine.PayloadIds(p.batch) && id in p.reply.accepted && id !in p.reply.failures else {}
  }

  /** The generation each acknowledged attempt was sent with. */
  function AckedGenerations(p: Push): map<Id, int> {
    map id | id in Acked(p) :: Machine.GenerationIn(p.batch, id)
  }

  /** The payloads Central is known to have accepted by its reply. */
  function Credited(p: Push): set<AttemptPayload> {
    if p.reply.Ack? then Machine.AcceptedPayloads(p.batch, Elements(p.reply.accepted), p.reply.failures.Keys) else {}
  }

  /** What the machine is told of a reply: a failed or empty one accepts and rejects nothing. */
  function Replied(reply: Reply): Machine.Event {
    match reply
    case Ack(accepted, failures) => Machine.Event.Push(Elements(accepted), failures.Keys)
    case _ => Machine.Event.Push({}, {})
  }

  /** The push, as the machine sees it. */
  function PushAct(p: Push): Steps.Act {
    match p.reply
    case Ack(accepted, failures) => Steps.Pushed(p.batch, Elements(accepted), failures.Keys)
    case _ => Steps.Pushed(p.batch, {}, {})
  }

  /** What the drain of one deployment does: it reads the answers, pushes, and marks what the reply acknowledges. */
  function ActsOf(o: Outcome): seq<Steps.Act> {
    Steps.Reads(o.read) + [PushAct(o.push)] + [Steps.Marked(o.rows, AckedGenerations(o.push))]
  }

  /** The drains of several deployments, one after the other. */
  function AllActs(outcomes: seq<Outcome>): seq<Steps.Act> {
    if outcomes == [] then [] else AllActs(outcomes[..|outcomes| - 1]) + ActsOf(outcomes[|outcomes| - 1])
  }

  /** The payloads Central is known to have accepted by all its replies. */
  function AllCredited(outcomes: seq<Outcome>): set<AttemptPayload> {
    if outcomes == [] then {} else AllCredited(outcomes[..|outcomes| - 1]) + Credited(outcomes[|outcomes| - 1].push)
  }

  /** The machine is told to mark what the drain marks. */
  lemma PushAsMachine(s: Machine.State, p: Push)
    requires s.drain.Draining? && s.drain.built == p.batch
    ensures Machine.Next(s, Replied(p.reply)) ==
            s.(central := s.central + Credited(p), drain := s.drain.(built := [], toMark := AckedGenerations(p)))
    ensures Steps.ActIn(s, Replied(p.reply)) == [PushAct(p)]
  {
    hide Machine.Next, Machine.GenerationIn;
    match p.reply
    case Ack(accepted, failures) =>
      assert Machine.GenerationsToMark(p.batch, Elements(accepted), failures.Keys) == AckedGenerations(p);
      Steps.PushStep(s, Elements(accepted), failures.Keys);
    case _ =>
      assert Machine.AcceptedPayloads(p.batch, {}, {}) == {} && Machine.GenerationsToMark(p.batch, {}, {}) == AckedGenerations(p);
      Steps.PushStep(s, {}, {});
  }

  function Verdict(p: Push, marked: nat): Option<Failure> {
    if !p.reply.Ack? then Some(NotAcknowledged)
    else if marked != |Acked(p)| then Some(AckMismatch(marked, |Acked(p)|))
    else if p.final && |p.reply.failures| > 0 then Some(Rejections(|p.reply.failures|))
    else None
  }

  lemma NothingAcked(p: Push)
    requires !p.reply.Ack?
    ensures Acked(p) == {}
  {
  }

  /** What the acknowledgement is found to accept, and the generations found for it. */
  lemma AckedAre(p: Push, accepted: seq<Id>)
    requires p.reply.Ack?
    requires Elements(accepted) == set id | id in Machine.PayloadIds(p.batch) && id in p.reply.accepted && id !in p.reply.failures
    ensures Elements(accepted) == Acked(p)
    ensures AckedGenerations(p) == map id | id in Elements(accepted) :: Machine.GenerationIn(p.batch, id)
  {
    hide Machine.GenerationIn, Machine.PayloadIds;
  }

  lemma MarksAreMarkedIds(db: Database, rows: map<Id, Attempt>, generations: map<Id, int>)
    requires db.attempts == rows
    ensures M.MarkedIds(db, generations) == Steps.Marks(rows, generations)
  {
    hide M.Markable;
  }

  lemma NoneMarked(p: Push, rows: map<Id, Attempt>, at: Time)
    requires Acked(p) == {}
    ensures AckedGenerations(p) == map[] && Steps.Marks(rows, AckedGenerations(p)) == {}
    ensures M.MarkedRows(rows, AckedGenerations(p), at) == rows
  {
  }

  /** The payload reports the attempt with exactly the answers read for it. */
  ghost predicate Reports(p: AttemptPayload, a: Attempt, r: Steps.Reading) {
    r.id == a.id && Payloads.Reports(p, a, r.answers)
  }

  /** The batch reports the first attempts of the group, at most one full batch. */
  ghost predicate Sent(batch: seq<AttemptPayload>, attempts: seq<Attempt>, read: seq<Steps.Reading>) {
    && |read| == |batch| == Min(MAX_BATCH_ATTEMPTS, |attempts|)
    && forall i :: 0 <= i < |batch| ==> Reports(batch[i], attempts[i], read[i])
  }

  /** The first payloads of a batch report the first attempts. */
  ghost predicate Built(batch: seq<AttemptPayload>, attempts: seq<Attempt>, read: seq<Steps.Reading>, n: nat) {
    |read| == |batch| == n <= |attempts| && forall k :: 0 <= k < n ==> Reports(batch[k], attempts[k], read[k])
  }

  lemma NothingBuilt(attempts: seq<Attempt>)
    ensures Built([], attempts, [], 0)
  {
  }

  lemma BuiltNext(batch: seq<AttemptPayload>, attempts: seq<Attempt>, read: seq<Steps.Reading>, n: nat, p: AttemptPayload,
                  answers: seq<Answer>)
    requires Built(batch, attempts, read, n) && n < |attempts| && DistinctIds(attempts) && Payloads.Reports(p, attempts[n], answers)
    ensures Built(batch + [p], attempts, read + [Steps.Reading(attempts[n].id, answers)], n + 1)
    ensures attempts[n].id !in Machine.PayloadIds(batch)
  {
  }

  lemma AllBuilt(batch: seq<AttemptPayload>, attempts: seq<Attempt>, read: seq<Steps.Reading>)
    requires Built(batch, attempts, read, |attempts|)
    ensures |read| == |batch| == |attempts| && forall k :: 0 <= k < |batch| ==> Reports(batch[k], attempts[k], read[k])
  {
  }

  ghost predicate OutcomeOk(deploymentId: Id, attempts: seq<Attempt>, final: bool, o: Outcome) {
    && o.push.deploymentId == deploymentId && o.push.final == final && Sent(o.push.batch, attempts, o.read)
    && o.marked == Steps.Marks(o.rows, AckedGenerations(o.push))
    && o.err == Verdict(o.push, |o.marked|)
    && o.n == (if o.err.None? || o.err.value.Rejections? then |Acked(o.push)| else 0)
  }

  ghost predicate DistinctIds(attempts: seq<Attempt>) {
    forall i, j :: 0 <= i < j < |attempts| ==> attempts[i].id != attempts[j].id
  }

  // ---- Grouping by deployment ----

  /** The machine is between two batches of a drain that listed these attempts. */
  ghost predicate Ready(s: Machine.State, attempts: seq<Attempt>) {
    s.drain.Draining? && s.drain.built == [] && s.drain.toMark == map[] && forall a :: a in attempts ==> a in s.drain.listed
  }

  type Exams = map<Id, Exam>

  /** An attempt is harvested for its exam's own deployment, unless the exam is missing or names none but blanks. */
  lemma ResolvedIs(exams: Exams, a: Attempt)
    ensures Resolved(exams, a).Some? <==> a.examId in exams && exists c :: c in exams[a.examId].deploymentId && !Grading.IsSpace(c)
    ensures Resolved(exams, a).Some? ==> exams[a.examId].deploymentId == Resolved(exams, a).value
  {
    if a.examId in exams {
      var d := exams[a.examId].deploymentId;
      assert forall i :: 0 <= i < |d| ==> d[i] in d;
    }
  }

  /** The deployment an attempt is harvested for: its exam's, unless the exam is missing or names none. */
  function Resolved(exams: Exams, a: Attempt): Option<Id> {
    if a.examId in exams && M.NonBlank(exams[a.examId].deploymentId) then Some(exams[a.examId].deploymentId) else None
  }

  /** The listed attempts of one deployment, in listing order; `None` collects the unresolved ones. */
  function Group(exams: Exams, listed: seq<Attempt>, deployment: Option<Id>): seq<Attempt> {
    if listed == [] then []
    else
      var last := listed[|listed| - 1];
      Group(exams, listed[..|listed| - 1], deployment) + if Resolved(exams, last) == deployment then [last] else []
  }

  /** The deployments a drain visits: those of resolved attempts and, on the final one, of every exam. */
  function Deployments(exams: Exams, listed: seq<Attempt>, final: bool): set<Id> {
    (set a | a in listed && Resolved(exams, a).Some? :: Resolved(exams, a).value)
    + if final then (set e | e in exams :: exams[e].deploymentId) else {}
  }

  ghost predicate StrictlySorted(keys: seq<Id>) {
    Sorted(keys, LexLeq) && Distinct(keys)
  }

  /** The total over the deployments that reported no error. */
  function TotalOf(outcomes: seq<Outcome>): nat {
    if outcomes == [] then 0
    else
      var last := outcomes[|outcomes| - 1];
      TotalOf(outcomes[..|outcomes| - 1]) + if last.err.None? then last.n else 0
  }

  /** One push per deployment in key order: the head of its group, flagged final only when that is all of it. */
  ghost predicate Visits(exams: Exams, listed: seq<Attempt>, final: bool, keys: seq<Id>, outcomes: seq<Outcome>) {
    && |outcomes| == |keys|
    && forall i :: 0 <= i < |keys| ==>
         var group := Group(exams, listed, Some(keys[i]));
         OutcomeOk(keys[i], group, final && |group| <= MAX_BATCH_ATTEMPTS, outcomes[i])
  }

  function PushesOf(outcomes: seq<Outcome>): seq<Push> {
    seq(|outcomes|, i requires 0 <= i < |outcomes| => outcomes[i].push)
  }

  datatype DrainError = SweepFailed | ExamWithoutDeployment | Issues(unresolved: nat, failed: nat)

  function FailedCount(outcomes: seq<Outcome>): nat {
    if outcomes == [] then 0
    else FailedCount(outcomes[..|outcomes| - 1]) + if outcomes[|outcomes| - 1].err.Some? then 1 else 0
  }

  ghost predicate UnnamedExam(exams: Exams) {
    exists e :: e in exams && !M.NonBlank(exams[e].deploymentId)
  }

  /** Everything a drain does to Central and reports, given the attempts it listed. */
  ghost predicate DrainOk(exams: Exams, listed: seq<Attempt>, final: bool, keys: seq<Id>, outcomes: seq<Outcome>,
                          total: nat, err: Option<DrainError>)
  {
    if listed == [] && !final then keys == [] && outcomes == [] && total == 0 && err.None?
    else if final && UnnamedExam(exams) then keys == [] && outcomes == [] && total == 0 && err == Some(ExamWithoutDeployment)
    else
      var unresolved, failed := |Group(exams, listed, None)|, FailedCount(outcomes);
      && StrictlySorted(keys) && Elements(keys) == Deployments(exams, listed, final)
      && Visits(exams, listed, final, keys, outcomes) && total == TotalOf(outcomes)
      && err == if unresolved + failed > 0 then Some(Issues(unresolved, failed)) else None
  }

  /** No push acknowledges more attempts than it carries. */
  lemma AckedBounded(p: Push)
    ensures |Acked(p)| <= |p.batch|
  {
    PayloadIdsBounded(p.batch);
    SubsetSize(Acked(p), Machine.PayloadIds(p.batch));
  }

  lemma {:induction false} PayloadIdsBounded(batch: seq<AttemptPayload>)
    ensures |Machine.PayloadIds(batch)| <= |batch|
  {
    if batch != [] {
      var front, last := batch[..|batch| - 1], batch[|batch| - 1];
      PayloadIdsBounded(front);
      assert batch == front + [last];
      assert Machine.PayloadIds(batch) == Machine.PayloadIds(front) + {last.id};
    }
  }

  class Service {
    const repo: Repository
    const central: Central
    var clock: Time

    constructor (repo: Repository, central: Central, clock: Time)
      ensures this.repo == repo && this.central == central && this.clock == clock
    {
      this.repo, this.central, this.clock := repo, central, clock;
    }

    /** The machine is where the node is; integrity events, which no step of it reads, aside. */
    ghost predicate Synced(s: Machine.State)
      reads this, repo
    {
      clock == s.clock && s.db == repo.Db().(events := s.db.events)
    }

    /** Whatever other transactions do meanwhile is its contract, and callers rely on nothing else. */
    method OthersRun(ghost s: Machine.State) returns (ghost es: seq<Machine.Event>, ghost t: Machine.State)
      requires Synced(s)
      modifies this`clock, repo`attempts, repo`answers, repo`participants, repo`operations, repo`events
      ensures Synced(t) && t == Machine.Run(s, es) && Steps.Others(es)
    {
      repo.events := *;
      es, t := [], s;
    }

    /** The payload of one attempt, with the answers stored at this moment. */
    method BuildPayload(attempt: Attempt) returns (payload: AttemptPayload)
      ensures Payloads.Reports(payload, attempt, repo.Db().AnswersOf(attempt.id))
    {
      var rows := repo.Db().AnswersOf(attempt.id);
      var answers: seq<AnswerPayload> := [];
      for i := 0 to |rows|
        invariant |answers| == i && forall k :: 0 <= k < i ==> Payloads.Carries(answers[k], rows[k])
      {
        answers := answers + [AnswerPayload(rows[i].id, rows[i].itemId, rows[i].json, rows[i].text, rows[i].score,
                                            rows[i].gradingStatus, rows[i].lastSavedAt)];
      }
      payload := AttemptPayload(attempt.id, attempt.participantId, attempt.studentId, attempt.attemptNo, attempt.status,
                                attempt.resetGeneration, attempt.startedAt, attempt.dueAt, attempt.submittedAt,
                                attempt.autoSubmittedAt, answers);
    }

    /** Keeps each accepted identifier once, if it was sent and is not also rejected. */
    method ValidateAck(batch: seq<AttemptPayload>, acks: seq<Id>, failures: map<Id, string>) returns (accepted: seq<Id>)
      ensures Distinct(accepted)
      ensures Elements(accepted) == set id | id in Machine.PayloadIds(batch) && id in acks && id !in failures
    {
      var sent := Machine.PayloadIds(batch);
      var seen: set<Id> := {};
      accepted := [];
      for i := 0 to |acks|
        invariant Distinct(accepted) && seen == Elements(accepted)
        invariant seen == set id | id in Machine.PayloadIds(batch) && id in acks[..i] && id !in failures
        invariant sent == Machine.PayloadIds(batch) - seen
      {
        var id := acks[i];
        assert acks[..i + 1] == acks[..i] + [id];
        if id !in sent { continue; }
        if id in seen { continue; }
        if id in failures { continue; }
        AppendNew(accepted, id);
        seen := seen + {id};
        accepted := accepted + [id];
        sent := sent - {id};
      }
      assert acks[..|acks|] == acks;
    }

    /** The generation each accepted attempt was sent with: that of its first payload. */
    method CollectGenerations(batch: seq<AttemptPayload>, accepted: seq<Id>) returns (generations: map<Id, int>)
      requires Elements(accepted) <= Machine.PayloadIds(batch)
      ensures generations == map id | id in Elements(accepted) :: Machine.GenerationIn(batch, id)
    {
      generations := map[];
      for i := 0 to |accepted|
        invariant generations.Keys == Elements(accepted[..i])
        invariant forall id :: id in generations ==> id in Machine.PayloadIds(batch) && generations[id] == Machine.GenerationIn(batch, id)
      {
        var id := accepted[i];
        assert accepted[..i + 1] == accepted[..i] + [id];
        assert id in Elements(accepted);
        var j := 0;
        while batch[j].id != id
          invariant 0 <= j < |batch| && id in Machine.PayloadIds(batch[j..])
          invariant Machine.GenerationIn(batch[j..], id) == Machine.GenerationIn(batch, id)
          decreases |batch| - j
        {
          assert batch[j..][1..] == batch[j + 1..];
          j := j + 1;
        }
        generations := generations[id := batch[j].resetGeneration];
      }
      assert accepted[..|accepted|] == accepted;
    }

    /** The payloads of a batch, each with its answers as stored when its turn comes. */
    method BuildBatch(attempts: seq<Attempt>, ghost s: Machine.State)
      returns (batch: seq<AttemptPayload>, ghost read: seq<Steps.Reading>, ghost es: seq<Machine.Event>, ghost t: Machine.State)
      requires Synced(s) && Ready(s, attempts) && DistinctIds(attempts)
      modifies this`clock, repo`attempts, repo`answers, repo`participants, repo`operations, repo`events
      ensures |read| == |batch| == |attempts| && forall k :: 0 <= k < |batch| ==> Reports(batch[k], attempts[k], read[k])
      ensures Synced(t) && Steps.Leads(s, es, t, Steps.Reads(read))
      ensures t.central == s.central && t.drain == s.drain.(built := batch)
    {
      hide Machine.AnswerPayloads, Machine.Next, Steps.Leads, Steps.Reads, Steps.Others, Built, Payloads.Reports, DistinctIds;
      hide Machine.PayloadIds, Machine.PayloadOf;
      batch, read, es, t := [], [], [], s;
      Steps.LeadsSelf(s);
      Steps.ReadsOneMore([], Steps.Reading("", []));
      NothingBuilt(attempts);
      for i := 0 to |attempts|
        invariant Built(batch, attempts, read, i)
        invariant Synced(t) && Steps.Leads(s, es, t, Steps.Reads(read))
        invariant t.central == s.central && t.drain == s.drain.(built := batch)
      {
        ghost var more, u := OthersRun(t);
        Steps.OthersOn(s, es, t, Steps.Reads(read), more);
        ghost var reading := Steps.Reading(attempts[i].id, repo.Db().AnswersOf(attempts[i].id));
        var payload := BuildPayload(attempts[i]);
        Payloads.ReportsIff(payload, attempts[i], repo.Db().AnswersOf(attempts[i].id));
        BuiltNext(batch, attempts, read, i, payload, repo.Db().AnswersOf(attempts[i].id));
        Steps.ReadStep(u, attempts[i]);
        Steps.LeadsNext(s, es + more, u, Steps.Reads(read), Machine.ReadAnswers(attempts[i]));
        Steps.ReadsOneMore(read, reading);
        es, t := es + more + [Machine.ReadAnswers(attempts[i])], Machine.Next(u, Machine.ReadAnswers(attempts[i]));
        batch, read := batch + [payload], read + [reading];
      }
      AllBuilt(batch, attempts, read);
    }

    /** One push of at most one batch; other transactions run before its reply is looked at. */
    method SendBatch(deploymentId: Id, group: seq<Attempt>, final: bool, ghost s: Machine.State)
      returns (batch: seq<AttemptPayload>, reply: Reply, ghost read: seq<Steps.Reading>, ghost es: seq<Machine.Event>,
               ghost t: Machine.State)
      requires DistinctIds(group) && Synced(s) && Ready(s, group)
      modifies this`clock, repo`attempts, repo`answers, repo`participants, repo`operations, repo`events, central
      ensures central.pushes == old(central.pushes) + [Push(deploymentId, batch, final, reply)]
      ensures Sent(batch, group, read)
      ensures var p := Push.Push(deploymentId, batch, final, reply);
        && Synced(t) && Steps.Leads(s, es, t, Steps.Reads(read) + [PushAct(p)])
        && t.central == s.central + Credited(p) && t.drain == s.drain.(toMark := AckedGenerations(p))
    {
      hide Reports, Machine.Next, Steps.Leads, Steps.Reads, Steps.Others, Steps.ActIn, AckedGenerations, Credited, PushAct;
      var attempts := if |group| > MAX_BATCH_ATTEMPTS then group[..MAX_BATCH_ATTEMPTS] else group;
      ghost var u, more;
      batch, read, es, u := BuildBatch(attempts, s);
      reply := central.Receive(deploymentId, batch, final);
      ghost var p := Push.Push(deploymentId, batch, final, reply);
      PushAsMachine(u, p);
      Steps.LeadsNext(s, es, u, Steps.Reads(read), Replied(reply));
      es, u := es + [Replied(reply)], Machine.Next(u, Replied(reply));
      more, t := OthersRun(u);
      Steps.OthersOn(s, es, u, Steps.Reads(read) + [PushAct(p)], more);
      es := es + more;
    }

    /** One push of at most one batch, and the marking of what it acknowledged; a skipped marking would mark nothing. */
    method DrainDeployment(deploymentId: Id, group: seq<Attempt>, final: bool, ghost s: Machine.State)
      returns (n: nat, err: Option<Failure>, ghost o: Outcome, ghost es: seq<Machine.Event>, ghost t: Machine.State)
      requires DistinctIds(group) && Synced(s) && Ready(s, group)
      modifies this`clock, repo`attempts, repo`answers, repo`participants, repo`operations, repo`events, central
      ensures central.pushes == old(central.pushes) + [o.push]
      ensures OutcomeOk(deploymentId, group, final, o) && n == o.n && err == o.err
      ensures repo.attempts == M.MarkedRows(o.rows, AckedGenerations(o.push), clock)
      ensures Synced(t) && Steps.Leads(s, es, t, ActsOf(o))
      ensures t.drain == s.drain && t.central == s.central + Credited(o.push)
    {
      hide Reports, Machine.GenerationIn, M.Markable, Machine.Next, Steps.Leads, Steps.Reads, PushAct, Credited, Sent, Acked;
      hide AckedGenerations, Steps.Marks, M.MarkedIds, M.MarkedRows;
      var batch, reply;
      ghost var read;
      batch, reply, read, es, t := SendBatch(deploymentId, group, final, s);
      ghost var push := Push.Push(deploymentId, batch, final, reply);
      ghost var found, rows := repo.Db(), repo.attempts;
      Steps.MarkStep(t);
      Steps.LeadsNext(s, es, t, Steps.Reads(read) + [PushAct(push)], Machine.Mark);
      es, t := es + [Machine.Mark], Machine.Next(t, Machine.Mark);
      if !reply.Ack? {
        assert Acked(push) == {} by { NothingAcked(push); }
        NoneMarked(push, rows, clock);
        o := Outcome(push, read, rows, {}, 0, Some(NotAcknowledged));
        return 0, Some(NotAcknowledged), o, es, t;
      }
      var accepted := ValidateAck(batch, reply.accepted, reply.failures);
      AckedAre(push, accepted);
      DistinctSize(accepted);
      o := Outcome(push, read, rows, Steps.Marks(rows, AckedGenerations(push)), 0, None);
      if |accepted| > 0 {
        var generations := CollectGenerations(batch, accepted);
        var marked := repo.MarkAttemptsHarvestedForGeneration(generations, clock);
        MarksAreMarkedIds(found, rows, generations);
        if marked != |accepted| {
          err := Some(AckMismatch(marked, |accepted|));
          o := o.(err := err);
          return 0, err, o, es, t;
        }
      } else {
        NoneMarked(push, rows, clock);
      }
      err := if final && |reply.failures| > 0 then Some(Rejections(|reply.failures|)) else None;
      n := |accepted|;
      o := o.(n := n, err := err);
    }

    /** The code's batching loop: it never pushes a deployment's group more than once. */
    method DrainGroup(deploymentId: Id, group: seq<Attempt>, final: bool, ghost s: Machine.State)
      returns (total: nat, failed: bool, ghost o: Outcome, ghost es: seq<Machine.Event>, ghost t: Machine.State)
      requires DistinctIds(group) && (group != [] || final) && Synced(s) && Ready(s, group)
      modifies this`clock, repo`attempts, repo`answers, repo`participants, repo`operations, repo`events, central
      ensures central.pushes == old(central.pushes) + [o.push]
      ensures OutcomeOk(deploymentId, group, final && |group| <= MAX_BATCH_ATTEMPTS, o)
      ensures failed == o.err.Some? && total == if o.err.None? then o.n else 0
      ensures repo.attempts == M.MarkedRows(o.rows, AckedGenerations(o.push), clock)
      ensures Synced(t) && Steps.Leads(s, es, t, ActsOf(o))
      ensures t.drain == s.drain && t.central == s.central + Credited(o.push)
    {
      hide OutcomeOk, Steps.Leads, ActsOf, Credited, DistinctIds, AckedGenerations, M.MarkedRows;
      total, failed, es, t := 0, false, [], s;
      o := Outcome(Push.Push(deploymentId, [], final, NilAck), [], map[], {}, 0, None);
      if final && |group| == 0 {
        assert group == [];
        var n, err;
        n, err, o, es, t := DrainDeployment(deploymentId, group, true, s);
        OutcomeCount(deploymentId, group, true, o);
        return 0, err.Some?, o, es, t;
      }
      var rest := group;
      while |rest| > 0
        invariant rest == group ==> total == 0 && !failed && central.pushes == old(central.pushes) && t == s && Synced(s)
        invariant rest == group || (rest == [] && central.pushes == old(central.pushes) + [o.push] && !failed
                                    && OutcomeOk(deploymentId, group, final && |group| <= MAX_BATCH_ATTEMPTS, o)
                                    && repo.attempts == M.MarkedRows(o.rows, AckedGenerations(o.push), clock)
                                    && o.err.None? && total == o.n && Synced(t) && Steps.Leads(s, es, t, ActsOf(o))
                                    && t.drain == s.drain && t.central == s.central + Credited(o.push))
        decreases |rest|
      {
        var markFinal := final && |rest| <= MAX_BATCH_ATTEMPTS;
        var n, err;
        n, err, o, es, t := DrainDeployment(deploymentId, rest, markFinal, s);
        OutcomeCount(deploymentId, rest, markFinal, o);
        if err.Some? {
          failed := true;
          break;
        }
        total := total + n;
        if n < |rest| {
          break;
        }
        rest := rest[n..];
      }
    }

    /**
      A drain sweeps first and sends nothing at all while an expired sitting cannot be finalised. It is a run in which
      the harvest lists, reads, pushes and marks exactly what the outcomes say.
     */
    method Drain(sweeper: SweeperService.Service?, final: bool, times: Id -> Time, later: Time, ghost s: Machine.State)
      returns (total: nat, err: Option<DrainError>, ghost listed: seq<Attempt>, ghost keys: seq<Id>, ghost outcomes: seq<Outcome>,
               ghost es: seq<Machine.Event>, ghost t: Machine.State)
      requires sweeper != null ==> sweeper.repo == repo
      requires forall id :: id in repo.attempts ==> repo.attempts[id].id == id
      requires forall id :: id in repo.attempts && repo.attempts[id].status.InProgress? ==> repo.attempts[id].harvestedAt.None?
      requires Synced(s) && s.drain.Idle? && forall id :: clock <= times(id) <= later
      modifies this`clock, repo`attempts, repo`answers, repo`participants, repo`operations, repo`events, central
      ensures var stuck := SweeperService.Orphans(old(repo.Db()), SweeperService.ExpiredIds(old(repo.Db()), old(clock)));
        if sweeper != null && stuck != {}
        then total == 0 && err == Some(SweepFailed) && outcomes == [] && Steps.Leads(s, es, t, [])
        else DistinctIds(listed) && DrainOk(repo.exams, listed, final, keys, outcomes, total, err)
             && Steps.Leads(s, es, t, [Steps.Listed(listed)] + AllActs(outcomes))
      ensures central.pushes == old(central.pushes) + PushesOf(outcomes) && t.central == s.central + AllCredited(outcomes)
      ensures sweeper != null && err != Some(SweepFailed) ==> forall id ::
        id in old(repo.Db()).attempts && SweeperService.Expired(old(repo.Db()).attempts[id], old(clock))
        ==> exists a :: a in listed && a.id == id
      ensures Synced(t) && t.drain.Idle?
    {
      hide DrainOk, DistinctIds, SweeperService.Orphans, Machine.Unpushed, Steps.Leads, SweeperService.Swept, AllActs;
      hide Steps.Others;
      ghost var before := repo.Db();
      es, t, outcomes := [], s, [];
      Steps.LeadsSelf(s);
      if sweeper != null {
        var count, failed := sweeper.SweepExpiredAttempts(clock, times);
        SweptWithoutEvents(before, s.db.events, clock, times);
        es, t := SweepRuns.SweepIsRun(s, times, later);
        Steps.OthersOn(s, [], s, [], es);
        assert [] + es == es;
        ghost var now := clock;
        clock := later;
        if failed > 0 {
          listed, keys := [], [];
          return 0, Some(SweepFailed), listed, keys, outcomes, es, t;
        }
        SweptAreUnpushed(before, repo.Db(), now, times);
      }
      ghost var mid, swept, more := t, repo.attempts, [];
      total, err, listed, keys, outcomes, more, t := DrainLocked(final, mid);
      forall id | sweeper != null && id in before.attempts && SweeperService.Expired(before.attempts[id], old(clock))
        ensures exists a :: a in listed && a.id == id
      {
        assert swept[id] in listed;
      }
      ghost var acts := [Steps.Listed(listed)] + AllActs(outcomes);
      Steps.LeadsOn(s, es, mid, [], more, t, acts);
      assert [] + acts == acts;
      es := es + more;
      DrainNeverSweeps(repo.exams, listed, final, keys, outcomes, total, err);
    }

    /** One drain: list, group, and visit every deployment in key order. */
    method DrainLocked(final: bool, ghost s: Machine.State)
      returns (total: nat, err: Option<DrainError>, ghost listed: seq<Attempt>, ghost keys: seq<Id>, ghost outcomes: seq<Outcome>,
               ghost es: seq<Machine.Event>, ghost t: Machine.State)
      requires forall id :: id in repo.attempts ==> repo.attempts[id].id == id
      requires Synced(s) && s.drain.Idle?
      modifies this`clock, repo`attempts, repo`answers, repo`participants, repo`operations, repo`events, central
      ensures DistinctIds(listed) && forall a :: a in listed <==> Machine.Unpushed(old(repo.Db()), a)
      ensures forall a :: a in listed <==>
        && a.id in old(repo.attempts) && old(repo.attempts)[a.id] == a
        && (a.status == Submitted || a.status == AutoSubmitted) && a.harvestedAt.None?
      ensures central.pushes == old(central.pushes) + PushesOf(outcomes)
      ensures DrainOk(repo.exams, listed, final, keys, outcomes, total, err)
      ensures Synced(t) && Steps.Leads(s, es, t, [Steps.Listed(listed)] + AllActs(outcomes))
      ensures t.drain.Idle? && t.central == s.central + AllCredited(outcomes)
    {
      hide OutcomeOk, Group, Deployments, Machine.Unpushed, M.NonBlank, LexLeq, DistinctIds, Visits, Steps.Leads, Machine.Next;
      hide ActsOf, Credited;
      var attempts := ListUnpushedAttempts();
      listed, keys, outcomes := attempts, [], [];
      UnpushedWithoutEvents(repo.Db(), s.db.events);
      ghost var u := ListingLeads(s, attempts);
      es := [Machine.ListUnpushed(attempts)];
      assert [Steps.Listed(attempts)] + AllActs([]) == [Steps.Listed(attempts)];
      t := EndsAfter(s, es, u, attempts, []);
      es := es + [Machine.EndDrain];
      if |attempts| == 0 && !final {
        return 0, None, listed, keys, outcomes, es, t;
      }
      var seed: map<Id, seq<Attempt>> := map[];
      if final {
        var r := SeedDeployments();
        if r.None? {
          return 0, Some(ExamWithoutDeployment), listed, keys, outcomes, es, t;
        }
        seed := r.value;
      } else {
        NoDeployments(repo.exams);
      }
      var byDeployment, unresolved := GroupByDeployment(attempts, seed, final);
      var order := SortedKeys(byDeployment);
      keys := order;
      var failures: nat;
      ghost var more, v;
      total, failures, outcomes, more, v := VisitAll(attempts, final, order, byDeployment, u);
      es := [Machine.ListUnpushed(attempts)] + more;
      Steps.LeadsOn(s, [Machine.ListUnpushed(attempts)], u, [Steps.Listed(attempts)], more, v, AllActs(outcomes));
      t := EndsAfter(s, es, v, attempts, outcomes);
      es := es + [Machine.EndDrain];
      err := if unresolved + failures > 0 then Some(Issues(unresolved, failures)) else None;
    }

    /** Visits every deployment in key order; one that fails does not stop the next. */
    method VisitAll(attempts: seq<Attempt>, final: bool, order: seq<Id>, byDeployment: map<Id, seq<Attempt>>,
                    ghost s: Machine.State)
      returns (total: nat, failures: nat, ghost outcomes: seq<Outcome>, ghost es: seq<Machine.Event>, ghost t: Machine.State)
      requires DistinctIds(attempts) && byDeployment == Grouped(repo.exams, attempts, final)
      requires Elements(order) == byDeployment.Keys && Synced(s) && s.drain == Machine.Draining(attempts, [], map[])
      modifies this`clock, repo`attempts, repo`answers, repo`participants, repo`operations, repo`events, central
      ensures central.pushes == old(central.pushes) + PushesOf(outcomes)
      ensures Visits(repo.exams, attempts, final, order, outcomes)
      ensures total == TotalOf(outcomes) && failures == FailedCount(outcomes)
      ensures Synced(t) && Steps.Leads(s, es, t, AllActs(outcomes))
      ensures t.drain == s.drain && t.central == s.central + AllCredited(outcomes)
    {
      hide OutcomeOk, Group, Deployments, Visits, PushesOf, TotalOf, FailedCount, DistinctIds, Steps.Leads, Ready, Credited;
      hide ActsOf, AllActs, AllCredited;
      total, failures, outcomes, es, t := 0, 0, [], [], s;
      Steps.LeadsSelf(s);
      NoVisits(repo.exams, attempts, final, order);
      for i := 0 to |order|
        invariant |outcomes| == i && central.pushes == old(central.pushes) + PushesOf(outcomes)
        invariant Visits(repo.exams, attempts, final, order[..i], outcomes)
        invariant total == TotalOf(outcomes) && failures == FailedCount(outcomes)
        invariant Synced(t) && Steps.Leads(s, es, t, AllActs(outcomes))
        invariant t.drain == s.drain && t.central == s.central + AllCredited(outcomes)
      {
        assert order[i] in Elements(order);
        GroupDistinct(repo.exams, attempts, Some(order[i]));
        if !final { VisitedIsNonempty(repo.exams, attempts, final, order[i]); }
        ghost var u := t;
        GroupReady(repo.exams, attempts, order[i], u);
        var n, failed;
        ghost var o, more;
        n, failed, o, more, t := DrainGroup(order[i], byDeployment[order[i]], final, u);
        Steps.LeadsOn(s, es, u, AllActs(outcomes), more, t, ActsOf(o));
        VisitNext(repo.exams, attempts, final, order, outcomes, o);
        OutcomeNext(outcomes, o);
        es, outcomes := es + more, outcomes + [o];
        total := total + n;
        failures := failures + if failed then 1 else 0;
      }
      assert order[..|order|] == order;
    }

    /** Every finished, unharvested attempt, in some order. */
    method ListUnpushedAttempts() returns (listed: seq<Attempt>)
      requires forall id :: id in repo.attempts ==> repo.attempts[id].id == id
      ensures DistinctIds(listed)
      ensures forall a :: a in listed <==> Machine.Unpushed(repo.Db(), a)
      ensures forall a :: a in listed <==>
        && a.id in repo.attempts && repo.attempts[a.id] == a
        && (a.status == Submitted || a.status == AutoSubmitted) && a.harvestedAt.None?
    {
      var rest := set id | id in repo.attempts && Machine.Unpushed(repo.Db(), repo.attempts[id]);
      listed := [];
      while rest != {}
        invariant DistinctIds(listed) && forall a :: a in listed ==> a.id !in rest
        invariant forall id :: id in rest ==> id in repo.attempts && Machine.Unpushed(repo.Db(), repo.attempts[id])
        invariant forall a :: Machine.Unpushed(repo.Db(), a) <==> a in listed || (a.id in rest && repo.attempts[a.id] == a)
        decreases |rest|
      {
        var id :| id in rest;
        listed, rest := listed + [repo.attempts[id]], rest - {id};
      }
    }

    /** The exams' deployments, each with no attempts yet; fails on an exam that names none. */
    method SeedDeployments() returns (r: Option<map<Id, seq<Attempt>>>)
      ensures r.None? <==> exists e :: e in repo.exams && !M.NonBlank(repo.exams[e].deploymentId)
      ensures r.Some? ==> r.value == map d | d in Deployments(repo.exams, [], true) :: []
    {
      var rest, keys := repo.exams.Keys, {};
      while rest != {}
        invariant rest <= repo.exams.Keys
        invariant forall e :: e in repo.exams && e !in rest ==> M.NonBlank(repo.exams[e].deploymentId)
        invariant keys == set e | e in repo.exams && e !in rest :: repo.exams[e].deploymentId
        decreases |rest|
      {
        var e :| e in rest;
        if !M.NonBlank(repo.exams[e].deploymentId) {
          return None;
        }
        keys, rest := keys + {repo.exams[e].deploymentId}, rest - {e};
      }
      r := Some(map d | d in keys :: []);
    }

    /** Sorts each listed attempt into its deployment's group, looking every exam up once. */
    method GroupByDeployment(listed: seq<Attempt>, seed: map<Id, seq<Attempt>>, final: bool)
      returns (byDeployment: map<Id, seq<Attempt>>, unresolved: nat)
      requires seed == map d | d in Deployments(repo.exams, [], final) :: []
      ensures byDeployment == Grouped(repo.exams, listed, final)
      ensures unresolved == |Group(repo.exams, listed, None)|
    {
      hide Group, Deployments, Grouped;
      GroupNone(repo.exams, final);
      byDeployment, unresolved := seed, 0;
      assert listed[..0] == [];
      var examCache: map<Id, Exam> := map[];
      for i := 0 to |listed|
        invariant forall e :: e in examCache ==> e in repo.exams && examCache[e] == repo.exams[e]
        invariant byDeployment == Grouped(repo.exams, listed[..i], final)
        invariant unresolved == |Group(repo.exams, listed[..i], None)|
      {
        var att := listed[i];
        GroupNext(repo.exams, listed, i, final);
        if att.examId !in examCache {
          if att.examId !in repo.exams {
            unresolved := unresolved + 1;
            continue;
          }
          examCache := examCache[att.examId := repo.exams[att.examId]];
        }
        var deployment := examCache[att.examId].deploymentId;
        if !M.NonBlank(deployment) {
          unresolved := unresolved + 1;
          continue;
        }
        var group := if deployment in byDeployment then byDeployment[deployment] else [];
        byDeployment := byDeployment[deployment := group + [att]];
      }
      assert listed[..|listed|] == listed;
    }

    /** The map's keys, sorted in place by exchanging. */
    method SortedKeys(m: map<Id, seq<Attempt>>) returns (keys: seq<Id>)
      ensures Elements(keys) == m.Keys && StrictlySorted(keys)
    {
      var out := KeyArray(m.Keys);
      LexOrder();
      ExchangeSort(out, LexLeq);
      keys := out[..];
      assert forall k :: k in keys <==> k in multiset(keys);
      DistinctByMultiset(keys);
    }
  }

  /** What grouping computes: each visited deployment with its group. */
  function Grouped(exams: Exams, listed: seq<Attempt>, final: bool): map<Id, seq<Attempt>> {
    map d | d in Deployments(exams, listed, final) :: Group(exams, listed, Some(d))
  }

  lemma GroupNone(exams: Exams, final: bool)
    ensures Grouped(exams, [], final) == map d | d in Deployments(exams, [], final) :: []
    ensures Group(exams, [], None) == []
  {
  }

  /** Listing one more attempt adds it to the group it resolves to, and to no other. */
  lemma GroupNext(exams: Exams, listed: seq<Attempt>, i: nat, final: bool)
    requires i < |listed|
    ensures var (before, after) := (Grouped(exams, listed[..i], final), Grouped(exams, listed[..i + 1], final));
      var at := Resolved(exams, listed[i]);
      && after == (if at.None? then before
                   else before[at.value := (if at.value in before then before[at.value] else []) + [listed[i]]])
      && |Group(exams, listed[..i + 1], None)| == |Group(exams, listed[..i], None)| + if at.None? then 1 else 0
  {
    hide Group, Deployments, Resolved;
    var at := Resolved(exams, listed[i]);
    var before, after := Grouped(exams, listed[..i], final), Grouped(exams, listed[..i + 1], final);
    DeploymentsNext(exams, listed, i, final);
    GroupOneMore(exams, listed, i, None);
    forall d | d in after ensures after[d] == (if d in before then before[d] else []) + if at == Some(d) then [listed[i]] else [] {
      GroupOneMore(exams, listed, i, Some(d));
      if d !in before {
        UnvisitedIsEmpty(exams, listed[..i], final, d);
      }
    }
    forall d | d in before && at != Some(d) ensures after[d] == before[d] {
    }
  }

  lemma UnvisitedIsEmpty(exams: Exams, listed: seq<Attempt>, final: bool, d: Id)
    requires d !in Deployments(exams, listed, final)
    ensures Group(exams, listed, Some(d)) == []
  {
    hide Resolved;
    NotVisited(exams, listed, d);
  }

  /**
    After a sweep without failures the rows are still keyed, and every sitting that had expired waits to be
    harvested.
   */
  lemma SweptAreUnpushed(before: Database, db: Database, now: Time, clock: Id -> Time)
    requires forall id :: id in before.attempts ==> before.attempts[id].id == id
    requires forall id :: id in before.attempts && before.attempts[id].status.InProgress? ==> before.attempts[id].harvestedAt.None?
    requires SweeperService.Orphans(before, SweeperService.ExpiredIds(before, now)) == {}
    requires db == before.(attempts := SweeperService.Swept(before, SweeperService.ExpiredIds(before, now), now, clock))
    ensures before.attempts.Keys == db.attempts.Keys && forall id :: id in db.attempts ==> db.attempts[id].id == id
    ensures forall id :: id in before.attempts && SweeperService.Expired(before.attempts[id], now) ==>
      Machine.Unpushed(db, db.attempts[id])
  {
    var expired := SweeperService.ExpiredIds(before, now);
    forall id | id in expired ensures Machine.Unpushed(db, db.attempts[id]) {
      assert id !in SweeperService.Orphans(before, expired);
      assert db.attempts[id] == SweeperService.SweptRow(before, before.attempts[id], now, clock(id));
    }
  }

  lemma GroupReady(exams: Exams, listed: seq<Attempt>, d: Id, s: Machine.State)
    requires s.drain == Machine.Draining(listed, [], map[])
    ensures Ready(s, Group(exams, listed, Some(d)))
  {
    hide Group, Resolved;
    forall a | a in Group(exams, listed, Some(d)) ensures a in listed {
      GroupMembers(exams, listed, Some(d), a);
    }
  }

  /** The listing begins the harvest in flight. */
  lemma ListingLeads(s: Machine.State, rows: seq<Attempt>) returns (t: Machine.State)
    requires s.drain.Idle? && forall r :: r in rows ==> Machine.Unpushed(s.db, r)
    ensures t == s.(drain := Machine.Draining(rows, [], map[]))
    ensures Steps.Leads(s, [Machine.ListUnpushed(rows)], t, [Steps.Listed(rows)])
  {
    hide Machine.Next, Machine.Unpushed, Steps.Leads;
    Steps.LeadsSelf(s);
    Steps.ListStep(s, rows);
    t := Machine.Next(s, Machine.ListUnpushed(rows));
    Steps.LeadsNext(s, [], s, [], Machine.ListUnpushed(rows));
    assert [] + [Machine.ListUnpushed(rows)] == [Machine.ListUnpushed(rows)];
    assert [] + [Steps.Listed(rows)] == [Steps.Listed(rows)];
  }

  /** The end of the harvest adds nothing to what it did. */
  lemma EndsAfter(s: Machine.State, es: seq<Machine.Event>, t: Machine.State, rows: seq<Attempt>, outcomes: seq<Outcome>)
    returns (u: Machine.State)
    requires Steps.Leads(s, es, t, [Steps.Listed(rows)] + AllActs(outcomes))
    ensures u == t.(drain := Machine.Idle)
    ensures Steps.Leads(s, es + [Machine.EndDrain], u, [Steps.Listed(rows)] + AllActs(outcomes))
  {
    hide Machine.Next, Steps.Leads, AllActs;
    Steps.EndStep(t);
    u := Machine.Next(t, Machine.EndDrain);
    Steps.LeadsNext(s, es, t, [Steps.Listed(rows)] + AllActs(outcomes), Machine.EndDrain);
    assert [Steps.Listed(rows)] + AllActs(outcomes) + [] == [Steps.Listed(rows)] + AllActs(outcomes);
  }

  lemma UnpushedWithoutEvents(db: Database, events: map<Id, seq<IntegrityEvent>>)
    ensures forall a :: Machine.Unpushed(db.(events := events), a) <==> Machine.Unpushed(db, a)
  {
  }

  lemma SweptWithoutEvents(db: Database, events: map<Id, seq<IntegrityEvent>>, now: Time, times: Id -> Time)
    ensures SweeperService.ExpiredIds(db.(events := events), now) == SweeperService.ExpiredIds(db, now)
    ensures forall ids :: SweeperService.Swept(db.(events := events), ids, now, times) == SweeperService.Swept(db, ids, now, times)
  {
    hide M.Finalized;
    forall ids ensures SweeperService.Swept(db.(events := events), ids, now, times) == SweeperService.Swept(db, ids, now, times) {
      assert forall id :: db.(events := events).AnswersOf(id) == db.AnswersOf(id);
    }
  }

  lemma DrainNeverSweeps(exams: Exams, listed: seq<Attempt>, final: bool, keys: seq<Id>, outcomes: seq<Outcome>,
                         total: nat, err: Option<DrainError>)
    requires DrainOk(exams, listed, final, keys, outcomes, total, err)
    ensures err != Some(SweepFailed)
  {
  }

  lemma NoVisits(exams: Exams, listed: seq<Attempt>, final: bool, keys: seq<Id>)
    ensures Visits(exams, listed, final, keys[..0], []) && PushesOf([]) == [] && TotalOf([]) == 0
    ensures FailedCount([]) == 0 && AllActs([]) == [] && AllCredited([]) == {}
  {
  }

  lemma VisitNext(exams: Exams, listed: seq<Attempt>, final: bool, keys: seq<Id>, outcomes: seq<Outcome>, o: Outcome)
    requires |outcomes| < |keys| && Visits(exams, listed, final, keys[..|outcomes|], outcomes)
    requires var group := Group(exams, listed, Some(keys[|outcomes|]));
      OutcomeOk(keys[|outcomes|], group, final && |group| <= MAX_BATCH_ATTEMPTS, o)
    ensures Visits(exams, listed, final, keys[..|outcomes| + 1], outcomes + [o])
  {
    hide OutcomeOk, Group;
    var n, all := |outcomes|, outcomes + [o];
    forall i | 0 <= i <= n
      ensures var group := Group(exams, listed, Some(keys[i]));
        OutcomeOk(keys[i], group, final && |group| <= MAX_BATCH_ATTEMPTS, all[i]) {
      assert i < n ==> keys[..n][i] == keys[i];
    }
  }

  /** What one more outcome adds to everything told of them. */
  lemma OutcomeNext(outcomes: seq<Outcome>, o: Outcome)
    ensures PushesOf(outcomes + [o]) == PushesOf(outcomes) + [o.push]
    ensures TotalOf(outcomes + [o]) == TotalOf(outcomes) + if o.err.None? then o.n else 0
    ensures FailedCount(outcomes + [o]) == FailedCount(outcomes) + if o.err.Some? then 1 else 0
    ensures AllActs(outcomes + [o]) == AllActs(outcomes) + ActsOf(o)
    ensures AllCredited(outcomes + [o]) == AllCredited(outcomes) + Credited(o.push)
  {
    hide ActsOf, Credited;
    assert (outcomes + [o])[..|outcomes|] == outcomes;
  }

  lemma NoDeployments(exams: Exams)
    ensures Deployments(exams, [], false) == {}
  {
  }

  lemma OutcomeCount(deploymentId: Id, attempts: seq<Attempt>, final: bool, o: Outcome)
    requires OutcomeOk(deploymentId, attempts, final, o)
    ensures o.n <= |attempts|
  {
    AckedBounded(o.push);
  }

  lemma {:induction false} GroupMembers(exams: Exams, listed: seq<Attempt>, d: Option<Id>, a: Attempt)
    ensures a in Group(exams, listed, d) <==> a in listed && Resolved(exams, a) == d
  {
    hide Resolved;
    if listed != [] {
      GroupMembers(exams, listed[..|listed| - 1], d, a);
      assert listed == listed[..|listed| - 1] + [listed[|listed| - 1]];
    }
  }

  lemma {:induction false} GroupDistinct(exams: Exams, listed: seq<Attempt>, d: Option<Id>)
    requires DistinctIds(listed)
    ensures DistinctIds(Group(exams, listed, d))
  {
    hide Resolved;
    if listed != [] {
      var front, last := listed[..|listed| - 1], listed[|listed| - 1];
      GroupDistinct(exams, front, d);
      forall a | a in Group(exams, front, d) ensures a.id != last.id {
        GroupMembers(exams, front, d, a);
        var k :| 0 <= k < |front| && front[k] == a;
        assert listed[k].id != last.id;
      }
    }
  }

  lemma VisitedIsNonempty(exams: Exams, listed: seq<Attempt>, final: bool, d: Id)
    requires d in Deployments(exams, listed, final) && !final
    ensures Group(exams, listed, Some(d)) != []
  {
    hide Resolved;
    var a :| a in listed && Resolved(exams, a) == Some(d);
    GroupMembers(exams, listed, Some(d), a);
  }

  lemma GroupOneMore(exams: Exams, listed: seq<Attempt>, i: nat, d: Option<Id>)
    requires i < |listed|
    ensures Group(exams, listed[..i + 1], d) ==
      Group(exams, listed[..i], d) + if Resolved(exams, listed[i]) == d then [listed[i]] else []
  {
    hide Resolved;
    assert listed[..i + 1][..i] == listed[..i];
  }

  lemma DeploymentsNext(exams: Exams, listed: seq<Attempt>, i: nat, final: bool)
    requires i < |listed|
    ensures var at := Resolved(exams, listed[i]);
      Deployments(exams, listed[..i + 1], final) == Deployments(exams, listed[..i], final) + if at.Some? then {at.value} else {}
  {
    hide Resolved;
    assert listed[..i + 1] == listed[..i] + [listed[i]];
  }

  lemma {:induction false} NotVisited(exams: Exams, listed: seq<Attempt>, d: Id)
    requires forall a :: a in listed ==> Resolved(exams, a) != Some(d)
    ensures Group(exams, listed, Some(d)) == []
  {
    if listed != [] {
      NotVisited(exams, listed[..|listed| - 1], d);
    }
  }

  /** The members of a set, in some order, in a new array. */
  method KeyArray(ids: set<Id>) returns (out: array<Id>)
    ensures fresh(out) && multiset(out[..]) == multiset(ids)
  {
    var xs: seq<Id> := [];
    var rest := ids;
    while rest != {}
      invariant multiset(xs) + multiset(rest) == multiset(ids)
      decreases |rest|
    {
      var k :| k in rest;
      xs, rest := xs + [k], rest - {k};
    }
    out := new Id[|xs|](i requires 0 <= i < |xs| => xs[i]);
    assert out[..] == xs;
  }

  /** The elements before `i` are in order, and no later one is smaller than any of them. */
  ghost predicate Settled<T>(s: seq<T>, i: nat, leq: (T, T) -> bool) {
    i <= |s| && forall p, q :: 0 <= p < i && p < q < |s| ==> leq(s[p], s[q])
  }

  /** Whatever follows position `i` and is smaller than what stands there is swapped in, one by one. */
  method ExchangeSort<T(!new)>(out: array<T>, leq: (T, T) -> bool)
    requires TotalPreorder(leq)
    modifies out
    ensures Sorted(out[..], leq) && multiset(out[..]) == multiset(old(out[..]))
  {
    hide TotalPreorder, Settled, Least, Sorted;
    NothingSettled(out[..], leq);
    var i := 0;
    while i < out.Length
      invariant 0 <= i <= out.Length && Settled(out[..], i, leq) && multiset(out[..]) == multiset(old(out[..]))
    {
      LeastOfOne(out[..], i, leq);
      var j := i + 1;
      while j < out.Length
        invariant i < j <= out.Length && Settled(out[..], i, leq) && multiset(out[..]) == multiset(old(out[..]))
        invariant Least(out[..], i, j, leq)
      {
        ghost var s := out[..];
        LeastNext(s, i, j, leq);
        if !leq(out[i], out[j]) {
          SwapSettles(s, i, j, leq);
          out[i], out[j] := out[j], out[i];
          assert out[..] == s[i := s[j]][j := s[i]];
        }
        j := j + 1;
      }
      SettledNext(out[..], i, leq);
      i := i + 1;
    }
    SettledIsSorted(out[..], leq);
  }

  /** The element at `i` is least among those from `i` up to `j`. */
  ghost predicate Least<T>(s: seq<T>, i: nat, j: nat, leq: (T, T) -> bool) {
    i < |s| && j <= |s| && forall q :: i <= q < j ==> leq(s[i], s[q])
  }

  lemma NothingSettled<T>(s: seq<T>, leq: (T, T) -> bool)
    ensures Settled(s, 0, leq)
  {
  }

  lemma LeastOfOne<T(!new)>(s: seq<T>, i: nat, leq: (T, T) -> bool)
    requires TotalPreorder(leq) && i < |s|
    ensures Least(s, i, i + 1, leq)
  {
  }

  lemma LeastNext<T>(s: seq<T>, i: nat, j: nat, leq: (T, T) -> bool)
    requires Least(s, i, j, leq) && i < j < |s|
    ensures leq(s[i], s[j]) ==> Least(s, i, j + 1, leq)
  {
  }

  lemma SettledNext<T>(s: seq<T>, i: nat, leq: (T, T) -> bool)
    requires Settled(s, i, leq) && Least(s, i, |s|, leq)
    ensures Settled(s, i + 1, leq)
  {
  }

  lemma SettledIsSorted<T>(s: seq<T>, leq: (T, T) -> bool)
    requires Settled(s, |s|, leq)
    ensures Sorted(s, leq)
  {
  }

  /** Swapping a smaller later element in keeps the sorted part and the elements, and keeps `i` least so far. */
  lemma SwapSettles<T(!new)>(s: seq<T>, i: nat, j: nat, leq: (T, T) -> bool)
    requires TotalPreorder(leq) && i < j < |s| && Settled(s, i, leq) && !leq(s[i], s[j]) && Least(s, i, j, leq)
    ensures var t := s[i := s[j]][j := s[i]];
      Settled(t, i, leq) && multiset(t) == multiset(s) && Least(t, i, j + 1, leq)
  {
  }
}
