/**
  Runs from a freshly loaded node in which a final drain reports no error and yet leaves finished sittings behind:
  Central stays silent about them, or there are more than one batch holds.
 */
module CleanDrains {
  import opened Common
  import opened Entities
  import opened HarvestService
  import opened HarvestProperties
  import Late = LateAnswerRun
  import M = AttemptModel
  import Machine = SittingMachine
  import History = SittingHistory
  import Steps = HarvestSteps
  import Payloads

  // ---- A node where `n` students have submitted ----

  function Name(i: nat): Id
    requires i < 0xD800
  {
    [i as char]
  }

  function Person(i: nat): Participant
    requires i < 0xD800
  {
    Late.PERSON.(id := Name(i), studentId := Name(i), accessCode := Name(i))
  }

  function Began(i: nat): Attempt
    requires i < 0xD800
  {
    M.NewAttempt(Person(i), Late.EXAM, "", 10, Name(i))
  }

  /** The sitting as submitted, without an answer. */
  function Sat(i: nat): Attempt
    requires i < 0xD800
  {
    M.Finalized(Began(i), Late.EXAM, [], false, 10)
  }

  /** The node with its bundle loaded and nobody on the roster yet. */
  function Empty(): Machine.State {
    Late.Opening().(db := Late.Tables(map[], map[], map[]))
  }

  function SatRows(n: nat): map<Id, Attempt>
    requires n < 0xD800
  {
    if n == 0 then map[] else SatRows(n - 1)[Name(n - 1) := Sat(n - 1)]
  }

  lemma {:induction false} SatRowsAre(n: nat)
    requires n < 0xD800
    ensures forall id :: id in SatRows(n) <==> |id| == 1 && id[0] as int < n
    ensures forall id :: id in SatRows(n) ==> SatRows(n)[id] == Sat(id[0] as int)
  {
    hide Sat;
    if n > 0 {
      SatRowsAre(n - 1);
      forall id: Id | |id| == 1 && id[0] as int == n - 1 ensures id == Name(n - 1) {
      }
    }
  }

  function SeatRows(n: nat): (seats: map<Id, Participant>)
    requires n < 0xD800
    ensures forall id :: id in seats ==> |id| == 1 && id[0] as int < n
  {
    if n == 0 then map[]
    else SeatRows(n - 1)[Name(n - 1) := Person(n - 1).(attemptCount := 1, latestAttemptId := Some(Name(n - 1)))]
  }

  /** The node with `n` submitted sittings. */
  function Crowd(n: nat): Machine.State
    requires n < 0xD800
  {
    Empty().(db := Late.Tables(SeatRows(n), SatRows(n), map[]))
  }

  ghost function Comings(n: nat): seq<Machine.Event>
    requires n < 0xD800
  {
    if n == 0 then []
    else Comings(n - 1) + [Machine.JoinRoster(Person(n - 1))] + [Machine.Start(Name(n - 1), "e", "", 10, Name(n - 1))]
         + [Machine.Submit(Name(n - 1))]
  }

  lemma EmptyIsInit()
    ensures Machine.Init(Empty())
  {
    Late.OpeningIsInit();
  }

  lemma JoinIs(s: Machine.State, p: Participant)
    requires p.id !in s.db.participants && p.examId in s.db.exams && p.attemptCount == 0 && p.latestAttemptId.None?
    ensures Machine.Next(s, Machine.JoinRoster(p)) == s.(db := s.db.(participants := s.db.participants[p.id := p]))
  {
  }

  lemma StartIs(s: Machine.State, pid: Id, e: Id, now: Time, newId: Id)
    requires e in s.db.exams && s.db.exams[e].startsAt <= now <= s.db.exams[e].endsAt && now <= s.clock
    ensures Machine.Next(s, Machine.Start(pid, e, "", now, newId)) ==
            s.(db := M.StartTransaction(s.db, pid, s.db.exams[e], "", now, s.clock, newId).0)
  {
    hide M.StartTransaction;
  }

  lemma SubmitIs(s: Machine.State, id: Id)
    ensures Machine.Next(s, Machine.Submit(id)) == s.(db := M.FinalizeAttempt(s.db, id, false, s.clock).0)
  {
    hide M.FinalizeAttempt;
  }

  /** The first start of a participant creates the first attempt. */
  lemma FirstStart(db: Database, p: Participant, exam: Exam, now: Time, clock: Time, newId: Id)
    requires p.id in db.participants && db.participants[p.id] == p && p.examId == exam.id && p.attemptCount < exam.maxAttempts
    requires newId !in db.attempts && forall id :: id in db.attempts ==> db.attempts[id].participantId != p.id
    ensures M.StartTransaction(db, p.id, exam, "", now, clock, newId).0 ==
            db.(participants := db.participants[p.id := p.(attemptCount := p.attemptCount + 1, latestAttemptId := Some(newId))],
                attempts := db.attempts[newId := M.NewAttempt(p, exam, "", now, newId)])
  {
    hide M.NewAttempt, M.ResumeActive, M.FindActive;
    assert M.FindActive(db, p.id, exam.id).None?;
  }

  /** Submitting an open attempt without answers. */
  lemma BareSubmit(db: Database, id: Id, now: Time)
    requires id in db.attempts && db.attempts[id].id == id && db.attempts[id].status.InProgress?
    requires db.attempts[id].examId in db.exams && db.AnswersOf(id) == []
    ensures M.FinalizeAttempt(db, id, false, now).0 ==
            db.(attempts := db.attempts[id := M.Finalized(db.attempts[id], db.exams[db.attempts[id].examId], [], false, now)])
  {
  }

  lemma Joins(n: nat)
    requires n < 0xD7FF
    ensures Machine.Next(Crowd(n), Machine.JoinRoster(Person(n))) ==
            Empty().(db := Late.Tables(SeatRows(n)[Name(n) := Person(n)], SatRows(n), map[]))
  {
    hide Machine.Next, SatRows, SeatRows;
    assert Name(n) !in SeatRows(n);
    JoinIs(Crowd(n), Person(n));
  }

  lemma StartsOne(n: nat)
    requires n < 0xD7FF
    ensures Machine.Next(Empty().(db := Late.Tables(SeatRows(n)[Name(n) := Person(n)], SatRows(n), map[])),
                         Machine.Start(Name(n), "e", "", 10, Name(n))) ==
            Empty().(db := Late.Tables(SeatRows(n + 1), SatRows(n)[Name(n) := Began(n)], map[]))
  {
    hide Machine.Next, SatRows, SeatRows, M.StartTransaction;
    var s := Empty().(db := Late.Tables(SeatRows(n)[Name(n) := Person(n)], SatRows(n), map[]));
    StartIs(s, Name(n), "e", 10, Name(n));
    SatRowsAre(n);
    forall id | id in SatRows(n) ensures id != Name(n) && SatRows(n)[id].participantId != Name(n) {
    }
    FirstStart(s.db, Person(n), Late.EXAM, 10, 10, Name(n));
    LastSeat(n);
  }

  lemma LastSeat(n: nat)
    requires n < 0xD7FF
    ensures SeatRows(n)[Name(n) := Person(n)][Name(n) := Person(n).(attemptCount := 1, latestAttemptId := Some(Name(n)))]
            == SeatRows(n + 1)
  {
    hide Person, Name;
  }

  lemma SubmitsOne(n: nat)
    requires n < 0xD7FF
    ensures Machine.Next(Empty().(db := Late.Tables(SeatRows(n + 1), SatRows(n)[Name(n) := Began(n)], map[])),
                         Machine.Submit(Name(n))) == Crowd(n + 1)
  {
    hide Machine.Next, SeatRows, SatRows, M.FinalizeAttempt, M.Finalized, Began, Name;
    var s := Empty().(db := Late.Tables(SeatRows(n + 1), SatRows(n)[Name(n) := Began(n)], map[]));
    SubmitIs(s, Name(n));
    BeganFields(n);
    BareSubmit(s.db, Name(n), 10);
    LastRow(n);
  }

  lemma BeganFields(n: nat)
    requires n < 0xD800
    ensures Began(n).id == Name(n) && Began(n).examId == "e" && Began(n).status.InProgress?
    ensures Sat(n).id == Name(n) && Sat(n).examId == "e" && Sat(n).status.Submitted? && Sat(n).harvestedAt.None?
    ensures Sat(n).resetGeneration == 0
  {
  }

  lemma LastRow(n: nat)
    requires n < 0xD7FF
    ensures SatRows(n)[Name(n) := Began(n)][Name(n) := Sat(n)] == SatRows(n + 1)
  {
    hide Began, Sat, Name;
  }

  /** The students join, start and submit one after the other. */
  lemma {:induction false} CrowdComes(n: nat)
    requires n < 0xD800
    ensures Machine.Run(Empty(), Comings(n)) == Crowd(n)
  {
    if n == 0 {
      hide Machine.Next;
    } else {
      hide *;
      ComingsOneMore(n - 1);
      CrowdComes(n - 1);
      Joins(n - 1);
      StartsOne(n - 1);
      SubmitsOne(n - 1);
      var es, e, f, g := Comings(n - 1), Machine.JoinRoster(Person(n - 1)),
                         Machine.Start(Name(n - 1), "e", "", 10, Name(n - 1)), Machine.Submit(Name(n - 1));
      History.RunNext(Empty(), es, e);
      History.RunNext(Empty(), es + [e], f);
      History.RunNext(Empty(), es + [e] + [f], g);
    }
  }

  lemma ComingsOneMore(n: nat)
    requires n < 0xD7FF
    ensures Comings(n + 1) == Comings(n) + [Machine.JoinRoster(Person(n))] + [Machine.Start(Name(n), "e", "", 10, Name(n))]
                              + [Machine.Submit(Name(n))]
  {
  }

  // ---- A final drain of them all ----

  function Listing(n: nat): (rows: seq<Attempt>)
    requires n < 0xD800
    ensures |rows| == n && DistinctIds(rows)
  {
    seq(n, i requires 0 <= i < n => Sat(i))
  }

  function NothingRead(n: nat): seq<Steps.Reading>
    requires n < 0xD800
  {
    seq(n, i requires 0 <= i < n => Steps.Reading(Name(i), []))
  }

  function Batch(n: nat): seq<AttemptPayload>
    requires n < 0xD800
  {
    seq(n, i requires 0 <= i < n => Machine.PayloadOf(Sat(i), []))
  }

  /** How many of them one batch holds. */
  function Fitting(n: nat): (m: nat)
    ensures m <= n && m <= MAX_BATCH_ATTEMPTS && (m < n ==> m == MAX_BATCH_ATTEMPTS)
  {
    Min(MAX_BATCH_ATTEMPTS, n)
  }

  /** One batch of the sittings, and a reply that rejects nothing. */
  function PushOf(n: nat, acks: seq<Id>): Push
    requires n < 0xD800
  {
    Push.Push("d", Batch(Fitting(n)), n <= MAX_BATCH_ATTEMPTS, Ack(acks, map[]))
  }

  /** What that push leaves marked is what it acknowledges. */
  function OutcomeOf(n: nat, acks: seq<Id>): Outcome
    requires n < 0xD800
  {
    var p := PushOf(n, acks);
    Outcome(p, NothingRead(Fitting(n)), SatRows(n), Acked(p), |Acked(p)|, None)
  }

  lemma BatchIds(m: nat, id: Id)
    requires m < 0xD800
    ensures id in Machine.PayloadIds(Batch(m)) <==> |id| == 1 && id[0] as int < m
  {
    hide Sat;
    forall i | 0 <= i < m ensures Batch(m)[i].id == Name(i) { BeganFields(i); }
    if |id| == 1 && id[0] as int < m {
      assert Batch(m)[id[0] as int] in Batch(m) && Name(id[0] as int) == id;
    }
  }

  lemma SameGeneration(m: nat, id: Id)
    requires m < 0xD800 && id in Machine.PayloadIds(Batch(m))
    ensures Machine.GenerationIn(Batch(m), id) == 0
  {
    hide Machine.GenerationIn, Sat;
    Machine.GenerationAccepted(Batch(m), id);
    forall p | p in Batch(m) ensures p.resetGeneration == 0 {
      var i :| 0 <= i < m && Batch(m)[i] == p;
      BeganFields(i);
    }
  }

  /** What the reply acknowledges of the batch, all of the first generation. */
  lemma AckedOf(n: nat, acks: seq<Id>, id: Id)
    requires n < 0xD800
    ensures var p := PushOf(n, acks);
      && (id in Acked(p) <==> id in acks && |id| == 1 && id[0] as int < Fitting(n))
      && AckedGenerations(p).Keys == Acked(p) && (id in Acked(p) ==> AckedGenerations(p)[id] == 0)
  {
    hide Machine.GenerationIn, Batch, Machine.PayloadIds, Fitting;
    BatchIds(Fitting(n), id);
    if id in Machine.PayloadIds(Batch(Fitting(n))) {
      SameGeneration(Fitting(n), id);
    }
  }

  /** Every acknowledged row is still as it was sent. */
  lemma AckedAreMarked(n: nat, acks: seq<Id>)
    requires n < 0xD800
    ensures Acked(PushOf(n, acks)) == Steps.Marks(SatRows(n), AckedGenerations(PushOf(n, acks)))
  {
    hide Sat, SatRows, Name, PushOf, Acked, AckedGenerations, Fitting;
    forall id ensures id in Acked(PushOf(n, acks)) <==> id in Steps.Marks(SatRows(n), AckedGenerations(PushOf(n, acks))) {
      AckedOf(n, acks, id);
      if id in Acked(PushOf(n, acks)) {
        BeganFields(id[0] as int);
        SatRow(n, id);
      }
    }
  }

  lemma SatRow(n: nat, id: Id)
    requires n < 0xD800 && |id| == 1 && id[0] as int < n
    ensures id in SatRows(n) && SatRows(n)[id] == Sat(id[0] as int)
  {
    hide Sat, SatRows;
    SatRowsAre(n);
  }

  lemma OutcomeOfOk(n: nat, acks: seq<Id>)
    requires n < 0xD800
    ensures OutcomeOk("d", Listing(n), n <= MAX_BATCH_ATTEMPTS, OutcomeOf(n, acks))
  {
    hide Acked, AckedGenerations, SatRows, Steps.Marks;
    AckedAreMarked(n, acks);
    var m := Fitting(n);
    assert Sent(Batch(m), Listing(n), NothingRead(m)) by {
      hide Sat, Machine.PayloadOf, Payloads.Reports;
      assert Machine.AnswerPayloads([]) == [];
      forall i | 0 <= i < m ensures Reports(Batch(m)[i], Listing(n)[i], NothingRead(m)[i]) {
        BeganFields(i);
        Payloads.ReportsIff(Batch(m)[i], Sat(i), []);
      }
    }
  }

  // ---- Its account is clean ----

  function OneExam(): Exams {
    map["e" := Late.EXAM]
  }

  lemma OneExamNamed()
    ensures !UnnamedExam(OneExam())
  {
    assert M.NonBlank("d") by {
      assert "d"[0] == 'd';
    }
  }

  lemma {:induction false} OneGroup(rows: seq<Attempt>)
    requires forall a :: a in rows ==> a.examId == "e"
    ensures Group(OneExam(), rows, Some("d")) == rows && Group(OneExam(), rows, None) == []
  {
    OneExamNamed();
    if rows != [] {
      OneGroup(rows[..|rows| - 1]);
      assert rows == rows[..|rows| - 1] + [rows[|rows| - 1]];
    }
  }

  lemma OneDeployment(rows: seq<Attempt>)
    requires rows != [] && forall a :: a in rows ==> a.examId == "e"
    ensures Deployments(OneExam(), rows, true) == {"d"} && Elements(["d"]) == {"d"} && StrictlySorted(["d"])
  {
    OneExamNamed();
    hide M.NonBlank;
    assert rows[0] in rows;
  }

  /** One deployment drained without error is a clean final drain of all its rows. */
  lemma CleanDrainOfOne(rows: seq<Attempt>, o: Outcome)
    requires rows != [] && forall a :: a in rows ==> a.examId == "e"
    requires OutcomeOk("d", rows, |rows| <= MAX_BATCH_ATTEMPTS, o) && o.err.None?
    ensures DrainOk(OneExam(), rows, true, ["d"], [o], o.n, None) && AllActs([o]) == ActsOf(o)
  {
    hide UnnamedExam, Group, Deployments, StrictlySorted, Resolved, Elements, OutcomeOk, OneExam, ActsOf;
    OneGroup(rows);
    OneDeployment(rows);
    OneExamNamed();
    var outcomes := [o];
    assert outcomes[..|outcomes| - 1] == [] && outcomes[|outcomes| - 1] == o;
    assert Visits(OneExam(), rows, true, ["d"], outcomes);
    assert TotalOf(outcomes[..0]) == 0 && FailedCount(outcomes[..0]) == 0 && AllActs(outcomes[..0]) == [];
    assert TotalOf(outcomes) == o.n && FailedCount(outcomes) == 0 && AllActs(outcomes) == ActsOf(o);
  }

  // ---- And it is what the node does ----

  ghost function ReadEvents(m: nat): seq<Machine.Event>
    requires m < 0xD800
  {
    seq(m, i requires 0 <= i < m => Machine.ReadAnswers(Sat(i)))
  }

  ghost function DrainEvents(n: nat, acks: seq<Id>): seq<Machine.Event>
    requires n < 0xD800
  {
    [Machine.ListUnpushed(Listing(n))] + ReadEvents(Fitting(n)) + [Machine.Event.Push(Elements(acks), {})]
    + [Machine.Mark] + [Machine.EndDrain]
  }

  /** The harvest while its batch is being read. */
  function Harvesting(n: nat, m: nat): Machine.State
    requires m <= n < 0xD800
  {
    Crowd(n).(drain := Machine.Draining(Listing(n), Batch(m), map[]))
  }

  lemma {:induction false} ReadsAll(n: nat, m: nat)
    requires m <= n < 0xD800
    ensures Steps.Leads(Harvesting(n, 0), ReadEvents(m), Harvesting(n, m), Steps.Reads(NothingRead(m)))
  {
    hide *;
    if m == 0 {
      NoneYet();
      Steps.LeadsSelf(Harvesting(n, 0));
    } else {
      ReadsAll(n, m - 1);
      var k := m - 1;
      ReadsOne(n, k);
      Steps.LeadsNext(Harvesting(n, 0), ReadEvents(k), Harvesting(n, k), Steps.Reads(NothingRead(k)), Machine.ReadAnswers(Sat(k)));
      OneMore(k);
      Steps.ReadsOneMore(NothingRead(k), Steps.Reading(Name(k), []));
    }
  }

  lemma NoneYet()
    ensures ReadEvents(0) == [] && NothingRead(0) == [] && Steps.Reads([]) == []
  {
  }

  lemma OneMore(k: nat)
    requires k < 0xD7FF
    ensures ReadEvents(k + 1) == ReadEvents(k) + [Machine.ReadAnswers(Sat(k))]
    ensures NothingRead(k + 1) == NothingRead(k) + [Steps.Reading(Name(k), [])]
    ensures Batch(k + 1) == Batch(k) + [Machine.PayloadOf(Sat(k), [])]
  {
    hide Sat, Machine.PayloadOf;
  }

  lemma ReadsOne(n: nat, k: nat)
    requires k < n < 0xD800
    ensures Machine.Next(Harvesting(n, k), Machine.ReadAnswers(Sat(k))) == Harvesting(n, k + 1)
    ensures Steps.ActIn(Harvesting(n, k), Machine.ReadAnswers(Sat(k))) == [Steps.Read(Steps.Reading(Name(k), []))]
  {
    hide Machine.Next, Sat, Machine.PayloadOf, Batch, SatRows, SeatRows;
    BatchIds(k, Name(k));
    BeganFields(k);
    OneMore(k);
    assert Listing(n)[k] == Sat(k);
    assert Machine.AnswerPayloads([]) == [];
    Steps.ReadStep(Harvesting(n, k), Sat(k));
  }

  lemma ListsAll(n: nat)
    requires n < 0xD800
    ensures Steps.Leads(Crowd(n), [Machine.ListUnpushed(Listing(n))], Harvesting(n, 0), [Steps.Listed(Listing(n))])
  {
    hide Machine.Next, Steps.Leads, Sat, SatRows, SeatRows;
    forall r | r in Listing(n) ensures Machine.Unpushed(Crowd(n).db, r) {
      var i :| 0 <= i < n && Listing(n)[i] == r;
      BeganFields(i);
      SatRow(n, Name(i));
    }
    var t := ListingLeads(Crowd(n), Listing(n));
    assert Batch(0) == [];
  }

  /** The node after the drain: the acknowledged rows are marked, and Central has their payloads. */
  function After(n: nat, acks: seq<Id>): Machine.State
    requires n < 0xD800
  {
    var p := PushOf(n, acks);
    Crowd(n).(db := M.MarkHarvested(Crowd(n).db, AckedGenerations(p), 10), central := Credited(p))
  }

  /** Reading out, pushing, marking and ending are the machine's own steps. */
  lemma DrainLeads(n: nat, acks: seq<Id>)
    requires n < 0xD800
    ensures Steps.Leads(Crowd(n), DrainEvents(n, acks), After(n, acks), [Steps.Listed(Listing(n))] + ActsOf(OutcomeOf(n, acks)))
  {
    hide *;
    var m := Fitting(n);
    var p, es, acts := PushOf(n, acks), [Machine.ListUnpushed(Listing(n))], [Steps.Listed(Listing(n))];
    ListsAll(n);
    ReadsAll(n, m);
    Steps.LeadsOn(Crowd(n), es, Harvesting(n, 0), acts, ReadEvents(m), Harvesting(n, m), Steps.Reads(NothingRead(m)));
    PushMarkEnd(n, acks);
    Steps.LeadsOn(Crowd(n), es + ReadEvents(m), Harvesting(n, m), acts + Steps.Reads(NothingRead(m)),
                  Rest(acks), After(n, acks), [PushAct(p)] + [Steps.Marked(SatRows(n), AckedGenerations(p))]);
    Assembled(n, acks);
  }

  function Rest(acks: seq<Id>): seq<Machine.Event> {
    [Machine.Event.Push(Elements(acks), {})] + [Machine.Mark] + [Machine.EndDrain]
  }

  lemma Assembled(n: nat, acks: seq<Id>)
    requires n < 0xD800
    ensures var m, p, o := Fitting(n), PushOf(n, acks), OutcomeOf(n, acks);
      && DrainEvents(n, acks) == [Machine.ListUnpushed(Listing(n))] + ReadEvents(m) + Rest(acks)
      && [Steps.Listed(Listing(n))] + ActsOf(o) == [Steps.Listed(Listing(n))] + Steps.Reads(NothingRead(m))
         + ([PushAct(p)] + [Steps.Marked(SatRows(n), AckedGenerations(p))])
  {
    hide Listing, ReadEvents, NothingRead, AckedGenerations, PushAct, Acked, SatRows, Steps.Reads, PushOf;
    OutcomeFields(n, acks);
  }

  lemma OutcomeFields(n: nat, acks: seq<Id>)
    requires n < 0xD800
    ensures var o := OutcomeOf(n, acks);
      o.push == PushOf(n, acks) && o.read == NothingRead(Fitting(n)) && o.rows == SatRows(n) && o.err.None?
  {
    hide Acked, SatRows, NothingRead, PushOf;
  }

  lemma RepliedAck(acks: seq<Id>)
    ensures Replied(Ack(acks, map[])) == Machine.Event.Push(Elements(acks), {})
  {
    var none: map<Id, string> := map[];
    assert none.Keys == {};
  }

  /** The push, the marking statement and the end of the drain. */
  lemma PushMarkEnd(n: nat, acks: seq<Id>)
    requires n < 0xD800
    ensures var m, p := Fitting(n), PushOf(n, acks);
      Steps.Leads(Harvesting(n, m), Rest(acks), After(n, acks), [PushAct(p)] + [Steps.Marked(SatRows(n), AckedGenerations(p))])
  {
    hide *;
    var m, p := Fitting(n), PushOf(n, acks);
    var s, e := Harvesting(n, m), Machine.Event.Push(Elements(acks), {});
    RepliedAck(acks);
    HarvestingFields(n, acks);
    PushAsMachine(s, p);
    var t := Machine.Next(s, e);
    Steps.MarkStep(t);
    var u := Machine.Next(t, Machine.Mark);
    Steps.EndStep(u);
    LeadsThrice(s, e, Machine.Mark, Machine.EndDrain);
    MarkActs(t, u);
    assert {} + Credited(p) == Credited(p);
    assert [PushAct(p)] + [Steps.Marked(SatRows(n), AckedGenerations(p))] + []
           == [PushAct(p)] + [Steps.Marked(SatRows(n), AckedGenerations(p))];
  }

  lemma HarvestingFields(n: nat, acks: seq<Id>)
    requires n < 0xD800
    ensures var s, p := Harvesting(n, Fitting(n)), PushOf(n, acks);
      && s.drain == Machine.Draining(Listing(n), p.batch, map[]) && p.reply == Ack(acks, map[])
      && s.db.attempts == SatRows(n) && s.clock == 10 && s.central == {}
      && After(n, acks) == s.(db := M.MarkHarvested(s.db, AckedGenerations(p), 10), drain := Machine.Idle, central := Credited(p))
      && Rest(acks) == [Machine.Event.Push(Elements(acks), {})] + [Machine.Mark] + [Machine.EndDrain]
  {
    hide SatRows, SeatRows, Batch, Listing, M.MarkHarvested, AckedGenerations, Credited, Fitting, Elements;
  }

  lemma MarkActs(t: Machine.State, u: Machine.State)
    requires t.drain.Draining?
    ensures Steps.ActIn(t, Machine.Mark) == [Steps.Marked(t.db.attempts, t.drain.toMark)]
    ensures Steps.ActIn(u, Machine.EndDrain) == []
  {
  }

  lemma LeadsThrice(s: Machine.State, e: Machine.Event, f: Machine.Event, g: Machine.Event)
    ensures var t := Machine.Next(s, e);
      var u := Machine.Next(t, f);
      Steps.Leads(s, [e] + [f] + [g], Machine.Next(u, g), Steps.ActIn(s, e) + Steps.ActIn(t, f) + Steps.ActIn(u, g))
  {
    hide Machine.Next, Steps.Leads, Steps.ActIn;
    var t := Machine.Next(s, e);
    Steps.LeadsSelf(s);
    Steps.LeadsNext(s, [], s, [], e);
    assert [] + [e] == [e] && [] + Steps.ActIn(s, e) == Steps.ActIn(s, e);
    Steps.LeadsNext(s, [e], t, Steps.ActIn(s, e), f);
    Steps.LeadsNext(s, [e] + [f], Machine.Next(t, f), Steps.ActIn(s, e) + Steps.ActIn(t, f), g);
  }

  // ---- What it leaves behind ----

  /**
    However many students have submitted and whatever Central acknowledges, as long as it rejects nothing the final
    drain is clean; the sittings that are left unharvested are those not acknowledged or beyond the first batch.
   */
  lemma CleanDrainLeaves(n: nat, acks: seq<Id>)
    requires 0 < n < 0xD800
    ensures Machine.Init(Empty())
    ensures var s, o := Machine.Run(Empty(), Comings(n)), OutcomeOf(n, acks);
      && o.push.reply == Ack(acks, map[])
      && Drained(s, DrainEvents(n, acks), s.db.exams, Listing(n), true, ["d"], [o], o.n, None)
      && forall i :: 0 <= i < n ==>
           (Machine.Unpushed(Machine.Run(s, DrainEvents(n, acks)).db, Sat(i)) <==> Name(i) !in acks || i >= MAX_BATCH_ATTEMPTS)
  {
    EmptyIsInit();
    hide *;
    CrowdComes(n);
    var s, o := Crowd(n), OutcomeOf(n, acks);
    DrainLeads(n, acks);
    OutcomeOfOk(n, acks);
    OutcomeFields(n, acks);
    ListingFields(n);
    CleanDrainOfOne(Listing(n), o);
    CrowdFields(n, acks);
    LeadsFields(s, DrainEvents(n, acks), After(n, acks), [Steps.Listed(Listing(n))] + ActsOf(o));
    DrainedIs(s, DrainEvents(n, acks), s.db.exams, Listing(n), ["d"], o);
    forall i | 0 <= i < n
      ensures Machine.Unpushed(After(n, acks).db, Sat(i)) <==> Name(i) !in acks || i >= MAX_BATCH_ATTEMPTS
    {
      LeftIff(n, acks, i);
    }
  }

  lemma CrowdFields(n: nat, acks: seq<Id>)
    requires n < 0xD800
    ensures Crowd(n).db.exams == OneExam() && PushOf(n, acks).reply == Ack(acks, map[])
  {
    hide SatRows, SeatRows, Batch;
  }

  lemma ListingFields(n: nat)
    requires n < 0xD800
    ensures |Listing(n)| == n && DistinctIds(Listing(n)) && forall a :: a in Listing(n) ==> a.examId == "e"
  {
    hide Sat;
    forall a | a in Listing(n) ensures a.examId == "e" {
      var i :| 0 <= i < n && Listing(n)[i] == a;
      BeganFields(i);
    }
  }

  lemma LeadsFields(s: Machine.State, es: seq<Machine.Event>, t: Machine.State, acts: seq<Steps.Act>)
    requires Steps.Leads(s, es, t, acts)
    ensures Machine.Run(s, es) == t && Steps.Acts(s, es) == acts
  {
  }

  lemma DrainedIs(s: Machine.State, es: seq<Machine.Event>, exams: Exams, listed: seq<Attempt>, keys: seq<Id>, o: Outcome)
    requires DistinctIds(listed) && DrainOk(exams, listed, true, keys, [o], o.n, None)
    requires Steps.Acts(s, es) == [Steps.Listed(listed)] + ActsOf(o) && AllActs([o]) == ActsOf(o)
    ensures Drained(s, es, exams, listed, true, keys, [o], o.n, None)
  {
    hide DistinctIds, DrainOk, Steps.Acts, ActsOf, AllActs;
  }

  lemma LeftIff(n: nat, acks: seq<Id>, i: nat)
    requires i < n < 0xD800
    ensures Machine.Unpushed(After(n, acks).db, Sat(i)) <==> Name(i) !in acks || i >= MAX_BATCH_ATTEMPTS
  {
    hide Sat, SatRows, SeatRows, PushOf, Acked, AckedGenerations, Credited, Fitting;
    BeganFields(i);
    SatRow(n, Name(i));
    AckedOf(n, acks, Name(i));
  }

  /** Central acknowledges nothing and rejects nothing: the final drain is clean, and the only sitting stays unharvested. */
  lemma SilentCentralLeavesWork()
    ensures var s, o := Machine.Run(Empty(), Comings(1)), OutcomeOf(1, []);
      && Machine.Init(Empty()) && o.push.reply == Ack([], map[])
      && Drained(s, DrainEvents(1, []), s.db.exams, Listing(1), true, ["d"], [o], o.n, None)
      && Machine.Unpushed(Machine.Run(s, DrainEvents(1, [])).db, Sat(0))
  {
    hide *;
    CleanDrainLeaves(1, []);
  }

  /** Everyone's names. */
  function Names(n: nat): seq<Id>
    requires n < 0xD800
  {
    seq(n, i requires 0 <= i < n => Name(i))
  }

  /** One sitting more than a batch holds, everything acknowledged: the final drain is clean, and the last was never sent. */
  lemma OverfullGroupLeavesWork()
    ensures var (n, acks) := (MAX_BATCH_ATTEMPTS + 1, Names(MAX_BATCH_ATTEMPTS + 1));
      var s, o := Machine.Run(Empty(), Comings(n)), OutcomeOf(n, acks);
      && Machine.Init(Empty()) && AcksAll(o.push)
      && Drained(s, DrainEvents(n, acks), s.db.exams, Listing(n), true, ["d"], [o], o.n, None)
      && Machine.Unpushed(Machine.Run(s, DrainEvents(n, acks)).db, Sat(MAX_BATCH_ATTEMPTS))
  {
    var n := MAX_BATCH_ATTEMPTS + 1;
    assert n == 501;
    hide *;
    CleanDrainLeaves(n, Names(n));
    NamesAck(n);
  }

  lemma NamesAck(n: nat)
    requires MAX_BATCH_ATTEMPTS <= n < 0xD800
    ensures AcksAll(OutcomeOf(n, Names(n)).push)
  {
    hide Batch, Acked, SatRows, NothingRead;
    var p := PushOf(n, Names(n));
    forall id | id in Machine.PayloadIds(p.batch) ensures id in Names(n) {
      BatchIds(MAX_BATCH_ATTEMPTS, id);
      assert Names(n)[id[0] as int] == id;
    }
  }
}
