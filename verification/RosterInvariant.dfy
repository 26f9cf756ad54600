/**
  What every roster event keeps: one receipt per revision up to the exam's own, admitted students
  present as their events named them, unique keys, an untouched baseline, and a content hash that
  matches the stored rows.
 */
module RosterInvariant {
  import opened Common
  import opened Entities
  import opened ContentHash
  import opened RosterModel

  /** The tables' own keys. */
  ghost predicate TablesOk(db: Database) {
    && (forall e :: e in db.exams ==> db.exams[e].id == e)
    && KeyedItems(db.items) && KeyedParticipants(db.participants)
    && (forall k :: k in db.receipts ==> db.receipts[k].eventId == k)
    && StudentsUnique(db.participants) && CodesUnique(db.participants) && SlotsUnique(db.receipts)
  }

  ghost predicate StudentsUnique(ps: Participants) {
    forall e, st, k, l :: IsStudent(ps, e, st, k) && IsStudent(ps, e, st, l) ==> k == l
  }

  ghost predicate HasCode(ps: Participants, code: string, k: Id) {
    k in ps && ps[k].accessCode == code
  }

  ghost predicate CodesUnique(ps: Participants) {
    forall code, k, l :: HasCode(ps, code, k) && HasCode(ps, code, l) ==> k == l
  }

  ghost predicate SlotsUnique(receipts: Receipts) {
    forall d, n, k, l :: AtSlot(receipts, d, n, k) && AtSlot(receipts, d, n, l) ==> k == l
  }

  /** No other exam has this exam's deployment. */
  ghost predicate Owned(exams: map<Id, Exam>, e: Id) {
    e in exams && forall f :: f in exams && exams[f].deploymentId == exams[e].deploymentId ==> f == e
  }

  /** The deployment's receipts are exactly those of revisions 1 to `r`, all settled and for this exam. */
  ghost predicate ReceiptsExact(receipts: Receipts, e: Id, deploymentId: Id, r: int) {
    && (forall n :: SlotTaken(receipts, deploymentId, n) <==> 1 <= n <= r)
    && (forall k :: k in receipts && receipts[k].deploymentId == deploymentId ==>
          receipts[k].examId == e && !receipts[k].status.EventPending? && !receipts[k].status.EventUnknown?)
  }

  /** The student an applied receipt admitted, as its event named it. */
  predicate Present(ps: Participants, id: EventIdentity) {
    && id.participantId in ps
    && var p := ps[id.participantId];
    && p.examId == id.examId && p.studentId == id.studentId && p.studentName == id.studentName && p.accessCode == id.accessCode
  }

  ghost predicate AppliedPresent(receipts: Receipts, ps: Participants) {
    forall k :: k in receipts && receipts[k].status.EventApplied? ==> Present(ps, receipts[k].payloadHash)
  }

  ghost predicate RosterOk(db: Database, e: Id) {
    && e in db.exams && db.exams[e].rosterRevision >= 0
    && ReceiptsExact(db.receipts, e, db.exams[e].deploymentId, db.exams[e].rosterRevision)
    && db.exams[e].contentHash == Some(StoredView(db.exams[e], db.items, db.participants))
  }

  // ---- Statements ----

  /** Inserting a receipt takes its slot, when its event has none yet. */
  lemma PutReceiptEffect(receipts: Receipts, r: Receipt)
    requires r.eventId !in receipts
    ensures forall d, n :: SlotTaken(PutReceipt(receipts, r), d, n) <==>
      SlotTaken(receipts, d, n) || (d == r.deploymentId && n == r.revision)
    ensures SlotsUnique(receipts) ==> SlotsUnique(PutReceipt(receipts, r))
    ensures forall k :: k in PutReceipt(receipts, r) ==>
      (k in receipts && PutReceipt(receipts, r)[k] == receipts[k]) || (k == r.eventId && PutReceipt(receipts, r)[k] == r)
    ensures forall k :: k in receipts ==> k in PutReceipt(receipts, r) && PutReceipt(receipts, r)[k] == receipts[k]
  {
    var after := PutReceipt(receipts, r);
    forall d, n ensures SlotTaken(after, d, n) <==> SlotTaken(receipts, d, n) || (d == r.deploymentId && n == r.revision) {
      if k :| AtSlot(receipts, d, n, k) {
        assert AtSlot(after, d, n, k);
      }
      if d == r.deploymentId && n == r.revision && !SlotTaken(receipts, d, n) {
        assert AtSlot(after, d, n, r.eventId);
      }
      if k :| AtSlot(after, d, n, k) {
        assert AtSlot(receipts, d, n, k) || k == r.eventId;
      }
    }
    if SlotsUnique(receipts) {
      forall d, n, k, l | AtSlot(after, d, n, k) && AtSlot(after, d, n, l) ensures k == l {
        assert AtSlot(receipts, d, n, k) || k == r.eventId;
        assert AtSlot(receipts, d, n, l) || l == r.eventId;
      }
    }
  }

  /** A receipt in the next slot extends the exact run by one; one elsewhere leaves it alone. */
  lemma ExactExtends(receipts: Receipts, r: Receipt, e: Id, d: Id, n: int)
    requires ReceiptsExact(receipts, e, d, n) && r.eventId !in receipts && n >= 0
    requires !r.status.EventPending? && !r.status.EventUnknown?
    ensures r.deploymentId == d && r.revision == n + 1 && r.examId == e ==> ReceiptsExact(PutReceipt(receipts, r), e, d, n + 1)
    ensures r.deploymentId != d || 1 <= r.revision <= n ==> ReceiptsExact(PutReceipt(receipts, r), e, d, n)
    ensures r.deploymentId == d && r.revision > n ==> !ReceiptsExact(PutReceipt(receipts, r), e, d, n)
  {
    PutReceiptEffect(receipts, r);
    hide PutReceipt;
    if r.deploymentId == d && r.revision > n {
      assert SlotTaken(PutReceipt(receipts, r), d, r.revision);
    }
  }

  lemma InsertKeepsKeys(ps: Participants, p: Participant)
    requires KeyedParticipants(ps) && StudentsUnique(ps) && CodesUnique(ps)
    requires InsertIfAbsent(ps, p).Inserted?
    ensures KeyedParticipants(ps[p.id := p]) && StudentsUnique(ps[p.id := p]) && CodesUnique(ps[p.id := p])
  {
    var after := ps[p.id := p];
    forall e, st, k, l | IsStudent(after, e, st, k) && IsStudent(after, e, st, l) ensures k == l {
      assert k != p.id ==> IsStudent(ps, e, st, k);
      assert l != p.id ==> IsStudent(ps, e, st, l);
    }
    forall code, k, l | HasCode(after, code, k) && HasCode(after, code, l) ensures k == l {
      assert k != p.id ==> HasCode(ps, code, k);
      assert l != p.id ==> HasCode(ps, code, l);
    }
  }

  lemma InsertKeepsPresent(receipts: Receipts, ps: Participants, p: Participant)
    requires AppliedPresent(receipts, ps) && p.id !in ps
    ensures AppliedPresent(receipts, ps[p.id := p])
  {
  }

  /** Rows of other exams do not enter an exam's hash. */
  lemma OtherExamsView(exam: Exam, items: map<Id, Item>, ps: Participants, p: Participant)
    requires p.id !in ps && p.examId != exam.id
    ensures StoredView(exam, items, ps[p.id := p]) == StoredView(exam, items, ps)
  {
    hide View, Listing;
    var before, after := ParticipantRows(ps, exam.id), ParticipantRows(ps[p.id := p], exam.id);
    forall q | q in before ensures q in after {
      var k :| k in ps && ps[k].examId == exam.id && ps[k] == q;
      assert ps[p.id := p][k] == q;
    }
    assert before == after;
  }

  // ---- The transaction ----

  /** What each decision rests on. */
  lemma DecisionFacts(db: Database, ev: RosterEvent, now: Time)
    requires KeyedParticipants(db.participants)
    ensures var d := Decide(db, ev, now);
      && (d.RejectOnly? || d.RejectAndAdvance? || d.Admit? ==> ValidEvent(ev) && ev.examId in db.exams && ev.eventId !in db.receipts)
      && (d.RejectOnly? ==> ev.deploymentId != db.exams[ev.examId].deploymentId)
      && (d.RejectAndAdvance? || d.Admit? ==>
            ev.deploymentId == db.exams[ev.examId].deploymentId && ev.revision == db.exams[ev.examId].rosterRevision + 1)
      && (d.Admit? ==> Present(d.participants, Identity(ev)))
      && (d.Admit? && d.participants != db.participants ==>
            d.participants == db.participants[ev.participantId := NewParticipant(ev)]
            && InsertIfAbsent(db.participants, NewParticipant(ev)).Inserted?)
  {
    hide FindStudent;
  }

  /** Only the exam's own well-addressed next event is let past the revision check. */
  lemma MisaddressedIff(db: Database, ev: RosterEvent, now: Time)
    ensures Decide(db, ev, now).RejectOnly? <==>
      && ValidEvent(ev) && ev.examId in db.exams && ev.eventId !in db.receipts
      && ev.deploymentId != db.exams[ev.examId].deploymentId
  {
    hide InsertIfAbsent, Identity;
  }

  lemma InsertedIsNew(ps: Participants, p: Participant)
    requires InsertIfAbsent(ps, p).Inserted?
    ensures p.id !in ps
  {
    hide FindStudent;
  }

  lemma ViewIgnoresRevision(exam: Exam, r: int, h: Option<HashView>, items: map<Id, Item>, ps: Participants)
    ensures StoredView(exam.(rosterRevision := r, contentHash := h), items, ps) == StoredView(exam, items, ps)
  {
    hide Listing;
  }

  /** A receipt stored for an event that has none keeps the keys. */
  lemma ReceiptKeepsTables(db: Database, r: Receipt)
    requires TablesOk(db) && r.eventId !in db.receipts
    ensures TablesOk(WithReceipt(db, r))
    ensures AppliedPresent(db.receipts, db.participants) && (r.status.EventApplied? ==> Present(db.participants, r.payloadHash)) ==>
      AppliedPresent(WithReceipt(db, r).receipts, WithReceipt(db, r).participants)
  {
    hide StudentsUnique, CodesUnique, SlotsUnique, PutReceipt, Present, KeyedItems, KeyedParticipants;
    PutReceiptEffect(db.receipts, r);
  }

  /** Advancing an exam, or admitting a student, keeps the keys. */
  lemma AdmitKeepsTables(db: Database, ev: RosterEvent, ps: Participants)
    requires TablesOk(db) && ev.examId in db.exams && AppliedPresent(db.receipts, db.participants)
    requires ps == db.participants || (ps == db.participants[ev.participantId := NewParticipant(ev)]
                                       && InsertIfAbsent(db.participants, NewParticipant(ev)).Inserted?)
    ensures TablesOk(Admitted(db, ev, ps)) && AppliedPresent(db.receipts, ps)
  {
    hide StoredView, InsertIfAbsent, StudentsUnique, CodesUnique, SlotsUnique, KeyedParticipants, Present;
    if ps != db.participants {
      InsertedIsNew(db.participants, NewParticipant(ev));
      InsertKeepsKeys(db.participants, NewParticipant(ev));
      InsertKeepsPresent(db.receipts, db.participants, NewParticipant(ev));
    }
  }

  lemma AdvanceKeepsTables(db: Database, ev: RosterEvent)
    requires TablesOk(db) && ev.examId in db.exams
    ensures TablesOk(Advance(db, ev))
  {
    hide StudentsUnique, CodesUnique, SlotsUnique, KeyedParticipants;
  }

  /** The keys and the admitted students of the whole node survive every event. */
  lemma TablesKept(db: Database, ev: RosterEvent, now: Time)
    requires TablesOk(db) && AppliedPresent(db.receipts, db.participants)
    ensures TablesOk(Apply(db, ev, now).0)
    ensures AppliedPresent(Apply(db, ev, now).0.receipts, Apply(db, ev, now).0.participants)
  {
    hide Decide, TablesOk, AppliedPresent, InsertIfAbsent, Present, Admitted, Advance, WithReceipt, OutcomeOf, ValidEvent;
    TablesKeyed(db);
    DecisionFacts(db, ev, now);
    match Decide(db, ev, now)
    case Refuse(_) =>
    case Replay(_) =>
    case RejectOnly(code) => ReceiptKeepsTables(db, RejectedReceipt(ev, code));
    case RejectAndAdvance(code) =>
      AdvanceKeepsTables(db, ev);
      AdvanceKeepsRows(db, ev);
      ReceiptKeepsTables(Advance(db, ev), RejectedReceipt(ev, code));
    case Admit(ps) =>
      AdmitKeepsTables(db, ev, ps);
      AdmitKeepsReceipts(db, ev, ps);
      ReceiptKeepsTables(Admitted(db, ev, ps), ReceiptOf(ev, EventApplied, ""));
  }

  lemma AdvanceKeepsRows(db: Database, ev: RosterEvent)
    requires ev.examId in db.exams
    ensures Advance(db, ev).receipts == db.receipts && Advance(db, ev).participants == db.participants
  {
  }

  lemma AdmitKeepsReceipts(db: Database, ev: RosterEvent, ps: Participants)
    requires ev.examId in db.exams
    ensures Admitted(db, ev, ps).receipts == db.receipts && Admitted(db, ev, ps).participants == ps
  {
    hide StoredView;
  }

  /** An event addressed to another exam under this exam's deployment, ahead of this exam's revision. */
  predicate Misaddressed(db: Database, ev: RosterEvent, e: Id)
    requires e in db.exams
  {
    && ValidEvent(ev) && ev.examId in db.exams && ev.examId != e && ev.eventId !in db.receipts
    && ev.deploymentId == db.exams[e].deploymentId && ev.revision > db.exams[e].rosterRevision
  }

  /** A receipt alone keeps an exam's roster, unless it takes one of its revisions still to come. */
  lemma ReceiptKeepsRosterIff(db: Database, r: Receipt, e: Id)
    requires RosterOk(db, e) && r.eventId !in db.receipts && r.revision >= 1
    requires !r.status.EventPending? && !r.status.EventUnknown?
    ensures RosterOk(WithReceipt(db, r), e) <==>
      !(r.deploymentId == db.exams[e].deploymentId && r.revision > db.exams[e].rosterRevision)
  {
    hide StoredView, ReceiptsExact, PutReceipt;
    ExactExtends(db.receipts, r, e, db.exams[e].deploymentId, db.exams[e].rosterRevision);
  }

  /** The exam's own next event: revision and receipt advance together, and the stored hash is the rows'. */
  lemma NextKeepsRoster(db: Database, exam': Exam, ps: Participants, r: Receipt, e: Id)
    requires RosterOk(db, e) && r.eventId !in db.receipts && r.examId == e && r.deploymentId == db.exams[e].deploymentId
    requires !r.status.EventPending? && !r.status.EventUnknown? && r.revision == db.exams[e].rosterRevision + 1
    requires exam' == db.exams[e].(rosterRevision := r.revision, contentHash := Some(StoredView(db.exams[e], db.items, ps)))
    ensures RosterOk(WithReceipt(db.(participants := ps, exams := db.exams[e := exam']), r), e)
  {
    hide StoredView, ReceiptsExact, PutReceipt;
    ExactExtends(db.receipts, r, e, db.exams[e].deploymentId, db.exams[e].rosterRevision);
    ViewIgnoresRevision(db.exams[e], r.revision, Some(StoredView(db.exams[e], db.items, ps)), db.items, ps);
  }

  /** Another exam's event leaves this exam's rows and hash. */
  lemma OtherKeepsRoster(db: Database, f: Id, exam': Exam, ps: Participants, r: Receipt, e: Id)
    requires RosterOk(db, e) && r.eventId !in db.receipts && f != e && r.deploymentId != db.exams[e].deploymentId
    requires !r.status.EventPending? && !r.status.EventUnknown?
    requires StoredView(db.exams[e], db.items, ps) == StoredView(db.exams[e], db.items, db.participants)
    ensures RosterOk(WithReceipt(db.(participants := ps, exams := db.exams[f := exam']), r), e)
  {
    hide StoredView, ReceiptsExact, PutReceipt;
    ExactExtends(db.receipts, r, e, db.exams[e].deploymentId, db.exams[e].rosterRevision);
  }

  lemma OtherView(db: Database, ev: RosterEvent, ps: Participants, e: Id)
    requires TablesOk(db) && e in db.exams && ev.examId != e
    requires ps == db.participants || (ps == db.participants[ev.participantId := NewParticipant(ev)]
                                       && InsertIfAbsent(db.participants, NewParticipant(ev)).Inserted?)
    ensures StoredView(db.exams[e], db.items, ps) == StoredView(db.exams[e], db.items, db.participants)
  {
    hide InsertIfAbsent, StoredView, StudentsUnique, CodesUnique, SlotsUnique;
    if ps != db.participants {
      InsertedIsNew(db.participants, NewParticipant(ev));
      OtherExamsView(db.exams[e], db.items, db.participants, NewParticipant(ev));
    }
  }

  lemma AdvanceKeepsRosters(db: Database, ev: RosterEvent, code: string, e: Id)
    requires RosterOk(db, e) && ev.eventId !in db.receipts && ev.examId in db.exams
    requires ev.deploymentId == db.exams[ev.examId].deploymentId
    requires ev.revision == db.exams[ev.examId].rosterRevision + 1
    requires ev.examId != e ==> ev.deploymentId != db.exams[e].deploymentId
    ensures RosterOk(WithReceipt(Advance(db, ev), RejectedReceipt(ev, code)), e)
  {
    hide StoredView, ReceiptsExact, PutReceipt;
    var exam := db.exams[ev.examId];
    var r, exam' := RejectedReceipt(ev, code), exam.(rosterRevision := ev.revision);
    assert Advance(db, ev) == db.(participants := db.participants, exams := db.exams[ev.examId := exam']);
    if ev.examId == e {
      NextKeepsRoster(db, exam', db.participants, r, e);
    } else {
      OtherKeepsRoster(db, ev.examId, exam', db.participants, r, e);
    }
  }

  lemma AdmitKeepsRosters(db: Database, ev: RosterEvent, ps: Participants, e: Id)
    requires RosterOk(db, e) && ev.eventId !in db.receipts && ev.examId in db.exams
    requires ev.deploymentId == db.exams[ev.examId].deploymentId
    requires ev.revision == db.exams[ev.examId].rosterRevision + 1
    requires ev.examId != e ==> ev.deploymentId != db.exams[e].deploymentId
    requires ev.examId != e ==> StoredView(db.exams[e], db.items, ps) == StoredView(db.exams[e], db.items, db.participants)
    ensures RosterOk(WithReceipt(Admitted(db, ev, ps), ReceiptOf(ev, EventApplied, "")), e)
  {
    hide StoredView, ReceiptsExact, PutReceipt;
    var exam := db.exams[ev.examId];
    var r := ReceiptOf(ev, EventApplied, "");
    var exam' := exam.(rosterRevision := ev.revision, contentHash := Some(StoredView(exam, db.items, ps)));
    if ev.examId == e {
      NextKeepsRoster(db, exam', ps, r, e);
    } else {
      OtherKeepsRoster(db, ev.examId, exam', ps, r, e);
    }
  }

  /**
    Every event keeps an exam's roster in order, except exactly a misaddressed one that claims a revision
    still to come.
   */
  lemma RosterKeptIff(db: Database, ev: RosterEvent, now: Time, e: Id)
    requires TablesOk(db) && RosterOk(db, e) && Owned(db.exams, e)
    ensures RosterOk(Apply(db, ev, now).0, e) <==> !Misaddressed(db, ev, e)
  {
    hide Decide, RosterOk, StoredView, InsertIfAbsent, Owned, TablesOk, WithReceipt, Admitted, Advance, OutcomeOf;
    TablesKeyed(db);
    RosterOwnsExam(db, e);
    DecisionFacts(db, ev, now);
    MisaddressedIff(db, ev, now);
    OwnedFacts(db.exams, e, ev.examId);
    match Decide(db, ev, now)
    case Refuse(_) =>
    case Replay(_) =>
    case RejectOnly(code) => ReceiptKeepsRosterIff(db, RejectedReceipt(ev, code), e);
    case RejectAndAdvance(code) => AdvanceKeepsRosters(db, ev, code, e);
    case Admit(ps) =>
      if ev.examId != e {
        OtherView(db, ev, ps, e);
      }
      AdmitKeepsRosters(db, ev, ps, e);
  }

  lemma RosterOwnsExam(db: Database, e: Id)
    requires RosterOk(db, e)
    ensures e in db.exams && db.exams[e].rosterRevision >= 0
  {
  }

  lemma TablesKeyed(db: Database)
    requires TablesOk(db)
    ensures KeyedParticipants(db.participants) && KeyedItems(db.items)
  {
  }

  lemma OwnedFacts(exams: map<Id, Exam>, e: Id, f: Id)
    requires Owned(exams, e)
    ensures f in exams && exams[f].deploymentId == exams[e].deploymentId ==> f == e
  {
  }

  // ---- What an event may change ----

  /** The columns of an exam an event may write. */
  predicate OnlyRosterState(a: Exam, b: Exam) {
    b == a.(rosterRevision := b.rosterRevision, contentHash := b.contentHash)
  }

  /** The tables an event may write: its exam's roster state, one new participant, one receipt. */
  ghost predicate Shape(db: Database, ev: RosterEvent, after: Database) {
    && after == db.(exams := after.exams, participants := after.participants, receipts := after.receipts)
    && after.exams.Keys == db.exams.Keys && (forall e :: e in db.exams ==> OnlyRosterState(db.exams[e], after.exams[e]))
    && (forall e :: e in db.exams && e != ev.examId ==> after.exams[e] == db.exams[e])
    && (after.receipts == db.receipts
        || (ev.eventId !in db.receipts && ev.eventId in after.receipts
            && after.receipts == db.receipts[ev.eventId := after.receipts[ev.eventId]]))
    && (after.participants == db.participants
        || (ev.examId in db.exams && ev.revision == db.exams[ev.examId].rosterRevision + 1 && ev.participantId !in db.participants
            && after.participants == db.participants[ev.participantId := NewParticipant(ev)]))
  }

  lemma ReceiptShape(db: Database, ev: RosterEvent, mid: Database, r: Receipt)
    requires Shape(db, ev, mid) && mid.receipts == db.receipts && r.eventId == ev.eventId && ev.eventId !in db.receipts
    ensures Shape(db, ev, WithReceipt(mid, r))
  {
    hide SlotTaken;
  }

  lemma AdvanceShape(db: Database, ev: RosterEvent)
    requires ev.examId in db.exams
    ensures Shape(db, ev, db) && Shape(db, ev, Advance(db, ev)) && Advance(db, ev).receipts == db.receipts
  {
    SameShape(db, ev);
    assert Shape(db, ev, Advance(db, ev)) by {
      hide NewParticipant;
      var exams := Advance(db, ev).exams;
      assert exams.Keys == db.exams.Keys;
    }
  }

  lemma AdmitShape(db: Database, ev: RosterEvent, ps: Participants)
    requires ev.examId in db.exams && ev.revision == db.exams[ev.examId].rosterRevision + 1
    requires ps == db.participants || (ev.participantId !in db.participants
                                       && ps == db.participants[ev.participantId := NewParticipant(ev)])
    ensures Shape(db, ev, Admitted(db, ev, ps))
  {
    hide StoredView;
  }

  lemma ApplyShape(db: Database, ev: RosterEvent, now: Time)
    requires KeyedParticipants(db.participants)
    ensures Shape(db, ev, Apply(db, ev, now).0)
  {
    hide Decide, Shape, InsertIfAbsent, WithReceipt, Admitted, Advance;
    DecisionFacts(db, ev, now);
    match Decide(db, ev, now)
    case Refuse(_) => SameShape(db, ev);
    case Replay(_) => SameShape(db, ev);
    case RejectOnly(code) =>
      AdvanceShape(db, ev);
      ReceiptShape(db, ev, db, RejectedReceipt(ev, code));
    case RejectAndAdvance(code) =>
      AdvanceShape(db, ev);
      ReceiptShape(db, ev, Advance(db, ev), RejectedReceipt(ev, code));
    case Admit(ps) =>
      if ps != db.participants {
        InsertedIsNew(db.participants, NewParticipant(ev));
      }
      AdmitShape(db, ev, ps);
      AdmitKeepsReceipts(db, ev, ps);
      ReceiptShape(db, ev, Admitted(db, ev, ps), ReceiptOf(ev, EventApplied, ""));
  }

  lemma SameShape(db: Database, ev: RosterEvent)
    ensures Shape(db, ev, db)
  {
  }

  /** Roster rows are never changed or removed; the one row an event may add carries its revision. */
  lemma RosterOnlyGrows(db: Database, ev: RosterEvent, now: Time, k: Id)
    requires KeyedParticipants(db.participants)
    ensures var after := Apply(db, ev, now).0.participants;
      && (k in db.participants ==> k in after && after[k] == db.participants[k])
      && (k in after && k !in db.participants ==>
            ev.examId in db.exams && after[k] == NewParticipant(ev) && ev.revision == db.exams[ev.examId].rosterRevision + 1)
  {
    hide Apply;
    ApplyShape(db, ev, now);
  }

  /** The participants a bundle brought, as opposed to those roster events added. */
  ghost function Baseline(ps: Participants, e: Id): set<Id> {
    set k | k in ps && ps[k].examId == e && ps[k].rosterRevision == 0
  }

  /** No event changes the baseline roster of any exam that has a revision counter in order. */
  lemma BaselineKept(db: Database, ev: RosterEvent, now: Time, e: Id)
    requires TablesOk(db) && forall f :: f in db.exams ==> db.exams[f].rosterRevision >= 0
    ensures Baseline(Apply(db, ev, now).0.participants, e) == Baseline(db.participants, e)
  {
    hide TablesOk, Apply;
    TablesKeyed(db);
    forall k ensures k in Baseline(Apply(db, ev, now).0.participants, e) <==> k in Baseline(db.participants, e) {
      RosterOnlyGrows(db, ev, now, k);
    }
  }

  // ---- Replay ----

  /**
    A receipt answers its event again with the same outcome, whatever status the event then carries, and
    changes nothing.
   */
  lemma ReceiptReplays(db: Database, ev: RosterEvent, now: Time)
    requires ValidEvent(ev) && ev.examId in db.exams && ev.eventId in db.receipts
    requires db.receipts[ev.eventId].payloadHash == Identity(ev)
    ensures Apply(db, ev, now) == (db, Ok(OutcomeOf(db.receipts[ev.eventId])))
  {
  }

  /** The exam's own next event always takes effect, and leaves the receipt that answers its repetitions. */
  lemma NextTakesEffect(db: Database, ev: RosterEvent, now: Time)
    requires TablesOk(db) && ValidEvent(ev) && ev.examId in db.exams && ev.eventId !in db.receipts
    requires RosterOk(db, ev.examId) && ev.deploymentId == db.exams[ev.examId].deploymentId
    requires ev.revision == db.exams[ev.examId].rosterRevision + 1
    ensures var (after, r) := Apply(db, ev, now);
      && r.Ok? && ev.eventId in after.receipts && after.receipts[ev.eventId].payloadHash == Identity(ev)
      && r.value == OutcomeOf(after.receipts[ev.eventId])
      && ev.examId in after.exams && after.exams[ev.examId].rosterRevision == ev.revision
      && after.exams[ev.examId].deploymentId == ev.deploymentId
      && (r.value.status.EventApplied? <==> after.receipts[ev.eventId].status.EventApplied?)
      && after.receipts == db.receipts[ev.eventId := after.receipts[ev.eventId]]
      && (r.value.status.EventApplied? ==> Present(after.participants, Identity(ev)))
  {
    hide TablesOk, RosterOk, Decide, Identity, Present, WithReceipt, Advance, Admitted, ValidEvent, ReceiptOf, OutcomeOf;
    TablesKeyed(db);
    DecisionFacts(db, ev, now);
    NextIsDecided(db, ev, now);
    RosterSlotFree(db, ev.examId);
    match Decide(db, ev, now)
    case RejectAndAdvance(code) => RejectedNext(db, ev, code);
    case Admit(ps) => AdmittedNext(db, ev, ps);
  }

  lemma RosterSlotFree(db: Database, e: Id)
    requires RosterOk(db, e)
    ensures !SlotTaken(db.receipts, db.exams[e].deploymentId, db.exams[e].rosterRevision + 1)
  {
    hide StoredView;
    SlotFree(db.receipts, e, db.exams[e].deploymentId, db.exams[e].rosterRevision);
  }

  lemma RejectedNext(db: Database, ev: RosterEvent, code: string)
    requires ev.examId in db.exams && ev.eventId !in db.receipts
    requires !SlotTaken(db.receipts, ev.deploymentId, ev.revision)
    requires ev.deploymentId == db.exams[ev.examId].deploymentId
    ensures var (after, r) := (WithReceipt(Advance(db, ev), RejectedReceipt(ev, code)), RejectedReceipt(ev, code));
      && after.receipts == db.receipts[ev.eventId := r]
      && ev.eventId in after.receipts && after.receipts[ev.eventId] == r && r.payloadHash == Identity(ev)
      && ev.examId in after.exams && after.exams[ev.examId].rosterRevision == ev.revision
      && after.exams[ev.examId].deploymentId == ev.deploymentId && !r.status.EventApplied? && !OutcomeOf(r).status.EventApplied?
  {
    hide SlotTaken, Identity;
  }

  lemma AdmittedNext(db: Database, ev: RosterEvent, ps: Participants)
    requires ev.examId in db.exams && ev.eventId !in db.receipts
    requires !SlotTaken(db.receipts, ev.deploymentId, ev.revision)
    requires ev.deploymentId == db.exams[ev.examId].deploymentId
    ensures var (after, r) := (WithReceipt(Admitted(db, ev, ps), ReceiptOf(ev, EventApplied, "")), ReceiptOf(ev, EventApplied, ""));
      && after.receipts == db.receipts[ev.eventId := r]
      && ev.eventId in after.receipts && after.receipts[ev.eventId] == r && r.payloadHash == Identity(ev)
      && ev.examId in after.exams && after.exams[ev.examId].rosterRevision == ev.revision && after.participants == ps
      && after.exams[ev.examId].deploymentId == ev.deploymentId && r.status.EventApplied? && OutcomeOf(r).status.EventApplied?
  {
    hide SlotTaken, StoredView, Identity;
  }

  lemma SlotFree(receipts: Receipts, e: Id, d: Id, r: int)
    requires ReceiptsExact(receipts, e, d, r)
    ensures !SlotTaken(receipts, d, r + 1)
  {
  }

  lemma NextIsDecided(db: Database, ev: RosterEvent, now: Time)
    requires ValidEvent(ev) && ev.examId in db.exams && ev.eventId !in db.receipts
    requires ev.deploymentId == db.exams[ev.examId].deploymentId
    requires ev.revision == db.exams[ev.examId].rosterRevision + 1
    ensures Decide(db, ev, now).RejectAndAdvance? || Decide(db, ev, now).Admit?
  {
    hide InsertIfAbsent;
  }

  // ---- Preflight ----

  ghost function ReceiptsUpTo(receipts: Receipts, d: Id, n: int): set<Id> {
    set k | k in receipts && receipts[k].deploymentId == d && 0 < receipts[k].revision <= n
            && (receipts[k].status.EventApplied? || receipts[k].status.EventRejected? || receipts[k].status.EventExpired?
                || receipts[k].status.EventCancelled?)
  }

  /** The checks of a preflight: expected counts, a receipt for every revision, and the recomputed hash. */
  ghost predicate PreflightRoster(db: Database, e: Id, items: nat, baseline: nat, total: nat, revision: int) {
    && e in db.exams && db.exams[e].bundleChecksum != ""
    && |ItemRows(db.items, e)| == items && |ParticipantRows(db.participants, e)| == total
    && |Baseline(db.participants, e)| == baseline
    && (revision >= 0 ==> db.exams[e].rosterRevision == revision)
    && (revision >= 0 ==> |ReceiptsUpTo(db.receipts, db.exams[e].deploymentId, revision)| == revision)
    && db.exams[e].contentHash == Some(StoredView(db.exams[e], db.items, db.participants))
  }

  /** The exact receipts of a deployment are as many as its revision. */
  lemma {:induction false} ExactCount(receipts: Receipts, e: Id, d: Id, r: int, n: nat)
    requires ReceiptsExact(receipts, e, d, r) && SlotsUnique(receipts) && n <= r
    ensures |ReceiptsUpTo(receipts, d, n)| == n
  {
    if n == 0 {
      assert ReceiptsUpTo(receipts, d, 0) == {};
    } else {
      ExactCount(receipts, e, d, r, n - 1);
      assert SlotTaken(receipts, d, n);
      var k :| k in receipts && AtSlot(receipts, d, n, k);
      forall l | l in ReceiptsUpTo(receipts, d, n) && l !in ReceiptsUpTo(receipts, d, n - 1) ensures l == k {
        assert AtSlot(receipts, d, n, l);
      }
      assert ReceiptsUpTo(receipts, d, n) == ReceiptsUpTo(receipts, d, n - 1) + {k};
    }
  }

  /** While the roster is in order a preflight fails only on a wrong expectation or a missing bundle. */
  lemma PreflightIffExpected(db: Database, e: Id, items: nat, baseline: nat, total: nat, revision: int)
    requires TablesOk(db) && RosterOk(db, e)
    ensures PreflightRoster(db, e, items, baseline, total, revision) <==>
      && db.exams[e].bundleChecksum != ""
      && |ItemRows(db.items, e)| == items && |ParticipantRows(db.participants, e)| == total
      && |Baseline(db.participants, e)| == baseline
      && (revision < 0 || db.exams[e].rosterRevision == revision)
  {
    hide StoredView;
    if revision == db.exams[e].rosterRevision {
      ExactCount(db.receipts, e, db.exams[e].deploymentId, revision, revision);
    }
  }

  /** What the bundle's preflight expected of items and baseline is still met after any well-addressed event. */
  lemma PreflightAfterApply(db: Database, ev: RosterEvent, now: Time, e: Id, items: nat, baseline: nat, total: nat,
                            revision: int)
    requires TablesOk(db) && AppliedPresent(db.receipts, db.participants) && RosterOk(db, e) && Owned(db.exams, e)
    requires forall f :: f in db.exams ==> db.exams[f].rosterRevision >= 0
    requires !Misaddressed(db, ev, e) && PreflightRoster(db, e, items, baseline, total, revision)
    ensures var after := Apply(db, ev, now).0;
      e in after.exams
      && PreflightRoster(after, e, items, baseline, |ParticipantRows(after.participants, e)|, after.exams[e].rosterRevision)
  {
    hide Apply, StoredView, TablesOk, AppliedPresent, Owned, Misaddressed, ItemRows, ParticipantRows, Baseline;
    TablesKept(db, ev, now);
    RosterKeptIff(db, ev, now, e);
    BaselineKept(db, ev, now, e);
    TablesKeyed(db);
    ChecksumKept(db, ev, now, e);
    var after := Apply(db, ev, now).0;
    PreflightIffExpected(after, e, items, baseline, |ParticipantRows(after.participants, e)|, after.exams[e].rosterRevision);
  }

  lemma ChecksumKept(db: Database, ev: RosterEvent, now: Time, e: Id)
    requires KeyedParticipants(db.participants) && e in db.exams
    ensures e in Apply(db, ev, now).0.exams
    ensures Apply(db, ev, now).0.exams[e].bundleChecksum == db.exams[e].bundleChecksum
    ensures Apply(db, ev, now).0.exams[e].deploymentId == db.exams[e].deploymentId
    ensures Apply(db, ev, now).0.items == db.items
  {
    hide Apply;
    ApplyShape(db, ev, now);
    assert OnlyRosterState(db.exams[e], Apply(db, ev, now).0.exams[e]);
  }

  // ---- Every run of events ----

  /** The tables after a sequence of events, whatever they are, each applied at its own instant. */
  ghost function ApplyAll(db: Database, events: seq<RosterEvent>, clock: nat -> Time): Database {
    if events == [] then db
    else Apply(ApplyAll(db, events[..|events| - 1], clock), events[|events| - 1], clock(|events| - 1)).0
  }

  /** No event claims another exam's deployment. */
  ghost predicate WellAddressed(exams: map<Id, Exam>, events: seq<RosterEvent>) {
    forall ev, e :: ev in events && e in exams && ev.deploymentId == exams[e].deploymentId ==> ev.examId == e
  }

  /**
    Over any run of well-addressed events, valid or not, repeated or out of order, every exam's roster stays
    in order.
   */
  lemma {:induction false} RostersStayOk(db: Database, events: seq<RosterEvent>, clock: nat -> Time, e: Id)
    requires TablesOk(db) && AppliedPresent(db.receipts, db.participants) && RosterOk(db, e) && Owned(db.exams, e)
    requires WellAddressed(db.exams, events)
    ensures var after := ApplyAll(db, events, clock);
      && TablesOk(after) && AppliedPresent(after.receipts, after.participants) && RosterOk(after, e) && Owned(after.exams, e)
      && e in after.exams && e in db.exams && after.exams[e].deploymentId == db.exams[e].deploymentId
      && (forall k :: k in db.participants ==> k in after.participants && after.participants[k] == db.participants[k])
  {
    hide Apply, TablesOk, AppliedPresent, RosterOk, Owned;
    RosterOwnsExam(db, e);
    if events != [] {
      var front, last := events[..|events| - 1], events[|events| - 1];
      assert forall ev :: ev in front ==> ev in events;
      RostersStayOk(db, front, clock, e);
      var before := ApplyAll(db, front, clock);
      var now := clock(|events| - 1);
      TablesKeyed(before);
      TablesKept(before, last, now);
      assert last in events;
      NotMisaddressedHere(before, last, e);
      RosterKeptIff(before, last, now, e);
      OwnedStays(before, last, now, e);
      forall k | k in before.participants
        ensures k in Apply(before, last, now).0.participants
        ensures Apply(before, last, now).0.participants[k] == before.participants[k]
      {
        RosterOnlyGrows(before, last, now, k);
      }
    }
  }

  lemma NotMisaddressedHere(db: Database, ev: RosterEvent, e: Id)
    requires e in db.exams && (ev.deploymentId == db.exams[e].deploymentId ==> ev.examId == e)
    ensures !Misaddressed(db, ev, e)
  {
    hide ValidEvent;
  }

  lemma OwnedStays(db: Database, ev: RosterEvent, now: Time, e: Id)
    requires TablesOk(db) && Owned(db.exams, e)
    ensures var after := Apply(db, ev, now).0.exams;
      Owned(after, e) && e in after && after[e].deploymentId == db.exams[e].deploymentId
  {
    hide Apply;
    TablesKeyed(db);
    ApplyShape(db, ev, now);
    var after := Apply(db, ev, now).0;
    forall f | f in db.exams ensures after.exams[f].deploymentId == db.exams[f].deploymentId {
      assert OnlyRosterState(db.exams[f], after.exams[f]);
    }
  }
}
