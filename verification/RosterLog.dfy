/**
  Central's log of one deployment, revision by revision, and an exam that has taken effect of a
  prefix of it. An event of the prefix replays, the next one takes effect, a later one is a gap.
 */
module RosterLog {
  import opened Common
  import opened Entities
  import opened RosterModel
  import opened RosterInvariant

  type Log = seq<RosterEvent>

  /** Well-formed and contiguous from revision 1, for one exam under one deployment, with distinct events. */
  ghost predicate LogOk(log: Log, d: Id, e: Id) {
    && (forall i :: 0 <= i < |log| ==>
          ValidEvent(log[i]) && log[i].deploymentId == d && log[i].examId == e && log[i].revision == i + 1)
    && (forall i, j :: 0 <= i < j < |log| ==> log[i].eventId != log[j].eventId)
  }

  /** The exam has receipts for exactly the events up to its revision. */
  ghost predicate Holds(receipts: Receipts, log: Log, r: int) {
    && 0 <= r <= |log|
    && forall i :: 0 <= i < |log| ==>
         (log[i].eventId in receipts <==> i < r) && (i < r ==> receipts[log[i].eventId].payloadHash == Identity(log[i]))
  }

  ghost predicate InSync(db: Database, log: Log, d: Id, e: Id) {
    && LogOk(log, d, e) && RosterOk(db, e) && Owned(db.exams, e) && db.exams[e].deploymentId == d
    && Holds(db.receipts, log, db.exams[e].rosterRevision)
  }

  ghost predicate NodeOk(db: Database) {
    TablesOk(db) && AppliedPresent(db.receipts, db.participants)
  }

  function Revision(db: Database, e: Id): int {
    if e in db.exams then db.exams[e].rosterRevision else 0
  }

  /** What each event of the log does: replay, take effect, or gap. */
  lemma LoggedEvent(db: Database, log: Log, d: Id, e: Id, i: nat, now: Time)
    requires NodeOk(db) && InSync(db, log, d, e) && i < |log|
    ensures var (after, r) := Apply(db, log[i], now);
      && (i < Revision(db, e) ==> log[i].eventId in db.receipts && after == db && r == Ok(OutcomeOf(db.receipts[log[i].eventId])))
      && (i == Revision(db, e) ==> r.Ok? && Revision(after, e) == i + 1 && log[i].eventId in after.receipts
                                   && r.value == OutcomeOf(after.receipts[log[i].eventId]))
      && (i > Revision(db, e) ==> after == db && r == Err(RosterRevisionGap))
      && NodeOk(after) && InSync(after, log, d, e)
  {
    hide TablesOk, AppliedPresent, RosterOk, Owned, ValidEvent, Identity, OutcomeOf, Apply;
    var ev := log[i];
    RosterOwnsExam(db, e);
    if i < Revision(db, e) {
      ReceiptReplays(db, ev, now);
    } else if i == Revision(db, e) {
      NextTakesEffect(db, ev, now);
      TablesKept(db, ev, now);
      NotMisaddressedHere(db, ev, e);
      RosterKeptIff(db, ev, now, e);
      OwnedStays(db, ev, now, e);
      PrefixGrows(db.receipts, Apply(db, ev, now).0.receipts, log, i);
    } else {
      LaterIsGap(db, ev, now);
    }
  }

  lemma LaterIsGap(db: Database, ev: RosterEvent, now: Time)
    requires ValidEvent(ev) && ev.examId in db.exams && ev.eventId !in db.receipts
    requires ev.deploymentId == db.exams[ev.examId].deploymentId && ev.revision > db.exams[ev.examId].rosterRevision + 1
    ensures Apply(db, ev, now) == (db, Err(RosterRevisionGap))
  {
    hide DecideNext;
  }

  lemma PrefixGrows(before: Receipts, after: Receipts, log: Log, i: nat)
    requires i < |log| && Holds(before, log, i)
    requires (forall k, l :: 0 <= k < l < |log| ==> log[k].eventId != log[l].eventId)
    requires log[i].eventId in after && after == before[log[i].eventId := after[log[i].eventId]]
    requires after[log[i].eventId].payloadHash == Identity(log[i])
    ensures Holds(after, log, i + 1)
  {
    hide Identity;
  }

  // ---- Catching up ----

  /** The tables after the log's events from `i` up to `n` have each taken effect once, at their own instants. */
  ghost function CatchUp(db: Database, log: Log, i: nat, n: nat, clock: Id -> Time): Database
    requires i <= n <= |log|
  {
    if i == n then db
    else
      var before := CatchUp(db, log, i, n - 1, clock);
      Apply(before, log[n - 1], clock(log[n - 1].eventId)).0
  }

  /** Catching up from the exam's revision reaches the end, and each admitted student is present. */
  lemma {:induction false} CatchUpReaches(db: Database, log: Log, d: Id, e: Id, n: nat, clock: Id -> Time)
    requires NodeOk(db) && InSync(db, log, d, e) && Revision(db, e) <= n <= |log|
    ensures var after := CatchUp(db, log, Revision(db, e), n, clock);
      NodeOk(after) && InSync(after, log, d, e) && Revision(after, e) == n
  {
    hide NodeOk, InSync, Apply, Revision;
    SyncedRevision(db, log, d, e);
    if n > Revision(db, e) {
      CatchUpReaches(db, log, d, e, n - 1, clock);
      LoggedEvent(CatchUp(db, log, Revision(db, e), n - 1, clock), log, d, e, n - 1, clock(log[n - 1].eventId));
    }
  }

  /** Exams keep everything but their roster state, and their revisions never go back. */
  ghost predicate ExamsKept(before: map<Id, Exam>, after: map<Id, Exam>) {
    && before.Keys == after.Keys
    && forall e :: e in before ==> OnlyRosterState(before[e], after[e]) && before[e].rosterRevision <= after[e].rosterRevision
  }

  lemma LoggedKeepsExams(db: Database, log: Log, d: Id, e: Id, i: nat, now: Time)
    requires NodeOk(db) && InSync(db, log, d, e) && i == Revision(db, e) < |log|
    ensures ExamsKept(db.exams, Apply(db, log[i], now).0.exams)
  {
    hide TablesOk, AppliedPresent, RosterOk, Owned, ValidEvent, Identity, Apply;
    LoggedEvent(db, log, d, e, i, now);
    TablesKeyed(db);
    RosterOwnsExam(db, e);
    ApplyShape(db, log[i], now);
  }

  lemma {:induction false} CatchUpKeepsExams(db: Database, log: Log, d: Id, e: Id, n: nat, clock: Id -> Time)
    requires NodeOk(db) && InSync(db, log, d, e) && Revision(db, e) <= n <= |log|
    ensures ExamsKept(db.exams, CatchUp(db, log, Revision(db, e), n, clock).exams)
  {
    hide NodeOk, InSync, Apply, Revision;
    SyncedRevision(db, log, d, e);
    if n > Revision(db, e) {
      CatchUpReaches(db, log, d, e, n - 1, clock);
      CatchUpKeepsExams(db, log, d, e, n - 1, clock);
      LoggedKeepsExams(CatchUp(db, log, Revision(db, e), n - 1, clock), log, d, e, n - 1, clock(log[n - 1].eventId));
    }
  }

  lemma SyncedRevision(db: Database, log: Log, d: Id, e: Id)
    requires InSync(db, log, d, e)
    ensures 0 <= Revision(db, e) <= |log|
  {
    hide RosterOk, Owned, LogOk;
    RosterOwnsExam(db, e);
  }

  /**
    Caught up, every event of the log has exactly one receipt, its own, and an applied one's student is on the
    roster.
   */
  lemma CaughtUp(db: Database, log: Log, d: Id, e: Id, i: nat)
    requires NodeOk(db) && InSync(db, log, d, e) && Revision(db, e) == |log| && i < |log|
    ensures log[i].eventId in db.receipts && db.receipts[log[i].eventId].payloadHash == Identity(log[i])
    ensures db.receipts[log[i].eventId].status.EventApplied? ==> Present(db.participants, Identity(log[i]))
    ensures |ReceiptsUpTo(db.receipts, d, |log|)| == |log|
  {
    hide TablesOk, Owned, Identity, StudentsUnique, CodesUnique, SlotsUnique;
    RosterOwnsExam(db, e);
    RosterExact(db, e);
    assert SlotsUnique(db.receipts) by { TablesSlots(db); }
    ExactCount(db.receipts, e, d, |log|, |log|);
  }

  lemma RosterExact(db: Database, e: Id)
    requires RosterOk(db, e)
    ensures ReceiptsExact(db.receipts, e, db.exams[e].deploymentId, db.exams[e].rosterRevision)
  {
  }

  lemma TablesSlots(db: Database)
    requires TablesOk(db)
    ensures SlotsUnique(db.receipts)
  {
    hide StudentsUnique, CodesUnique, SlotsUnique;
  }

  // ---- Several deployments ----

  /** Every deployment's log, with the exam that owns the deployment. */
  type Logs = map<Id, Log>

  /** Which exam owns each deployment, and which exams are fenced. */
  datatype World = World(owner: map<Id, Id>, fenced: set<Id>)

  /** Fences stand as they were, and every named deployment of a loaded exam has a log. */
  ghost predicate Placed(exams: map<Id, Exam>, logs: Logs, w: World) {
    && (forall e :: e in exams ==> (exams[e].fencedAt.Some? <==> e in w.fenced))
    && (forall e :: e in exams && exams[e].deploymentId != "" ==> exams[e].deploymentId in logs)
  }

  ghost predicate AllInSync(db: Database, logs: Logs, w: World) {
    && NodeOk(db) && logs.Keys == w.owner.Keys && Placed(db.exams, logs, w)
    && (forall d :: d in logs ==> InSync(db, logs[d], d, w.owner[d]))
    && (forall c, d, i, j :: c in logs && d in logs && c != d && 0 <= i < |logs[c]| && 0 <= j < |logs[d]| ==>
          logs[c][i].eventId != logs[d][j].eventId)
  }

  /** Another deployment's event leaves an exam's place in its log. */
  lemma OtherLogKept(db: Database, ev: RosterEvent, now: Time, log: Log, d: Id, e: Id)
    requires NodeOk(db) && InSync(db, log, d, e) && ev.deploymentId != d && ev.examId != e
    requires forall i :: 0 <= i < |log| ==> log[i].eventId != ev.eventId
    ensures InSync(Apply(db, ev, now).0, log, d, e) && Revision(Apply(db, ev, now).0, e) == Revision(db, e)
  {
    hide TablesOk, AppliedPresent, RosterOk, Owned, ValidEvent, Identity, Apply;
    RosterOwnsExam(db, e);
    TablesKeyed(db);
    ApplyShape(db, ev, now);
    NotMisaddressedHere(db, ev, e);
    RosterKeptIff(db, ev, now, e);
    OwnedStays(db, ev, now, e);
  }

  /** Any event of any log, replayed, taking effect or refused as a gap, keeps every exam's place. */
  lemma AnyLoggedEvent(db: Database, logs: Logs, w: World, d: Id, i: nat, now: Time)
    requires AllInSync(db, logs, w) && d in logs && i < |logs[d]|
    ensures AllInSync(Apply(db, logs[d][i], now).0, logs, w)
    ensures forall c :: c in logs && c != d ==> Revision(Apply(db, logs[d][i], now).0, w.owner[c]) == Revision(db, w.owner[c])
  {
    hide NodeOk, InSync, Apply, Revision, Placed;
    LoggedEvent(db, logs[d], d, w.owner[d], i, now);
    PlacedKept(db, logs[d][i], now, logs, w);
    forall c | c in logs && c != d
      ensures InSync(Apply(db, logs[d][i], now).0, logs[c], c, w.owner[c])
           && Revision(Apply(db, logs[d][i], now).0, w.owner[c]) == Revision(db, w.owner[c])
    {
      OwnersDiffer(db, logs[c], c, w.owner[c], logs[d], d, w.owner[d], i);
      OtherLogKept(db, logs[d][i], now, logs[c], c, w.owner[c]);
    }
  }

  lemma PlacedKept(db: Database, ev: RosterEvent, now: Time, logs: Logs, w: World)
    requires NodeOk(db) && Placed(db.exams, logs, w)
    ensures Placed(Apply(db, ev, now).0.exams, logs, w)
  {
    hide TablesOk, AppliedPresent, Apply;
    TablesKeyed(db);
    ApplyShape(db, ev, now);
    var after := Apply(db, ev, now).0;
    forall e | e in after.exams
      ensures after.exams[e].fencedAt == db.exams[e].fencedAt && after.exams[e].deploymentId == db.exams[e].deploymentId
    {
      assert OnlyRosterState(db.exams[e], after.exams[e]);
    }
  }

  lemma OwnersDiffer(db: Database, log: Log, c: Id, e: Id, other: Log, d: Id, f: Id, i: nat)
    requires InSync(db, log, c, e) && InSync(db, other, d, f) && c != d && i < |other|
    ensures e != f && other[i].deploymentId == d && other[i].examId == f
  {
    hide RosterOk, Owned, ValidEvent, Identity;
  }
}
