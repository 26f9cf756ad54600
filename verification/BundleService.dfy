/**
  Loading a bundle: checks, the derived rows, the version-aware publication around the all-or-nothing
  replacement. A bundle's checksum is what an injective digest gives its body.
 */
module BundleService {
  import opened Common
  import opened Entities
  import opened NodeRepository
  import Answers
  import B = BundleModel
  import BundleHash
  import C = ContentModel
  import ContentService
  import Hash = ContentHash
  import Roster = RosterInvariant
  import RosterModel
  import Sitting = SittingInvariant

  datatype Section = Section(id: Id, title: string, sortOrder: int)

  datatype BundleItem = BundleItem(
    id: Id, sectionId: Id, sortOrder: int, questionType: QuestionType, prompt: string, options: seq<Fields>,
    answerKey: Fields, rubric: seq<Rubric>, points: int, requiresManualGrading: bool)

  datatype BundleParticipant = BundleParticipant(id: Id, studentId: Id, studentName: string, accessCode: string)

  datatype BundleExam = BundleExam(
    id: Id, presentation: Presentation, startsAt: Time, endsAt: Time, durationMinutes: int, maxAttempts: int)

  datatype Body = Body(
    deploymentId: Id, exam: BundleExam, sections: seq<Section>, items: seq<BundleItem>, participants: seq<BundleParticipant>)

  datatype Bundle = Bundle(body: Body, checksum: string)

  // ---- Derived rows ----

  /** The first section with the identifier. */
  function FindSection(sections: seq<Section>, id: Id): Option<Section> {
    if sections == [] then None
    else if sections[0].id == id then Some(sections[0])
    else FindSection(sections[1..], id)
  }

  function ItemOf(body: Body, it: BundleItem): Item {
    var s := FindSection(body.sections, it.sectionId);
    Item(it.id, body.exam.id, it.sectionId, if s.Some? then s.value.title else "", if s.Some? then s.value.sortOrder else 0,
         it.sortOrder, it.questionType, it.prompt, it.options, it.answerKey, it.rubric, it.points, it.requiresManualGrading)
  }

  function ItemsOf(body: Body): (rows: seq<Item>)
    ensures |rows| == |body.items|
  {
    seq(|body.items|, i requires 0 <= i < |body.items| => ItemOf(body, body.items[i]))
  }

  function ParticipantOf(body: Body, p: BundleParticipant): Participant {
    Participant(p.id, body.exam.id, "", p.studentId, p.studentName, p.accessCode, 0, 0, None)
  }

  function ParticipantsOf(body: Body): (rows: seq<Participant>)
    ensures |rows| == |body.participants|
  {
    seq(|body.participants|, i requires 0 <= i < |body.participants| => ParticipantOf(body, body.participants[i]))
  }

  function MaxScore(items: seq<BundleItem>): int {
    if items == [] then 0 else MaxScore(items[..|items| - 1]) + items[|items| - 1].points
  }

  predicate HasManual(items: seq<BundleItem>) {
    exists it :: it in items && it.requiresManualGrading
  }

  function AccessPrefix(body: Body): string {
    if |body.participants| > 0 && |body.participants[0].accessCode| >= 6 then body.participants[0].accessCode[..6] else ""
  }

  function BareExam(b: Bundle): Exam {
    var e := b.body.exam;
    Exam(e.id, b.body.deploymentId, e.presentation, e.startsAt, e.endsAt, e.durationMinutes, e.maxAttempts,
         MaxScore(b.body.items), HasManual(b.body.items), AccessPrefix(b.body), b.checksum, None, 0, None)
  }

  /** The exam row a load stores. */
  function ExamOf(b: Bundle): Exam {
    BareExam(b).(contentHash := Some(Hash.View(BareExam(b), ItemsOf(b.body), ParticipantsOf(b.body))))
  }

  /** Why a load is refused before it touches anything. */
  function Refusal(exams: map<Id, Exam>, b: Bundle, digest: Body -> string): Option<NodeError> {
    var e := b.body.exam.id;
    if e in exams && exams[e].deploymentId == b.body.deploymentId && exams[e].rosterRevision > 0 then Some(BundleRosterImmutable)
    else if exists it :: it in b.body.items && it.questionType.FileUpload? then Some(BundleFileUpload)
    else if b.checksum != digest(b.body) then Some(BundleChecksum)
    else None
  }

  function Loaded(db: Database, b: Bundle): Option<Database> {
    B.ReplaceBundle(db, ExamOf(b), ItemsOf(b.body), ParticipantsOf(b.body))
  }

  // ---- What a load establishes ----

  ghost predicate DistinctParticipants(ps: seq<BundleParticipant>) {
    forall i, j :: 0 <= i < j < |ps| ==> ps[i].id != ps[j].id
  }

  /**
    After a load the exam's roster is in order from revision zero, with no receipts yet and the stored rows' hash,
    exactly when the bundle lists no participant twice.
   */
  lemma LoadedRosterIff(db: Database, b: Bundle)
    requires Roster.TablesOk(db) && Loaded(db, b).Some?
    requires forall n :: !RosterSlot(db, b.body.deploymentId, n)
    ensures Roster.RosterOk(Loaded(db, b).value, b.body.exam.id) <==> DistinctParticipants(b.body.participants)
  {
    hide B.InsertItems, B.ReplaceRoster, Hash.View, Hash.Listing, Roster.StudentsUnique, Roster.CodesUnique, Roster.SlotsUnique,
      DistinctParticipants;
    HashOfLoaded(db, b);
    var after := Loaded(db, b).value;
    HashIgnoresItself(b, after.items, after.participants);
    forall n ensures !RosterModel.SlotTaken(after.receipts, b.body.deploymentId, n) {
      assert !RosterSlot(db, b.body.deploymentId, n);
    }
    NoReceipts(db, b.body.deploymentId);
  }

  /** No preflight, whatever it expects, passes after a load that lists a participant twice. */
  lemma PreflightNeedsDistinct(db: Database, b: Bundle, items: nat, baseline: nat, total: nat, revision: int)
    requires Roster.TablesOk(db) && Loaded(db, b).Some?
    requires Roster.PreflightRoster(Loaded(db, b).value, b.body.exam.id, items, baseline, total, revision)
    ensures DistinctParticipants(b.body.participants)
  {
    hide B.InsertItems, B.ReplaceRoster, Hash.View, Hash.Listing, Roster.TablesOk, DistinctParticipants;
    HashOfLoaded(db, b);
    var after := Loaded(db, b).value;
    HashIgnoresItself(b, after.items, after.participants);
  }

  ghost predicate RosterSlot(db: Database, d: Id, n: int) {
    exists k :: k in db.receipts && db.receipts[k].deploymentId == d && db.receipts[k].revision == n
  }

  lemma NoReceipts(db: Database, d: Id)
    requires forall n :: !RosterSlot(db, d, n)
    ensures forall k :: k in db.receipts ==> db.receipts[k].deploymentId != d
  {
    forall k | k in db.receipts ensures db.receipts[k].deploymentId != d {
      assert !RosterSlot(db, d, db.receipts[k].revision);
    }
  }

  lemma HashIgnoresItself(b: Bundle, items: map<Id, Item>, ps: map<Id, Participant>)
    ensures Hash.StoredView(ExamOf(b), items, ps) == Hash.StoredView(BareExam(b), items, ps)
    ensures forall xs, ys :: Hash.View(ExamOf(b), xs, ys) == Hash.View(BareExam(b), xs, ys)
  {
    hide Hash.Listing;
  }

  lemma HashOfLoaded(db: Database, b: Bundle)
    requires Roster.TablesOk(db) && Loaded(db, b).Some?
    ensures var after := Loaded(db, b).value;
      Hash.StoredView(ExamOf(b), after.items, after.participants) == Hash.View(ExamOf(b), ItemsOf(b.body), ParticipantsOf(b.body))
      <==> DistinctParticipants(b.body.participants)
  {
    hide B.ReplaceBundle, Hash.View, Hash.StoredView, Roster.SlotsUnique;
    BundleHash.LoadedHashIff(db, ExamOf(b), ItemsOf(b.body), ParticipantsOf(b.body));
    SameDistinct(b.body);
  }

  lemma SameDistinct(body: Body)
    ensures B.DistinctRows(ParticipantsOf(body)) <==> DistinctParticipants(body.participants)
  {
    assert forall i :: 0 <= i < |body.participants| ==> ParticipantsOf(body)[i].id == body.participants[i].id;
  }

  /** The identifiers of a bundle's items. */
  function ItemIds(items: seq<BundleItem>): set<Id> {
    set it | it in items :: it.id
  }

  /** The maximum score is the points of the exam's stored items. */
  lemma {:induction false} MaxScoreIsPoints(table: map<Id, Item>, items: seq<BundleItem>)
    requires ItemIds(items) <= table.Keys
    requires forall i :: 0 <= i < |items| ==> table[items[i].id].points == items[i].points
    requires forall i, j :: 0 <= i < j < |items| ==> items[i].id != items[j].id
    ensures Answers.PointsOf(table, ItemIds(items)) == MaxScore(items)
  {
    if items != [] {
      var front, last := items[..|items| - 1], items[|items| - 1];
      assert items == front + [last];
      assert ItemIds(items) == ItemIds(front) + {last.id};
      forall i | i in ItemIds(front) ensures i != last.id {
        var k :| 0 <= k < |front| && front[k].id == i;
        assert items[k].id != items[|items| - 1].id;
      }
      MaxScoreIsPoints(table, front);
      Answers.PointsWithout(table, ItemIds(items), last.id);
      assert ItemIds(items) - {last.id} == ItemIds(front);
    }
  }

  /** Rows under their own keys, beside rows of other exams only, are exactly the exam's items. */
  lemma ItemsByKey(after: map<Id, Item>, other: map<Id, Item>, items: seq<BundleItem>, rows: seq<Item>, e: Id)
    requires |rows| == |items| && forall i :: 0 <= i < |items| ==> rows[i].id == items[i].id && rows[i].examId == e
    requires forall i :: i in other ==> other[i].examId != e && i in after && after[i] == other[i]
    requires forall i :: i in after <==> i in other || exists r :: r in rows && r.id == i
    requires forall r :: r in rows ==> r.id in after && after[r.id] == r
    ensures Answers.ItemsOfExam(after, e) == ItemIds(items)
    ensures forall i :: 0 <= i < |items| ==> items[i].id in after && after[items[i].id] == rows[i]
  {
    forall i | 0 <= i < |items| ensures items[i].id in after && after[items[i].id] == rows[i] {
      assert rows[i] in rows;
    }
    forall k | k in after && after[k].examId == e ensures k in ItemIds(items) {
      var r :| r in rows && r.id == k;
      var i :| 0 <= i < |rows| && rows[i] == r;
      assert items[i] in items;
    }
  }

  /** The stored items of the exam are the bundle's, under their own keys. */
  lemma LoadedItems(db: Database, b: Bundle)
    requires Loaded(db, b).Some?
    ensures var (after, e) := (Loaded(db, b).value.items, b.body.exam.id);
      && Answers.ItemsOfExam(after, e) == ItemIds(b.body.items)
      && (forall i :: 0 <= i < |b.body.items| ==>
            b.body.items[i].id in after && after[b.body.items[i].id] == ItemsOf(b.body)[i])
      && (forall i, j :: 0 <= i < j < |b.body.items| ==> b.body.items[i].id != b.body.items[j].id)
  {
    hide B.InsertItems, B.ReplaceRoster, ItemsOf, ExamOf, ItemIds, Answers.ItemsOfExam;
    ExamIdOf(b);
    ItemFields(b.body);
    var rows, e := ItemsOf(b.body), b.body.exam.id;
    var other := B.OtherItems(db.items, e);
    B.ItemsReplaced(other, rows);
    ItemsByKey(Loaded(db, b).value.items, other, b.body.items, rows, e);
    forall i, j | 0 <= i < j < |b.body.items| ensures b.body.items[i].id != b.body.items[j].id {
      assert rows[i].id != rows[j].id;
    }
  }

  lemma ExamIdOf(b: Bundle)
    ensures ExamOf(b).id == b.body.exam.id
  {
    hide Hash.View;
  }

  lemma ItemFields(body: Body)
    ensures forall i :: 0 <= i < |body.items| ==>
      ItemsOf(body)[i].id == body.items[i].id && ItemsOf(body)[i].examId == body.exam.id && ItemsOf(body)[i].points == body.items[i].points
      && ItemsOf(body)[i].requiresManualGrading == body.items[i].requiresManualGrading
  {
    hide FindSection;
  }

  /** Section number `k` is the first of the bundle with the identifier. */
  ghost predicate FirstSection(sections: seq<Section>, id: Id, k: int) {
    0 <= k < |sections| && sections[k].id == id && forall l :: 0 <= l < k ==> sections[l].id != id
  }

  /** The stored item is the bundle's, under its exam and with its section's title and place, if the section is there. */
  ghost predicate StoredAs(row: Item, it: BundleItem, body: Body) {
    && row.id == it.id && row.examId == body.exam.id && row.sectionId == it.sectionId && row.sortOrder == it.sortOrder
    && row.questionType == it.questionType && row.prompt == it.prompt && row.options == it.options && row.answerKey == it.answerKey
    && row.rubric == it.rubric && row.points == it.points && row.requiresManualGrading == it.requiresManualGrading
    && (forall k :: FirstSection(body.sections, it.sectionId, k) ==>
          row.sectionTitle == body.sections[k].title && row.sectionSortOrder == body.sections[k].sortOrder)
    && ((forall k :: !FirstSection(body.sections, it.sectionId, k)) ==> row.sectionTitle == "" && row.sectionSortOrder == 0)
  }

  lemma {:induction false} SectionFound(sections: seq<Section>, id: Id)
    ensures var s := FindSection(sections, id);
      && (s.Some? ==> exists k :: FirstSection(sections, id, k))
      && forall k :: FirstSection(sections, id, k) ==> s == Some(sections[k])
  {
    if sections != [] {
      if sections[0].id == id {
        assert FirstSection(sections, id, 0);
      } else {
        var rest := sections[1..];
        SectionFound(rest, id);
        if k :| FirstSection(rest, id, k) {
          assert FirstSection(sections, id, k + 1) by {
            forall l | 0 <= l < k + 1 ensures sections[l].id != id {
              assert l > 0 ==> sections[l] == rest[l - 1];
            }
          }
        }
        forall k | FirstSection(sections, id, k) ensures FindSection(rest, id) == Some(sections[k]) {
          assert FirstSection(rest, id, k - 1) by {
            assert rest[k - 1] == sections[k];
            forall l | 0 <= l < k - 1 ensures rest[l].id != id {
              assert rest[l] == sections[l + 1];
            }
          }
        }
      }
    }
  }

  lemma ItemStoredAs(body: Body, it: BundleItem)
    ensures StoredAs(ItemOf(body, it), it, body)
  {
    hide FindSection, FirstSection;
    SectionFound(body.sections, it.sectionId);
  }

  /** After a load every item of the bundle is stored column by column, and the exam has no other. */
  lemma ItemsStoredAs(db: Database, b: Bundle)
    requires Loaded(db, b).Some?
    ensures var (after, body) := (Loaded(db, b).value.items, b.body);
      && (forall i :: 0 <= i < |body.items| ==> body.items[i].id in after && StoredAs(after[body.items[i].id], body.items[i], body))
      && (forall k :: k in after && after[k].examId == body.exam.id ==> exists i :: 0 <= i < |body.items| && body.items[i].id == k)
      && (forall k :: k in db.items && db.items[k].examId != body.exam.id ==> k in after && after[k] == db.items[k])
  {
    hide B.InsertItems, B.ReplaceRoster, ItemOf, ExamOf, StoredAs;
    LoadedItems(db, b);
    ExamIdOf(b);
    var after, body := Loaded(db, b).value.items, b.body;
    B.ItemsReplaced(B.OtherItems(db.items, body.exam.id), ItemsOf(body));
    forall i | 0 <= i < |body.items| ensures StoredAs(after[body.items[i].id], body.items[i], body) {
      ItemStoredAs(body, body.items[i]);
    }
    forall k | k in after && after[k].examId == body.exam.id ensures exists i :: 0 <= i < |body.items| && body.items[i].id == k {
      assert k in Answers.ItemsOfExam(after, body.exam.id);
    }
  }

  /** The stored exam is the bundle's, at revision zero and unfenced. */
  lemma ExamStoredAs(db: Database, b: Bundle)
    requires Loaded(db, b).Some?
    ensures var (exams, body) := (Loaded(db, b).value.exams, b.body.exam);
      && exams.Keys == db.exams.Keys + {body.id} && (forall e :: e in db.exams && e != body.id ==> exams[e] == db.exams[e])
      && var e := exams[body.id];
         && e.id == body.id && e.deploymentId == b.body.deploymentId && e.presentation == body.presentation
         && e.startsAt == body.startsAt && e.endsAt == body.endsAt && e.durationMinutes == body.durationMinutes
         && e.maxAttempts == body.maxAttempts && e.bundleChecksum == b.checksum && e.rosterRevision == 0 && e.fencedAt.None?
         && (e.hasManualItems <==> exists it :: it in b.body.items && it.requiresManualGrading)
         && var ps := b.body.participants;
            var long := |ps| > 0 && |ps[0].accessCode| >= 6;
            e.accessCodePrefix <= (if long then ps[0].accessCode else "") && |e.accessCodePrefix| == if long then 6 else 0
  {
    hide B.InsertItems, B.ReplaceRoster, ItemOf, ParticipantOf, Hash.View, MaxScore;
  }

  /** The stored row is the bundle's participant, new to its exam or with the counters it had there. */
  ghost predicate SeatedAs(before: map<Id, Participant>, row: Participant, p: BundleParticipant, examId: Id) {
    && row.id == p.id && row.examId == examId && row.studentId == p.studentId && row.studentName == p.studentName
    && row.accessCode == p.accessCode
    && if p.id in before && before[p.id].examId == examId
       then row == before[p.id].(id := p.id, studentId := p.studentId, studentName := p.studentName, accessCode := p.accessCode)
       else row.deploymentId == "" && row.rosterRevision == 0 && row.attemptCount == 0 && row.latestAttemptId.None?
  }

  lemma RowSeats(before: map<Id, Participant>, body: Body, i: nat, after: Participant)
    requires i < |body.participants| && B.TakesOver(before, body.exam.id, ParticipantsOf(body)[i], after)
    requires forall k :: k in before ==> before[k].id == k
    ensures SeatedAs(before, after, body.participants[i], body.exam.id)
  {
  }

  /** After a load each participant of the bundle is stored as its last entry says, and the exam has no other. */
  lemma ParticipantsStoredAs(db: Database, b: Bundle)
    requires Loaded(db, b).Some? && forall k :: k in db.participants ==> db.participants[k].id == k
    ensures var (after, ps, e) := (Loaded(db, b).value.participants, b.body.participants, b.body.exam.id);
      && (forall i :: 0 <= i < |ps| && (forall l :: i < l < |ps| ==> ps[l].id != ps[i].id) ==>
            ps[i].id in after && SeatedAs(db.participants, after[ps[i].id], ps[i], e))
      && (forall k :: k in after && after[k].examId == e ==> exists i :: 0 <= i < |ps| && ps[i].id == k)
      && (forall k :: k in db.participants && db.participants[k].examId != e ==> k in after && after[k] == db.participants[k])
  {
    hide B.ReplaceBundle, B.TakesOver, SeatedAs, ItemOf, ExamOf, ParticipantOf;
    ExamIdOf(b);
    var rows, ps, e := ParticipantsOf(b.body), b.body.participants, b.body.exam.id;
    RowsOfExam(b.body);
    B.BundleReplaced(db, ExamOf(b), ItemsOf(b.body), rows);
    var after := Loaded(db, b).value.participants;
    forall i | 0 <= i < |ps| && (forall l :: i < l < |ps| ==> ps[l].id != ps[i].id)
      ensures ps[i].id in after && SeatedAs(db.participants, after[ps[i].id], ps[i], e)
    {
      assert B.LastOf(rows, i, |rows|);
      RowSeats(db.participants, b.body, i, after[ps[i].id]);
    }
    forall k | k in after && after[k].examId == e ensures exists i :: 0 <= i < |ps| && ps[i].id == k {
      var r :| r in rows && r.id == k;
      var i :| 0 <= i < |rows| && rows[i] == r;
      assert ps[i].id == k;
    }
  }

  lemma RowsOfExam(body: Body)
    ensures forall r :: r in ParticipantsOf(body) ==> r.examId == body.exam.id
    ensures forall it :: it in ItemsOf(body) ==> it.examId == body.exam.id
    ensures forall i :: 0 <= i < |body.participants| ==> ParticipantsOf(body)[i].id == body.participants[i].id
  {
  }

  /** A bundle is refused before anything is touched exactly for one of three reasons, the first of which is told. */
  lemma RefusedIff(exams: map<Id, Exam>, b: Bundle, digest: Body -> string)
    ensures var (e, r) := (b.body.exam.id, Refusal(exams, b, digest));
      var moved := e in exams && exams[e].deploymentId == b.body.deploymentId && exams[e].rosterRevision > 0;
      var uploads := exists i :: 0 <= i < |b.body.items| && b.body.items[i].questionType.FileUpload?;
      && (r == Some(BundleRosterImmutable) <==> moved) && (r == Some(BundleFileUpload) <==> !moved && uploads)
      && (r == Some(BundleChecksum) <==> !moved && !uploads && b.checksum != digest(b.body))
      && (r.None? <==> !moved && !uploads && b.checksum == digest(b.body))
  {
    if it :| it in b.body.items && it.questionType.FileUpload? {
      var i :| 0 <= i < |b.body.items| && b.body.items[i] == it;
    }
    if i :| 0 <= i < |b.body.items| && b.body.items[i].questionType.FileUpload? {
      assert b.body.items[i] in b.body.items;
    }
  }

  /**
    A load establishes what the sittings of the exam rely on, its maximum score and manual flag being those of its
    items, exactly when the bundle's duration is not negative.
   */
  lemma LoadedExamIff(db: Database, b: Bundle)
    requires Loaded(db, b).Some?
    ensures Sitting.ExamOk(Loaded(db, b).value.exams, Loaded(db, b).value.items, b.body.exam.id) <==> b.body.exam.durationMinutes >= 0
  {
    hide B.InsertItems, B.ReplaceRoster, ItemOf, Hash.View, MaxScore, HasManual;
    var after, e := Loaded(db, b).value, b.body.exam.id;
    LoadedItems(db, b);
    ItemFields(b.body);
    MaxScoreIsPoints(after.items, b.body.items);
    ManualIff(after.items, b.body.items, e);
  }

  lemma ManualIff(table: map<Id, Item>, items: seq<BundleItem>, e: Id)
    requires Answers.ItemsOfExam(table, e) == ItemIds(items)
    requires forall i :: 0 <= i < |items| ==>
      items[i].id in table && table[items[i].id].requiresManualGrading == items[i].requiresManualGrading
    requires forall i, j :: 0 <= i < j < |items| ==> items[i].id != items[j].id
    ensures HasManual(items) <==> exists k :: k in table && table[k].examId == e && table[k].requiresManualGrading
  {
    if HasManual(items) {
      var it :| it in items && it.requiresManualGrading;
      var i :| 0 <= i < |items| && items[i] == it;
      assert it.id in Answers.ItemsOfExam(table, e);
    }
    if k :| k in table && table[k].examId == e && table[k].requiresManualGrading {
      assert k in ItemIds(items);
      var i :| 0 <= i < |items| && items[i].id == k;
      assert items[i] in items;
    }
  }

  // ---- The load ----

  class Service {
    const repo: Repository
    const content: ContentService.Service
    const digest: Body -> string

    constructor (repo: Repository, content: ContentService.Service, digest: Body -> string)
      ensures this.repo == repo && this.content == content && this.digest == digest
    {
      this.repo, this.content, this.digest := repo, content, digest;
    }

    /** The points of all items and whether any needs a human. */
    method Totals(items: seq<BundleItem>) returns (maxScore: int, hasManual: bool)
      ensures maxScore == MaxScore(items) && hasManual == HasManual(items)
    {
      maxScore, hasManual := 0, false;
      for i := 0 to |items|
        invariant maxScore == MaxScore(items[..i]) && hasManual == HasManual(items[..i])
      {
        assert items[..i + 1][..i] == items[..i] && items[..i + 1] == items[..i] + [items[i]];
        maxScore := maxScore + items[i].points;
        if items[i].requiresManualGrading {
          hasManual := true;
        }
      }
      assert items[..|items|] == items;
    }

    /** Refusals before anything is touched, in the code's order. */
    method Check(b: Bundle) returns (err: Option<NodeError>)
      ensures err == Refusal(repo.exams, b, digest)
    {
      var e := b.body.exam.id;
      if e in repo.exams && repo.exams[e].deploymentId == b.body.deploymentId && repo.exams[e].rosterRevision > 0 {
        return Some(BundleRosterImmutable);
      }
      for i := 0 to |b.body.items|
        invariant forall k :: 0 <= k < i ==> !b.body.items[k].questionType.FileUpload?
      {
        if b.body.items[i].questionType.FileUpload? {
          return Some(BundleFileUpload);
        }
      }
      err := if b.checksum != digest(b.body) then Some(BundleChecksum) else None;
    }

    /**
      A refused bundle changes nothing; a rolled-back one leaves the tables and withdraws its mark; a
      committed one is published with its stored items, or stays unready when the rebuild fails.
     */
    method LoadBundle(b: Bundle, readable: bool) returns (ok: bool)
      modifies repo, content
      ensures var (db, m, e) := (old(repo.Db()), old(content.Mem()), b.body.exam.id);
        if Refusal(db.exams, b, digest).Some? then !ok && repo.Db() == db && content.Mem() == m
        else if Loaded(db, b).None? then
          !ok && repo.Db() == db && content.Mem() == C.Cancel(C.Begin(m, e), e, C.Gen(C.Begin(m, e), e))
        else
          repo.Db() == Loaded(db, b).value && ok == readable
          && (ok ==> exists rows :: multiset(rows) == multiset(Hash.ItemRows(repo.items, e))
                                 && content.Mem() == C.Put(C.Begin(m, e), e, C.View(rows)) && e in content.cache
                                 && C.ShowsItems(content.cache[e], rows))
          && (!ok ==> content.Mem() == C.MarkUnready(C.Begin(m, e), e))
    {
      hide B.ReplaceBundle, C.Begin, C.Cancel, C.Put, C.View, C.ShowsItems, ItemOf, ParticipantOf, Hash.ItemRows;
      var saved := repo.Db();
      var refusal := Check(b);
      if refusal.Some? {
        return false;
      }
      var maxScore, hasManual := Totals(b.body.items);
      var body := b.body.exam;
      var exam := Exam(body.id, b.body.deploymentId, body.presentation, body.startsAt, body.endsAt, body.durationMinutes,
                       body.maxAttempts, maxScore, hasManual, AccessPrefix(b.body), b.checksum, None, 0, None);
      var items, participants := ItemsOf(b.body), ParticipantsOf(b.body);
      var hash := Hash.ContentHashView(items, participants, exam);
      exam := exam.(contentHash := Some(hash));
      assert exam == ExamOf(b);
      ExamIdOf(b);
      var token := content.BeginRebuild(exam.id);
      var replaced := repo.ReplaceBundle(exam, items, participants);
      if !replaced {
        repo.Restore(saved);
        var _ := content.CancelRebuild(exam.id, token);
        return false;
      }
      var rows := repo.ListItemsByExam(exam.id);
      ok := content.RebuildExam(map[exam.id := rows], exam.id, Some(token), readable);
    }
  }
}
