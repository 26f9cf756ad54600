/**
  Replacing one exam's bundle, statement by statement: each statement fails on a taken unique key,
  and a failure anywhere rolls the whole replacement back.
 */
module BundleModel {
  import opened Common
  import opened Entities
  import opened ContentHash
  import opened RosterInvariant
  import opened Sorting
  import RosterModel

  type ItemTable = map<Id, Item>
  type Roster = map<Id, Participant>

  // ---- Statements ----

  function OtherItems(items: ItemTable, e: Id): ItemTable {
    map i | i in items && items[i].examId != e :: items[i]
  }

  /** Inserting rows in one statement: every key must be free. */
  function InsertItems(items: ItemTable, rows: seq<Item>): Option<ItemTable> {
    if rows == [] then Some(items)
    else
      var last := rows[|rows| - 1];
      match InsertItems(items, rows[..|rows| - 1])
      case None => None
      case Some(before) => if last.id in before then None else Some(before[last.id := last])
  }

  /** Another row has the code, or is the same student of the same exam. */
  predicate Clashes(ps: Roster, k: Id, e: Id, studentId: Id, code: string) {
    exists l :: l in ps && l != k && (ps[l].accessCode == code || (ps[l].examId == e && ps[l].studentId == studentId))
  }

  /** The columns an update of a retained participant writes; its counters stay. */
  function Renewed(old': Participant, p: Participant): Participant {
    old'.(studentId := p.studentId, studentName := p.studentName, accessCode := p.accessCode)
  }

  function UpdateOne(ps: Roster, p: Participant): Option<Roster> {
    if p.id !in ps then Some(ps)
    else if Clashes(ps, p.id, ps[p.id].examId, p.studentId, p.accessCode) then None
    else Some(ps[p.id := Renewed(ps[p.id], p)])
  }

  function InsertOne(ps: Roster, p: Participant): Option<Roster> {
    if p.id in ps || Clashes(ps, p.id, p.examId, p.studentId, p.accessCode) then None else Some(ps[p.id := p])
  }

  /** Updates the retained participants one by one, in the bundle's order. */
  function UpdateRetained(ps: Roster, existing: set<Id>, rows: seq<Participant>): Option<Roster> {
    if rows == [] then Some(ps)
    else
      var last := rows[|rows| - 1];
      match UpdateRetained(ps, existing, rows[..|rows| - 1])
      case None => None
      case Some(before) => if last.id in existing then UpdateOne(before, last) else Some(before)
  }

  function NewOnes(existing: set<Id>, rows: seq<Participant>): seq<Participant> {
    if rows == [] then []
    else
      var last := rows[|rows| - 1];
      NewOnes(existing, rows[..|rows| - 1]) + if last.id in existing then [] else [last]
  }

  function InsertNew(ps: Roster, rows: seq<Participant>): Option<Roster> {
    if rows == [] then Some(ps)
    else
      match InsertNew(ps, rows[..|rows| - 1])
      case None => None
      case Some(before) => InsertOne(before, rows[|rows| - 1])
  }

  function Existing(ps: Roster, e: Id): set<Id> {
    set k | k in ps && ps[k].examId == e
  }

  function Kept(rows: seq<Participant>): set<Id> {
    set p | p in rows :: p.id
  }

  function WithoutStale(ps: Roster, existing: set<Id>, kept: set<Id>): Roster {
    map k | k in ps && (k !in existing || k in kept) :: ps[k]
  }

  /** Update the retained, delete the stale, insert the new. */
  function ReplaceRoster(ps: Roster, e: Id, rows: seq<Participant>): Option<Roster> {
    var existing := Existing(ps, e);
    match UpdateRetained(ps, existing, rows)
    case None => None
    case Some(updated) => InsertNew(WithoutStale(updated, existing, Kept(rows)), NewOnes(existing, rows))
  }

  function ReplaceBundle(db: Database, exam: Exam, items: seq<Item>, participants: seq<Participant>): Option<Database> {
    match InsertItems(OtherItems(db.items, exam.id), items)
    case None => None
    case Some(newItems) =>
      match ReplaceRoster(db.participants, exam.id, participants)
      case None => None
      case Some(roster) => Some(db.(exams := db.exams[exam.id := exam], items := newItems, participants := roster))
  }

  /** One refused update refuses them all. */
  lemma {:induction false} UpdatesStop(ps: Roster, existing: set<Id>, rows: seq<Participant>, i: nat)
    requires i < |rows| && UpdateRetained(ps, existing, rows[..i + 1]).None?
    ensures UpdateRetained(ps, existing, rows).None?
    decreases |rows|
  {
    if i + 1 < |rows| {
      var front := rows[..|rows| - 1];
      assert front[..i + 1] == rows[..i + 1];
      UpdatesStop(ps, existing, front, i);
    } else {
      assert rows[..i + 1] == rows;
    }
  }

  // ---- What a replacement leaves ----

  ghost predicate DistinctRows(rows: seq<Participant>) {
    forall i, j :: 0 <= i < j < |rows| ==> rows[i].id != rows[j].id
  }

  /** Of the first `n` rows, row `i` is the last one of its participant. */
  ghost predicate LastOf(rows: seq<Participant>, i: int, n: int) {
    0 <= i < n <= |rows| && forall l :: i < l < n ==> rows[l].id != rows[i].id
  }

  lemma {:induction false} LastOccurrence(rows: seq<Participant>, k: nat, n: nat) returns (i: nat)
    requires k < n <= |rows|
    ensures LastOf(rows, i, n) && rows[i].id == rows[k].id
    decreases n
  {
    if rows[n - 1].id == rows[k].id {
      i := n - 1;
    } else {
      i := LastOccurrence(rows, k, n - 1);
    }
  }

  /** Exactly the other exams' items and the incoming ones, each under its own key. */
  lemma {:induction false} ItemsReplaced(items: ItemTable, rows: seq<Item>)
    requires InsertItems(items, rows).Some?
    ensures var after := InsertItems(items, rows).value;
      && (forall i :: i in after <==> i in items || exists r :: r in rows && r.id == i)
      && (forall r :: r in rows ==> r.id in after && after[r.id] == r && r.id !in items)
      && (forall i :: i in items ==> i in after && after[i] == items[i])
    ensures forall i, j :: 0 <= i < j < |rows| ==> rows[i].id != rows[j].id
  {
    if rows != [] {
      var front, last := rows[..|rows| - 1], rows[|rows| - 1];
      assert rows == front + [last];
      ItemsReplaced(items, front);
      var before, after := InsertItems(items, front).value, InsertItems(items, rows).value;
      forall i ensures i in after <==> i in items || exists r :: r in rows && r.id == i {
        if i in after && i !in items {
          if i == last.id {
            assert last in rows;
          } else {
            var r :| r in front && r.id == i;
            assert r in rows;
          }
        }
      }
      forall i, j | 0 <= i < j < |rows| ensures rows[i].id != rows[j].id {
        if j == |front| {
          assert front[i] in front;
        }
      }
    }
  }

  /** Updating keeps every row but the incoming retained ones; of repeated ones the last decides, and counters stay. */
  lemma {:induction false} RetainedUpdated(ps: Roster, existing: set<Id>, rows: seq<Participant>, k: Id)
    requires existing <= ps.Keys && UpdateRetained(ps, existing, rows).Some?
    ensures var after := UpdateRetained(ps, existing, rows).value;
      && after.Keys == ps.Keys
      && (k in ps && k !in Kept(rows) * existing ==> after[k] == ps[k])
      && (k in ps ==> Renewed(after[k], ps[k]) == ps[k])
      && (forall i :: LastOf(rows, i, |rows|) && rows[i].id == k && k in existing ==> after[k] == Renewed(ps[k], rows[i]))
  {
    if rows != [] {
      var front, last := rows[..|rows| - 1], rows[|rows| - 1];
      assert rows == front + [last];
      RetainedUpdated(ps, existing, front, k);
      assert Kept(rows) == Kept(front) + {last.id};
      forall i | LastOf(rows, i, |rows|) && i < |front| ensures LastOf(front, i, |front|) && rows[i].id != last.id {
        assert rows[|rows| - 1].id != rows[i].id;
        assert forall l :: i < l < |front| ==> front[l].id == rows[l].id;
      }
    }
  }

  /** The last row of an insertion goes in under a free key. */
  lemma InsertNext(ps: Roster, front: seq<Participant>, last: Participant)
    requires InsertNew(ps, front + [last]).Some?
    ensures InsertNew(ps, front).Some? && last.id !in InsertNew(ps, front).value
    ensures InsertNew(ps, front + [last]).value == InsertNew(ps, front).value[last.id := last]
  {
    assert (front + [last])[..|front|] == front;
  }

  /** Inserting adds exactly the new rows. */
  lemma {:induction false} NewInserted(ps: Roster, rows: seq<Participant>)
    requires InsertNew(ps, rows).Some?
    ensures var after := InsertNew(ps, rows).value;
      && (forall k :: k in after <==> k in ps || k in Kept(rows))
      && (forall k :: k in ps ==> after[k] == ps[k])
      && (forall r :: r in rows ==> r.id in after && after[r.id] == r && r.id !in ps)
  {
    if rows == [] {
      assert InsertNew(ps, rows) == Some(ps);
      hide *;
      KeptNext([], []);
    } else {
      hide *;
      var front, last := rows[..|rows| - 1], rows[|rows| - 1];
      assert rows == front + [last];
      InsertNext(ps, front, last);
      NewInserted(ps, front);
      KeptNext(front, [last]);
      var before, after := InsertNew(ps, front).value, InsertNew(ps, rows).value;
      assert after == before[last.id := last];
      forall r | r in rows ensures r.id in after && after[r.id] == r && r.id !in ps {
        if r != last {
          assert r in front && r.id in before && r.id != last.id;
        }
      }
    }
  }

  lemma KeptNext(front: seq<Participant>, more: seq<Participant>)
    requires |more| <= 1
    ensures Kept(front + more) == Kept(front) + (if more == [] then {} else {more[0].id}) && Kept([]) == {}
  {
  }

  lemma {:induction false} NewOnesAre(existing: set<Id>, rows: seq<Participant>, r: Participant)
    ensures r in NewOnes(existing, rows) <==> r in rows && r.id !in existing
  {
    if rows != [] {
      NewOnesAre(existing, rows[..|rows| - 1], r);
      assert rows == rows[..|rows| - 1] + [rows[|rows| - 1]];
    }
  }

  lemma NewKeyFree(ps: Roster, front: seq<Participant>, last: Participant)
    requires InsertNew(ps, front + [last]).Some?
    ensures InsertNew(ps, front).Some? && forall r :: r in front ==> r.id != last.id
  {
    assert (front + [last])[..|front|] == front;
    NewInserted(ps, front);
  }

  /** Only a retained participant can be listed twice: a second new row finds its key taken. */
  lemma {:induction false} NewIdsOnce(ps: Roster, existing: set<Id>, rows: seq<Participant>)
    requires InsertNew(ps, NewOnes(existing, rows)).Some?
    ensures forall i, j :: 0 <= i < j < |rows| && rows[i].id == rows[j].id ==> rows[i].id in existing
  {
    if rows != [] {
      hide InsertNew;
      var front, last := rows[..|rows| - 1], rows[|rows| - 1];
      var before := NewOnes(existing, front);
      if last.id in existing {
        assert NewOnes(existing, rows) == before;
      } else {
        NewKeyFree(ps, before, last);
        forall i | 0 <= i < |front| && last.id !in existing && front[i].id !in existing ensures front[i].id != last.id {
          NewOnesAre(existing, front, front[i]);
        }
      }
      NewIdsOnce(ps, existing, front);
      assert forall i :: 0 <= i < |front| ==> front[i] == rows[i];
    }
  }

  /** The row a bundle's participant becomes: its old counters with the new names, or the row as it came. */
  function Reconciled(ps: Roster, existing: set<Id>, r: Participant): Participant
    requires existing <= ps.Keys
  {
    if r.id in existing then Renewed(ps[r.id], r) else r
  }

  /**
    The roster is the other exams' rows and exactly the incoming participants, reconciled; of a participant listed
    more than once, which only a retained one can be, the last row decides.
   */
  lemma RosterReplaced(ps: Roster, e: Id, rows: seq<Participant>)
    requires ReplaceRoster(ps, e, rows).Some?
    ensures var (after, existing) := (ReplaceRoster(ps, e, rows).value, Existing(ps, e));
      && (forall k :: k in after <==> (k in ps && ps[k].examId != e) || k in Kept(rows))
      && (forall k :: k in ps && ps[k].examId != e ==> k !in Kept(rows) && after[k] == ps[k])
      && (forall i :: LastOf(rows, i, |rows|) ==> rows[i].id in after && after[rows[i].id] == Reconciled(ps, existing, rows[i]))
      && (forall i, j :: 0 <= i < j < |rows| && rows[i].id == rows[j].id ==> rows[i].id in existing)
  {
    hide UpdateRetained, InsertNew, NewOnes, Renewed;
    var existing := Existing(ps, e);
    var updated := UpdateRetained(ps, existing, rows).value;
    var kept := WithoutStale(updated, existing, Kept(rows));
    var fresh' := NewOnes(existing, rows);
    var after := InsertNew(kept, fresh').value;
    NewInserted(kept, fresh');
    NewIdsOnce(kept, existing, rows);
    RetainedUpdated(ps, existing, rows, e);
    forall k ensures k in Kept(fresh') <==> k in Kept(rows) && k !in existing {
      if k in Kept(fresh') {
        var r :| r in fresh' && r.id == k;
        NewOnesAre(existing, rows, r);
      } else if k in Kept(rows) && k !in existing {
        var r :| r in rows && r.id == k;
        NewOnesAre(existing, rows, r);
      }
    }
    forall k | k in ps && ps[k].examId != e ensures k in after && after[k] == ps[k] && k !in Kept(rows) {
      RetainedUpdated(ps, existing, rows, k);
      assert k !in existing && k in kept;
      assert forall r :: r in fresh' ==> r.id !in kept;
    }
    forall i | LastOf(rows, i, |rows|)
      ensures rows[i].id in after && after[rows[i].id] == Reconciled(ps, existing, rows[i])
    {
      var r := rows[i];
      RetainedUpdated(ps, existing, rows, r.id);
      NewOnesAre(existing, rows, r);
      assert r in rows && r.id in Kept(rows);
    }
  }

  /** The row is the bundle's, or the exam's own old row with the bundle's names and code. */
  predicate TakesOver(ps: Roster, e: Id, r: Participant, after: Participant) {
    if r.id in ps && ps[r.id].examId == e
    then after == ps[r.id].(studentId := r.studentId, studentName := r.studentName, accessCode := r.accessCode)
    else after == r
  }

  lemma RowsTakeOver(ps: Roster, e: Id, rows: seq<Participant>)
    requires ReplaceRoster(ps, e, rows).Some?
    ensures var after := ReplaceRoster(ps, e, rows).value;
      forall i :: LastOf(rows, i, |rows|) ==> rows[i].id in after && TakesOver(ps, e, rows[i], after[rows[i].id])
  {
    hide ReplaceRoster;
    RosterReplaced(ps, e, rows);
  }

  /** On success the exam has exactly the incoming items and roster, and nothing of any other exam is touched. */
  lemma BundleReplaced(db: Database, exam: Exam, items: seq<Item>, rows: seq<Participant>)
    requires ReplaceBundle(db, exam, items, rows).Some?
    requires forall i :: i in items ==> i.examId == exam.id
    requires forall r :: r in rows ==> r.examId == exam.id
    ensures var after := ReplaceBundle(db, exam, items, rows).value;
      && after.exams == db.exams[exam.id := exam]
      && (forall i :: i in after.items <==> (i in db.items && db.items[i].examId != exam.id) || exists r :: r in items && r.id == i)
      && (forall i :: i in db.items && db.items[i].examId != exam.id ==> after.items[i] == db.items[i])
      && (forall r :: r in items ==> after.items[r.id] == r)
      && (forall k :: k in after.participants <==> (k in db.participants && db.participants[k].examId != exam.id) || k in Kept(rows))
      && (forall k :: k in db.participants && db.participants[k].examId != exam.id ==> after.participants[k] == db.participants[k])
      && (forall i :: LastOf(rows, i, |rows|) ==>
            rows[i].id in after.participants
            && TakesOver(db.participants, exam.id, rows[i], after.participants[rows[i].id]))
      && after == db.(exams := after.exams, items := after.items, participants := after.participants)
  {
    hide InsertItems, ReplaceRoster, Reconciled, Kept, LastOf, TakesOver;
    ItemsReplaced(OtherItems(db.items, exam.id), items);
    RosterReplaced(db.participants, exam.id, rows);
    RowsTakeOver(db.participants, exam.id, rows);
  }

  // ---- When a first load succeeds ----

  /** No two rows share a key, and none is taken. */
  ghost predicate ItemsFit(items: ItemTable, rows: seq<Item>) {
    && (forall i :: 0 <= i < |rows| ==> rows[i].id !in items)
    && (forall i, j :: 0 <= i < j < |rows| ==> rows[i].id != rows[j].id)
  }

  predicate Apart(a: Participant, b: Participant) {
    a.id != b.id && a.accessCode != b.accessCode && (a.examId != b.examId || a.studentId != b.studentId)
  }

  /** The row shares no identifier, code or student of its exam with a stored one. */
  ghost predicate Unseen(ps: Roster, r: Participant) {
    r.id !in ps && forall k :: k in ps ==> ps[k].accessCode != r.accessCode && (ps[k].examId != r.examId || ps[k].studentId != r.studentId)
  }

  ghost predicate RowsFit(ps: Roster, rows: seq<Participant>) {
    && (forall i :: 0 <= i < |rows| ==> Unseen(ps, rows[i]))
    && (forall i, j :: 0 <= i < j < |rows| ==> Apart(rows[i], rows[j]))
  }

  lemma ItemFitsIff(items: ItemTable, front: seq<Item>, last: Item)
    requires InsertItems(items, front).Some?
    ensures last.id !in InsertItems(items, front).value <==>
            last.id !in items && forall i :: 0 <= i < |front| ==> front[i].id != last.id
  {
    hide InsertItems;
    ItemsReplaced(items, front);
    forall i | 0 <= i < |front| ensures front[i].id in InsertItems(items, front).value {
      assert front[i] in front;
    }
  }

  lemma {:induction false} ItemsFitIff(items: ItemTable, rows: seq<Item>)
    ensures InsertItems(items, rows).Some? <==> ItemsFit(items, rows)
  {
    if rows != [] {
      var front, last := rows[..|rows| - 1], rows[|rows| - 1];
      ItemsFitIff(items, front);
      assert forall i :: 0 <= i < |front| ==> rows[i] == front[i];
      if InsertItems(items, front).Some? {
        ItemFitsIff(items, front, last);
      }
    }
  }

  /** After the first rows went in, another one fits exactly when it fits with each of them and with what was there. */
  lemma InsertOneIff(ps: Roster, front: seq<Participant>, r: Participant)
    requires InsertNew(ps, front).Some?
    ensures InsertOne(InsertNew(ps, front).value, r).Some? <==>
            Unseen(ps, r) && forall i :: 0 <= i < |front| ==> Apart(front[i], r)
  {
    hide InsertNew;
    NewInserted(ps, front);
    var st := InsertNew(ps, front).value;
    forall i | 0 <= i < |front| ensures front[i].id in st && st[front[i].id] == front[i] {
      assert front[i] in front;
    }
    forall k | k in st ensures k in ps || exists i :: 0 <= i < |front| && front[i].id == k && front[i] == st[k] {
      if k !in ps {
        var p :| p in front && p.id == k;
      }
    }
    assert forall k :: k in ps ==> st[k] == ps[k];
  }

  lemma {:induction false} RowsFitIff(ps: Roster, rows: seq<Participant>)
    ensures InsertNew(ps, rows).Some? <==> RowsFit(ps, rows)
  {
    hide Unseen, Apart, InsertOne;
    if rows != [] {
      var front, last := rows[..|rows| - 1], rows[|rows| - 1];
      RowsFitIff(ps, front);
      assert forall i :: 0 <= i < |front| ==> rows[i] == front[i];
      if InsertNew(ps, front).Some? {
        InsertOneIff(ps, front, last);
      }
    }
  }

  lemma {:induction false} AllNew(ps: Roster, rows: seq<Participant>)
    ensures UpdateRetained(ps, {}, rows) == Some(ps) && NewOnes({}, rows) == rows
  {
    if rows != [] {
      AllNew(ps, rows[..|rows| - 1]);
      assert rows == rows[..|rows| - 1] + [rows[|rows| - 1]];
    }
  }

  /** A bundle of an exam without a roster is stored exactly when every key in it is new and used once. */
  lemma FirstLoadIff(db: Database, exam: Exam, items: seq<Item>, rows: seq<Participant>)
    requires forall k :: k in db.participants ==> db.participants[k].examId != exam.id
    ensures ReplaceBundle(db, exam, items, rows).Some? <==>
      && (forall i :: 0 <= i < |items| ==> items[i].id !in db.items || db.items[items[i].id].examId == exam.id)
      && (forall i, j :: 0 <= i < j < |items| ==> items[i].id != items[j].id)
      && RowsFit(db.participants, rows)
  {
    hide InsertItems, UpdateRetained, InsertNew, NewOnes, RowsFit;
    var ps := db.participants;
    ItemsFitIff(OtherItems(db.items, exam.id), items);
    assert Existing(ps, exam.id) == {};
    AllNew(ps, rows);
    assert WithoutStale(ps, {}, Kept(rows)) == ps;
    RowsFitIff(ps, rows);
  }

  // ---- Keys ----

  ghost predicate RosterKeys(ps: Roster) {
    KeyedParticipants(ps) && StudentsUnique(ps) && CodesUnique(ps)
  }

  /** Writing one row that clashes with no other keeps the unique keys. */
  lemma WriteKeepsKeys(ps: Roster, k: Id, p: Participant)
    requires RosterKeys(ps) && p.id == k && !Clashes(ps, k, p.examId, p.studentId, p.accessCode)
    ensures RosterKeys(ps[k := p])
  {
    var after := ps[k := p];
    forall e, st, a, b | RosterModel.IsStudent(after, e, st, a) && RosterModel.IsStudent(after, e, st, b) ensures a == b {
      assert a != k ==> RosterModel.IsStudent(ps, e, st, a);
      assert b != k ==> RosterModel.IsStudent(ps, e, st, b);
    }
    forall code, a, b | HasCode(after, code, a) && HasCode(after, code, b) ensures a == b {
      assert a != k ==> HasCode(ps, code, a);
      assert b != k ==> HasCode(ps, code, b);
    }
  }

  lemma {:induction false} UpdatesKeepKeys(ps: Roster, existing: set<Id>, rows: seq<Participant>)
    requires RosterKeys(ps) && UpdateRetained(ps, existing, rows).Some?
    ensures RosterKeys(UpdateRetained(ps, existing, rows).value)
  {
    hide RosterKeys, Clashes;
    if rows != [] {
      var front, last := rows[..|rows| - 1], rows[|rows| - 1];
      UpdatesKeepKeys(ps, existing, front);
      var before := UpdateRetained(ps, existing, front).value;
      if last.id in existing && last.id in before {
        KeyOf(before, last.id);
        WriteKeepsKeys(before, last.id, Renewed(before[last.id], last));
      }
    }
  }

  lemma KeyOf(ps: Roster, k: Id)
    requires RosterKeys(ps) && k in ps
    ensures ps[k].id == k
  {
  }

  lemma {:induction false} InsertsKeepKeys(ps: Roster, rows: seq<Participant>)
    requires RosterKeys(ps) && InsertNew(ps, rows).Some?
    ensures RosterKeys(InsertNew(ps, rows).value)
  {
    hide RosterKeys, Clashes;
    if rows != [] {
      InsertsKeepKeys(ps, rows[..|rows| - 1]);
      WriteKeepsKeys(InsertNew(ps, rows[..|rows| - 1]).value, rows[|rows| - 1].id, rows[|rows| - 1]);
    }
  }

  lemma FewerKeepKeys(ps: Roster, existing: set<Id>, kept: set<Id>)
    requires RosterKeys(ps)
    ensures RosterKeys(WithoutStale(ps, existing, kept))
  {
    var after := WithoutStale(ps, existing, kept);
    forall e, st, a, b | RosterModel.IsStudent(after, e, st, a) && RosterModel.IsStudent(after, e, st, b) ensures a == b {
      assert RosterModel.IsStudent(ps, e, st, a) && RosterModel.IsStudent(ps, e, st, b);
    }
    forall code, a, b | HasCode(after, code, a) && HasCode(after, code, b) ensures a == b {
      assert HasCode(ps, code, a) && HasCode(ps, code, b);
    }
  }

  lemma ReplaceKeepsKeys(ps: Roster, e: Id, rows: seq<Participant>)
    requires RosterKeys(ps) && ReplaceRoster(ps, e, rows).Some?
    ensures RosterKeys(ReplaceRoster(ps, e, rows).value)
  {
    hide RosterKeys, UpdateRetained, InsertNew, WithoutStale, NewOnes;
    var existing := Existing(ps, e);
    UpdatesKeepKeys(ps, existing, rows);
    var updated := UpdateRetained(ps, existing, rows).value;
    FewerKeepKeys(updated, existing, Kept(rows));
    InsertsKeepKeys(WithoutStale(updated, existing, Kept(rows)), NewOnes(existing, rows));
  }
}
