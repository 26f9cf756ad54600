/**
  Loading the same bundle a second time: exactly when it succeeds, and that it then changes nothing. A bundle
  that lists a participant twice writes an outdated row on the way, which may clash.
 */
module BundleReload {
  import opened Common
  import opened Entities
  import opened BundleModel
  import opened ContentHash
  import opened RosterInvariant
  import RosterModel

  type Participants = seq<Participant>

  /** Row `j` holds its participant's columns when a second load writes row `i`. */
  ghost predicate HeldAt(rows: Participants, j: int, i: int) {
    if j < i then LastOf(rows, j, i)
    else LastOf(rows, j, |rows|) && forall l :: 0 <= l < i <= |rows| ==> rows[l].id != rows[j].id
  }

  predicate Conflict(a: Participant, b: Participant) {
    a.id != b.id && (a.accessCode == b.accessCode || a.studentId == b.studentId)
  }

  /** Row `i` takes the code or the student another participant holds when a second load writes it. */
  ghost predicate CollidesAt(rows: Participants, i: int) {
    0 <= i < |rows| && exists j :: HeldAt(rows, j, i) && Conflict(rows[i], rows[j])
  }

  ghost predicate Collides(rows: Participants) {
    exists i :: CollidesAt(rows, i)
  }

  lemma LastHolds(rows: Participants, k: nat, i: nat) returns (j: nat)
    requires k < |rows| && i <= |rows|
    ensures HeldAt(rows, j, i) && j < |rows| && rows[j].id == rows[k].id
  {
    if l :| 0 <= l < i && rows[l].id == rows[k].id {
      j := LastOccurrence(rows, l, i);
    } else {
      j := LastOccurrence(rows, k, |rows|);
    }
  }

  /** What a first load left, as far as a second one depends on it. */
  ghost predicate Loaded(after: Roster, e: Id, rows: Participants) {
    && (forall k :: k in Kept(rows) ==> k in after && after[k].examId == e)
    && (forall k, i :: k in after && k !in Kept(rows) && 0 <= i < |rows| ==>
          after[k].examId != e && after[k].accessCode != rows[i].accessCode)
    && (forall i :: LastOf(rows, i, |rows|) ==> rows[i].id in after && Renewed(after[rows[i].id], rows[i]) == after[rows[i].id])
  }

  /** The tables while a second load has written the first `n` rows. */
  ghost predicate Midway(after: Roster, st: Roster, rows: Participants, n: nat) {
    && n <= |rows| && st.Keys == after.Keys
    && (forall k :: k in after ==> st[k].examId == after[k].examId)
    && (forall k :: k in after && k !in Kept(rows) ==> st[k] == after[k])
    && (forall j :: HeldAt(rows, j, n) ==> rows[j].id in after && st[rows[j].id] == Renewed(after[rows[j].id], rows[j]))
  }

  /** Halfway through, a row clashes exactly when it collides with a row held then. */
  lemma ClashIffCollides(after: Roster, st: Roster, e: Id, rows: Participants, n: nat)
    requires Loaded(after, e, rows) && Midway(after, st, rows, n) && n < |rows|
    ensures Clashes(st, rows[n].id, e, rows[n].studentId, rows[n].accessCode) <==> CollidesAt(rows, n)
  {
    var r := rows[n];
    if l :| l in st && l != r.id && (st[l].accessCode == r.accessCode || (st[l].examId == e && st[l].studentId == r.studentId)) {
      assert l in Kept(rows);
      var k :| 0 <= k < |rows| && rows[k].id == l;
      var j := LastHolds(rows, k, n);
      assert HeldAt(rows, j, n) && Conflict(r, rows[j]);
    }
    if j :| HeldAt(rows, j, n) && Conflict(r, rows[j]) {
      assert rows[j].id in Kept(rows);
      assert rows[j].id in st && st[rows[j].id].accessCode == rows[j].accessCode;
    }
  }

  /** Writing one more row that clashes with nothing. */
  lemma MidwayNext(after: Roster, st: Roster, e: Id, rows: Participants, n: nat)
    requires Loaded(after, e, rows) && Midway(after, st, rows, n) && n < |rows| && rows[n].id in st
    ensures Midway(after, st[rows[n].id := Renewed(st[rows[n].id], rows[n])], rows, n + 1)
  {
    var next := st[rows[n].id := Renewed(st[rows[n].id], rows[n])];
    assert rows[n].id in Kept(rows);
    var held := LastHolds(rows, n, n);
    assert st[rows[n].id] == Renewed(after[rows[n].id], rows[held]);
    forall j | HeldAt(rows, j, n + 1)
      ensures rows[j].id in after && next[rows[j].id] == Renewed(after[rows[j].id], rows[j])
    {
      if rows[j].id != rows[n].id {
        assert HeldAt(rows, j, n);
      } else {
        assert j == n;
      }
    }
  }

  /** A second load gets past its first `n` rows exactly when none of them collides. */
  lemma {:induction false} SecondUpdates(after: Roster, e: Id, rows: Participants, n: nat)
    requires Loaded(after, e, rows) && n <= |rows|
    ensures var r := UpdateRetained(after, Kept(rows), rows[..n]);
      && (r.None? <==> exists i :: i < n && CollidesAt(rows, i))
      && (r.Some? ==> Midway(after, r.value, rows, n))
    decreases n
  {
    hide Loaded, Midway, CollidesAt;
    if n == 0 {
      NothingWritten(after, e, rows);
    } else {
      var m := n - 1;
      SecondUpdates(after, e, rows, m);
      assert rows[..n][..m] == rows[..m] && rows[..n][m] == rows[m];
      assert rows[m] in rows && rows[m].id in Kept(rows);
      var r := UpdateRetained(after, Kept(rows), rows[..m]);
      if r.Some? {
        WrittenRow(after, r.value, e, rows, m);
        ClashIffCollides(after, r.value, e, rows, m);
        MidwayNext(after, r.value, e, rows, m);
        assert UpdateRetained(after, Kept(rows), rows[..n]) == UpdateOne(r.value, rows[m]);
        if CollidesAt(rows, m) {
          assert m < n;
        }
      } else {
        var i :| i < m && CollidesAt(rows, i);
        assert i < n;
      }
    }
  }

  lemma WrittenRow(after: Roster, st: Roster, e: Id, rows: Participants, m: nat)
    requires Loaded(after, e, rows) && Midway(after, st, rows, m) && m < |rows|
    ensures rows[m].id in st && st[rows[m].id].examId == e
  {
    assert rows[m].id in Kept(rows);
  }

  lemma NothingWritten(after: Roster, e: Id, rows: Participants)
    requires Loaded(after, e, rows)
    ensures Midway(after, after, rows, 0) && forall i :: CollidesAt(rows, i) ==> i >= 0
  {
  }

  /** All written, every participant holds its last row again. */
  lemma AllWritten(after: Roster, st: Roster, e: Id, rows: Participants)
    requires Loaded(after, e, rows) && Midway(after, st, rows, |rows|)
    ensures st == after
  {
    forall k | k in after ensures st[k] == after[k] {
      if k in Kept(rows) {
        var i :| 0 <= i < |rows| && rows[i].id == k;
        var j := LastOccurrence(rows, i, |rows|);
        assert HeldAt(rows, j, |rows|);
      }
    }
  }

  // ---- What the first load left ----

  /** A row that went in shares no code with another exam's participant. */
  lemma OtherCodes(ps: Roster, e: Id, rows: Participants, k: Id, i: nat)
    requires RosterKeys(ps) && ReplaceRoster(ps, e, rows).Some? && (forall r :: r in rows ==> r.examId == e)
    requires k in ps && ps[k].examId != e && i < |rows|
    ensures ps[k].accessCode != rows[i].accessCode
  {
    hide UpdateRetained, InsertNew, RosterKeys, NewOnes;
    var existing, r := Existing(ps, e), rows[i];
    assert r in rows;
    if r.id in existing {
      UpdatedCode(ps, existing, rows, k, i);
    } else {
      var after := ReplaceRoster(ps, e, rows).value;
      ReplaceKeepsKeys(ps, e, rows);
      var j := LastOccurrence(rows, i, |rows|);
      RosterReplaced(ps, e, rows);
      assert j == i;
      assert after[r.id] == r && k in after && after[k] == ps[k];
      CodesDiffer(after, k, r.id);
    }
  }

  lemma CodesDiffer(ps: Roster, k: Id, l: Id)
    requires RosterKeys(ps) && k in ps && l in ps && k != l
    ensures ps[k].accessCode != ps[l].accessCode
  {
    assert HasCode(ps, ps[k].accessCode, k) && HasCode(ps, ps[l].accessCode, l);
  }

  lemma UpdatedCode(ps: Roster, existing: set<Id>, rows: Participants, k: Id, i: nat)
    requires UpdateRetained(ps, existing, rows).Some? && existing <= ps.Keys && k in ps && k !in existing
    requires i < |rows| && rows[i].id in existing
    ensures ps[k].accessCode != rows[i].accessCode
  {
    if UpdateRetained(ps, existing, rows[..i + 1]).None? {
      UpdatesStop(ps, existing, rows, i);
    }
    assert rows[..i + 1][..i] == rows[..i] && rows[..i + 1][i] == rows[i];
    RetainedUpdated(ps, existing, rows[..i], k);
    var before := UpdateRetained(ps, existing, rows[..i]).value;
    assert UpdateOne(before, rows[i]).Some? && rows[i].id in before;
    assert before[k] == ps[k];
  }

  lemma FirstLoad(ps: Roster, e: Id, rows: Participants)
    requires RosterKeys(ps) && (forall r :: r in rows ==> r.examId == e) && ReplaceRoster(ps, e, rows).Some?
    ensures var after := ReplaceRoster(ps, e, rows).value;
      Loaded(after, e, rows) && Existing(after, e) == Kept(rows)
  {
    hide ReplaceRoster, RosterKeys;
    RosterReplaced(ps, e, rows);
    var after := ReplaceRoster(ps, e, rows).value;
    forall k | k in Kept(rows) ensures k in after && after[k].examId == e {
      var i :| 0 <= i < |rows| && rows[i].id == k;
      var j := LastOccurrence(rows, i, |rows|);
      assert rows[j] in rows && after[k] == Reconciled(ps, Existing(ps, e), rows[j]);
    }
    forall i | LastOf(rows, i, |rows|) ensures Renewed(after[rows[i].id], rows[i]) == after[rows[i].id] {
      assert after[rows[i].id] == Reconciled(ps, Existing(ps, e), rows[i]);
    }
    forall k, i | k in after && k !in Kept(rows) && 0 <= i < |rows|
      ensures after[k].examId != e && after[k].accessCode != rows[i].accessCode
    {
      OtherCodes(ps, e, rows, k, i);
    }
    forall k | k in Existing(after, e) ensures k in Kept(rows) {
      assert k in after;
    }
  }

  // ---- The second load ----

  lemma {:induction false} NoneAreNew(existing: set<Id>, rows: Participants)
    requires forall r :: r in rows ==> r.id in existing
    ensures NewOnes(existing, rows) == []
  {
    if rows != [] {
      NoneAreNew(existing, rows[..|rows| - 1]);
    }
  }

  /** Replacing a roster by the one just loaded fails exactly when a row collides, and otherwise changes nothing. */
  lemma RosterReloads(ps: Roster, e: Id, rows: Participants)
    requires RosterKeys(ps) && (forall r :: r in rows ==> r.examId == e) && ReplaceRoster(ps, e, rows).Some?
    ensures var after := ReplaceRoster(ps, e, rows).value;
      ReplaceRoster(after, e, rows) == if Collides(rows) then None else Some(after)
  {
    hide RosterKeys, UpdateRetained, NewOnes, CollidesAt, Loaded, Midway;
    var after := ReplaceRoster(ps, e, rows).value;
    FirstLoad(ps, e, rows);
    SecondUpdates(after, e, rows, |rows|);
    assert rows[..|rows|] == rows;
    forall i | CollidesAt(rows, i) ensures i < |rows| {
      InRange(rows, i);
    }
    if !Collides(rows) {
      AllWritten(after, UpdateRetained(after, Kept(rows), rows).value, e, rows);
      NoneAreNew(Kept(rows), rows);
      assert WithoutStale(after, Kept(rows), Kept(rows)) == after;
    }
  }

  lemma InRange(rows: Participants, i: int)
    requires CollidesAt(rows, i)
    ensures 0 <= i < |rows|
  {
  }

  /** Loading the same bundle twice leaves what loading it once leaves, unless a row collides: then the second load fails. */
  lemma ReplaceReloads(db: Database, exam: Exam, items: seq<Item>, rows: Participants)
    requires RosterKeys(db.participants)
    requires forall i :: i in items ==> i.examId == exam.id
    requires forall r :: r in rows ==> r.examId == exam.id
    requires ReplaceBundle(db, exam, items, rows).Some?
    ensures var after := ReplaceBundle(db, exam, items, rows).value;
      ReplaceBundle(after, exam, items, rows) == if Collides(rows) then None else Some(after)
  {
    hide RosterKeys, InsertItems, ReplaceRoster, Collides;
    RosterReloads(db.participants, exam.id, rows);
    var other := OtherItems(db.items, exam.id);
    ItemsReplaced(other, items);
    var after := ReplaceBundle(db, exam, items, rows).value;
    forall i | i in after.items && i !in other ensures after.items[i].examId == exam.id {
      var r :| r in items && r.id == i;
    }
    assert OtherItems(after.items, exam.id) == other;
    assert after.exams[exam.id := exam] == after.exams;
  }

  /** A roster that loads and lists no participant twice never collides. */
  lemma DistinctNeverCollides(ps: Roster, e: Id, rows: Participants)
    requires RosterKeys(ps) && DistinctRows(rows) && (forall r :: r in rows ==> r.examId == e)
    requires ReplaceRoster(ps, e, rows).Some?
    ensures !Collides(rows)
  {
    hide ReplaceRoster, RosterKeys, Renewed;
    var after := ReplaceRoster(ps, e, rows).value;
    RosterReplaced(ps, e, rows);
    ReplaceKeepsKeys(ps, e, rows);
    forall i, j | 0 <= i < |rows| && HeldAt(rows, j, i) ensures !Conflict(rows[i], rows[j]) {
      assert LastOf(rows, i, |rows|) && LastOf(rows, j, |rows|);
      if rows[i].id != rows[j].id {
        LoadedDiffer(ps, e, after, rows, i, j);
      }
    }
  }

  lemma LoadedDiffer(ps: Roster, e: Id, after: Roster, rows: Participants, i: int, j: int)
    requires RosterKeys(after) && LastOf(rows, i, |rows|) && LastOf(rows, j, |rows|) && rows[i].id != rows[j].id
    requires rows[i].examId == e && rows[j].examId == e
    requires rows[i].id in after && after[rows[i].id] == Reconciled(ps, Existing(ps, e), rows[i])
    requires rows[j].id in after && after[rows[j].id] == Reconciled(ps, Existing(ps, e), rows[j])
    ensures !Conflict(rows[i], rows[j])
  {
    var k, l := rows[i].id, rows[j].id;
    CodesDiffer(after, k, l);
    assert RosterModel.IsStudent(after, e, rows[i].studentId, k);
    assert rows[i].studentId == rows[j].studentId ==> RosterModel.IsStudent(after, e, rows[i].studentId, l);
  }

  // ---- A bundle that loads once ----

  function Row(id: Id, student: Id, code: string): Participant {
    Participant(id, "e", "", student, "", code, 0, 0, None)
  }

  /** One retained participant listed twice beside a new one that takes the outdated code: the second load fails. */
  lemma LoadsOnce()
    ensures var (ps, rows) := (map["p" := Row("p", "s", "C")], [Row("p", "s", "A"), Row("p", "s", "B"), Row("q", "t", "A")]);
      RosterKeys(ps) && ReplaceRoster(ps, "e", rows).Some?
      && ReplaceRoster(ReplaceRoster(ps, "e", rows).value, "e", rows).None?
  {
    var p, a, b, q := Row("p", "s", "C"), Row("p", "s", "A"), Row("p", "s", "B"), Row("q", "t", "A");
    var ps, rows := map["p" := p], [a, b, q];
    assert RosterKeys(ps);
    FirstLoadsOf(p, a, b, q);
    assert CollidesAt(rows, 0) by {
      assert LastOf(rows, 2, 3) && HeldAt(rows, 2, 0) && Conflict(rows[0], rows[2]);
    }
    RosterReloads(ps, "e", rows);
  }

  lemma UpdateSnoc(ps: Roster, existing: set<Id>, front: Participants, last: Participant)
    requires UpdateRetained(ps, existing, front).Some? && last.id in existing
    ensures UpdateRetained(ps, existing, front + [last]) == UpdateOne(UpdateRetained(ps, existing, front).value, last)
  {
    assert (front + [last])[..|front|] == front;
  }

  lemma OnlyRow(a: Participant, b: Participant)
    requires a.id == b.id && a.examId == b.examId
    ensures UpdateOne(map[a.id := a], b) == Some(map[a.id := Renewed(a, b)])
  {
    assert map[a.id := a][a.id := Renewed(a, b)] == map[a.id := Renewed(a, b)];
  }

  lemma FirstLoadsOf(p: Participant, a: Participant, b: Participant, q: Participant)
    requires p == Row("p", "s", "C") && a == Row("p", "s", "A") && b == Row("p", "s", "B") && q == Row("q", "t", "A")
    ensures ReplaceRoster(map["p" := p], "e", [a, b, q]).Some?
  {
    hide Clashes, UpdateOne;
    var ps, rows := map["p" := p], [a, b, q];
    var existing := Existing(ps, "e");
    assert existing == {"p"};
    UpdateSnoc(ps, existing, [], a);
    OnlyRow(p, a);
    UpdateSnoc(ps, existing, [a], b);
    OnlyRow(a, b);
    assert rows[..2] == [a] + [b] && rows[2] == q && [] + [a] == [a];
    assert UpdateRetained(ps, existing, rows) == Some(map["p" := b]);
    NewOfThree(existing, a, b, q);
    assert Kept(rows) == {"p", "q"} by {
      assert rows[0] in rows && q in rows;
    }
    assert WithoutStale(map["p" := b], existing, {"p", "q"}) == map["p" := b];
    InsertOnly(b, q);
  }

  lemma NewOfThree(existing: set<Id>, a: Participant, b: Participant, q: Participant)
    requires a.id in existing && b.id in existing && q.id !in existing
    ensures NewOnes(existing, [a, b, q]) == [q]
  {
    assert [a, b, q][..2] == [a, b] && [a, b][..1] == [a] && [a][..0] == [];
    NoneAreNew(existing, [a, b]);
  }

  lemma InsertOnly(b: Participant, q: Participant)
    requires b.id != q.id && b.accessCode != q.accessCode && b.studentId != q.studentId
    ensures InsertNew(map[b.id := b], [q]).Some?
  {
    assert [q][..0] == [];
  }
}
