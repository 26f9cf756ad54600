/** The hash taken of a bundle before it is stored, against the hash of the rows it leaves. */
module BundleHash {
  import opened Common
  import opened Entities
  import opened BundleModel
  import opened ContentHash
  import opened RosterInvariant
  import opened Sorting
  import Reload = BundleReload

  /** The stored rows of the incoming participants, in bundle order. */
  ghost function StoredRows(ps: Roster, rows: seq<Participant>): seq<Participant>
    requires forall r :: r in rows ==> r.id in ps
  {
    seq(|rows|, i requires 0 <= i < |rows| => ps[rows[i].id])
  }

  lemma StoredItems(items: ItemTable, e: Id, rows: seq<Item>)
    requires KeyedItems(items) && InsertItems(OtherItems(items, e), rows).Some? && forall i :: i in rows ==> i.examId == e
    ensures KeyedItems(InsertItems(OtherItems(items, e), rows).value)
    ensures multiset(rows) == multiset(ItemRows(InsertItems(OtherItems(items, e), rows).value, e))
  {
    hide InsertItems;
    ItemsReplaced(OtherItems(items, e), rows);
    var after := InsertItems(OtherItems(items, e), rows).value;
    forall i | i in after ensures after[i].id == i && (after[i].examId == e ==> after[i] in rows) {
      if i !in OtherItems(items, e) {
        var r :| r in rows && r.id == i;
      }
    }
    forall r | r in rows ensures r in ItemRows(after, e) {
      assert after[r.id] == r;
    }
    ListOfSet(rows, ItemRows(after, e));
  }

  /**
    The incoming roster rows and the stored ones hash alike: a load keeps every hashed column of a retained
    row up to date.
   */
  lemma StoredRoster(ps: Roster, e: Id, rows: seq<Participant>)
    requires RosterKeys(ps) && DistinctRows(rows) && (forall r :: r in rows ==> r.examId == e)
    requires ReplaceRoster(ps, e, rows).Some?
    ensures var after := ReplaceRoster(ps, e, rows).value;
      && (forall r :: r in rows ==> r.id in after)
      && RosterRows(StoredRows(after, rows)) == RosterRows(rows)
      && multiset(StoredRows(after, rows)) == multiset(ParticipantRows(after, e))
  {
    hide ReplaceRoster;
    ReplaceKeepsKeys(ps, e, rows);
    Reload.FirstLoad(ps, e, rows);
    var after := ReplaceRoster(ps, e, rows).value;
    forall i | 0 <= i < |rows| ensures rows[i].id in after && RosterRow(after[rows[i].id]) == RosterRow(rows[i]) {
      assert rows[i] in rows && rows[i].id in Kept(rows);
      assert LastOf(rows, i, |rows|);
    }
    var stored := StoredRows(after, rows);
    forall p | p in ParticipantRows(after, e) ensures p in stored {
      var k :| k in after && after[k].examId == e && after[k] == p;
      assert k in Existing(after, e);
      var i :| 0 <= i < |rows| && rows[i].id == k;
      assert stored[i] == p;
    }
    forall i | 0 <= i < |rows| ensures stored[i] in ParticipantRows(after, e) && stored[i].id == rows[i].id {
      assert rows[i].id in Kept(rows);
    }
    ListOfSet(stored, ParticipantRows(after, e));
  }

  /** Without repeated participants the hash taken of the bundle is the hash of the stored rows. */
  lemma DistinctHashIsStored(db: Database, exam: Exam, items: seq<Item>, rows: seq<Participant>)
    requires KeyedItems(db.items) && RosterKeys(db.participants) && DistinctRows(rows)
    requires forall i :: i in items ==> i.examId == exam.id
    requires forall r :: r in rows ==> r.examId == exam.id
    requires ReplaceBundle(db, exam, items, rows).Some?
    ensures var after := ReplaceBundle(db, exam, items, rows).value;
      StoredView(exam, after.items, after.participants) == View(exam, items, rows)
  {
    hide InsertItems, ReplaceRoster, OtherItems, RosterRows, SortBy, UniqueItems, UniqueParticipants, DistinctRows;
    StoredItems(db.items, exam.id, items);
    ReplaceKeepsKeys(db.participants, exam.id, rows);
    StoredRoster(db.participants, exam.id, rows);
    var after := ReplaceBundle(db, exam, items, rows).value;
    var stored := StoredRows(after.participants, rows);
    UniqueRows(after.items, after.participants, exam.id, items, rows, stored);
    AnyListing(exam, after.items, after.participants, items, stored);
    SameViewIff(exam, exam, items, items, rows, stored);
  }

  lemma UniqueRows(items: ItemTable, ps: Roster, e: Id, xs: seq<Item>, rows: seq<Participant>, stored: seq<Participant>)
    requires KeyedItems(items) && KeyedParticipants(ps) && DistinctRows(rows)
    requires multiset(xs) == multiset(ItemRows(items, e)) && multiset(stored) == multiset(ParticipantRows(ps, e))
    ensures UniqueItems(multiset(xs)) && UniqueParticipants(multiset(rows)) && UniqueParticipants(multiset(stored))
  {
  }

  // ---- A repeated participant is hashed twice and stored once ----

  lemma {:induction false} KeptBound(rows: seq<Participant>)
    ensures |Kept(rows)| <= |rows|
  {
    if rows != [] {
      var front, last := rows[..|rows| - 1], rows[|rows| - 1];
      assert rows == front + [last];
      KeptBound(front);
      assert Kept(rows) == Kept(front) + {last.id};
    }
  }

  lemma RepeatedKept(rows: seq<Participant>, i: nat, j: nat)
    requires i < j < |rows| && rows[i].id == rows[j].id
    ensures |Kept(rows)| < |rows|
  {
    var others := rows[..j] + rows[j + 1..];
    KeptBound(others);
    forall k | k in Kept(rows) ensures k in Kept(others) {
      var l :| 0 <= l < |rows| && rows[l].id == k;
      var at := if l == j then i else if l < j then l else l - 1;
      assert others[at].id == k && others[at] in others;
    }
    SubsetSize(Kept(rows), Kept(others));
  }

  lemma {:induction false} RowsBound(ps: Roster, ids: set<Id>)
    requires ids <= ps.Keys
    ensures |set k | k in ids :: ps[k]| <= |ids|
    decreases ids
  {
    if ids != {} {
      var x :| x in ids;
      RowsBound(ps, ids - {x});
      assert (set k | k in ids :: ps[k]) == (set k | k in ids - {x} :: ps[k]) + {ps[x]};
    }
  }

  lemma StoredCount(ps: Roster, e: Id)
    ensures |ParticipantRows(ps, e)| <= |Existing(ps, e)|
  {
    RowsBound(ps, Existing(ps, e));
    assert ParticipantRows(ps, e) == set k | k in Existing(ps, e) :: ps[k];
  }

  lemma ViewLengths(exam: Exam, items: seq<Item>, rows: seq<Participant>)
    ensures |View(exam, items, rows).participants| == |rows|
  {
  }

  lemma StoredViewLength(exam: Exam, items: ItemTable, ps: Roster)
    ensures |StoredView(exam, items, ps).participants| == |ParticipantRows(ps, exam.id)|
  {
    var xs := Listing(ParticipantRows(ps, exam.id));
    assert |multiset(xs)| == |xs|;
    ViewLengths(exam, Listing(ItemRows(items, exam.id)), xs);
  }

  /**
    After every successful load the hash taken of the bundle is the hash of the stored rows, exactly when the bundle
    lists no participant twice.
   */
  lemma LoadedHashIff(db: Database, exam: Exam, items: seq<Item>, rows: seq<Participant>)
    requires KeyedItems(db.items) && RosterKeys(db.participants)
    requires forall i :: i in items ==> i.examId == exam.id
    requires forall r :: r in rows ==> r.examId == exam.id
    requires ReplaceBundle(db, exam, items, rows).Some?
    ensures var after := ReplaceBundle(db, exam, items, rows).value;
      && KeyedItems(after.items) && RosterKeys(after.participants)
      && (StoredView(exam, after.items, after.participants) == View(exam, items, rows) <==> DistinctRows(rows))
  {
    hide InsertItems, ReplaceRoster, OtherItems, View, StoredView, RosterKeys, KeyedItems;
    StoredItems(db.items, exam.id, items);
    ReplaceKeepsKeys(db.participants, exam.id, rows);
    var after := ReplaceBundle(db, exam, items, rows).value;
    if DistinctRows(rows) {
      DistinctHashIsStored(db, exam, items, rows);
    } else {
      var i, j :| 0 <= i < j < |rows| && rows[i].id == rows[j].id;
      Reload.FirstLoad(db.participants, exam.id, rows);
      RepeatedKept(rows, i, j);
      StoredCount(after.participants, exam.id);
      StoredViewLength(exam, after.items, after.participants);
      ViewLengths(exam, items, rows);
    }
  }

  /** One retained participant listed twice: the load succeeds, and the hash stored with it is not its rows'. */
  lemma RepeatedHashDiffers(exam: Exam, db: Database)
    requires exam.id == "e" && db.items == map[] && db.participants == map["p" := Reload.Row("p", "s", "C")]
    ensures var rows := [Reload.Row("p", "s", "A"), Reload.Row("p", "s", "B")];
      ReplaceBundle(db, exam, [], rows).Some?
      && var after := ReplaceBundle(db, exam, [], rows).value;
         StoredView(exam, after.items, after.participants) != View(exam, [], rows)
  {
    hide View, StoredView;
    var p, a, b := Reload.Row("p", "s", "C"), Reload.Row("p", "s", "A"), Reload.Row("p", "s", "B");
    RepeatedLoads(p, a, b);
    assert OtherItems(db.items, "e") == map[];
    assert RosterKeys(db.participants);
    assert [a, b][0].id == [a, b][1].id;
    LoadedHashIff(db, exam, [], [a, b]);
  }

  lemma RepeatedLoads(p: Participant, a: Participant, b: Participant)
    requires p == Reload.Row("p", "s", "C") && a == Reload.Row("p", "s", "A") && b == Reload.Row("p", "s", "B")
    ensures ReplaceRoster(map["p" := p], "e", [a, b]).Some?
  {
    hide Clashes, UpdateOne;
    var ps := map["p" := p];
    var existing := Existing(ps, "e");
    assert existing == {"p"};
    Reload.UpdateSnoc(ps, existing, [], a);
    Reload.OnlyRow(p, a);
    Reload.UpdateSnoc(ps, existing, [a], b);
    Reload.OnlyRow(a, b);
    assert [a, b] == [a] + [b] && [] + [a] == [a];
    Reload.NoneAreNew(existing, [a, b]);
  }
}
