/**
  Stored answers: the guarded upsert keyed by (attempt, item), and the totals a finalised sitting
  is scored with.
 */
module Answers {
  import opened Common
  import opened Entities
  import opened Sorting

  // ---- The guarded upsert ----

  /** A write is stale when the stored sequence is equal or newer. */
  predicate Stale(stored: Option<Answer>, incoming: Answer) {
    stored.Some? && incoming.clientSeq <= stored.value.clientSeq
  }

  /** The stored row keeps its own primary key; every other column moves only for a newer sequence. */
  function Merge(stored: Answer, incoming: Answer): Answer {
    if incoming.clientSeq > stored.clientSeq then incoming.(id := stored.id) else stored
  }

  /** One attempt's answer rows after an upsert of `incoming`. */
  function Upsert(rows: seq<Answer>, incoming: Answer): seq<Answer> {
    if rows == [] then [incoming]
    else if rows[0].itemId == incoming.itemId then [Merge(rows[0], incoming)] + rows[1..]
    else [rows[0]] + Upsert(rows[1..], incoming)
  }

  function AnswerFor(rows: seq<Answer>, itemId: Id): (r: Option<Answer>)
    ensures r.Some? ==> r.value in rows && r.value.itemId == itemId
    ensures r.None? ==> forall a :: a in rows ==> a.itemId != itemId
  {
    if rows == [] then None
    else if rows[0].itemId == itemId then Some(rows[0])
    else AnswerFor(rows[1..], itemId)
  }

  /** The unique key of the answer table: one row per item of the attempt. */
  ghost predicate OnePerItem(rows: seq<Answer>) {
    forall i, j :: 0 <= i < j < |rows| ==> rows[i].itemId != rows[j].itemId
  }

  /** The upsert replaces the row of its own item, keeps the others, and keeps the key unique. */
  lemma {:induction false} UpsertEffect(rows: seq<Answer>, w: Answer, itemId: Id)
    ensures AnswerFor(Upsert(rows, w), itemId) ==
            if itemId != w.itemId then AnswerFor(rows, itemId)
            else if AnswerFor(rows, itemId).None? then Some(w)
            else Some(Merge(AnswerFor(rows, itemId).value, w))
    ensures forall a :: a in Upsert(rows, w) ==>
      a in rows || a == w || exists b :: b in rows && b.itemId == w.itemId && a == w.(id := b.id)
    ensures OnePerItem(rows) ==> OnePerItem(Upsert(rows, w))
  {
    if rows != [] && rows[0].itemId != w.itemId {
      UpsertEffect(rows[1..], w, itemId);
      UpsertEffect(rows[1..], w, rows[0].itemId);
      var rest := Upsert(rows[1..], w);
      if OnePerItem(rows) {
        forall k | 0 <= k < |rest| ensures rest[k].itemId != rows[0].itemId {
          assert rest[k] in rest;
        }
      }
    }
  }

  /** A stale write changes nothing; a fresh one always changes the rows. */
  lemma {:induction false} UpsertChangesIffFresh(rows: seq<Answer>, w: Answer)
    ensures Upsert(rows, w) == rows <==> Stale(AnswerFor(rows, w.itemId), w)
  {
    if rows != [] {
      if rows[0].itemId == w.itemId {
        assert rows == [rows[0]] + rows[1..];
        assert Upsert(rows, w)[0] == Merge(rows[0], w);
      } else {
        UpsertChangesIffFresh(rows[1..], w);
        assert rows == [rows[0]] + rows[1..];
        assert Upsert(rows, w)[1..] == Upsert(rows[1..], w);
      }
    }
  }

  // ---- Convergence of out-of-order writes ----

  /** The rows after the writes arrive one by one. */
  function UpsertAll(rows: seq<Answer>, writes: seq<Answer>): seq<Answer> {
    if writes == [] then rows else Upsert(UpsertAll(rows, writes[..|writes| - 1]), writes[|writes| - 1])
  }

  /** The rows after the writes arrive one by one on an empty attempt. */
  function Arrive(writes: seq<Answer>): seq<Answer> {
    UpsertAll([], writes)
  }

  /** `w` is the write of its item with the largest client sequence. */
  ghost predicate Newest(writes: seq<Answer>, w: Answer) {
    w in writes && forall v :: v in writes && v.itemId == w.itemId ==> v == w || v.clientSeq < w.clientSeq
  }

  /** What is stored of a write: every column but the primary key of the first insertion. */
  function Content(a: Answer): Answer {
    a.(id := "")
  }

  /** Whatever the arrival order, the stored row is the newest write of its item. */
  lemma {:induction false} ConvergesToNewest(writes: seq<Answer>, w: Answer)
    requires Newest(writes, w)
    ensures AnswerFor(Arrive(writes), w.itemId).Some?
    ensures Content(AnswerFor(Arrive(writes), w.itemId).value) == Content(w)
  {
    var front, last := writes[..|writes| - 1], writes[|writes| - 1];
    assert forall v :: v in front ==> v in writes;
    assert forall v :: v in writes ==> v in front || v == last;
    UpsertEffect(Arrive(front), last, w.itemId);
    if w in front {
      ConvergesToNewest(front, w);
    } else {
      var stored := AnswerFor(Arrive(front), w.itemId);
      if stored.Some? {
        OlderRowsAreOlder(front, w);
      }
    }
  }

  lemma {:induction false} OlderRowsAreOlder(writes: seq<Answer>, w: Answer)
    requires forall v :: v in writes && v.itemId == w.itemId ==> v.clientSeq < w.clientSeq
    ensures AnswerFor(Arrive(writes), w.itemId).Some? ==>
      AnswerFor(Arrive(writes), w.itemId).value.clientSeq < w.clientSeq
  {
    if writes != [] {
      var front, last := writes[..|writes| - 1], writes[|writes| - 1];
      assert last in writes && forall v :: v in front ==> v in writes;
      OlderRowsAreOlder(front, w);
      UpsertEffect(Arrive(front), last, w.itemId);
    }
  }

  /** Two arrival orders of the same writes, with distinct sequences, store the same content. */
  lemma ArrivalOrderIrrelevant(xs: seq<Answer>, ys: seq<Answer>, w: Answer)
    requires multiset(xs) == multiset(ys) && Newest(xs, w)
    ensures AnswerFor(Arrive(xs), w.itemId).Some? && AnswerFor(Arrive(ys), w.itemId).Some?
    ensures Content(AnswerFor(Arrive(xs), w.itemId).value) == Content(AnswerFor(Arrive(ys), w.itemId).value)
  {
    assert w in multiset(ys);
    forall v | v in ys ensures v in xs {
      assert v in multiset(xs);
    }
    ConvergesToNewest(xs, w);
    ConvergesToNewest(ys, w);
  }

  /** A write is reported stale exactly when an equal or larger sequence arrived before it. */
  lemma {:induction false} StaleIffOvertaken(earlier: seq<Answer>, w: Answer)
    ensures Stale(AnswerFor(Arrive(earlier), w.itemId), w) <==>
      exists v :: v in earlier && v.itemId == w.itemId && v.clientSeq >= w.clientSeq
  {
    if earlier != [] {
      var front, last := earlier[..|earlier| - 1], earlier[|earlier| - 1];
      assert earlier == front + [last];
      StaleIffOvertaken(front, w);
      UpsertEffect(Arrive(front), last, w.itemId);
      if last.itemId == w.itemId && AnswerFor(Arrive(front), w.itemId).Some? {
        StaleIffOvertaken(front, last);
      }
      if v :| v in earlier && v.itemId == w.itemId && v.clientSeq >= w.clientSeq {
        assert v in front || v == last;
      }
    }
  }

  // ---- Totals ----

  function Points(a: Answer): int {
    if a.score.Some? then a.score.value else 0
  }

  function Total(rows: seq<Answer>): int {
    if rows == [] then 0 else Points(rows[0]) + Total(rows[1..])
  }

  /** The total of answers is the sum of the scores they have. */
  lemma {:induction false} TotalSums(xs: seq<Answer>, ys: seq<Answer>, a: Answer)
    ensures Total([]) == 0 && Total([a]) == (match a.score case Some(score) => score case None => 0)
    ensures Total(xs + ys) == Total(xs) + Total(ys)
  {
    assert [a][1..] == [];
    if xs == [] {
      assert xs + ys == ys;
    } else {
      TotalSums(xs[1..], ys, a);
      assert (xs + ys)[0] == xs[0] && (xs + ys)[1..] == xs[1..] + ys;
    }
  }

  /** The score and grading status a sitting is finalised with. */
  function FinalizeStatus(rows: seq<Answer>, hasManualItems: bool): (int, GradingStatus) {
    (Total(rows), if hasManualItems || exists a :: a in rows && a.gradingStatus.ManualRequired?
                  then ManualRequired else AutoGraded)
  }

  method ComputeFinalizeStatus(rows: seq<Answer>, hasManualItems: bool) returns (total: int, status: GradingStatus)
    ensures (total, status) == FinalizeStatus(rows, hasManualItems)
  {
    total := 0;
    var hasManual := hasManualItems;
    for i := 0 to |rows|
      invariant total + Total(rows[i..]) == Total(rows)
      invariant hasManual == (hasManualItems || exists a :: a in rows[..i] && a.gradingStatus.ManualRequired?)
    {
      assert rows[..i + 1] == rows[..i] + [rows[i]];
      assert rows[i..][1..] == rows[i + 1..];
      if rows[i].score.Some? {
        total := total + rows[i].score.value;
      }
      if rows[i].gradingStatus.ManualRequired? {
        hasManual := true;
      }
    }
    assert rows[..|rows|] == rows;
    status := if hasManual then ManualRequired else AutoGraded;
  }

  lemma {:induction false} TotalSplit(xs: seq<Answer>, ys: seq<Answer>)
    ensures Total(xs + ys) == Total(xs) + Total(ys)
  {
    if xs == [] {
      assert xs + ys == ys;
    } else {
      assert (xs + ys)[1..] == xs[1..] + ys;
      TotalSplit(xs[1..], ys);
    }
  }

  lemma TotalWithout(rows: seq<Answer>, i: nat)
    requires i < |rows|
    ensures Total(rows) == Points(rows[i]) + Total(rows[..i] + rows[i + 1..])
  {
    TotalSplit(rows[..i], rows[i + 1..]);
    TotalSplit(rows[..i], rows[i..]);
    assert rows == rows[..i] + rows[i..] && rows[i..][1..] == rows[i + 1..];
  }

  lemma {:induction false} TotalOfMultiset(xs: seq<Answer>, ys: seq<Answer>)
    requires multiset(xs) == multiset(ys)
    ensures Total(xs) == Total(ys)
  {
    if xs == [] {
      assert |multiset(ys)| == |ys|;
    } else {
      var x := xs[0];
      assert x in multiset(ys);
      var i :| 0 <= i < |ys| && ys[i] == x;
      MultisetTail(xs);
      MultisetRemoveAt(ys, i);
      TotalOfMultiset(xs[1..], ys[..i] + ys[i + 1..]);
      TotalWithout(ys, i);
    }
  }

  /** The unordered answer listing scores the same in every order. */
  lemma FinalizeOrderIrrelevant(xs: seq<Answer>, ys: seq<Answer>, hasManualItems: bool)
    requires multiset(xs) == multiset(ys)
    ensures FinalizeStatus(xs, hasManualItems) == FinalizeStatus(ys, hasManualItems)
  {
    TotalOfMultiset(xs, ys);
    assert forall a :: a in xs <==> a in multiset(xs);
    assert forall a :: a in ys <==> a in multiset(ys);
    assert forall a :: a in xs <==> a in ys;
  }

  // ---- The score bound ----

  function ItemsOfExam(items: map<Id, Item>, examId: Id): set<Id> {
    set i | i in items && items[i].examId == examId
  }

  /** The points of a set of items. */
  ghost function PointsOf(items: map<Id, Item>, ids: set<Id>): int
    requires ids <= items.Keys
  {
    if ids == {} then 0 else var x :| x in ids; items[x].points + PointsOf(items, ids - {x})
  }

  lemma {:induction false} PointsWithout(items: map<Id, Item>, ids: set<Id>, y: Id)
    requires y in ids && ids <= items.Keys
    ensures PointsOf(items, ids) == items[y].points + PointsOf(items, ids - {y})
    decreases ids
  {
    var x :| x in ids && PointsOf(items, ids) == items[x].points + PointsOf(items, ids - {x});
    if x != y {
      PointsWithout(items, ids - {x}, y);
      PointsWithout(items, ids - {y}, x);
      assert ids - {x} - {y} == ids - {y} - {x};
    }
  }

  lemma {:induction false} PointsMonotone(items: map<Id, Item>, some: set<Id>, all: set<Id>)
    requires some <= all <= items.Keys && forall i :: i in all ==> items[i].points >= 0
    ensures 0 <= PointsOf(items, some) <= PointsOf(items, all)
    decreases all
  {
    if all != {} {
      var y :| y in all;
      PointsWithout(items, all, y);
      PointsMonotone(items, some - {y}, all - {y});
      if y in some {
        PointsWithout(items, some, y);
      } else {
        assert some - {y} == some;
      }
    }
  }

  /** A stored answer scores nothing or its item's points. */
  ghost predicate ScoredFrom(items: map<Id, Item>, a: Answer) {
    && a.itemId in items
    && (a.score == None || a.score == Some(0) || a.score == Some(items[a.itemId].points))
  }

  function ItemIds(rows: seq<Answer>): set<Id> {
    set a | a in rows :: a.itemId
  }

  /** The total of a sitting lies between zero and the points of the exam's items. */
  lemma {:induction false} ScoreBound(items: map<Id, Item>, rows: seq<Answer>, all: set<Id>)
    requires OnePerItem(rows) && forall a :: a in rows ==> ScoredFrom(items, a)
    requires ItemIds(rows) <= all <= items.Keys && forall i :: i in all ==> items[i].points >= 0
    ensures 0 <= Total(rows) <= PointsOf(items, all)
  {
    if rows == [] {
      PointsMonotone(items, {}, all);
    } else {
      var x := rows[0].itemId;
      assert rows[0] in rows && x in ItemIds(rows);
      forall a | a in rows[1..] ensures a in rows && a.itemId != x {
        var k :| 0 <= k < |rows| - 1 && rows[1..][k] == a;
        assert rows[k + 1] == a;
      }
      PointsWithout(items, all, x);
      ScoreBound(items, rows[1..], all - {x});
    }
  }
}
