/**
  Several writes landing on rows already stored: which of them decide the final rows, and when the rows show
  the same as before although writes landed in between.
 */
module Overwrites {
  import opened Common
  import opened Entities
  import opened Answers
  import opened SittingMachine
  import opened Payloads

  type Rows = seq<Answer>

  /** Of the writes, number `k` decides its item: fresh, newer than all before it, and not overtaken after it. */
  ghost predicate Decides(rows: Rows, ws: Rows, k: int) {
    && 0 <= k < |ws| && !Stale(AnswerFor(rows, ws[k].itemId), ws[k])
    && (forall j :: 0 <= j < k && ws[j].itemId == ws[k].itemId ==> ws[j].clientSeq < ws[k].clientSeq)
    && (forall j :: k < j < |ws| && ws[j].itemId == ws[k].itemId ==> ws[j].clientSeq <= ws[k].clientSeq)
  }

  /** The write shows what the stored row shows, whose key it would keep. */
  predicate ShowsSame(stored: Option<Answer>, w: Answer) {
    stored.Some? && Alike(w.(id := stored.value.id), stored.value)
  }

  /** Every write that decides its item shows what was stored before. */
  ghost predicate Repeats(rows: Rows, ws: Rows) {
    forall k :: Decides(rows, ws, k) ==> ShowsSame(AnswerFor(rows, ws[k].itemId), ws[k])
  }

  /** What became of an item's row: its deciding write under the stored key, or the stored row if none decides. */
  ghost predicate Traced(rows: Rows, ws: Rows, itemId: Id, now: Option<Answer>) {
    var was := AnswerFor(rows, itemId);
    && (was.Some? ==> now.Some? && now.value.id == was.value.id && now.value.clientSeq >= was.value.clientSeq)
    && (forall j :: 0 <= j < |ws| && ws[j].itemId == itemId ==> now.Some? && ws[j].clientSeq <= now.value.clientSeq)
    && (now == was || exists k :: Decides(rows, ws, k) && ws[k].itemId == itemId && now.Some? && Content(now.value) == Content(ws[k]))
  }

  lemma TraceOverlooked(rows: Rows, front: Rows, w: Answer, itemId: Id, now: Option<Answer>)
    requires Traced(rows, front, itemId, now) && (w.itemId == itemId ==> Stale(now, w))
    ensures Traced(rows, front + [w], itemId, now)
  {
    hide AnswerFor;
    if now != AnswerFor(rows, itemId) {
      var k :| Decides(rows, front, k) && front[k].itemId == itemId && now.Some? && Content(now.value) == Content(front[k]);
      assert Decides(rows, front + [w], k);
    }
  }

  lemma TraceFresh(rows: Rows, front: Rows, w: Answer, mid: Option<Answer>)
    requires Traced(rows, front, w.itemId, mid) && !Stale(mid, w)
    ensures Traced(rows, front + [w], w.itemId, Some(if mid.Some? then Merge(mid.value, w) else w))
  {
    hide AnswerFor;
    var ws := front + [w];
    assert forall j :: 0 <= j < |front| && ws[j].itemId == w.itemId ==> front[j].clientSeq < w.clientSeq;
    assert Decides(rows, ws, |front|);
  }

  lemma {:induction false} FinalRow(rows: Rows, ws: Rows, itemId: Id)
    ensures Traced(rows, ws, itemId, AnswerFor(UpsertAll(rows, ws), itemId))
  {
    if ws != [] {
      hide Traced, AnswerFor, Stale, Merge;
      var front, w := ws[..|ws| - 1], ws[|ws| - 1];
      assert ws == front + [w];
      FinalRow(rows, front, itemId);
      UpsertEffect(UpsertAll(rows, front), w, itemId);
      var mid := AnswerFor(UpsertAll(rows, front), itemId);
      if w.itemId == itemId && !Stale(mid, w) {
        TraceFresh(rows, front, w, mid);
      } else {
        if w.itemId == itemId { StaleMerges(mid, w); }
        TraceOverlooked(rows, front, w, itemId, mid);
      }
    }
  }

  lemma StaleMerges(stored: Option<Answer>, w: Answer)
    requires Stale(stored, w)
    ensures stored.Some? && Merge(stored.value, w) == stored.value
  {
  }

  /** At most one write decides an item, and it is what is stored then. */
  lemma DecidedRow(rows: Rows, ws: Rows, k: int)
    requires Decides(rows, ws, k)
    ensures var (was, now) := (AnswerFor(rows, ws[k].itemId), AnswerFor(UpsertAll(rows, ws), ws[k].itemId));
      now.Some? && Content(now.value) == Content(ws[k]) && (was.Some? ==> now.value == ws[k].(id := was.value.id))
  {
    hide UpsertAll, AnswerFor;
    FinalRow(rows, ws, ws[k].itemId);
    var now := AnswerFor(UpsertAll(rows, ws), ws[k].itemId);
    var l :| Decides(rows, ws, l) && ws[l].itemId == ws[k].itemId && now.Some? && Content(now.value) == Content(ws[l]);
    assert l == k;
  }

  // ---- What the rows show ----

  /** Stored rows keep their places; a new item's row goes behind them. */
  lemma {:induction false} PlacesKept(rows: Rows, ws: Rows)
    requires OnePerItem(rows)
    ensures var now := UpsertAll(rows, ws);
      OnePerItem(now) && |rows| <= |now| && forall i :: 0 <= i < |rows| ==> now[i].itemId == rows[i].itemId
  {
    if ws != [] {
      var front, w := ws[..|ws| - 1], ws[|ws| - 1];
      PlacesKept(rows, front);
      UpsertEffect(UpsertAll(rows, front), w, w.itemId);
      UpsertPlaces(UpsertAll(rows, front), w);
    }
  }

  lemma {:induction false} UpsertPlaces(rows: Rows, w: Answer)
    ensures |rows| <= |Upsert(rows, w)| && forall i :: 0 <= i < |rows| ==> Upsert(rows, w)[i].itemId == rows[i].itemId
  {
    if rows != [] && rows[0].itemId != w.itemId {
      UpsertPlaces(rows[1..], w);
    }
  }

  lemma {:induction false} RowAt(rows: Rows, i: nat)
    requires OnePerItem(rows) && i < |rows|
    ensures AnswerFor(rows, rows[i].itemId) == Some(rows[i])
  {
    if i > 0 {
      assert rows[0].itemId != rows[i].itemId;
      assert forall j, k :: 0 <= j < k < |rows[1..]| ==>
        rows[1..][j].itemId == rows[j + 1].itemId && rows[1..][k].itemId == rows[k + 1].itemId;
      RowAt(rows[1..], i - 1);
    }
  }

  lemma {:induction false} PlaceOf(rows: Rows, itemId: Id) returns (i: nat)
    requires AnswerFor(rows, itemId).Some?
    ensures i < |rows| && rows[i] == AnswerFor(rows, itemId).value && rows[i].itemId == itemId
  {
    if rows[0].itemId == itemId {
      i := 0;
    } else {
      i := PlaceOf(rows[1..], itemId);
      i := i + 1;
    }
  }

  lemma ShownAt(rows: Rows, ws: Rows, i: nat)
    requires OnePerItem(rows) && i < |rows| && Repeats(rows, ws)
    ensures |rows| <= |UpsertAll(rows, ws)| && Shown(UpsertAll(rows, ws)[i]) == Shown(rows[i])
  {
    hide UpsertAll, AnswerFor, Stale;
    PlacesKept(rows, ws);
    var now := UpsertAll(rows, ws);
    RowAt(rows, i);
    RowAt(now, i);
    FinalRow(rows, ws, rows[i].itemId);
    if now[i] != rows[i] {
      var k :| Decides(rows, ws, k) && ws[k].itemId == rows[i].itemId && Content(now[i]) == Content(ws[k]);
      DecidedRow(rows, ws, k);
    }
  }

  lemma NewRowDiffers(rows: Rows, ws: Rows)
    requires OnePerItem(rows) && |UpsertAll(rows, ws)| > |rows|
    ensures !Repeats(rows, ws)
  {
    hide UpsertAll, AnswerFor, Stale, Repeats, OnePerItem;
    PlacesKept(rows, ws);
    var now, n: nat := UpsertAll(rows, ws), |rows|;
    var itemId := now[n].itemId;
    RowAt(now, n);
    FinalRow(rows, ws, itemId);
    if AnswerFor(rows, itemId).Some? {
      var i := PlaceOf(rows, itemId);
      ItemsDiffer(now, i, n);
    } else {
      var k :| Decides(rows, ws, k) && ws[k].itemId == itemId;
      RefutesRepeats(rows, ws, k);
    }
  }

  lemma ItemsDiffer(rows: Rows, i: nat, j: nat)
    requires OnePerItem(rows) && i < j < |rows|
    ensures rows[i].itemId != rows[j].itemId
  {
  }

  lemma RefutesRepeats(rows: Rows, ws: Rows, k: int)
    requires Decides(rows, ws, k) && AnswerFor(rows, ws[k].itemId).None?
    ensures !Repeats(rows, ws)
  {
    assert !ShowsSame(AnswerFor(rows, ws[k].itemId), ws[k]);
  }

  lemma ShowsDecided(rows: Rows, ws: Rows, k: int)
    requires OnePerItem(rows) && Decides(rows, ws, k) && AnswerPayloads(UpsertAll(rows, ws)) == AnswerPayloads(rows)
    ensures ShowsSame(AnswerFor(rows, ws[k].itemId), ws[k])
  {
    hide UpsertAll, Stale, Upsert;
    var now, itemId := UpsertAll(rows, ws), ws[k].itemId;
    PlacesKept(rows, ws);
    DecidedRow(rows, ws, k);
    var i := PlaceOf(now, itemId);
    assert AnswerPayloads(now)[i] == AnswerPayloads(rows)[i];
    RowAt(rows, i);
  }

  lemma PayloadsRepeatIff(rows: Rows, ws: Rows)
    requires OnePerItem(rows)
    ensures AnswerPayloads(UpsertAll(rows, ws)) == AnswerPayloads(rows) <==> Repeats(rows, ws)
  {
    hide UpsertAll, AnswerFor, Shown, Stale;
    PlacesKept(rows, ws);
    if |UpsertAll(rows, ws)| > |rows| {
      NewRowDiffers(rows, ws);
      assert |AnswerPayloads(UpsertAll(rows, ws))| > |AnswerPayloads(rows)|;
    } else {
      if Repeats(rows, ws) {
        forall i | 0 <= i < |rows| ensures Shown(UpsertAll(rows, ws)[i]) == Shown(rows[i]) {
          ShownAt(rows, ws, i);
        }
      }
      if AnswerPayloads(UpsertAll(rows, ws)) == AnswerPayloads(rows) {
        forall k | Decides(rows, ws, k) ensures ShowsSame(AnswerFor(rows, ws[k].itemId), ws[k]) {
          ShowsDecided(rows, ws, k);
        }
      }
    }
  }

  /** The rows show the same as before exactly when every deciding write shows what was stored. */
  lemma ShownIffRepeats(rows: Rows, ws: Rows)
    requires OnePerItem(rows)
    ensures AllAlike(UpsertAll(rows, ws), rows) <==> Repeats(rows, ws)
    ensures AnswerPayloads(UpsertAll(rows, ws)) == AnswerPayloads(rows) <==> Repeats(rows, ws)
  {
    hide *;
    PayloadsRepeatIff(rows, ws);
    ReportedAlikeIff(UpsertAll(rows, ws), rows);
  }

  /** Two writes can cancel out: the first changes what is shown, the second restores it. */
  lemma WritesCancel()
    ensures exists rows, w, v :: !AllAlike(UpsertAll(rows, [w]), rows) && AllAlike(UpsertAll(rows, [w, v]), rows)
  {
    var a := Answer("k", "a", "i", map[], None, None, 5, Pending, 0, 1);
    var w, v := a.(text := Some("x"), clientSeq := 2), a.(clientSeq := 3);
    assert [w, v][..1] == [w] && [w][..0] == [];
    assert UpsertAll([a], [w]) == [w] && UpsertAll([a], [w, v]) == [v];
    assert !Alike([w][0], [a][0]) && Alike(v, a);
    assert !AllAlike(UpsertAll([a], [w]), [a]) && AllAlike(UpsertAll([a], [w, v]), [a]);
  }

  // ---- Totals ----

  /** What a write adds to the total of the rows it lands on. */
  function Gain(rows: Rows, w: Answer): int {
    var stored := AnswerFor(rows, w.itemId);
    if Stale(stored, w) then 0 else Points(w) - if stored.Some? then Points(stored.value) else 0
  }

  lemma {:induction false} UpsertGains(rows: Rows, w: Answer)
    ensures Total(Upsert(rows, w)) == Total(rows) + Gain(rows, w)
  {
    if rows == [] {
      assert [w][1..] == [];
    } else if rows[0].itemId != w.itemId {
      UpsertGains(rows[1..], w);
      assert ([rows[0]] + Upsert(rows[1..], w))[1..] == Upsert(rows[1..], w);
    } else {
      assert ([Merge(rows[0], w)] + rows[1..])[1..] == rows[1..];
    }
  }
}
