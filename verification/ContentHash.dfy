/**
  The canonical content view a bundle is hashed by: exam settings, items in section and sort order,
  and roster rows by participant. The hash is modelled as the view itself.
 */
module ContentHash {
  import opened Common
  import opened Entities
  import opened Sorting

  predicate ItemLeq(a: Item, b: Item) {
    if a.sectionSortOrder != b.sectionSortOrder then a.sectionSortOrder < b.sectionSortOrder
    else if a.sortOrder != b.sortOrder then a.sortOrder < b.sortOrder
    else LexLeq(a.id, b.id)
  }

  predicate ParticipantLeq(a: Participant, b: Participant) {
    LexLeq(a.id, b.id)
  }

  function ExamRowOf(e: Exam): ExamRow {
    ExamRow(e.id, e.deploymentId, e.presentation, e.startsAt, e.endsAt, e.durationMinutes, e.maxAttempts, e.maxScore,
            e.hasManualItems, e.accessCodePrefix)
  }

  function RosterRow(p: Participant): ParticipantRow {
    ParticipantRow(p.id, p.examId, p.studentId, p.accessCode)
  }

  function RosterRows(ps: seq<Participant>): (r: seq<ParticipantRow>)
    ensures |r| == |ps|
  {
    seq(|ps|, i requires 0 <= i < |ps| => RosterRow(ps[i]))
  }

  function View(exam: Exam, items: seq<Item>, participants: seq<Participant>): HashView {
    HashView(ExamRowOf(exam), SortBy(items, ItemLeq), RosterRows(SortBy(participants, ParticipantLeq)))
  }

  ghost predicate UniqueItems(items: multiset<Item>) {
    forall a, b :: a in items && b in items && a.id == b.id ==> a == b
  }

  ghost predicate UniqueParticipants(ps: multiset<Participant>) {
    forall a, b :: a in ps && b in ps && a.id == b.id ==> a == b
  }

  lemma ItemOrder(items: multiset<Item>)
    requires UniqueItems(items)
    ensures TotalPreorder(ItemLeq) && Untied(items, ItemLeq)
  {
    forall a: Item, b: Item ensures (ItemLeq(a, b) || ItemLeq(b, a)) && (ItemLeq(a, b) && ItemLeq(b, a) ==> a.id == b.id) {
      LexTotal(a.id, b.id);
    }
    forall a: Item, b: Item, c: Item | ItemLeq(a, b) && ItemLeq(b, c) ensures ItemLeq(a, c) {
      if LexLeq(a.id, b.id) && LexLeq(b.id, c.id) {
        LexTransitive(a.id, b.id, c.id);
      }
    }
  }

  lemma ParticipantOrder(ps: multiset<Participant>)
    requires UniqueParticipants(ps)
    ensures TotalPreorder(ParticipantLeq) && Untied(ps, ParticipantLeq)
  {
    forall a: Participant, b: Participant
      ensures (ParticipantLeq(a, b) || ParticipantLeq(b, a))
      ensures (ParticipantLeq(a, b) && ParticipantLeq(b, a) ==> a.id == b.id)
    {
      LexTotal(a.id, b.id);
    }
    forall a: Participant, b: Participant, c: Participant | ParticipantLeq(a, b) && ParticipantLeq(b, c) ensures ParticipantLeq(a, c) {
      LexTransitive(a.id, b.id, c.id);
    }
  }

  /** The view forgets the order rows arrive in: bundle order and read-back order hash alike. */
  lemma ViewIgnoresOrder(exam: Exam, items: seq<Item>, items': seq<Item>, ps: seq<Participant>, ps': seq<Participant>)
    requires multiset(items) == multiset(items') && UniqueItems(multiset(items))
    requires multiset(ps) == multiset(ps') && UniqueParticipants(multiset(ps))
    ensures View(exam, items, ps) == View(exam, items', ps')
  {
    hide ItemLeq, ParticipantLeq;
    ItemOrder(multiset(items));
    SortCanonical(items, items', ItemLeq);
    ParticipantOrder(multiset(ps));
    SortCanonical(ps, ps', ParticipantLeq);
  }

  predicate RowLeq(a: ParticipantRow, b: ParticipantRow) {
    LexLeq(a.id, b.id)
  }

  /** The rows of a permuted roster are permuted rows. */
  lemma {:induction false} RowsOfPermutation(xs: seq<Participant>, ys: seq<Participant>)
    requires multiset(xs) == multiset(ys)
    ensures multiset(RosterRows(xs)) == multiset(RosterRows(ys))
  {
    hide RosterRows, RosterRow;
    if xs == [] {
      assert |multiset(ys)| == |ys|;
      assert xs == ys;
    } else {
      assert xs[0] in multiset(ys);
      var i :| 0 <= i < |ys| && ys[i] == xs[0];
      var rest := ys[..i] + ys[i + 1..];
      MultisetTail(xs);
      MultisetRemoveAt(ys, i);
      RowsOfPermutation(xs[1..], rest);
      RowsWithout(xs, 0);
      RowsWithout(ys, i);
      assert xs[..0] + xs[1..] == xs[1..];
    }
  }

  /** Leaving out one participant leaves out its row. */
  lemma RowsWithout(ps: seq<Participant>, i: nat)
    requires i < |ps|
    ensures multiset(RosterRows(ps)) == multiset(RosterRows(ps[..i] + ps[i + 1..])) + multiset{RosterRow(ps[i])}
  {
    hide RosterRow;
    assert RosterRows(ps)[..i] + RosterRows(ps)[i + 1..] == RosterRows(ps[..i] + ps[i + 1..]);
    MultisetRemoveAt(RosterRows(ps), i);
  }

  /** The rows of a sorted roster are in order and do not tie. */
  lemma RowsInOrder(sorted: seq<Participant>)
    requires Sorted(sorted, ParticipantLeq) && UniqueParticipants(multiset(sorted))
    ensures Sorted(RosterRows(sorted), RowLeq) && Untied(multiset(RosterRows(sorted)), RowLeq)
  {
    hide LexLeq;
    var r := RosterRows(sorted);
    forall a, b | a in multiset(r) && b in multiset(r) && RowLeq(a, b) && RowLeq(b, a) ensures a == b {
      var i :| 0 <= i < |r| && r[i] == a;
      var j :| 0 <= j < |r| && r[j] == b;
      LexTotal(a.id, b.id);
      assert sorted[i] in multiset(sorted) && sorted[j] in multiset(sorted);
    }
  }

  /** The rows of the sorted roster: the roster's own rows, in order. */
  lemma SortedRows(ps: seq<Participant>)
    requires UniqueParticipants(multiset(ps))
    ensures var r := RosterRows(SortBy(ps, ParticipantLeq));
      Sorted(r, RowLeq) && multiset(r) == multiset(RosterRows(ps)) && Untied(multiset(r), RowLeq)
  {
    hide RosterRows, ParticipantLeq, RowLeq, Sorted, Untied;
    ParticipantOrder(multiset(ps));
    SortBySorted(ps, ParticipantLeq);
    RowsOfPermutation(SortBy(ps, ParticipantLeq), ps);
    RowsInOrder(SortBy(ps, ParticipantLeq));
  }

  /** The exams agree in everything that is hashed of them. */
  predicate SameSettings(e: Exam, f: Exam) {
    && e.id == f.id && e.deploymentId == f.deploymentId && e.presentation == f.presentation && e.startsAt == f.startsAt
    && e.endsAt == f.endsAt && e.durationMinutes == f.durationMinutes && e.maxAttempts == f.maxAttempts && e.maxScore == f.maxScore
    && e.hasManualItems == f.hasManualItems && e.accessCodePrefix == f.accessCodePrefix
  }

  /** Participants are hashed alike exactly when identifier, exam, student and code agree. */
  lemma RosterRowIff(p: Participant, q: Participant)
    ensures RosterRow(p) == RosterRow(q) <==>
            p.id == q.id && p.examId == q.examId && p.studentId == q.studentId && p.accessCode == q.accessCode
  {
  }

  /** Two bundles hash alike exactly when settings, items, and roster rows are the same, in whatever order they come. */
  lemma SameViewIff(exam: Exam, exam': Exam, items: seq<Item>, items': seq<Item>, ps: seq<Participant>,
                    ps': seq<Participant>)
    requires UniqueItems(multiset(items)) && UniqueParticipants(multiset(ps)) && UniqueParticipants(multiset(ps'))
    ensures View(exam, items, ps) == View(exam', items', ps') <==>
      && SameSettings(exam, exam') && multiset(items) == multiset(items')
      && multiset(RosterRows(ps)) == multiset(RosterRows(ps'))
  {
    hide ItemLeq, ParticipantLeq, RowLeq, SortBy, RosterRows;
    ItemOrder(multiset(items));
    SortCanonical(items, items', ItemLeq);
    SortedRows(ps);
    SortedRows(ps');
    if multiset(RosterRows(ps)) == multiset(RosterRows(ps')) {
      SortedUnique(RosterRows(SortBy(ps, ParticipantLeq)), RosterRows(SortBy(ps', ParticipantLeq)), RowLeq);
    }
  }

  /** The code's construction: sort copies, then append row by row. */
  method ContentHashView(items: seq<Item>, participants: seq<Participant>, exam: Exam) returns (view: HashView)
    ensures view == View(exam, items, participants)
  {
    hide SortBy;
    var sorted := SortBy(items, ItemLeq);
    var rows: seq<Item> := [];
    for i := 0 to |sorted|
      invariant rows == sorted[..i]
    {
      rows := rows + [sorted[i]];
    }
    assert sorted[..|sorted|] == sorted;
    var ps := SortBy(participants, ParticipantLeq);
    var roster: seq<ParticipantRow> := [];
    for i := 0 to |ps|
      invariant roster == RosterRows(ps)[..i]
    {
      roster := roster + [RosterRow(ps[i])];
    }
    view := HashView(ExamRowOf(exam), rows, roster);
  }

  // ---- Listings of stored rows ----

  /** The rows of a set, in some order. */
  ghost function Listing<T(!new)>(s: set<T>): (xs: seq<T>)
    ensures multiset(xs) == multiset(s)
  {
    if s == {} then [] else var x :| x in s; [x] + Listing(s - {x})
  }

  ghost function ItemRows(items: map<Id, Item>, e: Id): set<Item> {
    set i | i in items && items[i].examId == e :: items[i]
  }

  ghost function ParticipantRows(ps: map<Id, Participant>, e: Id): set<Participant> {
    set p | p in ps && ps[p].examId == e :: ps[p]
  }

  ghost predicate KeyedItems(items: map<Id, Item>) {
    forall i :: i in items ==> items[i].id == i
  }

  ghost predicate KeyedParticipants(ps: map<Id, Participant>) {
    forall p :: p in ps ==> ps[p].id == p
  }

  /** The hash of what is stored for an exam; which listing is read does not matter. */
  ghost function StoredView(exam: Exam, items: map<Id, Item>, ps: map<Id, Participant>): HashView {
    View(exam, Listing(ItemRows(items, exam.id)), Listing(ParticipantRows(ps, exam.id)))
  }

  /** Any duplicate-free listing of the stored rows hashes to the stored view. */
  lemma AnyListing(exam: Exam, items: map<Id, Item>, ps: map<Id, Participant>, xs: seq<Item>, ys: seq<Participant>)
    requires KeyedItems(items) && KeyedParticipants(ps)
    requires multiset(xs) == multiset(ItemRows(items, exam.id))
    requires multiset(ys) == multiset(ParticipantRows(ps, exam.id))
    ensures View(exam, xs, ys) == StoredView(exam, items, ps)
  {
    hide View;
    ViewIgnoresOrder(exam, xs, Listing(ItemRows(items, exam.id)), ys, Listing(ParticipantRows(ps, exam.id)));
  }
}
