/** Roster events arrive while students sit: they keep everything the sitting transactions rely on. */
module RosterSittings {
  import opened Common
  import opened Entities
  import opened SittingInvariant
  import ContentHash
  import RosterModel
  import Roster = RosterInvariant

  /** Rewriting the roster state of exams keeps the sittings and the operations in order. */
  lemma RosterStateKeeps(db: Database, exams: Exams)
    requires Invariant(db) && exams.Keys == db.exams.Keys
    requires forall e :: e in db.exams ==> Roster.OnlyRosterState(db.exams[e], exams[e])
    ensures Invariant(db.(exams := exams))
  {
    hide OperationsOk, AnswersOk, NumbersUnique, NumbersComplete, PlacesOk;
    assert BundleOk(exams, db.items) by {
      forall e | e in exams ensures ExamOk(exams, db.items, e) {
        assert ExamOk(db.exams, db.items, e);
      }
    }
    forall p | p in db.participants ensures CounterOk(exams, db.participants, db.attempts, p) {
      assert CounterOk(db.exams, db.participants, db.attempts, p);
    }
    forall id | id in db.attempts ensures RowOk(exams, db.attempts[id]) {
      assert RowOk(db.exams, db.attempts[id]);
    }
  }

  /** Receipts are no table of the sittings. */
  lemma ReceiptsDoNotMatter(db: Database, receipts: map<Id, Receipt>)
    requires Invariant(db)
    ensures Invariant(db.(receipts := receipts))
  {
    hide BundleOk, CountersOk, PlacesOk, RowsOk, NumbersUnique, NumbersComplete, AnswersOk, OperationsOk;
  }

  /** Every roster event keeps the sittings in order; an admitted student starts with no attempts. */
  lemma RosterEventKeepsSittings(db: Database, ev: RosterEvent, now: Time)
    requires Invariant(db)
    ensures Invariant(RosterModel.Apply(db, ev, now).0)
  {
    hide Invariant, RosterModel.Apply;
    KeyedByCounters(db);
    Roster.ApplyShape(db, ev, now);
    var after := RosterModel.Apply(db, ev, now).0;
    RosterStateKeeps(db, after.exams);
    var mid := db.(exams := after.exams);
    if after.participants != db.participants {
      AddParticipantKeeps(mid, RosterModel.NewParticipant(ev));
    }
    ReceiptsDoNotMatter(mid.(participants := after.participants), after.receipts);
    assert after == mid.(participants := after.participants).(receipts := after.receipts);
  }

  lemma KeyedByCounters(db: Database)
    requires Invariant(db)
    ensures ContentHash.KeyedParticipants(db.participants)
  {
    hide BundleOk, PlacesOk, RowsOk, NumbersUnique, NumbersComplete, AnswersOk, OperationsOk;
    forall p | p in db.participants ensures db.participants[p].id == p {
      assert CounterOk(db.exams, db.participants, db.attempts, p);
    }
  }
}
