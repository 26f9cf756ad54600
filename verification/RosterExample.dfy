/** Two exams and an event of one that claims the other's deployment: the owner's own event leaves no receipt. */
module RosterExample {
  import opened Common
  import opened Entities
  import opened ContentHash
  import opened RosterInvariant
  import opened RosterModel

  function Settings(id: Id, deploymentId: Id): Exam {
    Exam(id, deploymentId, Presentation("", None, false, false, false, None, ""), 0, 100, 10, 1, 0, false, "", "sum", None, 0, None)
  }

  ghost function Loaded(id: Id, deploymentId: Id): Exam {
    Settings(id, deploymentId).(contentHash := Some(StoredView(Settings(id, deploymentId), map[], map[])))
  }

  /** Exam `e` under deployment `d` and exam `f` under deployment `c`, both without items or participants. */
  ghost function Node(): Database {
    Database(map["e" := Loaded("e", "d"), "f" := Loaded("f", "c")], map[], map[], map[], map[], map[], map[], map[])
  }

  /** For exam `f`, under the deployment of `e`. */
  const STRAY := RosterEvent("v", "d", "f", "p", "s", "", "A", 1, 50, 1, EventPending, "")
  const OWN := RosterEvent("w", "d", "e", "q", "t", "", "B", 1, 50, 1, EventPending, "")

  lemma NodeInOrder()
    ensures TablesOk(Node()) && RosterOk(Node(), "e") && Owned(Node().exams, "e") && Misaddressed(Node(), STRAY, "e")
  {
    hide View, Listing;
    ViewIgnoresRevision(Settings("e", "d"), 0, Loaded("e", "d").contentHash, map[], map[]);
  }

  /** The stray event is rejected, yet takes the revision. */
  lemma StrayTakesSlot()
    ensures var after := Apply(Node(), STRAY, 10).0;
      && after == WithReceipt(Node(), RejectedReceipt(STRAY, "roster_deployment_mismatch"))
      && after.receipts == map["v" := RejectedReceipt(STRAY, "roster_deployment_mismatch")]
  {
    hide StoredView;
  }

  lemma OwnIsAdmitted(db: Database)
    requires db.exams == Node().exams && db.participants == map[] && OWN.eventId !in db.receipts
    ensures Decide(db, OWN, 10) == Admit(map["q" := NewParticipant(OWN)])
  {
    hide StoredView;
  }

  /**
    The exam's roster is out of order after the stray event. Its own event is admitted and leaves no receipt, so a
    repetition is not answered but refused as a gap.
   */
  lemma OwnLeavesNoReceipt()
    ensures var stray := Apply(Node(), STRAY, 10).0;
      && !RosterOk(stray, "e")
      && var (own, r) := Apply(stray, OWN, 10);
      && r.Ok? && r.value.status.EventApplied? && "q" in own.participants && own.exams["e"].rosterRevision == 1
      && OWN.eventId !in own.receipts && Apply(own, OWN, 10) == (own, Err(RosterRevisionGap))
  {
    hide StoredView, RosterOk, TablesOk, Owned, Misaddressed, Decide;
    NodeInOrder();
    RosterKeptIff(Node(), STRAY, 10, "e");
    StrayTakesSlot();
    var stray := Apply(Node(), STRAY, 10).0;
    OwnIsAdmitted(stray);
    var own := Apply(stray, OWN, 10).0;
    assert AtSlot(stray.receipts, "d", 1, "v");
    assert own.receipts == stray.receipts;
    OwnIsGap(own);
  }

  lemma OwnIsGap(db: Database)
    requires "e" in db.exams && db.exams["e"].deploymentId == "d" && db.exams["e"].rosterRevision == 1
    requires OWN.eventId !in db.receipts
    ensures Decide(db, OWN, 10) == Refuse(RosterRevisionGap)
  {
  }
}
