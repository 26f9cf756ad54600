/** Commands at fixed tables: a reset that waits for its participant's deployment, a preview that cannot be repeated. */
module ResetExamples {
  import opened Common
  import opened Entities
  import opened AttemptModel
  import opened SittingInvariant
  import opened SittingMachine
  import opened LateAnswerRun
  import opened MapperGap
  import ResetHistory

  // ---- A reset of the submitted sitting ----

  const RESET := ResetCommand("r", ResetKind, "n", "d", "e", "x", "p", "a", 0, Submitted, 610, Some(10), None, 1, 500)

  /** The submitted sitting, with the participant's deployment as the mapper reads it back or as given. */
  function Submission(deploymentId: Id): Database {
    Tables(map["p" := Seated()["p"].(deploymentId := deploymentId)], map["a" := Done()], map[])
  }

  lemma ResetIsValid()
    ensures ValidateReset(RESET).None?
  {
    var named := [RESET.requestId, RESET.nodeId, RESET.deploymentId, RESET.examId, RESET.studentId, RESET.participantId, RESET.attemptId];
    forall s | s in named ensures NonBlank(s) {
      assert s[0] in ['r', 'n', 'd', 'e', 'x', 'p', 'a'];
    }
    assert named[0] in named && named[1] in named && named[2] in named && named[3] in named && named[4] in named
           && named[5] in named && named[6] in named;
  }

  lemma FilledSubmission()
    ensures Filled(Submission(""), RESET) == Submission("d")
    ensures Decide(Submission("d"), RESET, 20, 20).Reopen?
  {
  }

  /** With the deployment filled in the reset is applied; as the mapper reads the row it conflicts and changes no attempt. */
  lemma ResetWaitsForDeployment()
    ensures ApplyReset(Submission("d"), RESET, 20, 20).1.Ok? && ApplyReset(Submission(""), RESET, 20, 20).1.Ok?
    ensures ApplyReset(Submission("d"), RESET, 20, 20).1.value.status.OperationApplied?
    ensures !ApplyReset(Submission(""), RESET, 20, 20).1.value.status.OperationApplied?
    ensures ApplyReset(Submission(""), RESET, 20, 20).0.attempts == Submission("").attempts
  {
    hide ApplyReset, ValidateReset, Decide;
    ResetIsValid();
    FilledSubmission();
    assert Filled(Submission("d"), RESET) == Submission("d");
    assert Done().id == "a";
    AppliesIffFilled(Submission("d"), RESET, 20, 20);
    AppliesIffFilled(Submission(""), RESET, 20, 20);
  }

  // ---- A preview that names its attempt ----

  const PREVIEW := ResetCommand("v", PreviewKind, "n", "d", "e", "x", "p", "a", 0, InProgress, 0, None, None, 0, 500)

  ghost function Started(): State {
    LateAnswerRun.Submitted(Sitting(), map[], {}, Idle, {})
  }

  lemma StartedIsOk()
    ensures NodeOk(Started())
  {
    hide NodeOk, Next, Init;
    OpeningIsInit();
    InitOk(Opening());
    Starts();
    StepKeeps(Opening(), Start("p", "e", "", 10, "a"));
  }

  lemma PreviewIsValid()
    ensures ValidatePreview(PREVIEW).None?
  {
    var named := [PREVIEW.requestId, PREVIEW.nodeId, PREVIEW.deploymentId, PREVIEW.examId, PREVIEW.studentId, PREVIEW.participantId];
    forall s | s in named ensures NonBlank(s) {
      assert s[0] in ['v', 'n', 'd', 'e', 'x', 'p'];
    }
    assert named[0] in named && named[1] in named && named[2] in named && named[3] in named && named[4] in named
           && named[5] in named;
  }

  lemma PreviewIsReady()
    ensures DecidePreview(Started().db, PREVIEW, 10) == Ok("a")
  {
    assert IsLatest(Started().db, "a", "p", "e");
  }

  /** The preview reports the attempt it names, and the same command again is refused as a conflict. */
  lemma PreviewConflictsWithItself()
    ensures var (after, r) := PreviewReset(Started().db, PREVIEW, 10);
      && r.Ok? && r.value.status.OperationApplied? && r.value.attemptId == "a"
      && PreviewReset(after, PREVIEW, 10) == (after, Err(ResetConflict))
  {
    hide ValidatePreview, DecidePreview, NodeOk, Next, Started;
    StartedIsOk();
    PreviewIsValid();
    PreviewIsReady();
    StartedTables();
    ResetHistory.PreviewReplaysIff(Started(), PREVIEW, [], 10);
    ResetHistory.PreviewIsAfter(Started(), PREVIEW);
  }

  lemma StartedTables()
    ensures Started().db.operations == map[] && Started().clock == 10
    ensures "a" in Started().db.attempts && Started().db.attempts["a"].id == "a"
  {
  }
}
