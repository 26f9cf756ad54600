/** What a harvest payload says of a sitting and its answers, column by column. */
module Payloads {
  import opened Common
  import opened Entities
  import opened SittingMachine

  /** The reported answer carries every column of the stored one but its attempt, sequence and maximum score. */
  predicate Carries(p: AnswerPayload, a: Answer) {
    && p.id == a.id && p.itemId == a.itemId && p.json == a.json && p.text == a.text && p.score == a.score
    && p.gradingStatus == a.gradingStatus && p.lastSavedAt == a.lastSavedAt
  }

  /** The payload carries the attempt's identity, status, generation and times. */
  predicate Describes(p: AttemptPayload, a: Attempt) {
    && p.id == a.id && p.participantId == a.participantId && p.studentId == a.studentId && p.attemptNo == a.attemptNo
    && p.status == a.status && p.resetGeneration == a.resetGeneration && p.startedAt == a.startedAt && p.dueAt == a.dueAt
    && p.submittedAt == a.submittedAt && p.autoSubmittedAt == a.autoSubmittedAt
  }

  /** The payload describes the attempt, and carries exactly these answers, in this order. */
  ghost predicate Reports(p: AttemptPayload, a: Attempt, rows: seq<Answer>) {
    Describes(p, a) && |p.answers| == |rows| && forall i :: 0 <= i < |rows| ==> Carries(p.answers[i], rows[i])
  }

  /** Central accepted a payload that reports the attempt with exactly these answers. */
  ghost predicate Accepted(central: set<AttemptPayload>, a: Attempt, rows: seq<Answer>) {
    exists p :: p in central && Reports(p, a, rows)
  }

  /** Two answers that differ in attempt, sequence and maximum score at most. */
  predicate Alike(a: Answer, b: Answer) {
    b == a.(attemptId := b.attemptId, clientSeq := b.clientSeq, maxScore := b.maxScore)
  }

  ghost predicate AllAlike(xs: seq<Answer>, ys: seq<Answer>) {
    |xs| == |ys| && forall i :: 0 <= i < |xs| ==> Alike(xs[i], ys[i])
  }

  /** The harvest builds that payload and no other. */
  lemma ReportsIff(p: AttemptPayload, a: Attempt, rows: seq<Answer>)
    ensures Reports(p, a, rows) <==> p == PayloadOf(a, AnswerPayloads(rows))
  {
    if Reports(p, a, rows) {
      assert p.answers == AnswerPayloads(rows);
    }
  }

  lemma DescribesIff(p: AttemptPayload, a: Attempt)
    ensures Describes(p, a) <==> p == PayloadOf(a, p.answers)
  {
  }

  lemma AcceptedIff(central: set<AttemptPayload>, a: Attempt, rows: seq<Answer>)
    ensures Accepted(central, a, rows) <==> PayloadOf(a, AnswerPayloads(rows)) in central
  {
    hide Reports, PayloadOf, AnswerPayloads;
    ReportsIff(PayloadOf(a, AnswerPayloads(rows)), a, rows);
    if p :| p in central && Reports(p, a, rows) {
      ReportsIff(p, a, rows);
    }
  }

  lemma AlikeIff(a: Answer, b: Answer)
    ensures Alike(a, b) <==> Shown(a) == Shown(b)
  {
  }

  /** Two answer lists are reported alike exactly when they differ in attempts, sequences and maximum scores at most. */
  lemma ReportedAlikeIff(xs: seq<Answer>, ys: seq<Answer>)
    ensures AnswerPayloads(xs) == AnswerPayloads(ys) <==> AllAlike(xs, ys)
    ensures forall p, a :: Reports(p, a, xs) ==> (Reports(p, a, ys) <==> AllAlike(xs, ys))
  {
    hide Shown, Alike;
    forall a, b ensures Alike(a, b) <==> Shown(a) == Shown(b) {
      AlikeIff(a, b);
    }
    if AnswerPayloads(xs) == AnswerPayloads(ys) {
      assert |AnswerPayloads(xs)| == |xs| && |AnswerPayloads(ys)| == |ys|;
      assert forall i :: 0 <= i < |xs| ==> AnswerPayloads(xs)[i] == Shown(xs[i]) && AnswerPayloads(ys)[i] == Shown(ys[i]);
    }
    if AllAlike(xs, ys) {
      assert AnswerPayloads(xs) == AnswerPayloads(ys);
    }
    forall p, a | Reports(p, a, xs) ensures Reports(p, a, ys) <==> AllAlike(xs, ys) {
      hide Reports, AnswerPayloads, PayloadOf, AllAlike;
      ReportsIff(p, a, xs);
      ReportsIff(p, a, ys);
      PayloadAnswers(a, AnswerPayloads(xs), AnswerPayloads(ys));
    }
  }

  lemma PayloadAnswers(a: Attempt, xs: seq<AnswerPayload>, ys: seq<AnswerPayload>)
    ensures PayloadOf(a, xs) == PayloadOf(a, ys) <==> xs == ys
  {
  }
}
