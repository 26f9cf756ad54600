/** A run that loses an answer: the autosave's write lands after submission, harvest and mark. */
module LateAnswerRun {
  import opened Common
  import opened Entities
  import opened AttemptModel
  import opened SittingInvariant
  import opened SittingMachine
  import opened SittingHistory
  import opened Payloads
  import Answers

  const EXAM := Exam("e", "d", Presentation("", None, false, false, false, None, ""), 0, 1000, 10, 1, 5, false, "", "", None, 0, None)
  const ITEM := Item("i", "e", "", "", 0, 0, Essay, "", [], map[], [], 5, false)
  const PERSON := Participant("p", "e", "d", "x", "", "", 0, 0, None)

  function Tables(participants: map<Id, Participant>, attempts: map<Id, Attempt>, answers: map<Id,
                  seq<Answer>>): Database {
    Database(map["e" := EXAM], map["i" := ITEM], participants, attempts, answers, map[], map[], map[])
  }

  function Opening(): State {
    State(Tables(map["p" := PERSON], map[], map[]), 10, {}, {}, Idle, {})
  }

  function Sitting(): Attempt { NewAttempt(PERSON, EXAM, "", 10, "a") }

  function Seated(): map<Id, Participant> { map["p" := PERSON.(attemptCount := 1, latestAttemptId := Some("a"))] }

  function Written(): Answer { GradedAnswer(ITEM, "a", map[], None, 1, "w", 10, (0, false)) }

  function Done(): Attempt { Finalized(Sitting(), EXAM, [], false, 10) }

  function Sent(): AttemptPayload { PayloadOf(Done(), []) }

  /** The node after the submission, with the checked answer still to be written. */
  ghost function Submitted(attempt: Attempt, answers: map<Id, seq<Answer>>, pending: set<Answer>, drain: Drain,
                           central: set<AttemptPayload>): State {
    State(Tables(Seated(), map["a" := attempt], answers), 10, {}, pending, drain, central)
  }

  ghost function Events(): seq<Event> {
    [Start("p", "e", "", 10, "a")] + [CheckAutosave("a", "p", "i", map[], None, 1, "w", (0, false))] + [Submit("a")]
    + [ListUnpushed([Done()])] + [ReadAnswers(Done())] + [Push({"a"}, {})] + [Mark] + [LandAutosave(Written())]
  }

  lemma OpeningIsInit()
    ensures Init(Opening())
  {
    assert Answers.ItemsOfExam(Opening().db.items, "e") == {"i"};
    Answers.PointsWithout(Opening().db.items, {"i"}, "i");
    assert {"i"} - {"i"} == {};
  }

  lemma Starts()
    ensures Next(Opening(), Start("p", "e", "", 10, "a")) == Submitted(Sitting(), map[], {}, Idle, {})
  {
    assert FindActive(Opening().db, "p", "e").None?;
  }

  lemma Checks()
    ensures Next(Submitted(Sitting(), map[], {}, Idle, {}), CheckAutosave("a", "p", "i", map[], None, 1, "w", (0, false)))
         == Submitted(Sitting(), map[], {Written()}, Idle, {})
  {
  }

  lemma Submits()
    ensures Next(Submitted(Sitting(), map[], {Written()}, Idle, {}), Submit("a"))
         == Submitted(Done(), map[], {Written()}, Idle, {})
  {
  }

  lemma Lists()
    ensures Next(Submitted(Done(), map[], {Written()}, Idle, {}), ListUnpushed([Done()]))
         == Submitted(Done(), map[], {Written()}, Draining([Done()], [], map[]), {})
  {
  }

  lemma Reads()
    ensures Next(Submitted(Done(), map[], {Written()}, Draining([Done()], [], map[]), {}), ReadAnswers(Done()))
         == Submitted(Done(), map[], {Written()}, Draining([Done()], [Sent()], map[]), {})
  {
    var s := Submitted(Done(), map[], {Written()}, Draining([Done()], [], map[]), {});
    assert Done() in s.drain.listed && s.db.AnswersOf("a") == [] && s.drain.built == [];
    assert AnswerPayloads([]) == [] && PayloadIds(s.drain.built) == {};
    assert s.drain.built + [Sent()] == [Sent()];
    assert DrainAfter(s, ReadAnswers(Done())) == Draining([Done()], [Sent()], map[]);
  }

  lemma Pushes()
    ensures Next(Submitted(Done(), map[], {Written()}, Draining([Done()], [Sent()], map[]), {}), Push({"a"}, {}))
         == Submitted(Done(), map[], {Written()}, Draining([Done()], [], map["a" := 0]), {Sent()})
  {
    assert Sent() in [Sent()];
    assert PayloadIds([Sent()]) == {"a"};
    assert GenerationsToMark([Sent()], {"a"}, {}) == map["a" := 0];
    assert AcceptedPayloads([Sent()], {"a"}, {}) == {Sent()};
  }

  lemma Marks()
    ensures Next(Submitted(Done(), map[], {Written()}, Draining([Done()], [], map["a" := 0]), {Sent()}), Mark)
         == Submitted(Done().(harvestedAt := Some(10)), map[], {Written()}, Draining([Done()], [], map[]), {Sent()})
  {
  }

  lemma Lands()
    ensures Next(Submitted(Done().(harvestedAt := Some(10)), map[], {Written()}, Draining([Done()], [], map[]), {Sent()}),
                 LandAutosave(Written()))
         == Submitted(Done().(harvestedAt := Some(10)), map["a" := [Written()]], {}, Draining([Done()], [], map[]), {Sent()})
  {
  }

  lemma Reaches()
    ensures Run(Opening(), Events())
         == Submitted(Done().(harvestedAt := Some(10)), map["a" := [Written()]], {}, Draining([Done()], [], map[]), {Sent()})
  {
    hide Next, Submitted, Done, Sent, Written, Sitting, Opening;
    var e1, e2, e3, e4 := Start("p", "e", "", 10, "a"), CheckAutosave("a", "p", "i", map[], None, 1, "w", (0, false)), Submit("a"),
                          ListUnpushed([Done()]);
    var e5, e6, e7, e8 := ReadAnswers(Done()), Push({"a"}, {}), Mark, LandAutosave(Written());
    Starts(); Checks(); Submits(); Lists(); Reads(); Pushes(); Marks(); Lands();
    var s := Opening();
    RunNext(s, [], e1);
    assert [] + [e1] == [e1];
    RunNext(s, [e1], e2);
    RunNext(s, [e1] + [e2], e3);
    RunNext(s, [e1] + [e2] + [e3], e4);
    RunNext(s, [e1] + [e2] + [e3] + [e4], e5);
    RunNext(s, [e1] + [e2] + [e3] + [e4] + [e5], e6);
    RunNext(s, [e1] + [e2] + [e3] + [e4] + [e5] + [e6], e7);
    RunNext(s, [e1] + [e2] + [e3] + [e4] + [e5] + [e6] + [e7], e8);
  }

  /** The attempt is marked harvested, yet no payload Central accepted carries its stored answers. */
  lemma LateAnswerIsLost()
    ensures Init(Opening())
    ensures var t := Run(Opening(), Events());
      && "a" in t.db.attempts && t.db.attempts["a"].harvestedAt.Some?
      && !Accepted(t.central, t.db.attempts["a"], t.db.AnswersOf("a"))
  {
    OpeningIsInit();
    Reaches();
    hide Init, Run, Opening, Events, Written;
    assert |AnswerPayloads([Written()])| == 1;
  }
}
