/** The steps a harvest takes, what it does in a run statement by statement, and which rows a run harvests. */
module HarvestSteps {
  import opened Common
  import opened Entities
  import opened AttemptModel
  import opened SittingInvariant
  import opened SittingSteps
  import opened SittingMachine
  import opened SittingHistory

  predicate Harvests(e: Event) {
    e.ListUnpushed? || e.ReadAnswers? || e.Push? || e.Mark? || e.EndDrain?
  }

  /** Steps of other transactions, any number of them and at any pace. */
  ghost predicate Others(es: seq<Event>) {
    forall e :: e in es ==> !Harvests(e)
  }

  // ---- What the harvest does in a run ----

  /** The answers of one attempt as they were when its payload was read. */
  datatype Reading = Reading(id: Id, answers: seq<Answer>)

  /** One statement of the harvest: what it listed, read, pushed and had acknowledged, or the tables it marked rows of. */
  datatype Act =
    | Listed(listing: seq<Attempt>)
    | Read(reading: Reading)
    | Pushed(batch: seq<AttemptPayload>, accepted: set<Id>, failures: set<Id>)
    | Marked(rows: map<Id, Attempt>, generations: map<Id, int>)

  function ToMark(d: Drain): map<Id, int> {
    if d.Draining? then d.toMark else map[]
  }

  /** The harvest's act in a step; the steps of others have none. */
  ghost function ActIn(s: State, e: Event): seq<Act> {
    match e
    case ListUnpushed(rows) => [Listed(rows)]
    case ReadAnswers(row) => [Read(Reading(row.id, s.db.AnswersOf(row.id)))]
    case Push(accepted, failures) => [Pushed(if s.drain.Draining? then s.drain.built else [], accepted, failures)]
    case Mark => [Marked(s.db.attempts, ToMark(s.drain))]
    case _ => []
  }

  ghost function Acts(s: State, es: seq<Event>): seq<Act> {
    if es == [] then [] else Acts(s, es[..|es| - 1]) + ActIn(Run(s, es[..|es| - 1]), es[|es| - 1])
  }

  /** The run leads to `t`, and on the way the harvest does exactly `acts`, in this order. */
  ghost predicate Leads(s: State, es: seq<Event>, t: State, acts: seq<Act>) {
    t == Run(s, es) && acts == Acts(s, es)
  }

  function Reads(read: seq<Reading>): seq<Act> {
    seq(|read|, i requires 0 <= i < |read| => Read(read[i]))
  }

  lemma ReadsOneMore(read: seq<Reading>, r: Reading)
    ensures Reads([]) == [] && Reads(read + [r]) == Reads(read) + [Read(r)]
  {
  }

  lemma LeadsSelf(s: State)
    ensures Leads(s, [], s, [])
  {
  }

  lemma LeadsNext(s: State, es: seq<Event>, t: State, acts: seq<Act>, e: Event)
    requires Leads(s, es, t, acts)
    ensures Leads(s, es + [e], Next(t, e), acts + ActIn(t, e))
  {
    hide Next, ActIn;
    assert (es + [e])[..|es|] == es;
  }

  lemma {:induction false} LeadsOn(s: State, es: seq<Event>, t: State, acts: seq<Act>, more: seq<Event>, u: State,
                                   further: seq<Act>)
    requires Leads(s, es, t, acts) && Leads(t, more, u, further)
    ensures Leads(s, es + more, u, acts + further)
  {
    hide Next, ActIn;
    if more == [] {
      assert es + more == es && acts + further == acts;
    } else {
      var front, e := more[..|more| - 1], more[|more| - 1];
      LeadsOn(s, es, t, acts, front, Run(t, front), Acts(t, front));
      LeadsNext(s, es + front, Run(t, front), acts + Acts(t, front), e);
      assert es + front + [e] == es + more;
      assert acts + Acts(t, front) + ActIn(Run(t, front), e) == acts + further;
    }
  }

  /** Steps of others add no act, and neither the harvest in flight nor what Central accepted is theirs to change. */
  lemma OthersOn(s: State, es: seq<Event>, t: State, acts: seq<Act>, more: seq<Event>)
    requires Leads(s, es, t, acts) && Others(more)
    ensures Leads(s, es + more, Run(t, more), acts)
    ensures Run(t, more).drain == t.drain && Run(t, more).central == t.central
  {
    hide Run, Acts;
    OthersIdle(t, more);
    RunKeepsDrain(t, more);
    LeadsOn(s, es, t, acts, more, Run(t, more), []);
    assert acts + [] == acts;
  }

  lemma {:induction false} OthersIdle(s: State, es: seq<Event>)
    requires Others(es)
    ensures Acts(s, es) == []
  {
    hide Run;
    if es != [] {
      OthersIdle(s, es[..|es| - 1]);
      assert !Harvests(es[|es| - 1]) && ActIn(Run(s, es[..|es| - 1]), es[|es| - 1]) == [];
    }
  }

  lemma {:induction false} RunKeepsDrain(s: State, es: seq<Event>)
    requires Others(es)
    ensures Run(s, es).drain == s.drain && Run(s, es).central == s.central
  {
    hide Next;
    if es != [] {
      RunKeepsDrain(s, es[..|es| - 1]);
      OthersKeepDrain(Run(s, es[..|es| - 1]), es[|es| - 1]);
    }
  }

  lemma OthersKeepDrain(s: State, e: Event)
    requires !Harvests(e)
    ensures Next(s, e).drain == s.drain && Next(s, e).central == s.central
  {
    hide DbAfter, CheckedAnswers;
  }

  // ---- The steps of a harvest ----

  lemma ListStep(s: State, rows: seq<Attempt>)
    requires s.drain.Idle? && forall r :: r in rows ==> Unpushed(s.db, r)
    ensures Next(s, ListUnpushed(rows)) == s.(drain := Draining(rows, [], map[]))
  {
    hide Unpushed;
  }

  lemma ReadStep(s: State, row: Attempt)
    requires s.drain.Draining? && row in s.drain.listed && row.id !in PayloadIds(s.drain.built)
    ensures Next(s, ReadAnswers(row)) ==
            s.(drain := s.drain.(built := s.drain.built + [PayloadOf(row, AnswerPayloads(s.db.AnswersOf(row.id)))]))
  {
    hide PayloadOf, AnswerPayloads;
  }

  lemma PushStep(s: State, accepted: set<Id>, failures: set<Id>)
    requires s.drain.Draining?
    ensures Next(s, Push(accepted, failures)) ==
            s.(drain := s.drain.(built := [], toMark := GenerationsToMark(s.drain.built, accepted, failures)),
               central := s.central + AcceptedPayloads(s.drain.built, accepted, failures))
  {
    hide GenerationsToMark, AcceptedPayloads;
  }

  lemma MarkStep(s: State)
    requires s.drain.Draining?
    ensures Next(s, Mark) == s.(db := MarkHarvested(s.db, s.drain.toMark, s.clock), drain := s.drain.(toMark := map[]))
  {
    hide MarkHarvested;
  }

  lemma EndStep(s: State)
    ensures Next(s, EndDrain) == s.(drain := Idle)
  {
  }

  // ---- What the acts mark ----

  /** The rows a marking statement marks. */
  function Marks(rows: map<Id, Attempt>, generations: map<Id, int>): set<Id> {
    set id | id in rows && Markable(id, rows[id], generations)
  }

  function MarkedIn(acts: seq<Act>): set<Id> {
    if acts == [] then {}
    else
      var last := acts[|acts| - 1];
      MarkedIn(acts[..|acts| - 1]) + if last.Marked? then Marks(last.rows, last.generations) else {}
  }

  /** The attempts that some step of the run finds without a harvest mark and leaves with one. */
  ghost function NewlyHarvested(s: State, es: seq<Event>): set<Id> {
    if es == [] then {}
    else
      var front := es[..|es| - 1];
      NewlyHarvested(s, front) + Gained(Run(s, front).db.attempts, Run(s, es).db.attempts)
  }

  function Gained(before: map<Id, Attempt>, after: map<Id, Attempt>): set<Id> {
    set id | id in after && after[id].harvestedAt.Some? && !(id in before && before[id].harvestedAt.Some?)
  }

  lemma {:induction false} MarkedInBoth(acts: seq<Act>, more: seq<Act>)
    ensures MarkedIn(acts + more) == MarkedIn(acts) + MarkedIn(more)
  {
    hide Marks;
    if more == [] {
      assert acts + more == acts;
    } else {
      assert (acts + more)[..|acts + more| - 1] == acts + more[..|more| - 1];
      MarkedInBoth(acts, more[..|more| - 1]);
    }
  }

  lemma MarkedInOne(s: State, e: Event)
    ensures MarkedIn(ActIn(s, e)) == if e.Mark? then Marks(s.db.attempts, ToMark(s.drain)) else {}
  {
    hide Marks, ToMark;
    assert MarkedIn([]) == {};
    var acts := ActIn(s, e);
    if acts != [] {
      assert acts[..|acts| - 1] == [];
    }
  }

  /** Only a marking statement gives rows a mark: those it finds finished, unharvested and of the given generation. */
  lemma StepGains(s: State, e: Event)
    requires NodeOk(s)
    ensures Gained(s.db.attempts, Next(s, e).db.attempts) == if e.Mark? then Marks(s.db.attempts, ToMark(s.drain)) else {}
  {
    hide Next, NodeOk, DbAfter;
    NextDb(s, e);
    NodeInvariant(s);
    StepRows(s, e);
    StepKeeps(s, e);
    OpenUnmarked(Next(s, e));
  }

  lemma OpenUnmarked(s: State)
    requires NodeOk(s)
    ensures forall id :: id in s.db.attempts && s.db.attempts[id].status.InProgress? ==> s.db.attempts[id].harvestedAt.None?
  {
    forall id | id in s.db.attempts && s.db.attempts[id].status.InProgress? ensures s.db.attempts[id].harvestedAt.None? {
      assert RowOk(s.db.exams, s.db.attempts[id]);
    }
  }

  /** Over any run the rows that gain a harvest mark are those its marking statements mark. */
  lemma {:induction false} HarvestedByMarks(s: State, es: seq<Event>)
    requires NodeOk(s)
    ensures NewlyHarvested(s, es) == MarkedIn(Acts(s, es))
  {
    hide Next, NodeOk, ActIn, Gained, Marks;
    if es != [] {
      var front, e := es[..|es| - 1], es[|es| - 1];
      HarvestedByMarks(s, front);
      RunKeeps(s, front);
      StepGains(Run(s, front), e);
      MarkedInOne(Run(s, front), e);
      MarkedInBoth(Acts(s, front), ActIn(Run(s, front), e));
    }
  }

  /** Whoever gained a harvest mark gained it from one of the marking statements. */
  lemma {:induction false} HarvestedAt(s: State, es: seq<Event>, id: Id) returns (k: nat)
    requires NodeOk(s) && id in NewlyHarvested(s, es)
    ensures k < |es| && es[k].Mark?
    ensures var t := Run(s, es[..k]);
      id in Marks(t.db.attempts, ToMark(t.drain)) && Marked(t.db.attempts, ToMark(t.drain)) in Acts(s, es)
  {
    hide Next, NodeOk, Gained, Marks, ToMark;
    var front, e := es[..|es| - 1], es[|es| - 1];
    if id in NewlyHarvested(s, front) {
      k := HarvestedAt(s, front, id);
      assert front[..k] == es[..k];
    } else {
      k := |es| - 1;
      RunKeeps(s, front);
      StepGains(Run(s, front), e);
    }
  }
}
