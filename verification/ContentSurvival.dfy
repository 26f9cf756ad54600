/**
  How long a publication lasts: exactly which later steps take an exam's service away, and a run in which a reload
  that listed the exams too early forgets one that was loaded meanwhile.
 */
module ContentSurvival {
  import opened Common
  import opened Entities
  import opened ContentModel
  import opened ContentProtocol

  predicate IsServed(sh: Shared, e: Id) {
    Serve(sh.mem, e).Served?
  }

  /** The thread's turn publishes the exam. */
  predicate TurnPublishes(sh: Shared, th: Thread, ok: bool, e: Id) {
    th.pc.Rebuilding? && th.pc.exam == e && th.pc.stage.PublishIt? && ok && Gen(sh.mem, e) == th.pc.token
  }

  /**
    The thread's turn takes the service away: a load of the exam begins or is rolled back, its rebuild fails, a reload
    marks all there is, or a reload cleans up that did not list it.
   */
  ghost predicate TurnDisturbs(sh: Shared, th: Thread, ok: bool, order: seq<Id>, e: Id) {
    match th.pc
    case Checking(x) => x == e && ok
    case RolledBack(x, token) => x == e && Gen(sh.mem, e) == token
    case Rebuilding(x, _, stage) => x == e && !stage.CheckToken? && !(ok && (stage.PublishIt? || e in sh.db))
    case Listed => Elements(order) == th.listed && Distinct(order)
    case Between => th.queue == [] && e !in th.listed
    case _ => false
  }

  ghost predicate Publishes(s: State, ev: Event, e: Id) {
    ev.Step? && ev.tid in s.threads && TurnPublishes(s.sh, s.threads[ev.tid], ev.ok, e)
  }

  ghost predicate Disturbs(s: State, ev: Event, e: Id) {
    ev.Step? && ev.tid in s.threads && TurnDisturbs(s.sh, s.threads[ev.tid], ev.ok, ev.order, e)
  }

  // ---- One step ----

  lemma RebuildServes(sh: Shared, th: Thread, ok: bool, e: Id)
    requires th.pc.Rebuilding?
    ensures IsServed(RebuildStep(sh, th, th.pc.exam, th.pc.token, th.pc.stage, ok).sh, e) <==>
            TurnPublishes(sh, th, ok, e) || (IsServed(sh, e) && !TurnDisturbs(sh, th, ok, [], e))
  {
    hide View, Published, Elements, Distinct;
  }

  lemma LoadServes(sh: Shared, th: Thread, ok: bool, e: Id)
    requires !th.pc.Rebuilding? && !th.pc.Listed? && !th.pc.Between?
    ensures IsServed(LoadStep(sh, th, ok).sh, e) <==> IsServed(sh, e) && !TurnDisturbs(sh, th, ok, [], e)
  {
    hide View, Elements, Distinct;
  }

  lemma ReloadServes(sh: Shared, th: Thread, tid: Tid, ok: bool, order: seq<Id>, e: Id)
    requires th.pc.Starting? || th.pc.Listed? || th.pc.Between?
    ensures IsServed(ReloadStep(sh, th, tid, order).sh, e) <==> IsServed(sh, e) && !TurnDisturbs(sh, th, ok, order, e)
  {
    hide View, Tokens, Elements, Distinct;
  }

  lemma TurnServesIff(sh: Shared, th: Thread, tid: Tid, ok: bool, order: seq<Id>, e: Id)
    ensures IsServed(TakeTurn(sh, th, tid, ok, order).sh, e) <==>
            TurnPublishes(sh, th, ok, e) || (IsServed(sh, e) && !TurnDisturbs(sh, th, ok, order, e))
  {
    hide View, RebuildStep, ReloadStep, LoadStep, IsServed, Elements, Distinct;
    if th.pc.Rebuilding? {
      RebuildServes(sh, th, ok, e);
    } else if th.pc.Leaving? || (th.pc.Starting? && th.job.LoadBundle?) {
      assert TakeTurn(sh, th, tid, ok, order).sh.mem == sh.mem;
      SameMemory(sh, TakeTurn(sh, th, tid, ok, order).sh, e);
    } else if th.pc.Starting? || th.pc.Listed? || th.pc.Between? {
      ReloadServes(sh, th, tid, ok, order, e);
    } else {
      LoadServes(sh, th, ok, e);
    }
  }

  lemma SameMemory(a: Shared, b: Shared, e: Id)
    requires a.mem == b.mem
    ensures IsServed(a, e) <==> IsServed(b, e)
  {
  }

  /** A step leaves the exam served exactly when it publishes it, or finds it served and does not disturb it. */
  lemma StepServesIff(s: State, ev: Event, e: Id)
    ensures IsServed(Next(s, ev).sh, e) <==> Publishes(s, ev, e) || (IsServed(s.sh, e) && !Disturbs(s, ev, e))
  {
    hide TakeTurn, TurnPublishes, TurnDisturbs, IsServed;
    if ev.Step? && ev.tid in s.threads {
      TurnServesIff(s.sh, s.threads[ev.tid], ev.tid, ev.ok, ev.order, e);
    }
  }

  // ---- Whole runs ----

  /** From step `i` on nothing disturbs the exam. */
  ghost predicate LeftAlone(s: State, es: seq<Event>, i: nat, e: Id) {
    forall j :: i <= j < |es| ==> !Disturbs(Run(s, es[..j]), es[j], e)
  }

  ghost predicate PublishedAt(s: State, es: seq<Event>, i: nat, e: Id) {
    i < |es| && Publishes(Run(s, es[..i]), es[i], e)
  }

  lemma LeftAloneFront(s: State, es: seq<Event>, i: nat, e: Id)
    requires es != [] && i < |es|
    ensures var front := es[..|es| - 1];
      LeftAlone(s, es, i, e) <==> LeftAlone(s, front, i, e) && !Disturbs(Run(s, front), es[|es| - 1], e)
  {
    hide Run, Disturbs;
    var front := es[..|es| - 1];
    forall j | 0 <= j < |front| ensures front[..j] == es[..j] && front[j] == es[j] {
    }
  }

  /**
    Whatever loads and reloads race, an exam is served in the end exactly when some publication of it, or the start, is
    followed by no step that disturbs it.
   */
  lemma {:induction false} ServedIff(s: State, es: seq<Event>, e: Id)
    ensures IsServed(Run(s, es).sh, e) <==>
            || (IsServed(s.sh, e) && LeftAlone(s, es, 0, e))
            || (exists i: nat :: PublishedAt(s, es, i, e) && LeftAlone(s, es, i + 1, e))
  {
    hide Next, IsServed, Publishes, Disturbs, LeftAlone;
    if es == [] {
      NothingDisturbs(s, [], 0, e);
    } else {
      var front, n := es[..|es| - 1], |es| - 1;
      ServedIff(s, front, e);
      StepServesIff(Run(s, front), es[n], e);
      LeftAloneFront(s, es, 0, e);
      NothingDisturbs(s, es, n + 1, e);
      if Publishes(Run(s, front), es[n], e) {
        assert PublishedAt(s, es, n, e);
      }
      if i: nat :| PublishedAt(s, front, i, e) && LeftAlone(s, front, i + 1, e) {
        assert front[..i] == es[..i] && PublishedAt(s, es, i, e);
        LeftAloneFront(s, es, i + 1, e);
      }
      if i: nat :| PublishedAt(s, es, i, e) && LeftAlone(s, es, i + 1, e) && i < n {
        assert front[..i] == es[..i] && PublishedAt(s, front, i, e);
        LeftAloneFront(s, es, i + 1, e);
      }
    }
  }

  lemma NothingDisturbs(s: State, es: seq<Event>, i: nat, e: Id)
    requires |es| <= i
    ensures LeftAlone(s, es, i, e)
  {
  }

  lemma PublishingDisturbsNot(s: State, ev: Event, e: Id)
    requires Publishes(s, ev, e)
    ensures !Disturbs(s, ev, e)
  {
  }

  /** A publication is served without a break up to the end exactly when no later load, failed rebuild or reload disturbs it. */
  lemma {:induction false} PublicationLastsIff(s: State, es: seq<Event>, i: nat, e: Id)
    requires PublishedAt(s, es, i, e)
    ensures (forall k :: i < k <= |es| ==> IsServed(Run(s, es[..k]).sh, e)) <==> LeftAlone(s, es, i + 1, e)
  {
    hide Next, IsServed, Publishes, Disturbs;
    var front, n := es[..|es| - 1], |es| - 1;
    assert es[..|es|] == es;
    StepServesIff(Run(s, front), es[n], e);
    if i < n {
      assert front[..i] == es[..i];
      PublicationLastsIff(s, front, i, e);
      LeftAloneFront(s, es, i + 1, e);
      forall k | 0 <= k <= n ensures front[..k] == es[..k] {
      }
      if Publishes(Run(s, front), es[n], e) {
        PublishingDisturbsNot(Run(s, front), es[n], e);
      }
    }
  }

  // ---- A reload that forgets a loaded exam ----

  const NOTHING := Shared(map[], Memory(map[], {}, map[]), map[], map[])

  function Reloader(pc: Pc): Thread {
    Thread(ReloadAll, pc, [], {})
  }

  function Loader(pc: Pc): Thread {
    Thread(LoadBundle("e", []), pc, [], {})
  }

  function Both(sh: Shared, reload: Pc, load: Pc): State {
    State(sh, map[0 := Reloader(reload), 1 := Loader(load)])
  }

  /** The exam is stored, and its rebuild may publish under token 1. */
  function Stored(lock: map<Id, Tid>): Shared {
    Shared(map["e" := []], Memory(map[], {"e"}, map["e" := 1]), lock, map[])
  }

  function Loaded(lock: map<Id, Tid>): Shared {
    Shared(map["e" := []], Memory(map["e" := []], {}, map["e" := 1]), lock, map["e" := [1]])
  }

  function Marked(): Shared {
    Shared(map["e" := []], Memory(map["e" := []], {"e"}, map["e" := 2]), map[], map["e" := [1]])
  }

  function Forgotten(): Shared {
    Shared(map["e" := []], Memory(map[], {}, map["e" := 2]), map[], map["e" := [1]])
  }

  function Go(tid: Tid): Event {
    Step(tid, true, [])
  }

  /** The reload lists before anything is stored. */
  function Listing(): seq<Event> {
    [Spawn(0, ReloadAll)] + [Go(0)]
  }

  /** The bundle is loaded, committed and published. */
  function Loading(): seq<Event> {
    Listing() + [Spawn(1, LoadBundle("e", []))] + [Go(1)] + [Go(1)] + [Go(1)] + [Go(1)] + [Go(1)] + [Go(1)]
    + [Go(1)] + [Go(1)]
  }

  /** The reload marks and cleans up. */
  function Forgetting(): seq<Event> {
    Loading() + [Go(0)] + [Go(0)]
  }

  lemma RunNext(s: State, es: seq<Event>, e: Event)
    ensures Run(s, es + [e]) == Next(Run(s, es), e)
  {
    hide Next;
    assert (es + [e])[..|es + [e]| - 1] == es;
  }

  lemma Lists(s: State)
    requires s == State(NOTHING, map[])
    ensures Next(Next(s, Spawn(0, ReloadAll)), Go(0)) == State(NOTHING, map[0 := Reloader(Listed)])
  {
    assert NOTHING.db.Keys == {};
  }

  lemma Begins()
    ensures var s := Next(State(NOTHING, map[0 := Reloader(Listed)]), Spawn(1, LoadBundle("e", [])));
      Next(Next(Next(s, Go(1)), Go(1)), Go(1)) == Both(Stored(map["e" := 1]), Listed, Rebuilding("e", 1, CheckToken))
  {
  }

  lemma Rebuilds()
    ensures var s := Both(Stored(map["e" := 1]), Listed, Rebuilding("e", 1, CheckToken));
      Next(Next(Next(s, Go(1)), Go(1)), Go(1)) == Both(Stored(map["e" := 1]), Listed, Rebuilding("e", 1, PublishIt([])))
  {
    assert View([]) == [];
  }

  lemma PublishesIt()
    ensures var s := Both(Stored(map["e" := 1]), Listed, Rebuilding("e", 1, PublishIt([])));
      Next(Next(s, Go(1)), Go(1)) == Both(Loaded(map[]), Listed, Done)
  {
    var sh, lock := Stored(map["e" := 1]), map["e" := 1];
    assert Published(sh, "e") + [1] == [1] && Put(sh.mem, "e", []) == Loaded(lock).mem && lock - {"e"} == map[];
    assert Next(Both(sh, Listed, Rebuilding("e", 1, PublishIt([]))), Go(1)) == Both(Loaded(lock), Listed, Leaving("e", true));
  }

  lemma Forgets()
    ensures Next(Next(Both(Loaded(map[]), Listed, Done), Go(0)), Go(0)) == Both(Forgotten(), Done, Done)
  {
    MarksAll();
    ForgetsAll();
  }

  lemma MarksAll()
    ensures Next(Both(Loaded(map[]), Listed, Done), Go(0)) == Both(Marked(), Between, Done)
  {
    var m := Loaded(map[]).mem;
    assert Elements<Id>([]) == {} && MarkReload(m, {}) == Marked().mem && Tokens(Marked().mem, []) == [];
  }

  lemma ForgetsAll()
    ensures Next(Both(Marked(), Between, Done), Go(0)) == Both(Forgotten(), Done, Done)
  {
    assert Cleanup(Marked().mem, {}) == Forgotten().mem;
  }

  lemma Unfolds(s: State)
    ensures Run(s, Listing()) == Next(Next(s, Spawn(0, ReloadAll)), Go(0))
    ensures var t := Next(Run(s, Listing()), Spawn(1, LoadBundle("e", [])));
      var u := Next(Next(Next(t, Go(1)), Go(1)), Go(1));
      Run(s, Loading()) == Next(Next(Next(Next(Next(u, Go(1)), Go(1)), Go(1)), Go(1)), Go(1))
    ensures Run(s, Forgetting()) == Next(Next(Run(s, Loading()), Go(0)), Go(0))
  {
    hide Next, Go;
    var a, b, c := Spawn(0, ReloadAll), Go(0), Go(1);
    assert [] + [a] == [a] && Run(s, []) == s;
    RunNext(s, [], a);
    RunNext(s, [a], b);
    var es := Listing() + [Spawn(1, LoadBundle("e", []))];
    RunNext(s, Listing(), Spawn(1, LoadBundle("e", [])));
    RunNext(s, es, c);
    RunNext(s, es + [c], c);
    RunNext(s, es + [c] + [c], c);
    RunNext(s, es + [c] + [c] + [c], c);
    RunNext(s, es + [c] + [c] + [c] + [c], c);
    RunNext(s, es + [c] + [c] + [c] + [c] + [c], c);
    RunNext(s, es + [c] + [c] + [c] + [c] + [c] + [c], c);
    RunNext(s, es + [c] + [c] + [c] + [c] + [c] + [c] + [c], c);
    RunNext(s, Loading(), b);
    RunNext(s, Loading() + [b], b);
  }

  /**
    An exam is loaded and served, all threads are done, and yet a reload that listed too early has forgotten it: nobody
    can start it, and the node is not ready.
   */
  lemma ReloadForgetsLoaded()
    ensures var s := State(NOTHING, map[]);
      && Init(s) && IsServed(Run(s, Loading()).sh, "e")
      && var t := Run(s, Forgetting());
         && (forall tid :: tid in t.threads ==> t.threads[tid].pc.Done?)
         && "e" in t.sh.db && Serve(t.sh.mem, "e") == NotLoaded && !Ready(t.sh.mem, t.sh.db.Keys)
  {
    hide Next, Run, Loading, Forgetting, Listing;
    var s := State(NOTHING, map[]);
    Unfolds(s);
    Lists(s);
    Begins();
    Rebuilds();
    PublishesIt();
    Forgets();
    assert "e" in Forgotten().db.Keys && "e" !in Forgotten().mem.cache.Keys;
  }
}
