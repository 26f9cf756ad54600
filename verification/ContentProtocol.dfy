/**
  Loads and reloads as threads over the database, the cache, the unready marks, the generations and
  the per-exam locks. One step is one transaction, one read, or one statement under the mutex.
 */
module ContentProtocol {
  import opened Common
  import opened Entities
  import opened ContentModel

  type Tid = nat

  /** Where a rebuild is: its token check, its two reads, and the publication of what it read. */
  datatype Stage = CheckToken | ReadExam | ReadItems | PublishIt(content: Content)

  datatype Pc =
    | Starting
    | Checking(exam: Id)
    | Begun(exam: Id, token: nat)
    | RolledBack(exam: Id, token: nat)
    | Rebuilding(exam: Id, token: nat, stage: Stage)
    | Leaving(exam: Id, ok: bool)
    | Listed
    | Between
    | Done

  datatype Job = LoadBundle(exam: Id, incoming: seq<Item>) | ReloadAll

  /** `queue` holds the exams a reload has yet to rebuild, with their tokens; `listed` is what it saw persisted. */
  datatype Thread = Thread(job: Job, pc: Pc, queue: seq<(Id, nat)>, listed: set<Id>)

  /** What the threads share; `published` records, per exam, the tokens of its publications in order. */
  datatype Shared = Shared(db: Items, mem: Memory, lock: map<Id, Tid>, published: map<Id, seq<nat>>)

  datatype State = State(sh: Shared, threads: map<Tid, Thread>)

  /** One thread's step: what it leaves shared, and itself. */
  datatype Turn = Turn(sh: Shared, th: Thread)

  /** A thread begins, or takes its next step; `ok` and `order` settle what the code leaves to the environment. */
  datatype Event = Spawn(tid: Tid, job: Job) | Step(tid: Tid, ok: bool, order: seq<Id>)

  function Published(sh: Shared, e: Id): seq<nat> {
    if e in sh.published then sh.published[e] else []
  }

  /** The tokens a reload holds after marking, in the order it will rebuild. */
  function Tokens(m: Memory, order: seq<Id>): seq<(Id, nat)> {
    seq(|order|, i requires 0 <= i < |order| => (order[i], Gen(m, order[i])))
  }

  /** The thread fails: the exam is marked unready and the critical section left. */
  function Fails(sh: Shared, th: Thread, e: Id): Turn {
    Turn(sh.(mem := MarkUnready(sh.mem, e)), th.(pc := Leaving(e, false)))
  }

  /** One step of a rebuild under the exam's lock; `ok` false is a failed read or encoding. */
  function RebuildStep(sh: Shared, th: Thread, e: Id, token: nat, stage: Stage, ok: bool): Turn {
    match stage
    case CheckToken => Turn(sh, th.(pc := if Gen(sh.mem, e) != token then Leaving(e, false) else Rebuilding(e, token, ReadExam)))
    case ReadExam =>
      if ok && e in sh.db then Turn(sh, th.(pc := Rebuilding(e, token, ReadItems))) else Fails(sh, th, e)
    case ReadItems =>
      if ok && e in sh.db then Turn(sh, th.(pc := Rebuilding(e, token, PublishIt(View(sh.db[e]))))) else Fails(sh, th, e)
    case PublishIt(c) =>
      if !ok then Fails(sh, th, e)
      else if Gen(sh.mem, e) != token then Turn(sh, th.(pc := Leaving(e, false)))
      else Turn(sh.(mem := Publish(sh.mem, e, token, c), published := sh.published[e := Published(sh, e) + [token]]),
                th.(pc := Leaving(e, true)))
  }

  /**
    One step of a load between taking the lock and its rebuild; `ok` false is a refused bundle or a
    rolled-back transaction.
   */
  function LoadStep(sh: Shared, th: Thread, ok: bool): Turn {
    match th.pc
    case Checking(e) =>
      if ok then Turn(sh.(mem := Begin(sh.mem, e)), th.(pc := Begun(e, Gen(sh.mem, e) + 1))) else Turn(sh, th.(pc := Leaving(e, false)))
    case Begun(e, token) =>
      if ok && th.job.LoadBundle? then Turn(sh.(db := sh.db[e := th.job.incoming]), th.(pc := Rebuilding(e, token, CheckToken)))
      else Turn(sh, th.(pc := RolledBack(e, token)))
    case RolledBack(e, token) => Turn(sh.(mem := Cancel(sh.mem, e, token)), th.(pc := Leaving(e, false)))
    case _ => Turn(sh, th)
  }

  /** One step of a reload outside any critical section: list, mark, take the next lock, or clean up. */
  ghost function ReloadStep(sh: Shared, th: Thread, tid: Tid, order: seq<Id>): Turn {
    match th.pc
    case Starting => Turn(sh, th.(pc := Listed, listed := sh.db.Keys))
    case Listed =>
      if Elements(order) == th.listed && Distinct(order)
      then Turn(sh.(mem := MarkReload(sh.mem, th.listed)), th.(pc := Between, queue := Tokens(MarkReload(sh.mem, th.listed), order)))
      else Turn(sh, th)
    case Between =>
      if th.queue == [] then Turn(sh.(mem := Cleanup(sh.mem, th.listed)), th.(pc := Done))
      else if th.queue[0].0 in sh.lock then Turn(sh, th)
      else Turn(sh.(lock := sh.lock[th.queue[0].0 := tid]),
                th.(pc := Rebuilding(th.queue[0].0, th.queue[0].1, CheckToken), queue := th.queue[1..]))
    case _ => Turn(sh, th)
  }

  function Leave(sh: Shared, th: Thread, e: Id, good: bool): Turn {
    Turn(sh.(lock := sh.lock - {e}), th.(pc := if th.job.ReloadAll? && good then Between else Done))
  }

  function Enter(sh: Shared, th: Thread, tid: Tid, e: Id): Turn {
    if e in sh.lock then Turn(sh, th) else Turn(sh.(lock := sh.lock[e := tid]), th.(pc := Checking(e)))
  }

  ghost function TakeTurn(sh: Shared, th: Thread, tid: Tid, ok: bool, order: seq<Id>): Turn {
    if th.pc.Rebuilding? then RebuildStep(sh, th, th.pc.exam, th.pc.token, th.pc.stage, ok)
    else if th.pc.Leaving? then Leave(sh, th, th.pc.exam, th.pc.ok)
    else if th.pc.Starting? && th.job.LoadBundle? then Enter(sh, th, tid, th.job.exam)
    else if th.pc.Starting? || th.pc.Listed? || th.pc.Between? then ReloadStep(sh, th, tid, order)
    else LoadStep(sh, th, ok)
  }

  ghost function Next(s: State, e: Event): State {
    match e
    case Spawn(tid, job) =>
      if tid in s.threads then s else s.(threads := s.threads[tid := Thread(job, Starting, [], {})])
    case Step(tid, ok, order) =>
      if tid !in s.threads then s
      else
        var turn := TakeTurn(s.sh, s.threads[tid], tid, ok, order);
        State(turn.sh, s.threads[tid := turn.th])
  }

  ghost function Run(s: State, es: seq<Event>): State {
    if es == [] then s else Next(Run(s, es[..|es| - 1]), es[|es| - 1])
  }

  /** After startup: whatever is cached agrees with the database, and nothing is running. */
  ghost predicate Init(s: State) {
    Agrees(s.sh.mem, s.sh.db) && s.sh.lock == map[] && s.threads == map[] && s.sh.published == map[]
  }

  // ---- The invariant ----

  /** The thread is inside the critical section of the exam. */
  predicate Holds(th: Thread, e: Id) {
    match th.pc
    case Checking(x) => x == e
    case Begun(x, _) => x == e
    case RolledBack(x, _) => x == e
    case Rebuilding(x, _, _) => x == e
    case Leaving(x, _) => x == e
    case _ => false
  }

  ghost predicate LocksOk(s: State) {
    forall tid, e :: tid in s.threads && Holds(s.threads[tid], e) ==> e in s.sh.lock && s.sh.lock[e] == tid
  }

  /** No stale content of the exam can be served. */
  predicate Guarded(m: Memory, e: Id) {
    e !in m.cache || e in m.unready
  }

  /**
    What a thread in its critical section relies on: a load about to commit is guarded, and what was read is
    what is stored.
   */
  predicate ThreadOk(sh: Shared, th: Thread) {
    && (th.pc.Begun? ==> Guarded(sh.mem, th.pc.exam))
    && (th.pc.Rebuilding? && th.pc.stage.PublishIt? ==> th.pc.exam in sh.db && th.pc.stage.content == View(sh.db[th.pc.exam]))
  }

  ghost predicate ThreadsOk(s: State) {
    forall tid :: tid in s.threads ==> ThreadOk(s.sh, s.threads[tid])
  }

  ghost predicate ProtocolOk(s: State) {
    Agrees(s.sh.mem, s.sh.db) && LocksOk(s) && ThreadsOk(s)
  }

  lemma InitOk(s: State)
    requires Init(s)
    ensures ProtocolOk(s)
  {
  }

  // ---- One turn ----

  /** What a turn may do to an exam outside its thread's critical section. */
  ghost predicate Undisturbed(a: Shared, b: Shared, e: Id) {
    && (e in b.db <==> e in a.db) && (e in a.db ==> b.db[e] == a.db[e])
    && (Guarded(a.mem, e) ==> Guarded(b.mem, e))
    && (e in a.lock ==> e in b.lock && b.lock[e] == a.lock[e])
  }

  lemma RebuildTurn(sh: Shared, th: Thread, ok: bool, e: Id)
    requires th.pc.Rebuilding? && ThreadOk(sh, th) && Agrees(sh.mem, sh.db)
    ensures var t := RebuildStep(sh, th, th.pc.exam, th.pc.token, th.pc.stage, ok);
      Agrees(t.sh.mem, t.sh.db) && ThreadOk(t.sh, t.th) && Holds(t.th, th.pc.exam) && (e != th.pc.exam ==> Undisturbed(sh, t.sh, e))
  {
    hide View, Published;
    match th.pc.stage
    case CheckToken =>
    case ReadExam =>
    case ReadItems =>
    case PublishIt(_) =>
  }

  lemma LoadTurn(sh: Shared, th: Thread, ok: bool, e: Id)
    requires (th.pc.Checking? || th.pc.Begun? || th.pc.RolledBack?) && ThreadOk(sh, th) && Agrees(sh.mem, sh.db)
    ensures var t := LoadStep(sh, th, ok);
      Agrees(t.sh.mem, t.sh.db) && ThreadOk(t.sh, t.th) && Holds(t.th, th.pc.exam) && (e != th.pc.exam ==> Undisturbed(sh, t.sh, e))
  {
    hide View;
  }

  lemma ReloadTurn(sh: Shared, th: Thread, tid: Tid, order: seq<Id>, e: Id)
    requires (th.pc.Starting? || th.pc.Listed? || th.pc.Between?) && Agrees(sh.mem, sh.db)
    ensures var t := ReloadStep(sh, th, tid, order);
      Agrees(t.sh.mem, t.sh.db) && ThreadOk(t.sh, t.th) && Undisturbed(sh, t.sh, e)
      && (Holds(t.th, e) ==> e !in sh.lock && e in t.sh.lock && t.sh.lock[e] == tid)
  {
    hide View, Tokens, Elements, Distinct;
  }

  /** The thread holds the locks of the sections it is in. */
  ghost predicate LockHeld(sh: Shared, th: Thread, tid: Tid) {
    forall e :: Holds(th, e) ==> e in sh.lock && sh.lock[e] == tid
  }

  /** Any turn: what is served stays what is stored, and nothing outside the thread's own section is disturbed. */
  lemma AnyTurn(sh: Shared, th: Thread, tid: Tid, ok: bool, order: seq<Id>, e: Id)
    requires ThreadOk(sh, th) && Agrees(sh.mem, sh.db) && LockHeld(sh, th, tid)
    ensures var t := TakeTurn(sh, th, tid, ok, order);
      && Agrees(t.sh.mem, t.sh.db) && ThreadOk(t.sh, t.th) && (!Holds(th, e) ==> Undisturbed(sh, t.sh, e))
      && (Holds(t.th, e) ==> e in t.sh.lock && t.sh.lock[e] == tid)
  {
    hide View, RebuildStep, ReloadStep, LoadStep, Agrees;
    if th.pc.Rebuilding? {
      RebuildTurn(sh, th, ok, e);
      RebuildKeepsLocks(sh, th, ok);
    } else if th.pc.Starting? && th.job.LoadBundle? {
    } else if th.pc.Starting? || th.pc.Listed? || th.pc.Between? {
      ReloadTurn(sh, th, tid, order, e);
    } else if th.pc.Checking? || th.pc.Begun? || th.pc.RolledBack? {
      LoadTurn(sh, th, ok, e);
      LoadKeepsLocks(sh, th, ok);
    } else if th.pc.Done? {
      DoneTurn(sh, th, ok);
    }
  }

  lemma RebuildKeepsLocks(sh: Shared, th: Thread, ok: bool)
    requires th.pc.Rebuilding?
    ensures var t := RebuildStep(sh, th, th.pc.exam, th.pc.token, th.pc.stage, ok);
      t.sh.lock == sh.lock && forall e :: Holds(t.th, e) <==> Holds(th, e)
  {
    hide View, Publish, MarkUnready;
  }

  lemma LoadKeepsLocks(sh: Shared, th: Thread, ok: bool)
    requires th.pc.Checking? || th.pc.Begun? || th.pc.RolledBack?
    ensures LoadStep(sh, th, ok).sh.lock == sh.lock && forall e :: Holds(LoadStep(sh, th, ok).th, e) <==> Holds(th, e)
  {
    hide Begin, Cancel;
  }

  lemma DoneTurn(sh: Shared, th: Thread, ok: bool)
    requires th.pc.Done?
    ensures LoadStep(sh, th, ok) == Turn(sh, th)
  {
  }

  lemma StepAgrees(s: State, tid: Tid, ok: bool, order: seq<Id>)
    requires ProtocolOk(s) && tid in s.threads
    ensures ProtocolOk(Next(s, Step(tid, ok, order)))
  {
    hide TakeTurn, Agrees, ThreadOk, Undisturbed, Holds;
    var th := s.threads[tid];
    var t := TakeTurn(s.sh, th, tid, ok, order);
    AnyTurn(s.sh, th, tid, ok, order, "");
    forall tod, e | tod in s.threads && tod != tid && Holds(s.threads[tod], e) ensures !Holds(th, e) && Undisturbed(s.sh, t.sh, e) {
      AnyTurn(s.sh, th, tid, ok, order, e);
    }
    forall e | Holds(t.th, e) ensures e in t.sh.lock && t.sh.lock[e] == tid {
      AnyTurn(s.sh, th, tid, ok, order, e);
    }
    forall tod | tod in s.threads && tod != tid ensures ThreadOk(t.sh, s.threads[tod]) {
      OtherStaysOk(s.sh, t.sh, s.threads[tod]);
    }
    forall tod, e | tod in s.threads && tod != tid && Holds(s.threads[tod], e) ensures e in t.sh.lock && t.sh.lock[e] == tod {
      LockStays(s.sh, t.sh, e);
    }
  }

  lemma OtherStaysOk(a: Shared, b: Shared, th: Thread)
    requires ThreadOk(a, th) && forall e :: Holds(th, e) ==> Undisturbed(a, b, e)
    ensures ThreadOk(b, th)
  {
    hide View;
    if th.pc.Begun? || th.pc.Rebuilding? {
      assert Holds(th, th.pc.exam);
    }
  }

  lemma LockStays(a: Shared, b: Shared, e: Id)
    requires Undisturbed(a, b, e) && e in a.lock
    ensures e in b.lock && b.lock[e] == a.lock[e]
  {
  }

  lemma NextAgrees(s: State, e: Event)
    requires ProtocolOk(s)
    ensures ProtocolOk(Next(s, e))
  {
    hide TakeTurn, Agrees;
    if e.Step? && e.tid in s.threads {
      StepAgrees(s, e.tid, e.ok, e.order);
    }
  }

  lemma {:induction false} Reachable(s: State, es: seq<Event>)
    requires Init(s)
    ensures ProtocolOk(Run(s, es))
  {
    hide Next, ProtocolOk;
    if es == [] {
      InitOk(s);
    } else {
      Reachable(s, es[..|es| - 1]);
      NextAgrees(Run(s, es[..|es| - 1]), es[|es| - 1]);
    }
  }

  // ---- What students see ----

  /** Under any interleaving of loads, rollbacks and reloads, whatever is served is what the database holds. */
  lemma ServedIsStored(s: State, es: seq<Event>, e: Id)
    requires Init(s)
    ensures var t := Run(s, es).sh;
      Serve(t.mem, e).Served? ==> e in t.db && ShowsItems(Serve(t.mem, e).content, t.db[e])
  {
    hide Init, Run, View, ShowsItems;
    Reachable(s, es);
    var t := Run(s, es).sh;
    if Serve(t.mem, e).Served? {
      ShowsIff(Serve(t.mem, e).content, t.db[e]);
    }
  }

  /**
    Two nodes, whatever ran on each, whose committed items of an exam differ in answer keys and rubrics at most serve
    the same content of it.
   */
  lemma KeysNeverServed(s: State, es: seq<Event>, s': State, es': seq<Event>, e: Id)
    requires Init(s) && Init(s')
    ensures var (t, t') := (Run(s, es).sh, Run(s', es').sh);
      Serve(t.mem, e).Served? && Serve(t'.mem, e).Served? && e in t.db && e in t'.db && SameButKeys(t.db[e], t'.db[e]) ==>
        Serve(t.mem, e).content == Serve(t'.mem, e).content
  {
    hide Init, Run, ShowsItems, SameButKeys;
    ServedIsStored(s, es, e);
    ServedIsStored(s', es', e);
    var t, t' := Run(s, es).sh, Run(s', es').sh;
    if Serve(t.mem, e).Served? && Serve(t'.mem, e).Served? && SameButKeys(t.db[e], t'.db[e]) {
      KeysNotShown(Serve(t.mem, e).content, Serve(t'.mem, e).content, t.db[e], t'.db[e]);
    }
  }

  /** A ready node serves exactly the persisted exams, at least one, each with its stored items. */
  lemma ReadyMeansServable(s: State, es: seq<Event>)
    requires Init(s)
    ensures var t := Run(s, es).sh;
      Ready(t.mem, t.db.Keys) <==>
        t.db.Keys != {} && t.mem.unready == {} && forall e :: Serve(t.mem, e).Served? <==> e in t.db
    ensures var t := Run(s, es).sh;
      Ready(t.mem, t.db.Keys) ==> t.db.Keys != {} && forall e :: e in t.db ==>
        Serve(t.mem, e).Served? && ShowsItems(Serve(t.mem, e).content, t.db[e])
  {
    hide Init, Run, View, ShowsItems;
    Reachable(s, es);
    var t := Run(s, es).sh;
    forall e | Serve(t.mem, e).Served? ensures e in t.db && ShowsItems(Serve(t.mem, e).content, t.db[e]) {
      ShowsIff(Serve(t.mem, e).content, t.db[e]);
    }
    if t.mem.unready == {} && forall e :: Serve(t.mem, e).Served? <==> e in t.db {
      forall e ensures e in t.mem.cache.Keys <==> e in t.db.Keys {
        assert Serve(t.mem, e).Served? <==> e in t.db;
      }
    }
  }

  /** What the students of an exam, and its stored rows, see of a step. */
  ghost predicate Unaffected(a: Shared, b: Shared, e: Id) {
    Serve(b.mem, e) == Serve(a.mem, e) && (e in b.db <==> e in a.db) && (e in a.db ==> b.db[e] == a.db[e])
  }

  lemma RebuildTouchesOnlyItsExam(sh: Shared, th: Thread, ok: bool, e: Id)
    requires th.pc.Rebuilding? && e != th.pc.exam
    ensures Unaffected(sh, RebuildStep(sh, th, th.pc.exam, th.pc.token, th.pc.stage, ok).sh, e)
  {
    hide View;
  }

  lemma LoadTouchesOnlyItsExam(sh: Shared, th: Thread, ok: bool, e: Id)
    requires (th.pc.Checking? || th.pc.Begun? || th.pc.RolledBack?) && e != th.pc.exam
    ensures Unaffected(sh, LoadStep(sh, th, ok).sh, e)
  {
    hide View;
  }

  /** A thread inside one exam's critical section never changes what another exam's students get. */
  lemma SectionTouchesOnlyItsExam(sh: Shared, th: Thread, tid: Tid, ok: bool, order: seq<Id>, x: Id, e: Id)
    requires Holds(th, x) && e != x
    ensures Unaffected(sh, TakeTurn(sh, th, tid, ok, order).sh, e)
  {
    hide View, RebuildStep, LoadStep, ReloadStep;
    if th.pc.Rebuilding? {
      RebuildTouchesOnlyItsExam(sh, th, ok, e);
    } else if !th.pc.Leaving? {
      LoadTouchesOnlyItsExam(sh, th, ok, e);
    }
  }

  /**
    A rolled-back load refuses an exam that was served, and forgets one that never was; a superseded one
    changes nothing.
   */
  lemma RollbackFailsClosed(m: Memory, e: Id, token: nat)
    ensures Gen(m, e) != token ==> Cancel(m, e, token) == m
    ensures Gen(m, e) == token ==> Serve(Cancel(m, e, token), e) == if e in m.cache then NotReady else NotLoaded
    ensures forall x :: x != e ==> Serve(Cancel(m, e, token), x) == Serve(m, x)
  {
  }
}
