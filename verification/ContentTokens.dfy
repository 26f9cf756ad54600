/** Publications of one exam happen in increasing token order, whatever loads and reloads race. */
module ContentTokens {
  import opened Common
  import opened Entities
  import opened ContentModel
  import opened ContentProtocol

  /** The thread may still publish the exam with this token. */
  predicate Owns(th: Thread, e: Id, token: nat) {
    || (th.pc.Begun? && th.pc.exam == e && th.pc.token == token)
    || (th.pc.Rebuilding? && th.pc.exam == e && th.pc.token == token)
    || (e, token) in th.queue
  }

  ghost predicate Increasing(tokens: seq<nat>) {
    forall i, j :: 0 <= i < j < |tokens| ==> tokens[i] < tokens[j]
  }

  /**
    A load queues nothing, a reload nothing before it has marked; a queue names each exam once, and not the
    one being rebuilt.
   */
  ghost predicate QueueOk(th: Thread) {
    && (th.job.LoadBundle? || th.pc.Starting? || th.pc.Listed? ==> th.queue == [])
    && (th.job.ReloadAll? ==> !th.pc.Checking? && !th.pc.Begun? && !th.pc.RolledBack?)
    && (th.job.LoadBundle? ==> !th.pc.Listed? && !th.pc.Between?)
    && (forall i, j :: 0 <= i < j < |th.queue| ==> th.queue[i].0 != th.queue[j].0)
    && (th.pc.Rebuilding? ==> forall i :: 0 <= i < |th.queue| ==> th.queue[i].0 != th.pc.exam)
  }

  /** A token that was issued and has not published. */
  predicate Unspent(sh: Shared, e: Id, token: nat) {
    token <= Gen(sh.mem, e) && token !in Published(sh, e)
  }

  /** Tokens are issued to one thread, never exceed the generation, and are given up when published. */
  ghost predicate TokensOk(s: State) {
    && (forall tid :: tid in s.threads ==> QueueOk(s.threads[tid]))
    && (forall tid, e, t: nat :: tid in s.threads && Owns(s.threads[tid], e, t) ==> Unspent(s.sh, e, t))
    && (forall tid, tod, e, t: nat :: tid in s.threads && tod in s.threads && Owns(s.threads[tid], e, t) && Owns(s.threads[tod], e, t) ==>
          tid == tod)
    && (forall e :: PublishedOk(s.sh, e))
  }

  ghost predicate PublishedOk(sh: Shared, e: Id) {
    Increasing(Published(sh, e)) && forall t :: t in Published(sh, e) ==> t <= Gen(sh.mem, e)
  }

  // ---- One turn ----

  /** A turn may issue newer tokens to its thread and publish one it owned. */
  ghost predicate TokenTurn(sh: Shared, th: Thread, t: Turn, e: Id) {
    && Gen(sh.mem, e) <= Gen(t.sh.mem, e)
    && (forall k: nat :: Owns(t.th, e, k) ==> Owns(th, e, k) || (Gen(sh.mem, e) < k <= Gen(t.sh.mem, e)))
    && (Published(t.sh, e) == Published(sh, e)
        || (Owns(th, e, Gen(sh.mem, e)) && !Owns(t.th, e, Gen(sh.mem, e)) && Gen(t.sh.mem, e) == Gen(sh.mem, e)
            && Published(t.sh, e) == Published(sh, e) + [Gen(sh.mem, e)]))
  }

  lemma RebuildTokens(sh: Shared, th: Thread, ok: bool, e: Id)
    requires th.pc.Rebuilding? && QueueOk(th)
    ensures var t := RebuildStep(sh, th, th.pc.exam, th.pc.token, th.pc.stage, ok);
      TokenTurn(sh, th, t, e) && QueueOk(t.th)
  {
    hide View, Publish, MarkUnready;
    SameGenerations(sh.mem, th.pc.exam, th.pc.token, if th.pc.stage.PublishIt? then th.pc.stage.content else [], e);
    var t := RebuildStep(sh, th, th.pc.exam, th.pc.token, th.pc.stage, ok);
    assert t.th.queue == th.queue;
    assert forall k: nat :: (th.pc.exam, k) !in th.queue;
  }

  lemma SameGenerations(m: Memory, x: Id, token: nat, c: Content, e: Id)
    ensures Gen(MarkUnready(m, x), e) == Gen(m, e) && Gen(Publish(m, x, token, c), e) == Gen(m, e)
  {
  }

  lemma LoadTokens(sh: Shared, th: Thread, ok: bool, e: Id)
    requires (th.pc.Checking? || th.pc.Begun? || th.pc.RolledBack?) && QueueOk(th)
    ensures var t := LoadStep(sh, th, ok);
      TokenTurn(sh, th, t, e) && QueueOk(t.th)
  {
    hide View;
    assert th.queue == [];
  }

  lemma TokensOfOrder(m: Memory, order: seq<Id>, e: Id, k: nat)
    requires (e, k) in Tokens(m, order)
    ensures e in order && k == Gen(m, e)
  {
  }

  lemma ReloadTokens(sh: Shared, th: Thread, tid: Tid, order: seq<Id>, e: Id)
    requires (th.pc.Starting? || th.pc.Listed? || th.pc.Between?) && th.job.ReloadAll? && QueueOk(th)
    ensures var t := ReloadStep(sh, th, tid, order);
      TokenTurn(sh, th, t, e) && QueueOk(t.th)
  {
    hide View, Elements, Tokens;
    var t := ReloadStep(sh, th, tid, order);
    if th.pc.Between? && th.queue != [] {
      assert th.queue == [th.queue[0]] + th.queue[1..];
    } else if th.pc.Listed? && t.th.queue != th.queue {
      ListedTokens(sh, th, order, e);
    }
  }

  lemma ListedTokens(sh: Shared, th: Thread, order: seq<Id>, e: Id)
    requires th.pc.Listed? && Elements(order) == th.listed && Distinct(order)
    ensures forall k: nat :: (e, k) in Tokens(MarkReload(sh.mem, th.listed), order) ==>
      Gen(sh.mem, e) < k <= Gen(MarkReload(sh.mem, th.listed), e)
    ensures forall i, j :: 0 <= i < j < |order| ==>
      Tokens(MarkReload(sh.mem, th.listed), order)[i].0 != Tokens(MarkReload(sh.mem, th.listed), order)[j].0
    ensures |Tokens(MarkReload(sh.mem, th.listed), order)| == |order|
  {
    var m := MarkReload(sh.mem, th.listed);
    forall k: nat | (e, k) in Tokens(m, order) ensures Gen(sh.mem, e) < k <= Gen(m, e) {
      TokensOfOrder(m, order, e, k);
      assert e in Elements(order);
    }
  }

  lemma AnyTokens(sh: Shared, th: Thread, tid: Tid, ok: bool, order: seq<Id>, e: Id)
    requires QueueOk(th)
    ensures TokenTurn(sh, th, TakeTurn(sh, th, tid, ok, order), e) && QueueOk(TakeTurn(sh, th, tid, ok, order).th)
  {
    hide View, RebuildStep, ReloadStep, LoadStep, Increasing;
    if th.pc.Rebuilding? {
      RebuildTokens(sh, th, ok, e);
    } else if th.pc.Leaving? {
    } else if th.pc.Starting? && th.job.LoadBundle? {
    } else if th.pc.Starting? || th.pc.Listed? || th.pc.Between? {
      ReloadTokens(sh, th, tid, order, e);
    } else if th.pc.Done? {
      DoneTurn(sh, th, ok);
    } else {
      LoadTokens(sh, th, ok, e);
    }
  }

  // ---- Every run ----

  lemma PublishedStaysOk(sh: Shared, th: Thread, t: Turn, e: Id)
    requires PublishedOk(sh, e) && TokenTurn(sh, th, t, e)
    requires forall k: nat :: Owns(th, e, k) ==> Unspent(sh, e, k)
    ensures PublishedOk(t.sh, e)
  {
    hide Owns;
    var was, now := Published(sh, e), Published(t.sh, e);
    if now != was {
      assert Unspent(sh, e, Gen(sh.mem, e));
      forall i | 0 <= i < |was| ensures was[i] < Gen(sh.mem, e) {
        assert was[i] in was;
      }
    }
  }

  lemma OthersKeepTokens(sh: Shared, th: Thread, t: Turn, other: Thread, e: Id, k: nat)
    requires TokenTurn(sh, th, t, e) && Owns(other, e, k) && !Owns(th, e, k)
    requires Unspent(sh, e, k)
    ensures Unspent(t.sh, e, k) && !Owns(t.th, e, k)
  {
    hide Owns;
  }

  lemma OwnKeepsTokens(sh: Shared, th: Thread, t: Turn, e: Id, k: nat)
    requires TokenTurn(sh, th, t, e) && PublishedOk(sh, e) && Owns(t.th, e, k)
    requires Owns(th, e, k) ==> Unspent(sh, e, k)
    ensures Unspent(t.sh, e, k)
  {
    hide Owns;
  }

  lemma StepTokens(s: State, tid: Tid, ok: bool, order: seq<Id>)
    requires TokensOk(s) && tid in s.threads
    ensures TokensOk(Next(s, Step(tid, ok, order)))
  {
    hide TakeTurn, Owns, PublishedOk, QueueOk, TokenTurn, Unspent;
    var th := s.threads[tid];
    var t := TakeTurn(s.sh, th, tid, ok, order);
    AnyTokens(s.sh, th, tid, ok, order, "");
    forall e ensures TokenTurn(s.sh, th, t, e) {
      AnyTokens(s.sh, th, tid, ok, order, e);
    }
    forall e ensures PublishedOk(t.sh, e) {
      PublishedStaysOk(s.sh, th, t, e);
    }
    forall tod, e, k: nat | tod in s.threads && tod != tid && Owns(s.threads[tod], e, k)
      ensures Unspent(t.sh, e, k) && !Owns(t.th, e, k)
    {
      OthersKeepTokens(s.sh, th, t, s.threads[tod], e, k);
    }
    forall e, k: nat | Owns(t.th, e, k) ensures Unspent(t.sh, e, k) {
      OwnKeepsTokens(s.sh, th, t, e, k);
    }
    var s' := Next(s, Step(tid, ok, order));
    assert s' == State(t.sh, s.threads[tid := t.th]);
    forall a, b, e, k: nat | a in s'.threads && b in s'.threads && Owns(s'.threads[a], e, k) && Owns(s'.threads[b], e, k)
      ensures a == b
    {
      assert a != tid && b != tid ==> Owns(s.threads[a], e, k) && Owns(s.threads[b], e, k);
    }
  }

  lemma {:induction false} ReachableTokens(s: State, es: seq<Event>)
    requires Init(s)
    ensures TokensOk(Run(s, es))
  {
    hide Next;
    if es == [] {
    } else {
      var front, e := es[..|es| - 1], es[|es| - 1];
      ReachableTokens(s, front);
      NextTokens(Run(s, front), e);
    }
  }

  lemma NextTokens(s: State, e: Event)
    requires TokensOk(s)
    ensures TokensOk(Next(s, e))
  {
    hide TakeTurn, PublishedOk, Unspent;
    if e.Step? && e.tid in s.threads {
      StepTokens(s, e.tid, e.ok, e.order);
    }
  }

  /** Per exam, publications happen in strictly increasing token order, and none is ahead of the generation. */
  lemma PublicationsInOrder(s: State, es: seq<Event>, e: Id)
    requires Init(s)
    ensures var t := Run(s, es).sh;
      Increasing(Published(t, e)) && forall k :: k in Published(t, e) ==> k <= Gen(t.mem, e)
  {
    hide Init, Run;
    ReachableTokens(s, es);
    assert PublishedOk(Run(s, es).sh, e);
  }
}
