/**
  The content cache as the service keeps it: three maps under a mutex, rewritten in place. Each
  method leaves exactly what its statement in the content model says.
 */
module ContentService {
  import opened Common
  import opened Entities
  import M = ContentModel

  /** After marking, nothing cached or persisted is served. */
  lemma ReloadMarksAll(m: M.Memory, db: M.Items)
    ensures var marked := M.MarkReload(m, db.Keys);
      marked.cache == m.cache && marked.cache.Keys + db.Keys <= marked.unready && marked.unready == m.unready + m.cache.Keys + db.Keys
  {
  }

  /** Each of these exams unready, under its next generation. */
  function Invalidated(m: M.Memory, ids: set<Id>): M.Memory {
    m.(unready := m.unready + ids,
       generation := map e | e in m.generation.Keys + ids :: M.Gen(m, e) + if e in ids then 1 else 0)
  }

  lemma InvalidateNone(m: M.Memory)
    ensures Invalidated(m, {}) == m
  {
    assert Invalidated(m, {}).generation == m.generation;
  }

  lemma InvalidateOne(m: M.Memory, done: set<Id>, e: Id)
    requires e !in done
    ensures var now := Invalidated(m, done);
      && M.Gen(now, e) == M.Gen(m, e)
      && Invalidated(m, done + {e}) == M.Begin(now, e)
  {
    assert Invalidated(m, done + {e}).generation == M.Begin(Invalidated(m, done), e).generation;
  }

  lemma InvalidatedTokens(m: M.Memory, ids: set<Id>)
    ensures forall e :: e in ids ==> M.Gen(Invalidated(m, ids), e) == M.Gen(m, e) + 1
  {
  }

  class Service {
    var cache: map<Id, M.Content>
    var unready: set<Id>
    var generation: map<Id, nat>

    function Mem(): M.Memory
      reads this
    {
      M.Memory(cache, unready, generation)
    }

    constructor ()
      ensures Mem() == M.Memory(map[], {}, map[])
    {
      cache, unready, generation := map[], {}, map[];
    }

    /** The exam becomes unready under its next generation. */
    method NextGeneration(e: Id) returns (token: nat)
      modifies this`unready, this`generation
      ensures Mem() == M.Begin(old(Mem()), e) && token == M.Gen(Mem(), e) == M.Gen(old(Mem()), e) + 1
    {
      token := (if e in generation then generation[e] else 0) + 1;
      generation := generation[e := token];
      unready := unready + {e};
    }

    method BeginRebuild(e: Id) returns (token: nat)
      modifies this`unready, this`generation
      ensures Mem() == M.Begin(old(Mem()), e) && token == M.Gen(Mem(), e)
    {
      token := NextGeneration(e);
    }

    method CancelRebuild(e: Id, token: nat) returns (current: bool)
      modifies this`unready
      ensures Mem() == M.Cancel(old(Mem()), e, token) && current == (M.Gen(old(Mem()), e) == token)
    {
      if (if e in generation then generation[e] else 0) != token {
        return false;
      }
      if e !in cache {
        unready := unready - {e};
        return true;
      }
      unready := unready + {e};
      current := true;
    }

    method MarkUnready(e: Id)
      modifies this`unready
      ensures Mem() == M.MarkUnready(old(Mem()), e)
    {
      unready := unready + {e};
    }

    /** The student-facing items, in listing order. */
    method BuildContent(items: seq<Item>) returns (content: M.Content)
      ensures content == M.View(items) && M.ShowsItems(content, items)
    {
      M.ShowsIff(M.View(items), items);
      content := [];
      for i := 0 to |items|
        invariant content == M.View(items)[..i]
      {
        content := content + [M.Dto(items[i])];
      }
    }

    /** Rebuilds one exam from its rows: published, unless it fails or its token is no longer the current one. */
    method RebuildExam(db: M.Items, e: Id, token: Option<nat>, readable: bool) returns (ok: bool)
      modifies this`cache, this`unready
      ensures ok <==> (token.None? || M.Gen(old(Mem()), e) == token.value) && readable && e in db
      ensures Mem() == if token.Some? && M.Gen(old(Mem()), e) != token.value then old(Mem())
                       else if ok then M.Put(old(Mem()), e, M.View(db[e]))
                       else M.MarkUnready(old(Mem()), e)
      ensures ok ==> e in cache && M.ShowsItems(cache[e], db[e])
    {
      hide M.View, M.ShowsItems;
      if token.Some? && (if e in generation then generation[e] else 0) != token.value {
        return false;
      }
      if e !in db || !readable {
        MarkUnready(e);
        return false;
      }
      var content := BuildContent(db[e]);
      cache := cache[e := content];
      unready := unready - {e};
      ok := true;
    }

    /** Each exam becomes unready under its next generation, which is its token. */
    method Invalidate(ids: set<Id>) returns (tokens: map<Id, nat>)
      modifies this`unready, this`generation
      ensures Mem() == Invalidated(old(Mem()), ids)
      ensures tokens.Keys == ids && forall e :: e in ids ==> tokens[e] == M.Gen(Mem(), e)
    {
      hide Invalidated, M.Gen, M.Begin, Mem;
      ghost var before := Mem();
      var done: set<Id> := {};
      tokens := map[];
      InvalidateNone(before);
      while ids - done != {}
        invariant done <= ids && tokens.Keys == done && Mem() == Invalidated(before, done)
        invariant forall e :: e in tokens ==> tokens[e] == M.Gen(before, e) + 1
        decreases ids - done
      {
        var e :| e in ids - done;
        InvalidateOne(before, done, e);
        var token := NextGeneration(e);
        tokens := tokens[e := token];
        done := done + {e};
      }
      assert done == ids by {
        assert forall e :: e in ids && e !in done ==> e in ids - done;
      }
      InvalidatedTokens(before, ids);
    }

    /**
      Marks every cached and then every listed exam unready under a newer generation, and issues the listed
      ones' tokens.
     */
    method MarkReload(listed: set<Id>) returns (tokens: map<Id, nat>)
      modifies this`unready, this`generation
      ensures Mem() == M.MarkReload(old(Mem()), listed)
      ensures tokens.Keys == listed && forall e :: e in listed ==> tokens[e] == M.Gen(Mem(), e)
    {
      ghost var before := Mem();
      var _ := Invalidate(cache.Keys);
      tokens := Invalidate(listed);
      assert generation == M.MarkReload(before, listed).generation;
    }

    /** Forgets every exam that was not persisted when the reload began. */
    method Cleanup(listed: set<Id>)
      modifies this`cache, this`unready
      ensures Mem() == M.Cleanup(old(Mem()), listed)
    {
      ghost var before := Mem();
      var rest := cache.Keys;
      while rest != {}
        invariant rest <= before.cache.Keys && unready == before.unready && generation == before.generation
        invariant forall e :: e in cache <==> e in before.cache && (e in rest || e in listed)
        invariant forall e :: e in cache ==> cache[e] == before.cache[e]
        decreases |rest|
      {
        var e :| e in rest;
        if e !in listed {
          cache := cache - {e};
        }
        rest := rest - {e};
      }
      assert cache == M.Cleanup(before, listed).cache;
      rest := unready;
      while rest != {}
        invariant rest <= before.unready && unready == (before.unready * listed) + rest
        invariant cache == M.Cleanup(before, listed).cache && generation == before.generation
        decreases |rest|
      {
        var e :| e in rest;
        if e !in listed {
          unready := unready - {e};
        }
        rest := rest - {e};
      }
    }

    /** Rebuilds the listed exams in order, each under its token, until one fails. */
    method RebuildListed(db: M.Items, order: seq<Id>, tokens: map<Id, nat>, readable: Id -> bool) returns (ok: bool)
      requires Elements(order) == db.Keys && Distinct(order) && cache.Keys <= unready
      requires forall e :: e in db ==> e in tokens && tokens[e] == M.Gen(Mem(), e)
      modifies this`cache, this`unready
      ensures ok <==> forall e :: e in db ==> readable(e)
      ensures ok ==> cache.Keys == old(cache.Keys) + db.Keys && unready == old(unready) - db.Keys
      ensures ok ==> forall e :: e in db ==> cache[e] == M.View(db[e]) && M.ShowsItems(cache[e], db[e])
      ensures M.Agrees(Mem(), db)
    {
      hide M.View, M.ShowsItems, Elements, Distinct;
      WholePrefix(order);
      for i := 0 to |order|
        invariant generation == old(generation) && cache.Keys == old(cache.Keys) + Elements(order[..i])
        invariant unready == old(unready) - Elements(order[..i])
        invariant forall e :: e in Elements(order[..i]) ==>
          e in db && readable(e) && cache[e] == M.View(db[e]) && M.ShowsItems(cache[e], db[e])
      {
        var e := order[i];
        PrefixElements(order, i);
        var rebuilt := RebuildExam(db, e, Some(tokens[e]), readable(e));
        if !rebuilt {
          return false;
        }
      }
      ok := true;
    }

    /**
      A reload that nothing interrupts serves exactly the persisted exams with their stored items; a failing
      rebuild stops it.
     */
    method ReloadAllCaches(db: M.Items, order: seq<Id>, readable: Id -> bool) returns (ok: bool)
      requires Elements(order) == db.Keys && Distinct(order)
      modifies this
      ensures ok <==> forall e :: e in db ==> readable(e)
      ensures ok ==> cache.Keys == db.Keys && forall e :: e in db ==> M.ShowsItems(cache[e], db[e])
      ensures ok ==> unready == {}
      ensures M.Agrees(Mem(), db)
    {
      hide M.View, M.ShowsItems, M.Gen, M.MarkReload, Elements, Distinct;
      ReloadMarksAll(Mem(), db);
      var tokens := MarkReload(db.Keys);
      ok := RebuildListed(db, order, tokens, readable);
      if ok {
        Cleanup(db.Keys);
      }
    }

    /** Startup: every persisted exam is rebuilt before the node accepts traffic. */
    method RehydrateAllCaches(db: M.Items, order: seq<Id>, readable: Id -> bool) returns (ok: bool)
      requires Elements(order) == db.Keys && Distinct(order) && Mem() == M.Memory(map[], {}, map[])
      modifies this`cache, this`unready
      ensures ok <==> forall e :: e in db ==> readable(e)
      ensures ok ==> cache.Keys == db.Keys && (forall e :: e in db ==> M.ShowsItems(cache[e], db[e])) && unready == {}
      ensures M.Agrees(Mem(), db)
    {
      hide M.View, M.ShowsItems, Elements, Distinct;
      WholePrefix(order);
      for i := 0 to |order|
        invariant generation == map[] && unready == {} && cache.Keys == Elements(order[..i])
        invariant forall e :: e in Elements(order[..i]) ==>
          e in db && readable(e) && cache[e] == M.View(db[e]) && M.ShowsItems(cache[e], db[e])
      {
        PrefixElements(order, i);
        var rebuilt := RebuildExam(db, order[i], None, readable(order[i]));
        if !rebuilt {
          return false;
        }
      }
      ok := true;
    }

    /** Content of exactly the requested exam, or a refusal. */
    method GetExamContent(e: Id) returns (r: M.Reply)
      ensures r == M.Serve(Mem(), e)
    {
      if e in unready {
        return M.NotReady;
      }
      if e !in cache {
        return M.NotLoaded;
      }
      r := M.Served(cache[e]);
    }

    // ---- The readiness surface ----

    /** Whether both sides hold the same identifiers, in any order and with any duplicates. */
    static method SameSet(a: seq<Id>, b: set<Id>) returns (same: bool)
      ensures same <==> Elements(a) == b
    {
      var setA: set<Id> := {};
      for i := 0 to |a|
        invariant setA == Elements(a[..i])
      {
        setA := setA + {a[i]};
        assert a[..i + 1] == a[..i] + [a[i]];
      }
      assert a[..|a|] == a;
      if |setA| != |b| {
        return false;
      }
      var rest := b;
      while rest != {}
        invariant rest <= b && b - rest <= setA
        decreases |rest|
      {
        var id :| id in rest;
        if id !in setA {
          return false;
        }
        rest := rest - {id};
      }
      assert setA == b + (setA - b);
      same := true;
    }

    /** `/readyz`: 200 exactly when exams are persisted, none is unready, and the cache holds exactly them. */
    method Readyz(reachable: bool, persisted: seq<Id>) returns (ready: bool)
      ensures ready <==> reachable && M.Ready(Mem(), Elements(persisted))
    {
      if !reachable || |persisted| == 0 {
        assert persisted == [] ==> Elements(persisted) == {};
        return false;
      }
      assert persisted[0] in Elements(persisted);
      var same := SameSet(persisted, cache.Keys);
      ready := unready == {} && same;
    }
  }
}
