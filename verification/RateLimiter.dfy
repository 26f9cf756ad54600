/**
  The sliding-window limiter of the login: per key the hits inside the window, filtered in place, and
  a bounded number of keys, the oldest of which is evicted for a new one.
 */
module RateLimiter {
  import opened Common

  const MAX_KEYS := 4096

  /** The hits after `cut`, in order. */
  function Fresh(hits: seq<Time>, cut: Time): seq<Time> {
    if hits == [] then []
    else
      var last := hits[|hits| - 1];
      Fresh(hits[..|hits| - 1], cut) + if last > cut then [last] else []
  }

  ghost predicate Ordered(ts: seq<Time>) {
    forall i, j :: 0 <= i < j < |ts| ==> ts[i] <= ts[j]
  }

  /** Any two admissions `limit` apart are at least a window apart. */
  ghost predicate Spaced(ts: seq<Time>, limit: int, window: int) {
    forall i :: 0 <= i < |ts| && 0 <= i + limit < |ts| ==> ts[i + limit] - ts[i] >= window
  }

  /** `kept` is what remains of `ts` once everything up to `cut` has gone. */
  ghost predicate Remains(kept: seq<Time>, ts: seq<Time>, cut: Time) {
    && |kept| <= |ts| && kept == ts[|ts| - |kept|..]
    && forall i :: 0 <= i < |ts| - |kept| ==> ts[i] <= cut
  }

  /** Filtering an ordered remainder drops a prefix and leaves the later remainder. */
  lemma {:induction false} FreshRemains(kept: seq<Time>, ts: seq<Time>, cut: Time, later: Time)
    requires Ordered(ts) && Remains(kept, ts, cut) && cut <= later
    ensures Remains(Fresh(kept, later), ts, later)
    ensures forall t :: t in Fresh(kept, later) ==> t > later
  {
    FreshIsSuffix(kept, later);
    var n, d := |Fresh(kept, later)|, |ts| - |kept|;
    assert Fresh(kept, later) == ts[|ts| - n..];
    forall i | 0 <= i < |ts| - n ensures ts[i] <= later {
      if i >= d {
        assert kept[i - d] == ts[i];
      }
    }
  }

  lemma FreshIsSuffix(hits: seq<Time>, cut: Time)
    requires Ordered(hits)
    ensures var n := |Fresh(hits, cut)|;
      n <= |hits| && Fresh(hits, cut) == hits[|hits| - n..]
      && (forall i :: 0 <= i < |hits| - n ==> hits[i] <= cut) && (forall i :: |hits| - n <= i < |hits| ==> hits[i] > cut)
  {
    hide Fresh;
    var m := SplitPoint(hits, cut);
    FreshFrom(hits, cut, m);
  }

  /** Ordered hits split into those up to `cut` and those after it. */
  ghost predicate Splits(hits: seq<Time>, cut: Time, m: nat) {
    m <= |hits| && (forall i :: 0 <= i < m ==> hits[i] <= cut) && (forall i :: m <= i < |hits| ==> hits[i] > cut)
  }

  lemma {:induction false} SplitPoint(hits: seq<Time>, cut: Time) returns (m: nat)
    requires Ordered(hits)
    ensures Splits(hits, cut, m)
  {
    if hits == [] || hits[|hits| - 1] <= cut {
      m := |hits|;
    } else {
      m := SplitPoint(hits[..|hits| - 1], cut);
    }
  }

  lemma {:induction false} FreshFrom(hits: seq<Time>, cut: Time, m: nat)
    requires Splits(hits, cut, m)
    ensures Fresh(hits, cut) == hits[m..]
  {
    if hits != [] {
      var front, last := hits[..|hits| - 1], hits[|hits| - 1];
      if m == |hits| {
        FreshFrom(front, cut, m - 1);
      } else {
        FreshFrom(front, cut, m);
        assert hits[m..] == front[m..] + [last];
      }
    }
  }

  /** Admitting while fewer than `limit` hits are inside the window keeps the admissions spaced. */
  lemma AdmitKeepsSpaced(ts: seq<Time>, kept: seq<Time>, now: Time, limit: int, window: int)
    requires Spaced(ts, limit, window) && limit > 0 && Remains(kept, ts, now - window) && |kept| < limit
    ensures Spaced(ts + [now], limit, window)
  {
    var all := ts + [now];
    forall i | 0 <= i < |all| && 0 <= i + limit < |all| ensures all[i + limit] - all[i] >= window {
      if i + limit == |ts| {
        assert i < |ts| - |kept|;
      }
    }
  }

  /** The key has no hits, or its first hit is oldest of all. */
  predicate Oldest(hits: map<string, seq<Time>>, victim: string) {
    victim in hits && (hits[victim] == [] || forall k :: k in hits ==> hits[k] != [] && hits[victim][0] <= hits[k][0])
  }

  /** The keys evicted for a call: none, unless a new key finds the map full; then one, an oldest. */
  ghost predicate Evicted(key: string, hits: map<string, seq<Time>>, lost: set<string>) {
    if key in hits || |hits| < 4096 then lost == {} else exists victim :: Oldest(hits, victim) && lost == {victim}
  }

  class Limiter {
    const limit: int
    const window: int
    var hits: map<string, seq<Time>>
    /** Every admission of each key since the key was last evicted, and the time of the last call. */
    ghost var admitted: map<string, seq<Time>>
    ghost var latest: Time

    /** At most 4096 keys, and per key the hits are the admissions still in the window. */
    ghost predicate Valid()
      reads this
    {
      && |hits| <= 4096 && admitted.Keys == hits.Keys
      && forall k :: k in hits ==> hits[k] != [] && KeyOk(hits[k], admitted[k], limit, window, latest)
    }

    constructor (limit: int, window: nat, start: Time)
      ensures Valid() && this.limit == limit && this.window == window && hits == map[] && latest == start
    {
      this.limit, this.window, this.hits, this.admitted, this.latest := limit, window, map[], map[], start;
    }

    /** Keeps the hits after `cut` at the front of the array, in order, and says how many there are. */
    static method FilterInPlace(h: array<Time>, cut: Time) returns (n: nat)
      modifies h
      ensures n <= h.Length && h[..n] == Fresh(old(h[..]), cut)
    {
      n := 0;
      for i := 0 to h.Length
        invariant n <= i && h[..n] == Fresh(old(h[..i]), cut)
        invariant forall k :: i <= k < h.Length ==> h[k] == old(h[k])
      {
        ghost var before := old(h[..i + 1]);
        assert before[..i] == old(h[..i]) && before[i] == h[i];
        if h[i] > cut {
          h[n] := h[i];
          n := n + 1;
          assert h[..n] == h[..n - 1] + [h[n - 1]];
        }
      }
      assert old(h[..h.Length]) == old(h[..]);
    }

    static method Filtered(stored: seq<Time>, cut: Time) returns (kept: seq<Time>)
      ensures kept == Fresh(stored, cut)
    {
      hide Fresh;
      var h := new Time[|stored|](i requires 0 <= i < |stored| => stored[i]);
      assert h[..] == stored;
      var n := FilterInPlace(h, cut);
      kept := h[..n];
    }

    /** The key whose first hit is oldest, or one without hits. */
    method OldestKey() returns (victim: string)
      requires hits != map[]
      ensures Oldest(hits, victim)
    {
      var rest := hits.Keys;
      victim :| victim in rest;
      rest := rest - {victim};
      if hits[victim] == [] {
        return;
      }
      while rest != {}
        invariant victim in hits && hits[victim] != [] && rest <= hits.Keys
        invariant forall k :: k in hits && k !in rest ==> hits[k] != [] && hits[victim][0] <= hits[k][0]
        decreases |rest|
      {
        var k :| k in rest;
        rest := rest - {k};
        if hits[k] == [] {
          return k;
        }
        if hits[k][0] < hits[victim][0] {
          victim := k;
        }
      }
    }

    /** Forgets an oldest key when a new one finds the map full. */
    method MakeRoom(key: string) returns (ghost lost: set<string>)
      requires Valid()
      modifies this`hits, this`admitted
      ensures Valid() && Evicted(key, old(hits), lost) && hits == old(hits) - lost && admitted == old(admitted) - lost
      ensures key in hits <==> key in old(hits)
      ensures key !in hits ==> |hits| < MAX_KEYS
    {
      hide KeyOk;
      lost := {};
      if |hits| >= MAX_KEYS && key !in hits {
        var victim := OldestKey();
        Shrinks(hits, victim);
        hits, admitted, lost := hits - {victim}, admitted - {victim}, {victim};
      }
    }

    /**
      Admits a hit unless `limit` hits of its key are inside the window; a limit of zero or less admits everything and
      writes nothing. No other key is touched, but for the one evicted to make room.
     */
    method Allow(key: string, now: Time) returns (ok: bool, ghost lost: set<string>)
      requires Valid() && latest <= now
      modifies this`hits, this`admitted, this`latest
      ensures Valid() && latest == now
      ensures limit <= 0 ==> ok && hits == old(hits) && admitted == old(admitted)
      ensures limit > 0 ==>
        var stored, past := if key in old(hits) then old(hits)[key] else [], if key in old(hits) then old(admitted)[key] else [];
        var kept := Fresh(stored, now - window);
        && ok == (|kept| < limit) && Evicted(key, old(hits), lost)
        && hits == (old(hits) - lost)[key := kept + if ok then [now] else []]
        && admitted == (old(admitted) - lost)[key := past + if ok then [now] else []]
    {
      hide *;
      Advance(now);
      lost := {};
      OfKey(key);
      if limit <= 0 {
        return true, lost;
      }
      ghost var past := if key in hits then admitted[key] else [];
      var stored := if key in hits then hits[key] else [];
      NothingYet(limit, window, now);
      CallOfKey(stored, past, limit, window, now, now);
      var kept := Filtered(stored, now - window);
      lost := MakeRoom(key);
      ok := |kept| < limit;
      if ok {
        StoreHits(key, kept + [now], past + [now]);
      } else {
        assert kept + [] == kept && past + [] == past;
        StoreHits(key, kept, past);
      }
    }

    method StoreHits(key: string, h: seq<Time>, ghost a: seq<Time>)
      requires Valid() && h != [] && KeyOk(h, a, limit, window, latest) && (key in hits || |hits| < MAX_KEYS)
      modifies this`hits, this`admitted
      ensures Valid() && hits == old(hits)[key := h] && admitted == old(admitted)[key := a]
    {
      hide KeyOk;
      Grows(hits, key, h);
      hits, admitted := hits[key := h], admitted[key := a];
    }

    ghost method Advance(now: Time)
      requires Valid() && latest <= now
      modifies this`latest
      ensures Valid() && latest == now
    {
      TimePasses(now);
      latest := now;
    }

    lemma OfKey(key: string)
      requires Valid()
      ensures (key in hits <==> key in admitted)
      ensures key in hits ==> KeyOk(hits[key], admitted[key], limit, window, latest)
    {
      hide KeyOk;
    }

    /** As time passes the remainders stay remainders. */
    lemma TimePasses(now: Time)
      requires Valid() && latest <= now
      ensures forall k :: k in hits ==> KeyOk(hits[k], admitted[k], limit, window, now)
    {
    }
  }

  /** One key's hits, against everything it was admitted. */
  ghost predicate KeyOk(hits: seq<Time>, admitted: seq<Time>, limit: int, window: int, latest: Time) {
    && Ordered(admitted) && (forall t :: t in admitted ==> t <= latest)
    && Remains(hits, admitted, latest - window) && Spaced(admitted, limit, window)
  }

  lemma NothingYet(limit: int, window: int, latest: Time)
    ensures KeyOk([], [], limit, window, latest)
  {
  }

  /** What one call leaves of a key, refused or admitted. */
  lemma CallOfKey(stored: seq<Time>, past: seq<Time>, limit: int, window: int, latest: Time, now: Time)
    requires KeyOk(stored, past, limit, window, latest) && latest <= now && limit > 0
    ensures var kept := Fresh(stored, now - window);
      && KeyOk(kept, past, limit, window, now)
      && (|kept| < limit ==> KeyOk(kept + [now], past + [now], limit, window, now))
  {
    hide Spaced, Fresh;
    FreshRemains(stored, past, latest - window, now - window);
    var kept := Fresh(stored, now - window);
    if |kept| < limit {
      AdmitKeepsSpaced(past, kept, now, limit, window);
      Append(past, kept, now, now - window);
    }
  }

  /** A later hit at the end keeps the order and what remains. */
  lemma Append(past: seq<Time>, kept: seq<Time>, now: Time, cut: Time)
    requires Ordered(past) && (forall t :: t in past ==> t <= now) && Remains(kept, past, cut)
    ensures Ordered(past + [now]) && Remains(kept + [now], past + [now], cut) && forall t :: t in past + [now] ==> t <= now
  {
    var all := past + [now];
    forall i, j | 0 <= i < j < |all| ensures all[i] <= all[j] {
      assert i < |past| && past[i] in past;
    }
    assert all[|all| - |kept + [now]|..] == kept + [now];
  }

  lemma Shrinks<V>(m: map<string, V>, k: string)
    requires k in m
    ensures |m - {k}| == |m| - 1 && (m - {k}).Keys == m.Keys - {k}
  {
    assert m.Keys == (m - {k}).Keys + {k};
    assert |m.Keys| == |m| && |(m - {k}).Keys| == |m - {k}|;
  }

  lemma Grows<V>(m: map<string, V>, k: string, v: V)
    ensures |m[k := v]| == |m| + if k in m then 0 else 1
  {
    assert m[k := v].Keys == m.Keys + {k};
    assert |m.Keys| == |m| && |m[k := v].Keys| == |m[k := v]|;
  }

  /**
    Whenever the limiter is in order, two admissions of a key `limit` apart, without an eviction between, are
    a window apart.
   */
  lemma AdmissionsSpaced(l: Limiter, key: string, i: nat)
    requires l.Valid() && key in l.admitted && l.limit > 0 && i + l.limit < |l.admitted[key]|
    ensures l.admitted[key][i + l.limit] - l.admitted[key][i] >= l.window
  {
    hide Remains, Ordered;
    assert KeyOk(l.hits[key], l.admitted[key], l.limit, l.window, l.latest);
  }
}
