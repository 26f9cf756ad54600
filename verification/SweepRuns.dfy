/** A sweep that nothing interrupts is a run of the machine: each sitting is seen expired, and finalised at its instant. */
module SweepRuns {
  import opened Common
  import opened Entities
  import opened AttemptModel
  import opened SittingMachine
  import opened SittingHistory
  import opened SweeperService
  import opened HarvestSteps
  import ServiceRuns
  import SittingInvariant

  /** The node after the sweep of `done`, at an instant. */
  ghost function SweptState(s: State, done: set<Id>, now: Time, times: Id -> Time, at: Time): State {
    s.(db := s.db.(attempts := Swept(s.db, done, now, times)), clock := at)
  }

  lemma LatestOf(ids: set<Id>, times: Id -> Time) returns (m: Id)
    requires ids != {}
    ensures m in ids && forall x :: x in ids ==> times(x) <= times(m)
    decreases ids
  {
    m :| m in ids;
    if ids != {m} {
      assert ids - {m} != {} by {
        assert ids == (ids - {m}) + {m};
      }
      var l := LatestOf(ids - {m}, times);
      if times(m) <= times(l) {
        m := l;
      }
    }
  }

  /** Every expired sitting is seen first. */
  lemma {:induction false} SeeAll(s: State, ids: set<Id>) returns (es: seq<Event>)
    requires ids <= ExpiredIds(s.db, s.clock)
    ensures Others(es) && Run(s, es) == s.(seenExpired := s.seenExpired + ids)
    decreases ids
  {
    hide Next;
    if ids == {} {
      assert s.seenExpired + ids == s.seenExpired;
      es := [];
    } else {
      var id :| id in ids;
      es := SeeAll(s, ids - {id});
      ServiceRuns.SeeIs(Run(s, es), id);
      RunNext(s, es, SeeExpired(id));
      es := es + [SeeExpired(id)];
      assert s.seenExpired + (ids - {id}) + {id} == s.seenExpired + ids;
    }
  }

  /** Then each is finalised, in the order of the instants. */
  lemma {:induction false} ExpireAll(s: State, ids: set<Id>, now: Time, times: Id -> Time, later: Time)
    returns (es: seq<Event>)
    requires ids <= s.seenExpired && ids <= ExpiredIds(s.db, now) && s.clock <= later
    requires forall id :: id in s.db.attempts ==> s.db.attempts[id].id == id
    requires forall id :: id in ids ==> s.clock <= times(id) <= later
    ensures Others(es) && Run(s, es) == SweptState(s, ids, now, times, later)
    decreases ids
  {
    hide Next, Swept, AfterFinalize;
    if ids == {} {
      NothingSwept(s.db, now, times);
      ServiceRuns.TickIs(s, later - s.clock);
      RunNext(s, [], Tick(later - s.clock));
      es := [] + [Tick(later - s.clock)];
    } else {
      var m := LatestOf(ids, times);
      var rest := ids - {m};
      es := ExpireAll(s, rest, now, times, times(m));
      ExpireOne(s, Run(s, es), rest, m, now, times);
      RunNext(s, es, Expire(m));
      assert rest + {m} == ids;
      es := es + [Expire(m)];
      ServiceRuns.TickIs(Run(s, es), later - times(m));
      RunNext(s, es, Tick(later - times(m)));
      es := es + [Tick(later - times(m))];
    }
  }

  lemma ExpireOne(s: State, mid: State, rest: set<Id>, m: Id, now: Time, times: Id -> Time)
    requires mid == SweptState(s, rest, now, times, times(m)) && m in s.seenExpired && m !in rest
    requires m in ExpiredIds(s.db, now) && s.db.attempts[m].id == m
    ensures Next(mid, Expire(m)) == SweptState(s, rest + {m}, now, times, times(m))
  {
    hide Next, Swept, FinalizeAttempt;
    ServiceRuns.ExpireIs(mid, m);
    SweptNext(s.db, mid.db, rest, m, now, times);
    SittingInvariant.FinalizeEffect(mid.db, m, true, times(m));
    assert mid.db.attempts[m := mid.db.attempts[m]] == mid.db.attempts;
  }

  /** A sweep finalises exactly what had expired, each sitting at its own instant, and is a run. */
  lemma SweepIsRun(s: State, times: Id -> Time, later: Time) returns (es: seq<Event>, t: State)
    requires forall id :: id in s.db.attempts ==> s.db.attempts[id].id == id
    requires forall id :: s.clock <= times(id) <= later
    ensures Others(es) && t == Run(s, es) && t.clock == later && t.drain == s.drain && t.central == s.central
    ensures t.db == s.db.(attempts := Swept(s.db, ExpiredIds(s.db, s.clock), s.clock, times))
  {
    hide Next, Run, Swept;
    var ids := ExpiredIds(s.db, s.clock);
    es := SeeAll(s, ids);
    var seen := Run(s, es);
    assert s.clock <= times("") <= later;
    var more := ExpireAll(seen, ids, s.clock, times, later);
    t := SweptState(seen, ids, s.clock, times, later);
    RunOn(s, es, more);
    es := es + more;
  }
}
