/**
  Recording integrity events under the attempt's row lock: at most ten a minute per attempt, and one
  of a type per five seconds.
 */
module IntegrityService {
  import opened Common
  import opened Entities
  import opened NodeRepository

  const RATE_LIMIT := 10
  const RATE_WINDOW := 60
  const DEDUP_WINDOW := 5

  type Events = seq<IntegrityEvent>

  /** How many stored events are at or after an instant. */
  function CountSince(events: Events, since: Time): nat {
    if events == [] then 0
    else CountSince(events[..|events| - 1], since) + if events[|events| - 1].createdAt >= since then 1 else 0
  }

  /** The latest stored event of a type at or after an instant. */
  function FindSince(events: Events, eventType: string, since: Time): Option<IntegrityEvent> {
    if events == [] then None
    else
      var last := events[|events| - 1];
      if last.eventType == eventType && last.createdAt >= since then Some(last)
      else FindSince(events[..|events| - 1], eventType, since)
  }

  type Reply = Result<IntegrityEvent, NodeError>

  /** The transaction: refused past the rate, answered from a recent event of the type, or stored. */
  function Record(db: Database, attemptId: Id, participantId: Id, eventType: string, now: Time, newId: Id): (Database,
                  Reply) {
    if attemptId !in db.attempts then (db, Err(AttemptNotFound))
    else if db.attempts[attemptId].participantId != participantId then (db, Err(Forbidden))
    else
      var events := db.EventsOf(attemptId);
      if CountSince(events, now - RATE_WINDOW) >= RATE_LIMIT then (db, Err(IntegrityFlood))
      else
        var dup := FindSince(events, eventType, now - DEDUP_WINDOW);
        if dup.Some? then (db, Ok(dup.value))
        else
          var event := IntegrityEvent(newId, attemptId, db.attempts[attemptId].studentId, eventType, now);
          (db.(events := db.events[attemptId := events + [event]]), Ok(event))
  }

  method RecordEvent(repo: Repository, attemptId: Id, participantId: Id, eventType: string, now: Time,
                     newId: Id) returns (r: Reply)
    modifies repo`events
    ensures (repo.Db(), r) == Record(old(repo.Db()), attemptId, participantId, eventType, now, newId)
  {
    if attemptId !in repo.attempts {
      return Err(AttemptNotFound);
    }
    var attempt := repo.attempts[attemptId];
    if attempt.participantId != participantId {
      return Err(Forbidden);
    }
    var stored := repo.Db().EventsOf(attemptId);
    if CountSince(stored, now - RATE_WINDOW) >= RATE_LIMIT {
      return Err(IntegrityFlood);
    }
    var dup := FindSince(stored, eventType, now - DEDUP_WINDOW);
    if dup.Some? {
      return Ok(dup.value);
    }
    var event := IntegrityEvent(newId, attemptId, attempt.studentId, eventType, now);
    repo.events := repo.events[attemptId := stored + [event]];
    r := Ok(event);
  }

  // ---- When an event is stored ----

  /** The places of the stored events at or after an instant. */
  ghost function PlacesSince(events: Events, since: Time): set<int> {
    set i | 0 <= i < |events| && events[i].createdAt >= since
  }

  ghost predicate Repeats(events: Events, eventType: string, since: Time, i: int) {
    0 <= i < |events| && events[i].eventType == eventType && events[i].createdAt >= since
  }

  lemma {:induction false} CountIsPlaces(events: Events, since: Time)
    ensures CountSince(events, since) == |PlacesSince(events, since)|
  {
    hide PlacesSince;
    PlacesNext(events, since);
    if events != [] {
      CountIsPlaces(events[..|events| - 1], since);
    }
  }

  lemma PlacesNext(events: Events, since: Time)
    ensures if events == [] then PlacesSince(events, since) == {}
            else |PlacesSince(events, since)| ==
                 |PlacesSince(events[..|events| - 1], since)| + if events[|events| - 1].createdAt >= since then 1 else 0
  {
    if events != [] {
      var front, n := events[..|events| - 1], |events| - 1;
      assert PlacesSince(events, since) == PlacesSince(front, since) + if events[n].createdAt >= since then {n} else {};
    }
  }

  /** The event is one of the type stored in the last five seconds. */
  ghost predicate RepeatsRecent(events: Events, eventType: string, now: Time, i: int) {
    Repeats(events, eventType, now - 5, i)
  }

  lemma {:induction false} FoundIsRepeat(events: Events, eventType: string, since: Time)
    ensures var f := FindSince(events, eventType, since);
      if f.Some? then exists i :: Repeats(events, eventType, since, i) && events[i] == f.value
      else forall i :: !Repeats(events, eventType, since, i)
  {
    if events != [] {
      var front, n := events[..|events| - 1], |events| - 1;
      FoundIsRepeat(front, eventType, since);
      assert Repeats(events, eventType, since, n) <==> events[n].eventType == eventType && events[n].createdAt >= since;
      assert forall i :: Repeats(front, eventType, since, i) ==> Repeats(events, eventType, since, i);
      assert forall i :: Repeats(events, eventType, since, i) && i < n ==> Repeats(front, eventType, since, i);
    }
  }

  /**
    An event of the caller's own attempt is refused exactly when ten are stored in the last minute, answered with a
    stored one of its type exactly when there is one of the last five seconds, and otherwise stored as it came.
   */
  lemma RecordedIff(db: Database, attemptId: Id, participantId: Id, eventType: string, now: Time, newId: Id)
    requires attemptId in db.attempts && db.attempts[attemptId].participantId == participantId
    ensures var (after, r) := Record(db, attemptId, participantId, eventType, now, newId);
      var events := if attemptId in db.events then db.events[attemptId] else [];
      if |PlacesSince(events, now - 60)| >= 10 then after == db && r == Err(IntegrityFlood)
      else if exists i :: RepeatsRecent(events, eventType, now, i) then
        after == db && r.Ok? && exists i :: RepeatsRecent(events, eventType, now, i) && events[i] == r.value
      else
        && r.Ok? && r.value.id == newId && r.value.attemptId == attemptId && r.value.studentId == db.attempts[attemptId].studentId
        && r.value.eventType == eventType && r.value.createdAt == now
        && after == db.(events := db.events[attemptId := events + [r.value]])
  {
    hide CountSince, FindSince, PlacesSince, Repeats;
    CountIsPlaces(db.EventsOf(attemptId), now - 60);
    var events, since := db.EventsOf(attemptId), now - 5;
    FoundIsRepeat(events, eventType, since);
    forall i ensures RepeatsRecent(events, eventType, now, i) <==> Repeats(events, eventType, since, i) {
    }
  }

  // ---- Spacing ----

  /**
    Stored in order of time; eleven in a row span more than a minute; two of a type are more than five seconds
    apart.
   */
  ghost predicate Spread(events: Events, latest: Time) {
    && (forall i :: 0 <= i < |events| ==> events[i].createdAt <= latest)
    && (forall i, j :: 0 <= i < j < |events| ==> events[i].createdAt <= events[j].createdAt)
    && (forall i :: 0 <= i < |events| - 10 ==> events[i + 10].createdAt - events[i].createdAt > 60)
    && (forall i, j :: 0 <= i < j < |events| && events[i].eventType == events[j].eventType ==>
          events[j].createdAt - events[i].createdAt > 5)
  }

  /** In order of time, everything from the first recent event on is recent. */
  lemma {:induction false} RecentSuffix(events: Events, k: nat, since: Time)
    requires k < |events| && events[k].createdAt >= since
    requires forall i, j :: 0 <= i < j < |events| ==> events[i].createdAt <= events[j].createdAt
    ensures CountSince(events, since) >= |events| - k
  {
    if k < |events| - 1 {
      RecentSuffix(events[..|events| - 1], k, since);
    }
  }

  lemma {:induction false} NoneFound(events: Events, eventType: string, since: Time, i: nat)
    requires FindSince(events, eventType, since).None? && i < |events| && events[i].eventType == eventType
    ensures events[i].createdAt < since
  {
    if i < |events| - 1 {
      NoneFound(events[..|events| - 1], eventType, since, i);
    }
  }

  /** Storing one more event keeps the spacing. */
  lemma StoreKeepsSpread(events: Events, event: IntegrityEvent, latest: Time, now: Time)
    requires Spread(events, latest) && latest <= now && event.createdAt == now
    requires CountSince(events, now - RATE_WINDOW) < RATE_LIMIT
    requires FindSince(events, event.eventType, now - DEDUP_WINDOW).None?
    ensures Spread(events + [event], now)
  {
    var after := events + [event];
    forall i | 0 <= i < |after| - RATE_LIMIT ensures after[i + RATE_LIMIT].createdAt - after[i].createdAt > RATE_WINDOW {
      if i + RATE_LIMIT == |events| && events[i].createdAt >= now - RATE_WINDOW {
        RecentSuffix(events, i, now - RATE_WINDOW);
      }
    }
    forall i, j | 0 <= i < j < |after| && after[i].eventType == after[j].eventType
      ensures after[j].createdAt - after[i].createdAt > DEDUP_WINDOW
    {
      if j == |events| {
        NoneFound(events, event.eventType, now - DEDUP_WINDOW, i);
      }
    }
  }

  // ---- Runs ----

  datatype Call = Call(attemptId: Id, participantId: Id, eventType: string, now: Time, newId: Id)

  function RunCalls(db: Database, calls: seq<Call>): Database {
    if calls == [] then db
    else
      var c := calls[|calls| - 1];
      Record(RunCalls(db, calls[..|calls| - 1]), c.attemptId, c.participantId, c.eventType, c.now, c.newId).0
  }

  /** The clock never runs back. */
  ghost predicate Forward(calls: seq<Call>) {
    forall i, j :: 0 <= i < j < |calls| ==> calls[i].now <= calls[j].now
  }

  /** Over any run of recordings from no events, every attempt's events stay spread out. */
  lemma {:induction false} EventsStaySpread(db: Database, calls: seq<Call>, attemptId: Id)
    requires db.events == map[] && Forward(calls)
    ensures calls == [] ==> RunCalls(db, calls).EventsOf(attemptId) == []
    ensures calls != [] ==> Spread(RunCalls(db, calls).EventsOf(attemptId), calls[|calls| - 1].now)
  {
    hide Spread, CountSince, FindSince;
    if calls != [] {
      var front, c := calls[..|calls| - 1], calls[|calls| - 1];
      EventsStaySpread(db, front, attemptId);
      var before := RunCalls(db, front);
      var latest := if front == [] then c.now else front[|front| - 1].now;
      NoEventsSpread(latest);
      RecordKeepsSpread(before, c, latest, attemptId);
    }
  }

  lemma NoEventsSpread(latest: Time)
    ensures Spread([], latest)
  {
  }

  lemma LaterSpread(events: Events, latest: Time, now: Time)
    requires Spread(events, latest) && latest <= now
    ensures Spread(events, now)
  {
  }

  lemma RecordKeepsSpread(db: Database, c: Call, latest: Time, attemptId: Id)
    requires Spread(db.EventsOf(attemptId), latest) && latest <= c.now
    ensures Spread(Record(db, c.attemptId, c.participantId, c.eventType, c.now, c.newId).0.EventsOf(attemptId), c.now)
  {
    hide Spread, CountSince, FindSince;
    LaterSpread(db.EventsOf(attemptId), latest, c.now);
    var after := Record(db, c.attemptId, c.participantId, c.eventType, c.now, c.newId).0;
    if c.attemptId == attemptId && after != db {
      StoreKeepsSpread(db.EventsOf(attemptId),
        IntegrityEvent(c.newId, attemptId, db.attempts[attemptId].studentId, c.eventType, c.now), latest, c.now);
    }
  }
}
