/**
  The roster worker against Central's logs: replay pages after a cursor, process pulled events, and
  catch every loaded exam up. Central may be unreachable at any call, and serves a page in any order.
 */
module RosterWorker {
  import opened Common
  import opened Entities
  import opened NodeRepository
  import opened RosterLog
  import opened Sorting
  import M = RosterModel
  import Inv = RosterInvariant
  import RosterService

  const MAX_EVENTS_PER_POLL := 50

  predicate EventLeq(a: RosterEvent, b: RosterEvent) {
    a.revision < b.revision || (a.revision == b.revision && LexLeq(a.eventId, b.eventId))
  }

  lemma EventOrder()
    ensures TotalPreorder(EventLeq)
  {
    forall a: RosterEvent, b: RosterEvent ensures EventLeq(a, b) || EventLeq(b, a) {
      LexTotal(a.eventId, b.eventId);
    }
    forall a: RosterEvent, b: RosterEvent, c: RosterEvent | EventLeq(a, b) && EventLeq(b, c) ensures EventLeq(a, c) {
      if LexLeq(a.eventId, b.eventId) && LexLeq(b.eventId, c.eventId) {
        LexTransitive(a.eventId, b.eventId, c.eventId);
      }
    }
  }

  /** The page of a log after a cursor: at most `size` events, from the next revision on. */
  function Page(log: Log, after: nat, size: nat): Log {
    if after >= |log| then [] else log[after..Min(after + size, |log|)]
  }

  /** A page's revisions run on from the cursor, so its events are in order and no two tie. */
  lemma PageInOrder(log: Log, d: Id, e: Id, after: nat, size: nat)
    requires LogOk(log, d, e)
    ensures Sorted(Page(log, after, size), EventLeq) && Untied(multiset(Page(log, after, size)), EventLeq)
  {
    hide M.ValidEvent, LexLeq;
    var page := Page(log, after, size);
    assert forall i :: 0 <= i < |page| ==> page[i] == log[after + i] && page[i].revision == after + i + 1;
    hide Page, LogOk;
    forall a, b | a in multiset(page) && b in multiset(page) && EventLeq(a, b) && EventLeq(b, a) ensures a == b {
      var i :| 0 <= i < |page| && page[i] == a;
      var j :| 0 <= j < |page| && page[j] == b;
    }
  }

  /** However a page arrives, sorting restores the log's order. */
  lemma SortedPage(log: Log, d: Id, e: Id, after: nat, size: nat, events: Log)
    requires LogOk(log, d, e) && multiset(events) == multiset(Page(log, after, size))
    ensures SortBy(events, EventLeq) == Page(log, after, size)
  {
    hide SortBy, LogOk, Page, EventLeq, Sorted, Untied, TotalPreorder;
    EventOrder();
    SortBySorted(events, EventLeq);
    PageInOrder(log, d, e, after, size);
    SortedUnique(SortBy(events, EventLeq), Page(log, after, size), EventLeq);
  }

  /** Events of Central's logs, perhaps repeated. */
  ghost predicate Logged(events: seq<RosterEvent>, logs: Logs) {
    forall ev :: ev in events ==> ev.deploymentId in logs && ev in logs[ev.deploymentId]
  }

  /** Each event is in the group of its own deployment and in no other. */
  ghost predicate GroupsOf(groups: map<Id, seq<RosterEvent>>, events: seq<RosterEvent>) {
    forall d, ev :: d in groups && ev in groups[d] <==> ev in events && ev.deploymentId == d
  }

  ghost predicate GroupsInLogs(groups: map<Id, seq<RosterEvent>>, logs: Logs) {
    forall d :: d in groups ==> forall ev :: ev in groups[d] ==> d in logs && ev in logs[d]
  }

  ghost predicate GroupsDone(groups: map<Id, seq<RosterEvent>>, processed: set<Id>) {
    forall d, ev :: d in groups && ev in groups[d] ==> ev.eventId in processed
  }

  /** The groups of the first `k` deployments are processed. */
  ghost predicate DoneUpTo(groups: map<Id, seq<RosterEvent>>, deployments: seq<Id>, k: nat, processed: set<Id>) {
    k <= |deployments| && Elements(deployments) == groups.Keys &&
    forall l, ev :: 0 <= l < k && deployments[l] in groups && ev in groups[deployments[l]] ==> ev.eventId in processed
  }

  lemma DoneNone(groups: map<Id, seq<RosterEvent>>, deployments: seq<Id>, processed: set<Id>)
    requires Elements(deployments) == groups.Keys
    ensures DoneUpTo(groups, deployments, 0, processed)
  {
  }

  lemma DoneNext(groups: map<Id, seq<RosterEvent>>, deployments: seq<Id>, k: nat, processed: set<Id>, more: set<Id>,
                 group: seq<RosterEvent>)
    requires DoneUpTo(groups, deployments, k, processed) && processed <= more && k < |deployments| && deployments[k] in groups
    requires multiset(group) == multiset(groups[deployments[k]]) && forall ev :: ev in group ==> ev.eventId in more
    ensures DoneUpTo(groups, deployments, k + 1, more)
  {
    SameElements(group, groups[deployments[k]]);
  }

  lemma DoneAll(groups: map<Id, seq<RosterEvent>>, deployments: seq<Id>, processed: set<Id>)
    requires DoneUpTo(groups, deployments, |deployments|, processed)
    ensures GroupsDone(groups, processed)
  {
    assert forall d :: d in groups ==> d in Elements(deployments);
  }

  /** One deployment's group, as it is about to be processed. */
  lemma GroupLogged(groups: map<Id, seq<RosterEvent>>, logs: Logs, deployments: seq<Id>, k: nat, group: seq<RosterEvent>)
    requires GroupsInLogs(groups, logs) && Elements(deployments) == groups.Keys && k < |deployments|
    ensures deployments[k] in groups
    ensures multiset(group) == multiset(groups[deployments[k]]) ==>
      forall ev :: ev in group ==> deployments[k] in logs && ev in logs[deployments[k]]
  {
    assert deployments[k] in Elements(deployments);
    if multiset(group) == multiset(groups[deployments[k]]) {
      SameElements(group, groups[deployments[k]]);
    }
  }

  lemma GroupsLogged(groups: map<Id, seq<RosterEvent>>, events: seq<RosterEvent>, logs: Logs)
    requires GroupsOf(groups, events) && Logged(events, logs)
    ensures GroupsInLogs(groups, logs)
  {
    forall d, ev | d in groups && ev in groups[d] ensures d in logs && ev in logs[d] {
      assert ev in events;
    }
  }

  lemma GroupsCover(groups: map<Id, seq<RosterEvent>>, events: seq<RosterEvent>, processed: set<Id>)
    requires GroupsOf(groups, events) && GroupsDone(groups, processed)
    ensures forall ev :: ev in events ==> ev.eventId in processed
  {
    forall ev | ev in events ensures ev.eventId in processed {
      assert ev.deploymentId in groups && ev in groups[ev.deploymentId];
    }
  }

  lemma FirstFiftyLogged(events: seq<RosterEvent>, logs: Logs)
    requires Logged(events, logs)
    ensures Logged(FirstFifty(events), logs)
  {
    assert forall ev :: ev in FirstFifty(events) ==> ev in events;
  }

  class Central {
    const logs: Logs
    /** How many events a full page holds; fewer are served at the end of a log only. */
    const pageSize: nat
    /** The acknowledgements Central has confirmed, and the lists of pending events it has answered with. */
    var acks: seq<RosterOutcome>
    var pulls: seq<seq<RosterEvent>>

    constructor (logs: Logs, pageSize: nat)
      ensures this.logs == logs && this.pageSize == pageSize && acks == [] && pulls == []
    {
      this.logs, this.pageSize, acks, pulls := logs, pageSize, [], [];
    }

    /** Nothing, when Central cannot be reached; otherwise pending events of its logs, perhaps repeated. */
    method PullPending() returns (r: Option<seq<RosterEvent>>)
      modifies this`pulls
      ensures pulls == if r.Some? then old(pulls) + [r.value] else old(pulls)
      ensures r.Some? ==> Logged(r.value, logs)
    {
      r := *;
      if r.Some? && exists ev :: ev in r.value && !(ev.deploymentId in logs && ev in logs[ev.deploymentId]) {
        r := None;
      }
      if r.Some? {
        pulls := pulls + [r.value];
      }
    }

    method Replay(d: Id, after: nat) returns (r: Option<seq<RosterEvent>>)
      requires d in logs
      ensures r.Some? ==> multiset(r.value) == multiset(Page(logs[d], after, pageSize))
    {
      r := *;
      if r.Some? && multiset(r.value) != multiset(Page(logs[d], after, pageSize)) {
        r := None;
      }
    }

    /** Central may not be reached, or not say that it took the acknowledgement. */
    method Acknowledge(o: RosterOutcome) returns (ok: bool)
      modifies this`acks
      ensures acks == if ok then old(acks) + [o] else old(acks)
    {
      ok := *;
      if ok {
        acks := acks + [o];
      }
    }
  }

  /** Processed events are those with a receipt. */
  ghost predicate ProcessedOk(processed: set<Id>, db: Database) {
    processed <= db.receipts.Keys
  }

  /** Central is only ever told what a receipt records. */
  ghost predicate AcksRecorded(acks: seq<RosterOutcome>, db: Database) {
    forall o :: o in acks ==> exists k :: k in db.receipts && o == M.OutcomeOf(db.receipts[k])
  }

  lemma HasReceipt(processed: set<Id>, db: Database, id: Id)
    requires ProcessedOk(processed, db) && id in processed
    ensures id in db.receipts
  {
  }

  predicate ShouldAcknowledge(ev: RosterEvent) {
    ev.status.EventPending? || ev.status.EventApplied?
  }

  /** The event has a receipt and, unless Central withdrew it, Central has confirmed what that records. */
  ghost predicate Told(acks: seq<RosterOutcome>, db: Database, ev: RosterEvent) {
    && ev.eventId in db.receipts
    && (ev.status.EventPending? || ev.status.EventApplied? ==> M.OutcomeOf(db.receipts[ev.eventId]) in acks)
  }

  /** Central has confirmed every event that is skipped as processed. */
  ghost predicate ProcessedTold(processed: set<Id>, acks: seq<RosterOutcome>, logs: Logs, db: Database) {
    forall d, i :: d in logs && 0 <= i < |logs[d]| && logs[d][i].eventId in processed ==> Told(acks, db, logs[d][i])
  }

  lemma ToldStays(processed: set<Id>, acks: seq<RosterOutcome>, more: seq<RosterOutcome>, logs: Logs, before: Database,
                  after: Database)
    requires ProcessedTold(processed, acks, logs, before) && acks <= more
    requires forall k :: k in before.receipts ==> k in after.receipts && after.receipts[k] == before.receipts[k]
    ensures ProcessedTold(processed, more, logs, after)
  {
    hide M.OutcomeOf;
    forall d, i | d in logs && 0 <= i < |logs[d]| && logs[d][i].eventId in processed
      ensures Told(more, after, logs[d][i]) {
      assert Told(acks, before, logs[d][i]);
    }
  }

  /** Events are named once, so the one just told of is the only one newly processed. */
  lemma ToldOneMore(processed: set<Id>, acks: seq<RosterOutcome>, logs: Logs, db: Database, w: World, d: Id, i: nat)
    requires AllInSync(db, logs, w) && ProcessedTold(processed, acks, logs, db)
    requires d in logs && i < |logs[d]| && Told(acks, db, logs[d][i])
    ensures ProcessedTold(processed + {logs[d][i].eventId}, acks, logs, db)
  {
    hide NodeOk, Placed, Told, LogOk, InSync;
    SyncedOne(db, logs, w, d);
    NamedOnce(db, logs[d], d, w.owner[d]);
  }

  lemma NamedOnce(db: Database, log: Log, d: Id, e: Id)
    requires InSync(db, log, d, e)
    ensures forall i, j :: 0 <= i < |log| && 0 <= j < |log| && log[i].eventId == log[j].eventId ==> i == j
  {
    hide Inv.RosterOk, Inv.Owned, Holds;
  }

  lemma RecordedStays(db: Database, ev: RosterEvent, now: Time, processed: set<Id>, acks: seq<RosterOutcome>)
    requires NodeOk(db) && ProcessedOk(processed, db) && AcksRecorded(acks, db)
    ensures ProcessedOk(processed, M.Apply(db, ev, now).0) && AcksRecorded(acks, M.Apply(db, ev, now).0)
    ensures forall k :: k in db.receipts ==>
      k in M.Apply(db, ev, now).0.receipts && M.Apply(db, ev, now).0.receipts[k] == db.receipts[k]
  {
    hide M.Apply, M.OutcomeOf, Inv.TablesOk, Inv.AppliedPresent;
    Inv.TablesKeyed(db);
    Inv.ApplyShape(db, ev, now);
    var after := M.Apply(db, ev, now).0;
    forall o | o in acks ensures exists k :: k in after.receipts && o == M.OutcomeOf(after.receipts[k]) {
      var k :| k in db.receipts && o == M.OutcomeOf(db.receipts[k]);
      assert after.receipts[k] == db.receipts[k];
    }
  }

  /** One more event taking effect extends the catching up. */
  lemma CatchUpOneMore(db: Database, log: Log, i: nat, n: nat, clock: Id -> Time, before: Database)
    requires i <= n < |log| && before == CatchUp(db, log, i, n, clock)
    ensures M.Apply(before, log[n], clock(log[n].eventId)).0 == CatchUp(db, log, i, n + 1, clock)
  {
    hide M.Apply;
  }

  function FirstFifty(events: seq<RosterEvent>): seq<RosterEvent> {
    if |events| > 50 then events[..50] else events
  }

  /** Central has confirmed each of these events. */
  ghost predicate EventsTold(events: seq<RosterEvent>, acks: seq<RosterOutcome>, db: Database) {
    forall k :: 0 <= k < |events| ==> Told(acks, db, events[k])
  }

  /** The unfenced exams are at the end of their logs, and Central has confirmed every event since `start`. */
  ghost predicate LogsTold(acks: seq<RosterOutcome>, logs: Logs, db: Database, w: World, start: map<Id, int>,
                           now: map<Id, int>)
  {
    logs.Keys == w.owner.Keys == start.Keys == now.Keys && forall d :: d in w.owner && w.owner[d] !in w.fenced ==>
      now[d] == |logs[d]| && forall i :: 0 <= i < |logs[d]| && start[d] <= i ==> Told(acks, db, logs[d][i])
  }

  /** Every event of the log after revision `start`, up to revision `end`, is processed. */
  ghost predicate Covered(processed: set<Id>, log: Log, start: int, end: int) {
    forall i :: 0 <= i < |log| && start <= i < end ==> log[i].eventId in processed
  }

  /** In every log, what has taken effect since the revisions `start` is processed. */
  ghost predicate AllCovered(processed: set<Id>, logs: Logs, start: map<Id, int>, now: map<Id, int>) {
    start.Keys == now.Keys == logs.Keys && forall d :: d in logs ==> Covered(processed, logs[d], start[d], now[d])
  }

  lemma NoneCovered(processed: set<Id>, log: Log, at: int)
    ensures Covered(processed, log, at, at)
  {
  }

  lemma OneMoreCovered(processed: set<Id>, log: Log, at: int, i: nat)
    requires i < |log| && log[i].eventId in processed
    ensures Covered(processed, log, at, at) && (i == at ==> Covered(processed, log, at, at + 1))
  {
  }

  lemma CoveredWithin(processed: set<Id>, log: Log, start: int, end: int, a: int, b: int)
    requires Covered(processed, log, start, end) && start <= a && b <= end
    ensures Covered(processed, log, a, b)
  {
  }

  lemma CoveredAt(processed: set<Id>, log: Log, start: int, end: int, i: nat)
    requires Covered(processed, log, start, end) && i < |log| && start <= i < end
    ensures log[i].eventId in processed
  {
  }

  lemma CoveredJoins(processed: set<Id>, more: set<Id>, log: Log, start: int, mid: int, end: int)
    requires Covered(processed, log, start, mid) && Covered(more, log, mid, end) && processed <= more
    ensures Covered(more, log, start, end)
  {
    forall i | 0 <= i < |log| && start <= i < end ensures log[i].eventId in more {
      assert i < mid ==> log[i].eventId in processed;
    }
  }

  lemma NothingSince(processed: set<Id>, logs: Logs, now: map<Id, int>)
    requires now.Keys == logs.Keys
    ensures AllCovered(processed, logs, now, now)
  {
  }

  /** One deployment moves on and the others stay. */
  lemma OneCovered(processed: set<Id>, more: set<Id>, logs: Logs, start: map<Id, int>, mid: map<Id, int>, now: map<Id, int>, d: Id)
    requires AllCovered(processed, logs, start, mid) && processed <= more && d in logs && now.Keys == mid.Keys
    requires Covered(more, logs[d], mid[d], now[d]) && forall c :: c in logs && c != d ==> now[c] == mid[c]
    ensures AllCovered(more, logs, start, now)
  {
    CoveredJoins(processed, more, logs[d], start[d], mid[d], now[d]);
  }

  /** The named and unfenced exams outside `rest` are at the end of their logs, everything since `start` processed. */
  ghost predicate Recovered(processed: set<Id>, logs: Logs, w: World, rest: set<Id>, start: map<Id, int>, now: map<Id, int>) {
    logs.Keys == w.owner.Keys == start.Keys == now.Keys &&
    forall d :: d in w.owner && d != "" && w.owner[d] !in w.fenced && w.owner[d] !in rest ==>
      now[d] == |logs[d]| && Covered(processed, logs[d], start[d], now[d])
  }

  /** The unfenced exams are at the end of their logs, everything since `start` processed. */
  ghost predicate Closed(processed: set<Id>, logs: Logs, w: World, start: map<Id, int>, now: map<Id, int>) {
    logs.Keys == w.owner.Keys == start.Keys == now.Keys &&
    forall d :: d in w.owner && w.owner[d] !in w.fenced ==>
      now[d] == |logs[d]| && Covered(processed, logs[d], start[d], now[d])
  }

  /** Recovering one exam leaves the others where they were. */
  lemma OneRecovered(processed: set<Id>, more: set<Id>, logs: Logs, w: World, rest: set<Id>, e: Id, start: map<Id, int>,
                     mid: map<Id, int>, now: map<Id, int>)
    requires Recovered(processed, logs, w, rest + {e}, start, mid) && processed <= more && now.Keys == mid.Keys
    requires forall d :: d in w.owner && w.owner[d] != e ==> now[d] == mid[d]
    requires forall d :: d in w.owner && d != "" && w.owner[d] == e && e !in w.fenced ==>
      now[d] == |logs[d]| && Covered(more, logs[d], start[d], now[d])
    ensures Recovered(more, logs, w, rest, start, now)
  {
    forall d | d in w.owner && d != "" && w.owner[d] !in w.fenced && w.owner[d] !in rest && w.owner[d] != e
      ensures now[d] == |logs[d]| && Covered(more, logs[d], start[d], now[d])
    {
      assert Covered(processed, logs[d], start[d], mid[d]);
    }
  }

  class Worker {
    const client: Central
    const repo: Repository
    const processor: RosterService.Service
    var processed: set<Id>
    /** How many acknowledgements Central had confirmed when the present poll began. */
    ghost var begun: nat

    constructor (client: Central, repo: Repository)
      ensures this.client == client && this.repo == repo && fresh(processor) && processor.repo == repo
      ensures processed == {} && begun == 0
    {
      this.client, this.repo, this.processed, this.begun := client, repo, {}, 0;
      this.processor := new RosterService.Service(repo);
    }

    /** What holds between any two steps of the worker. */
    ghost predicate Valid(w: World)
      reads this, repo, client`acks
    {
      && processor.repo == repo && client.pageSize >= MAX_EVENTS_PER_POLL && begun <= |client.acks| && AllInSync(repo.Db(), client.logs, w)
      && ProcessedOk(processed, repo.Db()) && AcksRecorded(client.acks, repo.Db())
    }

    /** What Central has confirmed in this poll. */
    ghost function Confirmed(): seq<RosterOutcome>
      reads this`begun, client`acks
    {
      if begun <= |client.acks| then client.acks[begun..] else []
    }

    /** Central has, in this poll, confirmed whatever the poll has processed so far. */
    ghost predicate AllTold()
      reads this, repo, client`acks
    {
      ProcessedTold(processed, Confirmed(), client.logs, repo.Db())
    }


    ghost function Rev(w: World, d: Id): int
      requires d in w.owner
      reads repo
    {
      Revision(repo.Db(), w.owner[d])
    }

    ghost function Revs(w: World): map<Id, int>
      reads repo
    {
      map d | d in w.owner :: Rev(w, d)
    }

    /** Applies one event of a log and acknowledges what it left recorded, which Central may not confirm. */
    method Process(d: Id, event: RosterEvent, ghost i: nat, clock: Id -> Time, ghost w: World)
      returns (r: RosterService.Reply, acked: bool)
      requires Valid(w) && d in client.logs && i < |client.logs[d]| && client.logs[d][i] == event
      modifies repo`participants, repo`receipts, repo`exams, client`acks
      ensures Valid(w) && d in w.owner
      ensures (repo.Db(), r) == M.Apply(old(repo.Db()), event, clock(event.eventId))
      ensures i < old(Rev(w, d)) ==> r.Ok? && repo.Db() == old(repo.Db())
      ensures i == old(Rev(w, d)) ==> r.Ok? && Rev(w, d) == i + 1
      ensures i > old(Rev(w, d)) ==> r == Err(RosterRevisionGap) && repo.Db() == old(repo.Db())
      ensures forall c :: c in w.owner && c != d ==> Rev(w, c) == old(Rev(w, c))
      ensures r.Ok? ==> event.eventId in repo.receipts && (acked ==> Told(Confirmed(), repo.Db(), event))
      ensures old(AllTold()) ==> AllTold()
    {
      hide M.Apply, M.OutcomeOf, InSync, NodeOk, Revision, Placed, ProcessedTold;
      ghost var before := repo.Db();
      LoggedEvent(before, client.logs[d], d, w.owner[d], i, clock(event.eventId));
      AnyLoggedEvent(before, client.logs, w, d, i, clock(event.eventId));
      RecordedStays(before, event, clock(event.eventId), processed, client.acks);
      TablesOf(before);
      r := processor.Apply(event, clock(event.eventId));
      acked := true;
      if r.Ok? && ShouldAcknowledge(event) {
        acked := client.Acknowledge(r.value);
        assert acked ==> Confirmed() == old(Confirmed()) + [r.value];
      }
      if old(AllTold()) {
        ToldStays(processed, old(Confirmed()), Confirmed(), client.logs, before, repo.Db());
      }
    }

    method MarkProcessed(d: Id, event: RosterEvent, ghost i: nat, ghost w: World)
      requires Valid(w) && d in client.logs && i < |client.logs[d]| && client.logs[d][i] == event
      requires event.eventId in repo.receipts
      modifies this`processed
      ensures Valid(w) && processed == old(processed) + {event.eventId}
      ensures old(AllTold()) && Told(Confirmed(), repo.Db(), event) ==> AllTold()
    {
      hide AllInSync, AcksRecorded, ProcessedTold, Told;
      if AllTold() && Told(Confirmed(), repo.Db(), event) {
        ToldOneMore(processed, Confirmed(), client.logs, repo.Db(), w, d, i);
      }
      processed := processed + {event.eventId};
    }

    /** One replayed event, unless already processed; `before` is the node as it was at revision `start`. */
    method ReplayEvent(d: Id, event: RosterEvent, ghost i: nat, ghost before: Database, ghost start: nat,
                       clock: Id -> Time, ghost w: World)
      returns (ok: bool)
      requires Valid(w) && d in client.logs && i < |client.logs[d]| && client.logs[d][i] == event
      requires start <= Rev(w, d) <= |client.logs[d]| && i <= Rev(w, d)
      requires repo.Db() == CatchUp(before, client.logs[d], start, Rev(w, d), clock)
      modifies repo`participants, repo`receipts, repo`exams, client`acks, this`processed
      ensures Valid(w) && old(processed) <= processed && old(Rev(w, d)) <= Rev(w, d) <= |client.logs[d]|
      ensures repo.Db() == CatchUp(before, client.logs[d], start, Rev(w, d), clock)
      ensures (ok ==> event.eventId in processed && i < Rev(w, d)) && (old(AllTold()) ==> AllTold())
      ensures forall c :: c in w.owner && c != d ==> Rev(w, c) == old(Rev(w, c))
    {
      hide *;
      Here(d, w);
      if event.eventId in processed {
        HasReceipt(processed, repo.Db(), event.eventId);
        SyncedOne(repo.Db(), client.logs, w, d);
        ProcessedIsPast(repo.Db(), client.logs[d], d, w.owner[d], i);
        return true;
      }
      ghost var now := repo.Db();
      var r, acked := Process(d, event, i, clock, w);
      Here(d, w);
      RevisionsNatural(repo.Db(), client.logs, w, d);
      if i == Revision(now, w.owner[d]) {
        CatchUpOneMore(before, client.logs[d], start, i, clock, now);
      }
      if r.Err? || !acked {
        return false;
      }
      MarkProcessed(d, event, i, w);
      Here(d, w);
      ok := true;
    }

    lemma Here(d: Id, w: World)
      requires Valid(w) && d in client.logs
      ensures AllInSync(repo.Db(), client.logs, w) && ProcessedOk(processed, repo.Db()) && d in w.owner
      ensures Rev(w, d) == Revision(repo.Db(), w.owner[d])
    {
      hide InSync, NodeOk, Placed, ProcessedOk, Revision;
    }

    /** A sorted page, event by event; the exam is never behind the event being looked at. */
    method ApplyPage(d: Id, events: seq<RosterEvent>, after: nat, clock: Id -> Time, ghost w: World)
      returns (ok: bool, last: nat)
      requires Valid(w) && d in client.logs && events == Page(client.logs[d], after, client.pageSize) && after <= Rev(w, d)
      requires LogOk(client.logs[d], d, w.owner[d])
      modifies repo`participants, repo`receipts, repo`exams, client`acks, this`processed
      ensures Valid(w) && old(Rev(w, d)) <= Rev(w, d) <= |client.logs[d]|
      ensures old(Rev(w, d)) >= 0 && (old(AllTold()) ==> AllTold())
      ensures repo.Db() == CatchUp(old(repo.Db()), client.logs[d], old(Rev(w, d)), Rev(w, d), clock)
      ensures old(processed) <= processed && (ok ==> last == after + |events| <= Rev(w, d))
      ensures ok ==> forall i :: after <= i < last ==> client.logs[d][i].eventId in processed
      ensures forall c :: c in w.owner && c != d ==> Rev(w, c) == old(Rev(w, c))
    {
      hide AllInSync, Revision, LogOk, AcksRecorded, CatchUp, Page, ProcessedOk, ProcessedTold;
      var log := client.logs[d];
      RevisionsNatural(repo.Db(), client.logs, w, d);
      ghost var before, start := repo.Db(), Rev(w, d);
      NotYetCaughtUp(before, log, start, clock);
      last := after;
      for j := 0 to |events|
        invariant Valid(w) && start <= Rev(w, d) <= |log| && last == after + j <= Rev(w, d)
        invariant old(AllTold()) ==> AllTold()
        invariant old(processed) <= processed && forall i :: after <= i < last ==> log[i].eventId in processed
        invariant repo.Db() == CatchUp(before, log, start, Rev(w, d), clock)
        invariant forall c :: c in w.owner && c != d ==> Rev(w, c) == old(Rev(w, c))
      {
        var event := events[j];
        PageAt(log, after, client.pageSize, j);
        PagePlace(log, d, w.owner[d], after, j);
        ok := ReplayEvent(d, event, after + j, before, start, clock, w);
        if !ok {
          return false, last;
        }
        if event.revision > last {
          last := event.revision;
        }
      }
      ok := true;
    }

    /** Replays a deployment's log from a cursor, page by page, until it has seen the end. */
    method ReplayDeployment(d: Id, afterRevision: nat, clock: Id -> Time, ghost w: World) returns (ok: bool)
      requires Valid(w) && d in client.logs && afterRevision <= Rev(w, d)
      modifies repo`participants, repo`receipts, repo`exams, client`acks, this`processed
      ensures Valid(w) && 0 <= old(Rev(w, d)) <= Rev(w, d) <= |client.logs[d]|
      ensures repo.Db() == CatchUp(old(repo.Db()), client.logs[d], old(Rev(w, d)), Rev(w, d), clock)
      ensures ok ==> Rev(w, d) == |client.logs[d]|
      ensures old(processed) <= processed && (old(AllTold()) ==> AllTold())
      ensures ok ==> Covered(processed, client.logs[d], afterRevision, |client.logs[d]|)
      ensures forall c :: c in w.owner && c != d ==> Rev(w, c) == old(Rev(w, c))
    {
      hide M.Apply, InSync, AllInSync, AcksRecorded, ProcessedOk, ProcessedTold, Revision, LogOk, CatchUp, Page, SortBy;
      var log := client.logs[d];
      SyncedOne(repo.Db(), client.logs, w, d);
      SyncedRevision(repo.Db(), log, d, w.owner[d]);
      SyncedLog(repo.Db(), log, d, w.owner[d]);
      ghost var before, start := repo.Db(), Rev(w, d);
      NotYetCaughtUp(before, log, start, clock);
      var after := afterRevision;
      while true
        invariant Valid(w) && start <= Rev(w, d) <= |log| && afterRevision <= after <= Rev(w, d)
        invariant old(AllTold()) ==> AllTold()
        invariant old(processed) <= processed && forall i :: afterRevision <= i < after ==> log[i].eventId in processed
        invariant repo.Db() == CatchUp(before, log, start, Rev(w, d), clock)
        invariant forall c :: c in w.owner && c != d ==> Rev(w, c) == old(Rev(w, c))
        decreases |log| - after
      {
        var reply := client.Replay(d, after);
        if reply.None? {
          return false;
        }
        if |reply.value| == 0 {
          EmptyPage(log, after, client.pageSize, reply.value);
          return true;
        }
        SortedPage(log, d, w.owner[d], after, client.pageSize, reply.value);
        var events := SortBy(reply.value, EventLeq);
        ghost var mid, here := repo.Db(), Rev(w, d);
        var applied, last := ApplyPage(d, events, after, clock, w);
        CatchUpJoins(before, mid, log, start, here, Rev(w, d), clock);
        if !applied {
          return false;
        }
        if last == after || |events| < MAX_EVENTS_PER_POLL {
          ShortPage(log, after, client.pageSize);
          return true;
        }
        after := last;
      }
    }

    /** One pulled event, unless already processed; a gap is closed by replaying the whole log first. */
    method ProcessPulled(d: Id, event: RosterEvent, clock: Id -> Time, ghost w: World) returns (ok: bool, stop: bool)
      requires Valid(w) && d in client.logs && event in client.logs[d]
      modifies repo`participants, repo`receipts, repo`exams, client`acks, this`processed
      ensures Valid(w) && old(processed) <= processed
      ensures (ok ==> event.eventId in processed) && (stop ==> !ok) && (ok && old(AllTold()) ==> AllTold())
      ensures ok ==> Covered(processed, client.logs[d], old(Rev(w, d)), Rev(w, d))
      ensures forall c :: c in w.owner ==> old(Rev(w, c)) <= Rev(w, c) && (c != d ==> Rev(w, c) == old(Rev(w, c)))
    {
      hide *;
      Here(d, w);
      NoneCovered(processed, client.logs[d], Rev(w, d));
      if event.eventId in processed {
        return true, false;
      }
      ghost var i :| 0 <= i < |client.logs[d]| && client.logs[d][i] == event;
      var r, acked := Process(d, event, i, clock, w);
      Here(d, w);
      if r == Err(RosterRevisionGap) {
        RevisionsNatural(repo.Db(), client.logs, w, d);
        var replayed := ReplayDeployment(d, 0, clock, w);
        if !replayed {
          return false, true;
        }
        CoveredAt(processed, client.logs[d], 0, |client.logs[d]|, i);
        CoveredWithin(processed, client.logs[d], 0, |client.logs[d]|, old(Rev(w, d)), Rev(w, d));
        assert processed + {event.eventId} == processed;
        processed := processed + {event.eventId};
        return true, false;
      }
      if r.Err? {
        return false, false;
      }
      MarkProcessed(d, event, i, w);
      Here(d, w);
      OneMoreCovered(processed, client.logs[d], old(Rev(w, d)), i);
      return acked, false;
    }

    /** One deployment's pulled events in revision order; only a failed replay stops them. */
    method ProcessDeployment(d: Id, events: seq<RosterEvent>, clock: Id -> Time, ghost w: World) returns (ok: bool)
      requires Valid(w) && d in client.logs && forall ev :: ev in events ==> ev in client.logs[d]
      modifies repo`participants, repo`receipts, repo`exams, client`acks, this`processed
      ensures Valid(w) && old(processed) <= processed
      ensures ok ==> forall ev :: ev in events ==> ev.eventId in processed
      ensures ok ==> Covered(processed, client.logs[d], old(Rev(w, d)), Rev(w, d))
      ensures ok && old(AllTold()) ==> AllTold()
      ensures forall c :: c in w.owner ==> old(Rev(w, c)) <= Rev(w, c) && (c != d ==> Rev(w, c) == old(Rev(w, c)))
    {
      hide AllInSync, AcksRecorded, ProcessedOk, ProcessedTold, Revision;
      ok := true;
      LogsOwned(repo.Db(), client.logs, w);
      for k := 0 to |events|
        invariant Valid(w) && old(processed) <= processed
        invariant ok && old(AllTold()) ==> AllTold()
        invariant ok ==> forall l :: 0 <= l < k ==> events[l].eventId in processed
        invariant ok ==> Covered(processed, client.logs[d], old(Rev(w, d)), Rev(w, d))
        invariant forall c :: c in w.owner ==> old(Rev(w, c)) <= Rev(w, c) && (c != d ==> Rev(w, c) == old(Rev(w, c)))
      {
        var done, stop := ProcessPulled(d, events[k], clock, w);
        if stop {
          return false;
        }
        ok := ok && done;
      }
    }

    /** The pulled events by deployment, in pull order. */
    method GroupEvents(events: seq<RosterEvent>) returns (groups: map<Id, seq<RosterEvent>>)
      ensures GroupsOf(groups, events)
    {
      groups := map[];
      for k := 0 to |events|
        invariant forall d, ev :: d in groups && ev in groups[d] <==> ev in events[..k] && ev.deploymentId == d
      {
        var event := events[k];
        var group := if event.deploymentId in groups then groups[event.deploymentId] else [];
        groups := groups[event.deploymentId := group + [event]];
        assert events[..k + 1] == events[..k] + [event];
      }
      assert events[..|events|] == events;
    }

    /** Processes each deployment's group in sorted order; one that fails does not stop the next. */
    method ProcessGroups(groups: map<Id, seq<RosterEvent>>, clock: Id -> Time, ghost w: World) returns (ok: bool)
      requires Valid(w) && GroupsInLogs(groups, client.logs)
      modifies repo`participants, repo`receipts, repo`exams, client`acks, this`processed
      ensures Valid(w) && (ok && old(AllTold()) ==> AllTold()) && old(processed) <= processed && begun == old(begun)
      ensures ok ==> GroupsDone(groups, processed)
      ensures ok ==> AllCovered(processed, client.logs, old(Revs(w)), Revs(w))
    {
      hide *;
      ok := true;
      RevOf(w);
      NothingSince(processed, client.logs, Revs(w));
      var deployments := SortedDeployments(groups.Keys);
      DoneNone(groups, deployments, processed);
      for k := 0 to |deployments|
        invariant Valid(w) && old(processed) <= processed && begun == old(begun) && (ok && old(AllTold()) ==> AllTold())
        invariant ok ==> AllCovered(processed, client.logs, old(Revs(w)), Revs(w))
        invariant ok ==> DoneUpTo(groups, deployments, k, processed)
      {
        var d := deployments[k];
        GroupLogged(groups, client.logs, deployments, k, []);
        var group := SortBy(groups[d], EventLeq);
        GroupLogged(groups, client.logs, deployments, k, group);
        ghost var before, mid := processed, Revs(w);
        if |group| > 0 {
          assert group[0] in group;
          RevOf(w);
          var done := ProcessDeployment(d, group, clock, w);
          RevOf(w);
          ok := ok && done;
          if ok {
            OneCovered(before, processed, client.logs, old(Revs(w)), mid, Revs(w), d);
          }
        }
        if ok {
          DoneNext(groups, deployments, k, before, processed, group);
        }
      }
      if ok {
        DoneAll(groups, deployments, processed);
      }
    }

    /** Where every exam stands. */
    lemma RevOf(w: World)
      requires Valid(w)
      ensures client.logs.Keys == w.owner.Keys == Revs(w).Keys && forall c :: c in w.owner ==> Revs(w)[c] == Rev(w, c)
    {
      hide AllInSync, Revision, AcksRecorded, ProcessedOk;
      LogsOwned(repo.Db(), client.logs, w);
    }

    /** Recovers one exam as it was listed: skipped when unnamed or fenced, otherwise replayed from its revision. */
    method RecoverExam(exam: Exam, clock: Id -> Time, ghost w: World) returns (ok: bool)
      requires Valid(w) && exam.id in repo.exams && (exam.deploymentId != "" ==> exam.rosterRevision >= 0)
      requires Inv.OnlyRosterState(exam, repo.exams[exam.id])
      requires exam.rosterRevision <= repo.exams[exam.id].rosterRevision
      modifies repo`participants, repo`receipts, repo`exams, client`acks, this`processed
      ensures Valid(w) && ExamsKept(old(repo.exams), repo.exams) && (old(AllTold()) ==> AllTold())
      ensures forall c :: c in w.owner ==> old(Rev(w, c)) <= Rev(w, c) && (w.owner[c] != exam.id ==> Rev(w, c) == old(Rev(w, c)))
      ensures old(processed) <= processed
      ensures ok ==> forall d :: d in w.owner && d != "" && w.owner[d] == exam.id && exam.id !in w.fenced ==>
        Rev(w, d) == |client.logs[d]| && Covered(processed, client.logs[d], exam.rosterRevision, Rev(w, d))
    {
      hide AllInSync, AcksRecorded, ProcessedOk, CatchUp;
      SnapshotFacts(repo.Db(), client.logs, w, exam.id);
      LogsOwned(repo.Db(), client.logs, w);
      if exam.deploymentId == "" || exam.fencedAt.Some? {
        return true;
      }
      ghost var before, d := repo.Db(), exam.deploymentId;
      ok := ReplayDeployment(exam.deploymentId, exam.rosterRevision, clock, w);
      OwnKeepsExams(before, client.logs, w, d, Rev(w, d), clock);
    }

    /** Catches every loaded, named and unfenced exam up; one that fails does not stop the next. */
    method RecoverExams(exams: map<Id, Exam>, clock: Id -> Time, ghost w: World) returns (ok: bool)
      requires Valid(w) && exams == repo.exams
      modifies repo`participants, repo`receipts, repo`exams, client`acks, this`processed
      ensures Valid(w) && (old(AllTold()) ==> AllTold()) && old(processed) <= processed && begun == old(begun)
      ensures ok ==> Closed(processed, client.logs, w, old(Revs(w)), Revs(w))
    {
      hide AllInSync, AcksRecorded, ProcessedOk, ProcessedTold, Revision, CatchUp, Inv.OnlyRosterState, Covered, Recovered, AllTold;
      ok := true;
      var rest := exams.Keys;
      ExamsKeptReflexive(exams);
      NoneRecovered(repo.Db(), processed, client.logs, w, Revs(w));
      while rest != {}
        invariant (old(AllTold()) ==> AllTold()) && old(processed) <= processed
        invariant Valid(w) && rest <= exams.Keys && ExamsKept(exams, repo.exams)
        invariant ok ==> Recovered(processed, client.logs, w, rest, old(Revs(w)), Revs(w))
        decreases |rest|
      {
        var e :| e in rest;
        assert rest - {e} + {e} == rest;
        rest := rest - {e};
        SnapshotFacts(old(repo.Db()), client.logs, w, e);
        ExamFacts(old(repo.Db()), client.logs, w, e);
        ghost var before, done, mid := repo.exams, processed, Revs(w);
        var recovered := RecoverExam(exams[e], clock, w);
        ok := ok && recovered;
        ExamsKeptTransitive(exams, before, repo.exams);
        if ok {
          OneRecovered(done, processed, client.logs, w, rest, e, old(Revs(w)), mid, Revs(w));
        }
      }
      if ok {
        AllRecovered(repo.Db(), processed, client.logs, w, old(Revs(w)), Revs(w));
      }
    }

    /** Nothing is processed when a poll begins. */
    method Begin(ghost w: World)
      requires Valid(w)
      modifies this`processed, this`begun
      ensures Valid(w) && AllTold() && processed == {} && begun == |client.acks| && client.logs.Keys == w.owner.Keys == Revs(w).Keys
    {
      hide AllInSync, AcksRecorded, ProcessedOk, ProcessedTold, Revision;
      begun := |client.acks|;
      processed := {};
      NothingProcessed(Confirmed(), client.logs, repo.Db());
      LogsOwned(repo.Db(), client.logs, w);
    }

    lemma TellsAll()
      requires AllTold()
      ensures ProcessedTold(processed, Confirmed(), client.logs, repo.Db())
    {
    }

    /** The pulled events by deployment, then every loaded exam. */
    method ProcessAndRecover(events: seq<RosterEvent>, clock: Id -> Time, ghost w: World) returns (ok: bool)
      requires Valid(w) && AllTold() && Logged(events, client.logs)
      modifies repo`participants, repo`receipts, repo`exams, client`acks, this`processed
      ensures Valid(w) && begun == old(begun)
      ensures ok ==> EventsTold(events, Confirmed(), repo.Db())
      ensures ok ==> LogsTold(Confirmed(), client.logs, repo.Db(), w, old(Revs(w)), Revs(w))
    {
      hide *;
      var groups := GroupEvents(events);
      GroupsLogged(groups, events, client.logs);
      ok := ProcessGroups(groups, clock, w);
      ghost var before, mid := processed, Revs(w);
      var recovered := RecoverExams(repo.exams, clock, w);
      ok := ok && recovered;
      if ok {
        GroupsCover(groups, events, before);
        TellsAll();
        PulledTold(processed, Confirmed(), client.logs, repo.Db(), events);
        ClosedLogsTold(before, processed, Confirmed(), client.logs, repo.Db(), w, old(Revs(w)), mid, Revs(w));
      }
    }

    /**
      One poll: when it reports no error every unfenced exam has taken effect of its whole log, and Central has in this
      poll confirmed every event it was pulled, the first fifty of them, and every one that took effect meanwhile.
     */
    method PollOnce(clock: Id -> Time, ghost w: World) returns (ok: bool)
      requires Valid(w)
      modifies repo`participants, repo`receipts, repo`exams, client`acks, client`pulls, this`processed, this`begun
      ensures Valid(w) && begun == old(|client.acks|)
      ensures ok ==> |client.pulls| == old(|client.pulls|) + 1
      ensures ok ==> EventsTold(FirstFifty(client.pulls[|client.pulls| - 1]), Confirmed(), repo.Db())
      ensures ok ==> LogsTold(Confirmed(), client.logs, repo.Db(), w, old(Revs(w)), Revs(w))
    {
      hide *;
      Begin(w);
      var pulled := client.PullPending();
      if pulled.None? {
        return false;
      }
      FirstFiftyLogged(pulled.value, client.logs);
      ok := ProcessAndRecover(FirstFifty(pulled.value), clock, w);
    }
  }

  lemma NothingProcessed(acks: seq<RosterOutcome>, logs: Logs, db: Database)
    ensures ProcessedTold({}, acks, logs, db) && ProcessedOk({}, db)
  {
  }

  /** What a clean poll has processed, Central has confirmed. */
  lemma ClosedLogsTold(processed: set<Id>, more: set<Id>, acks: seq<RosterOutcome>, logs: Logs, db: Database, w: World,
                       start: map<Id, int>, mid: map<Id, int>, now: map<Id, int>)
    requires AllCovered(processed, logs, start, mid) && processed <= more && ProcessedTold(more, acks, logs, db)
    requires Closed(more, logs, w, mid, now)
    ensures LogsTold(acks, logs, db, w, start, now)
  {
    hide Covered, Told;
    forall d, i | d in w.owner && w.owner[d] !in w.fenced && 0 <= i < |logs[d]| && start[d] <= i
      ensures Told(acks, db, logs[d][i])
    {
      CoveredJoins(processed, more, logs[d], start[d], mid[d], now[d]);
      CoveredAt(more, logs[d], start[d], now[d], i);
    }
  }

  lemma PulledTold(processed: set<Id>, acks: seq<RosterOutcome>, logs: Logs, db: Database, events: seq<RosterEvent>)
    requires ProcessedTold(processed, acks, logs, db)
    requires Logged(events, logs) && forall ev :: ev in events ==> ev.eventId in processed
    ensures EventsTold(events, acks, db)
  {
    hide Told;
    forall k | 0 <= k < |events| ensures Told(acks, db, events[k]) {
      var ev := events[k];
      assert ev in events;
      var i :| 0 <= i < |logs[ev.deploymentId]| && logs[ev.deploymentId][i] == ev;
    }
  }

  lemma NoneRecovered(db: Database, processed: set<Id>, logs: Logs, w: World, now: map<Id, int>)
    requires AllInSync(db, logs, w) && now.Keys == w.owner.Keys
    ensures Recovered(processed, logs, w, db.exams.Keys, now, now)
  {
    hide AllInSync;
    LogsOwned(db, logs, w);
    OwnersLoaded(db, logs, w);
  }

  lemma AllRecovered(db: Database, processed: set<Id>, logs: Logs, w: World, start: map<Id, int>, now: map<Id, int>)
    requires AllInSync(db, logs, w) && Recovered(processed, logs, w, {}, start, now)
    requires forall d :: d in now ==> d in w.owner && now[d] == Revision(db, w.owner[d])
    ensures Closed(processed, logs, w, start, now)
  {
    hide AllInSync, Revision;
    if "" in w.owner {
      UnnamedIsEmpty(db, logs, w);
      RevisionsNatural(db, logs, w, "");
    }
  }

  lemma ExamsKeptReflexive(exams: map<Id, Exam>)
    ensures ExamsKept(exams, exams)
  {
  }

  lemma ExamsKeptTransitive(a: map<Id, Exam>, b: map<Id, Exam>, c: map<Id, Exam>)
    requires ExamsKept(a, b) && ExamsKept(b, c)
    ensures ExamsKept(a, c)
  {
  }

  lemma ExamFacts(db: Database, logs: Logs, w: World, e: Id)
    requires AllInSync(db, logs, w) && e in db.exams
    ensures db.exams[e].id == e
  {
    hide InSync, Placed;
  }

  lemma OwnKeepsExams(db: Database, logs: Logs, w: World, d: Id, n: nat, clock: Id -> Time)
    requires AllInSync(db, logs, w) && d in logs && d in w.owner && Revision(db, w.owner[d]) <= n <= |logs[d]|
    requires Revision(db, w.owner[d]) >= 0
    ensures ExamsKept(db.exams, CatchUp(db, logs[d], Revision(db, w.owner[d]), n, clock).exams)
  {
    hide InSync, Placed, ExamsKept;
    CatchUpKeepsExams(db, logs[d], d, w.owner[d], n, clock);
  }

  method SortedDeployments(ids: set<Id>) returns (sorted: seq<Id>)
    ensures Elements(sorted) == ids && Sorted(sorted, LexLeq)
  {
    var xs: seq<Id> := [];
    var rest := ids;
    while rest != {}
      invariant Elements(xs) + rest == ids
      decreases |rest|
    {
      var d :| d in rest;
      xs, rest := xs + [d], rest - {d};
    }
    sorted := SortBy(xs, LexLeq);
    LexOrder();
    SortBySorted(xs, LexLeq);
    SameElements(sorted, xs);
  }

  lemma SameElements<T>(xs: seq<T>, ys: seq<T>)
    requires multiset(xs) == multiset(ys)
    ensures forall x :: x in xs <==> x in ys
  {
    assert forall x :: x in xs <==> x in multiset(xs);
    assert forall x :: x in ys <==> x in multiset(ys);
  }

  /** What the worker reads off an exam row before recovering it. */
  lemma SnapshotFacts(db: Database, logs: Logs, w: World, e: Id)
    requires AllInSync(db, logs, w) && e in db.exams
    ensures db.exams[e].fencedAt.Some? <==> e in w.fenced
    ensures db.exams[e].deploymentId != "" ==>
      var d := db.exams[e].deploymentId;
      d in logs && d in w.owner && w.owner[d] == e && db.exams[e].rosterRevision == Revision(db, e) >= 0
    ensures forall d :: d in w.owner ==> w.owner[d] in db.exams && (w.owner[d] == e ==> d == db.exams[e].deploymentId)
  {
    hide InSync, NodeOk;
    forall d | d in w.owner ensures w.owner[d] in db.exams && db.exams[w.owner[d]].deploymentId == d {
      SyncedExam(db, logs[d], d, w.owner[d], e);
    }
    if db.exams[e].deploymentId != "" {
      SyncedExam(db, logs[db.exams[e].deploymentId], db.exams[e].deploymentId, w.owner[db.exams[e].deploymentId], e);
    }
  }

  lemma SyncedExam(db: Database, log: Log, d: Id, e: Id, f: Id)
    requires InSync(db, log, d, e)
    ensures e in db.exams && db.exams[e].deploymentId == d && db.exams[e].rosterRevision >= 0
    ensures f in db.exams && db.exams[f].deploymentId == d ==> f == e
  {
    hide LogOk, M.Identity;
    Inv.RosterOwnsExam(db, e);
  }

  /** A log under a blank deployment has no events. */
  lemma UnnamedIsEmpty(db: Database, logs: Logs, w: World)
    requires AllInSync(db, logs, w) && "" in logs
    ensures logs[""] == []
  {
    hide AllInSync, Holds, Inv.RosterOk, Inv.Owned;
    SyncedOne(db, logs, w, "");
    if logs[""] != [] {
      FirstIsNamed(logs[""], "", w.owner[""]);
    }
  }

  lemma FirstIsNamed(log: Log, d: Id, e: Id)
    requires LogOk(log, d, e) && log != []
    ensures d != ""
  {
    assert M.ValidEvent(log[0]) && log[0].deploymentId == d;
  }

  lemma OwnersLoaded(db: Database, logs: Logs, w: World)
    requires AllInSync(db, logs, w)
    ensures forall d :: d in w.owner ==> w.owner[d] in db.exams
  {
    hide InSync, NodeOk, Placed;
    forall d | d in w.owner ensures w.owner[d] in db.exams {
      RosterOwns(db, logs[d], d, w.owner[d]);
    }
  }

  lemma LogsOwned(db: Database, logs: Logs, w: World)
    requires AllInSync(db, logs, w)
    ensures logs.Keys == w.owner.Keys
  {
    hide NodeOk, InSync, Placed;
  }

  lemma RevisionsNatural(db: Database, logs: Logs, w: World, d: Id)
    requires AllInSync(db, logs, w) && d in logs
    ensures d in w.owner && 0 <= Revision(db, w.owner[d]) <= |logs[d]|
  {
    hide AllInSync;
    SyncedOne(db, logs, w, d);
    SyncedRevision(db, logs[d], d, w.owner[d]);
  }

  lemma RosterOwns(db: Database, log: Log, d: Id, e: Id)
    requires InSync(db, log, d, e)
    ensures e in db.exams
  {
    hide LogOk, Inv.Owned, M.Identity;
  }

  lemma SyncedOne(db: Database, logs: Logs, w: World, d: Id)
    requires AllInSync(db, logs, w) && d in logs
    ensures d in w.owner && InSync(db, logs[d], d, w.owner[d])
  {
    hide InSync, NodeOk;
  }

  lemma PageAt(log: Log, after: nat, size: nat, j: nat)
    requires j < |Page(log, after, size)|
    ensures after + j < |log| && Page(log, after, size)[j] == log[after + j]
  {
  }

  lemma SyncedLog(db: Database, log: Log, d: Id, e: Id)
    requires InSync(db, log, d, e)
    ensures LogOk(log, d, e)
  {
    hide LogOk, Holds;
  }

  lemma PagePlace(log: Log, d: Id, e: Id, after: nat, j: nat)
    requires LogOk(log, d, e) && after + j < |log|
    ensures log[after + j].revision == after + j + 1
  {
    hide M.ValidEvent;
  }

  /** A page of fewer than fifty events is served although the log goes on. */
  ghost predicate StopsEarly(log: Log, after: nat, size: nat) {
    |Page(log, after, size)| < 50 && after + |Page(log, after, size)| < |log|
  }

  lemma LongerLog(size: nat) returns (log: Log)
    ensures |log| == size + 1
  {
    var event: RosterEvent := *;
    log := seq(size + 1, _ => event);
  }

  /** Taking a page of fewer than fifty events for the last one is right exactly while full pages hold fifty. */
  lemma StopsEarlyIff(size: nat)
    ensures (exists log: Log, after: nat :: StopsEarly(log, after, size)) <==> size < 50
  {
    if size < MAX_EVENTS_PER_POLL {
      var log := LongerLog(size);
      assert StopsEarly(log, 0, size);
    } else {
      forall log: Log, after: nat ensures !StopsEarly(log, after, size) {
      }
    }
  }

  /** A page with room left is the last one. */
  lemma ShortPage(log: Log, after: nat, size: nat)
    requires size >= MAX_EVENTS_PER_POLL && after <= |log| && |Page(log, after, size)| < MAX_EVENTS_PER_POLL
    ensures after + |Page(log, after, size)| == |log|
  {
  }

  /** An event marked processed has taken effect. */
  lemma ProcessedIsPast(db: Database, log: Log, d: Id, e: Id, i: nat)
    requires InSync(db, log, d, e) && i < |log| && log[i].eventId in db.receipts
    ensures i < Revision(db, e)
  {
    hide LogOk, M.Identity;
    Inv.RosterOwnsExam(db, e);
  }

  lemma EmptyPage(log: Log, after: nat, size: nat, events: Log)
    requires size > 0 && multiset(events) == multiset(Page(log, after, size)) && |events| == 0
    ensures after >= |log|
  {
    assert |multiset(Page(log, after, size))| == 0;
  }

  lemma NotYetCaughtUp(db: Database, log: Log, i: nat, clock: Id -> Time)
    requires i <= |log|
    ensures CatchUp(db, log, i, i, clock) == db
  {
  }

  lemma {:induction false} CatchUpJoins(db: Database, mid: Database, log: Log, i: nat, m: nat, n: nat,
                                        clock: Id -> Time)
    requires i <= m <= n <= |log| && mid == CatchUp(db, log, i, m, clock)
    ensures CatchUp(mid, log, m, n, clock) == CatchUp(db, log, i, n, clock)
    decreases n - m
  {
    hide M.Apply;
    if m < n {
      CatchUpJoins(db, mid, log, i, m, n - 1, clock);
    }
  }

  lemma TablesOf(db: Database)
    requires NodeOk(db)
    ensures Inv.TablesOk(db)
  {
  }
}
