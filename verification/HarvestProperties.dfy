/**
  What a drain does to the node: a partition, exact acknowledgements, the rows its run harvests, and what a clean
  result does and does not mean.
 */
module HarvestProperties {
  import opened Common
  import opened Entities
  import opened HarvestService
  import M = AttemptModel
  import Machine = SittingMachine
  import Steps = HarvestSteps
  import Payloads
  import Grading

  // ---- The partition ----

  /** Each listed attempt is in the group of its own exam's deployment, or among the unresolved, and in no other. */
  lemma ExactlyOneGroup(exams: Exams, listed: seq<Attempt>, a: Attempt, d: Option<Id>)
    requires a in listed
    ensures a in Group(exams, listed, d) <==> d == Resolved(exams, a)
  {
    GroupMembers(exams, listed, d, a);
  }

  function GroupSizes(exams: Exams, listed: seq<Attempt>, keys: seq<Id>): nat {
    if keys == [] then 0
    else GroupSizes(exams, listed, keys[..|keys| - 1]) + |Group(exams, listed, Some(keys[|keys| - 1]))|
  }

  /** The groups and the unresolved together hold every listed attempt once. */
  lemma {:induction false} GroupsCoverListing(exams: Exams, listed: seq<Attempt>, keys: seq<Id>)
    requires Distinct(keys) && forall a :: a in listed && Resolved(exams, a).Some? ==> Resolved(exams, a).value in keys
    ensures GroupSizes(exams, listed, keys) + |Group(exams, listed, None)| == |listed|
  {
    hide Resolved;
    if listed == [] {
      NothingListed(exams, keys);
    } else {
      var front, last := listed[..|listed| - 1], listed[|listed| - 1];
      GroupsCoverListing(exams, front, keys);
      OneMoreListed(exams, listed, keys);
      assert last in listed;
    }
  }

  lemma {:induction false} NothingListed(exams: Exams, keys: seq<Id>)
    ensures GroupSizes(exams, [], keys) == 0
  {
    if keys != [] {
      NothingListed(exams, keys[..|keys| - 1]);
    }
  }

  lemma {:induction false} OneMoreListed(exams: Exams, listed: seq<Attempt>, keys: seq<Id>)
    requires Distinct(keys) && listed != []
    ensures var (front, at) := (listed[..|listed| - 1], Resolved(exams, listed[|listed| - 1]));
      GroupSizes(exams, listed, keys) == GroupSizes(exams, front, keys) + if at.Some? && at.value in keys then 1 else 0
  {
    hide Resolved, Group;
    if keys != [] {
      var front, k := keys[..|keys| - 1], keys[|keys| - 1];
      OneMoreListed(exams, listed, front);
      assert keys == front + [k] && k !in front;
      assert listed[..|listed| - 1 + 1] == listed;
      GroupOneMore(exams, listed, |listed| - 1, Some(k));
    }
  }

  // ---- Which deployments a drain visits ----

  ghost predicate Names(exams: Exams, e: Id, d: Id) {
    e in exams && exams[e].deploymentId == d
  }

  ghost predicate Blank(s: string) {
    forall c :: c in s ==> Grading.IsSpace(c)
  }

  lemma BlankIff(s: string)
    ensures Blank(s) <==> !M.NonBlank(s)
  {
    if i :| 0 <= i < |s| && !Grading.IsSpace(s[i]) {
      assert s[i] in s;
    }
  }

  /**
    A drain pushes to a deployment exactly when a listed attempt's exam names it or, on the final drain, any exam does,
    so that Central learns of an empty one too; an exam that names none stops the final drain before its first push.
   */
  lemma VisitedIff(exams: Exams, listed: seq<Attempt>, final: bool, keys: seq<Id>, outcomes: seq<Outcome>, total: nat,
                   err: Option<DrainError>, d: Id)
    requires DrainOk(exams, listed, final, keys, outcomes, total, err)
    ensures err == Some(ExamWithoutDeployment) <==> final && exists e :: e in exams && Blank(exams[e].deploymentId)
    ensures (exists i :: 0 <= i < |outcomes| && outcomes[i].push.deploymentId == d) <==>
      && err != Some(ExamWithoutDeployment)
      && ((final && exists e :: Names(exams, e, d)) || exists a :: a in listed && Names(exams, a.examId, d) && !Blank(d))
  {
    hide OutcomeOk, Group, FailedCount, TotalOf, StrictlySorted, Blank, M.NonBlank;
    forall s ensures Blank(s) <==> !M.NonBlank(s) {
      BlankIff(s);
    }
    assert (exists e :: e in exams && Blank(exams[e].deploymentId)) <==> UnnamedExam(exams);
    if outcomes != [] || (exists e :: Names(exams, e, d)) {
      PushesAre(exams, listed, final, keys, outcomes, total, err);
    }
    DeploymentsAre(exams, listed, final, d);
  }

  lemma DeploymentsAre(exams: Exams, listed: seq<Attempt>, final: bool, d: Id)
    ensures d in Deployments(exams, listed, final) <==>
      (final && exists e :: Names(exams, e, d)) || exists a :: a in listed && Names(exams, a.examId, d) && !Blank(d)
  {
    hide Blank, M.NonBlank;
    BlankIff(d);
    if a :| a in listed && Names(exams, a.examId, d) && !Blank(d) {
      assert Resolved(exams, a) == Some(d);
    }
    if d in Deployments(exams, listed, final) && !(final && exists e :: Names(exams, e, d)) {
      assert forall e :: e in exams ==> Names(exams, e, exams[e].deploymentId);
      var a :| a in listed && Resolved(exams, a) == Some(d);
      assert Names(exams, a.examId, d);
    }
    if e :| final && Names(exams, e, d) {
      assert e in exams;
    }
  }

  /** The outcomes' deployments are the visited ones. */
  lemma PushesAre(exams: Exams, listed: seq<Attempt>, final: bool, keys: seq<Id>, outcomes: seq<Outcome>, total: nat,
                  err: Option<DrainError>)
    requires DrainOk(exams, listed, final, keys, outcomes, total, err)
    ensures if (listed == [] && !final) || (final && UnnamedExam(exams)) then outcomes == []
            else forall d :: (exists i :: 0 <= i < |outcomes| && outcomes[i].push.deploymentId == d) <==>
                             d in Deployments(exams, listed, final)
  {
    hide Group, FailedCount, TotalOf, Deployments, Sent, Verdict, Steps.Marks, UnnamedExam;
    if !(listed == [] && !final) && !(final && UnnamedExam(exams)) {
      assert |outcomes| == |keys| && Elements(keys) == Deployments(exams, listed, final);
      forall i | 0 <= i < |outcomes| ensures outcomes[i].push.deploymentId == keys[i] {
        assert OutcomeOk(keys[i], Group(exams, listed, Some(keys[i])),
                         final && |Group(exams, listed, Some(keys[i]))| <= MAX_BATCH_ATTEMPTS, outcomes[i]);
      }
      forall d | d in Deployments(exams, listed, final)
        ensures exists i :: 0 <= i < |outcomes| && outcomes[i].push.deploymentId == d {
        assert d in Elements(keys);
        var i :| 0 <= i < |keys| && keys[i] == d;
        assert outcomes[i].push.deploymentId == d;
      }
      forall i | 0 <= i < |outcomes| ensures outcomes[i].push.deploymentId in Deployments(exams, listed, final) {
        assert keys[i] in Elements(keys);
      }
    }
  }

  // ---- Pushes ----

  /** A drain pushes at most 500 attempts at a time, all of one deployment, and no deployment twice. */
  lemma OnePushPerDeployment(exams: Exams, listed: seq<Attempt>, final: bool, keys: seq<Id>, outcomes: seq<Outcome>,
                             total: nat, err: Option<DrainError>, i: nat, j: nat)
    requires DrainOk(exams, listed, final, keys, outcomes, total, err) && i < |outcomes| && j < |outcomes|
    ensures i != j ==> outcomes[i].push.deploymentId != outcomes[j].push.deploymentId
    ensures |outcomes[i].push.batch| <= 500
    ensures forall p :: p in outcomes[i].push.batch ==>
      exists a :: a in listed && Payloads.Describes(p, a) && a.examId in exams
               && exams[a.examId].deploymentId == outcomes[i].push.deploymentId
  {
    hide Resolved, Verdict, Steps.Marks;
    var o, group := outcomes[i], Group(exams, listed, Some(keys[i]));
    assert OutcomeOk(keys[i], group, final && |group| <= MAX_BATCH_ATTEMPTS, o);
    assert outcomes[j].push.deploymentId == keys[j];
    forall p | p in o.push.batch
      ensures exists a :: a in listed && Payloads.Describes(p, a) && a.examId in exams && exams[a.examId].deploymentId == keys[i]
    {
      var k :| 0 <= k < |o.push.batch| && o.push.batch[k] == p;
      GroupMembers(exams, listed, Some(keys[i]), group[k]);
      ResolvedIs(exams, group[k]);
    }
  }

  // ---- What a drain marks ----

  /** What a drain guarantees of its run: it did exactly what the drain's account of itself says. */
  ghost predicate Drained(s: Machine.State, es: seq<Machine.Event>, exams: Exams, listed: seq<Attempt>, final: bool,
                          keys: seq<Id>, outcomes: seq<Outcome>, total: nat, err: Option<DrainError>)
  {
    && DistinctIds(listed) && DrainOk(exams, listed, final, keys, outcomes, total, err)
    && Steps.Acts(s, es) == [Steps.Listed(listed)] + AllActs(outcomes)
  }

  function AllMarked(outcomes: seq<Outcome>): set<Id> {
    if outcomes == [] then {} else AllMarked(outcomes[..|outcomes| - 1]) + outcomes[|outcomes| - 1].marked
  }

  ghost predicate MarksOk(o: Outcome) {
    o.marked == Steps.Marks(o.rows, AckedGenerations(o.push))
  }

  lemma VisitsMarks(exams: Exams, listed: seq<Attempt>, final: bool, keys: seq<Id>, outcomes: seq<Outcome>, total: nat,
                    err: Option<DrainError>)
    requires DrainOk(exams, listed, final, keys, outcomes, total, err)
    ensures forall i :: 0 <= i < |outcomes| ==> MarksOk(outcomes[i])
  {
    hide Group, Steps.Marks, AckedGenerations, Sent, Verdict;
  }

  lemma {:induction false} ReadsMarkNothing(read: seq<Steps.Reading>)
    ensures Steps.MarkedIn(Steps.Reads(read)) == {}
  {
    if read != [] {
      ReadsMarkNothing(read[..|read| - 1]);
      assert Steps.Reads(read)[..|read| - 1] == Steps.Reads(read[..|read| - 1]);
    }
  }

  lemma OutcomeMarks(o: Outcome)
    requires MarksOk(o)
    ensures Steps.MarkedIn(ActsOf(o)) == o.marked
  {
    hide Steps.Reads, Steps.Marks, AckedGenerations;
    var front := Steps.Reads(o.read) + [PushAct(o.push)];
    ReadsMarkNothing(o.read);
    assert front[..|front| - 1] == Steps.Reads(o.read) && ActsOf(o)[..|ActsOf(o)| - 1] == front;
    assert Steps.MarkedIn(front) == {};
  }

  lemma {:induction false} OutcomesMark(outcomes: seq<Outcome>)
    requires forall i :: 0 <= i < |outcomes| ==> MarksOk(outcomes[i])
    ensures Steps.MarkedIn(AllActs(outcomes)) == AllMarked(outcomes)
  {
    hide MarksOk, ActsOf;
    if outcomes != [] {
      var front, o := outcomes[..|outcomes| - 1], outcomes[|outcomes| - 1];
      OutcomesMark(front);
      OutcomeMarks(o);
      Steps.MarkedInBoth(AllActs(front), ActsOf(o));
    }
  }

  /** The rows that a drain's run leaves newly harvested are those of its outcomes. */
  lemma HarvestedIsMarked(s: Machine.State, es: seq<Machine.Event>, exams: Exams, listed: seq<Attempt>, final: bool,
                          keys: seq<Id>, outcomes: seq<Outcome>, total: nat, err: Option<DrainError>)
    requires Machine.NodeOk(s) && Drained(s, es, exams, listed, final, keys, outcomes, total, err)
    ensures Steps.NewlyHarvested(s, es) == AllMarked(outcomes)
  {
    hide Machine.NodeOk, DrainOk, DistinctIds, Steps.Acts, Steps.NewlyHarvested, AllActs, AllMarked, MarksOk;
    VisitsMarks(exams, listed, final, keys, outcomes, total, err);
    OutcomesMark(outcomes);
    Steps.HarvestedByMarks(s, es);
    Steps.MarkedInBoth([Steps.Listed(listed)], AllActs(outcomes));
    assert [Steps.Listed(listed)][..0] == [];
  }

  /** A marked row was sent with its present generation, accepted, and not also rejected. */
  lemma OutcomeMarksSent(o: Outcome, id: Id) returns (p: AttemptPayload)
    requires MarksOk(o) && id in o.marked
    ensures p in o.push.batch && p in Credited(o.push) && p.id == id && AsSent(o.rows, p)
  {
    hide Machine.PayloadOf;
    Machine.GenerationAccepted(o.push.batch, id);
    p :| p in o.push.batch && p.id == id && p.resetGeneration == o.rows[id].resetGeneration;
  }

  /** The payload's row is finished, unharvested, and of the generation it was sent with. */
  ghost predicate AsSent(rows: map<Id, Attempt>, p: AttemptPayload) {
    && p.id in rows && (rows[p.id].status.Submitted? || rows[p.id].status.AutoSubmitted?) && rows[p.id].harvestedAt.None?
    && rows[p.id].resetGeneration == p.resetGeneration
  }

  lemma {:induction false} MarkingOf(outcomes: seq<Outcome>, act: Steps.Act) returns (i: nat)
    requires act in AllActs(outcomes) && act.Marked?
    ensures i < |outcomes| && act == Steps.Marked(outcomes[i].rows, AckedGenerations(outcomes[i].push))
  {
    hide AckedGenerations;
    var front, o := outcomes[..|outcomes| - 1], outcomes[|outcomes| - 1];
    if act in AllActs(front) {
      i := MarkingOf(front, act);
    } else {
      i := |outcomes| - 1;
      assert act in ActsOf(o) && act !in Steps.Reads(o.read);
    }
  }

  /** A marking statement of the run finds the payload's row as it was sent. */
  ghost predicate MarkedAt(s: Machine.State, es: seq<Machine.Event>, k: nat, p: AttemptPayload) {
    k < |es| && es[k].Mark? && AsSent(Machine.Run(s, es[..k]).db.attempts, p)
  }

  /**
    Whoever a drain marks was accepted in one of its pushes, and was at the marking statement finished, unharvested
    and of the generation sent.
   */
  lemma MarkedAsSent(s: Machine.State, es: seq<Machine.Event>, exams: Exams, listed: seq<Attempt>, final: bool,
                     keys: seq<Id>, outcomes: seq<Outcome>, total: nat, err: Option<DrainError>, id: Id)
    requires Machine.NodeOk(s) && Drained(s, es, exams, listed, final, keys, outcomes, total, err)
    requires id in Steps.NewlyHarvested(s, es)
    ensures exists i, k, p ::
      0 <= i < |outcomes| && p in outcomes[i].push.batch && p in Credited(outcomes[i].push) && p.id == id && MarkedAt(s, es, k, p)
  {
    hide Machine.NodeOk, DrainOk, DistinctIds, Machine.Run, Steps.NewlyHarvested, AllActs, MarksOk, Steps.Marks, Credited,
      AckedGenerations, AsSent, Steps.ToMark, Steps.Acts;
    VisitsMarks(exams, listed, final, keys, outcomes, total, err);
    var k := Steps.HarvestedAt(s, es, id);
    var t := Machine.Run(s, es[..k]);
    var i := MarkingOf(outcomes, Steps.Marked(t.db.attempts, Steps.ToMark(t.drain)));
    assert id in outcomes[i].marked by { MarksAre(outcomes[i]); }
    var p := OutcomeMarksSent(outcomes[i], id);
    assert MarkedAt(s, es, k, p);
  }

  lemma MarksAre(o: Outcome)
    requires MarksOk(o)
    ensures o.marked == Steps.Marks(o.rows, AckedGenerations(o.push))
  {
  }

  // ---- Totals ----

  /** Sent, named as accepted and not as rejected. */
  predicate Acknowledged(p: Push, a: AttemptPayload) {
    a in p.batch && p.reply.Ack? && a.id in p.reply.accepted && a.id !in p.reply.failures
  }

  /**
    A deployment's drain reports no error exactly when Central replied, every acknowledged attempt is still as it was
    sent, and a final push was rejected nothing; then it counts the acknowledged attempts.
   */
  lemma CleanOutcomeIff(deploymentId: Id, group: seq<Attempt>, final: bool, o: Outcome)
    requires DistinctIds(group) && OutcomeOk(deploymentId, group, final, o)
    ensures o.err.None? <==> o.push.reply.Ack? && (final ==> |o.push.reply.failures| == 0)
                             && forall a :: Acknowledged(o.push, a) ==> AsSent(o.rows, a)
    ensures o.err.None? ==> o.n == |set a | a in o.push.batch && Acknowledged(o.push, a) :: a.id|
  {
    hide Machine.PayloadOf, Machine.GenerationIn, Payloads.Reports;
    var acked := Acked(o.push);
    assert (set a | a in o.push.batch && Acknowledged(o.push, a) :: a.id) == acked;
    forall a | Acknowledged(o.push, a) ensures a.id in acked && AckedGenerations(o.push)[a.id] == a.resetGeneration {
      OwnGeneration(group, o, a);
    }
    assert o.marked <= acked;
    if o.marked == acked {
      forall a | Acknowledged(o.push, a) ensures AsSent(o.rows, a) {
        assert a.id in o.marked;
      }
    }
    if forall a :: Acknowledged(o.push, a) ==> AsSent(o.rows, a) {
      forall id | id in acked ensures id in o.marked {
        var a :| a in o.push.batch && a.id == id;
        assert Acknowledged(o.push, a);
      }
    }
    if |o.marked| == |acked| {
      SameSize(o.marked, acked);
    }
  }

  /** Nobody is sent twice in a batch, so the generation to mark is the payload's own. */
  lemma OwnGeneration(group: seq<Attempt>, o: Outcome, a: AttemptPayload)
    requires DistinctIds(group) && Sent(o.push.batch, group, o.read) && a in o.push.batch
    ensures a.id in Machine.PayloadIds(o.push.batch) && Machine.GenerationIn(o.push.batch, a.id) == a.resetGeneration
  {
    hide Machine.GenerationIn;
    var batch := o.push.batch;
    assert a.id in Machine.PayloadIds(batch);
    Machine.GenerationAccepted(batch, a.id);
    var b :| b in batch && b.id == a.id && b.resetGeneration == Machine.GenerationIn(batch, a.id);
    var i :| 0 <= i < |batch| && batch[i] == a;
    var j :| 0 <= j < |batch| && batch[j] == b;
    assert Reports(batch[i], group[i], o.read[i]) && Reports(batch[j], group[j], o.read[j]);
  }

  /** What one deployment reports without error is exactly what it marked: all it acknowledged. */
  lemma CleanOutcome(deploymentId: Id, group: seq<Attempt>, final: bool, o: Outcome)
    requires OutcomeOk(deploymentId, group, final, o)
    ensures o.marked <= Acked(o.push) && Acked(o.push) <= Machine.PayloadIds(o.push.batch)
    ensures o.err.None? ==> o.marked == Acked(o.push) && o.n == |o.marked|
  {
    hide Machine.PayloadOf, Machine.GenerationIn;
    if o.err.None? {
      SameSize(o.marked, Acked(o.push));
    }
  }

  lemma SameSize<T>(a: set<T>, b: set<T>)
    requires a <= b && |a| == |b|
    ensures a == b
  {
    assert b == a + (b - a);
  }

  /** Two deployments never send the same attempt. */
  lemma BatchesDisjoint(exams: Exams, listed: seq<Attempt>, d: Id, e: Id, final: bool, finals: bool, o: Outcome,
                        q: Outcome)
    requires DistinctIds(listed) && d != e
    requires OutcomeOk(d, Group(exams, listed, Some(d)), final, o)
    requires OutcomeOk(e, Group(exams, listed, Some(e)), finals, q)
    ensures Machine.PayloadIds(o.push.batch) !! Machine.PayloadIds(q.push.batch)
  {
    hide Verdict, Steps.Marks, Resolved, Group, Acked;
    forall id | id in Machine.PayloadIds(o.push.batch) && id in Machine.PayloadIds(q.push.batch) ensures false {
      var i :| 0 <= i < |o.push.batch| && o.push.batch[i].id == id;
      var j :| 0 <= j < |q.push.batch| && q.push.batch[j].id == id;
      var a, b := Group(exams, listed, Some(d))[i], Group(exams, listed, Some(e))[j];
      assert a.id == id && b.id == id;
      GroupMembers(exams, listed, Some(d), a);
      GroupMembers(exams, listed, Some(e), b);
      SameListed(listed, a, b);
    }
  }

  lemma SameListed(listed: seq<Attempt>, a: Attempt, b: Attempt)
    requires DistinctIds(listed) && a in listed && b in listed && a.id == b.id
    ensures a == b
  {
  }

  /**
    The total a drain returns never exceeds the attempts its run newly marks, and is their number when no
    deployment failed.
   */
  lemma TotalWithinMarked(s: Machine.State, es: seq<Machine.Event>, exams: Exams, listed: seq<Attempt>, final: bool,
                          keys: seq<Id>, outcomes: seq<Outcome>, total: nat, err: Option<DrainError>)
    requires Machine.NodeOk(s) && Drained(s, es, exams, listed, final, keys, outcomes, total, err)
    ensures total <= |Steps.NewlyHarvested(s, es)|
    ensures FailedCount(outcomes) == 0 ==> total == |Steps.NewlyHarvested(s, es)|
  {
    hide Visits, Deployments, StrictlySorted, FailedCount, Group, UnnamedExam, Machine.NodeOk, AllActs, Steps.Acts,
      Steps.NewlyHarvested;
    HarvestedIsMarked(s, es, exams, listed, final, keys, outcomes, total, err);
    if outcomes != [] {
      assert Distinct(keys) by { KeysDistinct(keys); }
      VisitsWithinMarked(exams, listed, final, keys, outcomes);
    }
  }

  lemma KeysDistinct(keys: seq<Id>)
    requires StrictlySorted(keys)
    ensures Distinct(keys)
  {
  }

  lemma {:induction false} VisitsWithinMarked(exams: Exams, listed: seq<Attempt>, final: bool, keys: seq<Id>,
                                              outcomes: seq<Outcome>)
    requires DistinctIds(listed) && Distinct(keys) && Visits(exams, listed, final, keys, outcomes)
    ensures TotalOf(outcomes) <= |AllMarked(outcomes)|
    ensures FailedCount(outcomes) == 0 ==> TotalOf(outcomes) == |AllMarked(outcomes)|
    ensures forall id :: id in AllMarked(outcomes) ==> exists i :: 0 <= i < |outcomes| && id in outcomes[i].marked
  {
    hide OutcomeOk, Group, DistinctIds;
    if outcomes != [] {
      var n := |outcomes| - 1;
      var front, o := outcomes[..n], outcomes[n];
      VisitsWithinMarked(exams, listed, final, keys[..n], front);
      var group := Group(exams, listed, Some(keys[n]));
      assert OutcomeOk(keys[n], group, final && |group| <= MAX_BATCH_ATTEMPTS, o);
      CleanOutcome(keys[n], group, final && |group| <= MAX_BATCH_ATTEMPTS, o);
      forall id | id in AllMarked(front) && id in o.marked ensures false {
        var i :| 0 <= i < n && id in front[i].marked;
        var other := Group(exams, listed, Some(keys[i]));
        assert front[i] == outcomes[i];
        CleanOutcome(keys[i], other, final && |other| <= MAX_BATCH_ATTEMPTS, outcomes[i]);
        BatchesDisjoint(exams, listed, keys[i], keys[n], final && |other| <= MAX_BATCH_ATTEMPTS,
                        final && |group| <= MAX_BATCH_ATTEMPTS, outcomes[i], o);
      }
      assert AllMarked(front) !! o.marked;
      assert |AllMarked(outcomes)| == |AllMarked(front)| + |o.marked|;
      forall id | id in AllMarked(outcomes) ensures exists i :: 0 <= i < |outcomes| && id in outcomes[i].marked {
        if id in o.marked {
          assert id in outcomes[n].marked;
        } else {
          var i :| 0 <= i < n && id in front[i].marked;
          assert id in outcomes[i].marked;
        }
      }
    }
  }

  // ---- What a clean final drain means ----

  /** Central accepted everything the push carried. */
  predicate AcksAll(p: Push) {
    p.reply.Ack? && forall id :: id in Machine.PayloadIds(p.batch) ==> id in p.reply.accepted
  }

  lemma OutcomeMarkedIff(d: Id, group: seq<Attempt>, o: Outcome)
    requires DistinctIds(group) && OutcomeOk(d, group, |group| <= MAX_BATCH_ATTEMPTS, o) && o.err.None?
    ensures (forall a :: a in group ==> a.id in o.marked) <==> |group| <= MAX_BATCH_ATTEMPTS && AcksAll(o.push)
  {
    hide Steps.Marks, Machine.GenerationIn;
    CleanOutcome(d, group, |group| <= MAX_BATCH_ATTEMPTS, o);
    var batch := o.push.batch;
    forall k | 0 <= k < |batch| ensures batch[k].id == group[k].id && batch[k].id in Machine.PayloadIds(batch) {
      assert batch[k] in batch;
    }
    if |group| > MAX_BATCH_ATTEMPTS {
      var a := group[MAX_BATCH_ATTEMPTS];
      assert a in group && a.id !in Machine.PayloadIds(batch);
    } else {
      if forall a :: a in group ==> a.id in o.marked {
        forall id | id in Machine.PayloadIds(batch) ensures id in o.push.reply.accepted {
          var k :| 0 <= k < |batch| && batch[k].id == id;
          assert group[k] in group;
        }
      }
      if AcksAll(o.push) {
        forall a | a in group ensures a.id in o.marked {
          var k :| 0 <= k < |group| && group[k] == a;
          assert batch[k].id == a.id;
        }
      }
    }
  }

  /**
    A deployment drained without error in one final push is wholly marked by that run exactly when it fits the batch
    and is wholly accepted.
   */
  lemma GroupMarkedIff(s: Machine.State, es: seq<Machine.Event>, d: Id, group: seq<Attempt>, o: Outcome)
    requires Machine.NodeOk(s) && Steps.Acts(s, es) == ActsOf(o)
    requires DistinctIds(group) && OutcomeOk(d, group, |group| <= MAX_BATCH_ATTEMPTS, o) && o.err.None?
    ensures (forall a :: a in group ==> a.id in Steps.NewlyHarvested(s, es)) <==>
            |group| <= 500 && AcksAll(o.push)
  {
    hide Machine.NodeOk, ActsOf, Steps.Acts, Steps.NewlyHarvested, AcksAll, DistinctIds, Steps.Marks, AckedGenerations, Sent, Verdict;
    Steps.HarvestedByMarks(s, es);
    OutcomeMarks(o);
    OutcomeMarkedIff(d, group, o);
  }

  lemma {:induction false} NoFailures(outcomes: seq<Outcome>, i: nat)
    requires FailedCount(outcomes) == 0 && i < |outcomes|
    ensures outcomes[i].err.None?
  {
    if i < |outcomes| - 1 {
      NoFailures(outcomes[..|outcomes| - 1], i);
    }
  }

  lemma {:induction false} MarkedSomewhere(outcomes: seq<Outcome>, id: Id)
    ensures id in AllMarked(outcomes) <==> exists i :: 0 <= i < |outcomes| && id in outcomes[i].marked
  {
    if outcomes != [] {
      var n := |outcomes| - 1;
      MarkedSomewhere(outcomes[..n], id);
      if id in AllMarked(outcomes[..n]) {
        var i :| 0 <= i < n && id in outcomes[..n][i].marked;
        assert id in outcomes[i].marked;
      } else if id in AllMarked(outcomes) {
        assert id in outcomes[n].marked;
      }
      if i :| 0 <= i < |outcomes| && id in outcomes[i].marked {
        assert i < n ==> id in outcomes[..n][i].marked;
      }
    }
  }

  /** An attempt of a group is marked by its own deployment's push or not at all. */
  lemma MarkedByOwnPush(exams: Exams, listed: seq<Attempt>, final: bool, keys: seq<Id>, outcomes: seq<Outcome>, i: nat,
                        a: Attempt)
    requires DistinctIds(listed) && Distinct(keys) && Visits(exams, listed, final, keys, outcomes)
    requires i < |keys| && a in Group(exams, listed, Some(keys[i]))
    ensures a.id in AllMarked(outcomes) <==> a.id in outcomes[i].marked
  {
    hide OutcomeOk, Group, Resolved, DistinctIds, AllMarked;
    MarkedSomewhere(outcomes, a.id);
    if j :| 0 <= j < |outcomes| && a.id in outcomes[j].marked {
      var group := Group(exams, listed, Some(keys[j]));
      var b := MarkedIsGrouped(keys[j], group, final && |group| <= MAX_BATCH_ATTEMPTS, outcomes[j], a.id);
      GroupMembers(exams, listed, Some(keys[j]), b);
      GroupMembers(exams, listed, Some(keys[i]), a);
      SameListed(listed, a, b);
      assert keys[i] == keys[j];
    }
  }

  lemma MarkedIsGrouped(d: Id, group: seq<Attempt>, final: bool, o: Outcome, id: Id) returns (b: Attempt)
    requires OutcomeOk(d, group, final, o) && id in o.marked
    ensures b in group && b.id == id
  {
    CleanOutcome(d, group, final, o);
    hide Steps.Marks, Acked, Verdict;
    var k :| 0 <= k < |o.push.batch| && o.push.batch[k].id == id;
    b := group[k];
  }

  lemma CleanAccountIff(exams: Exams, listed: seq<Attempt>, keys: seq<Id>, outcomes: seq<Outcome>, total: nat)
    requires DistinctIds(listed) && DrainOk(exams, listed, true, keys, outcomes, total, None)
    ensures (forall a :: a in listed ==> a.id in AllMarked(outcomes)) <==>
            forall i :: 0 <= i < |outcomes| ==>
              |Group(exams, listed, Some(keys[i]))| <= MAX_BATCH_ATTEMPTS && AcksAll(outcomes[i].push)
  {
    hide OutcomeOk, Group, Resolved, DistinctIds, UnnamedExam, AcksAll, AllMarked, FailedCount, TotalOf;
    KeysDistinct(keys);
    forall i | 0 <= i < |outcomes|
      ensures (forall a :: a in Group(exams, listed, Some(keys[i])) ==> a.id in AllMarked(outcomes)) <==>
              |Group(exams, listed, Some(keys[i]))| <= MAX_BATCH_ATTEMPTS && AcksAll(outcomes[i].push)
    {
      var group := Group(exams, listed, Some(keys[i]));
      NoFailures(outcomes, i);
      GroupDistinct(exams, listed, Some(keys[i]));
      OutcomeMarkedIff(keys[i], group, outcomes[i]);
      forall a | a in group ensures a.id in AllMarked(outcomes) <==> a.id in outcomes[i].marked {
        MarkedByOwnPush(exams, listed, true, keys, outcomes, i, a);
      }
    }
    forall a | a in listed
      ensures exists i :: 0 <= i < |keys| && a in Group(exams, listed, Some(keys[i]))
    {
      ListedIsGrouped(exams, listed, keys, a);
    }
    forall i, a | 0 <= i < |keys| && a in Group(exams, listed, Some(keys[i])) ensures a in listed {
      GroupMembers(exams, listed, Some(keys[i]), a);
    }
  }

  /**
    A final drain without an error has, in its run, marked every listed attempt exactly when every group fits one
    batch and is wholly accepted.
   */
  lemma CleanFinalDrainIff(s: Machine.State, es: seq<Machine.Event>, exams: Exams, listed: seq<Attempt>, keys: seq<Id>,
                           outcomes: seq<Outcome>, total: nat)
    requires Machine.NodeOk(s) && Drained(s, es, exams, listed, true, keys, outcomes, total, None)
    ensures (forall a :: a in listed ==> a.id in Steps.NewlyHarvested(s, es)) <==>
            forall i :: 0 <= i < |outcomes| ==>
              |Group(exams, listed, Some(keys[i]))| <= 500 && AcksAll(outcomes[i].push)
  {
    hide Machine.NodeOk, DrainOk, DistinctIds, AcksAll, AllActs, AllMarked, Steps.Acts, Steps.NewlyHarvested, Group;
    HarvestedIsMarked(s, es, exams, listed, true, keys, outcomes, total, None);
    CleanAccountIff(exams, listed, keys, outcomes, total);
    AccountLengths(exams, listed, keys, outcomes, total);
  }

  lemma AccountLengths(exams: Exams, listed: seq<Attempt>, keys: seq<Id>, outcomes: seq<Outcome>, total: nat)
    requires DrainOk(exams, listed, true, keys, outcomes, total, None)
    ensures |keys| == |outcomes|
  {
  }

  lemma ListedIsGrouped(exams: Exams, listed: seq<Attempt>, keys: seq<Id>, a: Attempt)
    requires a in listed && Elements(keys) == Deployments(exams, listed, true) && |Group(exams, listed, None)| == 0
    ensures exists i :: 0 <= i < |keys| && a in Group(exams, listed, Some(keys[i]))
  {
    hide Resolved, Group;
    GroupMembers(exams, listed, None, a);
    var d := Resolved(exams, a).value;
    assert d in Elements(keys);
    var i :| 0 <= i < |keys| && keys[i] == d;
    GroupMembers(exams, listed, Some(keys[i]), a);
  }
}
