/** The sweeper: finalises every sitting of an expired snapshot, and counts what it could not finalise. */
module SweeperService {
  import opened Common
  import opened Entities
  import opened NodeRepository
  import M = AttemptModel
  import Inv = SittingInvariant
  import AttemptService
  import UseCases = AttemptUseCases
  import Answers

  predicate Expired(a: Attempt, now: Time) {
    a.status.InProgress? && a.dueAt < now
  }

  /** The row a sweep leaves, when the sitting is finalised at `at`. */
  function SweptRow(db: Database, a: Attempt, now: Time, at: Time): Attempt {
    if Expired(a, now) && a.examId in db.exams then M.Finalized(a, db.exams[a.examId], db.AnswersOf(a.id), true, at) else a
  }

  function ExpiredIds(db: Database, now: Time): set<Id> {
    set id | id in db.attempts && Expired(db.attempts[id], now)
  }

  function Orphans(db: Database, ids: set<Id>): set<Id> {
    set id | id in ids && id in db.attempts && db.attempts[id].examId !in db.exams
  }

  class Service {
    const repo: Repository

    constructor (repo: Repository)
      ensures this.repo == repo
    {
      this.repo := repo;
    }

    method ListExpiredAttempts(now: Time) returns (ids: seq<Id>)
      ensures Elements(ids) == ExpiredIds(repo.Db(), now) && Distinct(ids)
    {
      hide Elements, Distinct;
      var rest := set id | id in repo.attempts && Expired(repo.attempts[id], now);
      ids := [];
      NoElements<Id>();
      while rest != {}
        invariant Elements(ids) + rest == ExpiredIds(repo.Db(), now) && Elements(ids) !! rest && Distinct(ids)
        decreases |rest|
      {
        var id :| id in rest;
        AppendNew(ids, id);
        ids, rest := ids + [id], rest - {id};
      }
    }

    /** One turn of the loop: the sitting is finalised, or counted as failed when its exam is missing. */
    method SweepOne(id: Id, now: Time, at: Time) returns (finalized: bool, err: bool)
      requires id in repo.attempts && repo.attempts[id].id == id && Expired(repo.attempts[id], now)
      modifies repo`attempts
      ensures repo.attempts == old(repo.attempts)[id := SweptRow(old(repo.Db()), old(repo.attempts[id]), now, at)]
      ensures err <==> old(repo.attempts[id]).examId !in repo.exams
      ensures finalized <==> !err
    {
      hide M.Finalized, M.UpdateAttempt;
      Inv.FinalizeEffect(repo.Db(), id, true, at);
      assert repo.attempts == repo.attempts[id := repo.attempts[id]];
      FinalizeSucceeds(repo.Db(), id, at);
      var r := AttemptService.FinalizeAttempt(repo, id, true, at);
      err := r.Err?;
      finalized := r.Ok? && r.value.1;
    }

    /**
      Each expired sitting is finalised once, at its own instant; no other row changes; failures are those
      without an exam.
     */
    method SweepExpiredAttempts(now: Time, clock: Id -> Time) returns (swept: nat, failed: nat)
      requires forall id :: id in repo.attempts ==> repo.attempts[id].id == id
      modifies repo`attempts
      ensures repo.Db() == old(repo.Db()).(attempts := Swept(old(repo.Db()), ExpiredIds(old(repo.Db()), now), now, clock))
      ensures failed == |Orphans(old(repo.Db()), ExpiredIds(old(repo.Db()), now))|
      ensures swept + failed == |ExpiredIds(old(repo.Db()), now)|
    {
      hide M.Finalized, M.FinalizeAttempt, SweptRow, Swept, Orphans, Elements, Distinct;
      var expired := ListExpiredAttempts(now);
      ghost var before, done := repo.Db(), {};
      swept, failed := 0, 0;
      NothingSwept(before, now, clock);
      WholePrefix(expired);
      for i := 0 to |expired|
        invariant done == Elements(expired[..i]) && repo.attempts == Swept(before, done, now, clock)
        invariant failed == |Orphans(before, done)| && swept + failed == |done|
      {
        var id := expired[i];
        PrefixElements(expired, i);
        SweptNext(before, repo.Db(), done, id, now, clock);
        var finalized, err := SweepOne(id, now, clock(id));
        done := done + {id};
        if err {
          failed := failed + 1;
        } else if finalized {
          swept := swept + 1;
        }
      }
    }
  }

  /** The rows once the sittings in `done` are swept. */
  function Swept(db: Database, done: set<Id>, now: Time, clock: Id -> Time): map<Id, Attempt> {
    map id | id in db.attempts :: if id in done then SweptRow(db, db.attempts[id], now, clock(id)) else db.attempts[id]
  }

  lemma NothingSwept(db: Database, now: Time, clock: Id -> Time)
    ensures Swept(db, {}, now, clock) == db.attempts && Orphans(db, {}) == {}
  {
  }

  /** Sweeping one more sitting, over rows in which the others of `done` are swept. */
  lemma SweptNext(before: Database, db: Database, done: set<Id>, id: Id, now: Time, clock: Id -> Time)
    requires db == before.(attempts := Swept(before, done, now, clock)) && id in before.attempts && id !in done
    ensures id in db.attempts && db.attempts[id] == before.attempts[id]
    ensures Swept(before, done + {id}, now, clock) == db.attempts[id := SweptRow(db, db.attempts[id], now, clock(id))]
    ensures Orphans(before, done + {id}) == Orphans(before, done) + if before.attempts[id].examId !in before.exams then {id} else {}
    ensures id !in Orphans(before, done)
  {
    hide M.Finalized;
  }

  lemma FinalizeSucceeds(db: Database, id: Id, at: Time)
    requires id in db.attempts && db.attempts[id].id == id && db.attempts[id].status.InProgress?
    ensures M.FinalizeAttempt(db, id, true, at).1.Ok? <==> db.attempts[id].examId in db.exams
    ensures M.FinalizeAttempt(db, id, true, at).1.Ok? ==> M.FinalizeAttempt(db, id, true, at).1.value.1
  {
    hide M.Finalized;
    if db.attempts[id].examId in db.exams {
      FinalizedKeepsId(db, id, at);
    }
  }

  lemma FinalizedKeepsId(db: Database, id: Id, at: Time)
    requires id in db.attempts && db.attempts[id].examId in db.exams
    ensures M.Finalized(db.attempts[id], db.exams[db.attempts[id].examId], db.AnswersOf(id), true, at).id == db.attempts[id].id
  {
  }

  /** While the tables are in order a sweep fails on nothing and leaves no sitting open past its due time. */
  lemma NothingLeftOpen(db: Database, now: Time, clock: Id -> Time, id: Id)
    requires Inv.Invariant(db) && id in db.attempts
    ensures Orphans(db, ExpiredIds(db, now)) == {}
    ensures var a := Swept(db, ExpiredIds(db, now), now, clock)[id];
      !a.status.InProgress? || a.dueAt >= now
  {
    hide Inv.BundleOk, Inv.CountersOk, Inv.NumbersUnique, Inv.NumbersComplete, Inv.AnswersOk, Inv.OperationsOk;
    forall k | k in db.attempts ensures db.attempts[k].examId in db.exams {
      assert Inv.RowOk(db.exams, db.attempts[k]);
    }
  }

  /** A sweep finishes, with its stored answers' total, exactly the open rows past their due time whose exam is loaded. */
  lemma SweptRowIs(db: Database, now: Time, clock: Id -> Time, id: Id)
    requires id in db.attempts && db.attempts[id].id == id
    ensures var (a, b) := (db.attempts[id], Swept(db, ExpiredIds(db, now), now, clock)[id]);
      if a.status.InProgress? && a.dueAt < now && a.examId in db.exams
      then UseCases.FinishedAs(a, b, db.exams[a.examId], UseCases.Stored(db, id), true, clock(id))
      else b == a
  {
    hide Answers.Total;
  }
}
