/**
  Every attempt use case, left alone, is a run of the node's machine, so what holds of every run
  holds of the tables the use cases leave.
 */
module ServiceRuns {
  import opened Common
  import opened Entities
  import opened AttemptModel
  import opened SittingMachine
  import opened SittingHistory
  import SittingInvariant
  import AttemptUseCases
  import Grading

  lemma RunOne(s: State, e: Event)
    ensures Run(s, [e]) == Next(s, e)
  {
    hide Next;
    assert [e][..0] == [] && Run(s, []) == s;
  }

  /** Time passes and nothing else. */
  lemma TickIs(s: State, seconds: nat)
    ensures Next(s, Tick(seconds)) == s.(clock := s.clock + seconds)
  {
  }

  lemma SeeIs(s: State, id: Id)
    requires id in s.db.attempts && s.db.attempts[id].status.InProgress? && s.db.attempts[id].dueAt < s.clock
    ensures Next(s, SeeExpired(id)) == s.(seenExpired := s.seenExpired + {id})
  {
  }

  lemma ExpireIs(s: State, id: Id)
    requires id in s.seenExpired
    ensures Next(s, Expire(id)) == s.(db := AfterFinalize(s.db, id, true, s.clock))
  {
    hide AfterFinalize;
  }

  lemma BindIs(s: State, id: Id, device: string)
    requires BindAttemptDevice(s.db, id, device).Ok?
    ensures Next(s, Bind(id, device)) == s.(db := BindAttemptDevice(s.db, id, device).value)
  {
    hide BindAttemptDevice;
  }

  /** A submission's step: one, at the instant the finalisation reads the clock, or none. */
  ghost function SubmitEvents(s: State, id: Id, pid: Id, now: Time): seq<Event> {
    if id in s.db.attempts && s.db.attempts[id].participantId == pid && s.db.attempts[id].status.InProgress?
       && now <= s.db.attempts[id].dueAt
    then [Event.Submit(id)] else []
  }

  /** Submitting is that run. */
  lemma SubmitIsRun(s: State, id: Id, pid: Id, now: Time)
    ensures Run(s, SubmitEvents(s, id, pid, now)).db == AttemptUseCases.Submit(s.db, id, pid, now, s.clock).0
  {
    hide FinalizeAttempt, Next;
    RunOne(s, Event.Submit(id));
    SubmitIs(s, id);
  }

  lemma SubmitIs(s: State, id: Id)
    ensures Next(s, Event.Submit(id)) == s.(db := FinalizeAttempt(s.db, id, false, s.clock).0)
  {
    hide FinalizeAttempt;
  }

  /** An open attempt past its due time is seen, and closed a while later. */
  function CloseEvents(id: Id, delay: nat): seq<Event> {
    [SeeExpired(id)] + [Tick(delay)] + [Expire(id)]
  }

  lemma CloseIsRun(s: State, id: Id, delay: nat)
    requires id in s.db.attempts && s.db.attempts[id].status.InProgress? && s.db.attempts[id].dueAt < s.clock
    ensures Run(s, CloseEvents(id, delay)) == s.(seenExpired := s.seenExpired + {id}, clock := s.clock + delay,
                                                 db := AfterFinalize(s.db, id, true, s.clock + delay))
  {
    hide Next, AfterFinalize;
    RunOne(s, SeeExpired(id));
    SeeIs(s, id);
    RunNext(s, [SeeExpired(id)], Tick(delay));
    TickIs(s.(seenExpired := s.seenExpired + {id}), delay);
    RunNext(s, [SeeExpired(id)] + [Tick(delay)], Expire(id));
    ExpireIs(s.(seenExpired := s.seenExpired + {id}, clock := s.clock + delay), id);
  }

  ghost function StateEvents(s: State, pid: Id, id: Id, delay: nat): seq<Event> {
    if id in s.db.attempts && s.db.attempts[id].participantId == pid && s.db.attempts[id].status.InProgress?
       && s.db.attempts[id].dueAt < s.clock
    then CloseEvents(id, delay) else []
  }

  /** Reading the state of an expired sitting closes it, by the same steps as the sweeper; any other read takes no step. */
  lemma GetStateIsRun(s: State, pid: Id, id: Id, delay: nat)
    ensures Run(s, StateEvents(s, pid, id, delay)).db == AttemptUseCases.GetState(s.db, pid, id, s.clock, s.clock + delay).0
  {
    hide Next, FinalizeAttempt;
    if id in s.db.attempts && s.db.attempts[id].status.InProgress? && s.db.attempts[id].dueAt < s.clock {
      hide Run;
      CloseIsRun(s, id, delay);
    }
  }

  lemma StartIs(s: State, pid: Id, examId: Id, device: string, now: Time, newId: Id)
    requires examId in s.db.exams && s.db.exams[examId].startsAt <= now <= s.db.exams[examId].endsAt && now <= s.clock
    ensures Next(s, Event.Start(pid, examId, device, now, newId))
         == s.(db := StartTransaction(s.db, pid, s.db.exams[examId], device, now, s.clock, newId).0)
  {
    hide StartTransaction;
  }

  /** A new sitting is created a while after the checks, unless the participant has none left. */
  ghost function CreateEvents(s: State, pid: Id, examId: Id, device: string, now: Time, delay: nat, newId: Id): seq<Event>
    requires pid in s.db.participants && examId in s.db.exams
  {
    if s.db.participants[pid].attemptCount >= s.db.exams[examId].maxAttempts then []
    else [Tick(delay)] + [Event.Start(pid, examId, device, now, newId)]
  }

  lemma StartFreshIsRun(s: State, delay: nat, pid: Id, examId: Id, device: string, now: Time, newId: Id)
    requires pid in s.db.participants
    requires examId in s.db.exams && s.db.exams[examId].startsAt <= now <= s.db.exams[examId].endsAt && now <= s.clock
    ensures Run(s, CreateEvents(s, pid, examId, device, now, delay, newId)).db ==
            AttemptUseCases.StartFresh(s.db, s.db.participants[pid].attemptCount, pid, s.db.exams[examId], device, now,
                                       s.clock + delay, newId).0
  {
    hide Next, StartTransaction;
    RunOne(s, Tick(delay));
    TickIs(s, delay);
    RunNext(s, [Tick(delay)], Event.Start(pid, examId, device, now, newId));
    StartIs(s.(clock := s.clock + delay), pid, examId, device, now, newId);
  }

  /** Over an open sitting: its binding, and past its due time its closing and the creation of the next. */
  ghost function OverEvents(s: State, id: Id, pid: Id, examId: Id, device: string, preDelay: nat, delay: nat, newId: Id): seq<Event>
    requires id in s.db.attempts && pid in s.db.participants && examId in s.db.exams
  {
    var a := s.db.attempts[id];
    if a.deviceId != "" && a.deviceId != device then []
    else
      (if a.deviceId == "" && device != "" then [Bind(id, device)] else [])
      + if s.clock <= a.dueAt then [] else CloseEvents(id, preDelay) + CreateEvents(s, pid, examId, device, s.clock, delay, newId)
  }

  ghost function StartEvents(s: State, pid: Id, examId: Id, deviceId: string, preDelay: nat, delay: nat, newId: Id): seq<Event> {
    var device := Grading.TrimSpace(deviceId);
    if |device| > 128 || examId !in s.db.exams || !(s.db.exams[examId].startsAt <= s.clock <= s.db.exams[examId].endsAt)
       || pid !in s.db.participants || s.db.participants[pid].examId != examId then []
    else
      match FindActive(s.db, pid, examId)
      case Some(id) => OverEvents(s, id, pid, examId, device, preDelay, delay, newId)
      case None => CreateEvents(s, pid, examId, device, s.clock, preDelay + delay, newId)
  }

  /** The pre-transaction steps and the transaction of a start are that run of single steps. */
  lemma StartIsRun(s: State, pid: Id, examId: Id, deviceId: string, preDelay: nat, delay: nat, newId: Id)
    requires forall id :: id in s.db.attempts ==> s.db.attempts[id].id == id && s.db.attempts[id].examId in s.db.exams
    ensures Run(s, StartEvents(s, pid, examId, deviceId, preDelay, delay, newId)).db ==
            AttemptUseCases.Start(s.db, pid, examId, deviceId, s.clock, s.clock + preDelay, s.clock + preDelay + delay, newId).0
  {
    hide Next, AttemptUseCases.StartOver, AttemptUseCases.StartFresh, Grading.TrimSpace, FindActive, OverEvents, CreateEvents;
    var device := Grading.TrimSpace(deviceId);
    if examId in s.db.exams && s.db.exams[examId].startsAt <= s.clock <= s.db.exams[examId].endsAt && pid in s.db.participants {
      match FindActive(s.db, pid, examId)
      case None => StartFreshIsRun(s, preDelay + delay, pid, examId, device, s.clock, newId);
      case Some(id) => StartOverIsRun(s, id, pid, examId, device, preDelay, delay, newId);
    }
  }

  lemma BoundFirst(s: State, id: Id, device: string)
    requires id in s.db.attempts && s.db.attempts[id].status.InProgress? && !DeviceRefused(s.db.attempts[id], device)
    ensures BindIfUnbound(s.db, id, device).Ok?
    ensures Run(s, if s.db.attempts[id].deviceId == "" && device != "" then [Bind(id, device)] else []) ==
            s.(db := BindIfUnbound(s.db, id, device).value)
  {
    hide Next;
    if s.db.attempts[id].deviceId == "" && device != "" {
      RunOne(s, Bind(id, device));
      BindIs(s, id, device);
    }
  }

  lemma StartOverIsRun(s: State, id: Id, pid: Id, examId: Id, device: string, preDelay: nat, delay: nat, newId: Id)
    requires examId in s.db.exams && s.db.exams[examId].startsAt <= s.clock <= s.db.exams[examId].endsAt
    requires pid in s.db.participants && id in s.db.attempts && s.db.attempts[id].status.InProgress?
    requires s.db.attempts[id].id == id && s.db.attempts[id].examId in s.db.exams
    ensures Run(s, OverEvents(s, id, pid, examId, device, preDelay, delay, newId)).db ==
            AttemptUseCases.StartOver(s.db, id, pid, s.db.exams[examId], device, s.clock, s.clock + preDelay,
                                      s.clock + preDelay + delay, newId).0
  {
    hide Run, Next, FinalizeAttempt, AttemptUseCases.StartFresh, CreateEvents;
    var a := s.db.attempts[id];
    if DeviceRefused(a, device) {
      assert Run(s, []) == s by { RunNothing(s); }
    } else {
      BoundFirst(s, id, device);
      var first := if a.deviceId == "" && device != "" then [Bind(id, device)] else [];
      var t := s.(db := BindIfUnbound(s.db, id, device).value);
      if s.clock <= a.dueAt {
        assert first + [] == first;
      } else {
        var u := t.(seenExpired := s.seenExpired + {id}, clock := s.clock + preDelay,
                    db := AfterFinalize(t.db, id, true, s.clock + preDelay));
        CloseIsRun(t, id, preDelay);
        FinalizeKeepsBundle(t.db, id, true, s.clock + preDelay);
        StartFreshIsRun(u, delay, pid, examId, device, s.clock, newId);
        assert CreateEvents(u, pid, examId, device, s.clock, delay, newId)
            == CreateEvents(s, pid, examId, device, s.clock, delay, newId) by {
          SameCreateEvents(u, s, pid, examId, device, s.clock, delay, newId);
        }
        var more := CreateEvents(s, pid, examId, device, s.clock, delay, newId);
        RunOn(t, CloseEvents(id, preDelay), more);
        RunOn(s, first, CloseEvents(id, preDelay) + more);
      }
    }
  }

  lemma RunNothing(s: State)
    ensures Run(s, []) == s
  {
  }

  lemma SameCreateEvents(u: State, s: State, pid: Id, examId: Id, device: string, now: Time, delay: nat, newId: Id)
    requires u.db.exams == s.db.exams && u.db.participants == s.db.participants && pid in s.db.participants && examId in s.db.exams
    ensures CreateEvents(u, pid, examId, device, now, delay, newId) == CreateEvents(s, pid, examId, device, now, delay, newId)
  {
  }

  /** Closing an open attempt of a loaded exam succeeds, and touches neither exams nor participants. */
  lemma FinalizeKeepsBundle(db: Database, id: Id, auto: bool, now: Time)
    requires id in db.attempts && db.attempts[id].id == id && db.attempts[id].examId in db.exams
    ensures AfterFinalize(db, id, auto, now).exams == db.exams && AfterFinalize(db, id, auto, now).participants == db.participants
    ensures FinalizeAttempt(db, id, auto, now).1.Ok?
  {
    FinalizedId(db.attempts[id], db.exams[db.attempts[id].examId], db.AnswersOf(id), auto, now);
    hide Finalized;
  }

  lemma FinalizedId(a: Attempt, exam: Exam, rows: seq<Answer>, auto: bool, now: Time)
    ensures Finalized(a, exam, rows, auto, now).id == a.id
  {
  }

  /** An autosave's steps: its check and its write, or none. */
  ghost function AutosaveEvents(s: State, id: Id, itemId: Id, json: Fields, text: Option<string>, clientSeq: int, pid: Id, newId: Id,
                                grade: (int, bool)): seq<Event>
  {
    if id in s.db.attempts && s.db.attempts[id].participantId == pid && s.db.attempts[id].status.InProgress?
       && s.clock <= s.db.attempts[id].dueAt && itemId in s.db.items
       && (s.db.items[itemId].examId == "" || s.db.items[itemId].examId == s.db.attempts[id].examId)
    then [CheckAutosave(id, pid, itemId, json, text, clientSeq, newId, grade)]
         + [LandAutosave(GradedAnswer(s.db.items[itemId], id, json, text, clientSeq, newId, s.clock, grade))]
    else []
  }

  /** An autosave is that run. */
  lemma AutosaveIsRun(s: State, id: Id, itemId: Id, json: Fields, text: Option<string>, clientSeq: int, pid: Id,
                      newId: Id, grade: (int, bool))
    requires itemId in s.db.items ==> s.db.items[itemId].id == itemId && Grading.MayGrade(s.db.items[itemId], json, grade)
    ensures Run(s, AutosaveEvents(s, id, itemId, json, text, clientSeq, pid, newId, grade)).db ==
            AttemptUseCases.Autosave(s.db, id, itemId, json, text, clientSeq, pid, s.clock, newId, grade).0
  {
    hide PutAnswer, GradedAnswer, Grading.MayGrade, Next;
    if AutosaveEvents(s, id, itemId, json, text, clientSeq, pid, newId, grade) != [] {
      var e := CheckAutosave(id, pid, itemId, json, text, clientSeq, newId, grade);
      var w := GradedAnswer(s.db.items[itemId], id, json, text, clientSeq, newId, s.clock, grade);
      RunOne(s, e);
      CheckIs(s, id, itemId, json, text, clientSeq, pid, newId, grade);
      RunNext(s, [e], LandAutosave(w));
      LandIs(s.(pending := s.pending + {w}), w);
    }
  }

  lemma CheckIs(s: State, id: Id, itemId: Id, json: Fields, text: Option<string>, clientSeq: int, pid: Id, newId: Id,
                grade: (int, bool))
    requires MayAutosave(s.db, id, pid, itemId, s.clock) && Grading.MayGrade(s.db.items[itemId], json, grade)
    ensures Next(s, CheckAutosave(id, pid, itemId, json, text, clientSeq, newId, grade)) ==
            s.(pending := s.pending + {GradedAnswer(s.db.items[itemId], id, json, text, clientSeq, newId, s.clock, grade)})
  {
    hide GradedAnswer, Grading.MayGrade, MayAutosave;
  }

  lemma LandIs(s: State, w: Answer)
    requires w in s.pending
    ensures Next(s, LandAutosave(w)).db == PutAnswer(s.db, w)
  {
    hide PutAnswer;
  }
}
