/** The gate over whole runs of the store: a write is accepted only as what happened
    before permits. */
module PlatformStorePermission {
  import opened Wrappers
  import opened PlatformStore
  import opened PlatformStoreGate
  import opened PlatformStoreRuns
  import opened PlatformStoreHistory
  import opened PlatformStoreDevices
  import K = KeyedLists
  import D = ProctorDevices
  import E = ExamSessions

  /** The time is no earlier than the run's last step. */
  predicate NotBefore(steps: seq<Step>, now: int) { steps != [] ==> steps[|steps| - 1].now <= now }

  /** What must have happened for a write by the candidate at this time. */
  ghost predicate Permitted(s: State, steps: seq<Step>, timeout: int, now: int, c: Candidate, e: Exam) {
    && e.status != ENDED && e.status != DELETED
    && e.startAt.Some? && e.endAt.Some? && e.startAt.value <= now < e.endAt.value
    && LatestStatus(s, steps, timeout, c.id) != Some(INVITED)
    && LatestCheck(s, steps, timeout, c.id) == Some(true)
    && (e.identityVerificationEnabled ==> LatestVerification(s, steps, timeout, c.id) == Some(true))
    && (e.mobileCameraRequired ==> IsLive(s, steps, timeout, now, D.Key(c.id, e.id, D.MOBILE_AUX)))
    && LatestAction(s, steps, timeout, c.id) in {None, Some(E.RESUME_EXAM)}
  }

  /** A candidate has one mobile device, the one of their exam. */
  lemma FreshMobileIsTheDevice(s: State, candidateId: string, examId: string, since: int)
    requires Inv(s) && Sits(s.candidates, candidateId, examId)
    ensures var device := K.Find(s.devices, D.Key(candidateId, examId, D.MOBILE_AUX));
      SomeFreshMobile(s.devices, candidateId, since)
      <==> device.Some? && IsFreshMobile(device.value, candidateId, since)
  {
    var key := D.Key(candidateId, examId, D.MOBILE_AUX);
    K.FindIs(s.devices, key);
    var device := K.Find(s.devices, key);
    if device.Some? {
      var k :| 0 <= k < |s.devices| && s.devices[k] == device.value;
    }
    forall k | 0 <= k < |s.devices| && IsFreshMobile(s.devices[k], candidateId, since)
      ensures device == Some(s.devices[k])
    {
      assert s.devices[k] in s.devices && s.devices[k].key == key;
      K.OnlyOne(s.devices, s.devices[k], device.value);
    }
  }

  lemma GateIsPermission(s: State, steps: seq<Step>, timeout: int, now: int, c: Candidate, e: Exam)
    requires Fresh(s) && Timely(steps) && NotBefore(steps, now) && Sits(Exec(s, steps, timeout).candidates, c.id, e.id)
    requires CandidateById(Exec(s, steps, timeout).candidates, c.id) == Some(c)
    ensures Permitted(s, steps, timeout, now, c, e)
       <==> && GatePasses(Exec(s, steps, timeout), c, e, now, timeout)
            && LatestAction(s, steps, timeout, c.id) in {None, Some(E.RESUME_EXAM)}
  {
    FreshInv(s);
    RunKeepsInv(s, steps, timeout);
    StatusesAreARegister(s, steps, timeout, c.id);
    ChecksAreARegister(s, steps, timeout, c.id);
    VerificationsAreARegister(s, steps, timeout, c.id);
    ConnectedAndFreshExactlyIfLive(s, steps, timeout, D.Key(c.id, e.id, D.MOBILE_AUX), now);
    K.FindIs(Exec(s, steps, timeout).devices, D.Key(c.id, e.id, D.MOBILE_AUX));
    FreshMobileIsTheDevice(Exec(s, steps, timeout), c.id, e.id, now - timeout);
  }

  /** On every run, a draft or run is admitted exactly if it is permitted, its question
      and language are the exam's, and a full second of the session remains. */
  lemma AdmittedExactlyIfPermitted(s: State, steps: seq<Step>, timeout: int, token: string, questionId: string,
                                   language: Option<string>, now: int, c: Candidate, e: Exam)
    requires Fresh(s) && Timely(steps) && NotBefore(steps, now) && Invited(Exec(s, steps, timeout), token, c, e)
    ensures var u := Exec(s, steps, timeout);
      Admit(u, token, questionId, language, now, timeout).1.Ok?
      <==> && Permitted(s, steps, timeout, now, c, e)
           && QuestionOf(u.questions, questionId, e.id).Some?
           && (language.Some? ==> CanRun(e, language.value))
           && now + 1000 <= E.EndOf(u.sessions, c.id, e.id, e.durationMinutes, now)
  {
    var u := Exec(s, steps, timeout);
    FreshInv(s);
    RunKeepsInv(s, steps, timeout);
    ByTokenIs(u.candidates, token);
    ByIdFinds(u.candidates, c);
    ExamByIdIs(u.exams, c.examId);
    GateIsPermission(s, steps, timeout, now, c, e);
    ActionsAreARegister(s, steps, timeout, c.id);
    AdmittedExactlyIf(u, token, questionId, language, now, timeout, c, e);
  }

  /** The admission behind a write. */
  ghost function AdmissionOf(u: State, write: Step, timeout: int): (State, Result<Invite>)
    requires IsWrite(write)
  {
    var language := if write.SubmitAnswer? then None else Some(write.language);
    Admit(u, write.token, write.questionId, language, write.now, timeout)
  }

  lemma AcceptedSubmissionIsAdmitted(u: State, write: Step, timeout: int)
    requires write.SubmitAnswer? && Served(u, write, timeout).1.Ok?
    ensures var (t, r) := AdmissionOf(u, write, timeout);
      r == Served(u, write, timeout).1 && t.sessions == Served(u, write, timeout).0.sessions
  {
  }

  lemma AcceptedIsAdmitted(u: State, write: Step, timeout: int)
    requires IsWrite(write) && Served(u, write, timeout).1.Ok?
    ensures var (t, r) := AdmissionOf(u, write, timeout);
      r == Served(u, write, timeout).1 && t.sessions == Served(u, write, timeout).0.sessions
  {
    if write.SubmitAnswer? {
      AcceptedSubmissionIsAdmitted(u, write, timeout);
    }
  }

  lemma AcceptedIsInvited(u: State, write: Step, timeout: int)
    requires Inv(u) && IsWrite(write) && Served(u, write, timeout).1.Ok?
    ensures var invite := Served(u, write, timeout).1.value; Invited(u, write.token, invite.candidate, invite.exam)
  {
    AcceptedIsAdmitted(u, write, timeout);
    var snapshot := Snapshot(u, write.token);
    if snapshot.Ok? {
      var c, e := snapshot.value.candidate, snapshot.value.exam;
      WorkspaceOpensExactlyIf(u, write.token, write.now, timeout, c, e);
    }
  }

  /** An accepted write was permitted by what happened before it, and falls a full
      second before the end recorded for its session. */
  ghost predicate InOrder(s: State, steps: seq<Step>, timeout: int, write: Step) {
    var u := Exec(s, steps, timeout);
    var (t, r) := Served(u, write, timeout);
    r.Ok? ==>
      var c, e := r.value.candidate, r.value.exam;
      && Invited(u, write.token, c, e)
      && Permitted(s, steps, timeout, write.now, c, e)
      && e.startAt.Some? && e.endAt.Some? && e.startAt.value <= write.now < e.endAt.value
      && E.Find(t.sessions, c.id, e.id).Some?
      && write.now + 1000 <= E.Find(t.sessions, c.id, e.id).value.endsAt
  }

  /** On every run, each accepted draft, run or submission is in order. */
  lemma AcceptedWritesArePermitted(s: State, steps: seq<Step>, timeout: int, write: Step)
    requires Fresh(s) && Timely(steps) && IsWrite(write) && NotBefore(steps, write.now)
    ensures InOrder(s, steps, timeout, write)
  {
    var u := Exec(s, steps, timeout);
    var (t, r) := Served(u, write, timeout);
    if r.Ok? {
      var c, e := r.value.candidate, r.value.exam;
      var language := if write.SubmitAnswer? then None else Some(write.language);
      FreshInv(s);
      RunKeepsInv(s, steps, timeout);
      AcceptedIsInvited(u, write, timeout);
      AcceptedIsAdmitted(u, write, timeout);
      AdmittedExactlyIfPermitted(s, steps, timeout, write.token, write.questionId, language, write.now, c, e);
      AdmittedExactlyIf(u, write.token, write.questionId, language, write.now, timeout, c, e);
      E.EnsureKeepsSessions(u.sessions, c.id, e.id, e.durationMinutes, write.now, u.nextId);
    }
  }
}
