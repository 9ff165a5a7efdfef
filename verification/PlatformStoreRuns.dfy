/** Runs of the store: the invariant, the fixed end of a session, and what a call may
    store. */
module PlatformStoreRuns {
  import opened Wrappers
  import opened PlatformStore
  import opened PlatformStoreGate
  import K = KeyedLists
  import E = ExamSessions
  import J = Judge

  // ------------------------------------------------------------------------
  // What a call leaves alone
  // ------------------------------------------------------------------------

  /** Nothing but devices, events, sessions and fresh ids differs. */
  ghost predicate Untouched(s: State, t: State) {
    && t.exams == s.exams && t.questions == s.questions && t.candidates == s.candidates
    && t.actions == s.actions && t.verifications == s.verifications && t.checks == s.checks
    && t.drafts == s.drafts && t.executions == s.executions && t.submissions == s.submissions
  }

  /** A session once there stays as it is. */
  ghost predicate KeepsSession(s: State, t: State, candidateId: string, examId: string) {
    E.Find(s.sessions, candidateId, examId).Some? ==>
      E.Find(t.sessions, candidateId, examId) == E.Find(s.sessions, candidateId, examId)
  }

  lemma InviteForKeeps(s: State, token: string, now: int, timeout: int)
    ensures var t := InviteFor(s, token, now, timeout).0;
      Untouched(s, t) && t.sessions == s.sessions && t.nextId == s.nextId
  {
  }

  lemma InviteForKeepsInv(s: State, token: string, now: int, timeout: int)
    requires Inv(s)
    ensures Inv(InviteFor(s, token, now, timeout).0)
  {
    var r := Snapshot(s, token);
    if r.Ok? {
      SweepKeepsInv(s, r.value.exam.id, now, timeout);
    }
  }

  function Begun(s: State, c: Candidate, e: Exam, now: int): State {
    s.(sessions := E.Ensure(s.sessions, c.id, e.id, e.durationMinutes, now, s.nextId).2, nextId := s.nextId + 1)
  }

  lemma BegunKeepsInv(s: State, c: Candidate, e: Exam, now: int)
    requires Inv(s)
    ensures Inv(Begun(s, c, e, now))
  {
    E.EnsureKeepsSessions(s.sessions, c.id, e.id, e.durationMinutes, now, s.nextId);
  }

  /** An admission sweeps, and begins a session or does not. */
  lemma AdmitIs(s: State, token: string, questionId: string, language: Option<string>, now: int, timeout: int)
    ensures var (t, r) := Admit(s, token, questionId, language, now, timeout);
      var u := InviteFor(s, token, now, timeout).0;
      t == if r.Ok? then Begun(u, r.value.candidate, r.value.exam, now) else u
  {
  }

  lemma AdmitKeeps(s: State, token: string, questionId: string, language: Option<string>, now: int, timeout: int)
    ensures Untouched(s, Admit(s, token, questionId, language, now, timeout).0)
  {
    AdmitIs(s, token, questionId, language, now, timeout);
    InviteForKeeps(s, token, now, timeout);
  }

  lemma AdmitKeepsInv(s: State, token: string, questionId: string, language: Option<string>, now: int, timeout: int)
    requires Inv(s)
    ensures Inv(Admit(s, token, questionId, language, now, timeout).0)
  {
    AdmitIs(s, token, questionId, language, now, timeout);
    InviteForKeepsInv(s, token, now, timeout);
    var (t, r) := Admit(s, token, questionId, language, now, timeout);
    if r.Ok? {
      BegunKeepsInv(InviteFor(s, token, now, timeout).0, r.value.candidate, r.value.exam, now);
    }
  }

  lemma AdmitKeepsSession(s: State, token: string, questionId: string, language: Option<string>, now: int, timeout: int,
                          candidateId: string, examId: string)
    ensures KeepsSession(s, Admit(s, token, questionId, language, now, timeout).0, candidateId, examId)
  {
    AdmitIs(s, token, questionId, language, now, timeout);
    InviteForKeeps(s, token, now, timeout);
    var (t, r) := Admit(s, token, questionId, language, now, timeout);
    if r.Ok? {
      E.EnsureKeepsFound(s.sessions, r.value.candidate.id, r.value.exam.id, r.value.exam.durationMinutes, now, s.nextId,
                         candidateId, examId);
    }
  }

  // ------------------------------------------------------------------------
  // The invariant
  // ------------------------------------------------------------------------

  lemma StoreDraftKeepsInv(s: State, invite: Invite, questionId: string, language: string, code: string, now: int)
    requires Inv(s)
    ensures Inv(StoreDraft(s, invite, questionId, language, code, now))
  {
    var key := DraftKey(invite.candidate.id, questionId, language);
    var createdAt := match K.Find(s.drafts, key) { case Some(d) => d.value.createdAt case None => now };
    K.PutIsAKeyedUpdate(s.drafts, key, Draft(invite.exam.id, code, now, createdAt), s.nextId, key);
  }

  lemma StatusKeepsInv(s: State, candidates: seq<Candidate>)
    requires Inv(s) && SameButStatus(s.candidates, candidates)
    ensures Inv(s.(candidates := candidates))
  {
    forall k | 0 <= k < |s.devices|
      ensures Sits(candidates, s.devices[k].key.candidateId, s.devices[k].key.examId)
    {
      SameSits(s.candidates, candidates, s.devices[k].key.candidateId, s.devices[k].key.examId);
    }
  }

  lemma StoreSubmissionKeepsInv(s: State, invite: Invite, questionId: string, language: string, code: string,
                                verdict: J.Verdict, now: int)
    requires Inv(s)
    ensures Inv(StoreSubmission(s, invite, questionId, language, code, verdict, now))
  {
    WithStatusKeeps(s.candidates, invite.candidate.id, IN_PROGRESS);
    StatusKeepsInv(s, WithStatus(s.candidates, invite.candidate.id, IN_PROGRESS));
  }

  lemma SaveDraftKeepsInv(s: State, token: string, q: string, l: string, code: string, now: int, timeout: int)
    requires Inv(s)
    ensures Inv(SaveDraft(s, token, q, l, code, now, timeout).0)
  {
    AdmitKeepsInv(s, token, q, Some(l), now, timeout);
    var (t, r) := Admit(s, token, q, Some(l), now, timeout);
    if r.Ok? {
      StoreDraftKeepsInv(t, r.value, q, l, code, now);
    }
  }

  lemma SubmitKeepsInv(s: State, token: string, q: string, l: string, code: string, judged: Option<J.Verdict>,
                       matches: bool, now: int, timeout: int)
    requires Inv(s)
    ensures Inv(Submit(s, token, q, l, code, judged, matches, now, timeout).0)
  {
    AdmitKeepsInv(s, token, q, None, now, timeout);
    var (t, r) := Admit(s, token, q, None, now, timeout);
    if r.Ok? {
      var evaluated := Evaluated(t.questions, r.value, q, l, code, judged, matches);
      if evaluated.Ok? {
        StoreSubmissionKeepsInv(t, r.value, q, l, code, evaluated.value, now);
      }
    }
  }

  lemma RunCodeKeepsInv(s: State, token: string, q: string, l: string, code: string, judged: Option<J.Verdict>,
                        now: int, timeout: int)
    requires Inv(s)
    ensures Inv(RunCode(s, token, q, l, code, judged, now, timeout).0)
  {
    AdmitKeepsInv(s, token, q, Some(l), now, timeout);
  }

  lemma OpenWorkspaceKeepsInv(s: State, token: string, now: int, timeout: int)
    requires Inv(s)
    ensures Inv(OpenWorkspace(s, token, now, timeout).0)
  {
    InviteForKeepsInv(s, token, now, timeout);
    var (t, r) := WorkspaceInvite(s, token, now, timeout);
    if r.Ok? {
      BegunKeepsInv(t, r.value.candidate, r.value.exam, now);
    }
  }

  lemma MarkReadyKeepsInv(s: State, token: string)
    requires Inv(s)
    ensures Inv(MarkReady(s, token).0)
  {
    WithTokenReadyKeeps(s.candidates, token);
    StatusKeepsInv(s, WithTokenReady(s.candidates, token));
  }

  lemma ServedKeepsInv(s: State, step: Step, timeout: int)
    requires Inv(s)
    ensures Inv(Served(s, step, timeout).0)
  {
    match step
    case GetInvite(token, now) => InviteForKeepsInv(s, token, now, timeout);
    case ReportDevice(token, role, status, detail, now) => UpsertKeepsInv(s, token, role, status, detail, now);
    case ReportEvent(token, kind, detail, now) => InviteForKeepsInv(s, token, now, timeout);
    case CheckEnvironment(token, evidenceOk, passed, now) => InviteForKeepsInv(s, token, now, timeout);
    case CheckIdentity(token, inputOk, verified, now) => InviteForKeepsInv(s, token, now, timeout);
    case ConfirmEntry(token, now) => MarkReadyKeepsInv(s, token);
    case GetWorkspace(token, now) => OpenWorkspaceKeepsInv(s, token, now, timeout);
    case WriteDraft(token, q, l, code, now) => SaveDraftKeepsInv(s, token, q, l, code, now, timeout);
    case RunDraft(token, q, l, code, judged, now) => RunCodeKeepsInv(s, token, q, l, code, judged, now, timeout);
    case SubmitAnswer(token, q, l, code, judged, matches, now) =>
      SubmitKeepsInv(s, token, q, l, code, judged, matches, now, timeout);
    case _ =>
  }

  lemma AddCandidateKeepsInv(s: State, c: Candidate)
    requires Inv(s) && CandidateById(s.candidates, c.id) == None
    requires CandidateByToken(s.candidates, c.inviteToken) == None
    ensures Inv(s.(candidates := s.candidates + [c]))
  {
    AppendSits(s.candidates, c, c.id, c.examId);
    NoneWithToken(s.candidates, c.inviteToken);
    forall k | 0 <= k < |s.devices|
      ensures Sits(s.candidates + [c], s.devices[k].key.candidateId, s.devices[k].key.examId)
    {
      AppendSits(s.candidates, c, s.devices[k].key.candidateId, s.devices[k].key.examId);
    }
  }

  lemma AdminKeepsInv(s: State, step: Step, timeout: int)
    requires Inv(s)
    ensures Inv(AfterAdmin(s, step, timeout))
  {
    match step
    case AddCandidate(id, examId, token, _) =>
      if CandidateById(s.candidates, id) == None && CandidateByToken(s.candidates, token) == None {
        AddCandidateKeepsInv(s, Candidate(id, examId, token, INVITED));
      }
    case LiveState(examId, now) => SweepKeepsInv(s, examId, now, timeout);
    case _ =>
  }

  predicate IsAdmin(step: Step) {
    || step.CreateExam? || step.UpdateExam? || step.DeleteExam?
    || step.AddQuestion? || step.AddCandidate? || step.LiveState?
  }

  predicate IsWrite(step: Step) { step.WriteDraft? || step.RunDraft? || step.SubmitAnswer? }

  predicate ByCandidate(step: Step) { !IsAdmin(step) && !step.ProctorAct? }

  lemma StepKeepsInv(s: State, step: Step, timeout: int)
    requires Inv(s)
    ensures Inv(After(s, step, timeout))
  {
    if IsAdmin(step) {
      AdminKeepsInv(s, step, timeout);
    } else if ByCandidate(step) {
      ServedKeepsInv(s, step, timeout);
    }
  }

  lemma {:induction false} RunKeepsInv(s: State, steps: seq<Step>, timeout: int)
    requires Inv(s)
    ensures Inv(Exec(s, steps, timeout))
  {
    if steps != [] {
      RunKeepsInv(s, steps[..|steps| - 1], timeout);
      StepKeepsInv(Exec(s, steps[..|steps| - 1], timeout), steps[|steps| - 1], timeout);
    }
  }

  // ------------------------------------------------------------------------
  // Sessions
  // ------------------------------------------------------------------------

  lemma OpenWorkspaceKeepsSession(s: State, token: string, now: int, timeout: int, candidateId: string, examId: string)
    ensures KeepsSession(s, OpenWorkspace(s, token, now, timeout).0, candidateId, examId)
  {
    InviteForKeeps(s, token, now, timeout);
    var (t, r) := WorkspaceInvite(s, token, now, timeout);
    if r.Ok? {
      var e := r.value.exam;
      E.EnsureKeepsFound(t.sessions, r.value.candidate.id, e.id, e.durationMinutes, now, t.nextId, candidateId, examId);
    }
  }

  lemma WriteKeepsSession(s: State, step: Step, timeout: int, candidateId: string, examId: string)
    requires IsWrite(step)
    ensures KeepsSession(s, Served(s, step, timeout).0, candidateId, examId)
  {
    var language := if step.SubmitAnswer? then None else Some(step.language);
    AdmitKeepsSession(s, step.token, step.questionId, language, step.now, timeout, candidateId, examId);
  }

  lemma ServedKeepsSession(s: State, step: Step, timeout: int, candidateId: string, examId: string)
    requires ByCandidate(step)
    ensures KeepsSession(s, Served(s, step, timeout).0, candidateId, examId)
  {
    if IsWrite(step) {
      WriteKeepsSession(s, step, timeout, candidateId, examId);
    } else if step.GetWorkspace? {
      OpenWorkspaceKeepsSession(s, step.token, step.now, timeout, candidateId, examId);
    } else if !step.ReportDevice? && !step.ConfirmEntry? {
      InviteForKeeps(s, step.token, step.now, timeout);
    }
  }

  lemma StepKeepsSession(s: State, step: Step, timeout: int, candidateId: string, examId: string)
    ensures KeepsSession(s, After(s, step, timeout), candidateId, examId)
  {
    if ByCandidate(step) {
      ServedKeepsSession(s, step, timeout, candidateId, examId);
    }
  }

  /** A session once begun keeps its end on every run. */
  lemma {:induction false} DeadlineIsFixed(s: State, steps: seq<Step>, timeout: int, candidateId: string,
                                           examId: string)
    requires E.Find(s.sessions, candidateId, examId).Some?
    ensures E.Find(Exec(s, steps, timeout).sessions, candidateId, examId) == E.Find(s.sessions, candidateId, examId)
  {
    if steps != [] {
      DeadlineIsFixed(s, steps[..|steps| - 1], timeout, candidateId, examId);
      StepKeepsSession(Exec(s, steps[..|steps| - 1], timeout), steps[|steps| - 1], timeout, candidateId, examId);
    }
  }

  // ------------------------------------------------------------------------
  // What a call stores
  // ------------------------------------------------------------------------

  /** A refused call stores nothing, and an accepted one only into its own list. */
  ghost predicate OnlyItsOwn(s: State, step: Step, t: State, ok: bool) {
    && t.exams == s.exams && t.questions == s.questions && t.actions == s.actions
    && (!(ok && step.CheckEnvironment?) ==> t.checks == s.checks)
    && (!(ok && step.CheckIdentity?) ==> t.verifications == s.verifications)
    && (!(ok && step.WriteDraft?) ==> t.drafts == s.drafts)
    && (!(ok && step.RunDraft?) ==> t.executions == s.executions)
    && (!(ok && step.SubmitAnswer?) ==> t.submissions == s.submissions)
    && (!(ok && (step.SubmitAnswer? || step.ConfirmEntry?)) ==> t.candidates == s.candidates)
  }

  lemma WriteStoresItsOwn(s: State, step: Step, timeout: int)
    requires IsWrite(step)
    ensures OnlyItsOwn(s, step, Served(s, step, timeout).0, Served(s, step, timeout).1.Ok?)
  {
    var language := if step.SubmitAnswer? then None else Some(step.language);
    AdmitKeeps(s, step.token, step.questionId, language, step.now, timeout);
  }

  lemma StoresOnlyItsOwn(s: State, step: Step, timeout: int)
    requires ByCandidate(step)
    ensures OnlyItsOwn(s, step, Served(s, step, timeout).0, Served(s, step, timeout).1.Ok?)
  {
    if IsWrite(step) {
      WriteStoresItsOwn(s, step, timeout);
    } else if !step.ReportDevice? && !step.ConfirmEntry? {
      InviteForKeeps(s, step.token, step.now, timeout);
    }
  }
}
