/** The store as the service holds it: a list per entity, each call reassigning the lists
    it changes.  The fields are those of `PlatformStore`'s machine after the run so far,
    so that everything proved about its runs holds of the service. */
module PlatformStoreService {
  import opened Wrappers
  import opened PlatformStore
  import opened PlatformStoreGate
  import opened PlatformStoreRuns
  import opened PlatformStoreHistory
  import opened PlatformStorePermission
  import opened PlatformStoreAnswers
  import K = KeyedLists
  import D = ProctorDevices
  import E = ExamSessions
  import J = Judge
  import Scoring

  // ------------------------------------------------------------------------
  // One call after a run
  // ------------------------------------------------------------------------

  /** `s` is where the store comes to by this run. */
  ghost predicate Reached(seed: Seed, run: seq<Step>, timeout: int, s: State) {
    DistinctIds(seed.candidates) && Timely(run) && s == Exec(Initial(seed), run, timeout)
  }

  lemma Reaching(seed: Seed, run: seq<Step>, timeout: int, s: State, step: Step)
    requires Reached(seed, run, timeout, s) && NotBefore(run, step.now)
    ensures Inv(s) && Reached(seed, run + [step], timeout, After(s, step, timeout))
  {
    assert (run + [step])[..|run|] == run;
    FreshInv(Initial(seed));
    RunKeepsInv(Initial(seed), run, timeout);
  }

  lemma StepTaken(seed: Seed, run: seq<Step>, timeout: int, s: State, step: Step)
    requires Reached(seed, run, timeout, s) && NotBefore(run, step.now)
    ensures Inv(s)
    ensures ByCandidate(step) ==> Reached(seed, run + [step], timeout, Served(s, step, timeout).0)
    ensures IsAdmin(step) ==> Reached(seed, run + [step], timeout, AfterAdmin(s, step, timeout))
    ensures step.ProctorAct? ==>
              Reached(seed, run + [step], timeout,
                      Act(s, step.candidateId, step.kind, step.message, step.allowed, step.now).0)
  {
    hide Reached;
    Reaching(seed, run, timeout, s, step);
  }

  lemma NewestFirst(seed: Seed, run: seq<Step>, timeout: int, s: State, now: int)
    requires Reached(seed, run, timeout, s) && NotBefore(run, now)
    ensures E.IsNewestFirst(s.actions) && (s.actions != [] ==> s.actions[0].createdAt <= now)
  {
    LogIsNewestFirst(Initial(seed), run, timeout);
  }

  lemma WriteTaken(seed: Seed, run: seq<Step>, timeout: int, s: State, step: Step)
    requires Reached(seed, run, timeout, s) && NotBefore(run, step.now) && IsWrite(step)
    ensures InOrder(Initial(seed), run, timeout, step)
    ensures Inv(s) && Reached(seed, run + [step], timeout, Served(s, step, timeout).0)
  {
    AcceptedWritesArePermitted(Initial(seed), run, timeout, step);
    StepTaken(seed, run, timeout, s, step);
  }

  lemma ServedBy(s: State, step: Step, timeout: int)
    ensures step.WriteDraft? ==>
              Served(s, step, timeout) == SaveDraft(s, step.token, step.questionId, step.language, step.code, step.now,
                                                    timeout)
    ensures step.RunDraft? ==>
              Served(s, step, timeout)
              == RunCode(s, step.token, step.questionId, step.language, step.code, step.judged, step.now, timeout)
    ensures step.SubmitAnswer? ==>
              Served(s, step, timeout)
              == Submit(s, step.token, step.questionId, step.language, step.code, step.judged, step.matches, step.now,
                        timeout)
    ensures step.GetWorkspace? ==> Served(s, step, timeout) == OpenWorkspace(s, step.token, step.now, timeout)
  {
  }

  /** Every session is found as it was. */
  ghost predicate KeepsSessions(before: seq<E.Session>, after: seq<E.Session>) {
    forall c, e :: E.Find(before, c, e).Some? ==> E.Find(after, c, e) == E.Find(before, c, e)
  }

  lemma CallKeepsSessions(s: State, step: Step, timeout: int, after: seq<E.Session>)
    requires ByCandidate(step) && after == Served(s, step, timeout).0.sessions
    ensures KeepsSessions(s.sessions, after)
  {
    forall c, e
      ensures E.Find(s.sessions, c, e).Some? ==> E.Find(after, c, e) == E.Find(s.sessions, c, e)
    {
      CallKeepsSession(s, step, timeout, after, c, e);
    }
  }

  lemma CallKeepsSession(s: State, step: Step, timeout: int, after: seq<E.Session>, c: string, e: string)
    requires ByCandidate(step) && after == Served(s, step, timeout).0.sessions
    ensures E.Find(s.sessions, c, e).Some? ==> E.Find(after, c, e) == E.Find(s.sessions, c, e)
  {
    ServedKeepsSession(s, step, timeout, c, e);
  }

  /** The draft under the key is this code; other drafts are as they were. */
  ghost predicate SavedDraft(before: seq<K.Entry<DraftKey, Draft>>, after: seq<K.Entry<DraftKey, Draft>>, own: DraftKey,
                             code: string) {
    && K.Find(after, own).Some? && K.Find(after, own).value.value.code == code
    && (forall key :: key != own ==> K.Find(after, key) == K.Find(before, key))
  }

  lemma DraftCall(s: State, step: Step, timeout: int)
    requires Inv(s) && step.WriteDraft?
    ensures var (t, r) := Served(s, step, timeout);
      if r.Ok? then SavedDraft(s.drafts, t.drafts, DraftKey(r.value.candidate.id, step.questionId, step.language),
                               step.code)
      else t.drafts == s.drafts
  {
    StoresOnlyItsOwn(s, step, timeout);
    forall key
      ensures var (t, r) := Served(s, step, timeout);
        if r.Ok? && key == DraftKey(r.value.candidate.id, step.questionId, step.language)
        then K.Find(t.drafts, key).Some? && K.Find(t.drafts, key).value.value.code == step.code
        else K.Find(t.drafts, key) == K.Find(s.drafts, key)
    {
      WriteDraftStep(s, step, timeout, key);
    }
  }

  lemma RunCall(s: State, step: Step, timeout: int)
    requires step.RunDraft?
    ensures var (t, r) := Served(s, step, timeout);
      && (r.Ok? ==>
            && step.judged.Some?
            && t.executions == [RecordedRun(r.value, step)] + s.executions)
      && (r.Refused? ==> t.executions == s.executions)
  {
    AdmitKeeps(s, step.token, step.questionId, Some(step.language), step.now, timeout);
  }

  function RecordedRun(invite: Invite, step: Step): Execution
    requires step.RunDraft? && step.judged.Some?
  {
    Execution(invite.candidate.id, step.questionId, step.language, step.code, step.judged.value, step.now)
  }

  /** The score of a coding submission with tests says whether all or none passed. */
  ghost predicate ScoredExactly(x: Submission, v: J.Verdict) {
    && 0 <= x.score <= 100
    && (v.totalTests > 0 ==> (x.score == 100 <==> J.AllPassed(v)) && (x.score == 0 <==> J.NonePassed(v)))
  }

  ghost predicate AsJudged(v: J.Verdict, tests: seq<J.TestCase>, startedAt: int, runner: J.Runner) {
    && |v.testResults| == v.totalTests == |tests|
    && forall k :: 0 <= k < |tests| ==> v.testResults[k].passed == J.ResultAt(runner, tests, startedAt, k).passed
  }

  /** The score says whether all or none of the tests passed when they were run; in
      particular it is full for a program that needs no more than 600 ms for a test. */
  ghost predicate ScoreTells(score: int, tests: seq<J.TestCase>, startedAt: int, runner: J.Runner) {
    && (score == 100 <==> forall k :: 0 <= k < |tests| ==> J.ResultAt(runner, tests, startedAt, k).passed)
    && (score == 0 <==> forall k :: 0 <= k < |tests| ==> !J.ResultAt(runner, tests, startedAt, k).passed)
    && (J.PassesIn600(runner) ==> score == 100)
  }

  lemma JudgedScore(x: Submission, v: J.Verdict, tests: seq<J.TestCase>, startedAt: int, runner: J.Runner)
    requires 0 < |tests| <= 50 && AsJudged(v, tests, startedAt, runner) && ScoredExactly(x, v)
    ensures ScoreTells(x.score, tests, startedAt, runner)
  {
    if J.PassesIn600(runner) {
      forall k: nat | k < |tests|
        ensures J.ResultAt(runner, tests, startedAt, k).passed
      {
        J.FastProgramPasses(runner, tests, startedAt, k);
      }
    }
  }

  predicate IsCoding(questions: seq<Question>, id: string, examId: string) {
    QuestionOf(questions, id, examId).Some? && QuestionOf(questions, id, examId).value.kind == CODING
  }

  /** One submission more, in front, for this candidate, who is in progress; for a coding
      question it has the runner's verdict, and its score says what that says. */
  ghost predicate OneMore(before: seq<Submission>, after: seq<Submission>, candidates: seq<Candidate>,
                          questions: seq<Question>,
                          invite: Invite, questionId: string, code: string, judged: Option<J.Verdict>)
  {
    && |after| == |before| + 1 && after[1..] == before
    && after[0].candidateId == invite.candidate.id && after[0].questionId == questionId && after[0].code == code
    && StatusOf(candidates, invite.candidate.id) == Some(IN_PROGRESS)
    && (IsCoding(questions, questionId, invite.exam.id) ==>
        judged == Some(after[0].verdict) && ScoredExactly(after[0], after[0].verdict))
  }

  lemma SubmitCall(s: State, step: Step, timeout: int)
    requires Inv(s) && step.SubmitAnswer? && (step.judged.Some? ==> J.Coherent(step.judged.value))
    ensures var (t, r) := Served(s, step, timeout);
      if r.Ok? then OneMore(s.submissions, t.submissions, t.candidates, s.questions, r.value, step.questionId,
                            step.code, step.judged)
      else t.submissions == s.submissions && t.candidates == s.candidates
  {
    StoresOnlyItsOwn(s, step, timeout);
    var r := Served(s, step, timeout).1;
    if r.Ok? {
      SubmissionIsScored(s, step, timeout);
      SubmitStatusStep(s, step, timeout, r.value.candidate.id);
      if step.judged.Some? {
        J.VerdictScore(step.judged.value);
        VerdictIsScored(s, step, timeout);
      }
    }
  }

  lemma VerdictIsScored(s: State, step: Step, timeout: int)
    requires step.SubmitAnswer? && Served(s, step, timeout).1.Ok?
    ensures var x := Served(s, step, timeout).0.submissions;
      |x| > 0 && x[0].score == Scoring.SubmissionScore(x[0].verdict.passedTests, x[0].verdict.totalTests,
                                                       x[0].verdict.status)
  {
  }

  lemma ReportCall(s: State, step: Step, timeout: int)
    requires Inv(s) && step.ReportDevice?
    ensures var (t, r) := Served(s, step, timeout);
      if r.Ok? then
        var own := D.Key(r.value.candidate.id, r.value.exam.id, step.role);
        && K.Find(t.devices, own).Some? && K.Find(t.devices, own).value.value.status == step.status
        && (forall key :: key != own ==> K.Find(t.devices, key) == K.Find(s.devices, key))
      else t.devices == s.devices
  {
    var r := Snapshot(s, step.token);
    if r.Ok? {
      var own := D.Key(r.value.candidate.id, r.value.exam.id, step.role);
      forall key
        ensures var after := D.Upsert(s.devices, own, step.status, step.detail, step.now, s.nextId);
          && after[0].value == D.Reported(K.Find(s.devices, own), step.status, step.detail, step.now)
          && K.Find(after, key) == if key == own then Some(after[0]) else K.Find(s.devices, key)
      {
        D.UpsertIsAKeyedUpdate(s.devices, own, step.status, step.detail, step.now, s.nextId, key);
      }
    }
  }

  class Store {
    const heartbeatTimeoutMs: int
    ghost const seed: Seed
    var exams: seq<Exam>
    var questions: seq<Question>
    var candidates: seq<Candidate>
    var proctorDevices: seq<D.Device>
    var proctorEvents: seq<D.Event>
    var proctorActions: seq<E.Action>
    var identityVerifications: seq<Verification>
    var environmentChecks: seq<Check>
    var examSessions: seq<E.Session>
    var codeDrafts: seq<K.Entry<DraftKey, Draft>>
    var codeExecutions: seq<Execution>
    var submissions: seq<Submission>
    var nextId: nat
    ghost var run: seq<Step>

    ghost function View(): State
      reads this
    {
      State(exams, questions, candidates, proctorDevices, proctorEvents, proctorActions, identityVerifications,
            environmentChecks, examSessions, codeDrafts, codeExecutions, submissions, nextId)
    }

    ghost predicate Valid()
      reads this
    {
      Reached(seed, run, heartbeatTimeoutMs, View())
    }

    constructor (seed: Seed, heartbeatTimeoutMs: int)
      requires DistinctIds(seed.candidates)
      ensures Valid() && this.seed == seed && this.heartbeatTimeoutMs == heartbeatTimeoutMs && run == []
    {
      this.heartbeatTimeoutMs, this.seed, run := heartbeatTimeoutMs, seed, [];
      exams, questions, candidates := seed.exams, seed.questions, seed.candidates;
      proctorDevices, proctorEvents, proctorActions := [], [], [];
      identityVerifications, environmentChecks, examSessions := [], [], [];
      codeDrafts, codeExecutions, submissions, nextId := [], [], [], 0;
    }

    // ----------------------------------------------------------------------
    // Candidates' calls
    // ----------------------------------------------------------------------

    method SaveCandidateCodeDraft(token: string, questionId: string, language: string, code: string, now: int)
      returns (r: Result<Invite>)
      requires Valid() && NotBefore(run, now)
      modifies this`proctorDevices, this`proctorEvents, this`examSessions, this`codeDrafts, this`nextId, this`run
      ensures Valid() && run == old(run) + [WriteDraft(token, questionId, language, code, now)]
      ensures r == Served(old(View()), WriteDraft(token, questionId, language, code, now), heartbeatTimeoutMs).1
      ensures InOrder(Initial(seed), old(run), heartbeatTimeoutMs, WriteDraft(token, questionId, language, code, now))
      ensures r.Ok? ==> SavedDraft(old(codeDrafts), codeDrafts, DraftKey(r.value.candidate.id, questionId, language),
                                   code)
      ensures r.Refused? ==> codeDrafts == old(codeDrafts)
      ensures KeepsSessions(old(examSessions), examSessions)
    {
      hide Reached, InOrder, KeepsSessions, SavedDraft, Served, SaveDraft;
      ghost var step := WriteDraft(token, questionId, language, code, now);
      WriteTaken(seed, run, heartbeatTimeoutMs, View(), step);
      DraftCall(View(), step, heartbeatTimeoutMs);
      CallKeepsSessions(View(), step, heartbeatTimeoutMs, Served(View(), step, heartbeatTimeoutMs).0.sessions);
      ServedBy(View(), step, heartbeatTimeoutMs);
      r := SaveCandidateCodeDraftInStore(token, questionId, language, code, now);
      run := run + [step];
    }

    /** `judged` is the runner's verdict, or nothing if it turns the run away. */
    method RunCandidateCode(token: string, questionId: string, language: string, code: string,
                            judged: Option<J.Verdict>, now: int)
      returns (r: Result<Invite>)
      requires Valid() && NotBefore(run, now)
      modifies this`proctorDevices, this`proctorEvents, this`examSessions, this`codeExecutions, this`nextId, this`run
      ensures Valid() && run == old(run) + [RunDraft(token, questionId, language, code, judged, now)]
      ensures r == Served(old(View()), RunDraft(token, questionId, language, code, judged, now), heartbeatTimeoutMs).1
      ensures InOrder(Initial(seed), old(run), heartbeatTimeoutMs,
                      RunDraft(token, questionId, language, code, judged, now))
      ensures r.Ok? ==>
                && judged.Some?
                && codeExecutions == [Execution(r.value.candidate.id, questionId, language, code, judged.value, now)]
                   + old(codeExecutions)
      ensures r.Refused? ==> codeExecutions == old(codeExecutions)
      ensures KeepsSessions(old(examSessions), examSessions)
    {
      hide Reached, InOrder, KeepsSessions, Served, RunCode;
      ghost var step := RunDraft(token, questionId, language, code, judged, now);
      WriteTaken(seed, run, heartbeatTimeoutMs, View(), step);
      RunCall(View(), step, heartbeatTimeoutMs);
      CallKeepsSessions(View(), step, heartbeatTimeoutMs, Served(View(), step, heartbeatTimeoutMs).0.sessions);
      ServedBy(View(), step, heartbeatTimeoutMs);
      r := RunCandidateCodeInStore(token, questionId, language, code, judged, now);
      run := run + [step];
    }

    /** `judged` is the runner's verdict, or nothing if it turns the run away. */
    method SubmitCandidateCode(token: string, questionId: string, language: string, code: string,
                               judged: Option<J.Verdict>,
                               matches: bool, now: int)
      returns (r: Result<Invite>)
      requires Valid() && NotBefore(run, now) && (judged.Some? ==> J.Coherent(judged.value))
      modifies this`proctorDevices, this`proctorEvents, this`examSessions, this`submissions, this`candidates,
        this`nextId, this`run
      ensures Valid() && run == old(run) + [SubmitAnswer(token, questionId, language, code, judged, matches, now)]
      ensures r == Served(old(View()), SubmitAnswer(token, questionId, language, code, judged, matches, now),
                          heartbeatTimeoutMs).1
      ensures InOrder(Initial(seed), old(run), heartbeatTimeoutMs,
                      SubmitAnswer(token, questionId, language, code, judged, matches, now))
      ensures r.Ok? ==> OneMore(old(submissions), submissions, candidates, questions, r.value, questionId, code, judged)
      ensures r.Refused? ==> submissions == old(submissions) && candidates == old(candidates)
      ensures KeepsSessions(old(examSessions), examSessions)
    {
      hide Reached, InOrder, KeepsSessions, OneMore, Served, Submit, J.Coherent;
      ghost var step := SubmitAnswer(token, questionId, language, code, judged, matches, now);
      WriteTaken(seed, run, heartbeatTimeoutMs, View(), step);
      SubmitCall(View(), step, heartbeatTimeoutMs);
      CallKeepsSessions(View(), step, heartbeatTimeoutMs, Served(View(), step, heartbeatTimeoutMs).0.sessions);
      ServedBy(View(), step, heartbeatTimeoutMs);
      r := SubmitCandidateCodeInStore(token, questionId, language, code, judged, matches, now);
      run := run + [step];
    }

    /** Judging and submitting: the score says whether all or none of the tests passed. */
    method JudgeAndSubmit(token: string, questionId: string, language: string, code: string, blank: bool,
                          tests: seq<J.TestCase>,
                          startedAt: int, runner: J.Runner, matches: bool, now: int)
      returns (r: Result<Invite>)
      requires Valid() && NotBefore(run, now)
      modifies this`proctorDevices, this`proctorEvents, this`examSessions, this`submissions, this`candidates,
        this`nextId, this`run
      ensures Valid() && |run| == |old(run)| + 1
      ensures r.Ok? && IsCoding(questions, questionId, r.value.exam.id)
              && tests != [] && !J.Rejected(language, blank, |code|, tests) ==>
                && |submissions| == |old(submissions)| + 1
                && ScoreTells(submissions[0].score, tests, startedAt, runner)
      ensures r.Refused? ==> submissions == old(submissions) && candidates == old(candidates)
    {
      var verdict := J.JudgeAdmitted(language, blank, |code|, tests, startedAt, runner);
      hide Reached, InOrder, KeepsSessions, Served, J.Coherent, ScoredExactly, ScoreTells;
      r := SubmitCandidateCode(token, questionId, language, code, Some(verdict), matches, now);
      if && r.Ok? && IsCoding(questions, questionId, r.value.exam.id)
         && tests != [] && !J.Rejected(language, blank, |code|, tests)
      {
        JudgedScore(submissions[0], verdict, tests, startedAt, runner);
      }
    }

    method GetCandidateWorkspace(token: string, now: int) returns (r: Result<Invite>)
      requires Valid() && NotBefore(run, now)
      modifies this`proctorDevices, this`proctorEvents, this`examSessions, this`nextId, this`run
      ensures Valid() && run == old(run) + [GetWorkspace(token, now)]
      ensures r == Served(old(View()), GetWorkspace(token, now), heartbeatTimeoutMs).1
      ensures r.Ok? ==> E.Find(examSessions, r.value.candidate.id, r.value.exam.id).Some?
      ensures KeepsSessions(old(examSessions), examSessions)
    {
      hide Reached, KeepsSessions, Served, OpenWorkspace;
      ghost var step := GetWorkspace(token, now);
      StepTaken(seed, run, heartbeatTimeoutMs, View(), step);
      CallKeepsSessions(View(), step, heartbeatTimeoutMs, Served(View(), step, heartbeatTimeoutMs).0.sessions);
      WorkspaceCall(View(), step, heartbeatTimeoutMs);
      ServedBy(View(), step, heartbeatTimeoutMs);
      r := GetCandidateWorkspaceInStore(token, now);
      run := run + [step];
    }

    method UpsertProctorDevice(token: string, role: D.Role, status: D.Status, detail: string, now: int)
      returns (r: Result<Invite>)
      requires Valid() && NotBefore(run, now)
      modifies this`proctorDevices, this`nextId, this`run
      ensures Valid() && run == old(run) + [ReportDevice(token, role, status, detail, now)]
      ensures r == Served(old(View()), ReportDevice(token, role, status, detail, now), heartbeatTimeoutMs).1
      ensures r.Ok? ==>
                var own := D.Key(r.value.candidate.id, r.value.exam.id, role);
                && K.Find(proctorDevices, own).Some? && K.Find(proctorDevices, own).value.value.status == status
                && (forall key :: key != own ==> K.Find(proctorDevices, key) == K.Find(old(proctorDevices), key))
      ensures r.Refused? ==> proctorDevices == old(proctorDevices)
    {
      hide Reached;
      ghost var step := ReportDevice(token, role, status, detail, now);
      StepTaken(seed, run, heartbeatTimeoutMs, View(), step);
      ReportCall(View(), step, heartbeatTimeoutMs);
      r := UpsertProctorDeviceInStore(token, role, status, detail, now);
      run := run + [step];
    }

    method SaveCandidateEnvironmentCheck(token: string, evidenceOk: bool, requiredPassed: bool, now: int)
      returns (r: Result<Invite>)
      requires Valid() && NotBefore(run, now)
      modifies this`proctorDevices, this`proctorEvents, this`environmentChecks, this`run
      ensures Valid() && run == old(run) + [CheckEnvironment(token, evidenceOk, requiredPassed, now)]
      ensures r == Served(old(View()), CheckEnvironment(token, evidenceOk, requiredPassed, now), heartbeatTimeoutMs).1
      ensures r.Ok? ==> CheckOf(environmentChecks, r.value.candidate.id).Some?
                        && CheckOf(environmentChecks, r.value.candidate.id).value.requiredPassed == requiredPassed
      ensures forall id :: !(r.Ok? && id == r.value.candidate.id) ==>
              CheckOf(environmentChecks, id) == CheckOf(old(environmentChecks), id)
    {
      hide Reached;
      ghost var step := CheckEnvironment(token, evidenceOk, requiredPassed, now);
      StepTaken(seed, run, heartbeatTimeoutMs, View(), step);
      StoresOnlyItsOwn(View(), step, heartbeatTimeoutMs);
      InviteForKeeps(View(), token, now, heartbeatTimeoutMs);
      r := SaveCandidateEnvironmentCheckInStore(token, evidenceOk, requiredPassed, now);
      run := run + [step];
    }

    method VerifyCandidateIdentity(token: string, inputOk: bool, verified: bool, now: int) returns (r: Result<Invite>)
      requires Valid() && NotBefore(run, now)
      modifies this`proctorDevices, this`proctorEvents, this`identityVerifications, this`run
      ensures Valid() && run == old(run) + [CheckIdentity(token, inputOk, verified, now)]
      ensures r == Served(old(View()), CheckIdentity(token, inputOk, verified, now), heartbeatTimeoutMs).1
      ensures r.Ok? ==> VerificationOf(identityVerifications, r.value.candidate.id).Some?
                        && VerificationOf(identityVerifications, r.value.candidate.id).value.verified == verified
      ensures forall id :: !(r.Ok? && id == r.value.candidate.id) ==>
                VerificationOf(identityVerifications, id) == VerificationOf(old(identityVerifications), id)
    {
      hide Reached;
      ghost var step := CheckIdentity(token, inputOk, verified, now);
      StepTaken(seed, run, heartbeatTimeoutMs, View(), step);
      StoresOnlyItsOwn(View(), step, heartbeatTimeoutMs);
      InviteForKeeps(View(), token, now, heartbeatTimeoutMs);
      r := VerifyCandidateIdentityInStore(token, inputOk, verified, now);
      run := run + [step];
    }

    method MarkCandidateReady(token: string, now: int) returns (r: Result<Invite>)
      requires Valid() && NotBefore(run, now)
      modifies this`candidates, this`run
      ensures Valid() && run == old(run) + [ConfirmEntry(token, now)]
      ensures r == Served(old(View()), ConfirmEntry(token, now), heartbeatTimeoutMs).1
      ensures forall id :: StatusOf(candidates, id)
                == if r.Ok? && r.value.candidate.id == id then Some(READY) else StatusOf(old(candidates), id)
    {
      hide Reached;
      ghost var step := ConfirmEntry(token, now);
      StepTaken(seed, run, heartbeatTimeoutMs, View(), step);
      forall id
        ensures StatusOf(MarkReady(View(), token).0.candidates, id)
             == if MarkReady(View(), token).1.Ok? && MarkReady(View(), token).1.value.candidate.id == id
                then Some(READY)
                else StatusOf(candidates, id)
      {
        ConfirmStep(View(), token, id);
      }
      r := MarkCandidateReadyInStore(token);
      run := run + [step];
    }

    /** The result is read after the sweep. */
    method GetCandidateInvite(token: string, now: int) returns (r: Result<Invite>)
      requires Valid() && NotBefore(run, now)
      modifies this`proctorDevices, this`proctorEvents, this`run
      ensures Valid() && run == old(run) + [GetInvite(token, now)]
      ensures r == Served(old(View()), GetInvite(token, now), heartbeatTimeoutMs).1
      ensures r == Snapshot(View(), token)
    {
      hide Reached;
      ghost var step := GetInvite(token, now);
      StepTaken(seed, run, heartbeatTimeoutMs, View(), step);
      r := GetCandidateInviteForInternalUse(token, now);
      run := run + [step];
    }

    method LogProctorEvent(token: string, kind: D.EventType, detail: string, now: int) returns (r: Result<Invite>)
      requires Valid() && NotBefore(run, now)
      modifies this`proctorDevices, this`proctorEvents, this`run
      ensures Valid() && run == old(run) + [ReportEvent(token, kind, detail, now)]
      ensures r == Served(old(View()), ReportEvent(token, kind, detail, now), heartbeatTimeoutMs).1
      ensures r.Ok? ==> proctorEvents != []
                        && proctorEvents[0] == D.Event(r.value.candidate.id, r.value.exam.id, kind, detail, now)
      ensures LogGrows(old(proctorEvents), proctorEvents)
    {
      hide Reached, LogGrows, LogEvent;
      ghost var step := ReportEvent(token, kind, detail, now);
      StepTaken(seed, run, heartbeatTimeoutMs, View(), step);
      EventCall(View(), step, heartbeatTimeoutMs);
      r := LogProctorEventInStore(token, kind, detail, now);
      run := run + [step];
    }

    // ----------------------------------------------------------------------
    // Staff's calls
    // ----------------------------------------------------------------------

    /** A blocking action that is taken is the candidate's latest from then on. */
    method CreateProctorAction(candidateId: string, kind: E.ActionKind, message: string, allowed: bool, now: int)
      returns (refusal: Option<Refusal>)
      requires Valid() && NotBefore(run, now)
      modifies this`proctorActions, this`run
      ensures Valid() && run == old(run) + [ProctorAct(candidateId, kind, message, allowed, now)]
      ensures refusal == Act(old(View()), candidateId, kind, message, allowed, now).1
      ensures refusal.Some? ==> proctorActions == old(proctorActions)
      ensures refusal == None && kind in {E.PAUSE_EXAM, E.RESUME_EXAM, E.TERMINATE_EXAM} ==>
                && E.LatestBlocking(proctorActions, candidateId).Some?
                && E.LatestBlocking(proctorActions, candidateId).value.kind == kind
      ensures forall id :: id != candidateId || kind in {E.MEMO, E.WARNING_MESSAGE} ==>
                E.LatestBlocking(proctorActions, id) == E.LatestBlocking(old(proctorActions), id)
    {
      hide Reached;
      ghost var step := ProctorAct(candidateId, kind, message, allowed, now);
      StepTaken(seed, run, heartbeatTimeoutMs, View(), step);
      NewestFirst(seed, run, heartbeatTimeoutMs, View(), now);
      ActCall(View(), candidateId, kind, message, allowed, now);
      refusal := CreateProctorActionInStore(candidateId, kind, message, allowed, now);
      run := run + [step];
    }

    method GetLiveProctorState(examId: string, now: int)
      requires Valid() && NotBefore(run, now)
      modifies this`proctorDevices, this`proctorEvents, this`run
      ensures Valid() && run == old(run) + [LiveState(examId, now)]
      ensures D.Stale(proctorDevices, examId, now - heartbeatTimeoutMs) == []
    {
      hide Reached;
      StepTaken(seed, run, heartbeatTimeoutMs, View(), LiveState(examId, now));
      D.NothingStaleAfter(proctorDevices, proctorEvents, examId, now, heartbeatTimeoutMs);
      MarkStaleProctorDevices(examId, now);
      run := run + [LiveState(examId, now)];
    }

    method CreateExam(exam: Exam, now: int)
      requires Valid() && NotBefore(run, now) && ExamById(exams, exam.id).None?
      modifies this`exams, this`run
      ensures Valid() && run == old(run) + [Step.CreateExam(exam, now)]
      ensures ExamById(exams, exam.id) == Some(exam.(status := DRAFT))
    {
      hide Reached;
      StepTaken(seed, run, heartbeatTimeoutMs, View(), Step.CreateExam(exam, now));
      exams := [exam.(status := DRAFT)] + exams;
      run := run + [Step.CreateExam(exam, now)];
    }

    method UpdateExam(examId: string, input: Exam, now: int) returns (ok: bool)
      requires Valid() && NotBefore(run, now)
      modifies this`exams, this`run
      ensures Valid() && run == old(run) + [Step.UpdateExam(examId, input, now)]
      ensures ok <==> ExamExists(old(exams), examId)
      ensures ok ==>
                ExamById(exams, examId)
                == Some(input.(id := examId, status := ExamById(old(exams), examId).value.status))
      ensures forall id :: id != examId ==> ExamById(exams, id) == ExamById(old(exams), id)
    {
      hide Reached;
      StepTaken(seed, run, heartbeatTimeoutMs, View(), Step.UpdateExam(examId, input, now));
      ok := ExamExists(exams, examId);
      if ok {
        var updated := input.(id := examId, status := ExamById(exams, examId).value.status);
        forall id
          ensures ExamById(Replaced(exams, examId, updated), id) == if id == examId then Some(updated)
                  else ExamById(exams, id)
        {
          ReplacedIs(exams, examId, updated, id);
        }
        exams := Replaced(exams, examId, updated);
      }
      run := run + [Step.UpdateExam(examId, input, now)];
    }

    method DeleteExam(examId: string, now: int) returns (ok: bool)
      requires Valid() && NotBefore(run, now)
      modifies this`exams, this`run
      ensures Valid() && run == old(run) + [Step.DeleteExam(examId, now)]
      ensures ok <==> ExamExists(old(exams), examId)
      ensures ok ==> ExamById(exams, examId) == Some(ExamById(old(exams), examId).value.(status := DELETED))
      ensures forall id :: id != examId || !ok ==> ExamById(exams, id) == ExamById(old(exams), id)
    {
      hide Reached;
      StepTaken(seed, run, heartbeatTimeoutMs, View(), Step.DeleteExam(examId, now));
      ok := ExamExists(exams, examId);
      if ok {
        ExamByIdIs(exams, examId);
        var deleted := ExamById(exams, examId).value.(status := DELETED);
        forall id
          ensures ExamById(Replaced(exams, examId, deleted), id) == if id == examId then Some(deleted)
                  else ExamById(exams, id)
        {
          ReplacedIs(exams, examId, deleted, id);
        }
        exams := Replaced(exams, examId, deleted);
      }
      run := run + [Step.DeleteExam(examId, now)];
    }

    method AddQuestion(question: Question, now: int) returns (ok: bool)
      requires Valid() && NotBefore(run, now)
      modifies this`questions, this`run
      ensures Valid() && run == old(run) + [Step.AddQuestion(question, now)]
      ensures ok <==> ExamExists(exams, question.examId)
      ensures questions == if ok then old(questions) + [question] else old(questions)
    {
      hide Reached;
      StepTaken(seed, run, heartbeatTimeoutMs, View(), Step.AddQuestion(question, now));
      ok := ExamExists(exams, question.examId);
      if ok {
        questions := questions + [question];
      }
      run := run + [Step.AddQuestion(question, now)];
    }

    method AddCandidate(id: string, examId: string, token: string, now: int) returns (ok: bool)
      requires Valid() && NotBefore(run, now)
      requires CandidateById(candidates, id).None? && CandidateByToken(candidates, token).None?
      modifies this`candidates, this`run
      ensures Valid() && run == old(run) + [Step.AddCandidate(id, examId, token, now)]
      ensures ok <==> ExamExists(exams, examId)
      ensures candidates == old(candidates) + (if ok then [Candidate(id, examId, token, INVITED)] else [])
      ensures forall other :: StatusOf(candidates, other)
                == if ok && other == id then Some(INVITED) else StatusOf(old(candidates), other)
    {
      hide Reached;
      StepTaken(seed, run, heartbeatTimeoutMs, View(), Step.AddCandidate(id, examId, token, now));
      ok := ExamExists(exams, examId);
      if ok {
        forall other
          ensures StatusOf(candidates + [Candidate(id, examId, token, INVITED)], other)
               == if StatusOf(candidates, other) == None && other == id then Some(INVITED)
                  else StatusOf(candidates, other)
        {
          StatusAfterAppend(candidates, Candidate(id, examId, token, INVITED), other);
        }
        candidates := candidates + [Candidate(id, examId, token, INVITED)];
      }
      run := run + [Step.AddCandidate(id, examId, token, now)];
    }

    // ----------------------------------------------------------------------
    // The store functions behind the calls
    // ----------------------------------------------------------------------

    method GetCandidateInviteSnapshot(token: string) returns (r: Result<Invite>)
      ensures r == Snapshot(View(), token)
    {
      var candidate := CandidateByToken(candidates, token);
      if candidate.None? {
        return Refused(InviteNotFound);
      }
      var exam := ExamById(exams, candidate.value.examId);
      if exam.None? || exam.value.status == DELETED {
        return Refused(ExamNotFound);
      }
      var c, e := candidate.value, exam.value;
      return Ok(Invite(c, e, QuestionsOf(questions, e.id), DevicesOf(proctorDevices, c.id),
                       VerificationOf(identityVerifications, c.id), CheckOf(environmentChecks, c.id)));
    }

    method MarkStaleProctorDevices(examId: string, now: int)
      modifies this`proctorDevices, this`proctorEvents
      ensures View() == Swept(old(View()), examId, now, heartbeatTimeoutMs)
    {
      var stale := D.Stale(proctorDevices, examId, now - heartbeatTimeoutMs);
      if stale == [] {
        return;
      }
      proctorEvents := D.MissedEvents(stale, now) + proctorEvents;
      proctorDevices := D.MarkMissed(proctorDevices, stale, now);
    }

    method GetCandidateInviteForInternalUse(token: string, now: int) returns (r: Result<Invite>)
      modifies this`proctorDevices, this`proctorEvents
      ensures (View(), r) == InviteFor(old(View()), token, now, heartbeatTimeoutMs)
    {
      r := GetCandidateInviteSnapshot(token);
      if r.Refused? {
        return;
      }
      MarkStaleProctorDevices(r.value.exam.id, now);
      r := GetCandidateInviteSnapshot(token);
    }

    method GetInviteForWorkspaceUse(token: string, now: int) returns (r: Result<Invite>)
      modifies this`proctorDevices, this`proctorEvents
      ensures (View(), r) == WorkspaceInvite(old(View()), token, now, heartbeatTimeoutMs)
    {
      r := GetCandidateInviteForInternalUse(token, now);
      if r.Refused? {
        return;
      }
      var refusal := GateRefusal(r.value, now);
      if refusal.Some? {
        return Refused(refusal.value);
      }
    }

    method AssertExamSessionOpen(invite: Invite, now: int) returns (refusal: Option<Refusal>)
      modifies this`examSessions, this`nextId
      ensures (View(), refusal) == OpenSession(old(View()), invite, now)
    {
      var c, e := invite.candidate, invite.exam;
      var (session, remaining, sessions) := E.Ensure(examSessions, c.id, e.id, e.durationMinutes, now, nextId);
      var latest := E.LatestBlocking(proctorActions, c.id);
      if latest.Some? && latest.value.kind == E.TERMINATE_EXAM {
        return Some(ExamTerminated);
      }
      if latest.Some? && latest.value.kind == E.PAUSE_EXAM {
        return Some(ExamPaused);
      }
      if remaining <= 0 {
        return Some(TimeExpired);
      }
      examSessions, nextId := sessions, nextId + 1;
      return None;
    }

    /** The part that drafts, runs and submissions share. */
    method AdmitWrite(token: string, questionId: string, language: Option<string>, now: int) returns (r: Result<Invite>)
      modifies this`proctorDevices, this`proctorEvents, this`examSessions, this`nextId
      ensures (View(), r) == Admit(old(View()), token, questionId, language, now, heartbeatTimeoutMs)
    {
      r := GetInviteForWorkspaceUse(token, now);
      if r.Refused? {
        return;
      }
      if !HasQuestion(r.value.questions, questionId) {
        return Refused(QuestionNotFound);
      }
      if language.Some? {
        var notRun := LanguageRefusal(r.value.exam, language.value);
        if notRun.Some? {
          return Refused(notRun.value);
        }
      }
      var closed := AssertExamSessionOpen(r.value, now);
      if closed.Some? {
        return Refused(closed.value);
      }
    }

    method SaveCandidateCodeDraftInStore(token: string, questionId: string, language: string, code: string, now: int)
      returns (r: Result<Invite>)
      modifies this`proctorDevices, this`proctorEvents, this`examSessions, this`codeDrafts, this`nextId
      ensures (View(), r) == SaveDraft(old(View()), token, questionId, language, code, now, heartbeatTimeoutMs)
    {
      r := AdmitWrite(token, questionId, Some(language), now);
      if r.Refused? {
        return;
      }
      RecordDraft(r.value, questionId, language, code, now);
    }

    method RecordDraft(invite: Invite, questionId: string, language: string, code: string, now: int)
      modifies this`codeDrafts, this`nextId
      ensures View() == StoreDraft(old(View()), invite, questionId, language, code, now)
    {
      var key := DraftKey(invite.candidate.id, questionId, language);
      var existing := K.Find(codeDrafts, key);
      var id, createdAt := nextId, now;
      if existing.Some? {
        id, createdAt := existing.value.id, existing.value.value.createdAt;
      }
      codeDrafts := [K.Entry(id, key, Draft(invite.exam.id, code, now, createdAt))] + K.Without(codeDrafts, id);
      nextId := nextId + 1;
    }

    method RunCandidateCodeInStore(token: string, questionId: string, language: string, code: string,
                                   judged: Option<J.Verdict>, now: int)
      returns (r: Result<Invite>)
      modifies this`proctorDevices, this`proctorEvents, this`examSessions, this`codeExecutions, this`nextId
      ensures (View(), r) == RunCode(old(View()), token, questionId, language, code, judged, now, heartbeatTimeoutMs)
    {
      r := AdmitWrite(token, questionId, Some(language), now);
      if r.Refused? {
        return;
      }
      if judged.None? {
        return Refused(RunnerRefused);
      }
      codeExecutions := [Execution(r.value.candidate.id, questionId, language, code, judged.value, now)]
        + codeExecutions;
    }

    method SubmitCandidateCodeInStore(token: string, questionId: string, language: string, code: string,
                                      judged: Option<J.Verdict>,
                               matches: bool, now: int)
      returns (r: Result<Invite>)
      modifies this`proctorDevices, this`proctorEvents, this`examSessions, this`submissions, this`candidates,
        this`nextId
      ensures (View(), r) == Submit(old(View()), token, questionId, language, code, judged, matches, now,
                                    heartbeatTimeoutMs)
    {
      r := AdmitWrite(token, questionId, None, now);
      if r.Refused? {
        return;
      }
      var verdict := Evaluated(questions, r.value, questionId, language, code, judged, matches);
      if verdict.Refused? {
        return Refused(verdict.refusal);
      }
      RecordSubmission(r.value, questionId, language, code, verdict.value, now);
    }

    method RecordSubmission(invite: Invite, questionId: string, language: string, code: string, verdict: J.Verdict,
                            now: int)
      modifies this`submissions, this`candidates
      ensures View() == StoreSubmission(old(View()), invite, questionId, language, code, verdict, now)
    {
      var score := Scoring.SubmissionScore(verdict.passedTests, verdict.totalTests, verdict.status);
      submissions := [Submission(invite.exam.id, invite.candidate.id, questionId, language, code, score, verdict, now)]
        + submissions;
      candidates := WithStatus(candidates, invite.candidate.id, IN_PROGRESS);
    }

    method UpsertProctorDeviceInStore(token: string, role: D.Role, status: D.Status, detail: string, now: int)
      returns (r: Result<Invite>)
      modifies this`proctorDevices, this`nextId
      ensures (View(), r) == UpsertDevice(old(View()), token, role, status, detail, now)
    {
      r := GetCandidateInviteSnapshot(token);
      if r.Refused? {
        return;
      }
      var key := D.Key(r.value.candidate.id, r.value.exam.id, role);
      var existing := K.Find(proctorDevices, key);
      var id := if existing.Some? then existing.value.id else nextId;
      proctorDevices := [K.Entry(id, key, D.Reported(existing, status, detail, now))] + K.Without(proctorDevices, id);
      nextId := nextId + 1;
    }

    method LogProctorEventInStore(token: string, kind: D.EventType, detail: string, now: int)
      returns (r: Result<Invite>)
      modifies this`proctorDevices, this`proctorEvents
      ensures (View(), r) == LogEvent(old(View()), token, kind, detail, now, heartbeatTimeoutMs)
    {
      r := GetCandidateInviteForInternalUse(token, now);
      if r.Refused? {
        return;
      }
      proctorEvents := [D.Event(r.value.candidate.id, r.value.exam.id, kind, detail, now)] + proctorEvents;
    }

    method SaveCandidateEnvironmentCheckInStore(token: string, evidenceOk: bool, requiredPassed: bool, now: int)
      returns (r: Result<Invite>)
      modifies this`proctorDevices, this`proctorEvents, this`environmentChecks
      ensures (View(), r) == SaveCheck(old(View()), token, evidenceOk, requiredPassed, now, heartbeatTimeoutMs)
    {
      r := GetCandidateInviteForInternalUse(token, now);
      if r.Refused? {
        return;
      }
      if !evidenceOk {
        return Refused(EvidenceRejected);
      }
      environmentChecks := [Check(r.value.candidate.id, r.value.exam.id, requiredPassed, now)] + environmentChecks;
    }

    method VerifyCandidateIdentityInStore(token: string, inputOk: bool, verified: bool, now: int)
      returns (r: Result<Invite>)
      modifies this`proctorDevices, this`proctorEvents, this`identityVerifications
      ensures (View(), r) == VerifyIdentity(old(View()), token, inputOk, verified, now, heartbeatTimeoutMs)
    {
      r := GetCandidateInviteForInternalUse(token, now);
      if r.Refused? {
        return;
      }
      if !r.value.exam.identityVerificationEnabled {
        return Refused(IdentityDisabled);
      }
      if !inputOk {
        return Refused(IdentityInputRejected);
      }
      identityVerifications := [Verification(r.value.candidate.id, r.value.exam.id, verified, now)]
        + identityVerifications;
    }

    method MarkCandidateReadyInStore(token: string) returns (r: Result<Invite>)
      modifies this`candidates
      ensures (View(), r) == MarkReady(old(View()), token)
    {
      var candidate := CandidateByToken(candidates, token);
      if candidate.None? {
        return Refused(InviteNotFound);
      }
      var before := candidates;
      candidates := WithTokenReady(candidates, token);
      r := GetCandidateInviteSnapshot(token);
      if r.Refused? {
        candidates := before;
      }
    }

    method GetCandidateWorkspaceInStore(token: string, now: int) returns (r: Result<Invite>)
      modifies this`proctorDevices, this`proctorEvents, this`examSessions, this`nextId
      ensures (View(), r) == OpenWorkspace(old(View()), token, now, heartbeatTimeoutMs)
    {
      r := GetInviteForWorkspaceUse(token, now);
      if r.Refused? {
        return;
      }
      var c, e := r.value.candidate, r.value.exam;
      var (session, remaining, sessions) := E.Ensure(examSessions, c.id, e.id, e.durationMinutes, now, nextId);
      examSessions, nextId := sessions, nextId + 1;
    }

    method CreateProctorActionInStore(candidateId: string, kind: E.ActionKind, message: string, allowed: bool, now: int)
      returns (refusal: Option<Refusal>)
      modifies this`proctorActions
      ensures (View(), refusal) == Act(old(View()), candidateId, kind, message, allowed, now)
    {
      var candidate := CandidateById(candidates, candidateId);
      if candidate.None? {
        return Some(CandidateNotFound);
      }
      var exam := ExamById(exams, candidate.value.examId);
      if exam.None? || exam.value.status == DELETED {
        return Some(ExamNotFound);
      }
      if !allowed {
        return Some(NoAccess);
      }
      proctorActions := [E.Action(candidateId, exam.value.id, kind, message, now)] + proctorActions;
      return None;
    }
  }

  lemma EventCall(s: State, step: Step, timeout: int)
    requires step.ReportEvent?
    ensures var (t, r) := LogEvent(s, step.token, step.eventKind, step.detail, step.now, timeout);
      && Served(s, step, timeout) == (t, r)
      && LogGrows(s.events, t.events)
      && (r.Ok? ==>
            && t.events != []
            && t.events[0]
               == D.Event(r.value.candidate.id, r.value.exam.id, step.eventKind, step.detail, step.now))
  {
    hide InviteFor;
    InviteForLogGrows(s, step.token, step.now, timeout);
  }

  lemma WorkspaceCall(s: State, step: Step, timeout: int)
    requires Inv(s) && step.GetWorkspace?
    ensures var (t, r) := Served(s, step, timeout);
      r.Ok? ==> E.Find(t.sessions, r.value.candidate.id, r.value.exam.id).Some?
  {
    InviteForKeeps(s, step.token, step.now, timeout);
    var (t, r) := WorkspaceInvite(s, step.token, step.now, timeout);
    if r.Ok? {
      var c, e := r.value.candidate, r.value.exam;
      E.EnsureKeepsSessions(t.sessions, c.id, e.id, e.durationMinutes, step.now, t.nextId);
    }
  }

  lemma ActCall(s: State, candidateId: string, kind: E.ActionKind, message: string, allowed: bool, now: int)
    requires E.IsNewestFirst(s.actions) && (s.actions != [] ==> s.actions[0].createdAt <= now)
    ensures var (t, refusal) := Act(s, candidateId, kind, message, allowed, now);
      && (refusal.Some? ==> t.actions == s.actions)
      && (refusal == None && kind in {E.PAUSE_EXAM, E.RESUME_EXAM, E.TERMINATE_EXAM} ==>
            && E.LatestBlocking(t.actions, candidateId).Some?
            && E.LatestBlocking(t.actions, candidateId).value.kind == kind)
      && (forall id :: id != candidateId || kind in {E.MEMO, E.WARNING_MESSAGE} ==>
            E.LatestBlocking(t.actions, id) == E.LatestBlocking(s.actions, id))
  {
    var (t, refusal) := Act(s, candidateId, kind, message, allowed, now);
    if refusal == None {
      PrependKeepsLog(t.actions[0], s.actions);
      forall id
        ensures E.LatestBlocking(t.actions, id)
             == if E.IsBlocking(t.actions[0], id) then Some(t.actions[0]) else E.LatestBlocking(s.actions, id)
      {
        E.PrependedIsLatest(t.actions[0], s.actions, id);
      }
    }
  }
}
