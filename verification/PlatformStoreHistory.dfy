/** The store's lists as latest-wins registers over whole runs. */
module PlatformStoreHistory {
  import opened Wrappers
  import opened Scoring
  import opened PlatformStore
  import opened PlatformStoreGate
  import opened PlatformStoreRuns
  import K = KeyedLists
  import E = ExamSessions
  import J = Judge

  // ------------------------------------------------------------------------
  // Latest-wins registers
  // ------------------------------------------------------------------------

  lemma AdminStores(s: State, step: Step, timeout: int)
    requires IsAdmin(step)
    ensures var t := AfterAdmin(s, step, timeout);
      t.checks == s.checks && t.verifications == s.verifications && t.drafts == s.drafts && t.actions == s.actions
  {
  }

  /** The store as it begins: seeded exams, questions and candidates, nothing else. */
  ghost predicate Fresh(s: State) {
    exists seed: Seed :: DistinctIds(seed.candidates) && s == Initial(seed)
  }

  lemma FreshInv(s: State)
    requires Fresh(s)
    ensures Inv(s)
  {
  }

  /** The call of this candidate is accepted. */
  ghost predicate Accepted(s: State, step: Step, timeout: int, candidateId: string) {
    var r := Served(s, step, timeout).1;
    ByCandidate(step) && r.Ok? && r.value.candidate.id == candidateId
  }

  /** The outcome of the last environment check the candidate had accepted. */
  ghost function LatestCheck(s: State, steps: seq<Step>, timeout: int, candidateId: string): Option<bool> {
    if steps == [] then None
    else
      var before, step := steps[..|steps| - 1], steps[|steps| - 1];
      if step.CheckEnvironment? && Accepted(Exec(s, before, timeout), step, timeout, candidateId)
      then Some(step.requiredPassed)
      else LatestCheck(s, before, timeout, candidateId)
  }

  ghost function LatestVerification(s: State, steps: seq<Step>, timeout: int, candidateId: string): Option<bool> {
    if steps == [] then None
    else
      var before, step := steps[..|steps| - 1], steps[|steps| - 1];
      if step.CheckIdentity? && Accepted(Exec(s, before, timeout), step, timeout, candidateId) then Some(step.verified)
      else LatestVerification(s, before, timeout, candidateId)
  }

  /** The last pause, resume or terminate issued for the candidate, whatever memos,
      warnings and other candidates' actions came after it. */
  ghost function LatestAction(s: State, steps: seq<Step>, timeout: int, candidateId: string): Option<E.ActionKind> {
    if steps == [] then None
    else
      var before, step := steps[..|steps| - 1], steps[|steps| - 1];
      if && step.ProctorAct? && step.candidateId == candidateId
         && (step.kind == E.PAUSE_EXAM || step.kind == E.RESUME_EXAM || step.kind == E.TERMINATE_EXAM)
         && Act(Exec(s, before, timeout), candidateId, step.kind, step.message, step.allowed, step.now).1 == None
      then Some(step.kind)
      else LatestAction(s, before, timeout, candidateId)
  }

  ghost function LatestDraft(s: State, steps: seq<Step>, timeout: int, key: DraftKey): Option<string> {
    if steps == [] then None
    else
      var before, step := steps[..|steps| - 1], steps[|steps| - 1];
      if && step.WriteDraft? && step.questionId == key.questionId && step.language == key.language
         && Accepted(Exec(s, before, timeout), step, timeout, key.candidateId)
      then Some(step.code)
      else LatestDraft(s, before, timeout, key)
  }

  lemma CheckStep(s: State, step: Step, timeout: int, candidateId: string)
    ensures var t := After(s, step, timeout);
      if step.CheckEnvironment? && Accepted(s, step, timeout, candidateId)
      then CheckOf(t.checks, candidateId).Some?
           && CheckOf(t.checks, candidateId).value.requiredPassed == step.requiredPassed
      else CheckOf(t.checks, candidateId) == CheckOf(s.checks, candidateId)
  {
    if IsAdmin(step) {
      AdminStores(s, step, timeout);
    } else if ByCandidate(step) {
      StoresOnlyItsOwn(s, step, timeout);
      if step.CheckEnvironment? {
        InviteForKeeps(s, step.token, step.now, timeout);
      }
    }
  }

  lemma {:induction false} ChecksAreARegister(s: State, steps: seq<Step>, timeout: int, candidateId: string)
    requires Fresh(s)
    ensures match CheckOf(Exec(s, steps, timeout).checks, candidateId)
      case Some(check) => LatestCheck(s, steps, timeout, candidateId) == Some(check.requiredPassed)
      case None => LatestCheck(s, steps, timeout, candidateId) == None
  {
    if steps != [] {
      var before := steps[..|steps| - 1];
      ChecksAreARegister(s, before, timeout, candidateId);
      CheckStep(Exec(s, before, timeout), steps[|steps| - 1], timeout, candidateId);
    }
  }

  lemma VerificationStep(s: State, step: Step, timeout: int, candidateId: string)
    ensures var t := After(s, step, timeout);
      if step.CheckIdentity? && Accepted(s, step, timeout, candidateId)
      then VerificationOf(t.verifications, candidateId).Some?
           && VerificationOf(t.verifications, candidateId).value.verified == step.verified
      else VerificationOf(t.verifications, candidateId) == VerificationOf(s.verifications, candidateId)
  {
    if IsAdmin(step) {
      AdminStores(s, step, timeout);
    } else if ByCandidate(step) {
      StoresOnlyItsOwn(s, step, timeout);
      if step.CheckIdentity? {
        InviteForKeeps(s, step.token, step.now, timeout);
      }
    }
  }

  lemma {:induction false} VerificationsAreARegister(s: State, steps: seq<Step>, timeout: int, candidateId: string)
    requires Fresh(s)
    ensures match VerificationOf(Exec(s, steps, timeout).verifications, candidateId)
      case Some(v) => LatestVerification(s, steps, timeout, candidateId) == Some(v.verified)
      case None => LatestVerification(s, steps, timeout, candidateId) == None
  {
    if steps != [] {
      var before := steps[..|steps| - 1];
      VerificationsAreARegister(s, before, timeout, candidateId);
      VerificationStep(Exec(s, before, timeout), steps[|steps| - 1], timeout, candidateId);
    }
  }

  lemma DraftStep(s: State, step: Step, timeout: int, key: DraftKey)
    requires Inv(s)
    ensures var t := After(s, step, timeout);
      if step.WriteDraft? && step.questionId == key.questionId && step.language == key.language
         && Accepted(s, step, timeout, key.candidateId)
      then K.Find(t.drafts, key).Some? && K.Find(t.drafts, key).value.value.code == step.code
      else K.Find(t.drafts, key) == K.Find(s.drafts, key)
  {
    if IsAdmin(step) {
      AdminStores(s, step, timeout);
    } else if ByCandidate(step) {
      StoresOnlyItsOwn(s, step, timeout);
      if step.WriteDraft? {
        WriteDraftStep(s, step, timeout, key);
      }
    }
  }

  lemma StoreDraftStep(s: State, invite: Invite, q: string, l: string, code: string, now: int, key: DraftKey)
    requires Inv(s)
    ensures var t := StoreDraft(s, invite, q, l, code, now);
      if key == DraftKey(invite.candidate.id, q, l)
      then K.Find(t.drafts, key).Some? && K.Find(t.drafts, key).value.value.code == code
      else K.Find(t.drafts, key) == K.Find(s.drafts, key)
  {
    var own := DraftKey(invite.candidate.id, q, l);
    var createdAt := match K.Find(s.drafts, own) { case Some(d) => d.value.createdAt case None => now };
    K.PutIsAKeyedUpdate(s.drafts, own, Draft(invite.exam.id, code, now, createdAt), s.nextId, key);
  }

  lemma SaveDraftIs(s: State, token: string, q: string, l: string, code: string, now: int, timeout: int)
    ensures var (t, r) := Admit(s, token, q, Some(l), now, timeout);
      SaveDraft(s, token, q, l, code, now, timeout) == (if r.Ok? then StoreDraft(t, r.value, q, l, code, now) else t, r)
  {
  }

  lemma WriteDraftStep(s: State, step: Step, timeout: int, key: DraftKey)
    requires Inv(s) && step.WriteDraft?
    ensures var (t, r) := Served(s, step, timeout);
      if r.Ok? && key == DraftKey(r.value.candidate.id, step.questionId, step.language)
      then K.Find(t.drafts, key).Some? && K.Find(t.drafts, key).value.value.code == step.code
      else K.Find(t.drafts, key) == K.Find(s.drafts, key)
  {
    var WriteDraft(token, q, l, code, now) := step;
    var (t, r) := Admit(s, token, q, Some(l), now, timeout);
    SaveDraftIs(s, token, q, l, code, now, timeout);
    assert t.drafts == s.drafts by {
      AdmitKeeps(s, token, q, Some(l), now, timeout);
    }
    if r.Ok? {
      AdmitKeepsInv(s, token, q, Some(l), now, timeout);
      StoreDraftStep(t, r.value, q, l, code, now, key);
    }
  }

  /** A draft list kept by prepending and filtering holds, for each candidate,
      question and language, the code saved last. */
  lemma {:induction false} DraftsAreARegister(s: State, steps: seq<Step>, timeout: int, key: DraftKey)
    requires Fresh(s)
    ensures match K.Find(Exec(s, steps, timeout).drafts, key)
      case Some(d) => LatestDraft(s, steps, timeout, key) == Some(d.value.code)
      case None => LatestDraft(s, steps, timeout, key) == None
  {
    if steps != [] {
      var before := steps[..|steps| - 1];
      DraftsAreARegister(s, before, timeout, key);
      FreshInv(s);
      RunKeepsInv(s, before, timeout);
      DraftStep(Exec(s, before, timeout), steps[|steps| - 1], timeout, key);
    }
  }

  // ------------------------------------------------------------------------
  // The proctor's actions
  // ------------------------------------------------------------------------

  /** Time does not run backwards. */
  ghost predicate Timely(steps: seq<Step>) {
    |steps| < 2 || (steps[|steps| - 2].now <= steps[|steps| - 1].now && Timely(steps[..|steps| - 1]))
  }

  lemma ActionStep(s: State, step: Step, timeout: int)
    ensures var t := After(s, step, timeout);
      if step.ProctorAct? && Act(s, step.candidateId, step.kind, step.message, step.allowed, step.now).1 == None
      then |t.actions| == |s.actions| + 1 && t.actions[1..] == s.actions
           && t.actions[0].candidateId == step.candidateId && t.actions[0].kind == step.kind
           && t.actions[0].createdAt == step.now
      else t.actions == s.actions
  {
    if IsAdmin(step) {
      AdminStores(s, step, timeout);
    } else if ByCandidate(step) {
      StoresOnlyItsOwn(s, step, timeout);
    }
  }

  ghost predicate LogInv(actions: seq<E.Action>, steps: seq<Step>) {
    && E.IsNewestFirst(actions)
    && (actions != [] ==> steps != [] && actions[0].createdAt <= steps[|steps| - 1].now)
  }

  lemma PrependKeepsLog(a: E.Action, actions: seq<E.Action>)
    requires E.IsNewestFirst(actions) && (actions != [] ==> actions[0].createdAt <= a.createdAt)
    ensures E.IsNewestFirst([a] + actions)
  {
  }

  lemma {:induction false} LogIsNewestFirst(s: State, steps: seq<Step>, timeout: int)
    requires Fresh(s) && Timely(steps)
    ensures LogInv(Exec(s, steps, timeout).actions, steps)
  {
    if steps != [] {
      var before := steps[..|steps| - 1];
      LogIsNewestFirst(s, before, timeout);
      var u, t := Exec(s, before, timeout), Exec(s, steps, timeout);
      ActionStep(u, steps[|steps| - 1], timeout);
      if t.actions != u.actions {
        assert t.actions == [t.actions[0]] + u.actions;
        PrependKeepsLog(t.actions[0], u.actions);
      }
    }
  }

  /** The log of actions, newest first and stably sorted when it is read, tells the last
      pause, resume or terminate issued for the candidate, ties in time included. */
  lemma {:induction false} ActionsAreARegister(s: State, steps: seq<Step>, timeout: int, candidateId: string)
    requires Fresh(s) && Timely(steps)
    ensures match E.LatestBlocking(Exec(s, steps, timeout).actions, candidateId)
      case Some(a) => LatestAction(s, steps, timeout, candidateId) == Some(a.kind)
      case None => LatestAction(s, steps, timeout, candidateId) == None
  {
    if steps != [] {
      var before := steps[..|steps| - 1];
      ActionsAreARegister(s, before, timeout, candidateId);
      LogIsNewestFirst(s, steps, timeout);
      var u, t := Exec(s, before, timeout), Exec(s, steps, timeout);
      ActionStep(u, steps[|steps| - 1], timeout);
      if t.actions != u.actions {
        assert t.actions == [t.actions[0]] + u.actions;
        E.PrependedIsLatest(t.actions[0], u.actions, candidateId);
      }
    }
  }

  // ------------------------------------------------------------------------
  // Candidates
  // ------------------------------------------------------------------------

  function StatusOf(candidates: seq<Candidate>, id: string): Option<CandidateStatus> {
    match CandidateById(candidates, id) { case Some(c) => Some(c.status) case None => None }
  }

  /** A candidate is invited when added, ready when entry is confirmed and in progress
      when an answer is submitted, whichever came last. */
  ghost function LatestStatus(s: State, steps: seq<Step>, timeout: int, id: string): Option<CandidateStatus> {
    if steps == [] then StatusOf(s.candidates, id)
    else
      var before, step := steps[..|steps| - 1], steps[|steps| - 1];
      var u, latest := Exec(s, before, timeout), LatestStatus(s, before, timeout, id);
      if step.ConfirmEntry? && Accepted(u, step, timeout, id) then Some(READY)
      else if step.SubmitAnswer? && Accepted(u, step, timeout, id) then Some(IN_PROGRESS)
      else if step.AddCandidate? && step.candidateId == id && latest == None && CanAdd(u, step) then Some(INVITED)
      else latest
  }

  ghost predicate CanAdd(s: State, step: Step)
    requires step.AddCandidate?
  {
    ExamExists(s.exams, step.examId) && CandidateByToken(s.candidates, step.inviteToken) == None
  }

  lemma {:induction false} StatusAfterSet(candidates: seq<Candidate>, own: string, status: CandidateStatus, id: string)
    ensures StatusOf(WithStatus(candidates, own, status), id)
         == if id == own && StatusOf(candidates, id).Some? then Some(status) else StatusOf(candidates, id)
  {
    if candidates != [] {
      StatusAfterSet(candidates[1..], own, status, id);
    }
  }

  lemma {:induction false} CandidateAfterReady(candidates: seq<Candidate>, token: string, id: string)
    ensures CandidateById(WithTokenReady(candidates, token), id)
         == match CandidateById(candidates, id)
            case None => None
            case Some(c) => Some(if c.inviteToken == token then c.(status := READY) else c)
    ensures CandidateById(candidates, id).Some? ==>
              CandidateById(candidates, id).value in candidates && CandidateById(candidates, id).value.id == id
  {
    if candidates != [] {
      CandidateAfterReady(candidates[1..], token, id);
    }
  }

  lemma {:induction false} StatusAfterAppend(candidates: seq<Candidate>, c: Candidate, id: string)
    ensures StatusOf(candidates + [c], id)
         == if StatusOf(candidates, id) == None && id == c.id then Some(c.status) else StatusOf(candidates, id)
  {
    if candidates == [] {
      assert candidates + [c] == [c];
    } else {
      assert (candidates + [c])[1..] == candidates[1..] + [c];
      StatusAfterAppend(candidates[1..], c, id);
    }
  }

  lemma OneWithToken(candidates: seq<Candidate>, c: Candidate, d: Candidate)
    requires DistinctIds(candidates) && c in candidates && d in candidates
    requires c.id == d.id || c.inviteToken == d.inviteToken
    ensures c == d
  {
    var i :| 0 <= i < |candidates| && candidates[i] == c;
    var j :| 0 <= j < |candidates| && candidates[j] == d;
  }

  lemma OneWithTokenAfter(candidates: seq<Candidate>, token: string, id: string, c: Candidate)
    requires DistinctIds(candidates) && CandidateById(candidates, id).Some?
    requires CandidateByToken(WithTokenReady(candidates, token), token) == Some(c)
    ensures CandidateById(candidates, id).value.inviteToken == token <==> c.id == id
  {
    var after := WithTokenReady(candidates, token);
    WithTokenReadyKeeps(candidates, token);
    CandidateAfterReady(candidates, token, id);
    ByTokenIs(after, token);
    var j :| 0 <= j < |after| && after[j] == c;
    assert candidates[j] in candidates && candidates[j].inviteToken == token && candidates[j].id == c.id;
    var own := CandidateById(candidates, id).value;
    if own.inviteToken == token || own.id == c.id {
      OneWithToken(candidates, own, candidates[j]);
    }
  }

  lemma ReadyStatus(candidates: seq<Candidate>, token: string, id: string, c: Candidate)
    requires DistinctIds(candidates) && CandidateByToken(WithTokenReady(candidates, token), token) == Some(c)
    ensures StatusOf(WithTokenReady(candidates, token), id)
         == if c.id == id then Some(READY) else StatusOf(candidates, id)
  {
    var after := WithTokenReady(candidates, token);
    CandidateAfterReady(candidates, token, id);
    WithTokenReadyKeeps(candidates, token);
    ByTokenIs(after, token);
    ByIdFinds(after, c);
    if CandidateById(candidates, id).Some? {
      OneWithTokenAfter(candidates, token, id, c);
    }
  }

  lemma ConfirmStep(s: State, token: string, id: string)
    requires DistinctIds(s.candidates)
    ensures var (t, r) := MarkReady(s, token);
      StatusOf(t.candidates, id)
      == if r.Ok? && r.value.candidate.id == id then Some(READY) else StatusOf(s.candidates, id)
  {
    var (t, r) := MarkReady(s, token);
    if r.Ok? {
      ReadyStatus(s.candidates, token, id, r.value.candidate);
    }
  }

  lemma AdmittedCandidate(s: State, token: string, q: string, language: Option<string>, now: int, timeout: int)
    requires Inv(s) && Admit(s, token, q, language, now, timeout).1.Ok?
    ensures var c := Admit(s, token, q, language, now, timeout).1.value.candidate;
      CandidateById(s.candidates, c.id) == Some(c)
  {
    ByTokenIs(s.candidates, token);
    InviteForKeeps(s, token, now, timeout);
    ByIdFinds(s.candidates, Admit(s, token, q, language, now, timeout).1.value.candidate);
  }

  lemma SubmitIs(s: State, step: Step, timeout: int)
    requires step.SubmitAnswer?
    ensures var (t, r) := Admit(s, step.token, step.questionId, None, step.now, timeout);
      var (u, q) := Served(s, step, timeout);
      && (q.Ok? ==> r == q && u.candidates == WithStatus(t.candidates, r.value.candidate.id, IN_PROGRESS))
      && (!q.Ok? ==> u.candidates == t.candidates)
  {
  }

  lemma SubmitStatusStep(s: State, step: Step, timeout: int, id: string)
    requires Inv(s) && step.SubmitAnswer?
    ensures StatusOf(Served(s, step, timeout).0.candidates, id)
         == if Accepted(s, step, timeout, id) then Some(IN_PROGRESS) else StatusOf(s.candidates, id)
  {
    AdmitKeeps(s, step.token, step.questionId, None, step.now, timeout);
    SubmitIs(s, step, timeout);
    var r := Served(s, step, timeout).1;
    if r.Ok? {
      AdmittedCandidate(s, step.token, step.questionId, None, step.now, timeout);
      StatusAfterSet(s.candidates, r.value.candidate.id, IN_PROGRESS, id);
    }
  }

  lemma StatusStep(s: State, step: Step, timeout: int, id: string)
    requires Inv(s)
    ensures var was := StatusOf(s.candidates, id);
      StatusOf(After(s, step, timeout).candidates, id) ==
        if step.ConfirmEntry? && Accepted(s, step, timeout, id) then Some(READY)
        else if step.SubmitAnswer? && Accepted(s, step, timeout, id) then Some(IN_PROGRESS)
        else if step.AddCandidate? && step.candidateId == id && was == None && CanAdd(s, step) then Some(INVITED)
        else was
  {
    if step.AddCandidate? {
      StatusAfterAppend(s.candidates, Candidate(step.candidateId, step.examId, step.inviteToken, INVITED), id);
    } else if step.ConfirmEntry? {
      ConfirmStep(s, step.token, id);
    } else if step.SubmitAnswer? {
      SubmitStatusStep(s, step, timeout, id);
    } else if ByCandidate(step) {
      StoresOnlyItsOwn(s, step, timeout);
    }
  }

  /** On every run a candidate's status is the last one given to them. */
  lemma {:induction false} StatusesAreARegister(s: State, steps: seq<Step>, timeout: int, id: string)
    requires Fresh(s)
    ensures StatusOf(Exec(s, steps, timeout).candidates, id) == LatestStatus(s, steps, timeout, id)
  {
    if steps != [] {
      var before := steps[..|steps| - 1];
      StatusesAreARegister(s, before, timeout, id);
      FreshInv(s);
      RunKeepsInv(s, before, timeout);
      StatusStep(Exec(s, before, timeout), steps[|steps| - 1], timeout, id);
    }
  }

  function ExpectedOr(expected: Option<string>, otherwise: string): string {
    match expected { case Some(e) => e case None => otherwise }
  }

  /** An accepted submission is stored once, in front, for its candidate and question,
      with the score of its verdict; a text answer scores all or nothing. */
  lemma SubmissionIsScored(s: State, step: Step, timeout: int)
    requires step.SubmitAnswer? && Served(s, step, timeout).1.Ok?
    ensures var (t, r) := Served(s, step, timeout);
      var question := QuestionOf(s.questions, step.questionId, r.value.exam.id);
      && question.Some?
      && |t.submissions| == |s.submissions| + 1 && t.submissions[1..] == s.submissions
      && (var x := t.submissions[0];
          && x.candidateId == r.value.candidate.id && x.questionId == step.questionId && x.code == step.code
          && x.submittedAt == step.now
          && (question.value.kind == ESSAY ==> x.score == 100)
          && (question.value.kind in {MULTIPLE_CHOICE, SHORT_ANSWER} ==> x.score == if step.matches then 100 else 0)
          && (question.value.kind != CODING ==>
                var passed := question.value.kind == ESSAY || step.matches;
                && x.verdict.status == SUCCESS && x.verdict.totalTests == 1
                && x.verdict.testResults
                   == [J.TestResult(1, step.code, ExpectedOr(question.value.expectedAnswer, "감독관/AI 검토"), step.code,
                                    passed, None, 0, false)])
          && (question.value.kind == CODING ==>
                step.judged == Some(x.verdict)
                && x.score == SubmissionScore(x.verdict.passedTests, x.verdict.totalTests, x.verdict.status)))
  {
    AdmitKeeps(s, step.token, step.questionId, None, step.now, timeout);
  }

  /** For a coherent verdict, which is what judging yields, a coding submission with tests
      scores 100 exactly if all its tests passed and 0 exactly if none did. */
  lemma CodingScoreIsExact(s: State, step: Step, timeout: int)
    requires step.SubmitAnswer? && Served(s, step, timeout).1.Ok? && step.judged.Some? && J.Coherent(step.judged.value)
    requires var examId := Served(s, step, timeout).1.value.exam.id;
      var question := QuestionOf(s.questions, step.questionId, examId);
      question.Some? && question.value.kind == CODING
    ensures var t := Served(s, step, timeout).0; var v := step.judged.value;
      && |t.submissions| > 0 && 0 <= t.submissions[0].score <= 100
      && (v.totalTests > 0 ==>
            && (t.submissions[0].score == 100 <==> J.AllPassed(v))
            && (t.submissions[0].score == 0 <==> J.NonePassed(v)))
  {
    SubmissionIsScored(s, step, timeout);
    J.VerdictScore(step.judged.value);
  }
}
