/** When each call of the store is accepted, why it is refused otherwise, and what becomes
    of exams. */
module PlatformStoreAnswers {
  import opened Wrappers
  import opened PlatformStore
  import opened PlatformStoreGate
  import opened PlatformStoreRuns
  import opened PlatformStoreHistory
  import K = KeyedLists
  import D = ProctorDevices
  import E = ExamSessions

  // ------------------------------------------------------------------------
  // What an invite is
  // ------------------------------------------------------------------------

  /** Position `k` holds the first exam with the id. */
  ghost predicate IsFirstExam(exams: seq<Exam>, id: string, k: nat) {
    k < |exams| && exams[k].id == id && forall j :: 0 <= j < k ==> exams[j].id != id
  }

  lemma {:induction false} ExamByIdIsFirst(exams: seq<Exam>, id: string)
    ensures match ExamById(exams, id)
      case None => forall k :: 0 <= k < |exams| ==> exams[k].id != id
      case Some(e) => exists k: nat :: IsFirstExam(exams, id, k) && exams[k] == e
  {
    if exams != [] {
      if exams[0].id == id {
        assert IsFirstExam(exams, id, 0);
      } else {
        ExamByIdIsFirst(exams[1..], id);
        if k: nat :| IsFirstExam(exams[1..], id, k) && ExamById(exams, id) == Some(exams[1..][k]) {
          assert IsFirstExam(exams, id, k + 1);
        }
      }
    }
  }

  lemma {:induction false} InQuestionsOf(questions: seq<Question>, examId: string, q: Question)
    ensures q in QuestionsOf(questions, examId) <==> q in questions && q.examId == examId
  {
    if questions != [] {
      InQuestionsOf(questions[1..], examId, q);
      assert q in questions <==> q == questions[0] || q in questions[1..];
    }
  }

  lemma {:induction false} QuestionOfIs(questions: seq<Question>, id: string, examId: string)
    ensures match QuestionOf(questions, id, examId)
      case None => forall q :: q in questions ==> !(q.id == id && q.examId == examId)
      case Some(q) => q in questions && q.id == id && q.examId == examId
  {
    if questions != [] {
      QuestionOfIs(questions[1..], id, examId);
    }
  }

  /** An invite is the token's candidate with their exam, if that is not deleted, and
      holds that exam's questions and that candidate's devices, check and verification. */
  lemma SnapshotIs(s: State, token: string)
    requires DistinctIds(s.candidates)
    ensures match Snapshot(s, token)
      case Ok(invite) =>
        var c, e := invite.candidate, invite.exam;
        && c in s.candidates && c.inviteToken == token
        && e.id == c.examId && e.status != DELETED
             && (exists k: nat :: IsFirstExam(s.exams, e.id, k) && s.exams[k] == e)
        && (forall q :: q in invite.questions <==> q in s.questions && q.examId == e.id)
        && (forall d :: d in invite.devices <==> d in s.devices && d.key.candidateId == c.id)
        && invite.check == CheckOf(s.checks, c.id) && invite.verification == VerificationOf(s.verifications, c.id)
      case Refused(r) =>
        if exists k :: 0 <= k < |s.candidates| && s.candidates[k].inviteToken == token
        then r == ExamNotFound
             && forall c :: c in s.candidates && c.inviteToken == token ==>
                  ExamById(s.exams, c.examId).Some? ==> ExamById(s.exams, c.examId).value.status == DELETED
        else r == InviteNotFound
  {
    ByTokenIs(s.candidates, token);
    NoneWithToken(s.candidates, token);
    if CandidateByToken(s.candidates, token).Some? {
      var c := CandidateByToken(s.candidates, token).value;
      ExamByIdIs(s.exams, c.examId);
      ExamByIdIsFirst(s.exams, c.examId);
      forall q
        ensures q in QuestionsOf(s.questions, c.examId) <==> q in s.questions && q.examId == c.examId
      {
        InQuestionsOf(s.questions, c.examId, q);
      }
      forall d
        ensures d in DevicesOf(s.devices, c.id) <==> d in s.devices && d.key.candidateId == c.id
      {
        InDevicesOf(s.devices, c.id, d);
      }
      forall d | d in s.candidates && d.inviteToken == token
        ensures d == c
      {
        OneWithToken(s.candidates, c, d);
      }
    }
  }

  // ------------------------------------------------------------------------
  // Calls of candidates
  // ------------------------------------------------------------------------

  lemma {:induction false} ByTokenAfterReady(candidates: seq<Candidate>, token: string)
    ensures CandidateByToken(WithTokenReady(candidates, token), token)
         == match CandidateByToken(candidates, token)
            case None => None
            case Some(c) => Some(c.(status := READY))
  {
    if candidates != [] {
      ByTokenAfterReady(candidates[1..], token);
    }
  }

  /** What the call asks beyond an invite to an exam that is not deleted. */
  ghost predicate AlsoAsked(s: State, step: Step, c: Candidate, e: Exam, timeout: int)
    requires ByCandidate(step)
  {
    && (step.CheckEnvironment? ==> step.evidenceOk)
    && (step.CheckIdentity? ==> e.identityVerificationEnabled && step.inputOk)
    && (step.GetWorkspace? || IsWrite(step) ==> GatePasses(s, c, e, step.now, timeout))
    && (IsWrite(step) ==> StillOpen(s, c, e, step.now) && QuestionOf(s.questions, step.questionId, e.id).Some?)
    && (step.WriteDraft? || step.RunDraft? ==> CanRun(e, step.language))
    && (step.RunDraft? ==> step.judged.Some?)
    && (step.SubmitAnswer? && QuestionOf(s.questions, step.questionId, e.id).Some?
        && QuestionOf(s.questions, step.questionId, e.id).value.kind == CODING ==>
          CanRun(e, step.language) && step.judged.Some?)
  }

  lemma ReadAcceptedExactlyIf(s: State, step: Step, timeout: int, c: Candidate, e: Exam)
    requires Inv(s) && ByCandidate(step) && !IsWrite(step) && Invited(s, step.token, c, e)
    ensures var r := Served(s, step, timeout).1;
      && (r.Ok? <==> e.status != DELETED && AlsoAsked(s, step, c, e, timeout))
      && (r.Ok? ==> r.value.candidate == (if step.ConfirmEntry? then c.(status := READY) else c) && r.value.exam == e)
  {
    if step.GetWorkspace? {
      WorkspaceOpensExactlyIf(s, step.token, step.now, timeout, c, e);
    } else if step.ConfirmEntry? {
      ByTokenAfterReady(s.candidates, step.token);
    }
  }

  lemma WriteAcceptedExactlyIf(s: State, step: Step, timeout: int, c: Candidate, e: Exam)
    requires Inv(s) && IsWrite(step) && Invited(s, step.token, c, e)
    ensures var r := Served(s, step, timeout).1;
      && (r.Ok? <==> e.status != DELETED && AlsoAsked(s, step, c, e, timeout))
      && (r.Ok? ==> r.value.candidate == c && r.value.exam == e)
  {
    var language := if step.SubmitAnswer? then None else Some(step.language);
    AdmittedExactlyIf(s, step.token, step.questionId, language, step.now, timeout, c, e);
    if step.SubmitAnswer? {
      SubmittedExactlyIf(s, step.token, step.questionId, step.language, step.code, step.judged, step.matches, step.now,
                         timeout, c, e);
    }
  }

  /** Every call of a candidate is accepted exactly if the exam is not deleted and what the
      call also asks is so, and is then answered for that candidate and exam. */
  lemma AcceptedExactlyIf(s: State, step: Step, timeout: int, c: Candidate, e: Exam)
    requires Inv(s) && ByCandidate(step) && Invited(s, step.token, c, e)
    ensures var r := Served(s, step, timeout).1;
      && (r.Ok? <==> e.status != DELETED && AlsoAsked(s, step, c, e, timeout))
      && (r.Ok? ==> r.value.candidate == (if step.ConfirmEntry? then c.(status := READY) else c) && r.value.exam == e)
  {
    if IsWrite(step) {
      WriteAcceptedExactlyIf(s, step, timeout, c, e);
    } else {
      ReadAcceptedExactlyIf(s, step, timeout, c, e);
    }
  }

  lemma UninvitedIsRefused(s: State, step: Step, timeout: int)
    requires ByCandidate(step) && !exists c, e :: Invited(s, step.token, c, e)
    ensures Served(s, step, timeout).1.Refused?
  {
    if CandidateByToken(s.candidates, step.token).Some?
       && ExamById(s.exams, CandidateByToken(s.candidates, step.token).value.examId).Some? {
      var c := CandidateByToken(s.candidates, step.token).value;
      assert Invited(s, step.token, c, ExamById(s.exams, c.examId).value);
    }
    ByTokenAfterReady(s.candidates, step.token);
  }

  /** Why the gate refuses: the first thing that is missing. */
  lemma GateRefusesBecause(s: State, token: string, now: int, timeout: int, c: Candidate, e: Exam)
    requires Inv(s) && Invited(s, token, c, e) && e.status != DELETED
    ensures var r := WorkspaceInvite(s, token, now, timeout).1;
      var open := e.status != ENDED && e.startAt.Some? && e.endAt.Some? && e.startAt.value <= now < e.endAt.value;
      var checked := CheckOf(s.checks, c.id).Some? && CheckOf(s.checks, c.id).value.requiredPassed;
      var verified := e.identityVerificationEnabled ==>
                        VerificationOf(s.verifications, c.id).Some?
                          && VerificationOf(s.verifications, c.id).value.verified;
      && (r == Refused(ExamNotAvailable) <==> !open)
      && (r == Refused(EntryNotConfirmed) <==> open && c.status == INVITED)
      && (r == Refused(EnvironmentCheckRequired) <==> open && c.status != INVITED && !checked)
      && (r == Refused(IdentityRequired) <==> open && c.status != INVITED && checked && !verified)
      && (r == Refused(MobileCameraRequired) <==>
            && open && c.status != INVITED && checked && verified
            && e.mobileCameraRequired && !SomeFreshMobile(s.devices, c.id, now - timeout))
  {
    ByTokenIs(s.candidates, token);
    ByIdFinds(s.candidates, c);
    ExamByIdIs(s.exams, c.examId);
    ConnectedAfterSweepIsFresh(s, c.id, e.id, now, timeout);
  }

  /** Why a write is refused past the gate: again the first thing that fails. */
  lemma WriteRefusedBecause(s: State, token: string, questionId: string, language: Option<string>, now: int,
                            timeout: int, c: Candidate, e: Exam)
    requires Inv(s) && Invited(s, token, c, e) && GatePasses(s, c, e, now, timeout)
    ensures var r := Admit(s, token, questionId, language, now, timeout).1;
      var found := QuestionOf(s.questions, questionId, e.id).Some?;
      var runs := language.Some? ==> CanRun(e, language.value);
      var action := E.LatestBlocking(s.actions, c.id);
      && (r == Refused(QuestionNotFound) <==> !found)
      && (r == Refused(LanguageNotSupported) || r == Refused(LanguageNotEnabled) <==> found && !runs)
      && (r == Refused(LanguageNotSupported) ==> !IsJavaScript(language.value) && !IsPython(language.value))
      && (r == Refused(LanguageNotEnabled) ==> IsJavaScript(language.value) || IsPython(language.value))
      && (r == Refused(ExamTerminated) <==> found && runs && action.Some? && action.value.kind == E.TERMINATE_EXAM)
      && (r == Refused(ExamPaused) <==> found && runs && action.Some? && action.value.kind == E.PAUSE_EXAM)
      && (r == Refused(TimeExpired) <==>
            && found && runs && (action.Some? ==> action.value.kind == E.RESUME_EXAM)
            && E.EndOf(s.sessions, c.id, e.id, e.durationMinutes, now) < now + 1000)
  {
    WorkspaceOpensExactlyIf(s, token, now, timeout, c, e);
    QuestionFoundAgain(s.questions, questionId, e.id);
    if language.Some? {
      LanguageRefusedExactlyIf(e, language.value);
    }
    E.OpenExactlyIf(s.actions, s.sessions, c.id, e.id, e.durationMinutes, now, s.nextId);
    E.LatestBlocks(s.actions, c.id);
  }

  // ------------------------------------------------------------------------
  // Proctors' actions
  // ------------------------------------------------------------------------

  lemma {:induction false} ByIdIs(candidates: seq<Candidate>, id: string)
    ensures match CandidateById(candidates, id)
      case None => forall c :: c in candidates ==> c.id != id
      case Some(c) => c in candidates && c.id == id
  {
    if candidates != [] {
      ByIdIs(candidates[1..], id);
    }
  }

  /** An action is taken exactly if there is such a candidate, their exam is there and not
      deleted, and the caller has access; it is then logged in front for that exam. */
  lemma ActedExactlyIf(s: State, candidateId: string, kind: E.ActionKind, message: string, allowed: bool, now: int)
    ensures var (t, refusal) := Act(s, candidateId, kind, message, allowed, now);
      var known := exists k :: 0 <= k < |s.candidates| && s.candidates[k].id == candidateId;
      && (refusal == Some(CandidateNotFound) <==> !known)
      && (known ==>
            var c := CandidateById(s.candidates, candidateId).value;
            && c in s.candidates && c.id == candidateId
            && (refusal == Some(ExamNotFound) <==> !ExamExists(s.exams, c.examId))
            && (refusal == Some(NoAccess) <==> ExamExists(s.exams, c.examId) && !allowed)
            && (refusal == None <==> ExamExists(s.exams, c.examId) && allowed)
            && t == if refusal == None
                    then s.(actions := [E.Action(candidateId, c.examId, kind, message, now)] + s.actions) else s)
  {
    ByIdIs(s.candidates, candidateId);
    if c :| CandidateById(s.candidates, candidateId) == Some(c) {
      ExamByIdIs(s.exams, c.examId);
      assert exists k :: 0 <= k < |s.candidates| && s.candidates[k] == c;
    }
  }

  // ------------------------------------------------------------------------
  // What is recorded
  // ------------------------------------------------------------------------

  /** What an accepted call puts in front of its list, with when and for whom. */
  ghost predicate Records(s: State, t: State, step: Step, c: Candidate, e: Exam) {
    match step
    case ReportEvent(_, kind, detail, now) => t.events != [] && t.events[0] == D.Event(c.id, e.id, kind, detail, now)
    case CheckEnvironment(_, _, passed, now) => t.checks == [Check(c.id, e.id, passed, now)] + s.checks
    case CheckIdentity(_, _, verified, now) =>
      t.verifications == [Verification(c.id, e.id, verified, now)] + s.verifications
    case WriteDraft(_, q, l, code, now) =>
      && t.drafts != [] && t.drafts[0].key == DraftKey(c.id, q, l)
      && t.drafts[0].value.examId == e.id && t.drafts[0].value.code == code && t.drafts[0].value.savedAt == now
      && t.drafts[0].value.createdAt == (match K.Find(s.drafts, DraftKey(c.id, q, l))
                                         case Some(d) => d.value.createdAt case None => now)
    case RunDraft(_, q, l, code, judged, now) =>
      judged.Some? && t.executions == [Execution(c.id, q, l, code, judged.value, now)] + s.executions
    case SubmitAnswer(_, q, l, code, _, _, now) =>
      && t.submissions != [] && t.submissions[1..] == s.submissions
      && (var x := t.submissions[0];
          && x.candidateId == c.id && x.examId == e.id && x.questionId == q && x.language == l && x.code == code
          && x.submittedAt == now)
    case _ => true
  }

  lemma AcceptedIsRecorded(s: State, step: Step, timeout: int)
    requires Inv(s) && ByCandidate(step) && Served(s, step, timeout).1.Ok?
    ensures var (t, r) := Served(s, step, timeout); Records(s, t, step, r.value.candidate, r.value.exam)
  {
    if IsWrite(step) {
      WriteIsRecorded(s, step, timeout);
    } else if step.CheckEnvironment? || step.CheckIdentity? {
      InviteForKeeps(s, step.token, step.now, timeout);
    }
  }

  lemma WriteIsRecorded(s: State, step: Step, timeout: int)
    requires Inv(s) && IsWrite(step) && Served(s, step, timeout).1.Ok?
    ensures var (t, r) := Served(s, step, timeout); Records(s, t, step, r.value.candidate, r.value.exam)
  {
    var language := if step.SubmitAnswer? then None else Some(step.language);
    AdmitKeeps(s, step.token, step.questionId, language, step.now, timeout);
  }

  /** The earlier log is the end of the later one. */
  ghost predicate LogGrows(before: seq<D.Event>, after: seq<D.Event>) {
    |before| <= |after| && after[|after| - |before|..] == before
  }

  lemma SweptLogGrows(s: State, examId: string, now: int, timeout: int)
    ensures LogGrows(s.events, Swept(s, examId, now, timeout).events)
  {
    D.SweepLogsEachMarkedDevice(s.devices, s.events, examId, now, timeout);
  }

  lemma InviteForLogGrows(s: State, token: string, now: int, timeout: int)
    ensures LogGrows(s.events, InviteFor(s, token, now, timeout).0.events)
  {
    var r := Snapshot(s, token);
    if r.Ok? {
      SweptLogGrows(s, r.value.exam.id, now, timeout);
    }
  }

  lemma WriteLog(s: State, step: Step, timeout: int)
    requires IsWrite(step)
    ensures Served(s, step, timeout).0.events == InviteFor(s, step.token, step.now, timeout).0.events
  {
    hide Admit, InviteFor;
    var language := if step.SubmitAnswer? then None else Some(step.language);
    AdmitIs(s, step.token, step.questionId, language, step.now, timeout);
  }

  lemma ReadLog(s: State, step: Step, timeout: int)
    requires ByCandidate(step) && !IsWrite(step)
    ensures var after, swept := Served(s, step, timeout).0.events, InviteFor(s, step.token, step.now, timeout).0.events;
      after == s.events || after == swept || (|after| == |swept| + 1 && after[1..] == swept)
  {
  }

  lemma ServedLogGrows(s: State, step: Step, timeout: int)
    requires ByCandidate(step)
    ensures LogGrows(s.events, Served(s, step, timeout).0.events)
  {
    hide Served, InviteFor;
    InviteForLogGrows(s, step.token, step.now, timeout);
    if IsWrite(step) {
      WriteLog(s, step, timeout);
    } else {
      ReadLog(s, step, timeout);
    }
  }

  lemma StepLogGrows(s: State, step: Step, timeout: int)
    ensures LogGrows(s.events, After(s, step, timeout).events)
  {
    hide LogGrows, Served;
    NoLogGrows(s.events);
    if step.LiveState? {
      SweptLogGrows(s, step.examId, step.now, timeout);
    } else if ByCandidate(step) {
      ServedLogGrows(s, step, timeout);
    }
  }

  lemma NoLogGrows(events: seq<D.Event>)
    ensures LogGrows(events, events)
  {
  }

  /** No event is ever lost or changed, whatever is called. */
  lemma {:induction false} EventsAreKept(s: State, steps: seq<Step>, timeout: int)
    ensures LogGrows(s.events, Exec(s, steps, timeout).events)
  {
    if steps != [] {
      EventsAreKept(s, steps[..|steps| - 1], timeout);
      StepLogGrows(Exec(s, steps[..|steps| - 1], timeout), steps[|steps| - 1], timeout);
    }
  }

  // ------------------------------------------------------------------------
  // Sessions
  // ------------------------------------------------------------------------

  /** The session begins with this call, for the duration its exam then has. */
  ghost predicate BegunBy(s: State, step: Step, x: E.Session) {
    && (IsWrite(step) || step.GetWorkspace?) && x.startedAt == step.now
    && ExamById(s.exams, x.examId).Some?
    && x.endsAt == step.now + ExamById(s.exams, x.examId).value.durationMinutes * 60_000
  }

  lemma BegunIs(u: State, c: Candidate, e: Exam, now: int, candidateId: string, examId: string)
    requires ExamById(u.exams, e.id) == Some(e)
    ensures var x := E.Find(Begun(u, c, e, now).sessions, candidateId, examId);
      E.Find(u.sessions, candidateId, examId) == None && x.Some? ==>
        && x.value.startedAt == now && ExamById(u.exams, x.value.examId) == Some(e)
        && x.value.endsAt == now + e.durationMinutes * 60_000
  {
    E.SessionBeginsOnce(u.sessions, c.id, e.id, e.durationMinutes, now, u.nextId);
    if E.Find(u.sessions, c.id, e.id) == None {
      assert Begun(u, c, e, now).sessions[1..] == u.sessions;
    }
  }

  lemma AdmittedExamIs(s: State, token: string, questionId: string, language: Option<string>, now: int, timeout: int)
    ensures var r := Admit(s, token, questionId, language, now, timeout).1;
      r.Ok? ==> ExamById(s.exams, r.value.exam.id) == Some(r.value.exam)
    ensures var r := WorkspaceInvite(s, token, now, timeout).1;
      r.Ok? ==> ExamById(s.exams, r.value.exam.id) == Some(r.value.exam)
  {
    InviteForKeeps(s, token, now, timeout);
    if CandidateByToken(s.candidates, token).Some? {
      ExamByIdIs(s.exams, CandidateByToken(s.candidates, token).value.examId);
    }
  }

  lemma WriteSessions(s: State, step: Step, timeout: int)
    requires IsWrite(step)
    ensures var language := if step.SubmitAnswer? then None else Some(step.language);
      Served(s, step, timeout).0.sessions
      == Admit(s, step.token, step.questionId, language, step.now, timeout).0.sessions
  {
  }

  lemma WriteBegins(s: State, step: Step, timeout: int, candidateId: string, examId: string)
    requires IsWrite(step) && E.Find(s.sessions, candidateId, examId) == None
    ensures var x := E.Find(Served(s, step, timeout).0.sessions, candidateId, examId);
      x.Some? ==> BegunBy(s, step, x.value)
  {
    hide Served, Admit, Begun;
    var language := if step.SubmitAnswer? then None else Some(step.language);
    WriteSessions(s, step, timeout);
    AdmitIs(s, step.token, step.questionId, language, step.now, timeout);
    InviteForKeeps(s, step.token, step.now, timeout);
    AdmittedExamIs(s, step.token, step.questionId, language, step.now, timeout);
    var (t, r) := Admit(s, step.token, step.questionId, language, step.now, timeout);
    if r.Ok? {
      BegunIs(InviteFor(s, step.token, step.now, timeout).0, r.value.candidate, r.value.exam, step.now, candidateId,
              examId);
    }
  }

  lemma WorkspaceBegins(s: State, step: Step, timeout: int, candidateId: string, examId: string)
    requires step.GetWorkspace? && E.Find(s.sessions, candidateId, examId) == None
    ensures var x := E.Find(Served(s, step, timeout).0.sessions, candidateId, examId);
      x.Some? ==> BegunBy(s, step, x.value)
  {
    InviteForKeeps(s, step.token, step.now, timeout);
    AdmittedExamIs(s, step.token, "", None, step.now, timeout);
    var (t, r) := WorkspaceInvite(s, step.token, step.now, timeout);
    if r.Ok? {
      BegunIs(t, r.value.candidate, r.value.exam, step.now, candidateId, examId);
    }
  }

  lemma StepBegins(s: State, step: Step, timeout: int, candidateId: string, examId: string)
    requires E.Find(s.sessions, candidateId, examId) == None
    ensures var x := E.Find(After(s, step, timeout).sessions, candidateId, examId);
      x.Some? ==> BegunBy(s, step, x.value)
  {
    if IsWrite(step) {
      WriteBegins(s, step, timeout, candidateId, examId);
    } else if step.GetWorkspace? {
      WorkspaceBegins(s, step, timeout, candidateId, examId);
    } else if ByCandidate(step) && !step.ReportDevice? && !step.ConfirmEntry? {
      InviteForKeeps(s, step.token, step.now, timeout);
    }
  }

  /** On every run a session was begun by one of its calls, at its start, and ends after
      the duration that the exam had then. */
  lemma {:induction false} SessionsLastTheDuration(s: State, steps: seq<Step>, timeout: int, candidateId: string,
                                                   examId: string)
    requires Fresh(s)
    ensures var x := E.Find(Exec(s, steps, timeout).sessions, candidateId, examId);
      x.Some? ==> exists k :: 0 <= k < |steps| && BegunBy(Exec(s, steps[..k], timeout), steps[k], x.value)
  {
    if steps != [] {
      var n := |steps| - 1;
      SessionsLastTheDuration(s, steps[..n], timeout, candidateId, examId);
      var u := Exec(s, steps[..n], timeout);
      if E.Find(u.sessions, candidateId, examId) == None {
        StepBegins(u, steps[n], timeout, candidateId, examId);
      } else {
        StepKeepsSession(u, steps[n], timeout, candidateId, examId);
        var x := E.Find(u.sessions, candidateId, examId).value;
        var k :| 0 <= k < n && BegunBy(Exec(s, steps[..n][..k], timeout), steps[..n][k], x);
        assert steps[..n][..k] == steps[..k];
      }
    }
  }

  // ------------------------------------------------------------------------
  // Exams
  // ------------------------------------------------------------------------

  lemma {:induction false} ReplacedIs(exams: seq<Exam>, id: string, exam: Exam, other: string)
    requires exam.id == id
    ensures ExamById(Replaced(exams, id, exam), other)
         == if other == id && ExamById(exams, id).Some? then Some(exam) else ExamById(exams, other)
  {
    if exams != [] {
      ReplacedIs(exams[1..], id, exam, other);
    }
  }

  /** What becomes of the exam with this id: created as a draft, changed in everything but
      its status, marked as deleted, or left as it is. */
  lemma ExamStep(s: State, step: Step, timeout: int, id: string)
    ensures var was := ExamById(s.exams, id);
      ExamById(After(s, step, timeout).exams, id) ==
        if step.CreateExam? && step.exam.id == id && was == None then Some(step.exam.(status := DRAFT))
        else if step.UpdateExam? && step.examId == id && was.Some? && was.value.status != DELETED
        then Some(step.input.(id := id, status := was.value.status))
        else if step.DeleteExam? && step.examId == id && was.Some? && was.value.status != DELETED
        then Some(was.value.(status := DELETED))
        else was
  {
    match step
    case CreateExam(exam, _) => assert ([exam.(status := DRAFT)] + s.exams)[1..] == s.exams;
    case UpdateExam(examId, input, _) =>
      if ExamExists(s.exams, examId) {
        ReplacedIs(s.exams, examId, input.(id := examId, status := ExamById(s.exams, examId).value.status), id);
      }
    case DeleteExam(examId, _) =>
      ExamByIdIs(s.exams, examId);
      if ExamExists(s.exams, examId) {
        ReplacedIs(s.exams, examId, ExamById(s.exams, examId).value.(status := DELETED), id);
      }
    case _ =>
      if ByCandidate(step) {
        StoresOnlyItsOwn(s, step, timeout);
      }
  }

  /** A deleted exam stays deleted as it is, whatever is called. */
  lemma {:induction false} DeletedStaysDeleted(s: State, steps: seq<Step>, timeout: int, id: string)
    requires ExamById(s.exams, id).Some? && ExamById(s.exams, id).value.status == DELETED
    ensures ExamById(Exec(s, steps, timeout).exams, id) == ExamById(s.exams, id)
  {
    if steps != [] {
      DeletedStaysDeleted(s, steps[..|steps| - 1], timeout, id);
      ExamStep(Exec(s, steps[..|steps| - 1], timeout), steps[|steps| - 1], timeout, id);
    }
  }
}
