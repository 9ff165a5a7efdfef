/** The in-memory store behind a candidate's exam, as a machine whose steps are
    whole service calls: the gate in front of the workspace, and the drafts, runs and
    submissions behind it. */
module PlatformStore {
  import opened Wrappers
  import opened Scoring
  import K = KeyedLists
  import D = ProctorDevices
  import E = ExamSessions
  import J = Judge

  datatype Result<T> = Ok(value: T) | Refused(refusal: Refusal)

  datatype Refusal =
    | InviteNotFound | CandidateNotFound | ExamNotFound | NoAccess
    | ExamNotAvailable | EntryNotConfirmed | EnvironmentCheckRequired | IdentityRequired | MobileCameraRequired
    | QuestionNotFound | LanguageNotSupported | LanguageNotEnabled
    | ExamTerminated | ExamPaused | TimeExpired
    | EvidenceRejected | IdentityDisabled | IdentityInputRejected | RunnerRefused

  // ------------------------------------------------------------------------
  // Entities
  // ------------------------------------------------------------------------

  datatype ExamStatus = DRAFT | SCHEDULED | ACTIVE | ENDED | DELETED

  /** A start or end is `None` if it is not a date. */
  datatype Exam = Exam(
    id: string, startAt: Option<int>, endAt: Option<int>, durationMinutes: int, status: ExamStatus,
    languages: seq<string>, identityVerificationEnabled: bool, mobileCameraRequired: bool)

  datatype QuestionKind = CODING | MULTIPLE_CHOICE | SHORT_ANSWER | ESSAY

  datatype Question = Question(id: string, examId: string, kind: QuestionKind, expectedAnswer: Option<string>)

  datatype CandidateStatus = INVITED | READY | IN_PROGRESS | COMPLETED

  datatype Candidate = Candidate(id: string, examId: string, inviteToken: string, status: CandidateStatus)

  datatype Check = Check(candidateId: string, examId: string, requiredPassed: bool, createdAt: int)

  datatype Verification = Verification(candidateId: string, examId: string, verified: bool, createdAt: int)

  datatype DraftKey = DraftKey(candidateId: string, questionId: string, language: string)

  datatype Draft = Draft(examId: string, code: string, savedAt: int, createdAt: int)

  datatype Execution = Execution(candidateId: string, questionId: string, language: string, code: string,
                                 verdict: J.Verdict, createdAt: int)

  datatype Submission = Submission(
    examId: string, candidateId: string, questionId: string, language: string, code: string,
    score: int, verdict: J.Verdict, submittedAt: int)

  datatype State = State(
    exams: seq<Exam>, questions: seq<Question>, candidates: seq<Candidate>,
    devices: seq<D.Device>, events: seq<D.Event>, actions: seq<E.Action>,
    verifications: seq<Verification>, checks: seq<Check>, sessions: seq<E.Session>,
    drafts: seq<K.Entry<DraftKey, Draft>>, executions: seq<Execution>, submissions: seq<Submission>,
    nextId: nat)

  // ------------------------------------------------------------------------
  // Looking things up: always the first match
  // ------------------------------------------------------------------------

  function CandidateByToken(candidates: seq<Candidate>, token: string): Option<Candidate> {
    if candidates == [] then None
    else if candidates[0].inviteToken == token then Some(candidates[0])
    else CandidateByToken(candidates[1..], token)
  }

  function CandidateById(candidates: seq<Candidate>, id: string): Option<Candidate> {
    if candidates == [] then None
    else if candidates[0].id == id then Some(candidates[0])
    else CandidateById(candidates[1..], id)
  }

  function ExamById(exams: seq<Exam>, id: string): Option<Exam> {
    if exams == [] then None else if exams[0].id == id then Some(exams[0]) else ExamById(exams[1..], id)
  }

  function QuestionOf(questions: seq<Question>, id: string, examId: string): Option<Question> {
    if questions == [] then None
    else if questions[0].id == id && questions[0].examId == examId then Some(questions[0])
    else QuestionOf(questions[1..], id, examId)
  }

  function CheckOf(checks: seq<Check>, candidateId: string): Option<Check> {
    if checks == [] then None
    else if checks[0].candidateId == candidateId then Some(checks[0])
    else CheckOf(checks[1..], candidateId)
  }

  function VerificationOf(verifications: seq<Verification>, candidateId: string): Option<Verification> {
    if verifications == [] then None
    else if verifications[0].candidateId == candidateId then Some(verifications[0])
    else VerificationOf(verifications[1..], candidateId)
  }

  function DevicesOf(devices: seq<D.Device>, candidateId: string): seq<D.Device> {
    if devices == [] then []
    else if devices[0].key.candidateId == candidateId then [devices[0]] + DevicesOf(devices[1..], candidateId)
    else DevicesOf(devices[1..], candidateId)
  }

  function QuestionsOf(questions: seq<Question>, examId: string): seq<Question> {
    if questions == [] then []
    else if questions[0].examId == examId then [questions[0]] + QuestionsOf(questions[1..], examId)
    else QuestionsOf(questions[1..], examId)
  }

  function WithStatus(candidates: seq<Candidate>, id: string, status: CandidateStatus): seq<Candidate> {
    if candidates == [] then []
    else [if candidates[0].id == id then candidates[0].(status := status) else candidates[0]]
         + WithStatus(candidates[1..], id, status)
  }

  function WithTokenReady(candidates: seq<Candidate>, token: string): seq<Candidate> {
    if candidates == [] then []
    else [if candidates[0].inviteToken == token then candidates[0].(status := READY) else candidates[0]]
         + WithTokenReady(candidates[1..], token)
  }

  function Replaced(exams: seq<Exam>, id: string, exam: Exam): seq<Exam> {
    if exams == [] then [] else [if exams[0].id == id then exam else exams[0]] + Replaced(exams[1..], id, exam)
  }

  // ------------------------------------------------------------------------
  // Invites and the gate
  // ------------------------------------------------------------------------

  datatype Invite = Invite(
    candidate: Candidate, exam: Exam, questions: seq<Question>, devices: seq<D.Device>,
    verification: Option<Verification>, check: Option<Check>)

  /** `getCandidateInviteInStore`. */
  function Snapshot(s: State, token: string): Result<Invite> {
    match CandidateByToken(s.candidates, token)
    case None => Refused(InviteNotFound)
    case Some(c) =>
      match ExamById(s.exams, c.examId)
      case None => Refused(ExamNotFound)
      case Some(e) =>
        if e.status == DELETED then Refused(ExamNotFound)
        else Ok(Invite(c, e, QuestionsOf(s.questions, e.id), DevicesOf(s.devices, c.id),
                       VerificationOf(s.verifications, c.id), CheckOf(s.checks, c.id)))
  }

  function Swept(s: State, examId: string, now: int, timeout: int): State {
    var (devices, events) := D.Sweep(s.devices, s.events, examId, now, timeout);
    s.(devices := devices, events := events)
  }

  /** `getCandidateInviteForInternalUse`: the devices are swept before the invite is read. */
  function InviteFor(s: State, token: string, now: int, timeout: int): (State, Result<Invite>) {
    match Snapshot(s, token)
    case Refused(r) => (s, Refused(r))
    case Ok(invite) =>
      var swept := Swept(s, invite.exam.id, now, timeout);
      (swept, Snapshot(swept, token))
  }

  predicate IsConnectedMobile(d: D.Device) { d.key.role == D.MOBILE_AUX && d.value.status == D.CONNECTED }

  predicate SomeConnectedMobile(devices: seq<D.Device>) {
    exists k :: 0 <= k < |devices| && IsConnectedMobile(devices[k])
  }

  predicate ExamAvailable(e: Exam, now: int) {
    && e.status != ENDED && e.status != DELETED
    && e.startAt.Some? && e.endAt.Some? && e.startAt.value <= now < e.endAt.value
  }

  /** `assertCandidateCanUseWorkspace`. */
  function GateRefusal(invite: Invite, now: int): Option<Refusal> {
    if !ExamAvailable(invite.exam, now) then Some(ExamNotAvailable)
    else if invite.candidate.status == INVITED then Some(EntryNotConfirmed)
    else if !(invite.check.Some? && invite.check.value.requiredPassed) then Some(EnvironmentCheckRequired)
    else if invite.exam.identityVerificationEnabled
            && !(invite.verification.Some? && invite.verification.value.verified)
    then Some(IdentityRequired)
    else if invite.exam.mobileCameraRequired && !SomeConnectedMobile(invite.devices) then Some(MobileCameraRequired)
    else None
  }

  /** `getInviteForWorkspaceUse`. */
  function WorkspaceInvite(s: State, token: string, now: int, timeout: int): (State, Result<Invite>) {
    var (t, r) := InviteFor(s, token, now, timeout);
    match r
    case Refused(_) => (t, r)
    case Ok(invite) =>
      match GateRefusal(invite, now)
      case Some(refusal) => (t, Refused(refusal))
      case None => (t, r)
  }

  // ------------------------------------------------------------------------
  // Drafts, runs and submissions
  // ------------------------------------------------------------------------

  /** Language names as they are written in lower case without surrounding blanks. */
  function Normalized(language: string): string {
    if language == "javascript" || language == "js" then "javascript"
    else if language == "python" || language == "py" then "python"
    else ""
  }

  predicate Enabled(languages: seq<string>, normalized: string) {
    exists k :: 0 <= k < |languages| && Normalized(languages[k]) == normalized
  }

  /** `assertLanguageCanRun`. */
  function LanguageRefusal(exam: Exam, language: string): Option<Refusal> {
    if Normalized(language) == "" then Some(LanguageNotSupported)
    else if !Enabled(exam.languages, Normalized(language)) then Some(LanguageNotEnabled)
    else None
  }

  predicate HasQuestion(questions: seq<Question>, id: string) {
    exists k :: 0 <= k < |questions| && questions[k].id == id
  }

  function Stopped(refusal: E.Refusal): Refusal {
    match refusal
    case Terminated => ExamTerminated
    case Paused => ExamPaused
    case TimeExpired => TimeExpired
  }

  /** `assertExamSessionOpen`: only if it passes are the sessions updated. */
  function OpenSession(s: State, invite: Invite, now: int): (State, Option<Refusal>) {
    var c, e := invite.candidate, invite.exam;
    match E.AssertOpen(s.actions, s.sessions, c.id, e.id, e.durationMinutes, now, s.nextId)
    case Some(refusal) => (s, Some(Stopped(refusal)))
    case None =>
      (s.(sessions := E.Ensure(s.sessions, c.id, e.id, e.durationMinutes, now, s.nextId).2, nextId := s.nextId + 1),
       None)
  }

  /** What drafts, runs and submissions do first; submissions pass no language here. */
  function Admit(s: State, token: string, questionId: string, language: Option<string>, now: int, timeout: int)
    : (State, Result<Invite>)
  {
    var (t, r) := WorkspaceInvite(s, token, now, timeout);
    match r
    case Refused(_) => (t, r)
    case Ok(invite) =>
      if !HasQuestion(invite.questions, questionId) then (t, Refused(QuestionNotFound))
      else if language.Some? && LanguageRefusal(invite.exam, language.value).Some?
      then (t, Refused(LanguageRefusal(invite.exam, language.value).value))
      else
        match OpenSession(t, invite, now)
        case (_, Some(refusal)) => (t, Refused(refusal))
        case (u, None) => (u, Ok(invite))
  }

  function StoreDraft(s: State, invite: Invite, questionId: string, language: string, code: string, now: int): State {
    var key := DraftKey(invite.candidate.id, questionId, language);
    var createdAt := match K.Find(s.drafts, key) { case Some(d) => d.value.createdAt case None => now };
    s.(drafts := K.Put(s.drafts, key, Draft(invite.exam.id, code, now, createdAt), s.nextId), nextId := s.nextId + 1)
  }

  function SaveDraft(s: State, token: string, questionId: string, language: string, code: string, now: int,
                     timeout: int)
    : (State, Result<Invite>)
  {
    var (t, r) := Admit(s, token, questionId, Some(language), now, timeout);
    match r
    case Refused(_) => (t, r)
    case Ok(invite) => (StoreDraft(t, invite, questionId, language, code, now), r)
  }

  /** A run; `judged` is what the runner answers, `None` if it turns the run away. */
  function RunCode(s: State, token: string, questionId: string, language: string, code: string,
                   judged: Option<J.Verdict>,
                   now: int, timeout: int)
    : (State, Result<Invite>)
  {
    var (t, r) := Admit(s, token, questionId, Some(language), now, timeout);
    match r
    case Refused(_) => (t, r)
    case Ok(invite) =>
      match judged
      case None => (t, Refused(RunnerRefused))
      case Some(verdict) =>
        (t.(executions := [Execution(invite.candidate.id, questionId, language, code, verdict, now)] + t.executions), r)
  }

  /** `evaluateTextAnswer`; `matches` says whether a non-empty expected answer equals
      the answer given, both normalised. */
  function TextVerdict(question: Question, answer: string, matches: bool): J.Verdict {
    var passed := || question.kind == ESSAY
                  || ((question.kind == MULTIPLE_CHOICE || question.kind == SHORT_ANSWER) && matches);
    var expected := match question.expectedAnswer { case Some(e) => e case None => "감독관/AI 검토" };
    J.Verdict(SUCCESS, None, 0, if passed then 1 else 0, 1,
              [J.TestResult(1, answer, expected, answer, passed, None, 0, false)])
  }

  function StoreSubmission(s: State, invite: Invite, questionId: string, language: string, code: string,
                           verdict: J.Verdict, now: int): State {
    var score := SubmissionScore(verdict.passedTests, verdict.totalTests, verdict.status);
    s.(submissions := [Submission(invite.exam.id, invite.candidate.id, questionId, language, code, score, verdict, now)]
       + s.submissions,
       candidates := WithStatus(s.candidates, invite.candidate.id, IN_PROGRESS))
  }

  /** How a submission is evaluated, or why it is not. */
  function Evaluated(questions: seq<Question>, invite: Invite, questionId: string, language: string, code: string,
                     judged: Option<J.Verdict>, matches: bool): Result<J.Verdict>
  {
    match QuestionOf(questions, questionId, invite.exam.id)
    case None => Refused(QuestionNotFound)
    case Some(question) =>
      if question.kind != CODING then Ok(TextVerdict(question, code, matches))
      else if LanguageRefusal(invite.exam, language).Some? then Refused(LanguageRefusal(invite.exam, language).value)
      else match judged { case None => Refused(RunnerRefused) case Some(verdict) => Ok(verdict) }
  }

  function Submit(s: State, token: string, questionId: string, language: string, code: string,
                  judged: Option<J.Verdict>,
                  matches: bool, now: int, timeout: int)
    : (State, Result<Invite>)
  {
    var (t, r) := Admit(s, token, questionId, None, now, timeout);
    match r
    case Refused(_) => (t, r)
    case Ok(invite) =>
      match Evaluated(t.questions, invite, questionId, language, code, judged, matches)
      case Refused(refusal) => (t, Refused(refusal))
      case Ok(verdict) => (StoreSubmission(t, invite, questionId, language, code, verdict, now), r)
  }

  // ------------------------------------------------------------------------
  // The other calls
  // ------------------------------------------------------------------------

  /** `upsertProctorDevice` reads the invite without a sweep. */
  function UpsertDevice(s: State, token: string, role: D.Role, status: D.Status, detail: string, now: int)
    : (State, Result<Invite>)
  {
    var r := Snapshot(s, token);
    match r
    case Refused(_) => (s, r)
    case Ok(invite) =>
      (s.(devices := D.Upsert(s.devices, D.Key(invite.candidate.id, invite.exam.id, role), status, detail, now,
                              s.nextId),
          nextId := s.nextId + 1), r)
  }

  function LogEvent(s: State, token: string, kind: D.EventType, detail: string, now: int, timeout: int)
    : (State, Result<Invite>)
  {
    var (t, r) := InviteFor(s, token, now, timeout);
    match r
    case Refused(_) => (t, r)
    case Ok(invite) => (t.(events := [D.Event(invite.candidate.id, invite.exam.id, kind, detail, now)] + t.events), r)
  }

  function SaveCheck(s: State, token: string, evidenceOk: bool, requiredPassed: bool, now: int, timeout: int)
    : (State, Result<Invite>)
  {
    var (t, r) := InviteFor(s, token, now, timeout);
    match r
    case Refused(_) => (t, r)
    case Ok(invite) =>
      if !evidenceOk then (t, Refused(EvidenceRejected))
      else (t.(checks := [Check(invite.candidate.id, invite.exam.id, requiredPassed, now)] + t.checks), r)
  }

  /** `inputOk` is the consent and the upload references, `verified` the provider's answer. */
  function VerifyIdentity(s: State, token: string, inputOk: bool, verified: bool, now: int, timeout: int)
    : (State, Result<Invite>)
  {
    var (t, r) := InviteFor(s, token, now, timeout);
    match r
    case Refused(_) => (t, r)
    case Ok(invite) =>
      if !invite.exam.identityVerificationEnabled then (t, Refused(IdentityDisabled))
      else if !inputOk then (t, Refused(IdentityInputRejected))
      else (t.(verifications := [Verification(invite.candidate.id, invite.exam.id, verified, now)] + t.verifications),
            r)
  }

  function MarkReady(s: State, token: string): (State, Result<Invite>) {
    if CandidateByToken(s.candidates, token) == None then (s, Refused(InviteNotFound))
    else
      var t := s.(candidates := WithTokenReady(s.candidates, token));
      match Snapshot(t, token)
      case Refused(r) => (s, Refused(r))
      case Ok(invite) => (t, Ok(invite))
  }

  /** Opening the workspace begins the session, whatever the proctor said. */
  function OpenWorkspace(s: State, token: string, now: int, timeout: int): (State, Result<Invite>) {
    var (t, r) := WorkspaceInvite(s, token, now, timeout);
    match r
    case Refused(_) => (t, r)
    case Ok(invite) =>
      var c, e := invite.candidate, invite.exam;
      (t.(sessions := E.Ensure(t.sessions, c.id, e.id, e.durationMinutes, now, t.nextId).2, nextId := t.nextId + 1), r)
  }

  /** `createProctorActionInStore`; `allowed` is the role and organization check. */
  function Act(s: State, candidateId: string, kind: E.ActionKind, message: string, allowed: bool, now: int)
    : (State, Option<Refusal>)
  {
    match CandidateById(s.candidates, candidateId)
    case None => (s, Some(CandidateNotFound))
    case Some(c) =>
      match ExamById(s.exams, c.examId)
      case None => (s, Some(ExamNotFound))
      case Some(e) =>
        if e.status == DELETED then (s, Some(ExamNotFound))
        else if !allowed then (s, Some(NoAccess))
        else (s.(actions := [E.Action(candidateId, e.id, kind, message, now)] + s.actions), None)
  }

  predicate ExamExists(exams: seq<Exam>, id: string) {
    ExamById(exams, id).Some? && ExamById(exams, id).value.status != DELETED
  }

  // ------------------------------------------------------------------------
  // Runs
  // ------------------------------------------------------------------------

  /** Calls by an organization's staff are taken once their access has been checked. */
  datatype Step =
    | CreateExam(exam: Exam, now: int)
    | UpdateExam(examId: string, input: Exam, now: int)
    | DeleteExam(examId: string, now: int)
    | AddQuestion(question: Question, now: int)
    | AddCandidate(candidateId: string, examId: string, inviteToken: string, now: int)
    | LiveState(examId: string, now: int)
    | ProctorAct(candidateId: string, kind: E.ActionKind, message: string, allowed: bool, now: int)
    | GetInvite(token: string, now: int)
    | ReportDevice(token: string, role: D.Role, status: D.Status, detail: string, now: int)
    | ReportEvent(token: string, eventKind: D.EventType, detail: string, now: int)
    | CheckEnvironment(token: string, evidenceOk: bool, requiredPassed: bool, now: int)
    | CheckIdentity(token: string, inputOk: bool, verified: bool, now: int)
    | ConfirmEntry(token: string, now: int)
    | GetWorkspace(token: string, now: int)
    | WriteDraft(token: string, questionId: string, language: string, code: string, now: int)
    | RunDraft(token: string, questionId: string, language: string, code: string, judged: Option<J.Verdict>, now: int)
    | SubmitAnswer(token: string, questionId: string, language: string, code: string, judged: Option<J.Verdict>,
                   matches: bool, now: int)

  /** Staff calls; identifiers and tokens are made fresh. */
  function AfterAdmin(s: State, step: Step, timeout: int): State {
    match step
    case CreateExam(exam, _) =>
      if ExamById(s.exams, exam.id).Some? then s else s.(exams := [exam.(status := DRAFT)] + s.exams)
    case UpdateExam(examId, input, _) =>
      if !ExamExists(s.exams, examId) then s
      else s.(exams := Replaced(s.exams, examId,
                                input.(id := examId, status := ExamById(s.exams, examId).value.status)))
    case DeleteExam(examId, _) =>
      if !ExamExists(s.exams, examId) then s
      else s.(exams := Replaced(s.exams, examId, ExamById(s.exams, examId).value.(status := DELETED)))
    case AddQuestion(question, _) =>
      if !ExamExists(s.exams, question.examId) then s else s.(questions := s.questions + [question])
    case AddCandidate(id, examId, token, _) =>
      if || !ExamExists(s.exams, examId)
         || CandidateById(s.candidates, id).Some? || CandidateByToken(s.candidates, token).Some?
      then s
      else s.(candidates := s.candidates + [Candidate(id, examId, token, INVITED)])
    case LiveState(examId, now) => Swept(s, examId, now, timeout)
    case _ => s
  }

  /** The answer of a candidate's call. */
  function Served(s: State, step: Step, timeout: int): (State, Result<Invite>) {
    match step
    case GetInvite(token, now) => InviteFor(s, token, now, timeout)
    case ReportDevice(token, role, status, detail, now) => UpsertDevice(s, token, role, status, detail, now)
    case ReportEvent(token, kind, detail, now) => LogEvent(s, token, kind, detail, now, timeout)
    case CheckEnvironment(token, evidenceOk, passed, now) => SaveCheck(s, token, evidenceOk, passed, now, timeout)
    case CheckIdentity(token, inputOk, verified, now) => VerifyIdentity(s, token, inputOk, verified, now, timeout)
    case ConfirmEntry(token, now) => MarkReady(s, token)
    case GetWorkspace(token, now) => OpenWorkspace(s, token, now, timeout)
    case WriteDraft(token, q, l, code, now) => SaveDraft(s, token, q, l, code, now, timeout)
    case RunDraft(token, q, l, code, judged, now) => RunCode(s, token, q, l, code, judged, now, timeout)
    case SubmitAnswer(token, q, l, code, judged, matches, now) =>
      Submit(s, token, q, l, code, judged, matches, now, timeout)
    case _ => (s, Refused(NoAccess))
  }

  function After(s: State, step: Step, timeout: int): State {
    if || step.CreateExam? || step.UpdateExam? || step.DeleteExam?
       || step.AddQuestion? || step.AddCandidate? || step.LiveState?
    then AfterAdmin(s, step, timeout)
    else if step.ProctorAct? then Act(s, step.candidateId, step.kind, step.message, step.allowed, step.now).0
    else Served(s, step, timeout).0
  }

  /** The store begins with seeded exams, questions and candidates and nothing else. */
  datatype Seed = Seed(exams: seq<Exam>, questions: seq<Question>, candidates: seq<Candidate>)

  function Initial(seed: Seed): State {
    State(seed.exams, seed.questions, seed.candidates, [], [], [], [], [], [], [], [], [], 0)
  }

  ghost function Exec(s: State, steps: seq<Step>, timeout: int): State {
    if steps == [] then s else After(Exec(s, steps[..|steps| - 1], timeout), steps[|steps| - 1], timeout)
  }
}
