/** Terminating an exam is not final: a resume opens it again. */
module PlatformStoreTermination {
  import opened Wrappers
  import opened PlatformStore
  import opened PlatformStoreGate
  import opened PlatformStoreHistory
  import E = ExamSessions

  /** The log after one more action of the proctor on the candidate. */
  function Acted(s: State, c: Candidate, kind: E.ActionKind, now: int): State {
    Act(s, c.id, kind, "", true, now).0
  }

  lemma ActedIs(s: State, token: string, c: Candidate, e: Exam, kind: E.ActionKind, now: int)
    requires Inv(s) && Invited(s, token, c, e) && e.status != DELETED
    ensures Acted(s, c, kind, now) == s.(actions := [E.Action(c.id, e.id, kind, "", now)] + s.actions)
  {
    ByTokenIs(s.candidates, token);
    ByIdFinds(s.candidates, c);
    ExamByIdIs(s.exams, c.examId);
  }

  /** What else the store holds decides as before. */
  lemma OnlyActionsMatter(s: State, t: State, token: string, q: string, language: Option<string>, now: int,
                          timeout: int,
                          c: Candidate, e: Exam)
    requires Inv(s) && Invited(s, token, c, e) && t == s.(actions := t.actions)
    requires Admit(s, token, q, language, now, timeout).1.Ok?
    ensures Inv(t) && Invited(t, token, c, e)
    ensures Admit(t, token, q, language, now, timeout).1
         == match E.LatestBlocking(t.actions, c.id)
            case None => Ok(Admit(t, token, q, language, now, timeout).1.value)
            case Some(a) => if a.kind == E.TERMINATE_EXAM then Refused(ExamTerminated)
                            else if a.kind == E.PAUSE_EXAM then Refused(ExamPaused)
                            else Ok(Admit(t, token, q, language, now, timeout).1.value)
  {
    AdmittedExactlyIf(s, token, q, language, now, timeout, c, e);
    AdmittedExactlyIf(t, token, q, language, now, timeout, c, e);
    WorkspaceOpensExactlyIf(t, token, now, timeout, c, e);
    QuestionFoundAgain(t.questions, q, e.id);
    E.LatestBlocks(t.actions, c.id);
  }

  /** Whenever a write would be admitted, it is not once the proctor has terminated the
      exam, and is again once they have resumed it. */
  lemma ResumeReopensATerminatedExam(s: State, token: string, q: string, language: Option<string>, now: int,
                                     timeout: int,
                                     c: Candidate, e: Exam, terminated: int, resumed: int)
    requires Inv(s) && Invited(s, token, c, e) && Admit(s, token, q, language, now, timeout).1.Ok?
    requires E.IsNewestFirst(s.actions) && (s.actions != [] ==> s.actions[0].createdAt <= terminated)
    requires terminated <= resumed
    ensures var t := Acted(s, c, E.TERMINATE_EXAM, terminated); var u := Acted(t, c, E.RESUME_EXAM, resumed);
      && Admit(t, token, q, language, now, timeout).1 == Refused(ExamTerminated)
      && Admit(u, token, q, language, now, timeout).1.Ok?
  {
    AdmittedExactlyIf(s, token, q, language, now, timeout, c, e);
    ActedIs(s, token, c, e, E.TERMINATE_EXAM, terminated);
    var t := Acted(s, c, E.TERMINATE_EXAM, terminated);
    OnlyActionsMatter(s, t, token, q, language, now, timeout, c, e);
    PrependKeepsLog(t.actions[0], s.actions);
    E.PrependedIsLatest(t.actions[0], s.actions, c.id);
    ActedIs(t, token, c, e, E.RESUME_EXAM, resumed);
    var u := Acted(t, c, E.RESUME_EXAM, resumed);
    OnlyActionsMatter(s, u, token, q, language, now, timeout, c, e);
    PrependKeepsLog(u.actions[0], t.actions);
    E.PrependedIsLatest(u.actions[0], t.actions, c.id);
  }

  // ------------------------------------------------------------------------
  // A run
  // ------------------------------------------------------------------------

  const EXAM := Exam("exam", Some(0), Some(3_600_000), 60, ACTIVE, ["js"], false, false)
  const QUESTION := Question("question", "exam", CODING, None)
  const CANDIDATE := Candidate("candidate", "exam", "token", READY)
  const SEED := Seed([EXAM], [QUESTION], [CANDIDATE])

  const CHECKED := CheckEnvironment("token", true, true, 1)
  const TERMINATED := ProctorAct("candidate", E.TERMINATE_EXAM, "", true, 2)
  const RESUMED := ProctorAct("candidate", E.RESUME_EXAM, "", true, 3)

  lemma SeededIsInvited(s: State)
    requires s.exams == [EXAM] && s.candidates == [CANDIDATE] && s.questions == [QUESTION]
    ensures Invited(s, "token", CANDIDATE, EXAM)
    ensures QuestionOf(s.questions, "question", "exam") == Some(QUESTION)
    ensures CanRun(EXAM, "js")
  {
    assert EXAM.languages[0] == "js";
  }

  lemma CheckIsStored(timeout: int)
    ensures After(Initial(SEED), CHECKED, timeout) == Initial(SEED).(checks := [Check("candidate", "exam", true, 1)])
  {
    SeededIsInvited(Initial(SEED));
  }

  /** A run in which a terminated exam takes a write again. */
  lemma ATerminatedExamReopens(timeout: int)
    ensures var checked := After(Initial(SEED), CHECKED, timeout);
      var terminated := After(checked, TERMINATED, timeout); var resumed := After(terminated, RESUMED, timeout);
      && Admit(checked, "token", "question", Some("js"), 4, timeout).1.Ok?
      && Admit(terminated, "token", "question", Some("js"), 4, timeout).1 == Refused(ExamTerminated)
      && Admit(resumed, "token", "question", Some("js"), 4, timeout).1.Ok?
  {
    var checked := After(Initial(SEED), CHECKED, timeout);
    CheckIsStored(timeout);
    SeededIsInvited(checked);
    AdmittedExactlyIf(checked, "token", "question", Some("js"), 4, timeout, CANDIDATE, EXAM);
    ResumeReopensATerminatedExam(checked, "token", "question", Some("js"), 4, timeout, CANDIDATE, EXAM, 2, 3);
  }
}
