/** What the store keeps on every run, and exactly when a candidate's write is let in. */
module PlatformStoreGate {
  import opened Wrappers
  import opened PlatformStore
  import K = KeyedLists
  import D = ProctorDevices
  import E = ExamSessions
  import J = Judge

  // ------------------------------------------------------------------------
  // Invariant
  // ------------------------------------------------------------------------

  /** No two candidates share an id or an invite token. */
  ghost predicate DistinctIds(candidates: seq<Candidate>) {
    forall i, j :: 0 <= i < j < |candidates| ==>
      candidates[i].id != candidates[j].id && candidates[i].inviteToken != candidates[j].inviteToken
  }

  /** A candidate with this id sits the exam. */
  ghost predicate Sits(candidates: seq<Candidate>, id: string, examId: string) {
    CandidateById(candidates, id).Some? && CandidateById(candidates, id).value.examId == examId
  }

  /** The exam of a device is its candidate's exam. */
  ghost predicate Owned(devices: seq<D.Device>, candidates: seq<Candidate>) {
    forall k :: 0 <= k < |devices| ==> Sits(candidates, devices[k].key.candidateId, devices[k].key.examId)
  }

  ghost predicate DevicesInv(devices: seq<D.Device>, bound: nat) {
    K.Distinct(devices) && D.Beating(devices) && K.IdsBelow(devices, bound)
  }

  ghost predicate DraftsInv(drafts: seq<K.Entry<DraftKey, Draft>>, bound: nat) {
    K.Distinct(drafts) && K.IdsBelow(drafts, bound)
  }

  ghost predicate Inv(s: State) {
    && DistinctIds(s.candidates)
    && Owned(s.devices, s.candidates)
    && DevicesInv(s.devices, s.nextId)
    && DraftsInv(s.drafts, s.nextId)
    && E.AtMostOnePerExam(s.sessions)
  }

  // ------------------------------------------------------------------------
  // Candidates
  // ------------------------------------------------------------------------

  lemma {:induction false} ByTokenIs(candidates: seq<Candidate>, token: string)
    ensures CandidateByToken(candidates, token).Some? ==>
              && CandidateByToken(candidates, token).value in candidates
              && CandidateByToken(candidates, token).value.inviteToken == token
  {
    if candidates != [] {
      ByTokenIs(candidates[1..], token);
    }
  }

  lemma {:induction false} ByIdFinds(candidates: seq<Candidate>, c: Candidate)
    requires DistinctIds(candidates) && c in candidates
    ensures CandidateById(candidates, c.id) == Some(c)
  {
    if candidates[0] != c {
      ByIdFinds(candidates[1..], c);
    }
  }

  lemma {:induction false} ExamByIdIs(exams: seq<Exam>, id: string)
    ensures ExamById(exams, id).Some? ==> ExamById(exams, id).value.id == id
  {
    if exams != [] {
      ExamByIdIs(exams[1..], id);
    }
  }

  /** Only the status of candidates differs. */
  ghost predicate SameButStatus(before: seq<Candidate>, after: seq<Candidate>) {
    |before| == |after|
    && forall k :: 0 <= k < |before| ==>
         && after[k].id == before[k].id && after[k].examId == before[k].examId
         && after[k].inviteToken == before[k].inviteToken
  }

  lemma {:induction false} WithStatusKeeps(candidates: seq<Candidate>, id: string, status: CandidateStatus)
    ensures SameButStatus(candidates, WithStatus(candidates, id, status))
  {
    if candidates != [] {
      WithStatusKeeps(candidates[1..], id, status);
    }
  }

  lemma {:induction false} WithTokenReadyKeeps(candidates: seq<Candidate>, token: string)
    ensures SameButStatus(candidates, WithTokenReady(candidates, token))
  {
    if candidates != [] {
      WithTokenReadyKeeps(candidates[1..], token);
    }
  }

  lemma {:induction false} SameSits(before: seq<Candidate>, after: seq<Candidate>, id: string, examId: string)
    requires SameButStatus(before, after)
    ensures Sits(before, id, examId) <==> Sits(after, id, examId)
  {
    if before != [] {
      SameSits(before[1..], after[1..], id, examId);
    }
  }

  lemma {:induction false} NoneWithToken(candidates: seq<Candidate>, token: string)
    ensures CandidateByToken(candidates, token) == None ==>
              forall k :: 0 <= k < |candidates| ==> candidates[k].inviteToken != token
  {
    if candidates != [] {
      NoneWithToken(candidates[1..], token);
    }
  }

  lemma {:induction false} AppendSits(candidates: seq<Candidate>, c: Candidate, id: string, examId: string)
    ensures Sits(candidates, id, examId) ==> Sits(candidates + [c], id, examId)
    ensures CandidateById(candidates, id) == None ==> forall k :: 0 <= k < |candidates| ==> candidates[k].id != id
  {
    if candidates != [] {
      AppendSits(candidates[1..], c, id, examId);
      assert (candidates + [c])[1..] == candidates[1..] + [c];
    }
  }

  // ------------------------------------------------------------------------
  // Devices
  // ------------------------------------------------------------------------

  lemma SweepKeepsInv(s: State, examId: string, now: int, timeout: int)
    requires Inv(s)
    ensures Inv(Swept(s, examId, now, timeout))
  {
    D.SweepKeepsDevices(s.devices, s.events, examId, now, timeout, s.nextId);
    D.SweepKeepsLength(s.devices, s.events, examId, now, timeout);
  }

  lemma UpsertKeepsInv(s: State, token: string, role: D.Role, status: D.Status, detail: string, now: int)
    requires Inv(s)
    ensures Inv(UpsertDevice(s, token, role, status, detail, now).0)
  {
    var r := Snapshot(s, token);
    if r.Ok? {
      var c := r.value.candidate;
      ByTokenIs(s.candidates, token);
      ByIdFinds(s.candidates, c);
      ExamByIdIs(s.exams, c.examId);
      var key := D.Key(c.id, r.value.exam.id, role);
      D.UpsertIsAKeyedUpdate(s.devices, key, status, detail, now, s.nextId, key);
      UpsertOwned(s.devices, s.candidates, key, status, detail, now, s.nextId);
    }
  }

  lemma UpsertOwned(devices: seq<D.Device>, candidates: seq<Candidate>, key: D.Key, status: D.Status, detail: string,
                    now: int, freshId: nat)
    requires DevicesInv(devices, freshId) && Owned(devices, candidates) && Sits(candidates, key.candidateId, key.examId)
    ensures Owned(D.Upsert(devices, key, status, detail, now, freshId), candidates)
  {
    var after := D.Upsert(devices, key, status, detail, now, freshId);
    var value := D.Reported(K.Find(devices, key), status, detail, now);
    var rest := K.Without(devices, after[0].id);
    assert after == [after[0]] + rest;
    forall k | 0 <= k < |rest|
      ensures Sits(candidates, rest[k].key.candidateId, rest[k].key.examId)
    {
      K.KeptByPut(devices, key, value, freshId, rest[k]);
      var j :| 0 <= j < |devices| && devices[j] == rest[k];
    }
  }

  lemma {:induction false} InDevicesOf(devices: seq<D.Device>, candidateId: string, d: D.Device)
    ensures d in DevicesOf(devices, candidateId) <==> d in devices && d.key.candidateId == candidateId
  {
    if devices != [] {
      InDevicesOf(devices[1..], candidateId, d);
      assert d in devices <==> d == devices[0] || d in devices[1..];
    }
  }

  /** A connected mobile device of the candidate with a heartbeat no older than `since`. */
  ghost predicate IsFreshMobile(d: D.Device, candidateId: string, since: int) {
    && d.key.candidateId == candidateId && IsConnectedMobile(d)
    && d.value.lastHeartbeatAt.Some? && since <= d.value.lastHeartbeatAt.value
  }

  ghost predicate SomeFreshMobile(devices: seq<D.Device>, candidateId: string, since: int) {
    exists k :: 0 <= k < |devices| && IsFreshMobile(devices[k], candidateId, since)
  }

  lemma SweptIsConnectedIfFresh(s: State, k: nat, candidateId: string, examId: string, now: int, timeout: int)
    requires Inv(s) && Sits(s.candidates, candidateId, examId) && k < |s.devices|
    ensures var swept := Swept(s, examId, now, timeout).devices;
      && |swept| == |s.devices|
      && (swept[k].key.candidateId == candidateId && IsConnectedMobile(swept[k])
          <==> IsFreshMobile(s.devices[k], candidateId, now - timeout))
  {
    D.SweepMarksExactlyTheStale(s.devices, s.events, examId, now, timeout, k);
    assert s.devices[k] in s.devices;
  }

  lemma SomeConnectedOf(devices: seq<D.Device>, candidateId: string)
    ensures SomeConnectedMobile(DevicesOf(devices, candidateId))
       <==> exists k :: 0 <= k < |devices| && devices[k].key.candidateId == candidateId && IsConnectedMobile(devices[k])
  {
    var mine := DevicesOf(devices, candidateId);
    forall k | 0 <= k < |mine| && IsConnectedMobile(mine[k])
      ensures exists j ::
                0 <= j < |devices| && devices[j].key.candidateId == candidateId && IsConnectedMobile(devices[j])
    {
      InDevicesOf(devices, candidateId, mine[k]);
    }
    forall k | 0 <= k < |devices| && devices[k].key.candidateId == candidateId && IsConnectedMobile(devices[k])
      ensures SomeConnectedMobile(mine)
    {
      InDevicesOf(devices, candidateId, devices[k]);
      assert devices[k] in mine;
    }
  }

  /** After the sweep of the candidate's exam there is a connected mobile device of the
      candidate exactly if there was one with a fresh heartbeat before it. */
  lemma ConnectedAfterSweepIsFresh(s: State, candidateId: string, examId: string, now: int, timeout: int)
    requires Inv(s) && Sits(s.candidates, candidateId, examId)
    ensures SomeConnectedMobile(DevicesOf(Swept(s, examId, now, timeout).devices, candidateId))
       <==> SomeFreshMobile(s.devices, candidateId, now - timeout)
  {
    var swept := Swept(s, examId, now, timeout).devices;
    SomeConnectedOf(swept, candidateId);
    D.SweepKeepsLength(s.devices, s.events, examId, now, timeout);
    forall k: nat | k < |s.devices|
      ensures swept[k].key.candidateId == candidateId && IsConnectedMobile(swept[k])
         <==> IsFreshMobile(s.devices[k], candidateId, now - timeout)
    {
      SweptIsConnectedIfFresh(s, k, candidateId, examId, now, timeout);
    }
  }

  // ------------------------------------------------------------------------
  // The gate
  // ------------------------------------------------------------------------

  /** The candidate with the token, if there is one with an exam. */
  ghost predicate Invited(s: State, token: string, c: Candidate, e: Exam) {
    CandidateByToken(s.candidates, token) == Some(c) && ExamById(s.exams, c.examId) == Some(e)
  }

  /** What the gate asks of the store as it is before the call. */
  ghost predicate GatePasses(s: State, c: Candidate, e: Exam, now: int, timeout: int) {
    && e.status != ENDED && e.status != DELETED
    && e.startAt.Some? && e.endAt.Some? && e.startAt.value <= now < e.endAt.value
    && c.status != INVITED
    && CheckOf(s.checks, c.id).Some? && CheckOf(s.checks, c.id).value.requiredPassed
    && (e.identityVerificationEnabled ==>
        VerificationOf(s.verifications, c.id).Some? && VerificationOf(s.verifications, c.id).value.verified)
    && (e.mobileCameraRequired ==> SomeFreshMobile(s.devices, c.id, now - timeout))
  }

  /** The workspace opens exactly if the gate passes on the state before the sweep. */
  lemma WorkspaceOpensExactlyIf(s: State, token: string, now: int, timeout: int, c: Candidate, e: Exam)
    requires Inv(s) && Invited(s, token, c, e)
    ensures var (t, r) := WorkspaceInvite(s, token, now, timeout);
      && (r.Ok? <==> GatePasses(s, c, e, now, timeout))
      && (r.Ok? ==> r.value.candidate == c && r.value.exam == e && t == Swept(s, e.id, now, timeout)
                    && r.value.questions == QuestionsOf(s.questions, e.id))
  {
    ByTokenIs(s.candidates, token);
    ByIdFinds(s.candidates, c);
    ExamByIdIs(s.exams, c.examId);
    ConnectedAfterSweepIsFresh(s, c.id, e.id, now, timeout);
  }

  lemma NotInvitedIsRefused(s: State, token: string, now: int, timeout: int)
    requires !exists c, e :: Invited(s, token, c, e)
    ensures WorkspaceInvite(s, token, now, timeout).1.Refused?
  {
    if CandidateByToken(s.candidates, token).Some?
      && ExamById(s.exams, CandidateByToken(s.candidates, token).value.examId).Some? {
      var c := CandidateByToken(s.candidates, token).value;
      assert Invited(s, token, c, ExamById(s.exams, c.examId).value);
    }
  }

  lemma {:induction false} QuestionFoundAgain(questions: seq<Question>, id: string, examId: string)
    ensures HasQuestion(QuestionsOf(questions, examId), id) <==> QuestionOf(questions, id, examId).Some?
  {
    if questions != [] {
      QuestionFoundAgain(questions[1..], id, examId);
      var rest, all := QuestionsOf(questions[1..], examId), QuestionsOf(questions, examId);
      if questions[0].examId == examId {
        assert all == [questions[0]] + rest;
        if HasQuestion(rest, id) {
          var k :| 0 <= k < |rest| && rest[k].id == id;
          assert all[k + 1].id == id;
        }
        if questions[0].id == id {
          assert all[0].id == id;
        }
      }
    }
  }

  /** The proctor has not stopped the exam, and a full second remains. */
  ghost predicate StillOpen(s: State, c: Candidate, e: Exam, now: int) {
    && (E.LatestBlocking(s.actions, c.id).Some? ==> E.LatestBlocking(s.actions, c.id).value.kind == E.RESUME_EXAM)
    && now + 1000 <= E.EndOf(s.sessions, c.id, e.id, e.durationMinutes, now)
  }

  predicate IsJavaScript(language: string) { language == "javascript" || language == "js" }

  predicate IsPython(language: string) { language == "python" || language == "py" }

  /** The language is one that runs, and the exam has it, under either of its names. */
  ghost predicate CanRun(e: Exam, language: string) {
    || (IsJavaScript(language) && exists k :: 0 <= k < |e.languages| && IsJavaScript(e.languages[k]))
    || (IsPython(language) && exists k :: 0 <= k < |e.languages| && IsPython(e.languages[k]))
  }

  lemma LanguageRefusedExactlyIf(e: Exam, language: string)
    ensures LanguageRefusal(e, language) == None <==> CanRun(e, language)
    ensures LanguageRefusal(e, language) == Some(LanguageNotSupported)
        <==> !IsJavaScript(language) && !IsPython(language)
  {
    forall k | 0 <= k < |e.languages|
      ensures Normalized(e.languages[k]) == "javascript" <==> IsJavaScript(e.languages[k])
      ensures Normalized(e.languages[k]) == "python" <==> IsPython(e.languages[k])
    {
    }
  }

  /** A draft or run is admitted exactly if the gate passes, the question is one of
      the exam, the language can run and the session is open; the state afterwards has
      nothing new but the sweep and the session. */
  lemma AdmittedExactlyIf(s: State, token: string, questionId: string, language: Option<string>, now: int, timeout: int,
                          c: Candidate, e: Exam)
    requires Inv(s) && Invited(s, token, c, e)
    ensures var (t, r) := Admit(s, token, questionId, language, now, timeout);
      && (r.Ok? <==>
            && GatePasses(s, c, e, now, timeout)
            && QuestionOf(s.questions, questionId, e.id).Some?
            && (language.Some? ==> CanRun(e, language.value))
            && StillOpen(s, c, e, now))
      && (r.Ok? ==>
            && r.value.candidate == c && r.value.exam == e
            && t == Swept(s, e.id, now, timeout).(
                      sessions := E.Ensure(s.sessions, c.id, e.id, e.durationMinutes, now, s.nextId).2,
                      nextId := s.nextId + 1))
  {
    WorkspaceOpensExactlyIf(s, token, now, timeout, c, e);
    QuestionFoundAgain(s.questions, questionId, e.id);
    if language.Some? {
      LanguageRefusedExactlyIf(e, language.value);
    }
    E.OpenExactlyIf(s.actions, s.sessions, c.id, e.id, e.durationMinutes, now, s.nextId);
  }

  /** A submission is accepted exactly if it is admitted and, for a coding question,
      the language can run and the runner does not turn it away: the question is never
      missing the second time. */
  lemma SubmittedExactlyIf(s: State, token: string, questionId: string, language: string, code: string,
                           judged: Option<J.Verdict>,
                           matches: bool, now: int, timeout: int, c: Candidate, e: Exam)
    requires Inv(s) && Invited(s, token, c, e)
    ensures Submit(s, token, questionId, language, code, judged, matches, now, timeout).1.Ok?
       <==> && Admit(s, token, questionId, None, now, timeout).1.Ok?
            && (QuestionOf(s.questions, questionId, e.id).Some?
                && (QuestionOf(s.questions, questionId, e.id).value.kind == CODING ==>
                      CanRun(e, language) && judged.Some?))
  {
    LanguageRefusedExactlyIf(e, language);
    AdmittedExactlyIf(s, token, questionId, None, now, timeout, c, e);
  }
}
