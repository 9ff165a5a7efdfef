/** The clock of a candidate's exam: the proctor's pause, resume and terminate
    actions, and the session with its fixed end. */
module ExamSessions {
  import opened Wrappers

  datatype ActionKind = WARNING_MESSAGE | PAUSE_EXAM | RESUME_EXAM | TERMINATE_EXAM | MEMO

  datatype Action = Action(candidateId: string, examId: string, kind: ActionKind, message: string, createdAt: int)

  // ------------------------------------------------------------------------
  // The latest blocking action
  // ------------------------------------------------------------------------

  predicate IsBlocking(a: Action, candidateId: string) {
    a.candidateId == candidateId && (a.kind == PAUSE_EXAM || a.kind == RESUME_EXAM || a.kind == TERMINATE_EXAM)
  }

  function Blocking(actions: seq<Action>, candidateId: string): seq<Action> {
    if actions == [] then []
    else if IsBlocking(actions[0], candidateId) then [actions[0]] + Blocking(actions[1..], candidateId)
    else Blocking(actions[1..], candidateId)
  }

  /** An action goes in front of those no newer than it, so ties keep their order. */
  function Insert(a: Action, sorted: seq<Action>): seq<Action> {
    if sorted == [] || a.createdAt >= sorted[0].createdAt then [a] + sorted
    else [sorted[0]] + Insert(a, sorted[1..])
  }

  /** The stable sort, newest first. */
  function NewestFirst(actions: seq<Action>): seq<Action> {
    if actions == [] then [] else Insert(actions[0], NewestFirst(actions[1..]))
  }

  function LatestBlocking(actions: seq<Action>, candidateId: string): Option<Action> {
    var sorted := NewestFirst(Blocking(actions, candidateId));
    if sorted == [] then None else Some(sorted[0])
  }

  ghost predicate IsNewestFirst(actions: seq<Action>) {
    forall i, j :: 0 <= i < j < |actions| ==> actions[i].createdAt >= actions[j].createdAt
  }

  function At(actions: seq<Action>, time: int): seq<Action> {
    if actions == [] then []
    else if actions[0].createdAt == time then [actions[0]] + At(actions[1..], time)
    else At(actions[1..], time)
  }

  lemma {:induction false} InsertKeepsActions(a: Action, sorted: seq<Action>)
    ensures multiset(Insert(a, sorted)) == multiset{a} + multiset(sorted)
  {
    if sorted != [] && a.createdAt < sorted[0].createdAt {
      InsertKeepsActions(a, sorted[1..]);
      assert sorted == [sorted[0]] + sorted[1..];
    }
  }

  lemma {:induction false} InsertSorts(a: Action, sorted: seq<Action>)
    requires IsNewestFirst(sorted)
    ensures IsNewestFirst(Insert(a, sorted))
  {
    if sorted != [] && a.createdAt < sorted[0].createdAt {
      InsertSorts(a, sorted[1..]);
      InsertKeepsActions(a, sorted[1..]);
      var rest := Insert(a, sorted[1..]);
      forall j | 0 <= j < |rest|
        ensures sorted[0].createdAt >= rest[j].createdAt
      {
        assert rest[j] in multiset(rest);
      }
    }
  }

  lemma {:induction false} InsertKeepsTies(a: Action, sorted: seq<Action>, time: int)
    ensures At(Insert(a, sorted), time) == if a.createdAt == time then [a] + At(sorted, time) else At(sorted, time)
  {
    if sorted != [] && a.createdAt < sorted[0].createdAt {
      InsertKeepsTies(a, sorted[1..], time);
    }
  }

  /** What a stable sort is: ordered, the same actions, and equally old ones in the
      order they had. */
  lemma {:induction false} NewestFirstIsAStableSort(actions: seq<Action>, time: int)
    ensures IsNewestFirst(NewestFirst(actions))
    ensures multiset(NewestFirst(actions)) == multiset(actions)
    ensures At(NewestFirst(actions), time) == At(actions, time)
  {
    if actions != [] {
      NewestFirstIsAStableSort(actions[1..], time);
      InsertSorts(actions[0], NewestFirst(actions[1..]));
      InsertKeepsActions(actions[0], NewestFirst(actions[1..]));
      InsertKeepsTies(actions[0], NewestFirst(actions[1..]), time);
      assert actions == [actions[0]] + actions[1..];
    }
  }

  /** Sorting a log that is already newest first leaves it as it is. */
  lemma {:induction false} SortedStays(actions: seq<Action>)
    requires IsNewestFirst(actions)
    ensures NewestFirst(actions) == actions
  {
    if actions != [] {
      SortedStays(actions[1..]);
      assert actions == [actions[0]] + actions[1..];
    }
  }

  lemma {:induction false} BlockingIsNewestFirst(actions: seq<Action>, candidateId: string)
    requires IsNewestFirst(actions)
    ensures IsNewestFirst(Blocking(actions, candidateId))
    ensures forall b :: b in Blocking(actions, candidateId) ==> b in actions
  {
    if actions != [] {
      BlockingIsNewestFirst(actions[1..], candidateId);
      var rest := Blocking(actions[1..], candidateId);
      forall j | 0 <= j < |rest|
        ensures actions[0].createdAt >= rest[j].createdAt
      {
        assert rest[j] in rest;
        var k :| 0 <= k < |actions[1..]| && actions[1..][k] == rest[j];
        assert actions[k + 1] == rest[j];
      }
    }
  }

  /** In a log kept newest first, the latest blocking action is the first one. */
  lemma LatestIsFirst(actions: seq<Action>, candidateId: string)
    requires IsNewestFirst(actions)
    ensures LatestBlocking(actions, candidateId)
         == if Blocking(actions, candidateId) == [] then None else Some(Blocking(actions, candidateId)[0])
  {
    BlockingIsNewestFirst(actions, candidateId);
    SortedStays(Blocking(actions, candidateId));
  }

  /** Prepending an action that is no older than the log makes it the latest one, if
      it is a blocking action of the candidate; otherwise nothing changes for them. */
  lemma PrependedIsLatest(a: Action, actions: seq<Action>, candidateId: string)
    requires IsNewestFirst([a] + actions)
    ensures LatestBlocking([a] + actions, candidateId)
         == if IsBlocking(a, candidateId) then Some(a) else LatestBlocking(actions, candidateId)
  {
    assert ([a] + actions)[1..] == actions;
    assert IsNewestFirst(actions) by {
      forall i, j | 0 <= i < j < |actions|
        ensures actions[i].createdAt >= actions[j].createdAt
      {
        assert ([a] + actions)[i + 1].createdAt >= ([a] + actions)[j + 1].createdAt;
      }
    }
    LatestIsFirst([a] + actions, candidateId);
    LatestIsFirst(actions, candidateId);
  }

  // ------------------------------------------------------------------------
  // Sessions
  // ------------------------------------------------------------------------

  datatype Session = Session(id: nat, candidateId: string, examId: string, startedAt: int, endsAt: int)

  datatype Refusal = Terminated | Paused | TimeExpired

  function Find(sessions: seq<Session>, candidateId: string, examId: string): Option<Session> {
    if sessions == [] then None
    else if sessions[0].candidateId == candidateId && sessions[0].examId == examId then Some(sessions[0])
    else Find(sessions[1..], candidateId, examId)
  }

  function RemainingSeconds(endsAt: int, now: int): int {
    var seconds := (endsAt - now) / 1000;
    if seconds < 0 then 0 else seconds
  }

  function NewSession(candidateId: string, examId: string, durationMinutes: int, now: int, freshId: nat): Session {
    Session(freshId, candidateId, examId, now, now + durationMinutes * 60 * 1000)
  }

  /** The session of the candidate, what remains of it, and the sessions afterwards. */
  function Ensure(sessions: seq<Session>, candidateId: string, examId: string, durationMinutes: int, now: int,
                  freshId: nat)
    : (Session, int, seq<Session>)
  {
    match Find(sessions, candidateId, examId)
    case Some(existing) => (existing, RemainingSeconds(existing.endsAt, now), sessions)
    case None =>
      var session := NewSession(candidateId, examId, durationMinutes, now, freshId);
      (session, durationMinutes * 60, [session] + sessions)
  }

  function AssertOpen(actions: seq<Action>, sessions: seq<Session>, candidateId: string, examId: string,
                      durationMinutes: int, now: int, freshId: nat): Option<Refusal>
  {
    var remaining := Ensure(sessions, candidateId, examId, durationMinutes, now, freshId).1;
    match LatestBlocking(actions, candidateId)
    case Some(Action(_, _, TERMINATE_EXAM, _, _)) => Some(Terminated)
    case Some(Action(_, _, PAUSE_EXAM, _, _)) => Some(Paused)
    case _ => if remaining <= 0 then Some(TimeExpired) else None
  }

  ghost predicate AtMostOnePerExam(sessions: seq<Session>) {
    forall i, j :: 0 <= i < j < |sessions| ==>
      !(sessions[i].candidateId == sessions[j].candidateId && sessions[i].examId == sessions[j].examId)
  }

  lemma {:induction false} FindIs(sessions: seq<Session>, candidateId: string, examId: string)
    ensures match Find(sessions, candidateId, examId)
      case Some(x) => x in sessions && x.candidateId == candidateId && x.examId == examId
      case None => forall x :: x in sessions ==> !(x.candidateId == candidateId && x.examId == examId)
  {
    if sessions != [] {
      FindIs(sessions[1..], candidateId, examId);
    }
  }

  /** When the session ends: as recorded, or the exam's duration from now if it begins now. */
  ghost function EndOf(sessions: seq<Session>, candidateId: string, examId: string, durationMinutes: int,
                       now: int): int {
    match Find(sessions, candidateId, examId) case Some(x) => x.endsAt case None => now + durationMinutes * 60_000
  }

  /** A session begins now, for the exam's duration, exactly if there is none. */
  lemma SessionBeginsOnce(sessions: seq<Session>, candidateId: string, examId: string, durationMinutes: int, now: int,
                          freshId: nat)
    ensures var (session, remaining, after) := Ensure(sessions, candidateId, examId, durationMinutes, now, freshId);
      && session.candidateId == candidateId && session.examId == examId
      && session.endsAt == EndOf(sessions, candidateId, examId, durationMinutes, now)
      && after == (if Find(sessions, candidateId, examId) == None then [session] + sessions else sessions)
      && (Find(sessions, candidateId, examId) == None ==> session.startedAt == now)
      && (remaining > 0 <==> now + 1000 <= session.endsAt)
      && (remaining >= 0 || durationMinutes < 0)
      && (remaining > 0 ==> 1000 * remaining <= session.endsAt - now < 1000 * (remaining + 1))
  {
    FindIs(sessions, candidateId, examId);
  }

  /** The exam is open exactly if the latest blocking action does not stop it and at
      least a full second remains, whether the session is there already or begins now. */
  lemma OpenExactlyIf(actions: seq<Action>, sessions: seq<Session>, candidateId: string, examId: string,
                      durationMinutes: int, now: int, freshId: nat)
    ensures AssertOpen(actions, sessions, candidateId, examId, durationMinutes, now, freshId) == None
       <==> (LatestBlocking(actions, candidateId).Some? ==>
             LatestBlocking(actions, candidateId).value.kind == RESUME_EXAM)
            && now + 1000 <= EndOf(sessions, candidateId, examId, durationMinutes, now)
    ensures AssertOpen(actions, sessions, candidateId, examId, durationMinutes, now, freshId) == Some(Terminated)
       <==> && LatestBlocking(actions, candidateId).Some?
            && LatestBlocking(actions, candidateId).value.kind == TERMINATE_EXAM
    ensures AssertOpen(actions, sessions, candidateId, examId, durationMinutes, now, freshId) == Some(Paused)
       <==> && LatestBlocking(actions, candidateId).Some?
            && LatestBlocking(actions, candidateId).value.kind == PAUSE_EXAM
  {
    LatestBlocks(actions, candidateId);
    SessionBeginsOnce(sessions, candidateId, examId, durationMinutes, now, freshId);
  }

  lemma {:induction false} BlockingBlocks(actions: seq<Action>, candidateId: string)
    ensures forall b :: b in Blocking(actions, candidateId) ==> IsBlocking(b, candidateId)
  {
    if actions != [] {
      BlockingBlocks(actions[1..], candidateId);
    }
  }

  lemma LatestBlocks(actions: seq<Action>, candidateId: string)
    ensures LatestBlocking(actions, candidateId).Some? ==>
            IsBlocking(LatestBlocking(actions, candidateId).value, candidateId)
  {
    var blocking := Blocking(actions, candidateId);
    NewestFirstIsAStableSort(blocking, 0);
    BlockingBlocks(actions, candidateId);
    if NewestFirst(blocking) != [] {
      assert NewestFirst(blocking)[0] in multiset(NewestFirst(blocking));
    }
  }

  /** A session once there is found unchanged. */
  lemma EnsureKeepsFound(sessions: seq<Session>, candidateId: string, examId: string, durationMinutes: int,
                         now: int, freshId: nat, candidateId': string, examId': string)
    ensures Find(sessions, candidateId', examId').Some? ==>
              Find(Ensure(sessions, candidateId, examId, durationMinutes, now, freshId).2, candidateId', examId')
                == Find(sessions, candidateId', examId')
  {
    var (session, _, after) := Ensure(sessions, candidateId, examId, durationMinutes, now, freshId);
    if Find(sessions, candidateId, examId) == None {
      assert after[1..] == sessions;
    }
  }

  /** There stays at most one session for a candidate and an exam. */
  lemma EnsureKeepsSessions(sessions: seq<Session>, candidateId: string, examId: string, durationMinutes: int, now: int,
                            freshId: nat)
    requires AtMostOnePerExam(sessions)
    ensures var (session, _, after) := Ensure(sessions, candidateId, examId, durationMinutes, now, freshId);
      AtMostOnePerExam(after) && Find(after, candidateId, examId) == Some(session)
  {
    FindIs(sessions, candidateId, examId);
    var (session, _, after) := Ensure(sessions, candidateId, examId, durationMinutes, now, freshId);
    if Find(sessions, candidateId, examId) == None {
      assert after[1..] == sessions;
      forall j | 0 <= j < |sessions|
        ensures !(sessions[j].candidateId == candidateId && sessions[j].examId == examId)
      {
        assert sessions[j] in sessions;
      }
    }
  }
}
