/** Accepting an organization's invitation: the invitation is read first, then accepted
    in a transaction of guarded updates, with anything else in between. */
module OrganizationInvitations {
  import opened Wrappers

  datatype Role = ADMIN | ORGANIZATION | PROCTOR | CANDIDATE

  datatype User = User(organizationId: Option<string>, role: Role)

  datatype Status = PENDING | ACCEPTED | CANCELLED

  datatype Invitation = Invitation(
    organizationId: string, invitedUserId: string, requestedRole: Role, status: Status, acceptedAt: Option<int>)

  /** An accept that has read its invitation and not yet begun its transaction. */
  datatype Attempt = Attempt(userId: string, invitationId: string, seen: Invitation)

  datatype Refusal = NotFound | NotYours | AlreadyProcessed | AlreadyInAnOrganization

  /** The rows, the accepts under way, the invitation ids ever issued and, for history,
      the invitations accepted so far with who accepted them. */
  datatype State = State(
    users: map<string, User>, invitations: map<string, Invitation>, attempts: map<nat, Attempt>,
    issued: set<string>, accepted: seq<(string, string)>)

  // ------------------------------------------------------------------------
  // Accepting
  // ------------------------------------------------------------------------

  /** The part of `acceptInvitation` before the transaction. */
  function ReadRefusal(invitations: map<string, Invitation>, userId: string, invitationId: string): Option<Refusal> {
    if invitationId !in invitations then Some(NotFound)
    else if invitations[invitationId].invitedUserId != userId then Some(NotYours)
    else if invitations[invitationId].status != PENDING then Some(AlreadyProcessed)
    else None
  }

  predicate Unaffiliated(users: map<string, User>, userId: string) {
    userId in users && users[userId].organizationId == None
  }

  predicate StillPending(invitations: map<string, Invitation>, userId: string, invitationId: string) {
    && invitationId in invitations && invitations[invitationId].invitedUserId == userId
    && invitations[invitationId].status == PENDING
  }

  /** What the transaction answers; its guards read the rows as they are then. */
  function CommitRefusal(users: map<string, User>, invitations: map<string, Invitation>, a: Attempt): Option<Refusal> {
    if !Unaffiliated(users, a.userId) then Some(AlreadyInAnOrganization)
    else if !StillPending(invitations, a.userId, a.invitationId) then Some(AlreadyProcessed)
    else None
  }

  function Joined(users: map<string, User>, a: Attempt): map<string, User> {
    users[a.userId := User(Some(a.seen.organizationId), a.seen.requestedRole)]
  }

  function MarkedAccepted(invitations: map<string, Invitation>, id: string, now: int): map<string, Invitation>
    requires id in invitations
  {
    invitations[id := invitations[id].(status := ACCEPTED, acceptedAt := Some(now))]
  }

  function Committed(s: State, attempt: nat, now: int): State
    requires attempt in s.attempts
  {
    var a := s.attempts[attempt];
    var t := s.(attempts := s.attempts - {attempt});
    if CommitRefusal(s.users, s.invitations, a).Some? then t
    else t.(users := Joined(s.users, a), invitations := MarkedAccepted(s.invitations, a.invitationId, now),
            accepted := s.accepted + [(a.userId, a.invitationId)])
  }

  // ------------------------------------------------------------------------
  // Runs
  // ------------------------------------------------------------------------

  datatype Step =
    | Read(attempt: nat, userId: string, invitationId: string)
    | Commit(attempt: nat, now: int)
    | Invite(invitationId: string, organizationId: string, invitedUserId: string, requestedRole: Role)
    | AddUser(userId: string, user: User)
    | Assign(userId: string, affiliation: Option<string>, role: Role)
    | DeleteUser(userId: string, sent: set<string>)

  /** Reads, commits, new invitations (to any user, since what is checked before one is
      issued may have changed by then) and users, other writes of a user's organization
      (`None` when the organization is deleted), and the deletion of a user with the
      invitations they received and sent. */
  function Next(s: State, step: Step): State {
    match step
    case Read(attempt, userId, invitationId) =>
      if attempt in s.attempts || ReadRefusal(s.invitations, userId, invitationId).Some? then s
      else s.(attempts := s.attempts[attempt := Attempt(userId, invitationId, s.invitations[invitationId])])
    case Commit(attempt, now) => if attempt in s.attempts then Committed(s, attempt, now) else s
    case Invite(id, organizationId, userId, role) =>
      if id in s.issued || userId !in s.users then s
      else
        s.(invitations := s.invitations[id := Invitation(organizationId, userId, role, PENDING, None)],
           issued := s.issued + {id})
    case AddUser(userId, user) => if userId in s.users then s else s.(users := s.users[userId := user])
    case Assign(userId, affiliation, role) =>
      if userId !in s.users then s else s.(users := s.users[userId := User(affiliation, role)])
    case DeleteUser(userId, sent) =>
      s.(users := s.users - {userId},
         invitations := map id | id in s.invitations && s.invitations[id].invitedUserId != userId && id !in sent ::
           s.invitations[id])
  }

  const EMPTY := State(map[], map[], map[], {}, [])

  function Exec(s: State, steps: seq<Step>): State
    decreases steps
  {
    if steps == [] then s else Exec(Next(s, steps[0]), steps[1..])
  }

  // ------------------------------------------------------------------------
  // Invariant
  // ------------------------------------------------------------------------

  predicate SameOffer(i: Invitation, j: Invitation) {
    i.organizationId == j.organizationId && i.invitedUserId == j.invitedUserId && i.requestedRole == j.requestedRole
  }

  /** What an accept has read is still what the invitation offers, if it is there. */
  ghost predicate ReadsAgree(s: State) {
    forall n :: n in s.attempts ==>
      && s.attempts[n].invitationId in s.issued
      && s.attempts[n].seen.invitedUserId == s.attempts[n].userId
      && (s.attempts[n].invitationId in s.invitations ==>
          SameOffer(s.invitations[s.attempts[n].invitationId], s.attempts[n].seen))
  }

  /** An accepted invitation is not pending any more, and none was accepted twice. */
  ghost predicate AcceptedOnce(s: State) {
    && (forall k :: 0 <= k < |s.accepted| ==>
          && s.accepted[k].1 in s.issued
          && (s.accepted[k].1 in s.invitations ==> s.invitations[s.accepted[k].1].status == ACCEPTED))
    && (forall j, k :: 0 <= j < k < |s.accepted| ==> s.accepted[j].1 != s.accepted[k].1)
  }

  ghost predicate Inv(s: State) {
    && s.invitations.Keys <= s.issued
    && ReadsAgree(s)
    && AcceptedOnce(s)
  }

  lemma CommitKeepsInv(s: State, attempt: nat, now: int)
    requires Inv(s) && attempt in s.attempts
    ensures Inv(Committed(s, attempt, now))
  {
  }

  lemma StepKeepsInv(s: State, step: Step)
    requires Inv(s)
    ensures Inv(Next(s, step))
  {
    if step.Commit? && step.attempt in s.attempts {
      CommitKeepsInv(s, step.attempt, step.now);
    }
  }

  lemma {:induction false} RunKeepsInv(s: State, steps: seq<Step>)
    requires Inv(s)
    ensures Inv(Exec(s, steps))
    decreases steps
  {
    if steps != [] {
      StepKeepsInv(s, steps[0]);
      RunKeepsInv(Next(s, steps[0]), steps[1..]);
    }
  }

  // ------------------------------------------------------------------------
  // Main results
  // ------------------------------------------------------------------------

  /** On every run and however stale the read: a transaction commits exactly if the
      user is in no organization and the invitation is still theirs and pending when it
      runs; it then gives the user the organization and role the invitation offers and
      marks it accepted, together, and touches no other row.  Otherwise no row changes. */
  lemma CommitsAllOrNothing(steps: seq<Step>, attempt: nat, now: int)
    requires attempt in Exec(EMPTY, steps).attempts
    ensures var s := Exec(EMPTY, steps); var a := s.attempts[attempt]; var t := Next(s, Commit(attempt, now));
      if && a.userId in s.users && s.users[a.userId].organizationId == None
         && a.invitationId in s.invitations && s.invitations[a.invitationId].invitedUserId == a.userId
         && s.invitations[a.invitationId].status == PENDING
      then
        && CommitRefusal(s.users, s.invitations, a) == None
        && t.users == s.users[a.userId := User(Some(s.invitations[a.invitationId].organizationId),
                                                s.invitations[a.invitationId].requestedRole)]
        && t.invitations
           == s.invitations[a.invitationId :=
                              s.invitations[a.invitationId].(status := ACCEPTED, acceptedAt := Some(now))]
        && t.accepted == s.accepted + [(a.userId, a.invitationId)]
      else
        && CommitRefusal(s.users, s.invitations, a)
           == Some(if a.userId in s.users && s.users[a.userId].organizationId == None then AlreadyProcessed
                   else AlreadyInAnOrganization)
        && t.users == s.users && t.invitations == s.invitations && t.accepted == s.accepted
  {
    RunKeepsInv(EMPTY, steps);
  }

  /** An accept is begun exactly on an invitation that is there, theirs and pending, and
      keeps what it read; otherwise the first of these that fails is the answer. */
  lemma ReadsExactlyTheirPending(s: State, attempt: nat, userId: string, invitationId: string)
    requires attempt !in s.attempts
    ensures var t := Next(s, Read(attempt, userId, invitationId));
      var refusal := ReadRefusal(s.invitations, userId, invitationId);
      if invitationId !in s.invitations then refusal == Some(NotFound) && t == s
      else
        var i := s.invitations[invitationId];
        if i.invitedUserId == userId && i.status == PENDING
        then refusal == None && t == s.(attempts := s.attempts[attempt := Attempt(userId, invitationId, i)])
        else refusal == Some(if i.invitedUserId != userId then NotYours else AlreadyProcessed) && t == s
  {
  }

  /** No invitation is ever accepted twice. */
  lemma NoInvitationIsAcceptedTwice(steps: seq<Step>, j: nat, k: nat)
    requires j < k < |Exec(EMPTY, steps).accepted|
    ensures Exec(EMPTY, steps).accepted[j].1 != Exec(EMPTY, steps).accepted[k].1
  {
    RunKeepsInv(EMPTY, steps);
  }

  /** A deleted user is gone, with every invitation they received or sent; nothing else is. */
  lemma DeletionTakesTheirInvitations(s: State, userId: string, sent: set<string>)
    ensures var t := Next(s, DeleteUser(userId, sent));
      && t.users == s.users - {userId} && t.attempts == s.attempts && t.accepted == s.accepted
      && (forall id :: id in t.invitations <==>
            id in s.invitations && s.invitations[id].invitedUserId != userId && id !in sent)
      && (forall id :: id in t.invitations ==> t.invitations[id] == s.invitations[id])
  {
  }

  predicate Affiliated(s: State, userId: string) {
    userId in s.users && s.users[userId].organizationId.Some?
  }

  /** The step commits an accept by this user. */
  predicate Accepts(s: State, step: Step, userId: string) {
    && step.Commit? && step.attempt in s.attempts && s.attempts[step.attempt].userId == userId
    && CommitRefusal(s.users, s.invitations, s.attempts[step.attempt]) == None
  }

  /** The step takes the user out of their organization. */
  predicate Clears(step: Step, userId: string) {
    || (step.Assign? && step.userId == userId && step.affiliation == None)
    || (step.DeleteUser? && step.userId == userId)
  }

  function CountAccepts(s: State, steps: seq<Step>, userId: string): nat
    decreases steps
  {
    if steps == [] then 0
    else (if Accepts(s, steps[0], userId) then 1 else 0) + CountAccepts(Next(s, steps[0]), steps[1..], userId)
  }

  function CountClears(steps: seq<Step>, userId: string): nat {
    if steps == [] then 0 else (if Clears(steps[0], userId) then 1 else 0) + CountClears(steps[1..], userId)
  }

  lemma StaysAffiliated(s: State, step: Step, userId: string)
    requires !Clears(step, userId)
    ensures Affiliated(s, userId) ==> Affiliated(Next(s, step), userId) && !Accepts(s, step, userId)
    ensures Accepts(s, step, userId) ==> Affiliated(Next(s, step), userId)
  {
  }

  /** Whatever accepts interleave, a user joins by invitation at most once for each time
      they are without an organization. */
  lemma {:induction false} AtMostOnePerPeriodWithout(s: State, steps: seq<Step>, userId: string)
    ensures CountAccepts(s, steps, userId) <= CountClears(steps, userId) + if Affiliated(s, userId) then 0 else 1
    decreases steps
  {
    if steps != [] {
      AtMostOnePerPeriodWithout(Next(s, steps[0]), steps[1..], userId);
      if !Clears(steps[0], userId) {
        StaysAffiliated(s, steps[0], userId);
      }
    }
  }

  // ------------------------------------------------------------------------
  // The transaction
  // ------------------------------------------------------------------------

  class Database {
    var users: map<string, User>
    var invitations: map<string, Invitation>

    /** `user.updateMany` with the guard that the user is in no organization. */
    method JoinIfUnaffiliated(userId: string, organizationId: string, role: Role) returns (count: nat)
      modifies this`users
      ensures count == if Unaffiliated(old(users), userId) then 1 else 0
      ensures users == if count == 1 then old(users)[userId := User(Some(organizationId), role)] else old(users)
    {
      if userId !in users || users[userId].organizationId.Some? {
        return 0;
      }
      users := users[userId := User(Some(organizationId), role)];
      return 1;
    }

    /** `organizationInvitation.updateMany` with the guard that it is pending. */
    method MarkIfPending(invitationId: string, userId: string, now: int) returns (count: nat)
      modifies this`invitations
      ensures count == if StillPending(old(invitations), userId, invitationId) then 1 else 0
      ensures invitations == if count == 1 then MarkedAccepted(old(invitations), invitationId, now)
              else old(invitations)
    {
      if !StillPending(invitations, userId, invitationId) {
        return 0;
      }
      invitations := invitations[invitationId :=
                                 invitations[invitationId].(status := ACCEPTED, acceptedAt := Some(now))];
      return 1;
    }

    /** The transaction of `acceptInvitation`; a refusal in its midst rolls it back. */
    method AcceptTransaction(a: Attempt, now: int) returns (refusal: Option<Refusal>)
      modifies this
      ensures refusal == CommitRefusal(old(users), old(invitations), a)
      ensures refusal == None <==>
              && a.userId in old(users) && old(users)[a.userId].organizationId == None
              && a.invitationId in old(invitations)
              && old(invitations)[a.invitationId].invitedUserId == a.userId
              && old(invitations)[a.invitationId].status == PENDING
      ensures refusal == None ==>
                users == Joined(old(users), a) && a.invitationId in old(invitations)
                && invitations == MarkedAccepted(old(invitations), a.invitationId, now)
      ensures refusal != None ==> users == old(users) && invitations == old(invitations)
    {
      var usersBefore := users;
      var joined := JoinIfUnaffiliated(a.userId, a.seen.organizationId, a.seen.requestedRole);
      if joined != 1 {
        return Some(AlreadyInAnOrganization);
      }
      var marked := MarkIfPending(a.invitationId, a.userId, now);
      if marked != 1 {
        users := usersBefore;
        return Some(AlreadyProcessed);
      }
      return None;
    }
  }
}
