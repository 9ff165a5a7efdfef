/** The session registry over mutable fields, wired to the proctor gateway: every
    revoked session disconnects the admin sockets that were opened with it. */
module AuthSessions {
  import opened Integers
  import opened Wrappers
  import opened SessionRegistry
  import opened SessionExpiry
  import D = ProctorDevices
  import G = ProctorGateway

  // ------------------------------------------------------------------------
  // Registry and gateway together
  // ------------------------------------------------------------------------

  datatype System = System(registry: State, gateway: G.State)

  /** What the database says about the account of a session. */
  datatype Account = Active | Missing | PasswordStale

  datatype Event =
    | Registry(step: Step)
    | Connect(client: nat)
    | JoinAdmin(client: nat, token: string, examId: string, account: Account, allowed: bool, now: int)
    | JoinCandidate(client: nat, examId: string, candidateId: string, deviceRole: D.Role)
    | Relay(client: nat, examId: string, candidateId: string, deviceRole: D.Role, account: Account, now: int)
    | Leave(client: nat)

  /** `requireActiveSession`: the registry afterwards, and whether the session is accepted. */
  ghost function RequireActive(s: State, ttl: Ttl, token: string, account: Account, now: int): (r: (State, bool))
    requires Linked(s)
    ensures Linked(r.0)
    ensures r.1 ==> token in r.0.sessions && s.sessions.Keys <= r.0.sessions.Keys
  {
    var got := Got(s, ttl, token, now);
    match GetResult(s.sessions, ttl, token, now)
    case None => (got, false)
    case Some(session) =>
      match account
      case Missing => (Deleted(got, session.token), false)
      case PasswordStale => (WasSet(got, ttl, session.(passwordChangeRequired := true), now), false)
      case Active => (got, !session.passwordChangeRequired)
  }

  /** The sessions that are no longer stored have been revoked to the gateway. */
  ghost function FanOut(s: System, registry: State): System {
    System(registry, G.Disconnected(s.gateway, s.registry.sessions.Keys - registry.sessions.Keys))
  }

  /** `assertCanRelay`: an admin's message has the session looked up again. */
  ghost function Relayed(s: System, ttl: Ttl, client: nat, examId: string, candidateId: string, deviceRole: D.Role,
                         account: Account, now: int): (r: (System, bool))
    requires Linked(s.registry) && client in s.gateway.sockets
    ensures Linked(r.0.registry)
  {
    var socket := s.gateway.sockets[client];
    if socket.role == Some(G.ADMIN) && socket.examId == Some(examId) then
      match socket.adminToken
      case None => (s, false)
      case Some(token) =>
        var (registry, ok) := RequireActive(s.registry, ttl, token, account, now);
        (FanOut(s, registry), ok)
    else (s, G.CanRelay(socket, examId, candidateId, deviceRole, false))
  }

  ghost function After(s: System, ttl: Ttl, e: Event): (t: System)
    requires Linked(s.registry)
    ensures Linked(t.registry)
  {
    match e
    case Registry(step) =>
      NextLinked(s.registry, ttl, step);
      FanOut(s, Next(s.registry, ttl, step))
    case Connect(client) =>
      if client in s.gateway.sockets then s else s.(gateway := G.Connected(s.gateway, client))
    case JoinAdmin(client, token, examId, account, allowed, now) =>
      if client !in s.gateway.sockets || !s.gateway.sockets[client].connected || now < s.registry.clock then s
      else
        var (registry, ok) := RequireActive(s.registry, ttl, token, account, now);
        var t := FanOut(s, registry);
        if ok && allowed then t.(gateway := G.JoinedAdmin(t.gateway, client, token, examId)) else t
    case JoinCandidate(client, examId, candidateId, deviceRole) =>
      if client !in s.gateway.sockets then s
      else s.(gateway := G.JoinedCandidate(s.gateway, client, examId, candidateId, deviceRole))
    case Relay(client, examId, candidateId, deviceRole, account, now) =>
      if client !in s.gateway.sockets || now < s.registry.clock then s
      else Relayed(s, ttl, client, examId, candidateId, deviceRole, account, now).0
    case Leave(client) =>
      if client !in s.gateway.sockets then s else s.(gateway := G.Left(s.gateway, client))
  }

  ghost function Run(events: seq<Event>, ttl: Ttl): (s: System)
    ensures Linked(s.registry)
  {
    if events == [] then System(EMPTY, G.State(map[], map[]))
    else After(Run(events[..|events| - 1], ttl), ttl, events[|events| - 1])
  }

  ghost predicate Covered(s: System) {
    && G.IndexAgrees(s.gateway)
    && (forall t :: t in s.gateway.index ==> t in s.registry.sessions)
  }

  lemma FanOutCovers(s: System, registry: State)
    requires Covered(s)
    ensures Covered(FanOut(s, registry))
  {
    G.DisconnectKeepsIndex(s.gateway, s.registry.sessions.Keys - registry.sessions.Keys);
  }

  lemma ConnectKeepsIndex(s: G.State, client: nat)
    requires G.IndexAgrees(s) && client !in s.sockets
    ensures G.IndexAgrees(G.Connected(s, client))
  {
  }

  lemma JoinCovers(s: System, ttl: Ttl, client: nat, token: string, examId: string, account: Account, now: int)
    requires Linked(s.registry) && Covered(s)
    requires client in s.gateway.sockets && s.gateway.sockets[client].connected
    ensures var (registry, ok) := RequireActive(s.registry, ttl, token, account, now);
      ok ==> Covered(System(registry, G.JoinedAdmin(FanOut(s, registry).gateway, client, token, examId)))
  {
    var (registry, ok) := RequireActive(s.registry, ttl, token, account, now);
    if ok {
      NothingDisconnected(s.gateway);
      assert s.registry.sessions.Keys - registry.sessions.Keys == {};
      G.JoinAdminKeepsIndex(s.gateway, client, token, examId);
    }
  }

  lemma AfterCovers(s: System, ttl: Ttl, e: Event)
    requires Linked(s.registry) && Covered(s)
    ensures Covered(After(s, ttl, e))
  {
    match e
    case Registry(step) =>
      FanOutCovers(s, Next(s.registry, ttl, step));
    case Connect(client) =>
      if client !in s.gateway.sockets {
        ConnectKeepsIndex(s.gateway, client);
      }
    case JoinAdmin(client, token, examId, account, allowed, now) =>
      FanOutCovers(s, RequireActive(s.registry, ttl, token, account, now).0);
      if client in s.gateway.sockets && s.gateway.sockets[client].connected {
        JoinCovers(s, ttl, client, token, examId, account, now);
      }
    case JoinCandidate(client, examId, candidateId, deviceRole) =>
      if client in s.gateway.sockets {
        G.JoinCandidateKeepsIndex(s.gateway, client, examId, candidateId, deviceRole);
      }
    case Relay(client, examId, candidateId, deviceRole, account, now) =>
      if client in s.gateway.sockets && s.gateway.sockets[client].adminToken.Some? {
        FanOutCovers(s, RequireActive(s.registry, ttl, s.gateway.sockets[client].adminToken.value, account, now).0);
      }
    case Leave(client) =>
      if client in s.gateway.sockets {
        G.LeaveKeepsIndex(s.gateway, client);
      }
  }

  lemma {:induction false} RunCovers(events: seq<Event>, ttl: Ttl)
    ensures Covered(Run(events, ttl))
  {
    if events != [] {
      RunCovers(events[..|events| - 1], ttl);
      AfterCovers(Run(events[..|events| - 1], ttl), ttl, events[|events| - 1]);
    }
  }

  /** A connected socket that joined as an admin with this token. */
  predicate ConnectedWith(s: G.State, client: nat, token: string) {
    client in s.sockets && s.sockets[client].connected && s.sockets[client].adminToken == Some(token)
  }

  lemma CoversSocket(s: System, client: nat, token: string)
    requires Covered(s)
    ensures client in G.Tracked(s.gateway.index, token) <==> ConnectedWith(s.gateway, client, token)
    ensures ConnectedWith(s.gateway, client, token) ==> token in s.registry.sessions
  {
    assert client in G.Tracked(s.gateway.index, token) ==> token in s.gateway.index;
  }

  /** On every run of whole handler calls, a connected admin socket never outlives
      the session it was opened with, and the index agrees with the sockets. */
  lemma NoSocketOutlivesItsSession(events: seq<Event>, ttl: Ttl, client: nat, token: string)
    ensures var s := Run(events, ttl);
      && (client in G.Tracked(s.gateway.index, token) <==> ConnectedWith(s.gateway, client, token))
      && (ConnectedWith(s.gateway, client, token) ==> token in s.registry.sessions)
  {
    hide Run, Covered;
    RunCovers(events, ttl);
    CoversSocket(Run(events, ttl), client, token);
  }

  /** Revoking a user disconnects the admin sockets of exactly that user's sessions. */
  lemma RevokingAUserFansOut(events: seq<Event>, ttl: Ttl, userId: string, now: int, client: nat)
    requires Run(events, ttl).registry.clock <= now && client in Run(events, ttl).gateway.sockets
    ensures var s := Run(events, ttl); var t := After(s, ttl, Registry(RevokeUser(userId, now)));
      var socket := s.gateway.sockets[client];
      && client in t.gateway.sockets
      && t.gateway.sockets[client] ==
           if socket.adminToken.Some? && socket.adminToken.value in TokensOf(s.registry, userId)
           then socket.(connected := false) else socket
  {
    RunCovers(events, ttl);
    var s := Run(events, ttl);
    KeysGone(s.registry, TokensOf(s.registry, userId));
    G.RevocationFansOut(s.gateway, TokensOf(s.registry, userId), client);
  }

  /** Whatever ends a session, a registry call or its timer, disconnects the admin sockets
      of exactly the sessions that were stored before and are not after. */
  lemma EndedSessionsFanOut(events: seq<Event>, ttl: Ttl, step: Step, client: nat)
    requires client in Run(events, ttl).gateway.sockets
    ensures var s := Run(events, ttl); var t := After(s, ttl, Registry(step)); var socket := s.gateway.sockets[client];
      && client in t.gateway.sockets
      && t.gateway.sockets[client] ==
           if && socket.adminToken.Some? && socket.adminToken.value in s.registry.sessions
              && socket.adminToken.value !in t.registry.sessions
           then socket.(connected := false) else socket
  {
    hide Run, Next;
    RunCovers(events, ttl);
    var s := Run(events, ttl);
    G.RevocationFansOut(s.gateway, s.registry.sessions.Keys - Next(s.registry, ttl, step).sessions.Keys, client);
  }

  /** The session of the token is stored, neither of its clocks has run out, and the
      account may use it. */
  ghost predicate IsActive(s: State, ttl: Ttl, token: Option<string>, account: Account, now: int) {
    && token.Some? && token.value in s.sessions
    && !Expired(ttl, s.sessions[token.value], now)
    && account == Active && !s.sessions[token.value].session.passwordChangeRequired
  }

  /** A message is relayed exactly for an admin within the exam they joined, with an
      active session, or for a candidate speaking for the device they joined with. */
  lemma RelayedExactlyIf(s: System, ttl: Ttl, client: nat, examId: string, candidateId: string, deviceRole: D.Role,
                         account: Account, now: int)
    requires Linked(s.registry) && client in s.gateway.sockets
    ensures var socket := s.gateway.sockets[client];
      Relayed(s, ttl, client, examId, candidateId, deviceRole, account, now).1
      <==> || (&& socket.role == Some(G.ADMIN) && socket.examId == Some(examId)
               && IsActive(s.registry, ttl, socket.adminToken, account, now))
           || (&& socket.role == Some(G.CANDIDATE) && socket.examId == Some(examId)
               && socket.candidateId == Some(candidateId) && socket.deviceRole == Some(deviceRole))
  {
  }

  // What a socket may relay is what it joined as

  datatype Join =
    | AsAdmin(token: string, examId: string)
    | AsCandidate(examId: string, candidateId: string, deviceRole: D.Role)

  /** The event is a join of this socket that is accepted: a connected socket's with an
      active session that may proctor the exam, or a candidate's. */
  ghost function JoinBy(s: System, ttl: Ttl, e: Event, client: nat): Option<Join> {
    match e
    case JoinAdmin(c, token, examId, account, allowed, now) =>
      if && c == client && client in s.gateway.sockets && s.gateway.sockets[client].connected
         && s.registry.clock <= now && IsActive(s.registry, ttl, Some(token), account, now) && allowed
      then Some(AsAdmin(token, examId)) else None
    case JoinCandidate(c, examId, candidateId, deviceRole) =>
      if c == client && client in s.gateway.sockets then Some(AsCandidate(examId, candidateId, deviceRole)) else None
    case _ => None
  }

  ghost function LastJoin(events: seq<Event>, ttl: Ttl, client: nat): Option<Join> {
    if events == [] then None
    else
      var before := events[..|events| - 1];
      var join := JoinBy(Run(before, ttl), ttl, events[|events| - 1], client);
      if join.Some? then join else LastJoin(before, ttl, client)
  }

  /** The socket's data are those of this join. */
  ghost predicate HasJoined(s: G.State, client: nat, join: Option<Join>) {
    client in s.sockets ==>
      var socket := s.sockets[client];
      match join
      case None => socket.role == None
      case Some(AsAdmin(token, examId)) =>
        socket.role == Some(G.ADMIN) && socket.adminToken == Some(token) && socket.examId == Some(examId)
      case Some(AsCandidate(examId, candidateId, deviceRole)) =>
        && socket.role == Some(G.CANDIDATE) && socket.examId == Some(examId)
        && socket.candidateId == Some(candidateId) && socket.deviceRole == Some(deviceRole)
  }

  /** Whether a socket is there, and what it has joined as, but not whether it is connected. */
  ghost predicate SameButConnected(s: G.State, t: G.State, client: nat) {
    && (client in t.sockets <==> client in s.sockets)
    && (client in s.sockets ==> t.sockets[client].(connected := false) == s.sockets[client].(connected := false))
  }

  lemma RelayKeepsJoins(s: System, ttl: Ttl, e: Event, client: nat)
    requires Linked(s.registry) && e.Relay?
    ensures SameButConnected(s.gateway, After(s, ttl, e).gateway, client)
  {
  }

  lemma OthersKeepJoins(s: System, ttl: Ttl, e: Event, client: nat)
    requires Linked(s.registry) && !e.JoinAdmin? && !e.JoinCandidate? && !e.Connect? && !e.Relay?
    ensures SameButConnected(s.gateway, After(s, ttl, e).gateway, client)
  {
  }

  lemma JoinStep(s: System, ttl: Ttl, e: Event, client: nat, join: Option<Join>)
    requires Linked(s.registry) && Keyed(s.registry) && HasJoined(s.gateway, client, join)
    requires client !in s.gateway.sockets ==> join == None
    ensures var next := if JoinBy(s, ttl, e, client).Some? then JoinBy(s, ttl, e, client) else join;
      && HasJoined(After(s, ttl, e).gateway, client, next)
      && (client !in After(s, ttl, e).gateway.sockets ==> next == None)
  {
    if e.JoinAdmin? {
      RequireActiveExactlyIf(s.registry, ttl, e.token, e.account, e.now);
    } else if e.Relay? {
      RelayKeepsJoins(s, ttl, e, client);
    } else if !e.JoinCandidate? && !e.Connect? {
      OthersKeepJoins(s, ttl, e, client);
    }
  }

  lemma {:induction false} SocketsAreAsJoined(events: seq<Event>, ttl: Ttl, client: nat)
    ensures HasJoined(Run(events, ttl).gateway, client, LastJoin(events, ttl, client))
    ensures client !in Run(events, ttl).gateway.sockets ==> LastJoin(events, ttl, client) == None
  {
    if events != [] {
      var before := events[..|events| - 1];
      SocketsAreAsJoined(before, ttl, client);
      RunKeyed(before, ttl);
      JoinStep(Run(before, ttl), ttl, events[|events| - 1], client, LastJoin(before, ttl, client));
    }
  }

  /** On every run a message is relayed exactly for the exam, candidate and device the
      socket last joined as, or for the exam it last joined as an admin, with the session
      of that join still active. */
  lemma RelaysExactlyAsJoined(events: seq<Event>, ttl: Ttl, client: nat, examId: string, candidateId: string,
                              deviceRole: D.Role, account: Account, now: int)
    requires client in Run(events, ttl).gateway.sockets
    ensures var s := Run(events, ttl);
      Relayed(s, ttl, client, examId, candidateId, deviceRole, account, now).1
      <==> match LastJoin(events, ttl, client)
           case None => false
           case Some(AsAdmin(token, e)) => e == examId && IsActive(s.registry, ttl, Some(token), account, now)
           case Some(AsCandidate(e, c, d)) => e == examId && c == candidateId && d == deviceRole
  {
    SocketsAreAsJoined(events, ttl, client);
    RelayedExactlyIf(Run(events, ttl), ttl, client, examId, candidateId, deviceRole, account, now);
  }

  /** The session is accepted exactly if it is active; a lookup that finds it expired or
      its account gone removes it, and a stale password marks it. */
  lemma RequireActiveExactlyIf(s: State, ttl: Ttl, token: string, account: Account, now: int)
    requires Linked(s) && Keyed(s)
    ensures var (t, ok) := RequireActive(s, ttl, token, account, now);
      var found := GetResult(s.sessions, ttl, token, now);
      && (ok <==> IsActive(s, ttl, Some(token), account, now))
      && (token in t.sessions <==> found.Some? && account != Missing)
      && (token in t.sessions ==>
            && t.sessions[token].lastSeenAt == now
            && t.sessions[token].session.passwordChangeRequired
               == (found.value.passwordChangeRequired || account == PasswordStale))
      && (forall other :: other != token ==>
            && (other in t.sessions <==> other in s.sessions)
            && (other in s.sessions ==> t.sessions[other] == s.sessions[other]))
  {
  }

  // A revoked token stays unstored

  lemma RequireActiveKeyed(s: State, ttl: Ttl, token: string, account: Account, now: int)
    requires Linked(s) && Keyed(s)
    ensures Keyed(RequireActive(s, ttl, token, account, now).0)
    ensures RequireActive(s, ttl, token, account, now).0.sessions.Keys <= s.sessions.Keys
  {
  }

  lemma NextKeyed(s: State, ttl: Ttl, step: Step)
    requires Linked(s) && Keyed(s)
    ensures Keyed(Next(s, ttl, step))
    ensures forall t :: t in Next(s, ttl, step).sessions ==> t in s.sessions || (step.Set? && step.session.token == t)
  {
  }

  /** The event does not set this token anew. */
  predicate Spares(e: Event, token: string) {
    !(e.Registry? && e.step.Set? && e.step.session.token == token)
  }

  lemma StaysUnstored(s: System, ttl: Ttl, e: Event, token: string)
    requires Linked(s.registry) && Keyed(s.registry)
    ensures Keyed(After(s, ttl, e).registry)
    ensures token !in s.registry.sessions && Spares(e, token) ==> token !in After(s, ttl, e).registry.sessions
  {
    match e
    case Registry(step) => NextKeyed(s.registry, ttl, step);
    case JoinAdmin(_, other, _, account, _, now) => RequireActiveKeyed(s.registry, ttl, other, account, now);
    case Relay(client, _, _, _, account, now) =>
      if client in s.gateway.sockets && s.gateway.sockets[client].adminToken.Some? {
        RequireActiveKeyed(s.registry, ttl, s.gateway.sockets[client].adminToken.value, account, now);
      }
    case _ =>
  }

  lemma {:induction false} RunKeyed(events: seq<Event>, ttl: Ttl)
    ensures Keyed(Run(events, ttl).registry)
  {
    if events != [] {
      RunKeyed(events[..|events| - 1], ttl);
      StaysUnstored(Run(events[..|events| - 1], ttl), ttl, events[|events| - 1], "");
    }
  }

  /** The run goes on from `s`. */
  ghost function Continued(s: System, ttl: Ttl, more: seq<Event>): (t: System)
    requires Linked(s.registry)
    ensures Linked(t.registry)
    decreases more
  {
    if more == [] then s else Continued(After(s, ttl, more[0]), ttl, more[1..])
  }

  /** A token that is not stored stays so until it is set anew. */
  lemma {:induction false} UnstoredThroughout(s: System, ttl: Ttl, more: seq<Event>, token: string)
    requires Linked(s.registry) && Keyed(s.registry)
    requires token !in s.registry.sessions && forall i :: 0 <= i < |more| ==> Spares(more[i], token)
    ensures token !in Continued(s, ttl, more).registry.sessions
    decreases more
  {
    if more != [] {
      StaysUnstored(s, ttl, more[0], token);
      UnstoredThroughout(After(s, ttl, more[0]), ttl, more[1..], token);
    }
  }

  lemma RevokedIsUnstored(s: System, ttl: Ttl, userId: string, now: int, token: string)
    requires Linked(s.registry) && s.registry.clock <= now && token in TokensOf(s.registry, userId)
    ensures token !in After(s, ttl, Registry(RevokeUser(userId, now))).registry.sessions
  {
  }

  /** A socket that carries this token as an admin. */
  predicate ActsWith(s: G.State, client: nat, token: string) {
    client in s.sockets && s.sockets[client].role == Some(G.ADMIN) && s.sockets[client].adminToken == Some(token)
  }

  /** Once a user is revoked, no socket that carries one of their tokens as an admin
      relays anything, whatever happens in between and however it joined, as long as the
      token is not set anew. */
  lemma RevokedUserRelaysNothing(events: seq<Event>, more: seq<Event>, ttl: Ttl, userId: string, now: int,
                                 token: string,
                                 client: nat, examId: string, candidateId: string, deviceRole: D.Role,
                                 account: Account, later: int)
    requires Run(events, ttl).registry.clock <= now && token in TokensOf(Run(events, ttl).registry, userId)
    requires forall i :: 0 <= i < |more| ==> Spares(more[i], token)
    ensures var u := Continued(After(Run(events, ttl), ttl, Registry(RevokeUser(userId, now))), ttl, more);
      ActsWith(u.gateway, client, token) ==> !Relayed(u, ttl, client, examId, candidateId, deviceRole, account, later).1
  {
    var s, revocation := Run(events, ttl), Registry(RevokeUser(userId, now));
    RunKeyed(events, ttl);
    StaysUnstored(s, ttl, revocation, token);
    RevokedIsUnstored(s, ttl, userId, now, token);
    UnstoredThroughout(After(s, ttl, revocation), ttl, more, token);
    var u := Continued(After(s, ttl, revocation), ttl, more);
    if ActsWith(u.gateway, client, token) {
      RelayedExactlyIf(u, ttl, client, examId, candidateId, deviceRole, account, later);
    }
  }

  // ------------------------------------------------------------------------
  // The class
  // ------------------------------------------------------------------------

  lemma KeysGone(s: State, tokens: set<string>)
    requires Linked(s) && tokens <= s.sessions.Keys
    ensures s.sessions.Keys - Remove(s, tokens).sessions.Keys == tokens
    ensures Linked(Remove(s, tokens))
  {
  }

  lemma OneKeyGone(keys: set<string>, token: string)
    requires token in keys
    ensures keys - (keys - {token}) == {token} && keys - keys == {}
  {
  }

  lemma NothingDisconnected(s: G.State)
    ensures G.Disconnected(s, {}) == s
  {
  }

  /** No two tokens are in the same lifetime. */
  ghost predicate OwnLives(lives: map<string, nat>) {
    forall t, u :: t in lives && u in lives && lives[t] == lives[u] ==> t == u
  }

  /** Removing one more token, component by component. */
  lemma RemoveOneMore(s: State, tokens: set<string>, token: string)
    requires Linked(s) && OwnLives(s.lives) && tokens <= s.sessions.Keys && token in s.sessions && token !in tokens
    ensures Linked(Remove(s, tokens)) && token in Remove(s, tokens).sessions
    ensures Remove(Remove(s, tokens), {token}) == Remove(s, tokens + {token})
  {
    var r := Remove(s, tokens);
    OneMoreTimer(s, tokens, token);
    OneMoreLife(s, tokens, token);
    assert s.sessions - tokens - {token} == s.sessions - (tokens + {token});
    assert s.lives - tokens - {token} == s.lives - (tokens + {token});
  }

  lemma OneMoreTimer(s: State, tokens: set<string>, token: string)
    requires Linked(s) && tokens <= s.sessions.Keys && token in s.sessions && token !in tokens
    ensures Remove(Remove(s, tokens), {token}).timers == Remove(s, tokens + {token}).timers
  {
    var r := Remove(s, tokens);
    var gone := set t | t in tokens :: s.sessions[t].expiryTimer;
    assert (set t | t in {token} :: r.sessions[t].expiryTimer) == {s.sessions[token].expiryTimer};
    assert (set t | t in tokens + {token} :: s.sessions[t].expiryTimer) == gone + {s.sessions[token].expiryTimer};
  }

  lemma OneMoreLife(s: State, tokens: set<string>, token: string)
    requires Linked(s) && OwnLives(s.lives) && tokens <= s.sessions.Keys && token in s.sessions && token !in tokens
    ensures Remove(Remove(s, tokens), {token}).ended == Remove(s, tokens + {token}).ended
  {
    var r := Remove(s, tokens);
    var gone := set t | t in tokens :: s.lives[t];
    assert s.lives[token] !in gone;
    assert r.lives[token] == s.lives[token];
    assert (set t | t in {token} :: r.lives[t]) == {s.lives[token]};
    assert (set t | t in tokens + {token} :: s.lives[t]) == gone + {s.lives[token]};
  }

  lemma RemoveNothing(s: State)
    requires Linked(s)
    ensures Remove(s, {}) == s
  {
    var r := Remove(s, {});
    assert r.sessions == s.sessions && r.lives == s.lives;
    assert r.timers == s.timers;
    assert r.ended == s.ended;
  }

  /** What `delete` takes away, spelled out for one token. */
  lemma RemoveOne(s: State, token: string)
    requires Linked(s) && token in s.sessions
    ensures Remove(s, {token}) ==
              s.(sessions := s.sessions - {token},
                 timers := s.timers - {s.sessions[token].expiryTimer},
                 lives := s.lives - {token},
                 ended := s.ended + multiset{s.lives[token]})
    ensures s.sessions.Keys - Remove(s, {token}).sessions.Keys == {token}
  {
    assert (set t | t in {token} :: s.sessions[t].expiryTimer) == {s.sessions[token].expiryTimer};
    assert (set t | t in {token} :: s.lives[t]) == {s.lives[token]};
  }

  /** A fired timer is the one of the session it names. */
  lemma FiredTimerIsCurrent(steps: seq<Step>, ttl: Ttl, timer: nat)
    requires timer in Exec(steps, ttl).timers
    ensures var s := Exec(steps, ttl);
      && s.timers[timer].token in s.sessions
      && s.sessions[s.timers[timer].token].expiryTimer == timer
      && s.sessions[s.timers[timer].token].session.token == s.timers[timer].token
  {
    RunKeepsInv(steps, ttl);
  }

  lemma GetStep(steps: seq<Step>, ttl: Ttl, token: string, now: int)
    requires Exec(steps, ttl).clock <= now
    ensures Keyed(Exec(steps, ttl))
    ensures Exec(steps + [Step.Get(token, now)], ttl) == Got(Exec(steps, ttl), ttl, token, now)
  {
    ExecSnoc(steps, ttl, Step.Get(token, now));
    RunIsKeyed(steps, ttl);
  }

  lemma DeleteStep(steps: seq<Step>, ttl: Ttl, token: string, now: int)
    requires Exec(steps, ttl).clock <= now
    ensures Exec(steps + [Step.Delete(token, now)], ttl) == Deleted(Exec(steps, ttl), token).(clock := now)
  {
    ExecSnoc(steps, ttl, Step.Delete(token, now));
  }

  lemma RevokeUserStep(steps: seq<Step>, ttl: Ttl, userId: string, now: int)
    requires Exec(steps, ttl).clock <= now
    ensures OwnLives(Exec(steps, ttl).lives)
    ensures Exec(steps + [Step.RevokeUser(userId, now)], ttl) == UserRevoked(Exec(steps, ttl), userId).(clock := now)
    ensures var s := Exec(steps, ttl); s.sessions.Keys - UserRevoked(s, userId).sessions.Keys == TokensOf(s, userId)
  {
    ExecSnoc(steps, ttl, Step.RevokeUser(userId, now));
    RunKeepsInv(steps, ttl);
    KeysGone(Exec(steps, ttl), TokensOf(Exec(steps, ttl), userId));
  }

  ghost function Elements(revoked: seq<Session>): set<Session> { set r | r in revoked }

  ghost function SessionsOf(s: State, tokens: set<string>): set<Session>
    requires tokens <= s.sessions.Keys
  {
    set t | t in tokens :: s.sessions[t].session
  }

  /** The list has the sessions of these tokens, one entry for each token. */
  ghost predicate Lists(revoked: seq<Session>, s: State, tokens: set<string>)
    requires tokens <= s.sessions.Keys
  {
    |revoked| == |tokens| && Elements(revoked) == SessionsOf(s, tokens)
  }

  lemma ListOneMore(revoked: seq<Session>, s: State, tokens: set<string>, token: string)
    requires tokens <= s.sessions.Keys && token in s.sessions && token !in tokens && Lists(revoked, s, tokens)
    ensures Lists(revoked + [s.sessions[token].session], s, tokens + {token})
  {
    var session := s.sessions[token].session;
    assert Elements(revoked + [session]) == Elements(revoked) + {session};
    assert SessionsOf(s, tokens + {token}) == SessionsOf(s, tokens) + {session};
  }

  lemma StillPending(s: State, userId: string, pending: set<string>, token: string)
    requires Linked(s) && pending <= s.sessions.Keys && token in pending
    ensures var done := TokensOf(s, userId) - pending;
      && token !in done
      && token in Remove(s, done).sessions && Remove(s, done).sessions[token] == s.sessions[token]
      && TokensOf(s, userId) - (pending - {token})
           == if s.sessions[token].session.userId == userId then done + {token} else done
  {
  }

  class AuthSessionRegistry {
    const ttl: Ttl
    const gateway: G.Gateway
    var sessions: map<string, Stored>
    var timers: map<nat, Timer>
    var nextTimer: nat
    ghost var clock: int
    ghost var lives: map<string, nat>
    ghost var nextLife: nat
    ghost var ended: multiset<nat>
    ghost var run: seq<Step>

    ghost function View(): State
      reads this
    {
      State(sessions, timers, nextTimer, clock, lives, nextLife, ended)
    }

    ghost predicate Valid()
      reads this, gateway
    {
      View() == Exec(run, ttl) && gateway.Valid()
    }

    constructor (ttl: Ttl, gateway: G.Gateway)
      requires gateway.Valid()
      ensures Valid() && this.ttl == ttl && this.gateway == gateway && run == []
    {
      this.ttl, this.gateway := ttl, gateway;
      sessions, timers, nextTimer, clock := map[], map[], 0, 0;
      lives, nextLife, ended, run := map[], 0, multiset{}, [];
    }

    /** The sockets of the sessions that went are disconnected, and no others. */
    twostate predicate FannedOut()
      reads this, gateway
    {
      gateway.View() == G.Disconnected(old(gateway.View()), old(sessions).Keys - sessions.Keys)
    }

    method Get(token: string, now: int) returns (session: Option<Session>)
      requires Valid() && clock <= now
      modifies this, gateway
      ensures Valid() && run == old(run) + [Step.Get(token, now)] && FannedOut()
      ensures session == GetResult(old(sessions), ttl, token, now)
    {
      GetStep(run, ttl, token, now);
      session := GetStored(token, now);
      run := run + [Step.Get(token, now)];
    }

    method Set(session: Session, now: int)
      requires Valid() && clock <= now
      modifies this, gateway
      ensures Valid() && run == old(run) + [Step.Set(session, now)] && FannedOut()
    {
      ExecSnoc(run, ttl, Step.Set(session, now));
      NothingDisconnected(gateway.View());
      var createdAt := if session.token in sessions then sessions[session.token].createdAt else now;
      StoreSession(session, createdAt, now, now);
      run := run + [Step.Set(session, now)];
    }

    method Delete(token: string, now: int) returns (session: Option<Session>)
      requires Valid() && clock <= now
      modifies this, gateway
      ensures Valid() && run == old(run) + [Step.Delete(token, now)] && FannedOut()
      ensures session == if token in old(sessions) then Some(old(sessions)[token].session) else None
    {
      DeleteStep(run, ttl, token, now);
      session := DeleteAt(token, now);
      run := run + [Step.Delete(token, now)];
    }

    /** The returned sessions are those revoked, each once. */
    method RevokeUser(userId: string, now: int) returns (revoked: seq<Session>)
      requires Valid() && clock <= now
      modifies this`sessions, this`timers, this`clock, this`lives, this`ended, this`run, gateway
      ensures Valid() && run == old(run) + [Step.RevokeUser(userId, now)] && FannedOut()
      ensures Lists(revoked, old(View()), TokensOf(old(View()), userId))
    {
      hide Exec, UserRevoked, Lists;
      RevokeUserStep(run, ttl, userId, now);
      revoked := DeleteAllOf(userId);
      clock := now;
      run := run + [Step.RevokeUser(userId, now)];
    }

    /** The timer's callback, after the timer itself is spent. */
    method Expire(timer: nat, now: int)
      requires Valid() && clock <= now && timer in timers
      modifies this, gateway
      ensures Valid() && run == old(run) + [Fire(timer, now)] && FannedOut()
      ensures var token := old(timers[timer].token);
        && token in old(sessions)
        && if IsOver(old(sessions[token]), ttl, now)
           then sessions == old(sessions) - {token} && ended == old(ended) + multiset{old(lives)[token]}
                && gateway.View() == G.Disconnected(old(gateway.View()), {token})
           else sessions.Keys == old(sessions).Keys && ended == old(ended) && gateway.View() == old(gateway.View())
    {
      TimerEndsExactlyTheExpired(run, ttl, timer, now);
      NothingDisconnected(gateway.View());
      OneKeyGone(sessions.Keys, timers[timer].token);
      ExecSnoc(run, ttl, Fire(timer, now));
      FiredTimerIsCurrent(run, ttl, timer);
      ExpireToken(timer, timers[timer].token, now);
      run := run + [Fire(timer, now)];
    }

    // The bodies, without the bookkeeping of the run.

    method GetStored(token: string, now: int) returns (session: Option<Session>)
      requires Linked(View()) && Keyed(View()) && gateway.Valid()
      modifies this, gateway
      ensures run == old(run) && gateway.Valid()
      ensures View() == Got(old(View()), ttl, token, now) && FannedOut()
      ensures session == GetResult(old(sessions), ttl, token, now)
    {
      NothingDisconnected(gateway.View());
      if token !in sessions {
        clock := now;
        assert old(sessions).Keys - sessions.Keys == {};
        return None;
      }
      var stored := sessions[token];
      if stored.createdAt + ttl.absoluteMs <= now || stored.lastSeenAt + ttl.idleMs <= now {
        RemoveOne(View(), token);
        var gone := DeleteStored(token);
        clock := now;
        return None;
      }
      StoreSession(stored.session, stored.createdAt, now, now);
      return Some(stored.session);
    }

    method DeleteAt(token: string, now: int) returns (session: Option<Session>)
      requires Linked(View()) && gateway.Valid()
      modifies this, gateway
      ensures run == old(run) && gateway.Valid()
      ensures View() == Deleted(old(View()), token).(clock := now) && FannedOut()
      ensures session == if token in old(sessions) then Some(old(sessions)[token].session) else None
    {
      NothingDisconnected(gateway.View());
      if token !in sessions {
        clock := now;
        assert old(sessions).Keys - sessions.Keys == {};
        return None;
      }
      RemoveOne(View(), token);
      var gone := DeleteStored(token);
      clock := now;
      return Some(gone);
    }

    /** `revokeUser` has still to look at the pending tokens. */
    ghost predicate Revoking(before: State, sockets: G.State, userId: string, pending: set<string>,
                             revoked: seq<Session>)
      requires Linked(before)
      reads this, gateway
    {
      var done := TokensOf(before, userId) - pending;
      && OwnLives(before.lives) && pending <= before.sessions.Keys && gateway.Valid()
      && View() == Remove(before, done)
      && gateway.View() == G.Disconnected(sockets, done)
      && Lists(revoked, before, done)
    }

    method DeleteAllOf(userId: string) returns (revoked: seq<Session>)
      requires Linked(View()) && OwnLives(lives) && gateway.Valid()
      modifies this`sessions, this`timers, this`lives, this`ended, gateway
      ensures gateway.Valid()
      ensures View() == UserRevoked(old(View()), userId)
      ensures gateway.View() == G.Disconnected(old(gateway.View()), TokensOf(old(View()), userId))
      ensures Lists(revoked, old(View()), TokensOf(old(View()), userId))
    {
      ghost var before, sockets := View(), gateway.View();
      BeginRevoking(userId);
      revoked := [];
      var pending := sessions.Keys;
      while pending != {}
        invariant Revoking(before, sockets, userId, pending, revoked)
      {
        var token :| token in pending;
        revoked := RevokeNext(before, sockets, userId, pending, token, revoked);
        pending := pending - {token};
      }
      EndRevoking(before, sockets, userId, revoked);
    }

    lemma BeginRevoking(userId: string)
      requires Linked(View()) && OwnLives(lives) && gateway.Valid()
      ensures Revoking(View(), gateway.View(), userId, sessions.Keys, [])
    {
      NothingDisconnected(gateway.View());
      RemoveNothing(View());
      assert TokensOf(View(), userId) - sessions.Keys == {};
    }

    lemma EndRevoking(before: State, sockets: G.State, userId: string, revoked: seq<Session>)
      requires Linked(before) && Revoking(before, sockets, userId, {}, revoked)
      ensures gateway.Valid() && View() == UserRevoked(before, userId)
      ensures gateway.View() == G.Disconnected(sockets, TokensOf(before, userId))
      ensures Lists(revoked, before, TokensOf(before, userId))
    {
      assert TokensOf(before, userId) - {} == TokensOf(before, userId);
    }

    /** One turn of `revokeUser`'s loop. */
    method RevokeNext(ghost before: State, ghost sockets: G.State, userId: string, ghost pending: set<string>,
                      token: string, soFar: seq<Session>)
      returns (revoked: seq<Session>)
      requires Linked(before) && Revoking(before, sockets, userId, pending, soFar) && token in pending
      modifies this`sessions, this`timers, this`lives, this`ended, gateway
      ensures Revoking(before, sockets, userId, pending - {token}, revoked)
    {
      ghost var done := TokensOf(before, userId) - pending;
      StillPending(before, userId, pending, token);
      if sessions[token].session.userId != userId {
        return soFar;
      }
      ListOneMore(soFar, before, done, token);
      var session := DeleteOneMore(before, sockets, done, token);
      return soFar + [session];
    }

    /** `delete` in the midst of revoking a user: `done` are gone already. */
    method DeleteOneMore(ghost before: State, ghost sockets: G.State, ghost done: set<string>, token: string)
      returns (session: Session)
      requires Linked(before) && OwnLives(before.lives) && done <= before.sessions.Keys && token in before.sessions
      requires token !in done
      requires View() == Remove(before, done) && gateway.Valid() && gateway.View() == G.Disconnected(sockets, done)
      modifies this`sessions, this`timers, this`lives, this`ended, gateway
      ensures View() == Remove(before, done + {token}) && session == before.sessions[token].session
      ensures gateway.Valid() && gateway.View() == G.Disconnected(sockets, done + {token})
    {
      RemoveOneMore(before, done, token);
      G.DisconnectOneMore(sockets, done, token);
      session := DeleteStored(token);
    }

    method ExpireToken(ghost timer: nat, token: string, now: int)
      requires Linked(View()) && gateway.Valid() && timer in timers && timers[timer].token == token
      requires token in sessions && sessions[token].session.token == token
      modifies this, gateway
      ensures run == old(run) && gateway.Valid()
      ensures View() == Fired(old(View()), ttl, timer, now) && FannedOut()
    {
      var stored := sessions[token];
      if stored.createdAt + ttl.absoluteMs > now && stored.lastSeenAt + ttl.idleMs > now {
        NothingDisconnected(gateway.View());
        StoreSession(stored.session, stored.createdAt, stored.lastSeenAt, now);
        return;
      }
      RemoveOne(View(), token);
      var gone := DeleteStored(token);
      clock := now;
    }

    /** `store`: the previous timer is cleared and a new one armed. */
    method StoreSession(session: Session, createdAt: int, lastSeenAt: int, now: int)
      modifies this`sessions, this`timers, this`nextTimer, this`clock, this`lives, this`nextLife
      ensures View() == Store(old(View()), ttl, session, createdAt, lastSeenAt, now)
      ensures old(sessions).Keys - sessions.Keys == {}
    {
      var token := session.token;
      if token in sessions {
        timers := timers - {sessions[token].expiryTimer};
      } else {
        lives := lives[token := nextLife];
        nextLife := nextLife + 1;
      }
      var expiresAt := Min(createdAt + ttl.absoluteMs, lastSeenAt + ttl.idleMs);
      timers := timers[nextTimer := Timer(token, now + Max(0, expiresAt - now))];
      sessions := sessions[token := Stored(session, createdAt, lastSeenAt, nextTimer)];
      nextTimer := nextTimer + 1;
      clock := now;
    }

    /** The stored part of `delete`: the timer is cleared and `onRevoked` is called. */
    method DeleteStored(token: string) returns (session: Session)
      requires Linked(View()) && token in sessions && gateway.Valid()
      modifies this`sessions, this`timers, this`lives, this`ended, gateway
      ensures View() == Remove(old(View()), {token}) && session == old(sessions)[token].session
      ensures gateway.Valid() && gateway.View() == G.Disconnected(old(gateway.View()), {token})
    {
      RemoveOne(View(), token);
      var stored := sessions[token];
      sessions := sessions - {token};
      timers := timers - {stored.expiryTimer};
      ended := ended + multiset{lives[token]};
      lives := lives - {token};
      gateway.DisconnectAdminClients(token);
      return stored.session;
    }
  }
}
