/** The proctor gateway's sockets and its index from session token to the admin
    sockets opened with it. */
module ProctorGateway {
  import opened Wrappers
  import D = ProctorDevices

  datatype SocketRole = ADMIN | CANDIDATE

  datatype Socket = Socket(
    connected: bool, role: Option<SocketRole>, adminToken: Option<string>, examId: Option<string>,
    candidateId: Option<string>, deviceRole: Option<D.Role>)

  const NEW_SOCKET := Socket(true, None, None, None, None, None)

  datatype State = State(sockets: map<nat, Socket>, index: map<string, set<nat>>)

  // ------------------------------------------------------------------------
  // The index
  // ------------------------------------------------------------------------

  function Tracked(index: map<string, set<nat>>, token: string): set<nat> {
    if token in index then index[token] else {}
  }

  /** The index holds, for each token, exactly the connected sockets that joined
      with it, and no token without a socket. */
  ghost predicate IndexAgrees(s: State) {
    && (forall t :: t in s.index ==> s.index[t] != {})
    && (forall t, c: nat :: c in Tracked(s.index, t) <==>
          c in s.sockets && s.sockets[c].connected && s.sockets[c].adminToken == Some(t))
  }

  function Untrack(index: map<string, set<nat>>, client: nat, token: Option<string>): map<string, set<nat>> {
    if token == None || token.value !in index then index
    else
      var clients := index[token.value] - {client};
      if clients == {} then index - {token.value} else index[token.value := clients]
  }

  function Track(index: map<string, set<nat>>, client: nat, token: string): map<string, set<nat>> {
    index[token := Tracked(index, token) + {client}]
  }

  // ------------------------------------------------------------------------
  // Operations
  // ------------------------------------------------------------------------

  function Connected(s: State, client: nat): State { s.(sockets := s.sockets[client := NEW_SOCKET]) }

  function JoinedAdmin(s: State, client: nat, token: string, examId: string): State
    requires client in s.sockets
  {
    var socket := s.sockets[client];
    State(s.sockets[client := socket.(role := Some(ADMIN), adminToken := Some(token), examId := Some(examId))],
          Track(Untrack(s.index, client, socket.adminToken), client, token))
  }

  /** A candidate join leaves the admin token and the index alone. */
  function JoinedCandidate(s: State, client: nat, examId: string, candidateId: string, deviceRole: D.Role): State
    requires client in s.sockets
  {
    s.(sockets := s.sockets[client := s.sockets[client].(role := Some(CANDIDATE), examId := Some(examId),
                                                         candidateId := Some(candidateId),
                                                         deviceRole := Some(deviceRole))])
  }

  function Left(s: State, client: nat): State
    requires client in s.sockets
  {
    State(s.sockets[client := s.sockets[client].(connected := false)],
          Untrack(s.index, client, s.sockets[client].adminToken))
  }

  /** The admin sockets of some tokens are disconnected. */
  ghost function Disconnected(s: State, tokens: set<string>): State {
    State(map c | c in s.sockets ::
            if exists t :: t in tokens && c in Tracked(s.index, t) then s.sockets[c].(connected := false)
            else s.sockets[c],
          s.index - tokens)
  }

  /** What a socket may relay: admins within their exam while their session is
      active, candidates for themselves only. */
  predicate CanRelay(socket: Socket, examId: string, candidateId: string, deviceRole: D.Role, sessionActive: bool) {
    || (socket.role == Some(ADMIN) && socket.examId == Some(examId) && sessionActive)
    || (socket.role == Some(CANDIDATE) && socket.examId == Some(examId)
        && socket.candidateId == Some(candidateId) && socket.deviceRole == Some(deviceRole))
  }

  // ------------------------------------------------------------------------
  // The index stays right
  // ------------------------------------------------------------------------

  lemma JoinAdminKeepsIndex(s: State, client: nat, token: string, examId: string)
    requires IndexAgrees(s) && client in s.sockets && s.sockets[client].connected
    ensures IndexAgrees(JoinedAdmin(s, client, token, examId))
    ensures JoinedAdmin(s, client, token, examId).index.Keys <= s.index.Keys + {token}
  {
    UntrackForgets(s, client);
    var u := Untrack(s.index, client, s.sockets[client].adminToken);
    var j := JoinedAdmin(s, client, token, examId);
    assert client in j.index[token];
    forall t, c: nat
      ensures c in Tracked(j.index, t)
          <==> c in j.sockets && j.sockets[c].connected && j.sockets[c].adminToken == Some(t)
    {
      assert c in Tracked(j.index, t) <==> c in Tracked(u, t) || (t == token && c == client);
      assert c in Tracked(u, t) <==> c in Tracked(s.index, t) && c != client;
      assert c in Tracked(s.index, t)
        <==> c in s.sockets && s.sockets[c].connected && s.sockets[c].adminToken == Some(t);
    }
  }

  lemma UntrackForgets(s: State, client: nat)
    requires IndexAgrees(s) && client in s.sockets
    ensures var index := Untrack(s.index, client, s.sockets[client].adminToken);
      && index.Keys <= s.index.Keys
      && (forall t :: t in index ==> index[t] != {})
      && (forall t, c: nat :: c in Tracked(index, t) <==> c in Tracked(s.index, t) && c != client)
  {
    var token := s.sockets[client].adminToken;
    var index := Untrack(s.index, client, token);
    forall t, c: nat
      ensures c in Tracked(index, t) <==> c in Tracked(s.index, t) && c != client
    {
      TrackedAfterUntrack(s, client, t, c);
    }
  }

  lemma TrackedAfterUntrack(s: State, client: nat, t: string, c: nat)
    requires IndexAgrees(s) && client in s.sockets
    ensures c in Tracked(Untrack(s.index, client, s.sockets[client].adminToken), t)
        <==> c in Tracked(s.index, t) && c != client
  {
    assert client in Tracked(s.index, t) ==> s.sockets[client].adminToken == Some(t);
  }

  lemma JoinCandidateKeepsIndex(s: State, client: nat, examId: string, candidateId: string, deviceRole: D.Role)
    requires IndexAgrees(s) && client in s.sockets
    ensures IndexAgrees(JoinedCandidate(s, client, examId, candidateId, deviceRole))
  {
  }

  lemma LeaveKeepsIndex(s: State, client: nat)
    requires IndexAgrees(s) && client in s.sockets
    ensures IndexAgrees(Left(s, client)) && Left(s, client).index.Keys <= s.index.Keys
    ensures forall c :: c in Left(s, client).sockets <==> c in s.sockets
    ensures forall c :: c in s.sockets ==>
              Left(s, client).sockets[c] == if c == client then s.sockets[c].(connected := false) else s.sockets[c]
  {
    UntrackForgets(s, client);
  }

  lemma DisconnectKeepsIndex(s: State, tokens: set<string>)
    requires IndexAgrees(s)
    ensures IndexAgrees(Disconnected(s, tokens))
  {
    var d := Disconnected(s, tokens);
    forall t, c: nat
      ensures c in Tracked(d.index, t)
          <==> c in d.sockets && d.sockets[c].connected && d.sockets[c].adminToken == Some(t)
    {
      if t in tokens {
        assert c in Tracked(s.index, t) ==> c in d.sockets && !d.sockets[c].connected;
      } else {
        assert Tracked(d.index, t) == Tracked(s.index, t);
        assert c in Tracked(s.index, t) ==> d.sockets[c] == s.sockets[c];
      }
    }
  }

  /** Revoking some tokens disconnects every connected admin socket that joined with
      one of them and changes no other socket. */
  lemma RevocationFansOut(s: State, tokens: set<string>, client: nat)
    requires IndexAgrees(s) && client in s.sockets
    ensures client in Disconnected(s, tokens).sockets
    ensures s.sockets[client].adminToken.Some? && s.sockets[client].adminToken.value in tokens ==>
              Disconnected(s, tokens).sockets[client] == s.sockets[client].(connected := false)
    ensures !(s.sockets[client].adminToken.Some? && s.sockets[client].adminToken.value in tokens) ==>
              Disconnected(s, tokens).sockets[client] == s.sockets[client]
  {
    var token := s.sockets[client].adminToken;
    if token.Some? && s.sockets[client].connected {
      assert client in Tracked(s.index, token.value);
    }
  }

  /** Disconnecting token by token is disconnecting them all. */
  lemma DisconnectOneMore(s: State, tokens: set<string>, token: string)
    ensures Disconnected(Disconnected(s, tokens), {token}) == Disconnected(s, tokens + {token})
  {
    var d, e, all := Disconnected(s, tokens), Disconnected(Disconnected(s, tokens), {token}),
      Disconnected(s, tokens + {token});
    forall c | c in s.sockets
      ensures e.sockets[c] == all.sockets[c]
    {
      if token !in tokens {
        assert Tracked(d.index, token) == Tracked(s.index, token);
      }
      if c in Tracked(s.index, token) {
        assert token in tokens + {token};
      }
    }
    assert e.index == all.index;
  }

  // ------------------------------------------------------------------------
  // The gateway
  // ------------------------------------------------------------------------

  class Gateway {
    var sockets: map<nat, Socket>
    var adminClientsByToken: map<string, set<nat>>

    ghost function View(): State
      reads this
    {
      State(sockets, adminClientsByToken)
    }

    ghost predicate Valid()
      reads this
    {
      IndexAgrees(View())
    }

    constructor ()
      ensures Valid() && View() == State(map[], map[])
    {
      sockets, adminClientsByToken := map[], map[];
    }

    method HandleConnection(client: nat)
      requires Valid() && client !in sockets
      modifies this
      ensures Valid() && View() == Connected(old(View()), client)
      ensures sockets == old(sockets)[client := Socket(true, None, None, None, None, None)]
    {
      sockets := sockets[client := NEW_SOCKET];
      assert forall t :: Tracked(adminClientsByToken, t) == Tracked(old(adminClientsByToken), t);
    }

    /** `handleJoinAdmin` once the session is accepted. */
    method JoinAdmin(client: nat, token: string, examId: string)
      requires Valid() && client in sockets && sockets[client].connected
      modifies this
      ensures Valid() && View() == JoinedAdmin(old(View()), client, token, examId)
    {
      JoinAdminKeepsIndex(View(), client, token, examId);
      UntrackAdminClient(client);
      sockets := sockets[client :=
                         sockets[client].(role := Some(ADMIN), adminToken := Some(token), examId := Some(examId))];
      TrackAdminClient(client);
    }

    method JoinCandidate(client: nat, examId: string, candidateId: string, deviceRole: D.Role)
      requires Valid() && client in sockets
      modifies this
      ensures Valid() && View() == JoinedCandidate(old(View()), client, examId, candidateId, deviceRole)
    {
      JoinCandidateKeepsIndex(View(), client, examId, candidateId, deviceRole);
      sockets := sockets[client := sockets[client].(role := Some(CANDIDATE), examId := Some(examId),
                                                    candidateId := Some(candidateId), deviceRole := Some(deviceRole))];
    }

    method HandleDisconnect(client: nat)
      requires Valid() && client in sockets
      modifies this
      ensures Valid() && View() == Left(old(View()), client)
    {
      LeaveKeepsIndex(View(), client);
      UntrackAdminClient(client);
      sockets := sockets[client := sockets[client].(connected := false)];
    }

    method TrackAdminClient(client: nat)
      requires client in sockets
      modifies `adminClientsByToken
      ensures adminClientsByToken == match sockets[client].adminToken
                case None => old(adminClientsByToken)
                case Some(token) => Track(old(adminClientsByToken), client, token)
    {
      var token := sockets[client].adminToken;
      if token.Some? {
        var clients := if token.value in adminClientsByToken then adminClientsByToken[token.value] else {};
        adminClientsByToken := adminClientsByToken[token.value := clients + {client}];
      }
    }

    method UntrackAdminClient(client: nat)
      requires client in sockets
      modifies `adminClientsByToken
      ensures adminClientsByToken == Untrack(old(adminClientsByToken), client, sockets[client].adminToken)
    {
      var token := sockets[client].adminToken;
      if token.None? || token.value !in adminClientsByToken {
        return;
      }
      var clients := adminClientsByToken[token.value] - {client};
      adminClientsByToken := adminClientsByToken[token.value := clients];
      if clients == {} {
        adminClientsByToken := adminClientsByToken - {token.value};
      }
    }

    /** `disconnectAdminClients`, the listener for revoked sessions. */
    method DisconnectAdminClients(token: string)
      requires Valid()
      modifies this
      ensures Valid() && View() == Disconnected(old(View()), {token})
    {
      DisconnectKeepsIndex(View(), {token});
      if token !in adminClientsByToken {
        assert sockets == Disconnected(View(), {token}).sockets;
        return;
      }
      var clients := adminClientsByToken[token];
      assert clients == Tracked(old(adminClientsByToken), token);
      adminClientsByToken := adminClientsByToken - {token};
      var pending := clients;
      while pending != {}
        invariant pending <= clients <= sockets.Keys
        invariant adminClientsByToken == old(adminClientsByToken) - {token}
        invariant sockets.Keys == old(sockets).Keys
        invariant forall c :: c in sockets ==>
                    sockets[c] == if c in clients - pending then old(sockets)[c].(connected := false)
                                  else old(sockets)[c]
      {
        var client :| client in pending;
        pending := pending - {client};
        sockets := sockets[client := sockets[client].(connected := false)];
      }
      assert sockets == Disconnected(old(View()), {token}).sockets;
    }
  }
}
