/** What the sessions' timers do: a timer that fires ends an expired session and no other,
    and once the due ones have fired exactly the expired sessions are gone. */
module SessionExpiry {
  import opened Integers
  import opened SessionRegistry

  /** One of the session's clocks has run out. */
  ghost predicate IsOver(st: Stored, ttl: Ttl, now: int) {
    now >= st.createdAt + ttl.absoluteMs || now >= st.lastSeenAt + ttl.idleMs
  }

  /** When the first of its clocks runs out. */
  ghost function EndOf(st: Stored, ttl: Ttl): int {
    if st.createdAt + ttl.absoluteMs <= st.lastSeenAt + ttl.idleMs then st.createdAt + ttl.absoluteMs
    else st.lastSeenAt + ttl.idleMs
  }

  /** The session of the token is out of the registry with its timer, its lifetime is
      revoked, and nothing else has changed. */
  ghost predicate Ended(s: State, t: State, token: string)
    requires Linked(s) && token in s.sessions
  {
    && t.sessions == s.sessions - {token}
    && t.timers == s.timers - {s.sessions[token].expiryTimer}
    && t.lives == s.lives - {token}
    && t.ended == s.ended + multiset{s.lives[token]}
    && t.nextLife == s.nextLife
  }

  /** Only the timer of the token is new, due at the session's end. */
  ghost predicate Rearmed(s: State, t: State, ttl: Ttl, token: string)
    requires token in s.sessions
  {
    var st := s.sessions[token];
    && token in t.sessions && t.sessions == s.sessions[token := st.(expiryTimer := t.sessions[token].expiryTimer)]
    && t.sessions[token].expiryTimer !in s.timers
    && t.timers == (s.timers - {st.expiryTimer})[t.sessions[token].expiryTimer := Timer(token, EndOf(st, ttl))]
    && t.lives == s.lives && t.ended == s.ended && t.nextLife == s.nextLife
  }

  lemma TimerIsTheSessions(s: State, ttl: Ttl, timer: nat)
    requires Inv(s, ttl) && timer in s.timers
    ensures var token := s.timers[timer].token;
      && token in s.sessions && s.sessions[token].expiryTimer == timer && s.sessions[token].session.token == token
      && (s.timers[timer].dueAt <= s.clock || s.timers[timer].dueAt == EndOf(s.sessions[token], ttl))
    ensures Linked(s) && s.nextTimer !in s.timers
  {
  }

  lemma RemoveEnds(s: State, token: string, now: int)
    requires Linked(s) && token in s.sessions
    ensures Ended(s, Remove(s, {token}).(clock := now), token)
  {
    assert multiset(set t | t in {token} :: s.lives[t]) == multiset{s.lives[token]} by {
      assert (set t | t in {token} :: s.lives[t]) == {s.lives[token]};
    }
  }

  lemma StoreRearms(s: State, ttl: Ttl, token: string, now: int)
    requires token in s.sessions && s.nextTimer !in s.timers && !IsOver(s.sessions[token], ttl, now)
    requires s.sessions[token].session.token == token
    ensures var st := s.sessions[token];
      Rearmed(s, Store(s, ttl, st.session, st.createdAt, st.lastSeenAt, now), ttl, token)
  {
  }

  lemma FiredStep(s: State, ttl: Ttl, timer: nat, now: int)
    requires Inv(s, ttl) && s.clock <= now && timer in s.timers && s.timers[timer].token in s.sessions
    ensures var token := s.timers[timer].token; var t := Fired(s, ttl, timer, now);
      && t.clock == now && s.sessions[token].expiryTimer == timer
      && if IsOver(s.sessions[token], ttl, now) then Ended(s, t, token) else Rearmed(s, t, ttl, token)
  {
    hide Inv, Ended, Rearmed;
    var token := s.timers[timer].token;
    TimerIsTheSessions(s, ttl, timer);
    RemoveEnds(s, token, now);
    if !IsOver(s.sessions[token], ttl, now) {
      StoreRearms(s, ttl, token, now);
    }
  }

  /** On every run, a timer that fires, early or late, ends exactly its session and that
      session's lifetime if one of its clocks has run out, and otherwise leaves everything
      but that its timer is now due at the session's end. */
  lemma TimerEndsExactlyTheExpired(steps: seq<Step>, ttl: Ttl, timer: nat, now: int)
    requires Exec(steps, ttl).clock <= now && timer in Exec(steps, ttl).timers
    ensures var s, t := Exec(steps, ttl), Exec(steps + [Fire(timer, now)], ttl); var token := s.timers[timer].token;
      && token in s.sessions && s.sessions[token].expiryTimer == timer
      && if IsOver(s.sessions[token], ttl, now) then Ended(s, t, token) else Rearmed(s, t, ttl, token)
  {
    hide Exec, Inv, Fired, Ended, Rearmed;
    RunKeepsInv(steps, ttl);
    TimerIsTheSessions(Exec(steps, ttl), ttl, timer);
    ExecSnoc(steps, ttl, Fire(timer, now));
    FiredStep(Exec(steps, ttl), ttl, timer, now);
  }

  // ------------------------------------------------------------------------
  // Firing all that are due
  // ------------------------------------------------------------------------

  /** The run goes on with these timers firing at this time. */
  function WithFired(steps: seq<Step>, timers: seq<nat>, now: int): seq<Step>
    decreases timers
  {
    if timers == [] then steps else WithFired(steps + [Fire(timers[0], now)], timers[1..], now)
  }

  /** These are the due timers, each once. */
  ghost predicate AreDue(timers: seq<nat>, s: State, now: int) {
    && (forall i: nat :: i in timers <==> i in s.timers && s.timers[i].dueAt <= now)
    && (forall j, k :: 0 <= j < k < |timers| ==> timers[j] != timers[k])
  }

  /** Exactly the sessions that are over are gone; the others are as they were. */
  ghost predicate OnlyTheExpiredGone(s: State, t: State, ttl: Ttl, now: int) {
    forall token :: if token in s.sessions && !IsOver(s.sessions[token], ttl, now)
                    then token in t.sessions && t.sessions[token] == s.sessions[token]
                    else token !in t.sessions
  }

  lemma DueIsOver(s: State, ttl: Ttl, timer: nat, now: int)
    requires Inv(s, ttl) && s.clock <= now && timer in s.timers && s.timers[timer].dueAt <= now
    ensures s.timers[timer].token in s.sessions && IsOver(s.sessions[s.timers[timer].token], ttl, now)
    ensures Linked(s)
  {
  }

  lemma NoneDueNoneOver(s: State, ttl: Ttl, now: int)
    requires Inv(s, ttl) && s.clock <= now && AreDue([], s, now)
    ensures Prompt(s, now) && OnlyTheExpiredGone(s, s, ttl, now)
  {
    forall i: nat | i in s.timers
      ensures now < s.timers[i].dueAt
    {
      assert i !in [];
    }
  }

  lemma OneDueFired(s: State, ttl: Ttl, timers: seq<nat>, now: int)
    requires Inv(s, ttl) && s.clock <= now && timers != [] && AreDue(timers, s, now)
    ensures timers[0] in s.timers && s.timers[timers[0]].token in s.sessions
    ensures var t := Fired(s, ttl, timers[0], now);
      t.clock == now && AreDue(timers[1..], t, now) && Ended(s, t, s.timers[timers[0]].token)
    ensures IsOver(s.sessions[s.timers[timers[0]].token], ttl, now)
  {
    hide Inv, Fired;
    assert timers[0] in timers;
    DueIsOver(s, ttl, timers[0], now);
    FiredStep(s, ttl, timers[0], now);
    OneLessDue(s, Fired(s, ttl, timers[0], now), timers, now);
  }

  lemma OneLessDue(s: State, t: State, timers: seq<nat>, now: int)
    requires timers != [] && AreDue(timers, s, now) && t.timers == s.timers - {timers[0]}
    ensures AreDue(timers[1..], t, now)
  {
    assert timers == [timers[0]] + timers[1..];
  }

  lemma GoneThen(s: State, t: State, u: State, ttl: Ttl, token: string, now: int)
    requires Linked(s) && token in s.sessions && IsOver(s.sessions[token], ttl, now) && Ended(s, t, token)
    requires OnlyTheExpiredGone(t, u, ttl, now)
    ensures OnlyTheExpiredGone(s, u, ttl, now)
  {
  }

  /** From every reachable state: once each timer that is due has fired, in any order, no
      timer is due and exactly the expired sessions are gone. */
  lemma {:induction false} FiringTheDueSettles(steps: seq<Step>, ttl: Ttl, timers: seq<nat>, now: int)
    requires Exec(steps, ttl).clock <= now && AreDue(timers, Exec(steps, ttl), now)
    ensures var t := Exec(WithFired(steps, timers, now), ttl);
      t.clock <= now && Prompt(t, now) && OnlyTheExpiredGone(Exec(steps, ttl), t, ttl, now)
    decreases timers
  {
    hide Prompt, OnlyTheExpiredGone, Ended, Exec, Fired, AreDue;
    var s := Exec(steps, ttl);
    RunKeepsInv(steps, ttl);
    if timers == [] {
      NoneDueNoneOver(s, ttl, now);
    } else {
      OneDueFired(s, ttl, timers, now);
      ExecSnoc(steps, ttl, Fire(timers[0], now));
      FiringTheDueSettles(steps + [Fire(timers[0], now)], ttl, timers[1..], now);
      var t := Exec(steps + [Fire(timers[0], now)], ttl);
      var u := Exec(WithFired(steps + [Fire(timers[0], now)], timers[1..], now), ttl);
      GoneThen(s, t, u, ttl, s.timers[timers[0]].token, now);
    }
  }

  /** There always is such an order of the due timers. */
  lemma {:induction false} SomeOrder(due: set<nat>) returns (timers: seq<nat>)
    ensures forall i: nat :: i in timers <==> i in due
    ensures forall j, k :: 0 <= j < k < |timers| ==> timers[j] != timers[k]
    decreases |due|
  {
    timers := [];
    if due != {} {
      var i :| i in due;
      var rest := SomeOrder(due - {i});
      assert i !in rest;
      timers := rest + [i];
    }
  }

  lemma DueCanBeFired(steps: seq<Step>, ttl: Ttl, now: int) returns (timers: seq<nat>)
    requires Exec(steps, ttl).clock <= now
    ensures AreDue(timers, Exec(steps, ttl), now)
    ensures Prompt(Exec(WithFired(steps, timers, now), ttl), now)
  {
    var s := Exec(steps, ttl);
    timers := SomeOrder(set i | i in s.timers && s.timers[i].dueAt <= now);
    FiringTheDueSettles(steps, ttl, timers, now);
  }
}
