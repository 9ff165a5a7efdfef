/** The session registry: two expiry clocks, one armed timer per session, and one
    revocation per lifetime.

    A lifetime begins when a token is stored that was not stored before.  `lives`,
    `nextLife` and `ended` are the history: which lifetime each stored token is in,
    how many there have been, and for which of them `onRevoked` has been called. */
module SessionRegistry {
  import opened Integers
  import opened Wrappers

  datatype Ttl = Ttl(absoluteMs: int, idleMs: int)

  const DEFAULT_TTL := Ttl(8 * 60 * 60 * 1000, 30 * 60 * 1000)

  datatype Session = Session(token: string, userId: string, passwordChangeRequired: bool)

  datatype Stored = Stored(session: Session, createdAt: int, lastSeenAt: int, expiryTimer: nat)

  datatype Timer = Timer(token: string, dueAt: int)

  datatype State = State(
    sessions: map<string, Stored>,
    timers: map<nat, Timer>,  // the armed ones
    nextTimer: nat,
    clock: int,
    lives: map<string, nat>, nextLife: nat, ended: multiset<nat>)

  const EMPTY := State(map[], map[], 0, 0, map[], 0, multiset{})

  function ExpiresAt(ttl: Ttl, st: Stored): int {
    Min(st.createdAt + ttl.absoluteMs, st.lastSeenAt + ttl.idleMs)
  }

  predicate Expired(ttl: Ttl, st: Stored, now: int) {
    st.createdAt + ttl.absoluteMs <= now || st.lastSeenAt + ttl.idleMs <= now
  }

  // ------------------------------------------------------------------------
  // Operations
  // ------------------------------------------------------------------------

  /** `store`: the previous timer is cleared and a new one armed. */
  ghost function Store(s: State, ttl: Ttl, session: Session, createdAt: int, lastSeenAt: int, now: int): State {
    var token := session.token;
    var timers := if token in s.sessions then s.timers - {s.sessions[token].expiryTimer} else s.timers;
    var st := Stored(session, createdAt, lastSeenAt, s.nextTimer);
    State(s.sessions[token := st],
          timers[s.nextTimer := Timer(token, now + Max(0, ExpiresAt(ttl, st) - now))],
          s.nextTimer + 1, now,
          if token in s.sessions then s.lives else s.lives[token := s.nextLife],
          if token in s.sessions then s.nextLife else s.nextLife + 1,
          s.ended)
  }

  /** Some stored tokens go, with their timers; each of their lifetimes is revoked. */
  ghost function Remove(s: State, tokens: set<string>): State
    requires tokens <= s.sessions.Keys && tokens <= s.lives.Keys
  {
    s.(sessions := s.sessions - tokens,
       timers := s.timers - (set t | t in tokens :: s.sessions[t].expiryTimer),
       lives := s.lives - tokens,
       ended := s.ended + multiset(set t | t in tokens :: s.lives[t]))
  }

  ghost predicate Linked(s: State) { s.sessions.Keys == s.lives.Keys }

  ghost function Deleted(s: State, token: string): State
    requires Linked(s)
  {
    if token in s.sessions then Remove(s, {token}) else s
  }

  ghost function Got(s: State, ttl: Ttl, token: string, now: int): State
    requires Linked(s)
  {
    if token !in s.sessions then s.(clock := now)
    else
      var st := s.sessions[token];
      if Expired(ttl, st, now) then Remove(s, {token}).(clock := now)
      else Store(s, ttl, st.session, st.createdAt, now, now)
  }

  function GetResult(sessions: map<string, Stored>, ttl: Ttl, token: string, now: int): Option<Session> {
    if token in sessions && !Expired(ttl, sessions[token], now) then Some(sessions[token].session) else None
  }

  ghost function WasSet(s: State, ttl: Ttl, session: Session, now: int): State {
    Store(s, ttl, session,
          if session.token in s.sessions then s.sessions[session.token].createdAt else now, now, now)
  }

  ghost function TokensOf(s: State, userId: string): set<string> {
    set t | t in s.sessions && s.sessions[t].session.userId == userId
  }

  ghost function UserRevoked(s: State, userId: string): State
    requires Linked(s)
  {
    Remove(s, TokensOf(s, userId))
  }

  /** A timer fires, late or early: `expire` deletes the session if it is due and
      arms a new timer if it is not. */
  ghost function Fired(s: State, ttl: Ttl, timer: nat, now: int): State
    requires Linked(s) && timer in s.timers && s.timers[timer].token in s.sessions
  {
    var token := s.timers[timer].token;
    var st := s.sessions[token];
    if Expired(ttl, st, now) then Remove(s, {token}).(clock := now)
    else Store(s, ttl, st.session, st.createdAt, st.lastSeenAt, now)
  }

  // ------------------------------------------------------------------------
  // Invariant
  // ------------------------------------------------------------------------

  ghost predicate Keyed(s: State) {
    forall t :: t in s.sessions ==> s.sessions[t].session.token == t
  }

  /** Every stored token has exactly one armed timer, and every armed timer a stored
      token; the timer is due when the session expires, or was already due when armed. */
  ghost predicate TimerInv(s: State, ttl: Ttl) {
    && Keyed(s)
    && (forall t :: t in s.sessions ==>
          && s.sessions[t].createdAt <= s.sessions[t].lastSeenAt <= s.clock
          && s.sessions[t].expiryTimer in s.timers
          && s.timers[s.sessions[t].expiryTimer].token == t
          && ExpiresAt(ttl, s.sessions[t]) <= s.timers[s.sessions[t].expiryTimer].dueAt
             <= Max(ExpiresAt(ttl, s.sessions[t]), s.clock))
    && (forall i :: i in s.timers ==>
          && i < s.nextTimer
          && s.timers[i].token in s.sessions
          && s.sessions[s.timers[i].token].expiryTimer == i)
  }

  ghost predicate IsCurrent(lives: map<string, nat>, life: nat) {
    exists t :: t in lives && lives[t] == life
  }

  /** `onRevoked` has been called once for every lifetime that is over and not at
      all for the others. */
  ghost predicate LifeInv(s: State) {
    && Linked(s)
    && (forall t :: t in s.lives ==> s.lives[t] < s.nextLife)
    && (forall t, u :: t in s.lives && u in s.lives && s.lives[t] == s.lives[u] ==> t == u)
    && (forall l: nat :: s.ended[l] == if l < s.nextLife && !IsCurrent(s.lives, l) then 1 else 0)
  }

  ghost predicate Inv(s: State, ttl: Ttl) { TimerInv(s, ttl) && LifeInv(s) }

  lemma StoreKeepsTimers(s: State, ttl: Ttl, session: Session, createdAt: int, lastSeenAt: int, now: int)
    requires TimerInv(s, ttl) && s.clock <= now && createdAt <= lastSeenAt <= now
    ensures TimerInv(Store(s, ttl, session, createdAt, lastSeenAt, now), ttl)
  {
  }

  lemma StoreKeepsLives(s: State, ttl: Ttl, session: Session, createdAt: int, lastSeenAt: int, now: int)
    requires LifeInv(s)
    ensures LifeInv(Store(s, ttl, session, createdAt, lastSeenAt, now))
  {
    var t := Store(s, ttl, session, createdAt, lastSeenAt, now);
    if session.token !in s.sessions {
      forall l: nat
        ensures IsCurrent(t.lives, l) <==> IsCurrent(s.lives, l) || l == s.nextLife
      {
        if IsCurrent(s.lives, l) {
          var u :| u in s.lives && s.lives[u] == l;
          assert u in t.lives && t.lives[u] == l;
        }
        if l == s.nextLife {
          assert t.lives[session.token] == l;
        }
      }
    }
  }

  lemma RemoveKeepsTimers(s: State, ttl: Ttl, tokens: set<string>, now: int)
    requires TimerInv(s, ttl) && Linked(s) && tokens <= s.sessions.Keys && s.clock <= now
    ensures TimerInv(Remove(s, tokens).(clock := now), ttl)
  {
  }

  lemma RemoveKeepsLives(s: State, tokens: set<string>)
    requires LifeInv(s) && tokens <= s.sessions.Keys
    ensures LifeInv(Remove(s, tokens))
  {
    var t := Remove(s, tokens);
    var gone := set u | u in tokens :: s.lives[u];
    forall l: nat
      ensures IsCurrent(t.lives, l) <==> IsCurrent(s.lives, l) && l !in gone
      ensures l in gone ==> IsCurrent(s.lives, l)
    {
      if IsCurrent(s.lives, l) && l !in gone {
        var u :| u in s.lives && s.lives[u] == l;
        assert u in t.lives;
      }
    }
  }

  // ------------------------------------------------------------------------
  // Runs
  // ------------------------------------------------------------------------

  datatype Step =
    | Get(token: string, now: int)
    | Set(session: Session, now: int)
    | Delete(token: string, now: int)
    | RevokeUser(userId: string, now: int)
    | Fire(timer: nat, now: int)

  /** The clock does not run backwards, and only an armed timer fires, early or late. */
  ghost predicate Enabled(s: State, step: Step) {
    && s.clock <= step.now
    && (step.Fire? ==> step.timer in s.timers && s.timers[step.timer].token in s.sessions)
  }

  /** No armed timer is due. */
  ghost predicate Prompt(s: State, now: int) {
    forall i :: i in s.timers ==> now < s.timers[i].dueAt
  }

  ghost function Next(s: State, ttl: Ttl, step: Step): State
    requires Linked(s)
  {
    if !Enabled(s, step) then s
    else match step
      case Get(token, now) => Got(s, ttl, token, now)
      case Set(session, now) => WasSet(s, ttl, session, now)
      case Delete(token, now) => Deleted(s, token).(clock := now)
      case RevokeUser(userId, now) => UserRevoked(s, userId).(clock := now)
      case Fire(timer, now) => Fired(s, ttl, timer, now)
  }

  lemma SetKeepsInv(s: State, ttl: Ttl, session: Session, now: int)
    requires Inv(s, ttl) && s.clock <= now
    ensures Inv(WasSet(s, ttl, session, now), ttl)
  {
    var createdAt := if session.token in s.sessions then s.sessions[session.token].createdAt else now;
    StoreKeepsTimers(s, ttl, session, createdAt, now, now);
    StoreKeepsLives(s, ttl, session, createdAt, now, now);
  }

  lemma RemoveKeepsInv(s: State, ttl: Ttl, tokens: set<string>, now: int)
    requires Inv(s, ttl) && tokens <= s.sessions.Keys && s.clock <= now
    ensures Inv(Remove(s, tokens).(clock := now), ttl)
  {
    RemoveKeepsTimers(s, ttl, tokens, now);
    RemoveKeepsLives(s, tokens);
  }

  lemma ClockKeepsInv(s: State, ttl: Ttl, now: int)
    requires Inv(s, ttl) && s.clock <= now
    ensures Inv(s.(clock := now), ttl)
  {
  }

  lemma GetKeepsInv(s: State, ttl: Ttl, token: string, now: int)
    requires Inv(s, ttl) && s.clock <= now
    ensures Inv(Got(s, ttl, token, now), ttl)
  {
    if token in s.sessions {
      TouchOrRemoveKeepsInv(s, ttl, token, now, now);
    } else {
      ClockKeepsInv(s, ttl, now);
    }
  }

  lemma FireKeepsInv(s: State, ttl: Ttl, timer: nat, now: int)
    requires Inv(s, ttl) && s.clock <= now && timer in s.timers && s.timers[timer].token in s.sessions
    ensures Inv(Fired(s, ttl, timer, now), ttl)
  {
    var token := s.timers[timer].token;
    TouchOrRemoveKeepsInv(s, ttl, token, s.sessions[token].lastSeenAt, now);
  }

  lemma DeleteKeepsInv(s: State, ttl: Ttl, token: string, now: int)
    requires Inv(s, ttl) && s.clock <= now
    ensures Inv(Deleted(s, token).(clock := now), ttl)
  {
    if token in s.sessions {
      RemoveKeepsInv(s, ttl, {token}, now);
    } else {
      ClockKeepsInv(s, ttl, now);
    }
  }

  lemma NextKeepsInv(s: State, ttl: Ttl, step: Step)
    requires Linked(s) && Inv(s, ttl)
    ensures Inv(Next(s, ttl, step), ttl)
  {
    if Enabled(s, step) {
      match step
      case Get(token, now) => GetKeepsInv(s, ttl, token, now);
      case Set(session, now) => SetKeepsInv(s, ttl, session, now);
      case Delete(token, now) => DeleteKeepsInv(s, ttl, token, now);
      case RevokeUser(userId, now) => RemoveKeepsInv(s, ttl, TokensOf(s, userId), now);
      case Fire(timer, now) => FireKeepsInv(s, ttl, timer, now);
    }
  }

  lemma TouchOrRemoveKeepsInv(s: State, ttl: Ttl, token: string, lastSeenAt: int, now: int)
    requires Inv(s, ttl) && token in s.sessions && s.clock <= now
    requires s.sessions[token].createdAt <= lastSeenAt <= now
    ensures Inv(Remove(s, {token}).(clock := now), ttl)
    ensures Inv(Store(s, ttl, s.sessions[token].session, s.sessions[token].createdAt, lastSeenAt, now), ttl)
  {
    var st := s.sessions[token];
    RemoveKeepsTimers(s, ttl, {token}, now);
    RemoveKeepsLives(s, {token});
    StoreKeepsTimers(s, ttl, st.session, st.createdAt, lastSeenAt, now);
    StoreKeepsLives(s, ttl, st.session, st.createdAt, lastSeenAt, now);
  }

  lemma NextLinked(s: State, ttl: Ttl, step: Step)
    requires Linked(s)
    ensures Linked(Next(s, ttl, step))
  {
  }

  ghost function Exec(steps: seq<Step>, ttl: Ttl): (s: State)
    ensures Linked(s)
  {
    if steps == [] then EMPTY
    else
      var before := Exec(steps[..|steps| - 1], ttl);
      NextLinked(before, ttl, steps[|steps| - 1]);
      Next(before, ttl, steps[|steps| - 1])
  }

  lemma {:induction false} RunKeepsInv(steps: seq<Step>, ttl: Ttl)
    ensures Inv(Exec(steps, ttl), ttl)
  {
    if steps != [] {
      RunKeepsInv(steps[..|steps| - 1], ttl);
      NextKeepsInv(Exec(steps[..|steps| - 1], ttl), ttl, steps[|steps| - 1]);
    }
  }

  lemma ExecSnoc(steps: seq<Step>, ttl: Ttl, step: Step)
    ensures Exec(steps + [step], ttl) == Next(Exec(steps, ttl), ttl, step)
  {
    assert (steps + [step])[..|steps|] == steps;
  }

  /** The clock does not run backwards. */
  ghost predicate Timely(steps: seq<Step>, ttl: Ttl) {
    steps == []
    || (Timely(steps[..|steps| - 1], ttl) && Exec(steps[..|steps| - 1], ttl).clock <= steps[|steps| - 1].now)
  }

  /** The step sets a token whose stored session has expired, its timer being late. */
  ghost predicate IsOverdueSet(s: State, ttl: Ttl, step: Step) {
    step.Set? && step.session.token in s.sessions && Expired(ttl, s.sessions[step.session.token], step.now)
  }

  ghost predicate NoOverdueSet(steps: seq<Step>, ttl: Ttl) {
    steps == []
    || (NoOverdueSet(steps[..|steps| - 1], ttl)
        && !IsOverdueSet(Exec(steps[..|steps| - 1], ttl), ttl, steps[|steps| - 1]))
  }

  /** On every run each lifetime that is over has been revoked exactly once, each
      current one not at all, and each stored token has exactly one armed timer. */
  lemma RevokedExactlyOnce(steps: seq<Step>, ttl: Ttl, life: nat)
    ensures var s := Exec(steps, ttl);
      && s.ended[life] == (if life < s.nextLife && !IsCurrent(s.lives, life) then 1 else 0)
      && (forall t :: t in s.sessions ==>
            forall i :: i in s.timers && s.timers[i].token == t <==> i == s.sessions[t].expiryTimer)
  {
    RunKeepsInv(steps, ttl);
  }

  /** `revokeUser` removes exactly that user's sessions and revokes exactly their
      lifetimes. */
  lemma RevokeUserIsExact(steps: seq<Step>, ttl: Ttl, userId: string)
    ensures var s := Exec(steps, ttl); var t := UserRevoked(s, userId);
      && (forall k :: k in t.sessions <==> k in s.sessions && s.sessions[k].session.userId != userId)
      && (forall k :: k in t.sessions ==> t.sessions[k] == s.sessions[k])
      && (forall l: nat :: t.ended[l] - s.ended[l]
            == if exists k :: k in s.sessions && s.sessions[k].session.userId == userId && s.lives[k] == l
               then 1 else 0)
  {
    RunKeepsInv(steps, ttl);
    var s := Exec(steps, ttl);
    var gone := set t | t in TokensOf(s, userId) :: s.lives[t];
    forall l: nat
      ensures l in gone <==> exists k :: k in s.sessions && s.sessions[k].session.userId == userId && s.lives[k] == l
    {
      if k :| k in s.sessions && s.sessions[k].session.userId == userId && s.lives[k] == l {
        assert k in TokensOf(s, userId);
      }
    }
  }

  lemma StepKeepsCreatedAt(s: State, ttl: Ttl, step: Step, token: string)
    requires Linked(s) && Keyed(s)
    ensures Linked(Next(s, ttl, step)) && s.nextLife <= Next(s, ttl, step).nextLife
    ensures var t := Next(s, ttl, step);
      token in t.sessions && t.lives[token] < s.nextLife ==>
        && token in s.sessions && s.lives[token] == t.lives[token]
        && s.sessions[token].createdAt == t.sessions[token].createdAt
  {
  }

  lemma RunIsKeyed(steps: seq<Step>, ttl: Ttl)
    ensures Keyed(Exec(steps, ttl))
    ensures forall t :: t in Exec(steps, ttl).sessions ==> Exec(steps, ttl).lives[t] < Exec(steps, ttl).nextLife
  {
    RunKeepsInv(steps, ttl);
  }

  /** Within a lifetime the creation time never moves, whatever happens in between. */
  lemma {:induction false} CreatedAtIsFixed(steps: seq<Step>, more: seq<Step>, ttl: Ttl, token: string)
    requires token in Exec(steps, ttl).sessions
    ensures Exec(steps, ttl).nextLife <= Exec(steps + more, ttl).nextLife
    ensures token in Exec(steps + more, ttl).sessions
            && Exec(steps, ttl).lives[token] == Exec(steps + more, ttl).lives[token] ==>
              Exec(steps + more, ttl).sessions[token].createdAt == Exec(steps, ttl).sessions[token].createdAt
  {
    hide Exec, Next;
    if more == [] {
      assert steps + more == steps;
    } else {
      var n := |more| - 1;
      RunIsKeyed(steps, ttl);
      RunIsKeyed(steps + more[..n], ttl);
      CreatedAtIsFixed(steps, more[..n], ttl, token);
      assert steps + more == (steps + more[..n]) + [more[n]];
      ExecSnoc(steps + more[..n], ttl, more[n]);
      StepKeepsCreatedAt(Exec(steps + more[..n], ttl), ttl, more[n], token);
    }
  }

  // ------------------------------------------------------------------------
  // The timer-free specification
  // ------------------------------------------------------------------------

  /** A lifetime as the times it was touched, its creation first. */
  datatype Life = Life(session: Session, touches: seq<int>)

  ghost predicate GapsBelow(touches: seq<int>, idleMs: int) {
    forall i :: 0 < i < |touches| ==> touches[i] - touches[i - 1] < idleMs
  }

  ghost predicate AliveAt(life: Life, ttl: Ttl, now: int) {
    && life.touches != []
    && now < life.touches[0] + ttl.absoluteMs
    && GapsBelow(life.touches + [now], ttl.idleMs)
  }

  ghost function SpecTouch(m: map<string, Life>, ttl: Ttl, token: string, now: int): map<string, Life> {
    if token in m && AliveAt(m[token], ttl, now)
    then m[token := Life(m[token].session, m[token].touches + [now])] else m
  }

  ghost function SpecSet(m: map<string, Life>, ttl: Ttl, session: Session, now: int): map<string, Life> {
    var token := session.token;
    m[token := Life(session, if token in m && AliveAt(m[token], ttl, now) then m[token].touches + [now] else [now])]
  }

  /** Nothing ever expires by itself here: lifetimes are only asked whether they are alive. */
  ghost function SpecNext(m: map<string, Life>, ttl: Ttl, step: Step): map<string, Life> {
    match step
    case Get(token, now) => SpecTouch(m, ttl, token, now)
    case Set(session, now) => SpecSet(m, ttl, session, now)
    case Delete(token, _) => m - {token}
    case RevokeUser(userId, now) =>
      map t | t in m && !(AliveAt(m[t], ttl, now) && m[t].session.userId == userId) :: m[t]
    case Fire(_, _) => m
  }

  ghost function SpecExec(steps: seq<Step>, ttl: Ttl): map<string, Life> {
    if steps == [] then map[] else SpecNext(SpecExec(steps[..|steps| - 1], ttl), ttl, steps[|steps| - 1])
  }

  ghost predicate Matches(st: Stored, life: Life, ttl: Ttl) {
    && life.touches != []
    && st.session == life.session
    && st.createdAt == life.touches[0]
    && st.lastSeenAt == life.touches[|life.touches| - 1]
    && GapsBelow(life.touches, ttl.idleMs)
  }

  /** Stored sessions match their lifetimes; lifetimes no longer stored are no longer alive. */
  ghost predicate Refines(s: State, m: map<string, Life>, ttl: Ttl) {
    && (forall t :: t in s.sessions ==> t in m && Matches(s.sessions[t], m[t], ttl))
    && (forall t :: t in m && t !in s.sessions ==> !AliveAt(m[t], ttl, s.clock))
  }

  lemma AliveIffNotExpired(st: Stored, life: Life, ttl: Ttl, now: int)
    requires Matches(st, life, ttl)
    ensures AliveAt(life, ttl, now) <==> !Expired(ttl, st, now)
    ensures AliveAt(life, ttl, now) ==> Matches(st.(lastSeenAt := now), Life(life.session, life.touches + [now]), ttl)
  {
    var all := life.touches + [now];
    if !Expired(ttl, st, now) {
      forall i | 0 < i < |all|
        ensures all[i] - all[i - 1] < ttl.idleMs
      {
      }
    } else if st.lastSeenAt + ttl.idleMs <= now {
      var i := |life.touches|;
      assert all[i] - all[i - 1] >= ttl.idleMs;
    }
  }

  lemma DeadStaysDead(life: Life, ttl: Ttl, before: int, now: int)
    requires before <= now && !AliveAt(life, ttl, before)
    ensures !AliveAt(life, ttl, now)
  {
    if life.touches != [] && AliveAt(life, ttl, now) {
      var all, then' := life.touches + [now], life.touches + [before];
      forall i | 0 < i < |then'|
        ensures then'[i] - then'[i - 1] < ttl.idleMs
      {
        assert all[i] - all[i - 1] < ttl.idleMs;
      }
    }
  }

  lemma TouchRefines(s: State, m: map<string, Life>, ttl: Ttl, token: string, now: int)
    requires Linked(s) && Keyed(s) && Refines(s, m, ttl) && s.clock <= now
    ensures Refines(Got(s, ttl, token, now), SpecTouch(m, ttl, token, now), ttl)
    ensures GetResult(s.sessions, ttl, token, now)
         == if token in m && AliveAt(m[token], ttl, now) then Some(m[token].session) else None
  {
    KeepsDead(s, m, ttl, now);
    if token in s.sessions {
      AliveIffNotExpired(s.sessions[token], m[token], ttl, now);
    }
  }

  lemma KeepsDead(s: State, m: map<string, Life>, ttl: Ttl, now: int)
    requires Refines(s, m, ttl) && s.clock <= now
    ensures Refines(s.(clock := now), m, ttl)
  {
    forall t | t in m && t !in s.sessions
      ensures !AliveAt(m[t], ttl, now)
    {
      DeadStaysDead(m[t], ttl, s.clock, now);
    }
  }

  /** A `set` may not find a session that has expired without its timer having
      fired, or it would prolong what the specification begins anew. */
  lemma SetRefines(s: State, m: map<string, Life>, ttl: Ttl, session: Session, now: int)
    requires Linked(s) && Refines(s, m, ttl) && s.clock <= now
    requires session.token in s.sessions ==> !Expired(ttl, s.sessions[session.token], now)
    ensures Refines(WasSet(s, ttl, session, now), SpecSet(m, ttl, session, now), ttl)
  {
    KeepsDead(s, m, ttl, now);
    var token := session.token;
    if token in s.sessions {
      AliveIffNotExpired(s.sessions[token], m[token], ttl, now);
    }
  }

  lemma RemoveRefines(s: State, m: map<string, Life>, ttl: Ttl, token: string, now: int)
    requires Linked(s) && Refines(s, m, ttl) && s.clock <= now
    ensures Refines(Deleted(s, token).(clock := now), m - {token}, ttl)
  {
    KeepsDead(s, m, ttl, now);
  }

  lemma RevokeRefines(s: State, m: map<string, Life>, ttl: Ttl, userId: string, now: int)
    requires Linked(s) && Refines(s, m, ttl) && s.clock <= now
    ensures Refines(UserRevoked(s, userId).(clock := now), SpecNext(m, ttl, RevokeUser(userId, now)), ttl)
  {
    KeepsDead(s, m, ttl, now);
    forall t | t in s.sessions
      ensures AliveAt(m[t], ttl, now) <==> !Expired(ttl, s.sessions[t], now)
    {
      AliveIffNotExpired(s.sessions[t], m[t], ttl, now);
    }
  }

  lemma FireRefines(s: State, m: map<string, Life>, ttl: Ttl, timer: nat, now: int)
    requires Linked(s) && Keyed(s) && Refines(s, m, ttl) && s.clock <= now
    requires timer in s.timers && s.timers[timer].token in s.sessions
    ensures Refines(Fired(s, ttl, timer, now), m, ttl)
  {
    hide AliveAt, GapsBelow;
    KeepsDead(s, m, ttl, now);
    var token := s.timers[timer].token;
    AliveIffNotExpired(s.sessions[token], m[token], ttl, now);
  }

  lemma PromptMeansNotExpired(s: State, ttl: Ttl, now: int)
    requires TimerInv(s, ttl) && Prompt(s, now) && s.clock <= now
    ensures forall t :: t in s.sessions ==>
              && !Expired(ttl, s.sessions[t], now)
              && s.timers[s.sessions[t].expiryTimer].dueAt == ExpiresAt(ttl, s.sessions[t])
  {
  }

  lemma NextRefines(s: State, m: map<string, Life>, ttl: Ttl, step: Step)
    requires Linked(s) && Keyed(s) && Refines(s, m, ttl) && s.clock <= step.now && !IsOverdueSet(s, ttl, step)
    ensures Refines(Next(s, ttl, step), SpecNext(m, ttl, step), ttl)
  {
    match step
    case Get(token, now) => TouchRefines(s, m, ttl, token, now);
    case Set(session, now) => SetRefines(s, m, ttl, session, now);
    case Delete(token, now) => RemoveRefines(s, m, ttl, token, now);
    case RevokeUser(userId, now) => RevokeRefines(s, m, ttl, userId, now);
    case Fire(timer, now) =>
      if Enabled(s, step) {
        FireRefines(s, m, ttl, timer, now);
      }
  }

  lemma {:induction false} RunRefines(steps: seq<Step>, ttl: Ttl)
    requires Timely(steps, ttl) && NoOverdueSet(steps, ttl)
    ensures Refines(Exec(steps, ttl), SpecExec(steps, ttl), ttl)
  {
    if steps != [] {
      var n := |steps| - 1;
      RunRefines(steps[..n], ttl);
      RunIsKeyed(steps[..n], ttl);
      NextRefines(Exec(steps[..n], ttl), SpecExec(steps[..n], ttl), ttl, steps[n]);
    }
  }

  /** However late the timers fire, on every run without an overdue `set`: a token is
      stored and not expired exactly if its lifetime is alive, and a `get` then answers
      the lifetime's session; each stored token has the lifetime's own clocks and one
      armed timer, due when it expires or, if that was past, when it was armed. */
  lemma RefinesTimerFreeSpecification(steps: seq<Step>, ttl: Ttl, now: int)
    requires Timely(steps, ttl) && NoOverdueSet(steps, ttl) && Exec(steps, ttl).clock <= now
    ensures var s, m := Exec(steps, ttl), SpecExec(steps, ttl);
      && (forall t :: t in s.sessions && !Expired(ttl, s.sessions[t], now) <==> t in m && AliveAt(m[t], ttl, now))
      && (forall t :: GetResult(s.sessions, ttl, t, now)
            == if t in m && AliveAt(m[t], ttl, now) then Some(m[t].session) else None)
      && (forall t :: t in s.sessions ==> t in m && Matches(s.sessions[t], m[t], ttl) && HasOwnTimer(s, ttl, t))
  {
    RunRefines(steps, ttl);
    RunKeepsInv(steps, ttl);
    var s, m := Exec(steps, ttl), SpecExec(steps, ttl);
    KeepsDead(s, m, ttl, now);
    forall t | t in s.sessions
      ensures AliveAt(m[t], ttl, now) <==> !Expired(ttl, s.sessions[t], now)
    {
      AliveIffNotExpired(s.sessions[t], m[t], ttl, now);
    }
  }

  ghost predicate HasOwnTimer(s: State, ttl: Ttl, token: string)
    requires token in s.sessions
  {
    var st := s.sessions[token];
    && st.expiryTimer in s.timers
    && s.timers[st.expiryTimer].token == token
    && ExpiresAt(ttl, st) <= s.timers[st.expiryTimer].dueAt <= Max(ExpiresAt(ttl, st), s.clock)
    && (forall i :: i in s.timers && s.timers[i].token == token ==> i == st.expiryTimer)
  }

  /** Once the due timers have fired, the stored tokens are exactly those whose lifetime
      is alive, and each timer is due exactly when its session expires. */
  lemma StoredExactlyAliveOncePrompt(steps: seq<Step>, ttl: Ttl, now: int)
    requires Timely(steps, ttl) && NoOverdueSet(steps, ttl)
    requires Exec(steps, ttl).clock <= now && Prompt(Exec(steps, ttl), now)
    ensures var s, m := Exec(steps, ttl), SpecExec(steps, ttl);
      && (forall t :: t in s.sessions <==> t in m && AliveAt(m[t], ttl, now))
      && (forall t :: t in s.sessions ==>
            && s.sessions[t].expiryTimer in s.timers
            && s.timers[s.sessions[t].expiryTimer] == Timer(t, ExpiresAt(ttl, s.sessions[t])))
  {
    RefinesTimerFreeSpecification(steps, ttl, now);
    RunKeepsInv(steps, ttl);
    PromptMeansNotExpired(Exec(steps, ttl), ttl, now);
  }

  /** Timers may be late: a `set` then still agrees with the specification exactly
      when it does not find a stored session that has expired. */
  lemma SetAgreesExactlyIfNotOverdue(s: State, m: map<string, Life>, ttl: Ttl, session: Session, now: int)
    requires Inv(s, ttl) && Refines(s, m, ttl) && s.clock <= now
    requires ttl.absoluteMs > 0 && ttl.idleMs > 0
    ensures Refines(WasSet(s, ttl, session, now), SpecSet(m, ttl, session, now), ttl)
       <==> !(session.token in s.sessions && Expired(ttl, s.sessions[session.token], now))
  {
    var token := session.token;
    if token in s.sessions && Expired(ttl, s.sessions[token], now) {
      AliveIffNotExpired(s.sessions[token], m[token], ttl, now);
      assert s.sessions[token].createdAt < now;
      assert WasSet(s, ttl, session, now).sessions[token].createdAt != SpecSet(m, ttl, session, now)[token].touches[0];
      assert token in WasSet(s, ttl, session, now).sessions;
    } else {
      SetRefines(s, m, ttl, session, now);
    }
  }

  ghost predicate AgreesThroughout(steps: seq<Step>, ttl: Ttl) {
    && Refines(Exec(steps, ttl), SpecExec(steps, ttl), ttl)
    && (steps == [] || AgreesThroughout(steps[..|steps| - 1], ttl))
  }

  /** The registry agrees with the specification at every point of a run exactly if the
      run has no overdue `set`. */
  lemma {:induction false} AgreesThroughoutExactlyIfNoOverdueSet(steps: seq<Step>, ttl: Ttl)
    requires Timely(steps, ttl) && ttl.absoluteMs > 0 && ttl.idleMs > 0
    ensures AgreesThroughout(steps, ttl) <==> NoOverdueSet(steps, ttl)
  {
    if steps != [] {
      AgreesThroughoutExactlyIfNoOverdueSet(steps[..|steps| - 1], ttl);
      if NoOverdueSet(steps, ttl) {
        RunRefines(steps, ttl);
      } else if NoOverdueSet(steps[..|steps| - 1], ttl) {
        OverdueSetDisagrees(steps, ttl);
      }
    }
  }

  lemma OverdueSetDisagrees(steps: seq<Step>, ttl: Ttl)
    requires steps != [] && Timely(steps, ttl) && ttl.absoluteMs > 0 && ttl.idleMs > 0
    requires NoOverdueSet(steps[..|steps| - 1], ttl) && !NoOverdueSet(steps, ttl)
    ensures !Refines(Exec(steps, ttl), SpecExec(steps, ttl), ttl)
  {
    var n := |steps| - 1;
    RunRefines(steps[..n], ttl);
    RunKeepsInv(steps[..n], ttl);
    SetAgreesExactlyIfNotOverdue(Exec(steps[..n], ttl), SpecExec(steps[..n], ttl), ttl, steps[n].session, steps[n].now);
  }

  /** An overdue `set` can happen: a session set again at its absolute limit, before its
      timer fires, keeps its old creation time and is unusable at once, although the
      specification begins it anew. */
  lemma OverdueSetIsReachable(session: Session, ttl: Ttl)
    requires ttl.absoluteMs > 0 && ttl.idleMs > 0
    ensures var now := ttl.absoluteMs; var run := [Set(session, 0), Set(session, now)];
      var s, m := Exec(run, ttl), SpecExec(run, ttl); var token := session.token;
      && Timely(run, ttl) && !NoOverdueSet(run, ttl)
      && token in s.sessions && s.sessions[token].createdAt == 0 && GetResult(s.sessions, ttl, token, now) == None
      && token in m && AliveAt(m[token], ttl, now)
  {
    var now := ttl.absoluteMs;
    var first, run := [Set(session, 0)], [Set(session, 0), Set(session, now)];
    assert first == [] + [Set(session, 0)] && first[..0] == [];
    assert run == first + [Set(session, now)] && run[..1] == first;
    ExecSnoc([], ttl, Set(session, 0));
    ExecSnoc(first, ttl, Set(session, now));
    var life := SpecExec(first, ttl)[session.token];
    assert SpecExec(first, ttl) == SpecSet(map[], ttl, session, 0);
    assert life.touches == [0] && !AliveAt(life, ttl, now);
    assert SpecExec(run, ttl) == SpecSet(SpecExec(first, ttl), ttl, session, now);
  }

  /** A session set at time 0 and then read `n` times, `period` apart. */
  function Reads(session: Session, period: int, n: nat): seq<Step> {
    if n == 0 then [Set(session, 0)] else Reads(session, period, n - 1) + [Get(session.token, n * period)]
  }

  /** No step of the run finds a timer due. */
  ghost predicate OnTime(steps: seq<Step>, ttl: Ttl) {
    steps == []
    || (OnTime(steps[..|steps| - 1], ttl) && Prompt(Exec(steps[..|steps| - 1], ttl), steps[|steps| - 1].now))
  }

  /** The session is the only one, as created at 0 and last seen at this time. */
  ghost predicate ReadAt(s: State, session: Session, ttl: Ttl, now: int) {
    var token := session.token;
    && s.clock == now && token in s.sessions && s.sessions.Keys == {token}
    && s.sessions[token].session == session && s.sessions[token].createdAt == 0 && s.sessions[token].lastSeenAt == now
    && s.timers == map[s.sessions[token].expiryTimer := Timer(token, Min(ttl.absoluteMs, now + ttl.idleMs))]
  }

  lemma SetOnEmpty(session: Session, ttl: Ttl)
    requires ttl.absoluteMs > 0 && ttl.idleMs > 0
    ensures ReadAt(Next(EMPTY, ttl, Set(session, 0)), session, ttl, 0)
  {
  }

  lemma ReadAgain(s: State, session: Session, ttl: Ttl, before: int, now: int)
    requires Linked(s) && ReadAt(s, session, ttl, before)
    requires before <= now < ttl.absoluteMs && now - before < ttl.idleMs
    ensures Prompt(s, now) && s.clock <= now
    ensures ReadAt(Next(s, ttl, Get(session.token, now)), session, ttl, now)
  {
  }

  lemma RunSnoc(steps: seq<Step>, ttl: Ttl, step: Step)
    ensures var run := steps + [step]; var s := Exec(steps, ttl);
      && Exec(run, ttl) == Next(s, ttl, step) && SpecExec(run, ttl) == SpecNext(SpecExec(steps, ttl), ttl, step)
      && (Timely(run, ttl) <==> Timely(steps, ttl) && s.clock <= step.now)
      && (OnTime(run, ttl) <==> OnTime(steps, ttl) && Prompt(s, step.now))
      && (NoOverdueSet(run, ttl) <==> NoOverdueSet(steps, ttl) && !IsOverdueSet(s, ttl, step))
  {
    assert (steps + [step])[..|steps|] == steps;
  }

  /** The run is in order, every step on time, and leaves the session as read at `now`. */
  ghost predicate InUse(run: seq<Step>, session: Session, ttl: Ttl, now: int) {
    Timely(run, ttl) && OnTime(run, ttl) && NoOverdueSet(run, ttl) && ReadAt(Exec(run, ttl), session, ttl, now)
  }

  lemma FirstUse(session: Session, ttl: Ttl)
    requires ttl.absoluteMs > 0 && ttl.idleMs > 0
    ensures InUse([Set(session, 0)], session, ttl, 0)
  {
    assert [] + [Set(session, 0)] == [Set(session, 0)];
    RunSnoc([], ttl, Set(session, 0));
    assert Exec([], ttl) == EMPTY && OnTime([], ttl) && NoOverdueSet([], ttl);
    SetOnEmpty(session, ttl);
  }

  lemma UsedAgain(run: seq<Step>, session: Session, ttl: Ttl, before: int, now: int)
    requires InUse(run, session, ttl, before)
    requires before <= now < ttl.absoluteMs && now - before < ttl.idleMs
    ensures InUse(run + [Get(session.token, now)], session, ttl, now)
  {
    hide Exec, SpecExec, Timely, OnTime, NoOverdueSet, Next, ReadAt, Prompt;
    RunSnoc(run, ttl, Get(session.token, now));
    ReadAgain(Exec(run, ttl), session, ttl, before, now);
  }

  lemma {:induction false} ReadsAreOnTime(session: Session, ttl: Ttl, period: int, n: nat)
    requires 0 <= period < ttl.idleMs && ttl.absoluteMs > 0 && n * period < ttl.absoluteMs
    ensures InUse(Reads(session, period, n), session, ttl, n * period)
  {
    hide InUse;
    if n == 0 {
      FirstUse(session, ttl);
    } else {
      assert n * period == (n - 1) * period + period;
      ReadsAreOnTime(session, ttl, period, n - 1);
      UsedAgain(Reads(session, period, n - 1), session, ttl, (n - 1) * period, n * period);
    }
  }

  /** The timer need only be late by a moment: a session kept in use until its absolute
      limit, no timer having been due at any step before, is set anew at that limit just
      ahead of its timer, and is unusable at once.  With the default limits 23 reads
      twenty minutes apart are such a run. */
  lemma OverdueByAMoment(session: Session, ttl: Ttl, period: int, n: nat)
    requires 0 <= period < ttl.idleMs && ttl.absoluteMs > 0
    requires n * period < ttl.absoluteMs <= n * period + ttl.idleMs
    ensures var before, now := Reads(session, period, n), ttl.absoluteMs; var run := before + [Set(session, now)];
      var s, m := Exec(run, ttl), SpecExec(run, ttl); var token := session.token;
      && Timely(run, ttl) && OnTime(before, ttl) && Prompt(Exec(before, ttl), now - 1) && !NoOverdueSet(run, ttl)
      && token in s.sessions && s.sessions[token].createdAt == 0 && GetResult(s.sessions, ttl, token, now) == None
      && token in m && AliveAt(m[token], ttl, now)
  {
    hide Exec, SpecExec, Timely, OnTime, NoOverdueSet, Next, Refines, AliveAt, Prompt, IsOverdueSet, GetResult, SpecSet;
    var before, now := Reads(session, period, n), ttl.absoluteMs;
    ReadsAreOnTime(session, ttl, period, n);
    RunRefines(before, ttl);
    RunSnoc(before, ttl, Set(session, now));
    SetAtTheLimit(Exec(before, ttl), session, ttl, n * period);
    BegunAnew(Exec(before, ttl), SpecExec(before, ttl), session, ttl, n * period);
  }

  lemma SetAtTheLimit(s: State, session: Session, ttl: Ttl, last: int)
    requires Linked(s) && ReadAt(s, session, ttl, last)
    requires last < ttl.absoluteMs <= last + ttl.idleMs
    ensures var now, token := ttl.absoluteMs, session.token; var t := Next(s, ttl, Set(session, now));
      && Prompt(s, now - 1) && IsOverdueSet(s, ttl, Set(session, now))
      && token in t.sessions && t.sessions[token].createdAt == 0 && GetResult(t.sessions, ttl, token, now) == None
  {
  }

  lemma BegunAnew(s: State, m: map<string, Life>, session: Session, ttl: Ttl, last: int)
    requires Linked(s) && ReadAt(s, session, ttl, last) && Refines(s, m, ttl) && ttl.absoluteMs > 0 && ttl.idleMs > 0
    ensures var begun := SpecSet(m, ttl, session, ttl.absoluteMs);
      session.token in begun && AliveAt(begun[session.token], ttl, ttl.absoluteMs)
  {
    var now := ttl.absoluteMs;
    var life := SpecSet(m, ttl, session, now)[session.token];
    assert m[session.token].touches[0] == 0;
    assert life.touches == [now] && life.touches + [now] == [now, now];
  }
}
