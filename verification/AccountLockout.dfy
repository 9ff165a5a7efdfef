/** Account lockout: the failed-login counter and the lock of one user row, over
    logins and password changes.  Whether a password matches is an oracle. */
module AccountLockout {
  import opened Wrappers

  const FAILED_LOGIN_LIMIT := 5
  const LOCK_DURATION_MS := 15 * 60 * 1000

  datatype Row = Row(failedLoginAttempts: nat, lockedUntil: Option<int>)

  const FRESH := Row(0, None)

  datatype Outcome = Success | InvalidCredentials | TransactionFailed

  /** A login or password change at time `now` with a matching password or not.
      `rewrites` says that the login also upgrades the hash or sets the change flag. */
  datatype Event =
    | Login(now: int, matches: bool, rewrites: bool)
    | ChangePassword(now: int, matches: bool)

  predicate Locked(row: Row, now: int) { row.lockedUntil.Some? && now < row.lockedUntil.value }

  /** The row after a committed login transaction. */
  function AfterLogin(row: Row, now: int, matches: bool): Row {
    if Locked(row, now) then row
    else if matches then FRESH
    else
      var attempts := 1 + (if row.lockedUntil.Some? then 0 else row.failedLoginAttempts);
      Row(attempts, if attempts >= FAILED_LOGIN_LIMIT then Some(now + LOCK_DURATION_MS) else None)
  }

  function LoginOutcome(row: Row, now: int, matches: bool): Outcome {
    if !Locked(row, now) && matches then Success else InvalidCredentials
  }

  function After(row: Row, e: Event): Row {
    match e
    case Login(now, matches, _) => AfterLogin(row, now, matches)
    case ChangePassword(_, matches) => if matches then FRESH else row
  }

  /** A wrong password that reaches the counter. */
  predicate Counted(row: Row, e: Event) {
    e.Login? && !Locked(row, e.now) && !e.matches
  }

  /** A successful login or password change. */
  predicate Resets(row: Row, e: Event) {
    e.matches && (e.Login? ==> !Locked(row, e.now))
  }

  // ------------------------------------------------------------------------
  // Runs
  // ------------------------------------------------------------------------

  ghost function Exec(events: seq<Event>): Row {
    if events == [] then FRESH else After(Exec(events[..|events| - 1]), events[|events| - 1])
  }

  ghost predicate Chronological(events: seq<Event>) {
    forall i, j :: 0 <= i < j < |events| ==> events[i].now <= events[j].now
  }

  /** What every reachable row satisfies. */
  ghost predicate RowInv(row: Row) {
    && (row.lockedUntil.None? ==> row.failedLoginAttempts < FAILED_LOGIN_LIMIT)
    && (row.lockedUntil.Some? ==> row.failedLoginAttempts == FAILED_LOGIN_LIMIT)
  }

  lemma {:induction false} RunKeepsRowInv(events: seq<Event>)
    ensures RowInv(Exec(events))
  {
    if events != [] {
      RunKeepsRowInv(events[..|events| - 1]);
    }
  }

  /** Throughout a lock no login succeeds, whatever the password, and the row stays
      as it is: `next` is any login made before the lock ends, after any others. */
  lemma {:induction false} LockHolds(events: seq<Event>, logins: seq<Event>, next: Event)
    requires Exec(events).lockedUntil.Some?
    requires forall e :: e in logins + [next] ==> e.Login? && e.now < Exec(events).lockedUntil.value
    ensures Exec(events + logins) == Exec(events)
    ensures LoginOutcome(Exec(events + logins), next.now, next.matches) == InvalidCredentials
  {
    assert next in logins + [next];
    if logins == [] {
      assert events + logins == events;
    } else {
      var n := |logins| - 1;
      assert logins[n] in logins + [next];
      assert forall e :: e in logins[..n] + [logins[n]] ==> e in logins + [next];
      LockHolds(events, logins[..n], logins[n]);
      assert (events + logins)[..|events| + n] == events + logins[..n];
    }
  }

  // ------------------------------------------------------------------------
  // How many guesses an interval allows
  // ------------------------------------------------------------------------

  /** Counted failures among the events from position `k` on, with a time in
      [from, from + LOCK_DURATION_MS). */
  ghost function CountedWithin(events: seq<Event>, k: nat, from: int): nat {
    if |events| <= k then 0
    else
      var n := |events| - 1;
      CountedWithin(events[..n], k, from)
      + (if Counted(Exec(events[..n]), events[n]) && from <= events[n].now < from + LOCK_DURATION_MS then 1 else 0)
  }

  /** No successful login or password change from position `k` on. */
  ghost predicate NoSuccessSince(events: seq<Event>, k: nat) {
    forall i :: k <= i < |events| ==> !Resets(Exec(events[..i]), events[i])
  }

  ghost predicate GuessInv(row: Row, counted: nat, from: int, last: int) {
    && RowInv(row)
    && counted <= FAILED_LOGIN_LIMIT
    && (last < from ==> counted == 0)
    && (row.lockedUntil.None? ==> counted <= row.failedLoginAttempts || from + LOCK_DURATION_MS <= last)
    && (row.lockedUntil.Some? && counted > 0 ==> from + LOCK_DURATION_MS <= row.lockedUntil.value)
  }

  lemma GuessStep(row: Row, counted: nat, from: int, last: int, e: Event)
    requires GuessInv(row, counted, from, last) && last <= e.now && !Resets(row, e)
    ensures GuessInv(After(row, e),
                     counted + (if Counted(row, e) && from <= e.now < from + LOCK_DURATION_MS then 1 else 0),
                     from, e.now)
  {
  }

  lemma {:induction false} GuessesAreBounded(events: seq<Event>, k: nat, from: int)
    requires Chronological(events) && k < |events| && NoSuccessSince(events, k)
    ensures GuessInv(Exec(events), CountedWithin(events, k, from), from, events[|events| - 1].now)
  {
    var n := |events| - 1;
    assert forall i :: 0 <= i < n ==> events[..n][i] == events[i] && events[..n][..i] == events[..i];
    RunKeepsRowInv(events[..n]);
    if k < n {
      GuessesAreBounded(events[..n], k, from);
      GuessStep(Exec(events[..n]), CountedWithin(events[..n], k, from), from, events[n - 1].now, events[n]);
    } else {
      var before := if events[n].now < from then events[n].now else from - 1;
      GuessStep(Exec(events[..n]), 0, from, before, events[n]);
    }
  }

  /** Without a success in between, any half-open interval of fifteen minutes holds
      at most five counted wrong passwords. */
  lemma AtMostFiveGuesses(events: seq<Event>, k: nat, from: int)
    requires Chronological(events) && NoSuccessSince(events, k)
    ensures CountedWithin(events, k, from) <= 5
  {
    if k < |events| {
      GuessesAreBounded(events, k, from);
    }
  }

  // ------------------------------------------------------------------------
  // The row as history
  // ------------------------------------------------------------------------

  /** Event `i` is a login with a wrong password while no lock lasts. */
  ghost predicate WrongAt(events: seq<Event>, i: nat)
    requires i < |events|
  {
    var lock := Exec(events[..i]).lockedUntil;
    events[i].Login? && !events[i].matches && (lock == None || lock.value <= events[i].now)
  }

  /** The position after which failures count: past the last successful login or password
      change, or at the first login since the last lock ended, whichever came last. */
  ghost function CountsFrom(events: seq<Event>): (k: nat)
    ensures k <= |events|
  {
    if events == [] then 0
    else
      var n := |events| - 1;
      var lock, e := Exec(events[..n]).lockedUntil, events[n];
      if e.matches && (e.ChangePassword? || lock == None || lock.value <= e.now) then n + 1
      else if e.Login? && lock != None && lock.value <= e.now then n
      else CountsFrom(events[..n])
  }

  /** How many wrong passwords there have been from position `k` on. */
  ghost function WrongSince(events: seq<Event>, k: nat): nat {
    if |events| <= k then 0
    else WrongSince(events[..|events| - 1], k) + (if WrongAt(events, |events| - 1) then 1 else 0)
  }

  /** The time of the last wrong password. */
  ghost function LastWrong(events: seq<Event>): int {
    if events == [] then 0
    else if WrongAt(events, |events| - 1) then events[|events| - 1].now
    else LastWrong(events[..|events| - 1])
  }

  /** On every run the counter is the number of wrong passwords since the last success or
      the end of the last lock, and the fifth locks the account for fifteen minutes. */
  lemma {:induction false} RowIsHistory(events: seq<Event>)
    ensures var row := Exec(events);
      && row.failedLoginAttempts == WrongSince(events, CountsFrom(events))
      && row.lockedUntil == if WrongSince(events, CountsFrom(events)) < 5 then None
                            else Some(LastWrong(events) + 15 * 60 * 1000)
  {
    if events != [] {
      RowIsHistory(events[..|events| - 1]);
      RunKeepsRowInv(events[..|events| - 1]);
    }
  }

  /** After every run, a login with the right password while no lock lasts succeeds and
      clears the row; no other login succeeds. */
  lemma RightPasswordClears(events: seq<Event>, now: int, matches: bool, rewrites: bool)
    ensures var row := Exec(events);
      && (LoginOutcome(row, now, matches) == Success
          <==> matches && (row.lockedUntil == None || row.lockedUntil.value <= now))
      && (LoginOutcome(row, now, matches) == Success ==> Exec(events + [Login(now, matches, rewrites)]) == Row(0, None))
      && LoginOutcome(row, now, matches) != TransactionFailed
  {
    assert (events + [Login(now, matches, rewrites)])[..|events|] == events;
  }

  // ------------------------------------------------------------------------
  // The transactions
  // ------------------------------------------------------------------------

  /** How one try of the login transaction ends: another transaction may conflict with
      it, and key derivation, for one, may throw in its midst. */
  datatype Fate = Commits | Conflicts | Throws

  /** What one try of the login transaction meets; `before` is what other transactions
      have committed on the row since the try before it. */
  datatype Try = Try(before: seq<Event>, now: int, matches: bool, rewrites: bool, fate: Fate)

  /** The try that decides: the first that does not conflict, or the last. */
  function Deciding(tries: seq<Try>): (r: nat)
    requires tries != []
    ensures r < |tries| && forall q :: 0 <= q < r ==> tries[q].fate == Conflicts
    ensures tries[r].fate != Conflicts || r == |tries| - 1
  {
    if |tries| == 1 || tries[0].fate != Conflicts then 0 else 1 + Deciding(tries[1..])
  }

  lemma {:induction false} DecidingIs(tries: seq<Try>, r: nat)
    requires r < |tries| && forall q :: 0 <= q < r ==> tries[q].fate == Conflicts
    requires tries[r].fate != Conflicts || r == |tries| - 1
    ensures Deciding(tries) == r
  {
    if r > 0 {
      DecidingIs(tries[1..], r - 1);
    }
  }

  /** What a try adds to the events. */
  function OwnEvent(t: Try): seq<Event> {
    if t.fate == Commits then [Login(t.now, t.matches, t.rewrites)] else []
  }

  /** How a try ends, after these events. */
  ghost function OwnOutcome(seen: seq<Event>, t: Try): Outcome {
    if t.fate == Commits then LoginOutcome(Exec(seen), t.now, t.matches) else TransactionFailed
  }

  /** What others have committed before the `n`-th try. */
  function Between(tries: seq<Try>, n: nat): seq<Event>
    requires n <= |tries|
  {
    if n == 0 then [] else Between(tries, n - 1) + tries[n - 1].before
  }

  class UserRow {
    var failedLoginAttempts: nat
    var lockedUntil: Option<int>
    ghost var events: seq<Event>

    ghost function View(): Row
      reads this
    {
      Row(failedLoginAttempts, lockedUntil)
    }

    ghost predicate Valid()
      reads this
    {
      View() == Exec(events)
    }

    constructor ()
      ensures Valid() && events == []
    {
      failedLoginAttempts, lockedUntil, events := 0, None, [];
    }

    /** The updates of one try, in the order of the transaction; the guards of the
        later ones look at the row as it was read first. */
    method LoginTransaction(now: int, matches: bool, rewrites: bool) returns (outcome: Outcome)
      modifies `failedLoginAttempts, `lockedUntil
      ensures View() == AfterLogin(old(View()), now, matches)
      ensures outcome == LoginOutcome(old(View()), now, matches)
      ensures outcome == Success <==> matches && (old(lockedUntil) == None || old(lockedUntil).value <= now)
      ensures outcome == Success ==> failedLoginAttempts == 0 && lockedUntil == None
    {
      var readAttempts, readLock := failedLoginAttempts, lockedUntil;
      if readLock.Some? && readLock.value > now {
        return InvalidCredentials;
      }
      if readLock.Some? && readLock.value <= now {
        failedLoginAttempts, lockedUntil := 0, None;
      }
      if !matches {
        failedLoginAttempts := failedLoginAttempts + 1;
        if failedLoginAttempts >= FAILED_LOGIN_LIMIT {
          lockedUntil := Some(now + LOCK_DURATION_MS);
        }
        return InvalidCredentials;
      }
      if rewrites || readAttempts != 0 || readLock.Some? {
        failedLoginAttempts, lockedUntil := 0, None;
      }
      return Success;
    }

    /** Transactions of others, committed one after another. */
    method Others(committed: seq<Event>)
      requires Valid()
      modifies this
      ensures Valid() && events == old(events) + committed
    {
      for i := 0 to |committed|
        invariant Valid() && events == old(events) + committed[..i]
      {
        match committed[i] {
          case Login(now, matches, rewrites) =>
            var outcome := LoginTransaction(now, matches, rewrites);
          case ChangePassword(now, matches) =>
            if matches {
              failedLoginAttempts, lockedUntil := 0, None;
            }
        }
        events := events + [committed[i]];
        assert events[..|events| - 1] == old(events) + committed[..i];
      }
    }

    /** One try: what a conflicting or throwing one did is rolled back. */
    method TryLogin(t: Try) returns (outcome: Outcome)
      requires Valid()
      modifies this
      ensures Valid() && events == old(events) + t.before + OwnEvent(t)
      ensures outcome == OwnOutcome(old(events) + t.before, t)
      ensures outcome == Success ==> failedLoginAttempts == 0 && lockedUntil == None
    {
      Others(t.before);
      var attempts, lock := failedLoginAttempts, lockedUntil;
      outcome := LoginTransaction(t.now, t.matches, t.rewrites);
      if t.fate != Commits {
        failedLoginAttempts, lockedUntil := attempts, lock;
        return TransactionFailed;
      }
      events := events + OwnEvent(t);
      assert events[..|events| - 1] == old(events) + t.before;
    }

    /** `loginWithDatabase`: up to three tries, each but the last tried again only if it
        conflicts.  The one that decides is judged on the row as others have left it by
        then, and takes effect once if it commits. */
    method LoginWithDatabase(tries: seq<Try>) returns (outcome: Outcome)
      requires Valid() && |tries| == 3
      modifies this
      ensures Valid()
      ensures var r := Deciding(tries); var seen := old(events) + Between(tries, r + 1);
        outcome == OwnOutcome(seen, tries[r]) && events == seen + OwnEvent(tries[r])
      ensures outcome == Success ==> failedLoginAttempts == 0 && lockedUntil == None
    {
      var retry := 0;
      outcome := TransactionFailed;
      while retry < 3
        invariant 0 <= retry <= 3
        invariant forall q :: 0 <= q < retry ==> tries[q].fate == Conflicts
        invariant Valid() && events == old(events) + Between(tries, retry)
        invariant outcome == TransactionFailed
      {
        ghost var before := events;
        outcome := TryLogin(tries[retry]);
        assert before + tries[retry].before == old(events) + Between(tries, retry + 1);
        if tries[retry].fate != Conflicts {
          DecidingIs(tries, retry);
          return;
        }
        retry := retry + 1;
      }
      DecidingIs(tries, 2);
    }

    /** The row update of `changePassword`; a wrong current password changes nothing
        and is not counted. */
    method ChangePassword(now: int, matches: bool) returns (ok: bool)
      requires Valid()
      modifies this
      ensures Valid() && events == old(events) + [Event.ChangePassword(now, matches)]
      ensures ok == matches && (ok ==> View() == FRESH) && (!ok ==> View() == old(View()))
    {
      if matches {
        failedLoginAttempts, lockedUntil := 0, None;
      }
      events := events + [Event.ChangePassword(now, matches)];
      assert events[..|events| - 1] == old(events);
      return matches;
    }
  }
}
