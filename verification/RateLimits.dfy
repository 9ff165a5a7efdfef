/** What the request rate limiter promises for one key, and exactly when: its limits
    hold as long as the key's own live bucket is not evicted, and once it is they can be
    passed. */
module RateLimits {
  import opened FixedWindow
  import opened RequestRateLimiter

  // ------------------------------------------------------------------------
  // Hits and decisions
  // ------------------------------------------------------------------------

  function LimitOf(options: Options, key: Key): nat {
    match key { case Client(_) => options.clientLimit case Subject(_) => options.subjectLimit }
  }

  /** Request `i` counts against the key: a subject's bucket is reached past the client's. */
  ghost predicate Reaches(requests: seq<Request>, i: nat, options: Options, key: Key)
    requires i < |requests|
  {
    match key
    case Client(address) => requests[i].address == address
    case Subject(subject) => requests[i].subject == subject && ClientPasses(requests, i, options)
  }

  /** Request `i` counts against the key and is within its limit. */
  ghost predicate PassesOn(requests: seq<Request>, i: nat, options: Options, key: Key)
    requires i < |requests|
  {
    && Reaches(requests, i, options, key)
    && (if key.Client? then ClientPasses(requests, i, options) else Admitted(requests, i, options))
  }

  /** The hits the limiter makes, by its own decisions. */
  ghost function ActualHits(requests: seq<Request>, options: Options): seq<Hit<Key>> {
    if requests == [] then []
    else
      var n := |requests| - 1;
      HitsAfter(ActualHits(requests[..n], options), requests[n], ClientPasses(requests, n, options))
  }

  function HitsAfter(hits: seq<Hit<Key>>, r: Request, clientPasses: bool): seq<Hit<Key>> {
    var counted := hits + [Hit(Client(r.address), r.now)];
    if clientPasses then counted + [Hit(Subject(r.subject), r.now)] else counted
  }

  /** The key's window at this time had no bucket ever been dropped. */
  ghost function TrueWindow(requests: seq<Request>, options: Options, key: Key, now: int): Window {
    Current(After(ActualHits(requests, options)), key, now)
  }

  /** How many requests passed on the key in its window closing at `end`. */
  ghost function PassedOn(requests: seq<Request>, options: Options, key: Key, end: int): nat {
    if requests == [] then 0
    else
      var n := |requests| - 1;
      PassedOn(requests[..n], options, key, end)
      + (if PassesOn(requests, n, options, key)
         && TrueWindow(requests[..n], options, key, requests[n].now).resetAt == end then 1 else 0)
  }

  /** How many requests passed on the key in the 60 seconds from `from`. */
  ghost function PassedSince(requests: seq<Request>, options: Options, key: Key, from: int): nat {
    if requests == [] then 0
    else
      var n := |requests| - 1;
      PassedSince(requests[..n], options, key, from)
      + (if PassesOn(requests, n, options, key) && from <= requests[n].now < from + WINDOW_MS then 1 else 0)
  }

  ghost predicate Timely(requests: seq<Request>) {
    forall i, j :: 0 <= i < j < |requests| ==> requests[i].now <= requests[j].now
  }

  /** Making room for a request at this time evicts the key's live bucket. */
  ghost predicate Drops(b: Buckets, key: Key, now: int) {
    Live(b.table, key, now) && key !in MakeRoom(b, now).table
  }

  /** No request of the run evicted the live bucket of this key. */
  ghost predicate KeyKept(requests: seq<Request>, options: Options, key: Key) {
    requests == []
    || (var n := |requests| - 1;
        KeyKept(requests[..n], options, key) && !Drops(Kept(requests[..n], options), key, requests[n].now))
  }

  /** The guard: the live buckets fill the map and the key's is not among the newest. */
  lemma DropsExactlyIf(b: Buckets, key: Key, now: int)
    requires WellFormed(b)
    ensures var live := LiveKeys(b.order, b.table, now);
      Drops(b, key, now) <==> |live| >= 20_000 && key in live[..|live| - 19_999]
  {
    var live := LiveKeys(b.order, b.table, now);
    LiveKeysAre(b.order, b.table, now);
    LiveKeysNoDuplicates(b.order, b.table, now);
    if |live| >= MAXIMUM_BUCKETS {
      var i := |live| - MAXIMUM_BUCKETS + 1;
      assert live == live[..i] + live[i..];
      PartsAreDisjoint(live, i, key);
    }
  }

  lemma PartsAreDisjoint(keys: seq<Key>, i: nat, key: Key)
    requires NoDuplicates(keys) && i <= |keys|
    ensures !(key in keys[..i] && key in keys[i..])
  {
    if key in keys[..i] {
      var j :| 0 <= j < i && keys[j] == key;
      NoDuplicatesSuffix(keys, j);
      assert keys[j..][0] == key && keys[j..][1..] == keys[j + 1..];
      assert keys[j + 1..][i - j - 1..] == keys[i..];
    }
  }

  // ------------------------------------------------------------------------
  // While the key is kept
  // ------------------------------------------------------------------------

  lemma RoomAgreesOn(b: Buckets, full: map<Key, Window>, key: Key, before: int, now: int)
    requires WellFormed(b) && AgreesOn(b.table, full, key, before) && before <= now && !Drops(b, key, now)
    ensures AgreesOn(MakeRoom(b, now).table, full, key, now)
  {
    LiveKeysAre(b.order, b.table, now);
  }

  lemma HitsSnoc(requests: seq<Request>, r: Request, options: Options)
    ensures ActualHits(requests + [r], options)
         == HitsAfter(ActualHits(requests, options), r, ClientPasses(requests + [r], |requests|, options))
    ensures ClientPasses(requests + [r], |requests|, options)
       <==> Passes(MakeRoom(Kept(requests, options), r.now).table, Client(r.address), r.now, options.clientLimit)
  {
    assert (requests + [r])[..|requests|] == requests;
  }

  lemma {:induction false} HitsAreTimely(requests: seq<Request>, options: Options)
    requires Timely(requests)
    ensures Chronological(ActualHits(requests, options))
    ensures var hits := ActualHits(requests, options);
      hits != [] ==> requests != [] && hits[|hits| - 1].now <= requests[|requests| - 1].now
  {
    if requests != [] {
      var n := |requests| - 1;
      var r := requests[n];
      HitsAreTimely(requests[..n], options);
      var hits := ActualHits(requests[..n], options);
      ChronologicalSnoc(hits, Hit(Client(r.address), r.now));
      ChronologicalSnoc(hits + [Hit(Client(r.address), r.now)], Hit(Subject(r.subject), r.now));
    }
  }

  /** The request passes on the key, decided on the buckets it finds. */
  predicate StepPasses(b: Buckets, r: Request, options: Options, key: Key) {
    var room, client := MakeRoom(b, r.now).table, Client(r.address);
    && Passes(room, client, r.now, options.clientLimit)
    && (key == client || (key == Subject(r.subject)
                          && Passes(Count(room, client, r.now), key, r.now, options.subjectLimit)))
  }

  /** What one request does to the tables and to the tallies of a key on which they agree. */
  lemma StepOn(b: Buckets, hits: seq<Hit<Key>>, r: Request, options: Options, key: Key, from: int, end: int)
    requires AgreesOn(MakeRoom(b, r.now).table, After(hits), key, r.now)
    ensures var passes := StepPasses(b, r, options, key); var limit := LimitOf(options, key);
      var after := HitsAfter(hits, r, Passes(MakeRoom(b, r.now).table, Client(r.address), r.now, options.clientLimit));
      && AgreesOn(AfterRequest(b, r, options).table, After(after), key, r.now)
      && PassedInWindow(after, key, limit, end) == PassedInWindow(hits, key, limit, end)
           + (if passes && Current(After(hits), key, r.now).resetAt == end then 1 else 0)
      && PassedWithin(after, key, limit, from) == PassedWithin(hits, key, limit, from)
           + (if passes && from <= r.now < from + WINDOW_MS then 1 else 0)
  {
    var room, client, subject := MakeRoom(b, r.now).table, Client(r.address), Subject(r.subject);
    var counted, limit := hits + [Hit(client, r.now)], LimitOf(options, key);
    CountAgreesOn(room, After(hits), key, client, r.now);
    Snoc(hits, Hit(client, r.now), key, limit, from, end);
    CountAgreesOn(Count(room, client, r.now), After(counted), key, subject, r.now);
    Snoc(counted, Hit(subject, r.now), key, limit, from, end);
  }

  /** As long as the key is kept, the limiter's bucket for it is that of a limiter that
      never forgets, and so are the tallies. */
  lemma {:induction false} KeyAgrees(requests: seq<Request>, options: Options, key: Key, now: int)
    requires Timely(requests) && KeyKept(requests, options, key)
    requires requests != [] ==> requests[|requests| - 1].now <= now
    ensures AgreesOn(Kept(requests, options).table, After(ActualHits(requests, options)), key, now)
    decreases |requests|, 1
  {
    if requests != [] {
      var n := |requests| - 1;
      var r := requests[n];
      RoomAgrees(requests, options, key);
      StepOn(Kept(requests[..n], options), ActualHits(requests[..n], options), r, options, key, 0, 0);
    }
  }

  /** The last request finds the key's bucket as a limiter that never forgets does. */
  lemma {:induction false} RoomAgrees(requests: seq<Request>, options: Options, key: Key)
    requires requests != [] && Timely(requests) && KeyKept(requests, options, key)
    ensures var n := |requests| - 1; var r := requests[n];
      AgreesOn(MakeRoom(Kept(requests[..n], options), r.now).table, After(ActualHits(requests[..n], options)), key,
               r.now)
    decreases |requests|, 0
  {
    var n := |requests| - 1;
    var r := requests[n];
    KeyAgrees(requests[..n], options, key, r.now);
    SizeIsBounded(requests[..n], options);
    RoomAgreesOn(Kept(requests[..n], options), After(ActualHits(requests[..n], options)), key, r.now, r.now);
  }

  lemma {:induction false} Tally(requests: seq<Request>, options: Options, key: Key, from: int, end: int)
    requires Timely(requests) && KeyKept(requests, options, key)
    ensures PassedOn(requests, options, key, end)
        == PassedInWindow(ActualHits(requests, options), key, LimitOf(options, key), end)
    ensures PassedSince(requests, options, key, from)
        == PassedWithin(ActualHits(requests, options), key, LimitOf(options, key), from)
  {
    if requests != [] {
      var n := |requests| - 1;
      var r := requests[n];
      Tally(requests[..n], options, key, from, end);
      TallyStep(requests, options, key, from, end);
    }
  }

  lemma TallyStep(requests: seq<Request>, options: Options, key: Key, from: int, end: int)
    requires requests != [] && Timely(requests) && KeyKept(requests, options, key)
    ensures var n := |requests| - 1; var limit := LimitOf(options, key);
      var before, after := ActualHits(requests[..n], options), ActualHits(requests, options);
      var passes := PassesOn(requests, n, options, key);
      && PassedInWindow(after, key, limit, end) == PassedInWindow(before, key, limit, end)
           + (if passes && TrueWindow(requests[..n], options, key, requests[n].now).resetAt == end then 1 else 0)
      && PassedWithin(after, key, limit, from) == PassedWithin(before, key, limit, from)
           + (if passes && from <= requests[n].now < from + WINDOW_MS then 1 else 0)
  {
    hide AgreesOn, KeyKept;
    var n := |requests| - 1;
    var r := requests[n];
    RoomAgrees(requests, options, key);
    StepOn(Kept(requests[..n], options), ActualHits(requests[..n], options), r, options, key, from, end);
  }

  /** At every request the limiter would judge the key by its true window. */
  ghost predicate JudgedTruly(requests: seq<Request>, options: Options, key: Key) {
    requests == []
    || (var n := |requests| - 1;
        && JudgedTruly(requests[..n], options, key)
        && Current(TableAt(requests, n, options), key, requests[n].now)
           == TrueWindow(requests[..n], options, key, requests[n].now))
  }

  /** The key is judged by its true window throughout exactly if its live bucket is never
      evicted. */
  lemma {:induction false} JudgedTrulyExactlyIfKept(requests: seq<Request>, options: Options, key: Key)
    requires Timely(requests)
    ensures JudgedTruly(requests, options, key) <==> KeyKept(requests, options, key)
  {
    if requests != [] {
      var n := |requests| - 1;
      var now := requests[n].now;
      JudgedTrulyExactlyIfKept(requests[..n], options, key);
      if KeyKept(requests[..n], options, key) {
        KeyAgrees(requests[..n], options, key, now);
        SizeIsBounded(requests[..n], options);
        WindowIsTrueExactlyIfKept(Kept(requests[..n], options), ActualHits(requests[..n], options), key, now);
      }
    }
  }

  lemma WindowIsTrueExactlyIfKept(b: Buckets, hits: seq<Hit<Key>>, key: Key, now: int)
    requires WellFormed(b) && AgreesOn(b.table, After(hits), key, now)
    ensures Current(MakeRoom(b, now).table, key, now) == Current(After(hits), key, now) <==> !Drops(b, key, now)
  {
    if Drops(b, key, now) {
      StoredIsHit(hits, key);
    } else {
      RoomAgreesOn(b, After(hits), key, now, now);
    }
  }

  /** As long as the key's own live bucket is not evicted, whatever happens to others:
      a window passes at most the limit, and any 60 seconds at most twice the limit. */
  lemma LimitsHold(requests: seq<Request>, options: Options, key: Key, from: int, end: int)
    requires Timely(requests) && KeyKept(requests, options, key)
    ensures PassedOn(requests, options, key, end) <= LimitOf(options, key)
    ensures PassedSince(requests, options, key, from) <= 2 * LimitOf(options, key)
  {
    Tally(requests, options, key, from, end);
    HitsAreTimely(requests, options);
    AtMostLimitPerWindow(ActualHits(requests, options), key, LimitOf(options, key), end);
    AtMostTwiceTheLimit(ActualHits(requests, options), key, LimitOf(options, key), from);
  }

  /** The three limiters of the service, in requests let through in any 60 seconds. */
  lemma ServiceLimits(requests: seq<Request>, address: string, subject: string, from: int)
    requires Timely(requests)
    ensures KeyKept(requests, LOGIN, Client(address)) ==> PassedSince(requests, LOGIN, Client(address), from) <= 40
    ensures KeyKept(requests, LOGIN, Subject(subject)) ==> PassedSince(requests, LOGIN, Subject(subject), from) <= 20
    ensures KeyKept(requests, CANDIDATE_EXECUTION, Client(address)) ==>
              PassedSince(requests, CANDIDATE_EXECUTION, Client(address), from) <= 24
    ensures KeyKept(requests, CANDIDATE_EXECUTION, Subject(subject)) ==>
              PassedSince(requests, CANDIDATE_EXECUTION, Subject(subject), from) <= 12
    ensures KeyKept(requests, ACCOUNT_CREATION, Client(address)) ==>
              PassedSince(requests, ACCOUNT_CREATION, Client(address), from) <= 12
    ensures KeyKept(requests, ACCOUNT_CREATION, Subject(subject)) ==>
              PassedSince(requests, ACCOUNT_CREATION, Subject(subject), from) <= 6
  {
    forall options, key | options in {LOGIN, CANDIDATE_EXECUTION, ACCOUNT_CREATION}
      && key in {Client(address), Subject(subject)}
      ensures KeyKept(requests, options, key) ==> PassedSince(requests, options, key, from) <= 2 * LimitOf(options, key)
    {
      if KeyKept(requests, options, key) {
        LimitsHold(requests, options, key, from, 0);
      }
    }
  }

  // ------------------------------------------------------------------------
  // The subjects that one client raises
  // ------------------------------------------------------------------------

  /** By how much request `n` raises the current count of a subject's bucket. */
  ghost function Rise(requests: seq<Request>, n: nat, options: Options, subject: string): int
    requires n < |requests|
  {
    var now := requests[n].now;
    Current(Kept(requests[..n + 1], options).table, Subject(subject), now).count
    - Current(TableAt(requests, n, options), Subject(subject), now).count
  }

  /** A request raises its own subject's count by one if its client passes, and no other. */
  lemma RiseIs(requests: seq<Request>, n: nat, options: Options, subject: string)
    requires n < |requests|
    ensures Rise(requests, n, options, subject)
         == if subject == requests[n].subject && ClientPasses(requests, n, options) then 1 else 0
  {
    assert requests[..n + 1][..n] == requests[..n];
  }

  /** The rises by requests of one client in its window closing at `end`, all subjects together. */
  ghost function SubjectRises(requests: seq<Request>, options: Options, address: string, end: int): int {
    if requests == [] then 0
    else
      var n := |requests| - 1;
      var r := requests[n];
      SubjectRises(requests[..n], options, address, end)
      + (if r.address == address && TrueWindow(requests[..n], options, Client(address), r.now).resetAt == end
         then Rise(requests, n, options, r.subject) else 0)
  }

  lemma {:induction false} RisesArePasses(requests: seq<Request>, options: Options, address: string, end: int)
    ensures SubjectRises(requests, options, address, end) == PassedOn(requests, options, Client(address), end)
  {
    if requests != [] {
      var n := |requests| - 1;
      RisesArePasses(requests[..n], options, address, end);
      RiseIs(requests, n, options, requests[n].subject);
    }
  }

  /** Within one client window, one client whose bucket is kept raises the counts of all
      subjects together by at most its limit. */
  lemma ClientRaisesAtMostItsLimit(requests: seq<Request>, options: Options, address: string, end: int)
    requires Timely(requests) && KeyKept(requests, options, Client(address))
    ensures SubjectRises(requests, options, address, end) <= options.clientLimit
  {
    RisesArePasses(requests, options, address, end);
    LimitsHold(requests, options, Client(address), 0, end);
  }

  // ------------------------------------------------------------------------
  // A limiter that never forgets
  // ------------------------------------------------------------------------

  /** The hits of the same requests when no bucket is ever dropped. */
  ghost function UnboundedHits(requests: seq<Request>, options: Options): seq<Hit<Key>> {
    if requests == [] then []
    else
      var n := |requests| - 1;
      var hits, r := UnboundedHits(requests[..n], options), requests[n];
      HitsAfter(hits, r, Passes(After(hits), Client(r.address), r.now, options.clientLimit))
  }

  /** While no client's live bucket is evicted, the limiter decides as one that never
      forgets; while none at all is, its map is the other's but for expired buckets. */
  lemma {:induction false} DecidesAsUnbounded(requests: seq<Request>, options: Options)
    requires Timely(requests) && forall address :: KeyKept(requests, options, Client(address))
    ensures ActualHits(requests, options) == UnboundedHits(requests, options)
  {
    if requests != [] {
      var n := |requests| - 1;
      var r := requests[n];
      assert forall address :: KeyKept(requests, options, Client(address)) ==>
        KeyKept(requests[..n], options, Client(address));
      DecidesAsUnbounded(requests[..n], options);
      KeyAgrees(requests[..n], options, Client(r.address), r.now);
      SizeIsBounded(requests[..n], options);
      RoomAgreesOn(Kept(requests[..n], options), After(ActualHits(requests[..n], options)), Client(r.address), r.now,
                   r.now);
    }
  }

  lemma KeptAgrees(requests: seq<Request>, options: Options, now: int)
    requires Timely(requests) && forall key :: KeyKept(requests, options, key)
    requires requests != [] ==> requests[|requests| - 1].now <= now
    ensures Agrees(Kept(requests, options).table, After(UnboundedHits(requests, options)), now)
  {
    DecidesAsUnbounded(requests, options);
    forall key
      ensures AgreesOn(Kept(requests, options).table, After(UnboundedHits(requests, options)), key, now)
    {
      KeyAgrees(requests, options, key, now);
    }
    AgreesOnAll(Kept(requests, options).table, After(UnboundedHits(requests, options)), now);
  }
}
