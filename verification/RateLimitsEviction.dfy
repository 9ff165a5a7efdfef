/** What evicting a key's live bucket costs: a burst of requests then passes more than
    the limit in one window, and this can happen. */
module RateLimitsEviction {
  import opened Integers
  import opened FixedWindow
  import opened RequestRateLimiter
  import opened RateLimits

  // ------------------------------------------------------------------------
  // The end of the map
  // ------------------------------------------------------------------------

  predicate EndsWith(order: seq<Key>, suffix: seq<Key>) {
    |suffix| <= |order| && order[|order| - |suffix|..] == suffix
  }

  lemma {:induction false} LiveKeysConcat(a: seq<Key>, b: seq<Key>, table: map<Key, Window>, now: int)
    ensures LiveKeys(a + b, table, now) == LiveKeys(a, table, now) + LiveKeys(b, table, now)
  {
    if a == [] {
      assert a + b == b;
    } else {
      assert (a + b)[1..] == a[1..] + b;
      LiveKeysConcat(a[1..], b, table, now);
    }
  }

  lemma {:induction false} AllLive(keys: seq<Key>, table: map<Key, Window>, now: int)
    requires forall k :: k in keys ==> Live(table, k, now)
    ensures LiveKeys(keys, table, now) == keys
  {
    if keys != [] {
      AllLive(keys[1..], table, now);
    }
  }

  /** The newest live buckets stay when room is made. */
  lemma RoomKeepsEnd(b: Buckets, now: int, suffix: seq<Key>)
    requires WellFormed(b) && EndsWith(b.order, suffix) && |suffix| <= 2
    requires forall k :: k in suffix ==> Live(b.table, k, now)
    ensures var room := MakeRoom(b, now);
      && EndsWith(room.order, suffix)
      && (forall k :: k in suffix ==> k in room.table && room.table[k] == b.table[k])
  {
    var older := b.order[..|b.order| - |suffix|];
    assert b.order == older + suffix;
    LiveKeysConcat(older, suffix, b.table, now);
    AllLive(suffix, b.table, now);
    var live := LiveKeys(b.order, b.table, now);
    var kept := DropOldest(live);
    assert EndsWith(live, suffix);
    assert EndsWith(kept, suffix);
    forall k | k in suffix
      ensures k in kept
    {
      assert k in kept[|kept| - |suffix|..];
    }
  }

  // ------------------------------------------------------------------------
  // A burst of equal requests
  // ------------------------------------------------------------------------

  /** A run with `m` more requests that are all `r`. */
  function WithBurst(run: seq<Request>, r: Request, m: nat): seq<Request> {
    if m == 0 then run else WithBurst(run, r, m - 1) + [r]
  }

  /** The request counts against the key at once: its client is the key, or is unspent. */
  predicate Aims(b: Buckets, r: Request, key: Key) {
    key == Client(r.address) || (key == Subject(r.subject) && !Live(b.table, Client(r.address), r.now))
  }

  function BurstWindow(r: Request, j: nat): Window { Window(j, r.now + WINDOW_MS) }

  /** `j` requests of the burst have been counted in a window begun with the burst, at
      the end of the map. */
  ghost predicate ClientBursting(b: Buckets, r: Request, j: nat) {
    var client, subject := Client(r.address), Subject(r.subject);
    && client in b.table && b.table[client] == BurstWindow(r, j)
    && (EndsWith(b.order, [client]) || (EndsWith(b.order, [client, subject]) && Live(b.table, subject, r.now)))
  }

  ghost predicate SubjectBursting(b: Buckets, r: Request, j: nat) {
    var client, subject := Client(r.address), Subject(r.subject);
    && client in b.table && b.table[client] == BurstWindow(r, j)
    && subject in b.table && b.table[subject] == BurstWindow(r, j)
    && EndsWith(b.order, [client, subject])
  }

  ghost predicate Bursting(b: Buckets, r: Request, key: Key, j: nat) {
    || (key == Client(r.address) && ClientBursting(b, r, j))
    || (key == Subject(r.subject) && SubjectBursting(b, r, j))
  }

  /** A new key goes to the end; one that is there stays where it is. */
  lemma CountKeepsEnd(b: Buckets, key: Key, now: int, suffix: seq<Key>)
    requires EndsWith(b.order, suffix)
    ensures EndsWith(CountHit(b, key, now).order, if key in b.table then suffix else suffix + [key])
    ensures Live(CountHit(b, key, now).table, key, now)
  {
    if key !in b.table {
      var older := b.order[..|b.order| - |suffix|];
      assert b.order == older + suffix;
      assert b.order + [key] == older + (suffix + [key]);
    }
  }

  /** The order after both hits, given how it ended before. */
  lemma CountBothKeepsEnd(room: Buckets, r: Request, options: Options, suffix: seq<Key>)
    requires EndsWith(room.order, suffix) && Passes(room.table, Client(r.address), r.now, options.clientLimit)
    ensures var counted := if Client(r.address) in room.table then suffix else suffix + [Client(r.address)];
      EndsWith(CountBoth(room, r, options).order,
               if Subject(r.subject) in room.table then counted else counted + [Subject(r.subject)])
    ensures Live(CountBoth(room, r, options).table, Subject(r.subject), r.now)
  {
    var counted := CountHit(room, Client(r.address), r.now);
    CountKeepsEnd(room, Client(r.address), r.now, suffix);
    CountKeepsEnd(counted, Subject(r.subject), r.now,
                  if Client(r.address) in room.table then suffix else suffix + [Client(r.address)]);
  }

  lemma ClientCounts(room: Buckets, r: Request, options: Options, j: nat)
    requires j < options.clientLimit && Current(room.table, Client(r.address), r.now) == BurstWindow(r, j)
    ensures Passes(room.table, Client(r.address), r.now, options.clientLimit)
    ensures var b := CountBoth(room, r, options);
      Client(r.address) in b.table && b.table[Client(r.address)] == BurstWindow(r, j + 1)
  {
  }

  lemma ClientEnds(room: Buckets, r: Request, options: Options)
    requires Passes(room.table, Client(r.address), r.now, options.clientLimit)
    requires if Client(r.address) in room.table then EndsWith(room.order, [Client(r.address)]) else true
    ensures var b := CountBoth(room, r, options); var client, subject := Client(r.address), Subject(r.subject);
      Live(b.table, subject, r.now) && (EndsWith(b.order, [client]) || EndsWith(b.order, [client, subject]))
  {
    var client, subject := Client(r.address), Subject(r.subject);
    CountBothKeepsEnd(room, r, options, if client in room.table then [client] else []);
    assert [] + [client] == [client] && [client] + [subject] == [client, subject];
  }

  lemma ClientStep(room: Buckets, r: Request, options: Options, j: nat)
    requires j < options.clientLimit
    requires if j == 0 then Client(r.address) !in room.table else ClientBursting(room, r, j)
    ensures Passes(room.table, Client(r.address), r.now, options.clientLimit)
    ensures ClientBursting(CountBoth(room, r, options), r, j + 1)
  {
    ClientCounts(room, r, options, j);
    if j == 0 || EndsWith(room.order, [Client(r.address)]) {
      ClientEnds(room, r, options);
    } else {
      CountBothKeepsEnd(room, r, options, [Client(r.address), Subject(r.subject)]);
    }
  }

  lemma SubjectStep(room: Buckets, r: Request, options: Options, j: nat)
    requires j < options.clientLimit && j < options.subjectLimit
    requires if j == 0 then Client(r.address) !in room.table && Subject(r.subject) !in room.table
             else SubjectBursting(room, r, j)
    ensures Passes(room.table, Client(r.address), r.now, options.clientLimit)
    ensures Passes(Count(room.table, Client(r.address), r.now), Subject(r.subject), r.now, options.subjectLimit)
    ensures SubjectBursting(CountBoth(room, r, options), r, j + 1)
  {
    var client, subject := Client(r.address), Subject(r.subject);
    assert [] + [client] == [client] && [client] + [subject] == [client, subject];
    CountBothKeepsEnd(room, r, options, if j == 0 then [] else [client, subject]);
  }

  lemma RoomKeepsClient(b: Buckets, r: Request, j: nat)
    requires WellFormed(b) && ClientBursting(b, r, j)
    ensures ClientBursting(MakeRoom(b, r.now), r, j)
  {
    var client, subject := Client(r.address), Subject(r.subject);
    if EndsWith(b.order, [client]) {
      RoomKeepsEnd(b, r.now, [client]);
      assert client in [client];
    } else {
      RoomKeepsEnd(b, r.now, [client, subject]);
      assert client in [client, subject] && subject in [client, subject];
    }
  }

  lemma RoomKeepsSubject(b: Buckets, r: Request, j: nat)
    requires WellFormed(b) && SubjectBursting(b, r, j)
    ensures SubjectBursting(MakeRoom(b, r.now), r, j)
  {
    var client, subject := Client(r.address), Subject(r.subject);
    RoomKeepsEnd(b, r.now, [client, subject]);
    assert client in [client, subject] && subject in [client, subject];
  }

  lemma BurstBegins(b: Buckets, r: Request, options: Options, key: Key)
    requires WellFormed(b) && Drops(b, key, r.now) && Aims(b, r, key)
    requires 1 <= LimitOf(options, key) <= options.clientLimit
    ensures StepPasses(b, r, options, key) && Bursting(AfterRequest(b, r, options), r, key, 1)
  {
    LiveKeysAre(b.order, b.table, r.now);
    if key == Client(r.address) {
      ClientStep(MakeRoom(b, r.now), r, options, 0);
    } else {
      SubjectStep(MakeRoom(b, r.now), r, options, 0);
    }
  }

  lemma BurstGoesOn(b: Buckets, r: Request, options: Options, key: Key, j: nat)
    requires WellFormed(b) && Bursting(b, r, key, j) && 0 < j < options.clientLimit && j < LimitOf(options, key)
    ensures StepPasses(b, r, options, key) && Bursting(AfterRequest(b, r, options), r, key, j + 1)
  {
    if key == Client(r.address) {
      RoomKeepsClient(b, r, j);
      ClientStep(MakeRoom(b, r.now), r, options, j);
    } else {
      RoomKeepsSubject(b, r, j);
      SubjectStep(MakeRoom(b, r.now), r, options, j);
    }
  }

  // ------------------------------------------------------------------------
  // The limit is passed
  // ------------------------------------------------------------------------

  lemma PassedSnoc(requests: seq<Request>, r: Request, options: Options, key: Key, end: int)
    ensures PassedOn(requests + [r], options, key, end) == PassedOn(requests, options, key, end)
      + (if StepPasses(Kept(requests, options), r, options, key)
         && TrueWindow(requests, options, key, r.now).resetAt == end then 1 else 0)
  {
    assert (requests + [r])[..|requests|] == requests;
  }

  /** The key has a true window that is open at this time and closes at `end`. */
  ghost predicate OpenUntil(requests: seq<Request>, options: Options, key: Key, now: int, end: int) {
    var full := After(ActualHits(requests, options));
    key in full && full[key].resetAt == end && now < end
  }

  lemma StaysOpen(requests: seq<Request>, r: Request, options: Options, key: Key, end: int)
    requires OpenUntil(requests, options, key, r.now, end)
    ensures OpenUntil(requests + [r], options, key, r.now, end)
  {
    var hits := ActualHits(requests, options);
    HitsSnoc(requests, r, options);
    Snoc(hits, Hit(Client(r.address), r.now), key, 0, 0, 0);
    Snoc(hits + [Hit(Client(r.address), r.now)], Hit(Subject(r.subject), r.now), key, 0, 0, 0);
  }

  /** `m` requests of a burst have passed on the key, in the window it had before. */
  ghost predicate HasBurst(run: seq<Request>, r: Request, options: Options, key: Key, end: int, m: nat, passed: nat) {
    && OpenUntil(run, options, key, r.now, end)
    && Bursting(Kept(run, options), r, key, m)
    && PassedOn(run, options, key, end) == passed
  }

  lemma OneMorePasses(run: seq<Request>, r: Request, options: Options, key: Key, end: int, m: nat)
    requires OpenUntil(run, options, key, r.now, end) && StepPasses(Kept(run, options), r, options, key)
    requires Bursting(AfterRequest(Kept(run, options), r, options), r, key, m)
    ensures HasBurst(run + [r], r, options, key, end, m, PassedOn(run, options, key, end) + 1)
  {
    PassedSnoc(run, r, options, key, end);
    StaysOpen(run, r, options, key, end);
    KeptSnoc(run, r, options);
  }

  lemma FirstPasses(run: seq<Request>, r: Request, options: Options, key: Key, end: int)
    requires Drops(Kept(run, options), key, r.now) && Aims(Kept(run, options), r, key)
    requires OpenUntil(run, options, key, r.now, end) && 1 <= LimitOf(options, key) <= options.clientLimit
    ensures HasBurst(run + [r], r, options, key, end, 1, PassedOn(run, options, key, end) + 1)
  {
    SizeIsBounded(run, options);
    BurstBegins(Kept(run, options), r, options, key);
    OneMorePasses(run, r, options, key, end, 1);
  }

  lemma NextPasses(run: seq<Request>, r: Request, options: Options, key: Key, end: int, m: nat, passed: nat)
    requires HasBurst(run, r, options, key, end, m, passed) && 0 < m < LimitOf(options, key) <= options.clientLimit
    ensures HasBurst(run + [r], r, options, key, end, m + 1, passed + 1)
  {
    SizeIsBounded(run, options);
    BurstGoesOn(Kept(run, options), r, options, key, m);
    OneMorePasses(run, r, options, key, end, m + 1);
  }

  lemma {:induction false} BurstPasses(run: seq<Request>, r: Request, options: Options, key: Key, end: int, m: nat,
                                       passed: nat)
    requires HasBurst(WithBurst(run, r, 1), r, options, key, end, 1, passed + 1)
    requires 1 <= m <= LimitOf(options, key) <= options.clientLimit
    ensures HasBurst(WithBurst(run, r, m), r, options, key, end, m, passed + m)
  {
    if m > 1 {
      BurstPasses(run, r, options, key, end, m - 1, passed);
      var before := WithBurst(run, r, m - 1);
      assert WithBurst(run, r, m) == before + [r];
      NextPasses(before, r, options, key, end, m - 1, passed + m - 1);
    }
  }

  lemma {:induction false} BurstIsTimely(run: seq<Request>, r: Request, m: nat)
    requires Timely(run) && (run != [] ==> run[|run| - 1].now <= r.now)
    ensures Timely(WithBurst(run, r, m)) && |WithBurst(run, r, m)| == |run| + m
    ensures m > 0 ==> WithBurst(run, r, m)[|run| + m - 1] == r
  {
    if m > 0 {
      BurstIsTimely(run, r, m - 1);
    }
  }

  /** Once a request evicts the key's live bucket the limit no longer holds: as many
      requests on the key as the limit allows, made at that time, all pass, on top of
      those that passed in the same window before. */
  lemma DropBreaksTheLimit(requests: seq<Request>, r: Request, options: Options, key: Key)
    requires Timely(requests) && (requests != [] ==> requests[|requests| - 1].now <= r.now)
    requires KeyKept(requests, options, key)
    requires Drops(Kept(requests, options), key, r.now) && Aims(Kept(requests, options), r, key)
    requires 1 <= LimitOf(options, key) <= options.clientLimit
    ensures var limit := LimitOf(options, key); var run := WithBurst(requests, r, limit);
      var dropped := Kept(requests, options).table[key];
      && Timely(run)
      && PassedOn(run, options, key, dropped.resetAt) == Min(dropped.count, limit) + limit
      && Min(dropped.count, limit) > 0
  {
    var limit, hits := LimitOf(options, key), ActualHits(requests, options);
    var dropped := Kept(requests, options).table[key];
    KeyAgrees(requests, options, key, r.now);
    HitsAreTimely(requests, options);
    StoredIsHit(hits, key);
    CountIsHitsInWindow(hits, key);
    AtMostLimitPerWindow(hits, key, limit, dropped.resetAt);
    Tally(requests, options, key, 0, dropped.resetAt);
    FirstPasses(requests, r, options, key, dropped.resetAt);
    assert WithBurst(requests, r, 1) == WithBurst(requests, r, 0) + [r];
    BurstPasses(requests, r, options, key, dropped.resetAt, limit, PassedOn(requests, options, key, dropped.resetAt));
    BurstIsTimely(requests, r, limit);
  }

  // ------------------------------------------------------------------------
  // It can happen
  // ------------------------------------------------------------------------

  function Name(n: nat): string { seq(n, _ => 'a') }

  /** `n` requests at one time, each with its own address and subject. */
  function Flood(n: nat): seq<Request> {
    if n == 0 then [] else Flood(n - 1) + [Request(Name(n - 1), Name(n - 1), 0)]
  }

  /** The keys of a flood, in order. */
  function FloodKeys(n: nat): (keys: seq<Key>)
    ensures |keys| == 2 * n
  {
    if n == 0 then [] else FloodKeys(n - 1) + [Client(Name(n - 1))] + [Subject(Name(n - 1))]
  }

  lemma {:induction false} InFlood(n: nat, m: nat)
    requires n <= m
    ensures Client(Name(m)) !in FloodKeys(n) && Subject(Name(m)) !in FloodKeys(n)
  {
    if n > 0 {
      InFlood(n - 1, m);
      assert |Name(m)| != |Name(n - 1)|;
    }
  }

  ghost predicate Filled(b: Buckets, keys: seq<Key>) {
    && b.order == keys
    && (forall k :: k in b.table <==> k in keys)
    && (forall k :: k in b.table ==> b.table[k] == Window(1, WINDOW_MS))
  }

  lemma FillsTwo(b: Buckets, keys: seq<Key>, name: string, options: Options)
    requires Filled(b, keys) && |keys| < MAXIMUM_BUCKETS && options.clientLimit >= 1
    requires Client(name) !in keys && Subject(name) !in keys
    ensures Filled(AfterRequest(b, Request(name, name, 0), options), keys + [Client(name)] + [Subject(name)])
  {
  }

  /** A flood fills the map, two buckets at a time. */
  lemma {:induction false} FloodFills(n: nat, options: Options)
    requires 2 * n <= MAXIMUM_BUCKETS && options.clientLimit >= 1
    ensures Filled(Kept(Flood(n), options), FloodKeys(n))
  {
    if n > 0 {
      hide Filled, AfterRequest;
      FloodFills(n - 1, options);
      InFlood(n - 1, n - 1);
      FillsTwo(Kept(Flood(n - 1), options), FloodKeys(n - 1), Name(n - 1), options);
      KeptSnoc(Flood(n - 1), Request(Name(n - 1), Name(n - 1), 0), options);
    }
  }

  lemma {:induction false} FloodIsTimely(n: nat)
    ensures |Flood(n)| == n && forall i :: 0 <= i < n ==> Flood(n)[i].now == 0
  {
    if n > 0 {
      FloodIsTimely(n - 1);
    }
  }

  lemma {:induction false} FirstOfFlood(n: nat)
    requires n > 0
    ensures FloodKeys(n)[0] == Client(Name(0))
  {
    if n > 1 {
      FirstOfFlood(n - 1);
    }
  }

  lemma KeptThrough(requests: seq<Request>, r: Request, options: Options, key: Key)
    requires KeyKept(requests, options, key) && |Kept(requests, options).order| < MAXIMUM_BUCKETS
    ensures KeyKept(requests + [r], options, key)
  {
    assert (requests + [r])[..|requests|] == requests;
  }

  lemma FloodSize(n: nat, options: Options)
    requires 2 * n <= MAXIMUM_BUCKETS && options.clientLimit >= 1
    ensures |Kept(Flood(n), options).order| == 2 * n
  {
    FloodFills(n, options);
  }

  lemma FloodStep(n: nat)
    requires n > 0
    ensures Flood(n) == Flood(n - 1) + [Request(Name(n - 1), Name(n - 1), 0)]
  {
  }

  lemma {:induction false} FloodKeeps(n: nat, options: Options, key: Key)
    requires 2 * n <= MAXIMUM_BUCKETS && options.clientLimit >= 1
    ensures KeyKept(Flood(n), options, key)
  {
    if n > 0 {
      hide KeyKept, Kept, Flood, Name;
      FloodStep(n);
      FloodKeeps(n - 1, options, key);
      FloodSize(n - 1, options);
      KeptThrough(Flood(n - 1), Request(Name(n - 1), Name(n - 1), 0), options, key);
    }
  }

  lemma FloodDropsFirst(n: nat, options: Options)
    requires 2 * n == MAXIMUM_BUCKETS && options.clientLimit >= 1
    ensures var b := Kept(Flood(n), options); var key := Client(Name(0));
      Drops(b, key, 0) && b.table[key] == Window(1, WINDOW_MS)
  {
    var b, key := Kept(Flood(n), options), Client(Name(0));
    FloodFills(n, options);
    FirstOfFlood(n);
    SizeIsBounded(Flood(n), options);
    AllLive(b.order, b.table, 0);
    DropsExactlyIf(b, key, 0);
    assert b.order[..1][0] == key;
  }

  /** The limits can be passed: ten thousand requests from different addresses at one
      time fill the map, and the first address then has its whole limit once more. */
  lemma TheLimitCanBePassed(n: nat, options: Options)
    requires 2 * n == MAXIMUM_BUCKETS && options.clientLimit >= 1
    ensures var run := WithBurst(Flood(n), Request(Name(0), Name(0), 0), options.clientLimit);
      Timely(run) && PassedOn(run, options, Client(Name(0)), WINDOW_MS) == options.clientLimit + 1
  {
    FloodIsTimely(n);
    FloodKeeps(n, options, Client(Name(0)));
    FloodDropsFirst(n, options);
    DropBreaksTheLimit(Flood(n), Request(Name(0), Name(0), 0), options, Client(Name(0)));
  }
}
