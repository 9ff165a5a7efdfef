/** The request rate limiter: every request counts against a client bucket and, if
    that passes, against a subject bucket.  The buckets live in a map that keeps
    insertion order and evicts at capacity.  Keys are digests, taken as injective;
    the two kinds of key have different prefixes and never collide. */
module RequestRateLimiter {
  import opened Wrappers
  import opened FixedWindow

  const MAXIMUM_BUCKETS := 20_000

  datatype Key = Client(address: string) | Subject(subject: string)

  datatype Options = Options(clientLimit: nat, subjectLimit: nat)

  const LOGIN := Options(20, 10)
  const CANDIDATE_EXECUTION := Options(12, 6)
  const ACCOUNT_CREATION := Options(6, 3)

  datatype Request = Request(address: string, subject: string, now: int)

  /** The insertion-ordered map: its keys in order, and its contents. */
  datatype Buckets = Buckets(order: seq<Key>, table: map<Key, Window>)

  const EMPTY := Buckets([], map[])

  function CeilDiv(n: int, d: int): int
    requires d > 0
  {
    (n + d - 1) / d
  }

  // ------------------------------------------------------------------------
  // Making room
  // ------------------------------------------------------------------------

  predicate Live(table: map<Key, Window>, key: Key, now: int) { key in table && now < table[key].resetAt }

  /** The keys of the live buckets, oldest first. */
  function LiveKeys(order: seq<Key>, table: map<Key, Window>, now: int): (live: seq<Key>)
    ensures |live| <= |order|
  {
    if order == [] then []
    else if Live(table, order[0], now) then [order[0]] + LiveKeys(order[1..], table, now)
    else LiveKeys(order[1..], table, now)
  }

  function Restrict(table: map<Key, Window>, keys: seq<Key>): map<Key, Window> {
    map k | k in table && k in keys :: table[k]
  }

  function DropOldest(keys: seq<Key>): seq<Key> {
    if |keys| >= MAXIMUM_BUCKETS then keys[|keys| - (MAXIMUM_BUCKETS - 1)..] else keys
  }

  /** At capacity, expired buckets go first and then the oldest ones. */
  function MakeRoom(b: Buckets, now: int): Buckets {
    if |b.order| < MAXIMUM_BUCKETS then b
    else
      var kept := DropOldest(LiveKeys(b.order, b.table, now));
      Buckets(kept, Restrict(b.table, kept))
  }

  function CountHit(b: Buckets, key: Key, now: int): Buckets {
    Buckets(if key in b.table then b.order else b.order + [key], Count(b.table, key, now))
  }

  /** A request over the client limit leaves the subject bucket alone. */
  function CountBoth(room: Buckets, r: Request, options: Options): Buckets {
    var counted := CountHit(room, Client(r.address), r.now);
    if Passes(room.table, Client(r.address), r.now, options.clientLimit)
    then CountHit(counted, Subject(r.subject), r.now) else counted
  }

  /** The buckets after one request. */
  function AfterRequest(b: Buckets, r: Request, options: Options): Buckets {
    CountBoth(MakeRoom(b, r.now), r, options)
  }

  ghost predicate NoDuplicates(keys: seq<Key>) {
    keys == [] || (keys[0] !in keys[1..] && NoDuplicates(keys[1..]))
  }

  lemma {:induction false} NoDuplicatesSnoc(keys: seq<Key>, key: Key)
    requires NoDuplicates(keys) && key !in keys
    ensures NoDuplicates(keys + [key])
  {
    if keys != [] {
      NoDuplicatesSnoc(keys[1..], key);
      assert (keys + [key])[1..] == keys[1..] + [key];
    }
  }

  lemma {:induction false} NoDuplicatesSuffix(keys: seq<Key>, i: nat)
    requires NoDuplicates(keys) && i <= |keys|
    ensures NoDuplicates(keys[i..])
    ensures i > 0 ==> keys[0] !in keys[i..]
  {
    if i > 0 {
      NoDuplicatesSuffix(keys[1..], i - 1);
      assert keys[1..][i - 1..] == keys[i..];
    }
  }

  ghost predicate WellFormed(b: Buckets) {
    && NoDuplicates(b.order)
    && (forall k :: k in b.order <==> k in b.table)
  }

  lemma {:induction false} LiveKeysAre(order: seq<Key>, table: map<Key, Window>, now: int)
    ensures forall k :: k in LiveKeys(order, table, now) <==> k in order && Live(table, k, now)
  {
    if order != [] {
      LiveKeysAre(order[1..], table, now);
      assert order == [order[0]] + order[1..];
    }
  }

  lemma {:induction false} LiveKeysNoDuplicates(order: seq<Key>, table: map<Key, Window>, now: int)
    requires NoDuplicates(order)
    ensures NoDuplicates(LiveKeys(order, table, now))
  {
    if order != [] {
      LiveKeysNoDuplicates(order[1..], table, now);
      LiveKeysAre(order[1..], table, now);
      assert ([order[0]] + LiveKeys(order[1..], table, now))[1..] == LiveKeys(order[1..], table, now);
    }
  }

  lemma MakeRoomWellFormed(b: Buckets, now: int)
    requires WellFormed(b)
    ensures WellFormed(MakeRoom(b, now)) && |MakeRoom(b, now).order| < MAXIMUM_BUCKETS
  {
    LiveKeysAre(b.order, b.table, now);
    LiveKeysNoDuplicates(b.order, b.table, now);
    var live := LiveKeys(b.order, b.table, now);
    if |live| >= MAXIMUM_BUCKETS {
      NoDuplicatesSuffix(live, |live| - (MAXIMUM_BUCKETS - 1));
    }
  }

  lemma CountHitWellFormed(b: Buckets, key: Key, now: int)
    requires WellFormed(b)
    ensures WellFormed(CountHit(b, key, now)) && |CountHit(b, key, now).order| <= |b.order| + 1
  {
    if key !in b.table {
      NoDuplicatesSnoc(b.order, key);
    }
  }

  /** A live bucket is evicted exactly when as many buckets are live as the map may
      hold; what stays at capacity is the newest of the live ones. */
  lemma EvictsLiveExactlyAtCapacity(b: Buckets, now: int)
    requires WellFormed(b)
    ensures (exists k :: Live(b.table, k, now) && k !in MakeRoom(b, now).table)
       <==> |LiveKeys(b.order, b.table, now)| >= 20_000
    ensures if |b.order| < 20_000 then MakeRoom(b, now) == b
            else
              var live := LiveKeys(b.order, b.table, now);
              MakeRoom(b, now).order == live[if |live| >= 20_000 then |live| - 19_999 else 0..]
  {
    LiveKeysAre(b.order, b.table, now);
    LiveKeysNoDuplicates(b.order, b.table, now);
    var live := LiveKeys(b.order, b.table, now);
    if |live| >= MAXIMUM_BUCKETS {
      NoDuplicatesSuffix(live, |live| - (MAXIMUM_BUCKETS - 1));
      assert live[0] in live && live[0] !in DropOldest(live);
    }
  }

  // ------------------------------------------------------------------------
  // Whole runs
  // ------------------------------------------------------------------------

  /** The buckets the limiter keeps after a sequence of requests. */
  ghost function Kept(requests: seq<Request>, options: Options): Buckets {
    if requests == [] then EMPTY
    else AfterRequest(Kept(requests[..|requests| - 1], options), requests[|requests| - 1], options)
  }

  /** The table the decision on request `i` is taken with. */
  ghost function TableAt(requests: seq<Request>, i: nat, options: Options): map<Key, Window>
    requires i < |requests|
  {
    MakeRoom(Kept(requests[..i], options), requests[i].now).table
  }

  ghost predicate ClientPasses(requests: seq<Request>, i: nat, options: Options)
    requires i < |requests|
  {
    Passes(TableAt(requests, i, options), Client(requests[i].address), requests[i].now, options.clientLimit)
  }

  /** The request is let through: both buckets are within their limits. */
  ghost predicate Admitted(requests: seq<Request>, i: nat, options: Options)
    requires i < |requests|
  {
    var r := requests[i];
    && ClientPasses(requests, i, options)
    && Passes(Count(TableAt(requests, i, options), Client(r.address), r.now), Subject(r.subject), r.now,
              options.subjectLimit)
  }

  /** On every run the map exceeds its capacity by at most one entry. */
  lemma {:induction false} SizeIsBounded(requests: seq<Request>, options: Options)
    ensures WellFormed(Kept(requests, options))
    ensures |Kept(requests, options).order| <= 20_001
  {
    if requests != [] {
      var n := |requests| - 1;
      SizeIsBounded(requests[..n], options);
      var b, r := Kept(requests[..n], options), requests[n];
      MakeRoomWellFormed(b, r.now);
      var room := MakeRoom(b, r.now);
      CountHitWellFormed(room, Client(r.address), r.now);
      CountHitWellFormed(CountHit(room, Client(r.address), r.now), Subject(r.subject), r.now);
    }
  }

  // ------------------------------------------------------------------------
  // The limiter
  // ------------------------------------------------------------------------

  class Limiter {
    const options: Options
    var order: seq<Key>
    var buckets: map<Key, Window>
    ghost var requests: seq<Request>

    ghost function View(): Buckets
      reads this
    {
      Buckets(order, buckets)
    }

    ghost predicate Valid()
      reads this
    {
      View() == Kept(requests, options)
    }

    constructor (options: Options)
      ensures Valid() && this.options == options && requests == []
    {
      this.options := options;
      order, buckets, requests := [], map[], [];
    }

    /** `consume`: how many seconds to wait, or nothing if the request may pass. */
    method Consume(address: string, subject: string, now: int) returns (retryAfter: Option<int>)
      requires Valid()
      modifies this
      ensures Valid() && requests == old(requests) + [Request(address, subject, now)]
      ensures retryAfter == None <==> Admitted(requests, |old(requests)|, options)
      ensures retryAfter.Some? ==>
                var refusing := if ClientPasses(requests, |old(requests)|, options) then Subject(subject)
                                else Client(address);
                && retryAfter.value >= 1 && refusing in buckets
                && 1000 * (retryAfter.value - 1) < buckets[refusing].resetAt - now <= 1000 * retryAfter.value
    {
      ghost var r := Request(address, subject, now);
      KeptSnoc(requests, r, options);
      RemoveExpiredBuckets(now);
      ghost var room := View();
      requests := requests + [r];
      var clientRetry := ConsumeBucket(Client(address), options.clientLimit, now);
      if clientRetry > 0 {
        return Some(CeilDiv(clientRetry, 1000));
      }
      var subjectRetry := ConsumeBucket(Subject(subject), options.subjectLimit, now);
      retryAfter := if subjectRetry > 0 then Some(CeilDiv(subjectRetry, 1000)) else None;
    }

    method ConsumeBucket(key: Key, limit: nat, now: int) returns (retry: int)
      modifies `order, `buckets
      ensures View() == CountHit(old(View()), key, now)
      ensures retry > 0 <==> !Passes(old(buckets), key, now, limit)
      ensures retry >= 0 && (retry > 0 ==> retry == buckets[key].resetAt - now)
    {
      var bucket := if key !in buckets || buckets[key].resetAt <= now then Window(0, now + WINDOW_MS) else buckets[key];
      bucket := bucket.(count := bucket.count + 1);
      order := if key in buckets then order else order + [key];
      buckets := buckets[key := bucket];
      return if bucket.count > limit then bucket.resetAt - now else 0;
    }

    method RemoveExpiredBuckets(now: int)
      requires WellFormed(View())
      modifies `order, `buckets
      ensures View() == MakeRoom(old(View()), now)
    {
      if |order| < MAXIMUM_BUCKETS {
        return;
      }
      ghost var table := buckets;
      LiveKeysNoDuplicates(order, table, now);
      SweepExpired(now);
      EvictOldest(table);
    }

    method EvictOldest(ghost table: map<Key, Window>)
      requires NoDuplicates(order) && buckets == Restrict(table, order)
      modifies `order, `buckets
      ensures order == DropOldest(old(order)) && buckets == Restrict(table, order)
    {
      ghost var live, gone := order, 0;
      while |order| >= MAXIMUM_BUCKETS
        invariant gone <= |live| && order == live[gone..]
        invariant gone > 0 ==> |order| >= MAXIMUM_BUCKETS - 1
        invariant NoDuplicates(order) && buckets == Restrict(table, order)
      {
        DropHead(order, table);
        var oldestKey := order[0];
        order := order[1..];
        buckets := buckets - {oldestKey};
        gone := gone + 1;
      }
    }

    /** Visits the buckets in insertion order, deleting the expired ones as it goes. */
    method SweepExpired(now: int)
      requires WellFormed(View())
      modifies `order, `buckets
      ensures order == LiveKeys(old(order), old(buckets), now) && buckets == Restrict(old(buckets), order)
    {
      ghost var all, table := order, buckets;
      var visited, pending := [], order;
      assert all == visited + pending;
      while pending != []
        invariant ToVisit(visited, pending, table)
        invariant visited + LiveKeys(pending, table, now) == LiveKeys(all, table, now)
        invariant buckets == Restrict(table, visited + pending)
        decreases |pending|
      {
        SweepStep(visited, pending, table, now);
        var key, rest := pending[0], pending[1..];
        if buckets[key].resetAt <= now {
          buckets := buckets - {key};
        } else {
          visited := visited + [key];
        }
        pending := rest;
      }
      SweepDone(visited, pending, table, now);
      order := visited;
    }
  }

  ghost predicate ToVisit(visited: seq<Key>, pending: seq<Key>, table: map<Key, Window>) {
    && NoDuplicates(pending)
    && (forall k :: k in visited ==> k !in pending)
    && (forall k :: k in pending ==> k in table)
  }

  lemma ToVisitNext(visited: seq<Key>, pending: seq<Key>, table: map<Key, Window>)
    requires pending != [] && ToVisit(visited, pending, table)
    ensures ToVisit(visited, pending[1..], table) && ToVisit(visited + [pending[0]], pending[1..], table)
    ensures pending[0] in table && pending[0] !in visited && pending[0] !in pending[1..]
  {
    assert pending == [pending[0]] + pending[1..];
    assert pending[0] in pending;
  }

  lemma SweepConcat(visited: seq<Key>, pending: seq<Key>)
    requires pending != []
    ensures visited + pending == visited + [pending[0]] + pending[1..]
    ensures pending[0] in visited + pending
  {
    assert (visited + pending)[|visited|] == pending[0];
  }

  lemma SweepLive(visited: seq<Key>, pending: seq<Key>, table: map<Key, Window>, now: int)
    requires pending != []
    ensures visited + LiveKeys(pending, table, now)
         == (if Live(table, pending[0], now) then visited + [pending[0]] else visited)
           + LiveKeys(pending[1..], table, now)
  {
  }

  /** A bucket the sweep deletes. */
  lemma SweepDrop(visited: seq<Key>, pending: seq<Key>, table: map<Key, Window>)
    requires pending != [] && pending[0] !in pending[1..] && pending[0] !in visited
    ensures Restrict(table, visited + pending) - {pending[0]} == Restrict(table, visited + pending[1..])
  {
    assert pending == [pending[0]] + pending[1..];
  }

  lemma SweepStep(visited: seq<Key>, pending: seq<Key>, table: map<Key, Window>, now: int)
    requires pending != [] && ToVisit(visited, pending, table)
    ensures var key := pending[0]; var rest := pending[1..]; var all := Restrict(table, visited + pending);
      && key in all && all[key] == table[key]
      && (var next := if now < table[key].resetAt then visited + [key] else visited;
          && ToVisit(next, rest, table)
          && next + LiveKeys(rest, table, now) == visited + LiveKeys(pending, table, now)
          && Restrict(table, next + rest) == if now < table[key].resetAt then all else all - {key})
  {
    SweepConcat(visited, pending);
    SweepLive(visited, pending, table, now);
    ToVisitNext(visited, pending, table);
    SweepDrop(visited, pending, table);
  }

  lemma SweepDone(visited: seq<Key>, pending: seq<Key>, table: map<Key, Window>, now: int)
    requires pending == []
    ensures visited + pending == visited && visited + LiveKeys(pending, table, now) == visited
  {
  }

  lemma DropHead(order: seq<Key>, table: map<Key, Window>)
    requires order != [] && NoDuplicates(order)
    ensures Restrict(table, order) - {order[0]} == Restrict(table, order[1..])
  {
    assert order == [order[0]] + order[1..];
  }

  lemma KeptSnoc(requests: seq<Request>, r: Request, options: Options)
    ensures Kept(requests + [r], options) == AfterRequest(Kept(requests, options), r, options)
    ensures TableAt(requests + [r], |requests|, options) == MakeRoom(Kept(requests, options), r.now).table
    ensures WellFormed(Kept(requests, options))
  {
    assert (requests + [r])[..|requests|] == requests;
    SizeIsBounded(requests, options);
  }
}
