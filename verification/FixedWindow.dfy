/** Fixed-window request counting, shared by the code runner's per-candidate
    windows and by the login rate limiter's buckets.

    The unbounded table below never forgets a key.  Both services keep a bounded
    table that drops entries; `Agrees` relates the two. */
module FixedWindow {
  import opened Integers

  const WINDOW_MS := 60_000

  /** A hit is counted in the key's window if that is still open, and otherwise begins one
      that closes 60 seconds later. */
  lemma CurrentIs<K>(table: map<K, Window>, key: K, now: int)
    ensures var w := Current(table, key, now);
      && now < w.resetAt
      && (if key in table && table[key].resetAt > now then w == table[key] else w == Window(0, now + 60_000))
  {
  }

  datatype Window = Window(count: nat, resetAt: int)

  datatype Hit<K> = Hit(key: K, now: int)

  /** The window a hit on `key` at time `now` falls into, before it is counted. */
  function Current<K>(table: map<K, Window>, key: K, now: int): Window {
    if key in table && now < table[key].resetAt then table[key] else Window(0, now + WINDOW_MS)
  }

  function Count<K>(table: map<K, Window>, key: K, now: int): map<K, Window> {
    var w := Current(table, key, now);
    table[key := w.(count := w.count + 1)]
  }

  /** The decision: the hit, once counted, stays within the limit. */
  predicate Passes<K>(table: map<K, Window>, key: K, now: int, limit: nat) {
    Current(table, key, now).count + 1 <= limit
  }

  /** The table after a whole sequence of hits, starting empty. */
  ghost function After<K>(hits: seq<Hit<K>>): map<K, Window> {
    if hits == [] then map[]
    else
      var last := hits[|hits| - 1];
      Count(After(hits[..|hits| - 1]), last.key, last.now)
  }

  ghost predicate Chronological<K>(hits: seq<Hit<K>>) {
    forall i, j :: 0 <= i < j < |hits| ==> hits[i].now <= hits[j].now
  }

  lemma ChronologicalSnoc<K>(hits: seq<Hit<K>>, hit: Hit<K>)
    requires Chronological(hits) && (hits != [] ==> hits[|hits| - 1].now <= hit.now)
    ensures Chronological(hits + [hit])
  {
  }

  ghost predicate PassesAt<K>(hits: seq<Hit<K>>, i: nat, limit: nat)
    requires i < |hits|
  {
    Passes(After(hits[..i]), hits[i].key, hits[i].now, limit)
  }

  /** When the window that hit `i` was counted in closes. */
  ghost function WindowEnd<K>(hits: seq<Hit<K>>, i: nat): int
    requires i < |hits|
  {
    Current(After(hits[..i]), hits[i].key, hits[i].now).resetAt
  }

  // ------------------------------------------------------------------------
  // What one window lets through
  // ------------------------------------------------------------------------

  /** How many of the hits on `key` were counted in the window closing at `end`. */
  ghost function HitsInWindow<K>(hits: seq<Hit<K>>, key: K, end: int): nat {
    if hits == [] then 0
    else
      var n := |hits| - 1;
      HitsInWindow(hits[..n], key, end) + (if hits[n].key == key && WindowEnd(hits, n) == end then 1 else 0)
  }

  /** The stored count is the number of hits of the stored window, and no hit of
      this key has been counted in a window that closes later. */
  lemma {:induction false} CountIsHitsInWindow<K>(hits: seq<Hit<K>>, key: K)
    requires Chronological(hits)
    ensures key in After(hits) ==> After(hits)[key].count == HitsInWindow(hits, key, After(hits)[key].resetAt)
    ensures key in After(hits) ==> |hits| > 0 && After(hits)[key].resetAt <= hits[|hits| - 1].now + WINDOW_MS
    ensures forall end :: (key in After(hits) ==> After(hits)[key].resetAt < end) ==> HitsInWindow(hits, key, end) == 0
  {
    if hits != [] {
      var n := |hits| - 1;
      CountIsHitsInWindow(hits[..n], key);
      assert forall i :: 0 <= i < n ==> hits[..n][i] == hits[i];
    }
  }

  /** A stored window has been hit. */
  lemma {:induction false} StoredIsHit<K>(hits: seq<Hit<K>>, key: K)
    ensures key in After(hits) ==> After(hits)[key].count >= 1
  {
    if hits != [] {
      StoredIsHit(hits[..|hits| - 1], key);
    }
  }

  /** A hit passes exactly when fewer than `limit` earlier hits on its key fell
      into the same window. */
  lemma PassesIffWindowNotFull<K>(hits: seq<Hit<K>>, i: nat, limit: nat)
    requires Chronological(hits) && i < |hits|
    ensures PassesAt(hits, i, limit) <==> HitsInWindow(hits[..i], hits[i].key, WindowEnd(hits, i)) < limit
  {
    CountIsHitsInWindow(hits[..i], hits[i].key);
    assert forall k :: 0 <= k < i ==> hits[..i][k] == hits[k];
  }

  /** How many hits on `key` passed in the window closing at `end`. */
  ghost function PassedInWindow<K>(hits: seq<Hit<K>>, key: K, limit: nat, end: int): nat {
    if hits == [] then 0
    else
      var n := |hits| - 1;
      PassedInWindow(hits[..n], key, limit, end)
      + (if hits[n].key == key && WindowEnd(hits, n) == end && PassesAt(hits, n, limit) then 1 else 0)
  }

  /** A window passes all its hits up to the limit, and no more. */
  lemma {:induction false} AtMostLimitPerWindow<K>(hits: seq<Hit<K>>, key: K, limit: nat, end: int)
    requires Chronological(hits)
    ensures PassedInWindow(hits, key, limit, end) == Min(HitsInWindow(hits, key, end), limit)
  {
    if hits != [] {
      var n := |hits| - 1;
      assert forall k :: 0 <= k < n ==> hits[..n][k] == hits[k];
      AtMostLimitPerWindow(hits[..n], key, limit, end);
      PassesIffWindowNotFull(hits, n, limit);
    }
  }

  // ------------------------------------------------------------------------
  // What any interval of one window's length lets through
  // ------------------------------------------------------------------------

  /** Passed hits on `key` whose time lies in the half-open interval [from, from + WINDOW_MS). */
  ghost function PassedWithin<K>(hits: seq<Hit<K>>, key: K, limit: nat, from: int): nat {
    if hits == [] then 0
    else
      var n := |hits| - 1;
      PassedWithin(hits[..n], key, limit, from)
      + (if hits[n].key == key && from <= hits[n].now < from + WINDOW_MS && PassesAt(hits, n, limit) then 1 else 0)
  }

  /** The bound that the windows seen so far put on the interval: the window open
      when the interval starts gives at most `limit`, the next one `limit` more,
      and the one after that opens too late. */
  ghost function IntervalBound<K>(table: map<K, Window>, key: K, limit: nat, from: int): nat {
    if key !in table then 0
    else if table[key].resetAt < from + WINDOW_MS then Min(table[key].count, limit)
    else if table[key].resetAt < from + 2 * WINDOW_MS then limit + Min(table[key].count, limit)
    else 2 * limit
  }

  lemma {:induction false} PassedWithinIsBounded<K>(hits: seq<Hit<K>>, key: K, limit: nat, from: int)
    requires Chronological(hits)
    ensures PassedWithin(hits, key, limit, from) <= IntervalBound(After(hits), key, limit, from)
    ensures (hits == [] || hits[|hits| - 1].now < from) ==> PassedWithin(hits, key, limit, from) == 0
  {
    if hits != [] {
      var n := |hits| - 1;
      PassedWithinIsBounded(hits[..n], key, limit, from);
      CountIsHitsInWindow(hits[..n], key);
      assert forall i :: 0 <= i < n ==> hits[..n][i] == hits[i];
    }
  }

  /** At most twice the limit passes in any half-open interval of 60 seconds. */
  lemma AtMostTwiceTheLimit<K>(hits: seq<Hit<K>>, key: K, limit: nat, from: int)
    requires Chronological(hits)
    ensures PassedWithin(hits, key, limit, from) <= 2 * limit
  {
    PassedWithinIsBounded(hits, key, limit, from);
  }

  // One more hit

  lemma Snoc<K>(hits: seq<Hit<K>>, hit: Hit<K>, key: K, limit: nat, from: int, end: int)
    ensures After(hits + [hit]) == Count(After(hits), hit.key, hit.now)
    ensures PassedWithin(hits + [hit], key, limit, from) == PassedWithin(hits, key, limit, from)
      + (if hit.key == key && from <= hit.now < from + WINDOW_MS && Passes(After(hits), key, hit.now, limit)
         then 1 else 0)
    ensures PassedInWindow(hits + [hit], key, limit, end) == PassedInWindow(hits, key, limit, end)
      + (if hit.key == key && Current(After(hits), key, hit.now).resetAt == end
         && Passes(After(hits), key, hit.now, limit)
         then 1 else 0)
  {
    assert (hits + [hit])[..|hits|] == hits;
  }

  // ------------------------------------------------------------------------
  // Dropping expired entries is invisible
  // ------------------------------------------------------------------------

  /** `kept` is `full` without some entries that have expired by `now`. */
  ghost predicate Agrees<K>(kept: map<K, Window>, full: map<K, Window>, now: int) {
    && (forall k :: k in kept ==> k in full && kept[k] == full[k])
    && (forall k :: k in full && now < full[k].resetAt ==> k in kept)
  }

  lemma CountAgrees<K>(kept: map<K, Window>, full: map<K, Window>, before: int, key: K, now: int)
    requires Agrees(kept, full, before) && before <= now
    ensures Current(kept, key, now) == Current(full, key, now)
    ensures Agrees(Count(kept, key, now), Count(full, key, now), now)
  {
  }

  /** The two tables agree on one key. */
  ghost predicate AgreesOn<K>(kept: map<K, Window>, full: map<K, Window>, key: K, now: int) {
    && (key in kept ==> key in full && kept[key] == full[key])
    && (key in full && now < full[key].resetAt ==> key in kept)
  }

  lemma AgreesOnAll<K(!new)>(kept: map<K, Window>, full: map<K, Window>, now: int)
    requires forall k :: AgreesOn(kept, full, k, now)
    ensures Agrees(kept, full, now)
  {
    forall k | k in kept
      ensures k in full && kept[k] == full[k]
    {
      assert AgreesOn(kept, full, k, now);
    }
    forall k | k in full && now < full[k].resetAt
      ensures k in kept
    {
      assert AgreesOn(kept, full, k, now);
    }
  }

  lemma CountAgreesOn<K>(kept: map<K, Window>, full: map<K, Window>, key: K, counted: K, now: int)
    requires AgreesOn(kept, full, key, now)
    ensures Current(kept, key, now) == Current(full, key, now)
    ensures AgreesOn(Count(kept, counted, now), Count(full, counted, now), key, now)
  {
  }

  lemma DropExpiredAgrees<K>(kept: map<K, Window>, fewer: map<K, Window>, full: map<K, Window>, now: int)
    requires Agrees(kept, full, now)
    requires forall k :: k in fewer ==> k in kept && fewer[k] == kept[k]
    requires forall k :: k in kept && now < kept[k].resetAt ==> k in fewer
    ensures Agrees(fewer, full, now)
  {
  }
}
