/** The code runner service: its per-candidate request windows with garbage
    collection, and the admission scheduler over mutable fields. */
module CodeRunner {
  import opened FixedWindow
  import opened AdmissionScheduler

  const MAX_RUNS_PER_CANDIDATE_PER_MINUTE := 6
  const MAX_TRACKED_WINDOWS := 10_000

  // ------------------------------------------------------------------------
  // Request windows
  // ------------------------------------------------------------------------

  function Unexpired(table: map<string, Window>, now: int): map<string, Window> {
    map k | k in table && now < table[k].resetAt :: table[k]
  }

  /** The table after one request: a refused request throws before the sweep. */
  function AfterRequest(table: map<string, Window>, key: string, now: int): map<string, Window> {
    var counted := Count(table, key, now);
    if Passes(table, key, now, MAX_RUNS_PER_CANDIDATE_PER_MINUTE) && |counted| > MAX_TRACKED_WINDOWS
    then Unexpired(counted, now) else counted
  }

  /** The table the service keeps after a whole sequence of requests. */
  ghost function Kept(hits: seq<Hit<string>>): map<string, Window> {
    if hits == [] then map[]
    else
      var last := hits[|hits| - 1];
      AfterRequest(Kept(hits[..|hits| - 1]), last.key, last.now)
  }

  /** The service's own decision on request `i`. */
  ghost predicate Admitted(hits: seq<Hit<string>>, i: nat)
    requires i < |hits|
  {
    Passes(Kept(hits[..i]), hits[i].key, hits[i].now, MAX_RUNS_PER_CANDIDATE_PER_MINUTE)
  }

  lemma {:induction false} KeptAgrees(hits: seq<Hit<string>>, now: int)
    requires Chronological(hits)
    requires hits != [] ==> hits[|hits| - 1].now <= now
    ensures Agrees(Kept(hits), After(hits), now)
  {
    if hits != [] {
      var n := |hits| - 1;
      var last := hits[n];
      assert forall i :: 0 <= i < n ==> hits[..n][i] == hits[i];
      KeptAgrees(hits[..n], last.now);
      CountAgrees(Kept(hits[..n]), After(hits[..n]), last.now, last.key, last.now);
      DropExpiredAgrees(Count(Kept(hits[..n]), last.key, last.now), Kept(hits), After(hits), last.now);
    }
  }

  /** On every request sequence the sweep of expired windows changes no decision:
      the service decides as a limiter that never forgets a key. */
  lemma GarbageCollectionIsInvisible(hits: seq<Hit<string>>, i: nat)
    requires Chronological(hits) && i < |hits|
    ensures Admitted(hits, i) <==> PassesAt(hits, i, 6)
    ensures Admitted(hits, i) <==> HitsInWindow(hits[..i], hits[i].key, WindowEnd(hits, i)) < 6
  {
    assert forall k :: 0 <= k < i ==> hits[..i][k] == hits[k];
    KeptAgrees(hits[..i], hits[i].now);
    CountAgrees(Kept(hits[..i]), After(hits[..i]), hits[i].now, hits[i].key, hits[i].now);
    PassesIffWindowNotFull(hits, i, MAX_RUNS_PER_CANDIDATE_PER_MINUTE);
  }

  ghost function AdmittedWithin(hits: seq<Hit<string>>, key: string, from: int): nat {
    if hits == [] then 0
    else
      var n := |hits| - 1;
      AdmittedWithin(hits[..n], key, from)
      + (if hits[n].key == key && from <= hits[n].now < from + WINDOW_MS && Admitted(hits, n) then 1 else 0)
  }

  /** At most twelve requests of one candidate are admitted in any 60 seconds. */
  lemma {:induction false} AtMostTwelvePerMinute(hits: seq<Hit<string>>, key: string, from: int)
    requires Chronological(hits)
    ensures AdmittedWithin(hits, key, from) == PassedWithin(hits, key, 6, from)
    ensures AdmittedWithin(hits, key, from) <= 12
  {
    if hits != [] {
      var n := |hits| - 1;
      assert forall k :: 0 <= k < n ==> hits[..n][k] == hits[k];
      AtMostTwelvePerMinute(hits[..n], key, from);
      GarbageCollectionIsInvisible(hits, n);
    }
    AtMostTwiceTheLimit(hits, key, MAX_RUNS_PER_CANDIDATE_PER_MINUTE, from);
  }

  /** The table is swept exactly if an admitted request leaves more than 10,000 windows: it
      then has no closed one, and otherwise every window it had. */
  lemma SweptAboveTenThousand(hits: seq<Hit<string>>, hit: Hit<string>)
    ensures var before, after := Kept(hits), Kept(hits + [hit]);
      && hit.key in after
      && (forall k :: k in before && before[k].resetAt > hit.now ==> k in after)
      && (forall k :: k in after && k != hit.key ==> k in before && after[k] == before[k])
      && (if Admitted(hits + [hit], |hits|) && |before.Keys + {hit.key}| > 10_000
          then forall k :: k in after ==> hit.now < after[k].resetAt
          else before.Keys <= after.Keys)
  {
    AppendRequest(hits, hit);
    assert Count(Kept(hits), hit.key, hit.now).Keys == Kept(hits).Keys + {hit.key};
  }

  // ------------------------------------------------------------------------
  // The service
  // ------------------------------------------------------------------------

  lemma AppendRequest(hits: seq<Hit<string>>, hit: Hit<string>)
    ensures Kept(hits + [hit]) == AfterRequest(Kept(hits), hit.key, hit.now)
    ensures Admitted(hits + [hit], |hits|) <==> Passes(Kept(hits), hit.key, hit.now, MAX_RUNS_PER_CANDIDATE_PER_MINUTE)
  {
    assert (hits + [hit])[..|hits|] == hits;
  }

  /** One turn of the loop, or its end. */
  lemma DispatchTurns(s: State)
    requires WellNumbered(s)
    ensures var i := FirstStartable(s.queue, s.activeKeys);
      Dispatch(s) == if s.activeRuns < MAX_CONCURRENT_RUNS && i < |s.queue| then Dispatch(StartQueued(s, i)) else s
  {
  }

  class CodeRunnerService {
    var activeRuns: int
    var activeAdmissionKeys: set<string>
    var queuedRuns: seq<QueuedRun>
    var queueTimers: map<nat, int>
    var requestWindows: map<string, Window>

    // history
    ghost var keys: seq<string>
    ghost var status: seq<Status>
    ghost var started: seq<nat>
    ghost var requests: seq<Hit<string>>
    ghost var run: seq<Step>
    var nextId: nat

    ghost function View(): State
      reads this
    {
      State(activeRuns, activeAdmissionKeys, queuedRuns, queueTimers, keys, status, started)
    }

    /** The fields are those of the transition system after the run so far, so that
        everything proved about its runs holds of the service. */
    ghost predicate Valid()
      reads this
    {
      && View() == Exec(run)
      && nextId == |status|
      && Chronological(requests)
      && requestWindows == Kept(requests)
    }

    /** Requests are made in the order of the clock. */
    ghost predicate NotBefore(now: int)
      reads this
    {
      requests != [] ==> requests[|requests| - 1].now <= now
    }

    constructor ()
      ensures Valid() && View() == INITIAL && requests == []
    {
      activeRuns, activeAdmissionKeys, queuedRuns, queueTimers, requestWindows := 0, {}, [], map[], map[];
      keys, status, started, requests, run, nextId := [], [], [], [], [], 0;
    }

    method AssertRequestRate(admissionKey: string, now: int) returns (ok: bool)
      modifies `requestWindows
      ensures requestWindows == AfterRequest(old(requestWindows), admissionKey, now)
      ensures ok == Passes(old(requestWindows), admissionKey, now, MAX_RUNS_PER_CANDIDATE_PER_MINUTE)
    {
      var window := if admissionKey !in requestWindows || requestWindows[admissionKey].resetAt <= now
                    then Window(0, now + WINDOW_MS) else requestWindows[admissionKey];
      window := window.(count := window.count + 1);
      requestWindows := requestWindows[admissionKey := window];
      if window.count > MAX_RUNS_PER_CANDIDATE_PER_MINUTE {
        return false;
      }
      if |requestWindows| > MAX_TRACKED_WINDOWS {
        SweepExpired(now);
      }
      return true;
    }

    method SweepExpired(now: int)
      modifies `requestWindows
      ensures requestWindows == Unexpired(old(requestWindows), now)
    {
      ghost var all := requestWindows;
      var pending := requestWindows.Keys;
      while pending != {}
        invariant pending <= requestWindows.Keys
        invariant forall k :: k in requestWindows ==> k in all && requestWindows[k] == all[k]
        invariant forall k :: k in all ==> (k in requestWindows <==> k in pending || now < all[k].resetAt)
      {
        var key :| key in pending;
        pending := pending - {key};
        if requestWindows[key].resetAt <= now {
          requestWindows := requestWindows - {key};
        }
      }
    }

    /** `withAdmission`: the outcome is the state the submission is left in. */
    method WithAdmission(admissionKey: string, now: int) returns (outcome: Status)
      requires Valid() && NotBefore(now)
      modifies this
      ensures Valid() && requests == old(requests) + [Hit(admissionKey, now)]
      ensures run == old(run) + [Submit(admissionKey, now, Admitted(requests, |old(requests)|))]
      ensures View().status == old(status) + [outcome]
      ensures outcome == RateRejected <==> !Admitted(requests, |old(requests)|)
    {
      var ok := AssertRequestRate(admissionKey, now);
      AppendRequest(requests, Hit(admissionKey, now));
      ChronologicalSnoc(requests, Hit(admissionKey, now));
      requests := requests + [Hit(admissionKey, now)];
      ExecSnoc(run, Submit(admissionKey, now, ok));
      outcome := Admit(admissionKey, now, ok);
      run := run + [Submit(admissionKey, now, ok)];
    }

    /** What follows the rate check in `withAdmission`. */
    method Admit(admissionKey: string, now: int, ok: bool) returns (outcome: Status)
      requires WellNumbered(View()) && nextId == |status|
      modifies `activeRuns, `activeAdmissionKeys, `queuedRuns, `queueTimers, `keys, `status, `started, `nextId
      ensures View() == Submitted(old(View()), admissionKey, now, ok)
      ensures View().status == old(status) + [outcome] && nextId == |status|
      ensures outcome == RateRejected <==> !ok
    {
      var id := nextId;
      nextId := id + 1;
      keys := keys + [admissionKey];
      if !ok {
        status := status + [RateRejected];
        return RateRejected;
      }
      if activeRuns < MAX_CONCURRENT_RUNS && admissionKey !in activeAdmissionKeys {
        status := status + [Queued];
        RunAdmitted(id, admissionKey);
        return Running;
      }
      if |queuedRuns| >= MAX_QUEUED_RUNS {
        status := status + [QueueFullRejected];
        return QueueFullRejected;
      }
      status := status + [Queued];
      queuedRuns := queuedRuns + [QueuedRun(id, admissionKey)];
      queueTimers := queueTimers[id := now + QUEUE_TIMEOUT_MS];
      return Queued;
    }

    /** The part of `runAdmitted` before the operation is awaited. */
    method RunAdmitted(id: nat, admissionKey: string)
      requires id < |status|
      modifies `activeRuns, `activeAdmissionKeys, `status, `started
      ensures View() == Start(old(View()), id, admissionKey)
    {
      activeRuns := activeRuns + 1;
      activeAdmissionKeys := activeAdmissionKeys + {admissionKey};
      status := status[id := Running];
      started := started + [id];
    }

    /** A run ends: the `finally` part of `runAdmitted`. */
    method FinishRun(id: nat, admissionKey: string)
      requires Valid() && Enabled(View(), Complete(id)) && keys[id] == admissionKey
      modifies this
      ensures Valid() && run == old(run) + [Complete(id)]
      ensures requests == old(requests) && Load(View()) == Load(old(View())) - 1
    {
      RunStepDrains(run, Complete(id));
      ghost var before := View();
      Release(id, admissionKey);
      assert Next(before, Complete(id)) == View();
      ExecSnoc(run, Complete(id));
      run := run + [Complete(id)];
      assert |status| == |old(status)|;
    }

    method Release(id: nat, admissionKey: string)
      requires WellNumbered(View()) && id < |status| && keys[id] == admissionKey
      modifies `activeRuns, `activeAdmissionKeys, `queuedRuns, `queueTimers, `status, `started
      ensures View() == Completed(old(View()), id) && |status| == |old(status)|
    {
      activeRuns := activeRuns - 1;
      activeAdmissionKeys := activeAdmissionKeys - {admissionKey};
      status := status[id := Finished];
      DispatchQueuedRuns();
    }

    method DispatchQueuedRuns()
      requires WellNumbered(View())
      modifies `activeRuns, `activeAdmissionKeys, `queuedRuns, `queueTimers, `status, `started
      ensures WellNumbered(View()) && View() == Dispatch(old(View())) && |status| == |old(status)|
    {
      hide Dispatch, RemoveAt;
      while activeRuns < MAX_CONCURRENT_RUNS
        invariant |status| == |old(status)|
        invariant WellNumbered(View()) && Dispatch(View()) == Dispatch(old(View()))
        decreases |queuedRuns|
      {
        var index := FirstStartable(queuedRuns, activeAdmissionKeys);
        DispatchTurns(View());
        if index == |queuedRuns| {
          return;
        }
        StartQueuedNumbered(View(), index);
        RemoveLength(queuedRuns, index);
        var queued := queuedRuns[index];
        queuedRuns := RemoveAt(queuedRuns, index);
        queueTimers := queueTimers - {queued.id};
        RunAdmitted(queued.id, queued.admissionKey);
      }
      DispatchTurns(View());
    }

    /** The queue timer's callback. */
    method QueueTimeout(id: nat, now: int)
      requires Valid() && Enabled(View(), Timeout(id, now))
      modifies this
      ensures Valid() && run == old(run) + [Timeout(id, now)]
      ensures requests == old(requests) && Load(View()) == Load(old(View())) - 1
    {
      RunStepDrains(run, Timeout(id, now));
      ExecSnoc(run, Timeout(id, now));
      LeaveQueue(id);
      run := run + [Timeout(id, now)];
    }

    method LeaveQueue(id: nat)
      requires id < |status|
      modifies `queuedRuns, `queueTimers, `status
      ensures View() == TimerFired(old(View()), id) && |status| == |old(status)|
    {
      queueTimers := queueTimers - {id};
      var index := IndexOf(queuedRuns, id);
      if index < |queuedRuns| {
        queuedRuns := RemoveAt(queuedRuns, index);
      }
      status := status[id := TimedOut];
    }
  }
}
