/** The code runner's admission control as a transition system: two global slots,
    at most one run per admission key, and a queue of eight with timeouts.

    `keys`, `status` and `started` are the history: submission number `i` carried
    the key `keys[i]` and is now in the state `status[i]`; `started` lists the
    submissions in the order in which their runs began. */
module AdmissionScheduler {
  import opened Counting

  const MAX_CONCURRENT_RUNS := 2
  const MAX_QUEUED_RUNS := 8
  const QUEUE_TIMEOUT_MS := 5000

  datatype QueuedRun = QueuedRun(id: nat, admissionKey: string)

  datatype Status = RateRejected | QueueFullRejected | Queued | TimedOut | Running | Finished

  datatype State = State(
    activeRuns: int,
    activeKeys: set<string>,
    queue: seq<QueuedRun>,
    timers: map<nat, int>,  // armed queue timers: run -> due time
    keys: seq<string>,
    status: seq<Status>,
    started: seq<nat>)

  const INITIAL := State(0, {}, [], map[], [], [], [])

  datatype Step =
    | Submit(key: string, now: int, rateOk: bool)
    | Complete(id: nat)
    | Timeout(id: nat, now: int)

  // ------------------------------------------------------------------------
  // Steps
  // ------------------------------------------------------------------------

  predicate Startable(s: State, key: string) {
    s.activeRuns < MAX_CONCURRENT_RUNS && key !in s.activeKeys
  }

  function FirstStartable(queue: seq<QueuedRun>, active: set<string>): (i: nat)
    ensures i <= |queue|
    ensures forall j :: 0 <= j < i ==> queue[j].admissionKey in active
    ensures i < |queue| ==> queue[i].admissionKey !in active
  {
    if queue == [] || queue[0].admissionKey !in active then 0 else 1 + FirstStartable(queue[1..], active)
  }

  function IndexOf(queue: seq<QueuedRun>, id: nat): (i: nat)
    ensures i <= |queue|
    ensures forall j :: 0 <= j < i ==> queue[j].id != id
    ensures i < |queue| ==> queue[i].id == id
  {
    if queue == [] || queue[0].id == id then 0 else 1 + IndexOf(queue[1..], id)
  }

  function RemoveAt(queue: seq<QueuedRun>, i: nat): seq<QueuedRun>
    requires i < |queue|
  {
    queue[..i] + queue[i + 1..]
  }

  /** The synchronous part of `runAdmitted`. */
  function Start(s: State, id: nat, key: string): State
    requires id < |s.status|
  {
    s.(activeRuns := s.activeRuns + 1,
       activeKeys := s.activeKeys + {key},
       status := s.status[id := Running],
       started := s.started + [id])
  }

  /** One turn of the dispatch loop on queue position `i`. */
  function StartQueued(s: State, i: nat): State
    requires i < |s.queue| && s.queue[i].id < |s.status|
  {
    var run := s.queue[i];
    Start(s.(queue := RemoveAt(s.queue, i), timers := s.timers - {run.id}), run.id, run.admissionKey)
  }

  ghost predicate WellNumbered(s: State) {
    && |s.keys| == |s.status|
    && (forall j :: 0 <= j < |s.queue| ==> s.queue[j].id < |s.status|)
  }

  ghost function Dispatch(s: State): (d: State)
    requires WellNumbered(s)
    ensures WellNumbered(d)
    decreases |s.queue|
  {
    var i := FirstStartable(s.queue, s.activeKeys);
    if s.activeRuns < MAX_CONCURRENT_RUNS && i < |s.queue| then Dispatch(StartQueued(s, i)) else s
  }

  ghost function Submitted(s: State, key: string, now: int, rateOk: bool): State {
    var id := |s.status|;
    var t := s.(keys := s.keys + [key], status := s.status + [Queued]);
    if !rateOk then t.(status := s.status + [RateRejected])
    else if Startable(s, key) then Start(t, id, key)
    else if |s.queue| >= MAX_QUEUED_RUNS then t.(status := s.status + [QueueFullRejected])
    else t.(queue := s.queue + [QueuedRun(id, key)], timers := s.timers[id := now + QUEUE_TIMEOUT_MS])
  }

  /** A finished run gives back its slot and its key ... */
  ghost function Freed(s: State, id: nat): State
    requires WellNumbered(s) && id < |s.status|
  {
    s.(activeRuns := s.activeRuns - 1,
       activeKeys := s.activeKeys - {s.keys[id]},
       status := s.status[id := Finished])
  }

  /** ... and then the queue is served. */
  ghost function Completed(s: State, id: nat): State
    requires WellNumbered(s) && id < |s.status|
  {
    Dispatch(Freed(s, id))
  }

  /** The queue timer: the run leaves the queue if it is still there, and its
      caller is refused in any case. */
  ghost function TimerFired(s: State, id: nat): State
    requires id < |s.status|
  {
    var i := IndexOf(s.queue, id);
    s.(queue := if i < |s.queue| then RemoveAt(s.queue, i) else s.queue,
       timers := s.timers - {id},
       status := s.status[id := TimedOut])
  }

  /** Runs finish while running; a timer fires while armed, not before it is due. */
  ghost predicate Enabled(s: State, step: Step) {
    match step
    case Submit(_, _, _) => true
    case Complete(id) => id < |s.status| && s.status[id] == Running
    case Timeout(id, now) => id < |s.status| && id in s.timers && s.timers[id] <= now
  }

  ghost function Apply(s: State, step: Step): State
    requires WellNumbered(s) && Enabled(s, step)
  {
    match step
    case Submit(key, now, rateOk) => Submitted(s, key, now, rateOk)
    case Complete(id) => Completed(s, id)
    case Timeout(id, _) => TimerFired(s, id)
  }

  // ------------------------------------------------------------------------
  // Invariant
  // ------------------------------------------------------------------------

  ghost predicate InQueue(queue: seq<QueuedRun>, id: nat) {
    exists j :: 0 <= j < |queue| && queue[j].id == id
  }

  ghost predicate InFlight(keys: seq<string>, status: seq<Status>, i: nat, key: string) {
    i < |status| && i < |keys| && status[i] == Running && keys[i] == key
  }

  /** Every active key has exactly one run in flight, and every run in flight has its key active. */
  ghost predicate OneRunPerKey(keys: seq<string>, status: seq<Status>, active: set<string>) {
    && (forall i: nat, k :: InFlight(keys, status, i, k) ==> k in active)
    && (forall k :: k in active ==> exists i: nat :: InFlight(keys, status, i, k))
    && (forall i: nat, j: nat, k :: InFlight(keys, status, i, k) && InFlight(keys, status, j, k) ==> i == j)
  }

  /** The queue, its timers and the submissions marked queued are the same runs, in submission order. */
  ghost predicate QueueInv(s: State) {
    && WellNumbered(s)
    && |s.queue| <= MAX_QUEUED_RUNS
    && (forall i, j :: 0 <= i < j < |s.queue| ==> s.queue[i].id < s.queue[j].id)
    && (forall j :: 0 <= j < |s.queue| ==>
          s.status[s.queue[j].id] == Queued && s.keys[s.queue[j].id] == s.queue[j].admissionKey)
    && (forall i :: 0 <= i < |s.status| && s.status[i] == Queued ==> InQueue(s.queue, i))
    && (forall i :: i in s.timers <==> InQueue(s.queue, i))
  }

  ghost predicate ActiveInv(s: State) {
    && |s.keys| == |s.status|
    && s.activeRuns == |s.activeKeys| <= MAX_CONCURRENT_RUNS
    && OneRunPerKey(s.keys, s.status, s.activeKeys)
  }

  /** The started runs are those now running or finished. */
  ghost predicate StartedInv(s: State) {
    && |s.keys| == |s.status|
    && (forall i: nat :: i in s.started <==> i < |s.status| && (s.status[i] == Running || s.status[i] == Finished))
  }

  /** Runs of one key start in submission order. */
  ghost predicate StartsInOrder(started: seq<nat>, keys: seq<string>) {
    forall a, b | 0 <= a < b < |started| && started[a] < |keys| && started[b] < |keys| ::
      keys[started[a]] == keys[started[b]] ==> started[a] < started[b]
  }

  /** No queued run was submitted before a started run of its key. */
  ghost predicate NoneOvertaken(started: seq<nat>, keys: seq<string>, queue: seq<QueuedRun>) {
    forall i: nat, j :: i in started && i < |keys| && 0 <= j < |queue| && queue[j].admissionKey == keys[i] ==>
      i < queue[j].id
  }

  ghost predicate OrderInv(s: State) {
    StartedInv(s) && StartsInOrder(s.started, s.keys) && NoneOvertaken(s.started, s.keys, s.queue)
  }

  /** Work conservation: a free slot means that every queued run waits for its own key. */
  ghost predicate Saturated(s: State) {
    s.activeRuns < MAX_CONCURRENT_RUNS ==>
      forall j :: 0 <= j < |s.queue| ==> s.queue[j].admissionKey in s.activeKeys
  }

  ghost predicate Core(s: State) { QueueInv(s) && ActiveInv(s) && OrderInv(s) }

  ghost predicate Inv(s: State) { Core(s) && Saturated(s) }

  // Removing one queue entry

  lemma RemoveKeepsOthers(queue: seq<QueuedRun>, i: nat)
    requires i < |queue|
    requires forall a, b :: 0 <= a < b < |queue| ==> queue[a].id < queue[b].id
    ensures forall a, b :: 0 <= a < b < |queue| - 1 ==> RemoveAt(queue, i)[a].id < RemoveAt(queue, i)[b].id
    ensures forall id: nat :: InQueue(RemoveAt(queue, i), id) <==> InQueue(queue, id) && id != queue[i].id
    ensures forall j :: 0 <= j < |queue| - 1 ==>
            RemoveAt(queue, i)[j] in queue && RemoveAt(queue, i)[j].id != queue[i].id
  {
    var r := RemoveAt(queue, i);
    forall j | 0 <= j < |queue| - 1
      ensures r[j] == queue[if j < i then j else j + 1]
    {
    }
    forall id: nat | InQueue(queue, id) && id != queue[i].id
      ensures InQueue(r, id)
    {
      var j :| 0 <= j < |queue| && queue[j].id == id;
      assert r[if j < i then j else j - 1].id == id;
    }
  }

  // Starting the first queued run whose key is inactive

  lemma StartQueuedKeepsQueue(s: State, i: nat)
    requires QueueInv(s) && i < |s.queue|
    ensures QueueInv(StartQueued(s, i))
  {
    hide QueueInv;
    QueuedIsKnown(s, i);
    LeavingKeepsQueue(s, i, StartQueued(s, i), Running);
  }

  lemma QueuedIsKnown(s: State, i: nat)
    requires QueueInv(s) && i < |s.queue|
    ensures s.queue[i].id < |s.status|
  {
  }

  /** A queue entry leaves, with its timer and its status. */
  lemma LeavingKeepsQueue(s: State, i: nat, t: State, status: Status)
    requires QueueInv(s) && i < |s.queue| && s.queue[i].id < |s.status| && status != Queued
    requires t.queue == RemoveAt(s.queue, i) && t.timers == s.timers - {s.queue[i].id}
    requires t.keys == s.keys && t.status == s.status[s.queue[i].id := status]
    ensures QueueInv(t)
  {
    hide RemoveAt, InQueue;
    RemoveKeepsOthers(s.queue, i);
    RemoveLength(s.queue, i);
    QueueHolds(s.queue, i);
  }

  lemma RemoveLength(queue: seq<QueuedRun>, i: nat)
    requires i < |queue|
    ensures |RemoveAt(queue, i)| == |queue| - 1
  {
  }

  lemma QueueHolds(queue: seq<QueuedRun>, i: nat)
    requires i < |queue|
    ensures InQueue(queue, queue[i].id)
  {
  }

  lemma SameInFlight(keys: seq<string>, status: seq<Status>, keys': seq<string>, status': seq<Status>,
                     active: set<string>)
    requires OneRunPerKey(keys, status, active)
    requires forall i: nat, k :: InFlight(keys', status', i, k) <==> InFlight(keys, status, i, k)
    ensures OneRunPerKey(keys', status', active)
  {
    forall k | k in active
      ensures exists i: nat :: InFlight(keys', status', i, k)
    {
      var i: nat :| InFlight(keys, status, i, k);
      assert InFlight(keys', status', i, k);
    }
  }

  lemma OneMoreInFlight(keys: seq<string>, status: seq<Status>, active: set<string>, id: nat, key: string)
    requires OneRunPerKey(keys, status, active) && |keys| == |status|
    requires id < |keys| && keys[id] == key && key !in active
    ensures OneRunPerKey(keys, status[id := Running], active + {key})
  {
    var status' := status[id := Running];
    forall i: nat, k
      ensures InFlight(keys, status', i, k) <==> InFlight(keys, status, i, k) || (i == id && k == key)
    {
    }
    forall k | k in active + {key}
      ensures exists i: nat :: InFlight(keys, status', i, k)
    {
      if k == key {
        assert InFlight(keys, status', id, k);
      } else {
        var i: nat :| InFlight(keys, status, i, k);
        assert InFlight(keys, status', i, k);
      }
    }
  }

  lemma OneLessInFlight(keys: seq<string>, status: seq<Status>, active: set<string>, id: nat)
    requires OneRunPerKey(keys, status, active) && |keys| == |status| && id < |status| && status[id] == Running
    ensures keys[id] in active
    ensures OneRunPerKey(keys, status[id := Finished], active - {keys[id]})
  {
    var status' := status[id := Finished];
    assert InFlight(keys, status, id, keys[id]);
    forall i: nat, k
      ensures InFlight(keys, status', i, k) <==> InFlight(keys, status, i, k) && i != id
    {
    }
    forall k | k in active - {keys[id]}
      ensures exists i: nat :: InFlight(keys, status', i, k)
    {
      var i: nat :| InFlight(keys, status, i, k);
      assert InFlight(keys, status', i, k);
    }
  }

  lemma StartQueuedKeepsActive(s: State, i: nat)
    requires QueueInv(s) && ActiveInv(s) && i < |s.queue| && Startable(s, s.queue[i].admissionKey)
    ensures ActiveInv(StartQueued(s, i))
  {
    OneMoreInFlight(s.keys, s.status, s.activeKeys, s.queue[i].id, s.queue[i].admissionKey);
  }

  lemma AppendStart(started: seq<nat>, keys: seq<string>, id: nat)
    requires StartsInOrder(started, keys) && id < |keys|
    requires forall i: nat :: i in started && i < |keys| && keys[i] == keys[id] ==> i < id
    ensures StartsInOrder(started + [id], keys)
  {
  }

  lemma StartOvertakesNone(started: seq<nat>, keys: seq<string>, queue: seq<QueuedRun>, i: nat)
    requires NoneOvertaken(started, keys, queue)
    requires forall a, b :: 0 <= a < b < |queue| ==> queue[a].id < queue[b].id
    requires i < |queue| && queue[i].id < |keys| && keys[queue[i].id] == queue[i].admissionKey
    requires forall j :: 0 <= j < i ==> queue[j].admissionKey != queue[i].admissionKey
    ensures NoneOvertaken(started + [queue[i].id], keys, RemoveAt(queue, i))
  {
    var r := RemoveAt(queue, i);
    forall k: nat, j | k in started + [queue[i].id] && k < |keys| && 0 <= j < |r| && r[j].admissionKey == keys[k]
      ensures k < r[j].id
    {
      var was := if j < i then j else j + 1;
      assert r[j] == queue[was];
      assert k in started || k == queue[i].id;
    }
  }

  lemma StartQueuedKeepsOrder(s: State, i: nat)
    requires QueueInv(s) && OrderInv(s) && i == FirstStartable(s.queue, s.activeKeys) < |s.queue|
    ensures OrderInv(StartQueued(s, i))
  {
    var id := s.queue[i].id;
    StartOvertakesNone(s.started, s.keys, s.queue, i);
    AppendStart(s.started, s.keys, id);
    var t := StartQueued(s, i);
    forall k: nat
      ensures k in t.started <==> k < |t.status| && (t.status[k] == Running || t.status[k] == Finished)
    {
      assert k in t.started <==> k in s.started || k == id;
    }
  }

  lemma {:induction false} DispatchEstablishesInv(s: State)
    requires Core(s)
    ensures Inv(Dispatch(s))
    decreases |s.queue|
  {
    var i := FirstStartable(s.queue, s.activeKeys);
    if s.activeRuns < MAX_CONCURRENT_RUNS && i < |s.queue| {
      StartQueuedKeepsQueue(s, i);
      StartQueuedKeepsActive(s, i);
      StartQueuedKeepsOrder(s, i);
      DispatchEstablishesInv(StartQueued(s, i));
    }
  }

  // The three steps

  lemma AppendQueued(queue: seq<QueuedRun>, run: QueuedRun)
    ensures forall i: nat :: InQueue(queue + [run], i) <==> InQueue(queue, i) || i == run.id
  {
    forall i: nat | InQueue(queue, i) || i == run.id
      ensures InQueue(queue + [run], i)
    {
      if InQueue(queue, i) {
        var j :| 0 <= j < |queue| && queue[j].id == i;
        assert (queue + [run])[j].id == i;
      } else {
        assert (queue + [run])[|queue|].id == i;
      }
    }
  }

  lemma QueuedIdsAreKnown(s: State)
    requires WellNumbered(s)
    ensures forall i: nat :: InQueue(s.queue, i) ==> i < |s.status|
  {
  }

  lemma SubmitKeepsQueue(s: State, key: string, now: int, rateOk: bool)
    requires QueueInv(s)
    ensures QueueInv(Submitted(s, key, now, rateOk))
  {
    QueuedIdsAreKnown(s);
    AppendQueued(s.queue, QueuedRun(|s.status|, key));
  }

  lemma SubmitKeepsActive(s: State, key: string, now: int, rateOk: bool)
    requires ActiveInv(s)
    ensures ActiveInv(Submitted(s, key, now, rateOk))
  {
    var t := Submitted(s, key, now, rateOk);
    SameInFlight(s.keys, s.status, t.keys, s.status + [Queued], s.activeKeys);
    if rateOk && Startable(s, key) {
      OneMoreInFlight(t.keys, s.status + [Queued], s.activeKeys, |s.status|, key);
    } else {
      SameInFlight(s.keys, s.status, t.keys, t.status, s.activeKeys);
    }
  }

  lemma SubmitKeepsStarted(s: State, key: string, now: int, rateOk: bool)
    requires StartedInv(s)
    ensures StartedInv(Submitted(s, key, now, rateOk))
  {
    var id := |s.status|;
    assert forall k: nat :: k in s.started + [id] <==> k in s.started || k == id;
  }

  lemma MoreKeys(started: seq<nat>, keys: seq<string>, key: string, queue: seq<QueuedRun>)
    requires StartsInOrder(started, keys) && NoneOvertaken(started, keys, queue)
    requires forall i: nat :: i in started ==> i < |keys|
    ensures StartsInOrder(started, keys + [key]) && NoneOvertaken(started, keys + [key], queue)
  {
    assert forall a :: 0 <= a < |started| ==> started[a] in started;
  }

  /** The run that takes a free slot on submission overtakes no queued run of its
      key: by work conservation there is none. */
  lemma SubmitKeepsOrder(s: State, key: string, now: int, rateOk: bool)
    requires WellNumbered(s) && OrderInv(s) && Saturated(s)
    ensures OrderInv(Submitted(s, key, now, rateOk))
  {
    SubmitKeepsStarted(s, key, now, rateOk);
    MoreKeys(s.started, s.keys, key, s.queue);
    AppendStart(s.started, s.keys + [key], |s.status|);
  }

  lemma CompleteKeepsCore(s: State, id: nat)
    requires Core(s) && id < |s.status| && s.status[id] == Running
    ensures Core(Freed(s, id))
  {
    OneLessInFlight(s.keys, s.status, s.activeKeys, id);
  }

  lemma TimeoutKeepsQueue(s: State, id: nat)
    requires QueueInv(s) && id in s.timers && id < |s.status|
    ensures QueueInv(TimerFired(s, id))
    ensures s.status[id] == Queued && |TimerFired(s, id).queue| == |s.queue| - 1
  {
    hide QueueInv;
    TimedIsQueued(s, id);
    LeavingKeepsQueue(s, IndexOf(s.queue, id), TimerFired(s, id), TimedOut);
  }

  lemma TimedIsQueued(s: State, id: nat)
    requires QueueInv(s) && id in s.timers && id < |s.status|
    ensures IndexOf(s.queue, id) < |s.queue| && s.status[id] == Queued
  {
    assert InQueue(s.queue, id);
  }

  lemma TimeoutKeepsActive(s: State, id: nat)
    requires ActiveInv(s) && id < |s.status| && s.status[id] == Queued
    ensures ActiveInv(TimerFired(s, id))
  {
    SameInFlight(s.keys, s.status, s.keys, s.status[id := TimedOut], s.activeKeys);
  }

  lemma RemovedIsFromQueue(queue: seq<QueuedRun>, i: nat)
    requires i < |queue|
    ensures forall j :: 0 <= j < |queue| - 1 ==> RemoveAt(queue, i)[j] == queue[if j < i then j else j + 1]
  {
  }

  lemma TimeoutKeepsOrder(s: State, id: nat)
    requires OrderInv(s) && Saturated(s) && id < |s.status| && s.status[id] == Queued
    ensures OrderInv(TimerFired(s, id)) && Saturated(TimerFired(s, id))
  {
    var i := IndexOf(s.queue, id);
    if i < |s.queue| {
      RemovedIsFromQueue(s.queue, i);
    }
  }

  lemma SubmitKeepsSaturated(s: State, key: string, now: int, rateOk: bool)
    requires Saturated(s)
    ensures Saturated(Submitted(s, key, now, rateOk))
  {
  }

  lemma StepKeepsInv(s: State, step: Step)
    requires Inv(s) && Enabled(s, step)
    ensures Inv(Apply(s, step))
  {
    match step
    case Submit(key, now, rateOk) =>
      SubmitKeepsQueue(s, key, now, rateOk);
      SubmitKeepsActive(s, key, now, rateOk);
      SubmitKeepsOrder(s, key, now, rateOk);
      SubmitKeepsSaturated(s, key, now, rateOk);
    case Complete(id) =>
      CompleteKeepsCore(s, id);
      DispatchEstablishesInv(Freed(s, id));
    case Timeout(id, _) =>
      TimeoutKeepsQueue(s, id);
      TimeoutKeepsActive(s, id);
      TimeoutKeepsOrder(s, id);
  }

  // ------------------------------------------------------------------------
  // Whole runs
  // ------------------------------------------------------------------------

  /** One step; a step that is not enabled does not happen. */
  ghost function Next(s: State, step: Step): (t: State)
    requires WellNumbered(s)
    ensures WellNumbered(t)
  {
    if Enabled(s, step) then ApplyNumbered(s, step); Apply(s, step) else s
  }

  /** The state after a sequence of steps. */
  ghost function Exec(steps: seq<Step>): (s: State)
    ensures WellNumbered(s)
  {
    if steps == [] then INITIAL else Next(Exec(steps[..|steps| - 1]), steps[|steps| - 1])
  }

  lemma ApplyNumbered(s: State, step: Step)
    requires WellNumbered(s) && Enabled(s, step)
    ensures WellNumbered(Apply(s, step))
  {
    if step.Timeout? {
      var i := IndexOf(s.queue, step.id);
      if i < |s.queue| {
        RemovedIsFromQueue(s.queue, i);
      }
    }
  }

  lemma {:induction false} RunKeepsInv(steps: seq<Step>)
    ensures Inv(Exec(steps))
  {
    if steps != [] {
      var n := |steps| - 1;
      RunKeepsInv(steps[..n]);
      if Enabled(Exec(steps[..n]), steps[n]) {
        StepKeepsInv(Exec(steps[..n]), steps[n]);
      }
    }
  }

  /** On every run, the runs of one admission key start in submission order. */
  lemma PerKeyFifo(steps: seq<Step>, a: nat, b: nat)
    requires a < b < |Exec(steps).started|
    ensures var s := Exec(steps);
      && s.started[a] < |s.keys| && s.started[b] < |s.keys|
      && (s.keys[s.started[a]] == s.keys[s.started[b]] ==> s.started[a] < s.started[b])
  {
    RunKeepsInv(steps);
    var s := Exec(steps);
    assert s.started[a] in s.started && s.started[b] in s.started;
  }

  /** On every run, a started run has overtaken no run of its key that still waits. */
  lemma NoBarging(steps: seq<Step>, started: nat, waiting: nat)
    requires started in Exec(steps).started
    requires waiting < |Exec(steps).status| && Exec(steps).status[waiting] == Queued
    ensures var s := Exec(steps);
      started < |s.keys| && waiting < |s.keys| && (s.keys[started] == s.keys[waiting] ==> started < waiting)
  {
    RunKeepsInv(steps);
    var s := Exec(steps);
    assert InQueue(s.queue, waiting);
    var j :| 0 <= j < |s.queue| && s.queue[j].id == waiting;
  }

  /** A run waits only while something runs, and the slots are never idle for a
      run that could use them. */
  lemma WorkConserving(steps: seq<Step>)
    ensures var s := Exec(steps);
      && 0 <= s.activeRuns == |s.activeKeys| <= 2
      && |s.queue| <= 8
      && (s.queue != [] ==> s.activeRuns > 0)
      && (forall j :: 0 <= j < |s.queue| ==> s.activeRuns == 2 || s.queue[j].admissionKey in s.activeKeys)
  {
    RunKeepsInv(steps);
    var s := Exec(steps);
    if s.queue != [] {
      assert !Startable(s, s.queue[0].admissionKey);
      assert s.activeRuns == 0 ==> s.activeKeys == {};
    }
  }

  ghost predicate Pending(s: State, key: string) {
    exists i :: 0 <= i < |s.status| && i < |s.keys| && s.keys[i] == key && s.status[i] in {Running, Queued}
  }

  /** A submission runs at once exactly when it is within its rate, a slot is free and no run of its
      key is running or waiting; it is refused by the queue exactly when it cannot
      run at once and eight runs wait. */
  lemma SubmissionOutcome(steps: seq<Step>, key: string, now: int, rateOk: bool)
    ensures var s := Exec(steps); var t := Next(s, Submit(key, now, rateOk)); var n := |s.status|;
      && |t.status| == n + 1
      && (t.status[n] == Running <==> rateOk && s.activeRuns < 2 && !Pending(s, key))
      && (t.status[n] == QueueFullRejected <==> rateOk && t.status[n] != Running && |s.queue| == 8)
      && (t.status[n] == RateRejected <==> !rateOk)
      && (t.status[n] == Queued ==>
          t.queue == s.queue + [QueuedRun(n, key)] && n in t.timers && t.timers[n] == now + 5_000)
  {
    RunKeepsInv(steps);
    var s := Exec(steps);
    if key in s.activeKeys {
      var i: nat :| InFlight(s.keys, s.status, i, key);
    } else if s.activeRuns < MAX_CONCURRENT_RUNS && Pending(s, key) {
      NotPending(s, key);
    }
  }

  lemma NotPending(s: State, key: string)
    requires Inv(s) && s.activeRuns < MAX_CONCURRENT_RUNS && key !in s.activeKeys
    ensures !Pending(s, key)
  {
    forall i: nat | i < |s.status| && s.status[i] in {Running, Queued}
      ensures s.keys[i] in s.activeKeys
    {
      if s.status[i] == Running {
        assert InFlight(s.keys, s.status, i, s.keys[i]);
      } else {
        assert InQueue(s.queue, i);
      }
    }
  }

  // Each completion starts at most one run: the dispatch loop never turns twice.

  lemma NothingElseStartable(queue: seq<QueuedRun>, i: nat, active: set<string>, key: string)
    requires i < |queue| && key in active
    requires forall j :: 0 <= j < |queue| ==> queue[j].admissionKey == key
    ensures FirstStartable(RemoveAt(queue, i), active) == |queue| - 1
  {
    var r := RemoveAt(queue, i);
    forall j | 0 <= j < |r|
      ensures r[j].admissionKey == key
    {
      assert r[j] == queue[if j < i then j else j + 1];
    }
  }

  lemma DispatchTurnsAtMostOnce(s: State, id: nat)
    requires WellNumbered(s) && Saturated(s) && id < |s.status| && s.keys[id] in s.activeKeys
    requires s.activeRuns == |s.activeKeys| <= MAX_CONCURRENT_RUNS
    ensures var f := Freed(s, id); var i := FirstStartable(f.queue, f.activeKeys);
      Completed(s, id) == if i < |f.queue| then StartQueued(f, i) else f
  {
    var f := Freed(s, id);
    var i := FirstStartable(f.queue, f.activeKeys);
    if i < |f.queue| {
      var t := StartQueued(f, i);
      if s.activeRuns < MAX_CONCURRENT_RUNS {
        // one key was active, so by work conservation all queued runs share it
        OnlyKey(s.activeKeys, s.keys[id]);
        NothingElseStartable(f.queue, i, t.activeKeys, s.keys[id]);
      }
      StartQueuedNumbered(f, i);
      assert Dispatch(t) == t;
    }
  }

  lemma StartQueuedNumbered(s: State, i: nat)
    requires WellNumbered(s) && i < |s.queue|
    ensures WellNumbered(StartQueued(s, i))
  {
    RemovedIsFromQueue(s.queue, i);
  }

  lemma CompletionStartsAtMostOne(s: State, id: nat)
    requires Inv(s) && id < |s.status| && s.status[id] == Running
    ensures var f := Freed(s, id); var i := FirstStartable(f.queue, f.activeKeys);
      Completed(s, id) == if i < |f.queue| then StartQueued(f, i) else f
  {
    assert InFlight(s.keys, s.status, id, s.keys[id]);
    DispatchTurnsAtMostOnce(s, id);
  }

  lemma OnlyKey(keys: set<string>, k: string)
    requires k in keys && |keys| <= 1
    ensures keys == {k}
  {
    assert |keys - {k}| == 0;
  }

  // ------------------------------------------------------------------------
  // Settlement and conservation
  // ------------------------------------------------------------------------

  lemma {:induction false} StatusesPartition(status: seq<Status>)
    ensures |status| == CountOf(status, RateRejected) + CountOf(status, QueueFullRejected) + CountOf(status, Queued)
                      + CountOf(status, TimedOut) + CountOf(status, Running) + CountOf(status, Finished)
  {
    if status != [] {
      var n := |status| - 1;
      StatusesPartition(status[..n]);
      match status[n]
      case RateRejected =>
      case QueueFullRejected =>
      case Queued =>
      case TimedOut =>
      case Running =>
      case Finished =>
    }
  }

  ghost predicate Tallied(s: State) {
    CountOf(s.status, Queued) == |s.queue| && CountOf(s.status, Running) == s.activeRuns
  }

  lemma SubmitKeepsTally(s: State, key: string, now: int, rateOk: bool)
    requires WellNumbered(s) && Tallied(s)
    ensures Tallied(Submitted(s, key, now, rateOk))
  {
    var t := Submitted(s, key, now, rateOk);
    assert t.status[..|s.status|] == s.status;
  }

  lemma StartQueuedKeepsTally(s: State, i: nat)
    requires QueueInv(s) && Tallied(s) && i < |s.queue|
    ensures Tallied(StartQueued(s, i))
  {
    CountAfterUpdate(s.status, s.queue[i].id, Running, Queued);
    CountAfterUpdate(s.status, s.queue[i].id, Running, Running);
  }

  lemma StepKeepsTally(s: State, step: Step)
    requires Inv(s) && Tallied(s) && Enabled(s, step)
    ensures Tallied(Apply(s, step))
  {
    match step
    case Submit(key, now, rateOk) =>
      SubmitKeepsTally(s, key, now, rateOk);
    case Complete(id) =>
      CompletionStartsAtMostOne(s, id);
      CompleteKeepsCore(s, id);
      var f := Freed(s, id);
      CountAfterUpdate(s.status, id, Finished, Queued);
      CountAfterUpdate(s.status, id, Finished, Running);
      var i := FirstStartable(f.queue, f.activeKeys);
      if i < |f.queue| {
        StartQueuedKeepsTally(f, i);
      }
    case Timeout(id, _) =>
      TimeoutKeepsQueue(s, id);
      CountAfterUpdate(s.status, id, TimedOut, Queued);
      CountAfterUpdate(s.status, id, TimedOut, Running);
  }

  /** What may become of a submission. */
  predicate Follows(before: Status, after: Status) {
    || after == before
    || (before == Queued && after in {TimedOut, Running, Finished})
    || (before == Running && after == Finished)
  }

  ghost predicate Extends(s: State, t: State) {
    && s.keys <= t.keys
    && s.started <= t.started
    && |s.status| <= |t.status|
    && (forall i :: 0 <= i < |s.status| ==> Follows(s.status[i], t.status[i]))
  }

  lemma CompleteExtends(s: State, id: nat)
    requires QueueInv(s) && id < |s.status| && s.status[id] == Running
    requires var f := Freed(s, id); var i := FirstStartable(f.queue, f.activeKeys);
      Completed(s, id) == if i < |f.queue| then StartQueued(f, i) else f
    ensures Extends(s, Completed(s, id)) && |Completed(s, id).status| == |s.status|
  {
  }

  lemma StepExtends(s: State, step: Step)
    requires Inv(s) && Enabled(s, step)
    ensures Extends(s, Apply(s, step))
    ensures |Apply(s, step).status| == |s.status| + (if step.Submit? then 1 else 0)
  {
    hide Extends;
    match step
    case Submit(key, now, rateOk) =>
      SubmitExtends(s, key, now, rateOk);
    case Complete(id) =>
      CompletionStartsAtMostOne(s, id);
      CompleteExtends(s, id);
    case Timeout(id, _) =>
      TimeoutExtends(s, id);
  }

  lemma SubmitExtends(s: State, key: string, now: int, rateOk: bool)
    ensures Extends(s, Submitted(s, key, now, rateOk))
  {
  }

  lemma TimeoutExtends(s: State, id: nat)
    requires QueueInv(s) && id in s.timers && id < |s.status|
    ensures Extends(s, TimerFired(s, id))
  {
    assert InQueue(s.queue, id);
  }

  ghost function Submissions(steps: seq<Step>): nat {
    if steps == [] then 0
    else Submissions(steps[..|steps| - 1]) + (if steps[|steps| - 1].Submit? then 1 else 0)
  }

  /** On every run, every submission is in exactly one state, and the states are the real ones: the
      queue holds the queued ones and the slots hold the running ones. */
  lemma {:induction false} Conservation(steps: seq<Step>)
    ensures var s := Exec(steps);
      && Submissions(steps) == |s.status|
      && Submissions(steps) == CountOf(s.status, RateRejected) + CountOf(s.status, QueueFullRejected) + |s.queue|
                             + CountOf(s.status, TimedOut) + s.activeRuns + CountOf(s.status, Finished)
    ensures Tallied(Exec(steps))
  {
    if steps != [] {
      var n := |steps| - 1;
      Conservation(steps[..n]);
      RunKeepsInv(steps[..n]);
      var s := Exec(steps[..n]);
      if Enabled(s, steps[n]) {
        StepKeepsTally(s, steps[n]);
        StepExtends(s, steps[n]);
      }
    }
    StatusesPartition(Exec(steps).status);
  }

  lemma ExtendsTransitive(s: State, t: State, u: State)
    requires Extends(s, t) && Extends(t, u)
    ensures Extends(s, u)
  {
  }

  lemma ExecSnoc(steps: seq<Step>, step: Step)
    ensures Exec(steps + [step]) == Next(Exec(steps), step)
  {
    assert (steps + [step])[..|steps|] == steps;
  }

  lemma ExecNext(steps: seq<Step>, more: seq<Step>)
    requires more != []
    ensures Exec(steps + more) == Next(Exec(steps + more[..|more| - 1]), more[|more| - 1])
  {
    hide Exec, Next;
    var n := |more| - 1;
    assert steps + more == (steps + more[..n]) + [more[n]];
    ExecSnoc(steps + more[..n], more[n]);
  }

  lemma RunStepExtends(steps: seq<Step>, step: Step)
    ensures Extends(Exec(steps), Next(Exec(steps), step))
  {
    RunKeepsInv(steps);
    if Enabled(Exec(steps), step) {
      StepExtends(Exec(steps), step);
    }
  }

  /** Settlement is final: as a run goes on, a refused, timed out or finished
      submission keeps its state, and only a queued one may time out or start. */
  lemma {:induction false} SettlementIsFinal(steps: seq<Step>, more: seq<Step>)
    ensures Extends(Exec(steps), Exec(steps + more))
  {
    if more == [] {
      assert steps + more == steps;
    } else {
      var n := |more| - 1;
      SettlementIsFinal(steps, more[..n]);
      RunStepExtends(steps + more[..n], more[n]);
      ExecNext(steps, more);
      ExtendsTransitive(Exec(steps), Exec(steps + more[..n]), Exec(steps + more));
    }
  }

  /** No submission both times out and runs, however the run goes on. */
  lemma NeverTimedOutAndRun(steps: seq<Step>, more: seq<Step>, id: nat)
    requires id < |Exec(steps).status| && Exec(steps).status[id] == TimedOut
    ensures id !in Exec(steps + more).started
  {
    SettlementIsFinal(steps, more);
    RunKeepsInv(steps + more);
  }

  /** As long as a submission is queued its timer stays as it was armed. */
  lemma {:induction false} QueuedKeepsItsTimer(steps: seq<Step>, more: seq<Step>, id: nat)
    requires id in Exec(steps).timers && id < |Exec(steps).status|
    ensures var s, t := Exec(steps), Exec(steps + more);
      id < |t.status| && (t.status[id] == Queued ==> id in t.timers && t.timers[id] == s.timers[id])
  {
    hide Exec, Next, Inv;
    if more == [] {
      assert steps + more == steps;
    } else {
      var n := |more| - 1;
      QueuedKeepsItsTimer(steps, more[..n], id);
      ExecNext(steps, more);
      RunKeepsInv(steps + more[..n]);
      StepKeepsTimer(Exec(steps + more[..n]), more[n], id);
    }
  }

  lemma StepKeepsTimer(s: State, step: Step, id: nat)
    requires WellNumbered(s) && Inv(s) && id < |s.status|
    ensures var t := Next(s, step);
      && id < |t.status|
      && (t.status[id] == Queued ==>
            s.status[id] == Queued && id in s.timers && id in t.timers && t.timers[id] == s.timers[id])
  {
    hide Saturated, OrderInv, ActiveInv;
    if Enabled(s, step) {
      match step
      case Submit(_, _, _) => assert s.status[id] == Queued ==> InQueue(s.queue, id);
      case Complete(_) => CompleteKeepsTimer(s, step.id, id);
      case Timeout(_, _) => assert s.status[id] == Queued ==> InQueue(s.queue, id);
    }
    assert s.status[id] == Queued ==> InQueue(s.queue, id);
  }

  lemma CompleteKeepsTimer(s: State, done: nat, id: nat)
    requires WellNumbered(s) && Inv(s) && id < |s.status| && done < |s.status| && s.status[done] == Running
    ensures var t := Completed(s, done);
      && id < |t.status|
      && (t.status[id] == Queued ==>
          s.status[id] == Queued && (id in s.timers ==> id in t.timers && t.timers[id] == s.timers[id]))
  {
    CompletionStartsAtMostOne(s, done);
  }

  // ------------------------------------------------------------------------
  // Draining
  // ------------------------------------------------------------------------

  ghost function Load(s: State): int { |s.queue| + s.activeRuns }

  lemma StepDrains(s: State, step: Step)
    requires Inv(s) && Enabled(s, step) && !step.Submit?
    ensures Load(Apply(s, step)) == Load(s) - 1
  {
    match step
    case Complete(id) =>
      CompletionStartsAtMostOne(s, id);
    case Timeout(id, _) =>
      TimeoutKeepsQueue(s, id);
  }

  lemma RunStepDrains(steps: seq<Step>, step: Step)
    requires !step.Submit? && Enabled(Exec(steps), step)
    ensures Load(Apply(Exec(steps), step)) == Load(Exec(steps)) - 1
  {
    RunKeepsInv(steps);
    StepDrains(Exec(steps), step);
  }

  /** At most ten runs are waiting or running, and while there is one, one of them can complete. */
  lemma LoadIsBounded(steps: seq<Step>)
    ensures 0 <= Load(Exec(steps)) <= 10
    ensures Load(Exec(steps)) > 0 ==> exists id: nat :: Enabled(Exec(steps), Complete(id))
  {
    RunKeepsInv(steps);
    WorkConserving(steps);
    var s := Exec(steps);
    if Load(s) > 0 {
      var k :| k in s.activeKeys;
      var id: nat :| InFlight(s.keys, s.status, id, k);
      assert Enabled(s, Complete(id));
    }
  }

  /** How many of the steps `more`, taken after `steps`, happen. */
  ghost function Happened(steps: seq<Step>, more: seq<Step>): nat {
    if more == [] then 0
    else
      var n := |more| - 1;
      Happened(steps, more[..n]) + (if Enabled(Exec(steps + more[..n]), more[n]) then 1 else 0)
  }

  /** Without new submissions every step settles one run, so at most ten more
      steps happen before the scheduler is empty. */
  lemma {:induction false} Drains(steps: seq<Step>, more: seq<Step>)
    requires forall i :: 0 <= i < |more| ==> !more[i].Submit?
    ensures Load(Exec(steps + more)) == Load(Exec(steps)) - Happened(steps, more)
    ensures Happened(steps, more) <= Load(Exec(steps)) <= 10
  {
    LoadIsBounded(steps);
    LoadIsBounded(steps + more);
    if more == [] {
      assert steps + more == steps;
    } else {
      var n := |more| - 1;
      Drains(steps, more[..n]);
      ExecNext(steps, more);
      if Enabled(Exec(steps + more[..n]), more[n]) {
        RunStepDrains(steps + more[..n], more[n]);
      }
    }
  }
}
