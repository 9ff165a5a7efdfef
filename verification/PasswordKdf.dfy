/** The password key-derivation semaphore: four slots, sixteen waiters, and a
    released slot handed directly to the longest waiting request. */
module PasswordKdf {
  import opened Integers
  import opened Counting

  const MAX_CONCURRENT_KDF := 4
  const MAX_QUEUED_KDF := 16
  const QUEUE_TIMEOUT_MS := 5_000

  datatype Status = Refused | Waiting | TimedOut | Holding | Released

  /** Request number `i` is in the state `status[i]`; `granted` lists the requests
      in the order in which they got a slot. */
  datatype State = State(active: int, queue: seq<nat>, timers: map<nat, int>, status: seq<Status>, granted: seq<nat>)

  const IDLE := State(0, [], map[], [], [])

  datatype Step = Acquire(now: int) | Release(id: nat) | Timeout(id: nat, now: int)

  function IndexOf(queue: seq<nat>, id: nat): (i: nat)
    ensures i <= |queue|
    ensures forall j :: 0 <= j < i ==> queue[j] != id
    ensures i < |queue| ==> queue[i] == id
  {
    if queue == [] || queue[0] == id then 0 else 1 + IndexOf(queue[1..], id)
  }

  function Without(queue: seq<nat>, id: nat): seq<nat> {
    var i := IndexOf(queue, id);
    if i < |queue| then queue[..i] + queue[i + 1..] else queue
  }

  ghost function Acquired(s: State, now: int): State {
    var id := |s.status|;
    if s.active < MAX_CONCURRENT_KDF then
      s.(active := s.active + 1, status := s.status + [Holding], granted := s.granted + [id])
    else if |s.queue| >= MAX_QUEUED_KDF then s.(status := s.status + [Refused])
    else s.(queue := s.queue + [id], timers := s.timers[id := now + QUEUE_TIMEOUT_MS], status := s.status + [Waiting])
  }

  ghost predicate WellNumbered(s: State) {
    && (forall j :: 0 <= j < |s.queue| ==> s.queue[j] < |s.status|)
    && (forall i: nat :: i in s.timers ==> i < |s.status|)
  }

  /** The freed slot goes to the first waiter, if any. */
  ghost function HandedOver(s: State): State
    requires WellNumbered(s)
  {
    if s.queue == [] then s
    else
      var waiter := s.queue[0];
      s.(active := s.active + 1, queue := s.queue[1..], timers := s.timers - {waiter},
         status := s.status[waiter := Holding], granted := s.granted + [waiter])
  }

  ghost function SlotReleased(s: State, id: nat): State
    requires WellNumbered(s) && id < |s.status|
  {
    HandedOver(s.(active := s.active - 1, status := s.status[id := Released]))
  }

  ghost function TimerFired(s: State, id: nat): State
    requires id < |s.status|
  {
    s.(queue := Without(s.queue, id), timers := s.timers - {id}, status := s.status[id := TimedOut])
  }

  /** A holder releases once; a timer fires while armed, not before it is due. */
  ghost predicate Enabled(s: State, step: Step) {
    match step
    case Acquire(_) => true
    case Release(id) => id < |s.status| && s.status[id] == Holding
    case Timeout(id, now) => id in s.timers && s.timers[id] <= now
  }

  // ------------------------------------------------------------------------
  // Invariant
  // ------------------------------------------------------------------------

  ghost predicate Ascending(ids: seq<nat>) {
    forall i, j :: 0 <= i < j < |ids| ==> ids[i] < ids[j]
  }

  ghost predicate QueueInv(s: State) {
    && Ascending(s.queue)
    && |s.queue| == CountOf(s.status, Waiting) <= MAX_QUEUED_KDF
    && (forall i: nat :: i in s.queue <==> i < |s.status| && s.status[i] == Waiting)
    && (forall i: nat :: i in s.timers <==> i in s.queue)
  }

  ghost predicate GrantInv(s: State) {
    && Ascending(s.granted)
    && (forall i: nat :: i in s.granted <==> i < |s.status| && (s.status[i] == Holding || s.status[i] == Released))
  }

  ghost predicate NoneOvertaken(granted: seq<nat>, queue: seq<nat>) {
    forall i, j :: i in granted && j in queue ==> i < j
  }

  ghost predicate SlotInv(s: State) {
    0 <= s.active == CountOf(s.status, Holding) <= MAX_CONCURRENT_KDF
  }

  ghost predicate Inv(s: State) {
    && QueueInv(s) && GrantInv(s) && NoneOvertaken(s.granted, s.queue) && SlotInv(s)
    && (s.queue != [] ==> s.active == MAX_CONCURRENT_KDF)
  }

  lemma WithoutKeepsOthers(queue: seq<nat>, id: nat)
    requires Ascending(queue) && id in queue
    ensures Ascending(Without(queue, id)) && |Without(queue, id)| == |queue| - 1
    ensures forall k: nat :: k in Without(queue, id) <==> k in queue && k != id
  {
    var i := IndexOf(queue, id);
    var r := Without(queue, id);
    assert forall j :: 0 <= j < |r| ==> r[j] == queue[if j < i then j else j + 1];
    forall k: nat | k in queue && k != id
      ensures k in r
    {
      var j :| 0 <= j < |queue| && queue[j] == k;
      assert r[if j < i then j else j - 1] == k;
    }
  }

  lemma AscendingSnoc(ids: seq<nat>, id: nat)
    requires Ascending(ids) && (forall i :: i in ids ==> i < id)
    ensures Ascending(ids + [id])
  {
    assert forall j :: 0 <= j < |ids| ==> ids[j] in ids;
  }

  lemma AcquireKeepsQueue(s: State, now: int)
    requires QueueInv(s)
    ensures QueueInv(Acquired(s, now))
  {
    var id := |s.status|;
    if s.active < MAX_CONCURRENT_KDF {
      CountSnoc(s.status, Holding, Waiting);
    } else if |s.queue| >= MAX_QUEUED_KDF {
      CountSnoc(s.status, Refused, Waiting);
    } else {
      CountSnoc(s.status, Waiting, Waiting);
      AscendingSnoc(s.queue, id);
      assert forall i: nat :: i in s.queue + [id] <==> i in s.queue || i == id;
    }
  }

  lemma AcquireKeepsGrants(s: State, now: int)
    requires GrantInv(s)
    ensures GrantInv(Acquired(s, now))
  {
    var id := |s.status|;
    AscendingSnoc(s.granted, id);
    assert forall i: nat :: i in s.granted + [id] <==> i in s.granted || i == id;
  }

  lemma AcquireKeepsInv(s: State, now: int)
    requires Inv(s)
    ensures Inv(Acquired(s, now))
  {
    AcquireKeepsQueue(s, now);
    AcquireKeepsGrants(s, now);
    AcquireKeepsSlots(s, now);
    AcquireOvertakesNone(s, now);
  }

  lemma AcquireKeepsSlots(s: State, now: int)
    requires SlotInv(s)
    ensures SlotInv(Acquired(s, now))
  {
    CountSnoc(s.status, Acquired(s, now).status[|s.status|], Holding);
  }

  /** A request that finds a free slot overtakes nobody: nobody waits then. */
  lemma AcquireOvertakesNone(s: State, now: int)
    requires QueueInv(s) && GrantInv(s) && NoneOvertaken(s.granted, s.queue)
    requires s.queue != [] ==> s.active == MAX_CONCURRENT_KDF
    ensures NoneOvertaken(Acquired(s, now).granted, Acquired(s, now).queue)
  {
  }

  lemma HeadAndTail(queue: seq<nat>)
    requires queue != [] && Ascending(queue)
    ensures Ascending(queue[1..])
    ensures forall i: nat :: i in queue <==> i in queue[1..] || i == queue[0]
    ensures forall i: nat :: i in queue[1..] ==> queue[0] < i
  {
    assert forall j :: 0 <= j < |queue| - 1 ==> queue[1..][j] == queue[j + 1];
    assert queue == [queue[0]] + queue[1..];
  }

  lemma HandOverKeepsQueue(s: State)
    requires WellNumbered(s) && QueueInv(s)
    ensures QueueInv(HandedOver(s))
  {
    if s.queue != [] {
      assert s.queue[0] in s.queue;
      HeadAndTail(s.queue);
      CountAfterUpdate(s.status, s.queue[0], Holding, Waiting);
    }
  }

  lemma HandOverKeepsGrants(s: State)
    requires WellNumbered(s) && QueueInv(s) && GrantInv(s) && NoneOvertaken(s.granted, s.queue)
    ensures GrantInv(HandedOver(s)) && NoneOvertaken(HandedOver(s).granted, HandedOver(s).queue)
  {
    if s.queue != [] {
      var waiter := s.queue[0];
      assert waiter in s.queue;
      HeadAndTail(s.queue);
      AscendingSnoc(s.granted, waiter);
      assert forall i: nat :: i in s.granted + [waiter] <==> i in s.granted || i == waiter;
    }
  }

  lemma ReleaseKeepsInv(s: State, id: nat)
    requires Inv(s) && WellNumbered(s) && Enabled(s, Release(id))
    ensures Inv(SlotReleased(s, id))
  {
    CountAfterUpdate(s.status, id, Released, Holding);
    CountAfterUpdate(s.status, id, Released, Waiting);
    var t := s.(active := s.active - 1, status := s.status[id := Released]);
    HandOverKeepsQueue(t);
    HandOverKeepsGrants(t);
    if t.queue != [] {
      CountAfterUpdate(t.status, t.queue[0], Holding, Holding);
    }
  }

  lemma TimeoutKeepsInv(s: State, id: nat, now: int)
    requires Inv(s) && Enabled(s, Timeout(id, now))
    ensures id < |s.status| && Inv(TimerFired(s, id))
  {
    WithoutKeepsOthers(s.queue, id);
    CountAfterUpdate(s.status, id, TimedOut, Holding);
    CountAfterUpdate(s.status, id, TimedOut, Waiting);
  }

  // ------------------------------------------------------------------------
  // Whole runs
  // ------------------------------------------------------------------------

  lemma WithoutIsPart(queue: seq<nat>, id: nat)
    ensures forall j :: 0 <= j < |Without(queue, id)| ==> Without(queue, id)[j] in queue
  {
  }

  /** One step; a step that is not enabled does not happen. */
  ghost function Next(s: State, step: Step): (t: State)
    requires WellNumbered(s)
    ensures WellNumbered(t)
  {
    if !Enabled(s, step) then s
    else match step
      case Acquire(now) => Acquired(s, now)
      case Release(id) => SlotReleased(s, id)
      case Timeout(id, now) => WithoutIsPart(s.queue, id); TimerFired(s, id)
  }

  ghost function Exec(steps: seq<Step>): (s: State)
    ensures WellNumbered(s)
  {
    if steps == [] then IDLE else Next(Exec(steps[..|steps| - 1]), steps[|steps| - 1])
  }

  lemma ExecSnoc(steps: seq<Step>, step: Step)
    ensures Exec(steps + [step]) == Next(Exec(steps), step)
  {
    assert (steps + [step])[..|steps|] == steps;
  }

  lemma NextKeepsInv(s: State, step: Step)
    requires Inv(s) && WellNumbered(s)
    ensures Inv(Next(s, step))
  {
    if Enabled(s, step) {
      match step
      case Acquire(now) => AcquireKeepsInv(s, now);
      case Release(id) => ReleaseKeepsInv(s, id);
      case Timeout(id, now) => TimeoutKeepsInv(s, id, now);
    }
  }

  lemma {:induction false} RunKeepsInv(steps: seq<Step>)
    ensures Inv(Exec(steps))
  {
    if steps != [] {
      RunKeepsInv(steps[..|steps| - 1]);
      NextKeepsInv(Exec(steps[..|steps| - 1]), steps[|steps| - 1]);
    }
  }

  /** On every run slots are granted strictly in the order of the requests, never
      past a request that still waits; the slots in use are the granted ones not
      yet released; and a request waits only while all four are in use. */
  lemma StrictFifoWithoutBarging(steps: seq<Step>)
    ensures var s := Exec(steps);
      && Ascending(s.granted)
      && (forall i, j :: i in s.granted && 0 <= j < |s.status| && s.status[j] == Waiting ==> i < j)
      && s.active == CountOf(s.status, Holding) <= 4
      && CountOf(s.status, Waiting) <= 16
      && (CountOf(s.status, Waiting) > 0 ==> s.active == 4)
  {
    RunKeepsInv(steps);
    var s := Exec(steps);
    assert forall j: nat :: j < |s.status| && s.status[j] == Waiting ==> j in s.queue;
  }

  /** What may become of a request: a refused, timed out or released one is settled. */
  predicate Follows(before: Status, after: Status) {
    || after == before
    || (before == Waiting && after in {TimedOut, Holding, Released})
    || (before == Holding && after == Released)
  }

  lemma StepSettles(steps: seq<Step>, step: Step, i: nat)
    requires i < |Exec(steps).status|
    ensures i < |Next(Exec(steps), step).status|
    ensures Follows(Exec(steps).status[i], Next(Exec(steps), step).status[i])
  {
    var s := Exec(steps);
    RunKeepsInv(steps);
    assert s.queue != [] ==> s.queue[0] in s.queue;
  }

  /** The whole life of a request, however the run goes on: in particular a timed
      out request never gets a slot, and a slot is released at most once. */
  lemma {:induction false} SettlementIsFinal(steps: seq<Step>, more: seq<Step>, i: nat)
    requires i < |Exec(steps).status|
    ensures i < |Exec(steps + more).status|
    ensures Follows(Exec(steps).status[i], Exec(steps + more).status[i])
  {
    if more == [] {
      assert steps + more == steps;
    } else {
      var n := |more| - 1;
      SettlementIsFinal(steps, more[..n], i);
      assert steps + more == (steps + more[..n]) + [more[n]];
      ExecSnoc(steps + more[..n], more[n]);
      StepSettles(steps + more[..n], more[n], i);
    }
  }

  /** A request takes a slot at once exactly if one of the four is free, waits exactly if
      none is and fewer than sixteen wait, with its timer due after five seconds, and is
      refused otherwise. */
  lemma AcquisitionOutcome(steps: seq<Step>, now: int)
    ensures var s, t := Exec(steps), Exec(steps + [Acquire(now)]); var n := |s.status|;
      && |t.status| == n + 1
      && (t.status[n] == Holding <==> s.active < 4)
      && (t.status[n] == Waiting <==> s.active == 4 && |s.queue| < 16)
      && (t.status[n] == Refused <==> s.active == 4 && |s.queue| == 16)
      && (t.status[n] == Waiting ==> t.queue == s.queue + [n] && n in t.timers && t.timers[n] == now + 5_000)
  {
    RunKeepsInv(steps);
    ExecSnoc(steps, Acquire(now));
  }

  /** As long as a request waits its timer stays as it was armed. */
  lemma {:induction false} WaiterKeepsItsTimer(steps: seq<Step>, more: seq<Step>, i: nat)
    requires i in Exec(steps).timers && i < |Exec(steps).status|
    ensures var s, t := Exec(steps), Exec(steps + more);
      i < |t.status| && (t.status[i] == Waiting ==> i in t.timers && t.timers[i] == s.timers[i])
  {
    hide Exec, Next, Inv;
    if more == [] {
      assert steps + more == steps;
    } else {
      var n := |more| - 1;
      WaiterKeepsItsTimer(steps, more[..n], i);
      assert steps + more == (steps + more[..n]) + [more[n]];
      ExecSnoc(steps + more[..n], more[n]);
      RunKeepsInv(steps + more[..n]);
      StepKeepsTimer(Exec(steps + more[..n]), more[n], i);
    }
  }

  lemma StepKeepsTimer(s: State, step: Step, i: nat)
    requires WellNumbered(s) && Inv(s) && i < |s.status|
    ensures var t := Next(s, step);
      && i < |t.status|
      && (t.status[i] == Waiting ==>
            s.status[i] == Waiting && i in s.timers && i in t.timers && t.timers[i] == s.timers[i])
  {
    assert s.queue != [] ==> s.queue[0] in s.queue;
  }

  lemma GrantedExactlyHolders(steps: seq<Step>, i: nat)
    ensures var s := Exec(steps); i in s.granted <==> i < |s.status| && s.status[i] in {Holding, Released}
  {
    RunKeepsInv(steps);
  }

  // ------------------------------------------------------------------------
  // Refusals
  // ------------------------------------------------------------------------

  const CAPACITY := MAX_CONCURRENT_KDF + MAX_QUEUED_KDF

  /** `n` acquisitions in a row, at the times given by `clock`. */
  ghost function Burst(s: State, n: nat, clock: nat -> int): State {
    if n == 0 then s else Acquired(Burst(s, n - 1, clock), clock(n - 1))
  }

  ghost predicate WithinCapacity(s: State) {
    && 0 <= s.active <= MAX_CONCURRENT_KDF && |s.queue| <= MAX_QUEUED_KDF
    && (s.queue != [] ==> s.active == MAX_CONCURRENT_KDF)
  }

  function Load(s: State): int { s.active + |s.queue| }

  lemma AcquireLoads(s: State, now: int)
    requires WithinCapacity(s)
    ensures WithinCapacity(Acquired(s, now))
    ensures Load(Acquired(s, now)) == if Load(s) < CAPACITY then Load(s) + 1 else CAPACITY
    ensures Acquired(s, now).status[|s.status|] == Refused <==> Load(s) == CAPACITY
  {
  }

  /** How many of the `n` acquisitions are refused. */
  ghost function RefusedInBurst(s: State, n: nat, clock: nat -> int): nat {
    if n == 0 then 0
    else
      var b := Burst(s, n - 1, clock);
      RefusedInBurst(s, n - 1, clock) + (if Acquired(b, clock(n - 1)).status[|b.status|] == Refused then 1 else 0)
  }

  lemma {:induction false} BurstFromAnywhere(s: State, n: nat, clock: nat -> int)
    requires WithinCapacity(s)
    ensures WithinCapacity(Burst(s, n, clock))
    ensures RefusedInBurst(s, n, clock) == Max(0, n - (CAPACITY - Load(s)))
    ensures Load(Burst(s, n, clock)) == if Load(s) + n < CAPACITY then Load(s) + n else CAPACITY
  {
    if n > 0 {
      BurstFromAnywhere(s, n - 1, clock);
      AcquireLoads(Burst(s, n - 1, clock), clock(n - 1));
    }
  }

  lemma RunWithinCapacity(steps: seq<Step>)
    ensures WithinCapacity(Exec(steps))
  {
    RunKeepsInv(steps);
  }

  /** After any run, of `n` acquisitions without a release or timeout in between
      exactly those beyond the places left are refused. */
  lemma RefusedExactlyBeyondCapacity(steps: seq<Step>, n: nat, clock: nat -> int)
    ensures RefusedInBurst(Exec(steps), n, clock) == Max(0, n - (CAPACITY - Load(Exec(steps))))
  {
    RunWithinCapacity(steps);
    BurstFromAnywhere(Exec(steps), n, clock);
  }

  /** From the idle state: exactly the requests beyond the twentieth. */
  lemma RefusedFromIdle(n: nat, clock: nat -> int)
    ensures RefusedInBurst(IDLE, n, clock) == Max(0, n - 20)
  {
    BurstFromAnywhere(IDLE, n, clock);
  }

  // ------------------------------------------------------------------------
  // The module's variables and functions
  // ------------------------------------------------------------------------

  class KdfAdmission {
    var activePasswordKdf: int
    var passwordKdfQueue: seq<nat>
    var timers: map<nat, int>
    var nextId: nat
    ghost var status: seq<Status>
    ghost var granted: seq<nat>
    ghost var run: seq<Step>

    ghost function View(): State
      reads this
    {
      State(activePasswordKdf, passwordKdfQueue, timers, status, granted)
    }

    ghost predicate Valid()
      reads this
    {
      View() == Exec(run) && nextId == |status|
    }

    constructor ()
      ensures Valid() && View() == IDLE
    {
      activePasswordKdf, passwordKdfQueue, timers, nextId, status, granted, run := 0, [], map[], 0, [], [], [];
    }

    /** `acquirePasswordKdfSlot`: what the caller's promise is left as. */
    method Acquire(now: int) returns (outcome: Status)
      requires Valid()
      modifies this
      ensures Valid() && run == old(run) + [Step.Acquire(now)]
      ensures status == old(status) + [outcome]
    {
      ExecSnoc(run, Step.Acquire(now));
      var id := nextId;
      nextId := nextId + 1;
      if activePasswordKdf < MAX_CONCURRENT_KDF {
        activePasswordKdf := activePasswordKdf + 1;
        outcome := Holding;
        granted := granted + [id];
      } else if |passwordKdfQueue| >= MAX_QUEUED_KDF {
        outcome := Refused;
      } else {
        passwordKdfQueue := passwordKdfQueue + [id];
        timers := timers[id := now + QUEUE_TIMEOUT_MS];
        outcome := Waiting;
      }
      status := status + [outcome];
      run := run + [Step.Acquire(now)];
    }

    /** `releasePasswordKdfSlot`, called once by each holder. */
    method Release(id: nat)
      requires Valid() && Enabled(View(), Step.Release(id))
      modifies this
      ensures Valid() && run == old(run) + [Step.Release(id)]
    {
      ExecSnoc(run, Step.Release(id));
      activePasswordKdf := activePasswordKdf - 1;
      status := status[id := Released];
      if passwordKdfQueue != [] {
        var waiter := passwordKdfQueue[0];
        passwordKdfQueue := passwordKdfQueue[1..];
        timers := timers - {waiter};
        activePasswordKdf := activePasswordKdf + 1;
        status := status[waiter := Holding];
        granted := granted + [waiter];
      }
      run := run + [Step.Release(id)];
    }

    method OnTimeout(id: nat, now: int)
      requires Valid() && Enabled(View(), Timeout(id, now))
      modifies this
      ensures Valid() && run == old(run) + [Timeout(id, now)]
    {
      ExecSnoc(run, Timeout(id, now));
      timers := timers - {id};
      var index := IndexOf(passwordKdfQueue, id);
      if index < |passwordKdfQueue| {
        passwordKdfQueue := passwordKdfQueue[..index] + passwordKdfQueue[index + 1..];
      }
      status := status[id := TimedOut];
      run := run + [Timeout(id, now)];
    }
  }
}
