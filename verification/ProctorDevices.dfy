/** Proctoring devices in the in-memory store: the upsert, and the sweep that marks
    devices whose heartbeat is missing. */
module ProctorDevices {
  import opened Wrappers
  import opened KeyedLists

  datatype Role = PRIMARY_PC | MOBILE_AUX

  datatype Status = WAITING | CONNECTED | DISCONNECTED | PERMISSION_DENIED

  datatype Key = Key(candidateId: string, examId: string, role: Role)

  datatype Record = Record(
    status: Status, connectedAt: Option<int>, disconnectedAt: Option<int>, lastHeartbeatAt: Option<int>,
    detail: string, createdAt: int, updatedAt: int)

  type Device = Entry<Key, Record>

  datatype EventType =
    | TAB_HIDDEN | TAB_VISIBLE | WINDOW_BLUR | WINDOW_FOCUS | COPY | PASTE | FULLSCREEN_EXIT | FULLSCREEN_ENTER
    | PRIMARY_CAMERA_CONNECTED | PRIMARY_CAMERA_DISCONNECTED | PRIMARY_CAMERA_PERMISSION_DENIED
    | MOBILE_CAMERA_CONNECTED | MOBILE_CAMERA_DISCONNECTED | MOBILE_CAMERA_PERMISSION_DENIED
    | MOBILE_PAGE_HIDDEN | MOBILE_PAGE_VISIBLE | MOBILE_PAGE_LEFT
    | MOBILE_NETWORK_OFFLINE | MOBILE_NETWORK_ONLINE | MOBILE_HEARTBEAT_MISSED

  datatype Event = Event(candidateId: string, examId: string, kind: EventType, detail: string, createdAt: int)

  // ------------------------------------------------------------------------
  // Upsert
  // ------------------------------------------------------------------------

  /** What an upsert stores for a device, given what was there. */
  function Reported(existing: Option<Device>, status: Status, detail: string, now: int): Record {
    Record(
      status,
      if status == CONNECTED then Some(now)
      else match existing { case Some(e) => e.value.connectedAt case None => None },
      if status == DISCONNECTED || status == PERMISSION_DENIED then Some(now)
      else match existing { case Some(e) => e.value.disconnectedAt case None => None },
      if status == CONNECTED then Some(now)
      else match existing { case Some(e) => e.value.lastHeartbeatAt case None => None },
      detail,
      match existing { case Some(e) => e.value.createdAt case None => now },
      now)
  }

  function Upsert(devices: seq<Device>, key: Key, status: Status, detail: string, now: int, freshId: nat): seq<Device> {
    Put(devices, key, Reported(Find(devices, key), status, detail, now), freshId)
  }

  /** A connected device has a recorded heartbeat. */
  ghost predicate Beating(devices: seq<Device>) {
    forall d :: d in devices && d.value.status == CONNECTED ==> d.value.lastHeartbeatAt.Some?
  }

  lemma UpsertKeepsBeating(devices: seq<Device>, key: Key, status: Status, detail: string, now: int, freshId: nat)
    requires Distinct(devices) && Beating(devices) && IdsBelow(devices, freshId)
    ensures Beating(Upsert(devices, key, status, detail, now, freshId))
  {
    var after := Upsert(devices, key, status, detail, now, freshId);
    var value := Reported(Find(devices, key), status, detail, now);
    FindIs(devices, key);
    forall d: Device | d in after && d.value.status == CONNECTED
      ensures d.value.lastHeartbeatAt.Some?
    {
      if d != after[0] {
        assert d in after[1..] && after[1..] == Without(devices, after[0].id);
        KeptByPut(devices, key, value, freshId, d);
      }
    }
  }

  /** What a report changes of a device and what it keeps: when it last connected, when it
      last stopped, and when it was first heard of. */
  lemma ReportChanges(existing: Option<Device>, status: Status, detail: string, now: int)
    ensures var r := Reported(existing, status, detail, now);
      && r.status == status && r.detail == detail && r.updatedAt == now
      && (status == CONNECTED ==> r.connectedAt == Some(now) && r.lastHeartbeatAt == Some(now))
      && (status in {DISCONNECTED, PERMISSION_DENIED} ==> r.disconnectedAt == Some(now))
      && (existing == None ==>
            && r.createdAt == now && (status != CONNECTED ==> r.connectedAt == None && r.lastHeartbeatAt == None)
            && (status in {WAITING, CONNECTED} ==> r.disconnectedAt == None))
      && (existing.Some? ==>
            && r.createdAt == existing.value.value.createdAt
            && (status != CONNECTED ==> r.connectedAt == existing.value.value.connectedAt
                                        && r.lastHeartbeatAt == existing.value.value.lastHeartbeatAt)
            && (status in {WAITING, CONNECTED} ==> r.disconnectedAt == existing.value.value.disconnectedAt))
  {
  }

  /** An upsert is a keyed update; it keeps (candidate, exam, role) unique and every
      connected device's heartbeat recorded. */
  lemma UpsertIsAKeyedUpdate(devices: seq<Device>, key: Key, status: Status, detail: string, now: int, freshId: nat,
                             key': Key)
    requires Distinct(devices) && Beating(devices) && IdsBelow(devices, freshId)
    ensures var after := Upsert(devices, key, status, detail, now, freshId);
      && Distinct(after) && Beating(after) && IdsBelow(after, freshId + 1)
      && after[0].value == Reported(Find(devices, key), status, detail, now)
      && Find(after, key') == (if key' == key then Some(after[0]) else Find(devices, key'))
  {
    UpsertKeepsBeating(devices, key, status, detail, now, freshId);
    PutIsAKeyedUpdate(devices, key, Reported(Find(devices, key), status, detail, now), freshId, key');
  }

  // ------------------------------------------------------------------------
  // Sweep
  // ------------------------------------------------------------------------

  /** The memory path: a missing heartbeat counts as time 0. */
  predicate IsStale(d: Device, examId: string, staleBefore: int) {
    && d.key.examId == examId && d.value.status == CONNECTED
    && (match d.value.lastHeartbeatAt { case Some(at) => at case None => 0 }) < staleBefore
  }

  /** The database query: a missing heartbeat is before no time. */
  predicate IsStaleInDatabase(d: Device, examId: string, staleBefore: int) {
    && d.key.examId == examId && d.value.status == CONNECTED
    && d.value.lastHeartbeatAt.Some? && d.value.lastHeartbeatAt.value < staleBefore
  }

  function Stale(devices: seq<Device>, examId: string, staleBefore: int): seq<Device> {
    if devices == [] then []
    else if IsStale(devices[0], examId, staleBefore) then [devices[0]] + Stale(devices[1..], examId, staleBefore)
    else Stale(devices[1..], examId, staleBefore)
  }

  function StaleInDatabase(devices: seq<Device>, examId: string, staleBefore: int): seq<Device> {
    if devices == [] then []
    else if IsStaleInDatabase(devices[0], examId, staleBefore) then
         [devices[0]] + StaleInDatabase(devices[1..], examId, staleBefore)
    else StaleInDatabase(devices[1..], examId, staleBefore)
  }

  function Missed(d: Device, now: int): Device {
    d.(value := d.value.(status := DISCONNECTED, disconnectedAt := Some(now), detail := "heartbeat missed",
                         updatedAt := now))
  }

  predicate SomeWithId(devices: seq<Device>, id: nat) {
    exists k :: 0 <= k < |devices| && devices[k].id == id
  }

  /** Devices are matched to the stale ones by id. */
  function MarkMissed(devices: seq<Device>, stale: seq<Device>, now: int): (r: seq<Device>)
    ensures |r| == |devices|
  {
    if devices == [] then []
    else [if SomeWithId(stale, devices[0].id) then Missed(devices[0], now) else devices[0]]
         + MarkMissed(devices[1..], stale, now)
  }

  function RoleName(role: Role): string { if role == MOBILE_AUX then "MOBILE_AUX" else "PRIMARY_PC" }

  function MissedEvent(d: Device, now: int): Event {
    Event(d.key.candidateId, d.key.examId,
          if d.key.role == MOBILE_AUX then MOBILE_HEARTBEAT_MISSED else PRIMARY_CAMERA_DISCONNECTED,
          RoleName(d.key.role) + " heartbeat missed.", now)
  }

  function MissedEvents(stale: seq<Device>, now: int): (r: seq<Event>)
    ensures |r| == |stale|
    ensures forall k :: 0 <= k < |r| ==> r[k] == MissedEvent(stale[k], now)
  {
    if stale == [] then [] else [MissedEvent(stale[0], now)] + MissedEvents(stale[1..], now)
  }

  function Sweep(devices: seq<Device>, events: seq<Event>, examId: string, now: int, timeout: int)
    : (seq<Device>, seq<Event>)
  {
    var stale := Stale(devices, examId, now - timeout);
    if stale == [] then (devices, events)
    else (MarkMissed(devices, stale, now), MissedEvents(stale, now) + events)
  }

  function SweptDevice(d: Device, examId: string, now: int, timeout: int): Device {
    if IsStale(d, examId, now - timeout) then Missed(d, now) else d
  }

  /** The stale devices, in the order of the list. */
  lemma {:induction false} StaleInOrder(devices: seq<Device>, examId: string, staleBefore: int)
    requires devices != []
    ensures var last := devices[|devices| - 1];
      Stale(devices, examId, staleBefore)
      == Stale(devices[..|devices| - 1], examId, staleBefore)
         + (if && last.key.examId == examId && last.value.status == CONNECTED
               && (if last.value.lastHeartbeatAt == None then 0 < staleBefore
                   else last.value.lastHeartbeatAt.value < staleBefore)
            then [last] else [])
  {
    if |devices| > 1 {
      StaleInOrder(devices[1..], examId, staleBefore);
      assert devices[1..][..|devices| - 2] == devices[..|devices| - 1][1..];
    }
  }

  lemma {:induction false} StaleIs(devices: seq<Device>, examId: string, staleBefore: int)
    ensures forall d :: d in Stale(devices, examId, staleBefore) <==> d in devices && IsStale(d, examId, staleBefore)
  {
    if devices != [] {
      StaleIs(devices[1..], examId, staleBefore);
      assert forall d :: d in devices <==> d == devices[0] || d in devices[1..];
    }
  }

  lemma {:induction false} MarkMissedIs(devices: seq<Device>, stale: seq<Device>, now: int, k: nat)
    requires k < |devices|
    ensures MarkMissed(devices, stale, now)[k]
         == if SomeWithId(stale, devices[k].id) then Missed(devices[k], now) else devices[k]
  {
    if k > 0 {
      MarkMissedIs(devices[1..], stale, now, k - 1);
    }
  }

  /** Ids being unique, a device matches a stale one exactly if it is stale. */
  lemma StaleById(devices: seq<Device>, examId: string, staleBefore: int, d: Device)
    requires Distinct(devices) && d in devices
    ensures SomeWithId(Stale(devices, examId, staleBefore), d.id) <==> IsStale(d, examId, staleBefore)
  {
    var stale := Stale(devices, examId, staleBefore);
    StaleIs(devices, examId, staleBefore);
    if IsStale(d, examId, staleBefore) {
      assert d in stale;
    }
    forall j | 0 <= j < |stale| && stale[j].id == d.id
      ensures IsStale(d, examId, staleBefore)
    {
      assert stale[j] in stale;
      OnlyOne(devices, stale[j], d);
    }
  }

  /** A sweep marks exactly the stale connected devices of the exam and leaves every
      other device as it was. */
  lemma SweepMarksExactlyTheStale(devices: seq<Device>, events: seq<Event>, examId: string, now: int, timeout: int,
                                  k: nat)
    requires Distinct(devices) && k < |devices|
    ensures |Sweep(devices, events, examId, now, timeout).0| == |devices|
    ensures Sweep(devices, events, examId, now, timeout).0[k] == SweptDevice(devices[k], examId, now, timeout)
    ensures var was, swept := devices[k], Sweep(devices, events, examId, now, timeout).0[k];
      var beat := if was.value.lastHeartbeatAt == None then 0 else was.value.lastHeartbeatAt.value;
      if was.key.examId == examId && was.value.status == CONNECTED && beat + timeout < now
      then && swept.id == was.id && swept.key == was.key && swept.value.status == DISCONNECTED
           && swept.value.disconnectedAt == Some(now) && swept.value.updatedAt == now
           && swept.value.detail == "heartbeat missed" && swept.value.lastHeartbeatAt == was.value.lastHeartbeatAt
           && swept.value.connectedAt == was.value.connectedAt && swept.value.createdAt == was.value.createdAt
      else swept == was
  {
    StaleById(devices, examId, now - timeout, devices[k]);
    MarkMissedIs(devices, Stale(devices, examId, now - timeout), now, k);
  }

  /** One event for each marked device, in order, of the kind its role asks for,
      in front of the events there were. */
  lemma SweepLogsEachMarkedDevice(devices: seq<Device>, events: seq<Event>, examId: string, now: int, timeout: int)
    ensures var stale, after := Stale(devices, examId, now - timeout), Sweep(devices, events, examId, now, timeout).1;
      && |after| == |stale| + |events|
      && (forall j :: 0 <= j < |stale| ==>
            && after[j].candidateId == stale[j].key.candidateId && after[j].examId == examId
            && after[j].createdAt == now
            && after[j].kind
               == (if stale[j].key.role == MOBILE_AUX then MOBILE_HEARTBEAT_MISSED else PRIMARY_CAMERA_DISCONNECTED)
            && after[j].detail
               == (if stale[j].key.role == MOBILE_AUX then "MOBILE_AUX" else "PRIMARY_PC") + " heartbeat missed.")
      && after[|stale|..] == events
  {
    var stale := Stale(devices, examId, now - timeout);
    StaleIs(devices, examId, now - timeout);
    forall j | 0 <= j < |stale|
      ensures stale[j].key.examId == examId
    {
      assert stale[j] in stale;
    }
  }

  lemma SweepKeepsLength(devices: seq<Device>, events: seq<Event>, examId: string, now: int, timeout: int)
    requires Distinct(devices)
    ensures var after := Sweep(devices, events, examId, now, timeout).0;
      && |after| == |devices|
      && (forall k :: 0 <= k < |devices| ==> after[k] == SweptDevice(devices[k], examId, now, timeout))
  {
    forall k: nat | k < |devices|
      ensures Sweep(devices, events, examId, now, timeout).0[k] == SweptDevice(devices[k], examId, now, timeout)
    {
      SweepMarksExactlyTheStale(devices, events, examId, now, timeout, k);
    }
  }

  lemma {:induction false} NothingStale(devices: seq<Device>, examId: string, staleBefore: int)
    requires forall k :: 0 <= k < |devices| ==> !IsStale(devices[k], examId, staleBefore)
    ensures Stale(devices, examId, staleBefore) == []
  {
    if devices != [] {
      NothingStale(devices[1..], examId, staleBefore);
    }
  }

  lemma NothingStaleAfter(devices: seq<Device>, events: seq<Event>, examId: string, now: int, timeout: int)
    requires Distinct(devices)
    ensures Stale(Sweep(devices, events, examId, now, timeout).0, examId, now - timeout) == []
  {
    var after := Sweep(devices, events, examId, now, timeout).0;
    forall k: nat | k < |devices|
      ensures |after| == |devices| && !IsStale(after[k], examId, now - timeout)
    {
      SweepMarksExactlyTheStale(devices, events, examId, now, timeout, k);
    }
    assert |after| == |devices|;
    NothingStale(after, examId, now - timeout);
  }

  /** A second sweep at the same time does nothing. */
  lemma SweepIsIdempotent(devices: seq<Device>, events: seq<Event>, examId: string, now: int, timeout: int)
    requires Distinct(devices)
    ensures var (d, e) := Sweep(devices, events, examId, now, timeout);
      Sweep(d, e, examId, now, timeout) == (d, e)
  {
    NothingStaleAfter(devices, events, examId, now, timeout);
  }

  lemma SweepKeepsDevices(devices: seq<Device>, events: seq<Event>, examId: string, now: int, timeout: int, bound: nat)
    requires Distinct(devices) && Beating(devices) && IdsBelow(devices, bound)
    ensures var after := Sweep(devices, events, examId, now, timeout).0;
      Distinct(after) && Beating(after) && IdsBelow(after, bound)
  {
    SweepKeepsLength(devices, events, examId, now, timeout);
    SameKeysDistinct(devices, Sweep(devices, events, examId, now, timeout).0);
  }

  /** The memory path selects what the database query selects, exactly if no
      connected device of the exam lacks a heartbeat (or the bound is not positive). */
  lemma {:induction false} SelectsLikeTheDatabase(devices: seq<Device>, examId: string, staleBefore: int)
    ensures Stale(devices, examId, staleBefore) == StaleInDatabase(devices, examId, staleBefore)
       <==> staleBefore <= 0
            || forall d :: d in devices && d.key.examId == examId && d.value.status == CONNECTED ==>
              d.value.lastHeartbeatAt.Some?
  {
    if devices != [] {
      SelectsLikeTheDatabase(devices[1..], examId, staleBefore);
      FewerInDatabase(devices[1..], examId, staleBefore);
      assert forall d :: d in devices <==> d == devices[0] || d in devices[1..];
      var s, q := Stale(devices, examId, staleBefore), StaleInDatabase(devices, examId, staleBefore);
      if IsStaleInDatabase(devices[0], examId, staleBefore) {
        assert s[1..] == Stale(devices[1..], examId, staleBefore);
        assert q[1..] == StaleInDatabase(devices[1..], examId, staleBefore);
      }
    }
  }

  lemma {:induction false} FewerInDatabase(devices: seq<Device>, examId: string, staleBefore: int)
    ensures |StaleInDatabase(devices, examId, staleBefore)| <= |Stale(devices, examId, staleBefore)|
  {
    if devices != [] {
      FewerInDatabase(devices[1..], examId, staleBefore);
    }
  }

  /** With the store's invariant the two paths always select the same devices. */
  lemma SelectsLikeTheDatabaseWhenBeating(devices: seq<Device>, examId: string, staleBefore: int)
    requires Beating(devices)
    ensures Stale(devices, examId, staleBefore) == StaleInDatabase(devices, examId, staleBefore)
  {
    SelectsLikeTheDatabase(devices, examId, staleBefore);
  }
}
