/** Devices over whole runs of the store: what is recorded of a device is what it last
    reported, unless a sweep found its heartbeat missing since. */
module PlatformStoreDevices {
  import opened Wrappers
  import opened PlatformStore
  import opened PlatformStoreGate
  import opened PlatformStoreRuns
  import opened PlatformStoreHistory
  import K = KeyedLists
  import D = ProctorDevices

  datatype Report = Report(status: D.Status, at: int)

  /** The call is accepted as a report of this device. */
  ghost predicate Reports(s: State, step: Step, timeout: int, key: D.Key) {
    && step.ReportDevice? && step.role == key.role
    && Accepted(s, step, timeout, key.candidateId) && Served(s, step, timeout).1.value.exam.id == key.examId
  }

  /** What the device last reported, and when. */
  ghost function LatestReport(s: State, steps: seq<Step>, timeout: int, key: D.Key): Option<Report> {
    if steps == [] then None
    else
      var before, step := steps[..|steps| - 1], steps[|steps| - 1];
      if Reports(Exec(s, before, timeout), step, timeout, key) then Some(Report(step.status, step.now))
      else LatestReport(s, before, timeout, key)
  }

  /** When the device last reported to be connected. */
  ghost function LatestHeartbeat(s: State, steps: seq<Step>, timeout: int, key: D.Key): Option<int> {
    if steps == [] then None
    else
      var before, step := steps[..|steps| - 1], steps[|steps| - 1];
      if && step.ReportDevice? && step.status == D.CONNECTED
         && Reports(Exec(s, before, timeout), step, timeout, key)
      then Some(step.now)
      else LatestHeartbeat(s, before, timeout, key)
  }

  // ------------------------------------------------------------------------
  // One step
  // ------------------------------------------------------------------------

  /** The device is as it was, or was connected and has been found stale at this time. */
  ghost predicate SameOrMissed(was: Option<D.Device>, device: Option<D.Device>, now: int, timeout: int) {
    || device == was
    || (&& was.Some? && was.value.value.status == D.CONNECTED
        && (was.value.value.lastHeartbeatAt.Some? ==> was.value.value.lastHeartbeatAt.value < now - timeout)
        && device == Some(D.Missed(was.value, now)))
  }

  lemma {:induction false} FindMarked(devices: seq<D.Device>, stale: seq<D.Device>, now: int, key: D.Key)
    ensures K.Find(D.MarkMissed(devices, stale, now), key)
         == match K.Find(devices, key)
            case None => None
            case Some(d) => Some(if D.SomeWithId(stale, d.id) then D.Missed(d, now) else d)
  {
    if devices != [] {
      FindMarked(devices[1..], stale, now, key);
    }
  }

  lemma SweptDevice(s: State, examId: string, now: int, timeout: int, key: D.Key)
    requires K.Distinct(s.devices)
    ensures SameOrMissed(K.Find(s.devices, key), K.Find(Swept(s, examId, now, timeout).devices, key), now, timeout)
  {
    FindMarked(s.devices, D.Stale(s.devices, examId, now - timeout), now, key);
    K.FindIs(s.devices, key);
    var was := K.Find(s.devices, key);
    if was.Some? {
      D.StaleById(s.devices, examId, now - timeout, was.value);
    }
  }

  lemma InviteForDevice(s: State, token: string, now: int, timeout: int, key: D.Key)
    requires K.Distinct(s.devices)
    ensures SameOrMissed(K.Find(s.devices, key), K.Find(InviteFor(s, token, now, timeout).0.devices, key), now, timeout)
  {
    var r := Snapshot(s, token);
    if r.Ok? {
      SweptDevice(s, r.value.exam.id, now, timeout, key);
    }
  }

  lemma WriteDevice(s: State, step: Step, timeout: int, key: D.Key)
    requires K.Distinct(s.devices) && IsWrite(step)
    ensures SameOrMissed(K.Find(s.devices, key), K.Find(Served(s, step, timeout).0.devices, key), step.now, timeout)
  {
    hide SameOrMissed;
    var language := if step.SubmitAnswer? then None else Some(step.language);
    AdmitIs(s, step.token, step.questionId, language, step.now, timeout);
    InviteForDevice(s, step.token, step.now, timeout, key);
  }

  lemma ReadDevice(s: State, step: Step, timeout: int, key: D.Key)
    requires K.Distinct(s.devices) && ByCandidate(step) && !IsWrite(step) && !step.ReportDevice?
    ensures SameOrMissed(K.Find(s.devices, key), K.Find(Served(s, step, timeout).0.devices, key), step.now, timeout)
  {
    if !step.ConfirmEntry? {
      InviteForDevice(s, step.token, step.now, timeout, key);
    }
  }

  /** What a report leaves of the device it is about. */
  ghost predicate Recorded(was: Option<D.Device>, device: Option<D.Device>, status: D.Status, now: int) {
    && device.Some? && device.value.value.status == status
    && device.value.value.lastHeartbeatAt
         == if status == D.CONNECTED then Some(now)
            else match was { case Some(d) => d.value.lastHeartbeatAt case None => None }
  }

  lemma ReportedDevice(s: State, step: Step, timeout: int, key: D.Key)
    requires Inv(s) && step.ReportDevice?
    ensures var (t, r) := Served(s, step, timeout); var was, device := K.Find(s.devices, key), K.Find(t.devices, key);
      if r.Ok? && key == D.Key(r.value.candidate.id, r.value.exam.id, step.role)
      then Recorded(was, device, step.status, step.now) else device == was
  {
    var r := Snapshot(s, step.token);
    if r.Ok? {
      var own := D.Key(r.value.candidate.id, r.value.exam.id, step.role);
      D.UpsertIsAKeyedUpdate(s.devices, own, step.status, step.detail, step.now, s.nextId, key);
    }
  }

  lemma ServedDevice(s: State, step: Step, timeout: int, key: D.Key)
    requires Inv(s) && ByCandidate(step)
    ensures var was, device := K.Find(s.devices, key), K.Find(Served(s, step, timeout).0.devices, key);
      if Reports(s, step, timeout, key) then Recorded(was, device, step.status, step.now)
      else SameOrMissed(was, device, step.now, timeout)
  {
    if step.ReportDevice? {
      ReportedDevice(s, step, timeout, key);
    } else if IsWrite(step) {
      WriteDevice(s, step, timeout, key);
    } else {
      ReadDevice(s, step, timeout, key);
    }
  }

  lemma DeviceStep(s: State, step: Step, timeout: int, key: D.Key)
    requires Inv(s)
    ensures var was, device := K.Find(s.devices, key), K.Find(After(s, step, timeout).devices, key);
      if Reports(s, step, timeout, key) then Recorded(was, device, step.status, step.now)
      else SameOrMissed(was, device, step.now, timeout)
  {
    hide Served, Recorded;
    if step.LiveState? {
      SweptDevice(s, step.examId, step.now, timeout, key);
    } else if ByCandidate(step) {
      ServedDevice(s, step, timeout, key);
    }
  }

  // ------------------------------------------------------------------------
  // Whole runs
  // ------------------------------------------------------------------------

  function HeartbeatOf(device: Option<D.Device>): Option<int> {
    match device { case Some(d) => d.value.lastHeartbeatAt case None => None }
  }

  /** The recorded heartbeat of a device is its last report of being connected: sweeps
      and other reports leave it. */
  lemma {:induction false} HeartbeatsAreARegister(s: State, steps: seq<Step>, timeout: int, key: D.Key)
    requires Fresh(s)
    ensures HeartbeatOf(K.Find(Exec(s, steps, timeout).devices, key)) == LatestHeartbeat(s, steps, timeout, key)
  {
    if steps != [] {
      var before := steps[..|steps| - 1];
      HeartbeatsAreARegister(s, before, timeout, key);
      FreshInv(s);
      RunKeepsInv(s, before, timeout);
      DeviceStep(Exec(s, before, timeout), steps[|steps| - 1], timeout, key);
    }
  }

  /** The device is as last reported, but for a sweep by `clock` that found it stale. */
  ghost predicate Follows(device: Option<D.Device>, report: Option<Report>, clock: int, timeout: int) {
    match report
    case None => device == None
    case Some(Report(status, at)) =>
      && device.Some?
      && (status == D.CONNECTED ==>
            && device.value.value.lastHeartbeatAt == Some(at)
            && (device.value.value.status != D.CONNECTED ==> at < clock - timeout))
      && (status != D.CONNECTED ==> device.value.value.status == status)
  }

  lemma {:induction false} DevicesFollowReports(s: State, steps: seq<Step>, timeout: int, key: D.Key, now: int)
    requires Fresh(s) && Timely(steps) && (steps != [] ==> steps[|steps| - 1].now <= now)
    ensures Follows(K.Find(Exec(s, steps, timeout).devices, key), LatestReport(s, steps, timeout, key), now, timeout)
  {
    if steps != [] {
      var before := steps[..|steps| - 1];
      hide After, Reports;
      DevicesFollowReports(s, before, timeout, key, steps[|steps| - 1].now);
      FreshInv(s);
      RunKeepsInv(s, before, timeout);
      DeviceStep(Exec(s, before, timeout), steps[|steps| - 1], timeout, key);
    }
  }

  /** The device's last report was of being connected, no longer ago than the timeout. */
  ghost predicate IsLive(s: State, steps: seq<Step>, timeout: int, now: int, key: D.Key) {
    var report := LatestReport(s, steps, timeout, key);
    report.Some? && report.value.status == D.CONNECTED && now - timeout <= report.value.at
  }

  /** A device is recorded as connected with a fresh heartbeat exactly if it is live. */
  lemma ConnectedAndFreshExactlyIfLive(s: State, steps: seq<Step>, timeout: int, key: D.Key, now: int)
    requires Fresh(s) && Timely(steps) && (steps != [] ==> steps[|steps| - 1].now <= now)
    ensures var device := K.Find(Exec(s, steps, timeout).devices, key);
      (&& device.Some? && device.value.value.status == D.CONNECTED
       && device.value.value.lastHeartbeatAt.Some? && now - timeout <= device.value.value.lastHeartbeatAt.value)
      <==> IsLive(s, steps, timeout, now, key)
  {
    DevicesFollowReports(s, steps, timeout, key, now);
  }
}
