/** The fallback competency report and the risk score that feeds it. */
module CompetencyReport {
  import opened Integers
  import opened Scoring
  import D = ProctorDevices

  // ------------------------------------------------------------------------
  // Risk
  // ------------------------------------------------------------------------

  function Weight(kind: D.EventType): nat {
    match kind
    case PASTE => 8
    case COPY => 6
    case TAB_HIDDEN => 5
    case WINDOW_BLUR => 4
    case FULLSCREEN_EXIT => 10
    case PRIMARY_CAMERA_DISCONNECTED => 15
    case PRIMARY_CAMERA_PERMISSION_DENIED => 20
    case MOBILE_CAMERA_DISCONNECTED => 12
    case MOBILE_CAMERA_PERMISSION_DENIED => 18
    case MOBILE_PAGE_HIDDEN => 8
    case MOBILE_PAGE_LEFT => 15
    case MOBILE_NETWORK_OFFLINE => 12
    case MOBILE_HEARTBEAT_MISSED => 12
    case _ => 1
  }

  /** The reduction from the left, starting from `score`. */
  function Reduce(score: nat, types: seq<D.EventType>): nat
    decreases types
  {
    if types == [] then score else Reduce(score + Weight(types[0]), types[1..])
  }

  function RiskScore(types: seq<D.EventType>): nat { Reduce(0, types) }

  datatype RiskLevel = SAFE | WARNING | DANGER

  function RiskLevelOf(score: int): RiskLevel {
    if score >= 30 then DANGER else if score >= 12 then WARNING else SAFE
  }

  function Rank(level: RiskLevel): nat {
    match level { case SAFE => 0 case WARNING => 1 case DANGER => 2 }
  }

  lemma {:induction false} ReduceIsAdditive(score: nat, types: seq<D.EventType>)
    ensures Reduce(score, types) == score + Reduce(0, types)
    decreases types
  {
    if types != [] {
      ReduceIsAdditive(score + Weight(types[0]), types[1..]);
      ReduceIsAdditive(Weight(types[0]), types[1..]);
    }
  }

  /** The risk of two logs together is the sum of their risks. */
  lemma {:induction false} RiskIsAdditive(a: seq<D.EventType>, b: seq<D.EventType>)
    ensures RiskScore(a + b) == RiskScore(a) + RiskScore(b)
  {
    if a == [] {
      assert a + b == b;
    } else {
      assert (a + b)[1..] == a[1..] + b;
      RiskIsAdditive(a[1..], b);
      ReduceIsAdditive(Weight(a[0]), a[1..] + b);
      ReduceIsAdditive(Weight(a[0]), a[1..]);
    }
  }

  lemma RiskWithoutOne(before: seq<D.EventType>, kind: D.EventType, after: seq<D.EventType>)
    ensures RiskScore(before + [kind] + after) == Weight(kind) + RiskScore(before + after)
  {
    RiskIsAdditive(before + [kind], after);
    RiskIsAdditive(before, [kind]);
    RiskIsAdditive(before, after);
    assert Reduce(Weight(kind), []) == Weight(kind);
    assert [kind][1..] == [];
    assert RiskScore([kind]) == Weight(kind);
  }

  lemma RiskOfFirst(a: seq<D.EventType>)
    requires a != []
    ensures RiskScore(a) == Weight(a[0]) + RiskScore(a[1..])
  {
    RiskWithoutOne([], a[0], a[1..]);
    assert [] + [a[0]] + a[1..] == a;
    assert [] + a[1..] == a[1..];
  }

  lemma WithoutFirst(a: seq<D.EventType>, before: seq<D.EventType>, after: seq<D.EventType>)
    requires a != [] && multiset(a) == multiset(before + [a[0]] + after)
    ensures multiset(a[1..]) == multiset(before + after)
  {
    assert a == [a[0]] + a[1..];
    assert multiset(a[1..]) == multiset(a) - multiset{a[0]};
    assert multiset(before + after) == multiset(before + [a[0]] + after) - multiset{a[0]};
  }

  /** How many events of a log are of these kinds. */
  function CountIn(types: seq<D.EventType>, kinds: set<D.EventType>): nat {
    if types == [] then 0 else (if types[0] in kinds then 1 else 0) + CountIn(types[1..], kinds)
  }

  const LIGHT := {
    D.TAB_VISIBLE, D.WINDOW_FOCUS, D.FULLSCREEN_ENTER, D.PRIMARY_CAMERA_CONNECTED,
    D.MOBILE_CAMERA_CONNECTED, D.MOBILE_PAGE_VISIBLE, D.MOBILE_NETWORK_ONLINE}

  /** What the events of a candidate's page weigh together, by how many there are of each kind. */
  ghost function PageRisk(types: seq<D.EventType>): nat {
    8 * CountIn(types, {D.PASTE, D.MOBILE_PAGE_HIDDEN}) + 6 * CountIn(types, {D.COPY})
    + 5 * CountIn(types, {D.TAB_HIDDEN}) + 4 * CountIn(types, {D.WINDOW_BLUR})
    + 10 * CountIn(types, {D.FULLSCREEN_EXIT}) + CountIn(types, LIGHT)
  }

  /** And those of the cameras and the mobile device. */
  ghost function DeviceRisk(types: seq<D.EventType>): nat {
    20 * CountIn(types, {D.PRIMARY_CAMERA_PERMISSION_DENIED})
    + 18 * CountIn(types, {D.MOBILE_CAMERA_PERMISSION_DENIED})
    + 15 * CountIn(types, {D.PRIMARY_CAMERA_DISCONNECTED, D.MOBILE_PAGE_LEFT})
    + 12 * CountIn(types, {D.MOBILE_CAMERA_DISCONNECTED, D.MOBILE_NETWORK_OFFLINE, D.MOBILE_HEARTBEAT_MISSED})
  }

  lemma FirstWeighs(types: seq<D.EventType>)
    requires types != []
    ensures PageRisk(types) + DeviceRisk(types) == Weight(types[0]) + PageRisk(types[1..]) + DeviceRisk(types[1..])
  {
  }

  /** The risk of a log is read off the table of weights by counting. */
  lemma {:induction false} RiskIsTheTable(types: seq<D.EventType>)
    ensures RiskScore(types) == PageRisk(types) + DeviceRisk(types)
  {
    if types != [] {
      hide PageRisk, DeviceRisk, Weight, RiskScore;
      RiskOfFirst(types);
      RiskIsTheTable(types[1..]);
      FirstWeighs(types);
    }
  }

  /** Danger from 30 on, warning from 12 on. */
  lemma RiskLevels(score: int)
    ensures RiskLevelOf(score) == DANGER <==> score >= 30
    ensures RiskLevelOf(score) == SAFE <==> score < 12
  {
  }

  /** The order of the events does not matter. */
  lemma {:induction false} RiskIgnoresOrder(a: seq<D.EventType>, b: seq<D.EventType>)
    requires multiset(a) == multiset(b)
    ensures RiskScore(a) == RiskScore(b)
  {
    if a == [] {
      assert |multiset(b)| == 0;
    } else {
      assert a[0] in multiset(b);
      var k :| 0 <= k < |b| && b[k] == a[0];
      var before, after := b[..k], b[k + 1..];
      assert b == before + [a[0]] + after;
      WithoutFirst(a, before, after);
      RiskIgnoresOrder(a[1..], before + after);
      RiskWithoutOne(before, a[0], after);
      RiskOfFirst(a);
    }
  }

  /** More events never lower the risk score or the risk level. */
  lemma RiskNeverFalls(earlier: seq<D.EventType>, later: seq<D.EventType>)
    ensures RiskScore(earlier) <= RiskScore(later + earlier)
    ensures Rank(RiskLevelOf(RiskScore(earlier))) <= Rank(RiskLevelOf(RiskScore(later + earlier)))
  {
    RiskIsAdditive(later, earlier);
  }

  // ------------------------------------------------------------------------
  // The report
  // ------------------------------------------------------------------------

  datatype Signals = Signals(
    passedTests: nat, failedTests: nat, codeRuns: nat, pasteEvents: nat, riskScore: nat, elapsedMinutes: nat)

  datatype Scores = Scores(
    problemSolving: int, implementation: int, debugging: int, codeQuality: int, timeManagement: int,
    integrity: int, overall: int)

  function PassRate(passed: nat, failed: nat): int {
    if passed + failed == 0 then 70 else RoundDiv(100 * passed, passed + failed)
  }

  function CodeQuality(pasteEvents: nat): int { Max(55, 88 - pasteEvents * 4) }

  function TimeManagement(elapsedMinutes: nat): int { Max(45, 92 - Max(0, elapsedMinutes - 60)) }

  function Debugging(codeRuns: nat, failedTests: nat): int { Min(95, 65 + codeRuns * 3 - failedTests * 2) }

  function Integrity(riskScore: nat): int { Max(0, 100 - riskScore) }

  /** The last roundings, from the parts. */
  function Combined(passRate: int, codeQuality: int, timeManagement: int, debugging: int, integrity: int): Scores {
    var implementation := RoundDiv(passRate + codeQuality, 2);
    var problemSolving := RoundDiv(passRate + timeManagement, 2);
    Scores(problemSolving, implementation, debugging, codeQuality, timeManagement, integrity,
           RoundDiv(problemSolving + implementation + debugging + codeQuality + timeManagement + integrity, 6))
  }

  function Report(s: Signals): Scores {
    Combined(PassRate(s.passedTests, s.failedTests), CodeQuality(s.pasteEvents), TimeManagement(s.elapsedMinutes),
             Debugging(s.codeRuns, s.failedTests), Integrity(s.riskScore))
  }

  /** The parts of a report, and each rounding as the nearest integer, halves upward. */
  lemma ReportIs(s: Signals)
    ensures var r := Report(s); var p := PassRate(s.passedTests, s.failedTests);
      && (s.passedTests + s.failedTests == 0 ==> p == 70)
      && (s.passedTests + s.failedTests > 0 ==>
            -1 < 200 * s.passedTests - (2 * p - 1) * (s.passedTests + s.failedTests)
            && 200 * s.passedTests < (2 * p + 1) * (s.passedTests + s.failedTests))
      && r.codeQuality == (if s.pasteEvents <= 8 then 88 - 4 * s.pasteEvents else 55)
      && r.timeManagement == (if s.elapsedMinutes <= 60 then 92
                              else if s.elapsedMinutes <= 107 then 152 - s.elapsedMinutes else 45)
      && r.debugging == (if 3 * s.codeRuns >= 30 + 2 * s.failedTests then 95
                         else 65 + 3 * s.codeRuns - 2 * s.failedTests)
      && r.integrity == (if s.riskScore <= 100 then 100 - s.riskScore else 0)
      && 2 * r.implementation - 1 <= p + r.codeQuality <= 2 * r.implementation
      && 2 * r.problemSolving - 1 <= p + r.timeManagement <= 2 * r.problemSolving
      && -3 <= r.problemSolving + r.implementation + r.debugging + r.codeQuality + r.timeManagement + r.integrity
               - 6 * r.overall <= 2
  {
    if s.passedTests + s.failedTests > 0 {
      PassRateBounds(100 * s.passedTests, s.passedTests + s.failedTests);
    }
  }

  lemma PassRateBounds(n: int, d: int)
    requires d > 0
    ensures 2 * n - (2 * RoundDiv(n, d) - 1) * d >= 0 && 2 * n < (2 * RoundDiv(n, d) + 1) * d
  {
    var r := RoundDiv(n, d);
    assert (2 * r - 1) * d == 2 * d * r - d && (2 * r + 1) * d == 2 * d * r + d;
  }

  lemma PassRateInRange(passed: nat, failed: nat)
    ensures 0 <= PassRate(passed, failed) <= 100
  {
    if passed + failed > 0 {
      ScoreInRange(passed, passed + failed, SUCCESS);
    }
  }

  /** Rounding never makes the overall score fall when a part rises. */
  lemma CombinedIsMonotone(p: int, q: int, t: int, d: int, i: int, p': int, q': int, t': int, d': int, i': int)
    requires p <= p' && q <= q' && t <= t' && d <= d' && i <= i'
    ensures Combined(p, q, t, d, i).overall <= Combined(p', q', t', d', i').overall
  {
    var a, b := Combined(p, q, t, d, i), Combined(p', q', t', d', i');
    RoundDivMonotone(p + q, 2, p' + q', 2);
    RoundDivMonotone(p + t, 2, p' + t', 2);
    RoundDivMonotone(a.problemSolving + a.implementation + d + q + t + i, 6,
                     b.problemSolving + b.implementation + d' + q' + t' + i', 6);
  }

  /** The overall score is at most 94, and some signals reach it. */
  lemma OverallAtMost94(s: Signals)
    ensures Report(s).overall <= 94
    ensures Report(Signals(1, 0, 10, 0, 0, 0)).overall == 94
  {
    PassRateInRange(s.passedTests, s.failedTests);
    CombinedIsMonotone(PassRate(s.passedTests, s.failedTests), CodeQuality(s.pasteEvents),
                       TimeManagement(s.elapsedMinutes),
                       Debugging(s.codeRuns, s.failedTests), Integrity(s.riskScore), 100, 88, 92, 95, 100);
    assert PassRate(1, 0) == 100;
  }

  /** The pass rate rises with passed tests, the jump from no tests at all included:
      70 without tests, 100 after one that passes. */
  lemma PassRateRises(passed: nat, more: nat, failed: nat)
    requires passed <= more
    ensures PassRate(passed, failed) <= PassRate(more, failed)
  {
    PassRateInRange(more, failed);
    if passed + failed > 0 {
      FractionRises(passed, more, failed);
    } else if more > 0 {
      RoundDivUnique(100 * more, more, 100);
    }
  }

  lemma FractionRises(passed: nat, more: nat, failed: nat)
    requires passed <= more && passed + failed > 0
    ensures RoundDiv(100 * passed, passed + failed) <= RoundDiv(100 * more, more + failed)
  {
    if failed > 0 {
      MulMonotone(failed, passed, more);
    }
    assert passed * failed <= more * failed;
    assert (100 * passed) * (more + failed) == 100 * (passed * more) + 100 * (passed * failed);
    assert (100 * more) * (passed + failed) == 100 * (passed * more) + 100 * (more * failed);
    RoundDivMonotone(100 * passed, passed + failed, 100 * more, more + failed);
  }

  lemma PassRateFalls(passed: nat, failed: nat, more: nat)
    requires failed <= more
    ensures PassRate(passed, more) <= PassRate(passed, failed)
  {
    PassRateInRange(passed, more);
    if passed + failed > 0 {
      FractionFalls(passed, failed, more);
    } else if more > 0 {
      RoundDivUnique(0, more, 0);
    }
  }

  lemma FractionFalls(passed: nat, failed: nat, more: nat)
    requires failed <= more && passed + failed > 0
    ensures RoundDiv(100 * passed, passed + more) <= RoundDiv(100 * passed, passed + failed)
  {
    if passed > 0 {
      MulMonotone(100 * passed, passed + failed, passed + more);
    }
    RoundDivMonotone(100 * passed, passed + more, 100 * passed, passed + failed);
  }

  /** Better signals: no fewer tests passed or code runs, no more failures, pastes,
      risk or minutes. */
  predicate NoWorse(s: Signals, t: Signals) {
    && s.passedTests <= t.passedTests && s.codeRuns <= t.codeRuns
    && t.failedTests <= s.failedTests && t.pasteEvents <= s.pasteEvents
    && t.riskScore <= s.riskScore && t.elapsedMinutes <= s.elapsedMinutes
  }

  /** The overall score is monotone in every signal at once, across all roundings and
      the case without tests. */
  lemma OverallIsMonotone(s: Signals, t: Signals)
    requires NoWorse(s, t)
    ensures Report(s).overall <= Report(t).overall
  {
    PassRateRises(s.passedTests, t.passedTests, s.failedTests);
    PassRateFalls(t.passedTests, t.failedTests, s.failedTests);
    CombinedIsMonotone(
      PassRate(s.passedTests, s.failedTests), CodeQuality(s.pasteEvents), TimeManagement(s.elapsedMinutes),
      Debugging(s.codeRuns, s.failedTests), Integrity(s.riskScore),
      PassRate(t.passedTests, t.failedTests), CodeQuality(t.pasteEvents), TimeManagement(t.elapsedMinutes),
      Debugging(t.codeRuns, t.failedTests), Integrity(t.riskScore));
  }

  /** The number of paste events in a log. */
  function Pastes(types: seq<D.EventType>): nat {
    if types == [] then 0 else (if types[0] == D.PASTE then 1 else 0) + Pastes(types[1..])
  }

  lemma {:induction false} PastesAreAdditive(a: seq<D.EventType>, b: seq<D.EventType>)
    ensures Pastes(a + b) == Pastes(a) + Pastes(b)
  {
    if a == [] {
      assert a + b == b;
    } else {
      assert (a + b)[1..] == a[1..] + b;
      PastesAreAdditive(a[1..], b);
    }
  }

  /** The report of a candidate's whole log: further proctoring events never raise it.
      `ReportWindow` has the report of a log that is cut to its newest events. */
  lemma EventsNeverRaiseTheReport(s: Signals, earlier: seq<D.EventType>, later: seq<D.EventType>)
    ensures Report(s.(riskScore := RiskScore(later + earlier), pasteEvents := Pastes(later + earlier))).overall
         <= Report(s.(riskScore := RiskScore(earlier), pasteEvents := Pastes(earlier))).overall
  {
    RiskNeverFalls(earlier, later);
    PastesAreAdditive(later, earlier);
    OverallIsMonotone(s.(riskScore := RiskScore(later + earlier), pasteEvents := Pastes(later + earlier)),
                      s.(riskScore := RiskScore(earlier), pasteEvents := Pastes(earlier)));
  }
}
