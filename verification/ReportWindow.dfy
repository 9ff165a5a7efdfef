/** The signals of a report as the database gives them: only the newest events and the
    newest runs of a candidate are taken, so that an event can push a heavier one out. */
module ReportWindow {
  import opened Integers
  import opened Scoring
  import opened CompetencyReport
  import D = ProctorDevices

  const MAX_EVENTS := 50
  const MAX_RUNS := 20

  // ------------------------------------------------------------------------
  // The window
  // ------------------------------------------------------------------------

  /** Logs are newest first. */
  function Taken(log: seq<D.EventType>): seq<D.EventType> {
    if |log| <= MAX_EVENTS then log else log[..MAX_EVENTS]
  }

  /** How many of the events taken are still taken once the later ones are there. */
  function Staying(later: seq<D.EventType>, log: seq<D.EventType>): (n: nat)
    ensures n <= |Taken(log)|
  {
    Max(0, Min(|Taken(log)|, MAX_EVENTS - |later|))
  }

  function PushedOut(later: seq<D.EventType>, log: seq<D.EventType>): seq<D.EventType> {
    Taken(log)[Staying(later, log)..]
  }

  lemma TakenAfter(later: seq<D.EventType>, log: seq<D.EventType>)
    ensures Taken(later + log) == Taken(later) + Taken(log)[..Staying(later, log)]
    ensures Taken(log) == Taken(log)[..Staying(later, log)] + PushedOut(later, log)
  {
  }

  /** What the later events bring comes in, and what they push out goes. */
  lemma WindowMoves(later: seq<D.EventType>, log: seq<D.EventType>)
    ensures RiskScore(Taken(later + log))
         == RiskScore(Taken(log)) + RiskScore(Taken(later)) - RiskScore(PushedOut(later, log))
    ensures Pastes(Taken(later + log)) == Pastes(Taken(log)) + Pastes(Taken(later)) - Pastes(PushedOut(later, log))
  {
    var staying := Taken(log)[..Staying(later, log)];
    TakenAfter(later, log);
    RiskIsAdditive(Taken(later), staying);
    RiskIsAdditive(staying, PushedOut(later, log));
    PastesAreAdditive(Taken(later), staying);
    PastesAreAdditive(staying, PushedOut(later, log));
  }

  /** Further events lower the risk exactly if they weigh less than what they push out. */
  lemma RiskFallsExactlyIf(later: seq<D.EventType>, log: seq<D.EventType>)
    ensures RiskScore(Taken(later + log)) < RiskScore(Taken(log))
       <==> RiskScore(Taken(later)) < RiskScore(PushedOut(later, log))
  {
    WindowMoves(later, log);
  }

  lemma OneEventPushesOut(e: D.EventType, log: seq<D.EventType>)
    ensures Taken([e]) == [e] && RiskScore([e]) == Weight(e) && Pastes([e]) == if e == D.PASTE then 1 else 0
    ensures PushedOut([e], log) == if |log| < MAX_EVENTS then [] else [log[MAX_EVENTS - 1]]
  {
    RiskOfFirst([e]);
    assert [e][1..] == [];
  }

  /** One event lowers the risk exactly if the window is full and its oldest event weighs more. */
  lemma OneEventLowersRiskExactlyIf(e: D.EventType, log: seq<D.EventType>)
    ensures RiskScore(Taken([e] + log)) < RiskScore(Taken(log))
       <==> |log| >= 50 && Weight(e) < Weight(log[49])
  {
    RiskFallsExactlyIf([e], log);
    OneEventPushesOut(e, log);
    if |log| >= MAX_EVENTS {
      OneEventPushesOut(log[MAX_EVENTS - 1], log);
    }
  }

  // ------------------------------------------------------------------------
  // The report
  // ------------------------------------------------------------------------

  /** The overall score of a candidate with this log; `s` has the other signals. */
  function Overall(s: Signals, log: seq<D.EventType>): int { Report(DatabaseSignals(s, log)).overall }

  function DatabaseSignals(s: Signals, log: seq<D.EventType>): Signals {
    s.(codeRuns := Min(s.codeRuns, MAX_RUNS), pasteEvents := Pastes(Taken(log)), riskScore := RiskScore(Taken(log)))
  }

  /** What the events taken add to the sum that is divided by six, on an even pass rate
      or an odd one, which the rounding of a half tells apart. */
  function Share(window: seq<D.EventType>, parity: int): int {
    var quality := CodeQuality(Pastes(window));
    RoundDiv(parity + quality, 2) + quality + Integrity(RiskScore(window))
  }

  /** The events taken now add no more than those taken before. */
  predicate AddsNoMore(now: seq<D.EventType>, before: seq<D.EventType>) {
    Share(now, 0) <= Share(before, 0) && Share(now, 1) <= Share(before, 1)
  }

  /** What the other signals add. */
  function Rest(s: Signals): int {
    var passRate, time := PassRate(s.passedTests, s.failedTests), TimeManagement(s.elapsedMinutes);
    RoundDiv(passRate + time, 2) + passRate / 2 + Debugging(Min(s.codeRuns, MAX_RUNS), s.failedTests) + time
  }

  /** Runs beyond the twentieth do not count. */
  lemma RunsCountUpToTwenty(s: Signals, log: seq<D.EventType>)
    ensures Overall(s, log) == Overall(s.(codeRuns := if s.codeRuns <= 20 then s.codeRuns else 20), log)
    ensures s.codeRuns <= 20 && s.pasteEvents == Pastes(Taken(log)) && s.riskScore == RiskScore(Taken(log)) ==>
              Overall(s, log) == Report(s).overall
  {
  }

  lemma OverallIs(s: Signals, log: seq<D.EventType>)
    ensures Overall(s, log) == RoundDiv(Rest(s) + Share(Taken(log), PassRate(s.passedTests, s.failedTests) % 2), 6)
  {
    var p, q := PassRate(s.passedTests, s.failedTests), CodeQuality(Pastes(Taken(log)));
    RoundDivUnique(p + q, 2, p / 2 + RoundDiv(p % 2 + q, 2));
  }

  /** Six signals for each parity, whose rests have all remainders by six. */
  function Probe(parity: int, failed: nat, runs: nat): Signals {
    Signals(if parity == 0 then 0 else 3 * failed, failed, runs, 0, 0, 0)
  }

  /** What the other signals of a probe add, before its runs and failures. */
  function ProbeBase(parity: int): int { if parity == 0 then 203 else 278 }

  lemma ProbePasses(parity: int, failed: nat, runs: nat)
    requires parity in {0, 1} && 1 <= failed <= 3
    ensures var s := Probe(parity, failed, runs);
      PassRate(s.passedTests, s.failedTests) == if parity == 0 then 0 else 75
  {
    RoundDivUnique(0, failed, 0);
    RoundDivUnique(300 * failed, 4 * failed, 75);
  }

  lemma ProbeRest(parity: int, failed: nat, runs: nat)
    requires parity in {0, 1} && 1 <= failed <= 3 && runs <= 1
    ensures var s := Probe(parity, failed, runs);
      && PassRate(s.passedTests, s.failedTests) % 2 == parity
      && Rest(s) == ProbeBase(parity) + 3 * runs - 2 * failed
  {
    hide PassRate;
    ProbePasses(parity, failed, runs);
  }

  lemma SomeRemainder(sum: int) returns (failed: nat, runs: nat)
    ensures 1 <= failed <= 3 && runs <= 1 && (sum + 3 * runs - 2 * failed) % 6 == 2
  {
    var r := sum % 6;
    failed := if r == 4 || r == 1 then 1 else if r == 0 || r == 3 then 2 else 3;
    runs := if r % 2 == 0 then 0 else 1;
  }

  lemma RoundsHigher(sum: int, more: int)
    requires sum % 6 == 2 && sum < more
    ensures RoundDiv(sum, 6) < RoundDiv(more, 6)
  {
    RoundDivUnique(sum, 6, sum / 6);
  }

  /** A larger share is a higher score for some signals. */
  lemma SomeReportRises(now: seq<D.EventType>, before: seq<D.EventType>, parity: int) returns (s: Signals)
    requires parity in {0, 1} && Share(Taken(before), parity) < Share(Taken(now), parity)
    ensures Overall(s, before) < Overall(s, now)
  {
    hide Share, Rest, PassRate, Overall, Taken, Probe;
    var failed, runs := SomeRemainder(ProbeBase(parity) + Share(Taken(before), parity));
    s := Probe(parity, failed, runs);
    ProbeRest(parity, failed, runs);
    OverallIs(s, before);
    OverallIs(s, now);
    RoundsHigher(Rest(s) + Share(Taken(before), parity), Rest(s) + Share(Taken(now), parity));
  }

  /** Further events raise no report, whatever the other signals, exactly if the events
      then taken add no more than those taken before. */
  lemma NeverRaisedExactlyIf(later: seq<D.EventType>, log: seq<D.EventType>)
    ensures (forall s :: Overall(s, later + log) <= Overall(s, log)) <==> AddsNoMore(Taken(later + log), Taken(log))
  {
    hide Share, Rest, PassRate, Overall, Taken;
    if AddsNoMore(Taken(later + log), Taken(log)) {
      forall s
        ensures Overall(s, later + log) <= Overall(s, log)
      {
        OverallIs(s, log);
        OverallIs(s, later + log);
      }
    } else {
      var parity := if Share(Taken(log), 0) < Share(Taken(later + log), 0) then 0 else 1;
      var s := SomeReportRises(later + log, log, parity);
    }
  }

  /** In particular if what is pushed out weighs no more and holds no more pastes than
      what comes in. */
  lemma NeverRaisedIfNoLighter(later: seq<D.EventType>, log: seq<D.EventType>, s: Signals)
    requires RiskScore(PushedOut(later, log)) <= RiskScore(Taken(later))
    requires Pastes(PushedOut(later, log)) <= Pastes(Taken(later))
    ensures Overall(s, later + log) <= Overall(s, log)
  {
    WindowMoves(later, log);
    OverallIsMonotone(DatabaseSignals(s, later + log), DatabaseSignals(s, log));
  }

  /** For one event: nothing is pushed out, or what is weighs no more, and is no paste
      unless the new event is one. */
  lemma OneEventNeverRaises(e: D.EventType, log: seq<D.EventType>, s: Signals)
    requires |log| >= 50 ==>
               var oldest := log[49];
               Weight(oldest) <= Weight(e) && (oldest == D.PASTE ==> e == D.PASTE)
    ensures Overall(s, [e] + log) <= Overall(s, log)
  {
    OneEventPushesOut(e, log);
    if |log| >= MAX_EVENTS {
      OneEventPushesOut(log[MAX_EVENTS - 1], log);
    }
    NeverRaisedIfNoLighter([e], log, s);
  }

  // ------------------------------------------------------------------------
  // A log whose report rises
  // ------------------------------------------------------------------------

  function Repeated(kind: D.EventType, n: nat): (log: seq<D.EventType>)
    ensures |log| == n
  {
    if n == 0 then [] else [kind] + Repeated(kind, n - 1)
  }

  lemma {:induction false} RepeatedWeighs(kind: D.EventType, n: nat)
    ensures RiskScore(Repeated(kind, n)) == n * Weight(kind)
    ensures Pastes(Repeated(kind, n)) == if kind == D.PASTE then n else 0
  {
    if n > 0 {
      hide Weight, RiskScore;
      RepeatedWeighs(kind, n - 1);
      RiskOfFirst(Repeated(kind, n));
      assert n * Weight(kind) == (n - 1) * Weight(kind) + Weight(kind);
    }
  }

  /** Fifty pastes and then fifty returns to the window: the pastes are forgotten, the
      risk falls from 400 to 50 and the report rises from 69 to 86. */
  lemma TheReportCanRise(n: nat, s: Signals)
    requires n == MAX_EVENTS && s == Signals(1, 0, 10, 0, 0, 0)
    ensures var log, later := Repeated(D.PASTE, n), Repeated(D.WINDOW_FOCUS, n);
      && RiskScore(Taken(log)) == 400 && RiskScore(Taken(later + log)) == 50
      && Overall(s, log) == 69 && Overall(s, later + log) == 86
  {
    var log, later := Repeated(D.PASTE, n), Repeated(D.WINDOW_FOCUS, n);
    RepeatedWeighs(D.PASTE, n);
    RepeatedWeighs(D.WINDOW_FOCUS, n);
    assert Taken(later + log) == later;
    assert PassRate(1, 0) == 100;
  }
}
