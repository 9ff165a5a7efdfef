/** Rounding and the score of a submission. */
module Scoring {
  /** `Math.round(n / d)` on exact rationals: the nearest integer, halves upward. */
  function RoundDiv(n: int, d: int): (r: int)
    requires d > 0
    ensures 2 * n - d < 2 * d * r <= 2 * n + d
  {
    (2 * n + d) / (2 * d)
  }

  /** The bound in `RoundDiv`'s contract leaves one integer. */
  lemma RoundDivUnique(n: int, d: int, r: int)
    requires d > 0 && 2 * n - d < 2 * d * r <= 2 * n + d
    ensures r == RoundDiv(n, d)
  {
    var q := RoundDiv(n, d);
    if r < q {
      assert d * (q - r) >= d by { MulAtLeast(d, q - r); }
    } else if q < r {
      assert d * (r - q) >= d by { MulAtLeast(d, r - q); }
    }
  }

  lemma MulAtLeast(d: int, k: int)
    requires d > 0 && k >= 1
    ensures d * k >= d
  {
  }

  /** Rounding keeps the order of fractions. */
  lemma RoundDivMonotone(n: int, d: int, n': int, d': int)
    requires d > 0 && d' > 0 && n * d' <= n' * d
    ensures RoundDiv(n, d) <= RoundDiv(n', d')
  {
    var r, r' := RoundDiv(n, d), RoundDiv(n', d');
    assert 2 * d' * (r' + 1) == 2 * d' * r' + 2 * d';
    ScaleUpper(n, d, r, d');
    ScaleLower(n', d', r', d);
    assert d' * d == d * d';
    MulCancel(d * d', r, r' + 1);
  }

  lemma ScaleUpper(n: int, d: int, r: int, k: int)
    requires k > 0 && 2 * d * r <= 2 * n + d
    ensures 2 * ((d * k) * r) <= 2 * (n * k) + d * k
  {
    MulMonotone(k, 2 * d * r, 2 * n + d);
    assert k * (2 * d * r) == 2 * ((d * k) * r);
    assert k * (2 * n + d) == 2 * (n * k) + d * k;
  }

  lemma ScaleLower(n: int, d: int, r: int, k: int)
    requires k > 0 && 2 * n + d < 2 * d * (r + 1)
    ensures 2 * (n * k) + d * k < 2 * ((d * k) * (r + 1))
  {
    MulMonotone(k, 2 * n + d + 1, 2 * d * (r + 1));
    assert k * (2 * n + d + 1) == 2 * (n * k) + d * k + k;
    assert k * (2 * d * (r + 1)) == 2 * ((d * k) * (r + 1));
  }

  lemma MulCancel(d: int, a: int, b: int)
    requires d > 0 && d * a < d * b
    ensures a < b
  {
  }

  lemma MulMonotone(d: int, a: int, b: int)
    requires d > 0 && a <= b
    ensures d * a <= d * b
  {
  }

  datatype RunStatus = SUCCESS | FAILED

  /** `calculateSubmissionScore`. */
  function SubmissionScore(passedTests: int, totalTests: int, status: RunStatus): int {
    if totalTests > 0 then RoundDiv(100 * passedTests, totalTests)
    else if status == SUCCESS then 100 else 0
  }

  lemma ScoreInRange(passed: nat, total: nat, status: RunStatus)
    requires passed <= total
    ensures 0 <= SubmissionScore(passed, total, status) <= 100
  {
    if total > 0 {
      RoundDivMonotone(0, 1, 100 * passed, total);
      RoundDivMonotone(100 * passed, total, 100, 1);
    }
  }

  lemma ScoreMonotoneInPassed(passed: nat, more: nat, total: nat, status: RunStatus)
    requires passed <= more <= total
    ensures SubmissionScore(passed, total, status) <= SubmissionScore(more, total, status)
  {
    if total > 0 {
      MulMonotone(total, 100 * passed, 100 * more);
      RoundDivMonotone(100 * passed, total, 100 * more, total);
    }
  }

  /** Despite rounding: full marks exactly when at most one test in two hundred
      fails, none exactly when fewer than one in two hundred passes. */
  lemma ScoreExtremes(passed: nat, total: nat, status: RunStatus)
    requires passed <= total && total > 0
    ensures SubmissionScore(passed, total, status) == 100 <==> 200 * (total - passed) <= total
    ensures SubmissionScore(passed, total, status) == 0 <==> 200 * passed < total
  {
    ScoreInRange(passed, total, status);
    var r := SubmissionScore(passed, total, status);
    if 200 * (total - passed) <= total {
      RoundDivUnique(100 * passed, total, 100);
    }
    if 200 * passed < total {
      RoundDivUnique(100 * passed, total, 0);
    }
  }
}
