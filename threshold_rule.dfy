/** The derived-threshold rule of recomputeThreshold and the drop-% clamp (public/main.js). */
module ThresholdRule {
  import opened JsMath
  import opened Profiles

  /** The threshold recomputeThreshold derives: round(baseline × (1 − dropPct/100)) while
      the baseline is finite, the configuration's default otherwise. The drop percentage is
      always finite in the dashboard, so the source's second finiteness test never fails. */
  function ThresholdFor(c: Config, baseline: Number, dropPct: real): (t: real)
    ensures baseline.Finite? ==> t == t.Floor as real
    ensures baseline.Finite? ==> Lowered(baseline.value, dropPct) - 0.5 < t <= Lowered(baseline.value, dropPct) + 0.5
    ensures !baseline.Finite? ==> t == c.defaultThreshold
  {
    if baseline.Finite? then Round(Lowered(baseline.value, dropPct)) as real else c.defaultThreshold
  }

  /** The baseline lowered by the allowed drop, before rounding. */
  function Lowered(b: real, dropPct: real): real
  {
    b * (1.0 - dropPct / 100.0)
  }

  /** The drop-% input handler's clamp, `Math.max(0, Math.min(100, n))`. */
  function ClampPercent(n: real): (p: real)
    ensures 0.0 <= p <= 100.0
    ensures 0.0 <= n <= 100.0 ==> p == n
    ensures n > 100.0 ==> p == 100.0
    ensures n < 0.0 ==> p == 0.0
  {
    Clamp(n, 0.0, 100.0)
  }

  /** Out-of-range drops are clamped, never rejected: 150 becomes 100 and -5 becomes 0. */
  lemma ClampPercentExamples()
    ensures ClampPercent(150.0) == 100.0 && ClampPercent(-5.0) == 0.0 && ClampPercent(15.0) == 15.0
  {
  }

  /** With a non-negative baseline and a drop inside [0, 100], the threshold lies between
      zero and the rounded baseline. */
  lemma {:induction false} ThresholdWithinBaseline(c: Config, b: real, d: real)
    requires b >= 0.0 && 0.0 <= d <= 100.0
    ensures 0.0 <= ThresholdFor(c, Finite(b), d) <= Round(b) as real
  {
    var f := 1.0 - d / 100.0;
    assert 0.0 <= f <= 1.0;
    assert 0.0 <= Lowered(b, d) <= b by {
      assert Lowered(b, d) == b * f;
      assert b * f <= b * 1.0;
    }
    RoundMonotone(0.0, Lowered(b, d));
    RoundMonotone(Lowered(b, d), b);
  }

  /** Allowing a larger drop never raises the threshold. */
  lemma {:induction false} ThresholdAntitoneInDrop(c: Config, b: real, d1: real, d2: real)
    requires b >= 0.0 && d1 <= d2
    ensures ThresholdFor(c, Finite(b), d2) <= ThresholdFor(c, Finite(b), d1)
  {
    assert Lowered(b, d2) <= Lowered(b, d1) by {
      assert Lowered(b, d1) - Lowered(b, d2) == b * ((d2 - d1) / 100.0);
    }
    RoundMonotone(Lowered(b, d2), Lowered(b, d1));
  }

  /** No drop keeps the rounded baseline; a full drop gives zero. */
  lemma DropExtremes(c: Config, b: real)
    ensures ThresholdFor(c, Finite(b), 0.0) == Round(b) as real
    ensures ThresholdFor(c, Finite(b), 100.0) == 0.0
  {
  }

  /** The worked scenario: the "current" profile, baseline 420 mA and a 10 % drop give 378 mA. */
  lemma CurrentScenarioThreshold()
    ensures ThresholdFor(CfgFor("current").value, Finite(420.0), 10.0) == 378.0
  {
    assert Lowered(420.0, 10.0) == 378.0;
  }
}
