/** `criterios_salida`: whether testing may stop, judged on the last registered day, the
    trend of open defects and the last two days, with every unmet criterion reported. */
module ExitCriteria {
  import opened TestMetrics
  import opened Trend

  /** The configured thresholds (`criterios_salida_config`). */
  const MinCoverage: real := 85.0
  const MinSuccessRate: real := 90.0
  const MaxCriticalDefects: int := 0
  const MaxHighDefects: int := 2
  const MaxDefectDensity: real := 15.0
  const StableDaysRequired: int := 2
  /** The window `detectar_tendencia` uses when called without one. */
  const DefaultWindow: int := 3

  /** One unmet criterion, carrying the figures its message reports. */
  datatype Reason =
    | NoHistory
    | LowCoverage(coverage: real)
    | LowSuccessRate(successRate: real)
    | CriticalDefectsOpen(critical: int)
    | TooManyHighDefects(high: int)
    | HighDefectDensity(density: real)
    | RisingDefectTrend
    | CriticalDefectsInLastDays(days: int)
    | NeedsMoreDays(days: int)

  function When(condition: bool, reason: Reason): (rs: seq<Reason>)
    ensures rs == [] <==> !condition
    ensures |rs| <= 1 && forall x :: x in rs ==> x == reason
  {
    if condition then [reason] else []
  }

  predicate NoCriticalDefects(w: seq<DayMetrics>) {
    forall i :: 0 <= i < |w| ==> w[i].counts.critical == 0
  }

  /** The five thresholds on the last registered day, in the order they are checked. */
  function ThresholdReasons(last: DayMetrics): (rs: seq<Reason>)
    ensures |rs| <= 5 && NoHistory !in rs
  {
    When(last.coverage < MinCoverage, LowCoverage(last.coverage))
    + When(last.successRate < MinSuccessRate, LowSuccessRate(last.successRate))
    + When(last.counts.critical > MaxCriticalDefects, CriticalDefectsOpen(last.counts.critical))
    + When(last.counts.high > MaxHighDefects, TooManyHighDefects(last.counts.high))
    + When(last.defectDensity > MaxDefectDensity, HighDefectDensity(last.defectDensity))
  }

  /** The open-defect trend over the last three days, judged only from the third day on, and the
      stability of the last two days (or the lack of a second day). */
  function HistoryReasons(h: seq<DayMetrics>): (rs: seq<Reason>)
    ensures |rs| <= 2 && NoHistory !in rs
  {
    When(|h| >= 3 && DetectTrend(h, OpenDefects, DefaultWindow) == Ascending, RisingDefectTrend)
    + (if |h| >= StableDaysRequired
       then When(!NoCriticalDefects(LastDays(h, StableDaysRequired)), CriticalDefectsInLastDays(StableDaysRequired))
       else [NeedsMoreDays(StableDaysRequired)])
  }

  /** The reasons `criterios_salida` reports, in its order: the five thresholds on the last day,
      the open-defect trend over the last three days (only from the third day on), and the
      stability of the last two days (or the lack of a second day). */
  function ExitReasons(h: seq<DayMetrics>): (rs: seq<Reason>)
    ensures h == [] ==> rs == [NoHistory]
    ensures h != [] ==> NoHistory !in rs && |rs| <= 7
  {
    if h == [] then [NoHistory]
    else ThresholdReasons(h[|h| - 1]) + HistoryReasons(h)
  }

  /** The exit criteria stated directly: at least two days, the last one within every threshold,
      no critical defect on either of the last two days, and open defects not rising over the
      last three days once there are three. */
  ghost predicate ReadyToExit(h: seq<DayMetrics>) {
    && |h| >= 2
    && h[|h| - 1].coverage >= 85.0
    && h[|h| - 1].successRate >= 90.0
    && h[|h| - 1].counts.critical <= 0
    && h[|h| - 1].counts.high <= 2
    && h[|h| - 1].defectDensity <= 15.0
    && h[|h| - 2].counts.critical == 0 && h[|h| - 1].counts.critical == 0
    && (|h| >= 3 ==> DetectTrend(h, OpenDefects, 3) != Ascending)
  }

  /** The last day passes the five thresholds exactly when none of them gives a reason. */
  lemma NoThresholdReasonsIffMet(last: DayMetrics)
    ensures ThresholdReasons(last) == [] <==>
              && last.coverage >= 85.0 && last.successRate >= 90.0
              && last.counts.critical <= 0 && last.counts.high <= 2 && last.defectDensity <= 15.0
  {
  }

  /** Over a non-empty history, the trend and stability checks give no reason exactly when there
      are two days without critical defects at the end and, from the third day on, open defects
      are not ascending. */
  lemma NoHistoryReasonsIffStable(h: seq<DayMetrics>)
    requires h != []
    ensures HistoryReasons(h) == [] <==>
              && |h| >= 2
              && h[|h| - 2].counts.critical == 0 && h[|h| - 1].counts.critical == 0
              && (|h| >= 3 ==> DetectTrend(h, OpenDefects, 3) != Ascending)
  {
    if |h| >= 2 {
      var w := LastDays(h, StableDaysRequired);
      assert w == [h[|h| - 2], h[|h| - 1]];
      assert NoCriticalDefects(w) <==> h[|h| - 2].counts.critical == 0 && h[|h| - 1].counts.critical == 0 by {
        assert w[0] == h[|h| - 2] && w[1] == h[|h| - 1];
      }
    }
  }

  /** Testing may stop exactly when no reason is reported, and that is exactly when every
      criterion holds. */
  lemma NoReasonsIffReady(h: seq<DayMetrics>)
    ensures ExitReasons(h) == [] <==> ReadyToExit(h)
  {
    if h != [] {
      NoThresholdReasonsIffMet(h[|h| - 1]);
      NoHistoryReasonsIffStable(h);
    }
  }

  /** With fewer than two days testing can never stop, whatever the figures. */
  lemma ShortHistoryNeverExits(h: seq<DayMetrics>)
    requires |h| < 2
    ensures ExitReasons(h) != []
    ensures |h| == 1 ==> ExitReasons(h)[|ExitReasons(h)| - 1] == NeedsMoreDays(2)
  {
  }

  /** For a positive whole, a ratio reaches a threshold exactly when the part reaches the
      threshold times the whole. */
  lemma ScaleThreshold(ratio: real, whole: real, part: real, threshold: real)
    requires whole > 0.0 && ratio * whole == part
    ensures ratio >= threshold <==> part >= threshold * whole
  {
    assert part - threshold * whole == (ratio - threshold) * whole;
    if ratio >= threshold {
      assert (ratio - threshold) * whole >= 0.0;
    } else {
      assert (threshold - ratio) * whole > 0.0;
    }
  }

  /** A registered day passes the coverage threshold exactly when at least 85% of the planned
      cases ran, and never when nothing was planned. */
  lemma CoverageCriterionOnCounts(c: DailyCounts)
    ensures c.planned == 0 ==> Coverage(c) < MinCoverage
    ensures c.planned > 0 ==> (Coverage(c) >= MinCoverage <==> c.executed * 100 >= 85 * c.planned)
  {
    if c.planned > 0 {
      ScaleThreshold(Coverage(c), c.planned as real, c.executed as real * 100.0, 85.0);
    }
  }

  /** A registered day passes the success threshold exactly when at least 90% of the executed
      cases passed, and never when nothing was executed. */
  lemma SuccessCriterionOnCounts(c: DailyCounts)
    ensures c.executed == 0 ==> SuccessRate(c) < MinSuccessRate
    ensures c.executed > 0 ==> (SuccessRate(c) >= MinSuccessRate <==> c.passed * 10 >= 9 * c.executed)
  {
    if c.executed > 0 {
      ScaleThreshold(SuccessRate(c), c.executed as real, c.passed as real * 100.0, 90.0);
    }
  }

  /** The testing metrics store: the history of registered days. */
  class MetricsHistory {
    var history: seq<DayMetrics>

    /** Days carry their position in the history as their number. */
    ghost predicate Valid()
      reads this
    {
      DaysNumbered(history)
    }

    /** Starts from the history read back from storage (empty when there is none). */
    constructor(loaded: seq<DayMetrics>)
      ensures history == loaded
      ensures Valid() <==> DaysNumbered(loaded)
    {
      history := loaded;
    }

    /** `registrar_dia`: the day gets the next number and the date that many days after today,
        its indicators are computed, and it is appended to the history. */
    method RegisterDay(counts: DailyCounts, today: int) returns (m: DayMetrics)
      modifies this
      ensures m == Measure(|old(history)| + 1, today + |old(history)|, counts)
      ensures history == old(history) + [m]
      ensures old(Valid()) ==> Valid()
    {
      var day := |history| + 1;
      var date := today + day - 1;
      m := Measure(day, date, counts);
      history := history + [m];
    }

    /** `criterios_salida`, checking the criteria one after another. */
    method EvaluateExit() returns (ok: bool, reasons: seq<Reason>)
      ensures reasons == ExitReasons(history)
      ensures ok <==> reasons == []
    {
      if history == [] {
        return false, [NoHistory];
      }
      var last := history[|history| - 1];
      var thresholds := When(last.coverage < MinCoverage, LowCoverage(last.coverage));
      thresholds := thresholds + When(last.successRate < MinSuccessRate, LowSuccessRate(last.successRate));
      thresholds := thresholds + When(last.counts.critical > MaxCriticalDefects, CriticalDefectsOpen(last.counts.critical));
      thresholds := thresholds + When(last.counts.high > MaxHighDefects, TooManyHighDefects(last.counts.high));
      thresholds := thresholds + When(last.defectDensity > MaxDefectDensity, HighDefectDensity(last.defectDensity));
      assert thresholds == ThresholdReasons(last);
      var rising := false;
      if |history| >= 3 {
        var trend := DetectTrend(history, OpenDefects, DefaultWindow);
        rising := trend == Ascending;
      }
      var later := When(rising, RisingDefectTrend);
      if |history| >= StableDaysRequired {
        var lastDays := LastDays(history, StableDaysRequired);
        later := later + When(!NoCriticalDefects(lastDays), CriticalDefectsInLastDays(StableDaysRequired));
      } else {
        later := later + [NeedsMoreDays(StableDaysRequired)];
      }
      assert later == HistoryReasons(history);
      reasons := thresholds + later;
      ok := |reasons| == 0;
    }
  }
}
