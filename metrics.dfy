/** The daily record of the testing process and the indicators `registrar_dia`
    derives from the day's counts. Percentages are exact reals. */
module TestMetrics {

  /** The counts a day is registered with (the `metricas` dictionary). */
  datatype DailyCounts = DailyCounts(
    planned: int, executed: int, passed: int, failed: int, blocked: int,
    newDefects: int, openDefects: int, resolvedDefects: int,
    critical: int, high: int, medium: int, low: int)

  /** `MetricasDia`: the day number and date, the counts and the eight indicators. The date is
      a day number (days since an epoch) rather than its `%Y-%m-%d` rendering. */
  datatype DayMetrics = DayMetrics(
    day: int, date: int, counts: DailyCounts,
    coverage: real, successRate: real, defectDensity: real, effectiveness: real,
    resolutionRate: real, backlog: int, velocity: real, qualityIndex: real)

  /** Indicator 1: executed cases as a percentage of planned ones; 0 when nothing was planned. */
  function Coverage(c: DailyCounts): (r: real)
    ensures c.planned == 0 ==> r == 0.0
    ensures c.planned != 0 ==> r * c.planned as real == c.executed as real * 100.0
    ensures 0 <= c.executed <= c.planned ==> 0.0 <= r <= 100.0
  {
    if c.planned == 0 then 0.0 else Percent(c.executed, c.planned)
  }

  /** Indicator 2: passed cases as a percentage of executed ones; 0 when nothing was executed. */
  function SuccessRate(c: DailyCounts): (r: real)
    ensures c.executed == 0 ==> r == 0.0
    ensures c.executed != 0 ==> r * c.executed as real == c.passed as real * 100.0
    ensures 0 <= c.passed <= c.executed ==> 0.0 <= r <= 100.0
  {
    if c.executed == 0 then 0.0 else Percent(c.passed, c.executed)
  }

  /** All defects of the day, by severity. */
  function TotalDefects(c: DailyCounts): int {
    c.critical + c.high + c.medium + c.low
  }

  /** Indicator 3: defects per hundred executed cases; 0 when nothing was executed. */
  function DefectDensity(c: DailyCounts): (r: real)
    ensures c.executed == 0 ==> r == 0.0
    ensures c.executed != 0 ==> r * c.executed as real == TotalDefects(c) as real * 100.0
    ensures 0 < c.executed && 0 <= TotalDefects(c) ==> 0.0 <= r
  {
    if c.executed == 0 then 0.0 else Percent(TotalDefects(c), c.executed)
  }

  /** Indicator 4: the simulation assumes 5% of defects escape, so any day with new defects
      scores 95 and a day without scores 100. */
  function Effectiveness(c: DailyCounts): (r: real)
    ensures r == if c.newDefects == 0 then 100.0 else 95.0
  {
    if c.newDefects == 0 then 100.0
    else
      var found := c.newDefects as real;
      var potential := found / 0.95;
      assert potential * 0.95 == found;
      (found / potential) * 100.0
  }

  /** Indicator 5: resolved defects as a percentage of open ones; 100 when none is open. */
  function ResolutionRate(c: DailyCounts): (r: real)
    ensures c.openDefects == 0 ==> r == 100.0
    ensures c.openDefects != 0 ==> r * c.openDefects as real == c.resolvedDefects as real * 100.0
    ensures 0 <= c.resolvedDefects <= c.openDefects ==> 0.0 <= r <= 100.0
  {
    if c.openDefects == 0 then 100.0 else Percent(c.resolvedDefects, c.openDefects)
  }

  /** Indicator 6: the defects still waiting for a fix. */
  function Backlog(c: DailyCounts): (r: int)
    ensures r + c.resolvedDefects == c.openDefects
  {
    c.openDefects - c.resolvedDefects
  }

  /** Indicator 8: 40% success rate, 30% inverted density (floored at 0), 30% coverage. */
  function QualityIndex(successRate: real, density: real, coverage: real): (r: real)
    ensures 0.0 <= successRate <= 100.0 && 0.0 <= density && 0.0 <= coverage <= 100.0 ==> 0.0 <= r <= 100.0
  {
    var invertedDensity := if 100.0 - density > 0.0 then 100.0 - density else 0.0;
    successRate * 0.4 + invertedDensity * 0.3 + coverage * 0.3
  }

  /** `part / whole * 100`. */
  function Percent(part: int, whole: int): (r: real)
    requires whole != 0
    ensures r * whole as real == part as real * 100.0
    ensures 0 <= part <= whole ==> 0.0 <= r <= 100.0
    ensures 0 <= part && 0 < whole ==> 0.0 <= r
  {
    var q := part as real / whole as real;
    assert q * whole as real == part as real;
    q * 100.0
  }

  /** The record `registrar_dia` builds for day number `day`, indicators in the source's order. */
  function Measure(day: int, date: int, c: DailyCounts): (m: DayMetrics)
    ensures m.day == day && m.date == date && m.counts == c
    ensures m.coverage == Coverage(c) && m.successRate == SuccessRate(c)
    ensures m.defectDensity == DefectDensity(c) && m.resolutionRate == ResolutionRate(c)
    ensures m.backlog == Backlog(c) && m.velocity == c.executed as real
    ensures m.effectiveness == Effectiveness(c)
    ensures m.qualityIndex == QualityIndex(m.successRate, m.defectDensity, m.coverage)
    ensures 0 <= c.passed <= c.executed <= c.planned && 0 <= TotalDefects(c) ==> 0.0 <= m.qualityIndex <= 100.0
  {
    var coverage := Coverage(c);
    var successRate := SuccessRate(c);
    var density := DefectDensity(c);
    DayMetrics(day, date, c, coverage, successRate, density, Effectiveness(c), ResolutionRate(c),
               Backlog(c), c.executed as real, QualityIndex(successRate, density, coverage))
  }

  /** Days are numbered 1, 2, 3, ... in the order they were registered. */
  ghost predicate DaysNumbered(h: seq<DayMetrics>) {
    forall i :: 0 <= i < |h| ==> h[i].day == i + 1
  }
}
