/** `detectar_tendencia`: the direction of one metric over the last days of the history. */
module Trend {
  import opened TestMetrics

  /** The numeric attributes of a day that a trend can be asked about. */
  datatype Metric =
    | Day | Planned | Executed | Passed | Failed | Blocked
    | NewDefects | OpenDefects | ResolvedDefects | Critical | High | Medium | Low
    | CoverageRate | SuccessRatio | DensityOfDefects | EffectivenessRate | ResolutionRatio
    | BacklogSize | Velocity | QualityScore

  /** `getattr(m, metrica)`. */
  function ValueOf(m: DayMetrics, k: Metric): real {
    match k
    case Day => m.day as real
    case Planned => m.counts.planned as real
    case Executed => m.counts.executed as real
    case Passed => m.counts.passed as real
    case Failed => m.counts.failed as real
    case Blocked => m.counts.blocked as real
    case NewDefects => m.counts.newDefects as real
    case OpenDefects => m.counts.openDefects as real
    case ResolvedDefects => m.counts.resolvedDefects as real
    case Critical => m.counts.critical as real
    case High => m.counts.high as real
    case Medium => m.counts.medium as real
    case Low => m.counts.low as real
    case CoverageRate => m.coverage
    case SuccessRatio => m.successRate
    case DensityOfDefects => m.defectDensity
    case EffectivenessRate => m.effectiveness
    case ResolutionRatio => m.resolutionRate
    case BacklogSize => m.backlog as real
    case Velocity => m.velocity
    case QualityScore => m.qualityIndex
  }

  datatype Direction = Ascending | Descending | Stable | InsufficientData

  /** Python's `h[-n:]`: the last `n` days for positive `n`, the whole history for `n == 0`,
      and the history without its first `-n` days for negative `n`. */
  function LastDays(h: seq<DayMetrics>, n: int): (w: seq<DayMetrics>)
    ensures n > 0 ==> |w| == (if n < |h| then n else |h|)
    ensures n == 0 ==> w == h
    ensures n < 0 ==> |w| == (if -n < |h| then |h| + n else 0)
    ensures w == h[|h| - |w|..]
  {
    var from := if n > 0 then (if n < |h| then |h| - n else 0)
                else if -n < |h| then -n else |h|;
    h[from..]
  }

  function Values(w: seq<DayMetrics>, k: Metric): (vs: seq<real>)
    ensures |vs| == |w| && forall i {:trigger vs[i]} :: 0 <= i < |w| ==> vs[i] == ValueOf(w[i], k)
  {
    if w == [] then [] else [ValueOf(w[0], k)] + Values(w[1..], k)
  }

  /** `[valores[i+1] - valores[i] for i in range(len(valores)-1)]`. */
  function Diffs(vs: seq<real>): (ds: seq<real>)
    ensures |ds| == if |vs| >= 1 then |vs| - 1 else 0
    ensures forall i {:trigger ds[i]} :: 0 <= i < |ds| ==> ds[i] == vs[i + 1] - vs[i]
  {
    if |vs| < 2 then [] else [vs[1] - vs[0]] + Diffs(vs[1..])
  }

  function Sum(ds: seq<real>): real {
    if ds == [] then 0.0 else ds[0] + Sum(ds[1..])
  }

  predicate AllPositive(ds: seq<real>) {
    forall i :: 0 <= i < |ds| ==> ds[i] > 0.0
  }

  predicate AllNegative(ds: seq<real>) {
    forall i :: 0 <= i < |ds| ==> ds[i] < 0.0
  }

  function Abs(x: real): real {
    if x < 0.0 then -x else x
  }

  /** The verdict on the mean step when the steps are mixed: within 0.5 of zero is stable. */
  function ByMean(mean: real): (d: Direction)
    ensures d == Stable <==> -0.5 < mean < 0.5
    ensures d == Ascending <==> mean >= 0.5
    ensures d == Descending <==> mean <= -0.5
  {
    if Abs(mean) < 0.5 then Stable
    else if mean > 0.0 then Ascending
    else Descending
  }

  /** The verdict on the steps of a window: all rising or all falling, otherwise by the mean step. */
  function ClassifySteps(ds: seq<real>): Direction
    requires |ds| >= 1
  {
    if AllPositive(ds) then Ascending
    else if AllNegative(ds) then Descending
    else ByMean(Mean(Sum(ds), |ds|))
  }

  /** The classification of a window of at least two values, by its consecutive differences. */
  function Classify(vs: seq<real>): Direction
    requires |vs| >= 2
  {
    ClassifySteps(Diffs(vs))
  }

  /** `sum(diferencias) / len(diferencias)`. */
  function Mean(total: real, count: nat): (m: real)
    requires count > 0
    ensures m * count as real == total
  {
    total / count as real
  }

  /** `detectar_tendencia(metrica, ventana)`. */
  function DetectTrend(h: seq<DayMetrics>, k: Metric, window: int): (t: Direction)
    ensures |h| < 2 ==> t == InsufficientData
    ensures t == InsufficientData <==> |h| < 2 || |LastDays(h, window)| < 2
    ensures |h| >= 2 && (window >= 2 || window == 0) ==> t != InsufficientData
  {
    if |h| < 2 then InsufficientData
    else
      var vs := Values(LastDays(h, window), k);
      if |vs| < 2 then InsufficientData else Classify(vs)
  }

  /** The steps of a window add up to its last value minus its first. */
  lemma {:induction false} SumOfDiffs(vs: seq<real>)
    requires |vs| >= 1
    ensures Sum(Diffs(vs)) == vs[|vs| - 1] - vs[0]
  {
    if |vs| >= 2 {
      SumOfDiffs(vs[1..]);
    }
  }

  /** When the steps are mixed, only the first and the last value of the window matter. */
  lemma MixedTrendFromEndpoints(vs: seq<real>)
    requires |vs| >= 2
    requires !AllPositive(Diffs(vs)) && !AllNegative(Diffs(vs))
    ensures Classify(vs) == ByMean(Mean(vs[|vs| - 1] - vs[0], |vs| - 1))
  {
    SumOfDiffs(vs);
  }

  /** Strictly rising windows are ascending and strictly falling ones descending. */
  lemma MonotoneWindows(vs: seq<real>)
    requires |vs| >= 2
    ensures (forall i :: 0 <= i < |vs| - 1 ==> vs[i] < vs[i + 1]) ==> Classify(vs) == Ascending
    ensures (forall i :: 0 <= i < |vs| - 1 ==> vs[i] > vs[i + 1]) ==> Classify(vs) == Descending
  {
    var ds := Diffs(vs);
    if forall i :: 0 <= i < |vs| - 1 ==> vs[i] < vs[i + 1] {
      assert AllPositive(ds) by {
        forall i | 0 <= i < |ds| ensures ds[i] > 0.0 {
          assert vs[i] < vs[i + 1];
        }
      }
    }
    if forall i :: 0 <= i < |vs| - 1 ==> vs[i] > vs[i + 1] {
      assert ds[0] < 0.0;
      assert AllNegative(ds) by {
        forall i | 0 <= i < |ds| ensures ds[i] < 0.0 {
          assert vs[i] > vs[i + 1];
        }
      }
    }
  }

  /** A flat window is stable. */
  lemma FlatWindowIsStable(vs: seq<real>)
    requires |vs| >= 2
    requires forall i :: 0 <= i < |vs| ==> vs[i] == vs[0]
    ensures Classify(vs) == Stable
  {
    SumOfDiffs(vs);
    assert Diffs(vs)[0] == 0.0;
  }

  function Negated(vs: seq<real>): (ns: seq<real>)
    ensures |ns| == |vs| && forall i {:trigger ns[i]} :: 0 <= i < |vs| ==> ns[i] == -vs[i]
  {
    if vs == [] then [] else [-vs[0]] + Negated(vs[1..])
  }

  function Flip(d: Direction): Direction {
    match d
    case Ascending => Descending
    case Descending => Ascending
    case other => other
  }

  lemma DiffsNegated(vs: seq<real>)
    ensures Diffs(Negated(vs)) == Negated(Diffs(vs))
  {
    var a, b := Diffs(Negated(vs)), Negated(Diffs(vs));
    assert |a| == |b|;
    forall i | 0 <= i < |a| ensures a[i] == b[i] { }
  }

  lemma {:induction false} SumNegated(ds: seq<real>)
    ensures Sum(Negated(ds)) == -Sum(ds)
  {
    if ds != [] {
      SumNegated(ds[1..]);
      assert Negated(ds)[1..] == Negated(ds[1..]);
    }
  }

  lemma SignsNegated(ds: seq<real>)
    ensures AllPositive(Negated(ds)) <==> AllNegative(ds)
    ensures AllNegative(Negated(ds)) <==> AllPositive(ds)
  {
    var ns := Negated(ds);
    if AllNegative(ds) {
      forall i | 0 <= i < |ns| ensures ns[i] > 0.0 { assert ds[i] < 0.0; }
    }
    if AllPositive(ns) {
      forall i | 0 <= i < |ds| ensures ds[i] < 0.0 { assert ns[i] > 0.0; }
    }
    if AllPositive(ds) {
      forall i | 0 <= i < |ns| ensures ns[i] < 0.0 { assert ds[i] > 0.0; }
    }
    if AllNegative(ns) {
      forall i | 0 <= i < |ds| ensures ds[i] > 0.0 { assert ns[i] < 0.0; }
    }
  }

  lemma MeanNegated(total: real, count: nat)
    requires count > 0
    ensures Mean(-total, count) == -Mean(total, count)
  {
  }

  lemma ByMeanNegated(m: real)
    ensures ByMean(-m) == Flip(ByMean(m))
  {
  }

  /** Steps whose total is the negation of another's, as many of them, get the flipped verdict
      on their mean. */
  lemma MirrorMean(ds: seq<real>, ns: seq<real>)
    requires |ds| >= 1 && |ns| == |ds| && Sum(ns) == -Sum(ds)
    ensures ByMean(Mean(Sum(ns), |ns|)) == Flip(ByMean(Mean(Sum(ds), |ds|)))
  {
    MeanNegated(Sum(ds), |ds|);
    ByMeanNegated(Mean(Sum(ds), |ds|));
  }

  /** Negating steps that all rise gives steps that all fall. */
  lemma RisingStepsNegated(ds: seq<real>)
    requires |ds| >= 1 && AllPositive(ds)
    ensures ClassifySteps(ds) == Ascending
    ensures ClassifySteps(Negated(ds)) == Descending
  {
    var ns := Negated(ds);
    SignsNegated(ds);
    assert ns[0] < 0.0;
  }

  /** Negating steps that all fall gives steps that all rise. */
  lemma FallingStepsNegated(ds: seq<real>)
    requires |ds| >= 1 && AllNegative(ds)
    ensures ClassifySteps(ds) == Descending
    ensures ClassifySteps(Negated(ds)) == Ascending
  {
    SignsNegated(ds);
    assert ds[0] < 0.0;
  }

  /** Mixed steps are classified by their mean. */
  lemma MixedSteps(ds: seq<real>)
    requires |ds| >= 1 && !AllPositive(ds) && !AllNegative(ds)
    ensures ClassifySteps(ds) == ByMean(Mean(Sum(ds), |ds|))
  {
  }

  /** Negating mixed steps keeps them mixed. */
  lemma MixedStaysMixed(ds: seq<real>)
    requires !AllPositive(ds) && !AllNegative(ds)
    ensures !AllPositive(Negated(ds)) && !AllNegative(Negated(ds))
  {
    SignsNegated(ds);
  }

  /** Negating mixed steps negates their total and so flips the verdict on their mean. */
  lemma MixedStepsNegated(ds: seq<real>)
    requires |ds| >= 1 && !AllPositive(ds) && !AllNegative(ds)
    ensures ClassifySteps(Negated(ds)) == Flip(ClassifySteps(ds))
  {
    var ns := Negated(ds);
    MixedSteps(ds);
    MixedStaysMixed(ds);
    MixedSteps(ns);
    SumNegated(ds);
    MirrorMean(ds, ns);
  }

  /** Negating every step swaps ascending and descending and keeps stable. */
  lemma StepsNegated(ds: seq<real>)
    requires |ds| >= 1
    ensures ClassifySteps(Negated(ds)) == Flip(ClassifySteps(ds))
  {
    if AllPositive(ds) {
      RisingStepsNegated(ds);
    } else if AllNegative(ds) {
      FallingStepsNegated(ds);
    } else {
      MixedStepsNegated(ds);
    }
  }

  /** Mirroring the values mirrors the verdict: the classifier treats rises and falls alike. */
  lemma ClassifyNegated(vs: seq<real>)
    requires |vs| >= 2
    ensures Classify(Negated(vs)) == Flip(Classify(vs))
  {
    DiffsNegated(vs);
    StepsNegated(Diffs(vs));
  }
}
