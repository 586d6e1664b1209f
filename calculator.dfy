/**
 * The whole calculation of the pricing page over its fixed 36-month horizon:
 * three scenarios (a static rate, and two stepped schedules whose periods are
 * padded up to the horizon), the table of monthly columns, the net revenue,
 * the cumulative series and the summary totals of each scenario.
 */
module Calculator {
  import opened Results
  import opened Schedule
  import opened Revenue

  /** The projection horizon in months. */
  const Months: nat := 36

  /** Why a projection fails: the generator's index error, or columns of unequal length in the table. */
  datatype Error = ScheduleFailed(cause: ScheduleError) | ColumnLengthMismatch

  /** The monthly table: one row per month, one column per input series. */
  datatype Frame = Frame(month: seq<int>, gross: seq<real>, staticRate: seq<real>, steppedRate: seq<real>, steppedRate2: seq<real>)
  {
    /** Every column has one entry per month and the Month column counts 1..months. */
    predicate Valid(months: nat)
    {
      month == MonthColumn(months) &&
      |gross| == months && |staticRate| == months && |steppedRate| == months && |steppedRate2| == months
    }
  }

  /**
   * Building the table from its columns: it builds exactly when every column
   * is `months` long, and then holds those columns next to the Month column.
   */
  function MakeFrame(months: nat, gross: seq<real>, staticRate: seq<real>, steppedRate: seq<real>, steppedRate2: seq<real>): (r: Result<Frame, Error>)
    ensures r.Success? <==> |gross| == months && |staticRate| == months && |steppedRate| == months && |steppedRate2| == months
    ensures r.Success? ==> r.value.Valid(months)
    ensures r.Success? ==>
      r.value.gross == gross && r.value.staticRate == staticRate &&
      r.value.steppedRate == steppedRate && r.value.steppedRate2 == steppedRate2
    ensures r.Failure? ==> r.error == ColumnLengthMismatch
  {
    if |gross| == months && |staticRate| == months && |steppedRate| == months && |steppedRate2| == months
    then Success(Frame(MonthColumn(months), gross, staticRate, steppedRate, steppedRate2))
    else Failure(ColumnLengthMismatch)
  }

  /** What the page shows of one scenario. */
  datatype ScenarioResult = ScenarioResult(rate: seq<real>, net: seq<real>, cumulative: seq<real>, summary: seq<real>)

  /** Net revenue, its running total and the summary totals of one rate column. */
  function Evaluate(month: seq<int>, gross: seq<real>, rate: seq<real>): ScenarioResult
    requires |month| == |gross| == |rate|
  {
    var net := NetRevenue(gross, rate);
    ScenarioResult(rate, net, Cumulative(net), Summary(month, net))
  }

  datatype Projection = Projection(frame: Frame, scenario1: ScenarioResult, scenario2: ScenarioResult, scenario3: ScenarioResult)

  /** The boundaries a stepped scenario's schedule is generated over: its periods padded to the horizon. */
  function PaddedBoundaries(periods: seq<int>, months: nat): seq<int>
  {
    CumSum(Pad(periods, months))
  }

  /**
   * One recomputation of the page: pad both stepped scenarios' periods,
   * generate their schedules (scenario 2 first), build the table with a
   * constant gross revenue and a constant static rate, and evaluate each
   * scenario.
   */
  function Project(months: nat, grossRevenue: real, staticRate: real, takeRates: seq<real>, periods: seq<int>,
                   takeRates2: seq<real>, periods2: seq<int>): Result<Projection, Error>
  {
    match SteppedSchedule(takeRates, PaddedBoundaries(periods, months), months)
    case Failure(e) => Failure(ScheduleFailed(e))
    case Success(stepped) =>
      match SteppedSchedule(takeRates2, PaddedBoundaries(periods2, months), months)
      case Failure(e) => Failure(ScheduleFailed(e))
      case Success(stepped2) =>
        match MakeFrame(months, Constant(grossRevenue, months), Constant(staticRate, months), stepped, stepped2)
        case Failure(e) => Failure(e)
        case Success(f) =>
          Success(Projection(f,
            Evaluate(f.month, f.gross, f.staticRate),
            Evaluate(f.month, f.gross, f.steppedRate),
            Evaluate(f.month, f.gross, f.steppedRate2)))
  }

  /**
   * A projection fails only through a schedule's index error: thanks to the
   * padding both schedules are 36 entries long, so the table never sees
   * columns of unequal length.
   */
  lemma ProjectFailsOnlyOnIndex(months: nat, grossRevenue: real, staticRate: real, takeRates: seq<real>, periods: seq<int>,
                                takeRates2: seq<real>, periods2: seq<int>)
    ensures var r := Project(months, grossRevenue, staticRate, takeRates, periods, takeRates2, periods2);
      r.Success? <==>
        SteppedSchedule(takeRates, PaddedBoundaries(periods, months), months).Success? &&
        SteppedSchedule(takeRates2, PaddedBoundaries(periods2, months), months).Success?
    ensures var r := Project(months, grossRevenue, staticRate, takeRates, periods, takeRates2, periods2);
      r.Failure? ==> r.error.ScheduleFailed?
  {
    PaddingCoversEveryMonth(takeRates, periods, months);
    PaddingCoversEveryMonth(takeRates2, periods2, months);
  }

  /** A rate for every padded period of both stepped scenarios is enough for a projection. */
  lemma ProjectWithEnoughRates(months: nat, grossRevenue: real, staticRate: real, takeRates: seq<real>, periods: seq<int>,
                               takeRates2: seq<real>, periods2: seq<int>)
    requires |periods| < |takeRates| && |periods2| < |takeRates2|
    ensures Project(months, grossRevenue, staticRate, takeRates, periods, takeRates2, periods2).Success?
  {
    PaddingCoversEveryMonth(takeRates, periods, months);
    PaddingCoversEveryMonth(takeRates2, periods2, months);
    ProjectFailsOnlyOnIndex(months, grossRevenue, staticRate, takeRates, periods, takeRates2, periods2);
  }

  /** What a successful projection is made of. */
  lemma ProjectParts(months: nat, grossRevenue: real, staticRate: real, takeRates: seq<real>, periods: seq<int>,
                     takeRates2: seq<real>, periods2: seq<int>)
    requires Project(months, grossRevenue, staticRate, takeRates, periods, takeRates2, periods2).Success?
    ensures var p := Project(months, grossRevenue, staticRate, takeRates, periods, takeRates2, periods2).value;
      var f := p.frame;
      f.Valid(months) &&
      f.gross == Constant(grossRevenue, months) && f.staticRate == Constant(staticRate, months) &&
      Success(f.steppedRate) == SteppedSchedule(takeRates, PaddedBoundaries(periods, months), months) &&
      Success(f.steppedRate2) == SteppedSchedule(takeRates2, PaddedBoundaries(periods2, months), months) &&
      p.scenario1 == Evaluate(f.month, f.gross, f.staticRate) &&
      p.scenario2 == Evaluate(f.month, f.gross, f.steppedRate) &&
      p.scenario3 == Evaluate(f.month, f.gross, f.steppedRate2)
  {
  }

  /**
   * The scenarios do not influence each other's figures: of two successful
   * projections with the same horizon, gross revenue and static rate, the
   * static scenarios agree, and a stepped scenario given the same rates and
   * periods in both agrees too, whatever the other stepped scenario's inputs.
   * (A failing stepped scenario does fail the whole projection; see
   * `ProjectFailsOnlyOnIndex`.)
   */
  lemma ScenariosIndependent(months: nat, grossRevenue: real, staticRate: real,
                             takeRates: seq<real>, periods: seq<int>, takeRates2: seq<real>, periods2: seq<int>,
                             otherRates: seq<real>, otherPeriods: seq<int>, otherRates2: seq<real>, otherPeriods2: seq<int>)
    requires Project(months, grossRevenue, staticRate, takeRates, periods, takeRates2, periods2).Success?
    requires Project(months, grossRevenue, staticRate, otherRates, otherPeriods, otherRates2, otherPeriods2).Success?
    ensures var p := Project(months, grossRevenue, staticRate, takeRates, periods, takeRates2, periods2).value;
      var q := Project(months, grossRevenue, staticRate, otherRates, otherPeriods, otherRates2, otherPeriods2).value;
      p.scenario1 == q.scenario1 &&
      (takeRates == otherRates && periods == otherPeriods ==> p.scenario2 == q.scenario2) &&
      (takeRates2 == otherRates2 && periods2 == otherPeriods2 ==> p.scenario3 == q.scenario3)
  {
    ProjectParts(months, grossRevenue, staticRate, takeRates, periods, takeRates2, periods2);
    ProjectParts(months, grossRevenue, staticRate, otherRates, otherPeriods, otherRates2, otherPeriods2);
  }

  /**
   * What one scenario's series are, given the gross column: the rate column
   * is one entry per month, net revenue is `gross * (rate / 100)` row by row,
   * the cumulative series is the running total of net revenue at every month,
   * and each summary entry totals the rows up to its window. Over the 36-month
   * horizon each summary entry is also the cumulative series at its window's
   * last month, and the 36-month entry is the grand total.
   */
  predicate Consistent(sc: ScenarioResult, gross: seq<real>)
  {
    var n := |gross|;
    |sc.rate| == n && |sc.net| == n && |sc.cumulative| == n && |sc.summary| == |SummaryWindows| &&
    (forall i :: 0 <= i < n ==> sc.net[i] == gross[i] * (sc.rate[i] / 100.0)) &&
    (forall i :: 0 <= i < n ==> sc.cumulative[i] == Total(sc.net[..i + 1])) &&
    (forall k :: 0 <= k < |SummaryWindows| ==> sc.summary[k] == Total(sc.net[..Clamp(SummaryWindows[k], n)])) &&
    (n == Months ==>
      (forall k :: 0 <= k < |SummaryWindows| ==> sc.summary[k] == sc.cumulative[SummaryWindows[k] - 1]) &&
      sc.summary[|SummaryWindows| - 1] == Total(sc.net))
  }

  /** Evaluating a rate column against the gross column over the Month column 1..n gives consistent series. */
  lemma EvaluateConsistent(gross: seq<real>, rate: seq<real>)
    requires |gross| == |rate|
    ensures Consistent(Evaluate(MonthColumn(|gross|), gross, rate), gross)
  {
    var net := NetRevenue(gross, rate);
    forall k | 0 <= k < |SummaryWindows|
      ensures Summary(MonthColumn(|net|), net)[k] == Total(net[..Clamp(SummaryWindows[k], |net|)])
    {
      WindowIsPrefixTotal(net, SummaryWindows[k]);
    }
    if |gross| == Months {
      SummaryAgreesWithCumulative(net);
    }
  }

  /**
   * In a successful projection every scenario's series are consistent with
   * the table's gross column, that column is the constant gross revenue, the
   * static scenario uses the static rate every month, and each stepped
   * scenario uses the schedule generated over its padded periods.
   */
  lemma ProjectionConsistent(months: nat, grossRevenue: real, staticRate: real, takeRates: seq<real>, periods: seq<int>,
                             takeRates2: seq<real>, periods2: seq<int>)
    requires Project(months, grossRevenue, staticRate, takeRates, periods, takeRates2, periods2).Success?
    ensures var p := Project(months, grossRevenue, staticRate, takeRates, periods, takeRates2, periods2).value;
      Consistent(p.scenario1, p.frame.gross) && Consistent(p.scenario2, p.frame.gross) && Consistent(p.scenario3, p.frame.gross) &&
      p.frame.gross == Constant(grossRevenue, months) &&
      p.scenario1.rate == Constant(staticRate, months) &&
      Success(p.scenario2.rate) == SteppedSchedule(takeRates, PaddedBoundaries(periods, months), months) &&
      Success(p.scenario3.rate) == SteppedSchedule(takeRates2, PaddedBoundaries(periods2, months), months)
  {
    ProjectParts(months, grossRevenue, staticRate, takeRates, periods, takeRates2, periods2);
    var p := Project(months, grossRevenue, staticRate, takeRates, periods, takeRates2, periods2).value;
    EvaluateConsistent(p.frame.gross, p.frame.staticRate);
    EvaluateConsistent(p.frame.gross, p.frame.steppedRate);
    EvaluateConsistent(p.frame.gross, p.frame.steppedRate2);
  }

  /**
   * With a non-negative gross revenue (the input's minimum is 0), a
   * non-negative static rate and non-negative stepped rates, every net
   * revenue entry is non-negative and every scenario's summary totals grow
   * with the window.
   */
  lemma ProjectionNonNegative(months: nat, grossRevenue: real, staticRate: real, takeRates: seq<real>, periods: seq<int>,
                              takeRates2: seq<real>, periods2: seq<int>)
    requires 0.0 <= grossRevenue && 0.0 <= staticRate
    requires NonNegativeColumn(takeRates) && NonNegativeColumn(takeRates2)
    requires Project(months, grossRevenue, staticRate, takeRates, periods, takeRates2, periods2).Success?
    ensures var p := Project(months, grossRevenue, staticRate, takeRates, periods, takeRates2, periods2).value;
      NonNegativeColumn(p.scenario1.net) && NonNegativeColumn(p.scenario2.net) && NonNegativeColumn(p.scenario3.net)
    ensures var p := Project(months, grossRevenue, staticRate, takeRates, periods, takeRates2, periods2).value;
      forall k, l :: 0 <= k <= l < |SummaryWindows| ==>
        p.scenario1.summary[k] <= p.scenario1.summary[l] &&
        p.scenario2.summary[k] <= p.scenario2.summary[l] &&
        p.scenario3.summary[k] <= p.scenario3.summary[l]
  {
    ProjectParts(months, grossRevenue, staticRate, takeRates, periods, takeRates2, periods2);
    var p := Project(months, grossRevenue, staticRate, takeRates, periods, takeRates2, periods2).value;
    var f := p.frame;
    ScheduleDrawsFromRates(takeRates, PaddedBoundaries(periods, months), months);
    ScheduleDrawsFromRates(takeRates2, PaddedBoundaries(periods2, months), months);
    assert NonNegativeColumn(f.steppedRate);
    assert NonNegativeColumn(f.steppedRate2);
    NetRevenueBounds(f.gross, f.staticRate);
    NetRevenueBounds(f.gross, f.steppedRate);
    NetRevenueBounds(f.gross, f.steppedRate2);
    SummaryNonDecreasing(f.month, p.scenario1.net);
    SummaryNonDecreasing(f.month, p.scenario2.net);
    SummaryNonDecreasing(f.month, p.scenario3.net);
  }
}
