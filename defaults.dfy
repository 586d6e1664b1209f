/**
 * The page's default inputs worked through the model: a gross revenue of 6000
 * a month, a static rate of 20%, stepped rates 30, 20, 15 and 35, 25, 15, both
 * over the periods 3 and 12, on the 36-month horizon.
 */
module Defaults {
  import opened Results
  import opened Schedule
  import opened Revenue
  import opened Calculator

  /** The default periods 3 and 12 are padded with 21, giving the boundaries 3, 15 and 36. */
  lemma DefaultPadding(periods: seq<int>, months: nat)
    requires periods == [3, 12] && months == Months
    ensures Pad(periods, months) == [3, 12, 21]
    ensures CumSum(Pad(periods, months)) == [3, 15, 36]
  {
    assert periods[..1] == [3];
    assert periods[..2] == periods;
    assert Sum(periods[..1]) == 3 by {
      assert periods[..1][..0] == [];
    }
    PadEndsAtHorizon(periods, months);
    CumSumIsPrefixSums(periods);
  }

  /**
   * Over the default periods, any three rates fill months 1-3 (rows 0-2)
   * with the first, months 4-15 with the second and months 16-36 with the
   * third.
   */
  lemma DefaultSchedule(takeRates: seq<real>, periods: seq<int>, months: nat)
    requires |takeRates| == 3 && periods == [3, 12] && months == Months
    ensures SteppedSchedule(takeRates, CumSum(Pad(periods, months)), months).Success?
    ensures var s := SteppedSchedule(takeRates, CumSum(Pad(periods, months)), months).value;
      |s| == 36 &&
      (forall i :: 0 <= i < 3 ==> s[i] == takeRates[0]) &&
      (forall i :: 3 <= i < 15 ==> s[i] == takeRates[1]) &&
      (forall i :: 15 <= i < 36 ==> s[i] == takeRates[2])
  {
    DefaultPadding(periods, months);
    var padded := Pad(periods, months);
    assert NonNegativePeriods(padded);
    PaddingCoversEveryMonth(takeRates, periods, months);
    forall i | 0 <= i < 3
      ensures SteppedSchedule(takeRates, CumSum(padded), months).value[i] == takeRates[0]
    {
      ScheduleBlock(takeRates, padded, months, 0, i + 1);
    }
    forall i | 3 <= i < 15
      ensures SteppedSchedule(takeRates, CumSum(padded), months).value[i] == takeRates[1]
    {
      ScheduleBlock(takeRates, padded, months, 1, i + 1);
    }
    forall i | 15 <= i < 36
      ensures SteppedSchedule(takeRates, CumSum(padded), months).value[i] == takeRates[2]
    {
      ScheduleBlock(takeRates, padded, months, 2, i + 1);
    }
  }

  /** A constant 6000 at a constant 20% nets 1200 a month: 3600, 7200, 14400, 28800 and 43200 over the windows. */
  lemma DefaultStaticScenario(gross: seq<real>, rate: seq<real>)
    requires gross == Constant(6000.0, Months) && rate == Constant(20.0, Months)
    ensures var sc := Evaluate(MonthColumn(|gross|), gross, rate);
      (forall i :: 0 <= i < 36 ==> sc.net[i] == 1200.0) &&
      sc.summary == [3600.0, 7200.0, 14400.0, 28800.0, 43200.0]
  {
    var sc := Evaluate(MonthColumn(|gross|), gross, rate);
    var net := sc.net;
    assert forall i :: 0 <= i < 36 ==> net[i] == 6000.0 * (20.0 / 100.0);
    forall k | 0 <= k < |SummaryWindows|
      ensures sc.summary[k] == SummaryWindows[k] as real * 1200.0
    {
      var b := SummaryWindows[k];
      WindowIsPrefixTotal(net, b);
      TotalConstant(net[..b], 1200.0);
    }
  }

  /** A constant 6000 at 35% for months 1-3 and 25% for months 4-15 totals 6300 over 3 months and 19800 over 12. */
  lemma DefaultSecondSteppedScenario(gross: seq<real>, rate: seq<real>)
    requires gross == Constant(6000.0, Months) && |rate| == Months
    requires forall i :: 0 <= i < 3 ==> rate[i] == 35.0
    requires forall i :: 3 <= i < 15 ==> rate[i] == 25.0
    ensures var sc := Evaluate(MonthColumn(|gross|), gross, rate);
      sc.summary[0] == 6300.0 && sc.summary[2] == 19800.0
  {
    var net := NetRevenue(gross, rate);
    assert forall i :: 0 <= i < 3 ==> net[i] == 6000.0 * (35.0 / 100.0);
    assert forall i :: 3 <= i < 12 ==> net[i] == 6000.0 * (25.0 / 100.0);
    WindowIsPrefixTotal(net, 3);
    WindowIsPrefixTotal(net, 12);
    TotalConstant(net[..3], 2100.0);
    TotalConstant(net[3..12], 1500.0);
    assert net[..12] == net[..3] + net[3..12];
    TotalConcat(net[..3], net[3..12]);
  }

  /**
   * The default page: the static scenario nets 1200 a month and totals 3600,
   * 7200, 14400, 28800 and 43200 over 3, 6, 12, 24 and 36 months; the first
   * stepped scenario charges 30, 20 and 15 over months 1-3, 4-15 and 16-36;
   * the second stepped scenario totals 6300 over 3 months and 19800 over 12.
   */
  lemma DefaultProjection(months: nat, grossRevenue: real, staticRate: real, takeRates: seq<real>, periods: seq<int>,
                          takeRates2: seq<real>, periods2: seq<int>)
    requires months == Months && grossRevenue == 6000.0 && staticRate == 20.0
    requires takeRates == [30.0, 20.0, 15.0] && periods == [3, 12]
    requires takeRates2 == [35.0, 25.0, 15.0] && periods2 == [3, 12]
    ensures Project(months, grossRevenue, staticRate, takeRates, periods, takeRates2, periods2).Success?
    ensures var p := Project(months, grossRevenue, staticRate, takeRates, periods, takeRates2, periods2).value;
      (forall i :: 0 <= i < 36 ==> p.scenario1.net[i] == 1200.0) &&
      p.scenario1.summary == [3600.0, 7200.0, 14400.0, 28800.0, 43200.0]
    ensures var p := Project(months, grossRevenue, staticRate, takeRates, periods, takeRates2, periods2).value;
      (forall i :: 0 <= i < 3 ==> p.scenario2.rate[i] == 30.0) &&
      (forall i :: 3 <= i < 15 ==> p.scenario2.rate[i] == 20.0) &&
      (forall i :: 15 <= i < 36 ==> p.scenario2.rate[i] == 15.0)
    ensures var p := Project(months, grossRevenue, staticRate, takeRates, periods, takeRates2, periods2).value;
      p.scenario3.summary[0] == 6300.0 && p.scenario3.summary[2] == 19800.0
  {
    ProjectWithEnoughRates(months, grossRevenue, staticRate, takeRates, periods, takeRates2, periods2);
    ProjectParts(months, grossRevenue, staticRate, takeRates, periods, takeRates2, periods2);
    DefaultSchedule(takeRates, periods, months);
    DefaultSchedule(takeRates2, periods2, months);
    var f := Project(months, grossRevenue, staticRate, takeRates, periods, takeRates2, periods2).value.frame;
    DefaultStaticScenario(f.gross, f.staticRate);
    DefaultSecondSteppedScenario(f.gross, f.steppedRate2);
  }
}
