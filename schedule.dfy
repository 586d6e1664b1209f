/**
 * The stepped take-rate schedule of the pricing calculator: the padding of the
 * user's period lengths up to the horizon, and `generate_stepped_take_rate`,
 * which turns a list of rates and a list of period lengths into one rate per
 * month.
 */
module Schedule {
  import opened Results

  /** The one way the generator fails: the first matching boundary has no rate. */
  datatype ScheduleError = IndexOutOfRange(month: int, index: nat)

  /** Sum of a list of period lengths (Python's built-in `sum`). */
  function Sum(s: seq<int>): int
  {
    if s == [] then 0 else Sum(s[..|s| - 1]) + s[|s| - 1]
  }

  lemma {:induction false} SumAppend(s: seq<int>, x: int)
    ensures Sum(s + [x]) == Sum(s) + x
  {
    assert (s + [x])[..|s|] == s;
  }

  /** Running totals of the period lengths, as `np.cumsum` computes them. */
  function CumSum(periods: seq<int>): (cum: seq<int>)
    ensures |cum| == |periods|
  {
    if periods == [] then [] else CumSum(periods[..|periods| - 1]) + [Sum(periods)]
  }

  /** Boundary `i` is the total length of periods `0..i`. */
  lemma {:induction false} CumSumIsPrefixSums(periods: seq<int>)
    ensures forall i :: 0 <= i < |periods| ==> CumSum(periods)[i] == Sum(periods[..i + 1])
    decreases |periods|
  {
    if periods != [] {
      var init := periods[..|periods| - 1];
      CumSumIsPrefixSums(init);
      assert forall k :: 0 <= k <= |init| ==> init[..k] == periods[..k];
      assert periods[..|periods|] == periods;
    }
  }

  lemma {:induction false} CumSumAppend(periods: seq<int>, x: int)
    ensures CumSum(periods + [x]) == CumSum(periods) + [Sum(periods) + x]
  {
    assert (periods + [x])[..|periods|] == periods;
    SumAppend(periods, x);
  }

  predicate NonNegativePeriods(periods: seq<int>)
  {
    forall i :: 0 <= i < |periods| ==> 0 <= periods[i]
  }

  lemma {:induction false} SumPrefixMonotone(periods: seq<int>, a: nat, b: nat)
    requires NonNegativePeriods(periods) && a <= b <= |periods|
    ensures Sum(periods[..a]) <= Sum(periods[..b])
    decreases b
  {
    if a < b {
      SumPrefixMonotone(periods, a, b - 1);
      assert periods[..b][..b - 1] == periods[..b - 1];
    }
  }

  /** With no negative period the boundaries never go down. */
  lemma CumSumNonDecreasing(periods: seq<int>, i: nat, j: nat)
    requires NonNegativePeriods(periods) && i <= j < |periods|
    ensures CumSum(periods)[i] <= CumSum(periods)[j]
  {
    CumSumIsPrefixSums(periods);
    SumPrefixMonotone(periods, i + 1, j + 1);
  }

  /** The user's periods with the remainder of the horizon appended. */
  function Pad(periods: seq<int>, months: int): seq<int>
  {
    periods + [months - Sum(periods)]
  }

  /**
   * After padding the periods add up to the horizon, so the last boundary is
   * the horizon itself, whatever the sign of the remainder; the boundaries of
   * the user's own periods are kept.
   */
  lemma PadEndsAtHorizon(periods: seq<int>, months: int)
    ensures |Pad(periods, months)| == |periods| + 1
    ensures Sum(Pad(periods, months)) == months
    ensures CumSum(Pad(periods, months)) == CumSum(periods) + [months]
  {
    SumAppend(periods, months - Sum(periods));
    CumSumAppend(periods, months - Sum(periods));
  }

  /** The padding step: sum the user's periods and append what is left of the horizon. */
  method PadPeriods(periods: seq<int>, months: int) returns (padded: seq<int>)
    ensures padded == Pad(periods, months)
    ensures |padded| == |periods| + 1 && padded[..|periods|] == periods
    ensures Sum(padded) == months
  {
    var total := 0;
    for i := 0 to |periods|
      invariant total == Sum(periods[..i])
    {
      assert periods[..i + 1] == periods[..i] + [periods[i]];
      SumAppend(periods[..i], periods[i]);
      total := total + periods[i];
    }
    assert periods[..|periods|] == periods;
    padded := periods + [months - total];
    PadEndsAtHorizon(periods, months);
  }

  /**
   * The index the inner loop stops at for month `m`: the first boundary that
   * `m` does not exceed, or None when `m` exceeds every boundary.
   */
  function FirstMatch(cum: seq<int>, m: int): (r: Option<nat>)
    ensures r.Some? ==> r.value < |cum| && m <= cum[r.value]
    ensures r.Some? ==> forall j :: 0 <= j < r.value ==> cum[j] < m
    ensures r.None? ==> forall j :: 0 <= j < |cum| ==> cum[j] < m
  {
    if cum == [] then None
    else if m <= cum[0] then Some(0)
    else
      match FirstMatch(cum[1..], m)
      case None => None
      case Some(k) => Some(k + 1)
  }

  /**
   * The schedule for months 1..months over the boundaries `cum`: each month
   * with a matching boundary gets the rate at that boundary's index, a month
   * with none gets no entry, and the first month whose index has no rate
   * fails. A successful schedule never has more entries than months.
   */
  function SteppedSchedule(takeRates: seq<real>, cum: seq<int>, months: int): (r: Result<seq<real>, ScheduleError>)
    ensures r.Success? ==> |r.value| <= if months < 0 then 0 else months
    decreases months
  {
    if months <= 0 then Success([])
    else
      match SteppedSchedule(takeRates, cum, months - 1)
      case Failure(e) => Failure(e)
      case Success(s) =>
        match FirstMatch(cum, months)
        case None => Success(s)
        case Some(i) =>
          if i < |takeRates| then Success(s + [takeRates[i]])
          else Failure(IndexOutOfRange(months, i))
  }

  /** Once a month fails, the whole run fails with that month's error. */
  lemma {:induction false} FailureSticks(takeRates: seq<real>, cum: seq<int>, k: int, n: int)
    requires k <= n && SteppedSchedule(takeRates, cum, k).Failure?
    ensures SteppedSchedule(takeRates, cum, n) == SteppedSchedule(takeRates, cum, k)
    decreases n - k
  {
    if k < n {
      FailureSticks(takeRates, cum, k, n - 1);
    }
  }

  /** The month after a prefix of the schedule, when the first boundary `month` does not exceed is `idx`. */
  lemma StepMatched(takeRates: seq<real>, cum: seq<int>, month: int, s: seq<real>, idx: nat)
    requires 1 <= month && SteppedSchedule(takeRates, cum, month - 1) == Success(s)
    requires idx < |cum| && month <= cum[idx] && forall j :: 0 <= j < idx ==> cum[j] < month
    ensures SteppedSchedule(takeRates, cum, month) ==
      if idx < |takeRates| then Success(s + [takeRates[idx]]) else Failure(IndexOutOfRange(month, idx))
  {
    assert FirstMatch(cum, month) == Some(idx);
  }

  /** The month after a prefix of the schedule, when `month` exceeds every boundary. */
  lemma StepUnmatched(takeRates: seq<real>, cum: seq<int>, month: int, s: seq<real>)
    requires 1 <= month && SteppedSchedule(takeRates, cum, month - 1) == Success(s)
    requires forall j :: 0 <= j < |cum| ==> cum[j] < month
    ensures SteppedSchedule(takeRates, cum, month) == Success(s)
  {
    assert FirstMatch(cum, month).None?;
  }

  /** `generate_stepped_take_rate`: two nested loops, the inner one left at the first matching boundary. */
  method GenerateSteppedTakeRate(takeRates: seq<real>, periods: seq<int>, months: int)
    returns (r: Result<seq<real>, ScheduleError>)
    ensures r == SteppedSchedule(takeRates, CumSum(periods), months)
  {
    var takeRate: seq<real> := [];
    var periodCumsum := CumSum(periods);
    var month := 1;
    while month <= months
      invariant 1 <= month <= if months < 1 then 1 else months + 1
      invariant SteppedSchedule(takeRates, periodCumsum, month - 1) == Success(takeRate)
      decreases months - month
    {
      ghost var before := takeRate;
      var idx := 0;
      while idx < |periodCumsum|
        invariant 0 <= idx <= |periodCumsum|
        invariant forall j :: 0 <= j < idx ==> periodCumsum[j] < month
        invariant takeRate == before
      {
        if month <= periodCumsum[idx] {
          StepMatched(takeRates, periodCumsum, month, takeRate, idx);
          if idx >= |takeRates| {
            FailureSticks(takeRates, periodCumsum, month, months);
            return Failure(IndexOutOfRange(month, idx));
          }
          takeRate := takeRate + [takeRates[idx]];
          break;
        }
        idx := idx + 1;
      }
      if idx == |periodCumsum| {
        // the inner loop ran out of boundaries: nothing was appended for this month
        StepUnmatched(takeRates, periodCumsum, month, takeRate);
      }
      month := month + 1;
    }
    if months <= 0 {
      assert SteppedSchedule(takeRates, periodCumsum, months) == SteppedSchedule(takeRates, periodCumsum, month - 1);
    }
    r := Success(takeRate);
  }

  /**
   * A successful schedule holds, in order, the rates of the months 1, 2, ...
   * that have a matching boundary, each the rate at the first matching
   * index, and stops exactly where a month first has no boundary.
   */
  lemma {:induction false} ScheduleEntries(takeRates: seq<real>, cum: seq<int>, months: int)
    requires SteppedSchedule(takeRates, cum, months).Success?
    ensures var s := SteppedSchedule(takeRates, cum, months).value;
      forall m :: 1 <= m <= |s| ==>
        FirstMatch(cum, m).Some? && FirstMatch(cum, m).value < |takeRates| &&
        s[m - 1] == takeRates[FirstMatch(cum, m).value]
    ensures var s := SteppedSchedule(takeRates, cum, months).value;
      |s| < months ==> FirstMatch(cum, |s| + 1).None?
    decreases months
  {
    if months > 0 {
      ScheduleEntries(takeRates, cum, months - 1);
      var prev := SteppedSchedule(takeRates, cum, months - 1).value;
      var s := SteppedSchedule(takeRates, cum, months).value;
      match FirstMatch(cum, months)
      case None =>
        assert s == prev;
      case Some(i) =>
        assert s == prev + [takeRates[i]];
        // month `months` matches, so every earlier month did and none was skipped
        FirstMatchMonotone(cum, |prev| + 1, months);
        assert |prev| == months - 1;
    }
  }

  /** Every entry of a successful schedule is one of the given rates. */
  lemma ScheduleDrawsFromRates(takeRates: seq<real>, cum: seq<int>, months: int)
    requires SteppedSchedule(takeRates, cum, months).Success?
    ensures forall k :: 0 <= k < |SteppedSchedule(takeRates, cum, months).value| ==>
      SteppedSchedule(takeRates, cum, months).value[k] in takeRates
  {
    ScheduleEntries(takeRates, cum, months);
    var s := SteppedSchedule(takeRates, cum, months).value;
    forall k | 0 <= k < |s|
      ensures s[k] in takeRates
    {
      assert FirstMatch(cum, k + 1).Some?;
    }
  }

  /** Every month up to the horizon whose first matching boundary exists finds a rate at that index. */
  predicate EveryMatchHasRate(takeRates: seq<real>, cum: seq<int>, months: int)
  {
    forall m :: 1 <= m <= months && FirstMatch(cum, m).Some? ==> FirstMatch(cum, m).value < |takeRates|
  }

  /** The generator succeeds exactly when every matched month finds a rate. */
  lemma {:induction false} ScheduleSucceedsIff(takeRates: seq<real>, cum: seq<int>, months: int)
    ensures SteppedSchedule(takeRates, cum, months).Success? <==> EveryMatchHasRate(takeRates, cum, months)
    decreases months
  {
    if months > 0 {
      ScheduleSucceedsIff(takeRates, cum, months - 1);
      if EveryMatchHasRate(takeRates, cum, months) {
        assert EveryMatchHasRate(takeRates, cum, months - 1);
      } else {
        var m :| 1 <= m <= months && FirstMatch(cum, m).Some? && FirstMatch(cum, m).value >= |takeRates|;
        if m < months {
          assert !EveryMatchHasRate(takeRates, cum, months - 1);
        }
      }
    }
  }

  /** A failure names the first month whose matching index has no rate. */
  lemma {:induction false} ScheduleFailure(takeRates: seq<real>, cum: seq<int>, months: int)
    requires SteppedSchedule(takeRates, cum, months).Failure?
    ensures var e := SteppedSchedule(takeRates, cum, months).error;
      1 <= e.month <= months && FirstMatch(cum, e.month) == Some(e.index) &&
      |takeRates| <= e.index && SteppedSchedule(takeRates, cum, e.month - 1).Success?
    decreases months
  {
    if SteppedSchedule(takeRates, cum, months - 1).Failure? {
      ScheduleFailure(takeRates, cum, months - 1);
    }
  }

  /** With a rate for every boundary the generator never fails. */
  lemma EnoughRatesSucceed(takeRates: seq<real>, cum: seq<int>, months: int)
    requires |cum| <= |takeRates|
    ensures SteppedSchedule(takeRates, cum, months).Success?
  {
    ScheduleSucceedsIff(takeRates, cum, months);
  }

  /**
   * A successful schedule has at most one entry per month, and one for every
   * month exactly when the horizon itself has a matching boundary.
   */
  lemma ScheduleLength(takeRates: seq<real>, cum: seq<int>, months: int)
    requires 0 <= months && SteppedSchedule(takeRates, cum, months).Success?
    ensures var s := SteppedSchedule(takeRates, cum, months).value;
      |s| <= months && (|s| == months <==> months == 0 || FirstMatch(cum, months).Some?)
  {
    ScheduleEntries(takeRates, cum, months);
    var s := SteppedSchedule(takeRates, cum, months).value;
    if |s| < months {
      assert forall j :: 0 <= j < |cum| ==> cum[j] < months;
    }
  }

  /** A later month never stops at an earlier boundary than an earlier month does. */
  lemma FirstMatchMonotone(cum: seq<int>, m1: int, m2: int)
    requires m1 <= m2 && FirstMatch(cum, m2).Some?
    ensures FirstMatch(cum, m1).Some? && FirstMatch(cum, m1).value <= FirstMatch(cum, m2).value
  {
    var i := FirstMatch(cum, m2).value;
    assert m1 <= cum[i];
  }

  /**
   * With non-negative periods, rate `i` fills exactly the months after the
   * previous boundary up to its own boundary.
   */
  lemma RateFillsItsBlock(periods: seq<int>, i: nat, m: int)
    requires NonNegativePeriods(periods) && i < |periods|
    ensures var cum := CumSum(periods);
      FirstMatch(cum, m) == Some(i) <==> (i == 0 || cum[i - 1] < m) && m <= cum[i]
  {
    var cum := CumSum(periods);
    if (i == 0 || cum[i - 1] < m) && m <= cum[i] {
      forall j | 0 <= j < i
        ensures cum[j] < m
      {
        CumSumNonDecreasing(periods, j, i - 1);
      }
    }
  }

  /**
   * With non-negative periods and a rate for each of them, the generated
   * schedule gives every month in block `i` (after the previous boundary, up
   * to boundary `i`) rate `i`.
   */
  lemma ScheduleBlock(takeRates: seq<real>, periods: seq<int>, months: int, i: nat, m: int)
    requires NonNegativePeriods(periods) && |periods| <= |takeRates| && i < |periods|
    requires 1 <= m <= months
    requires (i == 0 || CumSum(periods)[i - 1] < m) && m <= CumSum(periods)[i]
    ensures SteppedSchedule(takeRates, CumSum(periods), months).Success?
    ensures var s := SteppedSchedule(takeRates, CumSum(periods), months).value;
      m <= |s| && s[m - 1] == takeRates[i]
  {
    var cum := CumSum(periods);
    EnoughRatesSucceed(takeRates, cum, months);
    ScheduleEntries(takeRates, cum, months);
    ScheduleLength(takeRates, cum, months);
    RateFillsItsBlock(periods, i, m);
    var s := SteppedSchedule(takeRates, cum, months).value;
    if |s| < months {
      assert forall j :: 0 <= j < |cum| ==> cum[j] < |s| + 1;
      assert m <= cum[i];
    }
  }

  /** Appending a boundary does not change a month that an earlier boundary already matched. */
  lemma MatchSurvivesAppend(cum: seq<int>, x: int, m: int)
    requires FirstMatch(cum, m).Some?
    ensures FirstMatch(cum + [x], m) == FirstMatch(cum, m)
  {
    var i := FirstMatch(cum, m).value;
    assert (cum + [x])[i] == cum[i];
    assert forall j :: 0 <= j < i ==> (cum + [x])[j] == cum[j];
  }

  /** The schedule depends on the boundaries only through the first match of each month. */
  lemma {:induction false} ScheduleDependsOnMatchesOnly(takeRates: seq<real>, c1: seq<int>, c2: seq<int>, months: int)
    requires forall m :: 1 <= m <= months ==> FirstMatch(c1, m) == FirstMatch(c2, m)
    ensures SteppedSchedule(takeRates, c1, months) == SteppedSchedule(takeRates, c2, months)
    decreases months
  {
    if months > 0 {
      ScheduleDependsOnMatchesOnly(takeRates, c1, c2, months - 1);
    }
  }

  /**
   * After padding every month of the horizon has a matching boundary, so a
   * successful schedule has one rate per month, and a rate for every padded
   * period is enough for success.
   */
  lemma PaddingCoversEveryMonth(takeRates: seq<real>, periods: seq<int>, months: int)
    requires 0 <= months
    ensures forall m :: m <= months ==> FirstMatch(CumSum(Pad(periods, months)), m).Some?
    ensures SteppedSchedule(takeRates, CumSum(Pad(periods, months)), months).Success? ==>
      |SteppedSchedule(takeRates, CumSum(Pad(periods, months)), months).value| == months
    ensures |periods| < |takeRates| ==> SteppedSchedule(takeRates, CumSum(Pad(periods, months)), months).Success?
  {
    var cum := CumSum(Pad(periods, months));
    PadEndsAtHorizon(periods, months);
    forall m | m <= months
      ensures FirstMatch(cum, m).Some?
    {
      assert m <= cum[|periods|];
    }
    if SteppedSchedule(takeRates, cum, months).Success? {
      ScheduleLength(takeRates, cum, months);
    }
    if |periods| < |takeRates| {
      EnoughRatesSucceed(takeRates, cum, months);
    }
  }

  /**
   * When the user's periods already reach or pass the horizon, the zero or
   * negative remainder matches no month: padding leaves the schedule as it
   * would be without it.
   */
  lemma OverrunRemainderHarmless(takeRates: seq<real>, periods: seq<int>, months: int)
    requires months <= Sum(periods)
    ensures forall m :: 1 <= m <= months ==>
      FirstMatch(CumSum(periods), m).Some? &&
      FirstMatch(CumSum(Pad(periods, months)), m) == FirstMatch(CumSum(periods), m)
    ensures SteppedSchedule(takeRates, CumSum(Pad(periods, months)), months) ==
      SteppedSchedule(takeRates, CumSum(periods), months)
  {
    var cum := CumSum(periods);
    PadEndsAtHorizon(periods, months);
    CumSumIsPrefixSums(periods);
    forall m | 1 <= m <= months
      ensures FirstMatch(cum, m).Some? && FirstMatch(CumSum(Pad(periods, months)), m) == FirstMatch(cum, m)
    {
      assert periods[..|periods|] == periods;
      assert m <= cum[|periods| - 1];
      MatchSurvivesAppend(cum, months, m);
    }
    ScheduleDependsOnMatchesOnly(takeRates, CumSum(Pad(periods, months)), cum, months);
  }
}
