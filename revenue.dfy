/**
 * The revenue columns of the pricing calculator: net revenue per month, its
 * running total, and the summary totals over the first 3, 6, 12, 24 and 36
 * months. Amounts and rates are exact reals.
 */
module Revenue {

  /** The months the summary table totals over. */
  const SummaryWindows: seq<int> := [3, 6, 12, 24, 36]

  /** `[x] * n`: a column holding the same value on every row. */
  function Constant(x: real, n: nat): seq<real>
  {
    seq(n, _ => x)
  }

  /** The Month column, `list(range(1, months + 1))`. */
  function MonthColumn(n: nat): seq<int>
  {
    seq(n, i => i + 1)
  }

  predicate NonNegativeColumn(s: seq<real>)
  {
    forall i :: 0 <= i < |s| ==> 0.0 <= s[i]
  }

  /** Python's `sum` over a column, taken in row order. */
  function Total(s: seq<real>): real
  {
    if s == [] then 0.0 else Total(s[..|s| - 1]) + s[|s| - 1]
  }

  lemma {:induction false} TotalConcat(a: seq<real>, b: seq<real>)
    ensures Total(a + b) == Total(a) + Total(b)
    decreases |b|
  {
    if b == [] {
      assert a + b == a;
    } else {
      TotalConcat(a, b[..|b| - 1]);
      assert (a + b)[..|a + b| - 1] == a + b[..|b| - 1];
    }
  }

  /** A column of `n` equal entries `x` totals `n * x`. */
  lemma {:induction false} TotalConstant(s: seq<real>, x: real)
    requires forall i :: 0 <= i < |s| ==> s[i] == x
    ensures Total(s) == |s| as real * x
    decreases |s|
  {
    if s != [] {
      TotalConstant(s[..|s| - 1], x);
    }
  }

  /** `gross * (rate / 100)`, row by row. */
  function NetRevenue(gross: seq<real>, rate: seq<real>): (net: seq<real>)
    requires |gross| == |rate|
    ensures |net| == |gross|
  {
    seq(|gross|, i requires 0 <= i < |gross| => gross[i] * (rate[i] / 100.0))
  }

  /**
   * A non-negative gross revenue and a non-negative rate give a non-negative
   * net revenue, and a rate of at most 100 keeps net at or below gross.
   */
  lemma NetRevenueBounds(gross: seq<real>, rate: seq<real>)
    requires |gross| == |rate| && NonNegativeColumn(gross) && NonNegativeColumn(rate)
    ensures NonNegativeColumn(NetRevenue(gross, rate))
    ensures forall i :: 0 <= i < |gross| && rate[i] <= 100.0 ==> NetRevenue(gross, rate)[i] <= gross[i]
  {
    var net := NetRevenue(gross, rate);
    forall i | 0 <= i < |gross|
      ensures 0.0 <= net[i] && (rate[i] <= 100.0 ==> net[i] <= gross[i])
    {
      assert net[i] == gross[i] * (rate[i] / 100.0);
      assert 0.0 <= rate[i] / 100.0;
      if rate[i] <= 100.0 {
        assert rate[i] / 100.0 <= 1.0;
        assert gross[i] * (rate[i] / 100.0) <= gross[i] * 1.0;
      }
    }
  }

  /** `cumsum()` of a column: entry `i` is the total of rows 0..i. */
  function Cumulative(net: seq<real>): (c: seq<real>)
    ensures |c| == |net|
    ensures forall i :: 0 <= i < |net| ==> c[i] == Total(net[..i + 1])
  {
    if net == [] then []
    else
      var init := net[..|net| - 1];
      assert forall k :: 0 <= k <= |init| ==> init[..k] == net[..k];
      assert net[..|net|] == net;
      Cumulative(init) + [Total(net)]
  }

  /**
   * `sum(df[df["Month"] <= b][col])`: the total of the column over the rows
   * whose Month is at most `b`, taken in row order.
   */
  function WindowTotal(month: seq<int>, net: seq<real>, b: int): real
    requires |month| == |net|
  {
    if net == [] then 0.0
    else
      WindowTotal(month[..|month| - 1], net[..|net| - 1], b) +
      (if month[|month| - 1] <= b then net[|net| - 1] else 0.0)
  }

  /** How many of the months 1..n are at most `b`. */
  function Clamp(b: int, n: nat): nat
  {
    if b < 0 then 0 else if b > n then n else b
  }

  /** Over the Month column 1..n, the window up to `b` is the first `b` rows (all of them when `b >= n`). */
  lemma {:induction false} WindowIsPrefixTotal(net: seq<real>, b: int)
    ensures WindowTotal(MonthColumn(|net|), net, b) == Total(net[..Clamp(b, |net|)])
    decreases |net|
  {
    if net != [] {
      var n := |net|;
      assert MonthColumn(n)[..n - 1] == MonthColumn(n - 1);
      WindowIsPrefixTotal(net[..n - 1], b);
      if b >= n {
        assert net[..n] == net;
        assert net[..n - 1][..n - 1] == net[..n - 1];
      } else {
        assert net[..n - 1][..Clamp(b, n - 1)] == net[..Clamp(b, n)];
      }
    }
  }

  /**
   * The window total for boundary `b` equals the cumulative series at month
   * `b`, and a window reaching the end of the horizon is the grand total,
   * which is also the last entry of the cumulative series.
   */
  lemma WindowMatchesCumulative(net: seq<real>, b: int)
    ensures 1 <= b <= |net| ==> WindowTotal(MonthColumn(|net|), net, b) == Cumulative(net)[b - 1]
    ensures |net| <= b ==> WindowTotal(MonthColumn(|net|), net, b) == Total(net)
    ensures net != [] ==> Cumulative(net)[|net| - 1] == Total(net)
  {
    WindowIsPrefixTotal(net, b);
    assert net[..|net|] == net;
  }

  /** With non-negative net revenue a longer window never totals less, whatever the Month column holds. */
  lemma {:induction false} WindowMonotone(month: seq<int>, net: seq<real>, b1: int, b2: int)
    requires |month| == |net| && NonNegativeColumn(net) && b1 <= b2
    ensures WindowTotal(month, net, b1) <= WindowTotal(month, net, b2)
    decreases |net|
  {
    if net != [] {
      WindowMonotone(month[..|month| - 1], net[..|net| - 1], b1, b2);
    }
  }

  /** One scenario's column of the summary table: the window totals for 3, 6, 12, 24 and 36 months. */
  function Summary(month: seq<int>, net: seq<real>): (row: seq<real>)
    requires |month| == |net|
    ensures |row| == |SummaryWindows|
  {
    seq(|SummaryWindows|, k requires 0 <= k < |SummaryWindows| => WindowTotal(month, net, SummaryWindows[k]))
  }

  /** With non-negative net revenue the summary totals grow with the window: 3 <= 6 <= 12 <= 24 <= 36 months. */
  lemma SummaryNonDecreasing(month: seq<int>, net: seq<real>)
    requires |month| == |net| && NonNegativeColumn(net)
    ensures forall k, l :: 0 <= k <= l < |SummaryWindows| ==> Summary(month, net)[k] <= Summary(month, net)[l]
  {
    forall k, l | 0 <= k <= l < |SummaryWindows|
      ensures Summary(month, net)[k] <= Summary(month, net)[l]
    {
      WindowMonotone(month, net, SummaryWindows[k], SummaryWindows[l]);
    }
  }

  /**
   * Over a 36-month horizon each summary entry is the cumulative series at
   * its window's last month, and the 36-month entry is the grand total.
   */
  lemma SummaryAgreesWithCumulative(net: seq<real>)
    requires |net| == 36
    ensures forall k :: 0 <= k < |SummaryWindows| ==>
      Summary(MonthColumn(|net|), net)[k] == Cumulative(net)[SummaryWindows[k] - 1]
    ensures Summary(MonthColumn(|net|), net)[|SummaryWindows| - 1] == Total(net)
  {
    var month := MonthColumn(|net|);
    forall k | 0 <= k < |SummaryWindows|
      ensures Summary(month, net)[k] == Cumulative(net)[SummaryWindows[k] - 1]
    {
      var b := SummaryWindows[k];
      assert 1 <= b <= |net|;
      WindowMatchesCumulative(net, b);
    }
    WindowMatchesCumulative(net, SummaryWindows[|SummaryWindows| - 1]);
  }
}
