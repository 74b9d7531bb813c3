/**
 * Per-row definitions of every column the indicator engine adds, over the
 * retained (date, price) rows, and the facts they satisfy. Windows count
 * rows, not calendar days. A missing value is `None`.
 */
module Indicators {
  import opened Common
  import opened Rating

  /** One input row: its date and its price, `None` when it did not parse. */
  datatype RawRow = RawRow(date: Date, price: Option<real>)

  /** One retained observation. */
  datatype Obs = Obs(date: Date, price: real)

  /** What the engine assumes of its input: sorted by date, parsed prices positive. */
  predicate WellFormed(rows: seq<RawRow>)
  {
    (forall i, j :: 0 <= i < j < |rows| ==> OnOrBefore(rows[i].date, rows[j].date)) &&
    (forall k :: 0 <= k < |rows| && rows[k].price.Some? ==> rows[k].price.value > 0.0)
  }

  function Keep(row: RawRow): seq<Obs>
  {
    match row.price
    case Some(v) => [Obs(row.date, v)]
    case None => []
  }

  /** The rows whose price parsed, in input order (`dropna` on the price column). */
  function Retained(rows: seq<RawRow>): (r: seq<Obs>)
    ensures |r| <= |rows|
    ensures forall k :: 0 <= k < |r| ==> RawRow(r[k].date, Some(r[k].price)) in rows
  {
    if rows == [] then []
    else Retained(rows[..|rows| - 1]) + Keep(rows[|rows| - 1])
  }

  function Dates(obs: seq<Obs>): seq<Date>
  {
    seq(|obs|, k requires 0 <= k < |obs| => obs[k].date)
  }

  function Prices(obs: seq<Obs>): seq<real>
  {
    seq(|obs|, k requires 0 <= k < |obs| => obs[k].price)
  }

  /** Dropping missing prices works row by row: it distributes over concatenation. */
  lemma {:induction false} RetainedAppend(a: seq<RawRow>, b: seq<RawRow>)
    ensures Retained(a + b) == Retained(a) + Retained(b)
  {
    if b == [] {
      assert a + b == a;
    } else {
      var b' := b[..|b| - 1];
      assert (a + b)[..|a + b| - 1] == a + b';
      RetainedAppend(a, b');
    }
  }

  /** With every price present nothing is dropped. */
  lemma {:induction false} RetainedAllPresent(rows: seq<RawRow>)
    requires forall k :: 0 <= k < |rows| ==> rows[k].price.Some?
    ensures |Retained(rows)| == |rows|
    ensures forall k :: 0 <= k < |rows| ==>
      Retained(rows)[k] == Obs(rows[k].date, rows[k].price.value)
  {
    if rows != [] {
      RetainedAllPresent(rows[..|rows| - 1]);
    }
  }

  /** The retained rows keep the date order, and their prices are positive. */
  lemma {:induction false} RetainedWellFormed(rows: seq<RawRow>)
    requires WellFormed(rows)
    ensures Ascending(Dates(Retained(rows)))
    ensures AllPositive(Prices(Retained(rows)))
  {
    if rows != [] {
      var init, last := rows[..|rows| - 1], rows[|rows| - 1];
      RetainedWellFormed(init);
      var r, r0 := Retained(rows), Retained(init);
      if last.price.Some? {
        forall i, j | 0 <= i < j < |r| ensures OnOrBefore(r[i].date, r[j].date) {
          if j == |r| - 1 {
            assert RawRow(r0[i].date, Some(r0[i].price)) in init;
            var m :| 0 <= m < |init| && init[m] == RawRow(r0[i].date, Some(r0[i].price));
            assert rows[m] == init[m];
          } else {
            assert Dates(r0)[i] == r[i].date && Dates(r0)[j] == r[j].date;
          }
        }
        forall k | 0 <= k < |r| ensures r[k].price > 0.0 {
          if k < |r0| {
            assert Prices(r0)[k] == r[k].price;
          }
        }
      } else {
        assert r == r0;
      }
    }
  }

  // ----- percent changes over a number of rows -----

  /** `(prices / prices.shift(n) - 1) * 100` at row i; `n == 1` is `pct_change() * 100`. */
  function Change(p: seq<real>, n: nat, i: nat): (c: Option<real>)
    requires AllPositive(p) && i < |p|
    ensures c.None? <==> i < n
    ensures c.Some? ==> p[i] == p[i - n] * (1.0 + c.value / 100.0)
    ensures c.Some? ==> (c.value > 0.0 <==> p[i] > p[i - n])
  {
    if i < n then None else Some(PercentChange(p[i], p[i - n]))
  }

  // ----- volatility and the momentum/volatility ratio -----

  const VolatilityWindow: nat := 20

  /** `prices.pct_change()` at row k >= 1, as a fraction. */
  function DailyReturn(p: seq<real>, k: nat): (r: real)
    requires AllPositive(p) && 1 <= k < |p|
    ensures p[k] == p[k - 1] * (1.0 + r)
    ensures r > -1.0
    ensures r > 0.0 <==> p[k] > p[k - 1]
  {
    p[k] / p[k - 1] - 1.0
  }

  /** The daily returns of rows lo..hi-1. */
  function DailyReturns(p: seq<real>, lo: nat, hi: nat): (r: seq<real>)
    requires AllPositive(p) && 1 <= lo <= hi <= |p|
    ensures |r| == hi - lo
  {
    seq(hi - lo, j requires 0 <= j < hi - lo => DailyReturn(p, lo + j))
  }

  /**
   * `daily_ret.rolling(window=20).std() * 100` at row i. The sample standard
   * deviation of a window is the parameter `sampleStd`. The daily return of
   * row 0 is missing, so the first complete window ends at row 20.
   */
  function Volatility(p: seq<real>, sampleStd: seq<real> -> real, i: nat): (v: Option<real>)
    requires AllPositive(p) && i < |p|
    ensures v.None? <==> i < VolatilityWindow
  {
    if i < VolatilityWindow then None
    else Some(sampleStd(DailyReturns(p, i + 1 - VolatilityWindow, i + 1)) * 100.0)
  }

  /**
   * `np.where(volatility != 0, momentum / volatility, 0)` with momentum and
   * volatility the 20-row change and the volatility divided by 100. Only an
   * exact zero is guarded: a missing volatility compares unequal to 0, and
   * dividing by it gives a missing ratio.
   */
  function Ratio(change20: Option<real>, volatility: Option<real>): (r: Option<real>)
    ensures volatility == Some(0.0) ==> r == Some(0.0)
    ensures volatility.None? ==> r.None?
    ensures volatility.Some? && volatility.value != 0.0 ==> (r.Some? <==> change20.Some?)
    ensures volatility.Some? && volatility.value != 0.0 && r.Some? ==>
      r.value * volatility.value == change20.value
  {
    match volatility
    case None => None
    case Some(v) =>
      if v / 100.0 != 0.0 then
        match change20
        case None => None
        case Some(c) => Some((c / 100.0) / (v / 100.0))
      else Some(0.0)
  }

  /** The ratio is missing exactly on rows 0..19, and those rows are rated "insufficient data". */
  lemma RatioFirstDefinedAt20(p: seq<real>, sampleStd: seq<real> -> real, rsi: Option<real>, i: nat)
    requires AllPositive(p) && i < |p|
    ensures var ratio := Ratio(Change(p, 20, i), Volatility(p, sampleStd, i));
      (ratio.None? <==> i < 20) &&
      (i < 20 ==> CalculateRating(rsi, ratio) == ("数据不足", "数据尚不充分", "#808080"))
  {
  }

  // ----- expanding percentile rank -----

  function CountBelow(s: seq<real>, x: real): (n: nat)
    ensures n <= |s|
  {
    if s == [] then 0 else CountBelow(s[..|s| - 1], x) + (if s[|s| - 1] < x then 1 else 0)
  }

  function CountEqual(s: seq<real>, x: real): (n: nat)
    ensures n <= |s|
  {
    if s == [] then 0 else CountEqual(s[..|s| - 1], x) + (if s[|s| - 1] == x then 1 else 0)
  }

  /**
   * `prices.expanding().rank(pct=True) * 100` at row i, before rounding: the
   * average rank of p[i] among p[0..i] (ties share the mean of their ranks)
   * over the window size.
   */
  function PercentRank(p: seq<real>, i: nat): (r: real)
    requires i < |p|
    ensures 0.0 < r <= 100.0
  {
    var w := p[..i + 1];
    assert w[..|w| - 1] == p[..i];
    CountsPartition(p[..i], p[i]);
    RankShare(CountBelow(p[..i], p[i]), CountEqual(p[..i], p[i]), i);
    100.0 * (CountBelow(w, p[i]) as real + (CountEqual(w, p[i]) as real + 1.0) / 2.0)
      / ((i + 1) as real)
  }

  lemma {:induction false} CountsPartition(s: seq<real>, x: real)
    ensures CountBelow(s, x) + CountEqual(s, x) <= |s|
    ensures CountBelow(s, x) == |s| <==> forall k :: 0 <= k < |s| ==> s[k] < x
  {
    if s != [] {
      var s' := s[..|s| - 1];
      CountsPartition(s', x);
      if CountBelow(s, x) == |s| {
        forall k | 0 <= k < |s| ensures s[k] < x {
          if k < |s'| { assert s[k] == s'[k]; }
        }
      }
      if forall k :: 0 <= k < |s| ==> s[k] < x {
        assert forall k :: 0 <= k < |s'| ==> s'[k] < x by {
          forall k | 0 <= k < |s'| ensures s'[k] < x { assert s'[k] == s[k]; }
        }
      }
    }
  }

  /** The rank at row i reads only rows 0..i: rows appended later never change it. */
  lemma PercentRankPrefix(p: seq<real>, q: seq<real>, i: nat)
    requires i < |p| <= |q| && p == q[..|p|]
    ensures PercentRank(p, i) == PercentRank(q, i)
  {
    assert p[..i + 1] == q[..i + 1];
  }

  /** The share arithmetic of the rank: b earlier rows below, e earlier rows equal. */
  lemma RankShare(b: nat, e: nat, i: nat)
    requires b + e <= i
    ensures var v := 100.0 * (b as real + ((e + 1) as real + 1.0) / 2.0) / ((i + 1) as real);
      0.0 < v <= 100.0 && (v == 100.0 <==> b == i)
  {
  }

  /**
   * The rank lies in (0, 100] and is 100 exactly when p[i] is above every
   * earlier price; in particular row 0 is always 100.
   */
  lemma PercentRankRange(p: seq<real>, i: nat)
    requires i < |p|
    ensures 0.0 < PercentRank(p, i) <= 100.0
    ensures PercentRank(p, i) == 100.0 <==> forall j :: 0 <= j < i ==> p[j] < p[i]
    ensures PercentRank(p, 0) == 100.0
  {
    var w, x := p[..i + 1], p[i];
    assert w[..|w| - 1] == p[..i];
    var b0, e0 := CountBelow(p[..i], x), CountEqual(p[..i], x);
    assert CountBelow(w, x) == b0 && CountEqual(w, x) == e0 + 1;
    CountsPartition(p[..i], x);
    RankShare(b0, e0, i);
    if b0 == i {
      assert forall j :: 0 <= j < i ==> p[j] < p[i] by {
        forall j | 0 <= j < i ensures p[j] < p[i] { assert p[..i][j] == p[j]; }
      }
    }
    if forall j :: 0 <= j < i ==> p[j] < p[i] {
      assert forall k :: 0 <= k < i ==> p[..i][k] < x;
    }
    assert p[..1] == [p[0]];
    assert [p[0]][..0] == [];
    RankShare(0, 0, 0);
  }

  // ----- year-to-date change -----

  /** The first index from k on whose date lies in year y, or |d| when there is none. */
  function FirstOfYear(d: seq<Date>, y: int, k: nat): (j: nat)
    requires k <= |d|
    ensures k <= j <= |d|
    ensures j < |d| ==> d[j].year == y
    ensures forall m :: k <= m < j ==> d[m].year != y
    decreases |d| - k
  {
    if k == |d| || d[k].year == y then k else FirstOfYear(d, y, k + 1)
  }

  /** The row that anchors row i's YTD change: the first row of i's calendar year. */
  function YearStart(d: seq<Date>, i: nat): (j: nat)
    requires i < |d|
    ensures j <= i && d[j].year == d[i].year
    ensures forall m :: 0 <= m < j ==> d[m].year != d[i].year
  {
    FirstOfYear(d, d[i].year, 0)
  }

  /** `(prices / ytd_start - 1) * 100` at row i. */
  function Ytd(d: seq<Date>, p: seq<real>, i: nat): (c: Option<real>)
    requires |d| == |p| && AllPositive(p) && i < |p|
    ensures c.Some?
    ensures YearStart(d, i) == i ==> c == Some(0.0)
  {
    Some(PercentChange(p[i], p[YearStart(d, i)]))
  }

  /**
   * In date order the anchor moves exactly at the first row of a new year:
   * row i starts its year iff the previous row lies in another year, and
   * otherwise it shares the previous row's anchor.
   */
  lemma YearStartStep(d: seq<Date>, i: nat)
    requires Ascending(d) && 0 < i < |d|
    ensures YearStart(d, i) == i <==> d[i - 1].year != d[i].year
    ensures YearStart(d, i) != i ==> YearStart(d, i) == YearStart(d, i - 1)
  {
  }

  /** Rows of the same calendar year share one anchor row, whose YTD change is 0. */
  lemma YearStartShared(d: seq<Date>, p: seq<real>, i: nat, j: nat)
    requires |d| == |p| && AllPositive(p) && i < |p| && j < |p| && d[i].year == d[j].year
    ensures YearStart(d, i) == YearStart(d, j)
    ensures Ytd(d, p, YearStart(d, i)) == Some(0.0)
  {
  }

  /** Every row between a year's first row and row i lies in that year. */
  lemma YearContiguous(d: seq<Date>, i: nat, k: nat)
    requires Ascending(d) && i < |d| && YearStart(d, i) <= k <= i
    ensures d[k].year == d[i].year
    ensures YearStart(d, k) == YearStart(d, i)
  {
  }

  // ----- change since the fixed anchor date -----

  const AnchorDate := Date(2024, 9, 30)

  /** The first index from k on whose date is on or after t (`mask.argmax()` when `mask.any()`). */
  function FirstOnOrAfter(d: seq<Date>, t: Date, k: nat): (r: Option<nat>)
    requires k <= |d|
    ensures r.None? ==> forall m :: k <= m < |d| ==> !OnOrBefore(t, d[m])
    ensures r.Some? ==> k <= r.value < |d| && OnOrBefore(t, d[r.value])
    ensures r.Some? ==> forall m :: k <= m < r.value ==> !OnOrBefore(t, d[m])
    decreases |d| - k
  {
    if k == |d| then None
    else if OnOrBefore(t, d[k]) then Some(k)
    else FirstOnOrAfter(d, t, k + 1)
  }

  /** Row k is the first row dated on or after 2024-09-30. */
  predicate IsAnchorRow(d: seq<Date>, k: int)
  {
    0 <= k < |d| && OnOrBefore(AnchorDate, d[k]) &&
    forall m :: 0 <= m < k ==> !OnOrBefore(AnchorDate, d[m])
  }

  /** The change since the first row dated on or after 2024-09-30. */
  function SinceAnchor(d: seq<Date>, p: seq<real>, i: nat): (c: Option<real>)
    requires |d| == |p| && AllPositive(p) && i < |p|
    ensures (forall m :: 0 <= m < |d| ==> !OnOrBefore(AnchorDate, d[m])) ==> c.None?
    ensures forall k :: IsAnchorRow(d, k) ==>
      (c.None? <==> i < k) && (c.Some? ==> p[i] == p[k] * (1.0 + c.value / 100.0))
  {
    match FirstOnOrAfter(d, AnchorDate, 0)
    case None => None
    case Some(k) => if i < k then None else Some(PercentChange(p[i], p[k]))
  }

  /**
   * No row on or after the anchor date: every value is missing. Otherwise,
   * with k the first such row, rows before k are missing, row k is 0 and
   * every later row is the percent change from p[k].
   */
  lemma SinceAnchorShape(d: seq<Date>, p: seq<real>)
    requires |d| == |p| && AllPositive(p)
    ensures (forall m :: 0 <= m < |d| ==> !OnOrBefore(AnchorDate, d[m])) ==>
      forall i :: 0 <= i < |p| ==> SinceAnchor(d, p, i).None?
    ensures forall k :: IsAnchorRow(d, k) ==>
      SinceAnchor(d, p, k) == Some(0.0) &&
      (forall i :: 0 <= i < k ==> SinceAnchor(d, p, i).None?) &&
      (forall i :: k <= i < |p| ==> SinceAnchor(d, p, i) == Some(PercentChange(p[i], p[k])))
  {
  }

  /** In date order the value is present exactly on the rows dated on or after 2024-09-30. */
  lemma SinceAnchorPresentIff(d: seq<Date>, p: seq<real>, i: nat)
    requires |d| == |p| && AllPositive(p) && Ascending(d) && i < |p|
    ensures SinceAnchor(d, p, i).Some? <==> OnOrBefore(AnchorDate, d[i])
  {
  }
}
