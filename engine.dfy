/**
 * The indicator engine: filters the input rows, then adds the indicator
 * columns one after another and rates every row. The filter, the change,
 * volatility, ratio, percentile, YTD and since-anchor columns and the three
 * rating columns are filled by loops proved equal, row by row, to their
 * definitions in `Indicators` and `Rating`; the RSI column is the sequence
 * function `Rsi.CalculateRsi` itself.
 */
module Engine {
  import opened Common
  import opened Rating
  import opened Indicators
  import Rsi

  /** The analysed frame, one entry per retained row in every column. */
  datatype Table = Table(
    dates: seq<Date>,
    prices: seq<real>,
    dailyChange: seq<Option<real>>,
    change20: seq<Option<real>>,
    change60: seq<Option<real>>,
    volatility: seq<Option<real>>,
    ratio: seq<Option<real>>,
    rsi: seq<Option<real>>,
    percentile: seq<real>,
    ytd: seq<Option<real>>,
    sinceAnchor: seq<Option<real>>,
    ratingLabel: seq<string>,
    ratingDescription: seq<string>,
    ratingColor: seq<string>)

  predicate Rectangular(t: Table)
  {
    var n := |t.prices|;
    |t.dates| == n && |t.dailyChange| == n && |t.change20| == n && |t.change60| == n &&
    |t.volatility| == n && |t.ratio| == n && |t.rsi| == n && |t.percentile| == n &&
    |t.ytd| == n && |t.sinceAnchor| == n &&
    |t.ratingLabel| == n && |t.ratingDescription| == n && |t.ratingColor| == n
  }

  /** Keeps the rows whose price parsed, splitting them into a date and a price column. */
  method DropMissing(rows: seq<RawRow>) returns (dates: seq<Date>, prices: seq<real>)
    ensures dates == Dates(Retained(rows)) && prices == Prices(Retained(rows))
  {
    dates, prices := [], [];
    var i := 0;
    while i < |rows|
      invariant 0 <= i <= |rows|
      invariant dates == Dates(Retained(rows[..i])) && prices == Prices(Retained(rows[..i]))
    {
      assert rows[..i + 1][..i] == rows[..i];
      match rows[i].price {
        case Some(v) =>
          dates, prices := dates + [rows[i].date], prices + [v];
        case None =>
      }
      i := i + 1;
    }
    assert rows[..|rows|] == rows;
  }

  /** The n-row percent change column. */
  method ChangeColumn(p: seq<real>, n: nat) returns (col: seq<Option<real>>)
    requires AllPositive(p)
    ensures |col| == |p|
    ensures forall i :: 0 <= i < |p| ==> col[i] == Change(p, n, i)
  {
    col := [];
    var i := 0;
    while i < |p|
      invariant 0 <= i <= |p| && |col| == i
      invariant forall k :: 0 <= k < i ==> col[k] == Change(p, n, k)
    {
      if i < n {
        col := col + [None];
      } else {
        col := col + [Some((p[i] / p[i - n] - 1.0) * 100.0)];
      }
      i := i + 1;
    }
  }

  /** The 20-row rolling volatility column, in percent. */
  method VolatilityColumn(p: seq<real>, sampleStd: seq<real> -> real) returns (col: seq<Option<real>>)
    requires AllPositive(p)
    ensures |col| == |p|
    ensures forall i :: 0 <= i < |p| ==> col[i] == Volatility(p, sampleStd, i)
  {
    col := [];
    var i := 0;
    while i < |p|
      invariant 0 <= i <= |p| && |col| == i
      invariant forall k :: 0 <= k < i ==> col[k] == Volatility(p, sampleStd, k)
    {
      if i < VolatilityWindow {
        col := col + [None];
      } else {
        var window := DailyReturns(p, i + 1 - VolatilityWindow, i + 1);
        col := col + [Some(sampleStd(window) * 100.0)];
      }
      i := i + 1;
    }
  }

  /** The momentum/volatility ratio column, with its guard on an exactly zero volatility. */
  method RatioColumn(change20: seq<Option<real>>, volatility: seq<Option<real>>)
    returns (col: seq<Option<real>>)
    requires |change20| == |volatility|
    ensures |col| == |change20|
    ensures forall i :: 0 <= i < |col| ==> col[i] == Ratio(change20[i], volatility[i])
  {
    col := [];
    var i := 0;
    while i < |change20|
      invariant 0 <= i <= |change20| && |col| == i
      invariant forall k :: 0 <= k < i ==> col[k] == Ratio(change20[k], volatility[k])
    {
      var r: Option<real>;
      if volatility[i].Some? && volatility[i].value / 100.0 == 0.0 {
        r := Some(0.0);
      } else if volatility[i].None? || change20[i].None? {
        r := None;
      } else {
        r := Some((change20[i].value / 100.0) / (volatility[i].value / 100.0));
      }
      col := col + [r];
      i := i + 1;
    }
  }

  /** Counts, in w, the entries below x and equal to x. */
  method CountRanks(w: seq<real>, x: real) returns (below: nat, equal: nat)
    ensures below == CountBelow(w, x) && equal == CountEqual(w, x)
  {
    below, equal := 0, 0;
    var j := 0;
    while j < |w|
      invariant 0 <= j <= |w|
      invariant below == CountBelow(w[..j], x) && equal == CountEqual(w[..j], x)
    {
      assert w[..j + 1][..j] == w[..j];
      if w[j] < x {
        below := below + 1;
      } else if w[j] == x {
        equal := equal + 1;
      }
      j := j + 1;
    }
    assert w[..|w|] == w;
  }

  /** The expanding percentile rank column, before rounding. */
  method PercentileColumn(p: seq<real>) returns (col: seq<real>)
    ensures |col| == |p|
    ensures forall i :: 0 <= i < |p| ==> col[i] == PercentRank(p, i)
  {
    col := [];
    var i := 0;
    while i < |p|
      invariant 0 <= i <= |p| && |col| == i
      invariant forall k :: 0 <= k < i ==> col[k] == PercentRank(p, k)
    {
      var below, equal := CountRanks(p[..i + 1], p[i]);
      col := col + [100.0 * (below as real + (equal as real + 1.0) / 2.0) / ((i + 1) as real)];
      i := i + 1;
    }
  }

  /**
   * The YTD column. A row opens its year when no earlier row has that year;
   * the anchor price is set on such rows and carried forward to the rows
   * after it.
   */
  method YtdColumn(d: seq<Date>, p: seq<real>) returns (col: seq<Option<real>>)
    requires |d| == |p| && Ascending(d) && AllPositive(p)
    ensures |col| == |p|
    ensures forall i :: 0 <= i < |p| ==> col[i] == Ytd(d, p, i)
  {
    col := [];
    var seen: set<int> := {};
    var anchor: Option<real> := None;
    var i := 0;
    while i < |p|
      invariant 0 <= i <= |p| && |col| == i
      invariant seen == set k | 0 <= k < i :: d[k].year
      invariant 0 < i ==> anchor == Some(p[YearStart(d, i - 1)])
      invariant forall k :: 0 <= k < i ==> col[k] == Ytd(d, p, k)
    {
      if d[i].year !in seen {
        anchor := Some(p[i]);
        seen := seen + {d[i].year};
      } else {
        ghost var k :| 0 <= k < i && d[k].year == d[i].year;
        assert k == i - 1 || OnOrBefore(d[k], d[i - 1]);
        YearStartStep(d, i);
      }
      assert anchor == Some(p[YearStart(d, i)]);
      match anchor {
        case Some(a) => col := col + [Some((p[i] / a - 1.0) * 100.0)];
        case None => col := col + [None];
      }
      i := i + 1;
    }
  }

  /**
   * The change-since-2024-09-30 column: find the first row on or after the
   * anchor date; if there is one, a NaN-initialised series gets its price
   * from that row to the end, and each row is compared with it.
   */
  method SinceAnchorColumn(d: seq<Date>, p: seq<real>) returns (col: seq<Option<real>>)
    requires |d| == |p| && AllPositive(p)
    ensures |col| == |p|
    ensures forall i :: 0 <= i < |p| ==> col[i] == SinceAnchor(d, p, i)
  {
    var n := |p|;
    var k := 0;
    while k < n && !OnOrBefore(AnchorDate, d[k])
      invariant 0 <= k <= n
      invariant FirstOnOrAfter(d, AnchorDate, 0) == FirstOnOrAfter(d, AnchorDate, k)
    {
      k := k + 1;
    }
    var base := new Option<real>[n](_ => None);
    if k < n {
      var j := k;
      while j < n
        invariant k <= j <= n
        invariant forall m :: 0 <= m < n ==> base[m] == if k <= m < j then Some(p[k]) else None
      {
        base[j] := Some(p[k]);
        j := j + 1;
      }
    }
    col := [];
    var i := 0;
    while i < n
      invariant 0 <= i <= n && |col| == i
      invariant forall m :: 0 <= m < i ==> col[m] == SinceAnchor(d, p, m)
    {
      match base[i] {
        case Some(b) => col := col + [Some((p[i] / b - 1.0) * 100.0)];
        case None => col := col + [None];
      }
      i := i + 1;
    }
  }

  /** Rates every row from its RSI and ratio. */
  method RatingColumns(rsi: seq<Option<real>>, ratio: seq<Option<real>>)
    returns (labels: seq<string>, descriptions: seq<string>, colors: seq<string>)
    requires |rsi| == |ratio|
    ensures |labels| == |descriptions| == |colors| == |rsi|
    ensures forall i :: 0 <= i < |rsi| ==>
      (labels[i], descriptions[i], colors[i]) == CalculateRating(rsi[i], ratio[i])
  {
    labels, descriptions, colors := [], [], [];
    var i := 0;
    while i < |rsi|
      invariant 0 <= i <= |rsi| && |labels| == |descriptions| == |colors| == i
      invariant forall k :: 0 <= k < i ==>
        (labels[k], descriptions[k], colors[k]) == CalculateRating(rsi[k], ratio[k])
    {
      var r := CalculateRating(rsi[i], ratio[i]);
      labels, descriptions, colors := labels + [r.0], descriptions + [r.1], colors + [r.2];
      i := i + 1;
    }
  }

  /** All indicators and the rating of every retained row. */
  method AnalyzeData(rows: seq<RawRow>, sampleStd: seq<real> -> real) returns (t: Table)
    requires WellFormed(rows)
    ensures t.dates == Dates(Retained(rows)) && t.prices == Prices(Retained(rows))
    ensures Rectangular(t) && |t.prices| == |Retained(rows)|
    ensures Ascending(t.dates) && AllPositive(t.prices)
    ensures forall i :: 0 <= i < |t.prices| ==>
      t.dailyChange[i] == Change(t.prices, 1, i) &&
      t.change20[i] == Change(t.prices, 20, i) &&
      t.change60[i] == Change(t.prices, 60, i) &&
      t.volatility[i] == Volatility(t.prices, sampleStd, i) &&
      t.ratio[i] == Ratio(t.change20[i], t.volatility[i]) &&
      t.rsi[i] == Rsi.CalculateRsi(t.prices)[i] &&
      t.percentile[i] == PercentRank(t.prices, i) &&
      t.ytd[i] == Ytd(t.dates, t.prices, i) &&
      t.sinceAnchor[i] == SinceAnchor(t.dates, t.prices, i) &&
      (t.ratingLabel[i], t.ratingDescription[i], t.ratingColor[i]) ==
        CalculateRating(t.rsi[i], t.ratio[i])
  {
    var dates, prices := DropMissing(rows);
    RetainedWellFormed(rows);
    var daily := ChangeColumn(prices, 1);
    var c20 := ChangeColumn(prices, 20);
    var c60 := ChangeColumn(prices, 60);
    var vol := VolatilityColumn(prices, sampleStd);
    var ratio := RatioColumn(c20, vol);
    var rsi := Rsi.CalculateRsi(prices);
    var pct := PercentileColumn(prices);
    var ytd := YtdColumn(dates, prices);
    var since := SinceAnchorColumn(dates, prices);
    var labels, descriptions, colors := RatingColumns(rsi, ratio);
    t := Table(dates, prices, daily, c20, c60, vol, ratio, rsi, pct, ytd, since,
               labels, descriptions, colors);
  }
}
