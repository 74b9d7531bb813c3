/**
 * RSI(14) of a price series: the day-over-day delta is split into a gain
 * series and a loss series, each is averaged over a trailing 14-row window,
 * and RSI = 100 - 100 / (1 + gain / loss).
 *
 * The first delta is missing (there is no earlier row), but the split keeps
 * a delta only where it compares `> 0` (or `< 0`) and puts 0 elsewhere; a
 * missing delta compares false, so both series are 0 at row 0 and complete.
 * The rolling mean is therefore first defined at row 13.
 */
module Rsi {
  import opened Common

  const Period: nat := 14

  /** `series.diff()` at row k: missing at row 0, otherwise the step from the previous row. */
  function Delta(p: seq<real>, k: nat): (d: Option<real>)
    requires k < |p|
    ensures d.None? <==> k == 0
    ensures d.Some? ==> p[k - 1] + d.value == p[k]
  {
    if k == 0 then None else Some(p[k] - p[k - 1])
  }

  /** `delta.where(delta > 0, 0)` at one row: max(delta, 0), and 0 for a missing delta. */
  function Gain(delta: Option<real>): (g: real)
    ensures g >= 0.0
    ensures delta.None? ==> g == 0.0
    ensures delta.Some? ==> g >= delta.value && (g == 0.0 || g == delta.value)
  {
    match delta
    case Some(x) => if x > 0.0 then x else 0.0
    case None => 0.0
  }

  /** `-delta.where(delta < 0, 0)` at one row: max(-delta, 0), and 0 for a missing delta. */
  function Loss(delta: Option<real>): (l: real)
    ensures l >= 0.0
    ensures delta.None? ==> l == 0.0
    ensures delta.Some? ==> l >= -delta.value && (l == 0.0 || l == -delta.value)
  {
    match delta
    case Some(x) => if x < 0.0 then -x else 0.0
    case None => 0.0
  }

  function Gains(p: seq<real>): (g: seq<real>)
    ensures |g| == |p|
    ensures forall k :: 0 <= k < |p| ==> g[k] >= 0.0
    ensures 0 < |p| ==> g[0] == 0.0
  {
    seq(|p|, k requires 0 <= k < |p| => Gain(Delta(p, k)))
  }

  function Losses(p: seq<real>): (l: seq<real>)
    ensures |l| == |p|
    ensures forall k :: 0 <= k < |p| ==> l[k] >= 0.0
    ensures 0 < |p| ==> l[0] == 0.0
  {
    seq(|p|, k requires 0 <= k < |p| => Loss(Delta(p, k)))
  }

  function Sum(xs: seq<real>): real
  {
    if xs == [] then 0.0 else Sum(xs[..|xs| - 1]) + xs[|xs| - 1]
  }

  lemma {:induction false} SumNonNegative(xs: seq<real>)
    requires forall k :: 0 <= k < |xs| ==> xs[k] >= 0.0
    ensures Sum(xs) >= 0.0
  {
    if xs != [] {
      SumNonNegative(xs[..|xs| - 1]);
    }
  }

  /** `rolling(window=w).mean()` at row i of a series with no missing entry. */
  function RollingMean(xs: seq<real>, w: nat, i: nat): (m: Option<real>)
    requires 0 < w && i < |xs|
    requires forall k :: 0 <= k < |xs| ==> xs[k] >= 0.0
    ensures m.None? <==> i + 1 < w
    ensures m.Some? ==> m.value >= 0.0
  {
    if i + 1 < w then None
    else
      SumNonNegative(xs[i + 1 - w..i + 1]);
      Some(Sum(xs[i + 1 - w..i + 1]) / (w as real))
  }

  /** The result of an IEEE division of two non-negative values. */
  datatype Quotient = Finite(x: real) | PosInfinity | NaN

  function Divide(a: real, b: real): (q: Quotient)
    requires a >= 0.0 && b >= 0.0
    ensures q.NaN? <==> a == 0.0 && b == 0.0
    ensures q.PosInfinity? <==> a != 0.0 && b == 0.0
    ensures q.Finite? ==> q.x >= 0.0 && q.x * b == a
  {
    if b != 0.0 then Finite(a / b) else if a == 0.0 then NaN else PosInfinity
  }

  /** `100 - 100 / (1 + rs)` with `rs = g / l` evaluated as IEEE does. */
  function RsiFromMeans(g: real, l: real): (r: Option<real>)
    requires g >= 0.0 && l >= 0.0
    ensures r.None? <==> g == 0.0 && l == 0.0
    ensures g != 0.0 && l == 0.0 ==> r == Some(100.0)
    ensures g == 0.0 && l != 0.0 ==> r == Some(0.0)
  {
    match Divide(g, l)
    case NaN => None                               // 0 / 0 stays NaN throughout
    case PosInfinity => Some(100.0 - 0.0)          // 100 / (1 + inf) is 0
    case Finite(rs) => Some(100.0 - 100.0 / (1.0 + rs))
  }

  lemma QuotientIntro(x: real, y: real, s: real)
    requires s != 0.0 && x * s == y
    ensures x == y / s
  {
  }

  /** The RSI formula in closed form: missing exactly when both means are 0. */
  lemma RsiClosedForm(g: real, l: real)
    requires g >= 0.0 && l >= 0.0
    ensures RsiFromMeans(g, l) == if g + l == 0.0 then None else Some(100.0 * g / (g + l))
  {
    if l != 0.0 {
      var rs := g / l;
      var t := 1.0 + rs;
      assert t * l == g + l;
      var u := 100.0 / t;
      assert u * t == 100.0;
      calc {
        u * (g + l);
        u * (t * l);
        (u * t) * l;
        100.0 * l;
      }
      calc {
        (100.0 - u) * (g + l);
        100.0 * (g + l) - u * (g + l);
        100.0 * g;
      }
      QuotientIntro(100.0 - u, 100.0 * g, g + l);
    } else if g != 0.0 {
      QuotientIntro(100.0, 100.0 * g, g);
    }
  }

  /** The closed form as a share: v and 100 - v split 100 in the ratio g : l. */
  lemma ShareSplit(g: real, l: real)
    requires g >= 0.0 && l >= 0.0 && g + l != 0.0
    ensures 100.0 - 100.0 * g / (g + l) == 100.0 * l / (g + l)
    ensures 100.0 * g / (g + l) - 50.0 == 50.0 * (g - l) / (g + l)
  {
    var s := g + l;
    var v, w := 100.0 * g / s, 100.0 * l / s;
    assert v * s == 100.0 * g;
    assert w * s == 100.0 * l;
    assert (100.0 - v) * s == 100.0 * l;
    QuotientIntro(100.0 - v, 100.0 * l, s);
    assert (v - 50.0) * s == 50.0 * (g - l);
    QuotientIntro(v - 50.0, 50.0 * (g - l), s);
  }

  /** `calculate_rsi(series, 14)`: one value per row. */
  function CalculateRsi(p: seq<real>): (r: seq<Option<real>>)
    ensures |r| == |p|
  {
    var gains, losses := Gains(p), Losses(p);
    seq(|p|, i requires 0 <= i < |p| =>
      match (RollingMean(gains, Period, i), RollingMean(losses, Period, i))
      case (Some(g), Some(l)) => RsiFromMeans(g, l)
      case _ => None)
  }

  /** Sum of a trailing window of 14 entries ending at row i. */
  function WindowSum(xs: seq<real>, i: nat): real
    requires Period <= i + 1 <= |xs|
  {
    Sum(xs[i + 1 - Period..i + 1])
  }

  /**
   * RSI per row: missing before row 13; from row 13 on, with G and L the
   * window means of gains and losses, missing when G + L == 0 and
   * 100 * G / (G + L) otherwise.
   */
  lemma RsiAt(p: seq<real>, i: nat)
    requires i < |p|
    ensures i + 1 < Period ==> CalculateRsi(p)[i].None?
    ensures Period <= i + 1 ==>
      var g, l := WindowSum(Gains(p), i) / 14.0, WindowSum(Losses(p), i) / 14.0;
      g >= 0.0 && l >= 0.0 &&
      CalculateRsi(p)[i] == if g + l == 0.0 then None else Some(100.0 * g / (g + l))
  {
    if Period <= i + 1 {
      var g, l := WindowSum(Gains(p), i) / 14.0, WindowSum(Losses(p), i) / 14.0;
      assert RollingMean(Gains(p), Period, i) == Some(g);
      assert RollingMean(Losses(p), Period, i) == Some(l);
      RsiClosedForm(g, l);
    }
  }

  /** A present RSI lies in [0, 100] and is 100 exactly when the loss mean is 0. */
  lemma RsiBounds(p: seq<real>, i: nat)
    requires i < |p| && CalculateRsi(p)[i].Some?
    ensures Period <= i + 1
    ensures 0.0 <= CalculateRsi(p)[i].value <= 100.0
    ensures CalculateRsi(p)[i].value == 100.0 <==> WindowSum(Losses(p), i) == 0.0
  {
  }

  /** Gains minus losses over rows a..b-1 telescope to a price difference. */
  lemma {:induction false} GainsMinusLosses(p: seq<real>, a: nat, b: nat)
    requires a < b <= |p|
    ensures Sum(Gains(p)[a..b]) - Sum(Losses(p)[a..b]) == p[b - 1] - p[if a == 0 then 0 else a - 1]
  {
    var gs, ls := Gains(p)[a..b], Losses(p)[a..b];
    if b == a + 1 {
      assert gs == [Gains(p)[a]] && ls == [Losses(p)[a]];
      assert Sum(gs) == Sum([]) + Gains(p)[a];
      assert Sum(ls) == Sum([]) + Losses(p)[a];
    } else {
      GainsMinusLosses(p, a, b - 1);
      assert gs[..|gs| - 1] == Gains(p)[a..b - 1];
      assert ls[..|ls| - 1] == Losses(p)[a..b - 1];
      assert Gains(p)[b - 1] - Losses(p)[b - 1] == p[b - 1] - p[b - 2];
    }
  }

  /**
   * RSI is above 50 exactly when the price rose over the window (from row
   * i - 14, or from row 0 when i is 13), and equal to 50 exactly when it is
   * unchanged.
   */
  lemma RsiMidline(p: seq<real>, i: nat)
    requires i < |p| && CalculateRsi(p)[i].Some?
    ensures Period <= i + 1
    ensures var from := if i + 1 == Period then 0 else i - Period;
      (CalculateRsi(p)[i].value > 50.0 <==> p[i] > p[from]) &&
      (CalculateRsi(p)[i].value == 50.0 <==> p[i] == p[from])
  {
    RsiAt(p, i);
    GainsMinusLosses(p, i + 1 - Period, i + 1);
    var g, l := WindowSum(Gains(p), i) / 14.0, WindowSum(Losses(p), i) / 14.0;
    ShareSplit(g, l);
  }
}
