/** Values shared by the rating classifier and the indicator engine. */
module Common {

  /** A possibly missing number: `None` stands for the NaN marker of a column. */
  datatype Option<T> = None | Some(value: T)

  /** A calendar date, ordered lexicographically on (year, month, day). */
  datatype Date = Date(year: int, month: int, day: int)

  predicate OnOrBefore(a: Date, b: Date)
  {
    a.year < b.year ||
    (a.year == b.year && (a.month < b.month || (a.month == b.month && a.day <= b.day)))
  }

  /** Dates in non-decreasing order, as a sort by date leaves them. */
  predicate Ascending(d: seq<Date>)
  {
    forall i, j :: 0 <= i < j < |d| ==> OnOrBefore(d[i], d[j])
  }

  predicate AllPositive(p: seq<real>)
  {
    forall k :: 0 <= k < |p| ==> p[k] > 0.0
  }

  /** `(now / base - 1) * 100`: the percent change from `base` to `now`. */
  function PercentChange(now: real, base: real): (c: real)
    requires base > 0.0
    ensures now == base * (1.0 + c / 100.0)
    ensures c > 0.0 <==> now > base
    ensures c == 0.0 <==> now == base
  {
    var q := now / base;
    assert base * q == now;
    (q - 1.0) * 100.0
  }
}
