/**
 * Picking the date column and the price column of an uploaded table by
 * keywords in the lower-cased column names. Every column is inspected in
 * order and a later match replaces an earlier one, so the last matching
 * column wins; one column may match both roles.
 */
module Columns {
  import opened Common

  const DateKeywords: seq<string> := ["日期", "date"]
  const PriceKeywords: seq<string> := ["净值", "收盘", "price", "nav", "累计"]

  /** Lower-cases the ASCII letters A-Z and leaves every other character alone. */
  function Lower(s: string): (r: string)
    ensures |r| == |s|
    ensures forall k :: 0 <= k < |s| ==> ('A' <= s[k] <= 'Z' <==> r[k] != s[k])
    ensures forall k :: 0 <= k < |s| && 'A' <= s[k] <= 'Z' ==>
      'a' <= r[k] <= 'z' && r[k] as int == s[k] as int + 32
  {
    seq(|s|, k requires 0 <= k < |s| =>
      if 'A' <= s[k] <= 'Z' then (s[k] as int + 32) as char else s[k])
  }

  /** sub occurs in s starting at position k. */
  predicate OccursAt(s: string, sub: string, k: int)
  {
    0 <= k && k + |sub| <= |s| && s[k..k + |sub|] == sub
  }

  /** `sub in s` for strings. */
  predicate Contains(s: string, sub: string)
  {
    exists k :: 0 <= k <= |s| && OccursAt(s, sub, k)
  }

  predicate MatchesAny(name: string, keywords: seq<string>)
  {
    exists j :: 0 <= j < |keywords| && Contains(Lower(name), keywords[j])
  }

  /**
   * r is the index of the last of the first n columns whose name matches one
   * of the keywords, or `None` when none of them does.
   */
  predicate IsLastMatch(columns: seq<string>, keywords: seq<string>, n: nat, r: Option<nat>)
    requires n <= |columns|
  {
    match r
    case None => forall k :: 0 <= k < n ==> !MatchesAny(columns[k], keywords)
    case Some(c) =>
      c < n && MatchesAny(columns[c], keywords) &&
      forall k :: c < k < n ==> !MatchesAny(columns[k], keywords)
  }

  /**
   * The detection loop: each role gets the last column whose lower-cased
   * name contains one of its keywords, or `None` (the source then reports
   * the columns it saw and stops).
   */
  method DetectColumns(columns: seq<string>) returns (dateCol: Option<nat>, priceCol: Option<nat>)
    ensures IsLastMatch(columns, DateKeywords, |columns|, dateCol)
    ensures IsLastMatch(columns, PriceKeywords, |columns|, priceCol)
  {
    dateCol, priceCol := None, None;
    var i := 0;
    while i < |columns|
      invariant 0 <= i <= |columns|
      invariant IsLastMatch(columns, DateKeywords, i, dateCol)
      invariant IsLastMatch(columns, PriceKeywords, i, priceCol)
    {
      var name := Lower(columns[i]);
      var isDate := ContainsAny(name, DateKeywords);
      if isDate {
        dateCol := Some(i);
      }
      var isPrice := ContainsAny(name, PriceKeywords);
      if isPrice {
        priceCol := Some(i);
      }
      i := i + 1;
    }
  }

  /** Whether s contains one of the keywords, searched position by position. */
  method ContainsAny(s: string, keywords: seq<string>) returns (found: bool)
    ensures found <==> exists j :: 0 <= j < |keywords| && Contains(s, keywords[j])
  {
    found := false;
    var j := 0;
    while j < |keywords| && !found
      invariant 0 <= j <= |keywords|
      invariant found <==> exists m :: 0 <= m < j && Contains(s, keywords[m])
    {
      var sub := keywords[j];
      var k := 0;
      while k + |sub| <= |s| && !found
        invariant 0 <= k
        invariant found ==> Contains(s, sub)
        invariant !found ==> forall m :: 0 <= m < k ==> !OccursAt(s, sub, m)
      {
        if s[k..k + |sub|] == sub {
          assert OccursAt(s, sub, k);
          found := true;
        }
        k := k + 1;
      }
      j := j + 1;
    }
  }
}
