/**
 The regular expressions of the delivery models all have one shape,
 `^[ranges]{min,max}$`: one bracket expression of character ranges, repeated
 between `min` and `max` times, anchored at both ends. This module gives the
 matcher for that shape (a greedy scan, as a backtracking engine performs it)
 and proves it equal to the declarative reading "length within bounds, every
 character in the class".
 */
module Regex {

  /** An inclusive character range `lo-hi` inside a bracket expression. */
  datatype Range = Range(lo: char, hi: char)

  /** The anchored pattern `^[ranges]{min,max}$`. */
  datatype Pattern = Pattern(ranges: seq<Range>, min: nat, max: nat)

  /** `c` matches the bracket expression made of `ranges`. */
  predicate InClass(ranges: seq<Range>, c: char)
  {
    |ranges| > 0 && ((ranges[0].lo <= c <= ranges[0].hi) || InClass(ranges[1..], c))
  }

  /** Every character of `s` is in the class. */
  predicate AllInClass(ranges: seq<Range>, s: string)
  {
    forall i :: 0 <= i < |s| ==> InClass(ranges, s[i])
  }

  /**
   The greedy quantifier `{,limit}`: how many leading characters of `s` are in
   the class, consuming at most `limit`. It stops at the first character outside
   the class, at the end of input, or at the limit.
   */
  function GreedyRun(ranges: seq<Range>, s: string, limit: nat): (k: nat)
    ensures k <= limit && k <= |s|
    ensures forall i :: 0 <= i < k ==> InClass(ranges, s[i])
    ensures k < limit && k < |s| ==> !InClass(ranges, s[k])
    decreases limit
  {
    if limit == 0 || |s| == 0 || !InClass(ranges, s[0]) then 0
    else 1 + GreedyRun(ranges, s[1..], limit - 1)
  }

  /**
   `RegExp.prototype.test` for an anchored pattern: the greedy run must reach
   the minimum and the end anchor must follow it. Backtracking to a shorter run
   never helps, since `$` needs the whole input consumed.
   */
  function Test(p: Pattern, s: string): (r: bool)
    ensures r <==> p.min <= |s| <= p.max && AllInClass(p.ranges, s)
  {
    var k := GreedyRun(p.ranges, s, p.max);
    p.min <= k && k == |s|
  }
}
