/** The accumulators of a MongoDB `$group` stage over a non-empty list of
    numeric values: `$sum`, `$min`, `$max` and `$avg`. */
module Stats {

  function Sum(s: seq<real>): real
  {
    if s == [] then 0.0 else s[0] + Sum(s[1..])
  }

  function Min(s: seq<real>): (m: real)
    requires |s| > 0
    ensures m in s
    ensures forall i :: 0 <= i < |s| ==> m <= s[i]
  {
    if |s| == 1 then s[0]
    else
      var rest := Min(s[1..]);
      if s[0] <= rest then s[0] else rest
  }

  function Max(s: seq<real>): (m: real)
    requires |s| > 0
    ensures m in s
    ensures forall i :: 0 <= i < |s| ==> s[i] <= m
  {
    if |s| == 1 then s[0]
    else
      var rest := Max(s[1..]);
      if s[0] >= rest then s[0] else rest
  }

  /** The arithmetic mean, as `$avg` computes it. */
  function Mean(s: seq<real>): real
    requires |s| > 0
  {
    Sum(s) / (|s| as real)
  }

  /** A lower bound of every value, times the number of values, bounds the sum. */
  lemma {:induction false} SumAtLeast(s: seq<real>, lo: real)
    requires forall i :: 0 <= i < |s| ==> lo <= s[i]
    ensures lo * (|s| as real) <= Sum(s)
  {
    if s != [] {
      SumAtLeast(s[1..], lo);
      Distribute(lo, |s[1..]| as real);
    }
  }

  /** An upper bound of every value, times the number of values, bounds the sum. */
  lemma {:induction false} SumAtMost(s: seq<real>, hi: real)
    requires forall i :: 0 <= i < |s| ==> s[i] <= hi
    ensures Sum(s) <= hi * (|s| as real)
  {
    if s != [] {
      SumAtMost(s[1..], hi);
      Distribute(hi, |s[1..]| as real);
    }
  }

  lemma Distribute(a: real, n: real)
    ensures a * (n + 1.0) == a * n + a
  {
  }

  /** The mean lies between the minimum and the maximum. */
  lemma MeanBetween(s: seq<real>)
    requires |s| > 0
    ensures Min(s) <= Mean(s) <= Max(s)
  {
    MeanAtLeast(s, Min(s));
    MeanAtMost(s, Max(s));
  }

  lemma MeanAtLeast(s: seq<real>, lo: real)
    requires |s| > 0
    requires forall i :: 0 <= i < |s| ==> lo <= s[i]
    ensures lo <= Mean(s)
  {
    SumAtLeast(s, lo);
    DivLower(lo, Sum(s), |s| as real);
  }

  lemma MeanAtMost(s: seq<real>, hi: real)
    requires |s| > 0
    requires forall i :: 0 <= i < |s| ==> s[i] <= hi
    ensures Mean(s) <= hi
  {
    SumAtMost(s, hi);
    DivUpper(Sum(s), hi, |s| as real);
  }

  lemma DivLower(lo: real, total: real, n: real)
    requires n > 0.0 && lo * n <= total
    ensures lo <= total / n
  {
    assert total / n * n == total;
  }

  lemma DivUpper(total: real, hi: real, n: real)
    requires n > 0.0 && total <= hi * n
    ensures total / n <= hi
  {
    assert total / n * n == total;
  }

  /** Reading a value off the front of the list updates the accumulators the way
      `$group` folds one more document in. */
  lemma ConsValues(v: real, s: seq<real>)
    requires |s| > 0
    ensures Sum([v] + s) == v + Sum(s)
    ensures Min([v] + s) == if v <= Min(s) then v else Min(s)
    ensures Max([v] + s) == if v >= Max(s) then v else Max(s)
  {
    assert ([v] + s)[1..] == s;
  }
}
