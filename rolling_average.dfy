/**
 * The benchmark panel's rolling average: a FIFO window of the last
 * `windowSize` positive readings. Readings are reals; float rounding is
 * not modelled.
 */
module Rolling {
  const ROLLING_AVERAGE_WINDOW: int := 30

  function Sum(s: seq<real>): real
    decreases |s|
  {
    if s == [] then 0.0 else Sum(s[..|s| - 1]) + s[|s| - 1]
  }

  /** `average()` of a window: 0 when empty, otherwise sum over count. */
  function Mean(s: seq<real>): (m: real)
    ensures m * (|s| as real) == Sum(s)
  {
    if s == [] then 0.0 else Sum(s) / (|s| as real)
  }

  /** The last `n` elements of `s` (all of them when there are fewer). */
  function Last(s: seq<real>, n: nat): (r: seq<real>)
    ensures |r| <= n && |r| <= |s|
    ensures |s| <= n ==> r == s
    ensures |s| > n ==> |r| == n
  {
    if |s| <= n then s else s[|s| - n..]
  }

  /** The window is a suffix of the readings: the newest ones, in arrival order. */
  lemma LastIsSuffix(s: seq<real>, n: nat)
    ensures Last(s, n) == s[|s| - |Last(s, n)|..]
  {
  }

  /** A window of `n` after one more reading: drop the oldest when full, then append. */
  lemma LastSnoc(s: seq<real>, n: nat, v: real)
    requires n >= 1
    ensures Last(s + [v], n) == (if |Last(s, n)| >= n then Last(s, n)[1..] else Last(s, n)) + [v]
    ensures (forall k :: 0 <= k < |s| ==> s[k] > 0.0) && v > 0.0 ==>
              forall k :: 0 <= k < |s + [v]| ==> (s + [v])[k] > 0.0
  {
    var t := s + [v];
    if |s| >= n {
      assert t[|t| - n..] == s[|s| - n + 1..] + [v];
    } else {
      assert Last(s, n) == s;
    }
  }

  lemma {:induction false} SumBounds(s: seq<real>, lo: real, hi: real)
    requires forall k :: 0 <= k < |s| ==> lo <= s[k] <= hi
    ensures (|s| as real) * lo <= Sum(s) <= (|s| as real) * hi
    decreases |s|
  {
    if s != [] {
      SumBounds(s[..|s| - 1], lo, hi);
    }
  }

  /** The average lies between the smallest and the largest reading in the window. */
  lemma MeanBetween(s: seq<real>, lo: real, hi: real)
    requires s != []
    requires forall k :: 0 <= k < |s| ==> lo <= s[k] <= hi
    ensures lo <= Mean(s) <= hi
  {
    SumBounds(s, lo, hi);
  }

  lemma {:induction false} SumPositive(s: seq<real>)
    requires s != [] && forall k :: 0 <= k < |s| ==> s[k] > 0.0
    ensures Sum(s) > 0.0
    decreases |s|
  {
    if |s| > 1 {
      SumPositive(s[..|s| - 1]);
    }
  }

  /** Only positive readings ever enter, so a non-empty window averages above zero. */
  lemma MeanOfPositives(s: seq<real>)
    requires forall k :: 0 <= k < |s| ==> s[k] > 0.0
    ensures s != [] ==> Mean(s) > 0.0
    ensures s == [] ==> Mean(s) == 0.0
  {
    if s != [] {
      SumPositive(s);
    }
  }

  class RollingAverage {
    const windowSize: int
    var values: seq<real>
    /** The positive readings accepted since construction or the last reset. */
    ghost var accepted: seq<real>

    /** The window is the last `windowSize` accepted readings, all positive. */
    ghost predicate Valid()
      reads this
    {
      && windowSize >= 1
      && values == Last(accepted, windowSize)
      && forall k :: 0 <= k < |accepted| ==> accepted[k] > 0.0
    }

    /** `RollingAverage(windowSize)`; the default is `ROLLING_AVERAGE_WINDOW`. */
    constructor (size: int)
      requires size >= 1
      ensures Valid() && windowSize == size && values == [] && accepted == []
    {
      windowSize := size;
      values := [];
      accepted := [];
    }

    function Average(): (r: real)
      reads this
      requires Valid()
      ensures r == Mean(values)
      ensures values != [] ==> r > 0.0
    {
      MeanOfPositives(values);
      if |values| == 0 then 0.0 else Sum(values) / (|values| as real)
    }

    /**
     * `add`: a reading that is not positive is ignored; otherwise the oldest
     * reading leaves a full window and the new one becomes the last.
     * Returns the new average.
     */
    method Add(value: real) returns (avg: real)
      requires Valid()
      modifies this`values, this`accepted
      ensures Valid()
      ensures avg == Mean(values)
      ensures value <= 0.0 ==> values == old(values) && accepted == old(accepted)
      ensures value > 0.0 ==>
                && accepted == old(accepted) + [value]
                && values == (if |old(values)| >= windowSize then old(values)[1..] else old(values)) + [value]
                && values[|values| - 1] == value
      ensures |values| <= windowSize
    {
      if value <= 0.0 {
        return Average();
      }
      ghost var window := values;
      LastSnoc(accepted, windowSize, value);
      if |values| >= windowSize {
        values := values[1..];
      }
      values := values + [value];
      accepted := accepted + [value];
      avg := Average();
    }

    /** `reset`: empties the window. */
    method Reset()
      requires Valid()
      modifies this`values, this`accepted
      ensures Valid() && values == [] && accepted == []
    {
      values := [];
      accepted := [];
    }
  }
}
