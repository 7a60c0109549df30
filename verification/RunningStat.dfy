/** Running mean and variance by Welford's recurrence, over the real numbers. */
module RunningStat {

  datatype Stat = Stat(cap: int, mean: real, s: real, meanLast: real, sLast: real, n: nat)

  function Fresh(cap: int): Stat {
    Stat(cap, 0.0, 0.0, 0.0, 0.0, 0)
  }

  /** The mean after x, as the n-th datum. */
  function NextMean(mean: real, x: real, n: nat): real
    requires n > 0
  {
    mean + (x - mean) / n as real
  }

  /** The sum of squared deviations after x, which moved the mean from mean to next. */
  function NextS(s: real, mean: real, next: real, x: real): real {
    s + (x - mean) * (x - next)
  }

  /** The count grows until the cap, if there is one; a count of 0 (only with a cap of 0) keeps the last datum. */
  function Push(st: Stat, x: real): Stat {
    var n := if st.cap < 0 || st.n < st.cap then st.n + 1 else st.n;
    if n == 0 then Stat(st.cap, x, st.s, x, 0.0, n)
    else
      var mean := NextMean(st.meanLast, x, n);
      var s := NextS(st.sLast, st.meanLast, mean, x);
      Stat(st.cap, mean, s, mean, s, n)
  }

  function Variance(st: Stat): real {
    if st.n >= 2 then st.s / (st.n as real - 1.0) else 0.0
  }

  function After(st: Stat, xs: seq<real>): Stat {
    if xs == [] then st else Push(After(st, xs[..|xs| - 1]), xs[|xs| - 1])
  }

  // ---- the definitions the recurrence is for ----

  function Sum(xs: seq<real>): real {
    if xs == [] then 0.0 else Sum(xs[..|xs| - 1]) + xs[|xs| - 1]
  }

  /** The sum of the squared deviations from c. */
  function Deviation(xs: seq<real>, c: real): (d: real)
    ensures d >= 0.0
  {
    if xs == [] then 0.0
    else
      SquareNotNegative(xs[|xs| - 1] - c);
      Deviation(xs[..|xs| - 1], c) + (xs[|xs| - 1] - c) * (xs[|xs| - 1] - c)
  }

  /** The fields are the count, mean and deviation sum of these data. */
  ghost predicate Summarizes(st: Stat, xs: seq<real>) {
    && st.n == |xs| && st.n as real * st.mean == Sum(xs) && st.s == Deviation(xs, st.mean)
    && st.meanLast == st.mean && st.sLast == st.s
  }

  lemma SquareNotNegative(x: real)
    ensures x * x >= 0.0
  {}

  /** How far a deviation sum from c exceeds the one from m, for n data that add up to sum. */
  function Excess(sum: real, n: real, m: real, c: real): real {
    2.0 * (m - c) * (sum - n * m) + n * ((m - c) * (m - c))
  }

  /** Moving the centre from m to c. */
  lemma {:induction false} DeviationShifts(xs: seq<real>, m: real, c: real)
    ensures Deviation(xs, c) == Deviation(xs, m) + Excess(Sum(xs), |xs| as real, m, c)
  {
    hide Excess, Deviation, Sum;
    if xs == [] {
      ShiftNothing(m, c);
    } else {
      var n := |xs| - 1;
      DeviationShifts(xs[..n], m, c);
      ShiftStep(Sum(xs[..n]), n as real, xs[n], m, c);
      OneMore(xs[..n], xs[n], m);
      OneMore(xs[..n], xs[n], c);
      assert xs[..n] + [xs[n]] == xs;
      assert |xs| as real == n as real + 1.0;
    }
  }

  lemma ShiftNothing(m: real, c: real)
    ensures Deviation([], c) == Deviation([], m) + Excess(Sum([]), 0.0, m, c)
  {}

  lemma ShiftStep(sum: real, n: real, x: real, m: real, c: real)
    ensures Excess(sum, n, m, c) + (x - c) * (x - c) == (x - m) * (x - m) + Excess(sum + x, n + 1.0, m, c)
  {
    assert (x - c) * (x - c) == (x - m) * (x - m) + 2.0 * (x - m) * (m - c) + (m - c) * (m - c);
    assert 2.0 * (m - c) * (sum + x - (n + 1.0) * m) == 2.0 * (m - c) * (sum - n * m) + 2.0 * (m - c) * (x - m);
  }

  /** From the mean, the excess is never negative. */
  lemma ExcessOfMean(sum: real, n: real, m: real, c: real)
    requires n * m == sum && n >= 0.0
    ensures Excess(sum, n, m, c) == n * ((m - c) * (m - c)) >= 0.0
  {
    SquareNotNegative(m - c);
    assert 2.0 * (m - c) * (sum - n * m) == 0.0;
  }

  /** The new deviation sum, with e the step of the mean and k the new count. */
  lemma StepOfS(m: real, e: real, k: real, x: real)
    requires x - m == k * e
    ensures (k - 1.0) * (e * e) + (x - (m + e)) * (x - (m + e)) == (x - m) * (x - (m + e))
  {
    assert x - (m + e) == (k - 1.0) * e;
    assert (x - m) * (x - (m + e)) == (k * e) * ((k - 1.0) * e);
    assert (x - (m + e)) * (x - (m + e)) == ((k - 1.0) * e) * ((k - 1.0) * e);
    assert (k * e) * ((k - 1.0) * e) - ((k - 1.0) * e) * ((k - 1.0) * e) == e * ((k - 1.0) * e);
  }

  /** Below the cap one push takes a summary of some data to the summary of one datum more. */
  lemma PushSummarizes(st: Stat, xs: seq<real>, x: real)
    requires Summarizes(st, xs) && (st.cap < 0 || st.n < st.cap)
    ensures Summarizes(Push(st, x), xs + [x])
  {
    hide Sum, Deviation, Excess;
    var m, k := st.mean, (st.n + 1) as real;
    var e := (x - m) / k;
    var after, more := Push(st, x), xs + [x];
    assert x - m == k * e;
    assert after.mean == m + e;
    OneMore(xs, x, m + e);
    DeviationShifts(xs, m, m + e);
    ExcessOfMean(Sum(xs), |xs| as real, m, m + e);
    assert |xs| as real == k - 1.0;
    assert (m - (m + e)) * (m - (m + e)) == e * e;
    StepOfS(m, e, k, x);
    assert k * (m + e) == (k - 1.0) * m + x;
  }

  lemma OneMore(xs: seq<real>, x: real, c: real)
    ensures Sum(xs + [x]) == Sum(xs) + x
    ensures Deviation(xs + [x], c) == Deviation(xs, c) + (x - c) * (x - c)
  {
    assert (xs + [x])[..|xs|] == xs;
  }

  /** From a summary of earlier data, pushing more data without reaching the cap gives the summary of all of them. */
  lemma {:induction false} DataAreSummarized(st: Stat, prior: seq<real>, xs: seq<real>)
    requires Summarizes(st, prior) && (st.cap < 0 || st.n + |xs| <= st.cap)
    ensures Summarizes(After(st, xs), prior + xs) && After(st, xs).cap == st.cap
  {
    hide Summarizes, Push;
    if xs == [] {
      assert prior + xs == prior;
    } else {
      var n := |xs| - 1;
      DataAreSummarized(st, prior, xs[..n]);
      CountOf(After(st, xs[..n]), prior + xs[..n]);
      CountOf(st, prior);
      PushSummarizes(After(st, xs[..n]), prior + xs[..n], xs[n]);
      PushKeepsCap(After(st, xs[..n]), xs[n]);
      assert prior + xs[..n] + [xs[n]] == prior + xs;
    }
  }

  lemma CountOf(st: Stat, xs: seq<real>)
    requires Summarizes(st, xs)
    ensures st.n == |xs|
  {}

  lemma PushKeepsCap(st: Stat, x: real)
    ensures Push(st, x).cap == st.cap
  {}

  /** Without a cap, after any data at all: n times the mean is their sum, S is the sum of their squared deviations from
      the mean, and the variance is the unbiased sample variance, which is not negative. */
  lemma WelfordIsCorrect(cap: int, xs: seq<real>)
    requires cap < 0 && |xs| >= 1
    ensures var st := After(Fresh(cap), xs);
      && st.n == |xs| && |xs| as real * st.mean == Sum(xs) && st.s == Deviation(xs, st.mean)
      && Variance(st) >= 0.0
      && (|xs| >= 2 ==> Variance(st) * (|xs| as real - 1.0) == Deviation(xs, st.mean))
  {
    hide Push, Deviation, Sum, Variance;
    FreshSummarizesNothing(cap);
    DataAreSummarized(Fresh(cap), [], xs);
    assert [] + xs == xs;
    var st := After(Fresh(cap), xs);
    VarianceOf(st);
  }

  lemma VarianceOf(st: Stat)
    requires st.s >= 0.0
    ensures Variance(st) >= 0.0
    ensures st.n >= 2 ==> Variance(st) * (st.n as real - 1.0) == st.s
  {
    if st.n >= 2 {
      QuotientNotNegative(st.s, st.n as real - 1.0);
    }
  }

  lemma FreshSummarizesNothing(cap: int)
    ensures Summarizes(Fresh(cap), [])
  {}

  lemma QuotientNotNegative(a: real, b: real)
    requires a >= 0.0 && b > 0.0
    ensures a / b >= 0.0 && a / b * b == a
  {}

  /** Of all centres the mean has the least deviation sum. */
  lemma MeanIsBestCentre(cap: int, xs: seq<real>, c: real)
    requires cap < 0 && |xs| >= 1
    ensures After(Fresh(cap), xs).s <= Deviation(xs, c)
  {
    hide Push, Deviation, Sum;
    WelfordIsCorrect(cap, xs);
    var m := After(Fresh(cap), xs).mean;
    DeviationShifts(xs, m, c);
    ExcessOfMean(Sum(xs), |xs| as real, m, c);
  }

  lemma StepNotNegative(m: real, x: real, k: real)
    requires k >= 1.0
    ensures (x - m) * (x - (m + (x - m) / k)) >= 0.0
  {
    var e := (x - m) / k;
    assert x - m == k * e;
    StepOfS(m, e, k, x);
    SquareNotNegative(e);
    SquareNotNegative(x - (m + e));
    NotNegative(k - 1.0, e * e);
  }

  lemma NotNegative(a: real, b: real)
    requires a >= 0.0 && b >= 0.0
    ensures a * b >= 0.0
  {}

  /** With any cap a push never lowers S once a datum has been counted, so the variance cannot become negative. */
  lemma PushRaisesS(st: Stat, x: real)
    requires st.sLast >= 0.0 && st.s >= 0.0
    ensures Push(st, x).sLast >= 0.0 && Push(st, x).s >= 0.0 && Variance(Push(st, x)) >= 0.0
    ensures Push(st, x).n > 0 ==> Push(st, x).s >= st.sLast
  {
    hide Variance;
    var after := Push(st, x);
    if after.n > 0 {
      var mean := st.meanLast + (x - st.meanLast) / after.n as real;
      StepNotNegative(st.meanLast, x, after.n as real);
      assert (x - st.meanLast) * (x - mean) >= 0.0;
      assert after.s == st.sLast + (x - st.meanLast) * (x - mean);
    }
    VarianceOf(after);
  }

  /** So for every cap and all data the variance stays non-negative. */
  lemma {:induction false} VarianceNotNegative(cap: int, xs: seq<real>)
    ensures Variance(After(Fresh(cap), xs)) >= 0.0
    ensures After(Fresh(cap), xs).s >= 0.0 && After(Fresh(cap), xs).sLast >= 0.0
  {
    hide Push;
    if xs != [] {
      VarianceNotNegative(cap, xs[..|xs| - 1]);
      PushRaisesS(After(Fresh(cap), xs[..|xs| - 1]), xs[|xs| - 1]);
    }
  }

  /** At the cap the oldest data are not forgotten but fade: the mean moves 1/cap of the way to each new datum. */
  lemma CappedMeanFades(st: Stat, x: real)
    requires st.cap > 0 && st.n == st.cap
    ensures var after := Push(st, x);
      after.n == st.cap && after.mean * st.cap as real == st.meanLast * (st.cap as real - 1.0) + x
  {
    var k := st.cap as real;
    var e := (x - st.meanLast) / k;
    assert e * k == x - st.meanLast;
    assert (st.meanLast + e) * k == st.meanLast * k + e * k;
  }

  class Running {
    const maxTrackable: int
    var m: real
    var s: real
    var mLast: real
    var sLast: real
    var n: nat

    ghost function State(): Stat
      reads this
    {
      Stat(maxTrackable, m, s, mLast, sLast, n)
    }

    constructor (maxTrackable: int)
      ensures State() == Fresh(maxTrackable)
    {
      this.maxTrackable := maxTrackable;
      m, s, mLast, sLast, n := 0.0, 0.0, 0.0, 0.0, 0;
    }

    constructor FromHistory(mean: real, s: real, n: nat, maxTrackable: int)
      ensures State() == Stat(maxTrackable, mean, s, mean, s, n)
    {
      this.maxTrackable := maxTrackable;
      m, this.s, mLast, sLast, this.n := mean, s, mean, s, n;
    }

    method Reset()
      modifies this
      ensures State() == Fresh(maxTrackable)
    {
      m, s, mLast, sLast, n := 0.0, 0.0, 0.0, 0.0, 0;
    }

    method PushData(x: real)
      modifies this
      ensures State() == Push(old(State()), x)
    {
      hide NextMean, NextS;
      if maxTrackable < 0 || n < maxTrackable {
        n := n + 1;
      }
      if n == 0 {
        mLast := x;
        m := mLast;
        sLast := 0.0;
      } else {
        m := NextMean(mLast, x, n);
        s := NextS(sLast, mLast, m, x);
        mLast := m;
        sLast := s;
      }
    }

    method GetVariance() returns (v: real)
      ensures v == Variance(State())
    {
      if n >= 2 {
        return s / (n as real - 1.0);
      }
      return 0.0;
    }
  }
}
