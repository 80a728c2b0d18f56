/**
 * The two ways a raw chart or reference series is cut down to a fixed sample count:
 * a window anchored at the last occurrence of the series' peak, and an evenly spaced
 * resampling across the whole series.
 */
module Series {
  import opened Common
  import opened Rounding

  /** A raw series entry: the `' '` placeholder, or a number. */
  datatype Entry = Blank | Num(value: real)

  /** Drops the placeholders and keeps the numbers in order. */
  function Filter(data: seq<Entry>): (f: seq<real>)
    ensures |f| <= |data|
  {
    if data == [] then []
    else if data[0].Blank? then Filter(data[1..])
    else [data[0].value] + Filter(data[1..])
  }

  /** Filtering keeps exactly the numbers of the series. */
  lemma {:induction false} FilterMembers(data: seq<Entry>)
    ensures forall x :: x in Filter(data) <==> Num(x) in data
  {
    if data != [] {
      FilterMembers(data[1..]);
      assert forall e :: e in data <==> e == data[0] || e in data[1..];
    }
  }

  /** Filtering distributes over concatenation. */
  lemma {:induction false} FilterAppend(a: seq<Entry>, b: seq<Entry>)
    ensures Filter(a + b) == Filter(a) + Filter(b)
  {
    if a == [] {
      assert a + b == b;
    } else {
      assert (a + b)[0] == a[0];
      assert (a + b)[1..] == a[1..] + b;
      FilterAppend(a[1..], b);
    }
  }

  /** A series without placeholders filters to its own values. */
  lemma {:induction false} FilterOfNumbers(data: seq<Entry>)
    requires forall i :: 0 <= i < |data| ==> data[i].Num?
    ensures Filter(data) == seq(|data|, i requires 0 <= i < |data| => data[i].value)
  {
    if data != [] {
      FilterOfNumbers(data[1..]);
    }
  }

  /** Python's `max` over a non-empty list of numbers. */
  function SeqMax(s: seq<real>): (m: real)
    requires |s| > 0
    ensures m in s
    ensures forall i :: 0 <= i < |s| ==> s[i] <= m
  {
    if |s| == 1 then s[0]
    else
      var rest := SeqMax(s[1..]);
      if s[0] >= rest then s[0] else rest
  }

  /** The last index holding `v`, or -1 when `v` does not occur. */
  function LastIndexOf(s: seq<real>, v: real): (k: int)
    ensures -1 <= k < |s|
    ensures k >= 0 ==> s[k] == v
    ensures forall j :: k < j < |s| ==> s[j] != v
    ensures v in s ==> k >= 0
  {
    if s == [] then -1
    else if Last(s) == v then |s| - 1
    else LastIndexOf(s[..|s| - 1], v)
  }

  /** The last of the indices at which the series attains its maximum. */
  function LastMaxIndex(f: seq<real>): (k: nat)
    requires |f| > 0
    ensures k < |f| && f[k] == SeqMax(f)
    ensures forall j :: 0 <= j < |f| ==> f[j] <= f[k]
    ensures forall j :: k < j < |f| ==> f[j] < f[k]
  {
    LastIndexOf(f, SeqMax(f))
  }

  /** Any index holding a maximum with only smaller values after it is the last peak. */
  lemma LastMaxIndexUnique(f: seq<real>, k: nat)
    requires k < |f|
    requires forall j :: 0 <= j < |f| ==> f[j] <= f[k]
    requires forall j :: k < j < |f| ==> f[j] < f[k]
    ensures LastMaxIndex(f) == k
  {
  }

  /** Python's `s[lo:hi]` for non-negative bounds: the stop is clipped to the length. */
  function Slice(s: seq<real>, lo: nat, hi: nat): (r: seq<real>)
    ensures |r| == if lo < hi && lo < |s| then (if hi < |s| then hi else |s|) - lo else 0
    ensures lo <= hi <= |s| ==> r == s[lo..hi]
  {
    var h := if hi < |s| then hi else |s|;
    if lo >= h then [] else s[lo..h]
  }

  /** Where the window starts: at the beginning when the peak is among the first `n`
      values, otherwise `n - 1` places before the last peak. */
  function WindowStart(f: seq<real>, n: int): nat
    requires |f| > 0
  {
    var k := LastMaxIndex(f);
    if k - (n - 1) > 0 then k - (n - 1) else 0
  }

  /** The windowing rule on the already filtered numbers. */
  function WindowOf(f: seq<real>, n: int): seq<real>
    requires |f| > 0
  {
    var k := LastMaxIndex(f);
    var start := WindowStart(f, n);
    if k < n then Slice(f, start, n)
    else Slice(f, start, k + 1)
  }

  /**
   * `retain_numbers_before_last_max`: the `n` values that end at the last peak, or the
   * first `n` values when that peak lies among them. The sample count is not checked:
   * `n <= 0` gives an empty window and `n` past the length the whole filtered series.
   */
  function Window(data: seq<Entry>, n: int): (w: Result<seq<real>>)
    ensures data == [] ==> w == Ok([])
    ensures data != [] && Filter(data) == [] ==> w == Err(EmptySequence)
    ensures Filter(data) != [] ==> w == Ok(WindowOf(Filter(data), n))
  {
    if data == [] then Ok([])
    else
      var f := Filter(data);
      if f == [] then Err(EmptySequence)
      else Ok(WindowOf(f, n))
  }

  /** The window's size: empty for a sample count that is not positive, the whole series
      for one past its length, and otherwise exactly `n` contiguous values. */
  lemma WindowSize(f: seq<real>, n: int)
    requires |f| > 0
    ensures var w := WindowOf(f, n);
      && (n <= 0 ==> w == [])
      && (n > |f| ==> w == f)
      && (1 <= n <= |f| ==> |w| == n && w == f[WindowStart(f, n)..WindowStart(f, n) + n])
  {
    var k := LastMaxIndex(f);
    if n > |f| {
      assert k < n;
      assert f[0..|f|] == f;
    }
  }

  /** A window of a valid size holds the last peak: it ends there when the peak is at index
      `n` or later, and is the first `n` values otherwise; so its maximum is the series'. */
  lemma WindowHoldsLastPeak(f: seq<real>, n: int)
    requires 1 <= n <= |f|
    ensures var w, k := WindowOf(f, n), LastMaxIndex(f);
      && (k >= n ==> Last(w) == f[k] && w == f[k - n + 1..k + 1])
      && (k < n ==> w == f[..n])
      && f[k] in w
      && SeqMax(w) == SeqMax(f)
  {
    var w, k := WindowOf(f, n), LastMaxIndex(f);
    var s := WindowStart(f, n);
    WindowSize(f, n);
    assert s <= k < s + n;
    assert w[k - s] == f[k];
    SeqMaxOfSlice(f, s, s + n, k);
  }

  /** A slice holding an index where the whole series peaks has that peak as its maximum. */
  lemma SeqMaxOfSlice(f: seq<real>, lo: nat, hi: nat, k: nat)
    requires lo <= k < hi <= |f|
    requires forall j :: 0 <= j < |f| ==> f[j] <= f[k]
    ensures SeqMax(f[lo..hi]) == f[k]
  {
    var w := f[lo..hi];
    var mw := SeqMax(w);
    assert w[k - lo] == f[k];
    assert mw >= f[k];
    assert mw in w;
    var j :| 0 <= j < |w| && w[j] == mw;
    assert w[j] == f[lo + j];
  }

  /** The real step `(m - 1) / (n - 1)` between sampled positions. */
  function Step(m: nat, n: nat): real
    requires 2 <= n
  {
    (m - 1) as real / (n - 1) as real
  }

  lemma StepTimesCount(m: nat, n: nat)
    requires 2 <= n <= m
    ensures (n - 1) as real * Step(m, n) == (m - 1) as real
  {
  }

  lemma StepAtLeastOne(m: nat, n: nat)
    requires 2 <= n <= m
    ensures 1.0 <= Step(m, n)
    ensures n < m ==> 1.0 < Step(m, n)
    ensures n == m ==> Step(m, n) == 1.0
  {
    var s := Step(m, n);
    StepTimesCount(m, n);
    assert (n - 1) as real * (s - 1.0) == (m - n) as real;
  }

  lemma PositionBounds(i: nat, m: nat, n: nat)
    requires 2 <= n <= m && i < n
    ensures 0.0 <= i as real * Step(m, n) <= (m - 1) as real
  {
    var s := Step(m, n);
    StepTimesCount(m, n);
    StepAtLeastOne(m, n);
    assert ((n - 1) - i) as real * s >= 0.0;
  }

  /** `int(round(i * step))`: the `i`-th sampled position. */
  function SampleIndex(i: nat, m: nat, n: nat): (r: nat)
    requires 2 <= n <= m && i < n
    ensures r < m
  {
    PositionBounds(i, m, n);
    RoundHalfEven(i as real * Step(m, n))
  }

  /** The sampled positions start at the first value and end at the last. */
  lemma SampleIndexEnds(m: nat, n: nat)
    requires 2 <= n <= m
    ensures SampleIndex(0, m, n) == 0
    ensures SampleIndex(n - 1, m, n) == m - 1
  {
    StepTimesCount(m, n);
  }

  /** Rounding two points more than one apart gives different integers, in order. */
  lemma RoundingSeparates(x: real, y: real)
    requires y > x + 1.0
    ensures RoundHalfEven(x) < RoundHalfEven(y)
  {
    assert IsNearestEven(x, RoundHalfEven(x)) && IsNearestEven(y, RoundHalfEven(y));
  }

  lemma NextPosition(i: nat, s: real)
    ensures (i + 1) as real * s == i as real * s + s
  {
  }

  /** Consecutive sampled positions advance by at least one, because the step is at least one. */
  lemma SampleIndexAdvances(i: nat, m: nat, n: nat)
    requires 2 <= n <= m && i + 1 < n
    ensures SampleIndex(i, m, n) < SampleIndex(i + 1, m, n)
  {
    if n == m {
      SampleIndexIdentity(i, m);
      SampleIndexIdentity(i + 1, m);
    } else {
      StepAtLeastOne(m, n);
      NextPosition(i, Step(m, n));
      RoundingSeparates(i as real * Step(m, n), (i + 1) as real * Step(m, n));
    }
  }

  /** With as many samples as values, the `i`-th sampled position is `i`. */
  lemma SampleIndexIdentity(i: nat, m: nat)
    requires 2 <= m && i < m
    ensures SampleIndex(i, m, m) == i
  {
    StepAtLeastOne(m, m);
    assert i as real * Step(m, m) == i as real;
  }

  /** The sampled positions are strictly increasing, so resampling picks a subsequence. */
  lemma {:induction false} SampleIndexIncreasing(i: nat, j: nat, m: nat, n: nat)
    requires 2 <= n <= m && i < j < n
    ensures SampleIndex(i, m, n) < SampleIndex(j, m, n)
    decreases j - i
  {
    SampleIndexAdvances(i, m, n);
    if i + 1 < j {
      SampleIndexIncreasing(i + 1, j, m, n);
    }
  }

  /** The resampling rule on the already filtered numbers, for a valid sample count. */
  function ResampleOf(f: seq<real>, n: int): (r: seq<real>)
    requires 1 <= n <= |f|
    ensures |r| == n
    ensures n == 1 ==> r == [f[0]]
  {
    if n == 1 then [f[0]]
    else seq(n, i requires 0 <= i < n => f[SampleIndex(i, |f|, n)])
  }

  /**
   * `retain_numbers_uniform`: `n` values at evenly spaced positions across the whole
   * filtered series. An empty input gives `[]` before any check; otherwise a sample count
   * that is not positive or exceeds the series is an error.
   */
  function Resample(data: seq<Entry>, n: int): (r: Result<seq<real>>)
    ensures data == [] ==> r == Ok([])
    ensures data != [] ==> (r.Err? <==> n <= 0 || |Filter(data)| < n)
    ensures r.Err? ==> r.error == InvalidSampleCount
    ensures data != [] && r.Ok? ==> |r.value| == n
    ensures data != [] && r.Ok? ==> r.value == ResampleOf(Filter(data), n)
  {
    if data == [] then Ok([])
    else
      var f := Filter(data);
      if n <= 0 || |f| < n then Err(InvalidSampleCount)
      else Ok(ResampleOf(f, n))
  }

  /** A valid resampling keeps the series' first and last values, and takes the rest at
      strictly increasing positions: it is a subsequence spanning the whole series. */
  lemma ResampleSpansSeries(f: seq<real>, n: int)
    requires 2 <= n <= |f|
    ensures ResampleOf(f, n)[0] == f[0]
    ensures Last(ResampleOf(f, n)) == Last(f)
    ensures forall i :: 0 <= i < n ==> ResampleOf(f, n)[i] == f[SampleIndex(i, |f|, n)]
    ensures forall i, j :: 0 <= i < j < n ==> SampleIndex(i, |f|, n) < SampleIndex(j, |f|, n)
  {
    var r := ResampleOf(f, n);
    SampleIndexEnds(|f|, n);
    assert r[0] == f[SampleIndex(0, |f|, n)] == f[0];
    assert r[n - 1] == f[SampleIndex(n - 1, |f|, n)] == f[|f| - 1];
    forall i, j | 0 <= i < j < n
      ensures SampleIndex(i, |f|, n) < SampleIndex(j, |f|, n)
    {
      SampleIndexIncreasing(i, j, |f|, n);
    }
  }

  /** Resampling a series to its own length returns it unchanged. */
  lemma ResampleIdentity(f: seq<real>)
    requires |f| >= 1
    ensures ResampleOf(f, |f|) == f
  {
    var m := |f|;
    if m >= 2 {
      var r := ResampleOf(f, m);
      forall i | 0 <= i < m ensures r[i] == f[i] {
        SampleIndexIdentity(i, m);
      }
      assert r == f;
    } else {
      assert f == [f[0]];
    }
  }

  /** The peak 10 occurs at filtered positions 3 and 5; the window of three ends at the
      later one. A blank placeholder is dropped before indexing. */
  lemma WindowEndsAtLastPeakExample()
    ensures Window([Num(1.0), Num(2.0), Blank, Num(3.0), Num(10.0), Num(4.0), Num(10.0), Num(2.0)], 3)
      == Ok([10.0, 4.0, 10.0])
  {
    FilterExample();
    WindowOfExample();
  }

  lemma PeakExample()
    ensures LastMaxIndex([1.0, 2.0, 3.0, 10.0, 4.0, 10.0, 2.0]) == 5
  {
    LastMaxIndexUnique([1.0, 2.0, 3.0, 10.0, 4.0, 10.0, 2.0], 5);
  }

  lemma WindowOfExample()
    ensures WindowOf([1.0, 2.0, 3.0, 10.0, 4.0, 10.0, 2.0], 3) == [10.0, 4.0, 10.0]
  {
    var f := [1.0, 2.0, 3.0, 10.0, 4.0, 10.0, 2.0];
    assert WindowStart(f, 3) == 3 by { PeakExample(); }
    WindowSize(f, 3);
    assert f[3..6] == [10.0, 4.0, 10.0];
  }

  lemma FilterExample()
    ensures Filter([Num(1.0), Num(2.0), Blank, Num(3.0), Num(10.0), Num(4.0), Num(10.0), Num(2.0)])
      == [1.0, 2.0, 3.0, 10.0, 4.0, 10.0, 2.0]
  {
    var d := [Num(1.0), Num(2.0), Blank, Num(3.0), Num(10.0), Num(4.0), Num(10.0), Num(2.0)];
    FilterAppend(d[..3], d[3..]);
    assert d[..3] == [Num(1.0), Num(2.0)] + [Blank];
    FilterAppend([Num(1.0), Num(2.0)], [Blank]);
    FilterOfNumbers(d[3..]);
    FilterOfNumbers([Num(1.0), Num(2.0)]);
  }

  /** A peak among the first three values yields the first three values, even though the
      window then does not end at the peak. */
  lemma WindowPrefixBranchExample()
    ensures Window([Num(10.0), Num(2.0), Num(1.0)], 3) == Ok([10.0, 2.0, 1.0])
  {
    var f := [10.0, 2.0, 1.0];
    assert Filter([Num(10.0), Num(2.0), Num(1.0)]) == f;
    LastMaxIndexUnique(f, 0);
    assert f[0..3] == f;
  }

  /** Python rounds 2.5 to 2: with 6 values and 5 samples the step is 1.25, and the third
      sample is taken at position 2, not 3. */
  lemma SampleIndexTieExample()
    ensures SampleIndex(2, 6, 5) == 2
    ensures SampleIndex(1, 4, 3) == 2
  {
    assert 2.0 * Step(6, 5) == 2.5;
    assert 1.0 * Step(4, 3) == 1.5;
  }
}
