/** Interpolated percentiles and summary statistics, over exact reals. */
module Percentile {

  ghost predicate Sorted(s: seq<real>) { forall i, j :: 0 <= i < j < |s| ==> s[i] <= s[j] }

  function Ceil(k: real): int { if k == k.Floor as real then k.Floor else k.Floor + 1 }

  /** The value at the fractional index `k`. */
  function ValueAt(s: seq<real>, k: real): real
    requires 0.0 <= k <= (|s| - 1) as real
  {
    var floor, ceil := k.Floor, Ceil(k);
    if floor == ceil then s[floor]
    else s[floor] * (ceil as real - k) + s[ceil] * (k - floor as real)
  }

  lemma ProductGrows(a: real, x: real, y: real)
    requires 0.0 <= a && x <= y
    ensures a * x <= a * y
  {
    assert 0.0 <= a * (y - x);
  }

  function Times(a: real, x: real): real { a * x }

  lemma TimesGrows(a: real, x: real, y: real)
    requires 0.0 <= a && x <= y
    ensures Times(a, x) <= Times(a, y)
  {
    ProductGrows(a, x, y);
  }

  lemma TimesEnds(a: real)
    ensures Times(a, 0.0) == 0.0 && Times(a, 1.0) == a
  {
  }

  function Fraction(q: real): (x: real)
    requires 0.0 <= q <= 100.0
    ensures 0.0 <= x <= 1.0
  {
    q / 100.0
  }

  lemma FractionGrows(q: real, r: real)
    requires 0.0 <= q <= r <= 100.0
    ensures Fraction(q) <= Fraction(r) && Fraction(0.0) == 0.0 && Fraction(100.0) == 1.0
  {
  }

  /** The fractional index of the `q`th percentile of `n` values. */
  function Position(n: nat, q: real): (k: real)
    requires n > 0 && 0.0 <= q <= 100.0
    ensures 0.0 <= k <= (n - 1) as real
  {
    TimesGrows((n - 1) as real, Fraction(q), 1.0);
    TimesGrows((n - 1) as real, 0.0, Fraction(q));
    TimesEnds((n - 1) as real);
    Times((n - 1) as real, Fraction(q))
  }

  lemma PositionGrows(n: nat, q: real, r: real)
    requires n > 0 && 0.0 <= q <= r <= 100.0
    ensures Position(n, q) <= Position(n, r)
    ensures Position(n, 0.0) == 0.0 && Position(n, 100.0) == (n - 1) as real
  {
    hide Times, Fraction;
    FractionGrows(q, r);
    TimesGrows((n - 1) as real, Fraction(q), Fraction(r));
    TimesEnds((n - 1) as real);
  }

  function Percentile(s: seq<real>, q: real): real
    requires 0.0 <= q <= 100.0
  {
    if s == [] then 0.0
    else if |s| == 1 then s[0]
    else ValueAt(s, Position(|s|, q))
  }

  /** With `t` between 0 and 1, the weighted mean lies between the two values and grows with `t`. */
  lemma Blend(a: real, b: real, t: real, u: real)
    requires a <= b && 0.0 <= t <= u <= 1.0
    ensures a <= a * (1.0 - t) + b * t <= a * (1.0 - u) + b * u <= b
  {
    var d := b - a;
    ProductGrows(d, 0.0, t);
    ProductGrows(d, t, u);
    ProductGrows(d, u, 1.0);
    assert a * (1.0 - t) + b * t == a + d * t;
    assert a * (1.0 - u) + b * u == a + d * u;
  }

  /** An interpolated value lies between its two neighbours. */
  lemma ValueBetween(s: seq<real>, k: real)
    requires Sorted(s) && 0.0 <= k <= (|s| - 1) as real
    ensures s[k.Floor] <= ValueAt(s, k) <= s[Ceil(k)]
  {
    var floor, ceil := k.Floor, Ceil(k);
    if floor != ceil {
      var t := k - floor as real;
      Blend(s[floor], s[ceil], t, t);
      assert ceil as real - k == 1.0 - t;
    }
  }

  lemma StraightLine(a: real, b: real, t: real, u: real)
    requires u == 1.0 - t
    ensures a * u + b * t == a + (b - a) * t
  {
    assert a * u == a - a * t;
    assert (b - a) * t == b * t - a * t;
  }

  lemma FloorBetween(i: nat, t: real)
    requires 0.0 < t < 1.0
    ensures var k := i as real + t;
      k.Floor == i && Ceil(k) == i + 1 && (i + 1) as real - k == 1.0 - t && k - i as real == t
  {
  }

  /** Between two neighbours the value moves on a straight line from one to the other. */
  lemma ValueIsLinear(s: seq<real>, i: nat, t: real)
    requires i + 1 < |s| && 0.0 <= t <= 1.0
    ensures ValueAt(s, i as real + t) == s[i] + (s[i + 1] - s[i]) * t
  {
    var k := i as real + t;
    if t == 1.0 {
      assert k == (i + 1) as real;
    } else if t == 0.0 {
      assert k == i as real;
    } else {
      FloorBetween(i, t);
      hide Ceil;
      StraightLine(s[i], s[i + 1], t, (i + 1) as real - k);
    }
  }

  /** Interpolation never decreases along a sorted list. */
  lemma ValueGrows(s: seq<real>, k: real, m: real)
    requires Sorted(s) && 0.0 <= k <= m <= (|s| - 1) as real
    ensures ValueAt(s, k) <= ValueAt(s, m)
  {
    ValueBetween(s, k);
    ValueBetween(s, m);
    var floor := k.Floor;
    if floor < m.Floor {
      assert Ceil(k) <= m.Floor;
      assert s[Ceil(k)] <= s[m.Floor];
    } else if k != m && k != floor as real {
      var t, u := k - floor as real, m - floor as real;
      assert Ceil(k) == floor + 1 && Ceil(m) == floor + 1;
      Blend(s[floor], s[floor + 1], t, u);
      assert (floor + 1) as real - k == 1.0 - t && (floor + 1) as real - m == 1.0 - u;
    }
  }

  /** The percentile of a sorted list never decreases as `q` grows. */
  lemma PercentileGrows(s: seq<real>, q: real, r: real)
    requires Sorted(s) && 0.0 <= q <= r <= 100.0
    ensures Percentile(s, q) <= Percentile(s, r)
  {
    if |s| > 1 {
      hide ValueAt, Position;
      PositionGrows(|s|, q, r);
      ValueGrows(s, Position(|s|, q), Position(|s|, r));
    }
  }

  /** The 0th percentile is the minimum and the 100th the maximum. */
  lemma PercentileEnds(s: seq<real>)
    requires s != []
    ensures Percentile(s, 0.0) == s[0] && Percentile(s, 100.0) == s[|s| - 1]
  {
    hide Position;
    PositionGrows(|s|, 0.0, 100.0);
  }

  /** Every percentile of a sorted list lies between its minimum and its maximum. */
  lemma PercentileBounded(s: seq<real>, q: real)
    requires Sorted(s) && s != [] && 0.0 <= q <= 100.0
    ensures s[0] <= Percentile(s, q) <= s[|s| - 1]
  {
    PercentileEnds(s);
    PercentileGrows(s, 0.0, q);
    PercentileGrows(s, q, 100.0);
  }

  // ---------------------------------------------------------------------------------------------
  // Summaries
  // ---------------------------------------------------------------------------------------------

  function Insert(s: seq<real>, x: real): (r: seq<real>)
    ensures |r| == |s| + 1
  {
    if s == [] then [x]
    else if s[|s| - 1] <= x then s + [x]
    else Insert(s[..|s| - 1], x) + [s[|s| - 1]]
  }

  /** `sorted(samples)` */
  function Ordered(samples: seq<real>): (r: seq<real>)
    ensures |r| == |samples|
  {
    if samples == [] then [] else Insert(Ordered(samples[..|samples| - 1]), samples[|samples| - 1])
  }

  lemma {:induction false} InsertBag(s: seq<real>, x: real)
    ensures multiset(Insert(s, x)) == multiset(s) + multiset{x}
  {
    if s != [] && s[|s| - 1] > x {
      var init, last := s[..|s| - 1], s[|s| - 1];
      InsertBag(init, x);
      assert s == init + [last];
    }
  }

  ghost predicate AllBelow(s: seq<real>, x: real) { forall i :: 0 <= i < |s| ==> s[i] <= x }

  lemma SortedSnoc(s: seq<real>, x: real)
    ensures Sorted(s + [x]) <==> Sorted(s) && AllBelow(s, x)
  {
    var r := s + [x];
    assert forall i :: 0 <= i < |s| ==> r[i] == s[i];
    assert r[|s|] == x;
  }

  lemma {:induction false} InsertSorted(s: seq<real>, x: real, top: real)
    requires Sorted(s) && AllBelow(s, top) && x <= top
    ensures Sorted(Insert(s, x)) && AllBelow(Insert(s, x), top)
  {
    if s != [] {
      var init, last := s[..|s| - 1], s[|s| - 1];
      assert s == init + [last];
      hide Sorted;
      SortedSnoc(init, last);
      if last <= x {
        SortedSnoc(s, x);
      } else {
        InsertSorted(init, x, last);
        SortedSnoc(Insert(init, x), last);
      }
    } else {
      SortedSnoc([], x);
    }
  }

  lemma InsertAnywhere(s: seq<real>, x: real)
    requires Sorted(s)
    ensures Sorted(Insert(s, x))
  {
    InsertSorted(s, x, if s == [] || s[|s| - 1] <= x then x else s[|s| - 1]);
  }

  /** Ordering yields the sorted permutation. */
  lemma {:induction false} OrderedIs(samples: seq<real>)
    ensures Sorted(Ordered(samples)) && multiset(Ordered(samples)) == multiset(samples)
  {
    if samples != [] {
      var init, x := samples[..|samples| - 1], samples[|samples| - 1];
      OrderedIs(init);
      hide Sorted, Insert;
      InsertBag(Ordered(init), x);
      InsertAnywhere(Ordered(init), x);
      assert samples == init + [x];
    }
  }

  function Sum(s: seq<real>): real { if s == [] then 0.0 else Sum(s[..|s| - 1]) + s[|s| - 1] }

  datatype Summary =
    | NoSamples
    | Summary(count: nat, min: real, max: real, mean: real, p50: real, p95: real, p99: real)

  function Summarize(samples: seq<real>): Summary {
    if samples == [] then NoSamples
    else
      var s := Ordered(samples);
      Summary(|s|, s[0], s[|s| - 1], Sum(s) / |s| as real,
              Percentile(s, 50.0), Percentile(s, 95.0), Percentile(s, 99.0))
  }

  lemma {:induction false} SumBounds(s: seq<real>, low: real, high: real)
    requires forall i :: 0 <= i < |s| ==> low <= s[i] <= high
    ensures |s| as real * low <= Sum(s) <= |s| as real * high
  {
    if s != [] {
      SumBounds(s[..|s| - 1], low, high);
      assert |s| as real * low == (|s| - 1) as real * low + low;
      assert |s| as real * high == (|s| - 1) as real * high + high;
    }
  }

  lemma MeanBounds(n: real, sum: real, low: real, high: real)
    requires n > 0.0 && n * low <= sum <= n * high
    ensures low <= sum / n <= high
  {
    var mean := sum / n;
    assert mean * n == sum;
    if mean < low {
      ProductStrict(n, mean, low);
      assert false;
    }
    if mean > high {
      ProductStrict(n, high, mean);
      assert false;
    }
  }

  lemma ProductStrict(a: real, x: real, y: real)
    requires a > 0.0 && x < y
    ensures a * x < a * y
  {
    assert 0.0 < a * (y - x);
  }

  /** A summary is in order, its extremes are samples, and every sample and the mean lie between them. */
  lemma SummaryIsOrdered(samples: seq<real>)
    requires samples != []
    ensures var r := Summarize(samples);
      && r.count == |samples|
      && r.min <= r.p50 <= r.p95 <= r.p99 <= r.max && r.min <= r.mean <= r.max
      && r.min in samples && r.max in samples && forall x :: x in samples ==> r.min <= x <= r.max
  {
    var s := Ordered(samples);
    OrderedIs(samples);
    hide Percentile, Ordered, Sum;
    PercentileBounded(s, 50.0);
    PercentileGrows(s, 50.0, 95.0);
    PercentileGrows(s, 95.0, 99.0);
    PercentileBounded(s, 99.0);
    SumBounds(s, s[0], s[|s| - 1]);
    MeanBounds(|s| as real, Sum(s), s[0], s[|s| - 1]);
    SameMembers(s, samples);
  }

  lemma SameMembers(s: seq<real>, samples: seq<real>)
    requires multiset(s) == multiset(samples) && s != []
    ensures s[0] in samples && s[|s| - 1] in samples && forall x :: x in samples ==> x in s
  {
    assert s[0] in multiset(s) && s[|s| - 1] in multiset(s);
    assert forall x :: x in samples ==> x in multiset(samples);
  }

  lemma BagSnoc(s: seq<real>, x: real)
    ensures multiset(s + [x]) - multiset{x} == multiset(s)
  {
  }

  lemma SameLength(a: seq<real>, b: seq<real>)
    requires multiset(a) == multiset(b)
    ensures |a| == |b|
  {
    assert |a| == |multiset(a)| && |b| == |multiset(b)|;
  }

  lemma {:induction false} SortedIsUnique(a: seq<real>, b: seq<real>)
    requires Sorted(a) && Sorted(b) && multiset(a) == multiset(b)
    ensures a == b
    decreases |a|
  {
    SameLength(a, b);
    if a != [] {
      hide Sorted;
      var a', x, b', y := a[..|a| - 1], a[|a| - 1], b[..|b| - 1], b[|b| - 1];
      assert a == a' + [x] && b == b' + [y];
      LastIsLargest(a, b);
      LastIsLargest(b, a);
      SortedSnoc(a', x);
      SortedSnoc(b', y);
      BagSnoc(a', x);
      BagSnoc(b', y);
      SortedIsUnique(a', b');
    }
  }

  lemma LastIsLargest(a: seq<real>, b: seq<real>)
    requires Sorted(a) && multiset(a) == multiset(b) && a != [] && b != []
    ensures b[|b| - 1] <= a[|a| - 1]
  {
    assert b[|b| - 1] in multiset(b) && b[|b| - 1] in a;
  }

  /** A summary does not depend on the order of the samples. */
  lemma SummaryIgnoresOrder(samples: seq<real>, others: seq<real>)
    requires multiset(samples) == multiset(others)
    ensures Summarize(samples) == Summarize(others)
  {
    OrderedIs(samples);
    OrderedIs(others);
    hide Percentile, Ordered, Sum;
    SortedIsUnique(Ordered(samples), Ordered(others));
    assert |Ordered(samples)| == |samples| && |Ordered(others)| == |others|;
  }

  // ---------------------------------------------------------------------------------------------
  // What the numbers of a summary are
  // ---------------------------------------------------------------------------------------------

  /** Among sorted values `v` stands at the fractional index `(n - 1) * q / 100`: on a value, or on the straight line
      between two neighbours. */
  ghost predicate StandsAt(s: seq<real>, q: nat, v: real)
    requires s != [] && q < 100
  {
    var i, r := (|s| - 1) * q / 100, (|s| - 1) * q % 100;
    IndexBounds(|s| - 1, q);
    if r == 0 then v == s[i] else v == s[i] + (s[i + 1] - s[i]) * (r as real / 100.0)
  }

  lemma IndexBounds(m: nat, q: nat)
    requires q < 100
    ensures 0 <= m * q / 100 <= m && (m * q % 100 > 0 ==> m * q / 100 < m)
  {
    assert 0 <= m * q;
    assert m * q <= m * 100;
  }

  lemma HundredthsSplit(k: nat)
    ensures k as real / 100.0 == (k / 100) as real + (k % 100) as real / 100.0
  {
    assert k == k / 100 * 100 + k % 100;
  }

  lemma PositionIs(n: nat, q: nat)
    requires n > 0 && q < 100
    ensures Position(n, q as real) == ((n - 1) * q) as real / 100.0
  {
    RealProduct(n - 1, q);
  }

  lemma RealProduct(a: nat, b: nat)
    ensures a as real * (b as real / 100.0) == (a * b) as real / 100.0
  {
    assert a as real * b as real == (a * b) as real;
  }

  lemma ValueInHundredths(s: seq<real>, k: nat)
    requires k / 100 < |s| && (k % 100 > 0 ==> k / 100 + 1 < |s|)
    ensures 0.0 <= k as real / 100.0 <= (|s| - 1) as real
    ensures var i, r := k / 100, k % 100;
      ValueAt(s, k as real / 100.0)
      == if r == 0 then s[i] else s[i] + (s[i + 1] - s[i]) * (r as real / 100.0)
  {
    hide ValueAt;
    HundredthsSplit(k);
    if k % 100 == 0 {
      ValueAtIndex(s, k / 100);
    } else {
      ValueIsLinear(s, k / 100, (k % 100) as real / 100.0);
    }
  }

  /** For every whole `q` below 100. */
  lemma PercentileStandsAt(s: seq<real>, q: nat)
    requires s != [] && q < 100
    ensures StandsAt(s, q, Percentile(s, q as real))
  {
    hide Position, ValueAt;
    var k := (|s| - 1) * q;
    IndexBounds(|s| - 1, q);
    if |s| > 1 {
      PositionIs(|s|, q);
      ValueInHundredths(s, k);
    }
  }

  lemma ValueAtIndex(s: seq<real>, i: nat)
    requires i < |s|
    ensures ValueAt(s, i as real) == s[i]
  {
  }

  lemma {:induction false} InsertSum(s: seq<real>, x: real)
    ensures Sum(Insert(s, x)) == Sum(s) + x
  {
    if s != [] && s[|s| - 1] > x {
      InsertSum(s[..|s| - 1], x);
    }
  }

  lemma {:induction false} OrderedSum(samples: seq<real>)
    ensures Sum(Ordered(samples)) == Sum(samples)
  {
    if samples != [] {
      var init, x := samples[..|samples| - 1], samples[|samples| - 1];
      OrderedSum(init);
      InsertSum(Ordered(init), x);
      hide Insert;
    }
  }

  /** A summary holds the number of samples, the first and the last of them in order, their sum divided by their
      number, and the values that stand at 50, 95 and 99 hundredths of the way through them. */
  lemma SummaryIs(samples: seq<real>, s: seq<real>)
    requires samples != [] && Sorted(s) && multiset(s) == multiset(samples)
    ensures s != []
    ensures var r := Summarize(samples);
      && r == Summary(|samples|, s[0], s[|s| - 1], Sum(samples) / |samples| as real, r.p50, r.p95, r.p99)
      && StandsAt(s, 50, r.p50) && StandsAt(s, 95, r.p95) && StandsAt(s, 99, r.p99)
  {
    OrderedIs(samples);
    OrderedSum(samples);
    hide Percentile, Ordered, Sum, Sorted, StandsAt;
    SortedIsUnique(s, Ordered(samples));
    PercentileStandsAt(s, 50);
    PercentileStandsAt(s, 95);
    PercentileStandsAt(s, 99);
  }

  /** Without samples there is nothing to summarize, and every percentile is 0. */
  lemma NothingToSummarize(q: real)
    requires 0.0 <= q <= 100.0
    ensures Summarize([]) == NoSamples && Percentile([], q) == 0.0
  {
  }
}
