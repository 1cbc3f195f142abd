/** The timing harness `Benchmark`: the reduction of one run's samples to
    mean, extrema and (squared) standard deviation, the benchmark payload
    generator and the table separator line.

    The clock is not modelled: the elapsed time of each iteration, already
    truncated to whole microseconds, is a parameter. Millisecond values are
    `real`s, so the statistics are exact rather than `double`. */
module Benchmark {
  import opened Bytes

  /** `Benchmark::Result`, with the population variance in place of its
      square root, the standard deviation. */
  datatype Result = Result(averageTime: real, minTime: real, maxTime: real, variance: real, iterations: nat)

  /** Whole microseconds converted to milliseconds (`count() / 1000.0`). */
  function ToMillis(us: int): real
  {
    us as real / 1000.0
  }

  /** The sample vector `times` of a run whose iterations took `durationsUs`. */
  function Samples(durationsUs: seq<int>): seq<real>
  {
    seq(|durationsUs|, i requires 0 <= i < |durationsUs| => ToMillis(durationsUs[i]))
  }

  /** Left-to-right sum (`std::accumulate(…, 0.0)`). */
  function Sum(s: seq<real>): real
  {
    if s == [] then 0.0 else Sum(s[..|s| - 1]) + s[|s| - 1]
  }

  /** Arithmetic mean; the source divides by `times.size()`. */
  function Mean(s: seq<real>): real
    requires |s| > 0
  {
    Sum(s) / |s| as real
  }

  /** The value `*std::min_element(…)` reads: an element no other exceeds
      from below. */
  function MinOf(s: seq<real>): (m: real)
    requires |s| > 0
    ensures exists i :: 0 <= i < |s| && s[i] == m
    ensures forall i :: 0 <= i < |s| ==> m <= s[i]
  {
    if |s| == 1 then s[0]
    else
      var m := MinOf(s[..|s| - 1]);
      if s[|s| - 1] < m then s[|s| - 1] else m
  }

  /** The value `*std::max_element(…)` reads. */
  function MaxOf(s: seq<real>): (m: real)
    requires |s| > 0
    ensures exists i :: 0 <= i < |s| && s[i] == m
    ensures forall i :: 0 <= i < |s| ==> s[i] <= m
  {
    if |s| == 1 then s[0]
    else
      var m := MaxOf(s[..|s| - 1]);
      if m < s[|s| - 1] then s[|s| - 1] else m
  }

  /** `a * b`. The squared deviation `diff * diff` is written through it so
      that the solver treats the square as one term: with the bare product it
      does not combine `x >= 0` and `d * d > 0` into `x + d * d > 0`. */
  function Product(a: real, b: real): real
  {
    a * b
  }

  /** Sum of squared deviations from `mean`, accumulated left to right. */
  function SumSquaredDiff(s: seq<real>, mean: real): real
  {
    if s == [] then 0.0
    else
      var diff := s[|s| - 1] - mean;
      SumSquaredDiff(s[..|s| - 1], mean) + Product(diff, diff)
  }

  /** If every sample lies in [lo, hi], the sum lies in [n * lo, n * hi]. */
  lemma {:induction false} SumBounds(s: seq<real>, lo: real, hi: real)
    requires forall i :: 0 <= i < |s| ==> lo <= s[i] <= hi
    ensures |s| as real * lo <= Sum(s) <= |s| as real * hi
  {
    if s != [] {
      var n := |s| - 1;
      SumBounds(s[..n], lo, hi);
      assert (n + 1) as real * lo == n as real * lo + lo;
      assert (n + 1) as real * hi == n as real * hi + hi;
    }
  }

  /** Dividing by a positive count keeps the bounds [n * lo, n * hi]. */
  lemma QuotientBounds(total: real, n: real, lo: real, hi: real)
    requires n > 0.0
    requires n * lo <= total <= n * hi
    ensures lo <= total / n <= hi
  {
    var q := total / n;
    assert q * n == total;
  }

  /** If every sample lies in [lo, hi], so does their mean. */
  lemma MeanBounds(s: seq<real>, lo: real, hi: real)
    requires |s| > 0
    requires forall i :: 0 <= i < |s| ==> lo <= s[i] <= hi
    ensures lo <= Mean(s) <= hi
  {
    SumBounds(s, lo, hi);
    QuotientBounds(Sum(s), |s| as real, lo, hi);
  }

  /** The mean of a non-empty sample set lies between its extrema. */
  lemma MeanBetweenExtrema(s: seq<real>)
    requires |s| > 0
    ensures MinOf(s) <= Mean(s) <= MaxOf(s)
  {
    MeanBounds(s, MinOf(s), MaxOf(s));
  }

  /** The product of two non-zero reals of the same sign is positive. */
  lemma ProductPositive(a: real, b: real)
    requires (a > 0.0 && b > 0.0) || (a < 0.0 && b < 0.0)
    ensures Product(a, b) > 0.0
  {
    if a < 0.0 {
      assert a * b == (-a) * (-b);
    }
  }

  /** A square is never negative, and positive unless its root is zero. */
  lemma SquareSign(d: real)
    ensures Product(d, d) >= 0.0
    ensures d != 0.0 ==> Product(d, d) > 0.0
  {
    if d != 0.0 {
      ProductPositive(d, d);
    }
  }

  /** A sum of squared deviations is never negative; it is zero when every
      sample equals the mean and positive as soon as one differs. */
  lemma {:induction false} SumSquaredDiffSign(s: seq<real>, mean: real)
    ensures SumSquaredDiff(s, mean) >= 0.0
    ensures (forall i :: 0 <= i < |s| ==> s[i] == mean) ==> SumSquaredDiff(s, mean) == 0.0
    ensures (exists i :: 0 <= i < |s| && s[i] != mean) ==> SumSquaredDiff(s, mean) > 0.0
  {
    if s != [] {
      var n := |s| - 1;
      SumSquaredDiffSign(s[..n], mean);
      SquareSign(s[n] - mean);
      if exists i :: 0 <= i < |s| && s[i] != mean {
        var i :| 0 <= i < |s| && s[i] != mean;
        if i < n {
          assert s[..n][i] != mean;
        }
      } else {
        assert forall i :: 0 <= i < n ==> s[..n][i] == mean;
      }
    }
  }

  /** The pre-`sqrt` part of `calculateStdDev`: the sum of squared deviations
      from `mean`, divided by the number of values. */
  method CalculateVariance(values: seq<real>, mean: real) returns (variance: real)
    requires |values| > 0
    ensures variance == SumSquaredDiff(values, mean) / |values| as real
    ensures variance >= 0.0
    ensures variance == 0.0 <==> forall i :: 0 <= i < |values| ==> values[i] == mean
  {
    var sumSquaredDiff := 0.0;
    for i := 0 to |values|
      invariant sumSquaredDiff == SumSquaredDiff(values[..i], mean)
    {
      var diff := values[i] - mean;
      assert values[..i + 1][..i] == values[..i];
      sumSquaredDiff := sumSquaredDiff + Product(diff, diff);
    }
    assert values[..|values|] == values;
    SumSquaredDiffSign(values, mean);
    variance := sumSquaredDiff / |values| as real;
  }

  /** `Benchmark::run` on the durations its clock measured: one sample per
      iteration, then mean, extrema and the variance around that mean. A
      run of zero iterations divides by zero and dereferences the end of an
      empty vector, so it is excluded. */
  method Run(durationsUs: seq<int>, iterations: nat) returns (r: Result)
    requires iterations >= 1
    requires |durationsUs| == iterations
    ensures r.iterations == iterations
    ensures r.averageTime == Mean(Samples(durationsUs))
    ensures r.minTime <= r.averageTime <= r.maxTime
    ensures exists i :: 0 <= i < iterations && r.minTime == ToMillis(durationsUs[i])
    ensures exists i :: 0 <= i < iterations && r.maxTime == ToMillis(durationsUs[i])
    ensures forall i :: 0 <= i < iterations ==> r.minTime <= ToMillis(durationsUs[i]) <= r.maxTime
    ensures r.variance == SumSquaredDiff(Samples(durationsUs), r.averageTime) / iterations as real
    ensures r.variance >= 0.0
    ensures r.variance == 0.0 <==> forall i :: 0 <= i < iterations ==> ToMillis(durationsUs[i]) == r.averageTime
  {
    var times: seq<real> := [];
    for i := 0 to iterations
      invariant |times| == i
      invariant forall k :: 0 <= k < i ==> times[k] == ToMillis(durationsUs[k])
    {
      times := times + [ToMillis(durationsUs[i])];
    }
    assert times == Samples(durationsUs);
    var mean := Mean(times);
    var minTime := MinOf(times);
    var maxTime := MaxOf(times);
    MeanBetweenExtrema(times);
    var variance := CalculateVariance(times, mean);
    r := Result(mean, minTime, maxTime, variance, iterations);
  }

  /** A sample taken from a non-negative duration is a non-negative whole
      number of thousandths of a millisecond. */
  lemma SampleIsWholeMicroseconds(us: int)
    requires us >= 0
    ensures ToMillis(us) >= 0.0
    ensures ToMillis(us) * 1000.0 == us as real
  {
  }

  /** `generateRandomMessage`: a buffer of `size` bytes, the i-th being the
      i-th draw of the uniform distribution over [0, 255], cast to a byte.
      The pseudorandom source is the parameter `draw`. */
  method GenerateRandomMessage(size: nat, draw: nat -> int) returns (message: seq<byte>)
    ensures |message| == size
    ensures forall i :: 0 <= i < size && 0 <= draw(i) <= 255 ==> message[i] as int == draw(i)
    ensures forall i :: 0 <= i < size ==> message[i] == ToUint8(draw(i))
  {
    var buffer := new byte[size];
    for i := 0 to size
      invariant forall k :: 0 <= k < i ==> buffer[k] == ToUint8(draw(k))
    {
      buffer[i] := ToUint8(draw(i));
    }
    message := buffer[..];
  }

  /** A run of `n` dashes (`std::string(n, '-')`). */
  function Dashes(n: nat): string
  {
    seq(n, _ => '-')
  }

  /** The line `printSeparator` writes. */
  function Separator(): string
  {
    "+" + Dashes(17)
    + "+" + Dashes(14)
    + "+" + Dashes(14)
    + "+" + Dashes(14)
    + "+" + Dashes(14)
    + "+" + Dashes(14)
    + "+" + Dashes(14)
    + "+\n"
  }

  /** The widths `printTableHeader` and `printComparisonRow` give their
      seven columns with `std::setw`. */
  const ColumnWidths: seq<nat> := [15, 12, 12, 12, 12, 12, 12]

  /** A table rule for the given columns: every column is framed by `+` and
      spans its width plus the two spaces of padding around a cell. */
  function RuleFor(widths: seq<nat>): string
  {
    RuleLine(widths) + "\n"
  }

  function RuleLine(widths: seq<nat>): string
  {
    if widths == [] then "+"
    else RuleLine(widths[..|widths| - 1]) + Dashes(widths[|widths| - 1] + 2) + "+"
  }

  /** The hard-coded separator is the rule for the table's column widths. */
  lemma SeparatorMatchesColumns()
    ensures Separator() == RuleFor(ColumnWidths)
  {
    var w := ColumnWidths;
    assert w[..0] == [];
    assert w[..1][..0] == w[..0];
    assert RuleLine(w[..1]) == "+" + Dashes(17) + "+";
    assert w[..2][..1] == w[..1];
    assert RuleLine(w[..2]) == "+" + Dashes(17) + "+" + Dashes(14) + "+";
    assert w[..3][..2] == w[..2];
    assert RuleLine(w[..3]) == "+" + Dashes(17) + "+" + Dashes(14) + "+" + Dashes(14) + "+";
    assert w[..4][..3] == w[..3];
    assert RuleLine(w[..4]) == "+" + Dashes(17) + "+" + Dashes(14) + "+" + Dashes(14) + "+" + Dashes(14) + "+";
    assert w[..5][..4] == w[..4];
    assert RuleLine(w[..5]) == "+" + Dashes(17) + "+" + Dashes(14) + "+" + Dashes(14) + "+" + Dashes(14) + "+" + Dashes(14) + "+";
    assert w[..6][..5] == w[..5];
    assert RuleLine(w[..6]) == "+" + Dashes(17) + "+" + Dashes(14) + "+" + Dashes(14) + "+" + Dashes(14) + "+" + Dashes(14) + "+" + Dashes(14) + "+";
    assert w[..7][..6] == w[..6];
    assert RuleLine(w[..7]) == "+" + Dashes(17) + "+" + Dashes(14) + "+" + Dashes(14) + "+" + Dashes(14) + "+" + Dashes(14) + "+" + Dashes(14) + "+" + Dashes(14) + "+";
    assert w[..7] == w;
  }

  /** The separator is 110 characters: `+` at the eight column borders,
      dashes between them, and a final newline. */
  lemma SeparatorShape()
    ensures |Separator()| == 110
    ensures Separator()[109] == '\n'
    ensures forall i :: 0 <= i < 109 ==> (Separator()[i] == '+' <==> i in {0, 18, 33, 48, 63, 78, 93, 108})
    ensures forall i :: 0 <= i < 109 ==> Separator()[i] in {'+', '-'}
  {
  }
}
