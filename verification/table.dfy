/** The data frame as the preprocessing stages and the classifier see it: a row count and
    a map from column name to a column of possibly missing reals (a missing cell is a NaN).
    Also the column statistics pandas computes with missing cells skipped: count, sum,
    mean, and the sample variance (ddof = 1). */
module Table {
  import opened Wrappers

  type Column = seq<Option<real>>

  datatype Frame = Frame(rows: nat, cols: map<string, Column>)

  /** Every column has one cell per row */
  ghost predicate Wf(f: Frame) {
    forall c :: c in f.cols ==> |f.cols[c]| == f.rows
  }

  predicate AllPresent(x: Column) {
    forall i :: 0 <= i < |x| ==> x[i].Some?
  }

  /** Every present cell lies in [lo, hi] */
  predicate Within(x: Column, lo: real, hi: real) {
    forall i :: 0 <= i < |x| && x[i].Some? ==> lo <= x[i].value <= hi
  }

  /** Number of present cells */
  function Count(x: Column): (n: nat)
    ensures n <= |x|
  {
    if |x| == 0 then 0 else (if x[0].Some? then 1 else 0) + Count(x[1..])
  }

  /** Sum of the present cells */
  function Sum(x: Column): real {
    if |x| == 0 then 0.0 else x[0].GetOr(0.0) + Sum(x[1..])
  }

  /** Squared deviation of one cell from m; zero for a missing cell */
  function CellSquare(c: Option<real>, m: real): real {
    if c.Some? then (c.value - m) * (c.value - m) else 0.0
  }

  /** Sum of squared deviations from m over the present cells */
  function SqDev(x: Column, m: real): real {
    if |x| == 0 then 0.0 else CellSquare(x[0], m) + SqDev(x[1..], m)
  }

  /** Sum of the deviations v - c over the present cells */
  function Deviation(x: Column, c: real): real {
    if |x| == 0 then 0.0 else (if x[0].Some? then x[0].value - c else 0.0) + Deviation(x[1..], c)
  }

  /** pandas `mean()`: the mean of the present cells */
  function Mean(x: Column): (r: real)
    requires Count(x) > 0
    ensures r * Count(x) as real == Sum(x)
  {
    MulDiv(Sum(x), Count(x) as real);
    Sum(x) / Count(x) as real
  }

  /** pandas `var()`: the sample variance of the present cells */
  function Variance(x: Column): (r: real)
    requires Count(x) >= 2
    ensures r >= 0.0
    ensures r * (Count(x) - 1) as real == SqDev(x, Mean(x))
  {
    var k := (Count(x) - 1) as real;
    SqDevNonNegative(x, Mean(x));
    DivNonNegative(SqDev(x, Mean(x)), k);
    MulDiv(SqDev(x, Mean(x)), k);
    SqDev(x, Mean(x)) / k
  }

  /** Present cells become (v - m) / s; missing cells stay missing */
  function Standardize(x: Column, m: real, s: real): (r: Column)
    requires s != 0.0
    ensures |r| == |x|
    ensures forall i :: 0 <= i < |x| ==> (r[i].Some? <==> x[i].Some?)
  {
    if |x| == 0 then [] else [if x[0].Some? then Some((x[0].value - m) / s) else None] + Standardize(x[1..], m, s)
  }

  // ---------------------------------------------------------------------------
  // Lemmas
  // ---------------------------------------------------------------------------

  /** A column with no missing cells counts every cell */
  lemma {:induction false} CountAllPresent(x: Column)
    requires AllPresent(x)
    ensures Count(x) == |x|
  {
    if |x| > 0 {
      CountAllPresent(x[1..]);
    }
  }

  /** The count is zero exactly when every cell is missing */
  lemma {:induction false} CountZero(x: Column)
    ensures Count(x) == 0 <==> forall i :: 0 <= i < |x| ==> x[i].None?
  {
    if |x| > 0 {
      CountZero(x[1..]);
      if Count(x) == 0 {
        forall i | 0 <= i < |x| ensures x[i].None? {
          if i > 0 { assert x[i] == x[1..][i - 1]; }
        }
      }
      if forall i :: 0 <= i < |x| ==> x[i].None? {
        forall i | 0 <= i < |x| - 1 ensures x[1..][i].None? {
          assert x[1..][i] == x[i + 1];
        }
      }
    }
  }

  /** A sub-range of a bounded column is bounded the same way */
  lemma WithinSlice(x: Column, lo: real, hi: real, a: nat, b: nat)
    requires a <= b <= |x| && Within(x, lo, hi)
    ensures Within(x[a..b], lo, hi)
  {
    forall i | 0 <= i < b - a && x[a..b][i].Some?
      ensures lo <= x[a..b][i].value <= hi
    {
      assert x[a..b][i] == x[a + i];
    }
  }

  /** A sub-range of a column with no missing cell has no missing cell */
  lemma AllPresentSlice(x: Column, a: nat, b: nat)
    requires a <= b <= |x| && AllPresent(x)
    ensures AllPresent(x[a..b])
  {
    forall i | 0 <= i < b - a ensures x[a..b][i].Some? {
      assert x[a..b][i] == x[a + i];
    }
  }

  /** The shifted sum is the sum less c once per present cell */
  lemma {:induction false} DeviationShiftsSum(x: Column, c: real)
    ensures Deviation(x, c) == Sum(x) - c * Count(x) as real
  {
    if |x| > 0 {
      var rest := x[1..];
      DeviationShiftsSum(rest, c);
      var one := if x[0].Some? then 1.0 else 0.0;
      assert Count(x) as real == one + Count(rest) as real;
      Distribute(c, one, Count(rest) as real);
    }
  }

  lemma Distribute(c: real, a: real, b: real)
    ensures c * (a + b) == c * a + c * b
  {
  }

  /** Cells at or above lo shift to a non-negative sum, cells at or below hi to a
      non-positive one */
  lemma {:induction false} DeviationSign(x: Column, lo: real, hi: real)
    requires Within(x, lo, hi)
    ensures Deviation(x, lo) >= 0.0 && Deviation(x, hi) <= 0.0
  {
    if |x| > 0 {
      WithinSlice(x, lo, hi, 1, |x|);
      DeviationSign(x[1..], lo, hi);
    }
  }

  /** The mean of a column lies within any bounds of its present cells */
  lemma MeanWithin(x: Column, lo: real, hi: real)
    requires Count(x) > 0 && Within(x, lo, hi)
    ensures lo <= Mean(x) <= hi
  {
    DeviationSign(x, lo, hi);
    DeviationShiftsSum(x, lo);
    DeviationShiftsSum(x, hi);
    DivideBounded(Sum(x), Count(x) as real, lo, hi, Deviation(x, lo), Deviation(x, hi));
  }

  lemma DivideBounded(s: real, n: real, lo: real, hi: real, below: real, above: real)
    requires n > 0.0 && below == s - lo * n && above == s - hi * n
    requires below >= 0.0 && above <= 0.0
    ensures lo <= s / n <= hi
  {
    var q := s / n;
    assert q * n == s;
    assert (q - lo) * n >= 0.0;
    assert (hi - q) * n >= 0.0;
  }

  /** Deviations from the mean cancel out */
  lemma DeviationFromMean(x: Column)
    requires Count(x) > 0
    ensures Deviation(x, Mean(x)) == 0.0
  {
    DeviationShiftsSum(x, Mean(x));
    MulDiv(Sum(x), Count(x) as real);
  }

  lemma MulDiv(a: real, n: real)
    requires n != 0.0
    ensures a / n * n == a
  {
  }

  /** Standardizing keeps which cells are present, hence the count */
  lemma {:induction false} StandardizeCount(x: Column, m: real, s: real)
    requires s != 0.0
    ensures Count(Standardize(x, m, s)) == Count(x)
  {
    if |x| > 0 {
      assert Standardize(x, m, s)[1..] == Standardize(x[1..], m, s);
      StandardizeCount(x[1..], m, s);
    }
  }

  /** s times the standardized sum is the deviation of the original from m */
  lemma {:induction false} StandardizeSum(x: Column, m: real, s: real)
    requires s != 0.0
    ensures s * Sum(Standardize(x, m, s)) == Deviation(x, m)
    decreases |x|
  {
    if |x| > 0 {
      var y := Standardize(x, m, s);
      assert y[1..] == Standardize(x[1..], m, s);
      assert Sum(y) == y[0].GetOr(0.0) + Sum(y[1..]);
      StandardizeSum(x[1..], m, s);
      var d := if x[0].Some? then x[0].value - m else 0.0;
      if x[0].Some? {
        StandardizeHead(x, m, s);
      }
      ScaleStep(Sum(y), y[0].GetOr(0.0), Sum(y[1..]), Deviation(x, m), d, Deviation(x[1..], m), s);
    }
  }

  /** The first present cell of `StandardizeSum`: s times the standardized value is the deviation */
  lemma StandardizeHead(x: Column, m: real, s: real)
    requires s != 0.0 && |x| > 0 && x[0].Some?
    ensures s * Standardize(x, m, s)[0].value == x[0].value - m
  {
    MulDiv(x[0].value - m, s);
  }

  /** If s scales the head and the rest, it scales the whole: the inductive step of a
      sum scaled cell by cell */
  lemma ScaleStep(whole: real, w: real, sum: real, target: real, d: real, dev: real, s: real)
    requires whole == w + sum && target == d + dev
    requires s * w == d && s * sum == dev
    ensures s * whole == target
  {
  }

  /** s * s times the standardized squared deviation is the original one about m */
  lemma StandardizeSqDev(x: Column, m: real, s: real, q: real)
    requires s != 0.0 && q == s * s
    ensures q * SqDev(Standardize(x, m, s), 0.0) == SqDev(x, m)
  {
    var y := Standardize(x, m, s);
    forall i | 0 <= i < |x|
      ensures q * CellSquare(y[i], 0.0) == CellSquare(x[i], m)
    {
      StandardizeAt(x, m, s, i);
      if x[i].Some? {
        var d := x[i].value - m;
        MulDiv(d, s);
        SquareStep(d / s, d, s, CellSquare(y[i], 0.0), CellSquare(x[i], m));
      }
    }
    ScaledSqDev(x, y, m, q);
  }

  /** Cell i of a standardized column */
  lemma {:induction false} StandardizeAt(x: Column, m: real, s: real, i: nat)
    requires s != 0.0 && i < |x|
    ensures Standardize(x, m, s)[i] == if x[i].Some? then Some((x[i].value - m) / s) else None
    decreases i
  {
    if i > 0 {
      StandardizeAt(x[1..], m, s, i - 1);
    }
  }

  /** Scaling every squared cell by q scales their total by q */
  lemma {:induction false} ScaledSqDev(x: Column, y: Column, m: real, q: real)
    requires |y| == |x|
    requires forall i :: 0 <= i < |x| ==> q * CellSquare(y[i], 0.0) == CellSquare(x[i], m)
    ensures q * SqDev(y, 0.0) == SqDev(x, m)
    decreases |x|
  {
    if |x| > 0 {
      ScaledSqDev(x[1..], y[1..], m, q);
      ScaleStep(SqDev(y, 0.0), CellSquare(y[0], 0.0), SqDev(y[1..], 0.0),
                SqDev(x, m), CellSquare(x[0], m), SqDev(x[1..], m), q);
    }
  }

  lemma SquareStep(u: real, d: real, s: real, a: real, b: real)
    requires u * s == d && a == (u - 0.0) * (u - 0.0) && b == d * d
    ensures (s * s) * a == b
  {
    assert (s * s) * (u * u) == (u * s) * (u * s);
  }

  /** Standardizing by the column's own mean gives mean 0 */
  lemma StandardizeMean(x: Column, s: real)
    requires Count(x) > 0 && s != 0.0
    ensures Count(Standardize(x, Mean(x), s)) == Count(x)
    ensures Mean(Standardize(x, Mean(x), s)) == 0.0
  {
    var y := Standardize(x, Mean(x), s);
    StandardizeCount(x, Mean(x), s);
    StandardizeSum(x, Mean(x), s);
    DeviationFromMean(x);
    Cancel(Sum(y), 0.0, s);
  }

  /** Standardizing by the column's own mean and standard deviation gives sample
      variance 1 */
  lemma StandardizeVariance(x: Column, s: real)
    requires Count(x) >= 2 && s != 0.0 && s * s == Variance(x)
    ensures Count(Standardize(x, Mean(x), s)) == Count(x)
    ensures Variance(Standardize(x, Mean(x), s)) == 1.0
  {
    var y := Standardize(x, Mean(x), s);
    StandardizeSqDev(x, Mean(x), s, Variance(x));
    SquarePositive(s, Variance(x));
    UnitRatio(SqDev(y, 0.0), SqDev(x, Mean(x)), (Count(x) - 1) as real, Variance(x));
    StandardizeMean(x, s);
  }

  lemma UnitRatio(t: real, dev: real, k: real, q: real)
    requires k > 0.0 && q > 0.0 && q == dev / k && q * t == dev
    ensures t / k == 1.0
  {
    MulDiv(dev, k);
    Cancel(t, k, q);
  }

  /** A non-zero square is positive */
  lemma SquarePositive(s: real, q: real)
    requires s != 0.0 && q == s * s
    ensures q > 0.0
  {
    if s > 0.0 {
      MulPositive(s, s, q);
    } else {
      MulPositive(-s, -s, q);
    }
  }

  lemma MulPositive(a: real, b: real, p: real)
    requires a > 0.0 && b > 0.0 && p == a * b
    ensures p > 0.0
  {
  }

  lemma Cancel(a: real, b: real, c: real)
    requires c != 0.0 && c * a == c * b
    ensures a == b
  {
    assert (a - b) * c == 0.0;
  }

  /** Every present cell equal to c: no deviation from c */
  lemma {:induction false} SqDevConstant(x: Column, c: real)
    requires Within(x, c, c)
    ensures SqDev(x, c) == 0.0
  {
    if |x| > 0 {
      assert Within(x[1..], c, c) by {
        forall i | 0 <= i < |x| - 1 && x[1..][i].Some? ensures c <= x[1..][i].value <= c {
          assert x[1..][i] == x[i + 1];
        }
      }
      SqDevConstant(x[1..], c);
    }
  }

  // ---------------------------------------------------------------------------
  // Real-arithmetic steps, each over plain reals so the solver sees a small goal
  // ---------------------------------------------------------------------------

  lemma MulNonNegative(a: real, b: real, p: real)
    requires a >= 0.0 && b >= 0.0 && p == a * b
    ensures p >= 0.0
  {
    if a > 0.0 && b > 0.0 {
      MulPositive(a, b, p);
    }
  }

  /** A non-negative numerator over a positive denominator */
  lemma DivNonNegative(a: real, n: real)
    requires a >= 0.0 && n > 0.0
    ensures a / n >= 0.0
  {
    DivideBounded(a, n, 0.0, a / n, a, a - a / n * n);
  }

  /** A square root of zero is zero */
  lemma ZeroSquare(s: real, q: real)
    requires q == s * s && q == 0.0
    ensures s == 0.0
  {
    if s != 0.0 {
      SquarePositive(s, q);
    }
  }

  /** Squared deviations add up to a non-negative total */
  lemma {:induction false} SqDevNonNegative(x: Column, m: real)
    ensures SqDev(x, m) >= 0.0
  {
    if |x| > 0 {
      SqDevNonNegative(x[1..], m);
      if x[0].Some? {
        SquareNonNegative(x[0].value - m, CellSquare(x[0], m));
      }
    }
  }

  lemma SquareNonNegative(a: real, q: real)
    requires q == a * a
    ensures q >= 0.0
  {
    if a < 0.0 {
      MulNonNegative(-a, -a, q);
    } else {
      MulNonNegative(a, a, q);
    }
  }
}
