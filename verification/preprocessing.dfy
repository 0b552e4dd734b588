/** The preprocessing pipeline: missing-value fill, z-score normalisation of the sensor
    columns, a centred moving average, and feature extraction (speed, heading, acceleration
    magnitude, temperature trend), composed in that order by `Preprocess`.

    A batch is a `Frame` whose columns are sequences of possibly missing reals. The
    numerical kernels the pipeline borrows from numpy and scipy (square root, the haversine
    distance, the Savitzky-Golay filter) are parameters, bundled in `Numerics`. */
module Preprocessing {
  import opened Wrappers
  import opened Table

  /** The seven columns normalisation and smoothing act on */
  const SensorColumns: set<string> :=
    {"accel_x", "accel_y", "accel_z", "gyro_x", "gyro_y", "gyro_z", "temperature"}

  /** Every column of f outside the sensor set is the same in r */
  ghost predicate SensorsOnly(f: Frame, r: Frame) {
    forall c :: c in f.cols && c !in SensorColumns ==> c in r.cols && r.cols[c] == f.cols[c]
  }

  // ---------------------------------------------------------------------------
  // Missing-value fill: `interpolate(method='linear')` then `fillna(mean())`
  // ---------------------------------------------------------------------------

  /** The nearest present cell strictly before i */
  function PrevPresent(x: Column, i: nat): (r: Option<nat>)
    requires i <= |x|
    ensures r.Some? ==> r.value < i && x[r.value].Some?
    ensures r.Some? ==> forall j :: r.value < j < i ==> x[j].None?
    ensures r.None? ==> forall j :: 0 <= j < i ==> x[j].None?
    decreases i
  {
    if i == 0 then None
    else if x[i - 1].Some? then Some(i - 1)
    else PrevPresent(x, i - 1)
  }

  /** The nearest present cell at or after i */
  function NextPresent(x: Column, i: nat): (r: Option<nat>)
    requires i <= |x|
    ensures r.Some? ==> i <= r.value < |x| && x[r.value].Some?
    ensures r.Some? ==> forall j :: i <= j < r.value ==> x[j].None?
    ensures r.None? ==> forall j :: i <= j < |x| ==> x[j].None?
    decreases |x| - i
  {
    if i == |x| then None
    else if x[i].Some? then Some(i)
    else NextPresent(x, i + 1)
  }

  /** The point a fraction t of the way from a to b */
  function Lerp(a: real, b: real, t: real): real {
    a + (b - a) * t
  }

  /** Linear interpolation of one cell, the way pandas fills forward: a gap between two
      present cells gets the value on the straight line through them (rows equally spaced),
      a gap after the last present cell repeats it, and a gap before the first present
      cell stays missing. */
  function InterpolateAt(x: Column, i: nat): (r: Option<real>)
    requires i < |x|
    ensures x[i].Some? ==> r == x[i]
    ensures r.None? <==> forall j :: 0 <= j <= i ==> x[j].None?
  {
    if x[i].Some? then x[i]
    else match PrevPresent(x, i)
      case None => None
      case Some(p) =>
        match NextPresent(x, i + 1)
        case None => x[p]
        case Some(q) => Some(Lerp(x[p].value, x[q].value, (i - p) as real / (q - p) as real))
  }

  function Interpolate(x: Column): (r: Column)
    ensures |r| == |x|
    ensures forall i :: 0 <= i < |x| && x[i].Some? ==> r[i] == x[i]
  {
    seq(|x|, i requires 0 <= i < |x| => InterpolateAt(x, i))
  }

  /** The fill of one column: interpolate, then put the interpolated column's mean into
      what is still missing. A column with no present cell has no mean and stays empty. */
  function FillColumn(x: Column): (r: Column)
    ensures |r| == |x|
    ensures forall i :: 0 <= i < |x| && x[i].Some? ==> r[i] == x[i]
  {
    var y := Interpolate(x);
    if Count(y) > 0 then seq(|y|, i requires 0 <= i < |y| => Some(y[i].GetOr(Mean(y))))
    else y
  }

  /** The fill applied to every column of the frame */
  function FillFrame(f: Frame): (r: Frame)
    ensures r.rows == f.rows && r.cols.Keys == f.cols.Keys
    ensures forall c :: c in f.cols ==> |r.cols[c]| == |f.cols[c]|
    ensures Wf(f) ==> Wf(r)
    ensures forall c, i :: c in f.cols && 0 <= i < |f.cols[c]| && f.cols[c][i].Some? ==>
      r.cols[c][i] == f.cols[c][i]
  {
    Frame(f.rows, map c | c in f.cols :: FillColumn(f.cols[c]))
  }

  /** A present cell makes the count positive */
  lemma CountPositive(x: Column, i: nat)
    requires i < |x| && x[i].Some?
    ensures Count(x) > 0
  {
    CountZero(x);
  }

  /** After the fill, a column with at least one present cell has no gap */
  lemma FillLeavesNoGap(x: Column)
    requires Count(x) > 0
    ensures AllPresent(FillColumn(x))
  {
    CountZero(x);
    var k :| 0 <= k < |x| && x[k].Some?;
    CountPositive(Interpolate(x), k);
  }

  /** A column with no present cell comes out of the fill unchanged */
  lemma FillEmptyColumn(x: Column)
    requires Count(x) == 0
    ensures FillColumn(x) == x
  {
    CountZero(x);
    var y := Interpolate(x);
    forall i | 0 <= i < |x| ensures y[i] == x[i] && y[i].None? {
      assert InterpolateAt(x, i).None?;
    }
    CountZero(y);
  }

  /** An interpolated cell lies between the two cells it is drawn from */
  lemma LerpBetween(a: real, b: real, t: real, lo: real, hi: real)
    requires 0.0 <= t <= 1.0 && lo <= a <= hi && lo <= b <= hi
    ensures lo <= Lerp(a, b, t) <= hi
  {
    var d := b - a;
    var p := d * t;
    assert d * (1.0 - t) == d - p;
    if d >= 0.0 {
      MulNonNegative(d, t, p);
      MulNonNegative(d, 1.0 - t, d - p);
    } else {
      MulNonNegative(-d, t, -p);
      MulNonNegative(-d, 1.0 - t, p - d);
    }
  }

  /** Bounds on the present cells survive interpolation */
  lemma InterpolateWithin(x: Column, lo: real, hi: real)
    requires Within(x, lo, hi)
    ensures Within(Interpolate(x), lo, hi)
  {
    forall i | 0 <= i < |x| && InterpolateAt(x, i).Some?
      ensures lo <= InterpolateAt(x, i).value <= hi
    {
      InterpolateAtWithin(x, i, lo, hi);
    }
  }

  lemma InterpolateAtWithin(x: Column, i: nat, lo: real, hi: real)
    requires i < |x| && Within(x, lo, hi) && InterpolateAt(x, i).Some?
    ensures lo <= InterpolateAt(x, i).value <= hi
  {
    if x[i].None? {
      var p := PrevPresent(x, i).value;
      match NextPresent(x, i + 1)
      case None =>
      case Some(q) =>
        var num := (i - p) as real;
        var den := (q - p) as real;
        DivideBounded(num, den, 0.0, 1.0, num, num - den);
        LerpBetween(x[p].value, x[q].value, num / den, lo, hi);
    }
  }

  /** Bounds on the present cells survive the fill: interpolated values stay between their
      neighbours and the mean stays between the bounds */
  lemma FillWithin(x: Column, lo: real, hi: real)
    requires Within(x, lo, hi)
    ensures Within(FillColumn(x), lo, hi)
  {
    var y := Interpolate(x);
    InterpolateWithin(x, lo, hi);
    if Count(y) > 0 {
      MeanWithin(y, lo, hi);
    }
  }

  // ---------------------------------------------------------------------------
  // z-score normalisation of the sensor columns
  // ---------------------------------------------------------------------------

  /** What the model assumes of numpy's square root: defined on the non-negative reals,
      non-negative, and squaring back to its argument */
  ghost predicate SqrtSound(sqrt: real -> real) {
    forall v :: v >= 0.0 ==> sqrt(v) >= 0.0 && sqrt(v) * sqrt(v) == v
  }

  /** pandas' sample standard deviation (ddof = 1); missing below two present cells */
  function Std(x: Column, sqrt: real -> real): (r: Option<real>)
    ensures r.Some? <==> Count(x) >= 2
    ensures SqrtSound(sqrt) && r.Some? ==> r.value >= 0.0 && r.value * r.value == Variance(x)
  {
    if Count(x) >= 2 then Some(sqrt(Variance(x))) else None
  }

  /** One sensor column: standardized when its standard deviation is a positive number,
      otherwise (a missing deviation compares false) left as it is */
  function NormalizeColumn(x: Column, sqrt: real -> real): (r: Column)
    ensures |r| == |x|
    ensures forall i :: 0 <= i < |x| ==> (r[i].Some? <==> x[i].Some?)
  {
    var sd := Std(x, sqrt);
    if sd.Some? && sd.value > 0.0 then Standardize(x, Mean(x), sd.value) else x
  }

  /** Normalisation of every sensor column the frame has; the other columns pass through */
  function NormalizeFrame(f: Frame, sqrt: real -> real): (r: Frame)
    ensures r.rows == f.rows && r.cols.Keys == f.cols.Keys
    ensures forall c :: c in f.cols ==> |r.cols[c]| == |f.cols[c]|
    ensures Wf(f) ==> Wf(r)
    ensures SensorsOnly(f, r)
    ensures forall c :: c in f.cols && c in SensorColumns ==> r.cols[c] == NormalizeColumn(f.cols[c], sqrt)
  {
    Frame(f.rows, map c | c in f.cols ::
      if c in SensorColumns then NormalizeColumn(f.cols[c], sqrt) else f.cols[c])
  }

  /** `clean_and_normalize`: fill every column, then normalise the sensor columns */
  function CleanAndNormalize(f: Frame, sqrt: real -> real): (r: Frame)
    ensures r.rows == f.rows && r.cols.Keys == f.cols.Keys
    ensures forall c :: c in f.cols ==> |r.cols[c]| == |f.cols[c]|
    ensures Wf(f) ==> Wf(r)
    ensures forall c :: c in f.cols ==>
      r.cols[c] == (if c in SensorColumns then NormalizeColumn(FillColumn(f.cols[c]), sqrt) else FillColumn(f.cols[c]))
  {
    NormalizeFrame(FillFrame(f), sqrt)
  }

  /** With a sound square root, the standard deviation is positive exactly when the
      sample variance is */
  lemma StdPositive(x: Column, sqrt: real -> real)
    requires SqrtSound(sqrt) && Count(x) >= 2
    ensures Variance(x) >= 0.0
    ensures Std(x, sqrt).value > 0.0 <==> Variance(x) > 0.0
    ensures Std(x, sqrt).value * Std(x, sqrt).value == Variance(x)
  {
    var k := (Count(x) - 1) as real;
    SqDevNonNegative(x, Mean(x));
    DivNonNegative(SqDev(x, Mean(x)), k);
    var s := sqrt(Variance(x));
    if Variance(x) == 0.0 {
      ZeroSquare(s, Variance(x));
    }
  }

  /** A normalised column with positive variance has mean 0 and sample variance 1 */
  lemma NormalizeMoments(x: Column, sqrt: real -> real)
    requires SqrtSound(sqrt) && Count(x) >= 2 && Variance(x) > 0.0
    ensures Count(NormalizeColumn(x, sqrt)) == Count(x)
    ensures Mean(NormalizeColumn(x, sqrt)) == 0.0
    ensures Variance(NormalizeColumn(x, sqrt)) == 1.0
  {
    StdPositive(x, sqrt);
    StandardizeVariance(x, Std(x, sqrt).value);
    StandardizeMean(x, Std(x, sqrt).value);
  }

  /** A column with fewer than two present cells, or with zero variance, is left as it is */
  lemma NormalizeSkipsFlat(x: Column, sqrt: real -> real)
    requires SqrtSound(sqrt)
    requires Count(x) < 2 || Variance(x) == 0.0
    ensures NormalizeColumn(x, sqrt) == x
  {
    if Count(x) >= 2 {
      StdPositive(x, sqrt);
    }
  }

  /** A column whose present cells all hold the same value is a fixed point */
  lemma NormalizeConstant(x: Column, c: real, sqrt: real -> real)
    requires SqrtSound(sqrt) && Within(x, c, c)
    ensures NormalizeColumn(x, sqrt) == x
  {
    if Count(x) >= 2 {
      MeanWithin(x, c, c);
      SqDevConstant(x, c);
      assert Variance(x) == 0.0 / (Count(x) - 1) as real;
    }
    NormalizeSkipsFlat(x, sqrt);
  }

  // ---------------------------------------------------------------------------
  // Centred moving average, window 5, at least one present cell
  // ---------------------------------------------------------------------------

  /** First row of the window centred on row i */
  function WindowLo(i: nat): nat {
    if i < 2 then 0 else i - 2
  }

  /** One past the last row of the window centred on row i, clipped to n rows */
  function WindowHi(i: nat, n: nat): nat {
    if i + 3 < n then i + 3 else n
  }

  /** The rows [i - 2, i + 2] that exist */
  function Window(x: Column, i: nat): (w: Column)
    requires i < |x|
    ensures 1 <= |w| <= 5
    ensures x[i] in w
  {
    x[WindowLo(i)..WindowHi(i, |x|)]
  }

  /** `rolling(5, min_periods=1, center=True).mean()` at row i: the mean of the present
      cells of the window, missing when the window has none */
  function WindowMean(x: Column, i: nat): (r: Option<real>)
    requires i < |x|
    ensures r.Some? <==> Count(Window(x, i)) > 0
    ensures r.Some? ==> r.value * Count(Window(x, i)) as real == Sum(Window(x, i))
  {
    var w := Window(x, i);
    if Count(w) > 0 then Some(Mean(w)) else None
  }

  function MovingAverage(x: Column): (r: Column)
    ensures |r| == |x|
  {
    seq(|x|, i requires 0 <= i < |x| => WindowMean(x, i))
  }

  /** `moving_average_filter`: smooth every sensor column the frame has */
  function MovingAverageFilter(f: Frame): (r: Frame)
    ensures r.rows == f.rows && r.cols.Keys == f.cols.Keys
    ensures forall c :: c in f.cols ==> |r.cols[c]| == |f.cols[c]|
    ensures Wf(f) ==> Wf(r)
    ensures SensorsOnly(f, r)
    ensures forall c :: c in f.cols && c in SensorColumns ==> r.cols[c] == MovingAverage(f.cols[c])
  {
    Frame(f.rows, map c | c in f.cols ::
      if c in SensorColumns then MovingAverage(f.cols[c]) else f.cols[c])
  }

  /** A smoothed cell is present exactly when some cell of its window is */
  lemma SmoothPresence(x: Column, i: nat)
    requires i < |x|
    ensures MovingAverage(x)[i].Some? <==>
      exists j :: WindowLo(i) <= j < WindowHi(i, |x|) && x[j].Some?
  {
    var w := Window(x, i);
    CountZero(w);
    if exists j :: WindowLo(i) <= j < WindowHi(i, |x|) && x[j].Some? {
      var j :| WindowLo(i) <= j < WindowHi(i, |x|) && x[j].Some?;
      assert w[j - WindowLo(i)] == x[j];
    }
    if Count(w) > 0 {
      var k :| 0 <= k < |w| && w[k].Some?;
      assert x[WindowLo(i) + k] == w[k];
    }
  }

  /** Smoothing a column without gaps leaves no gap */
  lemma SmoothKeepsPresent(x: Column)
    requires AllPresent(x)
    ensures AllPresent(MovingAverage(x))
  {
    forall i | 0 <= i < |x| ensures MovingAverage(x)[i].Some? {
      SmoothPresence(x, i);
      assert WindowLo(i) <= i < WindowHi(i, |x|);
    }
  }

  /** On a gap-free column, row i of the smoothed column is the plain average of the rows
      max(0, i - 2) through min(n - 1, i + 2) */
  lemma SmoothAverage(x: Column, i: nat)
    requires AllPresent(x) && i < |x|
    ensures
      var lo := if i >= 2 then i - 2 else 0;
      var hi := if i + 2 <= |x| - 1 then i + 2 else |x| - 1;
      MovingAverage(x)[i] == Some(Sum(x[lo..hi + 1]) / (hi + 1 - lo) as real)
  {
    AllPresentSlice(x, WindowLo(i), WindowHi(i, |x|));
    CountAllPresent(Window(x, i));
  }

  /** Every smoothed value lies within any bounds of the input's present cells, in
      particular between the column's minimum and maximum */
  lemma SmoothWithin(x: Column, lo: real, hi: real)
    requires Within(x, lo, hi)
    ensures Within(MovingAverage(x), lo, hi)
  {
    forall i | 0 <= i < |x| && MovingAverage(x)[i].Some?
      ensures lo <= MovingAverage(x)[i].value <= hi
    {
      WithinSlice(x, lo, hi, WindowLo(i), WindowHi(i, |x|));
      MeanWithin(Window(x, i), lo, hi);
    }
  }

  /** A gap-free constant column is a fixed point of the smoothing */
  lemma SmoothConstant(x: Column, c: real)
    requires AllPresent(x) && Within(x, c, c)
    ensures MovingAverage(x) == x
  {
    SmoothKeepsPresent(x);
    SmoothWithin(x, c, c);
  }

  // ---------------------------------------------------------------------------
  // Feature extraction
  // ---------------------------------------------------------------------------

  /** The numerical kernels feature extraction calls: the square root, the haversine
      distance in metres between two (latitude, longitude) points in degrees, and the
      Savitzky-Golay filter (polynomial order 2) of a column with a window length, read
      at one row */
  datatype Numerics = Numerics(
    sqrt: real -> real,
    distance: (real, real, real, real) -> real,
    savgol: (Column, nat, nat) -> Option<real>)

  /** What the model assumes of the haversine distance: it is never negative */
  ghost predicate DistanceSound(d: (real, real, real, real) -> real) {
    forall lat1, lon1, lat2, lon2 :: d(lat1, lon1, lat2, lon2) >= 0.0
  }

  /** Stand-in for a time step of exactly zero */
  const DtFloor: real := 0.000001

  /** The polynomial order of the temperature-trend filter */
  const PolyOrder: nat := 2

  /** `np.diff(x, prepend=x[0])` at row i: row 0 is compared with itself */
  function Diff(x: Column, i: nat): (r: Option<real>)
    requires i < |x|
    ensures r.Some? <==> x[i].Some? && (i == 0 || x[i - 1].Some?)
    ensures i == 0 && r.Some? ==> r.value == 0.0
    ensures i > 0 && r.Some? ==> x[i - 1].value + r.value == x[i].value
  {
    var prev := if i == 0 then x[0] else x[i - 1];
    if x[i].Some? && prev.Some? then Some(x[i].value - prev.value) else None
  }

  /** `dt[dt == 0] = 1e-6`: only a step of exactly zero is replaced */
  function FloorDt(dt: real): (r: real)
    ensures dt != 0.0 ==> r == dt
    ensures dt == 0.0 ==> r == DtFloor
    ensures r != 0.0
  {
    if dt == 0.0 then DtFloor else dt
  }

  /** The haversine distance covered into row i. Row 0 has zero latitude and longitude
      difference, so its distance is zero; but `np.roll` pairs row 0 with the last row,
      whose latitude enters the formula multiplied by zero, so a missing last latitude
      makes row 0 missing as well. */
  function HopDistance(lat: Column, lon: Column, i: nat, dist: (real, real, real, real) -> real): (r: Option<real>)
    requires |lat| == |lon| && i < |lat|
    ensures i == 0 ==> (r.Some? <==> lat[0].Some? && lon[0].Some? && lat[|lat| - 1].Some?)
    ensures i == 0 && r.Some? ==> r.value == 0.0
    ensures i > 0 ==> (r.Some? <==> lat[i - 1].Some? && lon[i - 1].Some? && lat[i].Some? && lon[i].Some?)
    ensures i > 0 && r.Some? ==> r.value == dist(lat[i - 1].value, lon[i - 1].value, lat[i].value, lon[i].value)
    ensures DistanceSound(dist) && r.Some? ==> r.value >= 0.0
  {
    if i == 0 then
      (if lat[0].Some? && lon[0].Some? && lat[|lat| - 1].Some? then Some(0.0) else None)
    else if lat[i - 1].Some? && lon[i - 1].Some? && lat[i].Some? && lon[i].Some? then
      var d := dist(lat[i - 1].value, lon[i - 1].value, lat[i].value, lon[i].value);
      DistanceNonNegativeIfSound(dist, lat[i - 1].value, lon[i - 1].value, lat[i].value, lon[i].value);
      Some(d)
    else None
  }

  /** Speed in metres per second into row i: distance over the floored time step */
  function SpeedAt(lat: Column, lon: Column, ts: Column, i: nat, dist: (real, real, real, real) -> real): (r: Option<real>)
    requires |lat| == |lon| == |ts| && i < |lat|
    ensures r.Some? <==> HopDistance(lat, lon, i, dist).Some? && Diff(ts, i).Some?
    ensures r.Some? ==> r.value * FloorDt(Diff(ts, i).value) == HopDistance(lat, lon, i, dist).value
  {
    var d := HopDistance(lat, lon, i, dist);
    var dt := Diff(ts, i);
    if d.Some? && dt.Some? then
      MulDiv(d.value, FloorDt(dt.value));
      Some(d.value / FloorDt(dt.value))
    else None
  }

  function SpeedColumn(lat: Column, lon: Column, ts: Column, dist: (real, real, real, real) -> real): (r: Column)
    requires |lat| == |lon| == |ts|
    ensures |r| == |lat|
  {
    seq(|lat|, i requires 0 <= i < |lat| => SpeedAt(lat, lon, ts, i, dist))
  }

  /** Euclidean norm of three possibly missing components */
  function Magnitude(x: Option<real>, y: Option<real>, z: Option<real>, sqrt: real -> real): (r: Option<real>)
    ensures r.Some? <==> x.Some? && y.Some? && z.Some?
    ensures SqrtSound(sqrt) && r.Some? ==>
      r.value >= 0.0 && r.value * r.value == x.value * x.value + y.value * y.value + z.value * z.value
  {
    if x.Some? && y.Some? && z.Some? then
      var q := x.value * x.value + y.value * y.value + z.value * z.value;
      SumOfSquares(x.value, y.value, z.value, q);
      Some(sqrt(q))
    else None
  }

  function MagnitudeColumn(x: Column, y: Column, z: Column, sqrt: real -> real): (r: Column)
    requires |x| == |y| == |z|
    ensures |r| == |x|
  {
    seq(|x|, i requires 0 <= i < |x| => Magnitude(x[i], y[i], z[i], sqrt))
  }

  /** Window length of the temperature trend: 5, or for short frames the odd number
      n // 2 * 2 + 1 */
  function TrendWindow(n: nat): (w: nat)
    ensures w % 2 == 1
    ensures n >= 5 ==> w == 5
    ensures n < 5 && n % 2 == 1 ==> w == n
    ensures n < 5 && n % 2 == 0 ==> w == n + 1
  {
    if n >= 5 then 5 else n / 2 * 2 + 1
  }

  /** scipy's `savgol_filter` in its default `interp` mode rejects a window no longer than
      the polynomial order and a window longer than the data */
  predicate SavgolAccepts(window: nat, n: nat)
    ensures SavgolAccepts(window, n) ==> 3 <= window <= n
  {
    PolyOrder < window <= n
  }

  /** Every column has n cells */
  ghost predicate Columns(cols: map<string, Column>, n: nat) {
    forall c :: c in cols ==> |cols[c]| == n
  }

  predicate HasPosition(cols: map<string, Column>) {
    "latitude" in cols && "longitude" in cols && "timestamp" in cols
  }

  predicate HasAccel(cols: map<string, Column>) {
    "accel_x" in cols && "accel_y" in cols && "accel_z" in cols
  }

  /** The columns feature extraction adds */
  const DerivedColumns: set<string> := {"speed", "heading", "accel_mag", "temp_trend"}

  /** Feature extraction never overwrites a sensor column */
  lemma SensorNotDerived(c: string)
    requires c in SensorColumns
    ensures c !in DerivedColumns
  {
    assert c[0] == 'a' || c[0] == 'g' || c[0] == 't';
    assert |c| == 7 || |c| == 6 || |c| == 11;
  }

  /** The speed feature, when latitude, longitude and timestamp are all there */
  function AddSpeed(cols: map<string, Column>, n: nat, dist: (real, real, real, real) -> real): (r: map<string, Column>)
    requires Columns(cols, n)
    ensures Columns(r, n)
    ensures r.Keys == cols.Keys + (if HasPosition(cols) then {"speed"} else {})
    ensures forall c :: c in cols && c != "speed" ==> r[c] == cols[c]
    ensures HasPosition(cols) ==>
      r["speed"] == SpeedColumn(cols["latitude"], cols["longitude"], cols["timestamp"], dist)
    ensures !HasPosition(cols) ==> r == cols
  {
    if HasPosition(cols) then
      cols["speed" := SpeedColumn(cols["latitude"], cols["longitude"], cols["timestamp"], dist)]
    else cols
  }

  /** The heading feature: a copy of the compass column */
  function AddHeading(cols: map<string, Column>, n: nat): (r: map<string, Column>)
    requires Columns(cols, n)
    ensures Columns(r, n)
    ensures r.Keys == cols.Keys + (if "compass" in cols then {"heading"} else {})
    ensures forall c :: c in cols && c != "heading" ==> r[c] == cols[c]
    ensures "compass" in cols ==> r["heading"] == cols["compass"]
    ensures "compass" !in cols ==> r == cols
  {
    if "compass" in cols then cols["heading" := cols["compass"]] else cols
  }

  /** The acceleration-magnitude feature, when all three accelerometer axes are there */
  function AddMagnitude(cols: map<string, Column>, n: nat, sqrt: real -> real): (r: map<string, Column>)
    requires Columns(cols, n)
    ensures Columns(r, n)
    ensures r.Keys == cols.Keys + (if HasAccel(cols) then {"accel_mag"} else {})
    ensures forall c :: c in cols && c != "accel_mag" ==> r[c] == cols[c]
    ensures HasAccel(cols) ==>
      r["accel_mag"] == MagnitudeColumn(cols["accel_x"], cols["accel_y"], cols["accel_z"], sqrt)
    ensures !HasAccel(cols) ==> r == cols
  {
    if HasAccel(cols) then
      cols["accel_mag" := MagnitudeColumn(cols["accel_x"], cols["accel_y"], cols["accel_z"], sqrt)]
    else cols
  }

  /** `savgol_filter(t, window_length=TrendWindow(n), polyorder=2)`: row i of the filter's
      output over the whole column */
  function TrendColumn(t: Column, n: nat, savgol: (Column, nat, nat) -> Option<real>): (r: Column)
    ensures |r| == n
    ensures forall i :: 0 <= i < n ==> r[i] == savgol(t, TrendWindow(n), i)
  {
    seq(n, i requires 0 <= i < n => savgol(t, TrendWindow(n), i))
  }

  /** The temperature-trend feature, when there is a temperature column */
  function AddTrend(cols: map<string, Column>, n: nat, savgol: (Column, nat, nat) -> Option<real>): (r: map<string, Column>)
    requires Columns(cols, n)
    ensures Columns(r, n)
    ensures r.Keys == cols.Keys + (if "temperature" in cols then {"temp_trend"} else {})
    ensures forall c :: c in cols && c != "temp_trend" ==> r[c] == cols[c]
    ensures "temperature" in cols ==> r["temp_trend"] == TrendColumn(cols["temperature"], n, savgol)
    ensures "temperature" !in cols ==> r == cols
  {
    if "temperature" in cols then
      cols["temp_trend" := TrendColumn(cols["temperature"], n, savgol)]
    else cols
  }

  /** Why `extract_features` raises: indexing row 0 of an empty position column, or a
      temperature-trend window scipy refuses */
  datatype FeatureError = EmptyPositionIndex | TrendWindowRejected(window: nat, rows: nat)

  /** The conditions under which `extract_features` raises */
  predicate ExtractFails(f: Frame)
    ensures ExtractFails(f) ==> f.rows in {0, 1, 2, 4}
    ensures "temperature" in f.cols && f.rows in {0, 1, 2, 4} ==> ExtractFails(f)
  {
    (HasPosition(f.cols) && f.rows == 0) ||
    ("temperature" in f.cols && !SavgolAccepts(TrendWindow(f.rows), f.rows))
  }

  /** `extract_features`, feature by feature in the order of the source; a feature whose
      source columns are absent is skipped */
  function ExtractFeatures(f: Frame, nm: Numerics): (r: Result<Frame, FeatureError>)
    requires Wf(f)
    ensures r.Failure? <==> ExtractFails(f)
    ensures r.Failure? && HasPosition(f.cols) && f.rows == 0 ==> r.error == EmptyPositionIndex
    ensures r.Failure? && !(HasPosition(f.cols) && f.rows == 0) ==>
      r.error == TrendWindowRejected(TrendWindow(f.rows), f.rows)
    ensures r.Success? ==> r.value.rows == f.rows && Wf(r.value)
  {
    var n := f.rows;
    if HasPosition(f.cols) && n == 0 then Failure(EmptyPositionIndex)
    else if "temperature" in f.cols && !SavgolAccepts(TrendWindow(n), n) then
      Failure(TrendWindowRejected(TrendWindow(n), n))
    else
      var c1 := AddSpeed(f.cols, n, nm.distance);
      var c2 := AddHeading(c1, n);
      var c3 := AddMagnitude(c2, n, nm.sqrt);
      Success(Frame(n, AddTrend(c3, n, nm.savgol)))
  }

  /** A successful extraction leaves every column it does not derive as it was, copies
      the compass into the heading, and holds the speed and magnitude columns computed
      from the input */
  lemma ExtractFeaturesKeeps(f: Frame, nm: Numerics)
    requires Wf(f) && !ExtractFails(f)
    ensures forall c :: c in f.cols && c !in DerivedColumns ==>
      c in ExtractFeatures(f, nm).value.cols && ExtractFeatures(f, nm).value.cols[c] == f.cols[c]
    ensures "compass" in f.cols ==> ExtractFeatures(f, nm).value.cols["heading"] == f.cols["compass"]
    ensures HasPosition(f.cols) ==>
      "speed" in ExtractFeatures(f, nm).value.cols &&
      ExtractFeatures(f, nm).value.cols["speed"]
        == SpeedColumn(f.cols["latitude"], f.cols["longitude"], f.cols["timestamp"], nm.distance)
    ensures HasAccel(f.cols) ==>
      "accel_mag" in ExtractFeatures(f, nm).value.cols &&
      ExtractFeatures(f, nm).value.cols["accel_mag"]
        == MagnitudeColumn(f.cols["accel_x"], f.cols["accel_y"], f.cols["accel_z"], nm.sqrt)
  {
    var n := f.rows;
    var c1 := AddSpeed(f.cols, n, nm.distance);
    var c2 := AddHeading(c1, n);
    var c3 := AddMagnitude(c2, n, nm.sqrt);
    assert ExtractFeatures(f, nm).value.cols == AddTrend(c3, n, nm.savgol);
  }
  /** A successful extraction holds the trend filter's output over the input's temperature
      column, with the trend window of the frame's row count */
  lemma ExtractTrend(f: Frame, nm: Numerics)
    requires Wf(f) && !ExtractFails(f)
    ensures "temperature" in f.cols ==>
      "temp_trend" in ExtractFeatures(f, nm).value.cols &&
      ExtractFeatures(f, nm).value.cols["temp_trend"] == TrendColumn(f.cols["temperature"], f.rows, nm.savgol)
  {
    var n := f.rows;
    var c1 := AddSpeed(f.cols, n, nm.distance);
    var c2 := AddHeading(c1, n);
    var c3 := AddMagnitude(c2, n, nm.sqrt);
    assert ExtractFeatures(f, nm).value.cols == AddTrend(c3, n, nm.savgol);
    assert "temperature" in f.cols ==> c3["temperature"] == f.cols["temperature"];
  }


  /** A successful extraction adds exactly the features whose source columns are present */
  lemma ExtractFeaturesAdds(f: Frame, nm: Numerics)
    requires Wf(f) && !ExtractFails(f)
    ensures ExtractFeatures(f, nm).value.cols.Keys == f.cols.Keys +
      (if HasPosition(f.cols) then {"speed"} else {}) +
      (if "compass" in f.cols then {"heading"} else {}) +
      (if HasAccel(f.cols) then {"accel_mag"} else {}) +
      (if "temperature" in f.cols then {"temp_trend"} else {})
  {
  }

  /** `preprocess` after ingestion: clean and normalise, smooth, extract features */
  function Preprocess(f: Frame, nm: Numerics): (r: Result<Frame, FeatureError>)
    requires Wf(f)
    ensures r.Success? ==> r.value.rows == f.rows && Wf(r.value)
    ensures r.Failure? <==> ExtractFails(f)
  {
    ExtractFeatures(MovingAverageFilter(CleanAndNormalize(f, nm.sqrt)), nm)
  }

  // ---------------------------------------------------------------------------
  // Properties of the features and of the whole pipeline
  // ---------------------------------------------------------------------------

  /** The filter accepts the trend window exactly for 3 rows and for 5 rows or more; for
      0, 1, 2 and 4 rows `extract_features` raises whenever there is a temperature column */
  lemma TrendWindowAccepted(n: nat)
    ensures SavgolAccepts(TrendWindow(n), n) <==> n == 3 || n >= 5
  {
  }

  /** Row 0 covers no distance over a floored time step, so its speed is 0; it is missing
      when its own position or time is missing, or when the last row's latitude is */
  lemma SpeedFirstRow(lat: Column, lon: Column, ts: Column, dist: (real, real, real, real) -> real)
    requires |lat| == |lon| == |ts| > 0
    ensures var r := SpeedColumn(lat, lon, ts, dist);
      r[0].Some? <==> lat[0].Some? && lon[0].Some? && lat[|lat| - 1].Some? && ts[0].Some?
    ensures var r := SpeedColumn(lat, lon, ts, dist);
      r[0].Some? ==> r[0].value == 0.0
  {
    assert Diff(ts, 0).Some? ==> FloorDt(Diff(ts, 0).value) == DtFloor;
  }

  /** With a non-negative distance, speeds are non-negative as long as the timestamps of
      consecutive present rows do not go backwards */
  lemma SpeedNonNegative(lat: Column, lon: Column, ts: Column, dist: (real, real, real, real) -> real)
    requires |lat| == |lon| == |ts|
    requires DistanceSound(dist)
    requires forall i :: 0 < i < |ts| && ts[i].Some? && ts[i - 1].Some? ==> ts[i - 1].value <= ts[i].value
    ensures forall i :: 0 <= i < |lat| && SpeedColumn(lat, lon, ts, dist)[i].Some? ==>
      SpeedColumn(lat, lon, ts, dist)[i].value >= 0.0
  {
    forall i | 0 <= i < |lat| && SpeedColumn(lat, lon, ts, dist)[i].Some?
      ensures SpeedColumn(lat, lon, ts, dist)[i].value >= 0.0
    {
      var d := HopDistance(lat, lon, i, dist).value;
      if i > 0 {
        DistanceNonNegativeIfSound(dist, lat[i - 1].value, lon[i - 1].value, lat[i].value, lon[i].value);
      } else {
        assert d == 0.0;
      }
      var dt := FloorDt(Diff(ts, i).value);
      assert dt > 0.0;
      DivNonNegative(d, dt);
    }
  }

  /** Only a time step of exactly zero is floored: a row whose timestamp goes backwards
      gets a negative speed whenever it covers some distance */
  lemma SpeedNegativeWhenTimeRunsBack(lat: Column, lon: Column, ts: Column, dist: (real, real, real, real) -> real, i: nat)
    requires |lat| == |lon| == |ts| && 0 < i < |lat|
    requires HopDistance(lat, lon, i, dist).Some? && HopDistance(lat, lon, i, dist).value > 0.0
    requires ts[i].Some? && ts[i - 1].Some? && ts[i].value < ts[i - 1].value
    ensures SpeedColumn(lat, lon, ts, dist)[i].Some?
    ensures SpeedColumn(lat, lon, ts, dist)[i].value < 0.0
  {
    var d := HopDistance(lat, lon, i, dist).value;
    var dt := ts[i].value - ts[i - 1].value;
    assert FloorDt(dt) == dt;
    DivNegative(d, dt);
  }

  lemma DivNegative(a: real, n: real)
    requires a > 0.0 && n < 0.0
    ensures a / n < 0.0
  {
    var q := a / n;
    assert q * n == a;
    if q >= 0.0 {
      MulNonNegative(q, -n, -a);
    }
  }

  /** The acceleration magnitude is present exactly when all three axes are, and is then
      non-negative */
  lemma MagnitudeNonNegative(x: Column, y: Column, z: Column, sqrt: real -> real)
    requires |x| == |y| == |z| && SqrtSound(sqrt)
    ensures forall i :: 0 <= i < |x| ==>
      (MagnitudeColumn(x, y, z, sqrt)[i].Some? <==> x[i].Some? && y[i].Some? && z[i].Some?)
    ensures forall i :: 0 <= i < |x| && MagnitudeColumn(x, y, z, sqrt)[i].Some? ==>
      MagnitudeColumn(x, y, z, sqrt)[i].value >= 0.0
  {
    forall i | 0 <= i < |x| && MagnitudeColumn(x, y, z, sqrt)[i].Some?
      ensures MagnitudeColumn(x, y, z, sqrt)[i].value >= 0.0
    {
      assert MagnitudeColumn(x, y, z, sqrt)[i] == Magnitude(x[i], y[i], z[i], sqrt);
    }
  }

  /** The features of the frame `extract_features` returns: every acceleration magnitude
      is non-negative, and row 0's speed, when present, is zero */
  lemma ExtractedFeatureValues(f: Frame, nm: Numerics)
    requires Wf(f) && !ExtractFails(f)
    ensures var g := ExtractFeatures(f, nm).value;
      HasAccel(f.cols) && SqrtSound(nm.sqrt) ==>
        "accel_mag" in g.cols && |g.cols["accel_mag"]| == f.rows &&
        forall i :: 0 <= i < f.rows && g.cols["accel_mag"][i].Some? ==> g.cols["accel_mag"][i].value >= 0.0
    ensures var g := ExtractFeatures(f, nm).value;
      HasPosition(f.cols) ==>
        "speed" in g.cols && |g.cols["speed"]| == f.rows > 0 &&
        (g.cols["speed"][0].Some? ==> g.cols["speed"][0].value == 0.0)
  {
    ExtractFeaturesKeeps(f, nm);
    if HasAccel(f.cols) && SqrtSound(nm.sqrt) {
      MagnitudeNonNegative(f.cols["accel_x"], f.cols["accel_y"], f.cols["accel_z"], nm.sqrt);
    }
    if HasPosition(f.cols) {
      SpeedFirstRow(f.cols["latitude"], f.cols["longitude"], f.cols["timestamp"], nm.distance);
    }
  }

  lemma SumOfSquares(a: real, b: real, c: real, s: real)
    requires s == a * a + b * b + c * c
    ensures s >= 0.0
  {
    SquareNonNegative(a, a * a);
    SquareNonNegative(b, b * b);
    SquareNonNegative(c, c * c);
  }

  lemma DistanceNonNegativeIfSound(dist: (real, real, real, real) -> real, lat1: real, lon1: real, lat2: real, lon2: real)
    ensures DistanceSound(dist) ==> dist(lat1, lon1, lat2, lon2) >= 0.0
  {
  }

  /** After the whole pipeline, a sensor column that had at least one present cell has
      no gap: the fill closes every gap, normalisation keeps which cells are present, and
      smoothing a gap-free column leaves none */
  lemma PreprocessNoGaps(f: Frame, nm: Numerics, c: string)
    requires Wf(f) && !ExtractFails(f)
    requires c in SensorColumns && c in f.cols && Count(f.cols[c]) > 0
    ensures c in Preprocess(f, nm).value.cols
    ensures AllPresent(Preprocess(f, nm).value.cols[c])
  {
    var cleaned := CleanAndNormalize(f, nm.sqrt);
    var g := MovingAverageFilter(cleaned);
    assert AllPresent(cleaned.cols[c]) by {
      CleanLeavesNoGap(f, nm.sqrt, c);
    }
    assert AllPresent(g.cols[c]) by {
      SmoothFrameNoGap(cleaned, c);
    }
    assert Wf(g) && !ExtractFails(g) && c in g.cols by {
      assert g.rows == f.rows && g.cols.Keys == f.cols.Keys;
    }
    SensorNotDerived(c);
    ExtractKeepsColumn(g, nm, c);
  }

  lemma SmoothFrameNoGap(f: Frame, c: string)
    requires c in SensorColumns && c in f.cols && AllPresent(f.cols[c])
    ensures AllPresent(MovingAverageFilter(f).cols[c])
  {
    SmoothKeepsPresent(f.cols[c]);
  }

  lemma ExtractKeepsColumn(f: Frame, nm: Numerics, c: string)
    requires Wf(f) && !ExtractFails(f) && c in f.cols && c !in DerivedColumns
    ensures c in ExtractFeatures(f, nm).value.cols
    ensures ExtractFeatures(f, nm).value.cols[c] == f.cols[c]
  {
    ExtractFeaturesKeeps(f, nm);
  }

  /** After `clean_and_normalize`, any column with some present cell has no gap: the
      fill closes it, and normalising a sensor column keeps which cells are present */
  lemma CleanLeavesNoGap(f: Frame, sqrt: real -> real, c: string)
    requires c in f.cols && Count(f.cols[c]) > 0
    ensures AllPresent(CleanAndNormalize(f, sqrt).cols[c])
  {
    FillLeavesNoGap(f.cols[c]);
  }

  /** After `clean_and_normalize`, a sensor column whose filled form has two present cells
      and positive variance has mean 0 and sample variance 1 */
  lemma CleanNormalizesSensor(f: Frame, sqrt: real -> real, c: string)
    requires SqrtSound(sqrt) && c in SensorColumns && c in f.cols
    requires Count(FillColumn(f.cols[c])) >= 2 && Variance(FillColumn(f.cols[c])) > 0.0
    ensures Count(CleanAndNormalize(f, sqrt).cols[c]) == Count(FillColumn(f.cols[c]))
    ensures Mean(CleanAndNormalize(f, sqrt).cols[c]) == 0.0
    ensures Variance(CleanAndNormalize(f, sqrt).cols[c]) == 1.0
  {
    NormalizeMoments(FillColumn(f.cols[c]), sqrt);
  }

  /** `moving_average_filter` keeps every smoothed sensor value within any bounds of the
      column's present cells */
  lemma SmoothFrameWithin(f: Frame, c: string, lo: real, hi: real)
    requires c in SensorColumns && c in f.cols && Within(f.cols[c], lo, hi)
    ensures Within(MovingAverageFilter(f).cols[c], lo, hi)
  {
    SmoothWithin(f.cols[c], lo, hi);
  }

  /** A sensor column as the pipeline leaves it: filled, normalised, then smoothed */
  function Conditioned(x: Column, sqrt: real -> real): (r: Column)
    ensures |r| == |x|
  {
    MovingAverage(NormalizeColumn(FillColumn(x), sqrt))
  }

  /** The order of `preprocess` for the sensor columns: each one is cleaned and
      normalised, then smoothed, and feature extraction leaves it as it is */
  lemma PreprocessSensors(f: Frame, nm: Numerics)
    requires Wf(f) && !ExtractFails(f)
    ensures var g := Preprocess(f, nm).value;
      forall c :: c in f.cols && c in SensorColumns ==>
        c in g.cols && g.cols[c] == Conditioned(f.cols[c], nm.sqrt)
  {
    var smoothed := MovingAverageFilter(CleanAndNormalize(f, nm.sqrt));
    assert Wf(smoothed) && !ExtractFails(smoothed) by {
      assert smoothed.rows == f.rows && smoothed.cols.Keys == f.cols.Keys;
    }
    ExtractFeaturesKeeps(smoothed, nm);
    forall c | c in f.cols && c in SensorColumns
      ensures c !in DerivedColumns && smoothed.cols[c] == Conditioned(f.cols[c], nm.sqrt)
    {
      SensorNotDerived(c);
    }
  }

  /** The frame `preprocess` hands to feature extraction: the cleaned and smoothed input,
      with the input's rows and column names */
  lemma SmoothedFrame(f: Frame, sqrt: real -> real)
    requires Wf(f) && !ExtractFails(f)
    ensures var g := MovingAverageFilter(CleanAndNormalize(f, sqrt));
      && Wf(g) && !ExtractFails(g) && g.rows == f.rows && g.cols.Keys == f.cols.Keys
      && (forall c :: c in f.cols && c in SensorColumns ==> g.cols[c] == Conditioned(f.cols[c], sqrt))
      && (forall c :: c in f.cols && c !in SensorColumns ==> g.cols[c] == FillColumn(f.cols[c]))
  {
  }

  /** In `preprocess`, speed is computed from the filled position and time columns */
  lemma PreprocessSpeed(f: Frame, nm: Numerics)
    requires Wf(f) && !ExtractFails(f) && HasPosition(f.cols)
    ensures "speed" in Preprocess(f, nm).value.cols
    ensures Preprocess(f, nm).value.cols["speed"]
      == SpeedColumn(FillColumn(f.cols["latitude"]), FillColumn(f.cols["longitude"]),
                     FillColumn(f.cols["timestamp"]), nm.distance)
  {
    var g := MovingAverageFilter(CleanAndNormalize(f, nm.sqrt));
    SmoothedFrame(f, nm.sqrt);
    PositionNotSensor();
    assert g.cols["latitude"] == FillColumn(f.cols["latitude"]);
    assert g.cols["longitude"] == FillColumn(f.cols["longitude"]);
    assert g.cols["timestamp"] == FillColumn(f.cols["timestamp"]);
    ExtractFeaturesKeeps(g, nm);
  }

  /** The position and time columns are not sensor columns: the pipeline only fills them */
  lemma PositionNotSensor()
    ensures "latitude" !in SensorColumns && "longitude" !in SensorColumns && "timestamp" !in SensorColumns
  {
  }

  /** In `preprocess`, the acceleration magnitude is computed from the cleaned, normalised
      and smoothed accelerometer axes */
  lemma PreprocessMagnitude(f: Frame, nm: Numerics)
    requires Wf(f) && !ExtractFails(f) && HasAccel(f.cols)
    ensures "accel_mag" in Preprocess(f, nm).value.cols
    ensures Preprocess(f, nm).value.cols["accel_mag"]
      == MagnitudeColumn(Conditioned(f.cols["accel_x"], nm.sqrt), Conditioned(f.cols["accel_y"], nm.sqrt),
                         Conditioned(f.cols["accel_z"], nm.sqrt), nm.sqrt)
  {
    SmoothedFrame(f, nm.sqrt);
    ExtractFeaturesKeeps(MovingAverageFilter(CleanAndNormalize(f, nm.sqrt)), nm);
  }

  /** In `preprocess`, the temperature trend filters the cleaned, normalised and smoothed
      temperature column */
  lemma PreprocessTrend(f: Frame, nm: Numerics)
    requires Wf(f) && !ExtractFails(f) && "temperature" in f.cols
    ensures "temp_trend" in Preprocess(f, nm).value.cols
    ensures Preprocess(f, nm).value.cols["temp_trend"]
      == TrendColumn(Conditioned(f.cols["temperature"], nm.sqrt), f.rows, nm.savgol)
  {
    SmoothedFrame(f, nm.sqrt);
    ExtractTrend(MovingAverageFilter(CleanAndNormalize(f, nm.sqrt)), nm);
  }

  /** Columns outside the sensor set that feature extraction does not write (latitude,
      longitude, timestamp, compass, ...) are only filled */
  lemma PreprocessPassThrough(f: Frame, nm: Numerics, c: string)
    requires Wf(f) && !ExtractFails(f)
    requires c in f.cols && c !in SensorColumns && c !in DerivedColumns
    ensures c in Preprocess(f, nm).value.cols
    ensures Preprocess(f, nm).value.cols[c] == FillColumn(f.cols[c])
  {
    var g := MovingAverageFilter(CleanAndNormalize(f, nm.sqrt));
    ExtractKeepsColumn(g, nm, c);
  }
}
