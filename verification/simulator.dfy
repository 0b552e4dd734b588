/** The telemetry simulator: a state record (configuration plus current position and
    time), the per-mode and per-species parameter tables, one GPS step, the three sensor
    readings, and `generate`, which resets the state and then emits one sample per step.

    Randomness and the wall clock are not modelled as distributions: every step takes a
    `Draws` record holding the bearing, the Gaussian noise, the compass draw and the clock
    reading. Trigonometry is a pair of functions `Trig` with the bounds real cos/sin have. */
module Simulator {
  import opened Wrappers
  import Table

  /** Metres in one degree of latitude in the flat-earth step approximation */
  const MetresPerDegree: real := 111000.0

  /** numpy's `pi`, as used by `np.deg2rad` */
  const Pi: real := 3.141592653589793

  function Abs(x: real): real {
    if x < 0.0 then -x else x
  }

  function DegToRad(deg: real): real {
    deg * Pi / 180.0
  }

  /** A lookup with a fallback value, as Python's `dict.get(key, default)` */
  function Lookup(table: map<string, real>, key: string, default: real): real {
    if key in table then table[key] else default
  }

  // ---------------------------------------------------------------------------
  // Parameter tables
  // ---------------------------------------------------------------------------

  predicate IsKnownMode(mode: string) {
    mode in {"rest", "walk", "run", "fly"}
  }

  predicate IsKnownSpecies(species: string) {
    species in {"deer", "wolf", "eagle"}
  }

  const StepTable: map<string, real> := map["rest" := 0.1, "walk" := 1.0, "run" := 5.0, "fly" := 10.0]
  const AccelTable: map<string, real> := map["rest" := 0.01, "walk" := 0.2, "run" := 1.0, "fly" := 2.0]
  const GyroTable: map<string, real> := map["rest" := 0.01, "walk" := 1.0, "run" := 5.0, "fly" := 10.0]
  const TemperatureTable: map<string, real> := map["deer" := 38.5, "wolf" := 39.0, "eagle" := 41.0]

  /** Movement step length in metres for a movement mode; unknown modes walk */
  function StepSize(mode: string): (r: real)
    ensures mode == "rest" ==> r == 0.1
    ensures mode == "walk" ==> r == 1.0
    ensures mode == "run" ==> r == 5.0
    ensures mode == "fly" ==> r == 10.0
    ensures !IsKnownMode(mode) ==> r == 1.0
  {
    Lookup(StepTable, mode, 1.0)
  }

  /** Base acceleration magnitude (m/s^2) per movement mode; unknown modes walk */
  function AccelBase(mode: string): (r: real)
    ensures mode == "rest" ==> r == 0.01
    ensures mode == "walk" ==> r == 0.2
    ensures mode == "run" ==> r == 1.0
    ensures mode == "fly" ==> r == 2.0
    ensures !IsKnownMode(mode) ==> r == 0.2
  {
    Lookup(AccelTable, mode, 0.2)
  }

  /** Base angular velocity (deg/s) per movement mode; unknown modes walk */
  function GyroBase(mode: string): (r: real)
    ensures mode == "rest" ==> r == 0.01
    ensures mode == "walk" ==> r == 1.0
    ensures mode == "run" ==> r == 5.0
    ensures mode == "fly" ==> r == 10.0
    ensures !IsKnownMode(mode) ==> r == 1.0
  {
    Lookup(GyroTable, mode, 1.0)
  }

  /** Baseline body temperature (Celsius) per species; unknown species get the deer value */
  function BaseTemperature(species: string): (r: real)
    ensures species == "deer" ==> r == 38.5
    ensures species == "wolf" ==> r == 39.0
    ensures species == "eagle" ==> r == 41.0
    ensures !IsKnownSpecies(species) ==> r == 38.5
  {
    Lookup(TemperatureTable, species, 38.5)
  }

  /** Every entry of the step table is a positive distance, and so is the fallback */
  lemma StepSizePositive(mode: string)
    ensures StepSize(mode) > 0.0
  {
  }

  // ---------------------------------------------------------------------------
  // Configuration and state
  // ---------------------------------------------------------------------------

  datatype Config = Config(
    species: string,
    movementMode: string,
    samplingRate: real,   // Hz
    duration: real,       // seconds
    startLat: real,
    startLon: real)

  /** The constructor's keyword defaults */
  const DefaultConfig: Config := Config("deer", "walk", 1.0, 60.0, 45.0, -75.0)

  datatype SimState = SimState(config: Config, currentLat: real, currentLon: real, currentTime: int)

  /** Back to the configured start position, with the clock at zero */
  function Reset(s: SimState): (r: SimState)
    ensures r.config == s.config
    ensures r.currentLat == s.config.startLat && r.currentLon == s.config.startLon
    ensures r.currentTime == 0
  {
    SimState(s.config, s.config.startLat, s.config.startLon, 0)
  }

  /** The constructor stores the configuration and ends by calling `reset` */
  function NewSimulator(c: Config): (s: SimState)
    ensures s.config == c
    ensures s.currentLat == c.startLat && s.currentLon == c.startLon && s.currentTime == 0
  {
    Reset(SimState(c, 0.0, 0.0, 0))
  }

  /** Whatever happened before, a reset leaves exactly the freshly constructed state */
  lemma ResetForgetsHistory(s: SimState)
    ensures Reset(s) == NewSimulator(s.config)
    ensures Reset(Reset(s)) == Reset(s)
  {
  }

  // ---------------------------------------------------------------------------
  // One step
  // ---------------------------------------------------------------------------

  /** cos and sin, given as functions with the facts the model relies on. `cos` is never
      exactly zero: the cosine of a finite double is never 0.0, so the longitude
      step's division is always defined. */
  datatype Trig = Trig(cos: real -> real, sin: real -> real)

  ghost predicate TrigSound(t: Trig) {
    forall x: real ::
      && -1.0 <= t.cos(x) <= 1.0
      && -1.0 <= t.sin(x) <= 1.0
      && t.cos(x) != 0.0
      && t.cos(x) * t.cos(x) + t.sin(x) * t.sin(x) == 1.0
  }

  /** The trigonometry the simulator runs on */
  type SoundTrig = t: Trig | TrigSound(t) witness Trig(x => 1.0, x => 0.0)

  /** Three independent noise draws, one per axis */
  datatype Triple = Triple(x: real, y: real, z: real)

  /** The random draws and the clock reading consumed by one step */
  datatype Draws = Draws(
    bearingDeg: real,     // uniform on [0, 360)
    accelNoise: Triple,   // normal, sigma 0.05
    gyroNoise: Triple,    // normal, sigma 0.1
    compass: real,        // uniform on [0, 360)
    tempNoise: real,      // normal, sigma 0.5
    clock: real)          // wall-clock reading

  /** The new state and the position `_simulate_gps` returns */
  datatype GpsFix = GpsFix(state: SimState, lat: real, lon: real)

  /** One flat-earth random-walk step of the mode's step length along the given bearing.
      In local metres, the displacement has exactly the mode's step length. */
  function SimulateGps(s: SimState, bearingDeg: real, t: SoundTrig): (r: GpsFix)
    ensures r.state.config == s.config && r.state.currentTime == s.currentTime
    ensures r.lat == r.state.currentLat && r.lon == r.state.currentLon
    ensures Abs(r.lat - s.currentLat) <= StepSize(s.config.movementMode) / MetresPerDegree
    ensures
      var north := (r.lat - s.currentLat) * MetresPerDegree;
      var east := (r.lon - s.currentLon) * MetresPerDegree * t.cos(DegToRad(s.currentLat));
      var step := StepSize(s.config.movementMode);
      north * north + east * east == step * step
  {
    var step := StepSize(s.config.movementMode);
    var bearing := DegToRad(bearingDeg);
    var p := Move(s.currentLat, s.currentLon, step, t.cos(DegToRad(s.currentLat)), t.cos(bearing), t.sin(bearing));
    GpsFix(s.(currentLat := p.lat, currentLon := p.lon), p.lat, p.lon)
  }

  /** A position in degrees */
  datatype Position = Position(lat: real, lon: real)

  /** The position update of `_simulate_gps`: north by step * c metres and east by
      step * s metres, converted to degrees with the flat-earth factor and, for
      longitude, the cosine of the starting latitude */
  function Move(lat: real, lon: real, step: real, cosLat: real, c: real, s: real): (p: Position)
    requires cosLat != 0.0 && c * c + s * s == 1.0 && -1.0 <= c <= 1.0 && step >= 0.0
    ensures Abs(p.lat - lat) <= step / MetresPerDegree
    ensures
      var north := (p.lat - lat) * MetresPerDegree;
      var east := (p.lon - lon) * MetresPerDegree * cosLat;
      north * north + east * east == step * step
  {
    var next := Position(lat + (step / MetresPerDegree) * c, lon + (step / (MetresPerDegree * cosLat)) * s);
    StepLength(lat, lon, next.lat, next.lon, step, cosLat, c, s);
    next
  }

  /** The algebra behind the displacement facts of `SimulateGps`: moving from (lat, lon)
      by the step's increments changes latitude by at most a step in degrees, and the
      displacement in local metres has exactly the step length */
  lemma StepLength(lat: real, lon: real, lat': real, lon': real, step: real, cosLat: real, c: real, s: real)
    requires cosLat != 0.0 && c * c + s * s == 1.0 && -1.0 <= c <= 1.0 && step >= 0.0
    requires lat' == lat + (step / MetresPerDegree) * c
    requires lon' == lon + (step / (MetresPerDegree * cosLat)) * s
    ensures Abs(lat' - lat) <= step / MetresPerDegree
    ensures
      var north := (lat' - lat) * MetresPerDegree;
      var east := (lon' - lon) * MetresPerDegree * cosLat;
      north * north + east * east == step * step
  {
    var dlat := (step / MetresPerDegree) * c;
    var dlon := (step / (MetresPerDegree * cosLat)) * s;
    assert lat' - lat == dlat;
    assert lon' - lon == dlon;
    assert dlat * MetresPerDegree == step * c;
    assert dlon * MetresPerDegree * cosLat == step * s;
    calc {
      (step * c) * (step * c) + (step * s) * (step * s);
      step * step * (c * c + s * s);
      step * step;
    }
    var k := step / MetresPerDegree;
    Table.MulNonNegative(k, 1.0 - c, k - dlat);
    Table.MulNonNegative(k, 1.0 + c, k + dlat);
  }

  /** Three-axis acceleration: the mode's base plus each axis's own noise */
  function Accelerometer(mode: string, noise: Triple): (r: seq<real>)
    ensures |r| == 3
    ensures r[0] - noise.x == r[1] - noise.y == r[2] - noise.z == AccelBase(mode)
  {
    var base := AccelBase(mode);
    [base + noise.x, base + noise.y, base + noise.z]
  }

  /** Three-axis angular velocity: the mode's base plus each axis's own noise */
  function Gyroscope(mode: string, noise: Triple): (r: seq<real>)
    ensures |r| == 3
    ensures r[0] - noise.x == r[1] - noise.y == r[2] - noise.z == GyroBase(mode)
  {
    var base := GyroBase(mode);
    [base + noise.x, base + noise.y, base + noise.z]
  }

  /** Body temperature: the species baseline plus noise */
  function Temperature(species: string, noise: real): (r: real)
    ensures r - noise == BaseTemperature(species)
  {
    BaseTemperature(species) + noise
  }

  // ---------------------------------------------------------------------------
  // Samples and generation
  // ---------------------------------------------------------------------------

  /** One yielded record: its thirteen keys are the thirteen fields, in this order */
  datatype Sample = Sample(
    timestamp: real,
    species: string,
    movementMode: string,
    latitude: real,
    longitude: real,
    accelX: real,
    accelY: real,
    accelZ: real,
    gyroX: real,
    gyroY: real,
    gyroZ: real,
    compass: real,
    temperature: real)

  datatype Tick = Tick(state: SimState, sample: Sample)

  /** One loop iteration of `generate`: a GPS step, then the sensor readings */
  function Step(s: SimState, d: Draws, t: SoundTrig): (r: Tick)
    ensures r.state.config == s.config && r.state.currentTime == s.currentTime
    ensures r.sample.latitude == r.state.currentLat && r.sample.longitude == r.state.currentLon
    ensures Abs(r.state.currentLat - s.currentLat) <= StepSize(s.config.movementMode) / MetresPerDegree
    ensures r.sample.species == s.config.species && r.sample.movementMode == s.config.movementMode
    ensures r.sample.timestamp == d.clock && r.sample.compass == d.compass
    ensures r.sample.accelX - d.accelNoise.x == AccelBase(s.config.movementMode)
    ensures r.sample.accelY - d.accelNoise.y == AccelBase(s.config.movementMode)
    ensures r.sample.accelZ - d.accelNoise.z == AccelBase(s.config.movementMode)
    ensures r.sample.gyroX - d.gyroNoise.x == GyroBase(s.config.movementMode)
    ensures r.sample.gyroY - d.gyroNoise.y == GyroBase(s.config.movementMode)
    ensures r.sample.gyroZ - d.gyroNoise.z == GyroBase(s.config.movementMode)
    ensures r.sample.temperature - d.tempNoise == BaseTemperature(s.config.species)
  {
    var fix := SimulateGps(s, d.bearingDeg, t);
    var accel := Accelerometer(s.config.movementMode, d.accelNoise);
    var gyro := Gyroscope(s.config.movementMode, d.gyroNoise);
    var temp := Temperature(s.config.species, d.tempNoise);
    var sample := Sample(
      d.clock, s.config.species, s.config.movementMode, fix.lat, fix.lon,
      accel[0], accel[1], accel[2], gyro[0], gyro[1], gyro[2],
      d.compass, temp);
    Tick(fix.state, sample)
  }

  /** The final state and the samples of a run */
  datatype Run = Run(final: SimState, samples: seq<Sample>)

  /** `count` iterations of a step function from `s`, iteration i consuming the draws
      `env(i)`: the shape of `generate`'s loop, whatever one step does */
  function Iterate(s: SimState, env: nat -> Draws, next: (SimState, Draws) -> Tick, count: nat): (r: Run)
    ensures |r.samples| == count
    decreases count
  {
    if count == 0 then
      Run(s, [])
    else
      var prefix := Iterate(s, env, next, count - 1);
      var tick := next(prefix.final, env(count - 1));
      Run(tick.state, prefix.samples + [tick.sample])
  }

  /** The simulator's step as a step function */
  function StepWith(t: SoundTrig): (SimState, Draws) -> Tick {
    (st: SimState, d: Draws) => Step(st, d, t)
  }

  /** `count` simulator steps from `s`, step i consuming the draws `env(i)` */
  function Steps(s: SimState, env: nat -> Draws, t: SoundTrig, count: nat): (r: Run)
    ensures |r.samples| == count
    ensures r.final.config == s.config && r.final.currentTime == s.currentTime
    ensures forall i :: 0 <= i < count ==>
      r.samples[i].species == s.config.species && r.samples[i].movementMode == s.config.movementMode
    ensures count > 0 ==>
      r.samples[count - 1].latitude == r.final.currentLat
      && r.samples[count - 1].longitude == r.final.currentLon
  {
    IterateKeeps(s, env, StepWith(t), count);
    Iterate(s, env, StepWith(t), count)
  }

  /** Python's `int(x)` on a float: truncation toward zero */
  function PyInt(x: real): (r: int)
    ensures Abs(r as real) <= Abs(x) < Abs(r as real) + 1.0
    ensures r > 0 ==> x > 0.0
    ensures r < 0 ==> x < 0.0
  {
    if x >= 0.0 then x.Floor else -((-x).Floor)
  }

  /** How many records `generate` yields: `range(int(duration * sampling_rate))`,
      which is empty when the truncated product is not positive */
  function SampleCount(c: Config): (n: nat)
    ensures c.duration * c.samplingRate >= 0.0 ==>
      n as real <= c.duration * c.samplingRate < n as real + 1.0
    ensures c.duration * c.samplingRate < 1.0 ==> n == 0
  {
    var k := PyInt(c.duration * c.samplingRate);
    if k > 0 then k else 0
  }

  /** The count is truncated, not rounded: 2 Hz for 2 s gives 4 records, 0.5 Hz for 7 s gives 3 */
  lemma SampleCountExamples()
    ensures SampleCount(DefaultConfig.(samplingRate := 2.0, duration := 2.0)) == 4
    ensures SampleCount(DefaultConfig.(samplingRate := 0.5, duration := 7.0)) == 3
    ensures SampleCount(DefaultConfig) == 60
  {
  }

  datatype SimError = ZeroSamplingRate

  /** `generate`, consumed to the end: reset, then `SampleCount` steps. A zero sampling
      rate makes the sampling interval `1.0 / rate` raise before the first record. */
  function Generate(s: SimState, env: nat -> Draws, t: SoundTrig): (r: Result<Run, SimError>)
    ensures r.Failure? <==> s.config.samplingRate == 0.0
    ensures r.Success? ==>
      && |r.value.samples| == SampleCount(s.config)
      && r.value.final.config == s.config
      && r.value.final.currentTime == 0
    ensures r.Success? ==> forall i :: 0 <= i < |r.value.samples| ==>
      r.value.samples[i].species == s.config.species
      && r.value.samples[i].movementMode == s.config.movementMode
  {
    var start := Reset(s);
    var n := SampleCount(s.config);
    if s.config.samplingRate == 0.0 then
      Failure(ZeroSamplingRate)
    else
      Success(Steps(start, env, t, n))
  }

  // ---------------------------------------------------------------------------
  // Properties of runs
  // ---------------------------------------------------------------------------

  /** A step function that keeps the configuration and the clock, labels its record with
      the configured species and mode, and records the position it moves to */
  ghost predicate Faithful(next: (SimState, Draws) -> Tick) {
    forall st: SimState, d: Draws ::
      && next(st, d).state.config == st.config
      && next(st, d).state.currentTime == st.currentTime
      && next(st, d).sample.species == st.config.species
      && next(st, d).sample.movementMode == st.config.movementMode
      && next(st, d).sample.latitude == next(st, d).state.currentLat
      && next(st, d).sample.longitude == next(st, d).state.currentLon
  }

  /** Iterating a faithful step keeps the configuration and the clock, labels every record
      with the configured species and mode, and ends where the last record says */
  lemma {:induction false} IterateKeeps(s: SimState, env: nat -> Draws, next: (SimState, Draws) -> Tick, count: nat)
    requires Faithful(next)
    ensures
      var r := Iterate(s, env, next, count);
      && r.final.config == s.config && r.final.currentTime == s.currentTime
      && (forall i :: 0 <= i < count ==>
            r.samples[i].species == s.config.species && r.samples[i].movementMode == s.config.movementMode)
      && (count > 0 ==>
            r.samples[count - 1].latitude == r.final.currentLat
            && r.samples[count - 1].longitude == r.final.currentLon)
    decreases count
  {
    if count > 0 {
      IterateKeeps(s, env, next, count - 1);
    }
  }

  /** Record i of an iteration is the step taken from the state reached after i
      iterations, and iterating on past i leaves records 0..i as they were */
  lemma {:induction false} IterateAt(s: SimState, env: nat -> Draws, next: (SimState, Draws) -> Tick, count: nat, i: nat)
    requires i < count
    ensures
      var tick := next(Iterate(s, env, next, i).final, env(i));
      && Iterate(s, env, next, count).samples[i] == tick.sample
      && Iterate(s, env, next, i + 1).final == tick.state
    decreases count
  {
    if i < count - 1 {
      IterateAt(s, env, next, count - 1, i);
    }
  }

  /** count + 1 iterations are a first step followed by count iterations from the state
      it reached, on the draws shifted by one */
  lemma {:induction false} IterateUnfold(s: SimState, env: nat -> Draws, next: (SimState, Draws) -> Tick, count: nat)
    ensures
      var first := next(s, env(0));
      var rest := Iterate(first.state, Shift(env), next, count);
      Iterate(s, env, next, count + 1) == Run(rest.final, [first.sample] + rest.samples)
    decreases count
  {
    if count > 0 {
      IterateUnfold(s, env, next, count - 1);
      var first := next(s, env(0));
      var rest := Iterate(first.state, Shift(env), next, count - 1);
      var last := next(rest.final, env(count));
      assert Shift(env)(count - 1) == env(count);
      assert [first.sample] + (rest.samples + [last.sample]) == ([first.sample] + rest.samples) + [last.sample];
    }
  }

  /** The draws from the second step on */
  function Shift(env: nat -> Draws): (shifted: nat -> Draws)
    ensures forall i: nat :: shifted(i) == env(i + 1)
  {
    (i: nat) => env(i + 1)
  }

  /** Sample i of a run is the step taken from the state reached after i steps, and
      running on past step i leaves samples 0..i as they were */
  lemma StepsAt(s: SimState, env: nat -> Draws, t: SoundTrig, count: nat, i: nat)
    requires i < count
    ensures
      var tick := Step(Steps(s, env, t, i).final, env(i), t);
      && Steps(s, env, t, count).samples[i] == tick.sample
      && Steps(s, env, t, i + 1).final == tick.state
  {
    IterateAt(s, env, StepWith(t), count, i);
  }

  /** A run of count + 1 steps is its first step followed by a run of count steps from
      the state that step reached, on the draws shifted by one */
  lemma StepsUnfold(s: SimState, env: nat -> Draws, t: SoundTrig, count: nat)
    ensures
      var first := Step(s, env(0), t);
      var rest := Steps(first.state, Shift(env), t, count);
      Steps(s, env, t, count + 1) == Run(rest.final, [first.sample] + rest.samples)
  {
    IterateUnfold(s, env, StepWith(t), count);
  }

  /** Running one more step extends the samples by exactly that step's record */
  lemma StepsSnoc(s: SimState, env: nat -> Draws, t: SoundTrig, count: nat)
    ensures
      var prefix := Steps(s, env, t, count);
      var tick := Step(prefix.final, env(count), t);
      Steps(s, env, t, count + 1) == Run(tick.state, prefix.samples + [tick.sample])
  {
  }

  /** Each record carries the position the simulator holds right after that record's step */
  lemma SampleIsPostStepPosition(s: SimState, env: nat -> Draws, t: SoundTrig, count: nat, i: nat)
    requires i < count
    ensures Steps(s, env, t, count).samples[i].latitude == Steps(s, env, t, i + 1).final.currentLat
    ensures Steps(s, env, t, count).samples[i].longitude == Steps(s, env, t, i + 1).final.currentLon
  {
    StepsAt(s, env, t, count, i);
  }

  /** Consecutive records are at most one step length apart in latitude */
  lemma ConsecutiveLatitudes(s: SimState, env: nat -> Draws, t: SoundTrig, count: nat, i: nat)
    requires i + 1 < count
    ensures
      var r := Steps(s, env, t, count);
      Abs(r.samples[i + 1].latitude - r.samples[i].latitude)
        <= StepSize(s.config.movementMode) / MetresPerDegree
  {
    StepsAt(s, env, t, count, i);
    StepsAt(s, env, t, count, i + 1);
  }

  /** The latitudes of a run's records */
  function Latitudes(r: Run): (lats: seq<real>)
    ensures |lats| == |r.samples|
    ensures forall j :: 0 <= j < |r.samples| ==> lats[j] == r.samples[j].latitude
  {
    seq(|r.samples|, j requires 0 <= j < |r.samples| => r.samples[j].latitude)
  }

  /** Consecutive records of a run are at most one step length apart in latitude, and the
      first is at most one step length from where the run started */
  lemma HopsBounded(s: SimState, env: nat -> Draws, t: SoundTrig, count: nat)
    requires 0 < count
    ensures
      var lats := Latitudes(Steps(s, env, t, count));
      var d := StepSize(s.config.movementMode) / MetresPerDegree;
      && Abs(lats[0] - s.currentLat) <= d
      && forall j :: 0 <= j < |lats| - 1 ==> Abs(lats[j + 1] - lats[j]) <= d
  {
    StepsAt(s, env, t, count, 0);
    assert Steps(s, env, t, 0).final == s;
    forall j | 0 <= j < count - 1
      ensures
        Abs(Steps(s, env, t, count).samples[j + 1].latitude - Steps(s, env, t, count).samples[j].latitude)
          <= StepSize(s.config.movementMode) / MetresPerDegree
    {
      ConsecutiveLatitudes(s, env, t, count, j);
    }
  }

  /** After i + 1 steps the latitude has drifted at most i + 1 step lengths from the start */
  lemma LatitudeDrift(s: SimState, env: nat -> Draws, t: SoundTrig, count: nat, i: nat)
    requires i < count
    ensures
      Abs(Steps(s, env, t, count).samples[i].latitude - s.currentLat)
        <= Times(i + 1, StepSize(s.config.movementMode) / MetresPerDegree)
  {
    HopsBounded(s, env, t, count);
    WalkDrift(Latitudes(Steps(s, env, t, count)), s.currentLat, StepSize(s.config.movementMode) / MetresPerDegree, i);
  }

  /** A walk whose first point is within d of the start and whose hops are at most d
      is within (i + 1) * d of the start at point i */
  lemma {:induction false} WalkDrift(lats: seq<real>, start: real, d: real, i: nat)
    requires i < |lats|
    requires Abs(lats[0] - start) <= d
    requires forall j :: 0 <= j < |lats| - 1 ==> Abs(lats[j + 1] - lats[j]) <= d
    ensures Abs(lats[i] - start) <= Times(i + 1, d)
  {
    if i > 0 {
      WalkDrift(lats, start, d, i - 1);
      assert Times(i + 1, d) == Times(i, d) + d;
    }
  }

  /** k copies of d */
  function Times(k: nat, d: real): real {
    k as real * d
  }

  /** Generation starts again from the configured start: the outcome depends on the
      configuration and the draws only, not on earlier runs of the same instance */
  lemma GenerateRestarts(s1: SimState, s2: SimState, env: nat -> Draws, t: SoundTrig)
    requires s1.config == s2.config
    ensures Generate(s1, env, t) == Generate(s2, env, t)
    ensures Generate(s1, env, t).Success? ==>
      Generate(Generate(s1, env, t).value.final, env, t) == Generate(s1, env, t)
  {
  }

  /** The first record lies within one step of the configured start */
  lemma FirstSampleNearStart(s: SimState, env: nat -> Draws, t: SoundTrig)
    requires Generate(s, env, t).Success? && SampleCount(s.config) > 0
    ensures Abs(Generate(s, env, t).value.samples[0].latitude - s.config.startLat)
      <= StepSize(s.config.movementMode) / MetresPerDegree
  {
    LatitudeDrift(Reset(s), env, t, SampleCount(s.config), 0);
  }

  /** The generator loop as the source writes it: reset, then one step per iteration,
      appending each record; it agrees with `Generate` */
  method Produce(s: SimState, env: nat -> Draws, t: SoundTrig) returns (r: Result<Run, SimError>)
    ensures r == Generate(s, env, t)
  {
    var state := Reset(s);
    var n := SampleCount(s.config);
    if s.config.samplingRate == 0.0 {
      return Failure(ZeroSamplingRate);
    }
    var records: seq<Sample> := [];
    var i := 0;
    while i < n
      invariant 0 <= i <= n
      invariant Run(state, records) == Steps(Reset(s), env, t, i)
    {
      StepsSnoc(Reset(s), env, t, i);
      var tick := Step(state, env(i), t);
      state := tick.state;
      records := records + [tick.sample];
      i := i + 1;
    }
    r := Success(Run(state, records));
  }
}
