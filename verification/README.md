# Wildlife movement profiler: a Dafny model of its telemetry core

The wildlife movement profiler simulates GPS-collar telemetry for an animal. It cleans the
telemetry and derives movement features from it, then labels each reading with a behaviour.
This project models those three steps in Dafny and proves properties of the model:

- **Simulator** (`simulator.dfy`) models `TelemetrySimulator`:
  - the per-mode and per-species tables, with their fallbacks;
  - the flat-earth random-walk GPS step, the accelerometer, gyroscope, compass and
    temperature readings;
  - `reset`, and the `generate` loop that yields `int(duration * sampling_rate)` thirteen-key
    records.

  Random draws, `cos`/`sin` and the wall clock are parameters, so a run is a pure function
  of the configuration and an environment of draws. The repository holds two copies of the
  generator: `simulator/generator.py` and
  `Wildlife-Movement-Profiler-main/Wildlife-Movement-Profiler-main/simulator/generator.py`.
  They differ only in comments and blank lines, so one model covers both. The table below
  cites whichever copy is the more readable for each member.
- **Table** (`table.dfy`) holds the data frame itself. A frame has a row count and named
  columns, and each column is a sequence of possibly missing reals; a missing cell stands
  for a NaN. The module also holds the column statistics pandas computes (count, sum, mean,
  sample variance with one degree of freedom) and z-score standardisation, with their
  algebra.
- **Preprocessing** (`preprocessing.dfy`) models `processor/preprocessing.py`:
  - `clean_and_normalize`: linear interpolation, then a mean fill, then z-scoring of the
    seven sensor columns when their standard deviation is positive;
  - `moving_average_filter`: a centred window of five with `min_periods=1`;
  - `extract_features`: haversine speed with the `np.roll` pairing of row 0 and the
    zero-step floor, heading, acceleration magnitude, and the Savitzky-Golay temperature
    trend with its window rule;
  - `preprocess`: the three stages composed.

  It models when `extract_features` raises, and states these properties:
  - the fill leaves no gap;
  - normalised columns have mean 0 and variance 1;
  - smoothing stays within the input's bounds;
  - speeds are non-negative when time runs forward;
  - the pipeline keeps row counts and well-formedness.
- **Classifier** (`classifier.dfy`) models:
  - `RuleBasedClassifier.predict`: the three-rule `np.select` with `unknown` as the
    default, where a missing cell makes every comparison false;
  - `classify_behaviors`: its method dispatch, the unknown-method error, the missing-model
    error of the model-based classifier, and the `(timestamp, behavior)` result.

`wrappers.dfy` defines `Option` (a possibly missing cell) and `Result` (an operation that may
raise).

Two behaviours of the simulator's code are easy to misread, and the model follows the code:

- The number of samples is `int(duration * sampling_rate)`. Python's `int()` truncates
  toward zero, so 0.5 Hz over 7 s gives 3 records, not 4 (`Simulator.SampleCountExamples`).
- The constructor checks nothing: it accepts any sampling rate and duration. A zero rate
  raises only when `generate` computes the sampling interval (`Simulator.Generate`). A
  negative rate or duration gives an empty run unless both are negative.

Feature extraction raises for some frame sizes when there is a temperature column. The
trend window is `5 if len(df) >= 5 else len(df)//2*2+1`, and scipy refuses a window that is
not longer than the polynomial order 2, or that is longer than the data. So
`extract_features` raises on frames of 0, 1, 2 or 4 rows, and the model raises with it
(`Preprocessing.TrendWindowAccepted`).

## Model

| member | source | states |
|---|---|---|
| Simulator.StepSize | simulator/generator.py:30-31 | step length in metres per movement mode: rest 0.1, walk 1.0, run 5.0, fly 10.0; any other mode gets the walk length 1.0 |
| Simulator.AccelBase | Wildlife-Movement-Profiler-main/Wildlife-Movement-Profiler-main/simulator/generator.py:46-51 | accelerometer base per mode: rest 0.01, walk 0.2, run 1.0, fly 2.0; any other mode gets the walk base 0.2 |
| Simulator.GyroBase | Wildlife-Movement-Profiler-main/Wildlife-Movement-Profiler-main/simulator/generator.py:53-58 | gyroscope base per mode: rest 0.01, walk 1.0, run 5.0, fly 10.0; any other mode gets the walk base 1.0 |
| Simulator.BaseTemperature | simulator/generator.py:59-63 | baseline temperature per species: deer 38.5, wolf 39.0, eagle 41.0; any other species gets 38.5 |
| Simulator.StepSizePositive | simulator/generator.py:30-31 | every step length, including the fallback, is positive |
| Simulator.Reset | simulator/generator.py:23-26 | reset puts the position back at the configured start and the clock at 0, keeping the configuration |
| Simulator.NewSimulator | Wildlife-Movement-Profiler-main/Wildlife-Movement-Profiler-main/simulator/generator.py:10-24 | a new simulator holds its configuration and starts at the configured position with time 0 |
| Simulator.ResetForgetsHistory | Wildlife-Movement-Profiler-main/Wildlife-Movement-Profiler-main/simulator/generator.py:26-30 | resetting any state gives exactly the freshly constructed state, and resetting twice is resetting once |
| Simulator.SimulateGps | simulator/generator.py:28-39 | one GPS step moves latitude by at most one step length in degrees, and the displacement in local metres has exactly the mode's step length |
| Simulator.Move | simulator/generator.py:35-38 | the position update moves latitude by at most one step length in degrees, and its displacement in local metres (longitude scaled by the cosine of the old latitude) has exactly the step length |
| Simulator.StepLength | Wildlife-Movement-Profiler-main/Wildlife-Movement-Profiler-main/simulator/generator.py:40-41 | the latitude and longitude increments of a step, scaled back to metres, form a displacement of exactly the step length, with the latitude part at most one step |
| Simulator.Accelerometer | simulator/generator.py:41-46 | three axes, each the mode's base plus that axis's own noise |
| Simulator.Gyroscope | simulator/generator.py:48-53 | three axes, each the mode's base plus that axis's own noise |
| Simulator.Temperature | Wildlife-Movement-Profiler-main/Wildlife-Movement-Profiler-main/simulator/generator.py:64-68 | the temperature reading minus its noise is the species baseline |
| Simulator.Step | simulator/generator.py:69-89 | one loop iteration: the record carries the clock reading, the configured species and mode and the post-step position, which is at most one step from the old one in latitude; each of the six accelerometer and gyroscope axes is the mode's base plus that axis's own noise, and the temperature is the species baseline plus its noise |
| Simulator.Steps | simulator/generator.py:69-90 | k iterations yield k records, all with the configured species and mode; the last record holds the final position |
| Simulator.PyInt | simulator/generator.py:67 | Python's int() of a float truncates toward zero: the result is no further from zero than the input, by less than one, and has the input's sign |
| Simulator.SampleCount | simulator/generator.py:67 | the record count is the product of duration and rate truncated toward zero, and zero when the product is below one |
| Simulator.SampleCountExamples | Wildlife-Movement-Profiler-main/Wildlife-Movement-Profiler-main/simulator/generator.py:73 | 2 Hz for 2 s gives 4 records, 0.5 Hz for 7 s gives 3 (truncation, not rounding), and the defaults give 60 |
| Simulator.Generate | simulator/generator.py:65-91 | generation fails exactly when the sampling rate is zero; otherwise it yields SampleCount records of the configured species and mode, starting from a reset state |
| Simulator.StepsAt | simulator/generator.py:69-90 | record i is the step taken from the state reached after i iterations |
| Simulator.StepsSnoc | simulator/generator.py:75-90 | one more iteration appends exactly that iteration's record |
| Simulator.StepsUnfold | simulator/generator.py:69-90 | a run of k + 1 steps is its first step followed by a run of k steps from the state that step reached, on the remaining draws |
| Simulator.SampleIsPostStepPosition | simulator/generator.py:70-80 | each record reports the position the simulator holds right after that record's GPS step |
| Simulator.ConsecutiveLatitudes | simulator/generator.py:28-39 | consecutive records are at most one step length apart in latitude |
| Simulator.HopsBounded | simulator/generator.py:69-90 | the first record is within one step of the start, and every hop is within one step |
| Simulator.LatitudeDrift | simulator/generator.py:69-90 | after i + 1 records the latitude is within i + 1 step lengths of the start |
| Simulator.WalkDrift | simulator/generator.py:28-39 | a walk whose hops are bounded by d is within (i + 1) d of its start at point i |
| Simulator.GenerateRestarts | Wildlife-Movement-Profiler-main/Wildlife-Movement-Profiler-main/simulator/generator.py:70-72 | generate resets first, so a second run on the same draws repeats the first, and two instances with the same configuration produce the same outcome whatever their current position |
| Simulator.FirstSampleNearStart | Wildlife-Movement-Profiler-main/Wildlife-Movement-Profiler-main/simulator/generator.py:70-85 | the first record lies within one step length of the configured start latitude |
| Simulator.Produce | Wildlife-Movement-Profiler-main/Wildlife-Movement-Profiler-main/simulator/generator.py:70-97 | the loop as written (reset, then append one record per iteration) produces the same outcome as Generate |
| Table.Count | Wildlife-Movement-Profiler-main/Wildlife-Movement-Profiler-main/processor/preprocessing.py:21-22 | pandas' count of non-missing cells is at most the column length |
| Table.Mean | Wildlife-Movement-Profiler-main/Wildlife-Movement-Profiler-main/processor/preprocessing.py:21 | pandas' mean of the present cells: times their count it gives their sum |
| Table.Variance | Wildlife-Movement-Profiler-main/Wildlife-Movement-Profiler-main/processor/preprocessing.py:22 | pandas' sample variance (one degree of freedom) is non-negative, and times count minus one gives the squared deviation about the mean |
| Table.CountZero | Wildlife-Movement-Profiler-main/Wildlife-Movement-Profiler-main/processor/preprocessing.py:16 | the count is zero exactly when every cell is missing |
| Table.MeanWithin | Wildlife-Movement-Profiler-main/Wildlife-Movement-Profiler-main/processor/preprocessing.py:16 | the mean of the present cells lies within any bounds of those cells |
| Table.DeviationShiftsSum | Wildlife-Movement-Profiler-main/Wildlife-Movement-Profiler-main/processor/preprocessing.py:24 | subtracting c from each present cell lowers the sum by c times the count |
| Table.DeviationFromMean | Wildlife-Movement-Profiler-main/Wildlife-Movement-Profiler-main/processor/preprocessing.py:21-24 | deviations from the mean sum to zero |
| Table.Standardize | Wildlife-Movement-Profiler-main/Wildlife-Movement-Profiler-main/processor/preprocessing.py:24 | the z-score map keeps the length and which cells are present |
| Table.StandardizeAt | Wildlife-Movement-Profiler-main/Wildlife-Movement-Profiler-main/processor/preprocessing.py:24 | cell i of a standardised column is (v - m) / s for a present value v, and missing for a missing one |
| Table.StandardizeCount | Wildlife-Movement-Profiler-main/Wildlife-Movement-Profiler-main/processor/preprocessing.py:24 | standardising keeps the count of present cells |
| Table.StandardizeSum | Wildlife-Movement-Profiler-main/Wildlife-Movement-Profiler-main/processor/preprocessing.py:24 | s times the sum of a standardised column is the sum of deviations of the original |
| Table.StandardizeSqDev | Wildlife-Movement-Profiler-main/Wildlife-Movement-Profiler-main/processor/preprocessing.py:22-24 | s squared times the squared deviation of a standardised column is the squared deviation of the original |
| Table.StandardizeMean | Wildlife-Movement-Profiler-main/Wildlife-Movement-Profiler-main/processor/preprocessing.py:21-24 | a column standardised by its own mean keeps its count and has mean 0 |
| Table.StandardizeVariance | Wildlife-Movement-Profiler-main/Wildlife-Movement-Profiler-main/processor/preprocessing.py:21-24 | a column standardised by its mean and its standard deviation has sample variance 1 |
| Table.SqDevConstant | Wildlife-Movement-Profiler-main/Wildlife-Movement-Profiler-main/processor/preprocessing.py:22-23 | a column whose present cells all hold c has zero squared deviation from c |
| Table.SqDevNonNegative | Wildlife-Movement-Profiler-main/Wildlife-Movement-Profiler-main/processor/preprocessing.py:22 | a sum of squared deviations is never negative |
| Preprocessing.PrevPresent | Wildlife-Movement-Profiler-main/Wildlife-Movement-Profiler-main/processor/preprocessing.py:15 | the nearest present cell before a row, or none when every earlier cell is missing |
| Preprocessing.NextPresent | Wildlife-Movement-Profiler-main/Wildlife-Movement-Profiler-main/processor/preprocessing.py:15 | the nearest present cell at or after a row, or none when every later cell is missing |
| Preprocessing.InterpolateAt | Wildlife-Movement-Profiler-main/Wildlife-Movement-Profiler-main/processor/preprocessing.py:15 | linear interpolation keeps present cells and leaves a cell missing exactly when it and every earlier cell are missing |
| Preprocessing.Interpolate | Wildlife-Movement-Profiler-main/Wildlife-Movement-Profiler-main/processor/preprocessing.py:15 | interpolation keeps the column length and every present cell |
| Preprocessing.InterpolateAtWithin | Wildlife-Movement-Profiler-main/Wildlife-Movement-Profiler-main/processor/preprocessing.py:15 | a single interpolated cell lies within any bounds of the column's present cells |
| Preprocessing.FillColumn | Wildlife-Movement-Profiler-main/Wildlife-Movement-Profiler-main/processor/preprocessing.py:15-16 | the fill keeps the column length and every present cell |
| Preprocessing.FillFrame | Wildlife-Movement-Profiler-main/Wildlife-Movement-Profiler-main/processor/preprocessing.py:13-16 | the fill keeps the row count, the column names, the column lengths and every present cell |
| Preprocessing.FillLeavesNoGap | Wildlife-Movement-Profiler-main/Wildlife-Movement-Profiler-main/processor/preprocessing.py:15-16 | a column with at least one present cell has no missing cell after interpolation and mean fill |
| Preprocessing.FillEmptyColumn | Wildlife-Movement-Profiler-main/Wildlife-Movement-Profiler-main/processor/preprocessing.py:15-16 | a column with no present cell has no mean and comes out of the fill unchanged |
| Preprocessing.LerpBetween | Wildlife-Movement-Profiler-main/Wildlife-Movement-Profiler-main/processor/preprocessing.py:15 | an interpolated value lies between the bounds of its two neighbours |
| Preprocessing.InterpolateWithin | Wildlife-Movement-Profiler-main/Wildlife-Movement-Profiler-main/processor/preprocessing.py:15 | bounds on the present cells still hold after interpolation |
| Preprocessing.FillWithin | Wildlife-Movement-Profiler-main/Wildlife-Movement-Profiler-main/processor/preprocessing.py:15-16 | bounds on the present cells still hold after the whole fill |
| Preprocessing.NormalizeColumn | Wildlife-Movement-Profiler-main/Wildlife-Movement-Profiler-main/processor/preprocessing.py:20-24 | normalisation keeps the length and which cells are present |
| Preprocessing.NormalizeFrame | Wildlife-Movement-Profiler-main/Wildlife-Movement-Profiler-main/processor/preprocessing.py:18-24 | normalisation keeps rows, names and lengths, replaces each of the seven sensor columns by its normalised form and leaves every other column as it was |
| Preprocessing.CleanAndNormalize | Wildlife-Movement-Profiler-main/Wildlife-Movement-Profiler-main/processor/preprocessing.py:11-25 | cleaning keeps the row count, the names, the lengths and well-formedness; a sensor column becomes its filled column normalised, any other column its filled column |
| Preprocessing.Std | Wildlife-Movement-Profiler-main/Wildlife-Movement-Profiler-main/processor/preprocessing.py:22-23 | the standard deviation is present exactly when there are two present cells; with a sound square root it is non-negative and squares to the sample variance |
| Preprocessing.StdPositive | Wildlife-Movement-Profiler-main/Wildlife-Movement-Profiler-main/processor/preprocessing.py:22-23 | the standard deviation squares to the sample variance and is positive exactly when the variance is |
| Preprocessing.NormalizeMoments | Wildlife-Movement-Profiler-main/Wildlife-Movement-Profiler-main/processor/preprocessing.py:21-24 | a normalised column with positive variance has the same count, mean 0 and sample variance 1 |
| Preprocessing.NormalizeSkipsFlat | Wildlife-Movement-Profiler-main/Wildlife-Movement-Profiler-main/processor/preprocessing.py:23 | a column with fewer than two present cells, or with zero variance, is left unchanged |
| Preprocessing.NormalizeConstant | Wildlife-Movement-Profiler-main/Wildlife-Movement-Profiler-main/processor/preprocessing.py:22-24 | a constant column is left unchanged by normalisation |
| Preprocessing.Window | Wildlife-Movement-Profiler-main/Wildlife-Movement-Profiler-main/processor/preprocessing.py:33 | the centred window of a row has one to five cells and contains the row's own cell |
| Preprocessing.WindowMean | Wildlife-Movement-Profiler-main/Wildlife-Movement-Profiler-main/processor/preprocessing.py:33 | a smoothed cell is present exactly when its window holds a present cell, and then times the window's count it gives the window's sum |
| Preprocessing.MovingAverage | Wildlife-Movement-Profiler-main/Wildlife-Movement-Profiler-main/processor/preprocessing.py:33 | smoothing keeps the column length |
| Preprocessing.MovingAverageFilter | Wildlife-Movement-Profiler-main/Wildlife-Movement-Profiler-main/processor/preprocessing.py:27-34 | smoothing keeps rows, names and lengths, replaces each of the seven sensor columns by its moving average and leaves every other column as it was |
| Preprocessing.SmoothPresence | Wildlife-Movement-Profiler-main/Wildlife-Movement-Profiler-main/processor/preprocessing.py:33 | a smoothed cell is present exactly when some cell of its window is present (min_periods=1) |
| Preprocessing.SmoothAverage | Wildlife-Movement-Profiler-main/Wildlife-Movement-Profiler-main/processor/preprocessing.py:33 | on a gap-free column, smoothed row i is the average of rows max(0, i-2) through min(n-1, i+2) |
| Preprocessing.SmoothKeepsPresent | Wildlife-Movement-Profiler-main/Wildlife-Movement-Profiler-main/processor/preprocessing.py:33 | smoothing a gap-free column leaves no gap |
| Preprocessing.SmoothWithin | Wildlife-Movement-Profiler-main/Wildlife-Movement-Profiler-main/processor/preprocessing.py:33 | every smoothed value lies within any bounds of the input's present cells |
| Preprocessing.SmoothConstant | Wildlife-Movement-Profiler-main/Wildlife-Movement-Profiler-main/processor/preprocessing.py:33 | a gap-free constant column is left unchanged by smoothing |
| Preprocessing.Diff | Wildlife-Movement-Profiler-main/Wildlife-Movement-Profiler-main/processor/preprocessing.py:50 | a time step is present exactly when its row and the row before are (row 0 is compared with itself), is 0 at row 0, and otherwise added to the previous time gives the row's time |
| Preprocessing.FloorDt | Wildlife-Movement-Profiler-main/Wildlife-Movement-Profiler-main/processor/preprocessing.py:51 | only a time step of exactly zero is replaced, by 1e-6, so the divisor is never zero |
| Preprocessing.HopDistance | Wildlife-Movement-Profiler-main/Wildlife-Movement-Profiler-main/processor/preprocessing.py:41-49 | row 0 covers distance 0 and is present exactly when its own position and, through np.roll, the last row's latitude are; row i > 0 covers the distance from row i - 1 and is present exactly when both positions are; a sound distance is never negative |
| Preprocessing.SpeedAt | Wildlife-Movement-Profiler-main/Wildlife-Movement-Profiler-main/processor/preprocessing.py:50-52 | a speed is present exactly when its distance and its time step are, and then times the floored time step it gives the distance |
| Preprocessing.Magnitude | Wildlife-Movement-Profiler-main/Wildlife-Movement-Profiler-main/processor/preprocessing.py:59 | the magnitude is present exactly when all three components are; with a sound square root it is non-negative and squares to the sum of the squared components |
| Preprocessing.SpeedColumn | Wildlife-Movement-Profiler-main/Wildlife-Movement-Profiler-main/processor/preprocessing.py:41-53 | one speed per row |
| Preprocessing.MagnitudeColumn | Wildlife-Movement-Profiler-main/Wildlife-Movement-Profiler-main/processor/preprocessing.py:59 | one acceleration magnitude per row |
| Preprocessing.TrendWindow | Wildlife-Movement-Profiler-main/Wildlife-Movement-Profiler-main/processor/preprocessing.py:63 | the trend window is odd: 5 from five rows on, otherwise n for odd n and n + 1 for even n |
| Preprocessing.SavgolAccepts | Wildlife-Movement-Profiler-main/Wildlife-Movement-Profiler-main/processor/preprocessing.py:63 | scipy accepts only a window longer than the polynomial order 2 and no longer than the data |
| Preprocessing.AddSpeed | Wildlife-Movement-Profiler-main/Wildlife-Movement-Profiler-main/processor/preprocessing.py:40-53 | speed is added exactly when latitude, longitude and timestamp are present, and is then the speed column of those three; other columns are unchanged |
| Preprocessing.AddHeading | Wildlife-Movement-Profiler-main/Wildlife-Movement-Profiler-main/processor/preprocessing.py:55-56 | heading is added exactly when compass is present, and is a copy of it |
| Preprocessing.AddMagnitude | Wildlife-Movement-Profiler-main/Wildlife-Movement-Profiler-main/processor/preprocessing.py:58-59 | accel_mag is added exactly when all three accelerometer axes are present, and is then the magnitude column of those axes; other columns are unchanged |
| Preprocessing.AddTrend | Wildlife-Movement-Profiler-main/Wildlife-Movement-Profiler-main/processor/preprocessing.py:61-63 | temp_trend is added exactly when temperature is present, and is then the trend filter run over the temperature column with the trend window of the row count; other columns are unchanged |
| Preprocessing.ExtractFails | Wildlife-Movement-Profiler-main/Wildlife-Movement-Profiler-main/processor/preprocessing.py:40-63 | extraction can raise only on frames of 0, 1, 2 or 4 rows, and does raise on those sizes when there is a temperature column |
| Preprocessing.ExtractFeatures | Wildlife-Movement-Profiler-main/Wildlife-Movement-Profiler-main/processor/preprocessing.py:36-64 | extraction raises exactly on an empty frame with a position, or on a trend window scipy refuses, with the matching error; otherwise it keeps the row count and well-formedness |
| Preprocessing.ExtractFeaturesKeeps | Wildlife-Movement-Profiler-main/Wildlife-Movement-Profiler-main/processor/preprocessing.py:38-59 | extraction leaves every column it does not derive as it was, heading equals compass, and speed and accel_mag are the speed and magnitude columns of the input frame |
| Preprocessing.ExtractTrend | Wildlife-Movement-Profiler-main/Wildlife-Movement-Profiler-main/processor/preprocessing.py:61-63 | after a successful extraction, temp_trend is the trend filter over the input's temperature column with the trend window of the row count |
| Preprocessing.ExtractFeaturesAdds | Wildlife-Movement-Profiler-main/Wildlife-Movement-Profiler-main/processor/preprocessing.py:40-63 | extraction adds exactly the features whose source columns are present |
| Preprocessing.Preprocess | Wildlife-Movement-Profiler-main/Wildlife-Movement-Profiler-main/processor/preprocessing.py:66-72 | the pipeline fails exactly when extraction of the input's shape fails, and otherwise keeps the row count and well-formedness |
| Preprocessing.SmoothedFrame | Wildlife-Movement-Profiler-main/Wildlife-Movement-Profiler-main/processor/preprocessing.py:69-70 | the frame handed to feature extraction keeps the rows and names; each sensor column is filled, normalised, then smoothed, and every other column only filled |
| Preprocessing.PreprocessSensors | Wildlife-Movement-Profiler-main/Wildlife-Movement-Profiler-main/processor/preprocessing.py:66-72 | after the pipeline every sensor column is its filled column, normalised, then smoothed: cleaning comes before smoothing, and extraction leaves it alone |
| Preprocessing.PreprocessSpeed | Wildlife-Movement-Profiler-main/Wildlife-Movement-Profiler-main/processor/preprocessing.py:66-72 | the pipeline's speed is computed from the filled latitude, longitude and timestamp columns |
| Preprocessing.PreprocessMagnitude | Wildlife-Movement-Profiler-main/Wildlife-Movement-Profiler-main/processor/preprocessing.py:66-72 | the pipeline's accel_mag is computed from the three accelerometer axes after cleaning, normalisation and smoothing |
| Preprocessing.PreprocessTrend | Wildlife-Movement-Profiler-main/Wildlife-Movement-Profiler-main/processor/preprocessing.py:66-72 | the pipeline's temp_trend filters the temperature column after cleaning, normalisation and smoothing |
| Preprocessing.TrendWindowAccepted | Wildlife-Movement-Profiler-main/Wildlife-Movement-Profiler-main/processor/preprocessing.py:61-63 | the trend filter accepts its window exactly for 3 rows and for 5 or more rows |
| Preprocessing.SpeedFirstRow | Wildlife-Movement-Profiler-main/Wildlife-Movement-Profiler-main/processor/preprocessing.py:43-52 | row 0's speed is 0, and is missing exactly when its own position or time, or the last row's latitude (through np.roll), is missing |
| Preprocessing.SpeedNonNegative | Wildlife-Movement-Profiler-main/Wildlife-Movement-Profiler-main/processor/preprocessing.py:46-53 | with a non-negative distance and timestamps that do not go backwards, every speed is non-negative |
| Preprocessing.SpeedNegativeWhenTimeRunsBack | Wildlife-Movement-Profiler-main/Wildlife-Movement-Profiler-main/processor/preprocessing.py:50-52 | only a zero time step is floored, so a backwards step with some distance gives a negative speed |
| Preprocessing.MagnitudeNonNegative | Wildlife-Movement-Profiler-main/Wildlife-Movement-Profiler-main/processor/preprocessing.py:58-59 | the magnitude is present exactly when all three axes are, and is then non-negative |
| Preprocessing.ExtractedFeatureValues | Wildlife-Movement-Profiler-main/Wildlife-Movement-Profiler-main/processor/preprocessing.py:40-59 | in the frame extraction returns, every acceleration magnitude is non-negative, and row 0's speed, when present, is zero |
| Preprocessing.PreprocessNoGaps | Wildlife-Movement-Profiler-main/Wildlife-Movement-Profiler-main/processor/preprocessing.py:66-72 | after the pipeline, a sensor column that had a present cell has no missing cell |
| Preprocessing.CleanLeavesNoGap | Wildlife-Movement-Profiler-main/Wildlife-Movement-Profiler-main/processor/preprocessing.py:13-24 | after cleaning, any column that had a present cell has no missing cell, sensor or not |
| Preprocessing.CleanNormalizesSensor | Wildlife-Movement-Profiler-main/Wildlife-Movement-Profiler-main/processor/preprocessing.py:11-25 | after cleaning, a sensor column whose filled form has two present cells and positive variance keeps that count and has mean 0 and sample variance 1 |
| Preprocessing.SmoothFrameWithin | Wildlife-Movement-Profiler-main/Wildlife-Movement-Profiler-main/processor/preprocessing.py:27-34 | after smoothing, every value of a sensor column lies within any bounds of the input column's present cells |
| Preprocessing.PreprocessPassThrough | Wildlife-Movement-Profiler-main/Wildlife-Movement-Profiler-main/processor/preprocessing.py:68-71 | a column that is neither a sensor nor a derived feature comes out of the pipeline only filled |
| Classifier.Predict | classifier/behavior_model.py:13-21 | each label is given exactly when its own rule holds, and unknown exactly when no rule does |
| Classifier.PredictByBand | classifier/behavior_model.py:15-21 | for present readings, the ordered rule table equals a decision on the speed band first |
| Classifier.RulesDisjoint | classifier/behavior_model.py:15-19 | no two rules hold at once, so their order does not matter |
| Classifier.UnknownGap | classifier/behavior_model.py:15-21 | a row is unknown exactly when its speed is missing, or when it is slow and not warm |
| Classifier.PredictColumn | classifier/behavior_model.py:13-21 | one label per row, row i labelled from row i's speed and temperature |
| Classifier.PredictExample | Wildlife-Movement-Profiler-main/Wildlife-Movement-Profiler-main/tests/test_pipeline.py:41-48 | three sample rows receive resting, walking and running, and their labels read "resting", "walking", "running" |
| Classifier.ClassifyBehaviors | classifier/behavior_model.py:63-74 | method defaults to rule and the model path to none; an unknown method raises; ml without a model raises and ml with a model path is handed to the model; rule raises a KeyError for the first missing column of speed, temperature, timestamp, and otherwise labels every row, pairing each timestamp with its predicted label |
| Classifier.PipelineClassifies | classifier/behavior_model.py:63-74 | a preprocessed batch with positions, times and temperatures is labelled by the rules, one row per input row |

## Left out

- Reading and writing CSV files (`ingest_data`, the example scripts) is not modelled. `Preprocess` starts from an ingested frame.
- The dashboard, the HTTP API and its authentication are outside this model.
- Randomness is not modelled. Each uniform and normal draw of the simulator is a parameter, consumed from an environment indexed by iteration.
- The wall clock is a parameter. `time.time()` is a field of the draws.
- `time.sleep` is not modelled. Its throttling has no meaning for a pure model.
- `cos`, `sin`, `sqrt`, the haversine arithmetic and `savgol_filter`'s polynomial fit are function parameters. Only the facts the proofs need are assumed of them: cos and sin are bounded, cos is never zero, and cos² + sin² = 1 (the `Simulator.SoundTrig` type); the square root is sound; the distance is non-negative.
- Floating point is not modelled. Arithmetic is on exact reals, and NaN is a missing cell.
- Column dtypes are not modelled. In particular, with an integer timestamp column the 1e-6 floor of a zero time step would be truncated to 0.
- Non-numeric columns (`species`, `movement_mode`) are not part of the frame model, so their behaviour under interpolation is out of scope.
- Column order in a frame is not modelled. A frame is a map from names to columns.
- Simulator.Generate: models the generator consumed to the end. Laziness and the key order of the record dictionaries are left out; the keys are the thirteen fields of `Sample`. The model does not include the `time.sleep` error on a negative interval. With a negative rate and a negative duration, the real generator raises after its first record, while the model yields every record.
- Classifier.ClassifyBehaviors: the model-based classifier with a path is a hand-over (`DelegatedToModel`). Loading the model, training it and its predictions are not modelled, nor is the timestamp selection on that branch.
- Preprocessing.AddTrend: the Savitzky-Golay filter is a parameter. The model states which column it filters, with which window, and when scipy refuses the window, but not the values the polynomial fit produces.
- `moving_average_filter`'s `window` argument is fixed at its default 5. The pipeline never passes another value.
- `TelemetrySimulator.save_to_csv` and `TelemetrySimulator.stream` are not modelled. They only write the generated records to a CSV file or print them.
