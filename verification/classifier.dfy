/** The rule-based behaviour classifier: three threshold rules on speed and (normalised)
    temperature, tried in order with `unknown` as the fallback, mapped over the rows of a
    frame; and `classify_behaviors`, which picks the classifier by name and returns the
    (timestamp, behavior) pairs. */
module Classifier {
  import opened Wrappers
  import opened Table
  import opened Preprocessing

  datatype Behavior = Resting | Walking | Running | Unknown {

    /** The label the classifier writes */
    function Label(): string {
      match this
      case Resting => "resting"
      case Walking => "walking"
      case Running => "running"
      case Unknown => "unknown"
    }
  }

  /** Below this speed (m/s) an animal is not moving on */
  const WalkSpeed: real := 0.2

  /** From this speed (m/s) on an animal is running */
  const RunSpeed: real := 1.0

  /** Above this normalised temperature a slow animal counts as resting */
  const RestTemperature: real := 0.5

  // A comparison with a missing cell is false, as any comparison with NaN is.

  predicate Below(x: Option<real>, c: real) {
    x.Some? && x.value < c
  }

  predicate AtLeast(x: Option<real>, c: real) {
    x.Some? && x.value >= c
  }

  predicate Above(x: Option<real>, c: real) {
    x.Some? && x.value > c
  }

  /** The three conditions of the rule table, in the order they are tried */
  predicate RestingRule(speed: Option<real>, temperature: Option<real>) {
    Below(speed, WalkSpeed) && Above(temperature, RestTemperature)
  }

  predicate WalkingRule(speed: Option<real>) {
    AtLeast(speed, WalkSpeed) && Below(speed, RunSpeed)
  }

  predicate RunningRule(speed: Option<real>) {
    AtLeast(speed, RunSpeed)
  }

  /** `np.select` over the rules: the first condition that holds picks the label, and
      `unknown` is the default. Because the rules are disjoint, each label is given exactly
      when its own rule holds. */
  function Predict(speed: Option<real>, temperature: Option<real>): (b: Behavior)
    ensures b == Resting <==> RestingRule(speed, temperature)
    ensures b == Walking <==> WalkingRule(speed)
    ensures b == Running <==> RunningRule(speed)
    ensures b == Unknown <==> !RestingRule(speed, temperature) && !WalkingRule(speed) && !RunningRule(speed)
  {
    if RestingRule(speed, temperature) then Resting
    else if WalkingRule(speed) then Walking
    else if RunningRule(speed) then Running
    else Unknown
  }

  /** The rule table read as a decision on the speed band first, for present readings */
  function ByBand(speed: real, temperature: real): Behavior {
    if speed >= RunSpeed then Running
    else if speed >= WalkSpeed then Walking
    else if temperature > RestTemperature then Resting
    else Unknown
  }

  /** The ordered rule table and the band decision agree on every pair of present readings */
  lemma PredictByBand(speed: real, temperature: real)
    ensures Predict(Some(speed), Some(temperature)) == ByBand(speed, temperature)
  {
  }

  /** No two rules hold at once */
  lemma RulesDisjoint(speed: Option<real>, temperature: Option<real>)
    ensures !(RestingRule(speed, temperature) && WalkingRule(speed))
    ensures !(RestingRule(speed, temperature) && RunningRule(speed))
    ensures !(WalkingRule(speed) && RunningRule(speed))
  {
  }

  /** A slow animal that is not warm falls into the gap between the rules: it is labelled
      `unknown`, never `resting` or `walking`; so is a row with a missing speed */
  lemma UnknownGap(speed: Option<real>, temperature: Option<real>)
    ensures Predict(speed, temperature) == Unknown <==>
      speed.None? || (speed.value < WalkSpeed && !Above(temperature, RestTemperature))
  {
  }

  /** `RuleBasedClassifier.predict`: one label per row, in row order */
  function PredictColumn(speed: Column, temperature: Column): (r: seq<Behavior>)
    requires |speed| == |temperature|
    ensures |r| == |speed|
    ensures forall i :: 0 <= i < |r| ==> r[i] == Predict(speed[i], temperature[i])
  {
    seq(|speed|, i requires 0 <= i < |speed| => Predict(speed[i], temperature[i]))
  }

  /** Three rows, one per rule */
  lemma PredictExample()
    ensures PredictColumn([Some(0.1), Some(0.5), Some(1.5)], [Some(1.0), Some(0.0), Some(0.0)])
         == [Resting, Walking, Running]
    ensures var r := PredictColumn([Some(0.1), Some(0.5), Some(1.5)], [Some(1.0), Some(0.0), Some(0.0)]);
      |r| == 3 && [r[0].Label(), r[1].Label(), r[2].Label()] == ["resting", "walking", "running"]
  {
    var r := PredictColumn([Some(0.1), Some(0.5), Some(1.5)], [Some(1.0), Some(0.0), Some(0.0)]);
    assert r[0] == Resting && r[1] == Walking && r[2] == Running;
  }

  // ---------------------------------------------------------------------------
  // classify_behaviors
  // ---------------------------------------------------------------------------

  datatype LabelledRow = LabelledRow(timestamp: Option<real>, behavior: Behavior)

  /** Why `classify_behaviors` raises: a column the rules or the result need is absent,
      the model-based classifier has no model, or the method name is not known */
  datatype ClassifyError = MissingColumn(name: string) | ModelNotLoaded | UnknownMethod(name: string)

  /** The outcome: labelled rows from the rules, a hand-over to the trained model (not part
      of this model), or an error */
  datatype Classification =
    | Labelled(rows: seq<LabelledRow>)
    | DelegatedToModel(path: string)
    | Rejected(error: ClassifyError)

  /** `classify_behaviors(df, method='rule', model_path=None)`. The rules read `speed`, then
      `temperature`; the result then selects `timestamp`. The model-based classifier loads
      a model only for a non-empty path, and predicting without one raises. */
  function ClassifyBehaviors(f: Frame, how: string := "rule", modelPath: Option<string> := None): (r: Classification)
    requires Wf(f)
    ensures how != "rule" && how != "ml" ==> r == Rejected(UnknownMethod(how))
    ensures how == "ml" ==>
      (r == Rejected(ModelNotLoaded) <==> modelPath.None? || modelPath.value == "")
    ensures how == "rule" ==>
      (r.Labelled? <==> "speed" in f.cols && "temperature" in f.cols && "timestamp" in f.cols)
    ensures how == "rule" && "speed" !in f.cols ==> r == Rejected(MissingColumn("speed"))
    ensures how == "rule" && "speed" in f.cols && "temperature" !in f.cols ==>
      r == Rejected(MissingColumn("temperature"))
    ensures how == "rule" && "speed" in f.cols && "temperature" in f.cols && "timestamp" !in f.cols ==>
      r == Rejected(MissingColumn("timestamp"))
    ensures how == "ml" && modelPath.Some? && modelPath.value != "" ==> r == DelegatedToModel(modelPath.value)
    ensures r.Labelled? ==> how == "rule" && |r.rows| == f.rows
    ensures r.Labelled? ==> "speed" in f.cols && "temperature" in f.cols && "timestamp" in f.cols
    ensures r.Labelled? ==> forall i :: 0 <= i < f.rows ==>
      r.rows[i] == LabelledRow(f.cols["timestamp"][i], Predict(f.cols["speed"][i], f.cols["temperature"][i]))
  {
    if how == "rule" then
      if "speed" !in f.cols then Rejected(MissingColumn("speed"))
      else if "temperature" !in f.cols then Rejected(MissingColumn("temperature"))
      else if "timestamp" !in f.cols then Rejected(MissingColumn("timestamp"))
      else
        var labels := PredictColumn(f.cols["speed"], f.cols["temperature"]);
        var ts := f.cols["timestamp"];
        Labelled(seq(f.rows, i requires 0 <= i < f.rows => LabelledRow(ts[i], labels[i])))
    else if how == "ml" then
      if modelPath.None? || modelPath.value == "" then Rejected(ModelNotLoaded)
      else DelegatedToModel(modelPath.value)
    else Rejected(UnknownMethod(how))
  }

  /** A preprocessed batch that had positions, times and temperatures can always be
      classified by the rules, one labelled row per input row */
  lemma PipelineClassifies(f: Frame, nm: Numerics)
    requires Wf(f) && !ExtractFails(f)
    requires HasPosition(f.cols) && "temperature" in f.cols
    ensures var r := ClassifyBehaviors(Preprocess(f, nm).value);
      r.Labelled? && |r.rows| == f.rows
  {
    var g := MovingAverageFilter(CleanAndNormalize(f, nm.sqrt));
    ExtractFeaturesAdds(g, nm);
  }
}
