/** The two-tier `predict_category` and the model state behind it. The
    trained pipeline and its label list are held together: either both are
    absent or both are present. Prediction tries the pipeline first and falls
    back to the keyword heuristic on any failure. Training fills or clears the
    state from a dataset. The learning library is seen only through what it
    returns: the fitted pipeline's probability output, whether fitting
    succeeded, and whether cross-validation raised. */
module Predictor {
  import opened Wrappers
  import opened AsciiText
  import opened SkillExtraction
  import opened Heuristic
  import opened Training

  /** What `predict_proba([text])[0]` yields: the class probabilities, or an
      exception. */
  datatype Inference = Raised | Probabilities(p: seq<real>)

  /** A fitted pipeline, seen through its probability output. */
  datatype Pipeline = Pipeline(predictProba: string -> Inference)

  /** The outcome of locating and reading the dataset. */
  datatype Dataset = NotFound | ReadFailed | Loaded(columns: set<string>, rows: seq<Row>)

  /** How a training run leaves the model state. */
  datatype Outcome = Unchanged | Reset | Trained(pipeline: Pipeline, labels: seq<string>)

  const CATEGORY_COLUMN := "Category"

  const RESUME_COLUMN := "Resume"

  /** `argmax`: the first index holding the largest value. */
  function FirstArgMax(p: seq<real>): (k: nat)
    requires p != []
    ensures k < |p|
    ensures forall i :: 0 <= i < |p| ==> p[i] <= p[k]
    ensures forall i :: 0 <= i < k ==> p[i] < p[k]
  {
    if |p| == 1 then 0
    else
      var k := FirstArgMax(p[..|p| - 1]);
      if p[|p| - 1] > p[k] then |p| - 1 else k
  }

  /** The model tier: `None` when inference raises, when the probabilities
      are empty (argmax raises) or when the best index has no label (indexing
      raises). */
  function MlPrediction(pipeline: Pipeline, labels: seq<string>, text: string): Option<Prediction> {
    match pipeline.predictProba(text)
    case Raised => None
    case Probabilities(p) =>
      if p == [] then None
      else
        var top := FirstArgMax(p);
        if top < |labels| then Some(Prediction(labels[top], p[top], Skills(text))) else None
  }

  /** `predict_category(text)` for a given model state. */
  function PredictCategory(pipeline: Option<Pipeline>, labels: Option<seq<string>>, text: string): Prediction {
    if pipeline.Some? && labels.Some? then
      match MlPrediction(pipeline.value, labels.value, text)
      case Some(prediction) => prediction
      case None => HeuristicPrediction(text)
    else HeuristicPrediction(text)
  }

  /** When the model answers, the category is the label of the first most
      probable class, the confidence is that class's probability and the skills
      are those of `extract_skills`, none repeated. */
  lemma ModelTierAnswer(pipeline: Pipeline, labels: seq<string>, text: string)
    requires pipeline.predictProba(text).Probabilities?
    requires pipeline.predictProba(text).p != []
    requires FirstArgMax(pipeline.predictProba(text).p) < |labels|
    ensures
      var p := pipeline.predictProba(text).p;
      var r := PredictCategory(Some(pipeline), Some(labels), text);
      exists k :: 0 <= k < |p| && k < |labels|
        && (forall i :: 0 <= i < |p| ==> p[i] <= p[k])
        && (forall i :: 0 <= i < k ==> p[i] < p[k])
        && r == Prediction(labels[k], p[k], Skills(text))
        && NoDuplicates(r.skills)
  {
    SkillsDistinct(text);
    var p := pipeline.predictProba(text).p;
    var k := FirstArgMax(p);
    assert PredictCategory(Some(pipeline), Some(labels), text) == Prediction(labels[k], p[k], Skills(text));
  }

  /** Every failure of the model tier, and a missing model, yields the
      heuristic answer. */
  lemma FallbackToHeuristic(pipeline: Option<Pipeline>, labels: Option<seq<string>>, text: string)
    requires
      || pipeline.None? || labels.None?
      || pipeline.value.predictProba(text).Raised?
      || pipeline.value.predictProba(text).p == []
      || FirstArgMax(pipeline.value.predictProba(text).p) >= |labels.value|
    ensures PredictCategory(pipeline, labels, text) == HeuristicPrediction(text)
  {
  }

  /** The confidence is a probability whenever the model's outputs are. */
  lemma ConfidenceIsProbability(pipeline: Option<Pipeline>, labels: Option<seq<string>>, text: string)
    requires pipeline.Some? && pipeline.value.predictProba(text).Probabilities? ==>
      var p := pipeline.value.predictProba(text).p;
      forall i :: 0 <= i < |p| ==> 0.0 <= p[i] <= 1.0
    ensures 0.0 <= PredictCategory(pipeline, labels, text).confidence <= 1.0
  {
  }

  /** Whichever tier answers, the skill list is non-empty, holds at most
      fifteen entries and repeats no skill. */
  lemma PredictedSkills(pipeline: Option<Pipeline>, labels: Option<seq<string>>, text: string)
    ensures 0 < |PredictCategory(pipeline, labels, text).skills| <= MAX_SKILLS
    ensures NoDuplicates(PredictCategory(pipeline, labels, text).skills)
  {
    SkillsDistinct(text);
    HeuristicSkillsDistinct(text);
  }

  /** What `_load_and_train_model` does to the model state. */
  function TrainingOutcome(
    librariesAvailable: bool,
    dataset: Dataset,
    fit: (seq<string>, seq<string>) -> Option<Pipeline>,
    crossValidationRaises: (Pipeline, seq<string>, seq<string>) -> bool): Outcome
  {
    if !librariesAvailable || dataset.NotFound? then Unchanged
    else if dataset.ReadFailed? then Reset
    else if CATEGORY_COLUMN !in dataset.columns || RESUME_COLUMN !in dataset.columns then Unchanged
    else
      var kept := UsableRows(dataset.rows);
      if |kept| < MIN_ROWS then Unchanged
      else
        var texts := ResumeTexts(kept);
        var labels := Labels(kept);
        match fit(texts, labels)
        case None => Reset
        case Some(pipeline) =>
          if crossValidationRaises(pipeline, texts, labels) then Reset
          else Trained(pipeline, SortedDistinct(labels))
  }

  /** Fewer than ten usable rows end the run before anything is assigned,
      whatever the fitting and cross-validation would have done. */
  lemma TooFewRowsLeavesStateAlone(
    dataset: Dataset,
    fit: (seq<string>, seq<string>) -> Option<Pipeline>,
    crossValidationRaises: (Pipeline, seq<string>, seq<string>) -> bool)
    requires dataset.Loaded? && |UsableRows(dataset.rows)| < MIN_ROWS
    ensures TrainingOutcome(true, dataset, fit, crossValidationRaises) == Unchanged
  {
  }

  /** A successful training run has at least ten usable rows and publishes a
      non-empty, strictly sorted label list holding exactly the normalized
      labels of those rows, each of them already stripped and normalized. */
  lemma TrainedLabels(
    librariesAvailable: bool,
    dataset: Dataset,
    fit: (seq<string>, seq<string>) -> Option<Pipeline>,
    crossValidationRaises: (Pipeline, seq<string>, seq<string>) -> bool)
    requires TrainingOutcome(librariesAvailable, dataset, fit, crossValidationRaises).Trained?
    ensures librariesAvailable && dataset.Loaded?
    ensures CATEGORY_COLUMN in dataset.columns && RESUME_COLUMN in dataset.columns
    ensures |UsableRows(dataset.rows)| >= MIN_ROWS
    ensures
      var labels := TrainingOutcome(librariesAvailable, dataset, fit, crossValidationRaises).labels;
      && labels != []
      && StrictlySorted(labels)
      && forall y :: y in labels <==>
        exists r :: r in dataset.rows && Usable(r) && y == RowLabel(r)
    ensures
      var labels := TrainingOutcome(librariesAvailable, dataset, fit, crossValidationRaises).labels;
      forall y :: y in labels ==> Strip(y) == y && Normalize(y) == y
  {
    var kept := UsableRows(dataset.rows);
    var labels := Labels(kept);
    SortedDistinctSpec(labels);
    LabelsOfUsableRows(dataset.rows);
    assert labels[0] in labels;
    forall y | y in SortedDistinct(labels)
      ensures Strip(y) == y && Normalize(y) == y
    {
      var r :| r in dataset.rows && Usable(r) && y == RowLabel(r);
      RowLabelClean(r);
    }
  }

  /** The module-level model state: the fitted pipeline and its label list. */
  class ModelState {
    var pipeline: Option<Pipeline>
    var labelList: Option<seq<string>>

    /** Both absent or both present; a present label list is non-empty and
        strictly sorted. */
    ghost predicate Valid()
      reads this
    {
      && (pipeline.Some? <==> labelList.Some?)
      && (labelList.Some? ==> labelList.value != [] && StrictlySorted(labelList.value))
    }

    /** At import time neither a pipeline nor a label list exists. */
    constructor ()
      ensures Valid()
      ensures pipeline.None? && labelList.None?
    {
      pipeline := None;
      labelList := None;
    }

    /** `_load_and_train_model()`: early returns keep the state, a failure
        inside the guarded block clears both parts, and success publishes the
        new pipeline with its label list. */
    method LoadAndTrain(
      librariesAvailable: bool,
      dataset: Dataset,
      fit: (seq<string>, seq<string>) -> Option<Pipeline>,
      crossValidationRaises: (Pipeline, seq<string>, seq<string>) -> bool)
      requires Valid()
      modifies this
      ensures Valid()
      ensures TrainingOutcome(librariesAvailable, dataset, fit, crossValidationRaises).Unchanged? ==>
        pipeline == old(pipeline) && labelList == old(labelList)
      ensures TrainingOutcome(librariesAvailable, dataset, fit, crossValidationRaises).Reset? ==>
        pipeline.None? && labelList.None?
      ensures TrainingOutcome(librariesAvailable, dataset, fit, crossValidationRaises).Trained? ==>
        var outcome := TrainingOutcome(librariesAvailable, dataset, fit, crossValidationRaises);
        pipeline == Some(outcome.pipeline) && labelList == Some(outcome.labels)
    {
      if !librariesAvailable {
        return;
      }
      if dataset.NotFound? {
        return;
      }
      if dataset.ReadFailed? {
        pipeline := None;
        labelList := None;
        return;
      }
      if CATEGORY_COLUMN !in dataset.columns || RESUME_COLUMN !in dataset.columns {
        return;
      }
      var kept := UsableRows(dataset.rows);
      if |kept| < MIN_ROWS {
        return;
      }
      var texts := ResumeTexts(kept);
      var labels := Labels(kept);
      // The label list is published before fitting, as in the source.
      labelList := Some(SortedDistinct(labels));
      var fitted := fit(texts, labels);
      if fitted.None? {
        pipeline := None;
        labelList := None;
        return;
      }
      pipeline := fitted;
      if crossValidationRaises(fitted.value, texts, labels) {
        pipeline := None;
        labelList := None;
        return;
      }
      TrainedLabels(librariesAvailable, dataset, fit, crossValidationRaises);
    }

    /** `predict_category(text)` against the current state. */
    method Predict(text: string) returns (prediction: Prediction)
      ensures prediction == PredictCategory(pipeline, labelList, text)
    {
      if pipeline.Some? && labelList.Some? {
        var inference := pipeline.value.predictProba(text);
        if inference.Probabilities? && inference.p != [] {
          var top := FirstArgMax(inference.p);
          if top < |labelList.value| {
            var skills := ExtractSkills(text);
            return Prediction(labelList.value[top], inference.p[top], skills);
          }
        }
      }
      prediction := PredictHeuristic(text);
    }
  }
}
