/**
  One form submission end to end: encode the form values, scan the row for
  missing features (a warning that never blocks), run the classifier and
  build the result card, or report the classifier's failure.

  The classifier is an opaque collaborator. It is passed in as its two
  operations, each of which either returns or raises with a message:
  `predict` gives the predicted class of a row, `predictProba` the
  probability of each class.
*/
module Inference {
  import opened Wrappers
  import Features
  import FeatureCheck
  import opened Verdict

  type Row = seq<FeatureCheck.Slot>

  /** What one submission shows: the missing-feature warning list, then the card or the error. */
  datatype Report = Report(warnings: seq<string>, result: Result<Assessment, CardError>)

  /** Runs the classifier on `row` and builds the card from its answers. */
  function Classify(
    row: Row,
    predict: Row -> Result<int, string>,
    predictProba: Row -> Result<seq<real>, string>): (r: Result<Assessment, CardError>)
    ensures r.Success? <==>
              && predict(row).Success?
              && predictProba(row).Success?
              && -|predictProba(row).value| <= predict(row).value < |predictProba(row).value|
    ensures predict(row).Failure? ==> r == Failure(ClassifierRaised(predict(row).error))
    ensures predict(row).Success? && predictProba(row).Failure? ==>
              r == Failure(ClassifierRaised(predictProba(row).error))
    ensures predict(row).Success? && predictProba(row).Success? ==>
              r == Assess(predict(row).value, predictProba(row).value)
  {
    match predict(row)
    case Failure(m) => Failure(ClassifierRaised(m))
    case Success(pred) =>
      match predictProba(row)
      case Failure(m) => Failure(ClassifierRaised(m))
      case Success(probs) => Assess(pred, probs)
  }

  /**
    The body of the submission's error boundary: scan the row, then classify
    it whatever the scan found. A row narrower than the name list makes the
    scan itself fail before anything is shown.
  */
  function Infer(
    row: Row,
    predict: Row -> Result<int, string>,
    predictProba: Row -> Result<seq<real>, string>): (r: Report)
    ensures |row| < |FeatureCheck.ExpectedFeatures| ==>
              r == Report([], Failure(IndexOutOfRange))
    ensures |row| >= |FeatureCheck.ExpectedFeatures| ==>
              && r.result == Classify(row, predict, predictProba)
              && r.warnings == FeatureCheck.MissingFeatures(FeatureCheck.ExpectedFeatures, row)
              && forall j :: 0 <= j < |FeatureCheck.ExpectedFeatures| ==>
                   (FeatureCheck.ExpectedFeatures[j] in r.warnings <==> row[j].None?)
  {
    if |row| < |FeatureCheck.ExpectedFeatures| then
      Report([], Failure(IndexOutOfRange))
    else
      FeatureCheck.ExpectedFeaturesMatchVector();
      FeatureCheck.MissingFeaturesMembership(FeatureCheck.ExpectedFeatures, row);
      Report(FeatureCheck.MissingFeatures(FeatureCheck.ExpectedFeatures, row),
             Classify(row, predict, predictProba))
  }

  /**
    A submitted form: the encoded row is scanned and classified. Its warning
    list is always empty, and the card reports the decision for the class the
    classifier predicts on the encoded row.
  */
  function Submit(
    x: Features.ApplicantInput,
    predict: Row -> Result<int, string>,
    predictProba: Row -> Result<seq<real>, string>): (r: Report)
    requires x.income + 1 != 0
    ensures r.warnings == []
    ensures var row := FeatureCheck.Present(Features.Encode(x));
            && r.result == Classify(row, predict, predictProba)
            && (r.result.Success? ==> (r.result.value.decision == Approved <==> predict(row).value == 0))
  {
    FeatureCheck.EncodedRowHasNoMissingFeatures(x);
    Infer(FeatureCheck.Present(Features.Encode(x)), predict, predictProba)
  }

  /**
    A missing feature only warns: two rows that differ only in which slots are
    missing, and on which the classifier answers alike, get the same card or
    the same error.
  */
  lemma WarningsDoNotBlock(
    row1: Row, row2: Row,
    predict: Row -> Result<int, string>,
    predictProba: Row -> Result<seq<real>, string>)
    requires |row1| >= |FeatureCheck.ExpectedFeatures| && |row2| >= |FeatureCheck.ExpectedFeatures|
    requires predict(row1) == predict(row2) && predictProba(row1) == predictProba(row2)
    ensures Infer(row1, predict, predictProba).result == Infer(row2, predict, predictProba).result
  {
  }
}
