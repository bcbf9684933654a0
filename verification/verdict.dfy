/**
  Turning the classifier's output into the result card: the decision label
  from the predicted class, the confidence as the probability of that class,
  and whether the confidence is shown as high.
*/
module Verdict {
  import opened Wrappers

  datatype Decision = Approved | NotApproved

  /** Why a submission produced no result card. */
  datatype CardError =
    | IndexOutOfRange                 // indexing a row or the probability vector out of bounds
    | ClassifierRaised(message: string) // the classifier's predict or predict_proba raised

  /** What the result card shows. */
  datatype Assessment = Assessment(decision: Decision, confidence: real, highlighted: bool)

  /** Confidence at or above this is shown in the "high" colour. */
  const HighConfidence: real := 0.7

  /** Class 0 is the approved class; every other class is a refusal. */
  function DecisionFor(pred: int): (d: Decision)
    ensures d == Approved <==> pred == 0
  {
    if pred == 0 then Approved else NotApproved
  }

  /** The headline of the result card. */
  function Headline(d: Decision): (s: string)
    ensures s == "Loan Approved" <==> d == Approved
    ensures s == "Loan Not Approved" <==> d == NotApproved
  {
    match d
    case Approved => "Loan Approved"
    case NotApproved => "Loan Not Approved"
  }

  /**
    The probability vector indexed by the predicted class, with the indexing
    rules of a one-dimensional array: a negative index counts from the end,
    and an index outside `-|probs| .. |probs| - 1` fails.
  */
  function ProbabilityOf(probs: seq<real>, pred: int): (r: Result<real, CardError>)
    ensures r.Success? <==> -|probs| <= pred < |probs|
    ensures r.Failure? ==> r.error == IndexOutOfRange
    ensures 0 <= pred < |probs| ==> r == Success(probs[pred])
    ensures -|probs| <= pred < 0 ==> r == Success(probs[|probs| + pred])
  {
    if 0 <= pred < |probs| then Success(probs[pred])
    else if -|probs| <= pred < 0 then Success(probs[|probs| + pred])
    else Failure(IndexOutOfRange)
  }

  /** The result card for predicted class `pred` and class probabilities `probs`. */
  function Assess(pred: int, probs: seq<real>): (r: Result<Assessment, CardError>)
    ensures r.Success? <==> -|probs| <= pred < |probs|
    ensures r.Failure? ==> r.error == IndexOutOfRange
    ensures r.Success? ==> (r.value.decision == Approved <==> pred == 0)
    ensures 0 <= pred < |probs| ==> r.Success? && r.value.confidence == probs[pred]
    ensures r.Success? ==> r.value.confidence == ProbabilityOf(probs, pred).value
    ensures r.Success? ==> (r.value.highlighted <==> r.value.confidence >= HighConfidence)
  {
    match ProbabilityOf(probs, pred)
    case Failure(e) => Failure(e)
    case Success(conf) => Success(Assessment(DecisionFor(pred), conf, conf >= HighConfidence))
  }

  /** Sum of a sequence of probabilities. */
  function Sum(s: seq<real>): real {
    if s == [] then 0.0 else s[0] + Sum(s[1..])
  }

  lemma {:induction false} SumAtMost(s: seq<real>, m: real)
    requires forall i :: 0 <= i < |s| ==> s[i] <= m
    ensures Sum(s) <= |s| as real * m
  {
    if s != [] {
      SumAtMost(s[1..], m);
    }
  }

  lemma {:induction false} SumAtLeastZero(s: seq<real>)
    requires forall i :: 0 <= i < |s| ==> 0.0 <= s[i]
    ensures 0.0 <= Sum(s)
  {
    if s != [] {
      SumAtLeastZero(s[1..]);
    }
  }

  /**
    When the class probabilities form a distribution, the confidence of any
    predicted class that indexes them lies in [0, 1].
  */
  lemma {:induction false} ConfidenceIsProbability(probs: seq<real>, pred: int)
    requires forall i :: 0 <= i < |probs| ==> 0.0 <= probs[i]
    requires Sum(probs) == 1.0
    requires -|probs| <= pred < |probs|
    ensures Assess(pred, probs).Success?
    ensures 0.0 <= Assess(pred, probs).value.confidence <= 1.0
  {
    var k := if pred >= 0 then pred else |probs| + pred;
    ElementAtMostSum(probs, k);
  }

  lemma {:induction false} ElementAtMostSum(s: seq<real>, k: nat)
    requires forall i :: 0 <= i < |s| ==> 0.0 <= s[i]
    requires k < |s|
    ensures s[k] <= Sum(s)
  {
    if k == 0 {
      SumAtLeastZero(s[1..]);
    } else {
      ElementAtMostSum(s[1..], k - 1);
    }
  }

  /**
    When the predicted class is a most probable class of a distribution over
    `n` classes, its confidence is at least 1/n; for the two classes of the
    approval model it is at least one half.
  */
  lemma ArgmaxConfidenceAtLeastShare(probs: seq<real>, pred: int)
    requires Sum(probs) == 1.0
    requires 0 <= pred < |probs|
    requires forall i :: 0 <= i < |probs| ==> probs[i] <= probs[pred]
    ensures Assess(pred, probs).value.confidence >= 1.0 / |probs| as real
    ensures |probs| == 2 ==> Assess(pred, probs).value.confidence >= 0.5
  {
    var n := |probs| as real;
    var p := probs[pred];
    SumAtMost(probs, p);
    assert 1.0 <= n * p;
    assert 1.0 / n <= p by {
      assert (1.0 / n) * n == 1.0;
    }
  }
}
