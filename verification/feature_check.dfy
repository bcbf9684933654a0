/**
  The pre-inference check: the names of the features the classifier expects,
  one per vector slot, and the scan that lists the names of slots that are
  missing or NaN. A slot is an `Option<real>`; `None` stands for a value that
  is absent or NaN.
*/
module FeatureCheck {
  import opened Wrappers
  import Features

  type Slot = Option<real>

  /** The expected feature names, in vector order. */
  const ExpectedFeatures: seq<string> := [
    "age", "income", "loan", "credit_score", "existing_loans", "late_payments",
    "loan_to_income", "debt_to_income", "gender_male", "marital_married", "marital_single", "marital_widowed",
    "edu_high_school", "edu_master", "edu_other", "edu_phd", "emp_retired", "emp_self_employed",
    "emp_student", "emp_unemployed", "purpose_car", "purpose_education", "purpose_home", "purpose_personal"
  ]

  /** A fully present row: every slot holds its value. */
  function Present(v: seq<real>): (row: seq<Slot>)
    ensures |row| == |v|
    ensures forall i :: 0 <= i < |row| ==> row[i] == Some(v[i])
  {
    seq(|v|, i requires 0 <= i < |v| => Some(v[i]))
  }

  /**
    The indices from `i` on whose slot is missing: each one really is missing,
    they are strictly increasing, and no missing index is left out.
  */
  function MissingSlotsFrom(row: seq<Slot>, i: nat): (ix: seq<nat>)
    requires i <= |row|
    ensures forall k :: 0 <= k < |ix| ==> i <= ix[k] < |row| && row[ix[k]].None?
    ensures forall k, l :: 0 <= k < l < |ix| ==> ix[k] < ix[l]
    ensures forall j :: i <= j < |row| && row[j].None? ==> j in ix
    decreases |row| - i
  {
    if i == |row| then []
    else (if row[i].None? then [i] else []) + MissingSlotsFrom(row, i + 1)
  }

  /** The indices of all missing slots, in increasing order. */
  function MissingSlots(row: seq<Slot>): seq<nat> {
    MissingSlotsFrom(row, 0)
  }

  /** Walks the names from `i` on and keeps those whose slot is missing. */
  function MissingFeaturesFrom(names: seq<string>, row: seq<Slot>, i: nat): seq<string>
    requires |names| <= |row| && i <= |names|
    decreases |names| - i
  {
    if i == |names| then []
    else (if row[i].None? then [names[i]] else []) + MissingFeaturesFrom(names, row, i + 1)
  }

  /**
    The names, in order, of the slots among the first `|names|` that are
    missing or NaN: the k-th reported name is the name at the k-th missing
    index.
  */
  function MissingFeatures(names: seq<string>, row: seq<Slot>): (r: seq<string>)
    requires |names| <= |row|
    ensures var ix := MissingSlots(row[..|names|]);
            |r| == |ix| && forall k :: 0 <= k < |r| ==> ix[k] < |names| && r[k] == names[ix[k]]
  {
    MissingFeaturesFromAtSlots(names, row, 0);
    MissingFeaturesFrom(names, row, 0)
  }

  lemma {:induction false} MissingFeaturesFromAtSlots(names: seq<string>, row: seq<Slot>, i: nat)
    requires |names| <= |row| && i <= |names|
    ensures var ix := MissingSlotsFrom(row[..|names|], i);
            var r := MissingFeaturesFrom(names, row, i);
            |r| == |ix| && forall k :: 0 <= k < |r| ==> ix[k] < |names| && r[k] == names[ix[k]]
    decreases |names| - i
  {
    if i < |names| {
      MissingFeaturesFromAtSlots(names, row, i + 1);
      assert row[..|names|][i] == row[i];
    }
  }

  /** With distinct names, a name is reported exactly when its slot is missing. */
  lemma MissingFeaturesMembership(names: seq<string>, row: seq<Slot>)
    requires |names| <= |row|
    requires Distinct(names)
    ensures forall j :: 0 <= j < |names| ==> (names[j] in MissingFeatures(names, row) <==> row[j].None?)
  {
    var prefix := row[..|names|];
    var ix := MissingSlots(prefix);
    var r := MissingFeatures(names, row);
    forall j | 0 <= j < |names|
      ensures names[j] in r <==> row[j].None?
    {
      assert prefix[j] == row[j];
      if row[j].None? {
        assert j in ix;
        var k :| 0 <= k < |ix| && ix[k] == j;
        assert r[k] == names[j];
      }
      if names[j] in r {
        var k :| 0 <= k < |r| && r[k] == names[j];
        assert names[ix[k]] == names[j];
        assert ix[k] == j;
      }
    }
  }

  /** The scan reports nothing for a row with no missing slot. */
  lemma {:induction false} NoMissingFeaturesFrom(names: seq<string>, row: seq<Slot>, i: nat)
    requires |names| <= |row| && i <= |names|
    requires forall j :: 0 <= j < |row| ==> row[j].Some?
    ensures MissingFeaturesFrom(names, row, i) == []
    decreases |names| - i
  {
    if i < |names| {
      NoMissingFeaturesFrom(names, row, i + 1);
    }
  }

  /** The names at indices `lo .. hi - 1` occur nowhere later in `names`. */
  predicate DistinctFrom(names: seq<string>, lo: nat, hi: nat) {
    forall i, j :: lo <= i < hi && i < j < |names| ==> names[i] != names[j]
  }

  /** There is one expected name per vector slot, and no name repeats. */
  lemma ExpectedFeaturesMatchVector()
    ensures |ExpectedFeatures| == Features.VectorLength
    ensures Distinct(ExpectedFeatures)
  {
    ExpectedFeaturesDistinctFrom0();
    ExpectedFeaturesDistinctFrom6();
    ExpectedFeaturesDistinctFrom12();
    ExpectedFeaturesDistinctFrom18();
    assert DistinctFrom(ExpectedFeatures, 0, 24);
  }

  lemma ExpectedFeaturesDistinctFrom0()
    ensures DistinctFrom(ExpectedFeatures, 0, 6)
  {
  }

  lemma ExpectedFeaturesDistinctFrom6()
    ensures DistinctFrom(ExpectedFeatures, 6, 12)
  {
  }

  lemma ExpectedFeaturesDistinctFrom12()
    ensures DistinctFrom(ExpectedFeatures, 12, 18)
  {
  }

  lemma ExpectedFeaturesDistinctFrom18()
    ensures DistinctFrom(ExpectedFeatures, 18, 24)
  {
  }

  /**
    Every encoded form submission passes the scan: the warning list is empty
    for any form values.
  */
  lemma EncodedRowHasNoMissingFeatures(x: Features.ApplicantInput)
    requires x.income + 1 != 0
    ensures MissingFeatures(ExpectedFeatures, Present(Features.Encode(x))) == []
  {
    NoMissingFeaturesFrom(ExpectedFeatures, Present(Features.Encode(x)), 0);
  }
}
