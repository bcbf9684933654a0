# Loan approval assessment: feature encoder and decision selection

The loan-approval form collects eleven applicant values. Its non-presentational logic
turns them into the 24-slot feature vector a pre-trained binary classifier was fitted
on. It then lists any feature that is missing or NaN (a warning that never blocks),
asks the classifier for a class and class probabilities, and shows a decision and a
confidence. This project models that logic as pure Dafny functions and proves the
properties the layout and the decision rules promise.

- `wrappers.dfy` (module `Wrappers`): `Option`, `Result` and a `Distinct` predicate.
- `features.dfy` (module `Features`): the form record `ApplicantInput`. The five select
  boxes are described as `CategoryGroup` values: their options, the baseline label that
  gets no slot, the indicator labels in slot order and the first slot. It also holds the
  two ratios with the smoothed denominator `income + 1`, the one-hot groups and `Encode`.
  `Decode` is a partner to `Encode`; it shows that the vector determines every form value.
- `feature_check.dfy` (module `FeatureCheck`): the 24 expected feature names and the
  missing-feature scan. A slot is an `Option<real>`, and `None` stands for absent or NaN.
- `verdict.dfy` (module `Verdict`): the decision from the predicted class, the
  confidence as the probability of that class, and the 0.7 highlight threshold.
- `inference.dfy` (module `Inference`): one submission from start to finish. The
  classifier is passed in as two functions, `predict` and `predictProba`. Each one
  returns a `Result`, and a `Failure` stands for an exception the form's `except`
  clause catches.

Categorical fields are strings compared against the option labels, as the form does.
So a label outside an option list can be represented, and the model shows it encodes
like the baseline with no error. The form performs no validation of these labels, so the model does not add a validation error for them. `Encode` requires only `income + 1 != 0`, the one
condition the code needs (the division at appSpl.py:268). The income widget's minimum
of 0 guarantees it. The remaining widget bounds are the predicate `InWidgetDomain`.

The probability vector is indexed by the predicted class with the indexing rules of a
one-dimensional array: a negative index counts from the end, and an out-of-range index
raises. The form's `except` clause catches that error. The model therefore returns
`IndexOutOfRange` instead of requiring the index to be in range.

## Model

| member | source | states |
|---|---|---|
| `Features.Group` | appSpl.py:189-232 | each categorical group's indicator slots lie inside the 24-slot vector |
| `Features.LoanToIncome` | appSpl.py:268 | the ratio times `income + 1` is the loan; it equals the loan when income is 0; it lies in [0, loan] for non-negative income and loan |
| `Features.DebtToIncome` | appSpl.py:269 | equals existing loans times loan-to-income; is 0 when there are no existing loans or the loan is 0; is non-negative on non-negative inputs |
| `Features.OneHot` | appSpl.py:271-286 | one slot per indicator label, each 0 or 1, and 1 exactly where the label equals the field's value |
| `Features.Encode` | appSpl.py:288-313 | the vector has exactly 24 slots; slots 0-5 are age, income, loan, credit score, existing loans and late payments unchanged; slots 6 and 7 are the two ratios; every slot from 8 on is 0 or 1 |
| `Features.AllGroupsWellFormed` | appSpl.py:271-286 | in every group the options are distinct, the baseline is an option without a slot, and the indicator labels are exactly the other options |
| `Features.EncodeLayout` | appSpl.py:297-312 | each group's slots in the vector hold exactly the one-hot encoding of that group's field |
| `Features.OneHotGroupRule` | appSpl.py:271-286 | at most one indicator is 1; all are 0 exactly when the value has no indicator, which for a listed option means exactly the baseline; a value with an indicator sets that slot alone |
| `Features.EncodeBaselineRule` | appSpl.py:271-286 | in the vector each group has at most one 1; a group is all zero exactly when its field is the baseline (Female, Divorced, Bachelor, Employed, Business) or an unlisted label; any other option sets exactly its own slot |
| `Features.UnknownCategoryEncodesAsBaseline` | appSpl.py:271-286 | a label outside a select box's options raises no error and yields the same vector as the group's baseline |
| `Features.DecodeEncode` | appSpl.py:288-313 | for listed options, decoding the vector gives back the form values, so the encoding loses nothing |
| `Features.EncodeInWidgetDomain` | appSpl.py:181-313 | for any values within the widget bounds and option lists, every slot is non-negative, loan-to-income is at most the loan, and the vector decodes back to the form values |
| `Features.EncodeInjective` | appSpl.py:288-313 | two submissions with listed options that encode to the same vector are equal |
| `Features.EncodeDefaultForm` | appSpl.py:181-258 | the form's initial values encode to the stated 24 numbers, with both ratios 10000/50001 |
| `FeatureCheck.MissingSlotsFrom` | appSpl.py:324-327 | the indices it lists are strictly increasing, each is a missing slot, and every missing slot is listed |
| `FeatureCheck.MissingFeatures` | appSpl.py:324-327 | the names of the missing or NaN slots, in index order: the k-th reported name is the name at the k-th missing index, so order and multiplicity are fixed |
| `FeatureCheck.MissingFeaturesMembership` | appSpl.py:324-327 | with distinct names, a name is reported if and only if its slot is missing |
| `FeatureCheck.ExpectedFeaturesMatchVector` | appSpl.py:318-323 | there are 24 expected names, one per vector slot, and none repeats |
| `FeatureCheck.EncodedRowHasNoMissingFeatures` | appSpl.py:324-329 | an encoded submission never triggers the missing-feature warning |
| `Verdict.DecisionFor` | appSpl.py:343-347 | the decision is Approved if and only if the predicted class is 0 |
| `Verdict.Headline` | appSpl.py:347 | the headline is "Loan Approved" exactly for an approval and "Loan Not Approved" exactly for a refusal |
| `Verdict.ProbabilityOf` | appSpl.py:332 | succeeds exactly for indices in `-n .. n-1`; a non-negative index selects that entry, a negative one counts from the end; otherwise `IndexOutOfRange` |
| `Verdict.Assess` | appSpl.py:331-352 | a card exists exactly when the class indexes the probabilities; the decision is Approved if and only if the class is 0; the confidence is the probability `ProbabilityOf` selects, so a negative class counts from the end; it is highlighted if and only if it is at least 0.7 |
| `Verdict.ConfidenceIsProbability` | appSpl.py:332 | for a probability distribution, the confidence of any class that indexes it lies in [0, 1] |
| `Verdict.ArgmaxConfidenceAtLeastShare` | appSpl.py:331-332 | if the predicted class is a most probable class among n, its confidence is at least 1/n, so at least 0.5 for two classes |
| `Inference.Classify` | appSpl.py:331-332 | a card is produced exactly when both classifier calls return and the class indexes the probabilities; an exception from either call becomes that call's error message; when both calls return, the result is `Assess` of their answers, so a class that does not index the probabilities gives `IndexOutOfRange` |
| `Inference.Infer` | appSpl.py:317-333 | the result is the classification whatever the scan found; the warnings are the scan's list, the names of the missing slots in index order, and a name is in it exactly when its slot is missing; a row narrower than the name list fails with `IndexOutOfRange` |
| `Inference.Submit` | appSpl.py:266-333 | a submitted form has no warnings; its card or error is the classification of its encoded row; the decision is Approved if and only if the classifier predicts class 0 on that row |
| `Inference.WarningsDoNotBlock` | appSpl.py:328-331 | two rows on which the classifier answers alike get the same card or error, whatever slots either has missing |

## Left out

- All page layout, CSS, HTML cards, colours, emoji and the footer (appSpl.py:9-174, 335-380, 387-390). The model keeps only the decision label, the confidence and its highlight flag.
- The form widgets themselves (appSpl.py:177-264). Their bounds and option lists are the `InWidgetDomain` predicate and the `CategoryGroup` option lists. The submit button's gate (`if submitted`, appSpl.py:316) is not modelled: `Submit` is what happens once the button is pressed.
- Loading the model with `joblib.load` (appSpl.py:6): file I/O and deserialisation of an opaque artifact. The classifier's internals (`predict`, `predict_proba`) are foreign calls. They are function parameters here, and nothing is assumed about them.
- Floating-point arithmetic: the ratios are exact `real`s, with no float64 rounding or numpy dtype coercion. NaN is abstracted as `None` in a slot. Because every encoded value is present, the scan's warning branch only matters for rows given directly to `Infer`.
- The `predict(...)[0]` and `predict_proba(...)[0]` row selection: the classifier parameters answer for the single row directly.
- Formatting of the confidence percentage, the ratio decimals and the feature count (appSpl.py:353, 359, 371, 375), and the error and info text (appSpl.py:383-384). A failure carries only the exception's message.
- The source uses the predicted class label as an index into the probability vector. That is right only when the classifier's classes are 0 and 1 in that order. The model indexes by the label exactly as the code does, and it cannot check the classes of an artifact that is not part of this model.
