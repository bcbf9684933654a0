/**
  The feature encoder of the loan-approval form: the eleven form values become
  the fixed-order 24-slot vector the pre-trained classifier was fitted on.

  Layout of the vector:
    0..5   age, income, loan, credit score, existing loans, late payments (raw)
    6      loan-to-income  = loan / (income + 1)
    7      debt-to-income  = existing loans * loan / (income + 1)
    8..23  one-hot indicators of the five categorical fields, each group
           dropping one baseline category (Female, Divorced, Bachelor,
           Employed, Business) that is represented by all zeros.

  The categorical fields are strings, compared for equality against the
  option labels exactly as the form does, so a label outside the option list
  is representable and encodes like the baseline.
*/
module Features {
  import opened Wrappers

  /** One submission of the form. The numeric widgets produce integers. */
  datatype ApplicantInput = ApplicantInput(
    age: int,
    gender: string,
    marital: string,
    education: string,
    income: int,
    loan: int,
    employment: string,
    purpose: string,
    creditScore: int,
    existingLoans: int,
    latePayments: int)

  /** The five categorical fields of the form. */
  datatype Category = Gender | Marital | Education | Employment | Purpose

  /**
    A categorical field: the labels its select box offers, the baseline label
    that has no indicator slot, the labels that do (in slot order) and the
    vector index of the first indicator slot.
  */
  datatype CategoryGroup = CategoryGroup(
    options: seq<string>,
    baseline: string,
    indicators: seq<string>,
    first: nat)

  const VectorLength: nat := 24

  /** Index of the first one-hot slot; slots below it are numeric. */
  const FirstIndicatorSlot: nat := 8

  function Group(c: Category): (g: CategoryGroup)
    ensures g.first + |g.indicators| <= VectorLength
  {
    match c
    case Gender =>
      CategoryGroup(["Male", "Female"], "Female", ["Male"], 8)
    case Marital =>
      CategoryGroup(["Single", "Married", "Divorced", "Widowed"], "Divorced",
                    ["Married", "Single", "Widowed"], 9)
    case Education =>
      CategoryGroup(["High School", "Bachelor", "Master", "PhD", "Other"], "Bachelor",
                    ["High School", "Master", "Other", "PhD"], 12)
    case Employment =>
      CategoryGroup(["Employed", "Self-employed", "Unemployed", "Retired", "Student"], "Employed",
                    ["Retired", "Self-employed", "Student", "Unemployed"], 16)
    case Purpose =>
      CategoryGroup(["Personal", "Home", "Car", "Education", "Business"], "Business",
                    ["Car", "Education", "Home", "Personal"], 20)
  }

  /** The value of categorical field `c` in `x`. */
  function Field(x: ApplicantInput, c: Category): string {
    match c
    case Gender => x.gender
    case Marital => x.marital
    case Education => x.education
    case Employment => x.employment
    case Purpose => x.purpose
  }

  /** `x` with categorical field `c` replaced by `newLabel`. */
  function WithField(x: ApplicantInput, c: Category, newLabel: string): (y: ApplicantInput)
    ensures Field(y, c) == newLabel
  {
    match c
    case Gender => x.(gender := newLabel)
    case Marital => x.(marital := newLabel)
    case Education => x.(education := newLabel)
    case Employment => x.(employment := newLabel)
    case Purpose => x.(purpose := newLabel)
  }

  /**
    A group is well formed when its option labels are distinct, its baseline
    is one of them, and the indicator labels are exactly the other options,
    each once.
  */
  predicate WellFormedGroup(g: CategoryGroup) {
    && Distinct(g.options)
    && Distinct(g.indicators)
    && g.baseline in g.options
    && g.baseline !in g.indicators
    && (forall s :: s in g.indicators ==> s in g.options)
    && (forall s :: s in g.options && s != g.baseline ==> s in g.indicators)
  }

  /** Every categorical field holds one of the labels its select box offers. */
  predicate KnownCategories(x: ApplicantInput) {
    forall c: Category :: Field(x, c) in Group(c).options
  }

  /** The bounds of the numeric widgets and the option lists of the select boxes. */
  predicate InWidgetDomain(x: ApplicantInput) {
    && 18 <= x.age <= 100
    && 0 <= x.income <= 1_000_000
    && 0 <= x.loan <= 1_000_000
    && 300 <= x.creditScore <= 850
    && 0 <= x.existingLoans <= 10
    && 0 <= x.latePayments <= 12
    && KnownCategories(x)
  }

  /** The loan amount over the smoothed income `income + 1`. */
  function LoanToIncome(x: ApplicantInput): (r: real)
    requires x.income + 1 != 0
    ensures r * (x.income + 1) as real == x.loan as real
    ensures x.income == 0 ==> r == x.loan as real
    ensures x.income >= 0 && x.loan >= 0 ==> 0.0 <= r <= x.loan as real
  {
    var d := (x.income + 1) as real;
    var r := x.loan as real / d;
    assert x.income >= 0 && x.loan >= 0 ==> r <= x.loan as real by {
      if x.income >= 0 && x.loan >= 0 {
        assert r * d == x.loan as real;
        assert r * 1.0 <= r * d;
      }
    }
    r
  }

  /** The existing-loan count times the loan amount, over the smoothed income. */
  function DebtToIncome(x: ApplicantInput): (r: real)
    requires x.income + 1 != 0
    ensures r == x.existingLoans as real * LoanToIncome(x)
    ensures x.existingLoans == 0 || x.loan == 0 ==> r == 0.0
    ensures x.income >= 0 && x.loan >= 0 && x.existingLoans >= 0 ==> r >= 0.0
  {
    (x.existingLoans * x.loan) as real / (x.income + 1) as real
  }

  /** One 0/1 slot per indicator label: 1 exactly where the label equals `value`. */
  function OneHot(value: string, indicators: seq<string>): (r: seq<real>)
    ensures |r| == |indicators|
    ensures forall i :: 0 <= i < |r| ==> r[i] == 0.0 || r[i] == 1.0
    ensures forall i :: 0 <= i < |r| ==> (r[i] == 1.0 <==> indicators[i] == value)
  {
    seq(|indicators|, i requires 0 <= i < |indicators| => if indicators[i] == value then 1.0 else 0.0)
  }

  /** The feature vector handed to the classifier. */
  function Encode(x: ApplicantInput): (v: seq<real>)
    requires x.income + 1 != 0
    ensures |v| == VectorLength
    ensures v[..6] == [x.age as real, x.income as real, x.loan as real,
                       x.creditScore as real, x.existingLoans as real, x.latePayments as real]
    ensures v[6] == LoanToIncome(x) && v[7] == DebtToIncome(x)
    ensures forall i :: FirstIndicatorSlot <= i < |v| ==> v[i] == 0.0 || v[i] == 1.0
  {
    [x.age as real, x.income as real, x.loan as real,
     x.creditScore as real, x.existingLoans as real, x.latePayments as real,
     LoanToIncome(x), DebtToIncome(x)]
    + OneHot(x.gender, Group(Gender).indicators)
    + OneHot(x.marital, Group(Marital).indicators)
    + OneHot(x.education, Group(Education).indicators)
    + OneHot(x.employment, Group(Employment).indicators)
    + OneHot(x.purpose, Group(Purpose).indicators)
  }

  /** The slots of vector `v` that belong to group `g`. */
  function Slots(v: seq<real>, g: CategoryGroup): seq<real>
    requires g.first + |g.indicators| <= |v|
  {
    v[g.first .. g.first + |g.indicators|]
  }

  predicate AllZero(s: seq<real>) {
    forall i :: 0 <= i < |s| ==> s[i] == 0.0
  }

  predicate AtMostOneHot(s: seq<real>) {
    forall i, j :: 0 <= i < |s| && 0 <= j < |s| && s[i] == 1.0 && s[j] == 1.0 ==> i == j
  }

  /** Slot `k` is 1 and every other slot is 0. */
  predicate OnlyHot(s: seq<real>, k: int) {
    && 0 <= k < |s|
    && s[k] == 1.0
    && forall i :: 0 <= i < |s| && i != k ==> s[i] == 0.0
  }

  /** The five select boxes each satisfy `WellFormedGroup`. */
  lemma AllGroupsWellFormed(c: Category)
    ensures WellFormedGroup(Group(c))
  {
    match c
    case Gender => GenderGroupWellFormed();
    case Marital => MaritalGroupWellFormed();
    case Education => EducationGroupWellFormed();
    case Employment => EmploymentGroupWellFormed();
    case Purpose => PurposeGroupWellFormed();
  }

  lemma GenderGroupWellFormed()
    ensures WellFormedGroup(Group(Gender))
  {
    var g := Group(Gender);
    forall s | s in g.options && s != g.baseline
      ensures s in g.indicators
    {
    }
  }

  lemma MaritalGroupWellFormed()
    ensures WellFormedGroup(Group(Marital))
  {
    var g := Group(Marital);
    forall s | s in g.options && s != g.baseline
      ensures s in g.indicators
    {
    }
  }

  lemma EducationGroupWellFormed()
    ensures WellFormedGroup(Group(Education))
  {
    var g := Group(Education);
    forall s | s in g.options && s != g.baseline
      ensures s in g.indicators
    {
    }
  }

  lemma EmploymentGroupWellFormed()
    ensures WellFormedGroup(Group(Employment))
  {
    var g := Group(Employment);
    forall s | s in g.options && s != g.baseline
      ensures s in g.indicators
    {
    }
  }

  lemma PurposeGroupWellFormed()
    ensures WellFormedGroup(Group(Purpose))
  {
    var g := Group(Purpose);
    forall s | s in g.options && s != g.baseline
      ensures s in g.indicators
    {
    }
  }

  /** Each group of the vector holds exactly the one-hot encoding of its field. */
  lemma EncodeLayout(x: ApplicantInput, c: Category)
    requires x.income + 1 != 0
    ensures Slots(Encode(x), Group(c)) == OneHot(Field(x, c), Group(c).indicators)
  {
    var v := Encode(x);
    var gender := OneHot(x.gender, Group(Gender).indicators);
    var marital := OneHot(x.marital, Group(Marital).indicators);
    var education := OneHot(x.education, Group(Education).indicators);
    var employment := OneHot(x.employment, Group(Employment).indicators);
    var purpose := OneHot(x.purpose, Group(Purpose).indicators);
    assert v == v[..8] + gender + marital + education + employment + purpose;
    match c
    case Gender => assert v[8..9] == gender;
    case Marital => assert v[9..12] == marital;
    case Education => assert v[12..16] == education;
    case Employment => assert v[16..20] == employment;
    case Purpose => assert v[20..24] == purpose;
  }

  /**
    The baseline rule for one group's indicators: at most one slot is hot; the
    slots are all zero exactly when the value has no indicator, which for a
    listed option means exactly when it is the baseline; and a value with an
    indicator sets that slot alone.
  */
  lemma OneHotGroupRule(g: CategoryGroup, value: string)
    requires WellFormedGroup(g)
    ensures AtMostOneHot(OneHot(value, g.indicators))
    ensures AllZero(OneHot(value, g.indicators)) <==> value !in g.indicators
    ensures value in g.options ==> (AllZero(OneHot(value, g.indicators)) <==> value == g.baseline)
    ensures forall k :: 0 <= k < |g.indicators| && g.indicators[k] == value ==> OnlyHot(OneHot(value, g.indicators), k)
  {
  }

  /**
    The baseline rule on the encoded vector: within each categorical group at
    most one slot is 1; the group is all zero exactly when its field is the
    baseline or a label outside the option list; any other option sets exactly
    its own slot.
  */
  lemma EncodeBaselineRule(x: ApplicantInput, c: Category)
    requires x.income + 1 != 0
    ensures AtMostOneHot(Slots(Encode(x), Group(c)))
    ensures AllZero(Slots(Encode(x), Group(c))) <==> Field(x, c) == Group(c).baseline || Field(x, c) !in Group(c).options
    ensures forall k :: 0 <= k < |Group(c).indicators| && Group(c).indicators[k] == Field(x, c) ==>
              OnlyHot(Slots(Encode(x), Group(c)), k)
  {
    EncodeLayout(x, c);
    AllGroupsWellFormed(c);
    OneHotGroupRule(Group(c), Field(x, c));
  }

  /** Two labels that both lack an indicator produce the same (all-zero) slots. */
  lemma OneHotUnlisted(a: string, b: string, indicators: seq<string>)
    requires a !in indicators && b !in indicators
    ensures OneHot(a, indicators) == OneHot(b, indicators)
  {
  }

  /**
    A label outside a select box's option list is not rejected: the vector is
    the one the group's baseline label produces.
  */
  lemma UnknownCategoryEncodesAsBaseline(x: ApplicantInput, c: Category)
    requires x.income + 1 != 0
    requires Field(x, c) !in Group(c).options
    ensures Encode(x) == Encode(WithField(x, c, Group(c).baseline))
  {
    var g := Group(c);
    AllGroupsWellFormed(c);
    OneHotUnlisted(Field(x, c), g.baseline, g.indicators);
  }

  /** Reads one group's slots back: the first hot indicator, or the baseline if none. */
  function DecodeOneHot(slots: seq<real>, indicators: seq<string>, baseline: string): string
    requires |slots| == |indicators|
    decreases |slots|
  {
    if slots == [] then baseline
    else if slots[0] == 1.0 then indicators[0]
    else DecodeOneHot(slots[1..], indicators[1..], baseline)
  }

  lemma {:induction false} DecodeOneHotInverse(value: string, indicators: seq<string>, baseline: string)
    ensures DecodeOneHot(OneHot(value, indicators), indicators, baseline)
            == if value in indicators then value else baseline
    decreases |indicators|
  {
    if indicators != [] {
      assert OneHot(value, indicators)[1..] == OneHot(value, indicators[1..]);
      assert indicators == [indicators[0]] + indicators[1..];
      DecodeOneHotInverse(value, indicators[1..], baseline);
    }
  }

  /** Reads a feature vector back into form values. */
  function Decode(v: seq<real>): ApplicantInput
    requires |v| == VectorLength
  {
    ApplicantInput(
      age := v[0].Floor,
      gender := DecodeOneHot(Slots(v, Group(Gender)), Group(Gender).indicators, Group(Gender).baseline),
      marital := DecodeOneHot(Slots(v, Group(Marital)), Group(Marital).indicators, Group(Marital).baseline),
      education := DecodeOneHot(Slots(v, Group(Education)), Group(Education).indicators, Group(Education).baseline),
      income := v[1].Floor,
      loan := v[2].Floor,
      employment := DecodeOneHot(Slots(v, Group(Employment)), Group(Employment).indicators, Group(Employment).baseline),
      purpose := DecodeOneHot(Slots(v, Group(Purpose)), Group(Purpose).indicators, Group(Purpose).baseline),
      creditScore := v[3].Floor,
      existingLoans := v[4].Floor,
      latePayments := v[5].Floor)
  }

  /** A group's slots decode to its field whenever the field is a listed option. */
  lemma DecodeGroup(x: ApplicantInput, c: Category)
    requires x.income + 1 != 0
    requires Field(x, c) in Group(c).options
    ensures DecodeOneHot(Slots(Encode(x), Group(c)), Group(c).indicators, Group(c).baseline) == Field(x, c)
  {
    EncodeLayout(x, c);
    AllGroupsWellFormed(c);
    DecodeOneHotInverse(Field(x, c), Group(c).indicators, Group(c).baseline);
  }

  /**
    The encoding loses nothing: for any form values whose categorical fields
    are listed options, the vector determines them all.
  */
  lemma DecodeEncode(x: ApplicantInput)
    requires x.income + 1 != 0
    requires KnownCategories(x)
    ensures Decode(Encode(x)) == x
  {
    var v := Encode(x);
    assert v[..6][0] == v[0] && v[..6][1] == v[1] && v[..6][2] == v[2];
    assert v[..6][3] == v[3] && v[..6][4] == v[4] && v[..6][5] == v[5];
    assert Field(x, Gender) in Group(Gender).options;
    assert Field(x, Marital) in Group(Marital).options;
    assert Field(x, Education) in Group(Education).options;
    assert Field(x, Employment) in Group(Employment).options;
    assert Field(x, Purpose) in Group(Purpose).options;
    DecodeGroup(x, Gender);
    DecodeGroup(x, Marital);
    DecodeGroup(x, Education);
    DecodeGroup(x, Employment);
    DecodeGroup(x, Purpose);
  }

  /**
    The form as it first appears (age 30, income 50000, loan 10000, credit
    score 650, one existing loan, no late payments, the first option of every
    select box) encodes to this vector.
  */
  lemma EncodeDefaultForm()
    ensures var x := ApplicantInput(30, "Male", "Single", "High School", 50000, 10000,
                                    "Employed", "Personal", 650, 1, 0);
            Encode(x) == [30.0, 50000.0, 10000.0, 650.0, 1.0, 0.0,
                          10000.0 / 50001.0, 10000.0 / 50001.0,
                          1.0,
                          0.0, 1.0, 0.0,
                          1.0, 0.0, 0.0, 0.0,
                          0.0, 0.0, 0.0, 0.0,
                          0.0, 0.0, 0.0, 1.0]
  {
  }

  /**
    For any values the widgets can produce, every slot of the vector is
    non-negative, loan-to-income is at most the loan, and the vector decodes
    back to the form values.
  */
  lemma EncodeInWidgetDomain(x: ApplicantInput)
    requires InWidgetDomain(x)
    ensures forall i :: 0 <= i < VectorLength ==> Encode(x)[i] >= 0.0
    ensures 0.0 <= Encode(x)[6] <= Encode(x)[2]
    ensures Decode(Encode(x)) == x
  {
    var v := Encode(x);
    forall i | 0 <= i < VectorLength
      ensures v[i] >= 0.0
    {
      if i < 6 {
        assert v[i] == v[..6][i];
      }
    }
    assert v[2] == v[..6][2];
    DecodeEncode(x);
  }

  /** Two form submissions that encode alike agree on every listed-option field. */
  lemma EncodeInjective(x: ApplicantInput, y: ApplicantInput)
    requires x.income + 1 != 0 && y.income + 1 != 0
    requires KnownCategories(x) && KnownCategories(y)
    requires Encode(x) == Encode(y)
    ensures x == y
  {
    DecodeEncode(x);
    DecodeEncode(y);
  }
}
