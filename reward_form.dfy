/** The create / edit reward form (src/components/dashboard/forms/reward-form.tsx):
    its schema, its default values and the way its inputs turn what the user
    typed into field values. */
module RewardForm {
  import opened Wrappers
  import opened Text
  import opened Validation

  datatype Field = RewardName | StockLimit | CouponCode | Expiry | Description

  /** The values the schema is given. `requireReview` may be missing; the others
      are always present once the form has produced them. */
  datatype FormValues = FormValues(
    rewardName: string,
    stockLimit: int,
    couponCode: string,
    expiry: int,
    description: string,
    requireReview: Option<bool>)

  /** What a successful parse yields (`RewardFormData`). */
  datatype RewardFormData = RewardFormData(
    rewardName: string,
    stockLimit: int,
    couponCode: string,
    expiry: int,
    description: string,
    requireReview: bool)

  /** `Partial<RewardFormData>`: the optional initial data of the form. */
  datatype InitialData = InitialData(
    rewardName: Option<string>,
    stockLimit: Option<int>,
    couponCode: Option<string>,
    expiry: Option<int>,
    description: Option<string>,
    requireReview: Option<bool>)

  const RewardNameRequired: string := "Reward name is required"
  const StockLimitRequired: string := "Stock limit is required"
  const CouponCodeRequired: string := "Coupon code is required"
  const ExpiryRequired: string := "Expiry is required"
  const DescriptionRequired: string := "Description is required"

  const EditTitle: string := "Edit Reward"
  const CreateTitle: string := "Create New Reward"

  /** The issues `rewardSchema` reports, in the order of its fields. */
  function Issues(v: FormValues): (r: seq<Issue<Field>>)
    ensures r == [] <==>
      |v.rewardName| >= 1 && v.stockLimit >= 1 && |v.couponCode| >= 1 &&
      v.expiry >= 1 && |v.description| >= 1
    ensures |r| <= 5
  {
    MinLength(RewardName, v.rewardName, 1, RewardNameRequired)
    + AtLeast(StockLimit, v.stockLimit, 1, StockLimitRequired)
    + MinLength(CouponCode, v.couponCode, 1, CouponCodeRequired)
    + AtLeast(Expiry, v.expiry, 1, ExpiryRequired)
    + MinLength(Description, v.description, 1, DescriptionRequired)
  }

  /** Each field is named by an issue exactly when its check fails. */
  lemma IssueFields(v: FormValues)
    ensures FieldsOf(Issues(v)) ==
      (if |v.rewardName| < 1 then {RewardName} else {}) +
      (if v.stockLimit < 1 then {StockLimit} else {}) +
      (if |v.couponCode| < 1 then {CouponCode} else {}) +
      (if v.expiry < 1 then {Expiry} else {}) +
      (if |v.description| < 1 then {Description} else {})
  {
    var a := MinLength(RewardName, v.rewardName, 1, RewardNameRequired);
    var b := AtLeast(StockLimit, v.stockLimit, 1, StockLimitRequired);
    var c := MinLength(CouponCode, v.couponCode, 1, CouponCodeRequired);
    var d := AtLeast(Expiry, v.expiry, 1, ExpiryRequired);
    var e := MinLength(Description, v.description, 1, DescriptionRequired);
    FieldsOfAppend(a + b + c + d, e);
    FieldsOfAppend(a + b + c, d);
    FieldsOfAppend(a + b, c);
    FieldsOfAppend(a, b);
    FieldsOfSingle(a, RewardName);
    FieldsOfSingle(b, StockLimit);
    FieldsOfSingle(c, CouponCode);
    FieldsOfSingle(d, Expiry);
    FieldsOfSingle(e, Description);
  }

  /** No field is reported twice: each check contributes at most one issue. */
  lemma OneIssuePerField(v: FormValues)
    ensures forall i, j :: 0 <= i < j < |Issues(v)| ==> Issues(v)[i].field != Issues(v)[j].field
  {
    var a := MinLength(RewardName, v.rewardName, 1, RewardNameRequired);
    var b := AtLeast(StockLimit, v.stockLimit, 1, StockLimitRequired);
    var c := MinLength(CouponCode, v.couponCode, 1, CouponCodeRequired);
    var d := AtLeast(Expiry, v.expiry, 1, ExpiryRequired);
    var e := MinLength(Description, v.description, 1, DescriptionRequired);
    FieldsOfSingle(a, RewardName);
    FieldsOfSingle(b, StockLimit);
    FieldsOfSingle(c, CouponCode);
    FieldsOfSingle(d, Expiry);
    FieldsOfSingle(e, Description);
    DistinctAppend(a, b);
    FieldsOfAppend(a, b);
    DistinctAppend(a + b, c);
    FieldsOfAppend(a + b, c);
    DistinctAppend(a + b + c, d);
    FieldsOfAppend(a + b + c, d);
    DistinctAppend(a + b + c + d, e);
    assert Issues(v) == a + b + c + d + e;
  }

  /** `rewardSchema.safeParse`: the parsed data, or the issues found. */
  function Parse(v: FormValues): (r: Result<RewardFormData, seq<Issue<Field>>>)
    ensures r.Success? <==>
      |v.rewardName| >= 1 && v.stockLimit >= 1 && |v.couponCode| >= 1 &&
      v.expiry >= 1 && |v.description| >= 1
    ensures r.Success? ==> r.value == RewardFormData(
      v.rewardName, v.stockLimit, v.couponCode, v.expiry, v.description,
      v.requireReview.GetOr(false))
    ensures r.Failure? ==>
      && r.error != []
      && (RewardName in FieldsOf(r.error) <==> |v.rewardName| < 1)
      && (StockLimit in FieldsOf(r.error) <==> v.stockLimit < 1)
      && (CouponCode in FieldsOf(r.error) <==> |v.couponCode| < 1)
      && (Expiry in FieldsOf(r.error) <==> v.expiry < 1)
      && (Description in FieldsOf(r.error) <==> |v.description| < 1)
  {
    IssueFields(v);
    var issues := Issues(v);
    if issues == [] then
      Success(RewardFormData(v.rewardName, v.stockLimit, v.couponCode, v.expiry,
                             v.description, v.requireReview.GetOr(false)))
    else
      Failure(issues)
  }

  /** The form's `defaultValues`: each field from the initial data, or "", 0, false. */
  function Defaults(init: Option<InitialData>): (v: FormValues)
    ensures init.None? ==> v == FormValues("", 0, "", 0, "", Some(false))
    ensures init.Some? ==>
      v.rewardName == init.value.rewardName.GetOr("") &&
      v.stockLimit == init.value.stockLimit.GetOr(0) &&
      v.couponCode == init.value.couponCode.GetOr("") &&
      v.expiry == init.value.expiry.GetOr(0) &&
      v.description == init.value.description.GetOr("") &&
      v.requireReview == Some(init.value.requireReview.GetOr(false))
  {
    match init
    case None => FormValues("", 0, "", 0, "", Some(false))
    case Some(d) =>
      FormValues(d.rewardName.GetOr(""), d.stockLimit.GetOr(0), d.couponCode.GetOr(""),
                 d.expiry.GetOr(0), d.description.GetOr(""), Some(d.requireReview.GetOr(false)))
  }

  /** An untouched create form fails on every one of its five checked fields. */
  lemma UntouchedCreateFormInvalid()
    ensures Parse(Defaults(None)).Failure?
    ensures FieldsOf(Parse(Defaults(None)).error) ==
      {RewardName, StockLimit, CouponCode, Expiry, Description}
  {
    IssueFields(Defaults(None));
  }

  /** A missing `requireReview` parses as false, at both places that default it. */
  lemma RequireReviewDefaultsToFalse(v: FormValues, init: InitialData)
    requires v.requireReview.None?
    requires init.requireReview.None?
    ensures Parse(v).Success? ==> !Parse(v).value.requireReview
    ensures Defaults(Some(init)).requireReview == Some(false)
  {
  }

  /** The card title. */
  function Title(init: Option<InitialData>): (t: string)
    ensures t == EditTitle <==> init.Some?
    ensures t == CreateTitle <==> init.None?
  {
    if init.Some? then EditTitle else CreateTitle
  }

  /** The number inputs' `onChange`: an empty box stores 0, otherwise the number
     typed. `None` stands for text that does not spell an integer. */
  function NumberInput(typed: string): (n: Option<int>)
    ensures typed == "" ==> n == Some(0)
    ensures typed != "" ==> n == ParseInt(typed)
  {
    if typed == "" then Some(0) else ParseInt(typed)
  }

  /** The number inputs display `field.value.toString()`; reading that text back
      stores the same value, so an untouched input keeps its value (0 shows as "0"). */
  lemma NumberInputRoundTrip(value: int)
    ensures NumberInput(IntToString(value)) == Some(value)
  {
    ParseIntOfIntToString(value);
  }

  /** What the checkbox reports: checked, unchecked, or indeterminate. */
  datatype CheckedState = Checked | Unchecked | Indeterminate

  /** `checked === true`. */
  function CheckboxValue(checked: CheckedState): (b: bool)
    ensures b <==> checked == Checked
  {
    checked.Checked?
  }
}
