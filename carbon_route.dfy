/** app/api/carbon/estimate/route.js: POST picks the description-based or
    the deterministic estimate and reports how it was computed.  The body's
    fields are untyped JSON values, passed to the estimator as they are. */
module CarbonRoute {
  import opened Wrappers
  import opened Common
  import opened JsString
  import opened JsValue
  import opened CarbonEstimator

  /** The destructured JSON body; an absent field is undefined. */
  datatype EstimateBody = EstimateBody(
    activityType: JsVal,
    quantity: JsVal,
    subType: JsVal,
    description: JsVal,
    useAI: JsVal)

  /** The `calculation` part of the response. */
  datatype Calculation = Calculation(activityType: JsVal, quantity: JsVal, factor: JsVal, how: string)

  /** `carbonSavedKg` is None when the estimate is NaN, which `JSON.stringify`
      writes as null. */
  datatype EstimateResponse = EstimateResponse(carbonSavedKg: Option<real>, calculation: Calculation)

  const EstimateFailed := HttpError(500, "Failed to estimate carbon savings")
  const AiMethod := "ai-enhanced"
  const DeterministicMethod := "deterministic"

  /** `quantity || 1`. */
  function QuantityOrOne(quantity: JsVal): (q: JsVal)
    ensures Truthy(quantity) ==> q == quantity
    ensures !Truthy(quantity) ==> q == JNum(1.0)
    ensures Truthy(q)
  {
    if Truthy(quantity) then quantity else JNum(1.0)
  }

  /** The activity type as the estimator's `switch` compares it: `===` only
      matches a string, so any other value is an unknown type. */
  function TypeArg(activityType: JsVal): (t: Option<string>)
    ensures activityType.JStr? ==> t == Some(activityType.s)
    ensures !activityType.JStr? ==> t.None?
  {
    if activityType.JStr? then Some(activityType.s) else None
  }

  /** The subtype as `subType || 'plastic'` and the property lookup read it:
      a falsy value is no subtype, any other value is looked up as its string
      form. */
  function SubTypeArg(subType: JsVal, showNum: real -> string): (t: Option<string>)
    ensures !Truthy(subType) ==> t.None?
    ensures subType.JStr? && subType.s != "" ==> t == Some(subType.s)
    ensures Truthy(subType) ==> t == Some(Stringify(subType, showNum))
  {
    if Truthy(subType) then Some(Stringify(subType, showNum)) else None
  }

  /** `useAI && description`: both truthy. */
  predicate TakesAiPath(body: EstimateBody) {
    Truthy(body.useAI) && Truthy(body.description)
  }

  /** `CARBON_FACTORS[activityType] || null`: the key is the activity
      type's string form. */
  function FactorOrNull(activityType: JsVal, showNum: real -> string): (f: JsVal)
    ensures var key := Stringify(activityType, showNum);
            (key in KnownTypes ==> f == CarbonFactors.fields[key] && f.JObj?) &&
            (key !in KnownTypes ==> f == JNull)
  {
    var v := Get(CarbonFactors, Stringify(activityType, showNum));
    if Truthy(v) then v else JNull
  }

  /** `estimateCarbon(activityType, quantity || 1, subType)`: the quantity
      goes through `*`'s number conversion, and a NaN quantity gives NaN. */
  function DeterministicEstimate(b: EstimateBody, otherToNumber: JsVal -> Option<real>,
                                 showNum: real -> string): (r: Option<real>)
    ensures ToNumber(QuantityOrOne(b.quantity), otherToNumber).None? ==> r.None?
    ensures ToNumber(QuantityOrOne(b.quantity), otherToNumber).Some? ==>
              r == EstimateCarbonAsWritten(TypeArg(b.activityType),
                                           ToNumber(QuantityOrOne(b.quantity), otherToNumber).value,
                                           SubTypeArg(b.subType, showNum))
  {
    match ToNumber(QuantityOrOne(b.quantity), otherToNumber)
    case None => None
    case Some(n) => EstimateCarbonAsWritten(TypeArg(b.activityType), n, SubTypeArg(b.subType, showNum))
  }

  /** The handler; `body` is None when the request body is not JSON or is
      JSON null, which the destructuring throws on.  On the description path
      `description.match` throws unless the description is a string. */
  function Estimate(body: Option<EstimateBody>, otherToNumber: JsVal -> Option<real>,
                    showNum: real -> string): (r: Result<EstimateResponse, HttpError>)
    ensures r.Failure? ==> r.error == EstimateFailed
    ensures r.Failure? <==> body.None? || (TakesAiPath(body.value) && !body.value.description.JStr?)
    ensures r.Success? && TakesAiPath(body.value) ==>
              r.value.carbonSavedKg ==
                EstimateCarbonWithAI(body.value.description.s, TypeArg(body.value.activityType))
    ensures r.Success? && !TakesAiPath(body.value) ==>
              r.value.carbonSavedKg == DeterministicEstimate(body.value, otherToNumber, showNum)
    ensures r.Success? ==>
              var b := body.value;
              r.value.calculation.activityType == b.activityType &&
              r.value.calculation.quantity == QuantityOrOne(b.quantity) &&
              r.value.calculation.factor == FactorOrNull(b.activityType, showNum) &&
              (r.value.calculation.how == AiMethod <==> Truthy(b.useAI)) &&
              (r.value.calculation.how == DeterministicMethod <==> !Truthy(b.useAI))
  {
    match body
    case None => Failure(EstimateFailed)
    case Some(b) =>
      if TakesAiPath(b) && !b.description.JStr? then Failure(EstimateFailed)
      else
        var saved :=
          if TakesAiPath(b) then EstimateCarbonWithAI(b.description.s, TypeArg(b.activityType))
          else DeterministicEstimate(b, otherToNumber, showNum);
        var how := if Truthy(b.useAI) then AiMethod else DeterministicMethod;
        Success(EstimateResponse(saved, Calculation(b.activityType, QuantityOrOne(b.quantity),
                                                    FactorOrNull(b.activityType, showNum), how)))
  }

  /** With `useAI` set but no description the label still says
      "ai-enhanced" while the value is the deterministic one. */
  lemma AiLabelOnDeterministicValue(b: EstimateBody, quantity: real, otherToNumber: JsVal -> Option<real>,
                                    showNum: real -> string)
    requires Truthy(b.useAI) && !Truthy(b.description)
    requires b.quantity == JNum(quantity) && quantity != 0.0
    ensures Estimate(Some(b), otherToNumber, showNum).Success?
    ensures Estimate(Some(b), otherToNumber, showNum).value.calculation.how == AiMethod
    ensures Estimate(Some(b), otherToNumber, showNum).value.carbonSavedKg ==
              EstimateCarbonAsWritten(TypeArg(b.activityType), quantity, SubTypeArg(b.subType, showNum))
  {
  }

  /** Recycling with the subtype "unit" answers `carbonSavedKg: null`: the
      lookup lands on the table's "kg". */
  lemma UnitSubtypeAnswersNull(b: EstimateBody, otherToNumber: JsVal -> Option<real>, showNum: real -> string)
    requires !TakesAiPath(b)
    requires b.activityType == JStr("recycling") && b.subType == JStr("unit")
    ensures Estimate(Some(b), otherToNumber, showNum).Success?
    ensures Estimate(Some(b), otherToNumber, showNum).value.carbonSavedKg.None?
  {
    match ToNumber(QuantityOrOne(b.quantity), otherToNumber)
    case None =>
    case Some(n) => UnitSubtypeIsNaN(n);
  }

  /** A numeric string quantity is multiplied as its number and echoed as
      the string it was. */
  lemma NumericStringQuantity(b: EstimateBody, otherToNumber: JsVal -> Option<real>, showNum: real -> string,
                              n: real)
    requires !TakesAiPath(b)
    requires b.quantity.JStr? && b.quantity.s != "" && otherToNumber(b.quantity) == Some(n)
    ensures Estimate(Some(b), otherToNumber, showNum).Success?
    ensures Estimate(Some(b), otherToNumber, showNum).value.carbonSavedKg ==
              EstimateCarbonAsWritten(TypeArg(b.activityType), n, SubTypeArg(b.subType, showNum))
    ensures Estimate(Some(b), otherToNumber, showNum).value.calculation.quantity == b.quantity
  {
  }

  /** An activity type that is not a string never matches a case: the
      estimate is the quantity itself, as for an unknown type. */
  lemma NonStringTypeIsDefault(b: EstimateBody, otherToNumber: JsVal -> Option<real>, showNum: real -> string,
                               quantity: real)
    requires !TakesAiPath(b) && !b.activityType.JStr?
    requires b.quantity == JNum(quantity) && quantity != 0.0
    ensures Estimate(Some(b), otherToNumber, showNum).value.carbonSavedKg == Some(quantity)
  {
  }

  /** On the description path a truthy description that is not a string
      throws, and the answer is 500. */
  lemma NonStringDescriptionFails(b: EstimateBody, otherToNumber: JsVal -> Option<real>, showNum: real -> string)
    requires Truthy(b.useAI) && Truthy(b.description) && !b.description.JStr?
    ensures Estimate(Some(b), otherToNumber, showNum) == Failure(EstimateFailed)
  {
  }

  /** On the description path the given quantity and subtype play no part in
      the estimate, although the reported quantity is still `quantity || 1`. */
  lemma AiPathIgnoresQuantity(b: EstimateBody, quantity: JsVal, subType: JsVal,
                              otherToNumber: JsVal -> Option<real>, showNum: real -> string)
    requires TakesAiPath(b) && b.description.JStr?
    ensures Estimate(Some(b), otherToNumber, showNum).value.carbonSavedKg ==
            Estimate(Some(b.(quantity := quantity, subType := subType)), otherToNumber, showNum).value.carbonSavedKg
  {
    assert TakesAiPath(b.(quantity := quantity, subType := subType));
  }

  /** "I planted 3 trees" with `useAI` estimates three trees. */
  lemma PlantedThreeTrees(quantity: JsVal, otherToNumber: JsVal -> Option<real>, showNum: real -> string)
    ensures Estimate(Some(EstimateBody(JStr("tree-planting"), quantity, JUndefined, JStr("planted 3 trees"), JBool(true))),
                     otherToNumber, showNum)
              == Success(EstimateResponse(Some(3.0 * 21.77),
                   Calculation(JStr("tree-planting"), QuantityOrOne(quantity),
                               CarbonFactors.fields["tree-planting"], AiMethod)))
  {
    var body := EstimateBody(JStr("tree-planting"), quantity, JUndefined, JStr("planted 3 trees"), JBool(true));
    assert TakesAiPath(body);
    ThreeIsRead();
  }

  /** The number read from "planted 3 trees" is 3. */
  lemma ThreeIsRead()
    ensures FirstNumber("planted 3 trees") == Some(3)
  {
    var d := "planted 3 trees";
    assert d == "planted " + "3" + " trees";
    assert DecimalString(3) == "3";
    FirstNumberSkips("planted ", "3" + " trees");
    assert "planted " + ("3" + " trees") == d;
    FirstNumberReads(3, " trees");
  }
}
