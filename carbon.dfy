/** lib/carbonEstimator.js: CO2 savings as quantity times a per-unit factor
    chosen by activity type (and, for recycling, by material), and the
    "AI" variant that reads the quantity out of a free-text description.
    The factors are exact decimals; the final rounding to hundredths is not
    modelled.  A result of None is NaN. */
module CarbonEstimator {
  import opened Wrappers
  import opened JsString
  import opened JsValue

  /** `CARBON_FACTORS`, as the object literal it is. */
  const CarbonFactors: JsVal := JObj(map[
    "tree-planting" := JObj(map["perTree" := JNum(21.77), "unit" := JStr("trees")]),
    "recycling" := JObj(map["plastic" := JNum(2.5), "paper" := JNum(3.5), "metal" := JNum(4.0), "unit" := JStr("kg")]),
    "cleanup" := JObj(map["perBag" := JNum(0.5), "unit" := JStr("bags")]),
    "biking" := JObj(map["perKm" := JNum(0.16), "unit" := JStr("km")]),
    "composting" := JObj(map["perKg" := JNum(0.8), "unit" := JStr("kg")])])

  /** The per-unit entries of the table. */
  lemma FactorTable()
    ensures Factor("tree-planting", "perTree") == JNum(21.77)
    ensures Factor("cleanup", "perBag") == JNum(0.5)
    ensures Factor("biking", "perKm") == JNum(0.16)
    ensures Factor("composting", "perKg") == JNum(0.8)
  {
    assert "tree-planting" in CarbonFactors.fields && "perTree" != "unit";
    assert "cleanup" in CarbonFactors.fields && "perBag" != "unit";
    assert "biking" in CarbonFactors.fields && "perKm" != "unit";
    assert "composting" in CarbonFactors.fields && "perKg" != "unit";
  }

  /** `quantity * v`: a non-number factor makes NaN. */
  function Times(quantity: real, v: JsVal): Option<real> {
    if v.JNum? then Some(quantity * v.n) else None
  }

  function Factor(activityType: string, key: string): JsVal {
    Get(Get(CarbonFactors, activityType), key)
  }

  /** `CARBON_FACTORS['recycling'][subType || 'plastic'] || 2.5`, as
      written: the lookup can also land on the `unit` entry, the string
      "kg". */
  function RecyclingFactorAsWritten(subType: Option<string>): JsVal {
    var v := Factor("recycling", OrElse(subType, "plastic"));
    if Truthy(v) then v else JNum(2.5)
  }

  /** The recycling factor as evidently intended: the material's factor, or
      2.5 for anything that is not a material. */
  function RecyclingFactor(subType: Option<string>): (f: real)
    ensures OrElse(subType, "plastic") == "plastic" ==> f == 2.5
    ensures OrElse(subType, "plastic") == "paper" ==> f == 3.5
    ensures OrElse(subType, "plastic") == "metal" ==> f == 4.0
    ensures OrElse(subType, "plastic") !in {"plastic", "paper", "metal"} ==> f == 2.5
  {
    var v := Factor("recycling", OrElse(subType, "plastic"));
    if v.JNum? && v.n != 0.0 then v.n else 2.5
  }

  /** The two factors agree except on the subtype `unit`. */
  lemma RecyclingFactorAgrees(subType: Option<string>)
    requires OrElse(subType, "plastic") != "unit"
    ensures RecyclingFactorAsWritten(subType) == JNum(RecyclingFactor(subType))
  {
  }

  /** `estimateCarbon(type, quantity, subType)` as written. */
  function EstimateCarbonAsWritten(activityType: Option<string>, quantity: real, subType: Option<string>): (r: Option<real>)
    ensures activityType != Some("recycling") ==> r == EstimateCarbon(activityType, quantity, subType)
    ensures activityType == Some("recycling") ==> (r.None? <==> OrElse(subType, "plastic") == "unit")
    ensures activityType == Some("recycling") && r.Some? ==> r == Some(quantity * RecyclingFactor(subType))
  {
    if activityType == Some("recycling") then Times(quantity, RecyclingFactorAsWritten(subType))
    else EstimateCarbon(activityType, quantity, subType)
  }

  /** As written, recycling with the subtype "unit" multiplies by "kg". */
  lemma UnitSubtypeIsNaN(quantity: real)
    ensures EstimateCarbonAsWritten(Some("recycling"), quantity, Some("unit")).None?
    ensures EstimateCarbon(Some("recycling"), quantity, Some("unit")) == Some(quantity * 2.5)
  {
  }

  /** Every other input gets the same estimate from both definitions. */
  lemma AsWrittenAgreesElsewhere(activityType: Option<string>, quantity: real, subType: Option<string>)
    requires !(activityType == Some("recycling") && OrElse(subType, "plastic") == "unit")
    ensures EstimateCarbonAsWritten(activityType, quantity, subType) == EstimateCarbon(activityType, quantity, subType)
  {
    if activityType == Some("recycling") {
      RecyclingFactorAgrees(subType);
    }
  }

  /** `estimateCarbon` with the recycling factor corrected: quantity times
      the type's factor, 1.0 for a type the table does not know. */
  function EstimateCarbon(activityType: Option<string>, quantity: real, subType: Option<string>): (r: Option<real>)
    ensures r.Some?
    ensures activityType == Some("tree-planting") ==> r == Some(quantity * 21.77)
    ensures activityType == Some("recycling") ==> r == Some(quantity * RecyclingFactor(subType))
    ensures activityType == Some("cleanup") ==> r == Some(quantity * 0.5)
    ensures activityType == Some("biking") ==> r == Some(quantity * 0.16)
    ensures activityType == Some("composting") ==> r == Some(quantity * 0.8)
    ensures activityType.None? || activityType.value !in KnownTypes ==> r == Some(quantity)
  {
    match activityType
    case Some("tree-planting") =>
      FactorTable();
      var f := Factor("tree-planting", "perTree");
      assert f.n == 21.77;
      Some(quantity * f.n)
    case Some("recycling") => Some(quantity * RecyclingFactor(subType))
    case Some("cleanup") =>
      FactorTable();
      var f := Factor("cleanup", "perBag");
      assert f.n == 0.5;
      Some(quantity * f.n)
    case Some("biking") =>
      FactorTable();
      var f := Factor("biking", "perKm");
      assert f.n == 0.16;
      Some(quantity * f.n)
    case Some("composting") =>
      FactorTable();
      var f := Factor("composting", "perKg");
      assert f.n == 0.8;
      Some(quantity * f.n)
    case _ => Some(quantity * 1.0)
  }

  const KnownTypes: set<string> := {"tree-planting", "recycling", "cleanup", "biking", "composting"}

  /** Quantity 0 saves nothing, whatever the type. */
  lemma ZeroQuantity(activityType: Option<string>, subType: Option<string>)
    ensures EstimateCarbon(activityType, 0.0, subType) == Some(0.0)
  {
  }

  /** The value of the first run of decimal digits in `s` (what
      `parseInt(s.match(/\d+/g)[0])` reads), or None when `s` has no digit. */
  function FirstNumber(s: string): (r: Option<nat>)
    ensures r.None? <==> forall k :: 0 <= k < |s| ==> !IsDecDigit(s[k])
  {
    if |s| == 0 then None
    else if IsDecDigit(s[0]) then
      var n := DigitPrefix(s, 10);
      Some(DigitsValue(s[..n], 10))
    else FirstNumber(s[1..])
  }

  /** Text without digits in front of the first number is skipped. */
  lemma {:induction false} FirstNumberSkips(p: string, s: string)
    requires forall k :: 0 <= k < |p| ==> !IsDecDigit(p[k])
    ensures FirstNumber(p + s) == FirstNumber(s)
  {
    if |p| > 0 {
      assert (p + s)[1..] == p[1..] + s;
      FirstNumberSkips(p[1..], s);
    } else {
      assert p + s == s;
    }
  }

  /** A numeral followed by a non-digit is read, and whatever follows is
      ignored: "planted 12 trees and 3 shrubs" reads 12. */
  lemma FirstNumberReads(n: nat, rest: string)
    requires |rest| == 0 || !IsDecDigit(rest[0])
    ensures FirstNumber(DecimalString(n) + rest) == Some(n)
  {
    var d := DecimalString(n);
    DigitPrefixOf(d, rest);
    assert (d + rest)[..|d|] == d;
    DecimalValue(n);
  }

  /** `estimateCarbonWithAI(description, type)`: the first number of the
      description as quantity (1 when it has none), and no subtype. */
  function EstimateCarbonWithAI(description: string, activityType: Option<string>): (r: Option<real>)
    ensures FirstNumber(description).None? ==> r == EstimateCarbon(activityType, 1.0, None)
    ensures FirstNumber(description).Some? ==>
              r == EstimateCarbon(activityType, FirstNumber(description).value as real, None)
  {
    var quantity := match FirstNumber(description) case Some(n) => n as real case None => 1.0;
    EstimateCarbon(activityType, quantity, None)
  }
}
