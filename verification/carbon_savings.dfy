/**
 * The carbon-savings endpoint: one plant's stored `carbonSavings` when a
 * plant id is given, the sum over all plants otherwise, converted into car
 * miles, trees and a daily rate. Its tree constant (21000 g) is not the
 * footprint page's (24629 g); both are kept as written.
 */
module CarbonSavingsApi {
  import opened Wrappers
  import opened Types
  import Footprint

  /** CO2 grams emitted per mile by an average car. */
  const GramsPerMile: real := 404.0

  /** CO2 grams absorbed by an average tree per year, as this endpoint states it. */
  const GramsPerTree: real := 21000.0

  /** The amount is taken to accrue over one year. */
  const DaysPerYear: real := 365.0

  /** `calculateCarbonSavings`: the linear conversions of a gram amount. */
  function CalculateCarbonSavings(co2Grams: real): (r: CarbonSavings)
    ensures r.co2Saved == co2Grams
    ensures r.equivalentCarMiles * GramsPerMile == co2Grams
    ensures r.treesEquivalent * GramsPerTree == co2Grams
    ensures r.dailyRate * DaysPerYear == co2Grams
  {
    CarbonSavings(co2Grams, co2Grams / GramsPerMile, co2Grams / GramsPerTree, co2Grams / DaysPerYear)
  }

  /** The conversions are linear: they add up, map zero to zero, and keep signs. */
  lemma CalculationIsLinear(a: real, b: real)
    ensures var s, x, y := CalculateCarbonSavings(a + b), CalculateCarbonSavings(a), CalculateCarbonSavings(b);
            && s.co2Saved == x.co2Saved + y.co2Saved
            && s.equivalentCarMiles == x.equivalentCarMiles + y.equivalentCarMiles
            && s.treesEquivalent == x.treesEquivalent + y.treesEquivalent
            && s.dailyRate == x.dailyRate + y.dailyRate
    ensures CalculateCarbonSavings(0.0) == CarbonSavings(0.0, 0.0, 0.0, 0.0)
    ensures a >= 0.0 ==> var x := CalculateCarbonSavings(a);
              x.equivalentCarMiles >= 0.0 && x.treesEquivalent >= 0.0 && x.dailyRate >= 0.0
  {
  }

  /** For the same positive amount this endpoint reports more trees than the footprint page. */
  lemma TreeConstantsDisagree(co2Grams: real)
    requires co2Grams > 0.0
    ensures Footprint.Trees(co2Grams) < CalculateCarbonSavings(co2Grams).treesEquivalent
  {
  }

  /** `plants.reduce((total, p) => total + p.carbonSavings, 0)`. */
  function TotalCarbonSavings(plants: seq<Plant>): real {
    if |plants| == 0 then 0.0 else plants[0].carbonSavings + TotalCarbonSavings(plants[1..])
  }

  lemma {:induction false} TotalAppend(a: seq<Plant>, b: seq<Plant>)
    ensures TotalCarbonSavings(a + b) == TotalCarbonSavings(a) + TotalCarbonSavings(b)
  {
    if |a| == 0 {
      assert a + b == b;
    } else {
      assert (a + b)[1..] == a[1..] + b;
      TotalAppend(a[1..], b);
    }
  }

  /** Field-wise sum of two summaries. */
  function AddSavings(x: CarbonSavings, y: CarbonSavings): CarbonSavings {
    CarbonSavings(x.co2Saved + y.co2Saved, x.equivalentCarMiles + y.equivalentCarMiles,
                  x.treesEquivalent + y.treesEquivalent, x.dailyRate + y.dailyRate)
  }

  /** Each plant's own summary, added up field by field. */
  function SumOfPlantSummaries(plants: seq<Plant>): CarbonSavings {
    if |plants| == 0 then CarbonSavings(0.0, 0.0, 0.0, 0.0)
    else AddSavings(CalculateCarbonSavings(plants[0].carbonSavings), SumOfPlantSummaries(plants[1..]))
  }

  /** The all-plants summary equals the per-plant summaries added up. */
  lemma {:induction false} TotalIsSumOfPlants(plants: seq<Plant>)
    ensures CalculateCarbonSavings(TotalCarbonSavings(plants)) == SumOfPlantSummaries(plants)
  {
    if |plants| > 0 {
      TotalIsSumOfPlants(plants[1..]);
      CalculationIsLinear(plants[0].carbonSavings, TotalCarbonSavings(plants[1..]));
    }
  }

  /** The `plantId` query parameter: absent, one string, or repeated. */
  datatype Query = Absent | Single(value: string) | Repeated(values: seq<string>)

  /** `plantId && typeof plantId === 'string'`: a non-empty single string selects one plant. */
  predicate SelectsPlant(q: Query) {
    q.Single? && q.value != ""
  }

  /** The `handler` with `handleGetCarbonSavings`. */
  function HandleCarbonSavings(httpMethod: string, plantId: Query, plants: seq<Plant>): (r: Reply<CarbonSavings>)
    ensures httpMethod != "GET" ==> r == Fail(405, "Method " + httpMethod + " Not Allowed")
    ensures httpMethod == "GET" && SelectsPlant(plantId) && !HasId(plants, plantId.value) ==>
              r == Fail(404, "Plant not found")
    ensures httpMethod == "GET" && SelectsPlant(plantId) && HasId(plants, plantId.value) ==>
              exists i :: 0 <= i < |plants| && plants[i].id == plantId.value
                          && (forall j :: 0 <= j < i ==> plants[j].id != plantId.value)
                          && r == Ok(200, CalculateCarbonSavings(plants[i].carbonSavings))
    ensures httpMethod == "GET" && !SelectsPlant(plantId) ==>
              r == Ok(200, CalculateCarbonSavings(TotalCarbonSavings(plants)))
  {
    if httpMethod != "GET" then Fail(405, "Method " + httpMethod + " Not Allowed")
    else if SelectsPlant(plantId) then
      match FindById(plants, plantId.value)
      case None => Fail(404, "Plant not found")
      case Some(p) => Ok(200, CalculateCarbonSavings(p.carbonSavings))
    else Ok(200, CalculateCarbonSavings(TotalCarbonSavings(plants)))
  }
}
