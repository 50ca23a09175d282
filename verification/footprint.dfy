/**
 * The footprint page: each plant's name is looked up, case-insensitively, in
 * a CO2 table and, independently, in a water table; matched CO2 values are
 * summed in grams (x 1000), water values unscaled; car-mile and tree
 * equivalents divide the CO2 total by fixed constants; and the totals are
 * published to browser storage only when both are non-zero.
 */
module Footprint {
  import opened Wrappers
  import opened Types
  import opened Text

  /** CO2 grams emitted per mile by an average car. */
  const GramsPerMile: real := 404.0

  /** CO2 grams absorbed by an average tree per year, as this page states it. */
  const GramsPerTree: real := 24629.0

  /** The table's CO2 values are scaled by this to give grams. */
  const GramsPerKilogram: real := 1000.0

  /** A reference-table row: an optional plant name and its saved amount. */
  datatype TableEntry = TableEntry(plant: Option<string>, amount: real)

  /** `item.Plant?.toLowerCase() === plantName.toLowerCase()`; a row without a name never matches. */
  predicate Matches(e: TableEntry, name: string) {
    e.plant.Some? && Lower(e.plant.value) == Lower(name)
  }

  /** `getCO2ForPlant` / `getWaterForPlant`: the amount of the first matching row, or null. */
  function Lookup(table: seq<TableEntry>, name: string): Option<real> {
    if |table| == 0 then None
    else if Matches(table[0], name) then Some(table[0].amount)
    else Lookup(table[1..], name)
  }

  /** `table[i]` is the first row that matches `name`. */
  predicate FirstMatchAt(table: seq<TableEntry>, name: string, i: int) {
    0 <= i < |table| && Matches(table[i], name) && forall j :: 0 <= j < i ==> !Matches(table[j], name)
  }

  /** The lookup is null exactly when no row matches, and otherwise yields the first matching row's amount. */
  lemma {:induction false} LookupFindsFirstMatch(table: seq<TableEntry>, name: string)
    ensures Lookup(table, name).None? <==> forall i :: 0 <= i < |table| ==> !Matches(table[i], name)
    ensures Lookup(table, name).Some? ==>
              exists i :: FirstMatchAt(table, name, i) && table[i].amount == Lookup(table, name).value
  {
    if |table| > 0 {
      if Matches(table[0], name) {
        assert FirstMatchAt(table, name, 0);
      } else {
        LookupFindsFirstMatch(table[1..], name);
        assert forall i :: 1 <= i < |table| ==> table[i] == table[1..][i - 1];
        if Lookup(table, name).Some? {
          var k :| FirstMatchAt(table[1..], name, k) && table[1..][k].amount == Lookup(table, name).value;
          forall j | 0 <= j < k + 1 ensures !Matches(table[j], name) {
            if j > 0 { assert table[j] == table[1..][j - 1]; }
          }
          assert FirstMatchAt(table, name, k + 1);
        }
      }
    }
  }

  /** Names that agree after lower-casing get the same lookup result. */
  lemma {:induction false} LookupIgnoresCase(table: seq<TableEntry>, a: string, b: string)
    requires Lower(a) == Lower(b)
    ensures Lookup(table, a) == Lookup(table, b)
  {
    if |table| > 0 {
      assert Matches(table[0], a) == Matches(table[0], b);
      LookupIgnoresCase(table[1..], a, b);
    }
  }

  /** A plant with the amount its name matched. */
  datatype MatchedPlant = MatchedPlant(plant: Plant, amount: real)

  /** `co2Plants` / `waterFootprintPlants`: the plants that match, in registry order, with their amounts. */
  function MatchPlants(plants: seq<Plant>, table: seq<TableEntry>): (r: seq<MatchedPlant>)
    ensures |r| <= |plants|
    ensures forall i :: 0 <= i < |r| ==> Lookup(table, r[i].plant.name) == Some(r[i].amount)
    ensures forall i :: 0 <= i < |plants| && Lookup(table, plants[i].name).Some? ==>
              MatchedPlant(plants[i], Lookup(table, plants[i].name).value) in r
  {
    if |plants| == 0 then []
    else
      var rest := MatchPlants(plants[1..], table);
      assert forall p :: p in plants ==> p == plants[0] || p in plants[1..];
      match Lookup(table, plants[0].name)
      case Some(v) => [MatchedPlant(plants[0], v)] + rest
      case None => rest
  }

  /** Every matched entry is a plant of the registry. */
  lemma {:induction false} MatchedFromRegistry(plants: seq<Plant>, table: seq<TableEntry>)
    ensures forall m :: m in MatchPlants(plants, table) ==> m.plant in plants
  {
    if |plants| > 0 {
      MatchedFromRegistry(plants[1..], table);
      assert forall p :: p in plants[1..] ==> p in plants;
    }
  }

  /** A plant whose name matches is among the matched plants, with the amount it matched. */
  lemma MatchedPlantAt(plants: seq<Plant>, table: seq<TableEntry>, k: int)
    requires 0 <= k < |plants| && Lookup(table, plants[k].name).Some?
    ensures MatchedPlant(plants[k], Lookup(table, plants[k].name).value) in MatchPlants(plants, table)
  {
  }

  /** Matching distributes over concatenation, so registry order is kept. */
  lemma {:induction false} MatchPlantsAppend(a: seq<Plant>, b: seq<Plant>, table: seq<TableEntry>)
    ensures MatchPlants(a + b, table) == MatchPlants(a, table) + MatchPlants(b, table)
  {
    if |a| == 0 {
      assert a + b == b;
    } else {
      assert (a + b)[0] == a[0];
      assert (a + b)[1..] == a[1..] + b;
      MatchPlantsAppend(a[1..], b, table);
    }
  }

  /** `reduce((sum, p) => sum + p.amount * scale, 0)` over matched plants. */
  function SumScaled(ms: seq<MatchedPlant>, scale: real): real {
    if |ms| == 0 then 0.0 else ms[0].amount * scale + SumScaled(ms[1..], scale)
  }

  /** One plant's share of a total: its scaled amount, or zero when unmatched. */
  function Contribution(table: seq<TableEntry>, p: Plant, scale: real): real {
    match Lookup(table, p.name)
    case Some(v) => v * scale
    case None => 0.0
  }

  /** The total as a sum over the whole registry. */
  function SumContributions(plants: seq<Plant>, table: seq<TableEntry>, scale: real): real {
    if |plants| == 0 then 0.0 else Contribution(table, plants[0], scale) + SumContributions(plants[1..], table, scale)
  }

  /** `totalCO2`: matched CO2 amounts in grams. */
  function TotalCO2(plants: seq<Plant>, co2Table: seq<TableEntry>): real {
    SumScaled(MatchPlants(plants, co2Table), GramsPerKilogram)
  }

  /** `totalWaterUse`: matched water amounts, unscaled. */
  function TotalWater(plants: seq<Plant>, waterTable: seq<TableEntry>): real {
    SumScaled(MatchPlants(plants, waterTable), 1.0)
  }

  lemma {:induction false} SumScaledIsContributions(plants: seq<Plant>, table: seq<TableEntry>, scale: real)
    ensures SumScaled(MatchPlants(plants, table), scale) == SumContributions(plants, table, scale)
  {
    if |plants| > 0 {
      SumScaledIsContributions(plants[1..], table, scale);
    }
  }

  /** The CO2 total is the sum over all plants of amount x 1000, unmatched plants adding nothing. */
  lemma TotalCO2OverRegistry(plants: seq<Plant>, co2Table: seq<TableEntry>)
    ensures TotalCO2(plants, co2Table) == SumContributions(plants, co2Table, GramsPerKilogram)
  {
    SumScaledIsContributions(plants, co2Table, GramsPerKilogram);
  }

  /** The water total is the unscaled sum over all plants, unmatched plants adding nothing. */
  lemma TotalWaterOverRegistry(plants: seq<Plant>, waterTable: seq<TableEntry>)
    ensures TotalWater(plants, waterTable) == SumContributions(plants, waterTable, 1.0)
  {
    SumScaledIsContributions(plants, waterTable, 1.0);
  }

  lemma {:induction false} SumScaledAppend(a: seq<MatchedPlant>, b: seq<MatchedPlant>, scale: real)
    ensures SumScaled(a + b, scale) == SumScaled(a, scale) + SumScaled(b, scale)
  {
    if |a| == 0 {
      assert a + b == b;
    } else {
      assert (a + b)[1..] == a[1..] + b;
      SumScaledAppend(a[1..], b, scale);
    }
  }

  /** Adding a plant with no CO2 match leaves the CO2 total unchanged. */
  lemma UnmatchedAddsNothing(plants: seq<Plant>, p: Plant, co2Table: seq<TableEntry>)
    requires Lookup(co2Table, p.name).None?
    ensures TotalCO2(plants + [p], co2Table) == TotalCO2(plants, co2Table)
  {
    MatchPlantsAppend(plants, [p], co2Table);
    assert MatchPlants([p], co2Table) == [];
    assert MatchPlants(plants, co2Table) + [] == MatchPlants(plants, co2Table);
  }

  /** Adding a plant with a CO2 match adds its amount x 1000 to the total. */
  lemma MatchedAddsGrams(plants: seq<Plant>, p: Plant, co2Table: seq<TableEntry>)
    requires Lookup(co2Table, p.name).Some?
    ensures TotalCO2(plants + [p], co2Table) == TotalCO2(plants, co2Table) + Lookup(co2Table, p.name).value * 1000.0
  {
    MatchPlantsAppend(plants, [p], co2Table);
    var single := MatchPlants([p], co2Table);
    assert single == [MatchedPlant(p, Lookup(co2Table, p.name).value)];
    SumScaledAppend(MatchPlants(plants, co2Table), single, GramsPerKilogram);
  }

  /** Both totals of the page. */
  datatype Totals = Totals(co2Grams: real, water: real)

  function PageTotals(plants: seq<Plant>, co2Table: seq<TableEntry>, waterTable: seq<TableEntry>): Totals {
    Totals(TotalCO2(plants, co2Table), TotalWater(plants, waterTable))
  }

  /** The browser-storage keys `totalCO2` and `totalWater`. */
  datatype Storage = Storage(totalCO2: Option<real>, totalWater: Option<real>)

  /** Write both totals, but only when both are non-zero; otherwise storage is untouched. */
  function Publish(store: Storage, totals: Totals): (r: Storage)
    ensures r.totalCO2 != store.totalCO2 || r.totalWater != store.totalWater ==>
              totals.co2Grams != 0.0 && totals.water != 0.0
    ensures totals.co2Grams != 0.0 && totals.water != 0.0 ==>
              r.totalCO2 == Some(totals.co2Grams) && r.totalWater == Some(totals.water)
  {
    if totals.co2Grams != 0.0 && totals.water != 0.0 then
      Storage(Some(totals.co2Grams), Some(totals.water))
    else store
  }

  /** Publishing the same totals twice is publishing them once. */
  lemma PublishIdempotent(store: Storage, totals: Totals)
    ensures Publish(Publish(store, totals), totals) == Publish(store, totals)
  {
  }

  /** No plant matching the table means nothing to add up. */
  lemma {:induction false} NoMatchesNoTotal(plants: seq<Plant>, table: seq<TableEntry>, scale: real)
    requires forall i :: 0 <= i < |plants| ==> Lookup(table, plants[i].name).None?
    ensures SumScaled(MatchPlants(plants, table), scale) == 0.0
  {
    var ms := MatchPlants(plants, table);
    if |ms| > 0 {
      MatchedFromRegistry(plants, table);
      assert false;
    }
  }

  /**
   * The page's effect: compute both totals from the registry and publish
   * them. A registry none of whose plants the CO2 table knows leaves storage
   * as it was.
   */
  function PublishPage(store: Storage, plants: seq<Plant>, co2Table: seq<TableEntry>, waterTable: seq<TableEntry>): (r: Storage)
    ensures r != store ==> TotalCO2(plants, co2Table) != 0.0 && TotalWater(plants, waterTable) != 0.0
    ensures TotalCO2(plants, co2Table) != 0.0 && TotalWater(plants, waterTable) != 0.0 ==>
              r.totalCO2 == Some(TotalCO2(plants, co2Table)) && r.totalWater == Some(TotalWater(plants, waterTable))
    ensures (forall i :: 0 <= i < |plants| ==> Lookup(co2Table, plants[i].name).None?) ==> r == store
  {
    var totals := PageTotals(plants, co2Table, waterTable);
    if forall i :: 0 <= i < |plants| ==> Lookup(co2Table, plants[i].name).None? then
      NoMatchesNoTotal(plants, co2Table, GramsPerKilogram);
      Publish(store, totals)
    else Publish(store, totals)
  }

  /** `totalCO2 / gramsPerMile`. */
  function CarMiles(co2Grams: real): (miles: real)
    ensures miles * GramsPerMile == co2Grams
  {
    co2Grams / GramsPerMile
  }

  /** `totalCO2 / gramsPerTree`. */
  function Trees(co2Grams: real): (trees: real)
    ensures trees * GramsPerTree == co2Grams
  {
    co2Grams / GramsPerTree
  }

  /** A plant card: shown for CO2 matches, with the water amount when there is one. */
  datatype Card = Card(id: string, name: string, co2Grams: real, water: Option<real>)

  /** The per-plant cards, one for each plant with a CO2 match, in registry order. */
  function Cards(plants: seq<Plant>, co2Table: seq<TableEntry>, waterTable: seq<TableEntry>): (r: seq<Card>)
    ensures |r| == |MatchPlants(plants, co2Table)|
    ensures forall i :: 0 <= i < |r| ==>
              var mp := MatchPlants(plants, co2Table)[i];
              r[i] == Card(mp.plant.id, mp.plant.name, mp.amount * GramsPerKilogram, Lookup(waterTable, mp.plant.name))
  {
    if |plants| == 0 then []
    else
      var rest := Cards(plants[1..], co2Table, waterTable);
      match Lookup(co2Table, plants[0].name)
      case Some(v) =>
        [Card(plants[0].id, plants[0].name, v * GramsPerKilogram, Lookup(waterTable, plants[0].name))] + rest
      case None => rest
  }

  /** Water matching is independent of CO2 matching: a plant can be in one list and not the other. */
  lemma MatchingIsIndependent()
    ensures var tomato := Plant("4", "Tomato", "Solanum lycopersicum", "Home Office", "", "", "", None, None, 95.0);
            var co2Table := [TableEntry(Some("tomato"), 2.0)];
            && MatchPlants([tomato], co2Table) == [MatchedPlant(tomato, 2.0)]
            && MatchPlants([tomato], []) == []
            && TotalCO2([tomato], co2Table) == 2000.0
            && TotalWater([tomato], []) == 0.0
  {
    var tomato := Plant("4", "Tomato", "Solanum lycopersicum", "Home Office", "", "", "", None, None, 95.0);
    assert Lower("Tomato") == "tomato";
    assert Lower("tomato") == "tomato";
  }
}
