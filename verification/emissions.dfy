/**
 * The emissions page: the same case-insensitive first-match CO2 lookup and
 * gram total as the footprint page, and one card per matched plant.
 */
module Emissions {
  import opened Wrappers
  import opened Types
  import opened Text
  import opened Footprint

  /** A per-plant card showing the CO2 saved in grams. */
  datatype EmissionCard = EmissionCard(id: string, name: string, co2Grams: real)

  /** One card per matched plant, showing its amount in grams. */
  function CardsOf(ms: seq<MatchedPlant>): (r: seq<EmissionCard>)
    ensures |r| == |ms|
    ensures forall i :: 0 <= i < |ms| ==>
              r[i] == EmissionCard(ms[i].plant.id, ms[i].plant.name, ms[i].amount * GramsPerKilogram)
  {
    if |ms| == 0 then []
    else [EmissionCard(ms[0].plant.id, ms[0].plant.name, ms[0].amount * GramsPerKilogram)] + CardsOf(ms[1..])
  }

  /** The cards, one for each plant with a CO2 match, in registry order; unmatched plants are skipped. */
  function EmissionCards(plants: seq<Plant>, co2Table: seq<TableEntry>): seq<EmissionCard> {
    CardsOf(MatchPlants(plants, co2Table))
  }

  /** Every card names a matching plant and shows that plant's amount x 1000 grams. */
  lemma CardsShowMatchedGrams(plants: seq<Plant>, co2Table: seq<TableEntry>)
    ensures forall c :: c in EmissionCards(plants, co2Table) ==>
              Lookup(co2Table, c.name).Some? && c.co2Grams == Lookup(co2Table, c.name).value * 1000.0
  {
    var ms := MatchPlants(plants, co2Table);
    forall c | c in EmissionCards(plants, co2Table)
      ensures Lookup(co2Table, c.name).Some? && c.co2Grams == Lookup(co2Table, c.name).value * 1000.0
    {
      var i :| 0 <= i < |ms| && CardsOf(ms)[i] == c;
      assert Lookup(co2Table, ms[i].plant.name) == Some(ms[i].amount);
    }
  }

  /** Grams shown on a list of cards, added up. */
  function CardGrams(cards: seq<EmissionCard>): real {
    if |cards| == 0 then 0.0 else cards[0].co2Grams + CardGrams(cards[1..])
  }

  /** The cards add up to the total the page shows, which is the footprint page's total. */
  lemma {:induction false} CardsAddUpToTotal(plants: seq<Plant>, co2Table: seq<TableEntry>)
    ensures CardGrams(EmissionCards(plants, co2Table)) == TotalCO2(plants, co2Table)
  {
    if |plants| > 0 {
      CardsAddUpToTotal(plants[1..], co2Table);
    }
  }

  /** The card of a matched plant is among the cards. */
  lemma CardsOfMember(ms: seq<MatchedPlant>, mp: MatchedPlant)
    requires mp in ms
    ensures EmissionCard(mp.plant.id, mp.plant.name, mp.amount * GramsPerKilogram) in CardsOf(ms)
  {
    var i :| 0 <= i < |ms| && ms[i] == mp;
    assert CardsOf(ms)[i] == EmissionCard(mp.plant.id, mp.plant.name, mp.amount * GramsPerKilogram);
  }

  /** A plant whose name matches gets a card showing its amount in grams. */
  lemma CardForMatch(plants: seq<Plant>, co2Table: seq<TableEntry>, k: int)
    requires 0 <= k < |plants| && Lookup(co2Table, plants[k].name).Some?
    ensures var p := plants[k];
            EmissionCard(p.id, p.name, Lookup(co2Table, p.name).value * 1000.0) in EmissionCards(plants, co2Table)
  {
    var mp := MatchedPlant(plants[k], Lookup(co2Table, plants[k].name).value);
    MatchedPlantAt(plants, co2Table, k);
    CardsOfMember(MatchPlants(plants, co2Table), mp);
  }

  /** A plant whose name does not match is skipped: no card carries a name equal to it up to case. */
  lemma NoCardForUnmatched(plants: seq<Plant>, co2Table: seq<TableEntry>, name: string)
    requires Lookup(co2Table, name).None?
    ensures forall c :: c in EmissionCards(plants, co2Table) ==> Lower(c.name) != Lower(name)
  {
    CardsShowMatchedGrams(plants, co2Table);
    forall c | c in EmissionCards(plants, co2Table) ensures Lower(c.name) != Lower(name) {
      if Lower(c.name) == Lower(name) {
        LookupIgnoresCase(co2Table, c.name, name);
      }
    }
  }
}
