/**
 * The plant registry endpoint: an in-memory list threaded through the
 * handler. GET lists it; POST validates the body's name, species and
 * location, stamps a fresh id (an input here, standing for the uuid
 * generator) over any id in the body and appends; other methods get 405.
 */
module PlantsApi {
  import opened Wrappers
  import opened Types

  /** A POST body. The three validated fields and the id may be missing; the rest are taken as sent. */
  datatype Draft = Draft(
    id: Option<string>,
    name: Option<string>,
    species: Option<string>,
    location: Option<string>,
    imageUrl: string,
    dateAdded: string,
    lastWatered: string,
    description: Option<string>,
    sensorId: Option<string>,
    carbonSavings: real)

  /** What a reply carries: the whole list, or one plant. */
  datatype Payload = PlantList(plants: seq<Plant>) | OnePlant(plant: Plant)

  /** A reply together with the registry after the request. */
  datatype Outcome = Outcome(reply: Reply<Payload>, registry: seq<Plant>)

  const MissingFieldsMessage: string := "Missing required fields: name, species, and location are required"

  /** The registry the server starts with. The long descriptions are written in pieces, which keeps proofs about the seed small. */
  function Seed(): seq<Plant> {
    [
      Plant("1", "Monstera Deliciosa", "Monstera deliciosa", "Living Room", "/images/default-plant.svg",
            "2023-01-15T12:00:00Z", "2023-05-10T08:30:00Z",
            Some("Also known as the Swiss " + "Cheese Plant, featuring " + "large, heart-shaped " + "leaves with distinctive " + "splits and holes."),
            Some("sensor-001"), 120.0),
      Plant("2", "Peace Lily", "Spathiphyllum wallisii", "Bedroom", "/images/default-plant.svg",
            "2023-02-20T15:30:00Z", "2023-05-12T09:15:00Z",
            Some("An elegant plant with " + "glossy leaves and white " + "flowers, known for its " + "air-purifying qualities."),
            Some("sensor-002"), 85.0),
      Plant("3", "Snake Plant", "Sansevieria trifasciata", "Home Office", "/images/default-plant.svg",
            "2023-03-05T10:15:00Z", "2023-05-08T18:00:00Z",
            Some("A hardy, " + "drought-resistant " + "succulent with tall, " + "stiff leaves. Excellent " + "for beginners."),
            None, 95.0),
      Plant("4", "Tomato", "Solanum lycopersicum", "Home Office", "/images/default-plant.svg",
            "2023-03-05T10:15:00Z", "2023-05-08T18:00:00Z", Some("..."), None, 95.0)
    ]
  }

  /** The seed registry holds four plants with the distinct ids "1" to "4". */
  lemma SeedIdsDistinct()
    ensures |Seed()| == 4 && UniqueIds(Seed())
    ensures forall i :: 0 <= i < 4 ==> Seed()[i].id == ["1", "2", "3", "4"][i]
  {
  }

  /** JavaScript truthiness of an optional string: present and non-empty. */
  predicate Present(field: Option<string>) {
    field.Some? && field.value != ""
  }

  /** `!newPlant.name || !newPlant.species || !newPlant.location` fails. */
  predicate HasRequiredFields(d: Draft) {
    Present(d.name) && Present(d.species) && Present(d.location)
  }

  /** `{ ...req.body, id: uuidv4() }`: the body's fields with the fresh id in place of any sent one. */
  function Stored(d: Draft, freshId: string): (p: Plant)
    requires HasRequiredFields(d)
    ensures p.id == freshId
    ensures Some(p.name) == d.name && Some(p.species) == d.species && Some(p.location) == d.location
    ensures p.imageUrl == d.imageUrl && p.dateAdded == d.dateAdded && p.lastWatered == d.lastWatered
    ensures p.description == d.description && p.sensorId == d.sensorId && p.carbonSavings == d.carbonSavings
  {
    Plant(freshId, d.name.value, d.species.value, d.location.value, d.imageUrl, d.dateAdded,
          d.lastWatered, d.description, d.sensorId, d.carbonSavings)
  }

  /** `handleGetPlants`: the registry, unchanged, with status 200. */
  function HandleGetPlants(registry: seq<Plant>): (out: Outcome)
    ensures out.registry == registry
    ensures out.reply == Ok(200, PlantList(registry))
  {
    Outcome(Ok(200, PlantList(registry)), registry)
  }

  /** `handleAddPlant`: 400 and no change for a body missing a required field, otherwise append and 201. */
  function HandleAddPlant(registry: seq<Plant>, body: Draft, freshId: string): (out: Outcome)
    ensures !HasRequiredFields(body) <==> out.reply.status == 400
    ensures !HasRequiredFields(body) ==>
              out.registry == registry && out.reply == Fail(400, MissingFieldsMessage)
    ensures HasRequiredFields(body) ==>
              && |out.registry| == |registry| + 1
              && out.registry[..|registry|] == registry
              && out.registry[|registry|] == Stored(body, freshId)
              && out.reply == Ok(201, OnePlant(out.registry[|registry|]))
  {
    if !HasRequiredFields(body) then Outcome(Fail(400, MissingFieldsMessage), registry)
    else
      var plant := Stored(body, freshId);
      Outcome(Ok(201, OnePlant(plant)), registry + [plant])
  }

  /** The `handler`: dispatch on the method; anything but GET or POST gets 405 and no change. */
  function Handle(httpMethod: string, registry: seq<Plant>, body: Draft, freshId: string): (out: Outcome)
    ensures httpMethod != "POST" ==> out.registry == registry
    ensures httpMethod != "GET" && httpMethod != "POST" ==>
              out.reply == Fail(405, "Method " + httpMethod + " Not Allowed")
    ensures out.reply.status in {200, 201, 400, 405}
  {
    if httpMethod == "GET" then HandleGetPlants(registry)
    else if httpMethod == "POST" then HandleAddPlant(registry, body, freshId)
    else Outcome(Fail(405, "Method " + httpMethod + " Not Allowed"), registry)
  }

  /** With a fresh id not yet in use, ids stay unique across any request. */
  lemma AddKeepsIdsUnique(httpMethod: string, registry: seq<Plant>, body: Draft, freshId: string)
    requires UniqueIds(registry) && !HasId(registry, freshId)
    ensures UniqueIds(Handle(httpMethod, registry, body, freshId).registry)
  {
    var after := Handle(httpMethod, registry, body, freshId).registry;
    if httpMethod == "POST" && HasRequiredFields(body) {
      forall i, j | 0 <= i < j < |after| ensures after[i].id != after[j].id {
        if j == |registry| {
          assert after[i] == registry[i];
        } else {
          assert after[i] == registry[i] && after[j] == registry[j];
        }
      }
    }
  }

  /** The first plant found under an id nobody had is the one appended with it. */
  lemma {:induction false} FindAppendedFresh(ps: seq<Plant>, p: Plant, id: string)
    requires !HasId(ps, id) && p.id == id
    ensures FindById(ps + [p], id) == Some(p)
    decreases |ps|
  {
    if |ps| > 0 {
      assert ps[0].id != id;
      assert !HasId(ps[1..], id) by {
        forall i | 0 <= i < |ps[1..]| ensures ps[1..][i].id != id {
          assert ps[1..][i] == ps[i + 1];
        }
      }
      FindAppendedFresh(ps[1..], p, id);
      assert (ps + [p])[1..] == ps[1..] + [p];
    }
  }

  /** A successful POST grows the registry by exactly one plant, found under the fresh id. */
  lemma SuccessfulPostAddsOne(registry: seq<Plant>, body: Draft, freshId: string)
    requires !HasId(registry, freshId)
    requires Handle("POST", registry, body, freshId).reply.status == 201
    ensures var after := Handle("POST", registry, body, freshId).registry;
            |after| == |registry| + 1 && FindById(after, freshId) == Some(Stored(body, freshId))
  {
    assert HasRequiredFields(body);
    FindAppendedFresh(registry, Stored(body, freshId), freshId);
  }
}
