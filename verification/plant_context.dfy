/**
 * The client-side plant store: the list the pages render, a loading flag and
 * the last error. Each action takes the store and what the request brought
 * back (a decoded JSON envelope, or the message of an error thrown while
 * sending or decoding) and returns the new store and the action's boolean
 * result. Every action ends with `loading` false, as its `finally` block does.
 */
module PlantContext {
  import opened Wrappers
  import opened Types
  import PlantsApi

  /** The provider's state. */
  datatype State = State(plants: seq<Plant>, loading: bool, error: Option<string>)

  /** What a request yields: the decoded envelope, or a thrown error's message. */
  datatype Exchange<T> = Received(response: ApiResponse<T>) | Thrown(message: string)

  /** The store before the first fetch completes. */
  function Initial(): (s: State)
    ensures s.plants == [] && s.loading && s.error.None?
  {
    State([], true, None)
  }

  /** `data.error || fallback`: the server's message unless it is absent or empty. */
  function ErrorText(error: Option<string>, fallback: string): (r: string)
    ensures error.Some? && error.value != "" ==> r == error.value
    ensures error.None? || error.value == "" ==> r == fallback
    ensures fallback != "" ==> r != ""
  {
    if error.Some? && error.value != "" then error.value else fallback
  }

  /** The message recorded when an exchange fails, with the action's fallback text. */
  function FailureMessage<T>(ex: Exchange<T>, fallback: string): string
    requires !(ex.Received? && ex.response.success)
  {
    match ex
    case Received(resp) => ErrorText(resp.error, fallback)
    case Thrown(m) => m
  }

  predicate Succeeded<T>(ex: Exchange<T>) {
    ex.Received? && ex.response.success
  }

  /** `fetchPlants`: replace the list and clear the error on success; keep the list and record the error otherwise. */
  function FetchPlants(s: State, ex: Exchange<seq<Plant>>): (t: State)
    ensures !t.loading
    ensures Succeeded(ex) ==> t.plants == ex.response.data.GetOr([]) && t.error.None?
    ensures !Succeeded(ex) ==> t.plants == s.plants && t.error.Some?
    ensures ex.Received? && !ex.response.success ==>
              t.error == Some(ErrorText(ex.response.error, "Failed to fetch plants"))
  {
    if Succeeded(ex) then State(ex.response.data.GetOr([]), false, None)
    else State(s.plants, false, Some(FailureMessage(ex, "Failed to fetch plants")))
  }

  /** `addPlant`: append the stored plant the server returns. A success leaves an earlier error in place. */
  function AddPlant(s: State, ex: Exchange<Plant>): (out: (State, bool))
    ensures !out.0.loading
    ensures out.1 <==> Succeeded(ex)
    ensures Succeeded(ex) ==> out.0.error == s.error
    ensures Succeeded(ex) && ex.response.data.Some? ==> out.0.plants == s.plants + [ex.response.data.value]
    ensures Succeeded(ex) && ex.response.data.None? ==> out.0.plants == s.plants
    ensures !Succeeded(ex) ==> out.0.plants == s.plants && out.0.error.Some?
    ensures ex.Received? && !ex.response.success ==>
              out.0.error == Some(ErrorText(ex.response.error, "Failed to add plant"))
  {
    if Succeeded(ex) then
      var plants := if ex.response.data.Some? then s.plants + [ex.response.data.value] else s.plants;
      (State(plants, false, s.error), true)
    else (State(s.plants, false, Some(FailureMessage(ex, "Failed to add plant"))), false)
  }

  /**
   * `{ ...plant, ...data.data }`: the returned plant's fields over the stored
   * ones. Only the optional fields can be missing from the returned object,
   * and where one is missing the stored value survives.
   */
  function Merge(stored: Plant, returned: Plant): (m: Plant)
    ensures m.id == returned.id && m.name == returned.name && m.species == returned.species
    ensures m.location == returned.location && m.carbonSavings == returned.carbonSavings
    ensures m.imageUrl == returned.imageUrl && m.dateAdded == returned.dateAdded && m.lastWatered == returned.lastWatered
    ensures m.description == (if returned.description.Some? then returned.description else stored.description)
    ensures m.sensorId == (if returned.sensorId.Some? then returned.sensorId else stored.sensorId)
  {
    returned.(
      description := if returned.description.Some? then returned.description else stored.description,
      sensorId := if returned.sensorId.Some? then returned.sensorId else stored.sensorId)
  }

  /** `prev.map(plant => plant.id === id ? merged : plant)`. */
  function UpdateAt(ps: seq<Plant>, id: string, returned: Plant): (r: seq<Plant>)
    ensures |r| == |ps|
    ensures forall i :: 0 <= i < |ps| && ps[i].id != id ==> r[i] == ps[i]
    ensures forall i :: 0 <= i < |ps| && ps[i].id == id ==> r[i] == Merge(ps[i], returned)
  {
    seq(|ps|, i requires 0 <= i < |ps| => if ps[i].id == id then Merge(ps[i], returned) else ps[i])
  }

  /** `updatePlant`: merge the returned plant into every entry with that id. */
  function UpdatePlant(s: State, id: string, ex: Exchange<Plant>): (out: (State, bool))
    ensures !out.0.loading
    ensures out.1 <==> Succeeded(ex)
    ensures Succeeded(ex) ==> out.0.error == s.error
    ensures Succeeded(ex) && ex.response.data.Some? ==> out.0.plants == UpdateAt(s.plants, id, ex.response.data.value)
    ensures Succeeded(ex) && ex.response.data.None? ==> out.0.plants == s.plants
    ensures !Succeeded(ex) ==> out.0.plants == s.plants && out.0.error.Some?
    ensures ex.Received? && !ex.response.success ==>
              out.0.error == Some(ErrorText(ex.response.error, "Failed to update plant"))
  {
    if Succeeded(ex) then
      var plants := if ex.response.data.Some? then UpdateAt(s.plants, id, ex.response.data.value) else s.plants;
      (State(plants, false, s.error), true)
    else (State(s.plants, false, Some(FailureMessage(ex, "Failed to update plant"))), false)
  }

  /** `prev.filter(plant => plant.id !== id)`. */
  function RemoveId(ps: seq<Plant>, id: string): (r: seq<Plant>)
    ensures |r| <= |ps|
    ensures !HasId(r, id)
    ensures forall i :: 0 <= i < |r| ==> r[i] in ps
  {
    if |ps| == 0 then []
    else
      var rest := RemoveId(ps[1..], id);
      if ps[0].id == id then rest
      else
        var r := [ps[0]] + rest;
        assert !HasId(r, id) by {
          forall i | 0 <= i < |r| ensures r[i].id != id {
            if i > 0 { assert r[i] == rest[i - 1]; }
          }
        }
        r
  }

  /** `deletePlant`: on success drop every entry with that id, whatever the reply's data. */
  function DeletePlant<T>(s: State, id: string, ex: Exchange<T>): (out: (State, bool))
    ensures !out.0.loading
    ensures out.1 <==> Succeeded(ex)
    ensures Succeeded(ex) ==> out.0.error == s.error && out.0.plants == RemoveId(s.plants, id)
    ensures !Succeeded(ex) ==> out.0.plants == s.plants && out.0.error.Some?
    ensures ex.Received? && !ex.response.success ==>
              out.0.error == Some(ErrorText(ex.response.error, "Failed to delete plant"))
  {
    if Succeeded(ex) then (State(RemoveId(s.plants, id), false, s.error), true)
    else (State(s.plants, false, Some(FailureMessage(ex, "Failed to delete plant"))), false)
  }

  /** The filter keeps exactly the entries with another id. */
  lemma {:induction false} RemoveIdMembers(ps: seq<Plant>, id: string, p: Plant)
    ensures p in RemoveId(ps, id) <==> p in ps && p.id != id
    decreases |ps|
  {
    if |ps| > 0 {
      RemoveIdMembers(ps[1..], id, p);
      assert ps == [ps[0]] + ps[1..];
    }
  }

  /** Deleting an id nobody has changes nothing. */
  lemma {:induction false} RemoveAbsentId(ps: seq<Plant>, id: string)
    requires !HasId(ps, id)
    ensures RemoveId(ps, id) == ps
    decreases |ps|
  {
    if |ps| > 0 {
      assert ps[0].id != id;
      assert !HasId(ps[1..], id) by {
        forall i | 0 <= i < |ps[1..]| ensures ps[1..][i].id != id {
          assert ps[1..][i] == ps[i + 1];
        }
      }
      RemoveAbsentId(ps[1..], id);
      assert ps == [ps[0]] + ps[1..];
    }
  }

  /** A second delete of the same id is a no-op. */
  lemma DeleteIdempotent(ps: seq<Plant>, id: string)
    ensures RemoveId(RemoveId(ps, id), id) == RemoveId(ps, id)
  {
    RemoveAbsentId(RemoveId(ps, id), id);
  }

  /** Filtering distributes over concatenation. */
  lemma {:induction false} RemoveIdAppend(a: seq<Plant>, b: seq<Plant>, id: string)
    ensures RemoveId(a + b, id) == RemoveId(a, id) + RemoveId(b, id)
    decreases |a|
  {
    if |a| == 0 {
      assert a + b == b;
    } else {
      assert (a + b)[1..] == a[1..] + b;
      assert (a + b)[0] == a[0];
      RemoveIdAppend(a[1..], b, id);
    }
  }

  /** When the server echoes the same id, an update keeps every id, so ids stay unique. */
  lemma UpdateKeepsIds(ps: seq<Plant>, id: string, returned: Plant)
    requires returned.id == id
    ensures forall i :: 0 <= i < |ps| ==> UpdateAt(ps, id, returned)[i].id == ps[i].id
    ensures UniqueIds(ps) ==> UniqueIds(UpdateAt(ps, id, returned))
  {
  }

  /** Updating an id nobody has changes nothing. */
  lemma UpdateAbsentId(ps: seq<Plant>, id: string, returned: Plant)
    requires !HasId(ps, id)
    ensures UpdateAt(ps, id, returned) == ps
  {
  }

  /** How the client reads the plant out of a reply of the plant registry endpoint. */
  function PlantReply(body: ApiResponse<PlantsApi.Payload>): (r: ApiResponse<Plant>)
    ensures r.success == body.success && r.error == body.error
    ensures r.data.Some? <==> body.data.Some? && body.data.value.OnePlant?
  {
    ApiResponse(body.success,
                if body.data.Some? && body.data.value.OnePlant? then Some(body.data.value.plant) else None,
                body.error)
  }

  /** How the client reads the list out of a reply of the plant registry endpoint. */
  function ListReply(body: ApiResponse<PlantsApi.Payload>): (r: ApiResponse<seq<Plant>>)
    ensures r.success == body.success && r.error == body.error
    ensures r.data.Some? <==> body.data.Some? && body.data.value.PlantList?
  {
    ApiResponse(body.success,
                if body.data.Some? && body.data.value.PlantList? then Some(body.data.value.plants) else None,
                body.error)
  }

  /** A fetch shows exactly the server's registry and clears any error. */
  lemma FetchMirrorsServer(s: State, registry: seq<Plant>, body: PlantsApi.Draft, freshId: string)
    ensures var out := PlantsApi.Handle("GET", registry, body, freshId);
            var t := FetchPlants(s, Received(ListReply(out.reply.body)));
            t.plants == out.registry == registry && t.error.None?
  {
  }

  /**
   * A client in step with the server stays in step through an add: the
   * client's list after the reply equals the server's registry after the
   * request, the action reports success exactly when the server replied
   * 201, and a rejected body surfaces the server's message.
   */
  lemma AddMirrorsServer(s: State, body: PlantsApi.Draft, freshId: string)
    ensures var out := PlantsApi.Handle("POST", s.plants, body, freshId);
            var (t, ok) := AddPlant(s, Received(PlantReply(out.reply.body)));
            && t.plants == out.registry
            && (ok <==> out.reply.status == 201)
            && (!ok ==> t.error == Some(PlantsApi.MissingFieldsMessage))
  {
    var out := PlantsApi.Handle("POST", s.plants, body, freshId);
    if PlantsApi.HasRequiredFields(body) {
      assert out.registry == s.plants + [out.registry[|s.plants|]];
    }
  }
}
