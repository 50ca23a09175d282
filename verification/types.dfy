/**
 * The records of the dashboard: plants, sensor readings, the carbon-savings
 * summary and the `{ success, data?, error? }` envelope every API reply uses.
 */
module Types {
  import opened Wrappers

  /** A plant record. Only `description` and `sensorId` may be absent. */
  datatype Plant = Plant(
    id: string,
    name: string,
    species: string,
    location: string,
    imageUrl: string,
    dateAdded: string,
    lastWatered: string,
    description: Option<string>,
    sensorId: Option<string>,
    carbonSavings: real)

  /**
   * One sensor reading. `timestamp` is the instant the ISO string parses to,
   * in milliseconds since the epoch, or None when it does not parse (an
   * Invalid Date). The metric set is the one the readings hook, the chart and
   * the mock generator use.
   */
  datatype Reading = Reading(
    timestamp: Option<int>,
    moisture: real,
    temperature: real,
    light: real,
    weight: real)

  /** The metrics a chart or an average can be asked for. */
  datatype Metric = Moisture | Temperature | Light | Weight

  /** The value of metric `m` in reading `r` (`reading[dataType]`). */
  function MetricOf(r: Reading, m: Metric): real {
    match m
    case Moisture => r.moisture
    case Temperature => r.temperature
    case Light => r.light
    case Weight => r.weight
  }

  /** Moisture is documented as a percentage. */
  predicate PercentagesInRange(r: Reading) {
    0.0 <= r.moisture <= 100.0
  }

  /** One sensor, linked to one plant, with its current reading and history. */
  datatype SensorData = SensorData(
    sensorId: string,
    plantId: string,
    currentReading: Reading,
    readings: seq<Reading>,
    lastUpdated: string)

  /** Carbon-savings summary: grams of CO2, and grams per day for `dailyRate`. */
  datatype CarbonSavings = CarbonSavings(
    co2Saved: real,
    equivalentCarMiles: real,
    treesEquivalent: real,
    dailyRate: real)

  /** The envelope of every API reply. */
  datatype ApiResponse<T> = ApiResponse(success: bool, data: Option<T>, error: Option<string>)

  /** An HTTP reply: status code and JSON body. */
  datatype Reply<T> = Reply(status: int, body: ApiResponse<T>)

  /** A successful reply carrying `data`. */
  function Ok<T>(status: int, data: T): Reply<T> {
    Reply(status, ApiResponse(true, Some(data), None))
  }

  /** A failed reply carrying an error message and no data. */
  function Fail<T>(status: int, message: string): Reply<T> {
    Reply(status, ApiResponse(false, None, Some(message)))
  }

  /** No two plants share an id. */
  predicate UniqueIds(ps: seq<Plant>) {
    forall i, j :: 0 <= i < j < |ps| ==> ps[i].id != ps[j].id
  }

  /** Some plant has this id. */
  predicate HasId(ps: seq<Plant>, id: string) {
    exists i :: 0 <= i < |ps| && ps[i].id == id
  }

  /** `plants.find(p => p.id === id)`: the first plant with that id. */
  function FindById(ps: seq<Plant>, id: string): (r: Option<Plant>)
    ensures r.None? <==> !HasId(ps, id)
    ensures r.Some? ==> exists i :: 0 <= i < |ps| && ps[i] == r.value && ps[i].id == id
                                   && forall j :: 0 <= j < i ==> ps[j].id != id
  {
    if |ps| == 0 then None
    else if ps[0].id == id then Some(ps[0])
    else
      var r := FindById(ps[1..], id);
      assert HasId(ps, id) ==> HasId(ps[1..], id) by {
        if HasId(ps, id) {
          var i :| 0 <= i < |ps| && ps[i].id == id;
          assert ps[1..][i - 1].id == id;
        }
      }
      assert r.Some? ==> exists i :: 0 <= i < |ps| && ps[i] == r.value && ps[i].id == id
                                     && forall j :: 0 <= j < i ==> ps[j].id != id by {
        if r.Some? {
          var k :| 0 <= k < |ps[1..]| && ps[1..][k] == r.value && ps[1..][k].id == id
                   && forall j :: 0 <= j < k ==> ps[1..][j].id != id;
          assert forall j :: 0 <= j < k + 1 ==> ps[j].id != id by {
            forall j | 0 <= j < k + 1 ensures ps[j].id != id {
              if j > 0 { assert ps[j] == ps[1..][j - 1]; }
            }
          }
          assert ps[k + 1] == r.value;
        }
      }
      r
  }
}
