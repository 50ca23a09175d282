/**
 * The readings endpoint and its mock generator: thirty days of four readings
 * a day (0, 6, 12 and 18 o'clock), oldest first, each metric a bounded random
 * integer. `Math.random` is an input: the sequence of values it returns, four
 * per reading in the order moisture, temperature, light, weight.
 */
module MockReadings {
  import opened Wrappers
  import opened Types
  import opened ReadingWindow

  /** Milliseconds in one hour. */
  const HourMs: int := 3_600_000

  /** Days covered: offsets 29 down to 0. */
  const Days: int := 30

  /** Readings per day, six hours apart. */
  const SlotsPerDay: int := 4

  /** Total readings generated. */
  const Count: int := Days * SlotsPerDay

  /** Random values drawn per reading. */
  const DrawsPerReading: int := 4

  /** `Math.floor(random * span) + base`. */
  function Draw(random: real, span: int, base: int): int {
    (random * (span as real)).Floor + base
  }

  /** With `random` in [0, 1), a draw lies in [base, base + span - 1]. */
  lemma DrawBounds(random: real, span: int, base: int)
    requires 0.0 <= random < 1.0 && span > 0
    ensures base <= Draw(random, span, base) <= base + span - 1
  {
    var x := random * (span as real);
    assert 0.0 <= x < span as real;
  }

  /** The instant of `hour` o'clock (minutes, seconds and milliseconds zero) on day `today - day`. */
  function SlotInstant(today: int, day: int, hour: int): int {
    (today - day) * DayMs + hour * HourMs
  }

  /** The instant of the k-th generated reading. */
  function InstantOf(today: int, k: int): int {
    SlotInstant(today, Days - 1 - k / SlotsPerDay, 6 * (k % SlotsPerDay))
  }

  /** The k-th generated reading, in closed form. */
  function ExpectedReading(today: int, random: seq<real>, k: int): Reading
    requires 0 <= k < Count && |random| == Count * DrawsPerReading
  {
    Reading(
      Some(InstantOf(today, k)),
      Draw(random[4 * k], 30, 60) as real,
      Draw(random[4 * k + 1], 10, 18) as real,
      Draw(random[4 * k + 2], 700, 300) as real,
      Draw(random[4 * k + 3], 50, 950) as real)
  }

  /** All generated readings, in closed form. */
  function ExpectedReadings(today: int, random: seq<real>): (r: seq<Reading>)
    requires |random| == Count * DrawsPerReading
    ensures |r| == Count
    ensures forall k :: 0 <= k < Count ==> r[k] == ExpectedReading(today, random, k)
  {
    seq(Count, k requires 0 <= k < Count => ExpectedReading(today, random, k))
  }

  /** `generateMockReadings`: the nested day/hour loops, drawing four random values per reading. */
  method GenerateMockReadings(today: int, random: seq<real>) returns (readings: seq<Reading>)
    requires |random| == Count * DrawsPerReading
    ensures |readings| == Count
    ensures forall k :: 0 <= k < Count ==> readings[k] == ExpectedReading(today, random, k)
  {
    readings := [];
    var next := 0;  // index of the next random value to draw
    var day := 29;
    while day >= 0
      invariant -1 <= day <= 29
      invariant |readings| == 4 * (29 - day)
      invariant next == 4 * |readings|
      invariant forall k :: 0 <= k < |readings| ==> readings[k] == ExpectedReading(today, random, k)
    {
      var hour := 0;
      while hour < 24
        invariant 0 <= hour <= 24 && hour % 6 == 0
        invariant |readings| == 4 * (29 - day) + hour / 6
        invariant next == 4 * |readings|
        invariant forall k :: 0 <= k < |readings| ==> readings[k] == ExpectedReading(today, random, k)
      {
        var k := |readings|;
        assert k / 4 == 29 - day && k % 4 == hour / 6;
        var reading := Reading(
          Some(SlotInstant(today, day, hour)),
          Draw(random[next], 30, 60) as real,
          Draw(random[next + 1], 10, 18) as real,
          Draw(random[next + 2], 700, 300) as real,
          Draw(random[next + 3], 50, 950) as real);
        next := next + 4;
        readings := readings + [reading];
        hour := hour + 6;
      }
      day := day - 1;
    }
  }

  /** The `handler`: 405 and no data for anything but GET, otherwise 200 with the mock readings. */
  method HandleReadings(httpMethod: string, today: int, random: seq<real>) returns (reply: Reply<seq<Reading>>)
    requires httpMethod == "GET" ==> |random| == Count * DrawsPerReading
    ensures httpMethod != "GET" ==> reply == Fail(405, "Method not allowed")
    ensures httpMethod == "GET" ==> reply.status == 200 && reply.body.success && reply.body.error.None?
    ensures httpMethod == "GET" ==> reply.body.data == Some(ExpectedReadings(today, random))
  {
    if httpMethod != "GET" {
      return Fail(405, "Method not allowed");
    }
    var readings := GenerateMockReadings(today, random);
    assert readings == ExpectedReadings(today, random);
    return Ok(200, readings);
  }

  /** Consecutive readings are six hours apart within a day, and the next day's midnight follows 18 o'clock. */
  lemma InstantStep(today: int, k: int)
    requires 0 <= k && k + 1 < Count
    ensures InstantOf(today, k) < InstantOf(today, k + 1)
  {
    if (k + 1) % 4 == 0 {
      assert (k + 1) / 4 == k / 4 + 1 && k % 4 == 3;
    } else {
      assert (k + 1) / 4 == k / 4 && (k + 1) % 4 == k % 4 + 1;
    }
  }

  /** Generated readings are strictly chronological. */
  lemma {:induction false} InstantsIncrease(today: int, i: int, j: int)
    requires 0 <= i < j < Count
    ensures InstantOf(today, i) < InstantOf(today, j)
    decreases j - i
  {
    InstantStep(today, j - 1);
    if i < j - 1 {
      InstantsIncrease(today, i, j - 1);
    }
  }

  /**
   * Each reading falls on the hour (zero minutes, seconds, milliseconds), at
   * 0, 6, 12 or 18 o'clock, on one of the thirty days ending today.
   */
  lemma InstantOnSlot(today: int, k: int)
    requires 0 <= k < Count
    ensures InstantOf(today, k) % HourMs == 0
    ensures InstantOf(today, k) % DayMs == 6 * (k % 4) * HourMs
    ensures (InstantOf(today, k) % DayMs) / HourMs in {0, 6, 12, 18}
    ensures today - 29 <= InstantOf(today, k) / DayMs <= today
  {
    var d := today - 29 + k / 4;
    var h := 6 * (k % 4);
    assert InstantOf(today, k) == d * DayMs + h * HourMs;
    assert 0 <= h * HourMs < DayMs;
  }

  /** The generated list: 120 readings, strictly chronological, every timestamp parsed. */
  lemma MockReadingsChronological(today: int, random: seq<real>)
    requires |random| == Count * DrawsPerReading
    ensures |ExpectedReadings(today, random)| == 120
    ensures AllParsed(ExpectedReadings(today, random))
    ensures forall i, j :: 0 <= i < j < Count ==>
              TimeKey(ExpectedReadings(today, random)[i]) < TimeKey(ExpectedReadings(today, random)[j])
    ensures Sorted(ExpectedReadings(today, random))
  {
    var r := ExpectedReadings(today, random);
    forall i, j | 0 <= i < j < Count ensures TimeKey(r[i]) < TimeKey(r[j]) {
      InstantsIncrease(today, i, j);
    }
  }

  /** Every metric lies in its documented range when the random values lie in [0, 1). */
  lemma MockReadingBounds(today: int, random: seq<real>, k: int)
    requires |random| == Count * DrawsPerReading && 0 <= k < Count
    requires forall i :: 0 <= i < |random| ==> 0.0 <= random[i] < 1.0
    ensures var r := ExpectedReadings(today, random)[k];
      && 60.0 <= r.moisture <= 89.0
      && 18.0 <= r.temperature <= 27.0
      && 300.0 <= r.light <= 999.0
      && 950.0 <= r.weight <= 999.0
      && PercentagesInRange(r)
  {
    DrawBounds(random[4 * k], 30, 60);
    DrawBounds(random[4 * k + 1], 10, 18);
    DrawBounds(random[4 * k + 2], 700, 300);
    DrawBounds(random[4 * k + 3], 50, 950);
  }

  /** Because the mock list is already chronological, any window of it is a suffix of it. */
  lemma MockWindowIsSuffix(today: int, random: seq<real>, now: int, range: TimeRange)
    requires |random| == Count * DrawsPerReading
    ensures var all := ExpectedReadings(today, random);
      exists j :: 0 <= j <= |all| && FilterReadings(all, now, range) == all[j..]
  {
    MockReadingsChronological(today, random);
    SortedFilterIsSuffix(ExpectedReadings(today, random), Cutoff(now, range));
  }
}
