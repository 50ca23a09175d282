# Plant dashboard: a Dafny model of its logic

The dashboard is a small Next.js application. It keeps a registry of house
plants and charts their sensor readings over a selectable time window. It also
estimates the CO2 and water the plants save by matching each plant's name
against reference tables.

This project models the computations buried in its hooks, API handlers and
page components. Each becomes a pure Dafny function over immutable sequences:

- the reading window filter, sort and average (`ReadingWindow`);
- the chart's data mapping and lookup tables (`DataChart`);
- the mock reading generator and its endpoint (`MockReadings`);
- the CO2/water join on the footprint and emissions pages (`Footprint`, `Emissions`);
- the carbon-savings endpoint (`CarbonSavingsApi`);
- the in-memory plant registry endpoint (`PlantsApi`);
- the client-side plant store (`PlantContext`);
- the add-plant form (`AddPlantForm`);
- the home page search (`HomePage`);
- the card health classifier (`PlantCard`).

Shared records live in `Types`, `Option`/`Result` in `Wrappers`, and ASCII
lower-casing and substring search in `Text`.

Clocks, `Math.random`, uuid generation and the network are parameters:

- `now` and `today` are integers;
- random draws are a `seq<real>` of values in [0, 1);
- the fresh id is a string argument;
- a request's outcome is an `Exchange` value (the decoded reply, or the message of a thrown error).

Timestamps are milliseconds since the epoch. A timestamp string that does not
parse is `None`.

Where the sources disagree, the model follows the code:

- Readings have the fields the hook, the chart and the generator use: moisture, temperature, light and weight. The record type in `types/index.ts` lists humidity and pressure instead.
- The carbon summary's first field is the grams value the endpoint returns under `CO2Saved`. The type names it `CO2`.
- The footprint page divides trees by 24629 and the carbon endpoint by 21000. Both are kept, and `CarbonSavingsApi.TreeConstantsDisagree` states that they differ.
- The temperature axis title keeps the characters `Â°` the chart file holds where a degree sign was meant.

## Model

Helper functions that only compute have no row of their own; the rows of the lemmas and operations that characterise them cite their lines. These are `Footprint.Lookup`, `Footprint.TotalCO2`, `Footprint.TotalWater`, `Footprint.PageTotals`, `Emissions.EmissionCards`, `CarbonSavingsApi.TotalCarbonSavings`, `ReadingWindow.Cutoff`, `ReadingWindow.WindowDays`, `ReadingWindow.InWindow`, `ReadingWindow.Mean` and `PlantCard.BarColour.ClassName`.

| member | source | states |
|---|---|---|
| Types.FindById | pages/api/carbon-savings.ts:26 | `plants.find` by id: None exactly when no plant has the id; otherwise the plant at the first index carrying it |
| ReadingWindow.InitialRange | lib/hooks/useReadings.ts:27 | with no range requested the hook starts on "7d"; a requested range is kept |
| ReadingWindow.CutoffsNested | lib/hooks/useReadings.ts:75-84 | the 30-day cutoff is before the 7-day cutoff, which is before the 24-hour cutoff (now minus one day), which is before now |
| ReadingWindow.Keep | lib/hooks/useReadings.ts:87 | the filter keeps every in-window reading with its multiplicity and nothing else; unparsed timestamps are out of the window |
| ReadingWindow.Insert | lib/hooks/useReadings.ts:88-91 | inserting into a time-sorted list gives a sorted list holding the same readings plus the new one |
| ReadingWindow.SortByTime | lib/hooks/useReadings.ts:88-91 | the sort returns a permutation of its input, non-decreasing by time |
| ReadingWindow.InsertStable | lib/hooks/useReadings.ts:88-91 | an inserted reading stays ahead of later readings that carry the same instant |
| ReadingWindow.SortStable | lib/hooks/useReadings.ts:88-91 | stability: for every instant, the readings stamped with it appear in input order |
| ReadingWindow.SortSortedIdentity | lib/hooks/useReadings.ts:88-91 | sorting an already sorted list changes nothing |
| ReadingWindow.FilterAt | lib/hooks/useReadings.ts:69-92 | the result is sorted, holds only parsed readings at or after the cutoff, keeps each in-window reading's multiplicity, and is empty for empty input |
| ReadingWindow.FilterReadings | lib/hooks/useReadings.ts:69-92 | `filteredReadings`: sorted; every kept reading is parsed and at or after now minus the window; every such input reading is kept; unparsed readings are dropped; the result is a sub-multiset of the input |
| ReadingWindow.FilterStable | lib/hooks/useReadings.ts:86-91 | readings of equal time keep their input order through filter and sort |
| ReadingWindow.WindowsNested | lib/hooks/useReadings.ts:75-87 | the 24h result is contained in the 7d result, and that in the 30d result, as multisets |
| ReadingWindow.KeepAll | lib/hooks/useReadings.ts:87 | a list wholly inside the window passes the filter unchanged |
| ReadingWindow.RefilterIdempotent | components/ui/DataChart.tsx:57-62 | filtering an already filtered list with the same or an earlier cutoff returns it unchanged |
| ReadingWindow.FilterIdempotent | components/ui/DataChart.tsx:40-63 | the chart re-filtering the hook's output with the same window gets the same list back |
| ReadingWindow.KeepSortedIsSuffix | lib/hooks/useReadings.ts:87 | on a sorted, fully parsed list the filter returns a suffix of it |
| ReadingWindow.SortedFilterIsSuffix | lib/hooks/useReadings.ts:86-91 | on a sorted, fully parsed list filter-and-sort returns a suffix of it |
| ReadingWindow.RoundHundredths | lib/hooks/useReadings.ts:104 | `toFixed(2)`: a whole number of hundredths at most half a hundredth away; a tie rounds away from zero, as `toFixed` rounds the magnitude and restores the sign |
| ReadingWindow.RoundUnique | lib/hooks/useReadings.ts:104 | exactly one value meets that description, so it defines `toFixed(2)`'s digits and not just a bound |
| ReadingWindow.RoundOdd | lib/hooks/useReadings.ts:104 | rounding is symmetric about zero: −x rounds to minus what x rounds to |
| ReadingWindow.Average | lib/hooks/useReadings.ts:95-105 | `aggregateData` is null exactly for an empty window, so it never divides by zero; otherwise it is the mean rounded to hundredths as `toFixed(2)` rounds it, ties away from zero |
| ReadingWindow.NegativeTieAverage | lib/hooks/useReadings.ts:95-105 | a window holding one reading at −0.125 averages to −0.13, not −0.12 |
| ReadingWindow.MinOf | lib/hooks/useReadings.ts:100-104 | the smallest metric value: a lower bound that some reading attains |
| ReadingWindow.MaxOf | lib/hooks/useReadings.ts:100-104 | the largest metric value: an upper bound that some reading attains |
| ReadingWindow.SumBounds | lib/hooks/useReadings.ts:100-103 | when every value is in [lo, hi], the sum of n values is in [n lo, n hi] |
| ReadingWindow.MeanBetween | lib/hooks/useReadings.ts:104 | when every value is in [lo, hi], sum divided by count is in [lo, hi] |
| ReadingWindow.MeanWithinRange | lib/hooks/useReadings.ts:100-104 | before rounding, the average lies between the metric's minimum and maximum |
| DataChart.ParseMetric | components/ui/DataChart.tsx:123-136 | a data-type string is recognised only as the name of the metric it parses to |
| DataChart.ParseMetricName | components/ui/DataChart.tsx:123-136 | every metric's name parses back to that metric |
| DataChart.DataTypeLabel | components/ui/DataChart.tsx:123-136 | the legend label is the data type itself exactly when the type is unknown |
| DataChart.DataTypeColor | components/ui/DataChart.tsx:138-151 | the indigo fallback colour is used exactly for an unknown data type |
| DataChart.ColorsDistinguishMetrics | components/ui/DataChart.tsx:138-151 | the four known metrics get four different colours |
| DataChart.DataTypeUnit | components/ui/DataChart.tsx:153-166 | the axis title is empty exactly for an unknown data type |
| DataChart.LabelPattern | components/ui/DataChart.tsx:70 | labels use "HH:mm" exactly for the 24-hour range, "MMM dd" otherwise |
| DataChart.Labels | components/ui/DataChart.tsx:67-72 | one label per reading, in order, carrying that reading's instant and the range's pattern |
| DataChart.Points | components/ui/DataChart.tsx:76 | one data point per reading, in order, equal to that reading's metric |
| DataChart.ChartOf | components/ui/DataChart.tsx:66-107 | labels and data have the window's length and follow it index by index; the dataset's caption and colours and the axis title are the table entries for the metric, the fill being the line colour with alpha `33`; the y axis starts at zero exactly for moisture and light; the title shows exactly when non-empty and carries the given text |
| DataChart.ChartRange | components/ui/DataChart.tsx:35-39 | the range is one day when the parent passes none, and the one passed otherwise |
| DataChart.ChartTitle | components/ui/DataChart.tsx:35-39 | the title is empty when the parent passes none, and the one passed otherwise |
| DataChart.Render | components/ui/DataChart.tsx:35-117 | with the optional props resolved to their defaults, the chart is drawn exactly when the window is non-empty; the title shows exactly when one is passed and non-empty; its labels carry the kept readings' parsed instants in chronological order; its data are their metric values |
| MockReadings.DrawBounds | pages/api/readings.ts:50-53 | `Math.floor(Math.random() * span) + base` lies in [base, base + span - 1] |
| MockReadings.ExpectedReadings | pages/api/readings.ts:37-59 | the reference list has 120 entries, entry k being the reading of day slot k |
| MockReadings.GenerateMockReadings | pages/api/readings.ts:37-59 | the two nested loops emit exactly the 120 reference readings, in order |
| MockReadings.HandleReadings | pages/api/readings.ts:10-34 | a non-GET method gets 405 "Method not allowed" and no data; GET gets 200 with the generated list |
| MockReadings.InstantStep | pages/api/readings.ts:42-46 | each emitted slot is later than the one before |
| MockReadings.InstantsIncrease | pages/api/readings.ts:42-46 | slot instants strictly increase along the list |
| MockReadings.InstantOnSlot | pages/api/readings.ts:43-46 | each instant falls on a whole hour among 0, 6, 12 and 18, on one of the last 30 days |
| MockReadings.MockReadingsChronological | pages/api/readings.ts:42-46 | the generated list has 120 parsed readings in strictly increasing time order |
| MockReadings.MockReadingBounds | pages/api/readings.ts:50-53 | moisture is in [60, 89], temperature in [18, 27], light in [300, 999] and weight in [950, 999], so moisture is a valid percentage |
| MockReadings.MockWindowIsSuffix | pages/api/readings.ts:42-46 | any time window of the generated list is a suffix of it, in the same order |
| Footprint.LookupFindsFirstMatch | pages/footprint.tsx:14-19 | the lookup is null exactly when no entry's lower-cased plant name equals the lower-cased name; otherwise it is the first matching entry's amount |
| Footprint.LookupIgnoresCase | pages/footprint.tsx:16 | names that agree after lower-casing get the same lookup result |
| Footprint.MatchPlants | pages/footprint.tsx:21-25 | `co2Plants`: each entry pairs a plant with its looked-up amount, and every plant with a match is present |
| Footprint.MatchedFromRegistry | pages/footprint.tsx:21-25 | every matched entry comes from the registry |
| Footprint.MatchedPlantAt | pages/footprint.tsx:21-25 | a plant with a match appears among the matches with its amount |
| Footprint.MatchPlantsAppend | pages/footprint.tsx:21-25 | matching distributes over concatenation, so registry order is kept |
| Footprint.SumScaledIsContributions | pages/footprint.tsx:40-41 | summing over the matches equals summing each plant's contribution over the whole registry, with zero for unmatched plants |
| Footprint.TotalCO2OverRegistry | pages/footprint.tsx:40 | totalCO2 is the sum over the registry of amount × 1000 for matched plants |
| Footprint.TotalWaterOverRegistry | pages/footprint.tsx:41 | total water is the unscaled sum over the registry of matched amounts |
| Footprint.SumScaledAppend | pages/footprint.tsx:40-41 | scaled sums add over concatenation |
| Footprint.UnmatchedAddsNothing | pages/footprint.tsx:21-25 | adding an unmatched plant leaves totalCO2 unchanged |
| Footprint.MatchedAddsGrams | pages/footprint.tsx:40 | adding a matched plant raises totalCO2 by its amount × 1000 |
| Footprint.Publish | pages/footprint.tsx:43-46 | storage changes only when both totals are non-zero, and then both are written |
| Footprint.PublishIdempotent | pages/footprint.tsx:43-46 | publishing the same totals again changes nothing |
| Footprint.NoMatchesNoTotal | pages/footprint.tsx:21-40 | a registry with no plant in the table has a total of zero |
| Footprint.PublishPage | pages/footprint.tsx:21-46 | the page writes storage only when both computed totals are non-zero, then writes exactly them; a registry the CO2 table does not know never touches storage |
| Footprint.CarMiles | pages/footprint.tsx:11 | car miles times 404 gives back the CO2 grams |
| Footprint.Trees | pages/footprint.tsx:12 | trees times 24629 gives back the CO2 grams |
| Footprint.Cards | pages/footprint.tsx:58-75 | one card per CO2 match in registry order, showing amount × 1000 g and the plant's independent water lookup |
| Footprint.MatchingIsIndependent | pages/footprint.tsx:27-38 | a plant can match the CO2 table and miss the water table; it then counts in totalCO2 and not in total water |
| Emissions.CardsOf | pages/emissions.tsx:40-51 | one card per match, in order, with the plant's id, name and amount × 1000 |
| Emissions.CardsShowMatchedGrams | pages/emissions.tsx:40-51 | every card's plant has a match, and the card shows that match × 1000 g |
| Emissions.CardsAddUpToTotal | pages/emissions.tsx:23-29 | the cards' grams add up to totalCO2, the same total as the footprint page computes |
| Emissions.CardsOfMember | pages/emissions.tsx:40-51 | each match yields its card |
| Emissions.CardForMatch | pages/emissions.tsx:40-51 | every plant with a match gets a card with its id, name and amount × 1000 |
| Emissions.NoCardForUnmatched | pages/emissions.tsx:25-27 | no card is shown under a name that has no match, even in another letter case |
| CarbonSavingsApi.CalculateCarbonSavings | pages/api/carbon-savings.ts:48-60 | the summary echoes the grams, and miles × 404, trees × 21000 and daily rate × 365 each give them back |
| CarbonSavingsApi.CalculationIsLinear | pages/api/carbon-savings.ts:48-60 | the summary of a sum is the sum of summaries; zero maps to zero; non-negative input gives non-negative outputs |
| CarbonSavingsApi.TreeConstantsDisagree | pages/api/carbon-savings.ts:51 | for a positive amount the footprint page reports fewer trees than the endpoint |
| CarbonSavingsApi.TotalAppend | pages/api/carbon-savings.ts:37 | the total of savings adds over concatenation |
| CarbonSavingsApi.TotalIsSumOfPlants | pages/api/carbon-savings.ts:37-38 | the summary of the whole registry equals the sum of the per-plant summaries |
| CarbonSavingsApi.HandleCarbonSavings | pages/api/carbon-savings.ts:5-45 | non-GET gets 405 naming the method; an unknown plant id gets 404 "Plant not found"; a known one the first such plant's summary; no usable id the registry total's summary |
| PlantsApi.SeedIdsDistinct | pages/api/plants/index.ts:7-58 | the seed registry has four plants with the distinct ids "1" to "4" |
| PlantsApi.Stored | pages/api/plants/index.ts:95-98 | the stored plant carries the fresh id, overriding any id in the body, and every other field of the body: name, species, location, image, dates, description, sensor and savings |
| PlantsApi.HandleGetPlants | pages/api/plants/index.ts:82-88 | GET returns the registry unchanged with 200 |
| PlantsApi.HandleAddPlant | pages/api/plants/index.ts:90-120 | a body missing name, species or location, or with one empty, gets 400 with the fixed message and leaves the registry alone; otherwise exactly one plant is appended, earlier entries are unchanged, and the reply is 201 with it |
| PlantsApi.Handle | pages/api/plants/index.ts:60-80 | only POST can change the registry; methods other than GET and POST get 405 naming the method |
| PlantsApi.AddKeepsIdsUnique | pages/api/plants/index.ts:97-109 | with a fresh id not yet in use, every request keeps ids unique |
| PlantsApi.FindAppendedFresh | pages/api/plants/index.ts:109 | a plant appended under an unused id is the one found by that id |
| PlantsApi.SuccessfulPostAddsOne | pages/api/plants/index.ts:109-111 | after a 201 the registry is one longer and the fresh id finds the stored plant |
| PlantContext.Initial | lib/context/PlantContext.tsx:17-19 | the store starts empty, loading, without error |
| PlantContext.ErrorText | lib/context/PlantContext.tsx:28 | `data.error \|\| fallback`: the server's message unless it is absent or empty; never empty given a non-empty fallback |
| PlantContext.FetchPlants | lib/context/PlantContext.tsx:21-39 | success replaces the list with the payload, or [] without one, and clears the error; failure keeps the list and records the error |
| PlantContext.AddPlant | lib/context/PlantContext.tsx:45-72 | success appends the returned plant, or nothing without data, returns true and keeps any earlier error; failure keeps the list, records the error and returns false |
| PlantContext.Merge | lib/context/PlantContext.tsx:91 | `{ ...plant, ...data }`: the required fields, among them id, name, species, location, image, both dates and savings, come from the reply; an optional field missing from it keeps the stored value |
| PlantContext.UpdateAt | lib/context/PlantContext.tsx:89-92 | same length; entries with the id are merged with the reply; the others are unchanged |
| PlantContext.UpdatePlant | lib/context/PlantContext.tsx:74-103 | success merges into every entry with the id, or changes nothing without data, and returns true; failure keeps the list, records the error and returns false |
| PlantContext.RemoveId | lib/context/PlantContext.tsx:118 | no entry with the id remains, and every remaining entry comes from the list |
| PlantContext.DeletePlant | lib/context/PlantContext.tsx:105-128 | success removes every entry with the id and returns true; failure keeps the list, records the error and returns false |
| PlantContext.RemoveIdMembers | lib/context/PlantContext.tsx:118 | an entry survives the delete exactly when it was there with another id |
| PlantContext.RemoveAbsentId | lib/context/PlantContext.tsx:118 | deleting an id nobody has leaves the list unchanged |
| PlantContext.DeleteIdempotent | lib/context/PlantContext.tsx:118 | deleting the same id twice equals deleting it once |
| PlantContext.RemoveIdAppend | lib/context/PlantContext.tsx:118 | the delete filter distributes over concatenation, so the order of the rest is kept |
| PlantContext.UpdateKeepsIds | lib/context/PlantContext.tsx:89-92 | when the reply has the same id, every id is kept, so unique ids stay unique |
| PlantContext.UpdateAbsentId | lib/context/PlantContext.tsx:89-92 | updating an id nobody has leaves the list unchanged |
| PlantContext.PlantReply | lib/context/PlantContext.tsx:54 | reading a reply as one plant keeps its success flag and error, with data exactly when the reply carried a single plant |
| PlantContext.ListReply | lib/context/PlantContext.tsx:25 | reading a reply as a plant list keeps its success flag and error, with data exactly when the reply carried a list |
| PlantContext.FetchMirrorsServer | lib/context/PlantContext.tsx:24-32 | fetching from the registry endpoint shows exactly the server's registry and clears the error |
| PlantContext.AddMirrorsServer | lib/context/PlantContext.tsx:45-64 | a client in step with the server stays in step through an add; it reports success exactly on a 201, and shows the server's message on a 400 |
| AddPlantForm.EmptyForm | components/plants/AddPlantForm.tsx:11-16 | all four fields start empty |
| AddPlantForm.BuildPayload | components/plants/AddPlantForm.tsx:32-50 | an empty name or species fails with "Name and species are required"; otherwise the body carries the form's fields, location "Not specified", the placeholder image when none was given, lastWatered equal to dateAdded, and carbon savings 0 |
| AddPlantForm.Submit | components/plants/AddPlantForm.tsx:25-69 | an invalid form sends nothing and shows the message; a valid one sends its payload; the fields reset only after the store reports success |
| AddPlantForm.SentBodyIsAccepted | components/plants/AddPlantForm.tsx:32-50 | every body the form sends passes the registry endpoint's check (201) and is stored with the form's name and species, the default location and zero savings |
| AddPlantForm.FormCheckMatchesServer | components/plants/AddPlantForm.tsx:32-45 | the form rejects exactly the bodies the server would reject, since its fixed location always passes |
| HomePage.DisplayPlants | pages/index.tsx:20 | the statically rendered plants while loading, the store's plants after |
| HomePage.FilterPlants | pages/index.tsx:23-30 | the result is no longer than the input and every kept plant matches the query |
| HomePage.FilterMembers | pages/index.tsx:23-30 | a plant is kept exactly when it is in the list and the lower-cased query occurs in its lower-cased name, species or location |
| HomePage.FilterAppend | pages/index.tsx:23 | the search distributes over concatenation, so the result is an order-preserving subsequence |
| HomePage.EmptyQueryKeepsAll | pages/index.tsx:24-29 | an empty query keeps every plant |
| HomePage.QueryCaseIgnored | pages/index.tsx:24 | a query and its lower-cased form match the same plants |
| HomePage.FilterIgnoresQueryCase | pages/index.tsx:24 | the query's letter case does not change the result |
| HomePage.Render | pages/index.tsx:57-91 | loading shows only the notice; a non-empty error the banner; otherwise the empty notice, worded by whether a query is typed, or the cards under a heading whose count is the number of cards |
| HomePage.NoQueryListsEverything | pages/index.tsx:67-91 | with no query, no error and a loaded non-empty store, every plant is listed under "Your Plants" |
| PlantCard.Clamp | components/plants/PlantCard.tsx:19 | `min(100, max(0, x))` lies in [0, 100] and is x when x is already there |
| PlantCard.HealthScore | components/plants/PlantCard.tsx:16-20 | with a random value in [0, 1) the score lies in [70, 99] |
| PlantCard.StatusOf | components/plants/PlantCard.tsx:23-29 | the bands: ≥ 85 Excellent, 70–84 Good, 50–69 Fair, 30–49 Needs Attention, below 30 Critical |
| PlantCard.BarOf | components/plants/PlantCard.tsx:32-36 | the bar is green exactly from 70 and red exactly below 50 |
| PlantCard.ThresholdsDecrease | components/plants/PlantCard.tsx:8-13 | the thresholds strictly decrease: 85 > 70 > 50 > 30 |
| PlantCard.StatusMonotone | components/plants/PlantCard.tsx:23-29 | a higher score never gives a worse status |
| PlantCard.BarAgreesWithStatus | components/plants/PlantCard.tsx:23-36 | green exactly for Excellent and Good, yellow exactly for Fair, red exactly for Needs Attention and Critical |
| PlantCard.DrawnScoresLookHealthy | components/plants/PlantCard.tsx:16-36 | every score the card can draw reads Excellent or Good with a green bar |
| Text.Lower | pages/index.tsx:24-28 | lower-casing keeps the length and maps each character on its own |
| Text.LowerIdempotent | pages/index.tsx:24-28 | lower-casing twice is lower-casing once |
| Text.ContainsIffOccurs | pages/index.tsx:26-28 | `includes` holds exactly when the needle occurs at some offset |
| Text.ContainsEmpty | pages/index.tsx:24-29 | every string includes the empty string |

## Left out

- Calendar semantics of `Date.setDate` and `setHours` are not modelled. A day is a fixed 86,400,000 ms, with no daylight-saving shifts, month rollover or time zone. The generator's "today" is a day number.
- Date formatting is out: `toISOString`, date-fns `format`, `toFixed` display and `toLocaleString`. Labels carry the instant and the pattern name rather than formatted text.
- Floating point is modelled as exact `real` arithmetic.
- ReadingWindow.RoundHundredths: rounds the exact value. A mean whose binary double lies just below or above a decimal tie (1.005 is stored as 1.00499…) is rounded here as the tie itself, because floating point is not modelled.
- PlantsApi.Stored: a POST body is taken to carry every plant field with its declared type. The endpoint checks only name, species and location, so it also stores a body that lacks imageUrl, dateAdded, lastWatered or carbonSavings, gives one of them another type, or carries extra keys. None of these can be represented here. A stored plant without a numeric carbonSavings would make the `reduce` total in pages/api/carbon-savings.ts:37 NaN, or turn it into string concatenation.
- Lower-casing covers ASCII letters only. JavaScript's full Unicode case mapping is not modelled.
- HTTP transport is out: `fetch`, JSON encoding, the `Allow` headers, the 500 ms `setTimeout` delays and the 500 replies of the `catch` blocks. A thrown error reaches the store as a message, and non-`Error` throws are not modelled.
- `useReadings`'s own fetch, its fallback to a duplicate mock generator in development mode, and its mock copy (useReadings.ts:56-59 and 119-142) are not modelled. The endpoint generator is modelled once in `MockReadings`.
- The update and delete handlers under `pages/api/plants/[id].ts` are not part of this model. Only the client's handling of their replies is.
- `lib/hooks/useCarbonSavings.ts` is not modelled: its inner declaration shadows the state it should set, so it has no coherent behaviour.
- `pages/dashboard.tsx`, `pages/api/particle-data.ts`, `lib/apiService.ts` and `lib/hooks/useSensorData.ts` are not modelled. They are presentation or network wrappers, and the dashboard's humidity/pressure averages and `totalCO2Absorbed` field name nothing the rest of the code produces.
- Notifications, the debounced search bar, the layout, skeletons and the carbon context are presentation only.
- Concurrent requests are not modelled: the registry is single-threaded, so lost updates on it are out of scope.
- The JSON reference tables are not part of this model. Lookups take the table as a parameter.
- Humidity and pressure readings (types/index.ts:21-22) are not modelled. Nothing that computes uses them, while the generator, hook and chart use weight.
- The seed plants' descriptions are written as concatenations of shorter literals. The resulting text is the same.
- The card's image, date line and link, and the form's `loading` flag and cancel button, are display state and not modelled.
