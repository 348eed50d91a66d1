# Meter readings and price-plan comparison, modelled in Dafny

This project models the core of a small energy back end. The back end stores electricity
meter readings in memory and compares the cost of a fixed catalog of price plans for one
meter. The model has three parts.

- **Reading store and validator** (`ReadingService`). The class `MeterReadingService`
  holds the map from meter id to its list of readings.
  - `GetReadings` is the optional lookup.
  - `StoreReadings` validates a submitted batch and then updates the map.
  - Validation is all-or-nothing. It needs a present batch, a present and non-empty id that
    matches the meter-id pattern, and a present, non-empty list whose readings all have a
    timestamp and a value. Java nulls are `Option.None`.
- **Plan cost calculator and recommender** (`PlanService`, `Ranking`).
  - The cost of a plan is the average reading, divided by the hours between the earliest
    and the latest reading, times the plan's unit rate.
  - `Collectors.toMap` collects the catalog into a map from plan name to cost.
  - `GetRecommendations` lists that map's entries, sorts them in place by ascending cost,
    and keeps the first `limit` of them. A meter id with no entry in the store gets the
    sentinel list `[("error", 0)]` instead.
  - A meter id that is in the store with an empty list is a different case. For a non-empty
    catalog it throws `ArithmeticDivideByZero`. As written, every meter is in that state
    after an accepted store.
  - `GetCostForEachPricePlan` pairs the cost map with the meter's assigned plan id.
- **Meter-id format rule** (`Constants`). The pattern `^[^-]*-[^-]*-[^-]*$`, applied to the
  whole id, is `MatchesSmartMeterIdPattern`. It is proved equivalent to "exactly two
  hyphens". Segments may be empty.

Java exceptions are modelled as outcomes, not as preconditions. A call returns
`Result.Ok(value)` or `Result.Throws(fault)`. The faults are:

- `ArithmeticDivideByZero`: an empty reading list, or zero elapsed time.
- `NullPointer`: a reading without a value or a timestamp reaches the arithmetic.
- `IllegalStateDuplicateKey`: a plan name occurs twice in the catalog.
- `IllegalArgumentSubList`: a negative limit.

The lemmas state exactly when each outcome occurs. The model follows the exception order of
`calculateCost`:

1. The reduction fails on a null value.
2. The division by the count fails on an empty list.
3. `min`/`max` and `Duration.between` fail on a null timestamp.
4. The division by the elapsed hours fails on zero.

`Collectors.toMap` computes each plan's cost before it checks that plan's name. So an
undefined cost throws before a duplicate name does, and an empty catalog gives an empty map
whatever the readings are.

The model follows the code as written, in several places:

- `StoreReadings` appends an accepted batch to an existing list, then replaces the entry
  with a new empty list. After any accepted batch the meter therefore maps to `[]`. The
  comments at lines 47 and 51 of the store describe append-or-insert instead. The code loses
  first and later submissions alike.
- The meter-id pattern accepts empty segments (`"--"`, `"a--b"`), because `[^-]*` also
  matches zero characters.
- For a meter id with no entry in the store, `getCostForEachPricePlan` returns what `HashMap.put` returns on a fresh
  map, which is null. The model returns `Ok(None)`.
- The non-empty test on the id is implied by the pattern, since a match has at least two
  characters. `ValidateMeterReadings` states this.

`StoreReadingsIntended` and `StoredAsIntended` model the append-or-insert behaviour that
the comments at lines 47 and 51 of the store describe. Nothing else in the model relies on
them.

## Model

| member | source | states |
|---|---|---|
| `Constants.MatchesIffTwoHyphens` | src/main/java/uk/tw/energy/exceptions/Constants.java:17 | an id matches the meter-id pattern exactly when it contains two hyphens (both directions) |
| `Constants.EmptySegmentsMatch` | src/main/java/uk/tw/energy/exceptions/Constants.java:17 | `"--"` and `"a--b"` match: the pattern does not require non-empty segments |
| `Constants.ValidTestIdMatches` | src/test/java/uk/tw/energy/controller/PricePlanComparatorControllerTestNew.java:31 | the tests' valid id `"smart-meter-0"` matches |
| `Constants.InvalidTestIdDoesNotMatch` | src/test/java/uk/tw/energy/controller/PricePlanComparatorControllerTestNew.java:32 | the tests' invalid id `"smart-meter"` does not match |
| `Constants.KeysAndAnswersDistinct` | src/main/java/uk/tw/energy/exceptions/Constants.java:4-13 | the two response keys differ, and the store's two answers `SUCCESS` and `INPUT_IS_INVALID` differ |
| `ReadingService.IsValidElectricityReading` | src/main/java/uk/tw/energy/service/MeterReadingService.java:92-98 | a reading is well-typed iff both its timestamp and its value are present; its meaning for a batch is the ensures of `IsValidElectricityReadings` |
| `ReadingService.IsValidElectricityReadings` | src/main/java/uk/tw/energy/service/MeterReadingService.java:80-90 | the loop returns true iff `AllReadingsValid` (every reading has a time and a value); on false it stopped at the first reading lacking one, all earlier ones valid |
| `ReadingService.CheckMeterReadings` | src/main/java/uk/tw/energy/service/MeterReadingService.java:56-67 | the null, emptiness and pattern checks followed by the reading loop answer exactly `ValidateMeterReadings` |
| `ReadingService.IsMeterReadingsValid` | src/main/java/uk/tw/energy/service/MeterReadingService.java:74-79 | the id check holds iff the id has exactly two hyphens |
| `ReadingService.ValidateMeterReadings` | src/main/java/uk/tw/energy/service/MeterReadingService.java:56-67 | a batch is valid iff it, its id and its list are present, the list is non-empty, the id has two hyphens and every reading has time and value; a valid id has at least two characters |
| `ReadingService.StoredAsWritten` | src/main/java/uk/tw/energy/service/MeterReadingService.java:41-54 | a rejected batch leaves the map unchanged; an accepted one adds the id, maps it to the empty list whatever it held, and keeps every other entry |
| `ReadingService.StoredAsIntended` | src/main/java/uk/tw/energy/service/MeterReadingService.java:47-52 | intended store: the id's history keeps its old readings as a prefix and ends with the batch; other entries unchanged; rejected batch changes nothing |
| `ReadingService.StoredAsWrittenDropsBatch` | src/main/java/uk/tw/energy/service/MeterReadingService.java:48-53 | after an accepted batch, none of its (at least one) readings is in the id's history |
| `ReadingService.FirstSubmissionIsDropped` | src/main/java/uk/tw/energy/service/MeterReadingService.java:48-52 | a first one-reading submission for a valid id leaves `id -> []` as written, `id -> [reading]` as intended |
| `ReadingService.StoredAsIntendedKeepsBatch` | src/main/java/uk/tw/energy/service/MeterReadingService.java:47-51 | intended store: the id's history holds, as a multiset, its old readings plus every submitted reading |
| `ReadingService.StoredAsWrittenIdempotent` | src/main/java/uk/tw/energy/service/MeterReadingService.java:48-52 | storing the same batch twice leaves the same map as storing it once |
| `ReadingService.MeterReadingService.constructor` | src/main/java/uk/tw/energy/service/MeterReadingService.java:27-29 | the store starts with the map it is given |
| `ReadingService.MeterReadingService.GetReadings` | src/main/java/uk/tw/energy/service/MeterReadingService.java:31-33 | present iff the id is a key, and then the stored list; reads the map only |
| `ReadingService.MeterReadingService.StoreReadings` | src/main/java/uk/tw/energy/service/MeterReadingService.java:41-54 | answers `SUCCESS` iff the batch is valid, else `INPUT_IS_INVALID`; the new map is `StoredAsWritten` of the old one |
| `ReadingService.MeterReadingService.StoreReadingsIntended` | src/main/java/uk/tw/energy/service/MeterReadingService.java:47-52 | same answers; the new map is `StoredAsIntended` of the old one |
| `PlanService.SumOfReadings` | src/main/java/uk/tw/energy/service/PricePlanService.java:51-53 | the left-to-right sum of the values from zero; its meaning is stated by `CalculateAverageReading` (average times count is the sum) and `AverageBetweenReadings` |
| `PlanService.CalculateAverageReading` | src/main/java/uk/tw/energy/service/PricePlanService.java:50-56 | null value throws NullPointer, empty list throws divide-by-zero, and otherwise average times count equals the sum |
| `PlanService.AverageBetweenReadings` | src/main/java/uk/tw/energy/service/PricePlanService.java:50-56 | some reading is at most the average and some reading is at least it |
| `PlanService.MinTime` | src/main/java/uk/tw/energy/service/PricePlanService.java:59-61 | the earliest timestamp is that of some reading and no later than any |
| `PlanService.MaxTime` | src/main/java/uk/tw/energy/service/PricePlanService.java:63-65 | the latest timestamp is that of some reading and no earlier than any |
| `PlanService.CalculateTimeElapsed` | src/main/java/uk/tw/energy/service/PricePlanService.java:58-68 | throws NullPointer iff a timestamp is missing; otherwise non-negative, and 3600 times it is the span between a minimal and a maximal timestamp |
| `PlanService.CalculateCost` | src/main/java/uk/tw/energy/service/PricePlanService.java:42-48 | succeeds iff the readings are non-empty, well-typed and not all at one instant; the fault is divide-by-zero for well-typed readings, else NullPointer; the cost is the consumption rate times the unit rate |
| `PlanService.AccumulateSpec` | src/main/java/uk/tw/energy/service/PricePlanService.java:38-39 | cost-by-cost insertion succeeds iff names are distinct and new; it then extends the accumulator by exactly one cost per plan |
| `PlanService.Accumulate` | src/main/java/uk/tw/energy/service/PricePlanService.java:38-39 | `Collectors.toMap` over the catalog in order; its meaning is stated by `AccumulateSpec` |
| `PlanService.CollectCosts` | src/main/java/uk/tw/energy/service/PricePlanService.java:38-39 | the cost map collected from an empty map; its meaning is stated by `CollectCostsSpec` |
| `PlanService.CollectCostsSpec` | src/main/java/uk/tw/energy/service/PricePlanService.java:38-39 | the cost map exists iff (catalog empty or cost defined) and names distinct; otherwise the cost fault or the duplicate-key fault; its keys are the plan names and every plan costs the one shared rate times its unit rate |
| `PlanService.CheaperRateCostsNoMore` | src/main/java/uk/tw/energy/service/PricePlanService.java:42-48 | with non-negative readings a plan with a lower unit rate costs no more |
| `PlanService.OneHourExample` | src/main/java/uk/tw/energy/service/PricePlanService.java:38-68 | readings 10 at 0 s and 20 at 3600 s, plans at rates 2 and 3: costs exactly 30 and 45 |
| `PlanService.EmptyHistoryThrows` | src/main/java/uk/tw/energy/service/PricePlanService.java:50-56 | a non-empty catalog over an empty stored history throws divide-by-zero, from the division by the count |
| `PlanService.SameInstantThrows` | src/main/java/uk/tw/energy/service/PricePlanService.java:46 | readings all at one instant: the cost division throws divide-by-zero |
| `PlanService.CreateResponseMapForComparisons` | src/main/java/uk/tw/energy/service/PricePlanService.java:89-94 | exactly two entries: the plan id under `pricePlanId`, the cost map under `pricePlanComparisons` |
| `PlanService.PricePlanService.constructor` | src/main/java/uk/tw/energy/service/PricePlanService.java:27-31 | the service keeps the catalog and the store it is given |
| `PlanService.PricePlanService.GetConsumptionCostOfElectricityReadingsForEachPricePlan` | src/main/java/uk/tw/energy/service/PricePlanService.java:33-40 | unknown meter gives absent costs; a known meter gives a cost map with one entry per plan name exactly when the costs are defined and names distinct, else the matching fault |
| `PlanService.PricePlanService.GetCostForEachPricePlan` | src/main/java/uk/tw/energy/service/PricePlanService.java:76-86 | unknown meter gives None; a cost map gives a response with exactly the plan-id and comparisons keys; faults propagate |
| `PlanService.PricePlanService.GetRecommendations` | src/main/java/uk/tw/energy/service/PricePlanService.java:96-114 | a meter id with no entry in the store gives `[("error", 0)]`; faults propagate; a negative limit throws; otherwise ascending, duplicate-free entries of the cost map, `min(limit, n)` or `n` long, none dearer than a plan left out |
| `Ranking.EntryList` | src/main/java/uk/tw/energy/service/PricePlanService.java:107 | the list holds every map entry once and nothing else |
| `Ranking.SortByCost` | src/main/java/uk/tw/energy/service/PricePlanService.java:108 | in place: ascending by cost and a permutation of the input |
| `Ranking.SortedPrefixRecommends` | src/main/java/uk/tw/energy/service/PricePlanService.java:107-112 | any prefix of a sorted permutation of the full entry list is sorted, duplicate-free, drawn from the map, and keeps only the cheapest |
| `Ranking.FullRecommendationNamesEveryPlan` | src/main/java/uk/tw/energy/service/PricePlanService.java:110-113 | without a limit the recommendation names every plan of the map |

## Left out

- CalculateAverageReading: division is exact on `real`. The source rounds `HALF_UP` to the scale of the sum, and no decimal-scale behaviour is claimed.
- CalculateCost: the division by the elapsed hours is exact. The source rounds it `HALF_UP` to the scale of the average.
- CalculateTimeElapsed: instants are whole epoch seconds, so `Duration.getSeconds` truncation of nanoseconds is not modelled. The division by 3600 is exact, not a Java `double`.
- CalculateTimeElapsed: requires a non-empty list. Its only caller has already thrown on an empty one; on an empty list the source's `Optional.get` would throw `NoSuchElementException`.
- GetRecommendations: the order among plans of equal cost is not stated. The entry list comes from a `HashMap` in unspecified order; `EntryList` picks keys arbitrarily.
- The store holds values (`seq`), not list objects. The `addAll` on an existing list is visible to anyone holding that list (for instance a result of `getReadings`), and this aliasing is not modelled. Neither is the sharing of the constructor's map with its creator.
- A null element inside a batch's reading list is not modelled; the source would throw `NullPointerException` on it. Map values are never null in the model.
- `AccountService` is not part of this model. The plan id it assigns is a parameter of `GetCostForEachPricePlan`.
- The `NoReadingsExistForMeterId` object, built with `NO_METER_READING_FOUND` when the meter id has no entry in the store, is discarded by the source (the branch returns the result of `put` on a fresh map). Neither is modelled.
- The constants `PRICE_PLAN_n_ID`, `SMART_METER_ID`, `READINGS_STORED_SUCCESS` and `INVALID_SMART_METER_ID` are not used by the modelled services and are not modelled.
- `SmartMeterIdRegex` is kept as text only: the model does not interpret regular expressions, and `MatchesSmartMeterIdPattern` is its reading written out by hand.
- Logging, Spring wiring, the HTTP controllers, the exception handler and thread safety are out of scope. The services have no concurrency logic.
- The Java sources of `ElectricityReading`, `MeterReadings` and `PricePlan` are not part of this model. The datatypes of the same names are inferred from how the services use them; only a plan's name and unit rate are used.

## Findings

| source | as written | input that shows it | evidently intended | confidence | as-written member | corrected member |
|---|---|---|---|---|---|---|
| src/main/java/uk/tw/energy/service/MeterReadingService.java:48-52 | after the optional `addAll`, `put(id, new ArrayList<>())` always replaces the entry with an empty list | empty store; batch for `"smart-meter-0"` with one reading (0 s, 1.0): the store ends as `{"smart-meter-0": []}` | append to the existing list, or insert the submitted list for a new id (comments at lines 47 and 51) | high, not executed | `ReadingService.FirstSubmissionIsDropped` | `ReadingService.StoredAsIntendedKeepsBatch` |
