# Packing list: a verified model of the planning logic

This project models, in Dafny, the decision logic of a packing-list web app. The app
plans what to pack for a trip and which bags to take. The model covers these parts:

- **The forecast-aware generator** (`generate_packing_list.dfy`, module `PackingList`).
  A loop first folds the daily forecast into a weather summary: lowest high, highest low,
  rain, snow. A second loop then walks the master catalog. It drops items whose trip
  types do not match. It drops weather-conditional items whose conditions the summary
  does not meet, and all of them when there is no forecast. Every kept item gets a
  quantity from its rule (`perDay`, `perNDays`, `fixed`). The loop stops with an error
  when `tripDays` or a rule's value is not positive.
  The method is proved equal to a declarative `Generate`. Its filters, summary,
  quantities and error cases are stated as lemmas.
- **Weather codes and icons** (`weather_codes.dfy`, `weather_icons.dfy`). These cover the
  WMO code table, its six buckets, the rain and snow tests, and the icon chosen for a code.
- **The client-side luggage recommender** (`suggest_luggage.dfy`, module `Luggage`).
  It keeps the bags that suit the transport mode and puts them largest first with a
  stable sort. It then takes bags greedily until their nominal capacity (15, 30 or 50
  items) covers the item count. It also gives the warning shown when the chosen
  capacity is under 70% of the item count.
- **The tag-based rules engine** (`tags.dfy`, `schemas.dfy`, `rules_engine.dfy`,
  `server_luggage.dfy`):
  - the integer tag IDs, their four groups and display names;
  - the item filter, with its weather, trip-type, travel-mode and zero-day stages, and
    the special cases hard-coded for particular trips and item IDs;
  - per-day quantities;
  - the server's "smallest bag that lasts the trip, else the largest" chooser;
  - the engine's own closest-capacity chooser.
- **Small helpers**:
  - the missing-forecast warning (`weather_warnings.dfy`);
  - the trip-creation error message (`create_trip_error.dfy`);
  - the wizard's trip types and the settings list derived from them (`trip_types.dfy`).

Shared pieces:
- `wrappers.dfy` holds `Option` and `Result`.
- `seqs.dfy` holds `Filter`, `Find`, `Max` and their lemmas.
- `sorting.dfy` models `Array.prototype.sort`. It is a stable insertion sort by a
  lexicographic integer key. It is proved to be a permutation, sorted and stable. Each
  comparator in the app is consistent with such a key.

Where the code loops and updates variables, the model is a method with loop
invariants. Examples are the forecast summary and catalog pass, the greedy luggage
loop, the weather-count reduce, and the successive reassignments of the filtered list.
Each such method is proved against a specification function. Pure code is modelled as
functions and lemmas.

## Model

| member | source | states |
|---|---|---|
| WeatherCodes.ConditionFromCode | src/lib/weatherCodes.ts:48-50 | a code gets a real label exactly when it lies in one of the six categories; every other code reads "Unknown" |
| WeatherCodes.RainAndSnowDisjoint | src/lib/weatherCodes.ts:52-61 | no code is both a rain code and a snow code |
| WeatherCodes.CategoriesPartitionTable | src/lib/weatherCodes.ts:1-46 | the six categories are pairwise disjoint and together are exactly the codes the table labels |
| WeatherCodes.PrecipitationCodesLabelled | src/lib/weatherCodes.ts:48-61 | every rain, thunderstorm or snow code has a real label |
| WeatherCodes.UnlistedCodesAreUnknown | src/lib/weatherCodes.ts:48-50 | 999 and -1 read "Unknown"; 61 and 95 read their table labels |
| WeatherIcons.WeatherIconFromCode | src/lib/weatherIcons.ts:11-26 | each icon is chosen for exactly one category (Sun clear, CloudFog fog, CloudRain rain, CloudSnow snow, CloudLightning thunderstorm); Cloud for cloudy codes and every code outside the table |
| WeatherIcons.RainIconExcludesThunderstorms | src/lib/weatherIcons.ts:15-23 | the rain icon is shown only for rain codes; a code the generator counts as rain shows the rain or the lightning icon |
| PackingList.SummarizeMeaning | src/lib/generatePackingList.ts:52-67 | the summary holds the lowest daily high and the highest daily low (infinite exactly when there is no day); rain holds iff some day has precipitation above 40 or a rain code; snow iff some day has snowfall or a snow code |
| PackingList.RainThresholdIsStrict | src/lib/generatePackingList.ts:62 | a 40% chance of rain is not rain, 41% is |
| PackingList.SummarizeForecast | src/lib/generatePackingList.ts:52-67 | the summary loop computes the summary of the trip's forecast, and leaves the initial values when there is no forecast |
| PackingList.MatchesForecast | src/lib/generatePackingList.ts:84-98 | weather conditions match iff some forecast day is at or below the minTemp, at or above the maxTemp, rainy when rain is asked, or snowy when snow is asked; never with no days |
| PackingList.EmptyConditionsNeverMatch | src/lib/generatePackingList.ts:84-98 | conditions with no field the generator reads never match |
| PackingList.WeatherFilterCases | src/lib/generatePackingList.ts:78-99 | items without weather conditions are unaffected by the weather; weather-conditional items are always dropped without a forecast, and with one they survive iff the trip type and the conditions match |
| PackingList.PassesFilters | src/lib/generatePackingList.ts:72-99 | steps 1 and 2 for one item, with early exits, keep the item exactly when it passes both filters |
| PackingList.KeptMembers | src/lib/generatePackingList.ts:71-99 | an item is kept iff it is in the catalog, its trip types contain "all" or the trip's type, and the weather filter allows it |
| PackingList.CeilDiv | src/lib/generatePackingList.ts:114 | the rounded-up quotient is the least q with a <= b*q |
| PackingList.QuantityMeaning | src/lib/generatePackingList.ts:108-119 | every quantity is at least 1; perNDays gives the least count whose coverage reaches the trip length; fixed gives the value |
| PackingList.Entries | src/lib/generatePackingList.ts:121-125 | one output entry per kept item, with name and category copied and the rule's quantity |
| PackingList.GeneratePackingList | src/lib/generatePackingList.ts:46-129 | the method's result is the declarative generator's: the list of entries for the kept items, or the first error |
| PackingList.GenerateFollowsCatalog | src/lib/generatePackingList.ts:69-126 | on success the output is the kept items in catalog order (a subsequence of the catalog), names and categories copied, quantities at least 1 |
| PackingList.GenerateErrors | src/lib/generatePackingList.ts:101-107 | tripDays <= 0 fails iff some item survives the filters; a non-positive rule value fails iff tripDays is positive and some surviving item has one; with no surviving item the list is empty |
| Luggage.Capacity | src/lib/suggestLuggage.ts:8-12 | every bag size has a positive nominal capacity |
| Luggage.TotalCapacity | src/lib/suggestLuggage.ts:49-52 | the summed capacity is never negative, and positive for a non-empty selection |
| Luggage.SuggestLuggage | src/lib/suggestLuggage.ts:14-43 | the suggestion is the greedy prefix of the compatible bags sorted largest first: the shortest prefix whose capacity reaches the item count, or all of them |
| Luggage.TakeUntilCovered | src/lib/suggestLuggage.ts:32-42 | the greedy loop returns a prefix that stops as soon as the remaining capacity is not positive |
| Luggage.TotalCapacityMonotone | src/lib/suggestLuggage.ts:36-40 | capacity only grows along a sequence of bags |
| Luggage.GreedyIsShortest | src/lib/suggestLuggage.ts:32-42 | every shorter prefix falls short of the count, and the greedy prefix is unique |
| Luggage.SuggestionsAreCompatible | src/lib/suggestLuggage.ts:20-24 | every suggested bag is from the input and suits the transport mode; with no items to carry nothing is suggested |
| Luggage.SortedCompatibleDescending | src/lib/suggestLuggage.ts:26-30 | the greedy loop meets the bags in non-increasing capacity |
| Luggage.SortedCompatibleStable | src/lib/suggestLuggage.ts:28-30 | bags of the same size keep their input order |
| Luggage.SortedCompatiblePermutes | src/lib/suggestLuggage.ts:28 | sorting a copy keeps exactly the compatible bags, each as often |
| Luggage.LuggageWarning | src/lib/suggestLuggage.ts:45-58 | the warning is given iff ten times the capacity is below seven times the item count, with its fixed text |
| Luggage.TotalCapacityBySize | src/lib/suggestLuggage.ts:49-52 | the capacity is 15, 30 and 50 times the number of small, medium and large bags |
| Luggage.WarningDependsOnSizes | src/lib/suggestLuggage.ts:45-58 | the warning depends only on how many bags of each size are chosen |
| Luggage.WarningBoundaries | src/lib/suggestLuggage.ts:54 | one medium bag carries 42 items without a warning and warns at 43; no bags warn for ten items and not for none |
| Tags.TagGroupsPartition | src/lib/tags.ts:8-96 | the four group predicates hold exactly on {1,2}, {3..6}, {7,8} and {9..12}, are pairwise disjoint, and together cover exactly the tag IDs |
| Tags.TagNamesFollowGroups | src/lib/tags.ts:99-112 | every tag ID has a name, and a name starts with its group's prefix exactly when the ID is in that group |
| RulesEngine.GeneratePackingList | src/server/logic/rulesEngine.ts:29-66 | the trip details copy the trip type, travel mode and forecast with an empty destination, the bag is 1, and the items are the filtered list (empty for an empty catalog) |
| RulesEngine.FilterItems | src/server/logic/rulesEngine.ts:71-192 | the successive stages keep exactly the items that pass all four, in catalog order, each turned into a list entry |
| RulesEngine.CountWeather | src/server/logic/rulesEngine.ts:94-100 | the reduce maps exactly the forecast's tags, each to its number of days |
| RulesEngine.WeatherStageMatches | src/server/logic/rulesEngine.ts:102-111 | filtering through the count map keeps what filtering against the forecast keeps |
| RulesEngine.TripTypeStageMatches | src/server/logic/rulesEngine.ts:113-132 | the conditional trip-type stage, after the weather stage, keeps exactly the items passing both |
| RulesEngine.ZeroDayStageMatches | src/server/logic/rulesEngine.ts:167-174 | the conditional zero-day stage, after the others, keeps exactly the selected items |
| RulesEngine.WeatherStageMeaning | src/server/logic/rulesEngine.ts:84-111 | an item passes iff its first tag in 3..6 is ANY, occurs in the forecast, or the forecast is empty; items without one are dropped |
| RulesEngine.TripTypeStageMeaning | src/server/logic/rulesEngine.ts:113-132 | the stage keeps everything on personal carry-on trips; otherwise an item passes iff it has no trip-type tag or the trip's type is among its tags |
| RulesEngine.TravelModeStageMeaning | src/server/logic/rulesEngine.ts:134-165 | item 13 passes on personal checked-bag trips, item 10 on checked-bag trips, otherwise an item passes iff it has no travel-mode tag or the trip's mode is among its tags |
| RulesEngine.ZeroDayStageMeaning | src/server/logic/rulesEngine.ts:167-174 | on a zero-day trip an item passes iff its first duration tag is BASE; otherwise every item passes |
| RulesEngine.QuantityMeaning | src/server/logic/rulesEngine.ts:176-191 | the quantity is max(1, days) when the first duration tag is PER_DAY and 1 otherwise, so never below 1 |
| RulesEngine.ListItems | src/server/logic/rulesEngine.ts:177-191 | one list entry per filtered item |
| RulesEngine.OutputFollowsCatalog | src/server/logic/rulesEngine.ts:176-191 | the list is the selected items in catalog order, IDs and names copied, quantities at least 1, none packed |
| RulesEngine.SuggestLuggageIds | src/server/logic/rulesEngine.ts:197-263 | the chooser returns at most one ID |
| RulesEngine.ChooserFixedAnswers | src/server/logic/rulesEngine.ts:207-223 | with no bags the result is empty for every trip; with any bag at all, a carry-on 2-day trip gets [1] and a car 3-day trip gets [4] |
| RulesEngine.ChooserPicksClosest | src/server/logic/rulesEngine.ts:225-262 | otherwise the result is empty iff no bag suits the travel mode; else it names one compatible bag, the smallest lasting max(1, days) when any does and the largest otherwise, with no equal-capacity compatible bag before it |
| RulesEngine.ClosestKeyMeaning | src/server/logic/rulesEngine.ts:238-259 | a bag with the least comparator key lasts the trip whenever any bag does and is then the smallest such, and is the largest when none does |
| ServerLuggage.SuggestLuggage | src/server/logic/luggage/suggestLuggage.ts:11-52 | there is a suggestion iff some bag suits the travel mode, and it is the ID of such a bag |
| ServerLuggage.ChosenExists | src/server/logic/luggage/suggestLuggage.ts:17-51 | a bag is chosen exactly when some bag suits the travel mode, and it is one of those |
| ServerLuggage.FirstFitting | src/server/logic/luggage/suggestLuggage.ts:37-46 | in ascending order, the choice is the first bag that lasts the trip, every earlier bag falling short |
| ServerLuggage.NoneFitting | src/server/logic/luggage/suggestLuggage.ts:49-51 | when no bag lasts the trip, the choice is the last bag of the ascending order |
| ServerLuggage.FirstFittingSorted | src/server/logic/luggage/suggestLuggage.ts:32-46 | the first fitting bag of the sorted copy is no larger than any compatible bag that lasts the trip |
| ServerLuggage.SmallestFittingChosen | src/server/logic/luggage/suggestLuggage.ts:32-46 | when some compatible bag lasts the trip, the choice lasts it, is the smallest that does, and no compatible bag of its capacity comes before it |
| ServerLuggage.LargestChosenOtherwise | src/server/logic/luggage/suggestLuggage.ts:49-51 | when none lasts the trip, the choice has the largest capacity and is the last of that capacity in input order |
| ServerLuggage.OnlyDurationMatters | src/server/logic/luggage/suggestLuggage.ts:15 | only the number of forecast days matters, not their weather |
| WeatherWarnings.TripWeatherWarning | src/lib/weatherWarnings.ts:6-9 | a warning, with its fixed text, exactly when there is no weather record; an empty forecast gives none |
| WeatherWarnings.WarningIgnoresContents | src/lib/weatherWarnings.ts:6-7 | the result does not depend on the forecast days or the fetch time |
| WeatherWarnings.WarningMeansConditionalSkipped | src/lib/weatherWarnings.ts:6-9 | whenever the warning shows, the generator keeps no weather-conditional item for that trip, and still keeps every item without weather conditions whose trip types admit the trip |
| CreateTripError.CreateTripErrorMessage | src/lib/createTripError.ts:1-7 | every message begins with "Failed to create trip" |
| CreateTripError.ErrorMessageRoundTrip | src/lib/createTripError.ts:2-4 | an Error's message follows the prefix verbatim and can be read back |
| CreateTripError.MessageInjective | src/lib/createTripError.ts:1-7 | distinct throws give distinct messages, and an Error never gives the fallback text |
| TripTypes.WizardValues | src/lib/tripTypes.ts:7-28 | the wizard offers business, vacation, camping and cityBreak, in that order, each once |
| TripTypes.SettingsShape | src/lib/tripTypes.ts:30-33 | the settings list is "all" / "All Trip Types" followed by every wizard entry's value and label; "all" occurs only in front and no value occurs twice |

## Left out

- Temperatures, precipitation, snowfall and the 0.7 factor are JavaScript doubles. Here
  they are exact reals, or integers in the `10 * capacity < 7 * count` form. Rounding and
  NaN are not modelled.
- `PackingList.GeneratePackingList` returns a `Result`. The source throws an `Error` with
  the texts given by `PackingList.ErrorMessage`.
- The infinite initial values of the weather summary are `None`.
- `PackingList.Quantity`, `PackingList.Quantify`, `Luggage.SuggestLuggage` and
  `Luggage.LuggageWarning` take a quantity rule's `value`, `tripDays` and
  `totalItemCount` to be integers. In the source they are JavaScript numbers, and the
  schema accepts a fractional rule value such as 0.5 or 2.5. That value would give a
  fractional per-day or fixed quantity, and a per-N-days count with a fractional
  divisor. The model cannot represent these. `tripDays` is always an integer in the
  source, since the new-trip page computes it with `Math.ceil(...) + 1`. The settings
  page only ever creates rule values of 1.
- The stored item schema (convex/schema.ts:16-24) describes weather conditions as
  `temperature` and `direction`. The generator reads only `minTemp`, `maxTemp`, `rain`
  and `snow`. An item carrying only `temperature` and `direction` never passes the weather
  filter (`PackingList.EmptyConditionsNeverMatch`). The vitest unit test in
  tests/generatePackingList.weather.spec.ts expects otherwise. This model follows the
  generator and leaves the mismatch open.
- `tripDays` is taken as given. Computing it from dates in the UI is not part of this model.
- Records are values. The rules engine's list record is rebuilt with `items` replaced,
  where the source assigns the field in place.
- The structure of some imperative code is changed. The forecast summary loop
  (`PackingList.SummarizeForecast`), the two filter steps for one item
  (`PackingList.PassesFilters`) and the greedy loop (`Luggage.TakeUntilCovered`) are
  separate methods. Each is called where the source has the inline code.
- The rules engine's private chooser is modelled as a function
  (`RulesEngine.SuggestLuggageIds`). Its call site is commented out in the source, so
  `luggageId` stays 1.
- The call to the chooser made only at module load
  (src/server/logic/rulesEngine.ts:266-282) is not modelled. It has no effect on any result.
- The rules engine's `TripContext` carries no dates. The engine's list record has no
  start or end date.
- I/O, persistence, authentication and rendering are not part of this model: the Convex
  backend, the weather fetch, the tRPC routers, the database schema and the React pages.
  The same holds for the placeholder in src/server/logic/items/generateItems.ts.
- `RulesEngine.SuggestLuggageIds`: its own contract says only that the result has at
  most one ID. Its meaning is stated by `RulesEngine.ChooserFixedAnswers` and
  `RulesEngine.ChooserPicksClosest`.
