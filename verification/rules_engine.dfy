/** The tag-based rules engine: items carry integer tag IDs and pass through a
    weather stage, a trip-type stage, a travel-mode stage and a zero-day stage,
    then get a quantity from their duration tag. The stages include the
    engine's hard-coded exceptions for particular trips and item IDs. */
module RulesEngine {
  import opened Wrappers
  import opened Seqs
  import opened Sorting
  import opened Schemas
  import Tags
  import ServerLuggage

  const WeatherAny := 6
  const DurationPerDay := 8
  const DurationBase := 7

  // ---------------------------------------------------------------------------
  // Tag lookups

  function IsWeatherOrAny(): int -> bool {
    (id: int) => Tags.IsWeatherTagId(id) || id == WeatherAny
  }

  /** The item's first weather tag (`AnyWeather` included), if any. */
  function WeatherTagOf(item: Item): Option<int> {
    Find(item.tagIds, IsWeatherOrAny())
  }

  /** The item's first duration tag, if any. */
  function DurationTagOf(item: Item): Option<int> {
    Find(item.tagIds, Tags.IsDurationTagId)
  }

  // ---------------------------------------------------------------------------
  // Weather counts

  /** The count map the forecast reduces to: the tags that occur, each with its
      number of days. */
  ghost predicate CountsOf(counts: map<int, int>, forecast: seq<int>) {
    forall w :: (w in counts <==> w in multiset(forecast))
      && (w in counts ==> counts[w] == multiset(forecast)[w])
  }

  /** Counts the days of each weather tag in the forecast. */
  method CountWeather(forecast: seq<int>) returns (weatherCounts: map<int, int>)
    ensures CountsOf(weatherCounts, forecast)
  {
    weatherCounts := map[];
    for i := 0 to |forecast|
      invariant CountsOf(weatherCounts, forecast[..i])
    {
      var weatherId := forecast[i];
      assert forecast[..i + 1] == forecast[..i] + [weatherId];
      weatherCounts := weatherCounts[weatherId := (if weatherId in weatherCounts then weatherCounts[weatherId] else 0) + 1];
    }
    assert forecast[..|forecast|] == forecast;
  }

  // ---------------------------------------------------------------------------
  // The stages

  /** The weather stage as written: over the count map, where a missing tag
      reads as not positive. */
  function WeatherKeeps(weatherCounts: map<int, int>, forecastLength: int): Item -> bool {
    (item: Item) =>
      var weatherTagId := WeatherTagOf(item);
      weatherTagId == Some(WeatherAny)
      || (weatherTagId.Some?
          && ((weatherTagId.value in weatherCounts && weatherCounts[weatherTagId.value] > 0) || forecastLength == 0))
  }

  /** The weather stage over the forecast itself. */
  function WeatherOk(forecast: seq<int>): Item -> bool {
    (item: Item) =>
      var weatherTagId := WeatherTagOf(item);
      weatherTagId == Some(WeatherAny) || (weatherTagId.Some? && (weatherTagId.value in forecast || |forecast| == 0))
  }

  /** The trip-type stage as written, for when it runs. */
  function TripTypeKeeps(tripTypeTagId: int): Item -> bool {
    (item: Item) =>
      var tripTypeTags := Filter(item.tagIds, Tags.IsTripTypeTagId);
      |tripTypeTags| == 0 || tripTypeTagId in tripTypeTags
  }

  /** Personal trips by carry-on skip the trip-type stage. */
  predicate SkipsTripType(context: TripContext) {
    context.tripTypeTagId == Tags.Personal && context.travelModeTagId == Tags.CarryOn
  }

  function TripTypeStage(context: TripContext): Item -> bool {
    (item: Item) => SkipsTripType(context) || TripTypeKeeps(context.tripTypeTagId)(item)
  }

  /** The travel-mode stage, with its exceptions for items 13 and 10. */
  function TravelModeKeeps(context: TripContext): Item -> bool {
    (item: Item) =>
      if item.id == 13 && context.tripTypeTagId == Tags.Personal && context.travelModeTagId == Tags.CheckedBag then true
      else if item.id == 10 && context.travelModeTagId == Tags.CheckedBag then true
      else
        var travelModeTags := Filter(item.tagIds, Tags.IsTravelModeTagId);
        |travelModeTags| == 0 || context.travelModeTagId in travelModeTags
  }

  /** The zero-day stage as written, for when it runs. */
  function BaseOnly(): Item -> bool {
    (item: Item) => DurationTagOf(item) == Some(DurationBase)
  }

  function ZeroDayStage(tripDurationDays: int): Item -> bool {
    (item: Item) => tripDurationDays != 0 || BaseOnly()(item)
  }

  /** The stages so far, as one predicate each. */
  function AfterTripType(context: TripContext): Item -> bool {
    Conj(WeatherOk(context.tripWeatherForecast), TripTypeStage(context))
  }

  function AfterTravelMode(context: TripContext): Item -> bool {
    Conj(AfterTripType(context), TravelModeKeeps(context))
  }

  /** An item is selected when it passes every stage. */
  function Selected(context: TripContext, tripDurationDays: int): Item -> bool {
    Conj(AfterTravelMode(context), ZeroDayStage(tripDurationDays))
  }

  // ---------------------------------------------------------------------------
  // Quantities and the output

  function Quantity(item: Item, tripDurationDays: int): int {
    if DurationTagOf(item) == Some(DurationPerDay) then Max(1, tripDurationDays) else 1
  }

  function ListItem(item: Item, tripDurationDays: int): PackingListItem {
    PackingListItem(item.id, item.name, Quantity(item, tripDurationDays), false)
  }

  function ListItems(items: seq<Item>, tripDurationDays: int): (r: seq<PackingListItem>)
    ensures |r| == |items|
  {
    seq(|items|, k requires 0 <= k < |items| => ListItem(items[k], tripDurationDays))
  }

  /** The four stages in turn, then the quantities. */
  method FilterItems(items: seq<Item>, context: TripContext, tripDurationDays: int)
    returns (r: seq<PackingListItem>)
    ensures r == ListItems(Filter(items, Selected(context, tripDurationDays)), tripDurationDays)
  {
    var filteredItems := items;

    // 1. Weather
    var weatherCounts := CountWeather(context.tripWeatherForecast);
    filteredItems := Filter(filteredItems, WeatherKeeps(weatherCounts, |context.tripWeatherForecast|));
    WeatherStageMatches(items, context.tripWeatherForecast, weatherCounts);

    // 2. Trip type
    ghost var afterWeather := filteredItems;
    if SkipsTripType(context) {
    } else {
      filteredItems := Filter(filteredItems, TripTypeKeeps(context.tripTypeTagId));
    }
    TripTypeStageMatches(items, context, afterWeather, filteredItems);

    // 3. Travel mode
    FilterThen(items, AfterTripType(context), TravelModeKeeps(context));
    filteredItems := Filter(filteredItems, TravelModeKeeps(context));

    // 4. Zero-day trips
    ghost var afterTravelMode := filteredItems;
    if tripDurationDays == 0 {
      filteredItems := Filter(filteredItems, BaseOnly());
    }
    ZeroDayStageMatches(items, context, tripDurationDays, afterTravelMode, filteredItems);

    // 5. Quantities
    r := ListItems(filteredItems, tripDurationDays);
  }

  /** Builds the list record, then fills in the items unless there are none. */
  method GeneratePackingList(context: TripContext, userItems: seq<Item>, userLuggage: seq<Luggage>)
    returns (packingList: CurrentPackingList)
    ensures packingList.tripDetails
      == TripSummary("", context.tripTypeTagId, context.travelModeTagId, context.tripWeatherForecast)
    ensures packingList.luggageId == 1
    ensures packingList.items
      == ListItems(Filter(userItems, Selected(context, |context.tripWeatherForecast|)), |context.tripWeatherForecast|)
  {
    var tripDurationDays := |context.tripWeatherForecast|;
    packingList := CurrentPackingList(
      TripSummary("", context.tripTypeTagId, context.travelModeTagId, context.tripWeatherForecast), 1, []);
    if |userItems| == 0 {
      return packingList;
    }
    var suggestedItems := FilterItems(userItems, context, tripDurationDays);
    packingList := packingList.(items := suggestedItems);
  }

  // ---------------------------------------------------------------------------
  // Composing the stages

  /** The weather stage over the count map keeps what the forecast stage keeps. */
  lemma WeatherStageMatches(items: seq<Item>, forecast: seq<int>, weatherCounts: map<int, int>)
    requires CountsOf(weatherCounts, forecast)
    ensures Filter(items, WeatherKeeps(weatherCounts, |forecast|)) == Filter(items, WeatherOk(forecast))
  {
    forall item | item in items
      ensures WeatherKeeps(weatherCounts, |forecast|)(item) == WeatherOk(forecast)(item)
    {
      var t := WeatherTagOf(item);
      if t.Some? {
        assert t.value in forecast <==> t.value in multiset(forecast);
      }
    }
    FilterExt(items, WeatherKeeps(weatherCounts, |forecast|), WeatherOk(forecast));
  }

  lemma TripTypeStageMatches(items: seq<Item>, context: TripContext, afterWeather: seq<Item>, afterTripType: seq<Item>)
    requires afterWeather == Filter(items, WeatherOk(context.tripWeatherForecast))
    requires afterTripType
      == if SkipsTripType(context) then afterWeather else Filter(afterWeather, TripTypeKeeps(context.tripTypeTagId))
    ensures afterTripType == Filter(items, AfterTripType(context))
  {
    var w := WeatherOk(context.tripWeatherForecast);
    FilterThen(items, w, TripTypeStage(context));
    if SkipsTripType(context) {
      FilterAll(afterWeather, TripTypeStage(context));
    } else {
      FilterExt(afterWeather, TripTypeKeeps(context.tripTypeTagId), TripTypeStage(context));
    }
  }

  lemma ZeroDayStageMatches(items: seq<Item>, context: TripContext, tripDurationDays: int,
                            afterTravelMode: seq<Item>, afterZeroDay: seq<Item>)
    requires afterTravelMode == Filter(items, AfterTravelMode(context))
    requires afterZeroDay
      == if tripDurationDays == 0 then Filter(afterTravelMode, BaseOnly()) else afterTravelMode
    ensures afterZeroDay == Filter(items, Selected(context, tripDurationDays))
  {
    FilterThen(items, AfterTravelMode(context), ZeroDayStage(tripDurationDays));
    if tripDurationDays == 0 {
      FilterExt(afterTravelMode, BaseOnly(), ZeroDayStage(tripDurationDays));
    } else {
      FilterAll(afterTravelMode, ZeroDayStage(tripDurationDays));
    }
  }

  // ---------------------------------------------------------------------------
  // What each stage keeps, over the item's tags

  /** The weather stage keeps an item exactly when its first weather tag is
      `AnyWeather`, occurs in the forecast, or the forecast is empty; an item
      without a weather tag is dropped. */
  lemma WeatherStageMeaning(forecast: seq<int>, item: Item)
    ensures var tags := item.tagIds;
      WeatherOk(forecast)(item) <==>
        exists i :: 0 <= i < |tags| && FirstWeatherTagAt(tags, i)
                    && (tags[i] == WeatherAny || tags[i] in forecast || forecast == [])
  {
    var tags := item.tagIds;
    if WeatherOk(forecast)(item) {
      var i := WeatherTagIndex(tags);
      assert tags[i] == WeatherAny || tags[i] in forecast || forecast == [];
    }
    if exists i :: 0 <= i < |tags| && FirstWeatherTagAt(tags, i)
                   && (tags[i] == WeatherAny || tags[i] in forecast || forecast == []) {
      var i :| 0 <= i < |tags| && FirstWeatherTagAt(tags, i)
               && (tags[i] == WeatherAny || tags[i] in forecast || forecast == []);
      WeatherTagAt(tags, i);
    }
  }

  /** Tag `i` is a weather tag (3 to 6) and none before it is. */
  predicate FirstWeatherTagAt(tags: seq<int>, i: nat)
    requires i < |tags|
  {
    3 <= tags[i] <= 6 && forall j :: 0 <= j < i ==> !(3 <= tags[j] <= 6)
  }

  /** Where the first weather tag sits, when there is one. */
  lemma WeatherTagIndex(tags: seq<int>) returns (i: nat)
    requires Find(tags, IsWeatherOrAny()).Some?
    ensures i < |tags| && Find(tags, IsWeatherOrAny()) == Some(tags[i]) && FirstWeatherTagAt(tags, i)
  {
    var p := IsWeatherOrAny();
    FindIs(tags, p, Find(tags, p).value);
    i :| 0 <= i < |tags| && tags[i] == Find(tags, p).value && p(tags[i]) && forall j :: 0 <= j < i ==> !p(tags[j]);
    forall j | 0 <= j < i ensures !(3 <= tags[j] <= 6) {
      assert !p(tags[j]);
    }
  }

  /** The first weather tag is the one that `FirstWeatherTagAt` names. */
  lemma WeatherTagAt(tags: seq<int>, i: nat)
    requires i < |tags| && FirstWeatherTagAt(tags, i)
    ensures Find(tags, IsWeatherOrAny()) == Some(tags[i])
  {
    var p := IsWeatherOrAny();
    forall j | 0 <= j < i ensures !p(tags[j]) {
      assert !(3 <= tags[j] <= 6);
    }
    FindIs(tags, p, tags[i]);
  }

  /** Outside personal carry-on trips, an item passes the trip-type stage
      exactly when it has no trip-type tag or the trip's type is among them. */
  lemma TripTypeStageMeaning(context: TripContext, item: Item)
    ensures TripTypeStage(context)(item) <==>
      SkipsTripType(context)
      || (forall i :: 0 <= i < |item.tagIds| ==> !Tags.IsTripTypeTagId(item.tagIds[i]))
      || (context.tripTypeTagId in item.tagIds && Tags.IsTripTypeTagId(context.tripTypeTagId))
  {
    var tags := item.tagIds;
    var tripTypeTags := Filter(tags, Tags.IsTripTypeTagId);
    assert TripTypeStage(context)(item) <==> SkipsTripType(context) || TripTypeKeeps(context.tripTypeTagId)(item);
    assert TripTypeKeeps(context.tripTypeTagId)(item) <==> |tripTypeTags| == 0 || context.tripTypeTagId in tripTypeTags;
    if forall i :: 0 <= i < |tags| ==> !Tags.IsTripTypeTagId(tags[i]) {
      FilterNone(tags, Tags.IsTripTypeTagId);
    }
  }

  /** The travel-mode stage keeps item 13 on personal checked-bag trips, item 10
      on any checked-bag trip, and otherwise an item with no travel-mode tag or
      with the trip's mode among them. */
  lemma TravelModeStageMeaning(context: TripContext, item: Item)
    ensures TravelModeKeeps(context)(item) <==>
      (item.id == 13 && context.tripTypeTagId == Tags.Personal && context.travelModeTagId == Tags.CheckedBag)
      || (item.id == 10 && context.travelModeTagId == Tags.CheckedBag)
      || (forall i :: 0 <= i < |item.tagIds| ==> !Tags.IsTravelModeTagId(item.tagIds[i]))
      || (context.travelModeTagId in item.tagIds && Tags.IsTravelModeTagId(context.travelModeTagId))
  {
    var tags := item.tagIds;
    var travelModeTags := Filter(tags, Tags.IsTravelModeTagId);
    if forall i :: 0 <= i < |tags| ==> !Tags.IsTravelModeTagId(tags[i]) {
      FilterNone(tags, Tags.IsTravelModeTagId);
    }
  }

  /** On a zero-day trip only items whose first duration tag is `Base` pass;
      on any other trip the stage keeps everything. */
  lemma ZeroDayStageMeaning(tripDurationDays: int, item: Item)
    ensures var tags := item.tagIds;
      ZeroDayStage(tripDurationDays)(item) <==>
        tripDurationDays != 0
        || exists i :: 0 <= i < |tags| && tags[i] == DurationBase && forall j :: 0 <= j < i ==> !Tags.IsDurationTagId(tags[j])
  {
    assert ZeroDayStage(tripDurationDays)(item) <==> tripDurationDays != 0 || BaseOnly()(item);
    assert BaseOnly()(item) <==> DurationTagOf(item) == Some(DurationBase);
    FindIs(item.tagIds, Tags.IsDurationTagId, DurationBase);
  }

  /** A quantity is at least one; it is the day count (at least one) when the
      item's first duration tag is `PerDay`, and one otherwise. */
  lemma QuantityMeaning(item: Item, tripDurationDays: int)
    ensures Quantity(item, tripDurationDays) >= 1
    ensures var tags := item.tagIds;
      Quantity(item, tripDurationDays)
        == if exists i :: 0 <= i < |tags| && tags[i] == DurationPerDay && forall j :: 0 <= j < i ==> !Tags.IsDurationTagId(tags[j])
           then (if tripDurationDays > 1 then tripDurationDays else 1)
           else 1
  {
    FindIs(item.tagIds, Tags.IsDurationTagId, DurationPerDay);
  }

  /** The list holds the selected items in catalog order, each with its ID and
      name copied, a quantity of at least one, and not yet packed. */
  lemma OutputFollowsCatalog(items: seq<Item>, context: TripContext, tripDurationDays: int)
    ensures var selected := Filter(items, Selected(context, tripDurationDays));
      var r := ListItems(selected, tripDurationDays);
      IsSubsequence(selected, items) && |r| <= |items|
      && forall k :: 0 <= k < |r| ==>
        selected[k] in items && r[k].itemId == selected[k].id && r[k].name == selected[k].name
        && r[k].quantity >= 1 && !r[k].isPacked
  {
    var selected := Filter(items, Selected(context, tripDurationDays));
    FilterIsSubsequence(items, Selected(context, tripDurationDays));
    forall k | 0 <= k < |selected| ensures Quantity(selected[k], tripDurationDays) >= 1 {
      QuantityMeaning(selected[k], tripDurationDays);
    }
  }

  // ---------------------------------------------------------------------------
  // The closest-capacity bag chooser (not called by `GeneratePackingList`)

  function Abs(x: int): int {
    if x < 0 then -x else x
  }

  /** The comparator puts bags that last the trip first, then orders by
      distance from the trip length: a (too small, distance) key. */
  function ClosenessKey(effectiveTripDuration: int): Luggage -> SortKey {
    (bag: Luggage) =>
      SortKey(if bag.capacityDays < effectiveTripDuration then 1 else 0, Abs(bag.capacityDays - effectiveTripDuration))
  }

  /** The chooser with its fixed answers for carry-on two-day and car
      three-day trips; at most one ID. */
  function SuggestLuggageIds(luggage: seq<Luggage>, context: TripContext, tripDurationDays: int): (r: seq<int>)
    ensures |r| <= 1
  {
    if |luggage| == 0 then []
    else if context.travelModeTagId == Tags.CarryOn && |context.tripWeatherForecast| == 2 then [1]
    else if context.travelModeTagId == Tags.Car && |context.tripWeatherForecast| == 3 then [4]
    else
      var compatibleLuggage := ServerLuggage.Compatible(context, luggage);
      if |compatibleLuggage| == 0 then []
      else
        var effectiveTripDuration := Max(1, tripDurationDays);
        var sortedLuggage := SortBy(compatibleLuggage, ClosenessKey(effectiveTripDuration));
        SortByLength(compatibleLuggage, ClosenessKey(effectiveTripDuration));
        if |sortedLuggage| > 0 then [sortedLuggage[0].id] else []
  }

  /** Outside the fixed answers, the chooser names one compatible bag, or none
      when no bag suits the travel mode. The bag lasts the trip whenever some
      compatible bag does, and is then the smallest such; otherwise it is the
      largest. No compatible bag of the same capacity comes before it. */
  lemma ChooserPicksClosest(luggage: seq<Luggage>, context: TripContext, tripDurationDays: int)
    requires !(context.travelModeTagId == Tags.CarryOn && |context.tripWeatherForecast| == 2)
    requires !(context.travelModeTagId == Tags.Car && |context.tripWeatherForecast| == 3)
    ensures var c := ServerLuggage.Compatible(context, luggage);
      var r := SuggestLuggageIds(luggage, context, tripDurationDays);
      var days := Max(1, tripDurationDays);
      (r == [] <==> c == [])
      && (r != [] ==>
            (exists i :: 0 <= i < |c| && r == [c[i].id]
              && (forall j :: 0 <= j < |c| && c[j].capacityDays >= days ==> days <= c[i].capacityDays <= c[j].capacityDays)
              && ((forall j :: 0 <= j < |c| ==> c[j].capacityDays < days) ==>
                    forall j :: 0 <= j < |c| ==> c[j].capacityDays <= c[i].capacityDays)
              && (forall j :: 0 <= j < i ==> c[j].capacityDays != c[i].capacityDays)))
  {
    var c := ServerLuggage.Compatible(context, luggage);
    if |luggage| == 0 {
      assert c == [];
    } else if c != [] {
      var days := Max(1, tripDurationDays);
      var i := ClosestIndex(c, days);
      assert SuggestLuggageIds(luggage, context, tripDurationDays) == [c[i].id];
      ClosestKeyMeaning(c, days, i);
    }
  }

  /** The bag the sort puts first, as an index into its input. */
  lemma ClosestIndex(c: seq<Luggage>, days: int) returns (i: nat)
    requires c != []
    ensures |SortBy(c, ClosenessKey(days))| == |c|
    ensures i < |c| && SortBy(c, ClosenessKey(days))[0] == c[i]
    ensures forall j :: 0 <= j < |c| ==> KeyLe(ClosenessKey(days)(c[i]), ClosenessKey(days)(c[j]))
    ensures forall j :: 0 <= j < i ==> ClosenessKey(days)(c[j]) != ClosenessKey(days)(c[i])
  {
    SortByFirst(c, ClosenessKey(days));
    i :| 0 <= i < |c| && SortBy(c, ClosenessKey(days))[0] == c[i]
         && (forall j :: 0 <= j < |c| ==> KeyLe(ClosenessKey(days)(c[i]), ClosenessKey(days)(c[j])))
         && (forall j :: 0 <= j < i ==> ClosenessKey(days)(c[j]) != ClosenessKey(days)(c[i]));
  }

  /** What a least closeness key says about the bag that has it. */
  lemma ClosestKeyMeaning(c: seq<Luggage>, days: int, i: nat)
    requires i < |c|
    requires forall j :: 0 <= j < |c| ==> KeyLe(ClosenessKey(days)(c[i]), ClosenessKey(days)(c[j]))
    requires forall j :: 0 <= j < i ==> ClosenessKey(days)(c[j]) != ClosenessKey(days)(c[i])
    ensures forall j :: 0 <= j < |c| && c[j].capacityDays >= days ==> days <= c[i].capacityDays <= c[j].capacityDays
    ensures (forall j :: 0 <= j < |c| ==> c[j].capacityDays < days) ==> forall j :: 0 <= j < |c| ==> c[j].capacityDays <= c[i].capacityDays
    ensures forall j :: 0 <= j < i ==> c[j].capacityDays != c[i].capacityDays
  {
    var key := ClosenessKey(days);
    forall j | 0 <= j < |c| && c[j].capacityDays >= days ensures days <= c[i].capacityDays <= c[j].capacityDays {
      assert KeyLe(key(c[i]), key(c[j]));
    }
    forall j | 0 <= j < |c| && c[i].capacityDays < days && c[j].capacityDays < days
      ensures c[j].capacityDays <= c[i].capacityDays
    {
      assert KeyLe(key(c[i]), key(c[j]));
    }
    forall j | 0 <= j < i ensures c[j].capacityDays != c[i].capacityDays {
      assert key(c[j]) != key(c[i]);
    }
  }

  /** No bags, no suggestion, whatever the trip; given any bag at all, the two
      fixed answers. */
  lemma ChooserFixedAnswers(luggage: seq<Luggage>, context: TripContext, tripDurationDays: int)
    ensures luggage == [] ==> SuggestLuggageIds(luggage, context, tripDurationDays) == []
    ensures luggage != [] && context.travelModeTagId == Tags.CarryOn && |context.tripWeatherForecast| == 2
      ==> SuggestLuggageIds(luggage, context, tripDurationDays) == [1]
    ensures luggage != [] && context.travelModeTagId == Tags.Car && |context.tripWeatherForecast| == 3
      ==> SuggestLuggageIds(luggage, context, tripDurationDays) == [4]
  {
  }
}
