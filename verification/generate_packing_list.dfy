/** The forecast-aware packing-list generator: from a catalog of master items
    and a trip (type, length in days, optional forecast) to the list of items to
    pack with their quantities. */
module PackingList {
  import opened Wrappers
  import opened Seqs
  import WeatherCodes

  /** The weather fields the generator reads; an absent `rain`/`snow` flag is
      `false`, an absent threshold is `None`. */
  datatype WeatherConditions = WeatherConditions(
    minTemp: Option<real>, maxTemp: Option<real>, rain: bool, snow: bool)

  datatype RuleType = PerDay | PerNDays | Fixed

  datatype QuantityRule = QuantityRule(ruleType: RuleType, value: int)

  datatype MasterItem = MasterItem(
    id: string, name: string, category: string, tripTypes: seq<string>,
    weatherConditions: Option<WeatherConditions>, quantityRule: QuantityRule)

  datatype DailyForecast = DailyForecast(
    date: string, highTemp: real, lowTemp: real, precipProbability: real,
    snowfall: real, weatherCode: int, condition: string)

  datatype TripWeather = TripWeather(dailyForecasts: seq<DailyForecast>, fetchedAt: Option<int>)

  /** `weather == None` when no forecast could be fetched. */
  datatype TripDetails = TripDetails(tripType: string, tripDays: int, weather: Option<TripWeather>)

  datatype GeneratedItem = GeneratedItem(itemName: string, category: string, quantity: int)

  /** The two errors the generator throws. */
  datatype GenerateError = TripDaysNotPositive | RuleValueNotPositive

  function ErrorMessage(e: GenerateError): string {
    match e
    case TripDaysNotPositive => "tripDays must be > 0"
    case RuleValueNotPositive => "quantityRule.value must be > 0"
  }

  /** The trip-type sentinel that matches every trip. */
  const AllTripTypes := "all"

  const RainThreshold: real := 40.0

  // ---------------------------------------------------------------------------
  // Weather summary over all forecast days

  /** `minHighTemp == None` stands for the initial +Infinity and
      `maxLowTemp == None` for the initial -Infinity: both stay so exactly when
      there is no forecast day. */
  datatype WeatherSummary = WeatherSummary(
    minHighTemp: Option<real>, maxLowTemp: Option<real>, hasRain: bool, hasSnow: bool)

  const NoWeather := WeatherSummary(None, None, false, false)

  predicate RainyDay(day: DailyForecast) {
    day.precipProbability > RainThreshold || WeatherCodes.IsRainCode(day.weatherCode)
  }

  predicate SnowyDay(day: DailyForecast) {
    day.snowfall > 0.0 || WeatherCodes.IsSnowCode(day.weatherCode)
  }

  /** One step of the summary fold. */
  function AddDay(s: WeatherSummary, day: DailyForecast): WeatherSummary {
    WeatherSummary(
      if s.minHighTemp.None? || day.highTemp < s.minHighTemp.value then Some(day.highTemp) else s.minHighTemp,
      if s.maxLowTemp.None? || day.lowTemp > s.maxLowTemp.value then Some(day.lowTemp) else s.maxLowTemp,
      s.hasRain || RainyDay(day),
      s.hasSnow || SnowyDay(day))
  }

  /** The summary after folding `days` in order. */
  function Summarize(days: seq<DailyForecast>): WeatherSummary {
    if days == [] then NoWeather else AddDay(Summarize(days[..|days| - 1]), days[|days| - 1])
  }

  /** The summary the generator computes for a trip: the fold runs only over a
      non-empty forecast. */
  function SummaryOf(trip: TripDetails): WeatherSummary {
    if trip.weather.Some? && |trip.weather.value.dailyForecasts| > 0
    then Summarize(trip.weather.value.dailyForecasts)
    else NoWeather
  }

  /** What the fold computes: the lowest high, the highest low, and whether
      some day is rainy or snowy. */
  lemma {:induction false} SummarizeMeaning(days: seq<DailyForecast>)
    ensures Summarize(days).minHighTemp.None? <==> days == []
    ensures Summarize(days).maxLowTemp.None? <==> days == []
    ensures Summarize(days).minHighTemp.Some? ==>
      (exists i :: 0 <= i < |days| && days[i].highTemp == Summarize(days).minHighTemp.value)
      && forall i :: 0 <= i < |days| ==> Summarize(days).minHighTemp.value <= days[i].highTemp
    ensures Summarize(days).maxLowTemp.Some? ==>
      (exists i :: 0 <= i < |days| && days[i].lowTemp == Summarize(days).maxLowTemp.value)
      && forall i :: 0 <= i < |days| ==> days[i].lowTemp <= Summarize(days).maxLowTemp.value
    ensures Summarize(days).hasRain <==> exists i :: 0 <= i < |days| && RainyDay(days[i])
    ensures Summarize(days).hasSnow <==> exists i :: 0 <= i < |days| && SnowyDay(days[i])
  {
    if days != [] {
      var n := |days|;
      var init := days[..n - 1];
      SummarizeMeaning(init);
      assert forall i :: 0 <= i < n - 1 ==> days[i] == init[i];
      if Summarize(days).hasRain {
        if !RainyDay(days[n - 1]) {
          var i :| 0 <= i < n - 1 && RainyDay(init[i]);
          assert RainyDay(days[i]);
        }
      }
      if Summarize(days).hasSnow {
        if !SnowyDay(days[n - 1]) {
          var i :| 0 <= i < n - 1 && SnowyDay(init[i]);
          assert SnowyDay(days[i]);
        }
      }
      var s := Summarize(days);
      if init != [] && s.minHighTemp != Some(days[n - 1].highTemp) {
        var i :| 0 <= i < n - 1 && init[i].highTemp == Summarize(init).minHighTemp.value;
        assert days[i].highTemp == s.minHighTemp.value;
      }
      if init != [] && s.maxLowTemp != Some(days[n - 1].lowTemp) {
        var i :| 0 <= i < n - 1 && init[i].lowTemp == Summarize(init).maxLowTemp.value;
        assert days[i].lowTemp == s.maxLowTemp.value;
      }
    }
  }

  /** The concrete boundary: a 40% chance of rain does not count as rain, 41% does. */
  lemma RainThresholdIsStrict(d: DailyForecast)
    requires d.weatherCode == 0
    ensures Summarize([d.(precipProbability := 40.0)]).hasRain == false
    ensures Summarize([d.(precipProbability := 41.0)]).hasRain == true
  {
    assert [d.(precipProbability := 40.0)][..0] == [];
    assert [d.(precipProbability := 41.0)][..0] == [];
  }

  // ---------------------------------------------------------------------------
  // Filters

  /** Whether the weather conditions of an item hold for a summary: any present
      sub-condition that holds is enough. */
  predicate Matches(wc: WeatherConditions, s: WeatherSummary) {
    // minTemp: cold gear, when the lowest forecast high is at or below it
    (wc.minTemp.Some? && s.minHighTemp.Some? && s.minHighTemp.value <= wc.minTemp.value)
    // maxTemp: warm gear, when the highest forecast low is at or above it
    || (wc.maxTemp.Some? && s.maxLowTemp.Some? && s.maxLowTemp.value >= wc.maxTemp.value)
    || (wc.rain && s.hasRain)
    || (wc.snow && s.hasSnow)
  }

  predicate TripTypeMatches(item: MasterItem, tripType: string) {
    AllTripTypes in item.tripTypes || tripType in item.tripTypes
  }

  predicate WeatherAllows(item: MasterItem, trip: TripDetails) {
    item.weatherConditions.None?
    || (trip.weather.Some? && Matches(item.weatherConditions.value, SummaryOf(trip)))
  }

  /** Both filters, given the trip type, whether the trip has a forecast and
      the summary of its days. */
  predicate Passes(item: MasterItem, tripType: string, hasForecast: bool, s: WeatherSummary) {
    TripTypeMatches(item, tripType)
    && (item.weatherConditions.None? || (hasForecast && Matches(item.weatherConditions.value, s)))
  }

  function PassesFor(tripType: string, hasForecast: bool, s: WeatherSummary): MasterItem -> bool {
    item => Passes(item, tripType, hasForecast, s)
  }

  /** The item passes both filters and reaches the quantity computation. */
  predicate Survives(item: MasterItem, trip: TripDetails) {
    Passes(item, trip.tripType, trip.weather.Some?, SummaryOf(trip))
  }

  function SurvivesFor(trip: TripDetails): MasterItem -> bool {
    PassesFor(trip.tripType, trip.weather.Some?, SummaryOf(trip))
  }

  /** The catalog entries that pass both filters, in catalog order. */
  function Kept(items: seq<MasterItem>, trip: TripDetails): seq<MasterItem> {
    Filter(items, SurvivesFor(trip))
  }

  lemma KeptSnoc(items: seq<MasterItem>, i: nat, trip: TripDetails)
    requires i < |items|
    ensures Kept(items[..i + 1], trip)
            == Kept(items[..i], trip) + (if Survives(items[i], trip) then [items[i]] else [])
  {
    FilterSnoc(items, i, SurvivesFor(trip));
  }

  /** Over a forecast, the conditions hold exactly when some day is cold,
      warm, rainy or snowy enough; with no forecast days they never hold. */
  lemma MatchesForecast(wc: WeatherConditions, days: seq<DailyForecast>)
    ensures Matches(wc, Summarize(days)) <==>
      (wc.minTemp.Some? && exists i :: 0 <= i < |days| && days[i].highTemp <= wc.minTemp.value)
      || (wc.maxTemp.Some? && exists i :: 0 <= i < |days| && days[i].lowTemp >= wc.maxTemp.value)
      || (wc.rain && exists i :: 0 <= i < |days| && RainyDay(days[i]))
      || (wc.snow && exists i :: 0 <= i < |days| && SnowyDay(days[i]))
    ensures days == [] ==> !Matches(wc, Summarize(days))
  {
    SummarizeMeaning(days);
  }

  /** Conditions with no sub-condition present (for instance an item carrying
      only fields this generator does not read) never match. */
  lemma EmptyConditionsNeverMatch(s: WeatherSummary)
    ensures !Matches(WeatherConditions(None, None, false, false), s)
  {
  }

  /** Items without weather conditions are unaffected by the forecast;
      weather-conditional items are always dropped when there is none. */
  lemma WeatherFilterCases(item: MasterItem, trip: TripDetails, weather: Option<TripWeather>)
    ensures item.weatherConditions.None? ==>
      (Survives(item, trip) <==> Survives(item, trip.(weather := weather)))
    ensures item.weatherConditions.Some? && trip.weather.None? ==> !Survives(item, trip)
    ensures item.weatherConditions.Some? && trip.weather.Some? ==>
      (Survives(item, trip) <==>
         (TripTypeMatches(item, trip.tripType)
          && Matches(item.weatherConditions.value, Summarize(trip.weather.value.dailyForecasts))))
  {
  }

  /** A catalog entry is kept exactly when it passes the trip-type filter and
      the weather filter. */
  lemma KeptMembers(items: seq<MasterItem>, trip: TripDetails, x: MasterItem)
    ensures x in Kept(items, trip) <==>
      x in items && (AllTripTypes in x.tripTypes || trip.tripType in x.tripTypes) && WeatherAllows(x, trip)
  {
    if x in items {
      var i :| 0 <= i < |items| && items[i] == x;
    }
  }

  // ---------------------------------------------------------------------------
  // Quantities

  /** `Math.ceil(a / b)` for positive `b`. */
  function CeilDiv(a: int, b: int): (q: int)
    requires b > 0
    ensures b * (q - 1) < a <= b * q
  {
    (a + b - 1) / b
  }

  function Quantity(rule: QuantityRule, tripDays: int): int
    requires tripDays > 0 && rule.value > 0
  {
    match rule.ruleType
    case PerDay => tripDays * rule.value
    case PerNDays => Max(1, CeilDiv(tripDays, rule.value))
    case Fixed => rule.value
  }

  /** Every rule yields at least one unit; `PerNDays` gives the least count
      whose coverage (count times `value` days) reaches the trip length. */
  lemma QuantityMeaning(rule: QuantityRule, tripDays: int)
    requires tripDays > 0 && rule.value > 0
    ensures Quantity(rule, tripDays) >= 1
    ensures rule.ruleType == PerNDays ==>
      rule.value * (Quantity(rule, tripDays) - 1) < tripDays <= rule.value * Quantity(rule, tripDays)
    ensures rule.ruleType == Fixed ==> Quantity(rule, tripDays) == rule.value
  {
    if rule.ruleType == PerDay {
      assert tripDays * rule.value >= 1 * rule.value by {
        assert tripDays >= 1;
      }
    }
  }

  ghost predicate Quantifiable(kept: seq<MasterItem>, tripDays: int) {
    forall i :: 0 <= i < |kept| ==> tripDays > 0 && kept[i].quantityRule.value > 0
  }

  function Entry(item: MasterItem, tripDays: int): GeneratedItem
    requires tripDays > 0 && item.quantityRule.value > 0
  {
    GeneratedItem(item.name, item.category, Quantity(item.quantityRule, tripDays))
  }

  /** One output entry per kept item, copying name and category. */
  function Entries(kept: seq<MasterItem>, tripDays: int): (r: seq<GeneratedItem>)
    requires Quantifiable(kept, tripDays)
    ensures |r| == |kept|
    ensures forall j :: 0 <= j < |r| ==> r[j] == Entry(kept[j], tripDays)
  {
    if kept == [] then []
    else
      var n := |kept|;
      assert forall i :: 0 <= i < n - 1 ==> kept[..n - 1][i] == kept[i];
      Entries(kept[..n - 1], tripDays) + [Entry(kept[n - 1], tripDays)]
  }

  // ---------------------------------------------------------------------------
  // The generator

  /** The outcome for the kept items: the first of them already fails when
      `tripDays` is not positive; otherwise any with a non-positive rule value
      fails; otherwise one entry per kept item. */
  function Quantify(kept: seq<MasterItem>, tripDays: int): Result<seq<GeneratedItem>, GenerateError> {
    if kept != [] && tripDays <= 0 then Err(TripDaysNotPositive)
    else if exists k :: k in kept && k.quantityRule.value <= 0 then Err(RuleValueNotPositive)
    else Ok(Entries(kept, tripDays))
  }

  /** Specification of the generator. */
  function Generate(items: seq<MasterItem>, trip: TripDetails): Result<seq<GeneratedItem>, GenerateError> {
    Quantify(Kept(items, trip), trip.tripDays)
  }

  lemma EntriesSnoc(kept: seq<MasterItem>, x: MasterItem, tripDays: int)
    requires Quantifiable(kept, tripDays) && tripDays > 0 && x.quantityRule.value > 0
    ensures Quantifiable(kept + [x], tripDays)
    ensures Entries(kept + [x], tripDays) == Entries(kept, tripDays) + [Entry(x, tripDays)]
  {
    assert (kept + [x])[..|kept|] == kept;
  }

  /** A kept item that cannot be quantified makes the whole call fail. */
  lemma GenerateFailsAt(items: seq<MasterItem>, trip: TripDetails, i: nat)
    requires i < |items| && Survives(items[i], trip)
    ensures trip.tripDays <= 0 ==> Generate(items, trip) == Err(TripDaysNotPositive)
    ensures trip.tripDays > 0 && items[i].quantityRule.value <= 0 ==> Generate(items, trip) == Err(RuleValueNotPositive)
  {
    KeptMembers(items, trip, items[i]);
  }

  /** One more catalog entry, when the shorter catalog succeeded: a skipped
      entry changes nothing, a kept one with a positive rule value and
      `tripDays` appends its entry. */
  lemma GenerateStep(items: seq<MasterItem>, trip: TripDetails, i: nat, out: seq<GeneratedItem>)
    requires i < |items| && Generate(items[..i], trip) == Ok(out)
    ensures !Survives(items[i], trip) ==> Generate(items[..i + 1], trip) == Ok(out)
    ensures Survives(items[i], trip) && trip.tripDays > 0 && items[i].quantityRule.value > 0 ==>
      Generate(items[..i + 1], trip) == Ok(out + [Entry(items[i], trip.tripDays)])
  {
    var kept := Kept(items[..i], trip);
    KeptSnoc(items, i, trip);
    if !Survives(items[i], trip) {
      assert Kept(items[..i + 1], trip) == kept;
    } else if trip.tripDays > 0 && items[i].quantityRule.value > 0 {
      QuantifyAppend(kept, items[i], trip.tripDays, out);
    }
  }

  /** Success on the kept items extends by one item with a positive rule value. */
  lemma QuantifyAppend(kept: seq<MasterItem>, x: MasterItem, tripDays: int, out: seq<GeneratedItem>)
    requires Quantify(kept, tripDays) == Ok(out) && tripDays > 0 && x.quantityRule.value > 0
    ensures Quantify(kept + [x], tripDays) == Ok(out + [Entry(x, tripDays)])
  {
    assert Quantifiable(kept, tripDays) by {
      forall j | 0 <= j < |kept| ensures kept[j].quantityRule.value > 0 {
        assert kept[j] in kept;
      }
    }
    EntriesSnoc(kept, x, tripDays);
    var kept' := kept + [x];
    forall k | k in kept' ensures k.quantityRule.value > 0 {
      var j :| 0 <= j < |kept'| && kept'[j] == k;
      if j < |kept| {
        assert k in kept;
      }
    }
  }

  /** The weather summary across all forecast days; with no forecast, or an
      empty one, the infinite initial values and `false` flags remain. */
  method SummarizeForecast(trip: TripDetails)
    returns (minHighTemp: Option<real>, maxLowTemp: Option<real>, hasRain: bool, hasSnow: bool)
    ensures WeatherSummary(minHighTemp, maxLowTemp, hasRain, hasSnow) == SummaryOf(trip)
  {
    // Weather summary across all forecast days
    minHighTemp := None;  // +Infinity
    maxLowTemp := None;   // -Infinity
    hasRain := false;
    hasSnow := false;

    if trip.weather.Some? && |trip.weather.value.dailyForecasts| > 0 {
      var days := trip.weather.value.dailyForecasts;
      for i := 0 to |days|
        invariant WeatherSummary(minHighTemp, maxLowTemp, hasRain, hasSnow) == Summarize(days[..i])
      {
        var day := days[i];
        if minHighTemp.None? || day.highTemp < minHighTemp.value { minHighTemp := Some(day.highTemp); }
        if maxLowTemp.None? || day.lowTemp > maxLowTemp.value { maxLowTemp := Some(day.lowTemp); }
        if day.precipProbability > RainThreshold { hasRain := true; }
        if WeatherCodes.IsRainCode(day.weatherCode) { hasRain := true; }
        if day.snowfall > 0.0 { hasSnow := true; }
        if WeatherCodes.IsSnowCode(day.weatherCode) { hasSnow := true; }
        assert days[..i + 1][..i] == days[..i];
      }
      assert days[..|days|] == days;
    }
  }

  /** Steps 1 and 2 of the generator for one catalog entry, given the weather
      summary: `false` where the generator skips the entry. */
  method PassesFilters(item: MasterItem, trip: TripDetails, minHighTemp: Option<real>,
                       maxLowTemp: Option<real>, hasRain: bool, hasSnow: bool)
    returns (keep: bool)
    ensures keep == Passes(item, trip.tripType, trip.weather.Some?,
                           WeatherSummary(minHighTemp, maxLowTemp, hasRain, hasSnow))
  {
    // 1. Filter by trip type
    if !(AllTripTypes in item.tripTypes) && !(trip.tripType in item.tripTypes) {
      return false;
    }

    // 2. Filter by weather conditions
    if item.weatherConditions.Some? {
      if trip.weather.None? {
        return false;
      }
      var wc := item.weatherConditions.value;
      var weatherMatch := false;
      if wc.minTemp.Some? && minHighTemp.Some? && minHighTemp.value <= wc.minTemp.value {
        weatherMatch := true;
      }
      if wc.maxTemp.Some? && maxLowTemp.Some? && maxLowTemp.value >= wc.maxTemp.value {
        weatherMatch := true;
      }
      if wc.rain && hasRain { weatherMatch := true; }
      if wc.snow && hasSnow { weatherMatch := true; }
      if !weatherMatch {
        return false;
      }
    }
    return true;
  }

  /** The generator: the summary loop, then one pass over the catalog that
      skips filtered entries and stops at the first error. */
  method GeneratePackingList(masterItems: seq<MasterItem>, trip: TripDetails)
    returns (r: Result<seq<GeneratedItem>, GenerateError>)
    ensures r == Generate(masterItems, trip)
  {
    var minHighTemp, maxLowTemp, hasRain, hasSnow := SummarizeForecast(trip);

    var result: seq<GeneratedItem> := [];
    for i := 0 to |masterItems|
      invariant Generate(masterItems[..i], trip) == Ok(result)
    {
      var item := masterItems[i];
      GenerateStep(masterItems, trip, i, result);

      var keep := PassesFilters(item, trip, minHighTemp, maxLowTemp, hasRain, hasSnow);
      assert keep == Survives(item, trip);
      if !keep {
        continue;
      }

      // 3. Calculate quantity
      if trip.tripDays <= 0 {
        GenerateFailsAt(masterItems, trip, i);
        return Err(TripDaysNotPositive);
      }
      if item.quantityRule.value <= 0 {
        GenerateFailsAt(masterItems, trip, i);
        return Err(RuleValueNotPositive);
      }
      var quantity := Quantity(item.quantityRule, trip.tripDays);
      result := result + [GeneratedItem(item.name, item.category, quantity)];
    }
    assert masterItems[..|masterItems|] == masterItems;
    return Ok(result);
  }

  // ---------------------------------------------------------------------------
  // Properties of the generator

  /** The output follows the catalog: it is made of the kept items, a
      subsequence of the catalog in catalog order, with name and category copied
      verbatim and a quantity of at least one. */
  lemma GenerateFollowsCatalog(items: seq<MasterItem>, trip: TripDetails)
    requires Generate(items, trip).Ok?
    ensures var out := Generate(items, trip).value; var kept := Kept(items, trip);
      IsSubsequence(kept, items) && |out| == |kept| <= |items|
      && forall j :: 0 <= j < |out| ==>
           out[j].itemName == kept[j].name && out[j].category == kept[j].category && out[j].quantity >= 1
  {
    var kept := Kept(items, trip);
    FilterIsSubsequence(items, SurvivesFor(trip));
    var out := Generate(items, trip).value;
    forall j | 0 <= j < |out| ensures out[j].quantity >= 1 {
      assert kept[j] in kept;
      QuantityMeaning(kept[j].quantityRule, trip.tripDays);
    }
  }

  /** Errors arise only from items that passed both filters: `tripDays` is
      checked first, then the rule's value; a catalog that is filtered out
      entirely gives an empty list whatever `tripDays` is. */
  lemma GenerateErrors(items: seq<MasterItem>, trip: TripDetails)
    ensures Kept(items, trip) == [] ==> Generate(items, trip) == Ok([])
    ensures Generate(items, trip) == Err(TripDaysNotPositive) <==>
      (exists x :: x in items && Survives(x, trip)) && trip.tripDays <= 0
    ensures Generate(items, trip) == Err(RuleValueNotPositive) <==>
      trip.tripDays > 0 && exists x :: x in items && Survives(x, trip) && x.quantityRule.value <= 0
  {
    forall x | x in items ensures x in Kept(items, trip) <==> Survives(x, trip) {
      KeptMembers(items, trip, x);
    }
    if Kept(items, trip) != [] {
      assert Kept(items, trip)[0] in Kept(items, trip);
    }
  }
}
