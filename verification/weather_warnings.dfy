/** The notice shown on a trip whose forecast could not be fetched. */
module WeatherWarnings {
  import opened Wrappers
  import opened Seqs
  import opened PackingList

  const NoForecastWarning :=
    "Unable to fetch weather for this trip. Weather-conditional items were skipped when generating this list."

  /** A warning exactly when there is no weather record; any record, even one
      without forecast days, silences it. */
  function TripWeatherWarning(weather: Option<TripWeather>): (w: Option<string>)
    ensures w.Some? <==> weather.None?
    ensures w.Some? ==> w.value == NoForecastWarning
  {
    if weather.Some? then None else Some(NoForecastWarning)
  }

  /** The warning does not depend on the forecast days or on when they were
      fetched. */
  lemma WarningIgnoresContents(a: TripWeather, b: TripWeather)
    ensures TripWeatherWarning(Some(a)) == TripWeatherWarning(Some(b)) == None
  {
  }

  /** The warning tells the truth: whenever it is shown for a trip, the
      generator keeps no weather-conditional item for that trip, so its list
      holds only items without weather conditions. */
  lemma WarningMeansConditionalSkipped(items: seq<MasterItem>, trip: TripDetails)
    requires TripWeatherWarning(trip.weather).Some?
    ensures forall x :: x in Kept(items, trip) ==> x.weatherConditions.None?
    ensures forall x :: (x in items && x.weatherConditions.None? && (AllTripTypes in x.tripTypes || trip.tripType in x.tripTypes)
                         ==> x in Kept(items, trip))
  {
    forall x | x in Kept(items, trip) ensures x.weatherConditions.None? {
      KeptMembers(items, trip, x);
    }
    forall x | x in items && x.weatherConditions.None? && (AllTripTypes in x.tripTypes || trip.tripType in x.tripTypes)
      ensures x in Kept(items, trip)
    {
      KeptMembers(items, trip, x);
    }
  }
}
