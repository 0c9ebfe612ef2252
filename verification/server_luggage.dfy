/** The server-side bag chooser: among the bags that suit the trip's travel
    mode, the smallest one that lasts the trip, else the largest one. */
module ServerLuggage {
  import opened Wrappers
  import opened Seqs
  import opened Sorting
  import opened Schemas

  function FitsMode(mode: int): Luggage -> bool {
    (bag: Luggage) => mode in bag.travelModeTagIds
  }

  function LastsFor(days: int): Luggage -> bool {
    (bag: Luggage) => bag.capacityDays >= days
  }

  /** The comparator subtracts capacities: ascending capacity. */
  function CapacityKey(bag: Luggage): SortKey {
    SortKey(bag.capacityDays, 0)
  }

  function Compatible(ctx: TripContext, userLuggage: seq<Luggage>): seq<Luggage> {
    Filter(userLuggage, FitsMode(ctx.travelModeTagId))
  }

  /** The chosen bag; the trip lasts as many days as the forecast has entries. */
  function ChosenBag(ctx: TripContext, userLuggage: seq<Luggage>): Option<Luggage> {
    var tripDurationDays := |ctx.tripWeatherForecast|;
    if |userLuggage| == 0 then None
    else
      var compatibleLuggage := Compatible(ctx, userLuggage);
      if |compatibleLuggage| == 0 then None
      else
        SortByLength(compatibleLuggage, CapacityKey);
        FromSorted(SortBy(compatibleLuggage, CapacityKey), tripDurationDays)
  }

  /** From the bags in ascending capacity: the first that lasts the trip, else
      the last one. */
  function FromSorted(sortedCompatible: seq<Luggage>, tripDurationDays: int): Option<Luggage>
    requires sortedCompatible != []
  {
    var fittingLuggage := Filter(sortedCompatible, LastsFor(tripDurationDays));
    if |fittingLuggage| > 0 then Some(fittingLuggage[0])
    else Some(sortedCompatible[|sortedCompatible| - 1])
  }

  /** The ID of the chosen bag, or none. */
  function SuggestLuggage(ctx: TripContext, userLuggage: seq<Luggage>): (r: Option<int>)
    ensures r.None? <==> Compatible(ctx, userLuggage) == []
    ensures r.Some? ==> exists bag :: bag in Compatible(ctx, userLuggage) && bag.id == r.value
  {
    ChosenExists(ctx, userLuggage);
    match ChosenBag(ctx, userLuggage)
    case None => None
    case Some(bag) => Some(bag.id)
  }

  /** There is a bag to choose exactly when some bag suits the travel mode,
      and the chosen bag is one of those. */
  lemma ChosenExists(ctx: TripContext, userLuggage: seq<Luggage>)
    ensures ChosenBag(ctx, userLuggage).None? <==> Compatible(ctx, userLuggage) == []
    ensures ChosenBag(ctx, userLuggage).Some? ==> ChosenBag(ctx, userLuggage).value in Compatible(ctx, userLuggage)
  {
    var compatible := Compatible(ctx, userLuggage);
    if |userLuggage| == 0 {
      assert compatible == [];
    } else if compatible != [] {
      var sorted := SortBy(compatible, CapacityKey);
      SortByLength(compatible, CapacityKey);
      var fitting := Filter(sorted, LastsFor(|ctx.tripWeatherForecast|));
      if |fitting| > 0 {
        assert fitting[0] in sorted;
      } else {
        assert sorted[|sorted| - 1] in sorted;
      }
    }
  }

  /** In ascending capacity order, when bag `m` lasts `days`, the choice is the
      first bag that does: every bag before it falls short. */
  lemma FirstFitting(sorted: seq<Luggage>, days: int, m: nat) returns (f: nat)
    requires m < |sorted| && sorted[m].capacityDays >= days
    ensures f <= m && FromSorted(sorted, days) == Some(sorted[f])
    ensures sorted[f].capacityDays >= days
    ensures forall j :: 0 <= j < f ==> sorted[j].capacityDays < days
  {
    var fits := LastsFor(days);
    assert sorted[m] in Filter(sorted, fits);
    f := FilterHeadIndex(sorted, fits);
    assert !(m < f);
  }

  /** In ascending capacity order, when no bag lasts `days`, the choice is the
      last bag. */
  lemma NoneFitting(sorted: seq<Luggage>, days: int)
    requires sorted != [] && forall j :: 0 <= j < |sorted| ==> sorted[j].capacityDays < days
    ensures FromSorted(sorted, days) == Some(sorted[|sorted| - 1])
  {
    FilterNone(sorted, LastsFor(days));
  }

  /** When no bag of `c` lasts `days`, the choice from its sorted copy is the
      copy's last bag. */
  lemma SortedNoneFitting(c: seq<Luggage>, days: int)
    requires c != [] && forall j :: 0 <= j < |c| ==> c[j].capacityDays < days
    ensures |SortBy(c, CapacityKey)| == |c|
    ensures FromSorted(SortBy(c, CapacityKey), days) == Some(SortBy(c, CapacityKey)[|c| - 1])
  {
    var sorted := SortBy(c, CapacityKey);
    SortByLength(c, CapacityKey);
    forall j | 0 <= j < |sorted| ensures sorted[j].capacityDays < days {
      assert sorted[j] in c;
    }
    NoneFitting(sorted, days);
  }

  /** When some compatible bag lasts the trip, the choice lasts it, no
      compatible bag that lasts it is smaller, and no compatible bag of the same
      capacity comes before it. */
  lemma SmallestFittingChosen(ctx: TripContext, userLuggage: seq<Luggage>, k: nat)
    requires var c := Compatible(ctx, userLuggage); k < |c| && c[k].capacityDays >= |ctx.tripWeatherForecast|
    ensures var c := Compatible(ctx, userLuggage); var days := |ctx.tripWeatherForecast|;
      exists i :: 0 <= i < |c| && ChosenBag(ctx, userLuggage) == Some(c[i])
        && c[i].capacityDays >= days
        && (forall j :: 0 <= j < |c| && c[j].capacityDays >= days ==> c[i].capacityDays <= c[j].capacityDays)
        && (forall j :: 0 <= j < i ==> c[j].capacityDays != c[i].capacityDays)
  {
    var c := Compatible(ctx, userLuggage);
    var days := |ctx.tripWeatherForecast|;
    assert c[k] in userLuggage;
    SortByLength(c, CapacityKey);
    var f := FirstFittingSorted(c, days, k);
    assert ChosenBag(ctx, userLuggage) == Some(SortBy(c, CapacityKey)[f]);
    var i := FirstWithKey(c, CapacityKey, f);
  }

  /** The first bag lasting `days` in the ascending sort of `c`, when bag `k`
      of `c` lasts that long: no bag of `c` that lasts it is smaller, and none
      before it in the sort has its capacity. */
  lemma FirstFittingSorted(c: seq<Luggage>, days: int, k: nat) returns (f: nat)
    requires k < |c| && c[k].capacityDays >= days
    ensures |SortBy(c, CapacityKey)| == |c| && f < |c|
    ensures FromSorted(SortBy(c, CapacityKey), days) == Some(SortBy(c, CapacityKey)[f])
    ensures SortBy(c, CapacityKey)[f].capacityDays >= days
    ensures forall j :: 0 <= j < |c| && c[j].capacityDays >= days ==> SortBy(c, CapacityKey)[f].capacityDays <= c[j].capacityDays
    ensures forall j :: 0 <= j < f ==> CapacityKey(SortBy(c, CapacityKey)[j]) != CapacityKey(SortBy(c, CapacityKey)[f])
  {
    var sorted := SortBy(c, CapacityKey);
    SortByLength(c, CapacityKey);
    assert c[k] in sorted;
    var m :| 0 <= m < |sorted| && sorted[m] == c[k];
    f := FirstFitting(sorted, days, m);
    forall j | 0 <= j < |c| && c[j].capacityDays >= days ensures sorted[f].capacityDays <= c[j].capacityDays {
      assert c[j] in sorted;
      var n :| 0 <= n < |sorted| && sorted[n] == c[j];
      assert !(n < f);
      SortByOrdered(c, CapacityKey, f, n);
    }
  }

  /** When no compatible bag lasts the trip, the choice is a compatible bag of
      the largest capacity, the last of that capacity in input order. */
  lemma LargestChosenOtherwise(ctx: TripContext, userLuggage: seq<Luggage>)
    requires var c := Compatible(ctx, userLuggage);
      c != [] && forall j :: 0 <= j < |c| ==> c[j].capacityDays < |ctx.tripWeatherForecast|
    ensures var c := Compatible(ctx, userLuggage);
      exists i :: 0 <= i < |c| && ChosenBag(ctx, userLuggage) == Some(c[i])
        && (forall j :: 0 <= j < |c| ==> c[j].capacityDays <= c[i].capacityDays)
        && (forall j :: i < j < |c| ==> c[j].capacityDays != c[i].capacityDays)
  {
    var c := Compatible(ctx, userLuggage);
    var days := |ctx.tripWeatherForecast|;
    assert c[0] in userLuggage;
    SortedNoneFitting(c, days);
    SortByLast(c, CapacityKey);
  }

  /** Only the number of forecast days matters, not which weather they have. */
  lemma OnlyDurationMatters(ctx: TripContext, forecast: seq<int>, userLuggage: seq<Luggage>)
    requires |forecast| == |ctx.tripWeatherForecast|
    ensures SuggestLuggage(ctx.(tripWeatherForecast := forecast), userLuggage) == SuggestLuggage(ctx, userLuggage)
  {
    assert Compatible(ctx.(tripWeatherForecast := forecast), userLuggage) == Compatible(ctx, userLuggage);
  }
}
