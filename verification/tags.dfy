/** The predefined tag identifiers of the tag-based engine, in four groups
    (trip type, weather, duration, travel mode), with their display names. */
module Tags {
  // Trip type
  const Business := 1
  const Personal := 2
  // Weather
  const Warm := 3
  const Cold := 4
  const Rain := 5
  const AnyWeather := 6
  // Duration
  const Base := 7
  const PerDay := 8
  // Travel mode
  const CarryOn := 9
  const CheckedBag := 10
  const Car := 11
  const Train := 12

  /** The values of the combined tag-ID record. */
  const AllTagIds: set<int> := {1, 2, 3, 4, 5, 6, 7, 8, 9, 10, 11, 12}

  predicate IsTripTypeTagId(id: int) {
    id == Business || id == Personal
  }

  /** `AnyWeather` counts as a weather tag. */
  predicate IsWeatherTagId(id: int) {
    id == Warm || id == Cold || id == Rain || id == AnyWeather
  }

  predicate IsDurationTagId(id: int) {
    id == Base || id == PerDay
  }

  predicate IsTravelModeTagId(id: int) {
    id == CarryOn || id == CheckedBag || id == Car || id == Train
  }

  const TagNames: map<int, string> := map[
    Business := "Trip Type: Business",
    Personal := "Trip Type: Personal",
    Warm := "Weather: Warm",
    Cold := "Weather: Cold",
    Rain := "Weather: Rain",
    AnyWeather := "Weather: Any",
    Base := "Duration: Base",
    PerDay := "Duration: Per Day",
    CarryOn := "Travel Mode: Carry-on",
    CheckedBag := "Travel Mode: Checked Bag",
    Car := "Travel Mode: Car",
    Train := "Travel Mode: Train"
  ]

  const Clothing := 1
  const Toiletries := 2
  const Electronics := 3

  const CategoryNames: map<int, string> := map[
    Clothing := "Clothing",
    Toiletries := "Toiletries",
    Electronics := "Electronics"
  ]

  /** The groups in closed form, pairwise disjoint, and together exactly the
      tag IDs 1 to 12. */
  lemma TagGroupsPartition(id: int)
    ensures IsTripTypeTagId(id) <==> id in {1, 2}
    ensures IsWeatherTagId(id) <==> id in {3, 4, 5, 6}
    ensures IsDurationTagId(id) <==> id in {7, 8}
    ensures IsTravelModeTagId(id) <==> id in {9, 10, 11, 12}
    ensures !(IsTripTypeTagId(id) && IsWeatherTagId(id)) && !(IsTripTypeTagId(id) && IsDurationTagId(id))
      && !(IsTripTypeTagId(id) && IsTravelModeTagId(id)) && !(IsWeatherTagId(id) && IsDurationTagId(id))
      && !(IsWeatherTagId(id) && IsTravelModeTagId(id)) && !(IsDurationTagId(id) && IsTravelModeTagId(id))
    ensures (IsTripTypeTagId(id) || IsWeatherTagId(id) || IsDurationTagId(id) || IsTravelModeTagId(id))
      <==> id in AllTagIds
  {
  }

  /** Every tag ID has a name, and a name begins with its group's prefix
      exactly when the ID is in that group. */
  lemma TagNamesFollowGroups(id: int)
    ensures id in TagNames <==> id in AllTagIds
    ensures id in TagNames ==>
      ("Trip Type: " <= TagNames[id] <==> IsTripTypeTagId(id))
      && ("Weather: " <= TagNames[id] <==> IsWeatherTagId(id))
      && ("Duration: " <= TagNames[id] <==> IsDurationTagId(id))
      && ("Travel Mode: " <= TagNames[id] <==> IsTravelModeTagId(id))
  {
    if id in TagNames {
      var name := TagNames[id];
      // the four prefixes differ from each other within their first three characters
      assert "Trip Type: "[2] == 'i' && "Travel Mode: "[2] == 'a';
      assert "Weather: "[0] == 'W' && "Duration: "[0] == 'D';
      if IsTripTypeTagId(id) {
        assert name[2] == 'i';
      } else if IsTravelModeTagId(id) {
        assert name[2] == 'a';
      } else {
        assert name[0] != 'T';
      }
    }
  }
}
