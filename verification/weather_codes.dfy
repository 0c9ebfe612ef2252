/** Open-Meteo's subset of the WMO present-weather codes (code table 4677 of
    WMO-No. 306): a label per code and six semantic buckets. */
module WeatherCodes {

  /** Code -> human-readable condition label. */
  const WmoCodes: map<int, string> := map[
    0 := "Clear sky",
    1 := "Mainly clear",
    2 := "Partly cloudy",
    3 := "Overcast",
    45 := "Fog",
    48 := "Depositing rime fog",
    51 := "Light drizzle",
    53 := "Moderate drizzle",
    55 := "Dense drizzle",
    56 := "Light freezing drizzle",
    57 := "Dense freezing drizzle",
    61 := "Slight rain",
    63 := "Moderate rain",
    65 := "Heavy rain",
    66 := "Light freezing rain",
    67 := "Heavy freezing rain",
    71 := "Slight snow",
    73 := "Moderate snow",
    75 := "Heavy snow",
    77 := "Snow grains",
    80 := "Slight rain showers",
    81 := "Moderate rain showers",
    82 := "Violent rain showers",
    85 := "Slight snow showers",
    86 := "Heavy snow showers",
    95 := "Thunderstorm",
    96 := "Thunderstorm with slight hail",
    99 := "Thunderstorm with heavy hail"
  ]

  const ClearCodes: seq<int> := [0]
  const CloudyCodes: seq<int> := [1, 2, 3]
  const FogCodes: seq<int> := [45, 48]
  const RainCodes: seq<int> := [51, 53, 55, 56, 57, 61, 63, 65, 66, 67, 80, 81, 82]
  const SnowCodes: seq<int> := [71, 73, 75, 77, 85, 86]
  const ThunderstormCodes: seq<int> := [95, 96, 99]

  const UnknownLabel := "Unknown"

  /** The code lies in one of the six buckets. */
  predicate Categorized(code: int) {
    code in ClearCodes || code in CloudyCodes || code in FogCodes
    || code in RainCodes || code in SnowCodes || code in ThunderstormCodes
  }

  /** The table's label, or "Unknown" for a code the table lacks. A code has a
      real label exactly when it lies in one of the buckets. */
  function ConditionFromCode(code: int): (condition: string)
    ensures condition != UnknownLabel <==> Categorized(code)
  {
    if code in WmoCodes then WmoCodes[code] else UnknownLabel
  }

  /** Rain or thunderstorm: thunderstorms count as precipitation. */
  predicate IsRainCode(code: int) {
    code in RainCodes || code in ThunderstormCodes
  }

  predicate IsSnowCode(code: int) {
    code in SnowCodes
  }

  /** No code is both rain and snow. */
  lemma RainAndSnowDisjoint(code: int)
    ensures !(IsRainCode(code) && IsSnowCode(code))
  {
  }

  /** The six buckets are pairwise disjoint and together cover exactly the
      codes that have a label. */
  lemma CategoriesPartitionTable(code: int)
    ensures code in WmoCodes <==> Categorized(code)
    ensures code in ClearCodes ==> code !in CloudyCodes + FogCodes + RainCodes + SnowCodes + ThunderstormCodes
    ensures code in CloudyCodes ==> code !in FogCodes + RainCodes + SnowCodes + ThunderstormCodes
    ensures code in FogCodes ==> code !in RainCodes + SnowCodes + ThunderstormCodes
    ensures code in RainCodes ==> code !in SnowCodes + ThunderstormCodes
    ensures code in SnowCodes ==> code !in ThunderstormCodes
  {
  }

  /** Every rain or snow code has a real label. */
  lemma PrecipitationCodesLabelled(code: int)
    ensures IsRainCode(code) || IsSnowCode(code) ==> ConditionFromCode(code) != UnknownLabel
  {
  }

  /** Codes outside the table, such as 999 and -1, read "Unknown". */
  lemma UnlistedCodesAreUnknown()
    ensures ConditionFromCode(999) == UnknownLabel && ConditionFromCode(-1) == UnknownLabel
    ensures ConditionFromCode(61) == "Slight rain" && ConditionFromCode(95) == "Thunderstorm"
  {
  }
}
