/** The icon shown for a forecast day's weather code. */
module WeatherIcons {
  import opened WeatherCodes

  datatype WeatherIcon = Sun | Cloud | CloudFog | CloudRain | CloudSnow | CloudLightning

  /** A chain of membership tests; any code no test accepts falls back to Cloud.
      Each icon is chosen for exactly one bucket of the code table (Cloud also
      for codes outside the table). */
  function WeatherIconFromCode(code: int): (icon: WeatherIcon)
    ensures icon == Sun <==> code in ClearCodes
    ensures icon == CloudFog <==> code in FogCodes
    ensures icon == CloudRain <==> code in RainCodes
    ensures icon == CloudSnow <==> IsSnowCode(code)
    ensures icon == CloudLightning <==> code in ThunderstormCodes
    ensures icon == Cloud <==> code in CloudyCodes || !Categorized(code)
  {
    if code == 0 then Sun
    else if code in [1, 2, 3] then Cloud
    else if code in [45, 48] then CloudFog
    else if code in [51, 53, 55, 56, 57, 61, 63, 65, 66, 67, 80, 81, 82] then CloudRain
    else if code in [71, 73, 75, 77, 85, 86] then CloudSnow
    else if code in [95, 96, 99] then CloudLightning
    else Cloud
  }

  /** The rain icon covers the rain bucket only: thunderstorms, which
      `IsRainCode` also accepts, get the lightning icon. */
  lemma RainIconExcludesThunderstorms(code: int)
    ensures WeatherIconFromCode(code) == CloudRain ==> IsRainCode(code)
    ensures IsRainCode(code) ==> WeatherIconFromCode(code) in {CloudRain, CloudLightning}
  {
  }
}
