/** The deterministic decisions `generate_plan` takes on the extractor's
    answer: clean up the echoed translation, choose the city whose forecast
    is fetched and reported, and pick the output-language instruction. */
module PlanAnalysis {
  import opened Text

  /** The extractor's parsed JSON answer; each key may be absent or null. */
  datatype Analysis = Analysis(city: Field<string>, translation: Field<string>, dayOffset: Field<int>)

  /** The device position sent by the client as `user_location`. It is
      passed as an Option: None stands for absent, null or an empty object,
      all of which `if user_location:` treats as false. */
  datatype Coords = Coords(lat: real, lon: real)

  /** Which `get_weather_forecast` call is made: by GPS position or by name.
      A None name or day offset is Python's `None` passed along; a None day
      offset makes the forecast call fail into its error dict. */
  datatype WeatherQuery =
    | ByCoords(coords: Coords, dayOffset: Option<int>)
    | ByName(cityName: Option<string>, dayOffset: Option<int>)

  const CurrentLocation: string := "CURRENT_LOCATION"
  const DefaultCity: string := "Tokyo"

  /** `user_translation` after the clean-up: empty when the extractor gave
      nothing (absent, null or empty) or merely echoed the user's text, the
      translation otherwise. */
  function NormalizeTranslation(translation: Field<string>, userText: string): (r: string)
    ensures r == "" <==> !translation.Present? || translation.value == "" || translation.value == userText
    ensures r != "" ==> translation == Present(r) && r != userText
  {
    match translation.Get("")
    case None => ""
    case Some(t) => if t == "" || t == userText then "" else t
  }

  /** `analysis.get("city", "Tokyo")`: Tokyo for an absent key, Python's
      `None` for a null one. */
  function ExtractedCity(a: Analysis): (r: Option<string>)
    ensures a.city.Missing? ==> r == Some(DefaultCity)
    ensures a.city.Null? ==> r == None
    ensures a.city.Present? ==> r == Some(a.city.value)
  {
    a.city.Get(DefaultCity)
  }

  /** The forecast call made for the extracted city: the device position
      when the user asked about where they are and a position was sent,
      Tokyo when they asked so without one, the extracted city otherwise.
      `analysis.get("day_offset", 0)` is passed along in every case. */
  function WeatherQueryFor(city: Option<string>, location: Option<Coords>, dayOffset: Field<int>): (q: WeatherQuery)
    ensures dayOffset.Missing? ==> q.dayOffset == Some(0)
    ensures dayOffset.Null? ==> q.dayOffset == None
    ensures dayOffset.Present? ==> q.dayOffset == Some(dayOffset.value)
    ensures q.ByCoords? <==> city == Some(CurrentLocation) && location.Some?
    ensures q.ByCoords? ==> q.coords == location.value
    ensures q.ByName? && city == Some(CurrentLocation) ==> q.cityName == Some(DefaultCity)
    ensures q.ByName? && city != Some(CurrentLocation) ==> q.cityName == city
  {
    var offset := dayOffset.Get(0);
    if city == Some(CurrentLocation) then
      match location
      case Some(c) => ByCoords(c, offset)
      case None => ByName(Some(DefaultCity), offset)
    else ByName(city, offset)
  }

  /** `target_city` after data fetching. `locatedName` is the `city_name`
      the forecast by position reported: the reverse-geocoded name, or
      Python's `None` when reverse geocoding found nothing or the forecast
      call failed (the function was called with `city_name=None`). */
  function ResolveCity(city: Option<string>, location: Option<Coords>, locatedName: Option<string>): (r: Option<string>)
    ensures city == Some(CurrentLocation) && location.None? ==> r == Some(DefaultCity)
    ensures city == Some(CurrentLocation) && location.Some? ==> r == locatedName
    ensures city != Some(CurrentLocation) ==> r == city
    ensures r == Some(CurrentLocation) ==> location.Some? && locatedName == Some(CurrentLocation)
  {
    if city == Some(CurrentLocation) then
      if location.Some? then locatedName else Some(DefaultCity)
    else city
  }

  /** Whenever the forecast is fetched by name, it is fetched for exactly
      the city the reply names. */
  lemma QueriedCityIsReported(city: Option<string>, location: Option<Coords>, dayOffset: Field<int>, locatedName: Option<string>)
    ensures WeatherQueryFor(city, location, dayOffset).ByName? ==>
              WeatherQueryFor(city, location, dayOffset).cityName == ResolveCity(city, location, locatedName)
    ensures WeatherQueryFor(city, location, dayOffset).ByCoords? ==>
              ResolveCity(city, location, locatedName) == locatedName
  {
  }

  /** The output-language words put into the plan prompt. */
  datatype PromptLanguage = PromptLanguage(instruction: string, timeExample: string)

  /** `lang_instruction` and `time_example`: English only for exactly
      `"English"`, Japanese for every other language value. */
  function PromptLanguageFor(targetLang: string): (r: PromptLanguage)
    ensures r.instruction == "ENGLISH" <==> targetLang == "English"
    ensures targetLang == "English" ==> r.timeExample == "Morning / 9:00 AM"
    ensures targetLang != "English" ==> r == PromptLanguage("JAPANESE (日本語)", "朝 / 9:00")
  {
    if targetLang == "English" then PromptLanguage("ENGLISH", "Morning / 9:00 AM")
    else PromptLanguage("JAPANESE (日本語)", "朝 / 9:00")
  }
}
