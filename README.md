# Kaze-AI planning backend: the deterministic rules

The Flask backend of Kaze-AI answers `/generate_plan` by asking a language
model to extract a city, a day offset and a translation, fetching a weather
forecast for that city, and asking the model again for a weather-aware plan.
Around those external calls sit a few small decision rules, and this project
models them as Dafny functions and methods over already-parsed data:

- `Forecast`: in `get_weather_forecast`, choosing the forecast entry that
  stands for the target day out of the 3-hourly list. The rule is noon first,
  then 15:00, then the day's first entry. When the day has no entry at all,
  the last entry of the whole list is used.
- `PlanAnalysis`: cleaning up the echoed translation, choosing which
  forecast call is made (by GPS position, by the default city Tokyo, or by
  the named city), choosing the city the reply reports, and choosing the
  output-language words of the plan prompt.
- `ChatMessages`: building the two message lists sent to the model. The
  extractor gets the last two history entries; the planner gets the whole
  history.
- `Points`: rendering the planner's timeline as `"time: activity - description"`
  lines.
- `Text`: `Option` (Python's `None` or a value); `Field`, the three states
  of a JSON object key (absent, `null`, present); and Python's substring test
  `sub in s`, specified by "occurs at some index".

Python's `in` on strings is a substring test, so `target_date in dt_txt` is
`Text.Contains`. The expression `noon_item or afternoon_item or daily_items[0]`
is modelled as a test for None. This is exact because a forecast entry is
always a non-empty (so truthy) dict. An empty forecast list makes
`data['list'][-1]` raise. `get_weather_forecast`'s own `except` then returns
its weather error dict, and `generate_plan` goes on planning with that dict.
`SelectForecast` returns `None` in exactly that case.

`obj.get(key, default)` gives the default only for an absent key. A key
present with `null` gives Python's `None`, which is modelled as such:
- a null `city` keeps `target_city` as `None`;
- a null `day_offset` is passed to the forecast call, where it fails into the
  weather error dict;
- a null `timeline` makes the route answer with an error, which
  `FormatPoints` reports as `None`.

A key of a timeline entry that is absent or null renders as `None`, because
`item.get(...)` has no default and the f-string formats the `None` it
returns. `Points.Show` models this.

The target date (from `datetime.now()` plus the day offset), the forecast
list, the extractor's and planner's parsed JSON answers, the reverse-geocoded
city name and the plan's system prompt are all parameters.

## Model

| member | source | states |
|---|---|---|
| `Text.Field.Get` | backend/app.py:173-174 | `obj.get(key, default)`: the default for an absent key, Python's `None` for a null one, the value otherwise |
| `Text.Contains` | backend/app.py:59 | the substring test holds exactly when `sub` occurs in `s` at some index |
| `Forecast.DailyItems` | backend/app.py:59 | the day's entries are exactly the list's entries whose stamp contains the target date, kept in list order (a subsequence of the list) |
| `Forecast.DailyItemsCount` | backend/app.py:59 | each same-day entry is kept as many times as it occurs in the list, and every other entry is dropped |
| `Forecast.FindSlot` | backend/app.py:66-67 | `next(...)` stops at the first entry whose stamp mentions the slot; None exactly when no entry does |
| `Forecast.SelectForecast` | backend/app.py:59-68 | the selected entry is always an element of the input list; there is none exactly when the list is empty |
| `Forecast.FindSlotInDaily` | backend/app.py:59-67 | the first same-day entry of the whole list that mentions a slot is the entry the search over the day's entries finds |
| `Forecast.NoSlotInDaily` | backend/app.py:59-67 | with no same-day entry mentioning a slot, the search over the day's entries finds nothing |
| `Forecast.FirstOfDaily` | backend/app.py:59 | the first same-day entry of the list heads the day's entries |
| `Forecast.FallbackToLast` | backend/app.py:62-64 | on a non-empty list with no entry for the day, the last entry of the whole list is selected |
| `Forecast.NoonFirst` | backend/app.py:66-68 | if some same-day entry mentions 12:00:00, the first such entry in list order is selected, even when a 15:00:00 entry comes earlier |
| `Forecast.AfternoonSecond` | backend/app.py:66-68 | with no same-day noon entry, the first same-day 15:00:00 entry is selected |
| `Forecast.FirstOfDayLast` | backend/app.py:66-68 | with neither a same-day noon nor a same-day 15:00:00 entry, the first same-day entry is selected |
| `PlanAnalysis.NormalizeTranslation` | backend/app.py:174-177 | the translation becomes empty exactly when it is absent, null, empty or equal to the user text; otherwise it is returned unchanged |
| `PlanAnalysis.ExtractedCity` | backend/app.py:173 | the extracted city is the extractor's city, Tokyo when the key is absent, and Python's `None` when it is null |
| `PlanAnalysis.WeatherQueryFor` | backend/app.py:180-190 | the forecast is fetched by position exactly when the city is CURRENT_LOCATION and a position was sent; otherwise it is fetched by name, for Tokyo when the city is CURRENT_LOCATION and for the given city (possibly `None`) otherwise; the day offset is 0 when absent and `None` when null |
| `PlanAnalysis.ResolveCity` | backend/app.py:180-190 | CURRENT_LOCATION without a position resolves to Tokyo, and with a position to the forecast's city name, which may be `None`; any other city (including `None`) passes through unchanged; the placeholder survives only if the geocoder itself reports it |
| `PlanAnalysis.QueriedCityIsReported` | backend/app.py:180-190 | a forecast fetched by name is fetched for the very city the reply names; a forecast fetched by position names the located city |
| `PlanAnalysis.PromptLanguageFor` | backend/app.py:195-200 | the English instruction is chosen exactly for the language value "English"; every other value gets the Japanese instruction and time example |
| `ChatMessages.Last` | backend/app.py:161 | `s[-n:]` is a suffix of `s` with min(n, len) elements for n ≥ 1, and all of `s` for n = 0 |
| `ChatMessages.BuildAnalysisMessages` | backend/app.py:141-164 | the system message first, then the last min(2, len) history entries in their original order, then the user text last; the length is min(2, len)+2, at most 4 |
| `ChatMessages.BuildPlanMessages` | backend/app.py:246-252 | exactly len+2 messages: the system prompt first, every history entry in original order, then `"User Input: " + text` |
| `Points.Show` | backend/app.py:264 | a present value renders as itself; an absent one renders as `None` |
| `Points.FormatPoint` | backend/app.py:264 | a point is as long as its three parts plus the five separator characters |
| `Points.FormatPointParts` | backend/app.py:264 | a point splits back, by the parts' lengths, into the time, `": "`, the activity, `" - "` and the description |
| `Points.EmptyItemPoint` | backend/app.py:264 | an entry with none of the three keys renders as `"None: None - None"` |
| `Points.FormatPoints` | backend/app.py:262-264 | one point per timeline entry, with the same length and order, element i being the formatted entry i; no points when `timeline` is absent; a failed request exactly when it is null |

## Left out

- The HTTP calls to the geocoding and forecast services (backend/app.py:34-35, 42-43, 52) are network I/O. Their results are inputs: the forecast list, and the located city name for `ResolveCity`. That name is "Current Location" on a reverse-geocoding failure. It is Python's `None` when reverse geocoding finds nothing, or when the forecast by position fails and returns the `city_name=None` it was called with.
- `get_weather_forecast` with a `None` day offset raises in `timedelta` (backend/app.py:58) and returns its error dict (backend/app.py:78-80). That reply is not modelled; `PlanAnalysis.WeatherQueryFor` only records that `None` is passed.
- The direct-geocoding "Not Found" reply (backend/app.py:44-45) depends only on a network result, so it is not modelled.
- The Whisper transcription and all language-model calls (backend/app.py:95-101, 108-115, 166-170, 254-258) are external, nondeterministic services.
- `json.loads` of the model's answers (backend/app.py:172, 260) is not modelled. The parsed answers are the datatypes `Analysis` and `TimelineItem`. Wrong-typed JSON values, such as a number where a string is expected, are not modelled.
- The temporary audio file handling (backend/app.py:92, 117-118) is filesystem I/O.
- `datetime.now()` and the date formatting (backend/app.py:58) are clock reads. The target date string is a parameter.
- `round()` of the temperature and the assembly of the weather reply (backend/app.py:70-76) are not modelled: the temperature is floating point and stays opaque. The model stops at the selected entry.
- The text of the plan system prompt (backend/app.py:202-244) is formatted for the model. `BuildPlanMessages` takes it as a parameter.
- The JSON reply of `/generate_plan` (backend/app.py:266-274) is framework plumbing. So are the Flask routing, CORS, `jsonify` and the `except` handlers that only return error replies (backend/app.py:12-14, 78-80, 122-124, 276-278).
- `ChatMessages.BuildAnalysisMessages`: `str(msg['content'])` is taken as the identity, because history contents arrive as strings. A history entry without `role` or `content` would make the source raise; that is not modelled.
- `ChatMessages.BuildPlanMessages`: the same `str(...)` and missing-key caveat as for `BuildAnalysisMessages` applies.
- The client-side session state machine, sanitizer, history store, audio capture, notification and speech output belong to the JavaScript front end. Its files are not part of this model.
