# Weather forecast pager — a Dafny model

This project models the one piece of logic in the weather app's
`WeatherService`. It covers three things:

- how a forecast API response is decoded into `Forecast` and `WeatherData` records;
- how the data task's reply is classified into `cityNotFound`, `serializationError`,
  `general(message)` or data;
- how the service simulates paging over an endpoint that always returns the whole list.

`getInitialForecasts` keeps the first page of 10 forecasts and records the
full count in `maxResults`. `loadMoreForecasts` fetches the whole list again
and keeps up to one page more than was shown: the first `min(n, shown + 10)`
forecasts of the re-fetched list.

Layout, one module per concern:

- `wrappers.dfy` (`Wrappers`): `Option` (Swift optionals, `??`) and `Result`.
  `Result` is the callback pair `(ApiError?, WeatherData?)`, so exactly one
  of error and data is delivered by construction.
- `json.dfy` (`Json`): the value `JSONSerialization` yields, plus the
  conditional casts `as? Double`, `as? String`, `as? [String: Any]` and
  `as? [[String: Any]]`. The array cast fails unless every element is an object.
- `number_text.dfy` (`NumberText`): `NSNumber.stringValue` of an integral
  number, with a parser that reads it back.
- `forecast.dfy` (`ForecastDecoding`): `Forecast.init?(dict:)`, and the
  filtering of the response's `list`.
- `weather_data.dfy` (`WeatherModel`): the guard of `WeatherData.init?(dict:)`.
  Also the class `WeatherData`, whose `forecasts` and `maxResults` fields are
  overwritten in place. Its constructor runs the decoding loop.
- `weather_service.dfy` (`WeatherService`): `getQueryMap`, the status text,
  the classification, the paging functions with their lemmas, and the three
  service operations as methods.

The network is the parameter `fetch: Query -> Reply`. It maps the query map
of a request to what the completion handler receives: a transport error
description, and a body that either fails to parse or parses to a JSON value.
Because `loadMoreForecasts` calls `fetch(QueryMap(prev.city))`, the model
shows that the re-fetch uses the previous data's city.

Two traps in the source are preconditions:

- the force-cast `as! [String: Any]` (weather/WeatherService.swift:32):
  `TopLevelIsObject`;
- the slice `forecasts[0..<10]` (weather/WeatherService.swift:61): at least
  10 parsed forecasts when the reply carries data.

The model follows the code where it departs from what a paging client is usually expected to do:

- `loadMoreForecasts` returns a freshly decoded `WeatherData`. Its
  `maxResults` is the default 40, not the upstream count. The kept prefix is
  `min(n, shown + 10)` of the re-fetched list. The lemmas
  `PagingNeverEndsBelowDefault` and `PagingStopsAtDefault` spell out the
  consequences when every fetch returns the same list. With 11 to 39
  forecasts, `hasMoreForcasts` then never becomes false. With more than 40,
  only the first 40 are then ever shown. A list that changes between fetches
  can take the pager past 40.
- `getInitialForecasts` does not return `min(10, n)` forecasts: it traps
  when fewer than 10 forecasts were parsed.
- A status other than 200 and 404 gives `general("Api status …")` whatever
  the body holds.
  `serializationError` arises only from an unparsable body, or from a 200 body
  that `WeatherData.init?(dict:)` rejects.
- When there is nothing more, `loadMoreForecasts` returns without ever
  calling back. The model returns `None` for this case.
- The initial `WeatherData` is changed in place, not replaced.

## Model

| member | source | states |
|---|---|---|
| `ForecastDecoding.ForecastFromDict` | weather/WeatherService.swift:150-159 | a forecast is produced iff `dt` is a number, `main` is an object with a numeric `temp`, and `weather` is a non-empty array of objects whose first element has a string `main`; the three values are copied unchanged |
| `ForecastDecoding.ParsedForecasts` | weather/WeatherService.swift:121-126 | the forecasts the decoding loop collects, at most one per entry; `ParsedAtDecodedIndex`, `DecodedIndicesIncreasing`, `DecodedIndicesComplete` and `ParsedLength` characterise it as the decodable entries in order, a bad entry being skipped and never fatal |
| `ForecastDecoding.ParsedAtDecodedIndex` | weather/WeatherService.swift:121-126 | the k-th decoded forecast is the decoding of the entry at the k-th decoded position of `list` |
| `ForecastDecoding.DecodedIndicesIncreasing` | weather/WeatherService.swift:121-126 | decoded positions are strictly increasing and inside `list`, so forecasts keep the order of their entries |
| `ForecastDecoding.DecodedIndicesComplete` | weather/WeatherService.swift:121-126 | every entry that decodes is kept; together with `ParsedAtDecodedIndex` an entry that fails to decode is skipped without stopping the loop |
| `ForecastDecoding.ParsedLength` | weather/WeatherService.swift:121-126 | at most one forecast per entry; exactly `list.count` iff every entry decodes |
| `WeatherModel.ReadPayload` | weather/WeatherService.swift:114-120 | the guard passes iff `city` is an object, `city.name` a string, `city.timezone` a number and `list` an array of objects; no condition looks inside an entry; it binds those values |
| `WeatherModel.WeatherData.FromPayload` | weather/WeatherService.swift:121-127 | after the guard: `forecasts` are the parsed entries in order, `city`/`timezone` copied, `maxResults` is 40 |
| `WeatherModel.WeatherData.FromDict` | weather/WeatherService.swift:114-128 | `init?(dict:)` gives nil exactly when the guard fails, otherwise a fresh object as above |
| `NumberText.IntToString` | weather/WeatherService.swift:33 | `stringValue` of an integral number: a non-empty numeral that starts with '-' exactly for negative numbers; `IntRoundTrip` and `IntToStringInjective` state that it reads back and is injective |
| `NumberText.IntRoundTrip` | weather/WeatherService.swift:33 | the numeral `stringValue` gives for a number reads back as that number |
| `NumberText.IntToStringInjective` | weather/WeatherService.swift:33 | distinct numbers give distinct status texts |
| `WeatherService.QueryMap` | weather/WeatherService.swift:88-94 | the query has exactly the keys `APPID`, `units` and `q`, with the app id, `metric` and the city |
| `WeatherService.Status` | weather/WeatherService.swift:33 | the status is `cod` when it is a string; when it is a number, text that reads back as that number; otherwise "-1"; `StatusMatches` compares it with a code |
| `WeatherService.StatusMatches` | weather/WeatherService.swift:33 | the status text is a code's numeral iff `cod` is that numeral as a string or that number; the "-1" default matches no such code |
| `WeatherService.Classify` | weather/WeatherService.swift:27-51 | the completion handler as a function: data only for a delivered body with status "200" that the `WeatherData` guard accepts, and then that decoding; `cityNotFound` only for status "404"; the four `Classify*` lemmas give each outcome's exact condition |
| `WeatherModel.Page.HasMore` | weather/WeatherService.swift:108-112 | `hasMoreForcasts`: fewer forecasts shown than `maxResults`; its consequences are stated by `InitialPage`, `LoadMoreForecasts` and the `Paging*` lemmas |
| `WeatherService.ClassifyCityNotFound` | weather/WeatherService.swift:33-37 | `cityNotFound` iff the reply was delivered and `cod` is 404 (string or number) |
| `WeatherService.ClassifySuccess` | weather/WeatherService.swift:38-44 | data iff delivered, `cod` is 200 and `WeatherData.init?(dict:)` accepts the body; the data is that decoding |
| `WeatherService.ClassifySerializationError` | weather/WeatherService.swift:42-51 | `serializationError` iff the body does not parse as JSON, or it is a 200 body that `WeatherData.init?(dict:)` rejects |
| `WeatherService.ClassifyGeneral` | weather/WeatherService.swift:27-40 | `general` iff a transport failure (message "Api error: " + description) or a delivered status other than 404/200 (message "Api status " + status) |
| `WeatherService.InitialPage` | weather/WeatherService.swift:60-61 | the first page holds the first 10 forecasts, `maxResults` is the full count, and there is more iff more than 10 were parsed |
| `WeatherService.NextPage` | weather/WeatherService.swift:75-80 | the page after a load is the prefix of the re-fetched list of length `min(n, shown + 10)`, with `maxResults` 40 |
| `WeatherService.NextPageExtends` | weather/WeatherService.swift:75-80 | if the re-fetched list begins with what was shown, loading more keeps it at the front and never shows fewer |
| `WeatherService.PagingProgress` | weather/WeatherService.swift:56-86 | with an unchanged list, after `k` loads the first `min(n, 40, 10(k+1))` forecasts are shown; `maxResults` is `n` before the first load and 40 after it, except that with exactly 10 forecasts no load happens and it stays 10 |
| `WeatherService.PagingNeverEndsBelowDefault` | weather/WeatherService.swift:70-112 | when every fetch returns the same 11 to 39 forecasts, `hasMoreForcasts` stays true forever; from the third load on, the whole list is shown |
| `WeatherService.PagingStopsAtDefault` | weather/WeatherService.swift:70-112 | when every fetch returns the same 40 or more forecasts, there is more exactly for the first three loads, then exactly the first 40 are shown |
| `WeatherService.PagingMonotone` | weather/WeatherService.swift:70-86 | with an unchanged list each load keeps what was shown as a prefix |
| `WeatherService.GetForecastFor` | weather/WeatherService.swift:24-54 | fetches `QueryMap(city)`; the error is the classified one, or the data is a fresh `WeatherData` holding the parsed forecasts and `maxResults` 40 |
| `WeatherService.GetInitialForecasts` | weather/WeatherService.swift:56-67 | errors pass through unchanged; on data, the object shows `InitialPage` of the parsed forecasts (full count in `maxResults`, first 10 kept) |
| `WeatherService.LoadMoreForecasts` | weather/WeatherService.swift:70-86 | no callback and no fetch iff `!hasMoreForcasts` (the reply then may be anything); otherwise re-fetches `prev.city`, passes errors through, and on data keeps the prefix of `min(n, shown + 10)` with `maxResults` 40 |

## Left out

- The static API key `AppId` is a placeholder: no behaviour depends on its value.
- Networking: the data task, `task.resume()`, the base URL and
  `urlWithQueryMap`. The reply is the parameter `fetch`, so the URL's
  query-item order, which a dictionary leaves unspecified, does not arise.
- JSON parsing (`JSONSerialization`): its outcome is the `Body` datatype.
  Its throwing becomes `Malformed`.
- Asynchrony: the completion handler runs on a background queue. The model
  is sequential, and a callback is a returned value.
- `sleep(3)` and `print`: debugging delays and logging with no effect on results.
- `Forecast.dateString`: it uses `DateFormatter` and the device time zone.
- Floating point: `timestamp`, `temperature` and `timezone` are Doubles that
  are only passed through, so they are modelled as integers. The exactness
  check of Swift's `NSNumber` to `Double` bridging is therefore not modelled,
  nor is `stringValue` of a fractional `cod`.
- JSON booleans: Foundation represents them as `NSNumber`, so the casts can
  read them as numbers. The model treats a boolean as neither number nor string.
- The designated `init(city:timezone:forecasts:)` is folded into
  `WeatherData.FromPayload`, which sets the same fields after the loop.
- The view controllers (MainVc.swift, WeatherDetailVc.swift) and the layout
  helpers in extensions.swift are UI code. That includes the busy flag
  around `loadMoreForecasts`, the search-length guard, and the extra
  loading row.
