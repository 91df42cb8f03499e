/** `WeatherService`: the request for a city, the classification of the
    reply into an `ApiError` or a `WeatherData`, and the simulated paging
    over an endpoint that always returns the whole forecast list.

    The network is the parameter `fetch`: given the query map of a request
    it yields what the data task's completion handler receives. */
module WeatherService {
  import opened Wrappers
  import opened Json
  import opened NumberText
  import opened ForecastDecoding
  import opened WeatherModel

  /** The static API credential; its value is not part of the model. */
  const AppId: string := "<app-id>"

  /** Forecasts added by one page. */
  const PageSize: nat := 10

  type Query = map<string, string>

  /** `getQueryMap(city:)` */
  function QueryMap(city: string): (q: Query)
    ensures q.Keys == {"APPID", "units", "q"}
    ensures q["APPID"] == AppId && q["units"] == "metric" && q["q"] == city
  {
    map["APPID" := AppId, "units" := "metric", "q" := city]
  }

  // ---------------------------------------------------------------------
  // Classification of a reply

  datatype ApiError = CityNotFound | SerializationError | General(message: string)

  /** The bytes of a reply body: `JSONSerialization` either throws on them
      or yields a value. */
  datatype Body = Malformed | Parsed(json: Json)

  /** What the completion handler receives: the transport error's
      `localizedDescription`, if any, and the body, if any. */
  datatype Reply = Reply(error: Option<string>, data: Option<Body>)

  /** The body reached the JSON parser and parsed. */
  predicate Delivered(reply: Reply) {
    reply.error.None? && reply.data.Some? && reply.data.value.Parsed?
  }

  /** The force-cast `as! [String: Any]` succeeds: a parsed body is an object. */
  predicate TopLevelIsObject(reply: Reply) {
    Delivered(reply) ==> reply.data.value.json.JObj?
  }

  /** The top-level dictionary of a delivered reply. */
  function Res(reply: Reply): Dict
    requires Delivered(reply) && TopLevelIsObject(reply)
  {
    reply.data.value.json.fields
  }

  /** The status text: `cod` as a string, else `cod` as a number's
      `stringValue`, else "-1". */
  function Status(res: Dict): (r: string)
    ensures "cod" in res && res["cod"].JStr? ==> r == res["cod"].str
    ensures "cod" in res && res["cod"].JNum? ==> ParseInt(r) == Some(res["cod"].num)
    ensures !("cod" in res && (res["cod"].JStr? || res["cod"].JNum?)) ==> r == "-1"
  {
    var cod := Lookup(res, "cod");
    if AsString(cod).Some? then AsString(cod).value
    else if AsNumber(cod).Some? then
      IntRoundTrip(AsNumber(cod).value);
      IntToString(AsNumber(cod).value)
    else "-1"
  }

  /** `cod` carries the status `code`, as a string or as a number. */
  predicate CodIs(res: Dict, code: nat) {
    "cod" in res && (res["cod"] == JStr(NatToString(code)) || res["cod"] == JNum(code))
  }

  /** The completion handler of `getForecastFor`: a transport failure, an
      unparsable body, a not-found or other non-200 status, and an
      undecodable 200 body each give an error; otherwise the decoded
      payload. Exactly one of error and data is produced. */
  function Classify(reply: Reply): (r: Result<ForecastPayload, ApiError>)
    requires TopLevelIsObject(reply)
    ensures r.Success? ==> Delivered(reply) && Status(Res(reply)) == "200"
                           && ReadPayload(Res(reply)) == Some(r.value)
    ensures r == Failure(CityNotFound) ==> Delivered(reply) && Status(Res(reply)) == "404"
  {
    if reply.error.Some? || reply.data.None? then
      Failure(General("Api error: " + reply.error.GetOr("")))
    else if reply.data.value.Malformed? then
      Failure(SerializationError)
    else
      var res := Res(reply);
      var status := Status(res);
      if status == "404" then Failure(CityNotFound)
      else if status != "200" then Failure(General("Api status " + status))
      else match ReadPayload(res)
        case Some(p) => Success(p)
        case None => Failure(SerializationError)
  }

  /** The status text equals the numeral of `code` exactly when `cod` is that
      numeral or that number; a missing or mistyped `cod` ("-1") matches no
      non-negative code. */
  lemma StatusMatches(res: Dict, code: nat)
    ensures Status(res) == NatToString(code) <==> CodIs(res, code)
  {
    var cod := Lookup(res, "cod");
    if AsString(cod).None? && AsNumber(cod).Some? && Status(res) == NatToString(code) {
      assert IntToString(code) == NatToString(code);
      IntToStringInjective(AsNumber(cod).value, code);
    }
    if AsString(cod).None? && AsNumber(cod).None? {
      assert Status(res)[0] == '-';
    }
  }

  lemma Numerals()
    ensures NatToString(404) == "404" && NatToString(200) == "200"
  {
  }

  /** `cityNotFound` is produced exactly for a delivered body whose `cod` is
      404 (string or number). */
  lemma ClassifyCityNotFound(reply: Reply)
    requires TopLevelIsObject(reply)
    ensures Classify(reply) == Failure(CityNotFound) <==> Delivered(reply) && CodIs(Res(reply), 404)
  {
    Numerals();
    if Delivered(reply) {
      StatusMatches(Res(reply), 404);
    }
  }

  /** Data is produced exactly for a delivered body whose `cod` is 200 and
      which `WeatherData.init?(dict:)` accepts; the data is that decoding. */
  lemma ClassifySuccess(reply: Reply)
    requires TopLevelIsObject(reply)
    ensures Classify(reply).Success? <==>
              Delivered(reply) && CodIs(Res(reply), 200) && IsWeatherDict(Res(reply))
    ensures Classify(reply).Success? ==> Classify(reply).value == ReadPayload(Res(reply)).value
  {
    Numerals();
    if Delivered(reply) {
      StatusMatches(Res(reply), 200);
      StatusMatches(Res(reply), 404);
    }
  }

  /** `serializationError` is produced exactly for a body that does not parse
      as JSON, or for a 200 body that `WeatherData.init?(dict:)` rejects. */
  lemma ClassifySerializationError(reply: Reply)
    requires TopLevelIsObject(reply)
    ensures Classify(reply) == Failure(SerializationError) <==>
              (reply.error.None? && reply.data == Some(Malformed)) ||
              (Delivered(reply) && CodIs(Res(reply), 200) && !IsWeatherDict(Res(reply)))
  {
    Numerals();
    if Delivered(reply) {
      StatusMatches(Res(reply), 200);
      StatusMatches(Res(reply), 404);
    }
  }

  /** `general` is produced exactly for a transport failure (message
      "Api error: " and the error's description, empty when there is none)
      and for a delivered body whose `cod` is neither 404 nor 200 (message
      "Api status " and the status text). */
  lemma ClassifyGeneral(reply: Reply)
    requires TopLevelIsObject(reply)
    ensures (reply.error.Some? || reply.data.None?) ==>
              Classify(reply) == Failure(General("Api error: " + reply.error.GetOr("")))
    ensures Delivered(reply) && !CodIs(Res(reply), 404) && !CodIs(Res(reply), 200) ==>
              Classify(reply) == Failure(General("Api status " + Status(Res(reply))))
    ensures Classify(reply).Failure? && Classify(reply).error.General? ==>
              (reply.error.Some? || reply.data.None?) ||
              (Delivered(reply) && !CodIs(Res(reply), 404) && !CodIs(Res(reply), 200))
  {
    Numerals();
    if Delivered(reply) {
      StatusMatches(Res(reply), 200);
      StatusMatches(Res(reply), 404);
    }
  }

  // ---------------------------------------------------------------------
  // Simulated paging, as functions of the freshly decoded forecasts

  function Min(a: int, b: int): int {
    if a <= b then a else b
  }

  /** What `getInitialForecasts` leaves in a decoded `WeatherData`:
      `maxResults` becomes the full count, then the first page is kept. The
      slice traps on fewer than a page of forecasts. */
  function InitialPage(parsed: seq<Forecast>): (p: Page)
    requires |parsed| >= PageSize
    ensures |p.forecasts| == PageSize && p.forecasts <= parsed
    ensures p.maxResults == |parsed|
    ensures p.HasMore() <==> |parsed| > PageSize
  {
    Page(parsed[..PageSize], |parsed|)
  }

  /** What `loadMoreForecasts` hands back after `shown` forecasts were on
      screen: the re-fetched list's prefix of one more page, in a freshly
      decoded `WeatherData` whose `maxResults` is the default. */
  function NextPage(shown: nat, parsed: seq<Forecast>): (p: Page)
    ensures p.forecasts <= parsed
    ensures |p.forecasts| == Min(|parsed|, shown + PageSize)
    ensures p.maxResults == DefaultMaxResults
  {
    Page(parsed[..Min(|parsed|, shown + PageSize)], DefaultMaxResults)
  }

  /** The page after the initial load and `loads` further calls of
      `loadMoreForecasts`, every fetch returning the same forecasts; a call
      made when there is nothing more does nothing. */
  function AfterLoads(parsed: seq<Forecast>, loads: nat): Page
    requires |parsed| >= PageSize
  {
    if loads == 0 then InitialPage(parsed)
    else
      var p := AfterLoads(parsed, loads - 1);
      if p.HasMore() then NextPage(|p.forecasts|, parsed) else p
  }

  /** When the re-fetched list still begins with the forecasts on screen,
      loading more keeps them at the front and never shows fewer. */
  lemma NextPageExtends(prior: seq<Forecast>, parsed: seq<Forecast>)
    requires prior <= parsed
    ensures |NextPage(|prior|, parsed).forecasts| >= |prior|
    ensures NextPage(|prior|, parsed).forecasts[..|prior|] == prior
  {
  }

  /** With an unchanged upstream list, paging shows the first
      min(n, 40, 10 * (loads + 1)) forecasts; `maxResults` is the full
      count until the first further load happens and 40 afterwards. */
  lemma {:induction false} PagingProgress(parsed: seq<Forecast>, loads: nat)
    requires |parsed| >= PageSize
    ensures AfterLoads(parsed, loads).forecasts ==
              parsed[..Min(Min(|parsed|, DefaultMaxResults), PageSize * (loads + 1))]
    ensures AfterLoads(parsed, loads).maxResults ==
              if loads == 0 || |parsed| == PageSize then |parsed| else DefaultMaxResults
  {
    if loads > 0 {
      PagingProgress(parsed, loads - 1);
    }
  }

  /** With fewer than 40 forecasts but more than a page, the pager never
      reports that there is nothing more: after three loads it shows the
      whole list and every further load re-fetches the same list. */
  lemma {:induction false} PagingNeverEndsBelowDefault(parsed: seq<Forecast>, loads: nat)
    requires PageSize < |parsed| < DefaultMaxResults
    ensures AfterLoads(parsed, loads).HasMore()
    ensures loads >= 3 ==> AfterLoads(parsed, loads).forecasts == parsed
  {
    PagingProgress(parsed, loads);
  }

  /** With 40 or more forecasts the pager stops after three loads, showing
      exactly the first 40; entries past the 40th are never shown. */
  lemma {:induction false} PagingStopsAtDefault(parsed: seq<Forecast>, loads: nat)
    requires |parsed| >= DefaultMaxResults
    ensures AfterLoads(parsed, loads).HasMore() <==> loads < 3
    ensures |AfterLoads(parsed, loads).forecasts| == Min(DefaultMaxResults, PageSize * (loads + 1))
    ensures loads >= 3 ==> AfterLoads(parsed, loads).forecasts == parsed[..DefaultMaxResults]
  {
    PagingProgress(parsed, loads);
  }

  /** Paging with an unchanged list never shrinks what is shown, and what
      was shown stays at the front. */
  lemma {:induction false} PagingMonotone(parsed: seq<Forecast>, loads: nat)
    requires |parsed| >= PageSize
    ensures AfterLoads(parsed, loads).forecasts <= AfterLoads(parsed, loads + 1).forecasts
  {
    PagingProgress(parsed, loads);
    PagingProgress(parsed, loads + 1);
  }

  // ---------------------------------------------------------------------
  // The service operations

  /** `getForecastFor(city:callback:)`: requests the city's forecasts and
      delivers either the classified error or a freshly decoded `WeatherData`. */
  method GetForecastFor(city: string, fetch: Query -> Reply) returns (outcome: Result<WeatherData, ApiError>)
    requires TopLevelIsObject(fetch(QueryMap(city)))
    ensures var verdict := Classify(fetch(QueryMap(city)));
            && (outcome.Failure? <==> verdict.Failure?)
            && (outcome.Failure? ==> outcome.error == verdict.error)
            && (outcome.Success? ==>
                  && fresh(outcome.value)
                  && outcome.value.city == verdict.value.cityName
                  && outcome.value.timezone == verdict.value.timezone
                  && outcome.value.Snapshot() == Page(ParsedForecasts(verdict.value.entries), DefaultMaxResults))
  {
    var reply := fetch(QueryMap(city));
    var verdict := Classify(reply);
    if verdict.Failure? {
      return Failure(verdict.error);
    }
    var data := new WeatherData.FromPayload(verdict.value);
    outcome := Success(data);
  }

  /** `getInitialForecasts(city:callback:)`: on data, `maxResults` becomes the
      full parsed count and only the first page is kept; errors pass through. */
  method GetInitialForecasts(city: string, fetch: Query -> Reply) returns (outcome: Result<WeatherData, ApiError>)
    requires TopLevelIsObject(fetch(QueryMap(city)))
    requires var verdict := Classify(fetch(QueryMap(city)));
             verdict.Success? ==> |ParsedForecasts(verdict.value.entries)| >= PageSize
    ensures var verdict := Classify(fetch(QueryMap(city)));
            && (outcome.Failure? <==> verdict.Failure?)
            && (outcome.Failure? ==> outcome.error == verdict.error)
            && (outcome.Success? ==>
                  && fresh(outcome.value)
                  && outcome.value.city == verdict.value.cityName
                  && outcome.value.timezone == verdict.value.timezone
                  && outcome.value.Snapshot() == InitialPage(ParsedForecasts(verdict.value.entries)))
  {
    outcome := GetForecastFor(city, fetch);
    if outcome.Success? {
      var data := outcome.value;
      data.maxResults := |data.forecasts|;
      data.forecasts := data.forecasts[..PageSize];
    }
  }

  /** `loadMoreForecasts(prevData:callback:)`: with nothing more it returns
      without a callback (None); otherwise it re-fetches the previous city
      and keeps one more page than was shown. */
  method LoadMoreForecasts(prev: WeatherData, fetch: Query -> Reply)
    returns (outcome: Option<Result<WeatherData, ApiError>>)
    requires prev.HasMoreForecasts() ==> TopLevelIsObject(fetch(QueryMap(prev.city)))
    ensures outcome.None? <==> !prev.HasMoreForecasts()
    ensures outcome.Some? ==>
              var verdict := Classify(fetch(QueryMap(prev.city)));
              && (outcome.value.Failure? <==> verdict.Failure?)
              && (outcome.value.Failure? ==> outcome.value.error == verdict.error)
              && (outcome.value.Success? ==>
                    && fresh(outcome.value.value)
                    && outcome.value.value.city == verdict.value.cityName
                    && outcome.value.value.timezone == verdict.value.timezone
                    && outcome.value.value.Snapshot() ==
                         NextPage(|prev.forecasts|, ParsedForecasts(verdict.value.entries)))
  {
    if !prev.HasMoreForecasts() {
      return None;
    }
    var startIndex := |prev.forecasts|;
    var result := GetForecastFor(prev.city, fetch);
    if result.Success? {
      var data := result.value;
      data.forecasts := data.forecasts[..Min(|data.forecasts|, startIndex + PageSize)];
    }
    outcome := Some(result);
  }
}
