/** `WeatherData`: the decoded response for one city. Its `forecasts` and
    `maxResults` are overwritten in place by the paging operations. */
module WeatherModel {
  import opened Wrappers
  import opened Json
  import opened ForecastDecoding

  /** `maxResults` of a freshly decoded `WeatherData`. */
  const DefaultMaxResults: int := 40

  /** What the guard of `WeatherData.init?(dict:)` binds: the city's name,
      its UTC offset (an opaque number) and the raw `list` entries. */
  datatype ForecastPayload = ForecastPayload(cityName: string, timezone: int, entries: seq<Dict>)

  /** The conditions under which `WeatherData.init?(dict:)` succeeds. None of
      them looks inside a `list` entry. */
  predicate IsWeatherDict(dict: Dict) {
    && "city" in dict && dict["city"].JObj?
    && "name" in dict["city"].fields && dict["city"].fields["name"].JStr?
    && "timezone" in dict["city"].fields && dict["city"].fields["timezone"].JNum?
    && "list" in dict && dict["list"].JArr? && AllObjects(dict["list"].items)
  }

  /** The guard of `WeatherData.init?(dict:)`. */
  function ReadPayload(dict: Dict): (r: Option<ForecastPayload>)
    ensures r.Some? <==> IsWeatherDict(dict)
    ensures r.Some? ==> r.value.cityName == dict["city"].fields["name"].str
    ensures r.Some? ==> r.value.timezone == dict["city"].fields["timezone"].num
    ensures r.Some? ==> |r.value.entries| == |dict["list"].items|
    ensures r.Some? ==> forall i :: 0 <= i < |r.value.entries| ==>
                          dict["list"].items[i] == JObj(r.value.entries[i])
  {
    var cityInfo :- AsObject(Lookup(dict, "city"));
    var cityName :- AsString(Lookup(cityInfo, "name"));
    var timezone :- AsNumber(Lookup(cityInfo, "timezone"));
    var forecastsList :- AsObjectArray(Lookup(dict, "list"));
    Some(ForecastPayload(cityName, timezone, forecastsList))
  }

  /** The mutable part of a `WeatherData`: what the list shows and how many
      results the pager believes exist. */
  datatype Page = Page(forecasts: seq<Forecast>, maxResults: int) {
    /** `hasMoreForcasts` */
    predicate HasMore() {
      |forecasts| < maxResults
    }
  }

  class WeatherData {
    const city: string
    const timezone: int
    var forecasts: seq<Forecast>
    var maxResults: int

    function Snapshot(): Page
      reads this
    {
      Page(forecasts, maxResults)
    }

    /** `hasMoreForcasts`; the condition itself is defined once, in `Page.HasMore`. */
    predicate HasMoreForecasts()
      reads this
    {
      Snapshot().HasMore()
    }

    /** The body of `WeatherData.init?(dict:)` once its guard has passed:
        the loop keeps every entry that decodes, in order, and skips the
        rest; `maxResults` takes its default. */
    constructor FromPayload(p: ForecastPayload)
      ensures city == p.cityName && timezone == p.timezone
      ensures forecasts == ParsedForecasts(p.entries)
      ensures maxResults == DefaultMaxResults
    {
      var collected: seq<Forecast> := [];
      for i := 0 to |p.entries|
        invariant collected == ParsedForecasts(p.entries[..i])
      {
        var entry := p.entries[i];
        ParsedStep(p.entries[..i], entry);
        assert p.entries[..i + 1] == p.entries[..i] + [entry];
        match ForecastFromDict(entry)
        case Some(f) =>
          collected := collected + [f];
        case None =>
      }
      assert p.entries[..|p.entries|] == p.entries;
      city, timezone, forecasts, maxResults := p.cityName, p.timezone, collected, DefaultMaxResults;
    }

    /** `WeatherData.init?(dict:)`: nil exactly when the guard fails. */
    static method FromDict(dict: Dict) returns (d: WeatherData?)
      ensures d == null <==> !IsWeatherDict(dict)
      ensures d != null ==> fresh(d) && d.city == ReadPayload(dict).value.cityName
                            && d.timezone == ReadPayload(dict).value.timezone
                            && d.Snapshot() == Page(ParsedForecasts(ReadPayload(dict).value.entries), DefaultMaxResults)
    {
      var payload := ReadPayload(dict);
      if payload.None? {
        return null;
      }
      d := new WeatherData.FromPayload(payload.value);
    }
  }
}
