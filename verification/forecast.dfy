/** `Forecast` and its failable initialiser `Forecast.init?(dict:)`, and the
    filtering of the response's `list` that `WeatherData.init?(dict:)`
    performs: entries that do not decode are skipped, the others are kept in
    their original order. */
module ForecastDecoding {
  import opened Wrappers
  import opened Json

  /** One forecast entry. Timestamp and temperature are Doubles in the
      source that are only passed through; they are opaque numbers here. */
  datatype Forecast = Forecast(timestamp: int, temperature: int, weather: string)

  /** The conditions under which `Forecast.init?(dict:)` succeeds, stated
      field by field. */
  predicate IsForecastDict(dict: Dict) {
    && "dt" in dict && dict["dt"].JNum?
    && "main" in dict && dict["main"].JObj?
    && "temp" in dict["main"].fields && dict["main"].fields["temp"].JNum?
    && "weather" in dict && dict["weather"].JArr?
    && AllObjects(dict["weather"].items) && |dict["weather"].items| > 0
    && "main" in dict["weather"].items[0].fields
    && dict["weather"].items[0].fields["main"].JStr?
  }

  /** `Forecast.init?(dict:)`: a guard chain; any missing or mistyped field
      gives nil. */
  function ForecastFromDict(dict: Dict): (r: Option<Forecast>)
    ensures r.Some? <==> IsForecastDict(dict)
    ensures r.Some? ==> r.value == Forecast(dict["dt"].num,
                                            dict["main"].fields["temp"].num,
                                            dict["weather"].items[0].fields["main"].str)
  {
    var timestamp :- AsNumber(Lookup(dict, "dt"));
    var mainDict :- AsObject(Lookup(dict, "main"));
    var temperature :- AsNumber(Lookup(mainDict, "temp"));
    var weatherArr :- AsObjectArray(Lookup(dict, "weather"));
    var first :- First(weatherArr);
    var weatherStr :- AsString(Lookup(first, "main"));
    Some(Forecast(timestamp, temperature, weatherStr))
  }

  /** The forecasts that the decoding loop collects from `entries`: each
      entry that decodes contributes its forecast, the others nothing. */
  function ParsedForecasts(entries: seq<Dict>): (r: seq<Forecast>)
    ensures |r| <= |entries|
  {
    if |entries| == 0 then []
    else
      var rest := ParsedForecasts(entries[..|entries| - 1]);
      match ForecastFromDict(entries[|entries| - 1])
      case Some(f) => rest + [f]
      case None => rest
  }

  /** Positions in `entries` of the entries that decode, in increasing order. */
  function DecodedIndices(entries: seq<Dict>): seq<nat> {
    if |entries| == 0 then []
    else
      var rest := DecodedIndices(entries[..|entries| - 1]);
      if ForecastFromDict(entries[|entries| - 1]).Some? then rest + [|entries| - 1] else rest
  }

  /** One step of the decoding loop: appending an entry appends its forecast
      if it decodes, and changes nothing if it does not (a bad entry is never
      fatal). */
  lemma ParsedStep(entries: seq<Dict>, e: Dict)
    ensures ForecastFromDict(e).Some? ==>
              ParsedForecasts(entries + [e]) == ParsedForecasts(entries) + [ForecastFromDict(e).value]
    ensures ForecastFromDict(e).None? ==> ParsedForecasts(entries + [e]) == ParsedForecasts(entries)
  {
  }

  /** The k-th parsed forecast is the decoding of the entry at the k-th
      decoded position. */
  lemma {:induction false} ParsedAtDecodedIndex(entries: seq<Dict>)
    ensures |ParsedForecasts(entries)| == |DecodedIndices(entries)|
    ensures forall k :: 0 <= k < |DecodedIndices(entries)| ==>
              DecodedIndices(entries)[k] < |entries| &&
              ForecastFromDict(entries[DecodedIndices(entries)[k]]) == Some(ParsedForecasts(entries)[k])
  {
    if |entries| > 0 {
      var init, last := entries[..|entries| - 1], entries[|entries| - 1];
      ParsedAtDecodedIndex(init);
      var ps, ds := ParsedForecasts(entries), DecodedIndices(entries);
      forall k | 0 <= k < |ds|
        ensures ds[k] < |entries| && ForecastFromDict(entries[ds[k]]) == Some(ps[k])
      {
        if k < |DecodedIndices(init)| {
          assert ds[k] == DecodedIndices(init)[k];
          assert ps[k] == ParsedForecasts(init)[k];
          assert entries[ds[k]] == init[ds[k]];
        }
      }
    }
  }

  /** The decoded positions are strictly increasing, so the forecasts keep
      the order of their entries. */
  lemma {:induction false} DecodedIndicesIncreasing(entries: seq<Dict>)
    ensures forall k :: 0 <= k < |DecodedIndices(entries)| ==> DecodedIndices(entries)[k] < |entries|
    ensures forall j, k :: 0 <= j < k < |DecodedIndices(entries)| ==>
              DecodedIndices(entries)[j] < DecodedIndices(entries)[k]
  {
    if |entries| > 0 {
      DecodedIndicesIncreasing(entries[..|entries| - 1]);
    }
  }

  /** No entry that decodes is dropped. */
  lemma {:induction false} DecodedIndicesComplete(entries: seq<Dict>)
    ensures forall i :: 0 <= i < |entries| && ForecastFromDict(entries[i]).Some? ==>
              i in DecodedIndices(entries)
  {
    if |entries| > 0 {
      var init := entries[..|entries| - 1];
      DecodedIndicesComplete(init);
      forall i | 0 <= i < |init| && ForecastFromDict(entries[i]).Some?
        ensures i in DecodedIndices(entries)
      {
        assert entries[i] == init[i];
      }
    }
  }

  /** At most one forecast per entry, and exactly one per entry precisely
      when every entry decodes. */
  lemma {:induction false} ParsedLength(entries: seq<Dict>)
    ensures |ParsedForecasts(entries)| <= |entries|
    ensures |ParsedForecasts(entries)| == |entries| <==>
              forall i :: 0 <= i < |entries| ==> ForecastFromDict(entries[i]).Some?
  {
    if |entries| > 0 {
      var init := entries[..|entries| - 1];
      ParsedLength(init);
      assert forall i :: 0 <= i < |init| ==> entries[i] == init[i];
    }
  }
}
