/** The value `JSONSerialization` hands back, and the Swift conditional casts
    (`as? Double`, `as? String`, `as? [String: Any]`, `as? [[String: Any]]`)
    that the decoders apply to it. Numbers are carried as opaque integers:
    they are only passed through, never computed with. */
module Json {
  import opened Wrappers

  datatype Json =
    | JNull
    | JBool(b: bool)
    | JNum(num: int)
    | JStr(str: string)
    | JArr(items: seq<Json>)
    | JObj(fields: map<string, Json>)

  type Dict = map<string, Json>

  /** `dict[key]`: a missing key reads as nil. */
  function Lookup(dict: Dict, key: string): (r: Option<Json>)
    ensures r.Some? <==> key in dict
    ensures r.Some? ==> r.value == dict[key]
  {
    if key in dict then Some(dict[key]) else None
  }

  /** `as? Double` */
  function AsNumber(v: Option<Json>): (r: Option<int>)
    ensures r.Some? <==> v.Some? && v.value.JNum?
    ensures r.Some? ==> r.value == v.value.num
  {
    match v
    case Some(JNum(n)) => Some(n)
    case _ => None
  }

  /** `as? String` */
  function AsString(v: Option<Json>): (r: Option<string>)
    ensures r.Some? <==> v.Some? && v.value.JStr?
    ensures r.Some? ==> r.value == v.value.str
  {
    match v
    case Some(JStr(s)) => Some(s)
    case _ => None
  }

  /** `as? [String: Any]` */
  function AsObject(v: Option<Json>): (r: Option<Dict>)
    ensures r.Some? <==> v.Some? && v.value.JObj?
    ensures r.Some? ==> r.value == v.value.fields
  {
    match v
    case Some(JObj(m)) => Some(m)
    case _ => None
  }

  /** All elements of `items` are objects. */
  predicate AllObjects(items: seq<Json>) {
    forall i :: 0 <= i < |items| ==> items[i].JObj?
  }

  /** `as? [[String: Any]]`: the cast of an array succeeds only when every
      element is itself an object; the elements keep their order. */
  function AsObjectArray(v: Option<Json>): (r: Option<seq<Dict>>)
    ensures r.Some? <==> v.Some? && v.value.JArr? && AllObjects(v.value.items)
    ensures r.Some? ==> |r.value| == |v.value.items|
    ensures r.Some? ==> forall i :: 0 <= i < |r.value| ==> v.value.items[i] == JObj(r.value[i])
  {
    match v
    case Some(JArr(items)) =>
      if AllObjects(items) then Some(seq(|items|, i requires 0 <= i < |items| => items[i].fields))
      else None
    case _ => None
  }

  /** `array.first` */
  function First<T>(s: seq<T>): (r: Option<T>)
    ensures r.Some? <==> |s| > 0
    ensures r.Some? ==> r.value == s[0]
  {
    if |s| == 0 then None else Some(s[0])
  }
}
