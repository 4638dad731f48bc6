/** Already-parsed JSON and YAML values. */
module JsonValues {

  /** A parsed JSON (or YAML) value. `JNull` also stands for Python's `None`: the
      server cannot tell an absent payload from a payload that parsed to `null`.
      Numbers are reals, so an integer and a float of the same value are equal,
      as they are under Python's `==`. Objects are maps: key order never matters. */
  datatype Json =
    | JNull
    | JBool(b: bool)
    | JNum(n: real)
    | JStr(s: string)
    | JArray(items: seq<Json>)
    | JObject(fields: map<string, Json>)
}
