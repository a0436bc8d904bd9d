/** The flat JSON objects that lookups produce and the cache stores. */
module JsonObjects {
  datatype JsonValue = Text(text: string) | Flag(flag: bool) | Number(number: real)

  type Json = map<string, JsonValue>

  /** `value("found", false)`. */
  predicate Found(o: Json) {
    "found" in o && o["found"] == Flag(true)
  }

  predicate HasError(o: Json) {
    "error" in o
  }
}
