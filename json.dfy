/**
  Parsed JSON values, and the two Python operations the session log helpers
  apply to them: `json.loads` and subscripting with a string key.
*/
module Json {
  import opened Wrappers

  /** A parsed JSON value; numbers are kept as integers. */
  datatype Json =
    | JNull
    | JBool(b: bool)
    | JNumber(n: int)
    | JString(s: string)
    | JArray(items: seq<Json>)
    | JObject(fields: map<string, Json>)

  /** The exceptions that `json.loads(text)[key]` can raise. */
  datatype PyError =
    | TypeError          // `json.loads(None)`, or subscripting a non-object
    | JsonDecodeError    // the text is not JSON
    | KeyError(key: string)

  /**
    A nullable text column, seen through `json.loads`: SQL NULL, text that
    does not parse, or text that parses to `doc`. `json.loads` is
    deterministic, so the column is represented by what it parses to.
  */
  datatype StoredText = NoText | Malformed | WellFormed(doc: Json)

  /** `json.loads(text)`. */
  function Loads(t: StoredText): (r: Result<Json, PyError>)
    ensures r.Ok? <==> t.WellFormed?
    ensures r.Ok? ==> r.value == t.doc
    ensures t.NoText? ==> r == Err(TypeError)
    ensures t.Malformed? ==> r == Err(JsonDecodeError)
  {
    match t
    case NoText => Err(TypeError)
    case Malformed => Err(JsonDecodeError)
    case WellFormed(doc) => Ok(doc)
  }

  /** `v[key]`: only an object can be subscripted with a string, and only by a key it has. */
  function Subscript(v: Json, key: string): (r: Result<Json, PyError>)
    ensures r.Ok? <==> v.JObject? && key in v.fields
    ensures r.Ok? ==> r.value == v.fields[key]
  {
    match v
    case JObject(fields) => if key in fields then Ok(fields[key]) else Err(KeyError(key))
    case _ => Err(TypeError)
  }

  /** The text parses to an object whose `outer` member is an object with an `inner` member. */
  predicate HasMember(t: StoredText, outer: string, inner: string)
  {
    && t.WellFormed?
    && t.doc.JObject?
    && outer in t.doc.fields
    && t.doc.fields[outer].JObject?
    && inner in t.doc.fields[outer].fields
  }

  /**
    `json.loads(text)[outer][inner]`, evaluated step by step: it yields a
    value exactly when the text has that nested member, and then it yields
    that member; NULL text raises TypeError and unparsable text
    JSONDecodeError.
  */
  function Member(t: StoredText, outer: string, inner: string): (r: Result<Json, PyError>)
    ensures r.Ok? <==> HasMember(t, outer, inner)
    ensures r.Ok? ==> r.value == t.doc.fields[outer].fields[inner]
    ensures t.NoText? ==> r == Err(TypeError)
    ensures t.Malformed? ==> r == Err(JsonDecodeError)
  {
    match Loads(t)
    case Err(e) => Err(e)
    case Ok(doc) =>
      match Subscript(doc, outer)
      case Err(e) => Err(e)
      case Ok(part) => Subscript(part, inner)
  }
}
