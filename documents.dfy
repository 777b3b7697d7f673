/** The backend's stored documents: MongoDB documents as maps from key to value, Python's
    truthiness of those values, ObjectIds, and the HTTP errors the routes raise. */
module Documents {
  import opened Wrappers
  import opened Text
  import opened DateTimes

  /** An ObjectId, by its hexadecimal text (24 lower-case hex digits for a well-formed one). */
  datatype ObjectId = ObjectId(hex: string)

  /** The values the backend stores or reads in a document. */
  datatype Value =
    | Null
    | Str(s: string)
    | Int(i: int)
    | Bool(b: bool)
    | Time(t: DateTime)
    | Oid(id: ObjectId)

  type Doc = map<string, Value>

  /** Python's truth value: None, "", 0 and False are false; datetimes and ObjectIds are true. */
  predicate Truthy(v: Value) {
    match v
    case Null => false
    case Str(s) => s != ""
    case Int(i) => i != 0
    case Bool(b) => b
    case Time(_) => true
    case Oid(_) => true
  }

  /** `dict.get(key)`: the value under `key`, None when absent. */
  function Get(d: Doc, key: string): (v: Value)
    ensures key !in d ==> v == Null
    ensures key in d ==> v == d[key]
  {
    if key in d then d[key] else Null
  }

  /** An empty dict is false, any other is true. */
  predicate TruthyDoc(d: Doc) {
    d != map[]
  }

  // ---------------------------------------------------------------------------
  // ObjectId

  predicate IsHexDigit(c: char) {
    ('0' <= c <= '9') || ('a' <= c <= 'f') || ('A' <= c <= 'F')
  }

  predicate IsObjectIdText(s: string) {
    |s| == 24 && forall i :: 0 <= i < |s| ==> IsHexDigit(s[i])
  }

  predicate ValidObjectId(id: ObjectId) {
    IsObjectIdText(id.hex) && IsLower(id.hex)
  }

  /** `str(oid)`. */
  function ObjectIdText(id: ObjectId): string {
    id.hex
  }

  /** `ObjectId(text)`: 24 hex digits in either case are accepted and read as lower case;
      anything else is rejected. */
  function ParseObjectId(text: string): (r: Option<ObjectId>)
    ensures r.Some? <==> IsObjectIdText(text)
    ensures r.Some? ==> ValidObjectId(r.value)
    ensures r.Some? ==> ToLower(ObjectIdText(r.value)) == ToLower(text)
  {
    if IsObjectIdText(text) then
      ToLowerIdempotent(text);
      var lower := ToLower(text);
      assert forall i :: 0 <= i < |lower| ==> IsHexDigit(lower[i]);
      Some(ObjectId(lower))
    else None
  }

  /** Reading back the text of a well-formed ObjectId gives the same ObjectId. */
  lemma ObjectIdRoundTrip(id: ObjectId)
    requires ValidObjectId(id)
    ensures ParseObjectId(ObjectIdText(id)) == Some(id)
  {
    LowerIsFixedPoint(id.hex);
  }

  // ---------------------------------------------------------------------------
  // HTTP errors

  /** An HTTPException: status code and detail text. */
  datatype HttpError = HttpError(status: int, detail: string)

  const BadRequest: int := 400
  const Unauthorized: int := 401
  const NotFound: int := 404
}
