/**
 * The wire format of the `"request"` field of a fixture: `URLRequest.encode(to:)`
 * and `URLRequest.init(from:)`, over the keys `httpMethod`, `path`, `headers`
 * and `body`. JSONEncoder and JSONDecoder are taken to read and write the JSON
 * tree directly; an optional value encoded with `encode(_:forKey:)` is written
 * as `null`, and `decodeIfPresent` reads a missing key and `null` alike as absent.
 */
module RequestCoding {
  import opened Wrappers
  import opened Foundation

  /** The header dictionary as a JSON dictionary of strings. */
  function HeadersJSON(h: map<string, string>): JSON {
    Obj(map k | k in h :: Str(h[k]))
  }

  /** `URLRequest.encode(to:)`. */
  function EncodeRequest(p: Platform, r: URLRequest): (j: JSON)
    ensures j.Obj? && {"httpMethod", "path", "headers"} <= j.fields.Keys
    ensures "body" in j.fields <==> r.httpBody.Some?
  {
    var fields := map[
      "httpMethod" := Str(r.httpMethod),
      "path" := (match r.url case Some(u) => Str(u.path) case None => Null),
      "headers" := (match r.allHTTPHeaderFields case Some(h) => HeadersJSON(h) case None => Null)
    ];
    match r.httpBody
    case None => Obj(fields)
    case Some(b) => Obj(fields["body" := match p.utf8String(b) case Some(s) => Str(s) case None => Null])
  }

  /** `container.decode(String.self, forKey:)` */
  function DecodeString(f: map<string, JSON>, key: string): (r: Result<string, DecodingError>)
    ensures r.Success? <==> key in f && f[key].Str?
  {
    if key !in f then Failure(KeyNotFound([key]))
    else match f[key]
      case Str(s) => Success(s)
      case Null => Failure(ValueNotFound([key]))
      case _ => Failure(TypeMismatch([key]))
  }

  /** `container.decodeIfPresent([String: String].self, forKey: .headers)` */
  function DecodeHeaders(f: map<string, JSON>): Result<Option<map<string, string>>, DecodingError> {
    if "headers" !in f || f["headers"] == Null then Success(None)
    else match f["headers"]
      case Obj(m) =>
        if forall k :: k in m ==> m[k].Str? then Success(Some(map k | k in m :: m[k].s))
        else Failure(TypeMismatch(["headers"]))
      case _ => Failure(TypeMismatch(["headers"]))
  }

  /** `container.decodeIfPresent(String.self, forKey: .body)`, then `data(using: .utf8)` */
  function DecodeBody(p: Platform, f: map<string, JSON>): Result<Option<Bytes>, DecodingError> {
    if "body" !in f || f["body"] == Null then Success(None)
    else match f["body"]
      case Str(s) => Success(Some(p.utf8Data(s)))
      case _ => Failure(TypeMismatch(["body"]))
  }

  /** `URLRequest.init(from:)`: the path (which must parse as a URL), then the method,
      then the optional headers and body, each failure thrown as it is met. */
  function DecodeRequest(p: Platform, j: JSON): (r: Result<URLRequest, DecodingError>)
    ensures r.Success? ==> j.Obj? && "path" in j.fields && "httpMethod" in j.fields
    ensures r.Success? ==> r.value.url.Some? && Str(r.value.httpMethod) == j.fields["httpMethod"]
    ensures r.Success? ==> j.fields["path"].Str? && r.value.url == p.urlFromString(j.fields["path"].s)
    ensures r.Success? ==>
              (r.value.allHTTPHeaderFields.None? <==> "headers" !in j.fields || j.fields["headers"] == Null)
    ensures r.Success? && r.value.allHTTPHeaderFields.Some? ==>
              HeadersJSON(r.value.allHTTPHeaderFields.value) == j.fields["headers"]
    ensures r.Success? ==> (r.value.httpBody.None? <==> "body" !in j.fields || j.fields["body"] == Null)
    ensures r.Success? && "body" in j.fields && j.fields["body"].Str? ==>
              r.value.httpBody == Some(p.utf8Data(j.fields["body"].s))
  {
    if !j.Obj? then Failure(TypeMismatch([]))
    else
      var f := j.fields;
      var pathText :- DecodeString(f, "path");
      var url :- match p.urlFromString(pathText)
                 case Some(u) => Success(u)
                 case None => Failure(DataCorrupted(["path"]));
      var httpMethod :- DecodeString(f, "httpMethod");
      var headers :- DecodeHeaders(f);
      var body :- DecodeBody(p, f);
      Success(URLRequest(Some(url), httpMethod, headers, body))
  }

  /** Decoding what was encoded gives back the same URL, method and headers, and a body
      carrying the same UTF-8 text; a missing body and a body that is not UTF-8 both
      decode to no body. It needs the URL to read back from its own path. */
  lemma {:induction false} RequestRoundTrip(p: Platform, r: URLRequest)
    requires r.url.Some? && p.urlFromString(r.url.value.path) == r.url
    ensures DecodeRequest(p, EncodeRequest(p, r)).Success?
    ensures var d := DecodeRequest(p, EncodeRequest(p, r)).value;
            && d.url == r.url
            && d.httpMethod == r.httpMethod
            && d.allHTTPHeaderFields == r.allHTTPHeaderFields
            && d.httpBody == (if r.httpBody.Some? && p.utf8String(r.httpBody.value).Some?
                              then Some(p.utf8Data(p.utf8String(r.httpBody.value).value))
                              else None)
  {
    var f := EncodeRequest(p, r).fields;
    assert DecodeString(f, "path") == Success(r.url.value.path);
    assert DecodeString(f, "httpMethod") == Success(r.httpMethod);
    match r.allHTTPHeaderFields {
      case None =>
        assert DecodeHeaders(f) == Success(None);
      case Some(h) =>
        var m := HeadersJSON(h).fields;
        assert f["headers"] == Obj(m);
        assert (map k | k in m :: m[k].s) == h;
        assert DecodeHeaders(f) == Success(Some(h));
    }
  }

  /** For a request whose body is UTF-8 text, the round trip is exact. */
  lemma RequestRoundTripExact(p: Platform, r: URLRequest)
    requires r.url.Some? && p.urlFromString(r.url.value.path) == r.url
    requires r.httpBody.Some? ==>
               p.utf8String(r.httpBody.value).Some? &&
               p.utf8Data(p.utf8String(r.httpBody.value).value) == r.httpBody.value
    ensures DecodeRequest(p, EncodeRequest(p, r)) == Success(r)
  {
    RequestRoundTrip(p, r);
  }

  /** With a UTF-8 codec that reads back what it writes, a request whose body is the encoding
      of some text survives the round trip exactly. */
  lemma TextBodyRoundTrip(p: Platform, r: URLRequest, text: string)
    requires Utf8RoundTrips(p)
    requires r.url.Some? && p.urlFromString(r.url.value.path) == r.url
    requires r.httpBody == Some(p.utf8Data(text))
    ensures DecodeRequest(p, EncodeRequest(p, r)) == Success(r)
  {
    assert p.utf8String(p.utf8Data(text)) == Some(text);
    RequestRoundTripExact(p, r);
  }

  /** A request without a URL is encoded with `"path": null`, which does not decode. */
  lemma RequestWithoutURLDoesNotDecode(p: Platform, r: URLRequest)
    requires r.url.None?
    ensures DecodeRequest(p, EncodeRequest(p, r)) == Failure(ValueNotFound(["path"]))
  {
  }
}
