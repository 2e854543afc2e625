/**
 * The parts of Foundation that the mock/record layer relies on, reduced to what
 * the layer reads of them. Parsing and rendering JSON text, UTF-8 conversion and
 * URL parsing are Foundation internals; they are supplied as the functions of a
 * `Platform` value, and the few facts a proof needs about them are stated as
 * preconditions of that proof.
 */
module Foundation {
  import opened Wrappers

  type Bytes = seq<bv8>

  /** The UTF-8 text `{}`, the bytes the library substitutes for a missing or empty body. */
  const EmptyObjectText: Bytes := [0x7B, 0x7D]

  /** A parsed JSON value as JSONSerialization produces it: NSNull, NSNumber,
      NSString, NSArray and NSDictionary. Numbers are integers in this model. */
  datatype JSON =
    | Null
    | Bool(b: bool)
    | Num(n: int)
    | Str(s: string)
    | Arr(items: seq<JSON>)
    | Obj(fields: map<string, JSON>)

  /** `JSONSerialization.isValidJSONObject` on a parsed tree: the top level must be an array or a dictionary. */
  predicate IsContainer(j: JSON) {
    j.Arr? || j.Obj?
  }

  /** A URL, modelled by its path: the only part of a URL the mock/record layer reads. */
  datatype URL = URL(path: string)

  datatype QueryItem = QueryItem(name: string, value: Option<string>)

  /** The Foundation routines the library calls, as functions. */
  datatype Platform = Platform(
    /** `JSONSerialization.jsonObject(with:options: .fragmentsAllowed)`: None when the bytes are not JSON text. */
    jsonObject: Bytes -> Option<JSON>,
    /** `JSONSerialization.data(withJSONObject:)` */
    jsonData: JSON -> Bytes,
    /** `String(data:encoding: .utf8)`: None when the bytes are not UTF-8. */
    utf8String: Bytes -> Option<string>,
    /** `String.data(using: .utf8)` */
    utf8Data: string -> Bytes,
    /** `URL(string:)` */
    urlFromString: string -> Option<URL>,
    /** `URLComponents(string:) != nil` */
    componentsParse: string -> bool,
    /** `urlComponents.url` after `queryItems` was assigned */
    componentsURL: (string, Option<seq<QueryItem>>) -> Option<URL>
  )

  /** `JSONSerialization.jsonObject(with:options:)` without `.fragmentsAllowed`:
      a top-level value that is not an array or a dictionary is an error. */
  function ParseContainer(p: Platform, data: Bytes): (r: Option<JSON>)
    ensures r.Some? <==> p.jsonObject(data).Some? && IsContainer(p.jsonObject(data).value)
    ensures r.Some? ==> r.value == p.jsonObject(data).value
  {
    match p.jsonObject(data)
    case Some(j) => if IsContainer(j) then Some(j) else None
    case None => None
  }

  /** Rendering then parsing gives the tree back. */
  ghost predicate JsonRoundTrips(p: Platform) {
    forall j {:trigger p.jsonData(j)} :: p.jsonObject(p.jsonData(j)) == Some(j)
  }

  /** Decoding the UTF-8 encoding of a string gives the string back. */
  ghost predicate Utf8RoundTrips(p: Platform) {
    forall s {:trigger p.utf8Data(s)} :: p.utf8String(p.utf8Data(s)) == Some(s)
  }

  /** A `DecodingError` thrown by `JSONDecoder`, with the coding path where it arose. */
  datatype DecodingError =
    | KeyNotFound(codingPath: seq<string>)
    | ValueNotFound(codingPath: seq<string>)
    | TypeMismatch(codingPath: seq<string>)
    | DataCorrupted(codingPath: seq<string>)

  /** An error thrown by a `JSONEncoder` while encoding a request body. */
  datatype EncodingError = EncodingError(reason: string)

  /** An `HTTPURLResponse`, modelled by its status code. */
  datatype HTTPURLResponse = HTTPURLResponse(statusCode: int)

  /** `URLSessionResponse`: the body bytes and the HTTP response. */
  datatype URLSessionResponse = URLSessionResponse(data: Bytes, response: HTTPURLResponse)

  /** A wire request (`URLRequest`): the fields the library sets and reads. */
  datatype URLRequest = URLRequest(
    url: Option<URL>,
    httpMethod: string,
    allHTTPHeaderFields: Option<map<string, string>>,
    httpBody: Option<Bytes>
  )
}
