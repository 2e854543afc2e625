/**
 * A typed API request and its conversion to a `URLRequest`: the URL is the
 * base URL string followed by the request's path, with the query items set on
 * it; the body is the encoder's output (none for `EmptyBody`); the method is
 * the raw value of the HTTP method; the headers are the service's defaults
 * overridden by the request's own, with `Authorization` set from the access
 * token when there is one. URL parsing and body encoding are supplied.
 */
module APIRequest {
  import opened Wrappers
  import opened Foundation
  import opened APIErrors

  datatype HTTPMethod = Delete | Get | Patch | Post | Put {
    /** The method's name on the wire. */
    function RawValue(): string {
      match this
      case Delete => "DELETE"
      case Get => "GET"
      case Patch => "PATCH"
      case Post => "POST"
      case Put => "PUT"
    }
  }

  /** `HTTPMethod(rawValue:)`: the method with this name, if any. */
  function MethodFromRawValue(s: string): (r: Option<HTTPMethod>)
    ensures r.Some? ==> r.value.RawValue() == s
  {
    if s == "DELETE" then Some(Delete)
    else if s == "GET" then Some(Get)
    else if s == "PATCH" then Some(Patch)
    else if s == "POST" then Some(Post)
    else if s == "PUT" then Some(Put)
    else None
  }

  /** Every method's raw value names it back, so distinct methods have distinct raw values. */
  lemma RawValueRoundTrip(m: HTTPMethod)
    ensures MethodFromRawValue(m.RawValue()) == Some(m)
  {
  }

  /** A body to encode, or `EmptyBody` for none. */
  datatype RequestBody<B> = EmptyBody | Body(value: B)

  /** The request type's properties; `method` is called `httpMethod` here. */
  datatype APIRequestType<B> = APIRequestType(
    body: RequestBody<B>,
    headers: Option<map<string, string>>,
    httpMethod: HTTPMethod,
    path: string,
    queries: Option<seq<QueryItem>>)

  /** A request type that keeps the protocol's defaults for `headers` and `queries`. */
  function WithDefaults<B>(body: RequestBody<B>, httpMethod: HTTPMethod, path: string): (r: APIRequestType<B>)
    ensures r.headers.None? && r.queries.None?
    ensures r.body == body && r.httpMethod == httpMethod && r.path == path
  {
    APIRequestType(body, None, httpMethod, path, None)
  }

  /** `jsonEncodeBody`: no data for `EmptyBody`, else the encoder's output or its error. */
  function JsonEncodeBody<B>(encode: B -> Result<Bytes, EncodingError>, body: RequestBody<B>)
    : (r: Result<Option<Bytes>, EncodingError>)
    ensures body.EmptyBody? ==> r == Success(None)
    ensures body.Body? ==> r.Success? == encode(body.value).Success?
    ensures body.Body? && r.Success? ==> r.value == Some(encode(body.value).value)
    ensures body.Body? && r.Failure? ==> r.error == encode(body.value).error
  {
    match body
    case EmptyBody => Success(None)
    case Body(b) =>
      match encode(b)
      case Success(data) => Success(Some(data))
      case Failure(e) => Failure(e)
  }

  /** The header fields of the built request: each default, unless the request's own headers
      name the same key, in which case the request's value; and `Authorization` set to
      "Bearer <token>" whenever there is a token, over whatever was there. */
  function MergedHeaders(defaults: map<string, string>, headers: Option<map<string, string>>,
                         accessToken: Option<string>): (h: map<string, string>)
    ensures forall k :: k in h <==>
              k in defaults || (headers.Some? && k in headers.value) || (k == "Authorization" && accessToken.Some?)
    ensures forall k :: k in h && k != "Authorization" ==>
              h[k] == if headers.Some? && k in headers.value then headers.value[k] else defaults[k]
  {
    var merged := defaults + headers.GetOr(map[]);
    if accessToken.Some? then merged["Authorization" := "Bearer " + accessToken.value] else merged
  }

  /** With a token, `Authorization` is always "Bearer " followed by it. */
  lemma TokenSetsAuthorization(defaults: map<string, string>, headers: Option<map<string, string>>, token: string)
    ensures var h := MergedHeaders(defaults, headers, Some(token));
            "Authorization" in h && h["Authorization"] == "Bearer " + token
  {
  }

  /** Without a token, `Authorization` is whatever the request's headers or the defaults say, and
      absent when neither names it. */
  lemma NoTokenKeepsAuthorization(defaults: map<string, string>, headers: Option<map<string, string>>)
    ensures var h := MergedHeaders(defaults, headers, None);
            && ("Authorization" in h <==> "Authorization" in defaults || (headers.Some? && "Authorization" in headers.value))
            && ("Authorization" in h ==>
                  h["Authorization"] == if headers.Some? && "Authorization" in headers.value
                                        then headers.value["Authorization"] else defaults["Authorization"])
  {
  }

  /** Nil request headers and no token leave the defaults exactly as they are. */
  lemma NilHeadersKeepDefaults(defaults: map<string, string>)
    ensures MergedHeaders(defaults, None, None) == defaults
  {
    assert defaults + map[] == defaults;
  }

  /** The override case of the unit tests: the request's "version" wins over the default one,
      and the other keys of both sides are kept. */
  lemma MergeExample()
    ensures MergedHeaders(map["version" := "10.0", "Language" := "en-us"],
                          Some(map["Content-Type" := "application/json", "version" := "11.0"]), None)
         == map["Language" := "en-us", "Content-Type" := "application/json", "version" := "11.0"]
  {
    var h := MergedHeaders(map["version" := "10.0", "Language" := "en-us"],
                           Some(map["Content-Type" := "application/json", "version" := "11.0"]), None);
    assert h.Keys == {"Language", "Content-Type", "version"};
  }

  /** The errors `urlRequest` throws: its own, or the encoder's. */
  datatype RequestError = BuildFailed(apiError: APIError) | BodyEncodingFailed(encodingError: EncodingError)

  /** What `urlRequest` returns or throws. */
  function URLRequestFor<B>(p: Platform, request: APIRequestType<B>, baseURLString: string,
                            accessToken: Option<string>, defaultHeaders: map<string, string>,
                            encode: B -> Result<Bytes, EncodingError>): (r: Result<URLRequest, RequestError>)
    ensures !p.componentsParse(baseURLString + request.path) <==>
              r == Failure(BuildFailed(InvalidURL(baseURLString + request.path)))
    ensures p.componentsParse(baseURLString + request.path) &&
            p.componentsURL(baseURLString + request.path, request.queries).None? ==>
              r == Failure(BuildFailed(InvalidQueryItems(request.queries)))
    ensures r.Success? <==>
              && p.componentsParse(baseURLString + request.path)
              && p.componentsURL(baseURLString + request.path, request.queries).Some?
              && JsonEncodeBody(encode, request.body).Success?
    ensures r.Success? ==>
              && r.value.url == p.componentsURL(baseURLString + request.path, request.queries)
              && r.value.httpMethod == request.httpMethod.RawValue()
              && r.value.httpBody == JsonEncodeBody(encode, request.body).value
              && r.value.allHTTPHeaderFields == Some(MergedHeaders(defaultHeaders, request.headers, accessToken))
    ensures r.Failure? && r.error.BodyEncodingFailed? ==> r.error.encodingError == JsonEncodeBody(encode, request.body).error
  {
    var urlString := baseURLString + request.path;
    if !p.componentsParse(urlString) then Failure(BuildFailed(InvalidURL(urlString)))
    else match p.componentsURL(urlString, request.queries)
      case None => Failure(BuildFailed(InvalidQueryItems(request.queries)))
      case Some(url) =>
        match JsonEncodeBody(encode, request.body)
        case Failure(e) => Failure(BodyEncodingFailed(e))
        case Success(body) =>
          Success(URLRequest(Some(url), request.httpMethod.RawValue(), Some(MergedHeaders(defaultHeaders, request.headers, accessToken)), body))
  }

  /** `urlRequest(baseURLString:accessToken:defaultHeaders:encoder:)`: builds the request field
      by field. */
  method UrlRequest<B>(p: Platform, request: APIRequestType<B>, baseURLString: string, accessToken: Option<string>,
                       defaultHeaders: map<string, string>, encode: B -> Result<Bytes, EncodingError>)
    returns (r: Result<URLRequest, RequestError>)
    ensures r == URLRequestFor(p, request, baseURLString, accessToken, defaultHeaders, encode)
  {
    var urlString := baseURLString + request.path;
    if !p.componentsParse(urlString) {
      return Failure(BuildFailed(InvalidURL(urlString)));
    }
    var url := p.componentsURL(urlString, request.queries);
    if url.None? {
      return Failure(BuildFailed(InvalidQueryItems(request.queries)));
    }
    var urlRequest := URLRequest(url, "GET", None, None);
    var body := JsonEncodeBody(encode, request.body);
    if body.Failure? {
      return Failure(BodyEncodingFailed(body.error));
    }
    urlRequest := urlRequest.(httpBody := body.value);
    urlRequest := urlRequest.(httpMethod := request.httpMethod.RawValue());
    var headers := defaultHeaders + request.headers.GetOr(map[]);
    urlRequest := urlRequest.(allHTTPHeaderFields := Some(headers));
    if accessToken.Some? {
      urlRequest := urlRequest.(allHTTPHeaderFields := Some(urlRequest.allHTTPHeaderFields.value["Authorization" := "Bearer " + accessToken.value]));
    }
    r := Success(urlRequest);
  }
}
