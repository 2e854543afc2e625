/**
 * The replay session with request validation: each `send` picks a fixture for
 * the request's path (the counter and the three-step fallback of
 * `FixtureStore.Resolve`), and `process` turns the fixture into a status and a
 * body, after checking the live request against the fixture's "request" when
 * validation is on.
 */
module MockSession {
  import opened Wrappers
  import opened Foundation
  import V = RequestValidation
  import opened RequestCoding
  import opened RequestMatching
  import opened FixtureStore
  import Legacy = LegacyMockSession

  datatype MockURLSessionError =
    | UnableToLocateResponse(path: string)
    | UnableToParseResponse(data: Bytes)
    | MockRequestNotFound(request: URLRequest)
    | NoURL
    | RequestValidationFailed(request: URLRequest)

  /** Everything `send` can complete with as a failure: the session's own errors, and the errors
      that decoding or matching the fixture's request throws and `process` passes on as they are.
      A "request" that is not an array or object cannot be serialised at all. */
  datatype ReplayError =
    | Mock(mockError: MockURLSessionError)
    | RequestDecoding(decodingError: DecodingError)
    | Matching(matchError: MatchError)
    | RequestNotSerializable

  /** The validation step of `process` on a fixture's optional "request": no error, or the error
      that ends the request. */
  function ValidationError(p: Platform, mode: V.RequestValidationMode, request: URLRequest, recorded: Option<JSON>)
    : (e: Option<ReplayError>)
    ensures mode.None? ==> e.None?
    ensures mode.Match? && recorded.None? ==> e == Some(Mock(MockRequestNotFound(request)))
    ensures e.Some? && e.value.Mock? ==> e.value.mockError.MockRequestNotFound? || e.value.mockError.RequestValidationFailed?
  {
    if mode.None? then None
    else match recorded
      case None => Some(Mock(MockRequestNotFound(request)))
      case Some(j) =>
        if !IsContainer(j) then Some(RequestNotSerializable)
        else match p.jsonObject(p.jsonData(j))
          case None => Some(RequestDecoding(DataCorrupted([])))
          case Some(tree) =>
            match DecodeRequest(p, tree)
            case Failure(e) => Some(RequestDecoding(e))
            case Success(mockRequest) =>
              match MatchSpec(p, mockRequest, request, mode.criteria)
              case Failure(e) => Some(Matching(e))
              case Success(false) => Some(Mock(RequestValidationFailed(request)))
              case Success(true) => None
  }

  /** What `process` returns for a fixture's bytes. */
  function ProcessSpec(p: Platform, mode: V.RequestValidationMode, request: URLRequest, mockData: Bytes)
    : (r: Result<URLSessionResponse, ReplayError>)
    ensures r.Success? <==>
              ParseFixture(p, mockData).Some? &&
              ValidationError(p, mode, request, ParseFixture(p, mockData).value.request).None?
    ensures r.Success? ==>
              && r.value.response.statusCode == ParseFixture(p, mockData).value.status
              && r.value.data == p.jsonData(ParseFixture(p, mockData).value.response)
    ensures ParseFixture(p, mockData).None? ==> r == Failure(Mock(UnableToParseResponse(mockData)))
  {
    match ParseFixture(p, mockData)
    case None => Failure(Mock(UnableToParseResponse(mockData)))
    case Some(f) =>
      match ValidationError(p, mode, request, f.request)
      case Some(e) => Failure(e)
      case None => Success(URLSessionResponse(p.jsonData(f.response), HTTPURLResponse(f.status)))
  }

  /** The new counters and the completion result of one `send`. */
  function SendSpec(p: Platform, mode: V.RequestValidationMode, directory: string, counter: map<string, int>,
                    request: URLRequest, env: Option<string>, fs: FileSystem)
    : (r: (map<string, int>, Result<URLSessionResponse, ReplayError>))
    ensures request.url.None? ==> r == (counter, Failure(Mock(NoURL)))
    ensures request.url.Some? ==> r.0 == Resolve(counter, directory, request.url.value.path, env, fs).0
  {
    match request.url
    case None => (counter, Failure(Mock(NoURL)))
    case Some(url) =>
      var (counter', lookup) := Resolve(counter, directory, url.path, env, fs);
      (counter', match lookup
                 case Found(data) => ProcessSpec(p, mode, request, data)
                 case NotFound(report) => Failure(Mock(UnableToLocateResponse(report))))
  }

  class MockURLSession {
    const directory: string
    const requestValidationMode: V.RequestValidationMode
    var urlCounter: map<string, int>

    constructor(directory: string, requestValidationMode: V.RequestValidationMode)
      ensures this.directory == directory && this.requestValidationMode == requestValidationMode
      ensures urlCounter == map[]
    {
      this.directory := directory;
      this.requestValidationMode := requestValidationMode;
      urlCounter := map[];
    }

    /** The indexed fixture for the path's current counter, if the path has a counter and the file exists. */
    function LoadJsonFromTestFolder(fs: FileSystem, file: string): (r: Option<Bytes>)
      reads this
      ensures r.Some? <==> file in urlCounter && TestFolderPath(directory, file, urlCounter[file]) in fs
      ensures r.Some? ==> r.value == fs[TestFolderPath(directory, file, urlCounter[file])]
    {
      if file in urlCounter then Read(fs, TestFolderPath(directory, file, urlCounter[file])) else None
    }

    /** The default fixture, if `mock_responses` is set and the file exists. */
    function LoadJsonFromDefaultFolder(env: Option<string>, fs: FileSystem, file: string): (r: Option<Bytes>)
      ensures r.Some? <==> env.Some? && DefaultFolderPath(env.value, file) in fs
      ensures r.Some? ==> r.value == fs[DefaultFolderPath(env.value, file)]
    {
      if env.Some? then Read(fs, DefaultFolderPath(env.value, file)) else None
    }

    /** `process(request:mockData:url:)`. */
    method Process(p: Platform, request: URLRequest, mockData: Bytes) returns (r: Result<URLSessionResponse, ReplayError>)
      ensures r == ProcessSpec(p, requestValidationMode, request, mockData)
    {
      var fixture := ParseFixture(p, mockData);
      if fixture.None? {
        return Failure(Mock(UnableToParseResponse(mockData)));
      }
      var f := fixture.value;
      if requestValidationMode.Match? {
        if f.request.None? {
          return Failure(Mock(MockRequestNotFound(request)));
        }
        var requestJSON := f.request.value;
        if !IsContainer(requestJSON) {
          return Failure(RequestNotSerializable);
        }
        var parsed := p.jsonObject(p.jsonData(requestJSON));
        if parsed.None? {
          return Failure(RequestDecoding(DataCorrupted([])));
        }
        var mockRequest := DecodeRequest(p, parsed.value);
        if mockRequest.Failure? {
          return Failure(RequestDecoding(mockRequest.error));
        }
        var matched := Match(p, mockRequest.value, request, requestValidationMode.criteria);
        if matched.Failure? {
          return Failure(Matching(matched.error));
        }
        if !matched.value {
          return Failure(Mock(RequestValidationFailed(request)));
        }
      }
      r := Success(URLSessionResponse(p.jsonData(f.response), HTTPURLResponse(f.status)));
    }

    /** `send`: bump the path's counter and read that index; on a miss reset the counter to 0 and
        read again; then try the default folder; the first file found is processed and its result
        returned, whatever it is. */
    method Send(p: Platform, request: URLRequest, env: Option<string>, fs: FileSystem)
      returns (r: Result<URLSessionResponse, ReplayError>)
      modifies this
      ensures (urlCounter, r) == SendSpec(p, requestValidationMode, directory, old(urlCounter), request, env, fs)
    {
      if request.url.None? {
        return Failure(Mock(NoURL));
      }
      var path := request.url.value.path;
      ghost var resolved := Resolve(old(urlCounter), directory, path, env, fs);
      urlCounter := urlCounter[path := NextCount(urlCounter, path)];
      var mockData := LoadJsonFromTestFolder(fs, path);
      if mockData.Some? {
        assert resolved.0 == urlCounter && resolved.1 == Found(mockData.value);
        r := Process(p, request, mockData.value);
        return;
      }
      urlCounter := urlCounter[path := 0];
      mockData := LoadJsonFromTestFolder(fs, path);
      if mockData.Some? {
        assert resolved.0 == urlCounter && resolved.1 == Found(mockData.value);
        r := Process(p, request, mockData.value);
        return;
      }
      mockData := LoadJsonFromDefaultFolder(env, fs, path);
      if mockData.Some? {
        assert resolved.0 == urlCounter && resolved.1 == Found(mockData.value);
        r := Process(p, request, mockData.value);
        return;
      }
      assert resolved.0 == urlCounter && resolved.1 == NotFound(MissingReport(directory, path, 0));
      r := Failure(Mock(UnableToLocateResponse(MissingReport(directory, path, urlCounter[path]))));
    }
  }

  /** A request without a URL fails with `noURL` and leaves every counter as it was. */
  lemma NoURLLeavesCountersAlone(p: Platform, mode: V.RequestValidationMode, directory: string,
                                 counter: map<string, int>, request: URLRequest, env: Option<string>, fs: FileSystem)
    requires request.url.None?
    ensures SendSpec(p, mode, directory, counter, request, env, fs) == (counter, Failure(Mock(NoURL)))
  {
  }

  /** Once the incremented index is found, its `process` result is the answer even when it is a
      failure: neither index 0 nor the default fixture is consulted. */
  lemma FoundFixtureEndsTheRequest(p: Platform, mode: V.RequestValidationMode, directory: string,
                                   counter: map<string, int>, request: URLRequest, env: Option<string>, fs: FileSystem)
    requires request.url.Some?
    requires TestFolderPath(directory, request.url.value.path, NextCount(counter, request.url.value.path)) in fs
    ensures var data := fs[TestFolderPath(directory, request.url.value.path, NextCount(counter, request.url.value.path))];
            SendSpec(p, mode, directory, counter, request, env, fs).1 == ProcessSpec(p, mode, request, data)
  {
  }

  /** Whichever candidate is found first, the incremented index, index 0 or the default fixture,
      its `process` result is the answer, even a failure: the lookup does not fall through to a
      later candidate. */
  lemma FirstFoundFixtureAnswers(p: Platform, mode: V.RequestValidationMode, directory: string,
                                 counter: map<string, int>, request: URLRequest, env: Option<string>,
                                 fs: FileSystem, location: string)
    requires request.url.Some?
    requires FirstPresent(fs, Candidates(counter, directory, request.url.value.path, env)) == Some(location)
    ensures SendSpec(p, mode, directory, counter, request, env, fs).1 == ProcessSpec(p, mode, request, fs[location])
  {
    ResolveReadsFirstCandidate(counter, directory, request.url.value.path, env, fs);
  }

  /** When the incremented index, index 0 and the default fixture are all missing, the failure names
      the raw path with index 0 and the counter is left at 0. */
  lemma NothingFound(p: Platform, mode: V.RequestValidationMode, directory: string,
                     counter: map<string, int>, request: URLRequest, env: Option<string>, fs: FileSystem)
    requires request.url.Some?
    requires forall c :: c in Candidates(counter, directory, request.url.value.path, env) ==> c !in fs
    ensures var path := request.url.value.path;
              SendSpec(p, mode, directory, counter, request, env, fs)
              == (counter[path := 0], Failure(Mock(UnableToLocateResponse(directory + path + "/0.json"))))
  {
    var cs := Candidates(counter, directory, request.url.value.path, env);
    assert cs[0] in cs && cs[1] in cs;
    if env.Some? {
      assert cs[2] in cs;
    }
    assert Decimal(0) == "0";
    assert MissingReport(directory, request.url.value.path, 0) == directory + request.url.value.path + "/0.json";
  }

  /** With validation off, the fixture's "request" is never looked at: the live request does not
      affect the result. */
  lemma ValidationOffIgnoresRequest(p: Platform, a: URLRequest, b: URLRequest, mockData: Bytes)
    ensures ProcessSpec(p, V.None, a, mockData) == ProcessSpec(p, V.None, b, mockData)
  {
  }

  /** With validation on, a fixture without "request" fails with `mockRequestNotFound`. */
  lemma MissingRecordedRequest(p: Platform, criteria: set<V.Criteria>, request: URLRequest, mockData: Bytes)
    requires ParseFixture(p, mockData).Some? && ParseFixture(p, mockData).value.request.None?
    ensures ProcessSpec(p, V.Match(criteria), request, mockData) == Failure(Mock(MockRequestNotFound(request)))
  {
  }

  /** With validation on, a fixture whose "request" is the encoding of a request `recorded`
      answers with its status and response when the live request matches `recorded`, and fails
      with `requestValidationFailed` when it does not. */
  lemma ValidationOutcome(p: Platform, criteria: set<V.Criteria>, request: URLRequest, recorded: URLRequest,
                          mockData: Bytes)
    requires JsonRoundTrips(p)
    requires recorded.url.Some? && p.urlFromString(recorded.url.value.path) == recorded.url
    requires recorded.httpBody.Some? ==>
               p.utf8String(recorded.httpBody.value).Some? &&
               p.utf8Data(p.utf8String(recorded.httpBody.value).value) == recorded.httpBody.value
    requires ParseFixture(p, mockData).Some?
    requires ParseFixture(p, mockData).value.request == Some(EncodeRequest(p, recorded))
    requires MatchSpec(p, recorded, request, criteria).Success?
    ensures var f := ParseFixture(p, mockData).value;
              ProcessSpec(p, V.Match(criteria), request, mockData)
              == if MatchSpec(p, recorded, request, criteria).value
                 then Success(URLSessionResponse(p.jsonData(f.response), HTTPURLResponse(f.status)))
                 else Failure(Mock(RequestValidationFailed(request)))
  {
    var j := EncodeRequest(p, recorded);
    assert p.jsonObject(p.jsonData(j)) == Some(j);
    RequestRoundTripExact(p, recorded);
  }

  /** A successful answer carries the fixture's response: parsing the returned bytes gives the
      "response" tree back. */
  lemma AnswerCarriesResponse(p: Platform, mode: V.RequestValidationMode, request: URLRequest, mockData: Bytes)
    requires JsonRoundTrips(p)
    requires ProcessSpec(p, mode, request, mockData).Success?
    ensures ParseContainer(p, ProcessSpec(p, mode, request, mockData).value.data)
         == Some(ParseFixture(p, mockData).value.response)
  {
    var f := ParseFixture(p, mockData).value;
    assert p.jsonObject(p.jsonData(f.response)) == Some(f.response);
  }

  /** The older session's errors as errors of this one. */
  function FromLegacy(e: Legacy.MockURLSessionError): (r: ReplayError)
    ensures r.Mock?
  {
    match e
    case UnableToLocateResponse(path) => Mock(UnableToLocateResponse(path))
    case UnableToParseResponse(data) => Mock(UnableToParseResponse(data))
    case NoURL => Mock(NoURL)
  }

  /** With validation off, this session and the older copy move their counters alike and answer
      alike, up to the wrapping of the error. */
  lemma ValidationOffIsLegacy(p: Platform, directory: string, counter: map<string, int>,
                              request: URLRequest, env: Option<string>, fs: FileSystem)
    ensures var current := SendSpec(p, V.None, directory, counter, request, env, fs);
            var older := Legacy.SendSpec(p, directory, counter, request, env, fs);
            && current.0 == older.0
            && current.1 == match older.1
                            case Success(v) => Success(v)
                            case Failure(e) => Failure(FromLegacy(e))
  {
  }
}
