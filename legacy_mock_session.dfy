/**
 * The older replay session: the same counter and three-step fallback as the
 * validating session, and a `process` that never looks at a fixture's
 * "request". It declares its own, smaller error type.
 */
module LegacyMockSession {
  import opened Wrappers
  import opened Foundation
  import opened FixtureStore

  datatype MockURLSessionError =
    | UnableToLocateResponse(path: string)
    | UnableToParseResponse(data: Bytes)
    | NoURL

  /** `process(mockData:url:)`: the fixture's status and response, or `unableToParseResponse`. */
  function Process(p: Platform, mockData: Bytes): (r: Result<URLSessionResponse, MockURLSessionError>)
    ensures r.Success? <==> ParseFixture(p, mockData).Some?
    ensures r.Success? ==>
              && r.value.response.statusCode == ParseFixture(p, mockData).value.status
              && r.value.data == p.jsonData(ParseFixture(p, mockData).value.response)
    ensures r.Failure? ==> r.error == UnableToParseResponse(mockData)
  {
    match ParseFixture(p, mockData)
    case None => Failure(UnableToParseResponse(mockData))
    case Some(f) => Success(URLSessionResponse(p.jsonData(f.response), HTTPURLResponse(f.status)))
  }

  /** The new counters and the completion result of one `send`. */
  function SendSpec(p: Platform, directory: string, counter: map<string, int>, request: URLRequest,
                    env: Option<string>, fs: FileSystem)
    : (r: (map<string, int>, Result<URLSessionResponse, MockURLSessionError>))
    ensures request.url.None? ==> r == (counter, Failure(NoURL))
    ensures request.url.Some? ==> r.0 == Resolve(counter, directory, request.url.value.path, env, fs).0
  {
    match request.url
    case None => (counter, Failure(NoURL))
    case Some(url) =>
      var (counter', lookup) := Resolve(counter, directory, url.path, env, fs);
      (counter', match lookup
                 case Found(data) => Process(p, data)
                 case NotFound(report) => Failure(UnableToLocateResponse(report)))
  }

  class MockURLSession {
    const directory: string
    var urlCounter: map<string, int>

    constructor(directory: string)
      ensures this.directory == directory && urlCounter == map[]
    {
      this.directory := directory;
      urlCounter := map[];
    }

    /** The indexed fixture for the path's current counter, if the path has a counter and the file exists. */
    function LoadJsonFromTestFolder(fs: FileSystem, file: string): (r: Option<Bytes>)
      reads this
      ensures r.Some? <==> file in urlCounter && TestFolderPath(directory, file, urlCounter[file]) in fs
      ensures r.Some? ==> r.value == fs[TestFolderPath(directory, file, urlCounter[file])]
    {
      if file in urlCounter then Read(fs, TestFolderPath(directory, file, urlCounter[file])) else None
    }

    /** The default fixture, if `mock_responses` is set and the file exists. */
    function LoadJsonFromDefaultFolder(env: Option<string>, fs: FileSystem, file: string): (r: Option<Bytes>)
      ensures r.Some? <==> env.Some? && DefaultFolderPath(env.value, file) in fs
      ensures r.Some? ==> r.value == fs[DefaultFolderPath(env.value, file)]
    {
      if env.Some? then Read(fs, DefaultFolderPath(env.value, file)) else None
    }

    /** `send`: increment and read, reset to 0 and read, then the default folder. */
    method Send(p: Platform, request: URLRequest, env: Option<string>, fs: FileSystem)
      returns (r: Result<URLSessionResponse, MockURLSessionError>)
      modifies this
      ensures (urlCounter, r) == SendSpec(p, directory, old(urlCounter), request, env, fs)
    {
      if request.url.None? {
        return Failure(NoURL);
      }
      var path := request.url.value.path;
      ghost var resolved := Resolve(old(urlCounter), directory, path, env, fs);
      urlCounter := urlCounter[path := NextCount(urlCounter, path)];
      var mockData := LoadJsonFromTestFolder(fs, path);
      if mockData.Some? {
        assert resolved.0 == urlCounter && resolved.1 == Found(mockData.value);
        return Process(p, mockData.value);
      }
      urlCounter := urlCounter[path := 0];
      mockData := LoadJsonFromTestFolder(fs, path);
      if mockData.Some? {
        assert resolved.0 == urlCounter && resolved.1 == Found(mockData.value);
        return Process(p, mockData.value);
      }
      mockData := LoadJsonFromDefaultFolder(env, fs, path);
      if mockData.Some? {
        assert resolved.0 == urlCounter && resolved.1 == Found(mockData.value);
        return Process(p, mockData.value);
      }
      assert resolved.0 == urlCounter && resolved.1 == NotFound(MissingReport(directory, path, 0));
      r := Failure(UnableToLocateResponse(MissingReport(directory, path, urlCounter[path])));
    }
  }

  /** A request without a URL fails with `noURL` and leaves every counter as it was. */
  lemma NoURLLeavesCountersAlone(p: Platform, directory: string, counter: map<string, int>,
                                 request: URLRequest, env: Option<string>, fs: FileSystem)
    requires request.url.None?
    ensures SendSpec(p, directory, counter, request, env, fs) == (counter, Failure(NoURL))
  {
  }

  /** After the two indexed reads miss, the default fixture under `mock_responses` answers. */
  lemma DefaultFolderAnswers(p: Platform, directory: string, counter: map<string, int>,
                             request: URLRequest, env: string, fs: FileSystem)
    requires request.url.Some?
    requires var path := request.url.value.path;
             && TestFolderPath(directory, path, NextCount(counter, path)) !in fs
             && TestFolderPath(directory, path, 0) !in fs
             && DefaultFolderPath(env, path) in fs
    ensures var path := request.url.value.path;
            SendSpec(p, directory, counter, request, Some(env), fs)
            == (counter[path := 0], Process(p, fs[DefaultFolderPath(env, path)]))
  {
  }

  /** When nothing is found the failure names the raw path with index 0. */
  lemma NothingFound(p: Platform, directory: string, counter: map<string, int>,
                     request: URLRequest, env: Option<string>, fs: FileSystem)
    requires request.url.Some?
    requires forall c :: c in Candidates(counter, directory, request.url.value.path, env) ==> c !in fs
    ensures var path := request.url.value.path;
            SendSpec(p, directory, counter, request, env, fs)
            == (counter[path := 0], Failure(UnableToLocateResponse(directory + path + "/0.json")))
  {
    var cs := Candidates(counter, directory, request.url.value.path, env);
    assert cs[0] in cs && cs[1] in cs;
    if env.Some? {
      assert cs[2] in cs;
    }
    assert Decimal(0) == "0";
    assert MissingReport(directory, request.url.value.path, 0) == directory + request.url.value.path + "/0.json";
  }
}
