/**
 * The recording session: it forwards each request to an inner session and,
 * when the answer is a success and `mock_responses` is set, writes the answer
 * as a fixture `<mock_responses>/-recorded/<colon path>/<n>.json` before
 * handing it on. The inner session's answer, the `mock_responses` value and
 * whether the folders and the file can be written are parameters.
 */
module RecordSession {
  import opened Wrappers
  import opened Foundation
  import opened FixtureStore
  import Legacy = LegacyMockSession

  /** `URL.appendingPathComponent` on the URL's text: one "/" between the parts, none added
      when the base already ends with one. */
  function AppendPathComponent(base: string, component: string): (r: string)
    ensures |base| > 0 && base[|base| - 1] == '/' ==> r == base + component
    ensures (|base| == 0 || base[|base| - 1] != '/') ==> r == base + "/" + component
  {
    if |base| > 0 && base[|base| - 1] == '/' then base + component else base + "/" + component
  }

  /** Where the recording with index `n` of an endpoint key goes. */
  function RecordTarget(env: string, key: string, n: int): string {
    AppendPathComponent(AppendPathComponent(env, "-recorded"), key + "/" + Decimal(n) + ".json")
  }

  /** The fixture written for a live answer: its status and its body parsed as an array or
      object, or `{}` when it is not one; never a "request". */
  function RecordedFixture(p: Platform, response: URLSessionResponse): (f: Fixture)
    ensures f.status == response.response.statusCode
    ensures f.request.None?
    ensures IsContainer(f.response)
    ensures ParseContainer(p, response.data).Some? ==> f.response == ParseContainer(p, response.data).value
    ensures ParseContainer(p, response.data).None? ==> f.response == Obj(map[])
  {
    Fixture(response.response.statusCode, ParseContainer(p, response.data).GetOr(Obj(map[])), None)
  }

  /** The outcome of one `send`: the new counters, the new file system, and the completion
      result, or `None` when the completion handler is never called. */
  datatype Recording<E> = Recording(counter: map<string, int>, fs: FileSystem,
                                    callback: Option<Result<URLSessionResponse, E>>)

  function RecordSpec<E>(p: Platform, counter: map<string, int>, request: URLRequest, env: Option<string>,
                         live: Result<URLSessionResponse, E>, fs: FileSystem, writable: bool): (r: Recording<E>)
    ensures live.Failure? ==> r == Recording(counter, fs, Some(live))
    ensures live.Success? && (env.None? || p.urlFromString(env.value).None? || request.url.None?) ==>
              r == Recording(counter, fs, None)
    ensures r.callback.Some? ==> r.callback.value == live
    ensures r.counter.Keys <= counter.Keys + (if request.url.Some? then {ColonForm(request.url.value.path)} else {})
  {
    match live
    case Failure(_) => Recording(counter, fs, Some(live))
    case Success(response) =>
      if env.None? || p.urlFromString(env.value).None? || request.url.None? then Recording(counter, fs, None)
      else
        var key := ColonForm(request.url.value.path);
        var n := NextCount(counter, key);
        var target := RecordTarget(env.value, key, n);
        var fs' := if writable then fs[target := p.jsonData(FixtureJSON(RecordedFixture(p, response)))] else fs;
        Recording(counter[key := n], fs', Some(live))
  }

  class RecordURLSession {
    const recordPath := "-recorded"
    var urlCounter: map<string, int>

    constructor()
      ensures urlCounter == map[]
    {
      urlCounter := map[];
    }

    /** `send`, given the inner session's answer `live`. */
    method Send<E>(p: Platform, request: URLRequest, env: Option<string>, live: Result<URLSessionResponse, E>,
                   fs: FileSystem, writable: bool)
      returns (callback: Option<Result<URLSessionResponse, E>>, fs': FileSystem)
      modifies this
      ensures Recording(urlCounter, fs', callback) == RecordSpec(p, old(urlCounter), request, env, live, fs, writable)
    {
      fs' := fs;
      match live {
        case Failure(_) =>
          callback := Some(live);
        case Success(response) =>
          if env.None? || p.urlFromString(env.value).None? || request.url.None? {
            callback := None;
            return;
          }
          var filename := ColonForm(request.url.value.path);
          urlCounter := urlCounter[filename := NextCount(urlCounter, filename)];
          var timesRecorded := urlCounter[filename];
          var pathWithFileName := AppendPathComponent(AppendPathComponent(env.value, recordPath),
                                                      filename + "/" + Decimal(timesRecorded) + ".json");
          var dictionary := FixtureJSON(RecordedFixture(p, response));
          if writable {
            fs' := fs'[pathWithFileName := p.jsonData(dictionary)];
          }
          callback := Some(Success(response));
      }
    }
  }

  /** A transport failure is handed on unchanged; nothing is recorded and no counter moves. */
  lemma FailurePassesThrough<E>(p: Platform, counter: map<string, int>, request: URLRequest, env: Option<string>,
                                e: E, fs: FileSystem, writable: bool)
    ensures RecordSpec(p, counter, request, env, Failure(e), fs, writable) == Recording(counter, fs, Some(Failure(e)))
  {
  }

  /** Without `mock_responses`, the completion handler is never called and nothing changes. */
  lemma NoEnvironmentNoCallback<E>(p: Platform, counter: map<string, int>, request: URLRequest,
                                   response: URLSessionResponse, fs: FileSystem, writable: bool)
    ensures RecordSpec<E>(p, counter, request, None, Success(response), fs, writable) == Recording(counter, fs, None)
  {
  }

  /** When everything is in place the counter of the colon-form key advances by one (from -1), the
      fixture goes to the index it reached, and the answer is handed on. A failed write only loses
      the file. */
  lemma RecordsUnderNextIndex<E>(p: Platform, counter: map<string, int>, request: URLRequest, env: string,
                                 response: URLSessionResponse, fs: FileSystem, writable: bool)
    requires p.urlFromString(env).Some? && request.url.Some?
    ensures var key := ColonForm(request.url.value.path);
            var n := NextCount(counter, key);
            var r := RecordSpec<E>(p, counter, request, Some(env), Success(response), fs, writable);
            && r.counter == counter[key := n]
            && r.callback == Some(Success(response))
            && (writable ==> r.fs == fs[RecordTarget(env, key, n) := p.jsonData(FixtureJSON(RecordedFixture(p, response)))])
            && (!writable ==> r.fs == fs)
  {
  }

  /** Two recordings of one endpoint under different indices never overwrite each other. */
  lemma TargetsDistinct(env: string, key: string, a: int, b: int)
    requires a != b
    ensures RecordTarget(env, key, a) != RecordTarget(env, key, b)
  {
    if RecordTarget(env, key, a) == RecordTarget(env, key, b) {
      AppendInjective(AppendPathComponent(env, "-recorded"), key + "/" + Decimal(a) + ".json",
                      key + "/" + Decimal(b) + ".json");
      CounterFileInjective(key + "/", a, b);
    }
  }

  /** Appending to one base gives equal results only for equal components. */
  lemma AppendInjective(base: string, x: string, y: string)
    requires AppendPathComponent(base, x) == AppendPathComponent(base, y)
    ensures x == y
  {
    var rx, ry := AppendPathComponent(base, x), AppendPathComponent(base, y);
    var n := if |base| > 0 && base[|base| - 1] == '/' then |base| else |base| + 1;
    assert rx[n..] == x;
    assert ry[n..] == y;
  }

  /** The recorder keys its counter by the colon form, so "/a/b" and "/a:b" share one counter:
      a recording of one after a recording of the other gets index 1, not 0. */
  lemma ColonKeysShareCounter<E>(p: Platform, env: string, r1: URLSessionResponse, r2: URLSessionResponse,
                                 a: URLRequest, b: URLRequest, fs: FileSystem)
    requires p.urlFromString(env).Some?
    requires a.url == Some(URL("/a/b")) && b.url == Some(URL("/a:b"))
    ensures var first := RecordSpec<E>(p, map[], a, Some(env), Success(r1), fs, true);
            var second := RecordSpec<E>(p, first.counter, b, Some(env), Success(r2), first.fs, true);
            ":a:b" in second.counter && second.counter[":a:b"] == 1
  {
    assert ColonForm("/a/b") == ":a:b";
    assert ColonForm("/a:b") == ":a:b";
    var first := RecordSpec<E>(p, map[], a, Some(env), Success(r1), fs, true);
    assert first.counter == map[":a:b" := 0];
    assert NextCount(first.counter, ":a:b") == 1;
  }

  /** Replaying what was recorded: the older replay session pointed at `<mock_responses>/-recorded`
      finds the file at the index the recorder used, and answers with the recorded status and a
      body that parses to the live body's tree ({} when the live body was not JSON). */
  lemma RecordThenReplay<E>(p: Platform, counter: map<string, int>, request: URLRequest, env: string,
                            response: URLSessionResponse, fs: FileSystem)
    requires JsonRoundTrips(p)
    requires p.urlFromString(env).Some? && request.url.Some?
    ensures var path := request.url.value.path;
            var n := NextCount(counter, ColonForm(path));
            var recorded := RecordSpec<E>(p, counter, request, Some(env), Success(response), fs, true);
            var location := TestFolderPath(AppendPathComponent(env, "-recorded"), path, n);
            && location in recorded.fs
            && Legacy.Process(p, recorded.fs[location]).Success?
            && Legacy.Process(p, recorded.fs[location]).value.response == response.response
            && ParseContainer(p, Legacy.Process(p, recorded.fs[location]).value.data)
               == Some(RecordedFixture(p, response).response)
  {
    var path := request.url.value.path;
    var key := ColonForm(path);
    var n := NextCount(counter, key);
    RecordTargetIsTestFolder(env, path, n);
    var f := RecordedFixture(p, response);
    FixtureRoundTrip(p, f);
    assert p.jsonObject(p.jsonData(f.response)) == Some(f.response);
  }

  /** The recorder writes exactly where the older replay session pointed at
      `<mock_responses>/-recorded` reads. */
  lemma RecordTargetIsTestFolder(env: string, path: string, n: int)
    ensures TestFolderPath(AppendPathComponent(env, "-recorded"), path, n) == RecordTarget(env, ColonForm(path), n)
  {
    var dir := AppendPathComponent(env, "-recorded");
    assert dir[|dir| - 1] == 'd';
    var rest := ColonForm(path) + "/" + Decimal(n) + ".json";
    assert RecordTarget(env, ColonForm(path), n) == dir + "/" + rest;
    assert dir + "/" + ColonForm(path) + "/" + Decimal(n) + ".json" == dir + "/" + rest;
  }
}
