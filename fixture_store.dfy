/**
 * Where the replay sessions look for fixtures, and the per-path counter that
 * picks the next one. The file system is a map from location strings to file
 * contents; a location missing from the map is a read that fails (no file, or
 * a string that `URL(string:)` rejects). The `mock_responses` environment value
 * is an optional string supplied on each call.
 */
module FixtureStore {
  import opened Wrappers
  import opened Foundation

  type FileSystem = map<string, Bytes>

  /** `String.replacingOccurrences(of: "/", with: ":")`. */
  function ColonForm(path: string): (r: string)
    ensures |r| == |path|
    ensures '/' !in r
    ensures forall i :: 0 <= i < |path| && path[i] != '/' ==> r[i] == path[i]
    ensures forall i :: 0 <= i < |path| && path[i] == '/' ==> r[i] == ':'
  {
    seq(|path|, i requires 0 <= i < |path| => if path[i] == '/' then ':' else path[i])
  }

  /** The colon form is not one-to-one: "/a:b" and "/a/b" name the same folder. */
  lemma ColonFormCollides()
    ensures "/a:b" != "/a/b" && ColonForm("/a:b") == ColonForm("/a/b")
  {
    assert ColonForm("/a:b") == ":a:b";
    assert ColonForm("/a/b") == ":a:b";
  }

  predicate IsDigit(c: char) {
    '0' <= c <= '9'
  }

  function DigitChar(d: nat): (c: char)
    requires d < 10
    ensures IsDigit(c) && c as int - '0' as int == d
  {
    ('0' as int + d) as char
  }

  /** The number a string of decimal digits denotes. */
  function DigitsValue(s: string): int
    requires forall i :: 0 <= i < |s| ==> IsDigit(s[i])
  {
    if |s| == 0 then 0 else DigitsValue(s[..|s| - 1]) * 10 + (s[|s| - 1] as int - '0' as int)
  }

  /** The decimal digits of a natural number, most significant first, without leading zeros. */
  function NatDigits(n: nat): (r: string)
    ensures |r| >= 1
    ensures forall i :: 0 <= i < |r| ==> IsDigit(r[i])
    ensures r[0] != '0' || n == 0
    ensures DigitsValue(r) == n
    decreases n
  {
    if n < 10 then [DigitChar(n)]
    else
      var front := NatDigits(n / 10);
      var r := front + [DigitChar(n % 10)];
      assert r[..|r| - 1] == front;
      r
  }

  /** `String(describing:)` of an `Int`: a minus sign before the digits of a negative number. */
  function Decimal(i: int): (r: string)
    ensures |r| >= 1
    ensures r[0] == '-' <==> i < 0
  {
    if i < 0 then "-" + NatDigits(-i) else NatDigits(i)
  }

  /** Distinct counter values give distinct file names. */
  lemma {:induction false} DecimalInjective(a: int, b: int)
    requires Decimal(a) == Decimal(b)
    ensures a == b
  {
    if a < 0 {
      assert b < 0;
      assert Decimal(a)[1..] == NatDigits(-a);
      assert Decimal(b)[1..] == NatDigits(-b);
    } else {
      assert b >= 0;
      assert DigitsValue(NatDigits(a)) == a;
    }
  }

  /** The indexed fixture `<directory>/<colon path>/<count>.json`. */
  function TestFolderPath(directory: string, path: string, count: int): string {
    directory + "/" + ColonForm(path) + "/" + Decimal(count) + ".json"
  }

  /** The default fixture `<mock_responses>default/<colon path>.json`. */
  function DefaultFolderPath(env: string, path: string): string {
    env + "default/" + ColonForm(path) + ".json"
  }

  /** The location named in `unableToLocateResponse`: the raw path, not its colon form. */
  function MissingReport(directory: string, path: string, count: int): string {
    directory + path + "/" + Decimal(count) + ".json"
  }

  /** A file name that ends in a counter and ".json" determines the counter. */
  lemma {:induction false} CounterFileInjective(prefix: string, a: int, b: int)
    requires prefix + Decimal(a) + ".json" == prefix + Decimal(b) + ".json"
    ensures a == b
  {
    var sa, sb := prefix + Decimal(a) + ".json", prefix + Decimal(b) + ".json";
    assert |Decimal(a)| == |Decimal(b)|;
    assert sa[|prefix|..|sa| - 5] == Decimal(a);
    assert sb[|prefix|..|sb| - 5] == Decimal(b);
    DecimalInjective(a, b);
  }

  /** Different counts of one path are different files. */
  lemma TestFolderPathInjective(directory: string, path: string, a: int, b: int)
    requires TestFolderPath(directory, path, a) == TestFolderPath(directory, path, b)
    ensures a == b
  {
    CounterFileInjective(directory + "/" + ColonForm(path) + "/", a, b);
  }

  /** The location reported as missing is never the indexed file read for the same count: the
      report lacks the "/" after the directory. */
  lemma ReportedPathIsNotSearched(directory: string, path: string, n: int)
    ensures MissingReport(directory, path, n) != TestFolderPath(directory, path, n)
  {
    assert |TestFolderPath(directory, path, n)| == |MissingReport(directory, path, n)| + 1;
  }

  /** Reading a location: the file's bytes, or nothing. */
  function Read(fs: FileSystem, location: string): (r: Option<Bytes>)
    ensures r.Some? <==> location in fs
    ensures r.Some? ==> r.value == fs[location]
  {
    if location in fs then Some(fs[location]) else None
  }

  /** The counter value a lookup tries first: one more than the stored value, which defaults to -1. */
  function NextCount(counter: map<string, int>, path: string): int {
    (if path in counter then counter[path] else -1) + 1
  }

  datatype Lookup = Found(data: Bytes) | NotFound(report: string)

  /** The locations tried, in order: the incremented index, index 0, then the default fixture
      when `mock_responses` is set. */
  function Candidates(counter: map<string, int>, directory: string, path: string, env: Option<string>): (r: seq<string>)
    ensures 2 <= |r| <= 3
  {
    [TestFolderPath(directory, path, NextCount(counter, path)), TestFolderPath(directory, path, 0)]
      + (if env.Some? then [DefaultFolderPath(env.value, path)] else [])
  }

  /** The first location of the list that is present in the file system. */
  function FirstPresent(fs: FileSystem, locations: seq<string>): (r: Option<string>)
    ensures r.Some? ==> r.value in locations && r.value in fs
    ensures r.Some? ==> exists i :: 0 <= i < |locations| && locations[i] == r.value &&
                                    forall j :: 0 <= j < i ==> locations[j] !in fs
    ensures r.None? <==> forall i :: 0 <= i < |locations| ==> locations[i] !in fs
  {
    if |locations| == 0 then None
    else if locations[0] in fs then Some(locations[0])
    else FirstPresent(fs, locations[1..])
  }

  /** The counter and lookup outcome of one replay `send` for a request whose URL has this path.
      The counter is set to the incremented value when that index is found, and to 0 otherwise. */
  function Resolve(counter: map<string, int>, directory: string, path: string, env: Option<string>, fs: FileSystem)
    : (r: (map<string, int>, Lookup))
    ensures r.0.Keys == counter.Keys + {path}
    ensures forall q :: q in counter && q != path ==> r.0[q] == counter[q]
    ensures r.0[path] == if TestFolderPath(directory, path, NextCount(counter, path)) in fs
                         then NextCount(counter, path) else 0
  {
    var next := NextCount(counter, path);
    if TestFolderPath(directory, path, next) in fs then
      (counter[path := next], Found(fs[TestFolderPath(directory, path, next)]))
    else if TestFolderPath(directory, path, 0) in fs then
      (counter[path := 0], Found(fs[TestFolderPath(directory, path, 0)]))
    else if env.Some? && DefaultFolderPath(env.value, path) in fs then
      (counter[path := 0], Found(fs[DefaultFolderPath(env.value, path)]))
    else
      (counter[path := 0], NotFound(MissingReport(directory, path, 0)))
  }

  /** The lookup reads the first present candidate, and reports the raw path with index 0 when
      none is present. */
  lemma ResolveReadsFirstCandidate(counter: map<string, int>, directory: string, path: string,
                                   env: Option<string>, fs: FileSystem)
    ensures var first := FirstPresent(fs, Candidates(counter, directory, path, env));
            match Resolve(counter, directory, path, env, fs).1
            case Found(data) => first.Some? && data == fs[first.value]
            case NotFound(report) => first.None? && report == MissingReport(directory, path, 0)
  {
    var cs := Candidates(counter, directory, path, env);
    if cs[0] !in fs {
      assert cs[1..][0] == cs[1];
      if cs[1] !in fs && env.Some? {
        assert cs[1..][1..][0] == cs[2];
      }
    }
  }

  /** A path seen for the first time reads index 0. */
  lemma FirstCallReadsIndexZero(counter: map<string, int>, directory: string, path: string,
                                env: Option<string>, fs: FileSystem)
    requires path !in counter
    requires TestFolderPath(directory, path, 0) in fs
    ensures Resolve(counter, directory, path, env, fs)
         == (counter[path := 0], Found(fs[TestFolderPath(directory, path, 0)]))
  {
  }

  /** The counters after `k` replays of the same path. */
  function After(counter: map<string, int>, directory: string, path: string, env: Option<string>,
                 fs: FileSystem, k: nat): (r: map<string, int>)
    ensures k > 0 ==> path in r
  {
    if k == 0 then counter
    else Resolve(After(counter, directory, path, env, fs, k - 1), directory, path, env, fs).0
  }

  lemma {:induction false} MulAtLeast(a: nat, n: nat)
    requires a >= 1
    ensures a * n >= n
  {
    if a > 1 {
      MulAtLeast(a - 1, n);
      assert a * n == (a - 1) * n + n;
    }
  }

  lemma ModUnique(k: int, n: int, q: int, r: int)
    requires n > 0 && 0 <= r < n && k == q * n + r
    ensures k % n == r
  {
    var q0, r0 := k / n, k % n;
    assert k == q0 * n + r0;
    assert (q0 - q) * n == r - r0;
    if q0 > q {
      MulAtLeast(q0 - q, n);
    } else if q0 < q {
      MulAtLeast(q - q0, n);
    }
  }

  lemma ModStep(k: nat, n: nat)
    requires n >= 1 && k >= 1
    ensures (k - 1) % n + 1 < n ==> k % n == (k - 1) % n + 1
    ensures (k - 1) % n + 1 == n ==> k % n == 0
  {
    var q, r := (k - 1) / n, (k - 1) % n;
    assert k - 1 == q * n + r;
    if r + 1 < n {
      ModUnique(k, n, q, r + 1);
    } else {
      assert (q + 1) * n == q * n + n;
      ModUnique(k, n, q + 1, 0);
    }
  }

  /** One replay over fixtures 0..n-1 (index n absent) from a counter at most n-1: the next
      index is read when it is below n, and otherwise the counter wraps round to index 0. */
  lemma ReplayStep(counter: map<string, int>, directory: string, path: string,
                   env: Option<string>, fs: FileSystem, n: nat)
    requires n >= 1
    requires forall i :: 0 <= i < n ==> TestFolderPath(directory, path, i) in fs
    requires TestFolderPath(directory, path, n) !in fs
    requires 0 <= NextCount(counter, path) <= n
    ensures var next := if NextCount(counter, path) < n then NextCount(counter, path) else 0;
            && Resolve(counter, directory, path, env, fs).1 == Found(fs[TestFolderPath(directory, path, next)])
            && Resolve(counter, directory, path, env, fs).0[path] == next
  {
    assert TestFolderPath(directory, path, 0) in fs;
  }

  /** Counting 0, 1, .., n-1 and then round to 0 again. */
  function Wrap(k: nat, n: nat): (r: nat)
    requires n >= 1
    ensures r < n
  {
    if k == 0 then 0 else if Wrap(k - 1, n) + 1 < n then Wrap(k - 1, n) + 1 else 0
  }

  lemma {:induction false} WrapIsMod(k: nat, n: nat)
    requires n >= 1
    ensures Wrap(k, n) == k % n
  {
    if k > 0 {
      WrapIsMod(k - 1, n);
      ModStep(k, n);
    }
  }

  lemma {:induction false} ReplayWraps(counter: map<string, int>, directory: string, path: string,
                                       env: Option<string>, fs: FileSystem, n: nat, k: nat)
    requires n >= 1
    requires forall i :: 0 <= i < n ==> TestFolderPath(directory, path, i) in fs
    requires TestFolderPath(directory, path, n) !in fs
    requires NextCount(counter, path) == 0
    ensures Resolve(After(counter, directory, path, env, fs, k), directory, path, env, fs).1
         == Found(fs[TestFolderPath(directory, path, Wrap(k, n))])
    ensures After(counter, directory, path, env, fs, k + 1)[path] == Wrap(k, n)
  {
    var before := After(counter, directory, path, env, fs, k);
    if k > 0 {
      ReplayWraps(counter, directory, path, env, fs, n, k - 1);
      assert before[path] == Wrap(k - 1, n);
    }
    ReplayStep(before, directory, path, env, fs, n);
    assert After(counter, directory, path, env, fs, k + 1) == Resolve(before, directory, path, env, fs).0;
  }

  /** With fixtures 0..n-1 present for a fresh path and index n absent, the call numbered `k`
      (counting from 0) reads index k mod n, and leaves the counter at k mod n. */
  lemma ReplayCycles(counter: map<string, int>, directory: string, path: string,
                     env: Option<string>, fs: FileSystem, n: nat, k: nat)
    requires n >= 1
    requires forall i :: 0 <= i < n ==> TestFolderPath(directory, path, i) in fs
    requires TestFolderPath(directory, path, n) !in fs
    requires NextCount(counter, path) == 0
    ensures Resolve(After(counter, directory, path, env, fs, k), directory, path, env, fs).1
         == Found(fs[TestFolderPath(directory, path, k % n)])
    ensures After(counter, directory, path, env, fs, k + 1)[path] == k % n
  {
    ReplayWraps(counter, directory, path, env, fs, n, k);
    WrapIsMod(k, n);
  }

  /** Replays of one path never change the counter of another. */
  lemma {:induction false} OtherPathsUntouched(counter: map<string, int>, directory: string, path: string,
                                               env: Option<string>, fs: FileSystem, k: nat, other: string)
    requires other != path && other in counter
    ensures other in After(counter, directory, path, env, fs, k)
    ensures After(counter, directory, path, env, fs, k)[other] == counter[other]
  {
    if k > 0 {
      OtherPathsUntouched(counter, directory, path, env, fs, k - 1, other);
    }
  }

  /** A fixture file's content: the status, the response tree and, optionally, the request the
      response was recorded for. */
  datatype Fixture = Fixture(status: int, response: JSON, request: Option<JSON>)

  /** The JSON object a fixture is stored as; "request" is present exactly when there is one. */
  function FixtureJSON(f: Fixture): (j: JSON)
    ensures j.Obj? && "status" in j.fields && "response" in j.fields
    ensures "request" in j.fields <==> f.request.Some?
  {
    var base := map["status" := Num(f.status), "response" := f.response];
    Obj(if f.request.Some? then base["request" := f.request.value] else base)
  }

  /** The guard of `process`: the bytes parse (without fragments) to an object whose "status"
      is an integer and whose "response" is an array or object. */
  function ParseFixture(p: Platform, mockData: Bytes): (r: Option<Fixture>)
    ensures r.Some? <==>
              && ParseContainer(p, mockData).Some?
              && ParseContainer(p, mockData).value.Obj?
              && var fields := ParseContainer(p, mockData).value.fields;
                 "status" in fields && fields["status"].Num? && "response" in fields && IsContainer(fields["response"])
    ensures r.Some? ==> IsContainer(r.value.response)
  {
    match ParseContainer(p, mockData)
    case Some(Obj(fields)) =>
      if "status" in fields && fields["status"].Num? && "response" in fields && IsContainer(fields["response"]) then
        Some(Fixture(fields["status"].n, fields["response"], if "request" in fields then Some(fields["request"]) else None))
      else None
    case _ => None
  }

  /** Writing a fixture and parsing it back gives the same fixture, whenever its response is an
      array or object. */
  lemma FixtureRoundTrip(p: Platform, f: Fixture)
    requires JsonRoundTrips(p)
    requires IsContainer(f.response)
    ensures ParseFixture(p, p.jsonData(FixtureJSON(f))) == Some(f)
  {
    assert p.jsonObject(p.jsonData(FixtureJSON(f))) == Some(FixtureJSON(f));
  }

  /** A fixture whose "response" is missing, or is a string, number, boolean or null, is rejected. */
  lemma ResponseMustBeContainer(p: Platform, mockData: Bytes, fields: map<string, JSON>)
    requires p.jsonObject(mockData) == Some(Obj(fields))
    requires "response" !in fields || !IsContainer(fields["response"])
    ensures ParseFixture(p, mockData).None?
  {
  }
}
