/**
 * `URLRequest.match`: compares the request recorded in a fixture with a live
 * request. Path and method are always compared; headers only under a header
 * criterion, after the ignored header keys are dropped from both sides; bodies
 * only under a body criterion, parsed as JSON (a missing body reads as `{}`),
 * stripped of the ignored keys at every depth and compared as trees (the source
 * serialises both with sorted keys and compares the bytes).
 */
module RequestMatching {
  import opened Wrappers
  import opened Foundation
  import V = RequestValidation
  import opened KeyStripping

  /** The error `JSONSerialization.jsonObject` throws for a body that is not a JSON array or object. */
  datatype MatchError = InvalidJSONBody

  function PathOf(r: URLRequest): Option<string> {
    match r.url
    case Some(u) => Some(u.path)
    case None => None
  }

  /** `headers?.filter { !keys.contains($0.key) }` */
  function FilterHeaders(h: Option<map<string, string>>, keys: set<string>): (r: Option<map<string, string>>)
    ensures r.Some? <==> h.Some?
    ensures h.Some? ==> r.value.Keys == h.value.Keys - keys
    ensures h.Some? ==> forall k :: k in r.value ==> r.value[k] == h.value[k]
  {
    match h
    case Some(m) => Some(m - keys)
    case None => None
  }

  /** Filtering by one key set and then another is filtering by their union. */
  lemma FilterCompose(h: Option<map<string, string>>, a: set<string>, b: set<string>)
    ensures FilterHeaders(FilterHeaders(h, a), b) == FilterHeaders(h, a + b)
    ensures FilterHeaders(h, {}) == h
  {
    if h.Some? {
      assert (h.value - a) - b == h.value - (a + b);
      assert h.value - {} == h.value;
    }
  }

  /** The header check: passes when headers are not compared, or when both sides are equal
      once every ignored header key is dropped. */
  predicate HeadersAgree(lhs: Option<map<string, string>>, rhs: Option<map<string, string>>, criteria: set<V.Criteria>) {
    !V.MatchesHeaders(criteria) ||
    FilterHeaders(lhs, V.HeaderIgnoredKeys(criteria)) == FilterHeaders(rhs, V.HeaderIgnoredKeys(criteria))
  }

  /** A body as the matcher parses it: a missing body is the text `{}`. */
  function BodyTree(p: Platform, body: Option<Bytes>): Option<JSON> {
    ParseContainer(p, body.GetOr(EmptyObjectText))
  }

  /** The body check: passes when bodies are not compared; otherwise both must parse,
      and they pass when equal as trees once the ignored keys are stripped everywhere. */
  function BodiesAgree(p: Platform, lhs: Option<Bytes>, rhs: Option<Bytes>, criteria: set<V.Criteria>)
    : (r: Result<bool, MatchError>)
    ensures !V.MatchesBody(criteria) ==> r == Success(true)
    ensures r.Failure? <==> V.MatchesBody(criteria) && (BodyTree(p, lhs).None? || BodyTree(p, rhs).None?)
  {
    if !V.MatchesBody(criteria) then Success(true)
    else match (BodyTree(p, lhs), BodyTree(p, rhs))
      case (Some(l), Some(r)) =>
        Success(Strip(l, V.BodyIgnoredKeys(criteria)) == Strip(r, V.BodyIgnoredKeys(criteria)))
      case _ => Failure(InvalidJSONBody)
  }

  /** What `match` returns or throws. Both checks are computed before the results are
      combined, so a body that does not parse is an error even when the paths differ. */
  function MatchSpec(p: Platform, lhs: URLRequest, rhs: URLRequest, criteria: set<V.Criteria>): Result<bool, MatchError> {
    match BodiesAgree(p, lhs.httpBody, rhs.httpBody, criteria)
    case Failure(e) => Failure(e)
    case Success(bodyMatch) =>
      Success(PathOf(lhs) == PathOf(rhs) && lhs.httpMethod == rhs.httpMethod &&
              HeadersAgree(lhs.allHTTPHeaderFields, rhs.allHTTPHeaderFields, criteria) && bodyMatch)
  }

  /** `matchHTTPHeaders`: drops the keys of each `matchHeadersIgnoring` in turn from both sides. */
  method MatchHTTPHeaders(lhs: Option<map<string, string>>, rhs: Option<map<string, string>>, criteria: set<V.Criteria>)
    returns (r: bool)
    ensures r == HeadersAgree(lhs, rhs, criteria)
  {
    if !V.MatchesHeaders(criteria) {
      return true;
    }
    var lhsHeaders, rhsHeaders := lhs, rhs;
    var todo := criteria;
    assert criteria - todo == {};
    V.NothingIgnored();
    FilterCompose(lhs, {}, {});
    FilterCompose(rhs, {}, {});
    while todo != {}
      invariant todo <= criteria
      invariant lhsHeaders == FilterHeaders(lhs, V.HeaderIgnoredKeys(criteria - todo))
      invariant rhsHeaders == FilterHeaders(rhs, V.HeaderIgnoredKeys(criteria - todo))
      decreases todo
    {
      var c :| c in todo;
      ghost var done := criteria - todo;
      V.IgnoredKeysInsert(done, c);
      if c.MatchHeadersIgnoring? {
        FilterCompose(lhs, V.HeaderIgnoredKeys(done), V.KeySet(c.keys));
        FilterCompose(rhs, V.HeaderIgnoredKeys(done), V.KeySet(c.keys));
        lhsHeaders := FilterHeaders(lhsHeaders, V.KeySet(c.keys));
        rhsHeaders := FilterHeaders(rhsHeaders, V.KeySet(c.keys));
      } else {
        assert V.HeaderIgnoredKeys(done + {c}) == V.HeaderIgnoredKeys(done);
      }
      assert criteria - (todo - {c}) == done + {c};
      todo := todo - {c};
    }
    assert criteria - todo == criteria;
    r := lhsHeaders == rhsHeaders;
  }

  /** `matchHTTPBody`: parses both bodies, strips the keys of each `matchBodyIgnoring` in
      turn from both trees, and compares the results. */
  method MatchHTTPBody(p: Platform, lhs: Option<Bytes>, rhs: Option<Bytes>, criteria: set<V.Criteria>)
    returns (r: Result<bool, MatchError>)
    ensures r == BodiesAgree(p, lhs, rhs, criteria)
  {
    if !V.MatchesBody(criteria) {
      return Success(true);
    }
    var lhsParsed := ParseContainer(p, lhs.GetOr(EmptyObjectText));
    if lhsParsed.None? {
      return Failure(InvalidJSONBody);
    }
    var rhsParsed := ParseContainer(p, rhs.GetOr(EmptyObjectText));
    if rhsParsed.None? {
      return Failure(InvalidJSONBody);
    }
    var lhsBody, rhsBody := lhsParsed.value, rhsParsed.value;
    StripNothing(lhsBody);
    StripNothing(rhsBody);
    var todo := criteria;
    assert criteria - todo == {};
    V.NothingIgnored();
    while todo != {}
      invariant todo <= criteria
      invariant lhsBody == Strip(lhsParsed.value, V.BodyIgnoredKeys(criteria - todo))
      invariant rhsBody == Strip(rhsParsed.value, V.BodyIgnoredKeys(criteria - todo))
      decreases todo
    {
      var c :| c in todo;
      ghost var done := criteria - todo;
      V.IgnoredKeysInsert(done, c);
      if c.MatchBodyIgnoring? {
        StripCompose(lhsParsed.value, V.BodyIgnoredKeys(done), V.KeySet(c.keys));
        StripCompose(rhsParsed.value, V.BodyIgnoredKeys(done), V.KeySet(c.keys));
        lhsBody := RemoveAllValues(lhsBody, c.keys);
        rhsBody := RemoveAllValues(rhsBody, c.keys);
      } else {
        assert V.BodyIgnoredKeys(done + {c}) == V.BodyIgnoredKeys(done);
      }
      assert criteria - (todo - {c}) == done + {c};
      todo := todo - {c};
    }
    assert criteria - todo == criteria;
    r := Success(lhsBody == rhsBody);
  }

  /** `URLRequest.match(lhs:rhs:criteria:)`. It returns true exactly when the paths are equal,
      the methods are equal, the header check passes and the body check passes; with a body
      criterion, a body that is not a JSON array or object is an error whatever else differs. */
  method Match(p: Platform, lhs: URLRequest, rhs: URLRequest, criteria: set<V.Criteria>)
    returns (r: Result<bool, MatchError>)
    ensures r == MatchSpec(p, lhs, rhs, criteria)
    ensures r.Failure? <==>
              V.MatchesBody(criteria) && (BodyTree(p, lhs.httpBody).None? || BodyTree(p, rhs.httpBody).None?)
    ensures r == Success(true) <==>
              && PathOf(lhs) == PathOf(rhs)
              && lhs.httpMethod == rhs.httpMethod
              && HeadersAgree(lhs.allHTTPHeaderFields, rhs.allHTTPHeaderFields, criteria)
              && BodiesAgree(p, lhs.httpBody, rhs.httpBody, criteria) == Success(true)
  {
    var pathMatch := PathOf(lhs) == PathOf(rhs);
    var methodMatch := lhs.httpMethod == rhs.httpMethod;
    var headerMatch := MatchHTTPHeaders(lhs.allHTTPHeaderFields, rhs.allHTTPHeaderFields, criteria);
    var bodyMatch :- MatchHTTPBody(p, lhs.httpBody, rhs.httpBody, criteria);
    r := Success(pathMatch && methodMatch && headerMatch && bodyMatch);
  }

  /** Matching is symmetric: swapping the recorded and the live request changes nothing. */
  lemma MatchSymmetric(p: Platform, a: URLRequest, b: URLRequest, criteria: set<V.Criteria>)
    ensures MatchSpec(p, a, b, criteria) == MatchSpec(p, b, a, criteria)
  {
  }

  /** A different path or method never matches, whatever the criteria. */
  lemma PathAndMethodAlwaysCompared(p: Platform, a: URLRequest, b: URLRequest, criteria: set<V.Criteria>)
    requires PathOf(a) != PathOf(b) || a.httpMethod != b.httpMethod
    ensures MatchSpec(p, a, b, criteria) != Success(true)
  {
  }

  /** Without a header criterion, headers never affect the outcome. */
  lemma HeadersIgnoredWithoutCriterion(p: Platform, a: URLRequest, b: URLRequest, criteria: set<V.Criteria>,
                                       ha: Option<map<string, string>>, hb: Option<map<string, string>>)
    requires !V.MatchesHeaders(criteria)
    ensures MatchSpec(p, a, b, criteria)
         == MatchSpec(p, a.(allHTTPHeaderFields := ha), b.(allHTTPHeaderFields := hb), criteria)
  {
  }

  /** Without a body criterion, bodies are neither parsed nor compared: the outcome never is
      an error and does not depend on them. */
  lemma BodiesIgnoredWithoutCriterion(p: Platform, a: URLRequest, b: URLRequest, criteria: set<V.Criteria>,
                                      ba: Option<Bytes>, bb: Option<Bytes>)
    requires !V.MatchesBody(criteria)
    ensures MatchSpec(p, a, b, criteria).Success?
    ensures MatchSpec(p, a, b, criteria) == MatchSpec(p, a.(httpBody := ba), b.(httpBody := bb), criteria)
  {
  }

  /** With a header criterion, the header check passes exactly when both sides are absent, or
      both are present and agree on every key that is not ignored (presence and value). */
  lemma {:induction false} HeadersAgreeMeaning(lhs: Option<map<string, string>>, rhs: Option<map<string, string>>,
                                               criteria: set<V.Criteria>)
    requires V.MatchesHeaders(criteria)
    ensures HeadersAgree(lhs, rhs, criteria) <==>
              || (lhs.None? && rhs.None?)
              || (&& lhs.Some? && rhs.Some?
                  && forall k :: k !in V.HeaderIgnoredKeys(criteria) ==>
                       (k in lhs.value <==> k in rhs.value) &&
                       (k in lhs.value ==> lhs.value[k] == rhs.value[k]))
  {
    var ignored := V.HeaderIgnoredKeys(criteria);
    if lhs.Some? && rhs.Some? {
      var l, r := lhs.value - ignored, rhs.value - ignored;
      if forall k :: k !in ignored ==> (k in lhs.value <==> k in rhs.value) &&
                                       (k in lhs.value ==> lhs.value[k] == rhs.value[k]) {
        assert l.Keys == r.Keys;
        assert forall k :: k in l ==> l[k] == r[k];
        assert l == r;
      } else {
        var k :| k !in ignored && !((k in lhs.value <==> k in rhs.value) &&
                                    (k in lhs.value ==> lhs.value[k] == rhs.value[k]));
        assert (k in l <==> k in lhs.value) && (k in r <==> k in rhs.value);
        assert l != r;
      }
    }
  }

  /** With a body criterion, a missing body is compared as the empty object `{}`. */
  lemma MissingBodyIsEmptyObject(p: Platform)
    requires p.jsonObject(EmptyObjectText) == Some(Obj(map[]))
    ensures BodyTree(p, None) == Some(Obj(map[]))
  {
  }

  /** Only a missing body reads as `{}`: a recorded body of empty text is parsed as it is, and
      with a body criterion the match throws instead of comparing it with `{}`. */
  lemma EmptyTextBodyIsAnError(p: Platform, a: URLRequest, b: URLRequest, criteria: set<V.Criteria>)
    requires p.jsonObject([]) == None
    requires V.MatchesBody(criteria) && a.httpBody == Some([])
    ensures MatchSpec(p, a, b, criteria) == Failure(InvalidJSONBody)
  {
  }

  /** Two bodies that differ only in an ignored key match under `matchBodyIgnoring`, here
      {"a":1,"timestamp":"T1"} against {"a":1,"timestamp":"T2"} ignoring "timestamp". */
  lemma IgnoredTimestampExample(p: Platform, a: URLRequest, b: URLRequest)
    requires PathOf(a) == PathOf(b) && a.httpMethod == b.httpMethod
    requires a.httpBody.Some? && b.httpBody.Some?
    requires p.jsonObject(a.httpBody.value) == Some(Obj(map["a" := Num(1), "timestamp" := Str("T1")]))
    requires p.jsonObject(b.httpBody.value) == Some(Obj(map["a" := Num(1), "timestamp" := Str("T2")]))
    ensures MatchSpec(p, a, b, {V.MatchBodyIgnoring(["timestamp"])}) == Success(true)
  {
    var criteria := {V.MatchBodyIgnoring(["timestamp"])};
    assert V.MatchBodyIgnoring(["timestamp"]) in criteria;
    assert V.BodyIgnoredKeys(criteria) == {"timestamp"};
    var l := Obj(map["a" := Num(1), "timestamp" := Str("T1")]);
    var r := Obj(map["a" := Num(1), "timestamp" := Str("T2")]);
    assert Strip(l, {"timestamp"}).fields.Keys == {"a"};
    assert Strip(r, {"timestamp"}).fields.Keys == {"a"};
    assert Strip(l, {"timestamp"}) == Strip(r, {"timestamp"});
  }
}
