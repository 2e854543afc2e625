/**
 * How a replay session checks a live request against the request recorded in
 * a fixture: off, or on with a set of criteria. Body criteria and header
 * criteria are independent of each other; an "ignoring" criterion also turns
 * its dimension on.
 */
module RequestValidation {

  datatype Criteria =
    | MatchBody
    | MatchBodyIgnoring(keys: seq<string>)
    | MatchHeaders
    | MatchHeadersIgnoring(keys: seq<string>)

  datatype RequestValidationMode = None | Match(criteria: set<Criteria>)

  predicate IsBodyCriterion(c: Criteria) {
    c.MatchBody? || c.MatchBodyIgnoring?
  }

  predicate IsHeaderCriterion(c: Criteria) {
    c.MatchHeaders? || c.MatchHeadersIgnoring?
  }

  /** The preset `all`: compare both bodies and headers, ignoring nothing. */
  function All(): (s: set<Criteria>)
    ensures MatchesBody(s) && MatchesHeaders(s)
    ensures BodyIgnoredKeys(s) == {} && HeaderIgnoredKeys(s) == {}
  {
    {MatchBody, MatchHeaders}
  }

  /** `matchBody`: some criterion in the set is a body criterion. */
  predicate MatchesBody(s: set<Criteria>) {
    exists c :: c in s && IsBodyCriterion(c)
  }

  /** `matchHeaders`: some criterion in the set is a header criterion. */
  predicate MatchesHeaders(s: set<Criteria>) {
    exists c :: c in s && IsHeaderCriterion(c)
  }

  /** The keys listed in a criterion, as a set. */
  function KeySet(keys: seq<string>): set<string> {
    set k | k in keys
  }

  /** Every key named by some `matchBodyIgnoring` of the set. */
  function BodyIgnoredKeys(s: set<Criteria>): (keys: set<string>)
    ensures forall c, k :: c in s && c.MatchBodyIgnoring? && k in c.keys ==> k in keys
    ensures forall k :: k in keys ==> exists c :: c in s && c.MatchBodyIgnoring? && k in c.keys
  {
    set c, k | c in s && c.MatchBodyIgnoring? && k in c.keys :: k
  }

  /** Every key named by some `matchHeadersIgnoring` of the set. */
  function HeaderIgnoredKeys(s: set<Criteria>): (keys: set<string>)
    ensures forall c, k :: c in s && c.MatchHeadersIgnoring? && k in c.keys ==> k in keys
    ensures forall k :: k in keys ==> exists c :: c in s && c.MatchHeadersIgnoring? && k in c.keys
  {
    set c, k | c in s && c.MatchHeadersIgnoring? && k in c.keys :: k
  }

  /** The empty set turns both dimensions off. */
  lemma EmptyMatchesNothing()
    ensures !MatchesBody({}) && !MatchesHeaders({})
  {
  }

  /** `matchBody` holds exactly when `.matchBody` or some `.matchBodyIgnoring` is in the set,
      and likewise for headers. */
  lemma FlagsCharacterised(s: set<Criteria>)
    ensures MatchesBody(s) <==> MatchBody in s || exists ks :: MatchBodyIgnoring(ks) in s
    ensures MatchesHeaders(s) <==> MatchHeaders in s || exists ks :: MatchHeadersIgnoring(ks) in s
  {
    if MatchesBody(s) {
      var c :| c in s && IsBodyCriterion(c);
      if c.MatchBodyIgnoring? {
        assert MatchBodyIgnoring(c.keys) in s;
      }
    }
    if MatchesHeaders(s) {
      var c :| c in s && IsHeaderCriterion(c);
      if c.MatchHeadersIgnoring? {
        assert MatchHeadersIgnoring(c.keys) in s;
      }
    }
  }

  /** Adding criteria never switches a dimension off. */
  lemma FlagsMonotone(s: set<Criteria>, t: set<Criteria>)
    requires s <= t
    ensures MatchesBody(s) ==> MatchesBody(t)
    ensures MatchesHeaders(s) ==> MatchesHeaders(t)
    ensures BodyIgnoredKeys(s) <= BodyIgnoredKeys(t)
    ensures HeaderIgnoredKeys(s) <= HeaderIgnoredKeys(t)
  {
  }

  /** Body criteria never change the header flag or the ignored header keys, and header
      criteria never change the body flag or the ignored body keys. */
  lemma DimensionsIndependent(s: set<Criteria>, extra: set<Criteria>)
    ensures (forall c :: c in extra ==> IsBodyCriterion(c)) ==>
              MatchesHeaders(s + extra) == MatchesHeaders(s) &&
              HeaderIgnoredKeys(s + extra) == HeaderIgnoredKeys(s)
    ensures (forall c :: c in extra ==> IsHeaderCriterion(c)) ==>
              MatchesBody(s + extra) == MatchesBody(s) &&
              BodyIgnoredKeys(s + extra) == BodyIgnoredKeys(s)
  {
  }

  /** The empty set ignores no key. */
  lemma NothingIgnored()
    ensures BodyIgnoredKeys({}) == {} && HeaderIgnoredKeys({}) == {}
  {
  }

  /** Adding one criterion adds exactly the keys it names to the ignored keys of its dimension. */
  lemma IgnoredKeysInsert(s: set<Criteria>, c: Criteria)
    ensures BodyIgnoredKeys(s + {c}) == BodyIgnoredKeys(s) + (if c.MatchBodyIgnoring? then KeySet(c.keys) else {})
    ensures HeaderIgnoredKeys(s + {c}) == HeaderIgnoredKeys(s) + (if c.MatchHeadersIgnoring? then KeySet(c.keys) else {})
  {
  }
}
