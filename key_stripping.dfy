/**
 * Removing ignored keys from a parsed JSON body before two bodies are compared
 * (`removeAllValues` and its NSMutableDictionary / NSMutableArray extensions).
 * The source deletes the keys in place from freshly parsed, unshared
 * containers; here each removal produces the stripped tree as a new value.
 */
module KeyStripping {
  import opened Foundation
  import opened RequestValidation

  /** The tree with every dictionary entry whose key is in `keys` removed, at every
      depth, including dictionaries nested in arrays. Arrays keep all their elements. */
  function Strip(j: JSON, keys: set<string>): (r: JSON)
    ensures r.Arr? == j.Arr? && r.Obj? == j.Obj?
    ensures j.Arr? ==> |r.items| == |j.items|
    ensures j.Obj? ==> r.fields.Keys == j.fields.Keys - keys
    ensures !IsContainer(j) ==> r == j
    decreases j
  {
    match j
    case Arr(items) => Arr(seq(|items|, i requires 0 <= i < |items| => Strip(items[i], keys)))
    case Obj(fields) => Obj(map k | k in fields && k !in keys :: Strip(fields[k], keys))
    case _ => j
  }

  /** No dictionary anywhere in the tree has a key in `keys`. */
  predicate NoKeys(j: JSON, keys: set<string>)
    decreases j
  {
    match j
    case Arr(items) => forall i :: 0 <= i < |items| ==> NoKeys(items[i], keys)
    case Obj(fields) => forall k :: k in fields ==> k !in keys && NoKeys(fields[k], keys)
    case _ => true
  }

  /** Stripping nothing leaves the tree as it is. */
  lemma {:induction false} StripNothing(j: JSON)
    ensures Strip(j, {}) == j
    decreases j
  {
    match j
    case Arr(items) =>
      forall i | 0 <= i < |items| ensures Strip(items[i], {}) == items[i] {
        StripNothing(items[i]);
      }
      assert Strip(j, {}).items == items;
    case Obj(fields) =>
      forall k | k in fields ensures Strip(fields[k], {}) == fields[k] {
        StripNothing(fields[k]);
      }
      assert Strip(j, {}).fields == fields;
    case _ =>
  }

  /** Stripping one key set and then another is stripping their union: the order in
      which the ignored keys are removed does not matter. */
  lemma {:induction false} StripCompose(j: JSON, a: set<string>, b: set<string>)
    ensures Strip(Strip(j, a), b) == Strip(j, a + b)
    decreases j
  {
    match j
    case Arr(items) =>
      forall i | 0 <= i < |items| ensures Strip(Strip(items[i], a), b) == Strip(items[i], a + b) {
        StripCompose(items[i], a, b);
      }
      assert Strip(Strip(j, a), b).items == Strip(j, a + b).items;
    case Obj(fields) =>
      forall k | k in fields && k !in a + b
        ensures Strip(Strip(fields[k], a), b) == Strip(fields[k], a + b)
      {
        StripCompose(fields[k], a, b);
      }
      assert Strip(Strip(j, a), b).fields == Strip(j, a + b).fields;
    case _ =>
  }

  /** Stripping twice is stripping once. */
  lemma StripIdempotent(j: JSON, keys: set<string>)
    ensures Strip(Strip(j, keys), keys) == Strip(j, keys)
  {
    StripCompose(j, keys, keys);
    assert keys + keys == keys;
  }

  /** After stripping, no dictionary at any depth still holds an ignored key. */
  lemma {:induction false} StripRemovesEverywhere(j: JSON, keys: set<string>)
    ensures NoKeys(Strip(j, keys), keys)
    decreases j
  {
    match j
    case Arr(items) =>
      var r := Strip(j, keys);
      forall i | 0 <= i < |r.items| ensures NoKeys(r.items[i], keys) {
        StripRemovesEverywhere(items[i], keys);
      }
    case Obj(fields) =>
      var r := Strip(j, keys);
      forall k | k in r.fields ensures k !in keys && NoKeys(r.fields[k], keys) {
        StripRemovesEverywhere(fields[k], keys);
      }
    case _ =>
  }

  /** A tree that holds no ignored key is left unchanged. */
  lemma {:induction false} StripWithoutKeys(j: JSON, keys: set<string>)
    requires NoKeys(j, keys)
    ensures Strip(j, keys) == j
    decreases j
  {
    match j
    case Arr(items) =>
      forall i | 0 <= i < |items| ensures Strip(items[i], keys) == items[i] {
        StripWithoutKeys(items[i], keys);
      }
      assert Strip(j, keys).items == items;
    case Obj(fields) =>
      forall k | k in fields ensures Strip(fields[k], keys) == fields[k] {
        StripWithoutKeys(fields[k], keys);
      }
      assert Strip(j, keys).fields == fields;
    case _ =>
  }

  /** Ignoring `x` in {"a":{"b":{"x":1}},"x":2} leaves {"a":{"b":{}}}. */
  lemma StripNestedExample()
    ensures Strip(Obj(map["a" := Obj(map["b" := Obj(map["x" := Num(1)])]), "x" := Num(2)]), {"x"})
         == Obj(map["a" := Obj(map["b" := Obj(map[])])])
  {
    var inner := Obj(map["x" := Num(1)]);
    var mid := Obj(map["b" := inner]);
    var j := Obj(map["a" := mid, "x" := Num(2)]);
    assert Strip(inner, {"x"}).fields.Keys == {};
    assert Strip(inner, {"x"}) == Obj(map[]);
    assert Strip(mid, {"x"}).fields.Keys == {"b"};
    assert Strip(mid, {"x"}) == Obj(map["b" := Obj(map[])]);
    assert Strip(j, {"x"}).fields.Keys == {"a"};
  }

  /** `NSMutableDictionary.removeAllValues(for:)` and `NSMutableArray.removeAllValues(for:)`:
      a dictionary drops `key`, then every element of a dictionary or an array has the
      key removed from it in turn; anything else is left alone. */
  method RemoveAllValuesForKey(j: JSON, key: string) returns (r: JSON)
    ensures r == Strip(j, {key})
    decreases j
  {
    match j {
      case Obj(fields) =>
        var rest := fields - {key};
        var out: map<string, JSON> := map[];
        var todo := rest.Keys;
        while todo != {}
          invariant todo <= rest.Keys
          invariant out.Keys == rest.Keys - todo
          invariant forall k :: k in out ==> out[k] == Strip(rest[k], {key})
          decreases todo
        {
          var k :| k in todo;
          assert rest[k] == fields[k];
          var v := RemoveAllValuesForKey(rest[k], key);
          out := out[k := v];
          todo := todo - {k};
        }
        r := Obj(out);
        assert out == Strip(j, {key}).fields;
      case Arr(items) =>
        var out: seq<JSON> := [];
        for i := 0 to |items|
          invariant |out| == i
          invariant forall n :: 0 <= n < i ==> out[n] == Strip(items[n], {key})
        {
          var v := RemoveAllValuesForKey(items[i], key);
          out := out + [v];
        }
        r := Arr(out);
        assert out == Strip(j, {key}).items;
      case _ =>
        r := j;
    }
  }

  /** The free function `removeAllValues(from:for:)`: removes each of `keys` in turn. */
  method RemoveAllValues(j: JSON, keys: seq<string>) returns (r: JSON)
    ensures r == Strip(j, KeySet(keys))
  {
    StripNothing(j);
    assert KeySet(keys[..0]) == {};
    r := j;
    for i := 0 to |keys|
      invariant r == Strip(j, KeySet(keys[..i]))
    {
      r := RemoveAllValuesForKey(r, keys[i]);
      StripCompose(j, KeySet(keys[..i]), {keys[i]});
      assert keys[..i + 1] == keys[..i] + [keys[i]];
      assert KeySet(keys[..i + 1]) == KeySet(keys[..i]) + {keys[i]};
    }
    assert keys[..|keys|] == keys;
  }
}
