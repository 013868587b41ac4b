// Where the type rendered for a schema shuts valid values out (declarations.ts, the renderType family): each
// way out of the fragment that is rendered faithfully, with its exact condition.

module SchemaGaps {
  import opened Basics
  import opened SchemaTypes

  // ---------------------------------------------------------------- no type stated

  /** No keyword the renderer looks at before the shape of the schema. */
  predicate Typeless(f: map<string, Json>) {
    && !("$ref" in f && f["$ref"].JStr?) && "const" !in f && !("enum" in f && f["enum"].JArr?)
    && Alternatives(f).None? && !("allOf" in f && f["allOf"].JArr?)
    && !("type" in f && (f["type"].JStr? || f["type"].JArr?))
  }

  /** A schema that states no type accepts `null`, unless some keyword outside this model objects. */
  lemma TypelessAcceptsNull(n: nat, d: Dialect, root: Json, f: map<string, Json>)
    requires Typeless(f) && n > 0
    ensures Check(n, d, root, JObj(f), JNull) == Test(d.other(f - {"type"}, JNull))
  {
    assert CheckVariants(n, d, root, f, JNull).Valid?;
  }

  ghost predicate AdmitsAll(t: Type) { forall v :: Member(v, t) }

  /** The type rendered for such a schema admits every value exactly when the schema has none of
      `properties`, `items` and `prefixItems` either; with one of them it shuts out `null`. */
  lemma TypelessExactly(root: Json, f: map<string, Json>, depth: nat, seen: set<Path>)
    requires Typeless(f) && depth <= MAX_DEPTH
    ensures AdmitsAll(RenderType(root, JObj(f), depth, seen)) <==> !HasShape(f)
    ensures HasShape(f) ==> !Member(JNull, RenderType(root, JObj(f), depth, seen))
  {
    var t := RenderType(root, JObj(f), depth, seen);
    assert t == RenderPlain(root, f, depth, seen);
    if HasShape(f) {
      if "properties" in f && f["properties"].JObj? {
        assert t == RenderObject(root, f, depth, seen);
      } else {
        assert t == RenderArray(root, f, depth, seen);
      }
      assert !Member(JNull, t);
    } else {
      assert t == TUnknown;
    }
  }

  // ---------------------------------------------------------------- tuples

  /** What `prefixItems` render as admits a valid array exactly when it is as long as the prefix: the
      keyword bounds the length of an array neither way. */
  lemma PrefixItemsExactly(n: nat, d: Dialect, root: Json, f: map<string, Json>, v: Json, depth: nat, seen: set<Path>)
    requires depth <= MAX_DEPTH && n > 0 && "prefixItems" in f && f["prefixItems"].JArr?
    requires forall i | 0 <= i < |f["prefixItems"].items| ::
      Plain(d, root, f["prefixItems"].items[i], depth + 1, seen)
    requires v.JArr? && CheckArray(n, d, root, f, v).Valid?
    ensures Member(v, RenderArray(root, f, depth, seen)) <==> |v.items| == |f["prefixItems"].items|
  {
    var items := f["prefixItems"].items;
    if |v.items| == |items| {
      forall i | 0 <= i < |items| ensures Member(v.items[i], RenderType(root, items[i], depth + 1, seen)) {
        assert CheckItem(n, d, root, f, i, v.items[i]).Valid?;
        Covers(n - 1, d, root, items[i], v.items[i], depth + 1, seen);
      }
    }
  }

  /** So nothing is shut out where `items` allows no more and a value has them all. */
  lemma ClosedTupleCovers(n: nat, d: Dialect, root: Json, f: map<string, Json>, v: Json, depth: nat, seen: set<Path>)
    requires depth <= MAX_DEPTH && n > 1 && "prefixItems" in f && f["prefixItems"].JArr?
    requires forall i | 0 <= i < |f["prefixItems"].items| ::
      Plain(d, root, f["prefixItems"].items[i], depth + 1, seen)
    requires "items" in f && f["items"] == JBool(false)
    requires v.JArr? && CheckArray(n, d, root, f, v).Valid? && |v.items| >= |f["prefixItems"].items|
    ensures Member(v, RenderArray(root, f, depth, seen))
  {
    var k := |f["prefixItems"].items|;
    assert k < |v.items| ==> CheckItem(n, d, root, f, k, v.items[k]).Invalid?;
    PrefixItemsExactly(n, d, root, f, v, depth, seen);
  }

  /** Shorter and longer than the prefix: a schema of each kind, and a valid array its type shuts out. */
  lemma PrefixItemsShutOut(d: Dialect, root: Json)
    requires d.other(map["prefixItems" := JArr([JBool(true)])], JArr([]))
    requires d.other(map["prefixItems" := JArr([])], JArr([JNull]))
    ensures var one := JObj(map["type" := JStr("array"), "prefixItems" := JArr([JBool(true)])]);
      Check(1, d, root, one, JArr([])).Valid? && !Member(JArr([]), RenderType(root, one, 0, {}))
    ensures var none := JObj(map["type" := JStr("array"), "prefixItems" := JArr([])]);
      Check(1, d, root, none, JArr([JNull])).Valid? && !Member(JArr([JNull]), RenderType(root, none, 0, {}))
  {
    TupleShutsOut(d, root, [JBool(true)], JArr([]));
    TupleShutsOut(d, root, [], JArr([JNull]));
  }

  lemma TupleShutsOut(d: Dialect, root: Json, items: seq<Json>, v: Json)
    requires d.other(map["prefixItems" := JArr(items)], v) && v.JArr? && |v.items| != |items|
    requires |v.items| == 0 || |items| == 0
    ensures var schema := JObj(map["type" := JStr("array"), "prefixItems" := JArr(items)]);
      Check(1, d, root, schema, v).Valid? && !Member(v, RenderType(root, schema, 0, {}))
  {
    var f := map["type" := JStr("array"), "prefixItems" := JArr(items)];
    assert f - {"type"} == map["prefixItems" := JArr(items)];
    assert CheckArray(1, d, root, f, v).Valid?;
    NoOtherKeyword(d, root, f, v);
    TupleIsRendered(root, f);
  }

  lemma TupleIsRendered(root: Json, f: map<string, Json>)
    requires f.Keys == {"type", "prefixItems"} && f["type"] == JStr("array") && f["prefixItems"].JArr?
    ensures var t := RenderType(root, JObj(f), 0, {}); t.TTuple? && |t.items| == |f["prefixItems"].items|
  {
    assert RenderType(root, JObj(f), 0, {}) == RenderPlain(root, f, 0, {}) == RenderArray(root, f, 0, {});
  }

  // ---------------------------------------------------------------- records

  /** A property that `patternProperties` takes from `additionalProperties`. */
  predicate Claimed(d: Dialect, f: map<string, Json>, k: string) {
    "patternProperties" in f && d.matchesPattern(f["patternProperties"], k)
  }

  /** A schema rendered as a record admits a valid object exactly when every property a pattern claims has a
      value that the type of the additional ones admits. */
  lemma RecordExactly(n: nat, d: Dialect, root: Json, f: map<string, Json>, v: Json, depth: nat, seen: set<Path>)
    requires depth <= MAX_DEPTH && n > 0 && Properties(f) == map[]
    requires "additionalProperties" in f && f["additionalProperties"].JObj?
    requires Plain(d, root, f["additionalProperties"], depth + 1, seen)
    requires v.JObj? && CheckObject(n, d, root, f, v).Valid?
    ensures Member(v, RenderObject(root, f, depth, seen)) <==>
      forall k | k in v.fields && Claimed(d, f, k) ::
        Member(v.fields[k], RenderType(root, f["additionalProperties"], depth + 1, seen))
  {
    var t := RenderType(root, f["additionalProperties"], depth + 1, seen);
    RecordType(root, f, depth, seen);
    forall k | k in v.fields && !Claimed(d, f, k) ensures Member(v.fields[k], t) {
      AdditionalIsAdmitted(n, d, root, f, v, k, depth, seen);
    }
    RecordMembers(v, t, set k | k in v.fields && Claimed(d, f, k));
  }

  lemma AdditionalIsAdmitted(n: nat, d: Dialect, root: Json, f: map<string, Json>, v: Json, k: string, depth: nat,
      seen: set<Path>)
    requires n > 0 && Properties(f) == map[] && "additionalProperties" in f
    requires Plain(d, root, f["additionalProperties"], depth + 1, seen)
    requires v.JObj? && CheckObject(n, d, root, f, v).Valid? && k in v.fields && !Claimed(d, f, k)
    ensures Member(v.fields[k], RenderType(root, f["additionalProperties"], depth + 1, seen))
  {
    assert CheckProperty(n, d, root, f, k, v.fields[k]).Valid?;
    Covers(n - 1, d, root, f["additionalProperties"], v.fields[k], depth + 1, seen);
  }

  lemma RecordMembers(v: Json, t: Type, claimed: set<string>)
    requires v.JObj? && forall k | k in v.fields && k !in claimed :: Member(v.fields[k], t)
    ensures Member(v, TRecord(t)) <==> forall k | k in v.fields && k in claimed :: Member(v.fields[k], t)
  {
  }

  const NUMBER_TYPE := JObj(map["type" := JStr("number")])

  /** Numbers, but for what these patterns claim. */
  function Patterned(patterns: Json): map<string, Json> {
    map["patternProperties" := patterns, "additionalProperties" := NUMBER_TYPE]
  }

  /** A pattern lets a text through where additional properties are numbers, and the record does not. */
  lemma PatternShutsOut(d: Dialect, root: Json, patterns: Json, k: string, text: string)
    requires d.matchesPattern(patterns, k) && d.other(Patterned(patterns), JObj(map[k := JStr(text)]))
    ensures var schema, v := JObj(Patterned(patterns)["type" := JStr("object")]), JObj(map[k := JStr(text)]);
      Check(1, d, root, schema, v).Valid? && !Member(v, RenderType(root, schema, 0, {}))
  {
    PatternPasses(d, root, patterns, k, JStr(text));
    NumberIsRendered(root);
    RecordIsRendered(root, Patterned(patterns)["type" := JStr("object")]);
    NoNumbers(k, text);
  }

  lemma NoNumbers(k: string, text: string)
    ensures !Member(JObj(map[k := JStr(text)]), TRecord(TNumber))
  {
    assert JObj(map[k := JStr(text)]).fields[k] == JStr(text);
  }

  lemma PatternPasses(d: Dialect, root: Json, patterns: Json, k: string, x: Json)
    requires d.matchesPattern(patterns, k) && d.other(Patterned(patterns), JObj(map[k := x]))
    ensures Check(1, d, root, JObj(Patterned(patterns)["type" := JStr("object")]), JObj(map[k := x])).Valid?
  {
    var f := Patterned(patterns)["type" := JStr("object")];
    assert f - {"type"} == Patterned(patterns);
    ClaimedPasses(d, root, f, k, x);
    NoOtherKeyword(d, root, f, JObj(map[k := x]));
  }

  lemma ClaimedPasses(d: Dialect, root: Json, f: map<string, Json>, k: string, x: Json)
    requires Claimed(d, f, k) && Properties(f) == map[] && Required(f) == {}
    ensures CheckObject(1, d, root, f, JObj(map[k := x])).Valid?
  {
  }

  lemma NumberIsRendered(root: Json)
    ensures RenderType(root, NUMBER_TYPE, 1, {}) == TNumber
  {
    assert RenderType(root, NUMBER_TYPE, 1, {}) == RenderPlain(root, NUMBER_TYPE.fields, 1, {});
  }

  lemma RecordIsRendered(root: Json, f: map<string, Json>)
    requires f.Keys == {"type", "patternProperties", "additionalProperties"} && f["type"] == JStr("object")
    requires f["additionalProperties"].JObj?
    ensures RenderType(root, JObj(f), 0, {}) == TRecord(RenderType(root, f["additionalProperties"], 1, {}))
  {
    RecordType(root, f, 0, {});
    assert RenderType(root, JObj(f), 0, {}) == RenderPlain(root, f, 0, {});
  }

  lemma RecordType(root: Json, f: map<string, Json>, depth: nat, seen: set<Path>)
    requires depth <= MAX_DEPTH && Properties(f) == map[]
    requires "additionalProperties" in f && f["additionalProperties"].JObj?
    ensures RenderObject(root, f, depth, seen) ==
      TRecord(RenderType(root, f["additionalProperties"], depth + 1, seen))
  {
  }

  /** A schema with a type and no keyword that refers or combines, at one step. */
  lemma NoOtherKeyword(d: Dialect, root: Json, f: map<string, Json>, v: Json)
    requires Typeless(f - {"type"}) && "type" in f && TypeAllows(f["type"], v) && d.other(f - {"type"}, v)
    requires CheckArray(1, d, root, f, v).Valid? && CheckObject(1, d, root, f, v).Valid?
    ensures Check(1, d, root, JObj(f), v).Valid?
  {
    assert CheckVariants(1, d, root, f, v).Valid?;
  }

  // ---------------------------------------------------------------- references

  /** Two paths that part at some key. */
  predicate Parts(a: Path, b: Path) {
    a != [] && b != [] && (a[0] != b[0] || Parts(a[1..], b[1..]))
  }

  /** A document that has `x` at one path and `y` at the other. */
  function Fork(a: Path, b: Path, x: Json, y: Json): Json
    requires Parts(a, b)
  {
    if a[0] == b[0] then JObj(map[a[0] := Fork(a[1..], b[1..], x, y)])
    else JObj(map[a[0] := Nested(a[1..], x), b[0] := Nested(b[1..], y)])
  }

  lemma {:induction false} WalkFork(a: Path, b: Path, x: Json, y: Json)
    requires Parts(a, b) && x.JObj?
    ensures Walk(Fork(a, b, x, y), a) == Some(x)
  {
    if a[0] == b[0] { WalkFork(a[1..], b[1..], x, y); } else { WalkNested(a[1..], x); }
  }

  lemma {:induction false} EvaluateNested(tokens: seq<string>, y: Json)
    ensures Evaluate(Nested(DecodeAll(tokens), y), tokens) == Some(y)
    decreases |tokens|
  {
    if tokens != [] {
      assert DecodeAll(tokens)[1..] == DecodeAll(tokens[1..]);
      EvaluateNested(tokens[1..], y);
    }
  }

  lemma {:induction false} EvaluateFork(a: Path, tokens: seq<string>, x: Json, y: Json)
    requires Parts(a, DecodeAll(tokens))
    ensures Evaluate(Fork(a, DecodeAll(tokens), x, y), tokens) == Some(y)
    decreases |tokens|
  {
    assert DecodeAll(tokens)[1..] == DecodeAll(tokens[1..]);
    if a[0] == DecodeToken(tokens[0]) {
      EvaluateFork(a[1..], tokens[1..], x, y);
    } else {
      EvaluateNested(tokens[1..], y);
    }
  }

  const NULL_TYPE := JObj(map["type" := JStr("null")])

  /** Where the keys a reference is followed by part from those it denotes, a valid value can be shut out:
      here `true`, where the one place says `null` and the other accepts anything. */
  lemma WrongKeysShutOut(d: Dialect, ref: string, keys: Path)
    requires |ref| >= 2 && ref[..2] == "#/" && DenotedPath(d.decode(ref[1..])) == Some(keys)
    requires Parts(RenderedPath(ref), keys) && d.other(map["$ref" := JStr(ref)], JBool(true))
    ensures var root := Fork(RenderedPath(ref), keys, NULL_TYPE, JBool(true));
      var schema := JObj(map["$ref" := JStr(ref)]);
      && Check(3, d, root, schema, JBool(true)).Valid?
      && !Member(JBool(true), RenderType(root, schema, 0, {}))
      && !Follows(d, ref, root)
  {
    var path, tokens := RenderedPath(ref), Split(d.decode(ref[1..])[1..], '/');
    var root, f := Fork(path, keys, NULL_TYPE, JBool(true)), map["$ref" := JStr(ref)];
    assert ref[0] == ref[..2][0];
    WalkFork(path, keys, NULL_TYPE, JBool(true));
    EvaluateFork(path, tokens, NULL_TYPE, JBool(true));
    AnythingBehindRef(d, root, f, JBool(true));
    RefToNull(root, f, path);
  }

  lemma RefToNull(root: Json, f: map<string, Json>, path: Path)
    requires "$ref" in f && f["$ref"].JStr? && ResolveRef(f["$ref"].s, root) == Some(Target(path, NULL_TYPE))
    ensures RenderType(root, JObj(f), 0, {}) == TNull
  {
    NullIsRendered(root, {path});
    assert RenderType(root, JObj(f), 0, {}) == RenderType(root, NULL_TYPE, 1, {path});
  }

  /** An empty key is dropped: `#/a//b` is followed to `b` in `a`. */
  lemma EmptyKeyShutsOut(d: Dialect)
    requires Decodes(d) && d.other(map["$ref" := JStr("#/a//b")], JBool(true))
    ensures var root := JObj(map["a" := JObj(map["b" := NULL_TYPE, "" := JObj(map["b" := JBool(true)])])]);
      var schema := JObj(map["$ref" := JStr("#/a//b")]);
      && Check(3, d, root, schema, JBool(true)).Valid?
      && !Member(JBool(true), RenderType(root, schema, 0, {}))
  {
    var ref, a, b := "#/a//b", ["a", "b"], ["a", "", "b"];
    EmptyKeyPaths();
    assert d.decode(ref[1..]) == ref[1..] == "/a//b";
    assert ref[1..][1..] == "a//b";
    assert a[1..] == ["b"] && b[1..] == ["", "b"] && a[1..][1..] == [] && b[1..][1..] == ["b"];
    assert ["b"][1..] == [];
    WrongKeysShutOut(d, ref, b);
    assert Fork(a, b, NULL_TYPE, JBool(true)) == JObj(map["a" := Fork(["b"], ["", "b"], NULL_TYPE, JBool(true))]);
    assert Nested(["b"], JBool(true)) == JObj(map["b" := JBool(true)]);
  }

  lemma SplitEmptyKey()
    ensures Split("a//b", '/') == ["a", "", "b"] && Split("/a//b", '/') == ["", "a", "", "b"]
  {
    PlainToken("b");
    PlainToken("");
    assert "/b"[1..] == "b" && Split("/b", '/') == ["", "b"];
    assert "//b"[1..] == "/b" && Split("//b", '/') == ["", "", "b"];
    var rest := ["", "", "b"];
    assert rest[1..] == ["", "b"] && ['a'] + rest[0] == "a" && "a//b"[1..] == "//b";
    assert Split("a//b", '/') == ["a"] + rest[1..];
    assert "/a//b"[1..] == "a//b";
  }

  lemma EmptyKeyPaths()
    ensures RenderedPath("#/a//b") == ["a", "b"] && DenotedPath("/a//b") == Some(["a", "", "b"])
  {
    SplitEmptyKey();
    PlainToken("a");
    PlainToken("b");
    PlainToken("");
    assert "#/a//b"[1..] == "/a//b" && "/a//b"[1..] == "a//b";
    var tokens := ["", "a", "", "b"];
    assert tokens[1..] == ["a", "", "b"] && tokens[1..][1..] == ["", "b"] && tokens[1..][1..][1..] == ["b"];
    assert ["b"][1..] == [] && NonEmpty(["b"]) == ["b"];
    assert NonEmpty(tokens) == ["a", "b"] && ["a", "b"][1..] == ["b"];
    UnescapeIsDecode("a");
    UnescapeIsDecode("b");
    assert UnescapeAll(["b"]) == ["b"] && UnescapeAll(["a", "b"]) == ["a", "b"];
    assert DecodeAll(["b"]) == ["b"] && DecodeAll(["", "b"]) == ["", "b"];
    assert DecodeAll(["a", "", "b"]) == ["a", "", "b"];
  }

  lemma {:induction false} PlainToken(s: string)
    requires '/' !in s && '~' !in s
    ensures Split(s, '/') == [s] && DecodeToken(s) == s
  {
    if s != "" {
      PlainToken(s[1..]);
      assert [s[0]] + s[1..] == s;
    }
  }

  /** The renderer does not percent-decode a fragment. Where `token` decodes to another key, as `%41`
      does to `A`, it follows the key as written, and RFC 6901, section 6, the decoded one. */
  lemma PercentEncodingIsNotDecoded(d: Dialect, token: string, key: string, ours: Json, theirs: Json)
    requires '/' !in token && '~' !in token && '/' !in key && '~' !in key && token != "" && token != key
    requires d.decode(['/'] + token) == ['/'] + key && ours.JObj?
    ensures var root := JObj(map[token := ours, key := theirs]);
      && Resolve(d, ['#', '/'] + token, root) == Some(theirs)
      && ResolveRef(['#', '/'] + token, root) == Some(Target([token], ours))
  {
    var root := JObj(map[token := ours, key := theirs]);
    var ref := ['#', '/'] + token;
    PlainToken(token);
    PlainToken(key);
    assert ref[1..] == ['/'] + token && ref[2..] == token && ref[..2] == "#/";
    assert (['/'] + key)[1..] == key;
    assert Evaluate(root, [key]) == Evaluate(theirs, []);
    PointerTokens(ref);
    UnescapeIsDecode(token);
    assert UnescapeAll([token]) == [token];
    assert Walk(root, [token]) == Walk(ours, []);
  }

  /** And then a value that is valid can be shut out: here `true`, where the key as written says `null` and
      the decoded one accepts anything. */
  lemma PercentEncodingShutsOut(d: Dialect, token: string, key: string)
    requires '/' !in token && '~' !in token && '/' !in key && '~' !in key && token != "" && token != key
    requires d.decode(['/'] + token) == ['/'] + key
    requires d.other(map["$ref" := JStr(['#', '/'] + token)], JBool(true))
    ensures var root := JObj(map[token := JObj(map["type" := JStr("null")]), key := JBool(true)]);
      var schema := JObj(map["$ref" := JStr(['#', '/'] + token)]);
      && Check(3, d, root, schema, JBool(true)).Valid?
      && !Member(JBool(true), RenderType(root, schema, 0, {}))
      && !Follows(d, ['#', '/'] + token, root)
  {
    var ours, ref := JObj(map["type" := JStr("null")]), ['#', '/'] + token;
    var root := JObj(map[token := ours, key := JBool(true)]);
    var f := map["$ref" := JStr(ref)];
    PercentEncodingIsNotDecoded(d, token, key, ours, JBool(true));
    AnythingBehindRef(d, root, f, JBool(true));
    RefToNull(root, f, [token]);
  }

  lemma AnythingBehindRef(d: Dialect, root: Json, f: map<string, Json>, v: Json)
    requires f.Keys == {"$ref"} && f["$ref"].JStr? && Resolve(d, f["$ref"].s, root) == Some(JBool(true))
    requires d.other(f, v) && v.JBool?
    ensures Check(3, d, root, JObj(f), v).Valid?
  {
    assert f - {"type"} == f;
    assert CheckVariants(3, d, root, f, v).Valid?;
  }

  lemma NullIsRendered(root: Json, seen: set<Path>)
    ensures RenderType(root, JObj(map["type" := JStr("null")]), 1, seen) == TNull
  {
    var f := map["type" := JStr("null")];
    assert RenderType(root, JObj(f), 1, seen) == RenderPlain(root, f, 1, seen);
  }
}
