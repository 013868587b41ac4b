// Where the type rendered for a schema says all that the schema does (declarations.ts, the renderType family):
// there a member of the type is valid, so that the type is no wider than it needs to be.

module SchemaExact {
  import opened Basics
  import opened SchemaTypes

  /** The keywords that `Check` spells out, and those that say nothing of a value. */
  predicate IsSpelt(k: string) {
    || k in {"title", "description", "default", "examples", "$defs", "definitions"}
    || k in {"$ref", "const", "enum", "anyOf", "oneOf", "allOf"}
    || k in {"type", "items", "prefixItems", "properties", "required", "additionalProperties"}
  }

  predicate AllSpelt(f: map<string, Json>) { forall k {:trigger IsSpelt(k)} | k in f :: IsSpelt(k) }

  /** Where there is no other keyword, none says anything. */
  ghost predicate SaysNoMore(d: Dialect) {
    forall f: map<string, Json>, v: Json | AllSpelt(f) :: d.other(f, v)
  }

  /** How many of the keywords that come before the type of a schema it has. */
  function Kinds(f: map<string, Json>): nat {
    (if "$ref" in f then 1 else 0) + (if "const" in f then 1 else 0) + (if "enum" in f then 1 else 0) +
    (if "anyOf" in f then 1 else 0) + (if "oneOf" in f then 1 else 0) + (if "allOf" in f then 1 else 0)
  }

  predicate HasNoShape(f: map<string, Json>) {
    && "type" !in f && "items" !in f && "prefixItems" !in f
    && "properties" !in f && "required" !in f && "additionalProperties" !in f
  }

  /** The one keyword of the schema that says something. */
  predicate Alone(f: map<string, Json>) { Kinds(f) == 1 && HasNoShape(f) && AllSpelt(f - {"type"}) }

  predicate OnlyShape(f: map<string, Json>) { Kinds(f) == 0 && AllSpelt(f - {"type"}) }

  /** Every node the renderer will look at has just the keywords it renders, and in ways a type can tell:
      references that are followed, `anyOf`, objects that name what they require and say nothing of other
      properties, and nothing too deep. */
  predicate Tight(d: Dialect, root: Json, schema: Json, depth: nat, seen: set<Path>)
    decreases 2 * Left(depth) + 1, TypeKeyword(schema)
  {
    match schema
    case JObj(f) =>
      if depth > MAX_DEPTH then false
      else if "$ref" in f && f["$ref"].JStr? then
        Alone(f) && Follows(d, f["$ref"].s, root) &&
        (match ResolveRef(f["$ref"].s, root)
         case None => false
         case Some(target) => target.path !in seen && Tight(d, root, target.schema, depth + 1, seen + {target.path}))
      else if "const" in f then Alone(f)
      else if "enum" in f && f["enum"].JArr? then Alone(f)
      else if "anyOf" in f && f["anyOf"].JArr? then
        Alone(f) && TightAll(d, root, f["anyOf"].items, depth, seen)
      else if "allOf" in f && f["allOf"].JArr? then
        Alone(f) && TightAll(d, root, f["allOf"].items, depth, seen)
      else if "type" in f && f["type"].JArr? then
        OnlyShape(f) &&
        forall i | 0 <= i < |f["type"].items| ::
          f["type"].items[i].JStr? && Tight(d, root, JObj(f["type" := f["type"].items[i]]), depth, seen)
      else OnlyShape(f) && TightNode(d, root, f, depth, seen)
    case _ => true
  }

  predicate TightAll(d: Dialect, root: Json, schemas: seq<Json>, depth: nat, seen: set<Path>)
    requires depth <= MAX_DEPTH
    decreases 2 * Left(depth), 0
  {
    forall i | 0 <= i < |schemas| :: Tight(d, root, schemas[i], depth + 1, seen)
  }

  predicate TightNode(d: Dialect, root: Json, f: map<string, Json>, depth: nat, seen: set<Path>)
    requires depth <= MAX_DEPTH
    decreases 2 * Left(depth), 1
  {
    match KnownType(f)
    case Some(t) =>
      if t == "array" then TightArray(d, root, f, depth, seen)
      else if t == "object" then TightObject(d, root, f, depth, seen)
      else t != "integer"
    case None =>
      && "type" !in f
      && if "properties" in f && f["properties"].JObj? then TightObject(d, root, f, depth, seen)
         else if "items" in f || ("prefixItems" in f && f["prefixItems"].JArr?) then TightArray(d, root, f, depth, seen)
         else HasNoShape(f)
  }

  predicate TightArray(d: Dialect, root: Json, f: map<string, Json>, depth: nat, seen: set<Path>)
    requires depth <= MAX_DEPTH
    decreases 2 * Left(depth), 0
  {
    if "prefixItems" in f && f["prefixItems"].JArr? then
      forall i | 0 <= i < |f["prefixItems"].items| :: Tight(d, root, f["prefixItems"].items[i], depth + 1, seen)
    else "items" in f ==> Tight(d, root, f["items"], depth + 1, seen)
  }

  predicate TightObject(d: Dialect, root: Json, f: map<string, Json>, depth: nat, seen: set<Path>)
    requires depth <= MAX_DEPTH
    decreases 2 * Left(depth), 0
  {
    var properties := Properties(f);
    && Required(f) <= properties.Keys
    && if properties != map[] then
         "additionalProperties" !in f && forall k | k in properties :: Tight(d, root, properties[k], depth + 1, seen)
       else
         "additionalProperties" in f ==>
           f["additionalProperties"] != JBool(false) && Tight(d, root, f["additionalProperties"], depth + 1, seen)
  }

  // ---------------------------------------------------------------- unions and intersections, read back

  lemma UnionMeans(v: Json, ts: seq<Type>)
    ensures Member(v, UnionOf(ts)) ==> exists i | 0 <= i < |ts| :: Member(v, ts[i])
  {
    var unique := Dedup(ts);
    if Member(v, UnionOf(ts)) {
      var j :| 0 <= j < |unique| && Member(v, unique[j]);
      assert unique[j] in unique && unique[j] in ts;
    }
  }

  lemma {:induction false} UnknownOrKnown(ts: seq<Type>, i: nat)
    requires i < |ts|
    ensures ts[i].TUnknown? || ts[i] in Known(ts)
  {
    if i > 0 { UnknownOrKnown(ts[1..], i - 1); }
  }

  lemma IntersectionMeans(v: Json, ts: seq<Type>, i: nat)
    requires i < |ts| && Member(v, IntersectionOf(ts))
    ensures Member(v, ts[i])
  {
    UnknownOrKnown(ts, i);
  }

  // ---------------------------------------------------------------- members are valid

  /** Main result on exactness: a member of the type rendered for a tight schema is valid under it, in no more
      steps than there are levels left. */
  lemma {:induction false} MembersAreValid(n: nat, d: Dialect, root: Json, schema: Json, v: Json, depth: nat,
      seen: set<Path>)
    requires SaysNoMore(d) && Tight(d, root, schema, depth, seen) && n > Left(depth)
    requires Member(v, RenderType(root, schema, depth, seen))
    ensures Check(n, d, root, schema, v).Valid?
    decreases n, TypeKeyword(schema), 3
  {
    if schema.JObj? {
      var f := schema.fields;
      if "$ref" in f && f["$ref"].JStr? {
        RefMember(n, d, root, f, v, depth, seen);
      } else if "const" in f || ("enum" in f && f["enum"].JArr?) {
        LiteralMember(n, d, root, f, v, depth, seen);
      } else if "anyOf" in f && f["anyOf"].JArr? {
        AnyOfMember(n, d, root, f, v, depth, seen);
      } else if "allOf" in f && f["allOf"].JArr? {
        AllOfMember(n, d, root, f, v, depth, seen);
      } else if "type" in f && f["type"].JArr? {
        NarrowedMember(n, d, root, f, v, depth, seen);
      } else {
        NodeMember(n, d, root, f, v, depth, seen);
      }
    }
  }

  /** What is left of a check where only one keyword says something. */
  lemma OnlyOne(n: nat, d: Dialect, root: Json, f: map<string, Json>, v: Json)
    requires SaysNoMore(d) && n > 0 && Alone(f)
    requires PassesAssertions(f, v) && CheckRef(n, d, root, f, v).Valid? && CheckVariants(n, d, root, f, v).Valid?
    ensures Check(n, d, root, JObj(f), v).Valid?
  {
    assert CheckArray(n, d, root, f, v).Valid?;
    assert CheckObject(n, d, root, f, v).Valid?;
  }

  lemma {:induction false} RefMember(n: nat, d: Dialect, root: Json, f: map<string, Json>, v: Json, depth: nat,
      seen: set<Path>)
    requires SaysNoMore(d) && Tight(d, root, JObj(f), depth, seen) && n > Left(depth)
    requires "$ref" in f && f["$ref"].JStr? && Member(v, RenderType(root, JObj(f), depth, seen))
    ensures Check(n, d, root, JObj(f), v).Valid?
    decreases n, TypeKeyword(JObj(f)), 2
  {
    var target := ResolveRef(f["$ref"].s, root).value;
    MembersAreValid(n - 1, d, root, target.schema, v, depth + 1, seen + {target.path});
    OnlyOne(n, d, root, f, v);
  }

  lemma LiteralMember(n: nat, d: Dialect, root: Json, f: map<string, Json>, v: Json, depth: nat, seen: set<Path>)
    requires SaysNoMore(d) && n > 0 && depth <= MAX_DEPTH && Alone(f) && !("$ref" in f && f["$ref"].JStr?)
    requires "const" in f || ("enum" in f && f["enum"].JArr?)
    requires Member(v, RenderType(root, JObj(f), depth, seen))
    ensures Check(n, d, root, JObj(f), v).Valid?
  {
    if "const" !in f { LiteralsMean(v, f["enum"].items); }
    NoVariants(n, d, root, f, v);
    OnlyOne(n, d, root, f, v);
  }

  lemma LiteralsMean(v: Json, values: seq<Json>)
    ensures Member(v, UnionOf(Literals(values))) ==> v in values
  {
    UnionMeans(v, Literals(values));
    if Member(v, UnionOf(Literals(values))) {
      var i :| 0 <= i < |values| && Member(v, Literals(values)[i]);
      assert v == values[i];
    }
  }

  lemma NoVariants(n: nat, d: Dialect, root: Json, f: map<string, Json>, v: Json)
    requires n > 0 && "anyOf" !in f && "oneOf" !in f && "allOf" !in f
    ensures CheckVariants(n, d, root, f, v).Valid?
  {
  }

  lemma {:induction false} AnyOfMember(n: nat, d: Dialect, root: Json, f: map<string, Json>, v: Json, depth: nat,
      seen: set<Path>)
    requires SaysNoMore(d) && depth <= MAX_DEPTH && n > Left(depth) && Alone(f)
    requires "anyOf" in f && f["anyOf"].JArr? && TightAll(d, root, f["anyOf"].items, depth, seen)
    requires Member(v, UnionOf(RenderAll(root, f["anyOf"].items, depth, seen)))
    ensures Check(n, d, root, JObj(f), v).Valid?
    decreases n, TypeKeyword(JObj(f)), 2
  {
    var i := MemberOfSome(n - 1, d, root, f["anyOf"].items, v, depth, seen);
    AnyPasses(n, d, root, f, v, i);
    OnlyOne(n, d, root, f, v);
  }

  /** A member of a union is valid under one of the schemas. */
  lemma {:induction false} MemberOfSome(n: nat, d: Dialect, root: Json, schemas: seq<Json>, v: Json, depth: nat,
      seen: set<Path>) returns (i: nat)
    requires SaysNoMore(d) && depth <= MAX_DEPTH && n >= Left(depth) && TightAll(d, root, schemas, depth, seen)
    requires Member(v, UnionOf(RenderAll(root, schemas, depth, seen)))
    ensures i < |schemas| && Check(n, d, root, schemas[i], v).Valid?
    decreases n
  {
    var ts := RenderAll(root, schemas, depth, seen);
    UnionMeans(v, ts);
    i :| 0 <= i < |ts| && Member(v, ts[i]);
    MembersAreValid(n, d, root, schemas[i], v, depth + 1, seen);
  }

  lemma AnyPasses(n: nat, d: Dialect, root: Json, f: map<string, Json>, v: Json, i: nat)
    requires n > 0 && Alone(f) && "anyOf" in f && f["anyOf"].JArr? && i < |f["anyOf"].items|
    requires Check(n - 1, d, root, f["anyOf"].items[i], v).Valid?
    ensures CheckVariants(n, d, root, f, v).Valid?
  {
    assert CheckEach(n, d, root, f["anyOf"].items, v)[i].Valid?;
    assert CheckKeyword(n, d, root, f, "anyOf", v).Valid?;
  }

  lemma {:induction false} AllOfMember(n: nat, d: Dialect, root: Json, f: map<string, Json>, v: Json, depth: nat,
      seen: set<Path>)
    requires SaysNoMore(d) && depth <= MAX_DEPTH && n > Left(depth) && Alone(f)
    requires "allOf" in f && f["allOf"].JArr? && TightAll(d, root, f["allOf"].items, depth, seen)
    requires Member(v, IntersectionOf(RenderAll(root, f["allOf"].items, depth, seen)))
    ensures Check(n, d, root, JObj(f), v).Valid?
    decreases n, TypeKeyword(JObj(f)), 2
  {
    var parts := f["allOf"].items;
    var ts := RenderAll(root, parts, depth, seen);
    forall i | 0 <= i < |parts| ensures CheckEach(n, d, root, parts, v)[i].Valid? {
      IntersectionMeans(v, ts, i);
      MembersAreValid(n - 1, d, root, parts[i], v, depth + 1, seen);
    }
    OnlyOne(n, d, root, f, v);
  }

  /** Valid with one of the types, a value is valid with the list of them. */
  lemma {:induction false} NarrowedMember(n: nat, d: Dialect, root: Json, f: map<string, Json>, v: Json, depth: nat,
      seen: set<Path>)
    requires SaysNoMore(d) && depth <= MAX_DEPTH && n > Left(depth) && OnlyShape(f)
    requires "type" in f && f["type"].JArr?
    requires forall i | 0 <= i < |f["type"].items| ::
      f["type"].items[i].JStr? && Tight(d, root, JObj(f["type" := f["type"].items[i]]), depth, seen)
    requires Member(v, UnionOf(RenderNarrowed(root, f, f["type"].items, depth, seen)))
    ensures Check(n, d, root, JObj(f), v).Valid?
    decreases n, f["type"], 2
  {
    var types := f["type"].items;
    UnionMeans(v, RenderNarrowed(root, f, types, depth, seen));
    var i :| 0 <= i < |types| && Member(v, RenderType(root, JObj(f["type" := types[i]]), depth, seen));
    MembersAreValid(n, d, root, JObj(f["type" := types[i]]), v, depth, seen);
    WideningKeepsValid(n, d, root, f, v, types[i]);
  }

  lemma WideningKeepsValid(n: nat, d: Dialect, root: Json, f: map<string, Json>, v: Json, t: Json)
    requires "type" in f && f["type"].JArr? && t in f["type"].items && t.JStr?
    requires Check(n, d, root, JObj(f["type" := t]), v).Valid?
    ensures Check(n, d, root, JObj(f), v).Valid?
  {
    NarrowingKeepsChecks(n, d, root, f, v, t);
    NarrowingKeepsArray(n, d, root, f, v, t);
    NarrowingKeepsObject(n, d, root, f, v, t);
    assert f["type" := t] - {"type"} == f - {"type"};
    var i :| 0 <= i < |f["type"].items| && f["type"].items[i] == t;
  }

  /** What is left of a check where there are only shapes. */
  lemma OnlyShapes(n: nat, d: Dialect, root: Json, f: map<string, Json>, v: Json)
    requires SaysNoMore(d) && n > 0 && OnlyShape(f) && ("type" in f ==> TypeAllows(f["type"], v))
    requires CheckArray(n, d, root, f, v).Valid? && CheckObject(n, d, root, f, v).Valid?
    ensures Check(n, d, root, JObj(f), v).Valid?
  {
    assert CheckVariants(n, d, root, f, v).Valid?;
  }

  /** A schema of one type, or of none. */
  lemma {:induction false} NodeMember(n: nat, d: Dialect, root: Json, f: map<string, Json>, v: Json, depth: nat,
      seen: set<Path>)
    requires SaysNoMore(d) && depth <= MAX_DEPTH && n > Left(depth) && OnlyShape(f)
    requires !("type" in f && f["type"].JArr?) && TightNode(d, root, f, depth, seen)
    requires Member(v, RenderPlain(root, f, depth, seen))
    ensures Check(n, d, root, JObj(f), v).Valid?
    decreases n, TypeKeyword(JObj(f)), 2
  {
    if RendersArray(f) {
      ArrayMember(n, d, root, f, v, depth, seen);
    } else if RendersObject(f) {
      ObjectMember(n, d, root, f, v, depth, seen);
    }
    OnlyShapes(n, d, root, f, v);
  }

  predicate RendersObject(f: map<string, Json>) {
    KnownType(f) == Some("object") || (KnownType(f).None? && "properties" in f && f["properties"].JObj?)
  }

  predicate RendersArray(f: map<string, Json>) {
    || KnownType(f) == Some("array")
    || (KnownType(f).None? && !("properties" in f && f["properties"].JObj?)
        && ("items" in f || ("prefixItems" in f && f["prefixItems"].JArr?)))
  }

  lemma {:induction false} ArrayMember(n: nat, d: Dialect, root: Json, f: map<string, Json>, v: Json, depth: nat,
      seen: set<Path>)
    requires SaysNoMore(d) && depth <= MAX_DEPTH && n > Left(depth) && TightArray(d, root, f, depth, seen)
    requires Member(v, RenderArray(root, f, depth, seen))
    ensures v.JArr? && CheckArray(n, d, root, f, v).Valid?
    decreases n, TypeKeyword(JObj(f)), 1
  {
    forall i | 0 <= i < |v.items| ensures CheckItem(n, d, root, f, i, v.items[i]).Valid? {
      if "prefixItems" in f && f["prefixItems"].JArr? {
        MembersAreValid(n - 1, d, root, f["prefixItems"].items[i], v.items[i], depth + 1, seen);
      } else if "items" in f {
        MembersAreValid(n - 1, d, root, f["items"], v.items[i], depth + 1, seen);
      }
    }
  }

  /** What a member of an object type has. */
  lemma ObjectHas(root: Json, f: map<string, Json>, v: Json, depth: nat, seen: set<Path>)
    requires depth <= MAX_DEPTH && Properties(f) != map[] && Member(v, RenderObject(root, f, depth, seen))
    ensures v.JObj? && (Required(f) <= Properties(f).Keys ==> Required(f) <= v.fields.Keys)
    ensures forall k | k in Properties(f) && k in v.fields ::
      Member(v.fields[k], RenderType(root, Properties(f)[k], depth + 1, seen))
  {
    var t := RenderObject(root, f, depth, seen);
    assert forall k | k in Required(f) && k in Properties(f) :: k in t.required;
    forall k | k in Properties(f) && k in v.fields
      ensures Member(v.fields[k], RenderType(root, Properties(f)[k], depth + 1, seen)) {
      assert k in t.required || k in t.optional;
    }
  }

  /** And of a record. */
  lemma RecordHas(root: Json, f: map<string, Json>, v: Json, depth: nat, seen: set<Path>)
    requires depth <= MAX_DEPTH && Properties(f) == map[] && Member(v, RenderObject(root, f, depth, seen))
    requires "additionalProperties" in f ==> f["additionalProperties"] != JBool(false)
    ensures v.JObj?
    ensures "additionalProperties" in f ==>
      forall k | k in v.fields :: Member(v.fields[k], RenderType(root, f["additionalProperties"], depth + 1, seen))
  {
  }

  lemma {:induction false} ObjectMember(n: nat, d: Dialect, root: Json, f: map<string, Json>, v: Json, depth: nat,
      seen: set<Path>)
    requires SaysNoMore(d) && depth <= MAX_DEPTH && n > Left(depth) && TightObject(d, root, f, depth, seen)
    requires Member(v, RenderObject(root, f, depth, seen))
    ensures v.JObj? && CheckObject(n, d, root, f, v).Valid?
    decreases n, TypeKeyword(JObj(f)), 1
  {
    if Properties(f) != map[] {
      ObjectHas(root, f, v, depth, seen);
      PropertiesMember(n, d, root, f, v, depth, seen);
    } else {
      RecordHas(root, f, v, depth, seen);
      if "additionalProperties" in f { AdditionalMember(n, d, root, f, v, depth, seen); }
    }
  }

  lemma {:induction false} PropertiesMember(n: nat, d: Dialect, root: Json, f: map<string, Json>, v: Json, depth: nat,
      seen: set<Path>)
    requires SaysNoMore(d) && depth <= MAX_DEPTH && n > Left(depth) && v.JObj? && "additionalProperties" !in f
    requires forall k | k in Properties(f) :: Tight(d, root, Properties(f)[k], depth + 1, seen)
    requires forall k | k in Properties(f) && k in v.fields ::
      Member(v.fields[k], RenderType(root, Properties(f)[k], depth + 1, seen))
    ensures forall k | k in v.fields :: CheckProperty(n, d, root, f, k, v.fields[k]).Valid?
    decreases n, TypeKeyword(JObj(f)), 0
  {
    var properties := Properties(f);
    forall k | k in v.fields && k in properties ensures Check(n - 1, d, root, properties[k], v.fields[k]).Valid? {
      MembersAreValid(n - 1, d, root, properties[k], v.fields[k], depth + 1, seen);
    }
  }

  lemma {:induction false} AdditionalMember(n: nat, d: Dialect, root: Json, f: map<string, Json>, v: Json, depth: nat,
      seen: set<Path>)
    requires SaysNoMore(d) && depth <= MAX_DEPTH && n > Left(depth) && v.JObj? && "additionalProperties" in f
    requires Properties(f) == map[] && Tight(d, root, f["additionalProperties"], depth + 1, seen)
    requires forall k | k in v.fields ::
      Member(v.fields[k], RenderType(root, f["additionalProperties"], depth + 1, seen))
    ensures forall k | k in v.fields :: CheckProperty(n, d, root, f, k, v.fields[k]).Valid?
    decreases n, TypeKeyword(JObj(f)), 0
  {
    forall k | k in v.fields ensures CheckProperty(n, d, root, f, k, v.fields[k]).Valid? {
      MembersAreValid(n - 1, d, root, f["additionalProperties"], v.fields[k], depth + 1, seen);
    }
  }

  // ---------------------------------------------------------------- where the type is the schema, and where looser

  /** Where a schema is tight and in the fragment that is covered, its type is the schema. */
  lemma RenderedExactly(n: nat, d: Dialect, root: Json, schema: Json, v: Json, depth: nat, seen: set<Path>)
    requires SaysNoMore(d) && Tight(d, root, schema, depth, seen) && Plain(d, root, schema, depth, seen)
    requires n > Left(depth)
    ensures Member(v, RenderType(root, schema, depth, seen)) <==> Check(n, d, root, schema, v).Valid?
  {
    if Member(v, RenderType(root, schema, depth, seen)) {
      MembersAreValid(n, d, root, schema, v, depth, seen);
    }
    if Check(n, d, root, schema, v).Valid? {
      Covers(n, d, root, schema, v, depth, seen);
    }
  }

  /** Integers are rendered as numbers. */
  lemma IntegersAreNumbers(root: Json, f: map<string, Json>, v: Json, depth: nat, seen: set<Path>)
    requires depth <= MAX_DEPTH && Kinds(f) == 0 && "type" in f && f["type"] == JStr("integer")
    ensures Member(v, RenderType(root, JObj(f), depth, seen)) <==> v.JNum?
  {
    assert RenderType(root, JObj(f), depth, seen) == RenderPlain(root, f, depth, seen);
  }

  /** `oneOf` is rendered as `anyOf`: of the schemas, one at least is met. */
  lemma OneOfIsSome(n: nat, d: Dialect, root: Json, f: map<string, Json>, v: Json, depth: nat, seen: set<Path>)
    returns (i: nat)
    requires SaysNoMore(d) && depth <= MAX_DEPTH && n > Left(depth) && Alone(f) && "oneOf" in f && f["oneOf"].JArr?
    requires TightAll(d, root, f["oneOf"].items, depth, seen) && Member(v, RenderType(root, JObj(f), depth, seen))
    ensures i < |f["oneOf"].items| && Check(n - 1, d, root, f["oneOf"].items[i], v).Valid?
  {
    i := MemberOfSome(n - 1, d, root, f["oneOf"].items, v, depth, seen);
  }

  /** An object that names its properties is rendered open, whatever its schema says of others. */
  lemma ClosedIsOpen(root: Json, f: map<string, Json>, additional: Json, depth: nat, seen: set<Path>)
    requires depth <= MAX_DEPTH && Properties(f) != map[]
    ensures RenderObject(root, f["additionalProperties" := additional], depth, seen) ==
      RenderObject(root, f, depth, seen)
  {
    var g := f["additionalProperties" := additional];
    assert Properties(g) == Properties(f) && Required(g) == Required(f);
  }

  const STRING_TYPE := JObj(map["type" := JStr("string")])

  /** A schema that names one text and requires it. */
  predicate RequiresText(f: map<string, Json>, k: string) {
    f.Keys == {"properties", "required"} && Properties(f) == map[k := STRING_TYPE] && Required(f) == {k}
  }

  /** It is rendered as just that. */
  lemma RequiredText(d: Dialect, f: map<string, Json>, k: string, v: Json)
    requires RequiresText(f, k)
    ensures Tight(d, JObj(f), JObj(f), 0, {})
    ensures Member(v, RenderType(JObj(f), JObj(f), 0, {})) <==> v.JObj? && k in v.fields && v.fields[k].JStr?
  {
    RequiredTextIsTight(d, f, k);
    ObjectIsRendered(f, k);
    RequiredTextMember(JObj(f), f, k, v);
  }

  lemma RequiredTextMember(root: Json, f: map<string, Json>, k: string, v: Json)
    requires RequiresText(f, k)
    ensures Member(v, RenderObject(root, f, 0, {})) <==> v.JObj? && k in v.fields && v.fields[k].JStr?
  {
    RequiredTextType(root, f, k);
  }

  lemma RequiredTextType(root: Json, f: map<string, Json>, k: string)
    requires RequiresText(f, k)
    ensures RenderObject(root, f, 0, {}) == TObject(map[k := TString], map[])
  {
    TextIsRendered(root);
    assert k in Properties(f) && Properties(f)[k] == STRING_TYPE;
    var t := RenderObject(root, f, 0, {});
    assert t.required.Keys == {k} && t.required[k] == TString;
    assert t.optional.Keys == {};
  }

  lemma ObjectIsRendered(f: map<string, Json>, k: string)
    requires RequiresText(f, k)
    ensures RenderType(JObj(f), JObj(f), 0, {}) == RenderObject(JObj(f), f, 0, {})
  {
    assert k in Properties(f);
    assert RenderType(JObj(f), JObj(f), 0, {}) == RenderPlain(JObj(f), f, 0, {});
  }

  lemma RequiredTextIsTight(d: Dialect, f: map<string, Json>, k: string)
    requires RequiresText(f, k)
    ensures Tight(d, JObj(f), JObj(f), 0, {})
  {
    assert k in Properties(f);
    forall x | x in f - {"type"} ensures IsSpelt(x) { assert x in {"properties", "required"}; }
    assert Tight(d, JObj(f), STRING_TYPE, 1, {});
  }

  lemma TextIsRendered(root: Json)
    ensures RenderType(root, STRING_TYPE, 1, {}) == TString
  {
    assert RenderType(root, STRING_TYPE, 1, {}) == RenderPlain(root, STRING_TYPE.fields, 1, {});
  }
}
