// Tool schemas rendered as types (declarations.ts, the renderType family): the type a program is
// shown for a tool must admit every value the schema does.
//
// The meaning of schemas is that of JSON Schema Core 2020-12, sections 8.2.3.1, 10.2.1, 10.3.1 and
// 10.3.2, and JSON Schema Validation 2020-12, section 6.1; of JSON pointers, RFC 6901.

module SchemaTypes {
  import opened Basics

  /** A type, as the renderer builds it before any text is laid out. */
  datatype Type =
    | TUnknown
    | TNever
    | TString
    | TNumber
    | TBoolean
    | TNull
    | TLiteral(value: Json)
    | TUnion(members: seq<Type>)
    | TIntersection(parts: seq<Type>)
    | TArray(item: Type)
    | TTuple(items: seq<Type>)
    | TRecord(property: Type)
    | TObject(required: map<string, Type>, optional: map<string, Type>)
    | TEmptyObject

  /** Which values a type admits; an object type leaves the properties it does not name open. */
  predicate Member(v: Json, t: Type) {
    match t
    case TUnknown => true
    case TNever => false
    case TString => v.JStr?
    case TNumber => v.JNum?
    case TBoolean => v.JBool?
    case TNull => v.JNull?
    case TLiteral(value) => v == value
    case TUnion(ms) => exists i | 0 <= i < |ms| :: Member(v, ms[i])
    case TIntersection(ps) => forall i | 0 <= i < |ps| :: Member(v, ps[i])
    case TArray(item) => v.JArr? && forall i | 0 <= i < |v.items| :: Member(v.items[i], item)
    case TTuple(ts) => v.JArr? && |v.items| == |ts| && forall i | 0 <= i < |ts| :: Member(v.items[i], ts[i])
    case TRecord(p) => v.JObj? && forall k | k in v.fields :: Member(v.fields[k], p)
    case TObject(required, optional) =>
      && v.JObj?
      && (forall k | k in required :: k in v.fields && Member(v.fields[k], required[k]))
      && (forall k | k in optional :: k in v.fields ==> Member(v.fields[k], optional[k]))
    case TEmptyObject => !v.JNull?
  }

  // ---------------------------------------------------------------- references

  function Split(s: string, at: char): (r: seq<string>)
    ensures |r| > 0
  {
    if s == "" then [""]
    else
      var rest := Split(s[1..], at);
      if s[0] == at then [""] + rest else [[s[0]] + rest[0]] + rest[1..]
  }

  function NonEmpty(segments: seq<string>): seq<string> {
    if segments == [] then []
    else (if segments[0] == "" then [] else [segments[0]]) + NonEmpty(segments[1..])
  }

  /** `replaceAll` of a two-character pattern. */
  function ReplacePair(s: string, first: char, second: char, sub: char): string {
    if s == "" then ""
    else if |s| >= 2 && s[0] == first && s[1] == second then [sub] + ReplacePair(s[2..], first, second, sub)
    else [s[0]] + ReplacePair(s[1..], first, second, sub)
  }

  function UnescapePointer(segment: string): string {
    ReplacePair(ReplacePair(segment, '~', '1', '/'), '~', '0', '~')
  }

  function UnescapeAll(segments: seq<string>): seq<string> {
    if segments == [] then [] else [UnescapePointer(segments[0])] + UnescapeAll(segments[1..])
  }

  /** Where in the root document an object sits; in parsed JSON this is its identity. */
  type Path = seq<string>

  datatype Target = Target(path: Path, schema: Json)

  function Walk(current: Json, path: Path): Option<Json> {
    if path == [] then if current.JObj? then Some(current) else None
    else if current.JObj? && path[0] in current.fields then Walk(current.fields[path[0]], path[1..])
    else None
  }

  /** The keys by which the renderer follows a reference. */
  function RenderedPath(ref: string): Path
    requires ref != ""
  {
    UnescapeAll(NonEmpty(Split(ref[1..], '/')))
  }

  /** `resolveRef`: follow a local pointer through objects. */
  function ResolveRef(ref: string, root: Json): Option<Target> {
    if ref == "" || ref[0] != '#' then None
    else
      var path := RenderedPath(ref);
      match Walk(root, path)
      case Some(schema) => Some(Target(path, schema))
      case None => None
  }

  // ---------------------------------------------------------------- rendering

  const MAX_DEPTH: nat := 8

  function Left(depth: nat): nat { if depth <= MAX_DEPTH then MAX_DEPTH + 1 - depth else 0 }

  /** The `type` keyword, for the recursion through nested `type` arrays. */
  function TypeKeyword(schema: Json): Json { schema.Get("type").GetOr(JNull) }

  function Dedup(ts: seq<Type>): (r: seq<Type>)
    ensures forall t | t in ts :: t in r
    ensures forall t | t in r :: t in ts
  {
    if ts == [] then []
    else
      var rest := Dedup(ts[..|ts| - 1]);
      if ts[|ts| - 1] in rest then rest else rest + [ts[|ts| - 1]]
  }

  function UnionOf(ts: seq<Type>): Type {
    var unique := Dedup(ts);
    if |unique| == 0 then TNever else if |unique| == 1 then unique[0] else TUnion(unique)
  }

  function Known(ts: seq<Type>): seq<Type> {
    if ts == [] then [] else (if ts[0].TUnknown? then [] else [ts[0]]) + Known(ts[1..])
  }

  function IntersectionOf(ts: seq<Type>): Type {
    var parts := Known(ts);
    if |parts| == 0 then TUnknown else if |parts| == 1 then parts[0] else TIntersection(parts)
  }

  function Literals(values: seq<Json>): (r: seq<Type>)
    ensures |r| == |values| && forall i | 0 <= i < |r| :: r[i] == TLiteral(values[i])
  {
    seq(|values|, i requires 0 <= i < |values| => TLiteral(values[i]))
  }

  /** The `anyOf`, else the `oneOf`, variants of a schema. */
  function Alternatives(f: map<string, Json>): Option<seq<Json>> {
    if "anyOf" in f && f["anyOf"].JArr? then Some(f["anyOf"].items)
    else if "oneOf" in f && f["oneOf"].JArr? then Some(f["oneOf"].items)
    else None
  }

  function Properties(f: map<string, Json>): map<string, Json> {
    if "properties" in f && f["properties"].JObj? then f["properties"].fields else map[]
  }

  function Required(f: map<string, Json>): set<string> {
    if "required" in f && f["required"].JArr? then set s | s in f["required"].items && s.JStr? :: s.s else {}
  }

  /** `renderType`. It terminates on every schema: each step leaves less depth, or, through a
      `type` array, the same depth and a smaller `type`. */
  function RenderType(root: Json, schema: Json, depth: nat, seen: set<Path>): Type
    decreases 2 * Left(depth) + 1, TypeKeyword(schema), 1
  {
    match schema
    case JBool(b) => if b then TUnknown else TNever
    case JObj(f) =>
      if depth > MAX_DEPTH then TUnknown
      else if "$ref" in f && f["$ref"].JStr? then
        match ResolveRef(f["$ref"].s, root)
        case None => TUnknown
        case Some(target) =>
          if target.path in seen then TUnknown else RenderType(root, target.schema, depth + 1, seen + {target.path})
      else if "const" in f then TLiteral(f["const"])
      else if "enum" in f && f["enum"].JArr? then UnionOf(Literals(f["enum"].items))
      else if Alternatives(f).Some? then UnionOf(RenderAll(root, Alternatives(f).value, depth, seen))
      else if "allOf" in f && f["allOf"].JArr? then IntersectionOf(RenderAll(root, f["allOf"].items, depth, seen))
      else if "type" in f && f["type"].JArr? then
        UnionOf(RenderNarrowed(root, f, f["type"].items, depth, seen))
      else RenderPlain(root, f, depth, seen)
    case _ => TUnknown
  }

  /** The subschemas of a schema at `depth`. */
  function RenderAll(root: Json, schemas: seq<Json>, depth: nat, seen: set<Path>): (r: seq<Type>)
    requires depth <= MAX_DEPTH
    ensures |r| == |schemas| && forall i | 0 <= i < |r| :: r[i] == RenderType(root, schemas[i], depth + 1, seen)
    decreases 2 * Left(depth), 0
  {
    seq(|schemas|, i requires 0 <= i < |schemas| => RenderType(root, schemas[i], depth + 1, seen))
  }

  /** A schema with a list of types, narrowed to each in turn. */
  function RenderNarrowed(root: Json, f: map<string, Json>, types: seq<Json>, depth: nat,
      seen: set<Path>): (r: seq<Type>)
    ensures |r| == |types| &&
      forall i | 0 <= i < |r| :: r[i] == RenderType(root, JObj(f["type" := types[i]]), depth, seen)
    decreases 2 * Left(depth) + 1, JArr(types), 0
  {
    seq(|types|, i requires 0 <= i < |types| => RenderType(root, JObj(f["type" := types[i]]), depth, seen))
  }

  /** The switch on a single `type`. */
  function RenderPlain(root: Json, f: map<string, Json>, depth: nat, seen: set<Path>): Type
    requires depth <= MAX_DEPTH
    decreases 2 * Left(depth), 1
  {
    match KnownType(f)
    case Some(t) =>
      if t == "string" then TString
      else if t == "boolean" then TBoolean
      else if t == "null" then TNull
      else if t == "array" then RenderArray(root, f, depth, seen)
      else if t == "object" then RenderObject(root, f, depth, seen)
      else TNumber
    case None =>
      if "properties" in f && f["properties"].JObj? then RenderObject(root, f, depth, seen)
      else if "items" in f || ("prefixItems" in f && f["prefixItems"].JArr?) then RenderArray(root, f, depth, seen)
      else TUnknown
  }

  const TYPE_NAMES := {"string", "number", "integer", "boolean", "null", "array", "object"}

  function KnownType(f: map<string, Json>): Option<string> {
    if "type" in f && f["type"].JStr? && f["type"].s in TYPE_NAMES then Some(f["type"].s) else None
  }

  function RenderArray(root: Json, f: map<string, Json>, depth: nat, seen: set<Path>): Type
    requires depth <= MAX_DEPTH
    decreases 2 * Left(depth), 0
  {
    if "prefixItems" in f && f["prefixItems"].JArr? then
      var items := f["prefixItems"].items;
      TTuple(seq(|items|, i requires 0 <= i < |items| => RenderType(root, items[i], depth + 1, seen)))
    else if "items" in f then TArray(RenderType(root, f["items"], depth + 1, seen))
    else TArray(TUnknown)
  }

  function RenderObject(root: Json, f: map<string, Json>, depth: nat, seen: set<Path>): Type
    requires depth <= MAX_DEPTH
    decreases 2 * Left(depth), 0
  {
    var properties := Properties(f);
    if properties == map[] then
      if "additionalProperties" !in f then TRecord(TUnknown)
      else match f["additionalProperties"]
        case JBool(b) => if b then TRecord(TUnknown) else TEmptyObject
        case JObj(_) => TRecord(RenderType(root, f["additionalProperties"], depth + 1, seen))
        case _ => TRecord(TUnknown)
    else
      TObject(map k | k in properties && k in Required(f) :: RenderType(root, properties[k], depth + 1, seen),
              map k | k in properties && k !in Required(f) :: RenderType(root, properties[k], depth + 1, seen))
  }

  // ---------------------------------------------------------------- what a schema means

  /** RFC 6901's unescaping of a reference token. */
  function DecodeToken(s: string): string {
    if s == "" then ""
    else if |s| >= 2 && s[0] == '~' && s[1] == '1' then ['/'] + DecodeToken(s[2..])
    else if |s| >= 2 && s[0] == '~' && s[1] == '0' then ['~'] + DecodeToken(s[2..])
    else [s[0]] + DecodeToken(s[1..])
  }

  function Digits(s: string): (r: Option<nat>) {
    if s == "" then Some(0)
    else match Digits(s[..|s| - 1])
      case Some(n) => if '0' <= s[|s| - 1] <= '9' then Some(10 * n + (s[|s| - 1] as int - '0' as int)) else None
      case None => None
  }

  function ArrayIndex(token: string): Option<nat> {
    if token == "" || (token[0] == '0' && |token| > 1) then None else Digits(token)
  }

  /** RFC 6901's evaluation, through objects and arrays. */
  function Evaluate(j: Json, tokens: seq<string>): Option<Json>
    decreases |tokens|
  {
    if tokens == [] then Some(j)
    else
      var token := DecodeToken(tokens[0]);
      match j
      case JObj(f) => if token in f then Evaluate(f[token], tokens[1..]) else None
      case JArr(xs) =>
        (match ArrayIndex(token)
         case Some(i) => if i < |xs| then Evaluate(xs[i], tokens[1..]) else None
         case None => None)
      case _ => None
  }

  /** What lies outside the renderer's vocabulary: `decode` is the percent-decoding of a URI
      fragment, `elsewhere` resolves what is no JSON pointer into this document, `matchesPattern` is
      how `patternProperties` claims a name, and `other` stands for every keyword that `Check` does
      not spell out. */
  datatype Dialect = Dialect(
    decode: string -> string,
    elsewhere: string -> Option<Json>,
    matchesPattern: (Json, string) -> bool,
    other: (map<string, Json>, Json) -> bool)

  /** Percent-decoding leaves a fragment without `%` alone. */
  ghost predicate Decodes(d: Dialect) { forall s: string :: '%' !in s ==> d.decode(s) == s }

  function Resolve(d: Dialect, ref: string, root: Json): Option<Json> {
    if ref == "#" then Some(root)
    else if |ref| >= 2 && ref[..2] == "#/" then
      var fragment := d.decode(ref[1..]);
      if fragment != "" && fragment[0] == '/' then Evaluate(root, Split(fragment[1..], '/')) else None
    else d.elsewhere(ref)
  }

  predicate HasType(v: Json, name: string) {
    match v
    case JNull => name == "null"
    case JBool(_) => name == "boolean"
    case JNum(n) => name == "number" || (name == "integer" && n == n.Floor as real)
    case JStr(_) => name == "string"
    case JArr(_) => name == "array"
    case JObj(_) => name == "object"
  }

  /** A validator's verdict; it diverges when a cycle of references never reaches one. */
  datatype Verdict = Valid | Invalid | Diverges

  function And(a: Verdict, b: Verdict): Verdict {
    if a.Valid? && b.Valid? then Valid else if a.Invalid? || b.Invalid? then Invalid else Diverges
  }

  function All(vs: seq<Verdict>): Verdict {
    if forall i | 0 <= i < |vs| :: vs[i].Valid? then Valid
    else if exists i | 0 <= i < |vs| :: vs[i].Invalid? then Invalid
    else Diverges
  }

  function Any(vs: seq<Verdict>): Verdict {
    if exists i | 0 <= i < |vs| :: vs[i].Valid? then Valid
    else if exists i | 0 <= i < |vs| :: vs[i].Diverges? then Diverges
    else Invalid
  }

  function One(vs: seq<Verdict>): Verdict {
    if exists i | 0 <= i < |vs| :: vs[i].Diverges? then Diverges
    else if exists i | 0 <= i < |vs| :: vs[i].Valid? && forall j | 0 <= j < |vs| && j != i :: vs[j].Invalid? then Valid
    else Invalid
  }

  function Test(b: bool): Verdict { if b then Valid else Invalid }

  /** Validate `v` against `schema` in at most `n` nested steps. */
  function Check(n: nat, d: Dialect, root: Json, schema: Json, v: Json): Verdict
    decreases n, 3
  {
    if n == 0 then Diverges
    else match schema
      case JBool(b) => Test(b)
      case JObj(f) =>
        And(And(Test(PassesAssertions(f, v) && d.other(f - {"type"}, v)), CheckRef(n, d, root, f, v)),
            And(CheckVariants(n, d, root, f, v), And(CheckArray(n, d, root, f, v), CheckObject(n, d, root, f, v))))
      case _ => Valid
  }

  /** The keywords that need no subschema. */
  predicate PassesAssertions(f: map<string, Json>, v: Json) {
    && ("const" in f ==> v == f["const"])
    && ("enum" in f && f["enum"].JArr? ==> v in f["enum"].items)
    && ("type" in f ==> TypeAllows(f["type"], v))
  }

  predicate TypeAllows(t: Json, v: Json) {
    match t
    case JStr(name) => HasType(v, name)
    case JArr(names) => exists i | 0 <= i < |names| :: names[i].JStr? && HasType(v, names[i].s)
    case _ => true
  }

  function CheckRef(n: nat, d: Dialect, root: Json, f: map<string, Json>, v: Json): Verdict
    requires n > 0
    decreases n, 0
  {
    if "$ref" in f && f["$ref"].JStr? then
      match Resolve(d, f["$ref"].s, root)
      case Some(target) => Check(n - 1, d, root, target, v)
      case None => Diverges
    else Valid
  }

  function CheckEach(n: nat, d: Dialect, root: Json, schemas: seq<Json>, v: Json): (r: seq<Verdict>)
    requires n > 0
    ensures |r| == |schemas| && forall i | 0 <= i < |r| :: r[i] == Check(n - 1, d, root, schemas[i], v)
    decreases n, 0
  {
    seq(|schemas|, i requires 0 <= i < |schemas| => Check(n - 1, d, root, schemas[i], v))
  }

  function CheckVariants(n: nat, d: Dialect, root: Json, f: map<string, Json>, v: Json): Verdict
    requires n > 0
    decreases n, 2
  {
    And(CheckKeyword(n, d, root, f, "anyOf", v),
        And(CheckKeyword(n, d, root, f, "oneOf", v), CheckKeyword(n, d, root, f, "allOf", v)))
  }

  /** One of the keywords that combine subschemas. */
  function CheckKeyword(n: nat, d: Dialect, root: Json, f: map<string, Json>, key: string, v: Json): Verdict
    requires n > 0
    decreases n, 1
  {
    if !(key in f && f[key].JArr?) then Valid
    else
      var vs := CheckEach(n, d, root, f[key].items, v);
      if key == "anyOf" then Any(vs) else if key == "oneOf" then One(vs) else All(vs)
  }

  function CheckArray(n: nat, d: Dialect, root: Json, f: map<string, Json>, v: Json): Verdict
    requires n > 0
    decreases n, 1
  {
    if !v.JArr? || forall i | 0 <= i < |v.items| :: CheckItem(n, d, root, f, i, v.items[i]).Valid? then Valid
    else if exists i | 0 <= i < |v.items| :: CheckItem(n, d, root, f, i, v.items[i]).Invalid? then Invalid
    else Diverges
  }

  /** One element against its `prefixItems`, or, past those, `items`. */
  function CheckItem(n: nat, d: Dialect, root: Json, f: map<string, Json>, i: nat, v: Json): Verdict
    requires n > 0
    decreases n, 0
  {
    if "prefixItems" in f && f["prefixItems"].JArr? && i < |f["prefixItems"].items| then
      Check(n - 1, d, root, f["prefixItems"].items[i], v)
    else if "items" in f then Check(n - 1, d, root, f["items"], v)
    else Valid
  }

  function CheckObject(n: nat, d: Dialect, root: Json, f: map<string, Json>, v: Json): Verdict
    requires n > 0
    decreases n, 1
  {
    if !v.JObj? then Valid
    else if !(Required(f) <= v.fields.Keys) then Invalid
    else if forall k | k in v.fields :: CheckProperty(n, d, root, f, k, v.fields[k]).Valid? then Valid
    else if exists k | k in v.fields :: CheckProperty(n, d, root, f, k, v.fields[k]).Invalid? then Invalid
    else Diverges
  }

  /** One property against `properties`, or, when it is additional, `additionalProperties`. */
  function CheckProperty(n: nat, d: Dialect, root: Json, f: map<string, Json>, k: string, v: Json): Verdict
    requires n > 0
    decreases n, 0
  {
    var properties := Properties(f);
    if k in properties then Check(n - 1, d, root, properties[k], v)
    else if "patternProperties" in f && d.matchesPattern(f["patternProperties"], k) then Valid
    else if "additionalProperties" in f then Check(n - 1, d, root, f["additionalProperties"], v)
    else Valid
  }

  // ---------------------------------------------------------------- the fragment rendered faithfully

  function DecodeAll(tokens: seq<string>): Path {
    if tokens == [] then [] else [DecodeToken(tokens[0])] + DecodeAll(tokens[1..])
  }

  /** The keys of the place a fragment denotes, if it is a pointer. */
  function DenotedPath(fragment: string): Option<Path> {
    if fragment != "" && fragment[0] == '/' then Some(DecodeAll(Split(fragment[1..], '/'))) else None
  }

  /** A reference that by its text alone leads the renderer to what it denotes, or nowhere: one elsewhere,
      one to the whole document, or a pointer whose keys, percent-decoded first, are those it follows. */
  predicate PlainRef(d: Dialect, ref: string) {
    || ref == "" || ref[0] != '#' || ref == "#"
    || (|ref| >= 2 && ref[1] == '/' && DenotedPath(d.decode(ref[1..])) == Some(RenderedPath(ref)))
  }

  predicate NamesNoEmptyKey(ref: string)
    requires |ref| >= 2
  {
    forall s | s in Split(ref[2..], '/') :: s != ""
  }

  /** A reference that the renderer, if it follows it, follows to what it denotes. */
  predicate Follows(d: Dialect, ref: string, root: Json) {
    match ResolveRef(ref, root)
    case None => true
    case Some(target) => Resolve(d, ref, root) == Some(target.schema)
  }

  /** Every schema node the renderer will look at keeps `properties` and `items` beside an explicit
      `type`, uses no `prefixItems`, no `patternProperties` where it renders a record, and only
      references the renderer follows to what they denote. */
  predicate Plain(d: Dialect, root: Json, schema: Json, depth: nat, seen: set<Path>)
    decreases 2 * Left(depth) + 1, TypeKeyword(schema)
  {
    match schema
    case JObj(f) =>
      if depth > MAX_DEPTH then true
      else if "$ref" in f && f["$ref"].JStr? then
        Follows(d, f["$ref"].s, root) &&
        (match ResolveRef(f["$ref"].s, root)
         case None => true
         case Some(target) => target.path in seen || Plain(d, root, target.schema, depth + 1, seen + {target.path}))
      else if "const" in f || ("enum" in f && f["enum"].JArr?) then true
      else if Alternatives(f).Some? then PlainAll(d, root, Alternatives(f).value, depth, seen)
      else if "allOf" in f && f["allOf"].JArr? then PlainAll(d, root, f["allOf"].items, depth, seen)
      else if "type" in f && f["type"].JArr? then
        forall i | 0 <= i < |f["type"].items| :: Plain(d, root, JObj(f["type" := f["type"].items[i]]), depth, seen)
      else PlainNode(d, root, f, depth, seen)
    case _ => true
  }

  predicate PlainAll(d: Dialect, root: Json, schemas: seq<Json>, depth: nat, seen: set<Path>)
    requires depth <= MAX_DEPTH
    decreases 2 * Left(depth), 0
  {
    forall i | 0 <= i < |schemas| :: Plain(d, root, schemas[i], depth + 1, seen)
  }

  predicate PlainNode(d: Dialect, root: Json, f: map<string, Json>, depth: nat, seen: set<Path>)
    requires depth <= MAX_DEPTH
    decreases 2 * Left(depth), 0
  {
    match KnownType(f)
    case None => ("type" in f && f["type"].JStr?) || !HasShape(f)
    case Some(t) =>
      if t == "array" then
        !("prefixItems" in f && f["prefixItems"].JArr?)
          && ("items" in f ==> Plain(d, root, f["items"], depth + 1, seen))
      else if t == "object" then
        var properties := Properties(f);
        if properties != map[] then forall k | k in properties :: Plain(d, root, properties[k], depth + 1, seen)
        else "additionalProperties" in f && f["additionalProperties"].JObj? ==>
               "patternProperties" !in f && Plain(d, root, f["additionalProperties"], depth + 1, seen)
      else true
  }

  /** Keywords by which the renderer guesses the type of a schema that does not state one. */
  predicate HasShape(f: map<string, Json>) {
    || ("properties" in f && f["properties"].JObj?)
    || "items" in f
    || ("prefixItems" in f && f["prefixItems"].JArr?)
  }

  // ---------------------------------------------------------------- references, read both ways

  lemma {:induction false} UnescapeIsDecode(s: string)
    ensures UnescapePointer(s) == DecodeToken(s)
    decreases |s|
  {
    if |s| >= 2 && s[0] == '~' {
      if s[1] == '1' {
        UnescapeIsDecode(s[2..]);
      } else if s[1] == '0' {
        var once := ReplacePair(s[2..], '~', '1', '/');
        assert s[1..][1..] == s[2..];
        assert ReplacePair(s[1..], '~', '1', '/') == ['0'] + once;
        assert ReplacePair(s, '~', '1', '/') == ['~', '0'] + once;
        assert (['~', '0'] + once)[2..] == once;
        UnescapeIsDecode(s[2..]);
      } else {
        var once := ReplacePair(s[1..], '~', '1', '/');
        assert once[0] != '0';
        assert ReplacePair(s, '~', '1', '/') == ['~'] + once;
        assert (['~'] + once)[1..] == once;
        UnescapeIsDecode(s[1..]);
      }
    } else if s != "" {
      var once := ReplacePair(s[1..], '~', '1', '/');
      assert ReplacePair(s, '~', '1', '/') == [s[0]] + once;
      assert ([s[0]] + once)[1..] == once;
      UnescapeIsDecode(s[1..]);
    }
  }

  lemma {:induction false} UnescapeAllIsDecodeAll(tokens: seq<string>)
    ensures UnescapeAll(tokens) == DecodeAll(tokens) && |DecodeAll(tokens)| == |tokens|
  {
    if tokens != [] {
      UnescapeIsDecode(tokens[0]);
      UnescapeAllIsDecodeAll(tokens[1..]);
    }
  }

  lemma {:induction false} WalkEvaluates(j: Json, tokens: seq<string>)
    ensures Walk(j, DecodeAll(tokens)).Some? ==> Evaluate(j, tokens) == Walk(j, DecodeAll(tokens))
    decreases |tokens|
  {
    if tokens != [] {
      var key := DecodeToken(tokens[0]);
      assert DecodeAll(tokens)[1..] == DecodeAll(tokens[1..]);
      if j.JObj? && key in j.fields { WalkEvaluates(j.fields[key], tokens[1..]); }
    }
  }

  lemma {:induction false} NonEmptyKeepsAll(segments: seq<string>)
    requires forall s | s in segments :: s != ""
    ensures NonEmpty(segments) == segments
  {
    if segments != [] {
      assert segments[0] in segments;
      assert forall s | s in segments[1..] :: s in segments;
      NonEmptyKeepsAll(segments[1..]);
    }
  }

  /** What `resolveRef` finds by a plain reference is what the reference denotes. */
  lemma ResolveRefIsSound(d: Dialect, ref: string, root: Json)
    requires PlainRef(d, ref) && ResolveRef(ref, root).Some?
    ensures Resolve(d, ref, root) == Some(ResolveRef(ref, root).value.schema) && Follows(d, ref, root)
  {
    if ref == "#" {
      assert Split("", '/') == [""];
      assert NonEmpty([""]) == [];
      assert ref[1..] == "";
    } else {
      assert ref[..2] == "#/";
      WalkEvaluates(root, Split(d.decode(ref[1..])[1..], '/'));
    }
  }

  /** Objects nested along a path, around a document. */
  function Nested(path: Path, inner: Json): Json {
    if path == [] then inner else JObj(map[path[0] := Nested(path[1..], inner)])
  }

  lemma {:induction false} WalkNested(path: Path, inner: Json)
    requires inner.JObj?
    ensures Walk(Nested(path, inner), path) == Some(inner)
  {
    if path != [] { WalkNested(path[1..], inner); }
  }

  const NOTHING := JObj(map[])

  /** The one way to the empty object inside is the path itself. */
  lemma {:induction false} OnlyWayIn(path: Path, tokens: seq<string>)
    requires Evaluate(Nested(path, NOTHING), tokens) == Some(NOTHING)
    ensures DecodeAll(tokens) == path
    decreases |tokens|
  {
    if path != [] {
      assert path[0] in Nested(path, NOTHING).fields;
      if tokens != [] { OnlyWayIn(path[1..], tokens[1..]); }
    }
  }

  /** Main result on references: the renderer follows one rightly in every document exactly when it is plain. */
  lemma FollowsExactly(d: Dialect, ref: string)
    ensures (forall root :: Follows(d, ref, root)) <==> PlainRef(d, ref)
  {
    if PlainRef(d, ref) {
      forall root ensures Follows(d, ref, root) {
        if ResolveRef(ref, root).Some? { ResolveRefIsSound(d, ref, root); }
      }
    } else {
      var path := RenderedPath(ref);
      WalkNested(path, NOTHING);
      var root := Nested(path, NOTHING);
      assert ResolveRef(ref, root) == Some(Target(path, NOTHING));
      if |ref| >= 2 && ref[1] == '/' {
        assert ref[..2] == "#/";
        var fragment := d.decode(ref[1..]);
        if fragment != "" && fragment[0] == '/' && Follows(d, ref, root) {
          OnlyWayIn(path, Split(fragment[1..], '/'));
        }
        assert !Follows(d, ref, root);
      } else {
        OutsideIsFixed(d, ref);
      }
    }
  }

  /** An anchor denotes one place, and the renderer takes it for a path. */
  lemma OutsideIsFixed(d: Dialect, ref: string)
    requires |ref| >= 2 && ref[0] == '#' && ref[1] != '/'
    ensures exists root :: !Follows(d, ref, root)
  {
    var path, other := RenderedPath(ref), JObj(map["" := JNull]);
    WalkNested(path, NOTHING);
    WalkNested(path, other);
    assert ref[..2][1] == ref[1] && ref[..2] != "#/";
    assert "" in other.fields && other != NOTHING;
    assert Follows(d, ref, Nested(path, NOTHING)) ==> d.elsewhere(ref) == Some(NOTHING);
    assert Follows(d, ref, Nested(path, other)) ==> d.elsewhere(ref) == Some(other);
  }

  lemma {:induction false} NonEmptyIsShorter(segments: seq<string>)
    ensures |NonEmpty(segments)| <= |segments|
    ensures |NonEmpty(segments)| == |segments| ==> forall s | s in segments :: s != ""
  {
    if segments != [] {
      NonEmptyIsShorter(segments[1..]);
      assert forall s | s in segments :: s == segments[0] || s in segments[1..];
    }
  }

  /** Without a percent sign there is nothing to decode, and only an empty key makes a difference. */
  lemma PlainWithoutPercent(d: Dialect, ref: string)
    requires Decodes(d) && |ref| >= 2 && ref[..2] == "#/" && '%' !in ref
    ensures PlainRef(d, ref) <==> NamesNoEmptyKey(ref)
  {
    assert ref[0] == ref[..2][0] && ref[1] == ref[..2][1];
    assert ref[0] == '#' && ref[1] == '/' && '%' !in ref[1..];
    assert d.decode(ref[1..]) == ref[1..] && ref[1..][1..] == ref[2..];
    var tokens := Split(ref[2..], '/');
    UnescapeAllIsDecodeAll(tokens);
    UnescapeAllIsDecodeAll(NonEmpty(tokens));
    NonEmptyIsShorter(tokens);
    assert Split(ref[1..], '/') == [""] + tokens;
    assert ([""] + tokens)[1..] == tokens && NonEmpty([""] + tokens) == NonEmpty(tokens);
    if NamesNoEmptyKey(ref) { NonEmptyKeepsAll(tokens); }
  }

  /** The renderer's segments of a pointer are its reference tokens. */
  lemma PointerTokens(ref: string)
    requires |ref| >= 2 && ref[0] == '#' && ref[1] == '/' && NamesNoEmptyKey(ref)
    ensures NonEmpty(Split(ref[1..], '/')) == Split(ref[2..], '/')
  {
    var tokens := Split(ref[2..], '/');
    assert ref[1..][1..] == ref[2..];
    assert Split(ref[1..], '/') == [""] + tokens;
    assert ([""] + tokens)[1..] == tokens;
    NonEmptyKeepsAll(tokens);
  }

  // ---------------------------------------------------------------- the rendering covers the schema

  lemma UnionAdmits(v: Json, ts: seq<Type>, i: nat)
    requires i < |ts| && Member(v, ts[i])
    ensures Member(v, UnionOf(ts))
  {
    var unique := Dedup(ts);
    assert ts[i] in ts && ts[i] in unique;
    var j :| 0 <= j < |unique| && unique[j] == ts[i];
  }

  lemma LiteralsAdmit(v: Json, values: seq<Json>)
    requires v in values
    ensures Member(v, UnionOf(Literals(values)))
  {
    var i :| 0 <= i < |values| && values[i] == v;
    UnionAdmits(v, Literals(values), i);
  }

  lemma {:induction false} KnownAreAmong(ts: seq<Type>)
    ensures forall t | t in Known(ts) :: t in ts
  {
    if ts != [] { KnownAreAmong(ts[1..]); }
  }

  lemma IntersectionAdmits(v: Json, ts: seq<Type>)
    requires forall t | t in ts :: Member(v, t)
    ensures Member(v, IntersectionOf(ts))
  {
    KnownAreAmong(ts);
  }

  lemma SomeVariantPasses(n: nat, d: Dialect, root: Json, f: map<string, Json>, v: Json) returns (i: nat)
    requires n > 0 && CheckVariants(n, d, root, f, v).Valid? && Alternatives(f).Some?
    ensures i < |Alternatives(f).value| && Check(n - 1, d, root, Alternatives(f).value[i], v).Valid?
  {
    var vs := CheckEach(n, d, root, Alternatives(f).value, v);
    assert Any(vs).Valid? || One(vs).Valid?;
    i :| 0 <= i < |vs| && vs[i].Valid?;
  }

  lemma EachPartPasses(n: nat, d: Dialect, root: Json, f: map<string, Json>, v: Json, i: nat)
    requires n > 0 && CheckVariants(n, d, root, f, v).Valid? && "allOf" in f
      && f["allOf"].JArr? && i < |f["allOf"].items|
    ensures Check(n - 1, d, root, f["allOf"].items[i], v).Valid?
  {
  }

  lemma PropertiesPass(n: nat, d: Dialect, root: Json, f: map<string, Json>, v: Json)
    requires n > 0 && v.JObj? && CheckObject(n, d, root, f, v).Valid?
    ensures Required(f) <= v.fields.Keys
    ensures forall k | k in Properties(f) && k in v.fields ::
      Check(n - 1, d, root, Properties(f)[k], v.fields[k]).Valid?
    ensures Properties(f) == map[] && "patternProperties" !in f && "additionalProperties" in f ==>
      forall k | k in v.fields :: Check(n - 1, d, root, f["additionalProperties"], v.fields[k]).Valid?
  {
  }

  /** The `type` keyword has no part in the others. */
  lemma NarrowingKeepsChecks(n: nat, d: Dialect, root: Json, f: map<string, Json>, v: Json, t: Json)
    requires n > 0
    ensures var g := f["type" := t];
      && CheckRef(n, d, root, g, v) == CheckRef(n, d, root, f, v)
      && CheckVariants(n, d, root, g, v) == CheckVariants(n, d, root, f, v)
  {
  }

  lemma NarrowingKeepsArray(n: nat, d: Dialect, root: Json, f: map<string, Json>, v: Json, t: Json)
    requires n > 0
    ensures CheckArray(n, d, root, f["type" := t], v) == CheckArray(n, d, root, f, v)
  {
  }

  lemma NarrowingKeepsObject(n: nat, d: Dialect, root: Json, f: map<string, Json>, v: Json, t: Json)
    requires n > 0
    ensures CheckObject(n, d, root, f["type" := t], v) == CheckObject(n, d, root, f, v)
  {
    var g := f["type" := t];
    assert Required(g) == Required(f);
    if v.JObj? {
      forall k | k in v.fields
        ensures CheckProperty(n, d, root, g, k, v.fields[k]) == CheckProperty(n, d, root, f, k, v.fields[k]) {
        NarrowingKeepsProperty(n, d, root, f, k, v.fields[k], t);
      }
    }
  }

  lemma NarrowingKeepsProperty(n: nat, d: Dialect, root: Json, f: map<string, Json>, k: string, v: Json, t: Json)
    requires n > 0
    ensures CheckProperty(n, d, root, f["type" := t], k, v) == CheckProperty(n, d, root, f, k, v)
  {
  }

  /** A value that satisfies a schema with a list of types satisfies it with one of them alone. */
  lemma NarrowingKeepsValid(n: nat, d: Dialect, root: Json, f: map<string, Json>, v: Json, t: Json)
    requires Check(n, d, root, JObj(f), v).Valid? && t.JStr? && HasType(v, t.s)
    ensures Check(n, d, root, JObj(f["type" := t]), v).Valid?
  {
    NarrowingKeepsChecks(n, d, root, f, v, t);
    NarrowingKeepsArray(n, d, root, f, v, t);
    NarrowingKeepsObject(n, d, root, f, v, t);
    assert f["type" := t] - {"type"} == f - {"type"};
  }

  /** Main result: every value valid under a schema is a member of the type rendered for it, at
      every depth and through every cycle of references. */
  lemma {:induction false} Covers(n: nat, d: Dialect, root: Json, schema: Json, v: Json, depth: nat, seen: set<Path>)
    requires Plain(d, root, schema, depth, seen)
    requires Check(n, d, root, schema, v).Valid?
    ensures Member(v, RenderType(root, schema, depth, seen))
    decreases n, 1, TypeKeyword(schema), 1
  {
    if schema.JObj? && depth <= MAX_DEPTH {
      var f := schema.fields;
      if "$ref" in f && f["$ref"].JStr? {
        CoversRef(n, d, root, f, v, depth, seen);
      } else if "const" in f {
      } else if "enum" in f && f["enum"].JArr? {
        LiteralsAdmit(v, f["enum"].items);
      } else if Alternatives(f).Some? {
        CoversSome(n, d, root, f, v, depth, seen);
      } else if "allOf" in f && f["allOf"].JArr? {
        CoversEach(n, d, root, f, v, depth, seen);
      } else if "type" in f && f["type"].JArr? {
        CoversNarrowed(n, d, root, f, v, depth, seen);
      } else {
        CoversPlain(n, d, root, f, v, depth, seen);
      }
    }
  }

  /** A list of types: the one the value has admits it. */
  lemma {:induction false} CoversNarrowed(n: nat, d: Dialect, root: Json, f: map<string, Json>, v: Json, depth: nat,
      seen: set<Path>)
    requires depth <= MAX_DEPTH && "type" in f && f["type"].JArr?
    requires forall i | 0 <= i < |f["type"].items| :: Plain(d, root, JObj(f["type" := f["type"].items[i]]), depth, seen)
    requires Check(n, d, root, JObj(f), v).Valid?
    ensures Member(v, UnionOf(RenderNarrowed(root, f, f["type"].items, depth, seen)))
    decreases n, 1, f["type"], 0
  {
    var types := f["type"].items;
    var i :| 0 <= i < |types| && types[i].JStr? && HasType(v, types[i].s);
    NarrowingKeepsValid(n, d, root, f, v, types[i]);
    Covers(n, d, root, JObj(f["type" := types[i]]), v, depth, seen);
    UnionAdmits(v, RenderNarrowed(root, f, types, depth, seen), i);
  }

  /** A reference: what the renderer follows is what the validator follows. */
  lemma {:induction false} CoversRef(n: nat, d: Dialect, root: Json, f: map<string, Json>, v: Json, depth: nat,
      seen: set<Path>)
    requires depth <= MAX_DEPTH && "$ref" in f && f["$ref"].JStr? && Plain(d, root, JObj(f), depth, seen)
    requires n > 0 && CheckRef(n, d, root, f, v).Valid?
    ensures Member(v, RenderType(root, JObj(f), depth, seen))
    decreases n, 0
  {
    var resolved := ResolveRef(f["$ref"].s, root);
    if resolved.Some? && resolved.value.path !in seen {
      Covers(n - 1, d, root, resolved.value.schema, v, depth + 1, seen + {resolved.value.path});
    }
  }

  /** `anyOf` and `oneOf`: some variant admits the value, and its type is in the union. */
  lemma {:induction false} CoversSome(n: nat, d: Dialect, root: Json, f: map<string, Json>, v: Json, depth: nat,
      seen: set<Path>)
    requires depth <= MAX_DEPTH && Alternatives(f).Some? && PlainAll(d, root, Alternatives(f).value, depth, seen)
    requires n > 0 && CheckVariants(n, d, root, f, v).Valid?
    ensures Member(v, UnionOf(RenderAll(root, Alternatives(f).value, depth, seen)))
    decreases n, 0, 1
  {
    var i := SomeVariantPasses(n, d, root, f, v);
    CoversOne(n, d, root, Alternatives(f).value, i, v, depth, seen);
    UnionAdmits(v, RenderAll(root, Alternatives(f).value, depth, seen), i);
  }

  /** `allOf`: every part admits the value. */
  lemma {:induction false} CoversEach(n: nat, d: Dialect, root: Json, f: map<string, Json>, v: Json, depth: nat,
      seen: set<Path>)
    requires depth <= MAX_DEPTH && "allOf" in f && f["allOf"].JArr? && PlainAll(d, root, f["allOf"].items, depth, seen)
    requires n > 0 && CheckVariants(n, d, root, f, v).Valid?
    ensures Member(v, IntersectionOf(RenderAll(root, f["allOf"].items, depth, seen)))
    decreases n, 0, 1
  {
    var ts := RenderAll(root, f["allOf"].items, depth, seen);
    forall i | 0 <= i < |ts| ensures Member(v, ts[i]) {
      EachPartPasses(n, d, root, f, v, i);
      CoversOne(n, d, root, f["allOf"].items, i, v, depth, seen);
    }
    IntersectionAdmits(v, ts);
  }

  lemma {:induction false} CoversOne(n: nat, d: Dialect, root: Json, ps: seq<Json>, i: nat, v: Json, depth: nat,
      seen: set<Path>)
    requires depth <= MAX_DEPTH && PlainAll(d, root, ps, depth, seen)
    requires n > 0 && i < |ps| && Check(n - 1, d, root, ps[i], v).Valid?
    ensures Member(v, RenderAll(root, ps, depth, seen)[i])
    decreases n, 0, 0
  {
    Covers(n - 1, d, root, ps[i], v, depth + 1, seen);
  }

  /** A schema of one type, or of none. */
  lemma {:induction false} CoversPlain(n: nat, d: Dialect, root: Json, f: map<string, Json>, v: Json, depth: nat,
      seen: set<Path>)
    requires depth <= MAX_DEPTH && PlainNode(d, root, f, depth, seen)
    requires n > 0 && ("type" in f ==> TypeAllows(f["type"], v) && !f["type"].JArr?)
    requires CheckArray(n, d, root, f, v).Valid? && CheckObject(n, d, root, f, v).Valid?
    ensures Member(v, RenderPlain(root, f, depth, seen))
    decreases n, 0, 2
  {
    match KnownType(f)
    case None =>
    case Some(t) =>
      if t == "array" {
        CoversArray(n, d, root, f, v, depth, seen);
      } else if t == "object" {
        CoversObject(n, d, root, f, v, depth, seen);
      }
  }

  lemma {:induction false} CoversArray(n: nat, d: Dialect, root: Json, f: map<string, Json>, v: Json, depth: nat,
      seen: set<Path>)
    requires depth <= MAX_DEPTH && KnownType(f) == Some("array") && PlainNode(d, root, f, depth, seen)
    requires n > 0 && v.JArr? && CheckArray(n, d, root, f, v).Valid?
    ensures Member(v, RenderArray(root, f, depth, seen))
    decreases n, 0, 0
  {
    if "items" in f {
      forall i | 0 <= i < |v.items| ensures Member(v.items[i], RenderType(root, f["items"], depth + 1, seen)) {
        assert CheckItem(n, d, root, f, i, v.items[i]).Valid?;
        Covers(n - 1, d, root, f["items"], v.items[i], depth + 1, seen);
      }
    }
  }

  lemma {:induction false} CoversObject(n: nat, d: Dialect, root: Json, f: map<string, Json>, v: Json, depth: nat,
      seen: set<Path>)
    requires depth <= MAX_DEPTH && KnownType(f) == Some("object") && PlainNode(d, root, f, depth, seen)
    requires n > 0 && v.JObj? && CheckObject(n, d, root, f, v).Valid?
    ensures Member(v, RenderObject(root, f, depth, seen))
    decreases n, 0, 1
  {
    PropertiesPass(n, d, root, f, v);
    if Properties(f) != map[] {
      CoversProperties(n, d, root, f, v, depth, seen);
    } else if "additionalProperties" in f && f["additionalProperties"].JObj? {
      CoversRecord(n, d, root, f["additionalProperties"], v, depth, seen);
    }
  }

  lemma {:induction false} CoversRecord(n: nat, d: Dialect, root: Json, additional: Json, v: Json, depth: nat,
      seen: set<Path>)
    requires Plain(d, root, additional, depth + 1, seen)
    requires n > 0 && v.JObj? && forall k | k in v.fields :: Check(n - 1, d, root, additional, v.fields[k]).Valid?
    ensures Member(v, TRecord(RenderType(root, additional, depth + 1, seen)))
    decreases n, 0, 0
  {
    forall k | k in v.fields ensures Member(v.fields[k], RenderType(root, additional, depth + 1, seen)) {
      Covers(n - 1, d, root, additional, v.fields[k], depth + 1, seen);
    }
  }

  lemma {:induction false} CoversProperties(n: nat, d: Dialect, root: Json, f: map<string, Json>, v: Json, depth: nat,
      seen: set<Path>)
    requires depth <= MAX_DEPTH && KnownType(f) == Some("object") && PlainNode(d, root, f, depth, seen)
    requires n > 0 && v.JObj? && Properties(f) != map[] && Required(f) <= v.fields.Keys
    requires forall k | k in Properties(f) && k in v.fields ::
      Check(n - 1, d, root, Properties(f)[k], v.fields[k]).Valid?
    ensures Member(v, RenderObject(root, f, depth, seen))
    decreases n, 0, 0
  {
    var properties := Properties(f);
    forall k | k in properties && k in v.fields
      ensures Member(v.fields[k], RenderType(root, properties[k], depth + 1, seen)) {
      Covers(n - 1, d, root, properties[k], v.fields[k], depth + 1, seen);
    }
    var t := RenderObject(root, f, depth, seen);
    assert forall k | k in t.required :: k in v.fields && Member(v.fields[k], t.required[k]);
    assert forall k | k in t.optional :: k in v.fields ==> Member(v.fields[k], t.optional[k]);
  }

  /** The same for a tool: what its root schema accepts, its declared type admits. */
  lemma DeclaredTypeAdmits(n: nat, d: Dialect, schema: Json, v: Json)
    requires Plain(d, schema, schema, 0, {})
    requires Check(n, d, schema, schema, v).Valid?
    ensures Member(v, RenderType(schema, schema, 0, {}))
  {
    Covers(n, d, schema, schema, v, 0, {});
  }

  // ---------------------------------------------------------------- a verdict, once reached, stands

  predicate Settles(a: Verdict, b: Verdict) { a.Diverges? || a == b }

  ghost predicate AllSettle(vs: seq<Verdict>, ws: seq<Verdict>) {
    |vs| == |ws| && forall i | 0 <= i < |vs| :: Settles(vs[i], ws[i])
  }

  lemma AnySettles(vs: seq<Verdict>, ws: seq<Verdict>)
    requires AllSettle(vs, ws)
    ensures Settles(Any(vs), Any(ws))
  {
    forall i | 0 <= i < |vs| ensures vs[i].Diverges? || vs[i] == ws[i] { assert Settles(vs[i], ws[i]); }
  }

  lemma OneSettles(vs: seq<Verdict>, ws: seq<Verdict>)
    requires AllSettle(vs, ws)
    ensures Settles(One(vs), One(ws))
  {
    forall i | 0 <= i < |vs| ensures vs[i].Diverges? || vs[i] == ws[i] { assert Settles(vs[i], ws[i]); }
    if forall i | 0 <= i < |vs| :: !vs[i].Diverges? { assert vs == ws; }
  }

  lemma AllOfThemSettle(vs: seq<Verdict>, ws: seq<Verdict>)
    requires AllSettle(vs, ws)
    ensures Settles(All(vs), All(ws))
  {
    forall i | 0 <= i < |vs| ensures vs[i].Diverges? || vs[i] == ws[i] { assert Settles(vs[i], ws[i]); }
  }

  lemma CombinedSettle(vs: seq<Verdict>, ws: seq<Verdict>)
    requires AllSettle(vs, ws)
    ensures Settles(Any(vs), Any(ws)) && Settles(One(vs), One(ws)) && Settles(All(vs), All(ws))
  {
    AnySettles(vs, ws);
    OneSettles(vs, ws);
    AllOfThemSettle(vs, ws);
  }

  /** More steps never change a verdict that was reached: the bound on `Check` is no part of what a
      schema means. */
  lemma {:induction false} CheckSettles(n: nat, d: Dialect, root: Json, schema: Json, v: Json)
    ensures Settles(Check(n, d, root, schema, v), Check(n + 1, d, root, schema, v))
    decreases n, 2
  {
    if n > 0 && schema.JObj? {
      var f := schema.fields;
      RefSettles(n, d, root, f, v);
      VariantsSettle(n, d, root, f, v);
      ArraySettles(n, d, root, f, v);
      ObjectSettles(n, d, root, f, v);
    }
  }

  lemma {:induction false} RefSettles(n: nat, d: Dialect, root: Json, f: map<string, Json>, v: Json)
    requires n > 0
    ensures Settles(CheckRef(n, d, root, f, v), CheckRef(n + 1, d, root, f, v))
    decreases n, 1
  {
    if "$ref" in f && f["$ref"].JStr? && Resolve(d, f["$ref"].s, root).Some? {
      CheckSettles(n - 1, d, root, Resolve(d, f["$ref"].s, root).value, v);
    }
  }

  lemma {:induction false} EachSettles(n: nat, d: Dialect, root: Json, schemas: seq<Json>, v: Json)
    requires n > 0
    ensures var vs, ws := CheckEach(n, d, root, schemas, v), CheckEach(n + 1, d, root, schemas, v);
      Settles(Any(vs), Any(ws)) && Settles(One(vs), One(ws)) && Settles(All(vs), All(ws))
    decreases n, 0, 0
  {
    forall i | 0 <= i < |schemas|
      ensures Settles(CheckEach(n, d, root, schemas, v)[i], CheckEach(n + 1, d, root, schemas, v)[i]) {
      CheckSettles(n - 1, d, root, schemas[i], v);
    }
    CombinedSettle(CheckEach(n, d, root, schemas, v), CheckEach(n + 1, d, root, schemas, v));
  }

  lemma {:induction false} VariantsSettle(n: nat, d: Dialect, root: Json, f: map<string, Json>, v: Json)
    requires n > 0
    ensures Settles(CheckVariants(n, d, root, f, v), CheckVariants(n + 1, d, root, f, v))
    decreases n, 1
  {
    KeywordSettles(n, d, root, f, "anyOf", v);
    KeywordSettles(n, d, root, f, "oneOf", v);
    KeywordSettles(n, d, root, f, "allOf", v);
  }

  lemma {:induction false} KeywordSettles(n: nat, d: Dialect, root: Json, f: map<string, Json>, key: string, v: Json)
    requires n > 0
    ensures Settles(CheckKeyword(n, d, root, f, key, v), CheckKeyword(n + 1, d, root, f, key, v))
    decreases n, 0, 1
  {
    if key in f && f[key].JArr? { EachSettles(n, d, root, f[key].items, v); }
  }

  lemma {:induction false} ArraySettles(n: nat, d: Dialect, root: Json, f: map<string, Json>, v: Json)
    requires n > 0
    ensures Settles(CheckArray(n, d, root, f, v), CheckArray(n + 1, d, root, f, v))
    decreases n, 1
  {
    if v.JArr? {
      forall i | 0 <= i < |v.items|
        ensures Settles(CheckItem(n, d, root, f, i, v.items[i]), CheckItem(n + 1, d, root, f, i, v.items[i])) {
        ItemSettles(n, d, root, f, i, v.items[i]);
      }
    }
  }

  lemma {:induction false} ItemSettles(n: nat, d: Dialect, root: Json, f: map<string, Json>, i: nat, v: Json)
    requires n > 0
    ensures Settles(CheckItem(n, d, root, f, i, v), CheckItem(n + 1, d, root, f, i, v))
    decreases n, 0
  {
    if "prefixItems" in f && f["prefixItems"].JArr? && i < |f["prefixItems"].items| {
      CheckSettles(n - 1, d, root, f["prefixItems"].items[i], v);
    } else if "items" in f {
      CheckSettles(n - 1, d, root, f["items"], v);
    }
  }

  lemma {:induction false} ObjectSettles(n: nat, d: Dialect, root: Json, f: map<string, Json>, v: Json)
    requires n > 0
    ensures Settles(CheckObject(n, d, root, f, v), CheckObject(n + 1, d, root, f, v))
    decreases n, 1
  {
    if v.JObj? {
      forall k | k in v.fields
        ensures Settles(CheckProperty(n, d, root, f, k, v.fields[k]),
                        CheckProperty(n + 1, d, root, f, k, v.fields[k])) {
        PropertySettles(n, d, root, f, k, v.fields[k]);
      }
    }
  }

  lemma {:induction false} PropertySettles(n: nat, d: Dialect, root: Json, f: map<string, Json>, k: string, v: Json)
    requires n > 0
    ensures Settles(CheckProperty(n, d, root, f, k, v), CheckProperty(n + 1, d, root, f, k, v))
    decreases n, 0
  {
    if k in Properties(f) {
      CheckSettles(n - 1, d, root, Properties(f)[k], v);
    } else if "additionalProperties" in f {
      CheckSettles(n - 1, d, root, f["additionalProperties"], v);
    }
  }
}
