/** What a schema means: the JSON values it accepts (sections 4.8.23 and 4.8.24 of OpenAPI 3.1.0). The
keywords the comparator never reads may mean anything. References are read as chains of pointers, with
no identity strings and no overlay, so that the meaning is independent of the comparator. */
module OpenApiMeaning {
  import opened Json
  import opened JsonPointer
  import opened OpenApiResolve
  import opened OpenApiRules
  import Text

  // ----- references

  /** x is a reference whose target is y. */
  ghost predicate Link(doc: Fields, x: Json, y: Json) {
    x.Obj? && IsLocal(RefOf(x.fields)) && LocalPointer(doc, RefOf(x.fields)) == Some(y)
  }

  /** References from one value to the next, ending in an object that is no reference. */
  ghost predicate Chain(doc: Fields, c: seq<Json>) {
    && c != []
    && (forall i, j :: 0 <= i < |c| && j == i + 1 < |c| ==> Link(doc, c[i], c[j]))
    && c[|c| - 1].Obj? && RefOf(c[|c| - 1].fields) == ""
  }

  /** s is the schema object at the end of the references, annotations aside. */
  ghost predicate Denotes(doc: Fields, x: Json, s: Fields) {
    exists c: seq<Json> :: Chain(doc, c) && c[0] == x && Core(c[|c| - 1].fields) == s
  }

  lemma {:induction false} ChainUnique(doc: Fields, c: seq<Json>, d: seq<Json>)
    requires Chain(doc, c) && Chain(doc, d) && c[0] == d[0]
    ensures c == d
  {
    assert |c| > 1 ==> Link(doc, c[0], c[1]);
    assert |d| > 1 ==> Link(doc, d[0], d[1]);
    if |c| > 1 && |d| > 1 {
      ChainTail(doc, c);
      ChainTail(doc, d);
      ChainUnique(doc, c[1..], d[1..]);
      assert c == [c[0]] + c[1..] && d == [d[0]] + d[1..];
    }
  }

  lemma ChainTail(doc: Fields, c: seq<Json>)
    requires Chain(doc, c) && |c| > 1
    ensures Chain(doc, c[1..])
  {
    forall i, j | 0 <= i < |c[1..]| && j == i + 1 < |c[1..]| ensures Link(doc, c[1..][i], c[1..][j]) {
      assert Link(doc, c[i + 1], c[j + 1]);
    }
  }

  lemma {:induction false} ChainFrom(doc: Fields, c: seq<Json>, i: nat)
    requires Chain(doc, c) && i < |c|
    ensures Chain(doc, c[i..])
  {
    if i > 0 {
      ChainFrom(doc, c, i - 1);
      ChainTail(doc, c[i - 1..]);
      assert c[i - 1..][1..] == c[i..];
    }
  }

  /** A chain that ends never follows the same reference twice. */
  lemma ChainHasNoLoop(doc: Fields, c: seq<Json>, i: nat, j: nat)
    requires Chain(doc, c) && i < j < |c| - 1
    ensures c[i].Obj? && c[j].Obj? && RefOf(c[i].fields) != RefOf(c[j].fields)
  {
    assert Link(doc, c[i], c[i + 1]) && Link(doc, c[j], c[j + 1]);
    hide LocalPointer;
    if RefOf(c[i].fields) == RefOf(c[j].fields) {
      ChainFrom(doc, c, i + 1);
      ChainFrom(doc, c, j + 1);
      assert |c[i + 1..]| == |c| - i - 1 && |c[j + 1..]| == |c| - j - 1;
      ChainUnique(doc, c[i + 1..], c[j + 1..]);
    }
  }

  // ----- documents whose references stand alone

  /** A fragment of a URI contains neither character (section 3.5 of RFC 3986). */
  predicate LegalRef(ref: string) {
    '|' !in ref && '>' !in ref
  }

  ghost predicate PlainRef(x: Json) {
    x.Obj? && RefOf(x.fields) != "" ==> x.fields.Keys <= {"$ref"} + ANNOTATIONS && LegalRef(RefOf(x.fields))
  }

  /** The siblings of a reference are annotations. */
  ghost predicate PlainRefs(doc: Fields) {
    forall x :: x in SubValues(Obj(doc)) ==> PlainRef(x)
  }

  function RefsOf(c: seq<Json>, i: nat): seq<string>
    requires i <= |c| && forall k :: 0 <= k < i ==> c[k].Obj?
  {
    if i == 0 then [] else RefsOf(c, i - 1) + [RefOf(c[i - 1].fields)]
  }

  lemma {:induction false} RefsOfMember(c: seq<Json>, i: nat, ref: string)
    requires i <= |c| && (forall k :: 0 <= k < i ==> c[k].Obj?) && ref in RefsOf(c, i)
    ensures exists k :: 0 <= k < i && RefOf(c[k].fields) == ref
  {
    if i > 0 && ref != RefOf(c[i - 1].fields) {
      RefsOfMember(c, i - 1, ref);
    }
  }

  lemma LinkInside(doc: Fields, x: Json, y: Json)
    requires Link(doc, x, y)
    ensures y in SubValues(Obj(doc))
  {
    WalkStaysInside(Obj(doc), Obj(doc), Text.Split(RefOf(x.fields)[2..], '/'));
  }

  /** Resolution goes the same way from objects that differ in annotations. */
  lemma {:induction false} ResolveSameCore(doc: Fields, f: Fields, g: Fields, refs: seq<string>)
    requires Core(f) == Core(g)
    ensures Core(ResolveFrom(doc, f, refs).fields) == Core(ResolveFrom(doc, g, refs).fields)
    decreases Pending(doc, f, refs)
  {
    CoreField(f, "$ref");
    CoreField(g, "$ref");
    if !Stops(f, refs) {
      var ref := RefOf(f);
      var target := LocalPointer(doc, ref);
      if target.Some? && target.value.Obj? {
        FollowingShrinks(doc, f, refs);
        FollowingShrinks(doc, g, refs);
        CoreOverlay(target.value.fields, f);
        CoreOverlay(target.value.fields, g);
        ResolveSameCore(doc, Overlay(target.value.fields, f), Overlay(target.value.fields, g), refs + [ref]);
      }
    }
  }

  lemma CoreOverlay(t: Fields, f: Fields)
    ensures Core(Overlay(t, f)) == Core(t) + (Core(f) - {"$ref"})
  {
  }

  lemma ResolveStep(doc: Fields, x: Json, y: Json, refs: seq<string>)
    requires Link(doc, x, y) && PlainRef(x) && y.Obj? && RefOf(x.fields) !in refs
    ensures Core(ResolveFrom(doc, x.fields, refs).fields) == Core(ResolveFrom(doc, y.fields, refs + [RefOf(x.fields)]).fields)
  {
    CoreOverlay(y.fields, x.fields);
    assert Core(x.fields) - {"$ref"} == map[];
    FollowingShrinks(doc, x.fields, refs);
    ResolveSameCore(doc, Overlay(y.fields, x.fields), y.fields, refs + [RefOf(x.fields)]);
  }

  lemma ResolveStops(doc: Fields, f: Fields, refs: seq<string>)
    requires RefOf(f) == ""
    ensures ResolveFrom(doc, f, refs).fields == f
  {
  }

  lemma RefIsNew(doc: Fields, c: seq<Json>, i: nat)
    requires Chain(doc, c) && i < |c| - 1 && forall k :: 0 <= k <= i ==> c[k].Obj?
    ensures RefOf(c[i].fields) !in RefsOf(c, i)
  {
    var ref := RefOf(c[i].fields);
    if ref in RefsOf(c, i) {
      RefsOfMember(c, i, ref);
      var k :| 0 <= k < i && RefOf(c[k].fields) == ref;
      ChainHasNoLoop(doc, c, k, i);
    }
  }

  lemma {:induction false} ResolveAlong(doc: Fields, c: seq<Json>, i: nat)
    requires PlainRefs(doc) && Chain(doc, c) && i < |c| && c[i] in SubValues(Obj(doc))
    requires forall k :: 0 <= k <= i ==> c[k].Obj?
    ensures Core(ResolveFrom(doc, c[i].fields, RefsOf(c, i)).fields) == Core(c[|c| - 1].fields)
    decreases |c| - i
  {
    hide ResolveFrom, SubValues, LocalPointer, RefOf;
    if i == |c| - 1 {
      ResolveStops(doc, c[i].fields, RefsOf(c, i));
    } else {
      assert Link(doc, c[i], c[i + 1]);
      assert i + 1 < |c| - 1 ==> Link(doc, c[i + 1], c[i + 2]);
      RefIsNew(doc, c, i);
      LinkInside(doc, c[i], c[i + 1]);
      ResolveStep(doc, c[i], c[i + 1], RefsOf(c, i));
      ResolveAlong(doc, c, i + 1);
    }
  }

  /** On plain references the comparator resolves a value to the schema it denotes. */
  lemma ResolveDenotes(doc: Fields, x: Json, s: Fields)
    requires PlainRefs(doc) && x in SubValues(Obj(doc)) && Denotes(doc, x, s)
    ensures x.Obj? && SchemaOf(doc, x) == s
  {
    var c: seq<Json> :| Chain(doc, c) && c[0] == x && Core(c[|c| - 1].fields) == s;
    if |c| > 1 {
      assert Link(doc, c[0], c[1]);
    }
    ResolveAlong(doc, c, 0);
  }

  // ----- acceptance

  predicate IsType(name: string, v: Json) {
    match v
    case Null => name == "null"
    case Bool(_) => name == "boolean"
    case Num(n) => name == "number" || (name == "integer" && n.Floor as real == n)
    case Str(_) => name == "string"
    case Arr(_) => name == "array"
    case Obj(_) => name == "object"
  }

  predicate TypeOk(s: Fields, v: Json) {
    DeclaredTypes(s) == {} || exists name :: name in DeclaredTypes(s) && IsType(name, v)
  }

  predicate EnumOk(s: Fields, v: Json) {
    HasEnum(s) ==> v in EnumOf(s)
  }

  /** The quantity a bound keyword limits, if it applies to the value. */
  function Measure(key: string, v: Json): Option<real> {
    match v
    case Num(n) => if key in {"minimum", "exclusiveMinimum", "maximum", "exclusiveMaximum"} then Some(n) else None
    case Str(s) => if key in {"minLength", "maxLength"} then Some(|s| as real) else None
    case Arr(items) => if key in {"minItems", "maxItems"} then Some(|items| as real) else None
    case Obj(f) => if key in {"minProperties", "maxProperties"} then Some(|f| as real) else None
    case _ => None
  }

  predicate MinOk(s: Fields, key: string, v: Json) {
    Field(s, key).Num? && Measure(key, v).Some? ==>
      if key == "exclusiveMinimum" then Measure(key, v).value > Field(s, key).n
      else Measure(key, v).value >= Field(s, key).n
  }

  predicate MaxOk(s: Fields, key: string, v: Json) {
    Field(s, key).Num? && Measure(key, v).Some? ==>
      if key == "exclusiveMaximum" then Measure(key, v).value < Field(s, key).n
      else Measure(key, v).value <= Field(s, key).n
  }

  predicate BoundsOk(s: Fields, v: Json) {
    && (forall key :: key in MIN_BOUNDS ==> MinOk(s, key, v))
    && (forall key :: key in MAX_BOUNDS ==> MaxOk(s, key, v))
  }

  /** The keywords of one schema object that do not reach into the value. */
  predicate Shallow(s: Fields, v: Json) {
    TypeOk(s, v) && EnumOk(s, v) && BoundsOk(s, v) && (v.Obj? ==> Required(s) <= v.fields.Keys)
  }

  /** What the keywords that the comparator never reads make of a value: any condition on the document,
  the schema object and the value. */
  type Rest = (Fields, Fields, Json) -> bool

  /** The value meets the schema object. */
  ghost predicate Satisfies(rest: Rest, doc: Fields, s: Fields, v: Json)
    decreases v, 0
  {
    && Shallow(s, v) && rest(doc, s, v)
    && (v.Obj? ==> forall name :: name in Props(s) && name in v.fields ==> Accepts(rest, doc, Props(s)[name], v.fields[name]))
    && (v.Arr? && "items" in s ==> forall i :: 0 <= i < |v.items| ==> Accepts(rest, doc, s["items"], v.items[i]))
  }

  /** The value meets the schema the value denotes; a missing schema accepts anything. */
  ghost predicate Accepts(rest: Rest, doc: Fields, x: Json, v: Json)
    decreases v, 1
  {
    x == Null || exists s :: Denotes(doc, x, s) && Satisfies(rest, doc, s, v)
  }
}
