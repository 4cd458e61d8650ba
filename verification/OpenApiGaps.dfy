/** Narrowings the comparator lets through, each with a value that the old schema accepts and the new
one refuses, or a request that the old operation accepts and the new one refuses. */
module OpenApiGaps {
  import opened Json
  import opened JsonPointer
  import opened OpenApiResolve
  import opened OpenApiRules
  import opened OpenApiCompare
  import opened OpenApiMeaning
  import opened OpenApiDocument
  import opened OpenApiClients
  import Text

  /** Nothing beyond the keywords the comparator reads. */
  const SILENT: Rest := (doc: Fields, s: Fields, v: Json) => true

  ghost predicate Passes(b: Fields, a: Fields, request: bool) {
    exists R :: PostFixed(map[], map[], R) && Covered(map[], map[], R, Use(Obj(b), Obj(a), request))
  }

  /** The change from b to a is compatible by the rules of the comparator, yet v is shut out. */
  ghost predicate Missed(b: Fields, a: Fields, v: Json) {
    Passes(b, a, true) && Accepts(SILENT, map[], Obj(b), v) && !Accepts(SILENT, map[], Obj(a), v)
  }

  /** The same for a response: v was not allowed, and now it is. */
  ghost predicate Unexpected(b: Fields, a: Fields, v: Json) {
    Passes(b, a, false) && !Accepts(SILENT, map[], Obj(b), v) && Accepts(SILENT, map[], Obj(a), v)
  }

  /** The value meets a schema written in place. */
  ghost predicate Fulfils(s: Fields, v: Json) {
    Satisfies(SILENT, map[], s, v)
  }

  const USED: set<string> := {"type", "enum", "items", "properties", "minimum", "x-liteaig-extensible-enum"}

  /** The schema is no reference and has no annotations. */
  predicate Written(s: Fields) {
    s.Keys <= USED
  }

  lemma WrittenAsIs(s: Fields)
    requires Written(s)
    ensures RefOf(s) == "" && Core(s) == s && Required(s) == {}
  {
    assert USED !! ANNOTATIONS + {"$ref", "required"};
    hide USED, ANNOTATIONS;
  }

  lemma NoOtherBounds(s: Fields)
    requires Written(s) && "minimum" !in s
    ensures forall key :: key in MIN_BOUNDS || key in MAX_BOUNDS ==> !Field(s, key).Num?
  {
  }

  lemma InlineAccepts(s: Fields, v: Json)
    requires Written(s)
    ensures Accepts(SILENT, map[], Obj(s), v) <==> Fulfils(s, v)
  {
    WrittenAsIs(s);
    hide Written;
    assert Chain(map[], [Obj(s)]);
    assert Denotes(map[], Obj(s), s);
    forall t | Denotes(map[], Obj(s), t) ensures t == s {
      var c: seq<Json> :| Chain(map[], c) && c[0] == Obj(s) && Core(c[|c| - 1].fields) == t;
      ChainUnique(map[], c, [Obj(s)]);
    }
  }

  /** For schemas written in place and without common parts, type and enum decide. */
  lemma FlatPasses(b: Fields, a: Fields, request: bool)
    requires Written(b) && Written(a) && (request ==> "minimum" !in a)
    requires "items" !in b && "properties" !in b
    requires !TypeChanged(b, a, request) && !NullabilityChanged(b, a, request) && !EnumChanged(b, a, request)
    ensures Passes(b, a, request)
  {
    FlatOk(b, a, request);
    WrittenAsIs(b);
    WrittenAsIs(a);
    hide Written;
    InlineResolves(map[], b);
    InlineResolves(map[], a);
    LeafPasses(map[], map[], Use(Obj(b), Obj(a), request));
  }

  lemma FlatOk(b: Fields, a: Fields, request: bool)
    requires Written(b) && Written(a) && (request ==> "minimum" !in a)
    requires "items" !in b && "properties" !in b
    requires !TypeChanged(b, a, request) && !NullabilityChanged(b, a, request) && !EnumChanged(b, a, request)
    ensures LocalOk(Node(b, a, request)) && ChildUses(Node(b, a, request)) == {}
  {
    WrittenAsIs(b);
    WrittenAsIs(a);
    if request {
      NoOtherBounds(a);
    }
    assert Props(b) == map[];
    hide Written;
  }

  /** A pair that breaks no rule and has no common parts is a compatibility relation by itself. */
  lemma LeafPasses(bd: Fields, ad: Fields, u: Use)
    requires LocalOk(NodeOf(bd, ad, u)) && ChildUses(NodeOf(bd, ad, u)) == {} && u.y != Null
    ensures exists R :: PostFixed(bd, ad, R) && Covered(bd, ad, R, u)
  {
    var n := NodeOf(bd, ad, u);
    assert PostFixed(bd, ad, iset{n}) && Covered(bd, ad, iset{n}, u);
  }

  lemma Decide(b: Fields, a: Fields, v: Json)
    requires Written(b) && Written(a)
    ensures Passes(b, a, true) && Fulfils(b, v) && !Fulfils(a, v) ==> Missed(b, a, v)
    ensures Passes(b, a, false) && !Fulfils(b, v) && Fulfils(a, v) ==> Unexpected(b, a, v)
  {
    hide Passes, Fulfils, Written;
    InlineAccepts(b, v);
    InlineAccepts(a, v);
  }

  const STRINGS: Fields := map["type" := Str("string")]
  const SOME_STRINGS: Fields := map["type" := Str("string"), "enum" := Arr([Str("a")])]
  const NULLS: Fields := map["type" := Str("null")]
  const LIST: Fields := map["type" := Str("array")]
  const LIST_OF_STRINGS: Fields := map["type" := Str("array"), "items" := Obj(STRINGS)]
  const OBJECT: Fields := map["type" := Str("object")]
  const OBJECT_WITH_STRING: Fields := map["type" := Str("object"), "properties" := Obj(map["p" := Obj(STRINGS)])]
  const COUNTS: Fields := map["type" := Str("integer"), "minimum" := Num(0.0)]
  const INTEGERS: Fields := map["type" := Str("integer")]
  const STATUS: Fields := map["enum" := Arr([Str("a")]), "x-liteaig-extensible-enum" := Bool(true)]
  const WIDER_STATUS: Fields := map["enum" := Arr([Str("a"), Str("b")]), "x-liteaig-extensible-enum" := Bool(true)]

  lemma AreWritten()
    ensures Written(STRINGS) && Written(SOME_STRINGS) && Written(NULLS) && Written(LIST) && Written(LIST_OF_STRINGS)
    ensures Written(OBJECT) && Written(OBJECT_WITH_STRING) && Written(COUNTS) && Written(INTEGERS)
    ensures Written(STATUS) && Written(WIDER_STATUS)
  {
  }

  lemma Types(s: Fields, name: string)
    requires Field(s, "type") == Str(name) && "nullable" !in s && "anyOf" !in s && "oneOf" !in s
    ensures DeclaredTypes(s) == {name}
  {
  }

  lemma EnumAddedPasses()
    ensures Passes(STRINGS, SOME_STRINGS, true)
  {
    AreWritten();
    Types(STRINGS, "string");
    Types(SOME_STRINGS, "string");
    FlatPasses(STRINGS, SOME_STRINGS, true);
  }

  lemma EnumAddedValue()
    ensures Fulfils(STRINGS, Str("b")) && !Fulfils(SOME_STRINGS, Str("b"))
  {
    Types(STRINGS, "string");
    Types(SOME_STRINGS, "string");
    assert IsType("string", Str("b")) && Str("b") !in EnumOf(SOME_STRINGS);
  }

  /** An enum added where there was none. */
  lemma EnumAddedIsMissed()
    ensures Missed(STRINGS, SOME_STRINGS, Str("b"))
  {
    hide Passes, Fulfils, Written;
    EnumAddedPasses();
    EnumAddedValue();
    AreWritten();
    Decide(STRINGS, SOME_STRINGS, Str("b"));
  }

  lemma NullFailsString()
    ensures !Fulfils(STRINGS, Null)
  {
    Types(STRINGS, "string");
  }

  lemma NullIsNoString()
    ensures !Accepts(SILENT, map[], Obj(STRINGS), Null)
  {
    hide Fulfils, Written;
    NullFailsString();
    AreWritten();
    InlineAccepts(STRINGS, Null);
  }

  lemma ItemsAddedPasses()
    ensures Passes(LIST, LIST_OF_STRINGS, true)
  {
    AreWritten();
    Types(LIST, "array");
    Types(LIST_OF_STRINGS, "array");
    FlatPasses(LIST, LIST_OF_STRINGS, true);
  }

  lemma ItemsAddedValue()
    ensures Fulfils(LIST, Arr([Null])) && !Fulfils(LIST_OF_STRINGS, Arr([Null]))
  {
    Types(LIST, "array");
    assert IsType("array", Arr([Null]));
    NullIsNoString();
    assert Arr([Null]).items[0] == Null;
  }

  /** An item schema added where there was none. */
  lemma ItemsAddedIsMissed()
    ensures Missed(LIST, LIST_OF_STRINGS, Arr([Null]))
  {
    hide Passes, Fulfils, Written;
    ItemsAddedPasses();
    ItemsAddedValue();
    AreWritten();
    Decide(LIST, LIST_OF_STRINGS, Arr([Null]));
  }

  lemma PropertyAddedPasses()
    ensures Passes(OBJECT, OBJECT_WITH_STRING, true)
  {
    AreWritten();
    Types(OBJECT, "object");
    Types(OBJECT_WITH_STRING, "object");
    FlatPasses(OBJECT, OBJECT_WITH_STRING, true);
  }

  lemma PropertyAddedValue()
    ensures Fulfils(OBJECT, Obj(map["p" := Null])) && !Fulfils(OBJECT_WITH_STRING, Obj(map["p" := Null]))
  {
    Types(OBJECT, "object");
    assert IsType("object", Obj(map["p" := Null]));
    NullIsNoString();
    assert "p" in Props(OBJECT_WITH_STRING);
  }

  /** A property declared that was not. */
  lemma PropertyAddedIsMissed()
    ensures Missed(OBJECT, OBJECT_WITH_STRING, Obj(map["p" := Null]))
  {
    hide Passes, Fulfils, Written;
    PropertyAddedPasses();
    PropertyAddedValue();
    AreWritten();
    Decide(OBJECT, OBJECT_WITH_STRING, Obj(map["p" := Null]));
  }

  lemma NullOnlyPasses()
    ensures Passes(STRINGS, NULLS, true)
  {
    AreWritten();
    Types(STRINGS, "string");
    Types(NULLS, "null");
    FlatPasses(STRINGS, NULLS, true);
  }

  lemma NullOnlyValue()
    ensures Fulfils(STRINGS, Str("x")) && !Fulfils(NULLS, Str("x"))
  {
    Types(STRINGS, "string");
    Types(NULLS, "null");
    assert IsType("string", Str("x"));
  }

  /** A type that shrinks to null alone. */
  lemma NullOnlyIsMissed()
    ensures Missed(STRINGS, NULLS, Str("x"))
  {
    hide Passes, Fulfils, Written;
    NullOnlyPasses();
    NullOnlyValue();
    AreWritten();
    Decide(STRINGS, NULLS, Str("x"));
  }

  lemma BoundDroppedPasses()
    ensures Passes(COUNTS, INTEGERS, false)
  {
    AreWritten();
    Types(COUNTS, "integer");
    Types(INTEGERS, "integer");
    FlatPasses(COUNTS, INTEGERS, false);
  }

  lemma BoundDroppedValue()
    ensures !Fulfils(COUNTS, Num(-1.0)) && Fulfils(INTEGERS, Num(-1.0))
  {
    Types(INTEGERS, "integer");
    assert MIN_BOUNDS[0] == "minimum" && !MinOk(COUNTS, "minimum", Num(-1.0));
    assert IsType("integer", Num(-1.0));
  }

  /** A bound of a response dropped. */
  lemma BoundDroppedIsMissed()
    ensures Unexpected(COUNTS, INTEGERS, Num(-1.0))
  {
    hide Passes, Fulfils, Written;
    BoundDroppedPasses();
    BoundDroppedValue();
    AreWritten();
    Decide(COUNTS, INTEGERS, Num(-1.0));
  }

  lemma NoType(s: Fields)
    requires s.Keys <= {"enum", "x-liteaig-extensible-enum"}
    ensures DeclaredTypes(s) == {}
  {
  }

  lemma ExtensibleEnumPasses()
    ensures Passes(STATUS, WIDER_STATUS, false)
  {
    AreWritten();
    NoType(STATUS);
    NoType(WIDER_STATUS);
    assert IsTrue(Field(STATUS, "x-liteaig-extensible-enum"));
    hide Written;
    FlatPasses(STATUS, WIDER_STATUS, false);
  }

  lemma ExtensibleEnumValue()
    ensures !Fulfils(STATUS, Str("b")) && Fulfils(WIDER_STATUS, Str("b"))
  {
    assert DeclaredTypes(WIDER_STATUS) == {} && Str("b") !in EnumOf(STATUS);
    assert ItemsOf(Field(WIDER_STATUS, "enum"))[1] == Str("b");
  }

  /** A value added to an enum of a response that is marked as extensible, which is what the mark is for. */
  lemma ExtensibleEnumGrows()
    ensures Unexpected(STATUS, WIDER_STATUS, Str("b"))
  {
    hide Passes, Fulfils, Written;
    ExtensibleEnumPasses();
    ExtensibleEnumValue();
    AreWritten();
    Decide(STATUS, WIDER_STATUS, Str("b"));
  }

  // ----- two schemas under one key

  const TEXT: Json := Obj(map["type" := Str("string")])
  const COUNT: Json := Obj(map["type" := Str("integer")])
  const REF: Json := Obj(map["$ref" := Str("#/S")])
  const OLD_DOC: Fields := map["p" := TEXT, "q" := COUNT]
  const NEW_DOC: Fields := map["S" := TEXT, "r" := REF]

  lemma RefResolves()
    ensures Resolve(NEW_DOC, REF).fields == TEXT.fields && Resolve(NEW_DOC, REF).id != ""
    ensures Resolve(OLD_DOC, TEXT) == Resolved(true, TEXT.fields, "")
    ensures Resolve(OLD_DOC, COUNT) == Resolved(true, COUNT.fields, "")
  {
    var ref := "#/S";
    assert RefOf(REF.fields) == ref && ref[2..] == "S";
    assert Text.Split("S", '/') == ["S"] by { Text.SplitOfAtom("S", '/'); }
    assert Unescape("S") == "S" by { assert "S"[1..] == ""; }
    assert Walk(Obj(NEW_DOC), ["S"]) == Walk(TEXT, []) == Some(TEXT) by { assert ["S"][1..] == []; }
    assert LocalPointer(NEW_DOC, ref) == Some(TEXT);
    NoIdMeansInline(NEW_DOC, REF);
    FollowingShrinks(NEW_DOC, REF.fields, []);
    assert Overlay(TEXT.fields, REF.fields) == TEXT.fields;
    assert ResolveFrom(NEW_DOC, TEXT.fields, [] + [ref]).fields == TEXT.fields;
  }

  lemma SharedNodes()
    ensures NodeOf(OLD_DOC, NEW_DOC, Use(COUNT, REF, true)) == Node(COUNT.fields, TEXT.fields, true)
    ensures NodeOf(OLD_DOC, NEW_DOC, Use(TEXT, REF, true)) == Node(TEXT.fields, TEXT.fields, true)
  {
    RefResolves();
    WrittenAsIs(COUNT.fields);
    WrittenAsIs(TEXT.fields);
    hide Written;
  }

  lemma CountIsNoText()
    ensures !LocalOk(Node(COUNT.fields, TEXT.fields, true))
  {
    Types(COUNT.fields, "integer");
    Types(TEXT.fields, "string");
    assert "integer" in TypeNames(COUNT.fields) && "integer" !in TypeNames(TEXT.fields) && "string" in TypeNames(TEXT.fields);
    assert TypeChanged(COUNT.fields, TEXT.fields, true);
  }

  /** An integer that becomes a string breaks the rules. */
  lemma CountToTextIsIncompatible(R: iset<Node>)
    requires PostFixed(OLD_DOC, NEW_DOC, R)
    ensures !Covered(OLD_DOC, NEW_DOC, R, Use(COUNT, REF, true))
  {
    SharedNodes();
    CountIsNoText();
    hide OLD_DOC, NEW_DOC;
  }

  lemma TextToTextIsCompatible()
    ensures exists R :: PostFixed(OLD_DOC, NEW_DOC, R) && Covered(OLD_DOC, NEW_DOC, R, Use(TEXT, REF, true))
  {
    SharedNodes();
    FlatOk(TEXT.fields, TEXT.fields, true);
    LeafPasses(OLD_DOC, NEW_DOC, Use(TEXT, REF, true));
  }

  /** Two schemas written in place that become the same reference share a key, though only the first
  change is compatible. */
  lemma SharedKeyHidesChange()
    ensures SharesKey(OLD_DOC, NEW_DOC, "POST /", Use(TEXT, REF, true), Use(COUNT, REF, true))
    ensures forall R :: PostFixed(OLD_DOC, NEW_DOC, R) ==> !Covered(OLD_DOC, NEW_DOC, R, Use(COUNT, REF, true))
  {
    RefResolves();
    TextToTextIsCompatible();
    FieldInside(Obj(OLD_DOC), "p");
    FieldInside(Obj(OLD_DOC), "q");
    FieldInside(Obj(NEW_DOC), "r");
    forall R | PostFixed(OLD_DOC, NEW_DOC, R) ensures !Covered(OLD_DOC, NEW_DOC, R, Use(COUNT, REF, true)) {
      CountToTextIsIncompatible(R);
    }
  }

  /** Two uses of one operation with the same key, the first of them compatible. */
  ghost predicate SharesKey(bd: Fields, ad: Fields, operation: string, u: Use, w: Use) {
    && Known(bd, u.x) && Known(ad, u.y) && Known(bd, w.x) && Known(ad, w.y)
    && Keyed(bd, ad, u) && Keyed(bd, ad, w)
    && KeyOf(bd, ad, Visit(operation, u)) == KeyOf(bd, ad, Visit(operation, w))
    && exists R :: PostFixed(bd, ad, R) && Covered(bd, ad, R, u)
  }

  ghost predicate Any(u: Use) {
    true
  }

  /** Whatever the second change is, it is never looked at. */
  method SecondUseIsSkipped(bd: Fields, ad: Fields, operation: string, u: Use, w: Use) returns (violations: seq<Violation>)
    requires SharesKey(bd, ad, operation, u, w)
    ensures violations == []
  {
    hide PostFixed, SubValues, Covered, Keyed, KeyOf, Known, Verdict;
    var c := new Comparator(bd, ad, iset z | Any(z));
    c.CompareSchema(operation, "first", u.x, u.y, u.request);
    Silent(bd, ad, c.D, c.Now(), u);
    c.CompareSchema(operation, "second", w.x, w.y, w.request);
    violations := c.violations;
  }

  lemma Silent(bd: Fields, ad: Fields, D: iset<Use>, t: Progress, u: Use)
    requires Verdict(bd, ad, D, Progress([], iset{}), t, Goal(true, {u}))
    requires exists R :: PostFixed(bd, ad, R) && Covered(bd, ad, R, u)
    ensures t.violations == []
  {
    var R :| PostFixed(bd, ad, R) && Covered(bd, ad, R, u);
    assert Meets(bd, ad, R, Goal(true, {u}));
  }

  // ----- new demands on a request

  /** A document with one operation, GET on the root, and requirements for all operations. */
  function OneOperation(op: Fields, security: Json): Fields {
    map["paths" := Obj(map["/" := Obj(map["get" := Obj(op)])]), "security" := security]
  }

  lemma InlineResolves(doc: Fields, f: Fields)
    requires RefOf(f) == ""
    ensures Resolve(doc, Obj(f)).fields == f
  {
    ResolveStops(doc, f, []);
  }

  lemma OneOperationServes(op: Fields, security: Json)
    requires RefOf(op) == ""
    ensures var doc := OneOperation(op, security);
            && Serves(doc, "/", "get") && Operation(doc, "/", "get") == op
            && Resolve(doc, Paths(doc)["/"]).fields == map["get" := Obj(op)] && Paths(doc).Keys == {"/"}
  {
    var doc := OneOperation(op, security);
    InlineResolves(doc, map["get" := Obj(op)]);
    InlineResolves(doc, op);
    assert METHODS[1] == "get";
  }

  /** The operation declares nothing, apart from security requirements. */
  predicate Bare(op: Fields) {
    op.Keys <= {"security"}
  }

  lemma BareParts(bd: Fields, ad: Fields, y: Json)
    ensures ParametersGoal(bd, ad, Null, y) == NOTHING && ResponsesGoal(bd, ad, Null, y) == NOTHING
  {
    GoalAllNone(ParameterFamily(bd, ad, AfterParameters(ad, ItemsOf(y))));
    GoalAllNone(ResponseFamily(bd, ad, FieldsOf(Null), FieldsOf(y)));
    assert Elements(ItemsOf(Null)) == {} && FieldsOf(Null).Keys == {};
  }

  lemma BareOperation(bd: Fields, ad: Fields, b: Fields, a: Fields)
    requires Bare(b) && RefOf(a) == ""
    ensures RefOf(b) == "" && OperationGoal(bd, ad, Obj(b), Obj(a)) == Check(!SecurityRequired(b, a))
  {
    assert RefOf(b) == "" && Field(b, "parameters") == Field(b, "requestBody") == Field(b, "responses") == Null;
    InlineResolves(bd, b);
    InlineResolves(ad, a);
    BareParts(bd, ad, Field(a, "parameters"));
    BareParts(bd, ad, Field(a, "responses"));
  }

  lemma OneGoal<T>(items: set<T>, x: T, f: T -> Goal)
    requires x in items && forall y :: y in items && y != x ==> f(y) == NOTHING
    ensures GoalAll(items, f) == f(x)
  {
  }

  lemma BarePath(b: Fields, a: Fields, bd: Fields, ad: Fields)
    requires Bare(b) && RefOf(b) == "" && RefOf(a) == ""
    requires Paths(bd).Keys == Paths(ad).Keys == {"/"}
    requires Resolve(bd, Paths(bd)["/"]).fields == map["get" := Obj(b)] && Resolve(ad, Paths(ad)["/"]).fields == map["get" := Obj(a)]
    ensures DocumentGoal(bd, ad) == Check(!SecurityRequired(b, a))
  {
    BareOperation(bd, ad, b, a);
    var f := MethodFamily(bd, ad, map["get" := Obj(b)], map["get" := Obj(a)]);
    forall m | m in Elements(METHODS) ensures m != "get" ==> f(m) == NOTHING {
      assert f(m) == MethodGoal(bd, ad, map["get" := Obj(b)], map["get" := Obj(a)], m);
    }
    assert METHODS[1] == "get" && f("get") == MethodGoal(bd, ad, map["get" := Obj(b)], map["get" := Obj(a)], "get");
    OneGoal(Elements(METHODS), "get", f);
    assert PathFamily(bd, ad)("/") == PathGoal(bd, ad, "/");
    OneGoal(Paths(bd).Keys, "/", PathFamily(bd, ad));
  }

  /** An operation that declares nothing may become any other, except that one without requirements of its own
  may not get some; and whatever the document requires of all is not looked at. */
  lemma BareOperationIff(b: Fields, a: Fields, before: Json, after: Json)
    requires Bare(b) && RefOf(a) == ""
    ensures Compatible(OneOperation(b, before), OneOperation(a, after)) <==>
            ("security" !in b || b["security"] == Arr([]) ==> "security" !in a || a["security"] == Arr([]))
  {
    var bd, ad := OneOperation(b, before), OneOperation(a, after);
    BareOperation(bd, ad, b, a);
    OneOperationServes(b, before);
    OneOperationServes(a, after);
    hide OneOperation;
    BarePath(b, a, bd, ad);
    assert PostFixed(bd, ad, iset{});
    CheckMeets(bd, ad, !SecurityRequired(b, a));
  }

  lemma CheckMeets(bd: Fields, ad: Fields, ok: bool)
    ensures forall R :: Meets(bd, ad, R, Check(ok)) <==> ok
  {
  }

  /** Nothing at all, not even credentials. */
  const EMPTY := Request(map[], None, false)

  /** The change is compatible, and the new operation refuses a request that the old one accepts. */
  ghost predicate Refused(b: Fields, a: Fields, after: Json) {
    var bd, ad := OneOperation(b, Arr([])), OneOperation(a, after);
    && Compatible(bd, ad)
    && Serves(bd, "/", "get") && Takes(SILENT, bd, Operation(bd, "/", "get"), EMPTY)
    && Serves(ad, "/", "get") && !Takes(SILENT, ad, Operation(ad, "/", "get"), EMPTY)
  }

  lemma NothingIsTaken(b: Fields)
    requires Bare(b) && ("security" in b ==> !Guards(b["security"]))
    ensures Takes(SILENT, OneOperation(b, Arr([])), b, EMPTY)
  {
  }

  lemma DemandIsMissed(b: Fields, a: Fields, after: Json)
    requires Bare(b) && ("security" in b ==> !Guards(b["security"])) && RefOf(a) == ""
    requires "security" !in b || b["security"] == Arr([]) ==> "security" !in a || a["security"] == Arr([])
    requires !Takes(SILENT, OneOperation(a, after), a, EMPTY)
    ensures Refused(b, a, after)
  {
    BareOperationIff(b, a, Arr([]), after);
    OneOperationServes(b, Arr([]));
    OneOperationServes(a, after);
    NothingIsTaken(b);
    hide OneOperation, EMPTY;
  }

  const QUERY: Fields := map["name" := Str("q"), "in" := Str("query"), "required" := Bool(true)]

  /** A required query parameter added to an operation without parameters. */
  lemma RequiredParameterAddedIsMissed()
    ensures Refused(map[], map["parameters" := Arr([Obj(QUERY)])], Arr([]))
  {
    var op := map["parameters" := Arr([Obj(QUERY)])];
    var doc := OneOperation(op, Arr([]));
    InlineResolves(doc, QUERY);
    hide OneOperation;
    assert [Obj(QUERY)][..0] == [];
    var k := ParameterKey(QUERY);
    assert AfterParameters(doc, [Obj(QUERY)]) == map[][k := Obj(QUERY)];
    assert k in Parameters(doc, op) && RequiredIn(doc, Parameters(doc, op)[k]);
    DemandIsMissed(map[], op, Arr([]));
  }

  /** A required body added to an operation without one. */
  lemma RequiredBodyAddedIsMissed()
    ensures Refused(map[], map["requestBody" := Obj(map["required" := Bool(true)])], Arr([]))
  {
    var op := map["requestBody" := Obj(map["required" := Bool(true)])];
    var doc := OneOperation(op, Arr([]));
    InlineResolves(doc, map["required" := Bool(true)]);
    hide OneOperation;
    assert RequiredIn(doc, Field(op, "requestBody"));
    DemandIsMissed(map[], op, Arr([]));
  }

  const BEARER: Json := Obj(map["bearer" := Arr([])])

  lemma BearerGuards()
    ensures Guards(Arr([BEARER])) && !Guards(Arr([BEARER, Obj(map[])]))
  {
    assert [BEARER, Obj(map[])][1] == Obj(map[]) && "bearer" in BEARER.fields;
  }

  /** Requirements added for all operations of the document. */
  lemma DocumentSecurityAddedIsMissed()
    ensures Refused(map[], map[], Arr([BEARER]))
  {
    BearerGuards();
    DemandIsMissed(map[], map[], Arr([BEARER]));
  }

  /** Optional credentials that become mandatory. */
  lemma SecurityTightenedIsMissed()
    ensures Refused(map["security" := Arr([BEARER, Obj(map[])])], map["security" := Arr([BEARER])], Arr([]))
  {
    BearerGuards();
    var b, a := map["security" := Arr([BEARER, Obj(map[])])], map["security" := Arr([BEARER])];
    assert Arr([BEARER, Obj(map[])]).items[0] == BEARER;
    DemandIsMissed(b, a, Arr([]));
  }
}
