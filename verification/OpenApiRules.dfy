/** The comparator's rules for one pair of schema objects, and the graph it walks: a node is a pair
of resolved schema objects, its children are the common properties and the item schemas. */
module OpenApiRules {
  import opened Json
  import opened OpenApiResolve

  /** The strings of a JSON array (`stringSet`). */
  function Strings(value: Json): set<string> {
    set x | x in ItemsOf(value) && x.Str? :: x.s
  }

  // ----- schemaTypes

  predicate HasNullVariant(value: Json) {
    exists x :: x in ItemsOf(value) && x.Obj? && Field(x.fields, "type") == Str("null")
  }

  function DeclaredTypes(s: Fields): set<string> {
    var named := match Field(s, "type") case Str(name) => {name} case value => Strings(value);
    if IsTrue(Field(s, "nullable")) || HasNullVariant(Field(s, "anyOf")) || HasNullVariant(Field(s, "oneOf"))
    then named + {"null"} else named
  }

  function TypeNames(s: Fields): set<string> {
    DeclaredTypes(s) - {"null"}
  }

  predicate Nullable(s: Fields) {
    "null" in DeclaredTypes(s)
  }

  method StringSet(value: Json) returns (names: set<string>)
    ensures names == Strings(value)
  {
    names := {};
    var items := ItemsOf(value);
    for i := 0 to |items|
      invariant names == set x | x in items[..i] && x.Str? :: x.s
    {
      assert items[..i + 1] == items[..i] + [items[i]];
      if items[i].Str? {
        names := names + {items[i].s};
      }
    }
    assert items[..|items|] == items;
  }

  method SchemaTypes(s: Fields) returns (names: set<string>, nullable: bool)
    ensures names == TypeNames(s) && nullable == Nullable(s)
  {
    var types := {};
    var declared := Field(s, "type");
    if declared.Str? {
      types := {declared.s};
    } else {
      types := StringSet(declared);
    }
    if IsTrue(Field(s, "nullable")) {
      types := types + {"null"};
    }
    ghost var named := types;
    var keywords := ["anyOf", "oneOf"];
    for k := 0 to 2
      invariant types == named + if exists j :: 0 <= j < k && HasNullVariant(Field(s, keywords[j])) then {"null"} else {}
    {
      var variants := ItemsOf(Field(s, keywords[k]));
      ghost var before := types;
      for i := 0 to |variants|
        invariant types == before + if HasNullVariant(Arr(variants[..i])) then {"null"} else {}
      {
        assert variants[..i + 1] == variants[..i] + [variants[i]];
        var variant := variants[i];
        if variant.Obj? && Field(variant.fields, "type") == Str("null") {
          assert variant in ItemsOf(Arr(variants[..i + 1]));
          types := types + {"null"};
        } else {
          assert HasNullVariant(Arr(variants[..i + 1])) ==> HasNullVariant(Arr(variants[..i]));
          assert forall x :: x in variants[..i] ==> x in variants[..i + 1];
        }
      }
      assert variants[..|variants|] == variants;
    }
    assert HasNullVariant(Field(s, keywords[0])) == HasNullVariant(Field(s, "anyOf"));
    assert HasNullVariant(Field(s, keywords[1])) == HasNullVariant(Field(s, "oneOf"));
    names := types - {"null"};
    nullable := "null" in types;
  }

  /** A variant of the schema that is null alone, item i of the list under the keyword. */
  predicate NullAt(s: Fields, keyword: string, i: nat) {
    i < |ItemsOf(Field(s, keyword))| && var x := ItemsOf(Field(s, keyword))[i];
    x.Obj? && "type" in x.fields && x.fields["type"] == Str("null")
  }

  /** The types a schema declares, from its own fields: those of "type", a string or a list of them, and null as
  well if it is marked as nullable or has a variant that is null. */
  lemma TypesAre(s: Fields, name: string)
    ensures name in DeclaredTypes(s) <==>
            || Field(s, "type") == Str(name) || Str(name) in ItemsOf(Field(s, "type"))
            || (name == "null" && Field(s, "nullable") == Bool(true))
            || (name == "null" && exists i :: NullAt(s, "anyOf", i) || NullAt(s, "oneOf", i))
    ensures name in TypeNames(s) <==> name != "null" && (Field(s, "type") == Str(name) || Str(name) in ItemsOf(Field(s, "type")))
  {
    VariantsAre(s, "anyOf");
    VariantsAre(s, "oneOf");
    hide HasNullVariant, NullAt;
  }

  lemma VariantsAre(s: Fields, keyword: string)
    ensures HasNullVariant(Field(s, keyword)) <==> exists i :: NullAt(s, keyword, i)
  {
    var items := ItemsOf(Field(s, keyword));
    if HasNullVariant(Field(s, keyword)) {
      var x :| x in items && x.Obj? && Field(x.fields, "type") == Str("null");
      var i :| 0 <= i < |items| && items[i] == x;
      assert NullAt(s, keyword, i);
    }
    if i: nat :| NullAt(s, keyword, i) {
      assert items[i] in items;
    }
  }

  // ----- the keywords compared

  const MIN_BOUNDS := ["minimum", "exclusiveMinimum", "minLength", "minItems", "minProperties"]
  const MAX_BOUNDS := ["maximum", "exclusiveMaximum", "maxLength", "maxItems", "maxProperties"]

  predicate HasEnum(s: Fields) {
    Field(s, "enum").Arr?
  }

  /** The enum as a set of values: `json.Marshal` in `enumSet` is taken to be injective. */
  function EnumOf(s: Fields): set<Json> {
    set x | x in ItemsOf(Field(s, "enum"))
  }

  predicate Extensible(s: Fields) {
    IsTrue(Field(s, "x-liteaig-extensible-enum"))
  }

  function Props(s: Fields): Fields {
    FieldsOf(Field(s, "properties"))
  }

  function Required(s: Fields): set<string> {
    Strings(Field(s, "required"))
  }

  /** The required names and the enum, from the schema's own fields. */
  lemma ListsAre(s: Fields, name: string, v: Json)
    ensures name in Required(s) <==> Str(name) in ItemsOf(Field(s, "required"))
    ensures v in EnumOf(s) <==> "enum" in s && s["enum"].Arr? && v in s["enum"].items
  {
    assert "enum" !in s ==> ItemsOf(Field(s, "enum")) == [];
  }

  // ----- the rules, one predicate each

  predicate TypeChanged(b: Fields, a: Fields, request: bool) {
    || (TypeNames(b) != {} && TypeNames(a) != {} && TypeNames(b) != TypeNames(a))
    || (request && TypeNames(b) == {} && TypeNames(a) != {})
    || (!request && TypeNames(b) != {} && TypeNames(a) == {})
  }

  predicate NullabilityChanged(b: Fields, a: Fields, request: bool) {
    if request then Nullable(b) && !Nullable(a) else !Nullable(b) && Nullable(a)
  }

  predicate EnumChanged(b: Fields, a: Fields, request: bool) {
    && HasEnum(b)
    && (request || !Extensible(b))
    && (EnumOf(b) - EnumOf(a) != {} || (!request && HasEnum(a) && EnumOf(a) - EnumOf(b) != {}))
  }

  predicate MinTightened(b: Fields, a: Fields, key: string) {
    Field(a, key).Num? && (!Field(b, key).Num? || Field(a, key).n > Field(b, key).n)
  }

  predicate MaxTightened(b: Fields, a: Fields, key: string) {
    Field(a, key).Num? && (!Field(b, key).Num? || Field(a, key).n < Field(b, key).n)
  }

  predicate BoundTightened(b: Fields, a: Fields) {
    || (exists key :: key in MIN_BOUNDS && MinTightened(b, a, key))
    || (exists key :: key in MAX_BOUNDS && MaxTightened(b, a, key))
  }

  predicate RequiredChanged(b: Fields, a: Fields, request: bool) {
    if request then Required(a) - Required(b) != {} else Required(b) - Required(a) != {}
  }

  predicate PropertyRemoved(b: Fields, a: Fields) {
    Props(b).Keys - Props(a).Keys != {}
  }

  predicate ItemsRemoved(b: Fields, a: Fields) {
    "items" in b && "items" !in a
  }

  function TypeRule(request: bool): string {
    if request then "openapi-request-type-changed" else "openapi-response-type-changed"
  }
  function NullRule(request: bool): string {
    if request then "openapi-request-nullability-narrowed" else "openapi-response-nullability-widened"
  }
  function EnumRule(request: bool): string {
    if request then "openapi-request-enum-changed" else "openapi-response-enum-changed"
  }
  const BOUND_RULE := "openapi-request-bound-tightened"
  function RequiredRule(request: bool): string {
    if request then "openapi-request-property-required" else "openapi-response-property-optional"
  }
  function PropertyRule(request: bool): string {
    if request then "openapi-request-property-removed" else "openapi-response-property-removed"
  }
  function ItemsRule(request: bool): string {
    if request then "openapi-request-array-items-removed" else "openapi-response-array-items-removed"
  }
  function MediaRule(request: bool): string {
    if request then "openapi-request-media-type-removed" else "openapi-response-media-type-removed"
  }
  function SchemaRule(request: bool): string {
    if request then "openapi-request-schema-removed" else "openapi-response-schema-removed"
  }

  // ----- the graph of schema pairs

  /** One use of a schema: the value before, the value after, and the direction. */
  datatype Use = Use(x: Json, y: Json, request: bool)

  /** A pair of resolved schema objects. */
  datatype Node = Node(b: Fields, a: Fields, request: bool)

  /** Keywords of a schema object that constrain no value. */
  const ANNOTATIONS: set<string> := {
    "$comment", "default", "deprecated", "description", "example", "examples", "externalDocs", "summary", "title"
  }

  /** A schema object without its annotations. */
  function Core(f: Fields): Fields {
    f - ANNOTATIONS
  }

  /** The schema object a value resolves to, annotations aside. */
  function SchemaOf(doc: Fields, x: Json): Fields {
    Core(Resolve(doc, x).fields)
  }

  function CoreOf(n: Node): Node {
    Node(Core(n.b), Core(n.a), n.request)
  }

  function NodeOf(bd: Fields, ad: Fields, u: Use): Node {
    Node(SchemaOf(bd, u.x), SchemaOf(ad, u.y), u.request)
  }

  predicate KeywordsOk(n: Node) {
    && !TypeChanged(n.b, n.a, n.request)
    && !NullabilityChanged(n.b, n.a, n.request)
    && !EnumChanged(n.b, n.a, n.request)
    && !(n.request && BoundTightened(n.b, n.a))
    && !RequiredChanged(n.b, n.a, n.request)
  }

  /** The pair breaks no rule by itself, children aside. */
  predicate LocalOk(n: Node) {
    KeywordsOk(n) && !PropertyRemoved(n.b, n.a) && !ItemsRemoved(n.b, n.a)
  }

  function PropertyUses(n: Node): set<Use> {
    set name | name in Props(n.b) && name in Props(n.a) :: Use(Props(n.b)[name], Props(n.a)[name], n.request)
  }

  function ItemUses(n: Node): set<Use> {
    if "items" in n.b && "items" in n.a then {Use(n.b["items"], n.a["items"], n.request)} else {}
  }

  function ChildUses(n: Node): set<Use> {
    PropertyUses(n) + ItemUses(n)
  }

  lemma CoreField(f: Fields, key: string)
    requires key !in ANNOTATIONS
    ensures Field(Core(f), key) == Field(f, key) && (key in Core(f) <==> key in f)
  {
  }

  lemma CoreBounds(b: Fields, a: Fields)
    ensures BoundTightened(Core(b), Core(a)) == BoundTightened(b, a)
  {
    forall key | key in MIN_BOUNDS || key in MAX_BOUNDS
      ensures Field(Core(b), key) == Field(b, key) && Field(Core(a), key) == Field(a, key)
    {
      CoreField(b, key);
      CoreField(a, key);
    }
  }

  lemma CoreKeywords(f: Fields)
    ensures DeclaredTypes(Core(f)) == DeclaredTypes(f) && HasEnum(Core(f)) == HasEnum(f) && EnumOf(Core(f)) == EnumOf(f)
    ensures Extensible(Core(f)) == Extensible(f) && Required(Core(f)) == Required(f) && Props(Core(f)) == Props(f)
    ensures ("items" in Core(f) <==> "items" in f) && ("items" in f ==> Core(f)["items"] == f["items"])
  {
    CoreField(f, "type");
    CoreField(f, "nullable");
    CoreField(f, "anyOf");
    CoreField(f, "oneOf");
    CoreField(f, "enum");
    CoreField(f, "x-liteaig-extensible-enum");
    CoreField(f, "required");
    CoreField(f, "properties");
    CoreField(f, "items");
    hide Core;
  }

  /** No rule reads an annotation. */
  lemma CoreKeeps(n: Node)
    ensures LocalOk(CoreOf(n)) == LocalOk(n) && ChildUses(CoreOf(n)) == ChildUses(n)
  {
    CoreKeywords(n.b);
    CoreKeywords(n.a);
    CoreBounds(n.b, n.a);
    hide Core, DeclaredTypes, HasEnum, EnumOf, Extensible, Required, Props, BoundTightened;
  }

  /** A use is covered by R: the schema is not removed, and when both sides are objects the pair
  they resolve to is in R. */
  ghost predicate Covered(bd: Fields, ad: Fields, R: iset<Node>, u: Use) {
    && !(u.x != Null && u.y == Null)
    && (u.x.Obj? && u.y.Obj? ==> NodeOf(bd, ad, u) in R)
  }

  ghost predicate AllCovered(bd: Fields, ad: Fields, R: iset<Node>, uses: set<Use>) {
    forall u :: u in uses ==> Covered(bd, ad, R, u)
  }

  /** R is a compatibility relation: a set of pairs that break no rule and whose children stay in it.
  Compatibility is the largest such set, so recursive schemas need no unfolding. */
  ghost predicate PostFixed(bd: Fields, ad: Fields, R: iset<Node>) {
    forall n :: n in R ==> LocalOk(n) && AllCovered(bd, ad, R, ChildUses(n))
  }

  // ----- the keys under which the comparator remembers pairs

  /** D holds every use a comparison that starts in it can meet. */
  ghost predicate Closed(bd: Fields, ad: Fields, D: iset<Use>) {
    forall u :: u in D && u.x.Obj? && u.y.Obj? ==> AllIn(D, ChildUses(NodeOf(bd, ad, u)))
  }

  ghost predicate AllIn(D: iset<Use>, uses: set<Use>) {
    forall u :: u in uses ==> u in D
  }

  function Key(operation: string, request: bool, bid: string, aid: string): string {
    operation + "|" + (if request then "true" else "false") + "|" + bid + "|" + aid
  }

  datatype Visit = Visit(operation: string, use: Use)

  function KeyOf(bd: Fields, ad: Fields, v: Visit): string {
    Key(v.operation, v.use.request, Resolve(bd, v.use.x).id, Resolve(ad, v.use.y).id)
  }

  predicate Keyed(bd: Fields, ad: Fields, u: Use) {
    u.x.Obj? && u.y.Obj? && (Resolve(bd, u.x).id != "" || Resolve(ad, u.y).id != "")
  }

  /** No two uses in D that resolve to different pairs share a key, so a pair cut off as seen was
  really compared. */
  ghost predicate Faithful(bd: Fields, ad: Fields, D: iset<Use>) {
    forall v: Visit, w: Visit |
      && v.use in D && Keyed(bd, ad, v.use)
      && w.use in D && Keyed(bd, ad, w.use)
      && KeyOf(bd, ad, v) == KeyOf(bd, ad, w)
      :: NodeOf(bd, ad, v.use) == NodeOf(bd, ad, w.use)
  }

  /** Every key one operation can produce: finite because documents are. */
  function KeyUniverse(bd: Fields, ad: Fields, operation: string, request: bool): set<string> {
    set x, y | x in SubValues(Obj(bd)) && y in SubValues(Obj(ad)) :: KeyOf(bd, ad, Visit(operation, Use(x, y, request)))
  }

  /** A schema compared with itself breaks no rule. */
  lemma SameSchemaIsOk(s: Fields, request: bool)
    ensures LocalOk(Node(s, s, request))
  {
    assert EnumOf(s) - EnumOf(s) == {} && Required(s) - Required(s) == {};
    assert Props(s).Keys - Props(s).Keys == {};
  }
}
