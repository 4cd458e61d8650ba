/** What the comparator's silence is worth. For a compatible change, a value that an old request schema
accepts is accepted by the new one exactly when it meets what is new in it, and a value that a new
response schema allows was allowed by the old one exactly when it meets what the comparator lets go,
through any recursive schema. */
module OpenApiSoundness {
  import opened Json
  import opened JsonPointer
  import opened OpenApiResolve
  import opened OpenApiRules
  import opened OpenApiCompare
  import opened OpenApiMeaning
  import opened OpenApiDocument

  // ----- documents that can be read

  ghost predicate Denoting(doc: Fields, x: Json) {
    x == Null || exists s :: Denotes(doc, x, s)
  }

  /** The references of both sides lead to schemas. */
  ghost predicate Readable(bd: Fields, ad: Fields, u: Use) {
    Denoting(bd, u.x) && Denoting(ad, u.y)
  }

  /** Reference for reference: a schema is written by reference on both sides or on neither. */
  ghost predicate Aligned(bd: Fields, ad: Fields, u: Use) {
    u.x.Obj? && u.y.Obj? ==> (Resolve(bd, u.x).id == "" <==> Resolve(ad, u.y).id == "")
  }

  ghost predicate AllReadable(bd: Fields, ad: Fields, D: iset<Use>) {
    forall u :: u in D ==> Readable(bd, ad, u)
  }

  ghost predicate AllAligned(bd: Fields, ad: Fields, D: iset<Use>) {
    forall u :: u in D ==> Aligned(bd, ad, u)
  }

  /** Every schema in use can be read. */
  ghost predicate Legible(bd: Fields, ad: Fields) {
    PlainRefs(bd) && PlainRefs(ad) && AllReadable(bd, ad, Reach(bd, ad))
  }

  /** Keys tell the pairs in use apart. */
  ghost predicate KeysTell(bd: Fields, ad: Fields) {
    PlainRefs(bd) && PlainRefs(ad) && AllAligned(bd, ad, Reach(bd, ad))
  }

  // ----- every schema in use is a value of its document

  ghost predicate KnownUse(bd: Fields, ad: Fields, u: Use) {
    Known(bd, u.x) && Known(ad, u.y)
  }

  ghost predicate AllKnownUses(bd: Fields, ad: Fields, uses: set<Use>) {
    forall u :: u in uses ==> KnownUse(bd, ad, u)
  }

  lemma FamilyKnown<T>(bd: Fields, ad: Fields, items: set<T>, f: T -> Goal)
    requires forall x :: x in items ==> AllKnownUses(bd, ad, f(x).uses)
    ensures AllKnownUses(bd, ad, GoalAll(items, f).uses)
  {
  }

  lemma ContentKnown(bd: Fields, ad: Fields, x: Json, y: Json, request: bool)
    requires Known(bd, x) && Known(ad, y)
    ensures AllKnownUses(bd, ad, ContentGoal(bd, ad, x, y, request).uses)
  {
    var before, after := FieldsOf(x), FieldsOf(y);
    var f := MediaFamily(bd, ad, before, after, request);
    forall m | m in before ensures AllKnownUses(bd, ad, f(m).uses) {
      MediaFamilyAt(bd, ad, before, after, request, m);
      FieldKnown(bd, x, m);
      FieldKnown(ad, y, m);
      FieldKnown(bd, Field(before, m), "schema");
      FieldKnown(ad, Field(after, m), "schema");
    }
    FamilyKnown(bd, ad, before.Keys, f);
  }

  lemma ParameterKnown(bd: Fields, ad: Fields, after: map<string, Json>, value: Json)
    requires Known(bd, value) && AllKnown(ad, after)
    ensures AllKnownUses(bd, ad, ParameterGoal(bd, ad, after, value).uses)
  {
    FieldKnown(bd, value, "schema");
    var key := ParameterKey(Resolve(bd, value).fields);
    if key in after {
      FieldKnown(ad, after[key], "schema");
    }
  }

  lemma ParametersKnown(bd: Fields, ad: Fields, x: Json, y: Json)
    requires Known(bd, x) && Known(ad, y)
    ensures AllKnownUses(bd, ad, ParametersGoal(bd, ad, x, y).uses)
  {
    var items, after := ItemsOf(x), AfterParameters(ad, ItemsOf(y));
    AfterParametersKnown(ad, y, |ItemsOf(y)|);
    assert ItemsOf(y)[..|ItemsOf(y)|] == ItemsOf(y);
    var f := ParameterFamily(bd, ad, after);
    forall value | value in Elements(items) ensures AllKnownUses(bd, ad, f(value).uses) {
      var i :| 0 <= i < |items| && items[i] == value;
      ItemKnown(bd, x, i);
      ParameterKnown(bd, ad, after, value);
      assert f(value) == ParameterGoal(bd, ad, after, value);
    }
    FamilyKnown(bd, ad, Elements(items), f);
  }

  lemma BodyKnown(bd: Fields, ad: Fields, x: Json, y: Json)
    requires Known(bd, x) && Known(ad, y)
    ensures AllKnownUses(bd, ad, BodyGoal(bd, ad, x, y).uses)
  {
    FieldKnown(bd, x, "content");
    FieldKnown(ad, y, "content");
    ContentKnown(bd, ad, Field(Resolve(bd, x).fields, "content"), Field(Resolve(ad, y).fields, "content"), true);
  }

  lemma ResponsesKnown(bd: Fields, ad: Fields, x: Json, y: Json)
    requires Known(bd, x) && Known(ad, y)
    ensures AllKnownUses(bd, ad, ResponsesGoal(bd, ad, x, y).uses)
  {
    var before, after := FieldsOf(x), FieldsOf(y);
    var f := ResponseFamily(bd, ad, before, after);
    forall status | status in before ensures AllKnownUses(bd, ad, f(status).uses) {
      assert f(status) == ResponseGoal(bd, ad, before, after, status);
      FieldKnown(bd, x, status);
      FieldKnown(ad, y, status);
      FieldKnown(bd, Field(before, status), "content");
      FieldKnown(ad, Field(after, status), "content");
      ContentKnown(bd, ad, Field(Resolve(bd, Field(before, status)).fields, "content"),
                   Field(Resolve(ad, Field(after, status)).fields, "content"), false);
    }
    FamilyKnown(bd, ad, before.Keys, f);
  }

  lemma OperationKnown(bd: Fields, ad: Fields, x: Json, y: Json)
    requires Known(bd, x) && Known(ad, y)
    ensures AllKnownUses(bd, ad, OperationGoal(bd, ad, x, y).uses)
  {
    forall key ensures Known(bd, Field(Resolve(bd, x).fields, key)) && Known(ad, Field(Resolve(ad, y).fields, key)) {
      FieldKnown(bd, x, key);
      FieldKnown(ad, y, key);
    }
    var b, a := Resolve(bd, x).fields, Resolve(ad, y).fields;
    ParametersKnown(bd, ad, Field(b, "parameters"), Field(a, "parameters"));
    BodyKnown(bd, ad, Field(b, "requestBody"), Field(a, "requestBody"));
    ResponsesKnown(bd, ad, Field(b, "responses"), Field(a, "responses"));
  }

  lemma PathUsesKnown(bd: Fields, ad: Fields, path: string)
    requires path in Paths(bd)
    ensures AllKnownUses(bd, ad, PathGoal(bd, ad, path).uses)
  {
    if path in Paths(ad) {
      PathKnown(bd, path);
      PathKnown(ad, path);
      var before, after := Resolve(bd, Paths(bd)[path]).fields, Resolve(ad, Paths(ad)[path]).fields;
      var f := MethodFamily(bd, ad, before, after);
      forall m | m in Elements(METHODS) ensures AllKnownUses(bd, ad, f(m).uses) {
        assert f(m) == MethodGoal(bd, ad, before, after, m);
        if m in before && m in after {
          FieldKnown(bd, Paths(bd)[path], m);
          FieldKnown(ad, Paths(ad)[path], m);
          OperationKnown(bd, ad, before[m], after[m]);
        }
      }
      FamilyKnown(bd, ad, Elements(METHODS), f);
    }
  }

  lemma ChildrenKnown(bd: Fields, ad: Fields, u: Use)
    requires KnownUse(bd, ad, u)
    ensures AllKnownUses(bd, ad, ChildUses(NodeOf(bd, ad, u)))
  {
    ResolveInside(bd, u.x);
    ResolveInside(ad, u.y);
    var n := NodeOf(bd, ad, u);
    assert FieldsInside(bd, n.b) && FieldsInside(ad, n.a);
    hide NodeOf;
    forall c | c in ChildUses(n) ensures KnownUse(bd, ad, c) {
      if c in PropertyUses(n) {
        var name :| name in Props(n.b) && name in Props(n.a) && c == Use(Props(n.b)[name], Props(n.a)[name], n.request);
        PropertyKnown(bd, n.b, name);
        PropertyKnown(ad, n.a, name);
      }
    }
  }

  lemma ReachIsKnown(bd: Fields, ad: Fields, u: Use)
    requires u in Reach(bd, ad)
    ensures KnownUse(bd, ad, u)
  {
    var E := iset w | KnownUse(bd, ad, w);
    forall w, c | w in E && c in ChildUses(NodeOf(bd, ad, w)) ensures c in E {
      ChildrenKnown(bd, ad, w);
    }
    var f := PathFamily(bd, ad);
    forall path | path in Paths(bd) ensures AllKnownUses(bd, ad, f(path).uses) {
      assert f(path) == PathGoal(bd, ad, path);
      PathUsesKnown(bd, ad, path);
    }
    FamilyKnown(bd, ad, Paths(bd).Keys, f);
    assert Closed(bd, ad, E) && AllIn(E, DocumentGoal(bd, ad).uses);
  }

  // ----- one schema object

  predicate NullOnly(s: Fields) {
    DeclaredTypes(s) == {"null"}
  }

  lemma OnlyNull(s: Fields)
    ensures DeclaredTypes(s) != {} && TypeNames(s) == {} ==> NullOnly(s)
    ensures NullOnly(s) ==> TypeNames(s) == {} && "null" in DeclaredTypes(s)
  {
    assert forall other :: other in DeclaredTypes(s) ==> other == "null" || other in TypeNames(s);
  }

  /** A value of a declared type keeps its type where the comparator sees no change, unless null is all that is left. */
  lemma TypeKeptIff(p: Fields, q: Fields, v: Json)
    requires TypeNames(p) != {} && TypeNames(q) != {} ==> TypeNames(p) == TypeNames(q)
    requires TypeNames(p) == {} ==> TypeNames(q) == {}
    requires Nullable(p) ==> Nullable(q)
    requires TypeOk(p, v)
    ensures TypeOk(q, v) <==> (NullOnly(q) ==> v == Null)
  {
    OnlyNull(p);
    OnlyNull(q);
    if DeclaredTypes(q) == {} || NullOnly(q) {
      assert IsType("null", v) <==> v == Null;
    } else {
      assert TypeNames(q) != {} && DeclaredTypes(p) != {};
      var name :| name in DeclaredTypes(p) && IsType(name, v);
      if name == "null" {
        assert name in DeclaredTypes(q);
      } else {
        assert name in TypeNames(p);
        assert name in TypeNames(q);
      }
    }
  }

  lemma BoundsKept(b: Fields, a: Fields, v: Json)
    requires !BoundTightened(b, a) && BoundsOk(b, v)
    ensures BoundsOk(a, v)
  {
    forall key | key in MIN_BOUNDS ensures MinOk(a, key, v) {
      assert !MinTightened(b, a, key) && MinOk(b, key, v);
    }
    forall key | key in MAX_BOUNDS ensures MaxOk(a, key, v) {
      assert !MaxTightened(b, a, key) && MaxOk(b, key, v);
    }
  }

  /** What a new request schema demands of a value by keywords the comparator lets pass. */
  predicate NewKeywords(b: Fields, a: Fields, v: Json) {
    (HasEnum(a) && !HasEnum(b) ==> v in EnumOf(a)) && (NullOnly(a) ==> v == Null)
  }

  lemma RequestShallowIff(n: Node, v: Json)
    requires n.request && LocalOk(n) && Shallow(n.b, v)
    ensures Shallow(n.a, v) <==> NewKeywords(n.b, n.a, v)
  {
    TypeKeptIff(n.b, n.a, v);
    BoundsKept(n.b, n.a, v);
    assert forall name :: name in Required(n.a) ==> name !in Required(n.a) - Required(n.b);
    assert HasEnum(n.b) ==> v !in EnumOf(n.b) - EnumOf(n.a);
  }

  /** What an old response schema demands of a value by keywords the comparator lets go. */
  predicate OldKeywords(b: Fields, a: Fields, v: Json) {
    && BoundsOk(b, v) && (NullOnly(b) ==> v == Null)
    && (HasEnum(b) && (Extensible(b) || !HasEnum(a)) ==> v in EnumOf(b))
  }

  lemma ResponseEnum(n: Node, v: Json)
    requires !n.request && LocalOk(n) && EnumOk(n.a, v)
    ensures EnumOk(n.b, v) <==> (HasEnum(n.b) && (Extensible(n.b) || !HasEnum(n.a)) ==> v in EnumOf(n.b))
  {
    if HasEnum(n.b) && !Extensible(n.b) && HasEnum(n.a) {
      assert v !in EnumOf(n.a) - EnumOf(n.b);
    }
  }

  lemma ResponseType(n: Node, v: Json)
    requires !n.request && LocalOk(n) && TypeOk(n.a, v)
    ensures TypeOk(n.b, v) <==> (NullOnly(n.b) ==> v == Null)
  {
    OnlyNull(n.b);
    if DeclaredTypes(n.b) == {} || NullOnly(n.b) {
      assert IsType("null", v) <==> v == Null;
    } else {
      assert TypeNames(n.b) != {} && TypeNames(n.a) == TypeNames(n.b);
      TypeKeptIff(n.a, n.b, v);
    }
  }

  lemma ResponseShallowIff(n: Node, v: Json)
    requires !n.request && LocalOk(n) && Shallow(n.a, v)
    ensures Shallow(n.b, v) <==> OldKeywords(n.b, n.a, v)
  {
    ResponseType(n, v);
    ResponseEnum(n, v);
    assert forall name :: name in Required(n.b) ==> name !in Required(n.b) - Required(n.a);
  }

  // ----- whole values

  /** What the new schema demands of a value that the old one accepts: where there was an enum, an item
  schema, a property or a schema, only what its parts demand; where there was none, all of the new one. */
  ghost predicate NewOk(rest: Rest, bd: Fields, ad: Fields, x: Json, y: Json, v: Json)
    decreases v
  {
    if y == Null then true
    else if x == Null then Accepts(rest, ad, y, v)
    else
      var b, a := SchemaOf(bd, x), SchemaOf(ad, y);
      && NewKeywords(b, a, v) && rest(ad, a, v)
      && (v.Obj? ==> forall name :: name in Props(a) && name in v.fields ==>
            if name in Props(b) then NewOk(rest, bd, ad, Props(b)[name], Props(a)[name], v.fields[name])
            else Accepts(rest, ad, Props(a)[name], v.fields[name]))
      && (v.Arr? && "items" in a ==> forall i :: 0 <= i < |v.items| ==>
            if "items" in b then NewOk(rest, bd, ad, b["items"], a["items"], v.items[i])
            else Accepts(rest, ad, a["items"], v.items[i]))
  }

  /** What the old schema demanded of a value that the new one allows: its bounds, an enum it called
  extensible or that is gone, null where it allowed nothing else, and the same of the parts. */
  ghost predicate OldOk(rest: Rest, bd: Fields, ad: Fields, x: Json, y: Json, v: Json)
    decreases v
  {
    if x == Null then true
    else
      var b, a := SchemaOf(bd, x), SchemaOf(ad, y);
      && OldKeywords(b, a, v) && rest(bd, b, v)
      && (v.Obj? ==> forall name :: name in Props(b) && name in Props(a) && name in v.fields ==>
            OldOk(rest, bd, ad, Props(b)[name], Props(a)[name], v.fields[name]))
      && (v.Arr? && "items" in b && "items" in a ==> forall i :: 0 <= i < |v.items| ==>
            OldOk(rest, bd, ad, b["items"], a["items"], v.items[i]))
  }

  /** A compatibility relation R and a closed set D of uses that can be read. */
  ghost predicate Sound(bd: Fields, ad: Fields, R: iset<Node>, D: iset<Use>) {
    && PlainRefs(bd) && PlainRefs(ad) && PostFixed(bd, ad, R)
    && Closed(bd, ad, D) && AllReadable(bd, ad, D) && forall u :: u in D ==> KnownUse(bd, ad, u)
  }

  /** A readable value denotes what it resolves to, so its schema decides. */
  lemma AcceptsIs(rest: Rest, doc: Fields, x: Json, v: Json)
    requires PlainRefs(doc) && Known(doc, x) && Denoting(doc, x) && x != Null
    ensures x.Obj? && (Accepts(rest, doc, x, v) <==> Satisfies(rest, doc, SchemaOf(doc, x), v))
  {
    forall s | Denotes(doc, x, s) ensures s == SchemaOf(doc, x) {
      ResolveDenotes(doc, x, s);
    }
    var s :| Denotes(doc, x, s);
    ResolveDenotes(doc, x, s);
  }

  /** What is known of a covered pair of objects. */
  ghost predicate Ready(bd: Fields, ad: Fields, R: iset<Node>, D: iset<Use>, n: Node) {
    LocalOk(n) && AllCovered(bd, ad, R, ChildUses(n)) && AllIn(D, ChildUses(n))
  }

  /** What the induction step may use of a covered use. */
  lemma Unfold(rest: Rest, bd: Fields, ad: Fields, R: iset<Node>, D: iset<Use>, u: Use, v: Json) returns (n: Node)
    requires Sound(bd, ad, R, D) && u in D && Covered(bd, ad, R, u) && u.x != Null && u.y != Null
    ensures n == Node(SchemaOf(bd, u.x), SchemaOf(ad, u.y), u.request) && Ready(bd, ad, R, D, n)
    ensures Accepts(rest, bd, u.x, v) <==> Satisfies(rest, bd, n.b, v)
    ensures Accepts(rest, ad, u.y, v) <==> Satisfies(rest, ad, n.a, v)
  {
    assert Readable(bd, ad, u) && KnownUse(bd, ad, u);
    AcceptsIs(rest, bd, u.x, v);
    AcceptsIs(rest, ad, u.y, v);
    n := NodeOf(bd, ad, u);
    hide PlainRefs, Accepts, Satisfies;
  }

  lemma PropertyUse(bd: Fields, ad: Fields, R: iset<Node>, D: iset<Use>, n: Node, name: string)
    requires Ready(bd, ad, R, D, n) && name in Props(n.b) && name in Props(n.a)
    ensures Use(Props(n.b)[name], Props(n.a)[name], n.request) in D
    ensures Covered(bd, ad, R, Use(Props(n.b)[name], Props(n.a)[name], n.request))
  {
    assert Use(Props(n.b)[name], Props(n.a)[name], n.request) in PropertyUses(n);
  }

  lemma ItemUse(bd: Fields, ad: Fields, R: iset<Node>, D: iset<Use>, n: Node)
    requires Ready(bd, ad, R, D, n) && "items" in n.b && "items" in n.a
    ensures Use(n.b["items"], n.a["items"], n.request) in D
    ensures Covered(bd, ad, R, Use(n.b["items"], n.a["items"], n.request))
  {
  }

  /** A value that the old request schema accepts is accepted by the new one exactly when it meets what is
  new in it, through any recursive schema. */
  lemma {:induction false} RequestIff(rest: Rest, bd: Fields, ad: Fields, R: iset<Node>, D: iset<Use>, x: Json, y: Json, v: Json)
    requires Sound(bd, ad, R, D) && Use(x, y, true) in D && Covered(bd, ad, R, Use(x, y, true)) && Accepts(rest, bd, x, v)
    ensures Accepts(rest, ad, y, v) <==> NewOk(rest, bd, ad, x, y, v)
    decreases v
  {
    hide Sound, Covered, Ready, Shallow, SchemaOf, NewKeywords;
    if x != Null && y != Null {
      var n := Unfold(rest, bd, ad, R, D, Use(x, y, true), v);
      RequestTop(bd, ad, R, D, n, v);
      if v.Obj? {
        forall name | name in Props(n.b) && name in Props(n.a) && name in v.fields
          ensures Accepts(rest, ad, Props(n.a)[name], v.fields[name]) <==>
                  NewOk(rest, bd, ad, Props(n.b)[name], Props(n.a)[name], v.fields[name])
        {
          PropertyUse(bd, ad, R, D, n, name);
          RequestIff(rest, bd, ad, R, D, Props(n.b)[name], Props(n.a)[name], v.fields[name]);
        }
      }
      if v.Arr? && "items" in n.b && "items" in n.a {
        ItemUse(bd, ad, R, D, n);
        forall i | 0 <= i < |v.items|
          ensures Accepts(rest, ad, n.a["items"], v.items[i]) <==> NewOk(rest, bd, ad, n.b["items"], n.a["items"], v.items[i])
        {
          RequestIff(rest, bd, ad, R, D, n.b["items"], n.a["items"], v.items[i]);
        }
      }
    }
  }

  lemma RequestTop(bd: Fields, ad: Fields, R: iset<Node>, D: iset<Use>, n: Node, v: Json)
    requires Ready(bd, ad, R, D, n) && n.request && Shallow(n.b, v)
    ensures Shallow(n.a, v) <==> NewKeywords(n.b, n.a, v)
  {
    RequestShallowIff(n, v);
  }

  /** A value that the new response schema allows was allowed by the old one exactly when it meets what the
  old one demanded and the comparator lets go. */
  lemma {:induction false} ResponseIff(rest: Rest, bd: Fields, ad: Fields, R: iset<Node>, D: iset<Use>, x: Json, y: Json, v: Json)
    requires Sound(bd, ad, R, D) && Use(x, y, false) in D && Covered(bd, ad, R, Use(x, y, false)) && Accepts(rest, ad, y, v)
    ensures Accepts(rest, bd, x, v) <==> OldOk(rest, bd, ad, x, y, v)
    decreases v
  {
    hide Sound, Ready, Shallow, SchemaOf, OldKeywords;
    if x != Null {
      var n := Unfold(rest, bd, ad, R, D, Use(x, y, false), v);
      ResponseTop(bd, ad, R, D, n, v);
      if v.Obj? {
        forall name | name in Props(n.b) && name in Props(n.a) && name in v.fields
          ensures Accepts(rest, bd, Props(n.b)[name], v.fields[name]) <==>
                  OldOk(rest, bd, ad, Props(n.b)[name], Props(n.a)[name], v.fields[name])
        {
          PropertyUse(bd, ad, R, D, n, name);
          ResponseIff(rest, bd, ad, R, D, Props(n.b)[name], Props(n.a)[name], v.fields[name]);
        }
      }
      if v.Arr? && "items" in n.b {
        ItemUse(bd, ad, R, D, n);
        forall i | 0 <= i < |v.items|
          ensures Accepts(rest, bd, n.b["items"], v.items[i]) <==> OldOk(rest, bd, ad, n.b["items"], n.a["items"], v.items[i])
        {
          ResponseIff(rest, bd, ad, R, D, n.b["items"], n.a["items"], v.items[i]);
        }
      }
    }
  }

  lemma ResponseTop(bd: Fields, ad: Fields, R: iset<Node>, D: iset<Use>, n: Node, v: Json)
    requires Ready(bd, ad, R, D, n) && !n.request && Shallow(n.a, v)
    ensures Shallow(n.b, v) <==> OldKeywords(n.b, n.a, v)
    ensures ("items" in n.b ==> "items" in n.a) && forall name :: name in Props(n.b) ==> name in Props(n.a)
  {
    ResponseShallowIff(n, v);
    assert forall name :: name in Props(n.b) ==> name !in Props(n.b).Keys - Props(n.a).Keys;
  }

  // ----- when nothing is new

  /** Constraints of JSON Schema the comparator does not look at. */
  const UNCOMPARED: set<string> := {
    "anyOf", "oneOf", "allOf", "not", "if", "then", "else", "const", "pattern", "format", "multipleOf",
    "uniqueItems", "contains", "minContains", "maxContains", "prefixItems", "additionalProperties",
    "patternProperties", "propertyNames", "dependentRequired", "dependentSchemas", "unevaluatedItems",
    "unevaluatedProperties"
  }

  /** Schemas without such constraints leave the rest nothing to say. */
  ghost predicate Silent(rest: Rest) {
    forall doc: Fields, s: Fields, v: Json :: s.Keys !! UNCOMPARED ==> rest(doc, s, v)
  }

  /** No constraint appears where the comparator looks away. */
  ghost predicate RequestVisible(bd: Fields, ad: Fields, u: Use) {
    && (u.x == Null ==> u.y == Null)
    && var b, a := SchemaOf(bd, u.x), SchemaOf(ad, u.y);
       && (HasEnum(a) ==> HasEnum(b)) && ("items" in a ==> "items" in b)
       && (NullOnly(a) ==> NullOnly(b)) && a.Keys !! UNCOMPARED
  }

  /** No constraint of the old response schema is dropped where the comparator looks away. */
  ghost predicate ResponseVisible(bd: Fields, ad: Fields, u: Use) {
    var b, a := SchemaOf(bd, u.x), SchemaOf(ad, u.y);
    && (HasEnum(b) ==> HasEnum(a) && EnumOf(a) <= EnumOf(b)) && !BoundTightened(a, b)
    && (NullOnly(b) ==> NullOnly(a)) && b.Keys !! UNCOMPARED
  }

  ghost predicate AllVisible(bd: Fields, ad: Fields, D: iset<Use>) {
    forall u :: u in D ==> if u.request then RequestVisible(bd, ad, u) else ResponseVisible(bd, ad, u)
  }

  /** No object inside the value uses a property that only the new schema declares. */
  ghost predicate NoNewProperty(bd: Fields, ad: Fields, x: Json, y: Json, v: Json)
    decreases v
  {
    var b, a := SchemaOf(bd, x), SchemaOf(ad, y);
    && (v.Obj? ==> forall name :: name in v.fields && name in Props(a) ==>
          name in Props(b) && NoNewProperty(bd, ad, Props(b)[name], Props(a)[name], v.fields[name]))
    && (v.Arr? && "items" in b && "items" in a ==>
          forall i :: 0 <= i < |v.items| ==> NoNewProperty(bd, ad, b["items"], a["items"], v.items[i]))
  }

  lemma VisibleUse(bd: Fields, ad: Fields, D: iset<Use>, u: Use)
    requires AllVisible(bd, ad, D) && u in D
    ensures u.request ==> RequestVisible(bd, ad, u) && (u.x == Null ==> u.y == Null)
    ensures !u.request ==> ResponseVisible(bd, ad, u)
  {
  }

  lemma VisibleRequest(rest: Rest, bd: Fields, ad: Fields, u: Use, v: Json)
    requires RequestVisible(bd, ad, u) && Silent(rest) && Shallow(SchemaOf(bd, u.x), v)
    ensures NewKeywords(SchemaOf(bd, u.x), SchemaOf(ad, u.y), v) && rest(ad, SchemaOf(ad, u.y), v)
    ensures "items" in SchemaOf(ad, u.y) ==> "items" in SchemaOf(bd, u.x)
  {
    hide SchemaOf;
  }

  lemma VisibleResponse(rest: Rest, bd: Fields, ad: Fields, u: Use, v: Json)
    requires ResponseVisible(bd, ad, u) && Silent(rest) && Shallow(SchemaOf(ad, u.y), v)
    ensures OldKeywords(SchemaOf(bd, u.x), SchemaOf(ad, u.y), v) && rest(bd, SchemaOf(bd, u.x), v)
  {
    hide SchemaOf;
    BoundsKept(SchemaOf(ad, u.y), SchemaOf(bd, u.x), v);
  }

  lemma {:induction false} NothingNew(rest: Rest, bd: Fields, ad: Fields, R: iset<Node>, D: iset<Use>, x: Json, y: Json, v: Json)
    requires Sound(bd, ad, R, D) && AllVisible(bd, ad, D) && Silent(rest)
    requires Use(x, y, true) in D && Covered(bd, ad, R, Use(x, y, true))
    requires Accepts(rest, bd, x, v) && NoNewProperty(bd, ad, x, y, v)
    ensures NewOk(rest, bd, ad, x, y, v)
    decreases v
  {
    hide Sound, Covered, Ready, SchemaOf, AllVisible, Accepts, NewKeywords, RequestVisible, Silent, Shallow;
    VisibleUse(bd, ad, D, Use(x, y, true));
    if y != Null {
      var n := Unfold(rest, bd, ad, R, D, Use(x, y, true), v);
      VisibleRequest(rest, bd, ad, Use(x, y, true), v);
      if v.Obj? {
        forall name | name in Props(n.a) && name in v.fields
          ensures name in Props(n.b) && NewOk(rest, bd, ad, Props(n.b)[name], Props(n.a)[name], v.fields[name])
        {
          PropertyUse(bd, ad, R, D, n, name);
          NothingNew(rest, bd, ad, R, D, Props(n.b)[name], Props(n.a)[name], v.fields[name]);
        }
      }
      if v.Arr? && "items" in n.a {
        ItemUse(bd, ad, R, D, n);
        forall i | 0 <= i < |v.items| ensures NewOk(rest, bd, ad, n.b["items"], n.a["items"], v.items[i]) {
          NothingNew(rest, bd, ad, R, D, n.b["items"], n.a["items"], v.items[i]);
        }
      }
    }
  }

  lemma {:induction false} NothingDropped(rest: Rest, bd: Fields, ad: Fields, R: iset<Node>, D: iset<Use>, x: Json, y: Json, v: Json)
    requires Sound(bd, ad, R, D) && AllVisible(bd, ad, D) && Silent(rest)
    requires Use(x, y, false) in D && Covered(bd, ad, R, Use(x, y, false)) && Accepts(rest, ad, y, v)
    ensures OldOk(rest, bd, ad, x, y, v)
    decreases v
  {
    hide Sound, Ready, SchemaOf, AllVisible, Accepts, OldKeywords, ResponseVisible, Silent, Shallow;
    VisibleUse(bd, ad, D, Use(x, y, false));
    if x != Null {
      var n := Unfold(rest, bd, ad, R, D, Use(x, y, false), v);
      VisibleResponse(rest, bd, ad, Use(x, y, false), v);
      if v.Obj? {
        forall name | name in Props(n.b) && name in Props(n.a) && name in v.fields
          ensures OldOk(rest, bd, ad, Props(n.b)[name], Props(n.a)[name], v.fields[name])
        {
          PropertyUse(bd, ad, R, D, n, name);
          NothingDropped(rest, bd, ad, R, D, Props(n.b)[name], Props(n.a)[name], v.fields[name]);
        }
      }
      if v.Arr? && "items" in n.b && "items" in n.a {
        ItemUse(bd, ad, R, D, n);
        forall i | 0 <= i < |v.items| ensures OldOk(rest, bd, ad, n.b["items"], n.a["items"], v.items[i]) {
          NothingDropped(rest, bd, ad, R, D, n.b["items"], n.a["items"], v.items[i]);
        }
      }
    }
  }

  /** Every value the old request schema accepts is accepted by the new one. */
  lemma RequestAccepted(rest: Rest, bd: Fields, ad: Fields, R: iset<Node>, D: iset<Use>, x: Json, y: Json, v: Json)
    requires Sound(bd, ad, R, D) && AllVisible(bd, ad, D) && Silent(rest)
    requires Use(x, y, true) in D && Covered(bd, ad, R, Use(x, y, true))
    requires Accepts(rest, bd, x, v) && NoNewProperty(bd, ad, x, y, v)
    ensures Accepts(rest, ad, y, v)
  {
    hide Sound, AllVisible, Silent, Covered, Accepts, NewOk, NoNewProperty;
    NothingNew(rest, bd, ad, R, D, x, y, v);
    RequestIff(rest, bd, ad, R, D, x, y, v);
  }

  /** Every value the new response schema allows was allowed by the old one. */
  lemma ResponseAllowed(rest: Rest, bd: Fields, ad: Fields, R: iset<Node>, D: iset<Use>, x: Json, y: Json, v: Json)
    requires Sound(bd, ad, R, D) && AllVisible(bd, ad, D) && Silent(rest)
    requires Use(x, y, false) in D && Covered(bd, ad, R, Use(x, y, false)) && Accepts(rest, ad, y, v)
    ensures Accepts(rest, bd, x, v)
  {
    hide Sound, AllVisible, Silent, Covered, Accepts, OldOk;
    NothingDropped(rest, bd, ad, R, D, x, y, v);
    ResponseIff(rest, bd, ad, R, D, x, y, v);
  }

  // ----- on plain references a key identifies its pair

  /** A string splits in one way at its last bar. */
  lemma LastBar(p: string, q: string, p': string, q': string)
    requires '|' !in q && '|' !in q' && p + "|" + q == p' + "|" + q'
    ensures p == p' && q == q'
  {
    var s := p + "|" + q;
    assert s[|p|] == '|' && s[|p'|] == '|';
    assert p == s[..|p|] && p' == s[..|p'|];
    assert q == s[|p| + 1..] && q' == s[|p'| + 1..];
  }

  lemma KeyInjective(op: string, r: bool, b: string, a: string, op': string, r': bool, b': string, a': string)
    requires '|' !in b && '|' !in a && '|' !in b' && '|' !in a'
    requires Key(op, r, b, a) == Key(op', r', b', a')
    ensures r == r' && b == b' && a == a'
  {
    var t, t' := if r then "true" else "false", if r' then "true" else "false";
    LastBar(op + "|" + t + "|" + b, a, op' + "|" + t' + "|" + b', a');
    LastBar(op + "|" + t, b, op' + "|" + t', b');
    LastBar(op, t, op', t');
  }

  ghost predicate AllLegal(refs: seq<string>) {
    forall i :: 0 <= i < |refs| ==> LegalRef(refs[i])
  }

  lemma {:induction false} JoinClean(refs: seq<string>)
    requires AllLegal(refs)
    ensures '|' !in JoinRefs(refs)
  {
    if |refs| > 1 {
      JoinClean(refs[1..]);
    }
  }

  /** The identity is the join of the references followed, and starts with those given. */
  lemma {:induction false} IdIsJoin(doc: Fields, current: Fields, refs: seq<string>) returns (all: seq<string>)
    requires PlainRefs(doc) && AllLegal(refs) && (RefOf(current) != "" ==> LegalRef(RefOf(current)))
    ensures refs <= all && AllLegal(all) && ResolveFrom(doc, current, refs).id == JoinRefs(all)
    ensures !Stops(current, refs) ==> refs + [RefOf(current)] <= all
    decreases Pending(doc, current, refs)
  {
    all := refs;
    if !Stops(current, refs) {
      var ref := RefOf(current);
      all := refs + [ref];
      var target := LocalPointer(doc, ref);
      if target.Some? && target.value.Obj? {
        LinkInside(doc, Obj(current), target.value);
        FollowingShrinks(doc, current, refs);
        assert PlainRef(target.value);
        all := IdIsJoin(doc, Overlay(target.value.fields, current), refs + [ref]);
      }
    }
  }

  /** Two joined lists of legal references that agree start with the same reference. */
  lemma FirstRef(refs: seq<string>, refs': seq<string>)
    requires AllLegal(refs) && AllLegal(refs') && refs != [] && refs' != [] && JoinRefs(refs) == JoinRefs(refs')
    ensures refs[0] == refs'[0]
  {
    var r, r', s := refs[0], refs'[0], JoinRefs(refs);
    assert s[..|r|] == r && s[..|r'|] == r';
    assert |r| < |s| ==> s[|r|] == '-' && |r| + 1 < |s| && s[|r| + 1] == '>';
    assert |r'| < |s| ==> s[|r'|] == '-' && |r'| + 1 < |s| && s[|r'| + 1] == '>';
    assert |r| == |r'|;
  }

  lemma SameId(doc: Fields, x: Json, x': Json)
    requires PlainRefs(doc) && x in SubValues(Obj(doc)) && x' in SubValues(Obj(doc)) && x.Obj? && x'.Obj?
    requires Resolve(doc, x).id == Resolve(doc, x').id != ""
    ensures SchemaOf(doc, x) == SchemaOf(doc, x')
  {
    NoIdMeansInline(doc, x);
    NoIdMeansInline(doc, x');
    var all := IdIsJoin(doc, x.fields, []);
    var all' := IdIsJoin(doc, x'.fields, []);
    FirstRef(all, all');
    SameRef(x, x');
    ResolveSameCore(doc, x.fields, x'.fields, []);
  }

  lemma SameRef(x: Json, x': Json)
    requires x.Obj? && x'.Obj? && PlainRef(x) && PlainRef(x') && RefOf(x.fields) == RefOf(x'.fields) != ""
    ensures Core(x.fields) == Core(x'.fields)
  {
    assert Core(x.fields) == map["$ref" := Str(RefOf(x.fields))];
    assert Core(x'.fields) == map["$ref" := Str(RefOf(x'.fields))];
  }

  lemma IdClean(doc: Fields, x: Json)
    requires PlainRefs(doc) && Known(doc, x)
    ensures '|' !in Resolve(doc, x).id
  {
    if x.Obj? {
      assert PlainRef(x);
      var all := IdIsJoin(doc, x.fields, []);
      JoinClean(all);
    }
  }

  /** Then a pair cut off as seen was really compared. */
  lemma KeysAreFaithful(bd: Fields, ad: Fields)
    requires KeysTell(bd, ad)
    ensures Faithful(bd, ad, Reach(bd, ad))
  {
    var D := Reach(bd, ad);
    forall v: Visit, w: Visit |
      && v.use in D && Keyed(bd, ad, v.use) && w.use in D && Keyed(bd, ad, w.use)
      && KeyOf(bd, ad, v) == KeyOf(bd, ad, w)
      ensures NodeOf(bd, ad, v.use) == NodeOf(bd, ad, w.use)
    {
      ReachIsKnown(bd, ad, v.use);
      ReachIsKnown(bd, ad, w.use);
      hide Reach;
      SameKeySamePair(bd, ad, v, w);
    }
  }

  lemma SameKeySamePair(bd: Fields, ad: Fields, v: Visit, w: Visit)
    requires PlainRefs(bd) && PlainRefs(ad) && Keyed(bd, ad, v.use) && Keyed(bd, ad, w.use) && KeyOf(bd, ad, v) == KeyOf(bd, ad, w)
    requires KnownUse(bd, ad, v.use) && KnownUse(bd, ad, w.use) && Aligned(bd, ad, v.use) && Aligned(bd, ad, w.use)
    ensures NodeOf(bd, ad, v.use) == NodeOf(bd, ad, w.use)
  {
    IdClean(bd, v.use.x);
    IdClean(ad, v.use.y);
    IdClean(bd, w.use.x);
    IdClean(ad, w.use.y);
    KeyInjective(v.operation, v.use.request, Resolve(bd, v.use.x).id, Resolve(ad, v.use.y).id,
                 w.operation, w.use.request, Resolve(bd, w.use.x).id, Resolve(ad, w.use.y).id);
    SameId(bd, v.use.x, w.use.x);
    SameId(ad, v.use.y, w.use.y);
  }

  // ----- the schemas in use

  /** What a compatible change means for one value at one schema in use. */
  ghost predicate UseDecided(rest: Rest, bd: Fields, ad: Fields, u: Use, v: Json) {
    if u.request then Accepts(rest, bd, u.x, v) ==> (Accepts(rest, ad, u.y, v) <==> NewOk(rest, bd, ad, u.x, u.y, v))
    else Accepts(rest, ad, u.y, v) ==> (Accepts(rest, bd, u.x, v) <==> OldOk(rest, bd, ad, u.x, u.y, v))
  }

  ghost predicate SchemasDecided(rest: Rest, bd: Fields, ad: Fields) {
    forall u, v :: u in DocumentGoal(bd, ad).uses ==> UseDecided(rest, bd, ad, u, v)
  }

  /** Old values still go in, and new values are no surprise. */
  ghost predicate SafeUse(rest: Rest, bd: Fields, ad: Fields, u: Use, v: Json) {
    if u.request then Accepts(rest, bd, u.x, v) && NoNewProperty(bd, ad, u.x, u.y, v) ==> Accepts(rest, ad, u.y, v)
    else Accepts(rest, ad, u.y, v) ==> Accepts(rest, bd, u.x, v)
  }

  ghost predicate SchemasAreSafe(rest: Rest, bd: Fields, ad: Fields) {
    forall u, v :: u in DocumentGoal(bd, ad).uses ==> SafeUse(rest, bd, ad, u, v)
  }

  /** A relation that covers what the operations use, over all uses in reach. */
  lemma CompatibleIsSound(bd: Fields, ad: Fields) returns (R: iset<Node>)
    requires Legible(bd, ad) && Compatible(bd, ad)
    ensures Sound(bd, ad, R, Reach(bd, ad)) && AllIn(Reach(bd, ad), DocumentGoal(bd, ad).uses)
    ensures DocumentGoal(bd, ad).ok && AllCovered(bd, ad, R, DocumentGoal(bd, ad).uses)
  {
    hide DocumentGoal, Reach, PlainRefs;
    R :| PostFixed(bd, ad, R) && Meets(bd, ad, R, DocumentGoal(bd, ad));
    ReachIsClosed(bd, ad);
    forall u | u in Reach(bd, ad) ensures KnownUse(bd, ad, u) {
      ReachIsKnown(bd, ad, u);
    }
  }

  /** On readable documents a compatible change decides every value at every schema in use. */
  lemma CompatibleDecidesSchemas(rest: Rest, bd: Fields, ad: Fields)
    requires Legible(bd, ad) && Compatible(bd, ad)
    ensures SchemasDecided(rest, bd, ad)
  {
    var R := CompatibleIsSound(bd, ad);
    hide DocumentGoal, Reach, Sound, Accepts, NewOk, OldOk, Covered, Legible, Compatible;
    forall u, v | u in DocumentGoal(bd, ad).uses ensures UseDecided(rest, bd, ad, u, v) {
      assert u == Use(u.x, u.y, u.request);
      if u.request && Accepts(rest, bd, u.x, v) {
        RequestIff(rest, bd, ad, R, Reach(bd, ad), u.x, u.y, v);
      } else if !u.request && Accepts(rest, ad, u.y, v) {
        ResponseIff(rest, bd, ad, R, Reach(bd, ad), u.x, u.y, v);
      }
    }
  }

  /** Where moreover nothing is new or dropped that the comparator does not look at, it is safe. */
  lemma CompatibleIsSafe(rest: Rest, bd: Fields, ad: Fields)
    requires Legible(bd, ad) && Compatible(bd, ad) && AllVisible(bd, ad, Reach(bd, ad)) && Silent(rest)
    ensures SchemasAreSafe(rest, bd, ad)
  {
    var R := CompatibleIsSound(bd, ad);
    hide DocumentGoal, Reach, Sound, Accepts, NoNewProperty, Covered, Legible, Compatible, AllVisible, Silent;
    forall u, v | u in DocumentGoal(bd, ad).uses ensures SafeUse(rest, bd, ad, u, v) {
      assert u == Use(u.x, u.y, u.request);
      if u.request {
        if Accepts(rest, bd, u.x, v) && NoNewProperty(bd, ad, u.x, u.y, v) {
          RequestAccepted(rest, bd, ad, R, Reach(bd, ad), u.x, u.y, v);
        }
      } else if Accepts(rest, ad, u.y, v) {
        ResponseAllowed(rest, bd, ad, R, Reach(bd, ad), u.x, u.y, v);
      }
    }
  }
}
