/** Purely additive changes are never reported: new paths, methods, media types, response codes,
response properties and optional request properties, in any document whose references are used
consistently, whether or not its schemas are recursive. */
module OpenApiAdditive {
  import opened Json
  import opened JsonPointer
  import opened OpenApiResolve
  import opened OpenApiRules
  import opened OpenApiCompare
  import opened OpenApiDocument

  /** What a value of the document describes. */
  datatype Kind =
    | Paths | PathItem | Operation | Parameters | Parameter | Body | Responses | Response | Content | Media
    | Schema | Properties
    | Leaf  // anything else: it must not change

  /** The kind of an entry of an object. */
  function Child(kind: Kind, key: string): Kind {
    match kind
    case Paths => PathItem
    case PathItem => if key in METHODS then Operation else Leaf
    case Operation =>
      if key == "parameters" then Parameters else if key == "requestBody" then Body
      else if key == "responses" then Responses else Leaf
    case Parameter => if key == "schema" then Schema else Leaf
    case Body => if key == "content" then Content else Leaf
    case Responses => Response
    case Response => if key == "content" then Content else Leaf
    case Content => Media
    case Media => if key == "schema" then Schema else Leaf
    case Schema => if key == "properties" then Properties else if key == "items" then Schema else Leaf
    case Properties => Schema
    case _ => Leaf
  }

  /** The entries that may be added. */
  predicate MayAdd(kind: Kind, key: string) {
    match kind
    case Paths => true
    case PathItem => key in METHODS
    case Responses => true
    case Content => true
    case Properties => true
    case Schema => key == "properties"
    case _ => false
  }

  /** Containers the comparator reads as they are; it resolves references in all other objects. */
  predicate IsContainer(kind: Kind) {
    kind in {Paths, Responses, Content, Properties, Parameters, Leaf}
  }

  /** Two documents and the kind each reference is used for. */
  datatype Change = Change(bd: Fields, ad: Fields, typing: map<string, Kind>)

  predicate Distinct(doc: Fields, items: seq<Json>) {
    && (forall i :: 0 <= i < |items| ==> Named(Resolve(doc, items[i]).fields))
    && (forall i, j :: 0 <= i < j < |items| ==>
          ParameterKey(Resolve(doc, items[i]).fields) != ParameterKey(Resolve(doc, items[j]).fields))
  }

  /** A reference keeps its object as it is, and is used for one kind of thing. */
  predicate RefKept(c: Change, kind: Kind, f: Fields, g: Fields) {
    IsContainer(kind) ||
    (&& RefOf(f) == RefOf(g)
     && (RefOf(f) != "" ==>
           f.Keys == g.Keys && (IsLocal(RefOf(f)) ==> RefOf(f) in c.typing && c.typing[RefOf(f)] == kind)))
  }

  /** y is x with nothing but additions. */
  ghost predicate Grow(c: Change, kind: Kind, x: Json, y: Json)
    decreases x, 1
  {
    if kind == Parameters && x.Arr? && y.Arr? then
      && |x.items| == |y.items| && Distinct(c.bd, x.items)
      && forall i :: 0 <= i < |x.items| ==> Grow(c, Parameter, x.items[i], y.items[i])
    else if kind != Leaf && x.Obj? && y.Obj? then
      && RefKept(c, kind, x.fields, y.fields)
      && (forall k :: k in x.fields ==> k in y.fields && Grow(c, Child(kind, k), x.fields[k], y.fields[k]))
      && (forall k :: k in y.fields ==> k in x.fields || MayAdd(kind, k))
    else x == y && (kind == Body ==> x == Null)
  }

  /** The same between two objects. */
  ghost predicate GrowFields(c: Change, kind: Kind, f: Fields, g: Fields) {
    RefKept(c, kind, f, g) && EntriesGrow(c, kind, f, g) && OnlyAdditions(kind, f, g)
  }

  ghost predicate EntriesGrow(c: Change, kind: Kind, f: Fields, g: Fields) {
    forall k :: k in f ==> k in g && Grow(c, Child(kind, k), f[k], g[k])
  }

  predicate OnlyAdditions(kind: Kind, f: Fields, g: Fields) {
    forall k :: k in g ==> k in f || MayAdd(kind, k)
  }

  /** The targets of references grow as the kind they are used for. */
  ghost predicate RefsGrow(c: Change) {
    forall ref :: ref in c.typing && IsLocal(ref) ==> RefGrows(c, ref)
  }

  ghost predicate RefGrows(c: Change, ref: string)
    requires ref in c.typing && IsLocal(ref)
  {
    match (LocalPointer(c.bd, ref), LocalPointer(c.ad, ref))
    case (Some(t), Some(t')) => Grow(c, c.typing[ref], t, t')
    case (None, None) => true
    case _ => false
  }

  ghost predicate Extends(c: Change) {
    RefsGrow(c) && Grow(c, Paths, Field(c.bd, "paths"), Field(c.ad, "paths"))
  }

  lemma GrowObjects(c: Change, kind: Kind, x: Json, y: Json)
    requires Grow(c, kind, x, y) && kind != Leaf && kind != Parameters
    ensures x.Obj? <==> y.Obj?
    ensures x.Obj? ==> GrowFields(c, kind, x.fields, y.fields)
    ensures x == Null <==> y == Null
  {
  }

  lemma EntryAt(c: Change, kind: Kind, x: Json, y: Json, key: string)
    requires Grow(c, kind, x, y) && kind != Leaf && kind != Parameters && key in FieldsOf(x)
    ensures key in FieldsOf(y) && Grow(c, Child(kind, key), FieldsOf(x)[key], FieldsOf(y)[key])
  {
    GrowObjects(c, kind, x, y);
    hide Grow, Child;
  }

  // ----- references

  lemma OverlayEntries(c: Change, kind: Kind, t: Fields, t': Fields, f: Fields, g: Fields)
    requires EntriesGrow(c, kind, t, t') && EntriesGrow(c, kind, f, g) && f.Keys == g.Keys
    ensures EntriesGrow(c, kind, Overlay(t, f), Overlay(t', g))
  {
    hide Grow, Child;
    var o, o' := Overlay(t, f), Overlay(t', g);
    forall k | k in o ensures k in o' && Grow(c, Child(kind, k), o[k], o'[k]) {
      if k in f && k != "$ref" {
        assert k in g.Keys;
        assert o[k] == f[k] && o'[k] == g[k];
      } else {
        assert k in t && k in t' && (k in g ==> k in f.Keys);
        assert o[k] == t[k] && o'[k] == t'[k];
      }
    }
  }

  lemma OverlayAdditions(kind: Kind, t: Fields, t': Fields, f: Fields, g: Fields)
    requires OnlyAdditions(kind, t, t') && f.Keys == g.Keys
    ensures OnlyAdditions(kind, Overlay(t, f), Overlay(t', g))
  {
    hide MayAdd;
    forall k | k in Overlay(t', g) ensures k in Overlay(t, f) || MayAdd(kind, k) {
      assert k in g ==> k in f.Keys;
    }
  }

  lemma OverlayRef(c: Change, kind: Kind, t: Fields, t': Fields, f: Fields, g: Fields)
    requires RefKept(c, kind, t, t') && f.Keys == g.Keys
    ensures RefKept(c, kind, Overlay(t, f), Overlay(t', g))
  {
    assert RefOf(Overlay(t, f)) == RefOf(t) && RefOf(Overlay(t', g)) == RefOf(t');
    assert Overlay(t, f).Keys == t.Keys + (f.Keys - {"$ref"});
    assert Overlay(t', g).Keys == t'.Keys + (g.Keys - {"$ref"});
  }

  lemma {:induction false} ResolveGrowsFrom(c: Change, kind: Kind, f: Fields, g: Fields, refs: seq<string>)
    requires RefsGrow(c) && !IsContainer(kind) && GrowFields(c, kind, f, g)
    ensures GrowFields(c, kind, ResolveFrom(c.bd, f, refs).fields, ResolveFrom(c.ad, g, refs).fields)
    decreases Pending(c.bd, f, refs)
  {
    if !Stops(f, refs) {
      var ref := RefOf(f);
      assert RefGrows(c, ref);
      var t, t' := LocalPointer(c.bd, ref), LocalPointer(c.ad, ref);
      if t.Some? && t.value.Obj? {
        GrowObjects(c, kind, t.value, t'.value);
        OverlayEntries(c, kind, t.value.fields, t'.value.fields, f, g);
        OverlayAdditions(kind, t.value.fields, t'.value.fields, f, g);
        OverlayRef(c, kind, t.value.fields, t'.value.fields, f, g);
        FollowingShrinks(c.bd, f, refs);
        FollowingShrinks(c.ad, g, refs);
        ResolveGrowsFrom(c, kind, Overlay(t.value.fields, f), Overlay(t'.value.fields, g), refs + [ref]);
      }
    }
  }

  /** Resolving an object and its extension gives an object and its extension. */
  lemma ResolveGrows(c: Change, kind: Kind, x: Json, y: Json)
    requires RefsGrow(c) && !IsContainer(kind) && Grow(c, kind, x, y)
    ensures x.Obj? <==> y.Obj?
    ensures GrowFields(c, kind, Resolve(c.bd, x).fields, Resolve(c.ad, y).fields)
  {
    GrowObjects(c, kind, x, y);
    if x.Obj? {
      ResolveGrowsFrom(c, kind, x.fields, y.fields, []);
    }
  }

  // ----- schemas

  ghost predicate Grown(c: Change, n: Node) {
    GrowFields(c, Schema, n.b, n.a)
  }

  lemma KeywordUnchanged(c: Change, b: Fields, a: Fields, key: string)
    requires GrowFields(c, Schema, b, a) && key != "properties" && key != "items"
    ensures Field(b, key) == Field(a, key)
  {
    assert Child(Schema, key) == Leaf && !MayAdd(Schema, key);
    hide Child, MayAdd, RefKept;
    if key in b {
      assert Grow(c, Leaf, b[key], a[key]);
    }
  }

  lemma SameKeywordsAreOk(b: Fields, a: Fields, request: bool)
    requires forall key :: key != "properties" && key != "items" ==> Field(b, key) == Field(a, key)
    ensures KeywordsOk(Node(b, a, request))
  {
    assert DeclaredTypes(b) == DeclaredTypes(a);
    assert EnumOf(b) - EnumOf(a) == {} && EnumOf(a) - EnumOf(b) == {};
    assert Required(b) == Required(a);
    forall key | key in MIN_BOUNDS ensures !MinTightened(b, a, key) {
      assert Field(b, key) == Field(a, key);
    }
    forall key | key in MAX_BOUNDS ensures !MaxTightened(b, a, key) {
      assert Field(b, key) == Field(a, key);
    }
  }

  lemma PropertyGrows(c: Change, b: Fields, a: Fields, name: string)
    requires GrowFields(c, Schema, b, a) && name in Props(b)
    ensures name in Props(a) && Grow(c, Schema, Props(b)[name], Props(a)[name])
  {
    assert Child(Schema, "properties") == Properties && Child(Properties, name) == Schema;
    hide Grow, Child, RefKept, OnlyAdditions;
    assert Grow(c, Child(Schema, "properties"), b["properties"], a["properties"]);
    EntryAt(c, Properties, b["properties"], a["properties"], name);
  }

  lemma ItemsGrow(c: Change, b: Fields, a: Fields)
    requires GrowFields(c, Schema, b, a) && "items" in b
    ensures "items" in a && Grow(c, Schema, b["items"], a["items"])
  {
    assert Child(Schema, "items") == Schema;
    hide Grow, Child, RefKept, OnlyAdditions;
    assert Grow(c, Child(Schema, "items"), b["items"], a["items"]);
  }

  lemma GrownIsOk(c: Change, n: Node)
    requires Grown(c, n)
    ensures LocalOk(n)
  {
    hide Grow, Child, KeywordsOk, EntriesGrow, RefKept;
    forall key | key != "properties" && key != "items" ensures Field(n.b, key) == Field(n.a, key) {
      KeywordUnchanged(c, n.b, n.a, key);
    }
    SameKeywordsAreOk(n.b, n.a, n.request);
    forall name | name in Props(n.b) ensures name in Props(n.a) {
      PropertyGrows(c, n.b, n.a, name);
    }
    assert Props(n.b).Keys - Props(n.a).Keys == {};
    if "items" in n.b {
      ItemsGrow(c, n.b, n.a);
    }
  }

  ghost function AllGrown(c: Change): iset<Node> {
    iset n | Grown(c, n)
  }

  lemma CoreGrows(c: Change, f: Fields, g: Fields)
    requires GrowFields(c, Schema, f, g)
    ensures GrowFields(c, Schema, Core(f), Core(g))
  {
    hide Grow;
    CoreField(f, "$ref");
    CoreField(g, "$ref");
  }

  lemma SchemaCovered(c: Change, u: Use)
    requires RefsGrow(c) && Grow(c, Schema, u.x, u.y)
    ensures Covered(c.bd, c.ad, AllGrown(c), u)
  {
    GrowObjects(c, Schema, u.x, u.y);
    ResolveGrows(c, Schema, u.x, u.y);
    CoreGrows(c, Resolve(c.bd, u.x).fields, Resolve(c.ad, u.y).fields);
  }

  /** Growing schemas are a compatibility relation. */
  lemma GrownIsPostFixed(c: Change)
    requires RefsGrow(c)
    ensures PostFixed(c.bd, c.ad, AllGrown(c))
  {
    hide GrowFields, LocalOk, Covered, Grow, RefsGrow;
    forall n | n in AllGrown(c) ensures LocalOk(n) && AllCovered(c.bd, c.ad, AllGrown(c), ChildUses(n)) {
      GrownIsOk(c, n);
      forall u | u in ChildUses(n) ensures Covered(c.bd, c.ad, AllGrown(c), u) {
        if u in PropertyUses(n) {
          var name :| name in Props(n.b) && name in Props(n.a) && u == Use(Props(n.b)[name], Props(n.a)[name], n.request);
          PropertyGrows(c, n.b, n.a, name);
        } else {
          ItemsGrow(c, n.b, n.a);
        }
        SchemaCovered(c, u);
      }
    }
  }

  // ----- the document level

  ghost predicate Met(c: Change, g: Goal) {
    Meets(c.bd, c.ad, AllGrown(c), g)
  }

  lemma MetAll<T>(c: Change, items: set<T>, f: T -> Goal)
    requires forall x :: x in items ==> Met(c, f(x))
    ensures Met(c, GoalAll(items, f))
  {
  }

  lemma EntryGrows(c: Change, kind: Kind, f: Fields, g: Fields, key: string)
    requires GrowFields(c, kind, f, g) && !MayAdd(kind, key)
    ensures Grow(c, Child(kind, key), Field(f, key), Field(g, key)) || (key !in f && key !in g)
  {
  }

  lemma LeafEntry(c: Change, kind: Kind, f: Fields, g: Fields, key: string)
    requires GrowFields(c, kind, f, g) && !MayAdd(kind, key) && Child(kind, key) == Leaf
    ensures Field(f, key) == Field(g, key) && (key in f <==> key in g)
  {
    assert key in f ==> Grow(c, Leaf, f[key], g[key]);
  }

  /** The schema entry of a media type or a parameter. */
  lemma SchemaEntryMet(c: Change, kind: Kind, x: Json, y: Json, request: bool)
    requires RefsGrow(c) && kind in {Media, Parameter} && Grow(c, kind, x, y)
    ensures Covered(c.bd, c.ad, AllGrown(c),
                    Use(Field(Resolve(c.bd, x).fields, "schema"), Field(Resolve(c.ad, y).fields, "schema"), request))
  {
    ResolveGrows(c, kind, x, y);
    var b, a := Resolve(c.bd, x).fields, Resolve(c.ad, y).fields;
    hide Resolve, Grow, RefsGrow, Covered, AllGrown;
    EntryGrows(c, kind, b, a, "schema");
    if "schema" !in b && "schema" !in a {
      NullGrows(c, Schema);
    }
    SchemaCovered(c, Use(Field(b, "schema"), Field(a, "schema"), request));
  }

  lemma NullGrows(c: Change, kind: Kind)
    ensures Grow(c, kind, Null, Null)
  {
  }

  lemma MediaMet(c: Change, x: Json, y: Json, request: bool, m: string)
    requires RefsGrow(c) && Grow(c, Content, x, y) && m in FieldsOf(x)
    ensures Met(c, MediaGoal(c.bd, c.ad, FieldsOf(x), FieldsOf(y), request, m))
  {
    EntryAt(c, Content, x, y, m);
    assert Child(Content, m) == Media;
    hide Resolve, Grow, RefsGrow, Covered, AllGrown;
    SchemaEntryMet(c, Media, FieldsOf(x)[m], FieldsOf(y)[m], request);
  }

  lemma ContentMet(c: Change, x: Json, y: Json, request: bool)
    requires RefsGrow(c) && Grow(c, Content, x, y)
    ensures Met(c, ContentGoal(c.bd, c.ad, x, y, request))
  {
    hide Grow, RefsGrow, MediaGoal, Met;
    forall m | m in FieldsOf(x).Keys
      ensures Met(c, MediaFamily(c.bd, c.ad, FieldsOf(x), FieldsOf(y), request)(m))
    {
      MediaMet(c, x, y, request, m);
    }
    MetAll(c, FieldsOf(x).Keys, MediaFamily(c.bd, c.ad, FieldsOf(x), FieldsOf(y), request));
  }

  lemma MetBoth(c: Change, g: Goal, h: Goal)
    requires Met(c, g) && Met(c, h)
    ensures Met(c, Both(g, h))
  {
  }

  lemma MetCheck(c: Change, ok: bool)
    requires ok
    ensures Met(c, Check(ok)) && Met(c, NOTHING)
  {
  }

  /** The content entry of a body or a response. */
  lemma ContentEntryMet(c: Change, kind: Kind, x: Json, y: Json, request: bool)
    requires RefsGrow(c) && kind in {Body, Response} && Grow(c, kind, x, y)
    ensures Met(c, ContentGoal(c.bd, c.ad, Field(Resolve(c.bd, x).fields, "content"),
                               Field(Resolve(c.ad, y).fields, "content"), request))
    ensures Field(Resolve(c.bd, x).fields, "required") == Field(Resolve(c.ad, y).fields, "required")
  {
    ResolveGrows(c, kind, x, y);
    var b, a := Resolve(c.bd, x).fields, Resolve(c.ad, y).fields;
    hide Resolve, RefsGrow, Met, ContentGoal, Grow, GrowFields;
    EntryGrows(c, kind, b, a, "content");
    LeafEntry(c, kind, b, a, "required");
    if "content" !in b && "content" !in a {
      NullGrows(c, Content);
    }
    ContentMet(c, Field(b, "content"), Field(a, "content"), request);
  }

  lemma BodyMet(c: Change, x: Json, y: Json)
    requires RefsGrow(c) && Grow(c, Body, x, y)
    ensures Met(c, BodyGoal(c.bd, c.ad, x, y))
  {
    if x == Null {
      MetCheck(c, true);
    } else {
      var b, a := Resolve(c.bd, x).fields, Resolve(c.ad, y).fields;
      hide Resolve, RefsGrow, Met, ContentGoal;
      ContentEntryMet(c, Body, x, y, true);
      MetCheck(c, !BecameRequired(b, a));
      MetBoth(c, Check(!BecameRequired(b, a)), ContentGoal(c.bd, c.ad, Field(b, "content"), Field(a, "content"), true));
    }
  }

  lemma ResponsesMet(c: Change, x: Json, y: Json)
    requires RefsGrow(c) && Grow(c, Responses, x, y)
    ensures Met(c, ResponsesGoal(c.bd, c.ad, x, y))
  {
    hide Grow, RefsGrow, Met, ContentGoal, Resolve;
    forall s | s in FieldsOf(x).Keys ensures Met(c, ResponseFamily(c.bd, c.ad, FieldsOf(x), FieldsOf(y))(s)) {
      EntryAt(c, Responses, x, y, s);
      ContentEntryMet(c, Response, FieldsOf(x)[s], FieldsOf(y)[s], false);
    }
    MetAll(c, FieldsOf(x).Keys, ResponseFamily(c.bd, c.ad, FieldsOf(x), FieldsOf(y)));
  }

  // ----- parameters

  /** A parameter keeps its name, its place and whether it is required. */
  lemma ParameterKept(c: Change, x: Json, y: Json)
    requires RefsGrow(c) && Grow(c, Parameter, x, y)
    ensures var p, q := Resolve(c.bd, x).fields, Resolve(c.ad, y).fields;
            ParameterKey(p) == ParameterKey(q) && (Named(p) <==> Named(q)) && !BecameRequired(p, q)
  {
    ResolveGrows(c, Parameter, x, y);
    var p, q := Resolve(c.bd, x).fields, Resolve(c.ad, y).fields;
    hide Resolve, RefsGrow, Grow, GrowFields;
    LeafEntry(c, Parameter, p, q, "name");
    LeafEntry(c, Parameter, p, q, "in");
    LeafEntry(c, Parameter, p, q, "required");
  }

  /** With distinct names the map of the new parameters finds each of them. */
  lemma {:induction false} FindsEach(ad: Fields, items: seq<Json>, i: nat)
    requires Distinct(ad, items) && i < |items|
    ensures var key := ParameterKey(Resolve(ad, items[i]).fields);
            key in AfterParameters(ad, items) && AfterParameters(ad, items)[key] == items[i]
  {
    if i < |items| - 1 {
      var rest := items[..|items| - 1];
      assert Distinct(ad, rest);
      FindsEach(ad, rest, i);
      assert rest[i] == items[i];
    }
  }

  lemma ParametersMet(c: Change, x: Json, y: Json)
    requires RefsGrow(c) && Grow(c, Parameters, x, y)
    ensures Met(c, ParametersGoal(c.bd, c.ad, x, y))
  {
    var xs, ys := ItemsOf(x), ItemsOf(y);
    var f := ParameterFamily(c.bd, c.ad, AfterParameters(c.ad, ys));
    if x.Arr? && y.Arr? {
      assert forall i :: 0 <= i < |xs| ==> Grow(c, Parameter, xs[i], ys[i]);
      assert Distinct(c.ad, ys) by { DistinctKept(c, xs, ys); }
      hide Grow, RefsGrow, Met, AfterParameters, Resolve, Distinct;
      forall v | v in Elements(xs) ensures Met(c, f(v)) {
        var i :| 0 <= i < |xs| && xs[i] == v;
        ParameterMet(c, xs, ys, i);
      }
    }
    MetAll(c, Elements(xs), f);
  }

  lemma DistinctKept(c: Change, xs: seq<Json>, ys: seq<Json>)
    requires RefsGrow(c) && Distinct(c.bd, xs) && |xs| == |ys|
    requires forall i :: 0 <= i < |xs| ==> Grow(c, Parameter, xs[i], ys[i])
    ensures Distinct(c.ad, ys)
  {
    hide Grow, RefsGrow, Resolve, ParameterKey, Named;
    forall i | 0 <= i < |ys| ensures Named(Resolve(c.ad, ys[i]).fields) {
      ParameterKept(c, xs[i], ys[i]);
    }
    forall i, j | 0 <= i < j < |ys|
      ensures ParameterKey(Resolve(c.ad, ys[i]).fields) != ParameterKey(Resolve(c.ad, ys[j]).fields)
    {
      ParameterKept(c, xs[i], ys[i]);
      ParameterKept(c, xs[j], ys[j]);
    }
  }

  lemma ParameterMet(c: Change, xs: seq<Json>, ys: seq<Json>, i: nat)
    requires RefsGrow(c) && |xs| == |ys| && i < |xs| && Distinct(c.ad, ys) && Grow(c, Parameter, xs[i], ys[i])
    ensures Met(c, ParameterGoal(c.bd, c.ad, AfterParameters(c.ad, ys), xs[i]))
  {
    hide Grow, RefsGrow, Resolve, ParameterKey, AfterParameters, Covered, AllGrown, Distinct;
    ParameterKept(c, xs[i], ys[i]);
    FindsEach(c.ad, ys, i);
    SchemaEntryMet(c, Parameter, xs[i], ys[i], true);
  }

  // ----- operations, paths, documents

  lemma OperationMet(c: Change, x: Json, y: Json)
    requires RefsGrow(c) && Grow(c, Operation, x, y)
    ensures Met(c, OperationGoal(c.bd, c.ad, x, y))
  {
    ResolveGrows(c, Operation, x, y);
    var b, a := Resolve(c.bd, x).fields, Resolve(c.ad, y).fields;
    OperationEntries(c, b, a);
    hide Resolve, Grow, GrowFields, RefsGrow, Met, ParametersGoal, BodyGoal, ResponsesGoal;
    ParametersMet(c, Field(b, "parameters"), Field(a, "parameters"));
    BodyMet(c, Field(b, "requestBody"), Field(a, "requestBody"));
    ResponsesMet(c, Field(b, "responses"), Field(a, "responses"));
    MetCheck(c, !SecurityRequired(b, a));
    var g1 := ParametersGoal(c.bd, c.ad, Field(b, "parameters"), Field(a, "parameters"));
    var g2 := Check(!SecurityRequired(b, a));
    var g3 := BodyGoal(c.bd, c.ad, Field(b, "requestBody"), Field(a, "requestBody"));
    MetBoth(c, g1, g2);
    MetBoth(c, Both(g1, g2), g3);
    MetBoth(c, Both(Both(g1, g2), g3), ResponsesGoal(c.bd, c.ad, Field(b, "responses"), Field(a, "responses")));
  }

  lemma OperationEntries(c: Change, b: Fields, a: Fields)
    requires GrowFields(c, Operation, b, a)
    ensures Grow(c, Parameters, Field(b, "parameters"), Field(a, "parameters"))
    ensures Grow(c, Body, Field(b, "requestBody"), Field(a, "requestBody"))
    ensures Grow(c, Responses, Field(b, "responses"), Field(a, "responses"))
    ensures !SecurityRequired(b, a)
  {
    NullGrows(c, Parameters);
    NullGrows(c, Body);
    NullGrows(c, Responses);
    hide Grow, GrowFields;
    EntryGrows(c, Operation, b, a, "parameters");
    EntryGrows(c, Operation, b, a, "requestBody");
    EntryGrows(c, Operation, b, a, "responses");
    LeafEntry(c, Operation, b, a, "security");
  }

  lemma PathMet(c: Change, path: string)
    requires Extends(c) && path in OpenApiDocument.Paths(c.bd)
    ensures Met(c, PathGoal(c.bd, c.ad, path))
  {
    EntryAt(c, Paths, Field(c.bd, "paths"), Field(c.ad, "paths"), path);
    var x, y := OpenApiDocument.Paths(c.bd)[path], OpenApiDocument.Paths(c.ad)[path];
    ResolveGrows(c, PathItem, x, y);
    var before, after := Resolve(c.bd, x).fields, Resolve(c.ad, y).fields;
    var f := MethodFamily(c.bd, c.ad, before, after);
    hide Resolve, Grow, RefsGrow, Met, OperationGoal;
    forall m | m in Elements(METHODS) ensures Met(c, f(m)) {
      if m in before {
        assert Grow(c, Child(PathItem, m), before[m], after[m]);
        OperationMet(c, before[m], after[m]);
      } else {
        MetCheck(c, true);
      }
    }
    MetAll(c, Elements(METHODS), f);
  }

  /** An extension is compatible, so nothing is reported. */
  lemma ExtensionIsCompatible(c: Change)
    requires Extends(c)
    ensures Compatible(c.bd, c.ad)
  {
    GrownIsPostFixed(c);
    var f := PathFamily(c.bd, c.ad);
    hide Extends, Met, PathGoal, PostFixed;
    forall p | p in OpenApiDocument.Paths(c.bd).Keys ensures Met(c, f(p)) {
      PathMet(c, p);
    }
    MetAll(c, OpenApiDocument.Paths(c.bd).Keys, f);
  }

  // ----- a document against itself

  /** References are used for one kind of thing, bodies are objects, parameters have distinct names. */
  ghost predicate Tidy(doc: Fields, typing: map<string, Kind>, kind: Kind, x: Json)
    decreases x
  {
    if kind == Parameters && x.Arr? then
      Distinct(doc, x.items) && forall i :: 0 <= i < |x.items| ==> Tidy(doc, typing, Parameter, x.items[i])
    else if kind != Leaf && x.Obj? then
      && (!IsContainer(kind) && IsLocal(RefOf(x.fields)) ==>
            RefOf(x.fields) in typing && typing[RefOf(x.fields)] == kind)
      && forall k :: k in x.fields ==> Tidy(doc, typing, Child(kind, k), x.fields[k])
    else kind == Body ==> x == Null
  }

  ghost predicate WellFormed(doc: Fields, typing: map<string, Kind>) {
    && Tidy(doc, typing, Paths, Field(doc, "paths"))
    && forall ref :: ref in typing && IsLocal(ref) && LocalPointer(doc, ref).Some? ==>
         Tidy(doc, typing, typing[ref], LocalPointer(doc, ref).value)
  }

  lemma {:induction false} TidyGrows(doc: Fields, typing: map<string, Kind>, kind: Kind, x: Json)
    requires Tidy(doc, typing, kind, x)
    ensures Grow(Change(doc, doc, typing), kind, x, x)
    decreases x
  {
    var c := Change(doc, doc, typing);
    if kind == Parameters && x.Arr? {
      forall i | 0 <= i < |x.items| ensures Grow(c, Parameter, x.items[i], x.items[i]) {
        TidyGrows(doc, typing, Parameter, x.items[i]);
      }
    } else if kind != Leaf && x.Obj? {
      forall k | k in x.fields ensures Grow(c, Child(kind, k), x.fields[k], x.fields[k]) {
        TidyGrows(doc, typing, Child(kind, k), x.fields[k]);
      }
    }
  }

  /** A well-formed document is an extension of itself. */
  lemma WellFormedExtendsItself(doc: Fields, typing: map<string, Kind>)
    requires WellFormed(doc, typing)
    ensures Extends(Change(doc, doc, typing))
  {
    TidyGrows(doc, typing, Paths, Field(doc, "paths"));
    forall ref | ref in typing && IsLocal(ref) && LocalPointer(doc, ref).Some?
      ensures RefGrows(Change(doc, doc, typing), ref)
    {
      TidyGrows(doc, typing, typing[ref], LocalPointer(doc, ref).value);
    }
  }

  /** The gate never stops an additive change. */
  method AdditiveChangePasses(before: Fields, after: Fields, ghost typing: map<string, Kind>) returns (violations: seq<Violation>)
    requires Extends(Change(before, after, typing))
    ensures violations == []
  {
    violations := CompareOpenApi(before, after);
    ExtensionIsCompatible(Change(before, after, typing));
  }
}
