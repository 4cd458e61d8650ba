/** The document level of the comparator: paths, methods, parameters, bodies, responses. Each part
of a document states its goal (what must be there, and which schemas must be compatible), and each
method decides its goal. */
module OpenApiDocument {
  import opened Json
  import opened OpenApiResolve
  import opened OpenApiRules
  import opened OpenApiCompare
  import Text

  const METHODS := ["delete", "get", "head", "options", "patch", "post", "put", "trace"]

  const NOTHING := Goal(true, {})
  const REMOVED := Goal(false, {})

  function Check(ok: bool): Goal {
    Goal(ok, {})
  }

  /** All goals of a family together. */
  function GoalAll<T>(items: set<T>, f: T -> Goal): Goal {
    Goal(forall x :: x in items ==> f(x).ok, set x, u | x in items && u in f(x).uses :: u)
  }

  lemma GoalAllStep<T>(items: set<T>, x: T, f: T -> Goal)
    ensures Both(GoalAll(items, f), f(x)) == GoalAll(items + {x}, f)
  {
  }

  lemma GoalAllHas<T>(items: set<T>, x: T, f: T -> Goal, D: iset<Use>)
    requires x in items && AllIn(D, GoalAll(items, f).uses)
    ensures AllIn(D, f(x).uses)
  {
  }

  /** The first i elements, as a set. */
  function Taken<T>(items: seq<T>, i: nat): set<T>
    requires i <= |items|
  {
    set x | x in items[..i]
  }

  function Elements<T>(items: seq<T>): set<T> {
    set x | x in items
  }

  lemma TakenElements<T>(items: seq<T>)
    ensures Taken(items, |items|) == Elements(items)
    ensures forall i :: 0 <= i < |items| ==> items[i] in Elements(items)
  {
    assert items[..|items|] == items;
  }

  lemma TakenStep<T>(items: seq<T>, i: nat)
    requires i < |items|
    ensures Taken(items, i + 1) == Taken(items, i) + {items[i]}
  {
    assert items[..i + 1] == items[..i] + [items[i]];
  }

  lemma TakenAll<T>(items: seq<T>, all: set<T>)
    requires forall x :: x in items <==> x in all
    ensures Taken(items, |items|) == all
  {
    assert items[..|items|] == items;
  }

  lemma GoalAllNone<T>(f: T -> Goal)
    ensures GoalAll({}, f) == NOTHING
  {
  }

  // ----- goals

  function Paths(doc: Fields): Fields {
    FieldsOf(Field(doc, "paths"))
  }

  function StringField(f: Fields, key: string): string {
    match Field(f, key) case Str(s) => s case _ => ""
  }

  function ParameterKey(p: Fields): string {
    StringField(p, "in") + ":" + StringField(p, "name")
  }

  predicate Named(p: Fields) {
    StringField(p, "name") != "" && StringField(p, "in") != ""
  }

  /** The map the comparator builds of the new parameters: a later one replaces an earlier one. */
  function AfterParameters(ad: Fields, items: seq<Json>): map<string, Json> {
    if items == [] then map[]
    else
      var rest := AfterParameters(ad, items[..|items| - 1]);
      var last := items[|items| - 1];
      var p := Resolve(ad, last).fields;
      if Named(p) then rest[ParameterKey(p) := last] else rest
  }

  /** Item i declares a parameter under the key: it has a location and a name, and they give the key. */
  predicate DeclaresAt(ad: Fields, items: seq<Json>, i: nat, key: string)
    requires i < |items|
  {
    var p := Resolve(ad, items[i]).fields;
    var location, name := StringField(p, "in"), StringField(p, "name");
    location != "" && name != "" && key == location + ":" + name
  }

  /** And no later one does. */
  ghost predicate DeclaresLast(ad: Fields, items: seq<Json>, i: nat, key: string) {
    i < |items| && DeclaresAt(ad, items, i, key) && forall j :: i < j < |items| ==> !DeclaresAt(ad, items, j, key)
  }

  lemma DeclaresInit(ad: Fields, items: seq<Json>, i: nat, key: string)
    requires i < |items| - 1
    ensures DeclaresLast(ad, items, i, key) <==>
            DeclaresLast(ad, items[..|items| - 1], i, key) && !DeclaresAt(ad, items, |items| - 1, key)
  {
    var init := items[..|items| - 1];
    assert forall j :: 0 <= j < |init| ==> (DeclaresAt(ad, init, j, key) <==> DeclaresAt(ad, items, j, key));
    hide DeclaresAt;
  }

  lemma LastParameter(ad: Fields, items: seq<Json>, key: string)
    requires items != []
    ensures var n := |items| - 1;
            var rest, all := AfterParameters(ad, items[..n]), AfterParameters(ad, items);
            if DeclaresAt(ad, items, n, key) then key in all && all[key] == items[n]
            else (key in all <==> key in rest) && (key in all ==> all[key] == rest[key])
  {
  }

  /** The map holds, under each key that an item declares, the last item that does. */
  lemma {:induction false} DeclaredIsThere(ad: Fields, items: seq<Json>, i: nat, key: string)
    requires DeclaresLast(ad, items, i, key)
    ensures key in AfterParameters(ad, items) && AfterParameters(ad, items)[key] == items[i]
  {
    LastParameter(ad, items, key);
    var n := |items| - 1;
    if i < n {
      DeclaresInit(ad, items, i, key);
      hide AfterParameters, DeclaresAt;
      DeclaredIsThere(ad, items[..n], i, key);
    }
  }

  /** And nothing else. */
  lemma {:induction false} ThereIsDeclared(ad: Fields, items: seq<Json>, key: string) returns (i: nat)
    requires key in AfterParameters(ad, items)
    ensures DeclaresLast(ad, items, i, key)
  {
    LastParameter(ad, items, key);
    i := |items| - 1;
    if !DeclaresAt(ad, items, i, key) {
      var n := i;
      i := ThereIsDeclared(ad, items[..n], key);
      DeclaresInit(ad, items, i, key);
    }
  }

  predicate BecameRequired(b: Fields, a: Fields) {
    !IsTrue(Field(b, "required")) && IsTrue(Field(a, "required"))
  }

  function ParameterGoal(bd: Fields, ad: Fields, after: map<string, Json>, value: Json): Goal {
    var p := Resolve(bd, value).fields;
    if ParameterKey(p) !in after then REMOVED
    else
      var q := Resolve(ad, after[ParameterKey(p)]).fields;
      Both(Check(!BecameRequired(p, q)), Goal(true, {Use(Field(p, "schema"), Field(q, "schema"), true)}))
  }

  function ParameterFamily(bd: Fields, ad: Fields, after: map<string, Json>): Json -> Goal {
    v => ParameterGoal(bd, ad, after, v)
  }

  function ParametersGoal(bd: Fields, ad: Fields, x: Json, y: Json): Goal {
    GoalAll(Elements(ItemsOf(x)), ParameterFamily(bd, ad, AfterParameters(ad, ItemsOf(y))))
  }

  predicate SecurityRequired(b: Fields, a: Fields) {
    ("security" !in b || b["security"] == Arr([])) && "security" in a && a["security"] != Arr([])
  }

  function MediaGoal(bd: Fields, ad: Fields, before: Fields, after: Fields, request: bool, mediaType: string): Goal {
    if mediaType !in after then REMOVED
    else Goal(true, {Use(Field(Resolve(bd, Field(before, mediaType)).fields, "schema"),
                         Field(Resolve(ad, after[mediaType]).fields, "schema"), request)})
  }

  function MediaFamily(bd: Fields, ad: Fields, before: Fields, after: Fields, request: bool): string -> Goal {
    m => MediaGoal(bd, ad, before, after, request, m)
  }

  lemma MediaFamilyAt(bd: Fields, ad: Fields, before: Fields, after: Fields, request: bool, m: string)
    ensures MediaFamily(bd, ad, before, after, request)(m) == MediaGoal(bd, ad, before, after, request, m)
  {
  }

  function ContentGoal(bd: Fields, ad: Fields, x: Json, y: Json, request: bool): Goal {
    GoalAll(FieldsOf(x).Keys, MediaFamily(bd, ad, FieldsOf(x), FieldsOf(y), request))
  }

  function BodyGoal(bd: Fields, ad: Fields, x: Json, y: Json): Goal {
    if x == Null then NOTHING
    else if !y.Obj? then REMOVED
    else
      var b, a := Resolve(bd, x).fields, Resolve(ad, y).fields;
      Both(Check(!BecameRequired(b, a)), ContentGoal(bd, ad, Field(b, "content"), Field(a, "content"), true))
  }

  function ResponseGoal(bd: Fields, ad: Fields, before: Fields, after: Fields, status: string): Goal {
    if status !in after then REMOVED
    else ContentGoal(bd, ad, Field(Resolve(bd, Field(before, status)).fields, "content"),
                     Field(Resolve(ad, after[status]).fields, "content"), false)
  }

  function ResponseFamily(bd: Fields, ad: Fields, before: Fields, after: Fields): string -> Goal {
    s => ResponseGoal(bd, ad, before, after, s)
  }

  function ResponsesGoal(bd: Fields, ad: Fields, x: Json, y: Json): Goal {
    GoalAll(FieldsOf(x).Keys, ResponseFamily(bd, ad, FieldsOf(x), FieldsOf(y)))
  }

  function OperationGoal(bd: Fields, ad: Fields, x: Json, y: Json): Goal {
    var b, a := Resolve(bd, x).fields, Resolve(ad, y).fields;
    Both(Both(Both(ParametersGoal(bd, ad, Field(b, "parameters"), Field(a, "parameters")),
                   Check(!SecurityRequired(b, a))),
              BodyGoal(bd, ad, Field(b, "requestBody"), Field(a, "requestBody"))),
         ResponsesGoal(bd, ad, Field(b, "responses"), Field(a, "responses")))
  }

  function MethodGoal(bd: Fields, ad: Fields, before: Fields, after: Fields, m: string): Goal {
    if m !in before then NOTHING
    else if m !in after then REMOVED
    else OperationGoal(bd, ad, before[m], after[m])
  }

  function MethodFamily(bd: Fields, ad: Fields, before: Fields, after: Fields): string -> Goal {
    m => MethodGoal(bd, ad, before, after, m)
  }

  function PathGoal(bd: Fields, ad: Fields, path: string): Goal {
    if path !in Paths(ad) then REMOVED
    else
      var before, after := Resolve(bd, Field(Paths(bd), path)).fields, Resolve(ad, Paths(ad)[path]).fields;
      GoalAll(Elements(METHODS), MethodFamily(bd, ad, before, after))
  }

  function PathFamily(bd: Fields, ad: Fields): string -> Goal {
    p => PathGoal(bd, ad, p)
  }

  function DocumentGoal(bd: Fields, ad: Fields): Goal {
    GoalAll(Paths(bd).Keys, PathFamily(bd, ad))
  }

  /** The new document is compatible with the old: nothing is gone, nothing became mandatory, and
  one compatibility relation covers every schema in use. */
  ghost predicate Compatible(bd: Fields, ad: Fields) {
    exists R :: PostFixed(bd, ad, R) && Meets(bd, ad, R, DocumentGoal(bd, ad))
  }

  /** Every closed set of uses that starts with those of the operations has u. */
  ghost predicate Reachable(bd: Fields, ad: Fields, u: Use) {
    forall E: iset<Use> :: Closed(bd, ad, E) && AllIn(E, DocumentGoal(bd, ad).uses) ==> u in E
  }

  /** The schema uses the comparison can meet. */
  ghost function Reach(bd: Fields, ad: Fields): iset<Use> {
    iset u | Reachable(bd, ad, u)
  }

  lemma ReachIsClosed(bd: Fields, ad: Fields)
    ensures Closed(bd, ad, Reach(bd, ad)) && AllIn(Reach(bd, ad), DocumentGoal(bd, ad).uses)
  {
    var D := Reach(bd, ad);
    forall u, c | u in D && u.x.Obj? && u.y.Obj? && c in ChildUses(NodeOf(bd, ad, u)) ensures c in D {
      forall E: iset<Use> | Closed(bd, ad, E) && AllIn(E, DocumentGoal(bd, ad).uses) ensures c in E {
        assert u in E;
        assert AllIn(E, ChildUses(NodeOf(bd, ad, u)));
      }
    }
  }

  // ----- the methods

  ghost predicate Fit(c: Comparator, g: Goal)
    reads c
  {
    c.Valid() && AllIn(c.D, g.uses)
  }

  twostate predicate Decided(c: Comparator, g: Goal)
    reads c
  {
    c.Valid() && Verdict(c.bd, c.ad, c.D, old(c.Now()), c.Now(), g)
  }

  lemma FieldKnown(doc: Fields, value: Json, key: string)
    requires Known(doc, value)
    ensures Known(doc, Field(Resolve(doc, value).fields, key))
    ensures Known(doc, Field(FieldsOf(value), key))
  {
    ResolveInside(doc, value);
    if value.Obj? && key in value.fields {
      ChildInside(Obj(doc), value, key);
    }
  }

  /** A report that stands for a failed check, or for none. */
  method Report(c: Comparator, ok: bool, rule: string, operation: string, location: string)
    requires c.Valid()
    modifies c
    ensures Decided(c, Check(ok))
    ensures c.violations == old(c.violations) + if ok then [] else [Violation(rule, operation, location)]
  {
    c.AddUnless(ok, rule, operation, location);
  }

  method CompareMedia(c: Comparator, operation: string, location: string, before: Fields, after: Fields,
                      request: bool, mediaType: string)
    requires Fit(c, MediaGoal(c.bd, c.ad, before, after, request, mediaType))
    requires Known(c.bd, Field(before, mediaType)) && Known(c.ad, Field(after, mediaType))
    modifies c
    ensures Decided(c, MediaGoal(c.bd, c.ad, before, after, request, mediaType))
  {
    if mediaType !in after {
      Report(c, false, MediaRule(request), operation, location);
    } else {
      var b := ResolveLoop(c.bd, Field(before, mediaType));
      var a := ResolveLoop(c.ad, after[mediaType]);
      FieldKnown(c.bd, Field(before, mediaType), "schema");
      FieldKnown(c.ad, after[mediaType], "schema");
      c.CompareSchema(operation, location + " " + mediaType, Field(b.fields, "schema"), Field(a.fields, "schema"), request);
    }
  }

  method CompareContent(c: Comparator, operation: string, location: string, x: Json, y: Json, request: bool)
    requires Fit(c, ContentGoal(c.bd, c.ad, x, y, request)) && Known(c.bd, x) && Known(c.ad, y)
    modifies c
    ensures Decided(c, ContentGoal(c.bd, c.ad, x, y, request))
  {
    var before, after := FieldsOf(x), FieldsOf(y);
    var names := Text.SortedKeys(before.Keys);
    ghost var f := MediaFamily(c.bd, c.ad, before, after, request);
    GoalAllNone(f);
    VerdictLocal(c.bd, c.ad, c.D, c.Now(), c.Now(), true);
    TakenAll(names, before.Keys);
    hide Taken, Verdict, GoalAll, MediaGoal, MediaFamily, Ledger, Closed, SubValues, Resolve;
    for i := 0 to |names|
      invariant Decided(c, GoalAll(Taken(names, i), f))
    {
      var mediaType := names[i];
      assert mediaType in names;
      FieldKnown(c.bd, x, mediaType);
      FieldKnown(c.ad, y, mediaType);
      GoalAllHas(before.Keys, mediaType, f, c.D);
      ghost var s := c.Now();
      MediaFamilyAt(c.bd, c.ad, before, after, request, mediaType);
      CompareMedia(c, operation, location, before, after, request, mediaType);
      VerdictSeq(c.bd, c.ad, c.D, old(c.Now()), s, c.Now(), GoalAll(Taken(names, i), f), f(mediaType));
      GoalAllStep(Taken(names, i), mediaType, f);
      TakenStep(names, i);
    }
  }

  /** The new parameters by location and name. */
  method CollectParameters(ad: Fields, items: seq<Json>) returns (after: map<string, Json>)
    ensures after == AfterParameters(ad, items)
  {
    after := map[];
    for i := 0 to |items|
      invariant after == AfterParameters(ad, items[..i])
    {
      assert items[..i + 1][..i] == items[..i];
      var p := ResolveLoop(ad, items[i]);
      if Named(p.fields) {
        after := after[ParameterKey(p.fields) := items[i]];
      }
    }
    assert items[..|items|] == items;
  }

  ghost predicate AllKnown(doc: Fields, m: map<string, Json>) {
    forall k :: k in m ==> Known(doc, m[k])
  }

  lemma {:induction false} AfterParametersKnown(ad: Fields, y: Json, n: nat)
    requires Known(ad, y) && n <= |ItemsOf(y)|
    ensures AllKnown(ad, AfterParameters(ad, ItemsOf(y)[..n]))
  {
    var items := ItemsOf(y);
    if n > 0 {
      AfterParametersKnown(ad, y, n - 1);
      assert items[..n][..n - 1] == items[..n - 1];
      ItemKnown(ad, y, n - 1);
    }
  }

  lemma ItemKnown(doc: Fields, value: Json, i: nat)
    requires Known(doc, value) && i < |ItemsOf(value)|
    ensures Known(doc, ItemsOf(value)[i])
  {
    assert value.items[i] in SubValues(value.items[i]);
    assert value.items[i] in SubValues(value);
    SubValuesTransitive(Obj(doc), value);
  }

  method CompareParameter(c: Comparator, operation: string, after: map<string, Json>, value: Json)
    requires Fit(c, ParameterGoal(c.bd, c.ad, after, value)) && Known(c.bd, value) && AllKnown(c.ad, after)
    modifies c
    ensures Decided(c, ParameterGoal(c.bd, c.ad, after, value))
  {
    var p := ResolveLoop(c.bd, value);
    var key := ParameterKey(p.fields);
    if key !in after {
      Report(c, false, "openapi-parameter-removed", operation, "parameter " + key);
    } else {
      var q := ResolveLoop(c.ad, after[key]);
      FieldKnown(c.bd, value, "schema");
      FieldKnown(c.ad, after[key], "schema");
      hide Verdict, Ledger, Closed, SubValues, Resolve;
      Report(c, !BecameRequired(p.fields, q.fields), "openapi-parameter-required", operation, "parameter " + key);
      ghost var s := c.Now();
      c.CompareSchema(operation, "parameter " + key, Field(p.fields, "schema"), Field(q.fields, "schema"), true);
      VerdictSeq(c.bd, c.ad, c.D, old(c.Now()), s, c.Now(), Check(!BecameRequired(p.fields, q.fields)),
                 Goal(true, {Use(Field(p.fields, "schema"), Field(q.fields, "schema"), true)}));
    }
  }

  method CompareParameters(c: Comparator, operation: string, x: Json, y: Json)
    requires Fit(c, ParametersGoal(c.bd, c.ad, x, y)) && Known(c.bd, x) && Known(c.ad, y)
    modifies c
    ensures Decided(c, ParametersGoal(c.bd, c.ad, x, y))
  {
    var after := CollectParameters(c.ad, ItemsOf(y));
    AfterParametersKnown(c.ad, y, |ItemsOf(y)|);
    assert ItemsOf(y)[..|ItemsOf(y)|] == ItemsOf(y);
    var items := ItemsOf(x);
    ghost var f := ParameterFamily(c.bd, c.ad, after);
    GoalAllNone(f);
    VerdictLocal(c.bd, c.ad, c.D, c.Now(), c.Now(), true);
    TakenElements(items);
    hide Taken, Elements, AfterParameters, Verdict, GoalAll, ParameterGoal, Ledger, Closed, SubValues, Resolve;
    for i := 0 to |items|
      invariant Decided(c, GoalAll(Taken(items, i), f))
    {
      ItemKnown(c.bd, x, i);
      GoalAllHas(Elements(items), items[i], f, c.D);
      ghost var s := c.Now();
      CompareParameter(c, operation, after, items[i]);
      VerdictSeq(c.bd, c.ad, c.D, old(c.Now()), s, c.Now(), GoalAll(Taken(items, i), f), f(items[i]));
      GoalAllStep(Taken(items, i), items[i], f);
      TakenStep(items, i);
    }
  }

  method CompareRequestBody(c: Comparator, operation: string, x: Json, y: Json)
    requires Fit(c, BodyGoal(c.bd, c.ad, x, y)) && Known(c.bd, x) && Known(c.ad, y)
    modifies c
    ensures Decided(c, BodyGoal(c.bd, c.ad, x, y))
  {
    if x == Null {
      VerdictLocal(c.bd, c.ad, c.D, c.Now(), c.Now(), true);
      return;
    }
    var before := ResolveLoop(c.bd, x);
    var after := ResolveLoop(c.ad, y);
    if !after.found {
      Report(c, false, "openapi-request-body-removed", operation, "request");
      return;
    }
    var b, a := before.fields, after.fields;
    FieldKnown(c.bd, x, "content");
    FieldKnown(c.ad, y, "content");
    hide Verdict, Ledger, Closed, SubValues, Resolve, ContentGoal;
    Report(c, !BecameRequired(b, a), "openapi-request-body-required", operation, "request");
    ghost var s := c.Now();
    CompareContent(c, operation, "request", Field(b, "content"), Field(a, "content"), true);
    VerdictSeq(c.bd, c.ad, c.D, old(c.Now()), s, c.Now(), Check(!BecameRequired(b, a)),
               ContentGoal(c.bd, c.ad, Field(b, "content"), Field(a, "content"), true));
  }

  method CompareResponse(c: Comparator, operation: string, before: Fields, after: Fields, status: string)
    requires Fit(c, ResponseGoal(c.bd, c.ad, before, after, status))
    requires Known(c.bd, Field(before, status)) && Known(c.ad, Field(after, status))
    modifies c
    ensures Decided(c, ResponseGoal(c.bd, c.ad, before, after, status))
  {
    var b := ResolveLoop(c.bd, Field(before, status));
    if status !in after {
      Report(c, false, "openapi-response-removed", operation, "response " + status);
    } else {
      var a := ResolveLoop(c.ad, after[status]);
      FieldKnown(c.bd, Field(before, status), "content");
      FieldKnown(c.ad, after[status], "content");
      CompareContent(c, operation, "response " + status, Field(b.fields, "content"), Field(a.fields, "content"), false);
    }
  }

  method CompareResponses(c: Comparator, operation: string, x: Json, y: Json)
    requires Fit(c, ResponsesGoal(c.bd, c.ad, x, y)) && Known(c.bd, x) && Known(c.ad, y)
    modifies c
    ensures Decided(c, ResponsesGoal(c.bd, c.ad, x, y))
  {
    var before, after := FieldsOf(x), FieldsOf(y);
    var names := Text.SortedKeys(before.Keys);
    ghost var f := ResponseFamily(c.bd, c.ad, before, after);
    GoalAllNone(f);
    VerdictLocal(c.bd, c.ad, c.D, c.Now(), c.Now(), true);
    TakenAll(names, before.Keys);
    hide Taken, Verdict, GoalAll, ResponseGoal, Ledger, Closed, SubValues, Resolve;
    for i := 0 to |names|
      invariant Decided(c, GoalAll(Taken(names, i), f))
    {
      var status := names[i];
      assert status in names;
      FieldKnown(c.bd, x, status);
      FieldKnown(c.ad, y, status);
      GoalAllHas(before.Keys, status, f, c.D);
      ghost var s := c.Now();
      CompareResponse(c, operation, before, after, status);
      VerdictSeq(c.bd, c.ad, c.D, old(c.Now()), s, c.Now(), GoalAll(Taken(names, i), f), f(status));
      GoalAllStep(Taken(names, i), status, f);
      TakenStep(names, i);
    }
  }

  lemma FitPart(D: iset<Use>, g: Goal, h: Goal)
    requires AllIn(D, Both(g, h).uses)
    ensures AllIn(D, g.uses) && AllIn(D, h.uses)
  {
  }

  method CompareOperation(c: Comparator, operation: string, x: Json, y: Json)
    requires Fit(c, OperationGoal(c.bd, c.ad, x, y)) && Known(c.bd, x) && Known(c.ad, y)
    modifies c
    ensures Decided(c, OperationGoal(c.bd, c.ad, x, y))
  {
    var before := ResolveLoop(c.bd, x);
    var after := ResolveLoop(c.ad, y);
    var b, a := before.fields, after.fields;
    FieldKnown(c.bd, x, "parameters");
    FieldKnown(c.ad, y, "parameters");
    FieldKnown(c.bd, x, "requestBody");
    FieldKnown(c.ad, y, "requestBody");
    FieldKnown(c.bd, x, "responses");
    FieldKnown(c.ad, y, "responses");
    ghost var g1, g2 := ParametersGoal(c.bd, c.ad, Field(b, "parameters"), Field(a, "parameters")), Check(!SecurityRequired(b, a));
    ghost var g3 := BodyGoal(c.bd, c.ad, Field(b, "requestBody"), Field(a, "requestBody"));
    ghost var g4 := ResponsesGoal(c.bd, c.ad, Field(b, "responses"), Field(a, "responses"));
    hide Verdict, Ledger, Closed, SubValues, Resolve, ParametersGoal, BodyGoal, ResponsesGoal, AllIn, Both, Known;
    FitPart(c.D, Both(Both(g1, g2), g3), g4);
    FitPart(c.D, Both(g1, g2), g3);
    FitPart(c.D, g1, g2);
    CompareParameters(c, operation, Field(b, "parameters"), Field(a, "parameters"));
    ghost var s1 := c.Now();
    Report(c, !SecurityRequired(b, a), "openapi-security-required", operation, "");
    ghost var s2 := c.Now();
    CompareRequestBody(c, operation, Field(b, "requestBody"), Field(a, "requestBody"));
    ghost var s3 := c.Now();
    CompareResponses(c, operation, Field(b, "responses"), Field(a, "responses"));
    VerdictSeq(c.bd, c.ad, c.D, old(c.Now()), s1, s2, g1, g2);
    VerdictSeq(c.bd, c.ad, c.D, old(c.Now()), s2, s3, Both(g1, g2), g3);
    VerdictSeq(c.bd, c.ad, c.D, old(c.Now()), s3, c.Now(), Both(Both(g1, g2), g3), g4);
  }

  /** `strings.ToUpper` on a method name. */
  function Upper(s: string): string {
    seq(|s|, i requires 0 <= i < |s| => if 'a' <= s[i] <= 'z' then s[i] - 'a' + 'A' else s[i])
  }

  method CompareMethod(c: Comparator, path: string, before: Fields, after: Fields, m: string)
    requires Fit(c, MethodGoal(c.bd, c.ad, before, after, m))
    requires Known(c.bd, Field(before, m)) && Known(c.ad, Field(after, m))
    modifies c
    ensures Decided(c, MethodGoal(c.bd, c.ad, before, after, m))
  {
    hide OperationGoal, Upper;
    if m !in before {
      VerdictLocal(c.bd, c.ad, c.D, c.Now(), c.Now(), true);
    } else if m !in after {
      Report(c, false, "openapi-method-removed", Upper(m) + " " + path, "");
    } else {
      CompareOperation(c, Upper(m) + " " + path, before[m], after[m]);
    }
  }

  method ComparePath(c: Comparator, path: string)
    requires Fit(c, PathGoal(c.bd, c.ad, path)) && path in Paths(c.bd)
    modifies c
    ensures Decided(c, PathGoal(c.bd, c.ad, path))
  {
    PathKnown(c.bd, path);
    PathKnown(c.ad, path);
    var before := ResolveLoop(c.bd, Paths(c.bd)[path]);
    if path !in Paths(c.ad) {
      Report(c, false, "openapi-path-removed", path, "");
      return;
    }
    var after := ResolveLoop(c.ad, Paths(c.ad)[path]);
    ghost var f := MethodFamily(c.bd, c.ad, before.fields, after.fields);
    GoalAllNone(f);
    VerdictLocal(c.bd, c.ad, c.D, c.Now(), c.Now(), true);
    TakenElements(METHODS);
    hide Taken, Elements, Verdict, GoalAll, MethodGoal, Ledger, Closed, SubValues, Resolve;
    for i := 0 to |METHODS|
      invariant Decided(c, GoalAll(Taken(METHODS, i), f))
    {
      var m := METHODS[i];
      FieldKnown(c.bd, Paths(c.bd)[path], m);
      FieldKnown(c.ad, Paths(c.ad)[path], m);
      GoalAllHas(Elements(METHODS), m, f, c.D);
      ghost var s := c.Now();
      CompareMethod(c, path, before.fields, after.fields, m);
      VerdictSeq(c.bd, c.ad, c.D, old(c.Now()), s, c.Now(), GoalAll(Taken(METHODS, i), f), f(m));
      GoalAllStep(Taken(METHODS, i), m, f);
      TakenStep(METHODS, i);
    }
  }

  lemma PathKnown(doc: Fields, path: string)
    ensures path in Paths(doc) ==> Known(doc, Paths(doc)[path])
  {
    if path in Paths(doc) {
      ChildInside(Obj(doc), Obj(doc), "paths");
      ChildInside(Obj(doc), doc["paths"], path);
    }
  }

  /** The comparator's verdict on two documents. A compatible change is never reported; and where
  keys identify the pairs reached, silence proves the change compatible. */
  method CompareOpenApi(before: Fields, after: Fields) returns (violations: seq<Violation>)
    ensures Compatible(before, after) ==> violations == []
    ensures Faithful(before, after, Reach(before, after)) ==> (violations == [] ==> Compatible(before, after))
  {
    ReachIsClosed(before, after);
    var c := new Comparator(before, after, Reach(before, after));
    var names := Text.SortedKeys(Paths(before).Keys);
    ghost var f := PathFamily(before, after);
    ghost var start := c.Now();
    GoalAllNone(f);
    VerdictLocal(before, after, c.D, start, start, true);
    TakenAll(names, Paths(before).Keys);
    hide Taken, Verdict, GoalAll, PathGoal, Ledger, Closed, SubValues, Resolve, Reach, Faithful;
    for i := 0 to |names|
      invariant c.Valid() && c.bd == before && c.ad == after
      invariant Verdict(before, after, c.D, start, c.Now(), GoalAll(Taken(names, i), f))
    {
      assert names[i] in names;
      GoalAllHas(Paths(before).Keys, names[i], f, c.D);
      ghost var s := c.Now();
      ComparePath(c, names[i]);
      VerdictSeq(before, after, c.D, start, s, c.Now(), GoalAll(Taken(names, i), f), f(names[i]));
      GoalAllStep(Taken(names, i), names[i], f);
      TakenStep(names, i);
    }
    violations := c.violations;
    Conclude(before, after, c.Now());
  }

  lemma Conclude(bd: Fields, ad: Fields, t: Progress)
    requires Verdict(bd, ad, Reach(bd, ad), Progress([], iset{}), t, DocumentGoal(bd, ad))
    ensures Compatible(bd, ad) ==> t.violations == []
    ensures Faithful(bd, ad, Reach(bd, ad)) && t.violations == [] ==> Compatible(bd, ad)
  {
    if Faithful(bd, ad, Reach(bd, ad)) && t.violations == [] {
      VerdictFromScratch(bd, ad, Reach(bd, ad), t, DocumentGoal(bd, ad));
    }
  }
}
