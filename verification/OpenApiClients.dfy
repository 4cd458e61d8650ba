/** What a comparison without reports means for clients: whole requests, with the values of their
parameters and their body, and whole responses. */
module OpenApiClients {
  import opened Json
  import opened OpenApiResolve
  import opened OpenApiRules
  import opened OpenApiCompare
  import opened OpenApiMeaning
  import opened OpenApiDocument
  import opened OpenApiSoundness

  datatype Content = Content(mediaType: string, value: Json)

  /** Parameter values stand under their location and name; credentials are there or not. */
  datatype Request = Request(params: map<string, Json>, body: Option<Content>, credentials: bool)

  datatype Response = Response(status: string, content: Option<Content>)

  // ----- the contract of one operation

  /** The parameters by location and name. */
  function Parameters(doc: Fields, op: Fields): map<string, Json> {
    AfterParameters(doc, ItemsOf(Field(op, "parameters")))
  }

  predicate RequiredIn(doc: Fields, value: Json) {
    IsTrue(Field(Resolve(doc, value).fields, "required"))
  }

  function SchemaIn(doc: Fields, value: Json): Json {
    Field(Resolve(doc, value).fields, "schema")
  }

  function ContentIn(doc: Fields, value: Json): Fields {
    FieldsOf(Field(Resolve(doc, value).fields, "content"))
  }

  ghost predicate TakesParameter(rest: Rest, doc: Fields, value: Json, params: map<string, Json>, k: string) {
    if k in params then Accepts(rest, doc, SchemaIn(doc, value), params[k]) else !RequiredIn(doc, value)
  }

  ghost predicate TakesContent(rest: Rest, doc: Fields, content: Fields, c: Content) {
    c.mediaType in content && Accepts(rest, doc, SchemaIn(doc, content[c.mediaType]), c.value)
  }

  ghost predicate TakesBody(rest: Rest, doc: Fields, value: Json, body: Option<Content>) {
    match body
    case None => value.Obj? ==> !RequiredIn(doc, value)
    case Some(c) => value.Obj? && TakesContent(rest, doc, ContentIn(doc, value), c)
  }

  ghost predicate TakesParameters(rest: Rest, doc: Fields, declared: map<string, Json>, params: map<string, Json>) {
    params.Keys <= declared.Keys && forall k :: k in declared ==> TakesParameter(rest, doc, declared[k], params, k)
  }

  /** A list of security requirements asks for credentials: there is one, and none of them is empty (section
  4.8.30 of OpenAPI 3.1.0). */
  predicate Guards(security: Json) {
    ItemsOf(security) != [] && Obj(map[]) !in ItemsOf(security)
  }

  /** The requirements of an operation: its own, or else those of the document. */
  function SecurityOf(doc: Fields, op: Fields): Json {
    if "security" in op then op["security"] else Field(doc, "security")
  }

  /** The operation accepts the request: it has values only for declared parameters, one for each required
  one, its body is of a declared media type, or absent and not required, and it has credentials if they are
  asked for. */
  ghost predicate Takes(rest: Rest, doc: Fields, op: Fields, r: Request) {
    && TakesParameters(rest, doc, Parameters(doc, op), r.params) && TakesBody(rest, doc, Field(op, "requestBody"), r.body)
    && (Guards(SecurityOf(doc, op)) ==> r.credentials)
  }

  /** The operation may answer so. */
  ghost predicate Gives(rest: Rest, doc: Fields, op: Fields, r: Response) {
    var responses := FieldsOf(Field(op, "responses"));
    && r.status in responses
    && (r.content.Some? ==> TakesContent(rest, doc, ContentIn(doc, responses[r.status]), r.content.value))
  }

  // ----- what the comparator does not look at

  /** A parameter the old operation does not have is required. */
  predicate NewParameterRequired(ad: Fields, before: map<string, Json>, after: map<string, Json>) {
    exists k :: k in after && k !in before && RequiredIn(ad, after[k])
  }

  /** A body is required where there was none. */
  predicate NewBodyRequired(ad: Fields, x: Json, y: Json) {
    x == Null && y.Obj? && RequiredIn(ad, y)
  }

  /** Credentials are asked for by requirements the comparator does not look into: those of the document, or
  those of an operation that had some of its own before. */
  predicate UnseenGuard(ad: Fields, b: Fields, a: Fields) {
    if "security" in a then Guards(a["security"]) && "security" in b && b["security"] != Arr([])
    else Guards(Field(ad, "security"))
  }

  predicate Demands(bd: Fields, ad: Fields, b: Fields, a: Fields, r: Request) {
    || NewParameterRequired(ad, Parameters(bd, b), Parameters(ad, a))
    || NewBodyRequired(ad, Field(b, "requestBody"), Field(a, "requestBody"))
    || (!r.credentials && UnseenGuard(ad, b, a))
  }

  /** The response has a status and a media type that the old operation declares. */
  predicate Expected(bd: Fields, b: Fields, r: Response) {
    var responses := FieldsOf(Field(b, "responses"));
    && r.status in responses
    && (r.content.Some? ==> r.content.value.mediaType in ContentIn(bd, responses[r.status]))
  }

  ghost predicate ParametersMeetNew(rest: Rest, bd: Fields, ad: Fields, before: map<string, Json>, after: map<string, Json>,
                                    params: map<string, Json>) {
    forall k :: k in params && k in before && k in after ==>
      NewOk(rest, bd, ad, SchemaIn(bd, before[k]), SchemaIn(ad, after[k]), params[k])
  }

  ghost predicate ContentMeetsNew(rest: Rest, bd: Fields, ad: Fields, before: Fields, after: Fields, c: Content) {
    c.mediaType in before && c.mediaType in after ==>
      NewOk(rest, bd, ad, SchemaIn(bd, before[c.mediaType]), SchemaIn(ad, after[c.mediaType]), c.value)
  }

  /** The values of the request meet what is new in the schemas of their parameters and of the body. */
  ghost predicate MeetsNew(rest: Rest, bd: Fields, ad: Fields, b: Fields, a: Fields, r: Request) {
    && ParametersMeetNew(rest, bd, ad, Parameters(bd, b), Parameters(ad, a), r.params)
    && (r.body.Some? ==>
          ContentMeetsNew(rest, bd, ad, ContentIn(bd, Field(b, "requestBody")), ContentIn(ad, Field(a, "requestBody")), r.body.value))
  }

  ghost predicate ContentMeetsOld(rest: Rest, bd: Fields, ad: Fields, before: Fields, after: Fields, c: Content) {
    c.mediaType in before && c.mediaType in after ==>
      OldOk(rest, bd, ad, SchemaIn(bd, before[c.mediaType]), SchemaIn(ad, after[c.mediaType]), c.value)
  }

  /** The value of the response meets what its old schema demanded and the comparator lets go. */
  ghost predicate MeetsOld(rest: Rest, bd: Fields, ad: Fields, b: Fields, a: Fields, r: Response) {
    var before, after := FieldsOf(Field(b, "responses")), FieldsOf(Field(a, "responses"));
    r.status in before && r.status in after && r.content.Some? ==>
      ContentMeetsOld(rest, bd, ad, ContentIn(bd, before[r.status]), ContentIn(ad, after[r.status]), r.content.value)
  }

  // ----- parts of a goal

  predicate Part(g: Goal, whole: Goal) {
    (whole.ok ==> g.ok) && g.uses <= whole.uses
  }

  lemma PartOfAll<T>(items: set<T>, x: T, f: T -> Goal)
    requires x in items
    ensures Part(f(x), GoalAll(items, f))
  {
  }

  /** The new parameters are those of the list, under their keys. */
  lemma {:induction false} ParameterFrom(doc: Fields, items: seq<Json>, k: string)
    requires k in AfterParameters(doc, items)
    ensures AfterParameters(doc, items)[k] in items
    ensures ParameterKey(Resolve(doc, AfterParameters(doc, items)[k]).fields) == k
  {
    hide Resolve;
    var n := |items| - 1;
    if k in AfterParameters(doc, items[..n]) {
      ParameterFrom(doc, items[..n], k);
    }
    assert items == items[..n] + [items[n]];
  }

  lemma ParameterKept(bd: Fields, ad: Fields, b: Fields, a: Fields, k: string)
    requires ParametersGoal(bd, ad, Field(b, "parameters"), Field(a, "parameters")).ok && k in Parameters(bd, b)
    ensures k in Parameters(ad, a)
    ensures var x, y := Parameters(bd, b)[k], Parameters(ad, a)[k];
            && (RequiredIn(ad, y) ==> RequiredIn(bd, x))
            && Use(SchemaIn(bd, x), SchemaIn(ad, y), true) in ParametersGoal(bd, ad, Field(b, "parameters"), Field(a, "parameters")).uses
  {
    var items, after := ItemsOf(Field(b, "parameters")), Parameters(ad, a);
    ParameterFrom(bd, items, k);
    var value := Parameters(bd, b)[k];
    PartOfAll(Elements(items), value, ParameterFamily(bd, ad, after));
    hide Resolve, AfterParameters, GoalAll;
    assert ParameterFamily(bd, ad, after)(value) == ParameterGoal(bd, ad, after, value);
  }

  lemma MediaKept(bd: Fields, ad: Fields, x: Json, y: Json, request: bool, m: string)
    requires ContentGoal(bd, ad, x, y, request).ok && m in FieldsOf(x)
    ensures m in FieldsOf(y)
    ensures Use(SchemaIn(bd, FieldsOf(x)[m]), SchemaIn(ad, FieldsOf(y)[m]), request) in ContentGoal(bd, ad, x, y, request).uses
  {
    PartOfAll(FieldsOf(x).Keys, m, MediaFamily(bd, ad, FieldsOf(x), FieldsOf(y), request));
    MediaFamilyAt(bd, ad, FieldsOf(x), FieldsOf(y), request, m);
    hide Resolve, GoalAll, MediaFamily;
  }

  lemma ResponseKept(bd: Fields, ad: Fields, x: Json, y: Json, status: string)
    requires ResponsesGoal(bd, ad, x, y).ok && status in FieldsOf(x)
    ensures status in FieldsOf(y)
    ensures Part(ContentGoal(bd, ad, Field(Resolve(bd, FieldsOf(x)[status]).fields, "content"),
                             Field(Resolve(ad, FieldsOf(y)[status]).fields, "content"), false), ResponsesGoal(bd, ad, x, y))
  {
    PartOfAll(FieldsOf(x).Keys, status, ResponseFamily(bd, ad, FieldsOf(x), FieldsOf(y)));
    hide Resolve, GoalAll, ContentGoal;
    assert ResponseFamily(bd, ad, FieldsOf(x), FieldsOf(y))(status) == ResponseGoal(bd, ad, FieldsOf(x), FieldsOf(y), status);
  }

  // ----- one operation

  /** What is known of a part that passed: its goal is met and its schemas are decided. */
  ghost predicate Passed(rest: Rest, bd: Fields, ad: Fields, g: Goal) {
    g.ok && forall u, v :: u in g.uses ==> UseDecided(rest, bd, ad, u, v)
  }

  lemma PartPassed(rest: Rest, bd: Fields, ad: Fields, g: Goal, whole: Goal)
    requires Passed(rest, bd, ad, whole) && Part(g, whole)
    ensures Passed(rest, bd, ad, g)
  {
  }

  /** A parameter of both operations. */
  lemma OldParameterTakenIff(rest: Rest, bd: Fields, ad: Fields, b: Fields, a: Fields, params: map<string, Json>, k: string)
    requires Passed(rest, bd, ad, ParametersGoal(bd, ad, Field(b, "parameters"), Field(a, "parameters"))) && k in Parameters(bd, b)
    requires TakesParameter(rest, bd, Parameters(bd, b)[k], params, k)
    ensures k in Parameters(ad, a)
    ensures TakesParameter(rest, ad, Parameters(ad, a)[k], params, k) <==>
            (k in params ==> NewOk(rest, bd, ad, SchemaIn(bd, Parameters(bd, b)[k]), SchemaIn(ad, Parameters(ad, a)[k]), params[k]))
  {
    ParameterKept(bd, ad, b, a, k);
    hide ParametersGoal, SchemaIn, RequiredIn, Parameters;
    if k in params {
      var u := Use(SchemaIn(bd, Parameters(bd, b)[k]), SchemaIn(ad, Parameters(ad, a)[k]), true);
      assert UseDecided(rest, bd, ad, u, params[k]);
    }
  }

  lemma ParametersTakenIff(rest: Rest, bd: Fields, ad: Fields, b: Fields, a: Fields, params: map<string, Json>)
    requires Passed(rest, bd, ad, ParametersGoal(bd, ad, Field(b, "parameters"), Field(a, "parameters")))
    requires TakesParameters(rest, bd, Parameters(bd, b), params)
    ensures TakesParameters(rest, ad, Parameters(ad, a), params) <==>
            && !NewParameterRequired(ad, Parameters(bd, b), Parameters(ad, a))
            && ParametersMeetNew(rest, bd, ad, Parameters(bd, b), Parameters(ad, a), params)
  {
    var before, after := Parameters(bd, b), Parameters(ad, a);
    forall k | k in before
      ensures k in after
      ensures TakesParameter(rest, ad, after[k], params, k) <==>
              (k in params ==> NewOk(rest, bd, ad, SchemaIn(bd, before[k]), SchemaIn(ad, after[k]), params[k]))
    {
      OldParameterTakenIff(rest, bd, ad, b, a, params, k);
    }
    hide Parameters, Passed;
    DeclaredTakenIff(rest, bd, ad, before, after, params);
  }

  lemma DeclaredTakenIff(rest: Rest, bd: Fields, ad: Fields, before: map<string, Json>, after: map<string, Json>, params: map<string, Json>)
    requires params.Keys <= before.Keys <= after.Keys
    requires forall k :: k in before ==>
               (TakesParameter(rest, ad, after[k], params, k) <==>
                (k in params ==> NewOk(rest, bd, ad, SchemaIn(bd, before[k]), SchemaIn(ad, after[k]), params[k])))
    ensures TakesParameters(rest, ad, after, params) <==>
            !NewParameterRequired(ad, before, after) && ParametersMeetNew(rest, bd, ad, before, after, params)
  {
    forall k | k in after && k !in before ensures TakesParameter(rest, ad, after[k], params, k) <==> !RequiredIn(ad, after[k]) {
    }
    hide TakesParameter, SchemaIn, RequiredIn;
    if TakesParameters(rest, ad, after, params) {
      assert forall k :: k in after ==> TakesParameter(rest, ad, after[k], params, k);
    }
  }

  lemma ContentTakenIff(rest: Rest, bd: Fields, ad: Fields, x: Json, y: Json, c: Content)
    requires Passed(rest, bd, ad, ContentGoal(bd, ad, x, y, true)) && TakesContent(rest, bd, FieldsOf(x), c)
    ensures TakesContent(rest, ad, FieldsOf(y), c) <==> ContentMeetsNew(rest, bd, ad, FieldsOf(x), FieldsOf(y), c)
  {
    var m := c.mediaType;
    MediaKept(bd, ad, x, y, true, m);
    hide ContentGoal, SchemaIn;
    assert UseDecided(rest, bd, ad, Use(SchemaIn(bd, FieldsOf(x)[m]), SchemaIn(ad, FieldsOf(y)[m]), true), c.value);
  }

  lemma BodyTakenIff(rest: Rest, bd: Fields, ad: Fields, x: Json, y: Json, body: Option<Content>)
    requires Passed(rest, bd, ad, BodyGoal(bd, ad, x, y)) && TakesBody(rest, bd, x, body)
    ensures TakesBody(rest, ad, y, body) <==>
            && !NewBodyRequired(ad, x, y)
            && (body.Some? ==> ContentMeetsNew(rest, bd, ad, ContentIn(bd, x), ContentIn(ad, y), body.value))
  {
    assert !x.Obj? ==> Resolve(bd, x).fields == map[];
    hide TakesContent, ContentMeetsNew, ContentGoal;
    if body.Some? {
      var b, a := Field(Resolve(bd, x).fields, "content"), Field(Resolve(ad, y).fields, "content");
      PartPassed(rest, bd, ad, ContentGoal(bd, ad, b, a, true), BodyGoal(bd, ad, x, y));
      ContentTakenIff(rest, bd, ad, b, a, body.value);
    }
  }

  lemma ContentGivenIff(rest: Rest, bd: Fields, ad: Fields, x: Json, y: Json, c: Content)
    requires Passed(rest, bd, ad, ContentGoal(bd, ad, x, y, false)) && TakesContent(rest, ad, FieldsOf(y), c)
    ensures TakesContent(rest, bd, FieldsOf(x), c) <==>
            c.mediaType in FieldsOf(x) && ContentMeetsOld(rest, bd, ad, FieldsOf(x), FieldsOf(y), c)
  {
    var m := c.mediaType;
    hide SchemaIn, ContentGoal;
    if m in FieldsOf(x) {
      MediaKept(bd, ad, x, y, false, m);
      assert UseDecided(rest, bd, ad, Use(SchemaIn(bd, FieldsOf(x)[m]), SchemaIn(ad, FieldsOf(y)[m]), false), c.value);
    }
  }

  lemma CredentialsTakenIff(bd: Fields, ad: Fields, b: Fields, a: Fields, r: Request)
    requires !SecurityRequired(b, a) && (Guards(SecurityOf(bd, b)) ==> r.credentials)
    ensures (Guards(SecurityOf(ad, a)) ==> r.credentials) <==> r.credentials || !UnseenGuard(ad, b, a)
  {
  }

  /** An old request is accepted exactly when nothing new is demanded of it: no parameter or body it need not
  have had, and of its values only what they meet. */
  lemma RequestTakenIff(rest: Rest, bd: Fields, ad: Fields, x: Json, y: Json, r: Request)
    requires Passed(rest, bd, ad, OperationGoal(bd, ad, x, y)) && Takes(rest, bd, Resolve(bd, x).fields, r)
    ensures var b, a := Resolve(bd, x).fields, Resolve(ad, y).fields;
            Takes(rest, ad, a, r) <==> !Demands(bd, ad, b, a, r) && MeetsNew(rest, bd, ad, b, a, r)
  {
    var b, a := Resolve(bd, x).fields, Resolve(ad, y).fields;
    hide ParametersGoal, BodyGoal, ResponsesGoal, TakesParameters, TakesBody, Parameters, ParametersMeetNew, ContentMeetsNew, Guards, UnseenGuard;
    PartPassed(rest, bd, ad, ParametersGoal(bd, ad, Field(b, "parameters"), Field(a, "parameters")), OperationGoal(bd, ad, x, y));
    PartPassed(rest, bd, ad, BodyGoal(bd, ad, Field(b, "requestBody"), Field(a, "requestBody")), OperationGoal(bd, ad, x, y));
    ParametersTakenIff(rest, bd, ad, b, a, r.params);
    BodyTakenIff(rest, bd, ad, Field(b, "requestBody"), Field(a, "requestBody"), r.body);
    CredentialsTakenIff(bd, ad, b, a, r);
  }

  /** A new response was possible before exactly when its status and its media type were declared and its value
  meets what the old schema demanded. */
  lemma ResponseGivenIff(rest: Rest, bd: Fields, ad: Fields, x: Json, y: Json, r: Response)
    requires Passed(rest, bd, ad, OperationGoal(bd, ad, x, y)) && Gives(rest, ad, Resolve(ad, y).fields, r)
    ensures var b, a := Resolve(bd, x).fields, Resolve(ad, y).fields;
            Gives(rest, bd, b, r) <==> Expected(bd, b, r) && MeetsOld(rest, bd, ad, b, a, r)
  {
    var b, a := Resolve(bd, x).fields, Resolve(ad, y).fields;
    var before, after := Field(b, "responses"), Field(a, "responses");
    hide ParametersGoal, BodyGoal, ResponsesGoal, TakesContent, ContentGoal, ContentMeetsOld;
    PartPassed(rest, bd, ad, ResponsesGoal(bd, ad, before, after), OperationGoal(bd, ad, x, y));
    if r.status in FieldsOf(before) && r.content.Some? {
      ResponseKept(bd, ad, before, after, r.status);
      var p := Field(Resolve(bd, FieldsOf(before)[r.status]).fields, "content");
      var q := Field(Resolve(ad, FieldsOf(after)[r.status]).fields, "content");
      PartPassed(rest, bd, ad, ContentGoal(bd, ad, p, q, false), ResponsesGoal(bd, ad, before, after));
      ContentGivenIff(rest, bd, ad, p, q, r.content.value);
    }
  }

  // ----- the whole document

  predicate Serves(doc: Fields, path: string, m: string) {
    path in Paths(doc) && m in METHODS && m in Resolve(doc, Paths(doc)[path]).fields
  }

  function OperationAt(doc: Fields, path: string, m: string): Json
    requires Serves(doc, path, m)
  {
    Resolve(doc, Paths(doc)[path]).fields[m]
  }

  function Operation(doc: Fields, path: string, m: string): Fields
    requires Serves(doc, path, m)
  {
    Resolve(doc, OperationAt(doc, path, m)).fields
  }

  lemma PartTrans(g: Goal, h: Goal, k: Goal)
    requires Part(g, h) && Part(h, k)
    ensures Part(g, k)
  {
  }

  /** No operation is lost, and each is a part of the whole. */
  lemma OperationIsPart(bd: Fields, ad: Fields, path: string, m: string)
    requires DocumentGoal(bd, ad).ok && Serves(bd, path, m)
    ensures Serves(ad, path, m) && Part(OperationGoal(bd, ad, OperationAt(bd, path, m), OperationAt(ad, path, m)), DocumentGoal(bd, ad))
  {
    PartOfAll(Paths(bd).Keys, path, PathFamily(bd, ad));
    assert PathFamily(bd, ad)(path) == PathGoal(bd, ad, path);
    var before, after := Resolve(bd, Paths(bd)[path]).fields, Resolve(ad, Paths(ad)[path]).fields;
    PartOfAll(Elements(METHODS), m, MethodFamily(bd, ad, before, after));
    assert MethodFamily(bd, ad, before, after)(m) == MethodGoal(bd, ad, before, after, m);
    PartTrans(MethodGoal(bd, ad, before, after, m), PathGoal(bd, ad, path), DocumentGoal(bd, ad));
  }

  lemma OperationKept(rest: Rest, bd: Fields, ad: Fields, path: string, m: string)
    requires Passed(rest, bd, ad, DocumentGoal(bd, ad)) && Serves(bd, path, m)
    ensures Serves(ad, path, m) && Passed(rest, bd, ad, OperationGoal(bd, ad, OperationAt(bd, path, m), OperationAt(ad, path, m)))
  {
    PassedIsOk(rest, bd, ad, DocumentGoal(bd, ad));
    hide Passed, Serves, OperationAt;
    OperationIsPart(bd, ad, path, m);
    PartPassed(rest, bd, ad, OperationGoal(bd, ad, OperationAt(bd, path, m), OperationAt(ad, path, m)), DocumentGoal(bd, ad));
  }

  /** An operation without requirements of its own gets none by a compatible change. */
  lemma NoNewSecurity(bd: Fields, ad: Fields, path: string, m: string)
    requires Compatible(bd, ad) && Serves(bd, path, m)
    ensures Serves(ad, path, m)
    ensures var b, a := Operation(bd, path, m), Operation(ad, path, m);
            "security" !in b || b["security"] == Arr([]) ==> "security" !in a || a["security"] == Arr([])
  {
    assert DocumentGoal(bd, ad).ok;
    OperationIsPart(bd, ad, path, m);
    hide Serves;
  }

  lemma PassedIsOk(rest: Rest, bd: Fields, ad: Fields, g: Goal)
    requires Passed(rest, bd, ad, g)
    ensures g.ok
  {
  }

  /** Every request the old operation accepts finds its operation, and is accepted exactly when nothing new is
  demanded of it. */
  ghost predicate RequestsDecided(rest: Rest, bd: Fields, ad: Fields) {
    forall path, m, r :: Serves(bd, path, m) && Takes(rest, bd, Operation(bd, path, m), r) ==>
      && Serves(ad, path, m)
      && var b, a := Operation(bd, path, m), Operation(ad, path, m);
         Takes(rest, ad, a, r) <==> !Demands(bd, ad, b, a, r) && MeetsNew(rest, bd, ad, b, a, r)
  }

  /** Every new response of an old operation was possible before exactly when it is of a declared kind and meets
  what was demanded. */
  ghost predicate ResponsesDecided(rest: Rest, bd: Fields, ad: Fields) {
    forall path, m, r :: Serves(bd, path, m) && Serves(ad, path, m) && Gives(rest, ad, Operation(ad, path, m), r) ==>
      var b, a := Operation(bd, path, m), Operation(ad, path, m);
      Gives(rest, bd, b, r) <==> Expected(bd, b, r) && MeetsOld(rest, bd, ad, b, a, r)
  }

  lemma DocumentPassed(rest: Rest, bd: Fields, ad: Fields)
    requires Legible(bd, ad) && Compatible(bd, ad)
    ensures Passed(rest, bd, ad, DocumentGoal(bd, ad))
  {
    CompatibleDecidesSchemas(rest, bd, ad);
  }

  /** On readable documents, what a compatible change means for whole requests and responses. */
  lemma CompatibleDecides(rest: Rest, bd: Fields, ad: Fields)
    requires Legible(bd, ad) && Compatible(bd, ad)
    ensures RequestsDecided(rest, bd, ad) && ResponsesDecided(rest, bd, ad)
  {
    DocumentPassed(rest, bd, ad);
    hide Passed, Takes, Gives, MeetsNew, MeetsOld, Demands, Expected;
    forall path, m, r | Serves(bd, path, m) && Takes(rest, bd, Operation(bd, path, m), r)
      ensures Serves(ad, path, m)
      ensures var b, a := Operation(bd, path, m), Operation(ad, path, m);
              Takes(rest, ad, a, r) <==> !Demands(bd, ad, b, a, r) && MeetsNew(rest, bd, ad, b, a, r)
    {
      OperationKept(rest, bd, ad, path, m);
      RequestTakenIff(rest, bd, ad, OperationAt(bd, path, m), OperationAt(ad, path, m), r);
    }
    forall path, m, r | Serves(bd, path, m) && Serves(ad, path, m) && Gives(rest, ad, Operation(ad, path, m), r)
      ensures var b, a := Operation(bd, path, m), Operation(ad, path, m);
              Gives(rest, bd, b, r) <==> Expected(bd, b, r) && MeetsOld(rest, bd, ad, b, a, r)
    {
      OperationKept(rest, bd, ad, path, m);
      ResponseGivenIff(rest, bd, ad, OperationAt(bd, path, m), OperationAt(ad, path, m), r);
    }
  }

  /** What a change that passed means for clients, whatever the keywords mean that the comparator never reads. */
  ghost predicate Decided(bd: Fields, ad: Fields) {
    forall rest: Rest :: SchemasDecided(rest, bd, ad) && RequestsDecided(rest, bd, ad) && ResponsesDecided(rest, bd, ad)
  }

  lemma CompatibleIsDecided(bd: Fields, ad: Fields)
    requires Legible(bd, ad) && Compatible(bd, ad)
    ensures Decided(bd, ad)
  {
    hide RequestsDecided, ResponsesDecided;
    forall rest: Rest
      ensures SchemasDecided(rest, bd, ad) && RequestsDecided(rest, bd, ad) && ResponsesDecided(rest, bd, ad)
    {
      CompatibleDecidesSchemas(rest, bd, ad);
      CompatibleDecides(rest, bd, ad);
    }
  }

  /** The compatibility gate of the build: a change passes when nothing is reported. */
  method Gate(before: Fields, after: Fields) returns (pass: bool)
    ensures Compatible(before, after) ==> pass
    ensures KeysTell(before, after) ==> (pass <==> Compatible(before, after))
    ensures KeysTell(before, after) && Legible(before, after) && pass ==> Decided(before, after)
  {
    hide Decided;
    var violations := CompareOpenApi(before, after);
    pass := |violations| == 0;
    if KeysTell(before, after) {
      KeysAreFaithful(before, after);
      if pass && Legible(before, after) {
        CompatibleIsDecided(before, after);
      }
    }
  }

  /** Location and name can be read back from a parameter's key when the location is one of OpenAPI's. */
  lemma ParameterKeyInjective(p: Fields, q: Fields)
    requires ':' !in StringField(p, "in") && ':' !in StringField(q, "in") && ParameterKey(p) == ParameterKey(q)
    ensures StringField(p, "in") == StringField(q, "in") && StringField(p, "name") == StringField(q, "name")
  {
    var x, y, s, t := StringField(p, "in"), StringField(q, "in"), StringField(p, "name"), StringField(q, "name");
    var key := ParameterKey(p);
    assert key[|x|] == ':' && key[|y|] == ':';
    assert x == key[..|x|] && y == key[..|y|] && s == key[|x| + 1..] && t == key[|y| + 1..];
  }
}
