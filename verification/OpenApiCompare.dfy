/** The recursive schema comparison, `compareSchema` and the methods it calls.

The contract of CompareSchema says exactly when it is silent. Silence is granted to every pair that
lies in some compatibility relation; and when keys identify pairs (Faithful), silence means that the
pairs compared form such a relation. Termination holds for every document: each reference pair
entered takes one key out of a finite universe, and between two of them the schema gets smaller. */
module OpenApiCompare {
  import opened Json
  import opened OpenApiResolve
  import opened OpenApiRules
  import Text

  /** A reported change; the free text of the detail is not modelled. */
  datatype Violation = Violation(rule: string, operation: string, location: string)

  /** The same change reported k times. */
  function Repeat(v: Violation, k: nat): (r: seq<Violation>)
    ensures |r| == k
  {
    if k == 0 then [] else Repeat(v, k - 1) + [v]
  }

  lemma {:induction false} RepeatSum(v: Violation, i: nat, j: nat)
    ensures Repeat(v, i) + Repeat(v, j) == Repeat(v, i + j)
  {
    if j == 0 {
      assert Repeat(v, i) + [] == Repeat(v, i);
    } else {
      RepeatSum(v, i, j - 1);
      assert Repeat(v, i) + (Repeat(v, j - 1) + [v]) == (Repeat(v, i) + Repeat(v, j - 1)) + [v];
    }
  }

  lemma Concat(s: seq<Violation>, a: seq<Violation>, b: seq<Violation>, c: seq<Violation>, d: seq<Violation>)
    ensures s + a + b + c + d == s + (a + b + c + d)
    ensures c == [] ==> s + a + b + d == s + (a + b + c + d)
  {
  }

  // ----- how often each keyword rule is reported

  /** One report a removed value, and in responses one an added value. */
  function EnumReports(b: Fields, a: Fields, request: bool): (k: nat)
    ensures k == 0 <==> !EnumChanged(b, a, request)
  {
    if !HasEnum(b) || (!request && Extensible(b)) then 0
    else |EnumOf(b) - EnumOf(a)| + if !request && HasEnum(a) then |EnumOf(a) - EnumOf(b)| else 0
  }

  /** How many of the first k bounds are tighter. */
  function MinReports(b: Fields, a: Fields, k: nat): (n: nat)
    requires k <= |MIN_BOUNDS|
    ensures n == 0 <==> forall i :: 0 <= i < k ==> !MinTightened(b, a, MIN_BOUNDS[i])
  {
    if k == 0 then 0
    else MinReports(b, a, k - 1) + if MinTightened(b, a, MIN_BOUNDS[k - 1]) then 1 else 0
  }

  function MaxReports(b: Fields, a: Fields, k: nat): (n: nat)
    requires k <= |MAX_BOUNDS|
    ensures n == 0 <==> forall i :: 0 <= i < k ==> !MaxTightened(b, a, MAX_BOUNDS[i])
  {
    if k == 0 then 0
    else MaxReports(b, a, k - 1) + if MaxTightened(b, a, MAX_BOUNDS[k - 1]) then 1 else 0
  }

  function BoundReports(b: Fields, a: Fields): (k: nat)
    ensures k == 0 <==> !BoundTightened(b, a)
  {
    var k := MinReports(b, a, |MIN_BOUNDS|) + MaxReports(b, a, |MAX_BOUNDS|);
    assert forall i :: 0 <= i < |MIN_BOUNDS| ==> MIN_BOUNDS[i] in MIN_BOUNDS;
    assert forall i :: 0 <= i < |MAX_BOUNDS| ==> MAX_BOUNDS[i] in MAX_BOUNDS;
    k
  }

  function RequiredReports(b: Fields, a: Fields, request: bool): (k: nat)
    ensures k == 0 <==> !RequiredChanged(b, a, request)
  {
    if request then |Required(a) - Required(b)| else |Required(b) - Required(a)|
  }

  function TypeReport(n: Node, operation: string, location: string): seq<Violation> {
    (if TypeChanged(n.b, n.a, n.request) then [Violation(TypeRule(n.request), operation, location)] else [])
    + (if NullabilityChanged(n.b, n.a, n.request) then [Violation(NullRule(n.request), operation, location)] else [])
  }

  /** What `compareSchema` reports of a pair before it descends, in its order. */
  function KeywordReport(n: Node, operation: string, location: string): seq<Violation> {
    TypeReport(n, operation, location)
    + Repeat(Violation(EnumRule(n.request), operation, location), EnumReports(n.b, n.a, n.request))
    + Repeat(Violation(BOUND_RULE, operation, location), if n.request then BoundReports(n.b, n.a) else 0)
    + Repeat(Violation(RequiredRule(n.request), operation, location), RequiredReports(n.b, n.a, n.request))
  }

  lemma KeywordReportEmpty(n: Node, operation: string, location: string)
    ensures KeywordReport(n, operation, location) == [] <==> KeywordsOk(n)
  {
  }

  lemma {:induction false} RepeatHolds(v: Violation, k: nat, w: Violation)
    ensures w in Repeat(v, k) <==> k > 0 && w == v
  {
    if k > 0 {
      RepeatHolds(v, k - 1, w);
    }
  }

  lemma TypeReports(n: Node, operation: string, location: string, v: Violation)
    ensures v in TypeReport(n, operation, location) <==>
            || (v == Violation(TypeRule(n.request), operation, location) && TypeChanged(n.b, n.a, n.request))
            || (v == Violation(NullRule(n.request), operation, location) && NullabilityChanged(n.b, n.a, n.request))
  {
  }

  lemma ReportParts(n: Node, operation: string, location: string, v: Violation)
    ensures v in KeywordReport(n, operation, location) <==>
            || v in TypeReport(n, operation, location)
            || (v == Violation(EnumRule(n.request), operation, location) && EnumReports(n.b, n.a, n.request) > 0)
            || (v == Violation(BOUND_RULE, operation, location) && n.request && BoundReports(n.b, n.a) > 0)
            || (v == Violation(RequiredRule(n.request), operation, location) && RequiredReports(n.b, n.a, n.request) > 0)
  {
    RepeatHolds(Violation(EnumRule(n.request), operation, location), EnumReports(n.b, n.a, n.request), v);
    RepeatHolds(Violation(BOUND_RULE, operation, location), if n.request then BoundReports(n.b, n.a) else 0, v);
    RepeatHolds(Violation(RequiredRule(n.request), operation, location), RequiredReports(n.b, n.a, n.request), v);
    hide Repeat, EnumReports, BoundReports, RequiredReports, TypeReport;
  }

  /** Each rule is reported of a pair, under its own name and at the pair's place, exactly when the pair breaks it. */
  lemma ReportsAreTrue(n: Node, operation: string, location: string, v: Violation)
    ensures v in KeywordReport(n, operation, location) <==>
            && v.operation == operation && v.location == location
            && if n.request then
                 || (v.rule == "openapi-request-type-changed" && TypeChanged(n.b, n.a, true))
                 || (v.rule == "openapi-request-nullability-narrowed" && NullabilityChanged(n.b, n.a, true))
                 || (v.rule == "openapi-request-enum-changed" && EnumChanged(n.b, n.a, true))
                 || (v.rule == "openapi-request-bound-tightened" && BoundTightened(n.b, n.a))
                 || (v.rule == "openapi-request-property-required" && RequiredChanged(n.b, n.a, true))
               else
                 || (v.rule == "openapi-response-type-changed" && TypeChanged(n.b, n.a, false))
                 || (v.rule == "openapi-response-nullability-widened" && NullabilityChanged(n.b, n.a, false))
                 || (v.rule == "openapi-response-enum-changed" && EnumChanged(n.b, n.a, false))
                 || (v.rule == "openapi-response-property-optional" && RequiredChanged(n.b, n.a, false))
  {
    ReportParts(n, operation, location, v);
    TypeReports(n, operation, location, v);
    hide KeywordReport, TypeReport, EnumReports, BoundReports, RequiredReports;
  }

  // ----- verdicts: what a stretch of the comparison must find

  /** A condition on the documents together with the uses that have to be covered. */
  datatype Goal = Goal(ok: bool, uses: set<Use>)

  function Both(g: Goal, h: Goal): Goal {
    Goal(g.ok && h.ok, g.uses + h.uses)
  }

  ghost predicate Meets(bd: Fields, ad: Fields, R: iset<Node>, g: Goal) {
    g.ok && AllCovered(bd, ad, R, g.uses)
  }

  /** Between the two states every new pair breaks no rule and has its children recorded. */
  ghost predicate Explored(bd: Fields, ad: Fields, from: iset<Node>, to: iset<Node>) {
    && from <= to
    && forall n :: n in to && n !in from ==> LocalOk(n) && AllCovered(bd, ad, to, ChildUses(n))
  }

  /** What is reported and which pairs have been entered. */
  datatype Progress = Progress(violations: seq<Violation>, done: iset<Node>)

  /** From s to t the comparison decided the goal g: it stayed silent if some compatibility relation
  meets g, and, when keys identify pairs, if it stayed silent then the pairs entered meet g. */
  ghost predicate Verdict(bd: Fields, ad: Fields, D: iset<Use>, s: Progress, t: Progress, g: Goal) {
    && s.violations <= t.violations && s.done <= t.done
    && (forall R | PostFixed(bd, ad, R) && Meets(bd, ad, R, g) :: t.violations == s.violations)
    && (Faithful(bd, ad, D) && t.violations == s.violations ==>
          Explored(bd, ad, s.done, t.done) && Meets(bd, ad, t.done, g))
  }

  lemma ExploredTransitive(bd: Fields, ad: Fields, r: iset<Node>, s: iset<Node>, t: iset<Node>)
    requires Explored(bd, ad, r, s) && Explored(bd, ad, s, t)
    ensures Explored(bd, ad, r, t)
  {
    forall n | n in t && n !in r ensures LocalOk(n) && AllCovered(bd, ad, t, ChildUses(n)) {
      if n in s {
        CoveredMonotone(bd, ad, s, t, ChildUses(n));
      }
    }
  }

  lemma CoveredMonotone(bd: Fields, ad: Fields, from: iset<Node>, to: iset<Node>, uses: set<Use>)
    requires from <= to && AllCovered(bd, ad, from, uses)
    ensures AllCovered(bd, ad, to, uses)
  {
  }

  /** Verdicts compose: one stretch after another decides both goals. */
  lemma VerdictSeq(bd: Fields, ad: Fields, D: iset<Use>, s: Progress, t: Progress, u: Progress, g: Goal, h: Goal)
    requires Verdict(bd, ad, D, s, t, g) && Verdict(bd, ad, D, t, u, h)
    ensures Verdict(bd, ad, D, s, u, Both(g, h))
  {
    assert s.violations <= u.violations && s.done <= u.done;
    forall R | PostFixed(bd, ad, R) && Meets(bd, ad, R, Both(g, h)) ensures u.violations == s.violations {
      assert Meets(bd, ad, R, g) && Meets(bd, ad, R, h);
    }
    if Faithful(bd, ad, D) && u.violations == s.violations {
      assert t.violations == s.violations;
      ExploredTransitive(bd, ad, s.done, t.done, u.done);
      CoveredMonotone(bd, ad, t.done, u.done, g.uses);
    }
  }

  /** A goal with nothing to descend into is decided by reporting exactly when it fails. */
  lemma VerdictLocal(bd: Fields, ad: Fields, D: iset<Use>, s: Progress, t: Progress, ok: bool)
    requires s.done == t.done && s.violations <= t.violations
    requires ok <==> s.violations == t.violations
    ensures Verdict(bd, ad, D, s, t, Goal(ok, {}))
  {
  }

  lemma KeywordVerdict(bd: Fields, ad: Fields, D: iset<Use>, s: Progress, t: Progress, n: Node,
                       operation: string, location: string)
    requires t.done == s.done && t.violations == s.violations + KeywordReport(n, operation, location)
    ensures Verdict(bd, ad, D, s, t, Goal(KeywordsOk(n), {}))
  {
    KeywordReportEmpty(n, operation, location);
    hide KeywordReport, KeywordsOk, Verdict;
    VerdictLocal(bd, ad, D, s, t, KeywordsOk(n));
  }

  lemma ObjectGoal(n: Node)
    ensures Both(Both(Goal(KeywordsOk(n), {}), Goal(!PropertyRemoved(n.b, n.a), PropertyUses(n))),
                 Goal(!ItemsRemoved(n.b, n.a), ItemUses(n))) == Goal(LocalOk(n), ChildUses(n))
  {
  }

  /** Entering a pair: its own rules and its children decide it. */
  lemma VerdictEnter(bd: Fields, ad: Fields, D: iset<Use>, s: Progress, entered: Progress, t: Progress, u: Use, n: Node)
    requires u.x.Obj? && u.y.Obj? && CoreOf(n) == NodeOf(bd, ad, u)
    requires entered.violations == s.violations && entered.done == s.done + iset{CoreOf(n)}
    requires Verdict(bd, ad, D, entered, t, Goal(LocalOk(n), ChildUses(n)))
    ensures Verdict(bd, ad, D, s, t, Goal(true, {u}))
  {
    CoreKeeps(n);
    forall R | PostFixed(bd, ad, R) && Meets(bd, ad, R, Goal(true, {u})) ensures t.violations == s.violations {
      assert Covered(bd, ad, R, u);
      assert Meets(bd, ad, R, Goal(LocalOk(n), ChildUses(n)));
    }
  }

  lemma VerdictGrows(bd: Fields, ad: Fields, D: iset<Use>, s: Progress, t: Progress, g: Goal)
    requires Verdict(bd, ad, D, s, t, g)
    ensures s.violations <= t.violations
  {
  }

  lemma VerdictRemoved(bd: Fields, ad: Fields, D: iset<Use>, s: Progress, t: Progress, u: Use)
    requires u.x != Null && u.y == Null
    requires s.done == t.done && s.violations < t.violations
    ensures Verdict(bd, ad, D, s, t, Goal(true, {u}))
  {
    assert forall R :: !Covered(bd, ad, R, u);
  }

  /** A use needs no descent when a side is not an object, or when its pair has been entered. */
  lemma VerdictSkip(bd: Fields, ad: Fields, D: iset<Use>, s: Progress, u: Use)
    requires !(u.x != Null && u.y == Null)
    requires u.x.Obj? && u.y.Obj? && Faithful(bd, ad, D) ==> NodeOf(bd, ad, u) in s.done
    ensures Verdict(bd, ad, D, s, s, Goal(true, {u}))
  {
  }

  /** From an empty record, silence means the pairs entered are a compatibility relation. */
  lemma VerdictFromScratch(bd: Fields, ad: Fields, D: iset<Use>, t: Progress, g: Goal)
    requires Verdict(bd, ad, D, Progress([], iset{}), t, g) && Faithful(bd, ad, D) && t.violations == []
    ensures PostFixed(bd, ad, t.done) && Meets(bd, ad, t.done, g)
  {
  }

  lemma FewerLeft(universe: set<string>, s: set<string>, t: set<string>)
    requires s <= t
    ensures |universe - t| <= |universe - s|
  {
    Subset(universe - t, universe - s);
  }

  lemma {:induction false} Subset(a: set<string>, b: set<string>)
    requires a <= b
    ensures |a| <= |b|
    decreases a
  {
    if a != {} {
      var x :| x in a;
      Subset(a - {x}, b - {x});
    }
  }

  lemma PropertyKnown(doc: Fields, f: Fields, name: string)
    requires FieldsInside(doc, f) && name in Props(f)
    ensures Known(doc, Props(f)[name])
  {
    ChildInside(Obj(doc), f["properties"], name);
  }

  /** Every key remembered stands for a pair that was entered. */
  ghost predicate Ledger(bd: Fields, ad: Fields, D: iset<Use>, visits: map<string, Visit>, done: iset<Node>) {
    forall key :: key in visits ==>
      && KeyOf(bd, ad, visits[key]) == key && visits[key].use in D && Keyed(bd, ad, visits[key].use)
      && NodeOf(bd, ad, visits[key].use) in done
  }

  /** A pair whose key is remembered has been entered, under this key or the same pair elsewhere. */
  lemma SeenIsDone(bd: Fields, ad: Fields, D: iset<Use>, visits: map<string, Visit>, done: iset<Node>, v: Visit)
    requires Ledger(bd, ad, D, visits, done) && v.use in D && Keyed(bd, ad, v.use) && KeyOf(bd, ad, v) in visits
    ensures Faithful(bd, ad, D) ==> NodeOf(bd, ad, v.use) in done
  {
    var w := visits[KeyOf(bd, ad, v)];
    assert KeyOf(bd, ad, w) == KeyOf(bd, ad, v);
  }

  lemma Remember(bd: Fields, ad: Fields, D: iset<Use>, visits: map<string, Visit>, done: iset<Node>, v: Visit)
    requires Ledger(bd, ad, D, visits, done) && v.use in D && Keyed(bd, ad, v.use)
    ensures Ledger(bd, ad, D, visits[KeyOf(bd, ad, v) := v], done + iset{NodeOf(bd, ad, v.use)})
  {
  }

  lemma LedgerGrows(bd: Fields, ad: Fields, D: iset<Use>, visits: map<string, Visit>, done: iset<Node>, n: Node)
    requires Ledger(bd, ad, D, visits, done)
    ensures Ledger(bd, ad, D, visits, done + iset{n})
  {
  }

  lemma InlineFields(bd: Fields, ad: Fields, u: Use)
    requires u.x.Obj? && u.y.Obj? && !Keyed(bd, ad, u)
    ensures Resolve(bd, u.x).fields == u.x.fields
  {
    NoIdMeansInline(bd, u.x);
  }

  /** The pair of resolved objects as they are. */
  function PairOf(bd: Fields, ad: Fields, u: Use): Node {
    Node(Resolve(bd, u.x).fields, Resolve(ad, u.y).fields, u.request)
  }

  lemma EnterFits(bd: Fields, ad: Fields, D: iset<Use>, u: Use)
    requires Closed(bd, ad, D) && u in D && u.x.Obj? && u.y.Obj? && Known(bd, u.x) && Known(ad, u.y)
    ensures var n := PairOf(bd, ad, u);
            AllIn(D, ChildUses(n)) && FieldsInside(bd, n.b) && FieldsInside(ad, n.a)
  {
    CoreKeeps(PairOf(bd, ad, u));
    ResolveInside(bd, u.x);
    ResolveInside(ad, u.y);
  }

  /** Entering a pair by reference takes its key out of those left. */
  lemma KeyLeavesUniverse(bd: Fields, ad: Fields, seen: set<string>, v: Visit)
    requires v.use.x in SubValues(Obj(bd)) && v.use.y in SubValues(Obj(ad)) && KeyOf(bd, ad, v) !in seen
    ensures var all := KeyUniverse(bd, ad, v.operation, v.use.request);
            |all - (seen + {KeyOf(bd, ad, v)})| < |all - seen|
  {
    var all := KeyUniverse(bd, ad, v.operation, v.use.request);
    var key := KeyOf(bd, ad, v);
    assert Visit(v.operation, Use(v.use.x, v.use.y, v.use.request)) == v;
    assert key in all;
    assert all - seen == (all - (seen + {key})) + {key};
  }

  function PropertyGoal(n: Node, name: string): Goal
    requires name in Props(n.b)
  {
    if name in Props(n.a) then Goal(true, {Use(Props(n.b)[name], Props(n.a)[name], n.request)}) else Goal(false, {})
  }

  function PropertiesGoal(n: Node, names: seq<string>): Goal {
    Goal(forall name :: name in names ==> name in Props(n.a),
         set name | name in names && name in Props(n.b) && name in Props(n.a) ::
           Use(Props(n.b)[name], Props(n.a)[name], n.request))
  }

  lemma PropertiesGoalStep(n: Node, names: seq<string>, i: nat)
    requires i < |names| && names[i] in Props(n.b)
    ensures Both(PropertiesGoal(n, names[..i]), PropertyGoal(n, names[i])) == PropertiesGoal(n, names[..i + 1])
  {
    assert names[..i + 1] == names[..i] + [names[i]];
  }

  lemma PropertiesGoalDone(n: Node, names: seq<string>)
    requires forall k :: k in names <==> k in Props(n.b).Keys
    ensures PropertiesGoal(n, names[..|names|]) == Goal(!PropertyRemoved(n.b, n.a), PropertyUses(n))
  {
    assert names[..|names|] == names;
    if PropertyRemoved(n.b, n.a) {
      var name :| name in Props(n.b).Keys - Props(n.a).Keys;
      assert name in names;
    } else {
      assert forall name :: name in names ==> name !in Props(n.b).Keys - Props(n.a).Keys;
    }
  }

  class Comparator {
    const bd: Fields
    const ad: Fields
    ghost const D: iset<Use>
    var violations: seq<Violation>
    var seen: set<string>
    ghost var done: iset<Node>
    ghost var visits: map<string, Visit>

    ghost predicate Valid()
      reads this
    {
      Closed(bd, ad, D) && visits.Keys == seen && Ledger(bd, ad, D, visits, done)
    }

    ghost function Now(): Progress
      reads this
    {
      Progress(violations, done)
    }

    constructor (before: Fields, after: Fields, ghost uses: iset<Use>)
      requires Closed(before, after, uses)
      ensures Valid() && bd == before && ad == after && D == uses
      ensures Now() == Progress([], iset{}) && seen == {}
    {
      bd, ad, D := before, after, uses;
      violations, seen := [], {};
      done, visits := iset{}, map[];
    }

    method Add(rule: string, operation: string, location: string)
      modifies this`violations
      ensures violations == old(violations) + [Violation(rule, operation, location)]
    {
      violations := violations + [Violation(rule, operation, location)];
    }

    /** A report that stands for a failed check, or for none. */
    method AddUnless(ok: bool, rule: string, operation: string, location: string)
      requires Valid()
      modifies this
      ensures Valid() && Verdict(bd, ad, D, old(Now()), Now(), Goal(ok, {}))
      ensures violations == old(violations) + if ok then [] else [Violation(rule, operation, location)]
    {
      hide Verdict, Ledger, Closed;
      if !ok {
        Add(rule, operation, location);
      }
      VerdictLocal(bd, ad, D, old(Now()), Now(), ok);
    }

    /** One report for each of a set of enum values. */
    method ReportValues(values: set<Json>, v: Violation)
      modifies this`violations
      ensures violations == old(violations) + Repeat(v, |values|)
    {
      var todo := values;
      while todo != {}
        invariant todo <= values && |todo| <= |values|
        invariant violations == old(violations) + Repeat(v, |values| - |todo|)
        decreases todo
      {
        var value :| value in todo;
        Add(v.rule, v.operation, v.location);
        todo := todo - {value};
      }
    }

    method CompareEnums(operation: string, location: string, b: Fields, a: Fields, request: bool)
      modifies this`violations
      ensures violations == old(violations)
                + Repeat(Violation(EnumRule(request), operation, location), EnumReports(b, a, request))
    {
      hide EnumOf, EnumRule, EnumChanged, Extensible, Repeat;
      if !HasEnum(b) || (!request && Extensible(b)) {
        assert Repeat(Violation(EnumRule(request), operation, location), 0) == [];
        return;
      }
      var v := Violation(EnumRule(request), operation, location);
      ReportValues(EnumOf(b) - EnumOf(a), v);
      if !request && HasEnum(a) {
        ReportValues(EnumOf(a) - EnumOf(b), v);
        RepeatSum(v, |EnumOf(b) - EnumOf(a)|, |EnumOf(a) - EnumOf(b)|);
      }
    }

    method CompareMinBounds(v: Violation, b: Fields, a: Fields)
      modifies this`violations
      ensures violations == old(violations) + Repeat(v, MinReports(b, a, |MIN_BOUNDS|))
    {
      for i := 0 to |MIN_BOUNDS|
        invariant violations == old(violations) + Repeat(v, MinReports(b, a, i))
      {
        var key := MIN_BOUNDS[i];
        if Field(a, key).Num? && (!Field(b, key).Num? || Field(a, key).n > Field(b, key).n) {
          Add(v.rule, v.operation, v.location);
        }
      }
    }

    method CompareMaxBounds(v: Violation, b: Fields, a: Fields)
      modifies this`violations
      ensures violations == old(violations) + Repeat(v, MaxReports(b, a, |MAX_BOUNDS|))
    {
      for i := 0 to |MAX_BOUNDS|
        invariant violations == old(violations) + Repeat(v, MaxReports(b, a, i))
      {
        var key := MAX_BOUNDS[i];
        if Field(a, key).Num? && (!Field(b, key).Num? || Field(a, key).n < Field(b, key).n) {
          Add(v.rule, v.operation, v.location);
        }
      }
    }

    method CompareRequestBounds(operation: string, location: string, b: Fields, a: Fields)
      modifies this`violations
      ensures violations == old(violations) + Repeat(Violation(BOUND_RULE, operation, location), BoundReports(b, a))
    {
      var v := Violation(BOUND_RULE, operation, location);
      CompareMinBounds(v, b, a);
      CompareMaxBounds(v, b, a);
      RepeatSum(v, MinReports(b, a, |MIN_BOUNDS|), MaxReports(b, a, |MAX_BOUNDS|));
    }

    /** The loop over `sortedSetDifference(left, right)`. */
    method ReportDifference(left: set<string>, right: set<string>, rule: string, operation: string, location: string)
      modifies this`violations
      ensures violations == old(violations) + Repeat(Violation(rule, operation, location), |left - right|)
    {
      var names := Text.SortedKeys(left - right);
      Text.SortedCount(names, left - right);
      for i := 0 to |names|
        invariant violations == old(violations) + Repeat(Violation(rule, operation, location), i)
      {
        Add(rule, operation, location);
      }
    }

    method CompareTypes(operation: string, location: string, b: Fields, a: Fields, request: bool)
      modifies this`violations
      ensures violations == old(violations) + TypeReport(Node(b, a, request), operation, location)
    {
      var beforeTypes, beforeNull := SchemaTypes(b);
      var afterTypes, afterNull := SchemaTypes(a);
      var typeChanged := beforeTypes != {} && afterTypes != {} && beforeTypes != afterTypes;
      if request && beforeTypes == {} && afterTypes != {} {
        typeChanged := true;
      }
      if !request && beforeTypes != {} && afterTypes == {} {
        typeChanged := true;
      }
      assert typeChanged == TypeChanged(b, a, request);
      if typeChanged {
        Add(TypeRule(request), operation, location);
      }
      if request && beforeNull && !afterNull {
        Add(NullRule(true), operation, location);
      }
      if !request && !beforeNull && afterNull {
        Add(NullRule(false), operation, location);
      }
    }

    method CompareRequired(operation: string, location: string, b: Fields, a: Fields, request: bool)
      modifies this`violations
      ensures violations == old(violations)
                + Repeat(Violation(RequiredRule(request), operation, location), RequiredReports(b, a, request))
    {
      var beforeRequired := StringSet(Field(b, "required"));
      var afterRequired := StringSet(Field(a, "required"));
      if request {
        ReportDifference(afterRequired, beforeRequired, RequiredRule(true), operation, location);
      } else {
        ReportDifference(beforeRequired, afterRequired, RequiredRule(false), operation, location);
      }
    }

    /** The checks of `compareSchema` before it descends. */
    method CompareKeywords(operation: string, location: string, b: Fields, a: Fields, request: bool)
      modifies this`violations
      ensures violations == old(violations) + KeywordReport(Node(b, a, request), operation, location)
    {
      ghost var start := violations;
      ghost var n := Node(b, a, request);
      CompareTypes(operation, location, b, a, request);
      ghost var types := TypeReport(n, operation, location);
      CompareEnums(operation, location, b, a, request);
      ghost var enums := Repeat(Violation(EnumRule(request), operation, location), EnumReports(b, a, request));
      ghost var bounds := [];
      if request {
        CompareRequestBounds(operation, location, b, a);
        bounds := Repeat(Violation(BOUND_RULE, operation, location), BoundReports(b, a));
      }
      CompareRequired(operation, location, b, a, request);
      ghost var required := Repeat(Violation(RequiredRule(request), operation, location), RequiredReports(b, a, request));
      Concat(start, types, enums, bounds, required);
    }

    // ----- compareSchema

    /** The keys left to enter, or the size of the schema at hand, go down on the way to a child. */
    ghost predicate Smaller(operation: string, request: bool, b: Fields, limit: nat, top: Json)
      reads this
    {
      var left := |KeyUniverse(bd, ad, operation, request) - seen|;
      left < limit || (left == limit && top.Obj? && b == top.fields)
    }

    /** The children of n are values of the documents, and uses in D. */
    ghost predicate Fits(n: Node)
    {
      AllIn(D, ChildUses(n)) && FieldsInside(bd, n.b) && FieldsInside(ad, n.a)
    }

    /** One property: reported as removed, or compared. */
    method CompareProperty(operation: string, location: string, n: Node, name: string, ghost limit: nat, ghost top: Json)
      requires Valid() && Fits(n) && name in Props(n.b) && Smaller(operation, n.request, n.b, limit, top)
      modifies this
      ensures Valid() && old(seen) <= seen
      ensures name !in Props(n.a) ==> violations == old(violations) + [Violation(PropertyRule(n.request), operation, location)]
      ensures Verdict(bd, ad, D, old(Now()), Now(), PropertyGoal(n, name))
      decreases limit, top, 0
    {
      hide Verdict, Ledger, Closed, FieldsInside, KeyUniverse;
      if name !in Props(n.a) {
        Add(PropertyRule(n.request), operation, location);
        VerdictLocal(bd, ad, D, old(Now()), Now(), false);
      } else {
        PropertyKnown(bd, n.b, name);
        PropertyKnown(ad, n.a, name);
        assert Use(Props(n.b)[name], Props(n.a)[name], n.request) in PropertyUses(n);
        CompareSchema(operation, location + " property " + name, Props(n.b)[name], Props(n.a)[name], n.request);
      }
    }

    method CompareItems(operation: string, location: string, n: Node, ghost limit: nat, ghost top: Json)
      requires Valid() && Fits(n) && Smaller(operation, n.request, n.b, limit, top)
      modifies this
      ensures Valid() && old(seen) <= seen
      ensures ItemsRemoved(n.b, n.a) ==> violations == old(violations) + [Violation(ItemsRule(n.request), operation, location)]
      ensures Verdict(bd, ad, D, old(Now()), Now(), Goal(!ItemsRemoved(n.b, n.a), ItemUses(n)))
      decreases limit, top, 0
    {
      hide Verdict, Ledger, Closed, KeyUniverse, PropertyUses, ItemsRule;
      if "items" in n.b {
        if "items" !in n.a {
          Add(ItemsRule(n.request), operation, location);
          VerdictLocal(bd, ad, D, old(Now()), Now(), false);
        } else {
          CompareSchema(operation, location + " items", n.b["items"], n.a["items"], n.request);
        }
      } else {
        VerdictLocal(bd, ad, D, old(Now()), Now(), true);
      }
    }

    /** The loop over the sorted property names. */
    method CompareProperties(operation: string, location: string, n: Node, ghost limit: nat, ghost top: Json)
      requires Valid() && Fits(n) && Smaller(operation, n.request, n.b, limit, top)
      modifies this
      ensures Valid() && old(seen) <= seen
      ensures Verdict(bd, ad, D, old(Now()), Now(), Goal(!PropertyRemoved(n.b, n.a), PropertyUses(n)))
      decreases limit, top, 1
    {
      hide Verdict, Ledger, Closed, FieldsInside, KeyUniverse, PropertyGoal, PropertyUses, PropertyRemoved, Both, AllIn, ChildUses,
           Comparator.Valid, Comparator.Fits;
      var names := Text.SortedKeys(Props(n.b).Keys);
      VerdictLocal(bd, ad, D, Now(), Now(), true);
      assert PropertiesGoal(n, names[..0]) == Goal(true, {});
      hide PropertiesGoal;
      for i := 0 to |names|
        invariant Valid() && old(seen) <= seen
        invariant Verdict(bd, ad, D, old(Now()), Now(), PropertiesGoal(n, names[..i]))
      {
        assert names[i] in names;
        ghost var before := Now();
        FewerLeft(KeyUniverse(bd, ad, operation, n.request), old(seen), seen);
        CompareProperty(operation, location, n, names[i], limit, top);
        VerdictSeq(bd, ad, D, old(Now()), before, Now(), PropertiesGoal(n, names[..i]), PropertyGoal(n, names[i]));
        PropertiesGoalStep(n, names, i);
      }
      PropertiesGoalDone(n, names);
    }

    /** A pair of resolved schemas: its keywords, its properties, its items. */
    method CompareObjects(operation: string, location: string, n: Node, ghost limit: nat, ghost top: Json)
      requires Valid() && Fits(n) && Smaller(operation, n.request, n.b, limit, top)
      modifies this
      ensures Valid() && old(seen) <= seen
      ensures old(violations) + KeywordReport(n, operation, location) <= violations
      ensures Verdict(bd, ad, D, old(Now()), Now(), Goal(LocalOk(n), ChildUses(n)))
      decreases limit, top, 2
    {
      hide KeywordReport, Verdict, Ledger, Closed, FieldsInside, KeyUniverse, KeywordsOk, PropertyRemoved, ItemsRemoved,
           PropertyUses, ItemUses, AllIn, Both, LocalOk, ChildUses;
      ghost var g, h, k := Goal(KeywordsOk(n), {}), Goal(!PropertyRemoved(n.b, n.a), PropertyUses(n)),
                           Goal(!ItemsRemoved(n.b, n.a), ItemUses(n));
      CompareKeywords(operation, location, n.b, n.a, n.request);
      ghost var s1 := Now();
      KeywordVerdict(bd, ad, D, old(Now()), s1, n, operation, location);
      CompareProperties(operation, location, n, limit, top);
      ghost var s2 := Now();
      FewerLeft(KeyUniverse(bd, ad, operation, n.request), old(seen), seen);
      CompareItems(operation, location, n, limit, top);
      VerdictSeq(bd, ad, D, old(Now()), s1, s2, g, h);
      VerdictSeq(bd, ad, D, old(Now()), s2, Now(), Both(g, h), k);
      ObjectGoal(n);
      VerdictGrows(bd, ad, D, s1, s2, h);
      VerdictGrows(bd, ad, D, s2, Now(), k);
    }

    /** A pair is entered: a pair reached by reference is marked as seen first. */
    method Enter(key: string, byReference: bool, ghost v: Visit)
      requires Valid() && v.use in D && v.use.x.Obj? && v.use.y.Obj? && Known(bd, v.use.x) && Known(ad, v.use.y)
      requires key == KeyOf(bd, ad, v) && byReference == Keyed(bd, ad, v.use)
      requires byReference ==> key !in seen
      modifies this
      ensures Valid() && old(seen) <= seen && (byReference ==> key in seen)
      ensures Now() == Progress(old(violations), old(done) + iset{NodeOf(bd, ad, v.use)})
      ensures Smaller(v.operation, v.use.request, PairOf(bd, ad, v.use).b,
                      old(|KeyUniverse(bd, ad, v.operation, v.use.request) - seen|), v.use.x)
    {
      hide Ledger, Closed, KeyUniverse, KeyOf, NodeOf, Keyed, SubValues, Resolve, RefOf;
      ghost var n := NodeOf(bd, ad, v.use);
      if byReference {
        KeyLeavesUniverse(bd, ad, seen, v);
        Remember(bd, ad, D, visits, done, v);
        seen, visits, done := seen + {key}, visits[key := v], done + iset{n};
        assert visits.Keys == seen;
      } else {
        InlineFields(bd, ad, v.use);
        LedgerGrows(bd, ad, D, visits, done, n);
        done := done + iset{n};
      }
    }

    method CompareSchema(operation: string, location: string, x: Json, y: Json, request: bool)
      requires Valid() && Use(x, y, request) in D && Known(bd, x) && Known(ad, y)
      modifies this
      ensures Valid() && old(seen) <= seen
      ensures Verdict(bd, ad, D, old(Now()), Now(), Goal(true, {Use(x, y, request)}))
      ensures Keyed(bd, ad, Use(x, y, request)) ==> KeyOf(bd, ad, Visit(operation, Use(x, y, request))) in seen
      ensures Keyed(bd, ad, Use(x, y, request)) && KeyOf(bd, ad, Visit(operation, Use(x, y, request))) in old(seen) ==>
                violations == old(violations)
      decreases |KeyUniverse(bd, ad, operation, request) - seen|, x, 3
    {
      hide Verdict, Ledger, Closed, FieldsInside, Resolve, KeyUniverse, ChildUses, AllIn, LocalOk,
           KeywordReport, SchemaRule;
      var u := Use(x, y, request);
      if x != Null && y == Null {
        Add(SchemaRule(request), operation, location);
        VerdictRemoved(bd, ad, D, old(Now()), Now(), u);
        return;
      }
      var before := ResolveLoop(bd, x);
      var after := ResolveLoop(ad, y);
      if !before.found || !after.found {
        VerdictSkip(bd, ad, D, Now(), u);
        return;
      }
      var key := Key(operation, request, before.id, after.id);
      if (before.id != "" || after.id != "") && key in seen {
        SeenIsDone(bd, ad, D, visits, done, Visit(operation, u));
        VerdictSkip(bd, ad, D, Now(), u);
        return;
      }
      ghost var limit := |KeyUniverse(bd, ad, operation, request) - seen|;
      Enter(key, before.id != "" || after.id != "", Visit(operation, u));
      EnterFits(bd, ad, D, u);
      ghost var entered := Now();
      var n := Node(before.fields, after.fields, request);
      CompareObjects(operation, location, n, limit, x);
      VerdictEnter(bd, ad, D, old(Now()), entered, Now(), u, n);
    }
  }
}
