/** The semantic diff of two tenant configurations. A configuration is the JSON document its encoding
decodes to. The text json.Marshal gives a decoded scalar is represented by the scalar itself. */
module ConfigDiff {
  import opened Json
  import opened Text
  import opened JsonPointer
  import opened Decimal
  import opened PointerEval

  type Flat = map<string, Json>

  /** The map flattenValue fills in place. */
  class Sink {
    var entries: Flat

    constructor ()
      ensures entries == map[]
    {
      entries := map[];
    }
  }

  function Get(o: Option<Json>): Json {
    if o.Some? then o.value else Null
  }

  /** The scalar a path leads to from a value that stands at `path`. */
  function Under(value: Json, path: string, p: string): Option<Json> {
    if path <= p then Leaf(value, p[|path|..]) else None
  }

  /** `after` is `before` with every leaf of `value`, and nothing else, written over it. */
  ghost predicate Adds(before: Flat, after: Flat, value: Json, path: string) {
    && (forall p :: p in after <==> p in before || Under(value, path, p).Some?)
    && (forall p :: p in after ==> after[p] == if Under(value, path, p).Some? then Get(Under(value, path, p)) else before[p])
  }

  // ----- children

  datatype Kid = Kid(token: string, value: Json)

  /** The tokens of a container, each with what it selects. */
  ghost predicate KidsOf(value: Json, kids: seq<Kid>) {
    && !IsScalar(value)
    && (forall i :: 0 <= i < |kids| ==> '/' !in kids[i].token && Child(value, kids[i].token) == Some(kids[i].value))
    && (forall t :: Child(value, t).Some? ==> exists i :: 0 <= i < |kids| && kids[i].token == t)
  }

  /** A leaf under one of the first n children. */
  ghost predicate Reached(kids: seq<Kid>, n: nat, path: string, p: string)
    requires n <= |kids|
  {
    exists i :: 0 <= i < n && Under(kids[i].value, path + "/" + kids[i].token, p).Some?
  }

  ghost predicate Filled(before: Flat, after: Flat, value: Json, kids: seq<Kid>, n: nat, path: string)
    requires n <= |kids|
  {
    && (forall p :: p in after <==> p in before || Reached(kids, n, path, p))
    && (forall p :: p in after ==> after[p] == if Reached(kids, n, path, p) then Get(Under(value, path, p)) else before[p])
  }

  /** A leaf of a child is the same leaf of the container. */
  lemma UnderKid(value: Json, t: string, child: Json, path: string, p: string)
    requires Child(value, t) == Some(child) && '/' !in t && Under(child, path + "/" + t, p).Some?
    ensures Under(value, path, p) == Under(child, path + "/" + t, p)
  {
    var c := path + "/" + t;
    var rest := p[|c|..];
    EvalBoundary(child, rest);
    assert p == c + rest && p[|path|..] == "/" + t + rest;
    EvalStep(value, t, rest);
  }

  lemma Spliced(path: string, t: string, rest: string, p: string)
    requires path <= p && p[|path|..] == "/" + t + rest
    ensures var c := path + "/" + t; c <= p && p[|c|..] == rest
  {
    assert p == path + p[|path|..];
  }

  /** Every leaf of a container is under one of its children. */
  lemma UnderSome(value: Json, kids: seq<Kid>, path: string, p: string)
    requires KidsOf(value, kids) && Under(value, path, p).Some?
    ensures Reached(kids, |kids|, path, p)
  {
    var t, rest := EvalUnfold(value, p[|path|..]);
    Spliced(path, t, rest, p);
    var i :| 0 <= i < |kids| && kids[i].token == t;
    assert Under(kids[i].value, path + "/" + kids[i].token, p).Some?;
  }

  lemma FilledStep(before: Flat, mid: Flat, after: Flat, value: Json, kids: seq<Kid>, n: nat, path: string)
    requires KidsOf(value, kids) && n < |kids|
    requires Filled(before, mid, value, kids, n, path)
    requires Adds(mid, after, kids[n].value, path + "/" + kids[n].token)
    ensures Filled(before, after, value, kids, n + 1, path)
  {
    var t, child := kids[n].token, kids[n].value;
    forall p ensures Reached(kids, n + 1, path, p) <==> Reached(kids, n, path, p) || Under(child, path + "/" + t, p).Some? {
    }
    forall p | Under(child, path + "/" + t, p).Some?
      ensures Under(value, path, p) == Under(child, path + "/" + t, p)
    {
      UnderKid(value, t, child, path, p);
    }
    hide Under, Reached, KidsOf;
  }

  lemma FilledIsAdds(before: Flat, after: Flat, value: Json, kids: seq<Kid>, path: string)
    requires KidsOf(value, kids) && Filled(before, after, value, kids, |kids|, path)
    ensures Adds(before, after, value, path)
  {
    forall p ensures Reached(kids, |kids|, path, p) <==> Under(value, path, p).Some? {
      if Reached(kids, |kids|, path, p) {
        var i :| 0 <= i < |kids| && Under(kids[i].value, path + "/" + kids[i].token, p).Some?;
        UnderKid(value, kids[i].token, kids[i].value, path, p);
      }
      if Under(value, path, p).Some? {
        UnderSome(value, kids, path, p);
      }
    }
    hide Under, Reached, KidsOf;
  }

  function Members(f: Fields, keys: seq<string>): seq<Kid>
    requires forall i :: 0 <= i < |keys| ==> keys[i] in f
  {
    seq(|keys|, i requires 0 <= i < |keys| => Kid(Escape(keys[i]), f[keys[i]]))
  }

  lemma MembersAreKids(f: Fields, keys: seq<string>)
    requires forall k :: k in keys <==> k in f
    ensures KidsOf(Obj(f), Members(f, keys))
  {
    var kids := Members(f, keys);
    forall i | 0 <= i < |keys| ensures '/' !in kids[i].token && Child(Obj(f), kids[i].token) == Some(kids[i].value) {
      EscapeHasNoSlash(keys[i]);
      ObjectChild(f, kids[i].token);
    }
    forall t | Child(Obj(f), t).Some? ensures exists i :: 0 <= i < |kids| && kids[i].token == t {
      ObjectChild(f, t);
      var k :| k in f && Escape(k) == t;
      var i :| 0 <= i < |keys| && keys[i] == k;
      assert kids[i].token == t;
    }
  }

  function Items(items: seq<Json>): seq<Kid> {
    seq(|items|, i requires 0 <= i < |items| => Kid(Digits(i), items[i]))
  }

  lemma ItemsAreKids(items: seq<Json>)
    ensures KidsOf(Arr(items), Items(items))
  {
    var kids := Items(items);
    forall i | 0 <= i < |items| ensures '/' !in kids[i].token && Child(Arr(items), kids[i].token) == Some(kids[i].value) {
      DigitsHaveNoSlash(i);
      ArrayChild(items, kids[i].token);
    }
    forall t | Child(Arr(items), t).Some? ensures exists i :: 0 <= i < |kids| && kids[i].token == t {
      ArrayChild(items, t);
      var i :| 0 <= i < |items| && Digits(i) == t;
      assert kids[i].token == t;
    }
  }

  lemma ScalarUnder(value: Json, path: string, p: string)
    requires IsScalar(value)
    ensures Under(value, path, p) == if p == path then Some(value) else None
  {
    if path <= p && p != path {
      assert p[|path|..] != "";
      assert Child(value, Token(p[|path|..][1..])) == None;
    }
  }

  // ----- flattening

  method FlattenValue(value: Json, path: string, result: Sink)
    modifies result
    ensures Adds(old(result.entries), result.entries, value, path)
    decreases value
  {
    ghost var before := result.entries;
    match value {
      case Obj(f) =>
        var keys := SortedKeys(f.Keys);
        ghost var kids := Members(f, keys);
        MembersAreKids(f, keys);
        for i := 0 to |keys|
          invariant Filled(before, result.entries, value, kids, i, path)
        {
          ghost var mid := result.entries;
          assert keys[i] in f;
          FlattenValue(f[keys[i]], path + "/" + Escape(keys[i]), result);
          FilledStep(before, mid, result.entries, value, kids, i, path);
        }
        FilledIsAdds(before, result.entries, value, kids, path);
      case Arr(items) =>
        ghost var kids := Items(items);
        ItemsAreKids(items);
        for i := 0 to |items|
          invariant Filled(before, result.entries, value, kids, i, path)
        {
          ghost var mid := result.entries;
          FlattenValue(items[i], path + "/" + Digits(i), result);
          FilledStep(before, mid, result.entries, value, kids, i, path);
        }
        FilledIsAdds(before, result.entries, value, kids, path);
      case _ =>
        forall p ensures Under(value, path, p) == if p == path then Some(value) else None {
          ScalarUnder(value, path, p);
        }
        result.entries := result.entries[path := value];
    }
  }

  /** The flattened document holds exactly the pointers that lead to a scalar, each with that scalar. */
  ghost predicate IsFlat(flat: Flat, document: Json) {
    && (forall p :: p in flat <==> Leaf(document, p).Some?)
    && (forall p :: p in flat ==> Leaf(document, p) == Some(flat[p]))
  }

  method Flatten(document: Json) returns (flat: Flat)
    ensures IsFlat(flat, document)
  {
    var sink := new Sink();
    FlattenValue(document, "", sink);
    flat := sink.entries;
    forall p ensures Under(document, "", p) == Leaf(document, p) {
      assert p[|""|..] == p;
    }
  }

  // ----- positions

  /** One step down a document: into an object or into an array. */
  datatype Step = Key(key: string) | At(index: nat)

  function Nav(j: Json, steps: seq<Step>): Option<Json> {
    if steps == [] then Some(j)
    else match steps[0]
      case Key(k) => if j.Obj? && k in j.fields then Nav(j.fields[k], steps[1..]) else None
      case At(i) => if j.Arr? && i < |j.items| then Nav(j.items[i], steps[1..]) else None
  }

  function StepToken(step: Step): string {
    match step case Key(k) => Escape(k) case At(i) => Digits(i)
  }

  /** The path flattenValue builds on its way down. */
  function Render(steps: seq<Step>): string {
    if steps == [] then "" else "/" + StepToken(steps[0]) + Render(steps[1..])
  }

  lemma StepSelects(j: Json, steps: seq<Step>)
    requires steps != [] && Nav(j, steps).Some?
    ensures '/' !in StepToken(steps[0]) && Child(j, StepToken(steps[0])).Some?
    ensures Nav(j, steps) == Nav(Child(j, StepToken(steps[0])).value, steps[1..])
  {
    match steps[0]
    case Key(k) => EscapeHasNoSlash(k); ObjectChild(j.fields, Escape(k));
    case At(i) => DigitsHaveNoSlash(i); ArrayChild(j.items, Digits(i));
  }

  /** The path of a position evaluates back to what stands there. */
  lemma {:induction false} PathEvaluatesBack(j: Json, steps: seq<Step>)
    requires Nav(j, steps).Some?
    ensures Eval(j, Render(steps)) == Nav(j, steps)
  {
    if steps != [] {
      StepSelects(j, steps);
      PathEvaluatesBack(Child(j, StepToken(steps[0])).value, steps[1..]);
      EvalStep(j, StepToken(steps[0]), Render(steps[1..]));
    }
  }

  lemma FirstToken(s: string, x: string, t: string, y: string)
    requires '/' !in s && '/' !in t && Boundary(x) && Boundary(y) && "/" + s + x == "/" + t + y
    ensures s == t && x == y
  {
    TokenStops(s, x);
    TokenStops(t, y);
    assert ("/" + s + x)[1..] == s + x && ("/" + t + y)[1..] == t + y;
    assert (s + x)[|s|..] == x && (t + y)[|t|..] == y;
  }

  lemma TokenNamesStep(j: Json, a: seq<Step>, b: seq<Step>)
    requires a != [] && b != [] && Nav(j, a).Some? && Nav(j, b).Some? && StepToken(a[0]) == StepToken(b[0])
    ensures a[0] == b[0]
  {
    match j {
      case Obj(_) =>
        UnescapeEscape(a[0].key);
        UnescapeEscape(b[0].key);
      case Arr(_) =>
        DigitsInjective(a[0].index, b[0].index);
    }
  }

  lemma RenderIs(steps: seq<Step>)
    ensures Boundary(Render(steps)) && (Render(steps) == "" <==> steps == [])
    ensures steps != [] ==> Render(steps) == "/" + StepToken(steps[0]) + Render(steps[1..])
  {
  }

  /** Two positions of a document never get the same path. */
  lemma {:induction false} PathsAreDistinct(j: Json, a: seq<Step>, b: seq<Step>)
    requires Nav(j, a).Some? && Nav(j, b).Some? && Render(a) == Render(b)
    ensures a == b
  {
    hide Render, Nav, StepToken;
    RenderIs(a);
    RenderIs(b);
    if a != [] && b != [] {
      StepSelects(j, a);
      StepSelects(j, b);
      RenderIs(a[1..]);
      RenderIs(b[1..]);
      FirstToken(StepToken(a[0]), Render(a[1..]), StepToken(b[0]), Render(b[1..]));
      TokenNamesStep(j, a, b);
      PathsAreDistinct(Child(j, StepToken(a[0])).value, a[1..], b[1..]);
      assert a == [a[0]] + a[1..] && b == [b[0]] + b[1..];
    }
  }

  // ----- the diff

  datatype Operation = Added | Removed | Modified

  /** A value in an entry: missing, readable, or replaced by "[redacted]". */
  datatype Shown = Absent | Readable(value: Json) | Redacted

  datatype Entry = Entry(path: string, operation: Operation, before: Shown, after: Shown, sensitive: bool)

  function Lower(s: string): string {
    if s == "" then "" else [if 'A' <= s[0] <= 'Z' then s[0] - 'A' + 'a' else s[0]] + Lower(s[1..])
  }

  predicate Holds(text: string, part: string) {
    exists k | 0 <= k <= |text| :: OccursAt(text, part, k)
  }

  predicate SensitivePath(path: string) {
    var parts := Split(Lower(path), '/');
    var name := parts[|parts| - 1];
    name == "secret_ref" || name == "authorization" || Holds(name, "password") || Holds(name, "secret")
  }

  function Show(value: Option<Json>, sensitive: bool): Shown {
    if value.None? then Absent else if sensitive then Redacted else Readable(value.value)
  }

  /** The entry of a path on which the documents differ. */
  function EntryFor(before: Json, after: Json, path: string): Entry {
    var l, r := Leaf(before, path), Leaf(after, path);
    var operation := if l.None? then Added else if r.None? then Removed else Modified;
    Entry(path, operation, Show(l, SensitivePath(path)), Show(r, SensitivePath(path)), SensitivePath(path))
  }

  function Paths(entries: seq<Entry>): seq<string> {
    seq(|entries|, i requires 0 <= i < |entries| => entries[i].path)
  }

  /** One entry for each path that leads to different scalars, in path order. */
  ghost predicate Describes(entries: seq<Entry>, before: Json, after: Json) {
    && StrictlySorted(Paths(entries))
    && (forall p :: p in Paths(entries) <==> Leaf(before, p) != Leaf(after, p))
    && (forall i :: 0 <= i < |entries| ==> entries[i] == EntryFor(before, after, entries[i].path))
  }

  /** The loop's body: the entry of one path, if its values differ. */
  method DiffPath(left: Flat, right: Flat, path: string, ghost before: Json, ghost after: Json) returns (more: seq<Entry>)
    requires IsFlat(left, before) && IsFlat(right, after) && (path in left || path in right)
    ensures more == if Leaf(before, path) == Leaf(after, path) then [] else [EntryFor(before, after, path)]
  {
    hide Leaf, SensitivePath;
    var hadOld, hasNew := path in left, path in right;
    if hadOld && hasNew && left[path] == right[path] {
      return [];
    }
    var sensitive := SensitivePath(path);
    var entry := Entry(path, Modified, Absent, Absent, sensitive);
    if hadOld {
      entry := entry.(before := if sensitive then Redacted else Readable(left[path]));
    }
    if hasNew {
      entry := entry.(after := if sensitive then Redacted else Readable(right[path]));
    }
    if !hadOld {
      entry := entry.(operation := Added);
    } else if !hasNew {
      entry := entry.(operation := Removed);
    }
    return [entry];
  }

  method SemanticDiff(before: Json, after: Json) returns (entries: seq<Entry>)
    ensures Describes(entries, before, after)
    ensures entries == [] <==> forall p :: Leaf(before, p) == Leaf(after, p)
  {
    var left := Flatten(before);
    var right := Flatten(after);
    var ordered := SortedKeys(left.Keys + right.Keys);
    entries := [];
    assert Described(entries, before, after, ordered, 0) by {
      assert ordered[..0] == [];
    }
    for i := 0 to |ordered|
      invariant Described(entries, before, after, ordered, i)
    {
      hide Leaf, SensitivePath, Described, Describes, StrictlySorted, EntryFor;
      assert ordered[i] in ordered;
      var more := DiffPath(left, right, ordered[i], before, after);
      DescribedStep(entries, before, after, ordered, i, more);
      entries := entries + more;
    }
    hide Leaf, Described, Describes, StrictlySorted;
    DescribedAll(entries, before, after, ordered);
    EmptyIffSame(entries, before, after);
  }

  /** The entries of the first n paths. */
  ghost predicate Described(entries: seq<Entry>, before: Json, after: Json, ordered: seq<string>, n: nat)
    requires n <= |ordered|
  {
    && StrictlySorted(Paths(entries))
    && (forall p :: p in Paths(entries) <==> p in ordered[..n] && Leaf(before, p) != Leaf(after, p))
    && (forall i :: 0 <= i < |entries| ==> entries[i] == EntryFor(before, after, entries[i].path))
  }

  lemma DescribedStep(entries: seq<Entry>, before: Json, after: Json, ordered: seq<string>, n: nat, more: seq<Entry>)
    requires n < |ordered| && StrictlySorted(ordered) && Described(entries, before, after, ordered, n)
    requires if Leaf(before, ordered[n]) == Leaf(after, ordered[n]) then more == [] else more == [EntryFor(before, after, ordered[n])]
    ensures Described(entries + more, before, after, ordered, n + 1)
  {
    var path := ordered[n];
    assert ordered[..n + 1] == ordered[..n] + [path];
    if more == [] {
      assert entries + more == entries;
    } else {
      assert Paths(entries + more) == Paths(entries) + [path];
      forall i | 0 <= i < |entries| ensures Less(Paths(entries)[i], path) {
        assert Paths(entries)[i] in Paths(entries);
        var j :| 0 <= j < n && ordered[j] == Paths(entries)[i];
      }
    }
    hide Leaf, EntryFor, Less;
  }

  lemma DescribedAll(entries: seq<Entry>, before: Json, after: Json, ordered: seq<string>)
    requires Described(entries, before, after, ordered, |ordered|)
    requires forall p :: p in ordered <==> Leaf(before, p).Some? || Leaf(after, p).Some?
    ensures Describes(entries, before, after)
  {
    hide Leaf, EntryFor, StrictlySorted, Paths;
    assert ordered[..|ordered|] == ordered;
  }

  lemma EmptyIffSame(entries: seq<Entry>, before: Json, after: Json)
    requires Describes(entries, before, after)
    ensures entries == [] <==> forall p :: Leaf(before, p) == Leaf(after, p)
  {
    hide Leaf, EntryFor, StrictlySorted;
    if entries != [] {
      assert Paths(entries)[0] in Paths(entries);
    }
  }

  // ----- applying a diff

  /** The map with one unredacted entry applied. */
  function Patch(flat: Flat, e: Entry): Flat {
    if e.after.Readable? then flat[e.path := e.after.value]
    else if e.operation == Removed && !e.sensitive then flat - {e.path}
    else flat
  }

  function PatchAll(flat: Flat, entries: seq<Entry>): Flat {
    if entries == [] then flat else Patch(PatchAll(flat, entries[..|entries| - 1]), entries[|entries| - 1])
  }

  function Lookup(flat: Flat, p: string): Option<Json> {
    if p in flat then Some(flat[p]) else None
  }

  ghost predicate Honest(e: Entry, before: Json, after: Json) {
    e == EntryFor(before, after, e.path) && Leaf(before, e.path) != Leaf(after, e.path)
  }

  lemma PatchOne(flat: Flat, e: Entry, before: Json, after: Json, p: string)
    requires Honest(e, before, after)
    ensures Lookup(Patch(flat, e), p) == if p == e.path && !SensitivePath(p) then Leaf(after, p) else Lookup(flat, p)
  {
    hide Leaf, SensitivePath;
  }

  lemma {:induction false} PatchedPath(flat: Flat, entries: seq<Entry>, before: Json, after: Json, p: string)
    requires forall i :: 0 <= i < |entries| ==> Honest(entries[i], before, after)
    ensures Lookup(PatchAll(flat, entries), p) ==
            if p in Paths(entries) && !SensitivePath(p) then Leaf(after, p) else Lookup(flat, p)
  {
    hide Leaf, SensitivePath, Honest, Lookup, Patch;
    if entries != [] {
      var n := |entries| - 1;
      PatchedPath(flat, entries[..n], before, after, p);
      PatchOne(PatchAll(flat, entries[..n]), entries[n], before, after, p);
      assert Paths(entries) == Paths(entries[..n]) + [entries[n].path];
    }
  }

  lemma SameLookups(a: Flat, b: Flat)
    requires forall p :: Lookup(a, p) == Lookup(b, p)
    ensures a == b
  {
    assert forall p :: p in a <==> Lookup(a, p).Some?;
    assert forall p :: p in b <==> Lookup(b, p).Some?;
    assert forall p :: p in a && p in b ==> Some(a[p]) == Lookup(a, p) && Some(b[p]) == Lookup(b, p);
  }

  lemma EntriesAreHonest(entries: seq<Entry>, before: Json, after: Json, i: nat)
    requires Describes(entries, before, after) && i < |entries|
    ensures Honest(entries[i], before, after) && entries[i].sensitive == SensitivePath(entries[i].path)
  {
    hide Leaf, SensitivePath;
    assert Paths(entries)[i] in Paths(entries);
  }

  /** Applying the unredacted entries to the old flattened document gives the new one on every path that is
  not sensitive, and leaves the sensitive paths as they were. */
  lemma PatchGivesNew(entries: seq<Entry>, before: Json, after: Json, left: Flat, right: Flat, p: string)
    requires Describes(entries, before, after) && IsFlat(left, before) && IsFlat(right, after)
    ensures Lookup(PatchAll(left, entries), p) == if SensitivePath(p) then Lookup(left, p) else Lookup(right, p)
  {
    hide Leaf, SensitivePath, PatchAll, Honest;
    forall i | 0 <= i < |entries| ensures Honest(entries[i], before, after) {
      EntriesAreHonest(entries, before, after, i);
    }
    PatchedPath(left, entries, before, after, p);
  }

  /** With no sensitive path in the diff, the new flattened document itself. */
  lemma PatchIsExact(entries: seq<Entry>, before: Json, after: Json, left: Flat, right: Flat)
    requires Describes(entries, before, after) && IsFlat(left, before) && IsFlat(right, after)
    requires forall i :: 0 <= i < |entries| ==> !entries[i].sensitive
    ensures PatchAll(left, entries) == right
  {
    forall p ensures Lookup(PatchAll(left, entries), p) == Lookup(right, p) {
      PatchGivesNew(entries, before, after, left, right, p);
      if p in Paths(entries) {
        var i :| 0 <= i < |entries| && entries[i].path == p;
        EntriesAreHonest(entries, before, after, i);
      }
      hide Leaf, SensitivePath, PatchAll, Honest;
    }
    SameLookups(PatchAll(left, entries), right);
  }

  /** An entry on a sensitive path shows no value. */
  lemma SensitiveIsRedacted(entries: seq<Entry>, before: Json, after: Json, i: nat)
    requires Describes(entries, before, after) && i < |entries| && SensitivePath(entries[i].path)
    ensures !entries[i].before.Readable? && !entries[i].after.Readable?
  {
    hide SensitivePath, Leaf;
  }

  /** Two changes that look alike but for the values on sensitive paths. */
  ghost predicate SameButSecrets(before: Json, after: Json, before': Json, after': Json) {
    forall p ::
      if SensitivePath(p) then
        && (Leaf(before, p).Some? <==> Leaf(before', p).Some?) && (Leaf(after, p).Some? <==> Leaf(after', p).Some?)
        && (Leaf(before, p) == Leaf(after, p) <==> Leaf(before', p) == Leaf(after', p))
      else Leaf(before, p) == Leaf(before', p) && Leaf(after, p) == Leaf(after', p)
  }

  lemma SameEntry(before: Json, after: Json, before': Json, after': Json, p: string)
    requires SameButSecrets(before, after, before', after')
    ensures EntryFor(before, after, p) == EntryFor(before', after', p)
    ensures Leaf(before, p) == Leaf(after, p) <==> Leaf(before', p) == Leaf(after', p)
  {
    hide Leaf, SensitivePath;
  }

  /** A diff tells nothing of sensitive values but that they are there and whether they changed. */
  lemma DiffKeepsSecrets(entries: seq<Entry>, before: Json, after: Json, entries': seq<Entry>, before': Json, after': Json)
    requires Describes(entries, before, after) && Describes(entries', before', after')
    requires SameButSecrets(before, after, before', after')
    ensures entries == entries'
  {
    hide Leaf, EntryFor, SameButSecrets, StrictlySorted;
    forall p ensures p in Paths(entries) <==> p in Paths(entries') {
      SameEntry(before, after, before', after', p);
    }
    SortedUnique(Paths(entries), Paths(entries'));
    assert |Paths(entries)| == |Paths(entries')|;
    forall i | 0 <= i < |entries| ensures entries[i] == entries'[i] {
      assert Paths(entries)[i] == Paths(entries')[i];
      SameEntry(before, after, before', after', entries[i].path);
    }
  }
}
