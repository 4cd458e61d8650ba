/** The namespace under which a vector of the semantic cache is stored and searched. */
module SemanticKey {
  import opened Decimal

  datatype SemanticKey = SemanticKey(
    tenant: string,
    project: string,
    model: string,
    dimension: Int64,
    version: Int64,
    source: string)

  /** "semantic:TENANT:PROJECT:MODEL:dim:DIMENSION:ver:VERSION", grouped for reading it back. */
  function Namespace(k: SemanticKey): string {
    "semantic:" + (k.tenant + ":" + (k.project + ":" + Tail(k.model, k.dimension, k.version)))
  }

  function Tail(model: string, dimension: Int64, version: Int64): string {
    (Head(model, dimension) + ":ver") + ":" + Itoa(version)
  }

  function Head(model: string, dimension: Int64): string {
    (model + ":dim") + ":" + Itoa(dimension)
  }

  function MapKey(namespace: string, source: string): string {
    namespace + "\0" + source
  }

  /** The same collection: everything but the source key agrees. */
  predicate SameCollection(j: SemanticKey, k: SemanticKey) {
    j.tenant == k.tenant && j.project == k.project && j.model == k.model && j.dimension == k.dimension && j.version == k.version
  }

  /** Text before the first separator. */
  lemma FirstSeparator(a: string, x: string, b: string, y: string, sep: char)
    requires sep !in a && sep !in b && a + [sep] + x == b + [sep] + y
    ensures a == b && x == y
  {
    var s := a + [sep] + x;
    assert s[|a|] == sep && s[|b|] == sep;
    assert forall i :: 0 <= i < |a| ==> s[i] == a[i];
    assert forall i :: 0 <= i < |b| ==> s[i] == b[i];
    assert |a| == |b|;
    assert s[..|a|] == a && s[..|b|] == b;
    assert s[|a| + 1..] == x && s[|b| + 1..] == y;
  }

  /** Text after the last separator. */
  lemma LastSeparator(x: string, a: string, y: string, b: string, sep: char)
    requires sep !in a && sep !in b && x + [sep] + a == y + [sep] + b
    ensures a == b && x == y
  {
    var s := x + [sep] + a;
    assert s[|x|] == sep && s[|y|] == sep;
    assert forall i :: |x| < i < |s| ==> s[i] == a[i - |x| - 1];
    assert forall i :: |y| < i < |s| ==> s[i] == b[i - |y| - 1];
    assert |x| == |y|;
    assert s[..|x|] == x && s[..|y|] == y;
    assert s[|x| + 1..] == a && s[|y| + 1..] == b;
  }

  lemma SameSuffix(x: string, y: string, suffix: string)
    requires x + suffix == y + suffix
    ensures x == y
  {
    assert (x + suffix)[..|x|] == x && (y + suffix)[..|y|] == y;
  }

  lemma ItoaHasNo(v: Int64, c: char)
    requires c == ':' || c == '\0'
    ensures c !in Itoa(v)
  {
    ItoaShape(v);
  }

  /** The model and the two numbers can be read back: from the right, whatever the model's text. */
  lemma TailInjective(m: string, d: Int64, v: Int64, m': string, d': Int64, v': Int64)
    requires Tail(m, d, v) == Tail(m', d', v')
    ensures m == m' && d == d' && v == v'
  {
    ItoaHasNo(v, ':');
    ItoaHasNo(v', ':');
    LastSeparator(Head(m, d) + ":ver", Itoa(v), Head(m', d') + ":ver", Itoa(v'), ':');
    ItoaInjective(v, v');
    SameSuffix(Head(m, d), Head(m', d'), ":ver");
    ItoaHasNo(d, ':');
    ItoaHasNo(d', ':');
    LastSeparator(m + ":dim", Itoa(d), m' + ":dim", Itoa(d'), ':');
    ItoaInjective(d, d');
    SameSuffix(m, m', ":dim");
  }

  /** Tenant and project hold no colon. */
  predicate Plain(k: SemanticKey) {
    ':' !in k.tenant && ':' !in k.project
  }

  /** Two plain keys share a namespace exactly when they name the same collection. */
  lemma NamespaceInjective(j: SemanticKey, k: SemanticKey)
    requires Plain(j) && Plain(k)
    ensures Namespace(j) == Namespace(k) <==> SameCollection(j, k)
  {
    if Namespace(j) == Namespace(k) {
      hide Tail;
      var tj, tk := Tail(j.model, j.dimension, j.version), Tail(k.model, k.dimension, k.version);
      assert Namespace(j)[9..] == j.tenant + ":" + (j.project + ":" + tj);
      assert Namespace(k)[9..] == k.tenant + ":" + (k.project + ":" + tk);
      FirstSeparator(j.tenant, j.project + ":" + tj, k.tenant, k.project + ":" + tk, ':');
      FirstSeparator(j.project, tj, k.project, tk, ':');
      TailInjective(j.model, j.dimension, j.version, k.model, k.dimension, k.version);
    }
  }

  lemma Regroup(a: string, b: string, c: string, tail: string)
    ensures (a + ":" + b) + ":" + (c + ":" + tail) == a + ":" + ((b + ":" + c) + ":" + tail)
  {
  }

  /** With a colon in a name they do not: whatever stands around the colon, two tenants share a namespace. */
  lemma ColonCollides(k: SemanticKey, a: string, b: string, c: string)
    ensures var j, l := k.(tenant := a + ":" + b, project := c), k.(tenant := a, project := b + ":" + c);
            Namespace(j) == Namespace(l) && j.tenant != l.tenant
  {
    hide Tail;
    Regroup(a, b, c, Tail(k.model, k.dimension, k.version));
    assert |a + ":" + b| > |a|;
  }

  /** No NUL in any name. */
  predicate Clean(k: SemanticKey) {
    '\0' !in k.tenant && '\0' !in k.project && '\0' !in k.model
  }

  lemma NamespaceIsClean(k: SemanticKey)
    requires Clean(k)
    ensures '\0' !in Namespace(k)
  {
    ItoaHasNo(k.dimension, '\0');
    ItoaHasNo(k.version, '\0');
    assert '\0' !in Head(k.model, k.dimension);
    assert '\0' !in Tail(k.model, k.dimension, k.version);
    hide Head, Tail;
  }

  /** The keys of the store's map tell namespaces and source keys apart. */
  lemma MapKeyInjective(m: string, s: string, n: string, t: string)
    requires '\0' !in m && '\0' !in n && MapKey(m, s) == MapKey(n, t)
    ensures m == n && s == t
  {
    FirstSeparator(m, s, n, t, '\0');
  }

  /** What a namespace has after the model. */
  function Suffix(dimension: Int64, version: Int64): string {
    ":dim:" + Itoa(dimension) + ":ver:" + Itoa(version)
  }

  lemma TailIs(model: string, dimension: Int64, version: Int64)
    ensures Tail(model, dimension, version) == model + Suffix(dimension, version)
  {
  }

  lemma NulText(left: string, model: string, suffix: string, x: string, y: string)
    ensures (left + (model + suffix)) + "\0" + (x + suffix + "\0" + y) == (left + ((model + suffix + "\0" + x) + suffix)) + "\0" + y
  {
  }

  lemma Grouped(k: SemanticKey)
    ensures Namespace(k) == ("semantic:" + k.tenant + ":" + k.project + ":") + Tail(k.model, k.dimension, k.version)
  {
    hide Tail;
  }

  /** With a NUL in the name of a model they do not: a vector of one collection stands under the key of another. */
  lemma NulCollides(k: SemanticKey, x: string, y: string)
    ensures var suffix := Suffix(k.dimension, k.version);
            var a, b := k.(source := x + suffix + "\0" + y), k.(model := k.model + suffix + "\0" + x, source := y);
            MapKey(Namespace(a), a.source) == MapKey(Namespace(b), b.source) && !SameCollection(a, b)
  {
    var suffix := Suffix(k.dimension, k.version);
    var a, b := k.(source := x + suffix + "\0" + y), k.(model := k.model + suffix + "\0" + x, source := y);
    assert |b.model| > |a.model|;
    hide Namespace, Tail, Suffix;
    Grouped(a);
    Grouped(b);
    TailIs(a.model, k.dimension, k.version);
    TailIs(b.model, k.dimension, k.version);
    NulText("semantic:" + k.tenant + ":" + k.project + ":", k.model, suffix, x, y);
  }
}
