/** The in-process semantic index: vectors in order of use, searched by cosine similarity within one
namespace. */
module SemanticStore {
  import opened SemanticKey
  import opened Cosine

  datatype Entry = Entry(namespace: string, source: string, vector: Vector, storedAt: int)

  datatype Candidate = Candidate(source: string, score: real)

  function KeyOf(e: Entry): string {
    MapKey(e.namespace, e.source)
  }

  ghost predicate DistinctKeys(order: seq<Entry>) {
    forall i, j :: 0 <= i < j < |order| ==> KeyOf(order[i]) != KeyOf(order[j])
  }

  // ----- Put

  /** Where the entry of a map key stands; past the end when there is none. */
  function Find(order: seq<Entry>, key: string): (k: nat)
    ensures k <= |order|
    ensures k < |order| ==> KeyOf(order[k]) == key
    ensures forall i :: 0 <= i < k ==> KeyOf(order[i]) != key
  {
    if order == [] || KeyOf(order[0]) == key then 0 else 1 + Find(order[1..], key)
  }

  /** The list after a put: an entry already there is renewed and comes first, a new one comes first and may
  drive out the last. */
  function AfterPut(order: seq<Entry>, key: SemanticKey, vector: Vector, now: int, capacity: nat): seq<Entry> {
    var k := Find(order, MapKey(Namespace(key), key.source));
    if k < |order| then [order[k].(vector := vector, storedAt := now)] + order[..k] + order[k + 1..]
    else
      var full := [Entry(Namespace(key), key.source, vector, now)] + order;
      if |full| > capacity then full[..capacity] else full
  }

  lemma PutKeepsShape(order: seq<Entry>, key: SemanticKey, vector: Vector, now: int, capacity: nat)
    requires DistinctKeys(order) && |order| <= capacity
    ensures DistinctKeys(AfterPut(order, key, vector, now, capacity))
    ensures |AfterPut(order, key, vector, now, capacity)| <= capacity
  {
    var k := Find(order, MapKey(Namespace(key), key.source));
    hide Namespace, MapKey;
    if k < |order| {
      var renewed := order[k].(vector := vector, storedAt := now);
      assert KeyOf(renewed) == KeyOf(order[k]);
    }
  }

  // ----- Search

  predicate Expired(e: Entry, ttl: int, now: int) {
    ttl > 0 && now - e.storedAt > ttl
  }

  /** What a search sees: an entry of the namespace that has not expired. */
  predicate Live(e: Entry, namespace: string, ttl: int, now: int) {
    e.namespace == namespace && !Expired(e, ttl, now)
  }

  predicate Stale(e: Entry, namespace: string, ttl: int, now: int) {
    e.namespace == namespace && Expired(e, ttl, now)
  }

  /** The list without some entries. */
  function Sweep(order: seq<Entry>, gone: set<Entry>): seq<Entry> {
    if order == [] then []
    else Sweep(order[..|order| - 1], gone) + if order[|order| - 1] in gone then [] else [order[|order| - 1]]
  }

  lemma {:induction false} SweepMembers(order: seq<Entry>, gone: set<Entry>)
    ensures forall e :: e in Sweep(order, gone) <==> e in order && e !in gone
    ensures |Sweep(order, gone)| <= |order|
  {
    if order != [] {
      var n := |order| - 1;
      SweepMembers(order[..n], gone);
      assert order == order[..n] + [order[n]];
    }
  }

  lemma {:induction false} SweepKeepsShape(order: seq<Entry>, gone: set<Entry>)
    requires DistinctKeys(order)
    ensures DistinctKeys(Sweep(order, gone))
  {
    if order != [] {
      var n := |order| - 1;
      SweepKeepsShape(order[..n], gone);
      SweepMembers(order[..n], gone);
      var rest := Sweep(order[..n], gone);
      forall i | 0 <= i < |rest| ensures KeyOf(rest[i]) != KeyOf(order[n]) {
        assert rest[i] in rest;
        var j :| 0 <= j < n && order[..n][j] == rest[i];
      }
    }
  }

  lemma {:induction false} SweepTwice(order: seq<Entry>, a: set<Entry>, b: set<Entry>)
    ensures Sweep(Sweep(order, a), b) == Sweep(order, a + b)
  {
    if order != [] {
      var n := |order| - 1;
      SweepTwice(order[..n], a, b);
      var rest := Sweep(order[..n], a);
      assert (rest + [order[n]])[..|rest|] == rest;
      assert rest + [] == rest;
    }
  }

  lemma {:induction false} SweepNothing(order: seq<Entry>)
    ensures Sweep(order, {}) == order
  {
    if order != [] {
      SweepNothing(order[..|order| - 1]);
      assert order == order[..|order| - 1] + [order[|order| - 1]];
    }
  }

  /** The entries a search of the namespace drops. */
  function StaleOf(order: seq<Entry>, namespace: string, ttl: int, now: int): set<Entry> {
    set i | 0 <= i < |order| && Stale(order[i], namespace, ttl, now) :: order[i]
  }

  function AfterSearch(order: seq<Entry>, key: SemanticKey, ttl: int, now: int): seq<Entry> {
    Sweep(order, StaleOf(order, Namespace(key), ttl, now))
  }

  /** The vectors of the live entries of a namespace by source key. */
  ghost predicate Collected(vectors: map<string, Vector>, order: seq<Entry>, namespace: string, ttl: int, now: int) {
    && (forall s :: s in vectors ==>
          exists i :: 0 <= i < |order| && Live(order[i], namespace, ttl, now) && order[i].source == s && order[i].vector == vectors[s])
    && (forall i :: 0 <= i < |order| && Live(order[i], namespace, ttl, now) ==>
          order[i].source in vectors && vectors[order[i].source] == order[i].vector)
  }

  /** One candidate for each vector that has a score. */
  ghost predicate Scored(all: seq<Candidate>, vectors: map<string, Vector>, query: Vector, sqrt: real -> real) {
    && (forall i :: 0 <= i < |all| ==> all[i].source in vectors && Score(sqrt, query, vectors[all[i].source]) == Some(all[i].score))
    && (forall i, j :: 0 <= i < j < |all| ==> all[i].source != all[j].source)
    && (forall s :: s in vectors && Score(sqrt, query, vectors[s]).Some? ==> exists i :: 0 <= i < |all| && all[i].source == s)
  }

  predicate Descending(s: seq<Candidate>) {
    forall i, j | 0 <= i < j < |s| :: s[i].score >= s[j].score
  }

  /** The best candidates: live vectors with their scores, best first, each source once, and every one left
  out scores no more than the last when the limit is reached. */
  ghost predicate Best(best: seq<Candidate>, limit: int, vectors: map<string, Vector>, query: Vector, sqrt: real -> real) {
    && |best| <= limit && Descending(best)
    && (forall i :: 0 <= i < |best| ==>
          best[i].source in vectors && Score(sqrt, query, vectors[best[i].source]) == Some(best[i].score))
    && (forall i, j :: 0 <= i < j < |best| ==> best[i].source != best[j].source)
    && (forall s :: s in vectors && Score(sqrt, query, vectors[s]).Some? &&
                    (forall i :: 0 <= i < |best| ==> best[i].source != s) ==>
          |best| == limit && forall i :: 0 <= i < |best| ==> best[i].score >= Score(sqrt, query, vectors[s]).value)
  }

  /** The first n elements stand best first. */
  ghost predicate SortedTo(a: array<Candidate>, n: nat)
    requires n <= a.Length
    reads a
  {
    forall p, q :: 0 <= p < q < n ==> a[p].score >= a[q].score
  }

  method Exchange(a: array<Candidate>, j: nat)
    requires 0 < j < a.Length
    modifies a
    ensures a[j] == old(a[j - 1]) && a[j - 1] == old(a[j])
    ensures forall p :: 0 <= p < a.Length && p != j && p != j - 1 ==> a[p] == old(a[p])
    ensures multiset(a[..]) == multiset(old(a[..]))
  {
    a[j], a[j - 1] := a[j - 1], a[j];
  }

  /** One round of the insertion sort: the i-th element moves forward by exchanges of neighbours. */
  method MoveForward(a: array<Candidate>, i: nat)
    requires i < a.Length && SortedTo(a, i)
    modifies a
    ensures SortedTo(a, i + 1) && multiset(a[..]) == multiset(old(a[..]))
  {
    var j := i;
    while j > 0 && a[j].score > a[j - 1].score
      invariant 0 <= j <= i
      invariant forall p, q :: 0 <= p < q <= i && q != j ==> a[p].score >= a[q].score
      invariant multiset(a[..]) == multiset(old(a[..]))
    {
      Exchange(a, j);
      j := j - 1;
    }
  }

  /** The insertion sort of the search. */
  method Sort(a: array<Candidate>)
    modifies a
    ensures Descending(a[..]) && multiset(a[..]) == multiset(old(a[..]))
  {
    for i := 0 to a.Length
      invariant SortedTo(a, i) && multiset(a[..]) == multiset(old(a[..]))
    {
      MoveForward(a, i);
    }
  }

  lemma {:induction false} OnceEach(s: seq<Candidate>, c: Candidate)
    requires forall i, j :: 0 <= i < j < |s| ==> s[i] != s[j]
    ensures multiset(s)[c] <= 1
  {
    if s != [] {
      var n := |s| - 1;
      OnceEach(s[..n], c);
      assert s == s[..n] + [s[n]];
      assert s[n] !in s[..n];
      assert s[n] !in multiset(s[..n]);
    }
  }

  lemma TwiceCounts(s: seq<Candidate>, i: nat, j: nat)
    requires i < j < |s| && s[i] == s[j]
    ensures multiset(s)[s[i]] >= 2
  {
    assert s == s[..j] + [s[j]] + s[j + 1..];
    assert s[i] == s[..j][i] && s[i] in multiset(s[..j]);
  }

  lemma SortedIsScored(all: seq<Candidate>, sorted: seq<Candidate>, vectors: map<string, Vector>, query: Vector, sqrt: real -> real)
    requires Scored(all, vectors, query, sqrt) && multiset(sorted) == multiset(all)
    ensures Scored(sorted, vectors, query, sqrt)
  {
    forall c ensures c in sorted <==> c in all {
      assert c in sorted <==> c in multiset(sorted);
      assert c in all <==> c in multiset(all);
    }
    forall i | 0 <= i < |sorted| ensures exists j :: 0 <= j < |all| && all[j] == sorted[i] {
      assert sorted[i] in sorted;
    }
    forall i, j | 0 <= i < j < |sorted| ensures sorted[i].source != sorted[j].source {
      if sorted[i].source == sorted[j].source {
        SameSource(all, sorted[i], sorted[j]);
        TwiceCounts(sorted, i, j);
        OnceEach(all, sorted[i]);
      }
    }
    forall s | s in vectors && Score(sqrt, query, vectors[s]).Some? ensures exists i :: 0 <= i < |sorted| && sorted[i].source == s {
      var j :| 0 <= j < |all| && all[j].source == s;
      assert all[j] in sorted;
    }
  }

  lemma SameSource(all: seq<Candidate>, c: Candidate, d: Candidate)
    requires forall i, j :: 0 <= i < j < |all| ==> all[i].source != all[j].source
    requires c in all && d in all && c.source == d.source
    ensures c == d
  {
  }

  /** A scored vector that is not among the first ones stands after them. */
  lemma LeftOut(sorted: seq<Candidate>, n: nat, vectors: map<string, Vector>, query: Vector, sqrt: real -> real, s: string)
    requires n <= |sorted| && Descending(sorted) && Scored(sorted, vectors, query, sqrt)
    requires s in vectors && Score(sqrt, query, vectors[s]).Some? && forall i :: 0 <= i < n ==> sorted[i].source != s
    ensures n < |sorted| && forall i :: 0 <= i < n ==> sorted[i].score >= Score(sqrt, query, vectors[s]).value
  {
    var j :| 0 <= j < |sorted| && sorted[j].source == s;
  }

  lemma CutIsBest(sorted: seq<Candidate>, limit: int, vectors: map<string, Vector>, query: Vector, sqrt: real -> real)
    requires limit > 0 && Descending(sorted) && Scored(sorted, vectors, query, sqrt)
    ensures Best(if |sorted| > limit then sorted[..limit] else sorted, limit, vectors, query, sqrt)
  {
    var n := if |sorted| > limit then limit else |sorted|;
    var best := sorted[..n];
    assert |sorted| <= limit ==> best == sorted;
    forall s | s in vectors && Score(sqrt, query, vectors[s]).Some? && (forall i :: 0 <= i < |best| ==> best[i].source != s)
      ensures |best| == limit && forall i :: 0 <= i < |best| ==> best[i].score >= Score(sqrt, query, vectors[s]).value
    {
      assert forall i :: 0 <= i < n ==> sorted[i] == best[i];
      LeftOut(sorted, n, vectors, query, sqrt, s);
    }
  }

  // ----- the store

  datatype Outcome = Found(candidates: seq<Candidate>) | BadLimit

  class MemorySemanticStore {
    const capacity: nat
    const ttl: int
    var order: seq<Entry>

    ghost predicate Valid() reads this {
      DistinctKeys(order) && |order| <= capacity
    }

    constructor (capacity: int, ttl: int)
      ensures Valid() && order == [] && this.ttl == ttl
      ensures this.capacity == if capacity <= 0 then 1024 else capacity
    {
      this.capacity := if capacity <= 0 then 1024 else capacity;
      this.ttl := ttl;
      order := [];
    }

    method Put(key: SemanticKey, vector: Vector, now: int)
      requires Valid()
      modifies this
      ensures Valid() && order == AfterPut(old(order), key, vector, now, capacity)
    {
      PutKeepsShape(order, key, vector, now, capacity);
      var namespace := Namespace(key);
      var k := Find(order, MapKey(namespace, key.source));
      if k < |order| {
        var entry := order[k].(vector := vector, storedAt := now);
        order := [entry] + order[..k] + order[k + 1..];
        return;
      }
      order := [Entry(namespace, key.source, vector, now)] + order;
      Evict();
    }

    method Evict()
      modifies this
      ensures order == if |old(order)| > capacity then old(order)[..capacity] else old(order)
    {
      while |order| > capacity
        invariant order <= old(order) && (|order| >= capacity || order == old(order))
      {
        order := order[..|order| - 1];
      }
    }

    method Search(key: SemanticKey, query: Vector, limit: int, now: int, sqrt: real -> real) returns (r: Outcome)
      requires Valid()
      modifies this
      ensures limit <= 0 ==> r == BadLimit && order == old(order)
      ensures limit > 0 ==> Valid() && order == AfterSearch(old(order), key, ttl, now)
      ensures limit > 0 ==>
                r.Found? && exists vectors ::
                  && Collected(vectors, old(order), Namespace(key), ttl, now)
                  && Best(r.candidates, limit, vectors, query, sqrt)
    {
      if limit <= 0 {
        return BadLimit;
      }
      var namespace := Namespace(key);
      ghost var before := order;
      SweepKeepsShape(before, StaleOf(before, namespace, ttl, now));
      SweepMembers(before, StaleOf(before, namespace, ttl, now));
      var vectors := Collect(namespace, now);
      var all := ScoreAll(vectors, query, sqrt);
      var a := new Candidate[|all|](i requires 0 <= i < |all| => all[i]);
      assert a[..] == all;
      Sort(a);
      var best := a[..];
      SortedIsScored(all, best, vectors, query, sqrt);
      CutIsBest(best, limit, vectors, query, sqrt);
      if |best| > limit {
        best := best[..limit];
      }
      return Found(best);
    }

    /** The first pass over the list, then the removal of what had expired. */
    method Collect(namespace: string, now: int) returns (vectors: map<string, Vector>)
      requires Valid()
      modifies this
      ensures Collected(vectors, old(order), namespace, ttl, now)
      ensures order == Sweep(old(order), StaleOf(old(order), namespace, ttl, now))
    {
      vectors := map[];
      var expired: seq<Entry> := [];
      for i := 0 to |order|
        invariant order == old(order)
        invariant Collected(vectors, order[..i], namespace, ttl, now)
        invariant SetOf(expired) == StaleOf(order[..i], namespace, ttl, now)
      {
        var entry := order[i];
        CollectStep(vectors, order, i, namespace, ttl, now);
        if entry.namespace == namespace {
          if ttl > 0 && now - entry.storedAt > ttl {
            SetOfAppend(expired, entry);
            expired := expired + [entry];
          } else {
            vectors := vectors[entry.source := entry.vector];
          }
        }
      }
      assert order[..|order|] == order;
      RemoveAll(expired);
    }

    method RemoveAll(expired: seq<Entry>)
      modifies this
      ensures order == Sweep(old(order), SetOf(expired))
    {
      ghost var before := order;
      SweepNothing(order);
      assert expired[..0] == [] && SetOf([]) == {};
      for j := 0 to |expired|
        invariant order == Sweep(before, SetOf(expired[..j]))
      {
        SweepTwice(before, SetOf(expired[..j]), {expired[j]});
        SetOfAppend(expired[..j], expired[j]);
        assert expired[..j + 1] == expired[..j] + [expired[j]];
        order := Sweep(order, {expired[j]});
      }
      assert expired[..|expired|] == expired;
    }
  }

  function SetOf(entries: seq<Entry>): set<Entry> {
    set e | e in entries
  }

  lemma SetOfAppend(entries: seq<Entry>, e: Entry)
    ensures SetOf(entries + [e]) == SetOf(entries) + {e}
  {
  }

  lemma CollectStep(vectors: map<string, Vector>, order: seq<Entry>, i: nat, namespace: string, ttl: int, now: int)
    requires DistinctKeys(order) && i < |order| && Collected(vectors, order[..i], namespace, ttl, now)
    ensures var e := order[i];
            && (!Live(e, namespace, ttl, now) ==> Collected(vectors, order[..i + 1], namespace, ttl, now))
            && (Live(e, namespace, ttl, now) ==> Collected(vectors[e.source := e.vector], order[..i + 1], namespace, ttl, now))
            && (StaleOf(order[..i + 1], namespace, ttl, now) ==
                StaleOf(order[..i], namespace, ttl, now) + if Stale(e, namespace, ttl, now) then {e} else {})
  {
    assert order[..i + 1] == order[..i] + [order[i]];
  }

  method ScoreAll(vectors: map<string, Vector>, query: Vector, sqrt: real -> real) returns (all: seq<Candidate>)
    ensures Scored(all, vectors, query, sqrt)
  {
    all := [];
    var todo := vectors.Keys;
    while todo != {}
      invariant todo <= vectors.Keys
      invariant Scored(all, vectors - todo, query, sqrt)
      decreases todo
    {
      var source :| source in todo;
      var score := Similarity(sqrt, query, vectors[source]);
      ScoredStep(all, vectors - todo, query, sqrt, source, vectors[source]);
      assert vectors - (todo - {source}) == (vectors - todo)[source := vectors[source]];
      if score.Some? {
        all := all + [Candidate(source, score.value)];
      }
      todo := todo - {source};
    }
    assert vectors - {} == vectors;
  }

  lemma ScoredStep(all: seq<Candidate>, vectors: map<string, Vector>, query: Vector, sqrt: real -> real, source: string, vector: Vector)
    requires Scored(all, vectors, query, sqrt) && source !in vectors
    ensures var score := Score(sqrt, query, vector);
            Scored(if score.Some? then all + [Candidate(source, score.value)] else all, vectors[source := vector], query, sqrt)
  {
    var score := Score(sqrt, query, vector);
    var more := if score.Some? then all + [Candidate(source, score.value)] else all;
    var wider := vectors[source := vector];
    forall s | s in wider && Score(sqrt, query, wider[s]).Some? ensures exists i :: 0 <= i < |more| && more[i].source == s {
      if s == source {
        assert more[|all|].source == s;
      } else {
        var i :| 0 <= i < |all| && all[i].source == s;
        assert more[i] == all[i];
      }
    }
  }

  // ----- whole runs

  datatype Op = PutOp(key: SemanticKey, vector: Vector, now: int) | SearchOp(key: SemanticKey, query: Vector, limit: int, now: int)

  function Run(ops: seq<Op>, capacity: nat, ttl: int): seq<Entry> {
    if ops == [] then []
    else
      var order := Run(ops[..|ops| - 1], capacity, ttl);
      Next(order, ops[|ops| - 1], capacity, ttl)
  }

  function Next(order: seq<Entry>, op: Op, capacity: nat, ttl: int): seq<Entry> {
    match op
    case PutOp(key, vector, now) => AfterPut(order, key, vector, now, capacity)
    case SearchOp(key, _, limit, now) => if limit <= 0 then order else AfterSearch(order, key, ttl, now)
  }

  /** Names hold no NUL, tenants and projects no colon. */
  predicate Proper(ops: seq<Op>) {
    forall i | 0 <= i < |ops| :: Clean(ops[i].key) && Plain(ops[i].key)
  }

  /** An entry is what one put stored. */
  predicate StoredBy(e: Entry, op: Op) {
    op.PutOp? && e == Entry(Namespace(op.key), op.key.source, op.vector, op.now)
  }

  ghost predicate Traced(order: seq<Entry>, ops: seq<Op>) {
    forall e :: e in order ==> exists i :: 0 <= i < |ops| && StoredBy(e, ops[i])
  }

  /** The entry a put renews was stored under the same namespace and source key. */
  lemma SameOrigin(e: Entry, ops: seq<Op>, i: nat, key: SemanticKey)
    requires i < |ops| && StoredBy(e, ops[i]) && Proper(ops) && Clean(key) && KeyOf(e) == MapKey(Namespace(key), key.source)
    ensures e.namespace == Namespace(key) && e.source == key.source
  {
    NamespaceIsClean(ops[i].key);
    NamespaceIsClean(key);
    MapKeyInjective(e.namespace, e.source, Namespace(key), key.source);
  }

  /** A put stores its own entry and keeps others as they were. */
  lemma PutMembers(order: seq<Entry>, ops: seq<Op>, op: Op, capacity: nat, e: Entry)
    requires Traced(order, ops) && op.PutOp? && Proper(ops) && Clean(op.key)
    requires e in AfterPut(order, op.key, op.vector, op.now, capacity)
    ensures StoredBy(e, op) || e in order
  {
    hide Proper;
    var k := Find(order, MapKey(Namespace(op.key), op.key.source));
    if k < |order| {
      assert order[k] in order;
      var i :| 0 <= i < |ops| && StoredBy(order[k], ops[i]);
      SameOrigin(order[k], ops, i, op.key);
    }
  }

  lemma TracedPut(order: seq<Entry>, ops: seq<Op>, op: Op, capacity: nat)
    requires Traced(order, ops) && op.PutOp? && Proper(ops) && Clean(op.key)
    ensures Traced(AfterPut(order, op.key, op.vector, op.now, capacity), ops + [op])
  {
    var next, more := AfterPut(order, op.key, op.vector, op.now, capacity), ops + [op];
    forall e | e in next ensures exists i :: 0 <= i < |more| && StoredBy(e, more[i]) {
      PutMembers(order, ops, op, capacity, e);
      hide AfterPut, StoredBy, Proper;
      if StoredBy(e, op) {
        assert more[|ops|] == op;
      } else {
        var i :| 0 <= i < |ops| && StoredBy(e, ops[i]);
        assert more[i] == ops[i];
      }
    }
  }

  lemma TracedMore(order: seq<Entry>, less: seq<Entry>, ops: seq<Op>, op: Op)
    requires Traced(order, ops) && forall e :: e in less ==> e in order
    ensures Traced(less, ops + [op])
  {
    forall e | e in less ensures exists i :: 0 <= i < |ops + [op]| && StoredBy(e, (ops + [op])[i]) {
      var i :| 0 <= i < |ops| && StoredBy(e, ops[i]);
      assert (ops + [op])[i] == ops[i];
    }
  }

  lemma {:induction false} RunIsTraced(ops: seq<Op>, capacity: nat, ttl: int)
    requires Proper(ops)
    ensures Traced(Run(ops, capacity, ttl), ops)
  {
    if ops != [] {
      var n := |ops| - 1;
      var order := Run(ops[..n], capacity, ttl);
      RunIsTraced(ops[..n], capacity, ttl);
      assert ops == ops[..n] + [ops[n]];
      match ops[n] {
        case PutOp(key, vector, now) =>
          TracedPut(order, ops[..n], ops[n], capacity);
        case SearchOp(key, _, _, now) =>
          SweepMembers(order, StaleOf(order, Namespace(key), ttl, now));
          TracedMore(order, Run(ops, capacity, ttl), ops[..n], ops[n]);
      }
    }
  }

  /** The operation put the vector for the key's collection, and it has not expired. */
  predicate PutFor(op: Op, key: SemanticKey, source: string, vector: Vector, ttl: int, now: int) {
    && op.PutOp? && SameCollection(op.key, key) && op.key.source == source && op.vector == vector
    && (ttl > 0 ==> now - op.now <= ttl)
  }

  /** Whatever was put and searched before, a search sees only vectors that were put for its own tenant,
  project, model, dimension and version and have not expired. */
  lemma SearchStaysInside(ops: seq<Op>, capacity: nat, ttl: int, key: SemanticKey, now: int, vectors: map<string, Vector>, s: string)
    requires Proper(ops) && Clean(key) && Plain(key)
    requires Collected(vectors, Run(ops, capacity, ttl), Namespace(key), ttl, now) && s in vectors
    ensures exists i :: 0 <= i < |ops| && PutFor(ops[i], key, s, vectors[s], ttl, now)
  {
    var order := Run(ops, capacity, ttl);
    RunIsTraced(ops, capacity, ttl);
    hide Run;
    var k :| 0 <= k < |order| && Live(order[k], Namespace(key), ttl, now) && order[k].source == s && order[k].vector == vectors[s];
    assert order[k] in order;
    var i :| 0 <= i < |ops| && StoredBy(order[k], ops[i]);
    NamespaceInjective(ops[i].key, key);
  }

  // ----- a store in use

  /** The answer to one operation on a list. */
  ghost predicate Answers(order: seq<Entry>, op: Op, ttl: int, sqrt: real -> real, r: Outcome) {
    match op
    case PutOp(_, _, _) => true
    case SearchOp(key, query, limit, now) =>
      if limit <= 0 then r == BadLimit
      else
        r.Found? && exists vectors ::
          Collected(vectors, order, Namespace(key), ttl, now) && Best(r.candidates, limit, vectors, query, sqrt)
  }

  ghost predicate AllAnswered(ops: seq<Op>, capacity: nat, ttl: int, sqrt: real -> real, answers: seq<Outcome>) {
    |answers| == |ops| && forall i :: 0 <= i < |ops| ==> Answers(Run(ops[..i], capacity, ttl), ops[i], ttl, sqrt, answers[i])
  }

  lemma AnsweredStep(ops: seq<Op>, n: nat, capacity: nat, ttl: int, sqrt: real -> real, answers: seq<Outcome>, r: Outcome)
    requires n < |ops| && AllAnswered(ops[..n], capacity, ttl, sqrt, answers)
    requires Answers(Run(ops[..n], capacity, ttl), ops[n], ttl, sqrt, r)
    ensures AllAnswered(ops[..n + 1], capacity, ttl, sqrt, answers + [r])
    ensures Run(ops[..n + 1], capacity, ttl) == Next(Run(ops[..n], capacity, ttl), ops[n], capacity, ttl)
  {
    assert ops[..n + 1][..n] == ops[..n];
    hide Answers, Next, Run;
    forall i | 0 <= i < n + 1 ensures Answers(Run(ops[..n + 1][..i], capacity, ttl), ops[i], ttl, sqrt, (answers + [r])[i]) {
      assert ops[..n + 1][..i] == ops[..i];
      assert i < n ==> ops[..n][..i] == ops[..i];
    }
  }

  /** A store asked once for each operation: every search sees the run before it. */
  method Serve(capacity: int, ttl: int, ops: seq<Op>, sqrt: real -> real) returns (answers: seq<Outcome>)
    ensures AllAnswered(ops, if capacity <= 0 then 1024 else capacity, ttl, sqrt, answers)
  {
    var store := new MemorySemanticStore(capacity, ttl);
    answers := [];
    assert ops[..0] == [];
    for i := 0 to |ops|
      invariant store.Valid() && fresh(store) && store.order == Run(ops[..i], store.capacity, ttl)
      invariant AllAnswered(ops[..i], store.capacity, ttl, sqrt, answers)
    {
      hide Run, AfterPut, AfterSearch, Collected, Best, AllAnswered, DistinctKeys;
      ghost var before := store.order;
      var r := Found([]);
      match ops[i] {
        case PutOp(key, vector, now) => store.Put(key, vector, now);
        case SearchOp(key, query, limit, now) => r := store.Search(key, query, limit, now, sqrt);
      }
      assert Answers(before, ops[i], ttl, sqrt, r);
      AnsweredStep(ops, i, store.capacity, ttl, sqrt, answers, r);
      answers := answers + [r];
    }
    assert ops[..|ops|] == ops;
  }

  lemma CandidateHasVector(order: seq<Entry>, op: Op, ttl: int, sqrt: real -> real, r: Outcome, c: Candidate)
      returns (vectors: map<string, Vector>)
    requires op.SearchOp? && Answers(order, op, ttl, sqrt, r) && r.Found? && c in r.candidates
    ensures Collected(vectors, order, Namespace(op.key), ttl, op.now)
    ensures c.source in vectors && Score(sqrt, op.query, vectors[c.source]) == Some(c.score)
  {
    hide Collected;
    vectors :| Collected(vectors, order, Namespace(op.key), ttl, op.now) && Best(r.candidates, op.limit, vectors, op.query, sqrt);
  }

  /** A candidate that a served search returns is a vector put before it for the same collection, not expired,
  with the score of that vector. */
  lemma AnswersStayInside(ops: seq<Op>, capacity: nat, ttl: int, sqrt: real -> real, answers: seq<Outcome>, n: nat, c: Candidate)
    requires Proper(ops) && AllAnswered(ops, capacity, ttl, sqrt, answers)
    requires n < |ops| && ops[n].SearchOp? && answers[n].Found? && c in answers[n].candidates
    ensures exists i, v :: 0 <= i < n && PutFor(ops[i], ops[n].key, c.source, v, ttl, ops[n].now)
                           && Score(sqrt, ops[n].query, v) == Some(c.score)
  {
    hide Run, Answers, PutFor, Collected;
    var vectors := CandidateHasVector(Run(ops[..n], capacity, ttl), ops[n], ttl, sqrt, answers[n], c);
    SearchStaysInside(ops[..n], capacity, ttl, ops[n].key, ops[n].now, vectors, c.source);
    var i :| 0 <= i < n && PutFor(ops[..n][i], ops[n].key, c.source, vectors[c.source], ttl, ops[n].now);
    assert ops[..n][i] == ops[i];
  }
}
