/** What a semantic search sees, told from the operations alone: the vector put last for the collection and the
source, while it is in time and has not been pushed out. */
module SemanticTimes {
  import opened SemanticKey
  import opened Cosine
  import opened SemanticStore

  /** The time to live has not passed; one of zero or less sets no limit. */
  predicate InTime(ttl: int, storedAt: int, now: int) {
    ttl <= 0 || now - storedAt <= ttl
  }

  function PutKey(op: Op): string {
    MapKey(Namespace(op.key), op.key.source)
  }

  function EntryOf(op: Op): Entry
    requires op.PutOp?
  {
    Entry(Namespace(op.key), op.key.source, op.vector, op.now)
  }

  /** The operation leaves an entry alone: it is no put under its key, and no search of its namespace that comes
  too late for it. */
  predicate Spares(op: Op, e: Entry, ttl: int) {
    match op
    case PutOp(_, _, _) => PutKey(op) != KeyOf(e)
    case SearchOp(key, _, limit, now) => limit > 0 && Namespace(key) == e.namespace ==> InTime(ttl, e.storedAt, now)
  }

  /** The entry of the put at i, spared by all operations since. */
  ghost predicate LastPut(ops: seq<Op>, i: nat, e: Entry, ttl: int) {
    && i < |ops| && ops[i].PutOp? && e == EntryOf(ops[i])
    && forall j :: i < j < |ops| ==> Spares(ops[j], e, ttl)
  }

  lemma LastPutMore(ops: seq<Op>, i: nat, e: Entry, ttl: int)
    requires i < |ops| - 1
    ensures LastPut(ops, i, e, ttl) <==> LastPut(ops[..|ops| - 1], i, e, ttl) && Spares(ops[|ops| - 1], e, ttl)
  {
    hide Spares, EntryOf;
  }

  // ----- an entry that is held was put last

  lemma PutKeepsOld(order: seq<Entry>, ops: seq<Op>, op: Op, capacity: nat, e: Entry)
    requires Traced(order, ops) && op.PutOp? && Proper(ops) && Clean(op.key) && DistinctKeys(order) && |order| <= capacity
    requires e in AfterPut(order, op.key, op.vector, op.now, capacity) && e != EntryOf(op)
    ensures e in order && KeyOf(e) != PutKey(op)
  {
    var t := AfterPut(order, op.key, op.vector, op.now, capacity);
    PutMembers(order, ops, op, capacity, e);
    PutKeepsShape(order, op.key, op.vector, op.now, capacity);
    FirstKey(order, op, capacity);
    var k :| 0 <= k < |t| && t[k] == e;
    if k == 0 {
      FirstIsPut(order, ops, op, capacity);
    }
  }

  lemma FirstKey(order: seq<Entry>, op: Op, capacity: nat)
    requires op.PutOp?
    ensures var t := AfterPut(order, op.key, op.vector, op.now, capacity); t != [] ==> KeyOf(t[0]) == PutKey(op)
  {
  }

  lemma FirstIsPut(order: seq<Entry>, ops: seq<Op>, op: Op, capacity: nat)
    requires Traced(order, ops) && op.PutOp? && Proper(ops) && Clean(op.key)
    ensures var t := AfterPut(order, op.key, op.vector, op.now, capacity); t != [] ==> t[0] == EntryOf(op)
  {
    hide Proper;
    var k := Find(order, PutKey(op));
    if k < |order| {
      assert order[k] in order;
      var i :| 0 <= i < |ops| && StoredBy(order[k], ops[i]);
      SameOrigin(order[k], ops, i, op.key);
    }
  }

  lemma NextKeeps(order: seq<Entry>, ops: seq<Op>, op: Op, capacity: nat, ttl: int, e: Entry)
    requires Traced(order, ops) && Proper(ops) && Clean(op.key) && DistinctKeys(order) && |order| <= capacity
    requires e in Next(order, op, capacity, ttl)
    ensures (op.PutOp? && e == EntryOf(op)) || (e in order && Spares(op, e, ttl))
  {
    if op.PutOp? {
      if e != EntryOf(op) {
        PutKeepsOld(order, ops, op, capacity, e);
      }
    } else if op.limit > 0 {
      SweepMembers(order, StaleOf(order, Namespace(op.key), ttl, op.now));
    }
  }

  lemma {:induction false} RunShape(ops: seq<Op>, capacity: nat, ttl: int)
    ensures DistinctKeys(Run(ops, capacity, ttl)) && |Run(ops, capacity, ttl)| <= capacity
  {
    if ops != [] {
      var n := |ops| - 1;
      var order := Run(ops[..n], capacity, ttl);
      RunShape(ops[..n], capacity, ttl);
      match ops[n] {
        case PutOp(key, vector, now) => PutKeepsShape(order, key, vector, now, capacity);
        case SearchOp(key, _, _, now) =>
          SweepKeepsShape(order, StaleOf(order, Namespace(key), ttl, now));
          SweepMembers(order, StaleOf(order, Namespace(key), ttl, now));
      }
    }
  }

  /** What the store holds after the operations. */
  function Held(ops: seq<Op>, capacity: nat, ttl: int): seq<Entry> {
    Run(ops, capacity, ttl)
  }

  lemma HeldLast(ops: seq<Op>, capacity: nat, ttl: int, e: Entry)
    requires Proper(ops) && e in Held(ops, capacity, ttl)
    ensures ops != []
    ensures var op := ops[|ops| - 1];
            (op.PutOp? && e == EntryOf(op)) || (e in Held(ops[..|ops| - 1], capacity, ttl) && Spares(op, e, ttl))
  {
    var n := |ops| - 1;
    RunIsTraced(ops[..n], capacity, ttl);
    RunShape(ops[..n], capacity, ttl);
    NextKeeps(Run(ops[..n], capacity, ttl), ops[..n], ops[n], capacity, ttl, e);
  }

  lemma {:induction false} HeldWasPut(ops: seq<Op>, capacity: nat, ttl: int, e: Entry) returns (i: nat)
    requires Proper(ops) && e in Held(ops, capacity, ttl)
    ensures LastPut(ops, i, e, ttl)
  {
    HeldLast(ops, capacity, ttl, e);
    var n := |ops| - 1;
    hide Held, Spares;
    if ops[n].PutOp? && e == EntryOf(ops[n]) {
      i := n;
    } else {
      i := HeldWasPut(ops[..n], capacity, ttl, e);
      LastPutMore(ops, i, e, ttl);
    }
  }

  /** A vector that a search sees was put for the search's own collection and the source; nothing was put there
  since, and neither this search nor one in between came after its time. */
  lemma SeenIsLastPut(ops: seq<Op>, capacity: nat, ttl: int, key: SemanticKey, now: int, vectors: map<string, Vector>, s: string)
      returns (i: nat)
    requires Proper(ops) && Clean(key) && Plain(key)
    requires Collected(vectors, Run(ops, capacity, ttl), Namespace(key), ttl, now) && s in vectors
    ensures i < |ops| && ops[i].PutOp? && SameCollection(ops[i].key, key) && ops[i].key.source == s && ops[i].vector == vectors[s]
    ensures LastPut(ops, i, EntryOf(ops[i]), ttl) && InTime(ttl, ops[i].now, now)
  {
    var order := Run(ops, capacity, ttl);
    var k :| 0 <= k < |order| && Live(order[k], Namespace(key), ttl, now) && order[k].source == s && order[k].vector == vectors[s];
    i := HeldWasPut(ops, capacity, ttl, order[k]);
    NamespaceInjective(ops[i].key, key);
  }

  // ----- an entry stays while few keys are put

  function PutKeys(ops: seq<Op>): set<string> {
    set i | 0 <= i < |ops| && ops[i].PutOp? :: PutKey(ops[i])
  }

  /** The entry is held, behind no keys but the given ones. */
  ghost predicate Stands(order: seq<Entry>, e: Entry, used: set<string>) {
    exists front: seq<Entry>, back: seq<Entry> :: StandsAt(order, e, used, front, back)
  }

  ghost predicate StandsAt(order: seq<Entry>, e: Entry, used: set<string>, front: seq<Entry>, back: seq<Entry>) {
    order == front + [e] + back && forall i :: 0 <= i < |front| ==> KeyOf(front[i]) in used && KeyOf(front[i]) != KeyOf(e)
  }

  lemma {:induction false} FrontIsSmall(front: seq<Entry>, used: set<string>)
    requires DistinctKeys(front) && forall i :: 0 <= i < |front| ==> KeyOf(front[i]) in used
    ensures |front| <= |used|
  {
    if front != [] {
      var n := |front| - 1;
      FrontIsSmall(front[..n], used - {KeyOf(front[n])});
    }
  }

  lemma {:induction false} SweepConcat(a: seq<Entry>, b: seq<Entry>, gone: set<Entry>)
    ensures Sweep(a + b, gone) == Sweep(a, gone) + Sweep(b, gone)
  {
    if b == [] {
      assert a + b == a;
    } else {
      var n := |b| - 1;
      assert (a + b)[..|a| + n] == a + b[..n] && (a + b)[|a| + n] == b[n];
      SweepConcat(a, b[..n], gone);
    }
  }

  lemma StandsSwept(order: seq<Entry>, e: Entry, used: set<string>, gone: set<Entry>)
    requires Stands(order, e, used) && e !in gone
    ensures Stands(Sweep(order, gone), e, used)
  {
    var front: seq<Entry>, back: seq<Entry> :| StandsAt(order, e, used, front, back);
    SweepConcat(front + [e], back, gone);
    SweepConcat(front, [e], gone);
    assert Sweep([e], gone) == [e];
    SweepMembers(front, gone);
    var f := Sweep(front, gone);
    forall i | 0 <= i < |f| ensures KeyOf(f[i]) in used && KeyOf(f[i]) != KeyOf(e) {
      assert f[i] in f;
    }
    assert StandsAt(Sweep(order, gone), e, used, f, Sweep(back, gone));
  }

  lemma StandsRenewed(order: seq<Entry>, e: Entry, used: set<string>, k: nat, x: Entry)
    requires Stands(order, e, used) && k < |order| && KeyOf(order[k]) == KeyOf(x) && KeyOf(x) != KeyOf(e)
    ensures Stands([x] + order[..k] + order[k + 1..], e, used + {KeyOf(x)})
  {
    var front: seq<Entry>, back: seq<Entry> :| StandsAt(order, e, used, front, back);
    var next := [x] + order[..k] + order[k + 1..];
    if k < |front| {
      var f := [x] + front[..k] + front[k + 1..];
      assert next == f + [e] + back;
      assert StandsAt(next, e, used + {KeyOf(x)}, f, back);
    } else {
      var j := k - |front| - 1;
      assert k != |front|;
      assert next == ([x] + front) + [e] + (back[..j] + back[j + 1..]);
      assert StandsAt(next, e, used + {KeyOf(x)}, [x] + front, back[..j] + back[j + 1..]);
    }
  }

  lemma StandsPushed(order: seq<Entry>, e: Entry, used: set<string>, x: Entry, capacity: nat)
    requires Stands(order, e, used) && KeyOf(e) in used && KeyOf(x) != KeyOf(e) && |used + {KeyOf(x)}| <= capacity
    requires DistinctKeys(order) && (forall i :: 0 <= i < |order| ==> KeyOf(order[i]) != KeyOf(x))
    ensures var full := [x] + order;
            Stands(if |full| > capacity then full[..capacity] else full, e, used + {KeyOf(x)})
  {
    var front: seq<Entry>, back: seq<Entry> :| StandsAt(order, e, used, front, back);
    var full, f, more := [x] + order, [x] + front, used + {KeyOf(x)};
    forall i | 0 <= i < |front| ensures front[i] == order[i] {
    }
    FrontIsSmall(f, more - {KeyOf(e)});
    assert full == f + [e] + back;
    if |full| > capacity {
      assert full[..capacity] == f + [e] + back[..capacity - |f| - 1];
      assert StandsAt(full[..capacity], e, more, f, back[..capacity - |f| - 1]);
    } else {
      assert StandsAt(full, e, more, f, back);
    }
  }

  lemma StandsStep(order: seq<Entry>, e: Entry, used: set<string>, op: Op, capacity: nat, ttl: int)
    requires DistinctKeys(order) && Stands(order, e, used) && KeyOf(e) in used && Spares(op, e, ttl)
    requires op.PutOp? ==> |used + {PutKey(op)}| <= capacity
    ensures Stands(Next(order, op, capacity, ttl), e, if op.PutOp? then used + {PutKey(op)} else used)
  {
    if op.PutOp? {
      var k := Find(order, PutKey(op));
      hide Stands, DistinctKeys;
      if k < |order| {
        StandsRenewed(order, e, used, k, order[k].(vector := op.vector, storedAt := op.now));
      } else {
        StandsPushed(order, e, used, EntryOf(op), capacity);
      }
    } else if op.limit > 0 {
      StandsSwept(order, e, used, StaleOf(order, Namespace(op.key), ttl, op.now));
    }
  }

  ghost predicate StandsAfter(ops: seq<Op>, capacity: nat, ttl: int, e: Entry, used: set<string>) {
    Stands(Run(ops, capacity, ttl), e, used)
  }

  function EntryKey(e: Entry): string {
    KeyOf(e)
  }

  lemma EntryKeyIs(op: Op)
    requires op.PutOp?
    ensures EntryKey(EntryOf(op)) == PutKey(op)
  {
  }

  lemma StandsLast(ops: seq<Op>, capacity: nat, ttl: int, e: Entry, used: set<string>)
    requires ops != [] && StandsAfter(ops[..|ops| - 1], capacity, ttl, e, used) && EntryKey(e) in used && Spares(ops[|ops| - 1], e, ttl)
    requires ops[|ops| - 1].PutOp? ==> |used + {PutKey(ops[|ops| - 1])}| <= capacity
    ensures StandsAfter(ops, capacity, ttl, e, if ops[|ops| - 1].PutOp? then used + {PutKey(ops[|ops| - 1])} else used)
  {
    RunShape(ops[..|ops| - 1], capacity, ttl);
    hide Stands, Spares;
    StandsStep(Run(ops[..|ops| - 1], capacity, ttl), e, used, ops[|ops| - 1], capacity, ttl);
  }

  lemma PutStands(order: seq<Entry>, ops: seq<Op>, op: Op, capacity: nat, used: set<string>)
    requires Traced(order, ops) && op.PutOp? && Proper(ops) && Clean(op.key) && capacity > 0
    ensures Stands(AfterPut(order, op.key, op.vector, op.now, capacity), EntryOf(op), used)
  {
    FirstIsPut(order, ops, op, capacity);
    var t := AfterPut(order, op.key, op.vector, op.now, capacity);
    assert StandsAt(t, t[0], used, [], t[1..]);
  }

  lemma StandsPut(ops: seq<Op>, capacity: nat, ttl: int, used: set<string>)
    requires ops != [] && ops[|ops| - 1].PutOp? && Proper(ops) && capacity > 0
    ensures StandsAfter(ops, capacity, ttl, EntryOf(ops[|ops| - 1]), used)
  {
    var n := |ops| - 1;
    RunIsTraced(ops[..n], capacity, ttl);
    hide Stands;
    PutStands(Run(ops[..n], capacity, ttl), ops[..n], ops[n], capacity, used);
  }

  lemma KeysLast(ops: seq<Op>)
    requires ops != []
    ensures var n := |ops| - 1; PutKeys(ops) == PutKeys(ops[..n]) + if ops[n].PutOp? then {PutKey(ops[n])} else {}
  {
    var n := |ops| - 1;
    assert forall i :: 0 <= i < n ==> ops[..n][i] == ops[i];
  }

  lemma FewerKeys(a: set<string>, b: set<string>)
    requires a <= b
    ensures |a| <= |b|
  {
    assert b == a + (b - a);
  }

  lemma OwnKey(ops: seq<Op>, i: nat)
    requires i < |ops| && ops[i].PutOp?
    ensures PutKey(ops[i]) in PutKeys(ops[i..])
  {
    assert ops[i..][0] == ops[i];
  }

  lemma SinceLast(ops: seq<Op>, i: nat)
    requires i < |ops| - 1
    ensures ops[i..][..|ops| - 1 - i] == ops[..|ops| - 1][i..] && ops[i..][|ops| - 1 - i] == ops[|ops| - 1]
  {
  }

  /** The keys put since i, with and without the last operation. */
  lemma KeysSince(ops: seq<Op>, i: nat)
    requires i < |ops| - 1 && ops[i].PutOp?
    ensures var n := |ops| - 1;
            && PutKey(ops[i]) in PutKeys(ops[..n][i..]) && |PutKeys(ops[..n][i..])| <= |PutKeys(ops[i..])|
            && PutKeys(ops[i..]) == PutKeys(ops[..n][i..]) + if ops[n].PutOp? then {PutKey(ops[n])} else {}
  {
    hide PutKeys, PutKey;
    var n := |ops| - 1;
    OwnKey(ops[..n], i);
    SinceLast(ops, i);
    KeysLast(ops[i..]);
    FewerKeys(PutKeys(ops[..n][i..]), PutKeys(ops[i..]));
  }

  lemma ProperPrefix(ops: seq<Op>, n: nat)
    requires Proper(ops) && n <= |ops|
    ensures Proper(ops[..n])
  {
  }

  lemma StandsOn(ops: seq<Op>, capacity: nat, ttl: int, i: nat, e: Entry)
    requires i < |ops| - 1 && ops[i].PutOp? && EntryKey(e) == PutKey(ops[i]) && Spares(ops[|ops| - 1], e, ttl)
    requires |PutKeys(ops[i..])| <= capacity
    requires StandsAfter(ops[..|ops| - 1], capacity, ttl, e, PutKeys(ops[..|ops| - 1][i..]))
    ensures StandsAfter(ops, capacity, ttl, e, PutKeys(ops[i..]))
  {
    hide StandsAfter, Spares, PutKeys, PutKey, EntryKey;
    KeysSince(ops, i);
    var used := PutKeys(ops[..|ops| - 1][i..]);
    assert used + {} == used;
    StandsLast(ops, capacity, ttl, e, used);
  }

  lemma {:induction false} StandsRun(ops: seq<Op>, capacity: nat, ttl: int, i: nat, e: Entry)
    requires Proper(ops) && LastPut(ops, i, e, ttl) && |PutKeys(ops[i..])| <= capacity
    ensures StandsAfter(ops, capacity, ttl, e, PutKeys(ops[i..]))
  {
    var n := |ops| - 1;
    hide StandsAfter, Spares, PutKeys, PutKey, EntryOf;
    if i == n {
      OwnKey(ops, i);
      FewerKeys({PutKey(ops[i])}, PutKeys(ops[i..]));
      StandsPut(ops, capacity, ttl, PutKeys(ops[i..]));
    } else {
      KeysSince(ops, i);
      LastPutMore(ops, i, e, ttl);
      ProperPrefix(ops, n);
      StandsRun(ops[..n], capacity, ttl, i, e);
      EntryKeyIs(ops[i]);
      StandsOn(ops, capacity, ttl, i, e);
    }
  }

  lemma OneOfKey(order: seq<Entry>, j: nat, k: nat)
    requires DistinctKeys(order) && j < |order| && k < |order|
    requires order[j].namespace == order[k].namespace && order[j].source == order[k].source
    ensures j == k
  {
    assert KeyOf(order[j]) == KeyOf(order[k]);
  }

  lemma HeldIsSeen(order: seq<Entry>, e: Entry, namespace: string, ttl: int, now: int, vectors: map<string, Vector>)
    requires DistinctKeys(order) && e in order && e.namespace == namespace && Collected(vectors, order, namespace, ttl, now)
    ensures InTime(ttl, e.storedAt, now) ==> e.source in vectors && vectors[e.source] == e.vector
    ensures !InTime(ttl, e.storedAt, now) ==> e.source !in vectors
  {
    var k :| 0 <= k < |order| && order[k] == e;
    if InTime(ttl, e.storedAt, now) {
      assert Live(order[k], namespace, ttl, now);
    } else if e.source in vectors {
      var j :| 0 <= j < |order| && Live(order[j], namespace, ttl, now) && order[j].source == e.source;
      OneOfKey(order, j, k);
    }
  }

  /** With no more keys put since than the store has room for, a search of the collection sees the last put of a
  source, with its vector, exactly while it is in time. */
  lemma LastPutIsSeen(ops: seq<Op>, capacity: nat, ttl: int, i: nat, key: SemanticKey, now: int, vectors: map<string, Vector>)
    requires Proper(ops) && i < |ops| && ops[i].PutOp? && LastPut(ops, i, EntryOf(ops[i]), ttl)
    requires |PutKeys(ops[i..])| <= capacity && SameCollection(ops[i].key, key)
    requires Collected(vectors, Run(ops, capacity, ttl), Namespace(key), ttl, now)
    ensures var source := ops[i].key.source;
            if ttl <= 0 || now - ops[i].now <= ttl then source in vectors && vectors[source] == ops[i].vector
            else source !in vectors
  {
    var e := EntryOf(ops[i]);
    StandsRun(ops, capacity, ttl, i, e);
    RunShape(ops, capacity, ttl);
    var order := Run(ops, capacity, ttl);
    var front: seq<Entry>, back: seq<Entry> :| StandsAt(order, e, PutKeys(ops[i..]), front, back);
    assert order[|front|] == e;
    SameNamespace(ops[i].key, key);
    hide StandsAt;
    HeldIsSeen(order, e, Namespace(key), ttl, now, vectors);
  }

  lemma SameNamespace(a: SemanticKey, b: SemanticKey)
    requires SameCollection(a, b)
    ensures Namespace(a) == Namespace(b)
  {
  }
}
