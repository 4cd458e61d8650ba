/** The exact cache as a sequence, most recently used first, with a time to live an entry. */
module LruSpec {

  /** A cached response; a time to live of zero or less never expires. */
  datatype Entry = Entry(response: string, storedAt: int, ttl: int)

  datatype Item = Item(key: string, entry: Entry)

  datatype Option<+T> = None | Some(value: T)

  type Items = seq<Item>

  predicate Expired(e: Entry, now: int) {
    e.ttl > 0 && now - e.storedAt > e.ttl
  }

  predicate Holds(s: Items, key: string) {
    exists i :: 0 <= i < |s| && s[i].key == key
  }

  ghost predicate DistinctKeys(s: Items) {
    forall i, j :: 0 <= i < j < |s| ==> s[i].key != s[j].key
  }

  function Lookup(s: Items, key: string): Option<Entry> {
    if s == [] then None else if s[0].key == key then Some(s[0].entry) else Lookup(s[1..], key)
  }

  function Drop(s: Items, key: string): Items {
    if s == [] then []
    else if s[0].key == key then Drop(s[1..], key)
    else [s[0]] + Drop(s[1..], key)
  }

  function Take(s: Items, n: nat): Items {
    if |s| > n then s[..n] else s
  }

  // ----- the operations

  function GetResult(s: Items, key: string, now: int): Option<Entry> {
    match Lookup(s, key)
    case None => None
    case Some(e) => if Expired(e, now) then None else Some(e)
  }

  function AfterGet(s: Items, key: string, now: int): Items {
    match Lookup(s, key)
    case None => s
    case Some(e) => if Expired(e, now) then Drop(s, key) else [Item(key, e)] + Drop(s, key)
  }

  function AfterPut(s: Items, key: string, entry: Entry, capacity: nat): Items {
    Take([Item(key, entry)] + Drop(s, key), capacity)
  }

  // ----- laws of the pieces

  lemma {:induction false} LookupAt(s: Items, key: string, k: nat)
    requires DistinctKeys(s) && k < |s| && s[k].key == key
    ensures Lookup(s, key) == Some(s[k].entry)
  {
    if k > 0 {
      LookupAt(s[1..], key, k - 1);
    }
  }

  lemma {:induction false} LookupNone(s: Items, key: string)
    ensures Lookup(s, key) == None <==> !Holds(s, key)
  {
    if s != [] {
      LookupNone(s[1..], key);
      if Holds(s[1..], key) {
        var i :| 0 <= i < |s[1..]| && s[1..][i].key == key;
        assert s[i + 1].key == key;
      }
      if Holds(s, key) && s[0].key != key {
        var i :| 0 <= i < |s| && s[i].key == key;
        assert s[1..][i - 1].key == key;
      }
    }
  }

  lemma {:induction false} DropMissing(s: Items, key: string)
    requires !Holds(s, key)
    ensures Drop(s, key) == s
  {
    if s != [] {
      assert s[0].key != key;
      assert forall i :: 0 <= i < |s[1..]| ==> s[1..][i] == s[i + 1];
      DropMissing(s[1..], key);
    }
  }

  lemma {:induction false} DropConcat(a: Items, b: Items, key: string)
    ensures Drop(a + b, key) == Drop(a, key) + Drop(b, key)
  {
    if a == [] {
      assert a + b == b;
    } else {
      assert (a + b)[1..] == a[1..] + b;
      DropConcat(a[1..], b, key);
    }
  }

  /** With distinct keys, dropping a key takes out the one place where it is. */
  lemma DropAt(s: Items, key: string, k: nat)
    requires DistinctKeys(s) && k < |s| && s[k].key == key
    ensures Drop(s, key) == s[..k] + s[k + 1..]
  {
    var a, x, b := s[..k], s[k], s[k + 1..];
    assert s == a + ([x] + b);
    assert !Holds(a, key) && !Holds(b, key);
    DropConcat(a, [x] + b, key);
    DropConcat([x], b, key);
    DropMissing(a, key);
    DropMissing(b, key);
    assert Drop([x], key) == [];
  }

  lemma {:induction false} DropIsDistinct(s: Items, key: string)
    requires DistinctKeys(s)
    ensures DistinctKeys(Drop(s, key)) && !Holds(Drop(s, key), key) && |Drop(s, key)| <= |s|
  {
    LookupNone(s, key);
    if Holds(s, key) {
      var k :| 0 <= k < |s| && s[k].key == key;
      DropAt(s, key, k);
    } else {
      DropMissing(s, key);
    }
  }

  lemma FrontIsDistinct(x: Item, s: Items)
    requires DistinctKeys(s) && !Holds(s, x.key)
    ensures DistinctKeys([x] + s)
  {
  }

  // ----- runs

  datatype Op =
    | Get(key: string, now: int)
    | Put(key: string, entry: Entry)
    | Delete(key: string)

  function Step(s: Items, op: Op, capacity: nat): Items {
    match op
    case Get(key, now) => AfterGet(s, key, now)
    case Put(key, entry) => AfterPut(s, key, entry, capacity)
    case Delete(key) => Drop(s, key)
  }

  function Run(ops: seq<Op>, capacity: nat): Items {
    if ops == [] then [] else Step(Run(ops[..|ops| - 1], capacity), ops[|ops| - 1], capacity)
  }

  lemma StepKeepsShape(s: Items, op: Op, capacity: nat)
    requires DistinctKeys(s) && |s| <= capacity
    ensures DistinctKeys(Step(s, op, capacity)) && |Step(s, op, capacity)| <= capacity
  {
    DropIsDistinct(s, op.key);
    match op
    case Get(key, now) =>
      LookupNone(s, key);
      if Holds(s, key) {
        var k :| 0 <= k < |s| && s[k].key == key;
        DropAt(s, key, k);
        LookupAt(s, key, k);
        FrontIsDistinct(s[k], Drop(s, key));
      }
    case Put(key, entry) =>
      FrontIsDistinct(Item(key, entry), Drop(s, key));
    case Delete(key) =>
  }

  /** In every run keys are distinct and the capacity holds. */
  lemma {:induction false} RunKeepsShape(ops: seq<Op>, capacity: nat)
    ensures DistinctKeys(Run(ops, capacity)) && |Run(ops, capacity)| <= capacity
  {
    if ops != [] {
      RunKeepsShape(ops[..|ops| - 1], capacity);
      StepKeepsShape(Run(ops[..|ops| - 1], capacity), ops[|ops| - 1], capacity);
    }
  }

  // ----- a larger cache holds what a smaller one holds

  /** t is s, or s with one item more somewhere. */
  ghost predicate OneMore(s: Items, t: Items) {
    s == t || exists a: Items, x: Item, b: Items :: Inserted(s, t, a, x, b)
  }

  ghost predicate Inserted(s: Items, t: Items, a: Items, x: Item, b: Items) {
    s == a + b && t == a + [x] + b
  }

  lemma DropInserted(a: Items, x: Item, b: Items, key: string)
    ensures Drop(a + b, key) == Drop(a, key) + Drop(b, key)
    ensures x.key == key ==> Drop(a + [x] + b, key) == Drop(a, key) + Drop(b, key)
    ensures x.key != key ==> Drop(a + [x] + b, key) == Drop(a, key) + [x] + Drop(b, key)
  {
    DropConcat(a, b, key);
    DropConcat(a + [x], b, key);
    DropConcat(a, [x], key);
    assert Drop([x], key) == if x.key == key then [] else [x];
    hide Drop;
    assert Drop(a, key) + [] == Drop(a, key);
  }

  lemma DropOneMore(s: Items, t: Items, key: string)
    requires OneMore(s, t)
    ensures OneMore(Drop(s, key), Drop(t, key))
  {
    hide Drop;
    if s != t {
      var a, x, b :| Inserted(s, t, a, x, b);
      DropInserted(a, x, b, key);
      if x.key != key {
        assert Inserted(Drop(s, key), Drop(t, key), Drop(a, key), x, Drop(b, key));
      }
    }
  }

  lemma FrontOneMore(x: Item, s: Items, t: Items)
    requires OneMore(s, t)
    ensures OneMore([x] + s, [x] + t)
  {
    if s != t {
      var a, y, b :| Inserted(s, t, a, y, b);
      assert [x] + s == ([x] + a) + b;
      assert [x] + t == ([x] + a) + [y] + b;
      assert Inserted([x] + s, [x] + t, [x] + a, y, b);
    }
  }

  lemma TakeOneMore(s: Items, t: Items, c: nat)
    requires OneMore(s, t)
    ensures OneMore(Take(s, c), Take(t, c + 1))
  {
    var s', t' := Take(s, c), Take(t, c + 1);
    if s == t {
      if |t| > c {
        assert Inserted(s', t', s[..c], s[c], []);
      }
    } else {
      var a, x, b :| Inserted(s, t, a, x, b);
      if |a| > c {
        assert Inserted(s', t', a[..c], a[c], []);
      } else {
        var rest := if |b| > c - |a| then b[..c - |a|] else b;
        assert s' == a + rest && t' == a + [x] + rest;
        assert Inserted(s', t', a, x, rest);
      }
    }
  }

  /** Where an item of the smaller cache is in the larger one. */
  lemma PlaceOf(s: Items, t: Items, k: nat) returns (k': nat)
    requires OneMore(s, t) && k < |s|
    ensures k' < |t| && t[k'] == s[k]
  {
    k' := k;
    if s != t {
      var a, x, b :| Inserted(s, t, a, x, b);
      k' := if k < |a| then k else k + 1;
    }
  }

  /** A key of the larger cache alone is the item it has more. */
  lemma OnlyInLarger(s: Items, t: Items, key: string)
    requires OneMore(s, t) && !Holds(s, key) && Holds(t, key)
    ensures Drop(t, key) == s
  {
    var a, x, b :| Inserted(s, t, a, x, b);
    DropInserted(a, x, b, key);
    DropMissing(s, key);
    forall k | 0 <= k < |t| && k != |a| ensures t[k].key != key {
      assert t[k] == s[if k < |a| then k else k - 1];
    }
    assert x.key == key;
  }

  lemma HoldsOneMore(s: Items, t: Items, key: string)
    requires OneMore(s, t) && DistinctKeys(t)
    ensures Lookup(s, key).Some? ==> Lookup(t, key) == Lookup(s, key)
    ensures Lookup(s, key).None? && Lookup(t, key).Some? ==> Drop(t, key) == s
  {
    LookupNone(s, key);
    LookupNone(t, key);
    if Holds(s, key) {
      var k :| 0 <= k < |s| && s[k].key == key;
      var k' := PlaceOf(s, t, k);
      OneMoreDistinct(s, t);
      LookupAt(s, key, k);
      LookupAt(t, key, k');
    } else if Holds(t, key) {
      OnlyInLarger(s, t, key);
    }
  }

  lemma OneMoreDistinct(s: Items, t: Items)
    requires OneMore(s, t) && DistinctKeys(t)
    ensures DistinctKeys(s)
  {
    if s != t {
      var a, x, b :| Inserted(s, t, a, x, b);
      forall i, j | 0 <= i < j < |s| ensures s[i].key != s[j].key {
        var i', j' := if i < |a| then i else i + 1, if j < |a| then j else j + 1;
        assert t[i'] == s[i] && t[j'] == s[j];
      }
    }
  }

  lemma StepOneMore(s: Items, t: Items, op: Op, c: nat)
    requires OneMore(s, t) && DistinctKeys(t)
    ensures OneMore(Step(s, op, c), Step(t, op, c + 1))
  {
    DropOneMore(s, t, op.key);
    match op
    case Get(key, now) =>
      HoldsOneMore(s, t, key);
      if Lookup(s, key).Some? {
        FrontOneMore(Item(key, Lookup(s, key).value), Drop(s, key), Drop(t, key));
      } else if Lookup(t, key).Some? && !Expired(Lookup(t, key).value, now) {
        assert Inserted(s, [Item(key, Lookup(t, key).value)] + s, [], Item(key, Lookup(t, key).value), s);
      }
    case Put(key, entry) =>
      FrontOneMore(Item(key, entry), Drop(s, key), Drop(t, key));
      TakeOneMore([Item(key, entry)] + Drop(s, key), [Item(key, entry)] + Drop(t, key), c);
    case Delete(key) =>
  }

  lemma {:induction false} RunOneMore(ops: seq<Op>, c: nat)
    ensures OneMore(Run(ops, c), Run(ops, c + 1))
  {
    if ops != [] {
      RunOneMore(ops[..|ops| - 1], c);
      RunKeepsShape(ops[..|ops| - 1], c + 1);
      StepOneMore(Run(ops[..|ops| - 1], c), Run(ops[..|ops| - 1], c + 1), ops[|ops| - 1], c);
    }
  }

  /** s is t with items left out: the same items in the same order. */
  ghost predicate Within(s: Items, t: Items) {
    s == [] || (t != [] && ((s[0] == t[0] && Within(s[1..], t[1..])) || Within(s, t[1..])))
  }

  lemma {:induction false} WithinTransitive(r: Items, s: Items, t: Items)
    requires Within(r, s) && Within(s, t)
    ensures Within(r, t)
    decreases |s| + |t|
  {
    if r != [] {
      if s[0] == t[0] && Within(s[1..], t[1..]) {
        if r[0] == s[0] && Within(r[1..], s[1..]) {
          WithinTransitive(r[1..], s[1..], t[1..]);
        } else {
          WithinTransitive(r, s[1..], t[1..]);
        }
      } else {
        WithinTransitive(r, s, t[1..]);
      }
    }
  }

  lemma {:induction false} OneMoreIsWithin(s: Items, t: Items)
    requires OneMore(s, t)
    ensures Within(s, t)
  {
    if s == t {
      if s != [] {
        OneMoreIsWithin(s[1..], t[1..]);
      }
    } else {
      var a, x, b :| Inserted(s, t, a, x, b);
      if a == [] {
        assert s == b && t[1..] == b;
        OneMoreIsWithin(b, b);
      } else {
        assert s[1..] == a[1..] + b && t[1..] == a[1..] + [x] + b;
        assert Inserted(s[1..], t[1..], a[1..], x, b);
        OneMoreIsWithin(s[1..], t[1..]);
      }
    }
  }

  /** Whatever the operations and the clock readings, a larger cache holds every item of a smaller
  one, unchanged and in the same order. */
  lemma {:induction false} LargerHoldsMore(ops: seq<Op>, c: nat, d: nat)
    requires c <= d
    ensures Within(Run(ops, c), Run(ops, d))
    decreases d - c
  {
    if c == d {
      OneMoreIsWithin(Run(ops, c), Run(ops, c));
    } else {
      RunOneMore(ops, c);
      OneMoreIsWithin(Run(ops, c), Run(ops, c + 1));
      LargerHoldsMore(ops, c + 1, d);
      WithinTransitive(Run(ops, c), Run(ops, c + 1), Run(ops, d));
    }
  }

  lemma {:induction false} HitOneMore(ops: seq<Op>, c: nat, d: nat, key: string, now: int)
    requires c <= d && GetResult(Run(ops, c), key, now).Some?
    ensures GetResult(Run(ops, d), key, now) == GetResult(Run(ops, c), key, now)
    decreases d - c
  {
    if c < d {
      RunOneMore(ops, c);
      RunKeepsShape(ops, c + 1);
      HoldsOneMore(Run(ops, c), Run(ops, c + 1), key);
      HitOneMore(ops, c + 1, d, key, now);
    }
  }
}
