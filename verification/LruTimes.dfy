/** What a lookup answers, told from the operations alone: the entry put last under the key, while it is in
time and the key has not been deleted or pushed out. */
module LruTimes {
  import opened LruSpec
  import opened LruStore

  /** The clock has not gone past the entry's time to live; one of zero or less sets no limit. */
  predicate InTime(e: Entry, now: int) {
    e.ttl <= 0 || now - e.storedAt <= e.ttl
  }

  /** Since the operation at i nothing put or deleted the key, and no lookup of it came too late for e. */
  ghost predicate Untouched(ops: seq<Op>, i: nat, key: string, e: Entry) {
    forall j :: i < j < |ops| && ops[j].key == key ==> ops[j].Get? && InTime(e, ops[j].now)
  }

  lemma UntouchedLast(ops: seq<Op>, i: nat, key: string, e: Entry)
    requires i < |ops| - 1
    ensures var op := ops[|ops| - 1];
            Untouched(ops, i, key, e) <==>
            Untouched(ops[..|ops| - 1], i, key, e) && (op.key == key ==> op.Get? && InTime(e, op.now))
  {
    hide InTime;
  }

  // ----- an entry that is held was put, and nothing ended it

  lemma LookupAfterStep(s: Items, op: Op, capacity: nat, key: string)
    requires DistinctKeys(s) && |s| <= capacity
    ensures var now := Lookup(Step(s, op, capacity), key);
            && (now.Some? && op.key != key ==> Lookup(s, key) == now)
            && (now.Some? && op.key == key ==> !op.Delete?)
            && (now.Some? && op.key == key && op.Put? ==> now.value == op.entry)
            && (now.Some? && op.key == key && op.Get? ==> Lookup(s, key) == now && InTime(now.value, op.now))
  {
    var t := Step(s, op, capacity);
    StepKeepsShape(s, op, capacity);
    LookupNone(t, key);
    if Holds(t, key) {
      var k :| 0 <= k < |t| && t[k].key == key;
      LookupAt(t, key, k);
      if op.key != key {
        ItemWasThere(s, op, capacity, k);
      } else {
        OwnItem(s, op, capacity, k);
      }
    }
  }

  lemma DroppedWasThere(s: Items, key: string, k: nat)
    requires DistinctKeys(s) && k < |Drop(s, key)|
    ensures Drop(s, key)[k].key != key
    ensures Lookup(s, Drop(s, key)[k].key) == Some(Drop(s, key)[k].entry)
  {
    DropIsDistinct(s, key);
    LookupNone(s, key);
    if Holds(s, key) {
      var i :| 0 <= i < |s| && s[i].key == key;
      DropAt(s, key, i);
      LookupAt(s, s[if k < i then k else k + 1].key, if k < i then k else k + 1);
    } else {
      DropMissing(s, key);
      LookupAt(s, s[k].key, k);
    }
  }

  /** An item of another key is one of the items before. */
  lemma ItemWasThere(s: Items, op: Op, capacity: nat, k: nat)
    requires DistinctKeys(s) && k < |Step(s, op, capacity)| && Step(s, op, capacity)[k].key != op.key
    ensures Lookup(s, Step(s, op, capacity)[k].key) == Some(Step(s, op, capacity)[k].entry)
  {
    var t := Step(s, op, capacity);
    if op.Get? && Lookup(s, op.key) == None {
      LookupAt(s, s[k].key, k);
    } else {
      hide Drop, Lookup;
      var d := Drop(s, op.key);
      DroppedWasThere(s, op.key, if k < |d| && t[k] == d[k] then k else k - 1);
    }
  }

  lemma OwnItem(s: Items, op: Op, capacity: nat, k: nat)
    requires DistinctKeys(s) && k < |Step(s, op, capacity)| && Step(s, op, capacity)[k].key == op.key
    ensures !op.Delete?
    ensures op.Put? ==> Step(s, op, capacity)[k].entry == op.entry
    ensures op.Get? ==> Lookup(s, op.key) == Some(Step(s, op, capacity)[k].entry)
    ensures op.Get? ==> InTime(Step(s, op, capacity)[k].entry, op.now)
  {
    LookupNone(s, op.key);
    DropIsDistinct(s, op.key);
    hide Drop, Lookup;
  }

  /** What the cache holds under a key after the operations. */
  function Held(ops: seq<Op>, capacity: nat, key: string): Option<Entry> {
    Lookup(Run(ops, capacity), key)
  }

  lemma HeldLast(ops: seq<Op>, capacity: nat, key: string)
    requires Held(ops, capacity, key).Some?
    ensures ops != []
    ensures var op, e := ops[|ops| - 1], Held(ops, capacity, key).value;
            || op == Put(key, e)
            || (Held(ops[..|ops| - 1], capacity, key) == Some(e) && (op.key == key ==> op.Get? && InTime(e, op.now)))
  {
    var n := |ops| - 1;
    RunKeepsShape(ops[..n], capacity);
    LookupAfterStep(Run(ops[..n], capacity), ops[n], capacity, key);
  }

  lemma {:induction false} HeldWasPut(ops: seq<Op>, capacity: nat, key: string) returns (i: nat)
    requires Held(ops, capacity, key).Some?
    ensures i < |ops| && ops[i] == Put(key, Held(ops, capacity, key).value) && Untouched(ops, i, key, ops[i].entry)
  {
    HeldLast(ops, capacity, key);
    var n := |ops| - 1;
    if ops[n] == Put(key, Held(ops, capacity, key).value) {
      i := n;
    } else {
      hide Held, InTime, Untouched;
      i := HeldWasPut(ops[..n], capacity, key);
      UntouchedLast(ops, i, key, ops[i].entry);
    }
  }

  /** An answer is the entry of the last put of the key: nothing put or deleted the key since, and neither
  this lookup nor one in between came after its time. */
  lemma HitIsLastPut(ops: seq<Op>, capacity: nat, key: string, now: int) returns (i: nat)
    requires Answer(Run(ops, capacity), Get(key, now)).Some?
    ensures i < |ops| && ops[i].Put? && ops[i].key == key && Untouched(ops, i, key, ops[i].entry)
    ensures Answer(Run(ops, capacity), Get(key, now)) == Some(ops[i].entry)
    ensures ops[i].entry.ttl <= 0 || now - ops[i].entry.storedAt <= ops[i].entry.ttl
  {
    i := HeldWasPut(ops, capacity, key);
  }

  // ----- an entry stays while few keys are used

  function Keys(ops: seq<Op>): set<string> {
    set i | 0 <= i < |ops| :: ops[i].key
  }

  /** The entry is held, behind no keys but the given ones. */
  ghost predicate Stands(s: Items, x: Item, used: set<string>) {
    exists front: Items, back: Items :: StandsAt(s, x, used, front, back)
  }

  ghost predicate StandsAt(s: Items, x: Item, used: set<string>, front: Items, back: Items) {
    s == front + [x] + back && forall i :: 0 <= i < |front| ==> front[i].key in used && front[i].key != x.key
  }

  lemma {:induction false} FrontIsSmall(front: Items, used: set<string>)
    requires DistinctKeys(front) && forall i :: 0 <= i < |front| ==> front[i].key in used
    ensures |front| <= |used|
  {
    if front != [] {
      var n := |front| - 1;
      FrontIsSmall(front[..n], used - {front[n].key});
    }
  }

  lemma StandsIsHeld(s: Items, x: Item, used: set<string>)
    requires DistinctKeys(s) && Stands(s, x, used)
    ensures Lookup(s, x.key) == Some(x.entry)
  {
    var front: Items, back: Items :| StandsAt(s, x, used, front, back);
    assert s[|front|] == x;
    LookupAt(s, x.key, |front|);
  }

  lemma DroppedFront(front: Items, key: string, i: nat)
    requires i < |Drop(front, key)|
    ensures Drop(front, key)[i] in front
  {
    if front != [] && front[0].key == key {
      DroppedFront(front[1..], key, i);
    } else if front != [] && i > 0 {
      DroppedFront(front[1..], key, i - 1);
    }
  }

  lemma StandsDropped(s: Items, x: Item, used: set<string>, key: string)
    requires Stands(s, x, used) && key != x.key
    ensures Stands(Drop(s, key), x, used)
  {
    var front: Items, back: Items :| StandsAt(s, x, used, front, back);
    DropInserted(front, x, back, key);
    forall i | 0 <= i < |Drop(front, key)| ensures Drop(front, key)[i].key in used && Drop(front, key)[i].key != x.key {
      DroppedFront(front, key, i);
    }
    assert StandsAt(Drop(s, key), x, used, Drop(front, key), Drop(back, key));
  }

  lemma StandsBehind(s: Items, x: Item, used: set<string>, y: Item)
    requires Stands(s, x, used) && y.key != x.key
    ensures Stands([y] + s, x, used + {y.key})
  {
    var front: Items, back: Items :| StandsAt(s, x, used, front, back);
    assert StandsAt([y] + s, x, used + {y.key}, [y] + front, back);
  }

  lemma StandsTaken(s: Items, x: Item, used: set<string>, capacity: nat)
    requires DistinctKeys(s) && Stands(s, x, used) && x.key in used && |used| <= capacity
    ensures Stands(Take(s, capacity), x, used)
  {
    if |s| > capacity {
      var front: Items, back: Items :| StandsAt(s, x, used, front, back);
      forall i, j | 0 <= i < j < |front| ensures front[i].key != front[j].key {
        assert s[i] == front[i] && s[j] == front[j];
      }
      FrontIsSmall(front, used - {x.key});
      assert Take(s, capacity) == front + [x] + back[..capacity - |front| - 1];
      assert StandsAt(Take(s, capacity), x, used, front, back[..capacity - |front| - 1]);
    }
  }

  lemma StandsMore(s: Items, x: Item, used: set<string>, more: set<string>)
    requires Stands(s, x, used) && used <= more
    ensures Stands(s, x, more)
  {
    var front: Items, back: Items :| StandsAt(s, x, used, front, back);
    assert StandsAt(s, x, more, front, back);
  }

  lemma StandsStep(s: Items, x: Item, used: set<string>, op: Op, capacity: nat)
    requires DistinctKeys(s) && |s| <= capacity && Stands(s, x, used) && x.key in used
    requires op.key == x.key ==> op.Get? && InTime(x.entry, op.now)
    requires |used + {op.key}| <= capacity
    ensures Stands(Step(s, op, capacity), x, used + {op.key})
  {
    StepKeepsShape(s, op, capacity);
    DropIsDistinct(s, op.key);
    StandsIsHeld(s, x, used);
    StandsMore(s, x, used, used + {op.key});
    hide Stands, Drop, Lookup, DistinctKeys;
    if op.key == x.key {
      Front(Step(s, op, capacity), x, used + {op.key}, Drop(s, op.key));
    } else {
      StandsDropped(s, x, used, op.key);
      StandsMore(Drop(s, op.key), x, used, used + {op.key});
      match op {
        case Get(key, now) =>
          if Lookup(s, key).Some? {
            StandsBehind(Drop(s, key), x, used, Item(key, Lookup(s, key).value));
          }
        case Put(key, entry) =>
          StandsBehind(Drop(s, key), x, used, Item(key, entry));
          FrontIsDistinct(Item(key, entry), Drop(s, key));
          StandsTaken([Item(key, entry)] + Drop(s, key), x, used + {key}, capacity);
        case Delete(key) =>
      }
    }
  }

  lemma Front(s: Items, x: Item, used: set<string>, back: Items)
    requires s == [x] + back
    ensures Stands(s, x, used)
  {
    assert StandsAt(s, x, used, [], back);
  }

  ghost predicate StandsAfter(ops: seq<Op>, capacity: nat, x: Item, used: set<string>) {
    Stands(Run(ops, capacity), x, used)
  }

  lemma StandsLast(ops: seq<Op>, capacity: nat, x: Item, used: set<string>)
    requires ops != [] && StandsAfter(ops[..|ops| - 1], capacity, x, used) && x.key in used
    requires ops[|ops| - 1].key == x.key ==> ops[|ops| - 1].Get? && InTime(x.entry, ops[|ops| - 1].now)
    requires |used + {ops[|ops| - 1].key}| <= capacity
    ensures StandsAfter(ops, capacity, x, used + {ops[|ops| - 1].key})
  {
    RunKeepsShape(ops[..|ops| - 1], capacity);
    hide Stands, InTime;
    StandsStep(Run(ops[..|ops| - 1], capacity), x, used, ops[|ops| - 1], capacity);
  }

  lemma StandsPut(ops: seq<Op>, capacity: nat, x: Item, used: set<string>)
    requires ops != [] && ops[|ops| - 1] == Put(x.key, x.entry) && x.key in used && |used| <= capacity
    ensures StandsAfter(ops, capacity, x, used)
  {
    RunKeepsShape(ops[..|ops| - 1], capacity);
    hide Stands;
    PutIsFirst(Run(ops[..|ops| - 1], capacity), x, capacity, used);
  }

  lemma {:induction false} StandsRun(ops: seq<Op>, capacity: nat, i: nat, x: Item)
    requires i < |ops| && ops[i] == Put(x.key, x.entry) && Untouched(ops, i, x.key, x.entry)
    requires |Keys(ops[i..])| <= capacity
    ensures StandsAfter(ops, capacity, x, Keys(ops[i..]))
  {
    hide StandsAfter, InTime, Untouched;
    var n := |ops| - 1;
    assert ops[i..][0] == ops[i] && x.key in Keys(ops[i..]);
    if i == n {
      StandsPut(ops, capacity, x, Keys(ops[i..]));
    } else {
      KeysLast(ops[i..]);
      assert ops[i..][..n - i] == ops[..n][i..] && ops[..n][i..][0] == ops[i];
      FewerKeys(Keys(ops[..n][i..]), Keys(ops[i..]));
      UntouchedLast(ops, i, x.key, x.entry);
      StandsRun(ops[..n], capacity, i, x);
      StandsLast(ops, capacity, x, Keys(ops[..n][i..]));
    }
  }

  lemma FewerKeys(a: set<string>, b: set<string>)
    requires a <= b
    ensures |a| <= |b|
  {
    assert b == a + (b - a);
  }

  lemma KeysLast(ops: seq<Op>)
    requires ops != []
    ensures var n := |ops| - 1; Keys(ops) == Keys(ops[..n]) + {ops[n].key}
  {
    var n := |ops| - 1;
    assert forall i :: 0 <= i < n ==> ops[..n][i] == ops[i];
  }

  lemma PutIsFirst(s: Items, x: Item, capacity: nat, used: set<string>)
    requires DistinctKeys(s) && |s| <= capacity && x.key in used && |used| <= capacity
    ensures Stands(Step(s, Put(x.key, x.entry), capacity), x, used)
  {
    DropIsDistinct(s, x.key);
    FrontIsDistinct(x, Drop(s, x.key));
    assert [x] + Drop(s, x.key) == [Item(x.key, x.entry)] + Drop(s, x.key);
    Front([x] + Drop(s, x.key), x, used, Drop(s, x.key));
    StandsTaken([x] + Drop(s, x.key), x, used, capacity);
  }

  /** With no more keys used since than the cache has room for, the last put is answered exactly while it is
  in time. */
  lemma LastPutIsHit(ops: seq<Op>, capacity: nat, i: nat, now: int)
    requires i < |ops| && ops[i].Put? && Untouched(ops, i, ops[i].key, ops[i].entry) && |Keys(ops[i..])| <= capacity
    ensures var e := ops[i].entry;
            Answer(Run(ops, capacity), Get(ops[i].key, now)) ==
            if e.ttl <= 0 || now - e.storedAt <= e.ttl then Some(e) else None
  {
    var x := Item(ops[i].key, ops[i].entry);
    StandsRun(ops, capacity, i, x);
    RunKeepsShape(ops, capacity);
    StandsIsHeld(Run(ops, capacity), x, Keys(ops[i..]));
  }

  // ----- and is pushed out by as many others

  /** Puts of as many other keys as there is room for push a key out. */
  lemma ManyPutsPushOut(ops: seq<Op>, capacity: nat, i: nat, key: string, now: int)
    requires i <= |ops| && (forall j :: i <= j < |ops| ==> ops[j].Put? && ops[j].key != key)
    requires |Keys(ops[i..])| >= capacity
    ensures Answer(Run(ops, capacity), Get(key, now)) == None
  {
    PutsLead(ops, capacity, i);
    RunKeepsShape(ops, capacity);
    LookupNone(Run(ops, capacity), key);
  }

  /** After puts alone the first items are theirs: all of their keys, or as many as there is room for. */
  lemma {:induction false} PutsLead(ops: seq<Op>, capacity: nat, i: nat)
    requires i <= |ops| && forall j :: i <= j < |ops| ==> ops[j].Put?
    ensures Leads(Run(ops, capacity), Keys(ops[i..]), capacity)
  {
    var n := |ops| - 1;
    if i <= n {
      PutsLead(ops[..n], capacity, i);
      RunKeepsShape(ops[..n], capacity);
      KeysLast(ops[i..]);
      assert ops[i..][..n - i] == ops[..n][i..];
      LeadsPut(Run(ops[..n], capacity), Keys(ops[..n][i..]), capacity, ops[n].key, ops[n].entry);
    } else {
      assert Keys(ops[i..]) == {};
      RunKeepsShape(ops, capacity);
    }
  }

  ghost predicate Leads(s: Items, keys: set<string>, capacity: nat) {
    forall k :: 0 <= k < |s| && (k < |keys| || |keys| >= capacity) ==> s[k].key in keys
  }

  lemma LeadsPut(s: Items, keys: set<string>, capacity: nat, key: string, entry: Entry)
    requires DistinctKeys(s) && |s| <= capacity && Leads(s, keys, capacity)
    ensures Leads(AfterPut(s, key, entry, capacity), keys + {key}, capacity)
  {
    var t := AfterPut(s, key, entry, capacity);
    var more := keys + {key};
    forall k | 0 <= k < |t| && (k < |more| || |more| >= capacity) ensures t[k].key in more {
      if k > 0 {
        LeadsBehind(s, keys, capacity, key, k - 1);
      }
    }
  }

  lemma LeadsBehind(s: Items, keys: set<string>, capacity: nat, key: string, k: nat)
    requires DistinctKeys(s) && |s| <= capacity && Leads(s, keys, capacity) && k < |Drop(s, key)| && k + 1 < capacity
    requires k + 1 < |keys + {key}| || |keys + {key}| >= capacity
    ensures Drop(s, key)[k].key in keys
  {
    LookupNone(s, key);
    if key !in keys {
      assert |keys + {key}| == |keys| + 1;
    } else {
      assert keys + {key} == keys;
    }
    if Holds(s, key) {
      var i :| 0 <= i < |s| && s[i].key == key;
      DropAt(s, key, i);
    } else {
      DropMissing(s, key);
    }
  }
}
