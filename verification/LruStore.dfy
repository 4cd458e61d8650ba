/** The in-process LRU store: a map from keys to list elements beside the list in order of use.
Every method leaves what the sequence model leaves and returns what it returns. */
module LruStore {
  import opened LinkedList
  import opened LruSpec

  const DEFAULT_CAPACITY := 1024

  /** Map and list agree: the element under a key is the one that carries it, and every key is listed. */
  ghost predicate Agrees(entries: map<string, Element<Item>>, nodes: seq<Element<Item>>, items: seq<Item>) {
    && |nodes| == |items|
    && (forall i :: 0 <= i < |items| ==> items[i].key in entries && entries[items[i].key] == nodes[i])
    && (forall key :: key in entries ==> Holds(items, key))
  }

  lemma AgreesDistinct(entries: map<string, Element<Item>>, nodes: seq<Element<Item>>, items: seq<Item>)
    requires Agrees(entries, nodes, items) && Distinct(nodes)
    ensures DistinctKeys(items) && |entries| == |items|
  {
    forall i, j | 0 <= i < j < |items| ensures items[i].key != items[j].key {
      assert nodes[i] != nodes[j];
    }
    CountKeys(items, entries.Keys);
  }

  lemma {:induction false} CountKeys(items: seq<Item>, keys: set<string>)
    requires DistinctKeys(items) && forall key :: key in keys <==> Holds(items, key)
    ensures |keys| == |items|
  {
    if items == [] {
      assert keys == {};
    } else {
      var last, rest := items[|items| - 1], items[..|items| - 1];
      assert Holds(items, last.key);
      forall key ensures key in keys - {last.key} <==> Holds(rest, key) {
        if Holds(items, key) && key != last.key {
          var i :| 0 <= i < |items| && items[i].key == key;
          assert rest[i].key == key;
        }
        if Holds(rest, key) {
          var i :| 0 <= i < |rest| && rest[i].key == key;
          assert items[i].key == key;
        }
      }
      CountKeys(rest, keys - {last.key});
    }
  }

  lemma AgreesWithout(entries: map<string, Element<Item>>, nodes: seq<Element<Item>>, items: seq<Item>, k: nat)
    requires Agrees(entries, nodes, items) && Distinct(nodes) && k < |items|
    ensures Agrees(entries - {items[k].key}, Without(nodes, k), Without(items, k))
  {
    AgreesDistinct(entries, nodes, items);
    HoldsWithout(items, k);
    var less, rest := entries - {items[k].key}, Without(items, k);
    forall i | 0 <= i < |rest| ensures rest[i].key in less && less[rest[i].key] == Without(nodes, k)[i] {
      var j := if i < k then i else i + 1;
      assert rest[i] == items[j] && Without(nodes, k)[i] == nodes[j];
    }
  }

  lemma HoldsWithout(items: seq<Item>, k: nat)
    requires k < |items|
    ensures forall key :: Holds(items, key) && key != items[k].key ==> Holds(Without(items, k), key)
  {
    forall key | Holds(items, key) && key != items[k].key ensures Holds(Without(items, k), key) {
      var j :| 0 <= j < |items| && items[j].key == key;
      assert Without(items, k)[if j < k then j else j - 1].key == key;
    }
  }

  lemma AgreesFront(entries: map<string, Element<Item>>, nodes: seq<Element<Item>>, items: seq<Item>,
                    e: Element<Item>, x: Item)
    requires Agrees(entries, nodes, items) && x.key !in entries
    ensures Agrees(entries[x.key := e], [e] + nodes, [x] + items)
  {
    forall key | key in entries[x.key := e] ensures Holds([x] + items, key) {
      if key == x.key {
        assert ([x] + items)[0].key == key;
      } else {
        var i :| 0 <= i < |items| && items[i].key == key;
        assert ([x] + items)[i + 1].key == key;
      }
    }
  }

  lemma AgreesMoved(entries: map<string, Element<Item>>, nodes: seq<Element<Item>>, items: seq<Item>, k: nat)
    requires Agrees(entries, nodes, items) && Distinct(nodes) && k < |items|
    ensures Agrees(entries, [nodes[k]] + Without(nodes, k), [items[k]] + Without(items, k))
  {
    var key := items[k].key;
    AgreesWithout(entries, nodes, items, k);
    AgreesFront(entries - {key}, Without(nodes, k), Without(items, k), nodes[k], items[k]);
    assert (entries - {key})[key := nodes[k]] == entries;
  }

  /** No element that was not there before. */
  ghost predicate Among(nodes: seq<Element<Item>>, before: seq<Element<Item>>) {
    forall e :: e in nodes ==> e in before
  }

  lemma WithoutAmong(nodes: seq<Element<Item>>, k: nat)
    requires k < |nodes|
    ensures Among(Without(nodes, k), nodes) && Among([nodes[k]] + Without(nodes, k), nodes)
  {
  }

  /** A list and what is left of it after its tail is cut. */
  ghost predicate Part<X>(part: seq<X>, whole: seq<X>)
    ensures part == whole ==> Part(part, whole)
    ensures Part(part, whole) ==> |part| <= |whole| && forall x :: x in part ==> x in whole
  {
    part <= whole
  }

  lemma PartTransitive<X>(a: seq<X>, b: seq<X>, c: seq<X>)
    requires Part(a, b) && Part(b, c)
    ensures Part(a, c)
  {
  }

  lemma PartIsTake(part: seq<Item>, items: seq<Item>, capacity: nat)
    requires Part(part, items) && |part| == if |items| > capacity then capacity else |items|
    ensures part == Take(items, capacity)
  {
  }

  class MemoryStore {
    const capacity: nat
    const order: List<Item>
    var entries: map<string, Element<Item>>
    var hits: nat
    var misses: nat
    var puts: nat
    var evictions: nat

    /** The items, most recently used first. */
    ghost function Items(): seq<Item>
      reads order
    {
      order.values
    }

    /** `len(s.entries)`. */
    function Size(): nat
      reads this
    {
      |entries|
    }

    ghost predicate Linked()
      reads this, order, order.nodes
    {
      order.Valid() && Agrees(entries, order.nodes, Items())
    }

    ghost predicate Valid()
      reads this, order, order.nodes
    {
      Linked() && |order.nodes| <= capacity
    }

    constructor (capacity: int)
      ensures Valid() && Items() == [] && hits == misses == puts == evictions == 0
      ensures this.capacity == if capacity <= 0 then DEFAULT_CAPACITY else capacity
      ensures fresh(order) && order.nodes == []
    {
      this.capacity := if capacity <= 0 then DEFAULT_CAPACITY else capacity;
      order := new List();
      entries := map[];
      hits, misses, puts, evictions := 0, 0, 0, 0;
    }

    /** Where the element of a key stands. */
    lemma Find(key: string) returns (k: nat)
      requires Linked() && key in entries
      ensures k < |order.nodes| && order.nodes[k] == entries[key] && Items()[k].key == key
      ensures Lookup(Items(), key) == Some(Items()[k].entry) && Drop(Items(), key) == Without(Items(), k)
    {
      k :| 0 <= k < |Items()| && Items()[k].key == key;
      AgreesDistinct(entries, order.nodes, Items());
      LookupAt(Items(), key, k);
      DropAt(Items(), key, k);
    }

    lemma Missing(key: string)
      requires Linked() && key !in entries
      ensures Lookup(Items(), key) == None && Drop(Items(), key) == Items()
    {
      assert !Holds(Items(), key);
      LookupNone(Items(), key);
      DropMissing(Items(), key);
    }

    /** `remove`: the element leaves the map and the list. */
    method Remove(e: Element<Item>, ghost k: nat)
      requires Linked() && k < |order.nodes| && order.nodes[k] == e
      modifies this`entries, order, order.nodes
      ensures Linked() && order.nodes == Without(old(order.nodes), k)
      ensures Items() == Without(old(Items()), k)
    {
      hide Agrees;
      AgreesWithout(entries, order.nodes, Items(), k);
      entries := entries - {e.value.key};
      order.Remove(e, k);
    }

    method Get(key: string, now: int) returns (r: Option<Entry>)
      requires Valid()
      modifies this, order, order.nodes
      ensures Valid() && r == GetResult(old(Items()), key, now) && Items() == AfterGet(old(Items()), key, now)
      ensures hits == old(hits) + (if r.Some? then 1 else 0) && misses == old(misses) + (if r.Some? then 0 else 1)
      ensures puts == old(puts) && evictions == old(evictions)
      ensures Among(order.nodes, old(order.nodes))
    {
      hide Agrees, Lookup, Drop, List.Shaped;
      if key !in entries {
        Missing(key);
        misses := misses + 1;
        return None;
      }
      var e := entries[key];
      ghost var k := Find(key);
      var item := e.value;
      WithoutAmong(order.nodes, k);
      if item.entry.ttl > 0 && now - item.entry.storedAt > item.entry.ttl {
        Remove(e, k);
        misses := misses + 1;
        return None;
      }
      MoveUp(e, k);
      hits := hits + 1;
      r := Some(item.entry);
    }

    /** An element that is used comes to the front. */
    method MoveUp(e: Element<Item>, ghost k: nat)
      requires Linked() && k < |order.nodes| && order.nodes[k] == e
      modifies order, order.nodes
      ensures Linked() && order.nodes == [e] + Without(old(order.nodes), k)
      ensures Items() == [old(Items())[k]] + Without(old(Items()), k)
    {
      hide Agrees;
      AgreesMoved(entries, order.nodes, Items(), k);
      order.MoveToFront(e, k);
    }

    method Put(key: string, entry: Entry)
      requires Valid()
      modifies this, order, order.nodes
      ensures Valid() && Items() == AfterPut(old(Items()), key, entry, capacity)
      ensures puts == old(puts) + 1 && evictions == old(evictions) + Overflow(old(Items()), key, capacity)
      ensures hits == old(hits) && misses == old(misses)
      ensures forall e :: e in order.nodes ==> e in old(order.nodes) || fresh(e)
    {
      hide Agrees, Lookup, Drop, List.Shaped;
      if key in entries {
        ghost var k := Find(key);
        var e := entries[key];
        AgreesRenewed(entries, order.nodes, Items(), k, Item(key, entry));
        WithoutAmong(order.nodes, k);
        order.SetValue(e, Item(key, entry), k);
        MoveUp(e, k);
        puts := puts + 1;
        assert Without(old(Items())[k := Item(key, entry)], k) == Without(old(Items()), k);
        return;
      }
      Missing(key);
      var e := Insert(key, entry);
      puts := puts + 1;
      Evict();
    }

    method Insert(key: string, entry: Entry) returns (e: Element<Item>)
      requires Linked() && key !in entries
      modifies this`entries, order, order.nodes
      ensures Linked() && Items() == [Item(key, entry)] + old(Items())
      ensures fresh(e) && order.nodes == [e] + old(order.nodes)
    {
      hide Agrees, List.Shaped;
      ghost var was, nodes, items := entries, order.nodes, Items();
      e := order.PushFront(Item(key, entry));
      AgreesFront(was, nodes, items, e, Item(key, entry));
      entries := entries[key := e];
    }

    /** The list and the map are cut to the capacity. */
    method Evict()
      requires Linked()
      modifies this`entries, this`evictions, order, order.nodes
      ensures Valid() && Items() == Take(old(Items()), capacity)
      ensures evictions == old(evictions) + |old(Items())| - |Items()|
      ensures Part(order.nodes, old(order.nodes))
    {
      hide Linked, Take, Part;
      ghost var items := order.values;
      EvictLoop();
      PartIsTake(order.values, items, capacity);
    }

    /** The loop that drives out the least recently used items. */
    method EvictLoop()
      requires Linked()
      modifies this`entries, this`evictions, order, order.nodes
      ensures Linked() && |order.nodes| == |order.values|
      ensures Part(order.nodes, old(order.nodes)) && Part(order.values, old(order.values))
      ensures |order.nodes| == if |old(order.values)| > capacity then capacity else |old(order.values)|
      ensures evictions == old(evictions) + |old(order.values)| - |order.values|
    {
      EntriesCount();
      ghost var nodes, items := order.nodes, order.values;
      hide Linked, Size, Part;
      ghost var least := if |items| > capacity then capacity else |items|;
      while Size() > capacity && order.back != null
        invariant Cut(nodes, items, least, old(evictions))
        invariant forall i :: 0 <= i < |order.nodes| ==> order.nodes[i] in nodes
        decreases |order.nodes|
      {
        EvictOne(nodes, items, least, old(evictions));
      }
      BackIsThere();
    }

    /** The loop has driven out the end of the list and counted it. */
    ghost predicate Cut(nodes: seq<Element<Item>>, items: seq<Item>, least: nat, before: int)
      reads this, order, order.nodes
    {
      && Linked() && Size() == |order.nodes| == |order.values| >= least
      && Part(order.nodes, nodes) && Part(order.values, items)
      && evictions == before + |items| - |order.values|
    }

    method EvictOne(ghost nodes: seq<Element<Item>>, ghost items: seq<Item>, ghost least: nat, ghost before: int)
      requires Cut(nodes, items, least, before) && Size() > least
      modifies this`entries, this`evictions, order, order.nodes
      ensures Cut(nodes, items, least, before) && |order.nodes| == |old(order.nodes)| - 1
      ensures forall i :: 0 <= i < |order.nodes| ==> order.nodes[i] in nodes
    {
      hide Linked, Part;
      ghost var nodes', items' := order.nodes, order.values;
      EvictTail();
      PartTransitive(order.nodes, nodes', nodes);
      PartTransitive(order.values, items', items);
      EntriesCount();
    }

    method EvictTail()
      requires Linked() && order.nodes != []
      modifies this`entries, this`evictions, order, order.nodes
      ensures Linked() && |order.nodes| == |old(order.nodes)| - 1
      ensures Part(order.nodes, old(order.nodes)) && Part(order.values, old(order.values))
      ensures evictions == old(evictions) + 1
    {
      var tail := order.back;
      Remove(tail, |order.nodes| - 1);
      evictions := evictions + 1;
    }

    lemma BackIsThere()
      requires Linked()
      ensures order.nodes != [] ==> order.back != null
    {
    }

    lemma EntriesCount()
      requires Linked()
      ensures Size() == |order.nodes| == |Items()|
    {
      AgreesDistinct(entries, order.nodes, Items());
    }

    method Delete(key: string)
      requires Valid()
      modifies this, order, order.nodes
      ensures Valid() && Items() == Drop(old(Items()), key)
      ensures hits == old(hits) && misses == old(misses) && puts == old(puts) && evictions == old(evictions)
      ensures Among(order.nodes, old(order.nodes))
    {
      hide Agrees, Lookup, Drop, List.Shaped;
      if key in entries {
        ghost var k := Find(key);
        WithoutAmong(order.nodes, k);
        Remove(entries[key], k);
      } else {
        Missing(key);
      }
    }
  }

  /** One operation of any kind. */
  method Apply(store: MemoryStore, op: Op) returns (answer: Option<Entry>)
    requires store.Valid()
    modifies store, store.order, store.order.nodes
    ensures store.Valid() && answer == Answer(old(store.Items()), op)
    ensures store.Items() == Step(old(store.Items()), op, store.capacity)
    ensures store.hits + store.misses == old(store.hits) + old(store.misses) + if op.Get? then 1 else 0
    ensures forall i :: 0 <= i < |store.order.nodes| ==> store.order.nodes[i] in old(store.order.nodes) || fresh(store.order.nodes[i])
  {
    hide MemoryStore.Valid;
    answer := None;
    match op {
      case Get(key, now) => answer := store.Get(key, now);
      case Put(key, entry) => store.Put(key, entry);
      case Delete(key) => store.Delete(key);
    }
  }

  /** How many items a put drives out. */
  function Overflow(items: seq<Item>, key: string, capacity: nat): nat {
    var full := [Item(key, Entry("", 0, 0))] + Drop(items, key);
    |full| - |Take(full, capacity)|
  }

  lemma AgreesRenewed(entries: map<string, Element<Item>>, nodes: seq<Element<Item>>, items: seq<Item>, k: nat, x: Item)
    requires Agrees(entries, nodes, items) && k < |items| && x.key == items[k].key
    ensures Agrees(entries, nodes, items[k := x])
  {
    forall key | key in entries ensures Holds(items[k := x], key) {
      var i :| 0 <= i < |items| && items[i].key == key;
      assert items[k := x][i].key == key;
    }
  }

  // ----- a store in use

  /** The answer to an operation; only a lookup has one. */
  function Answer(items: seq<Item>, op: Op): Option<Entry> {
    if op.Get? then GetResult(items, op.key, op.now) else None
  }

  function Gets(ops: seq<Op>): nat {
    if ops == [] then 0 else Gets(ops[..|ops| - 1]) + if ops[|ops| - 1].Get? then 1 else 0
  }

  /** The list, the answers and the number of lookups counted are the sequence model's. */
  ghost predicate Served(ops: seq<Op>, capacity: nat, items: seq<Item>, answers: seq<Option<Entry>>, counted: int) {
    && items == Run(ops, capacity) && counted == Gets(ops) && |answers| == |ops|
    && forall i :: 0 <= i < |ops| ==> answers[i] == Answer(Run(ops[..i], capacity), ops[i])
  }

  lemma ServedStep(ops: seq<Op>, capacity: nat, items: seq<Item>, answers: seq<Option<Entry>>, counted: int, op: Op)
    requires Served(ops, capacity, items, answers, counted)
    ensures Served(ops + [op], capacity, Step(items, op, capacity), answers + [Answer(items, op)],
                   counted + if op.Get? then 1 else 0)
  {
    var more := ops + [op];
    assert more[..|ops|] == ops;
    forall i | 0 <= i < |more| ensures (answers + [Answer(items, op)])[i] == Answer(Run(more[..i], capacity), more[i]) {
      assert i < |ops| ==> more[..i] == ops[..i];
    }
  }

  lemma ServedNothing(capacity: nat)
    ensures Served([], capacity, [], [], 0)
  {
  }

  /** A store serves a sequence of operations: every answer is the sequence model's, the list ends as the
  model's run, and each lookup is counted as a hit or a miss. */
  method Serve(capacity: int, ops: seq<Op>) returns (answers: seq<Option<Entry>>, hits: nat, misses: nat, ghost items: seq<Item>)
    ensures Served(ops, if capacity <= 0 then DEFAULT_CAPACITY else capacity, items, answers, hits + misses)
  {
    hide MemoryStore.Valid, Served, Answer;
    var store := new MemoryStore(capacity);
    answers := [];
    assert ops[..0] == [];
    ServedNothing(store.capacity);
    for n := 0 to |ops|
      invariant store.Valid() && fresh(store) && fresh(store.order)
      invariant fresh(store.order.nodes)
      invariant Served(ops[..n], store.capacity, store.Items(), answers, store.hits + store.misses)
    {
      ServedStep(ops[..n], store.capacity, store.Items(), answers, store.hits + store.misses, ops[n]);
      assert ops[..n + 1] == ops[..n] + [ops[n]];
      var answer := Apply(store, ops[n]);
      answers := answers + [answer];
    }
    assert ops[..|ops|] == ops;
    hits, misses, items := store.hits, store.misses, store.Items();
  }

  /** What a smaller store answers with a hit, a larger one answers with the same hit. */
  lemma LargerAnswers(ops: seq<Op>, c: nat, d: nat, i: nat)
    requires c <= d && i < |ops| && Answer(Run(ops[..i], c), ops[i]).Some?
    ensures Answer(Run(ops[..i], d), ops[i]) == Answer(Run(ops[..i], c), ops[i])
  {
    HitOneMore(ops[..i], c, d, ops[i].key, ops[i].now);
  }
}
