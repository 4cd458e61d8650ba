/** A doubly linked list of elements, as `container/list` offers it to the caches. */
module LinkedList {

  class Element<T> {
    var prev: Element?<T>
    var next: Element?<T>
    var value: T

    constructor (value: T)
      ensures this.value == value && prev == null && next == null
    {
      this.value := value;
      prev, next := null, null;
    }
  }

  ghost predicate Distinct<T>(nodes: seq<Element<T>>) {
    forall i, j :: 0 <= i < j < |nodes| ==> nodes[i] != nodes[j]
  }

  /** The sequence with its k-th element taken out. */
  function Without<X>(s: seq<X>, k: nat): seq<X>
    requires k < |s|
  {
    s[..k] + s[k + 1..]
  }

  lemma WithoutMember<T>(nodes: seq<Element<T>>, k: nat)
    requires Distinct(nodes) && k < |nodes|
    ensures nodes[k] !in Without(nodes, k)
    ensures forall e :: e in nodes && e != nodes[k] ==> e in Without(nodes, k)
  {
    forall e | e in nodes && e != nodes[k] ensures e in Without(nodes, k) {
      assert nodes == nodes[..k] + [nodes[k]] + nodes[k + 1..];
    }
  }

  class List<T> {
    var front: Element?<T>
    var back: Element?<T>
    ghost var nodes: seq<Element<T>>
    ghost var values: seq<T>

    ghost predicate Valid()
      reads this, nodes
    {
      Shaped() && |values| == |nodes| && forall i :: 0 <= i < |nodes| ==> nodes[i].value == values[i]
    }

    /** The pointers follow the nodes in order. */
    ghost predicate Shaped()
      reads this, nodes
    {
      && Distinct(nodes)
      && (nodes == [] ==> front == null && back == null)
      && (nodes != [] ==>
            && front == nodes[0] && nodes[0].prev == null
            && back == nodes[|nodes| - 1] && nodes[|nodes| - 1].next == null)
      && (forall i, j :: 0 <= i < |nodes| && j == i + 1 < |nodes| ==> nodes[i].next == nodes[j] && nodes[j].prev == nodes[i])
    }

    constructor ()
      ensures Valid() && nodes == [] && values == []
    {
      front, back, nodes, values := null, null, [], [];
    }

    /** An element that is not in the list becomes its front. */
    method Link(e: Element<T>)
      requires Valid() && e !in nodes
      modifies this, e, nodes
      ensures Valid() && nodes == [e] + old(nodes) && values == [old(e.value)] + old(values)
    {
      e.prev, e.next := null, front;
      if front != null {
        front.prev := e;
      } else {
        back := e;
      }
      front := e;
      nodes, values := [e] + nodes, [e.value] + values;
    }

    method PushFront(value: T) returns (e: Element<T>)
      requires Valid()
      modifies this, nodes
      ensures Valid() && fresh(e) && nodes == [e] + old(nodes) && values == [value] + old(values)
    {
      e := new Element(value);
      Link(e);
    }

    /** The pointers around an element that leaves. */
    method Unlink(e: Element<T>, ghost k: nat)
      requires Shaped() && k < |nodes| && nodes[k] == e
      modifies this, nodes
      ensures Shaped() && nodes == Without(old(nodes), k) && values == old(values)
      ensures forall i :: 0 <= i < |old(nodes)| ==> old(nodes)[i].value == old(nodes[i].value)
    {
      ghost var was := nodes;
      assert k > 0 ==> e.prev == was[k - 1];
      assert k + 1 < |was| ==> e.next == was[k + 1];
      if e.prev != null {
        e.prev.next := e.next;
      } else {
        front := e.next;
      }
      if e.next != null {
        e.next.prev := e.prev;
      } else {
        back := e.prev;
      }
      nodes := Without(was, k);
    }

    method Remove(e: Element<T>, ghost k: nat)
      requires Valid() && k < |nodes| && nodes[k] == e
      modifies this, nodes
      ensures Valid() && nodes == Without(old(nodes), k) && values == Without(old(values), k)
      ensures e.value == old(e.value)
    {
      Unlink(e, k);
      values := Without(values, k);
    }

    method MoveToFront(e: Element<T>, ghost k: nat)
      requires Valid() && k < |nodes| && nodes[k] == e
      modifies this, nodes
      ensures Valid() && nodes == [e] + Without(old(nodes), k) && values == [old(values)[k]] + Without(old(values), k)
    {
      WithoutMember(nodes, k);
      Remove(e, k);
      Link(e);
    }

    /** The value of an element, changed where it stands. */
    method SetValue(e: Element<T>, value: T, ghost k: nat)
      requires Valid() && k < |nodes| && nodes[k] == e
      modifies this, e
      ensures Valid() && nodes == old(nodes) && values == old(values)[k := value]
    {
      e.value := value;
      values := values[k := value];
    }
  }
}
