/** The map from keys to slices of hit times. A slice shares its backing array with the slice it was cut
from, so filtering in place is visible through the map until a new slice is stored. */
module HitStore {
  import opened SlidingWindow

  /** A Go slice that starts at its array's first element. */
  datatype Slice = Nil | Slice(data: array<int>, len: nat)

  type Hits = map<string, seq<int>>

  function At(hits: Hits, key: string): seq<int> {
    if key in hits then hits[key] else []
  }

  /** The hits after a list was filtered in its array, with the map's slice as it was. */
  function Squeezed(hits: Hits, key: string, cutoff: int): Hits {
    if key in hits then hits[key := Compacted(hits[key], cutoff)] else hits
  }

  /** Filtering two lists changes no other. */
  lemma SqueezedOff(h: Hits, a: string, b: string, cutoff: int)
    requires a != b
    ensures At(Squeezed(h, a, cutoff), b) == At(h, b)
    ensures Squeezed(Squeezed(h, a, cutoff), b, cutoff) - {a, b} == h - {a, b}
  {
  }

  ghost predicate Fits(s: Slice) {
    s.Slice? ==> s.len <= s.data.Length
  }

  ghost function Elements(s: Slice): seq<int>
    requires Fits(s)
    reads Footprint(s)
  {
    if s.Nil? then [] else s.data[..s.len]
  }

  ghost function Footprint(s: Slice): set<array<int>> {
    if s.Slice? then {s.data} else {}
  }

  /** The compaction loop: elements after the cutoff move to the front of the same array. */
  method Compact(s: Slice, cutoff: int) returns (r: Slice)
    requires Fits(s)
    modifies Footprint(s)
    ensures Fits(r) && Footprint(r) == Footprint(s)
    ensures Elements(r) == Filter(old(Elements(s)), cutoff)
    ensures Elements(s) == Compacted(old(Elements(s)), cutoff)
  {
    if s.Nil? {
      return Nil;
    }
    ghost var before := s.data[..s.len];
    var n := 0;
    for i := 0 to s.len
      invariant n <= i
      invariant s.data[..n] == Filter(before[..i], cutoff)
      invariant s.data[n..s.len] == before[n..]
    {
      var hit := s.data[i];
      assert hit == s.data[n..s.len][i - n] == before[i];
      assert before[..i + 1][..i] == before[..i];
      if hit > cutoff {
        s.data[n] := hit;
        n := n + 1;
        assert s.data[n..s.len] == before[n..];
      }
    }
    assert before[..s.len] == before;
    assert s.data[..s.len] == s.data[..n] + s.data[n..s.len];
    return Slice(s.data, n);
  }

  /** `append`: in place while the array has room, otherwise into a larger copy. */
  method Append(s: Slice, t: int) returns (r: Slice)
    requires Fits(s)
    modifies Footprint(s)
    ensures Fits(r) && r.Slice? && Elements(r) == old(Elements(s)) + [t]
    ensures Footprint(r) == Footprint(s) || fresh(r.data)
  {
    if s.Slice? && s.len < s.data.Length {
      s.data[s.len] := t;
      return Slice(s.data, s.len + 1);
    }
    var len := if s.Nil? then 0 else s.len;
    var data := new int[2 * len + 1];
    for i := 0 to len
      modifies data
      invariant forall j :: 0 <= j < i ==> data[j] == s.data[j]
    {
      data[i] := s.data[i];
    }
    data[len] := t;
    assert data[..len + 1] == old(Elements(s)) + [t];
    return Slice(data, len + 1);
  }

  type Slices = map<string, Slice>

  /** Every slice fits its array in `repr`, shows the times of its key, and no two keys share an array. */
  ghost predicate Shows(slices: Slices, hits: Hits, repr: set<array<int>>)
    reads repr
  {
    && hits.Keys == slices.Keys
    && (forall k :: k in slices ==> Fits(slices[k]) && Footprint(slices[k]) <= repr && Elements(slices[k]) == hits[k])
    && (forall j, k :: j in slices && k in slices && j != k ==> Footprint(slices[j]) !! Footprint(slices[k]))
  }

  ghost function Own(slices: Slices, key: string): set<array<int>> {
    if key in slices then Footprint(slices[key]) else {}
  }

  lemma ShownAt(slices: Slices, hits: Hits, repr: set<array<int>>, key: string)
    requires Shows(slices, hits, repr)
    ensures key in hits <==> key in slices
    ensures Own(slices, key) <= repr
    ensures key in slices ==> Fits(slices[key]) && Elements(slices[key]) == hits[key]
    ensures key !in slices ==> forall cutoff :: Filter(At(hits, key), cutoff) == []
  {
  }

  lemma OwnApart(slices: Slices, hits: Hits, repr: set<array<int>>, j: string, k: string)
    requires Shows(slices, hits, repr) && j != k
    ensures Own(slices, j) !! Own(slices, k) && Own(slices, j) <= repr && Own(slices, k) <= repr
  {
  }

  lemma Same(slices: Slices, repr: set<array<int>>, key: string)
    requires key in slices && Footprint(slices[key]) <= repr
    ensures slices == slices[key := slices[key]]
    ensures repr == repr - Own(slices, key) + Footprint(slices[key])
  {
  }

  /** The other keys do not depend on the arrays of one. */
  lemma Detach(slices: Slices, hits: Hits, repr: set<array<int>>, key: string)
    requires Shows(slices, hits, repr)
    ensures Shows(slices - {key}, hits - {key}, repr - Own(slices, key))
  {
  }

  /** A key with arrays of its own joins the others. */
  lemma Attach(slices: Slices, hits: Hits, repr: set<array<int>>, key: string, r: Slice)
    requires Shows(slices - {key}, hits - {key}, repr - Own(slices, key))
    requires Fits(r) && Footprint(r) !! repr - Own(slices, key)
    ensures Shows(slices[key := r], hits[key := Elements(r)], repr - Own(slices, key) + Footprint(r))
  {
    assert slices[key := r] == (slices - {key})[key := r];
    assert hits[key := Elements(r)] == (hits - {key})[key := Elements(r)];
    assert (slices - {key}).Keys == slices.Keys - {key} && (hits - {key}).Keys == hits.Keys - {key};
  }

  class Store {
    var slices: Slices
    ghost var contents: Hits
    ghost var repr: set<array<int>>

    ghost predicate Valid() reads this, repr {
      Shows(slices, contents, repr)
    }

    constructor ()
      ensures Valid() && contents == map[] && repr == {}
    {
      slices, contents, repr := map[], map[], {};
    }

    /** The hits of a key after the cutoff, filtered in the key's own array; the map is not updated. */
    method Recent(key: string, cutoff: int) returns (r: Slice)
      requires Valid()
      modifies Own(slices, key), this`contents
      ensures Valid() && Fits(r) && Footprint(r) == Own(slices, key)
      ensures Elements(r) == Filter(At(old(contents), key), cutoff)
      ensures contents == Squeezed(old(contents), key, cutoff)
    {
      ShownAt(slices, contents, repr, key);
      Detach(slices, contents, repr, key);
      hide Shows, Filter, Compacted;
      if key !in slices {
        return Nil;
      }
      r := Compact(slices[key], cutoff);
      Attach(slices, contents, repr, key, slices[key]);
      Same(slices, repr, key);
      contents := contents[key := Compacted(contents[key], cutoff)];
    }

    /** `hits[key] = r`, with a slice of that key's own array or a new one. */
    method Set(key: string, r: Slice)
      requires Valid() && Fits(r)
      requires Footprint(r) == Own(slices, key) || Footprint(r) !! repr
      modifies this
      ensures Valid() && contents == old(contents)[key := Elements(r)]
      ensures slices == old(slices)[key := r] && repr == old(repr) - old(Own(slices, key)) + Footprint(r)
    {
      hide Shows, Elements;
      Detach(slices, contents, repr, key);
      Attach(slices, contents, repr, key, r);
      repr := repr - Own(slices, key) + Footprint(r);
      contents := contents[key := Elements(r)];
      slices := slices[key := r];
    }

    /** `hits[key] = append(r, t)`. */
    method Push(key: string, r: Slice, t: int) returns (ghost added: set<array<int>>)
      requires Valid() && Fits(r) && Footprint(r) == Own(slices, key)
      modifies this, Own(slices, key)
      ensures Valid() && contents == old(contents)[key := old(Elements(r)) + [t]]
      ensures key in slices && slices == old(slices)[key := slices[key]]
      ensures fresh(added) && repr <= old(repr) + added
    {
      ShownAt(slices, contents, repr, key);
      hide Shows;
      Detach(slices, contents, repr, key);
      var longer := Append(r, t);
      Attach(slices, contents, repr, key, longer);
      added := if longer.data in Footprint(r) then {} else {longer.data};
      repr := repr - Own(slices, key) + Footprint(longer);
      contents := contents[key := Elements(longer)];
      slices := slices[key := longer];
    }

    /** Filters a list, and stores it with one more hit when it is shorter than the limit, as it is otherwise. */
    method Admit(key: string, cutoff: int, t: int, limit: int) returns (ok: bool, ghost added: set<array<int>>)
      requires Valid()
      modifies this, Own(slices, key)
      ensures Valid() && fresh(added) && repr <= old(repr) + added
      ensures var x := Filter(At(old(contents), key), cutoff);
              ok == (|x| < limit) && contents == old(contents)[key := x + if ok then [t] else []]
    {
      ghost var before := contents;
      ShownAt(slices, contents, repr, key);
      hide Shows, Filter, Squeezed;
      var recent := Recent(key, cutoff);
      ghost var x := Elements(recent);
      assert x + [] == x;
      OverwriteOne(before, key, cutoff, x);
      OverwriteOne(before, key, cutoff, x + [t]);
      var count := if recent.Nil? then 0 else recent.len;
      if count >= limit {
        Set(key, recent);
        return false, {};
      }
      added := Push(key, recent, t);
      ok := true;
    }

    // Two keys at a time, as the admin and the reset limiter use them.

    method RecentBoth(a: string, b: string, cutoff: int) returns (r: Slice, s: Slice)
      requires Valid() && a != b
      modifies Own(slices, a), Own(slices, b), this`contents
      ensures Valid() && Fits(r) && Fits(s) && Footprint(r) == Own(slices, a) && Footprint(s) == Own(slices, b)
      ensures Elements(r) == Filter(At(old(contents), a), cutoff) && Elements(s) == Filter(At(old(contents), b), cutoff)
      ensures contents - {a, b} == old(contents) - {a, b}
    {
      OwnApart(slices, contents, repr, a, b);
      SqueezedOff(contents, a, b, cutoff);
      hide Shows, Squeezed, At;
      r := Recent(a, cutoff);
      s := Recent(b, cutoff);
    }

    method SetBoth(a: string, r: Slice, b: string, s: Slice)
      requires Valid() && a != b
      requires Fits(r) && Fits(s) && Footprint(r) == Own(slices, a) && Footprint(s) == Own(slices, b)
      modifies this
      ensures Valid() && contents == old(contents)[a := Elements(r)][b := Elements(s)]
      ensures repr <= old(repr)
    {
      OwnApart(slices, contents, repr, a, b);
      hide Shows, Elements;
      Set(a, r);
      Set(b, s);
    }

    method PushBoth(a: string, r: Slice, b: string, s: Slice, t: int) returns (ghost added: set<array<int>>)
      requires Valid() && a != b
      requires Fits(r) && Fits(s) && Footprint(r) == Own(slices, a) && Footprint(s) == Own(slices, b)
      modifies this, Own(slices, a), Own(slices, b)
      ensures Valid() && contents == old(contents)[a := old(Elements(r)) + [t]][b := old(Elements(s)) + [t]]
      ensures fresh(added) && repr <= old(repr) + added
    {
      OwnApart(slices, contents, repr, a, b);
      hide Shows;
      ghost var first := Push(a, r, t);
      ghost var second := Push(b, s, t);
      added := first + second;
    }
  }

  /** Storing a list over one that was only compacted. */
  lemma OverwriteOne(h: Hits, key: string, cutoff: int, x: seq<int>)
    ensures Squeezed(h, key, cutoff)[key := x] == h[key := x]
  {
    hide Compacted;
  }

  lemma Overwrite(h: Hits, g: Hits, a: string, b: string, x: seq<int>, y: seq<int>)
    requires h - {a, b} == g - {a, b}
    ensures h[a := x][b := y] == g[a := x][b := y]
  {
    assert forall k :: k != a && k != b ==> (k in h <==> k in h - {a, b}) && (k in g <==> k in g - {a, b});
    assert forall k :: k in h && k in g && k != a && k != b ==> h[k] == (h - {a, b})[k] && g[k] == (g - {a, b})[k];
  }

  // ----- two maps at once, as the reset limiter uses them

  ghost predicate Separate(a: Store, b: Store)
    reads a, a.repr, b, b.repr
  {
    a != b && a.Valid() && b.Valid() && a.repr !! b.repr
  }

  datatype Limits = Limits(cutoff: int, first: int, second: int)

  /** What the two lists become. When only the second is full, the first is left compacted and not stored. */
  ghost predicate Spent(h: Hits, g: Hits, j: string, k: string, l: Limits, t: int, h': Hits, g': Hits, ok: bool) {
    var x, y := Filter(At(h, j), l.cutoff), Filter(At(g, k), l.cutoff);
    && ok == (|x| < l.first && |y| < l.second)
    && h' == (if |x| >= l.first then h[j := x] else if !ok then Squeezed(h, j, l.cutoff) else h[j := x + [t]])
    && g' == (if |x| >= l.first then g else g[k := y + if ok then [t] else []])
  }

  lemma SpentCases(h: Hits, g: Hits, j: string, k: string, l: Limits, t: int)
    ensures var x, y := Filter(At(h, j), l.cutoff), Filter(At(g, k), l.cutoff);
            && (|x| >= l.first ==> Spent(h, g, j, k, l, t, h[j := x], g, false))
            && (|x| < l.first && |y| >= l.second ==> Spent(h, g, j, k, l, t, Squeezed(h, j, l.cutoff), g[k := y + []], false))
            && (|x| < l.first && |y| < l.second ==> Spent(h, g, j, k, l, t, h[j := x + [t]], g[k := y + [t]], true))
  {
    hide Squeezed, At;
  }

  lemma StillApart(a: set<array<int>>, b: set<array<int>>, x: set<array<int>>, y: set<array<int>>,
                   a': set<array<int>>, b': set<array<int>>)
    requires a !! b && y !! a + b && x !! a + b + y && a' <= a + x && b' <= b + y
    ensures a' !! b' && a' <= a + (y + x) && b' <= b + (y + x)
  {
  }

  method Spend(a: Store, b: Store, j: string, k: string, l: Limits, t: int) returns (ok: bool, ghost added: set<array<int>>)
    requires Separate(a, b)
    modifies a, a.repr, b, b.repr
    ensures Separate(a, b) && fresh(added)
    ensures a.repr <= old(a.repr) + added && b.repr <= old(b.repr) + added
    ensures Spent(old(a.contents), old(b.contents), j, k, l, t, a.contents, b.contents, ok)
  {
    ghost var h, arrays := a.contents, a.repr;
    ShownAt(a.slices, a.contents, a.repr, j);
    SpentCases(h, b.contents, j, k, l, t);
    hide Shows, Squeezed, Spent;
    var recent := a.Recent(j, l.cutoff);
    OverwriteOne(h, j, l.cutoff, Elements(recent));
    OverwriteOne(h, j, l.cutoff, Elements(recent) + [t]);
    assert b.Valid();
    var count := if recent.Nil? then 0 else recent.len;
    if count >= l.first {
      a.Set(j, recent);
      assert a.repr <= arrays && b.Valid();
      return false, {};
    }
    ok, added := Charge(a, j, recent, b, k, l, t);
  }

  /** The second list, and the first one when the second has room. The order of the two writes cannot be seen
  under the limiter's mutex. */
  method Charge(a: Store, j: string, recent: Slice, b: Store, k: string, l: Limits, t: int)
    returns (ok: bool, ghost added: set<array<int>>)
    requires Separate(a, b) && Fits(recent) && Footprint(recent) == Own(a.slices, j)
    modifies a, a.repr, b, b.repr
    ensures Separate(a, b) && fresh(added)
    ensures a.repr <= old(a.repr) + added && b.repr <= old(b.repr) + added
    ensures a.contents == if ok then old(a.contents)[j := old(Elements(recent)) + [t]] else old(a.contents)
    ensures var y := Filter(At(old(b.contents), k), l.cutoff);
            ok == (|y| < l.second) && b.contents == old(b.contents)[k := y + if ok then [t] else []]
  {
    ShownAt(a.slices, a.contents, a.repr, j);
    ShownAt(b.slices, b.contents, b.repr, k);
    hide Shows;
    ghost var x, ra, rb := Elements(recent), a.repr, b.repr;
    ok, added := b.Admit(k, l.cutoff, t, l.second);
    assert added !! ra + rb;
    assert a.Valid() && Elements(recent) == x;
    ghost var more: set<array<int>> := {};
    if ok {
      more := a.Push(j, recent, t);
      assert more !! ra + rb + added;
    }
    StillApart(ra, rb, more, added, a.repr, b.repr);
    added := added + more;
  }
}
