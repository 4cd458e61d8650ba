/** String helpers the Go sources take from `strings` and `sort`, with the laws the models need. */
module Text {

  /** `strings.Split` for a one-character separator. */
  function Split(s: string, sep: char): (parts: seq<string>)
    ensures |parts| >= 1
  {
    if s == "" then [""]
    else
      var rest := Split(s[1..], sep);
      if s[0] == sep then [""] + rest else [[s[0]] + rest[0]] + rest[1..]
  }

  lemma {:induction false} SplitOfAtom(s: string, sep: char)
    requires sep !in s
    ensures Split(s, sep) == [s]
  {
    if s != "" {
      SplitOfAtom(s[1..], sep);
      assert [s[0]] + s[1..] == s;
    }
  }

  /** `strings.Contains` at a position. */
  predicate OccursAt(text: string, p: string, k: int) {
    0 <= k <= |text| - |p| && forall j | 0 <= j < |p| :: text[k + j] == p[j]
  }

  // ----- the order of sort.Strings

  predicate Less(a: string, b: string) {
    b != "" && (a == "" || a[0] < b[0] || (a[0] == b[0] && Less(a[1..], b[1..])))
  }

  lemma {:induction false} LessTotal(a: string, b: string)
    ensures a == b || Less(a, b) || Less(b, a)
  {
    if a != "" && b != "" && a[0] == b[0] {
      LessTotal(a[1..], b[1..]);
      assert a == [a[0]] + a[1..] && b == [b[0]] + b[1..];
    }
  }

  lemma {:induction false} LessTransitive(a: string, b: string, c: string)
    requires Less(a, b) && Less(b, c)
    ensures Less(a, c)
  {
    if a != "" && a[0] == b[0] && b[0] == c[0] {
      LessTransitive(a[1..], b[1..], c[1..]);
    }
  }

  lemma {:induction false} LessIrreflexive(a: string)
    ensures !Less(a, a)
  {
    if a != "" {
      LessIrreflexive(a[1..]);
    }
  }

  ghost predicate StrictlySorted(keys: seq<string>) {
    forall i, j :: 0 <= i < j < |keys| ==> Less(keys[i], keys[j])
  }

  lemma SortedIsDistinct(keys: seq<string>)
    requires StrictlySorted(keys)
    ensures forall i, j :: 0 <= i < j < |keys| ==> keys[i] != keys[j]
  {
    forall i, j | 0 <= i < j < |keys| ensures keys[i] != keys[j] {
      LessIrreflexive(keys[i]);
    }
  }

  lemma SameLast(a: seq<string>, b: seq<string>)
    requires StrictlySorted(a) && StrictlySorted(b) && a != [] && b != [] && forall k :: k in a <==> k in b
    ensures a[|a| - 1] == b[|b| - 1]
  {
    var x, y := a[|a| - 1], b[|b| - 1];
    assert y in b && x in a;
    assert y in a && x in b;
    var i :| 0 <= i < |a| && a[i] == y;
    var j :| 0 <= j < |b| && b[j] == x;
    assert i < |a| - 1 ==> Less(y, x);
    assert j < |b| - 1 ==> Less(x, y);
    if i < |a| - 1 && j < |b| - 1 {
      LessTransitive(x, y, x);
      LessIrreflexive(x);
    }
  }

  lemma WithoutLast(a: seq<string>, m: nat, k: string)
    requires StrictlySorted(a) && |a| == m + 1
    ensures StrictlySorted(a[..m]) && a == a[..m] + [a[m]]
    ensures k in a[..m] <==> k in a && k != a[m]
  {
    SortedIsDistinct(a);
    assert a == a[..m] + [a[m]];
  }

  lemma BothEmpty(a: seq<string>, b: seq<string>)
    requires forall k :: k in a <==> k in b
    ensures a == [] <==> b == []
  {
    if a != [] {
      assert a[0] in a;
    }
    if b != [] {
      assert b[0] in b;
    }
  }

  /** There is one way to list a set of keys in order. */
  lemma {:induction false} SortedUnique(a: seq<string>, b: seq<string>)
    requires StrictlySorted(a) && StrictlySorted(b) && forall k :: k in a <==> k in b
    ensures a == b
  {
    BothEmpty(a, b);
    if a != [] {
      SameLast(a, b);
      hide StrictlySorted;
      var m, n := |a| - 1, |b| - 1;
      forall k ensures k in a[..m] <==> k in b[..n] {
        WithoutLast(a, m, k);
        WithoutLast(b, n, k);
      }
      WithoutLast(a, m, a[m]);
      WithoutLast(b, n, b[n]);
      SortedUnique(a[..m], b[..n]);
    }
  }

  lemma {:induction false} SortedCount(sorted: seq<string>, keys: set<string>)
    requires StrictlySorted(sorted) && forall k :: k in sorted <==> k in keys
    ensures |sorted| == |keys|
  {
    if sorted == [] {
      assert keys == {};
    } else {
      var last := sorted[|sorted| - 1];
      var rest := sorted[..|sorted| - 1];
      assert sorted == rest + [last];
      SortedIsDistinct(sorted);
      assert last !in rest;
      assert last in keys;
      SortedCount(rest, keys - {last});
    }
  }

  /** The sorted keys of a map (`sortedKeys` in the comparator, `sort.Strings` in the config diff). */
  method SortedKeys(keys: set<string>) returns (sorted: seq<string>)
    ensures StrictlySorted(sorted)
    ensures forall k :: k in sorted <==> k in keys
  {
    sorted := [];
    var todo := keys;
    while todo != {}
      invariant StrictlySorted(sorted)
      invariant todo <= keys
      invariant forall k :: k in sorted <==> k in keys - todo
      decreases todo
    {
      var key :| key in todo;
      var at := 0;
      while at < |sorted| && Less(sorted[at], key)
        invariant 0 <= at <= |sorted|
        invariant forall i :: 0 <= i < at ==> Less(sorted[i], key)
      {
        at := at + 1;
      }
      InsertKeepsOrder(sorted, at, key);
      assert sorted == sorted[..at] + sorted[at..];
      assert forall k :: k in sorted <==> k in sorted[..at] || k in sorted[at..];
      sorted := sorted[..at] + [key] + sorted[at..];
      todo := todo - {key};
    }
  }

  lemma InsertKeepsOrder(sorted: seq<string>, at: nat, key: string)
    requires StrictlySorted(sorted) && key !in sorted && at <= |sorted|
    requires forall i :: 0 <= i < at ==> Less(sorted[i], key)
    requires at == |sorted| || !Less(sorted[at], key)
    ensures StrictlySorted(sorted[..at] + [key] + sorted[at..])
  {
    forall j | at <= j < |sorted| ensures Less(key, sorted[j]) {
      LessTotal(key, sorted[at]);
      if j > at {
        LessTransitive(key, sorted[at], sorted[j]);
      }
    }
  }
}
