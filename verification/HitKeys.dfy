/** The keys under which the admin and the login limiter count, the text they have in the map, and the
full history of hits that the filtered lists are compared with. */
module HitKeys {
  import opened SlidingWindow
  import opened HitStore

  /** Ip and Admin belong to the admin limiter, Client and Account to the login limiter. */
  datatype Key = Ip(ip: string) | Admin(id: string) | Client(ip: string) | Account(ip: string, user: string)

  datatype Limiter = AdminLimit | LoginLimit

  function Text(k: Key): string {
    match k
    case Ip(ip) => "ip:" + ip
    case Admin(id) => "admin:" + id
    case Client(ip) => ip
    case Account(ip, user) => ip + "|" + user
  }

  /** The keys of one limiter; an IP has no bar in its text. */
  predicate Proper(k: Key, l: Limiter) {
    if l == AdminLimit then k.Ip? || k.Admin? else (k.Client? || k.Account?) && '|' !in k.ip
  }

  lemma {:induction false} BarSplits(a: string, x: string, b: string, y: string)
    requires '|' !in a && '|' !in b
    requires (x == "" || x[0] == '|') && (y == "" || y[0] == '|') && a + x == b + y
    ensures a == b && x == y
  {
    assert a != "" ==> (a + x)[0] == a[0];
    assert b != "" ==> (b + y)[0] == b[0];
    assert a == "" ==> a + x == x;
    assert b == "" ==> b + y == y;
    if a != "" {
      assert a[1..] + x == (a + x)[1..] && b[1..] + y == (b + y)[1..];
      BarSplits(a[1..], x, b[1..], y);
      assert a == [a[0]] + a[1..] && b == [b[0]] + b[1..];
    }
  }

  /** Two keys of a limiter never share a list. */
  lemma TextInjective(j: Key, k: Key, l: Limiter)
    requires Proper(j, l) && Proper(k, l) && Text(j) == Text(k)
    ensures j == k
  {
    if l == LoginLimit {
      var x := if j.Client? then "" else "|" + j.user;
      var y := if k.Client? then "" else "|" + k.user;
      assert Text(j) == j.ip + x && Text(k) == k.ip + y;
      BarSplits(j.ip, x, k.ip, y);
      assert j.Account? && k.Account? ==> j.user == x[1..] && k.user == y[1..];
    } else {
      assert j.Ip? ==> Text(j)[0] == 'i' && Text(j)[3..] == j.ip;
      assert k.Ip? ==> Text(k)[0] == 'i' && Text(k)[3..] == k.ip;
      assert j.Admin? ==> Text(j)[0] == 'a' && Text(j)[6..] == j.id;
      assert k.Admin? ==> Text(k)[0] == 'a' && Text(k)[6..] == k.id;
    }
  }

  // ----- the full history

  datatype Stamp = Stamp(key: Key, t: int)

  /** The times of the admitted hits of one key. */
  function Times(log: seq<Stamp>, k: Key): seq<int> {
    if log == [] then []
    else Times(log[..|log| - 1], k) + if log[|log| - 1].key == k then [log[|log| - 1].t] else []
  }

  lemma TimesAppend(log: seq<Stamp>, s: Stamp, k: Key)
    ensures Times(log + [s], k) == Times(log, k) + if s.key == k then [s.t] else []
  {
    assert (log + [s])[..|log|] == log;
  }

  /** Fewer than `limit` admitted hits of the key lie in the window before t. */
  predicate Free(log: seq<Stamp>, k: Key, cutoff: int, limit: int) {
    |Filter(Times(log, k), cutoff)| < limit
  }

  /** From the floor on, the kept lists and the full history hold the same hits. */
  ghost predicate Agrees(hits: Hits, log: seq<Stamp>, l: Limiter, floor: int) {
    forall k, cutoff :: Proper(k, l) && cutoff >= floor ==>
      Filter(At(hits, Text(k)), cutoff) == Filter(Times(log, k), cutoff)
  }

  lemma AgreesLater(hits: Hits, log: seq<Stamp>, l: Limiter, floor: int, later: int)
    requires Agrees(hits, log, l, floor) && floor <= later
    ensures Agrees(hits, log, l, later)
  {
  }

  /** A list filtered and stored, with at most one new hit. */
  function Touched(hits: Hits, k: Key, cutoff: int, more: seq<int>): Hits {
    hits[Text(k) := Filter(At(hits, Text(k)), cutoff) + more]
  }

  lemma TouchedAt(hits: Hits, log: seq<Stamp>, k: Key, floor: int, l: Limiter, cutoff: int, later: int)
    requires Agrees(hits, log, l, floor) && Proper(k, l) && floor <= cutoff <= later
    ensures Filter(Filter(At(hits, Text(k)), cutoff), later) == Filter(Times(log, k), later)
  {
    FilterTwice(At(hits, Text(k)), cutoff, later);
  }

  /** Filtering one list keeps the agreement. */
  lemma PruneAgrees(hits: Hits, log: seq<Stamp>, l: Limiter, floor: int, k: Key, cutoff: int)
    requires Agrees(hits, log, l, floor) && Proper(k, l) && floor <= cutoff
    ensures Agrees(Touched(hits, k, cutoff, []), log, l, cutoff)
  {
    forall j, later | Proper(j, l) && later >= cutoff
      ensures Filter(At(Touched(hits, k, cutoff, []), Text(j)), later) == Filter(Times(log, j), later)
    {
      assert Filter(At(hits, Text(k)), cutoff) + [] == Filter(At(hits, Text(k)), cutoff);
      TouchedAt(hits, log, k, floor, l, cutoff, later);
      if Text(j) == Text(k) {
        TextInjective(j, k, l);
      }
    }
  }

  /** So does recording a hit in the list and in the history. */
  lemma RecordAgrees(hits: Hits, log: seq<Stamp>, l: Limiter, floor: int, k: Key, cutoff: int, t: int)
    requires Agrees(hits, log, l, floor) && Proper(k, l) && floor <= cutoff
    ensures Agrees(Touched(hits, k, cutoff, [t]), log + [Stamp(k, t)], l, cutoff)
  {
    forall j, later | Proper(j, l) && later >= cutoff
      ensures Filter(At(Touched(hits, k, cutoff, [t]), Text(j)), later) == Filter(Times(log + [Stamp(k, t)], j), later)
    {
      TimesAppend(log, Stamp(k, t), j);
      if Text(j) == Text(k) {
        TextInjective(j, k, l);
        TouchedAt(hits, log, k, floor, l, cutoff, later);
        FilterAppend(Filter(At(hits, Text(k)), cutoff), t, later);
        FilterAppend(Times(log, k), t, later);
      } else {
        assert Times(log, j) + [] == Times(log, j);
      }
    }
  }
}
