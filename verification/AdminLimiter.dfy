/** The control plane's request limiter, per client IP and per admin account. */
module AdminLimiter {
  import opened SlidingWindow
  import opened HitStore
  import opened HitKeys

  datatype Config = Config(window: int, maxPerIP: int, maxPerAdmin: int)

  /** The settings with the defaults for non-positive ones. */
  function Settings(window: int, maxPerIP: int, maxPerAdmin: int): Config {
    Config(if window <= 0 then 60_000_000_000 else window,
           if maxPerIP <= 0 then 600 else maxPerIP,
           if maxPerAdmin <= 0 then 120 else maxPerAdmin)
  }

  datatype Call = Call(ip: string, admin: string, t: int)

  // ----- what one call does to the lists

  predicate Allows(c: Config, hits: Hits, q: Call) {
    && |Filter(At(hits, Text(Ip(q.ip))), q.t - c.window)| < c.maxPerIP
    && |Filter(At(hits, Text(Admin(q.admin))), q.t - c.window)| < c.maxPerAdmin
  }

  function Next(c: Config, hits: Hits, q: Call): Hits {
    var more := if Allows(c, hits, q) then [q.t] else [];
    Touched(Touched(hits, Ip(q.ip), q.t - c.window, more), Admin(q.admin), q.t - c.window, more)
  }

  function Run(c: Config, calls: seq<Call>): Hits {
    if calls == [] then map[] else Next(c, Run(c, calls[..|calls| - 1]), calls[|calls| - 1])
  }

  // ----- the full-history rule

  /** A call is admitted when, of all hits ever admitted, fewer than the limit of each of its keys lie in
  the window before it. */
  predicate Rule(c: Config, log: seq<Stamp>, q: Call) {
    Free(log, Ip(q.ip), q.t - c.window, c.maxPerIP) && Free(log, Admin(q.admin), q.t - c.window, c.maxPerAdmin)
  }

  /** Every hit ever admitted by that rule. */
  function Log(c: Config, calls: seq<Call>): seq<Stamp> {
    if calls == [] then []
    else
      var q := calls[|calls| - 1];
      var before := Log(c, calls[..|calls| - 1]);
      if Rule(c, before, q) then before + [Stamp(Ip(q.ip), q.t)] + [Stamp(Admin(q.admin), q.t)] else before
  }

  predicate Ordered(calls: seq<Call>) {
    forall i, j | 0 <= i < j < |calls| :: calls[i].t <= calls[j].t
  }

  lemma SameDecision(c: Config, hits: Hits, log: seq<Stamp>, q: Call, floor: int)
    requires Agrees(hits, log, AdminLimit, floor) && floor <= q.t - c.window
    ensures Allows(c, hits, q) == Rule(c, log, q)
  {
    assert Proper(Ip(q.ip), AdminLimit) && Proper(Admin(q.admin), AdminLimit);
    hide Filter, Times, Text;
  }

  lemma AdmitAgrees(c: Config, hits: Hits, log: seq<Stamp>, q: Call, floor: int)
    requires Agrees(hits, log, AdminLimit, floor) && floor <= q.t - c.window && Allows(c, hits, q)
    ensures Agrees(Next(c, hits, q), log + [Stamp(Ip(q.ip), q.t)] + [Stamp(Admin(q.admin), q.t)], AdminLimit, q.t - c.window)
  {
    hide Agrees, Touched, Allows;
    var cutoff := q.t - c.window;
    RecordAgrees(hits, log, AdminLimit, floor, Ip(q.ip), cutoff, q.t);
    var hits', log' := Touched(hits, Ip(q.ip), cutoff, [q.t]), log + [Stamp(Ip(q.ip), q.t)];
    RecordAgrees(hits', log', AdminLimit, cutoff, Admin(q.admin), cutoff, q.t);
  }

  lemma RefuseAgrees(c: Config, hits: Hits, log: seq<Stamp>, q: Call, floor: int)
    requires Agrees(hits, log, AdminLimit, floor) && floor <= q.t - c.window && !Allows(c, hits, q)
    ensures Agrees(Next(c, hits, q), log, AdminLimit, q.t - c.window)
  {
    hide Agrees, Touched, Allows;
    var cutoff := q.t - c.window;
    PruneAgrees(hits, log, AdminLimit, floor, Ip(q.ip), cutoff);
    PruneAgrees(Touched(hits, Ip(q.ip), cutoff, []), log, AdminLimit, cutoff, Admin(q.admin), cutoff);
  }

  lemma {:induction false} RunAgrees(c: Config, calls: seq<Call>, floor: int)
    requires Ordered(calls) && (calls != [] ==> floor >= calls[|calls| - 1].t - c.window)
    ensures Agrees(Run(c, calls), Log(c, calls), AdminLimit, floor)
  {
    if calls != [] {
      var n := |calls| - 1;
      var q := calls[n];
      var hits, log := Run(c, calls[..n]), Log(c, calls[..n]);
      RunAgrees(c, calls[..n], q.t - c.window);
      SameDecision(c, hits, log, q, q.t - c.window);
      if Allows(c, hits, q) {
        AdmitAgrees(c, hits, log, q, q.t - c.window);
      } else {
        RefuseAgrees(c, hits, log, q, q.t - c.window);
      }
      AgreesLater(Run(c, calls), Log(c, calls), AdminLimit, q.t - c.window, floor);
      hide Agrees, Allows, Rule, Next;
    }
  }

  /** For every sequence of calls whose times do not decrease, the decision taken on the lists filtered in
  place is the decision of the full-history rule. */
  lemma DecisionIsFullHistory(c: Config, calls: seq<Call>, q: Call)
    requires Ordered(calls + [q])
    ensures Allows(c, Run(c, calls), q) == Rule(c, Log(c, calls), q)
  {
    assert forall i :: 0 <= i < |calls| ==> (calls + [q])[i] == calls[i];
    assert (calls + [q])[|calls|] == q;
    RunAgrees(c, calls, q.t - c.window);
    SameDecision(c, Run(c, calls), Log(c, calls), q, q.t - c.window);
  }

  lemma AdmittedTimes(log: seq<Stamp>, q: Call, k: Key)
    ensures Times(log + [Stamp(Ip(q.ip), q.t)] + [Stamp(Admin(q.admin), q.t)], k) ==
            if k == Ip(q.ip) || k == Admin(q.admin) then Times(log, k) + [q.t] else Times(log, k)
  {
    TimesAppend(log, Stamp(Ip(q.ip), q.t), k);
    TimesAppend(log + [Stamp(Ip(q.ip), q.t)], Stamp(Admin(q.admin), q.t), k);
    hide Times;
  }

  /** That rule never admits more than the limits in any window. */
  lemma {:induction false} WindowsAreBounded(c: Config, calls: seq<Call>, k: Key)
    requires c.maxPerIP >= 0 && c.maxPerAdmin >= 0 && Proper(k, AdminLimit)
    ensures Bounded(Times(Log(c, calls), k), c.window, if k.Ip? then c.maxPerIP else c.maxPerAdmin)
  {
    if calls != [] {
      var n := |calls| - 1;
      var q, before := calls[n], Log(c, calls[..n]);
      WindowsAreBounded(c, calls[..n], k);
      if Rule(c, before, q) {
        AdmittedTimes(before, q, k);
        hide Bounded, Times;
        if k == Ip(q.ip) || k == Admin(q.admin) {
          BoundedStep(Times(before, k), c.window, if k.Ip? then c.maxPerIP else c.maxPerAdmin, q.t);
        }
      }
    }
  }

  // ----- the limiter

  /** Both lists filtered and stored, with the new hit if there is one. */
  function Stored(hits: Hits, a: string, b: string, cutoff: int, more: seq<int>): Hits {
    hits[a := Filter(At(hits, a), cutoff) + more][b := Filter(At(hits, b), cutoff) + more]
  }

  lemma StoredIs(before: Hits, compacted: Hits, a: string, b: string, cutoff: int, t: int)
    requires compacted - {a, b} == before - {a, b}
    ensures var x, y := Filter(At(before, a), cutoff), Filter(At(before, b), cutoff);
            && Stored(before, a, b, cutoff, []) == compacted[a := x][b := y]
            && Stored(before, a, b, cutoff, [t]) == compacted[a := x + [t]][b := y + [t]]
  {
    var x, y := Filter(At(before, a), cutoff), Filter(At(before, b), cutoff);
    assert x + [] == x && y + [] == y;
    hide Filter;
    Overwrite(before, compacted, a, b, x, y);
    Overwrite(before, compacted, a, b, x + [t], y + [t]);
  }

  lemma NextIs(c: Config, hits: Hits, q: Call, a: string, b: string)
    requires a == Text(Ip(q.ip)) && b == Text(Admin(q.admin))
    ensures var x, y := Filter(At(hits, a), q.t - c.window), Filter(At(hits, b), q.t - c.window);
            && a != b
            && Allows(c, hits, q) == (|x| < c.maxPerIP && |y| < c.maxPerAdmin)
            && Next(c, hits, q) == Stored(hits, a, b, q.t - c.window, if Allows(c, hits, q) then [q.t] else [])
  {
    assert a[0] == 'i' && b[0] == 'a';
    hide Filter;
  }

  class AdminRateLimiter {
    const config: Config
    const hits: Store

    ghost predicate Valid() reads hits, hits.repr {
      hits.Valid()
    }

    constructor (window: int, maxPerIP: int, maxPerAdmin: int)
      ensures Valid() && fresh(hits) && hits.repr == {} && hits.contents == map[]
      ensures config == Settings(window, maxPerIP, maxPerAdmin)
    {
      config := Settings(window, maxPerIP, maxPerAdmin);
      hits := new Store();
    }

    /** The decision on two lists, and the lists it leaves. */
    method Decide(a: string, b: string, cutoff: int, t: int) returns (ok: bool, ghost added: set<array<int>>)
      requires hits.Valid() && a != b
      modifies hits, hits.repr
      ensures hits.Valid() && fresh(added) && hits.repr <= old(hits.repr) + added
      ensures var x, y := Filter(At(old(hits.contents), a), cutoff), Filter(At(old(hits.contents), b), cutoff);
              ok == (|x| < config.maxPerIP && |y| < config.maxPerAdmin)
      ensures hits.contents == Stored(old(hits.contents), a, b, cutoff, if ok then [t] else [])
    {
      ghost var before := hits.contents;
      OwnApart(hits.slices, hits.contents, hits.repr, a, b);
      hide Filter, Shows;
      var ipHits, adminHits := hits.RecentBoth(a, b, cutoff);
      StoredIs(before, hits.contents, a, b, cutoff, t);
      hide Stored;
      var ipCount := if ipHits.Nil? then 0 else ipHits.len;
      var adminCount := if adminHits.Nil? then 0 else adminHits.len;
      if ipCount >= config.maxPerIP || adminCount >= config.maxPerAdmin {
        hits.SetBoth(a, ipHits, b, adminHits);
        return false, {};
      }
      added := hits.PushBoth(a, ipHits, b, adminHits, t);
      ok := true;
    }

    method Allow(ip: string, adminID: string, t: int) returns (ok: bool, ghost added: set<array<int>>)
      requires Valid()
      modifies hits, hits.repr
      ensures Valid() && fresh(added) && hits.repr <= old(hits.repr) + added
      ensures ok == Allows(config, old(hits.contents), Call(ip, adminID, t))
      ensures hits.contents == Next(config, old(hits.contents), Call(ip, adminID, t))
    {
      var ipKey, adminKey := "ip:" + ip, "admin:" + adminID;
      NextIs(config, hits.contents, Call(ip, adminID, t), ipKey, adminKey);
      hide Next, Allows, Filter, Text, Shows, Stored;
      ok, added := Decide(ipKey, adminKey, t - config.window, t);
    }
  }

  /** Every decision is the full-history rule's. */
  ghost predicate FullHistory(c: Config, calls: seq<Call>, decisions: seq<bool>) {
    |decisions| == |calls| && forall i :: 0 <= i < |calls| ==> decisions[i] == Rule(c, Log(c, calls[..i]), calls[i])
  }

  /** The times of the admitted calls from an IP or of an administrator. */
  function Admitted(calls: seq<Call>, decisions: seq<bool>, k: Key): seq<int>
    requires |decisions| == |calls|
  {
    if calls == [] then []
    else
      var n := |calls| - 1;
      var q := calls[n];
      Admitted(calls[..n], decisions[..n], k) + if decisions[n] && (k == Ip(q.ip) || k == Admin(q.admin)) then [q.t] else []
  }

  lemma {:induction false} AdmittedAreLogged(c: Config, calls: seq<Call>, decisions: seq<bool>, k: Key)
    requires FullHistory(c, calls, decisions)
    ensures Admitted(calls, decisions, k) == Times(Log(c, calls), k)
  {
    if calls != [] {
      var n := |calls| - 1;
      forall i | 0 <= i < n ensures calls[..n][..i] == calls[..i] {
      }
      AdmittedAreLogged(c, calls[..n], decisions[..n], k);
      assert decisions[n] == Rule(c, Log(c, calls[..n]), calls[n]);
      AdmittedTimes(Log(c, calls[..n]), calls[n], k);
      hide Rule, Times;
    }
  }

  /** No window has more admitted calls than its limit. */
  ghost predicate WithinLimits(c: Config, calls: seq<Call>, decisions: seq<bool>)
    requires |decisions| == |calls|
  {
    && (forall ip :: Bounded(Admitted(calls, decisions, Ip(ip)), c.window, c.maxPerIP))
    && (forall admin :: Bounded(Admitted(calls, decisions, Admin(admin)), c.window, c.maxPerAdmin))
  }

  lemma AdmittedAreBounded(c: Config, calls: seq<Call>, decisions: seq<bool>)
    requires c.maxPerIP >= 0 && c.maxPerAdmin >= 0 && FullHistory(c, calls, decisions)
    ensures WithinLimits(c, calls, decisions)
  {
    assert |decisions| == |calls|;
    hide Admitted, Bounded, Log, Times;
    forall ip ensures Bounded(Admitted(calls, decisions, Ip(ip)), c.window, c.maxPerIP) {
      AdmittedAreLogged(c, calls, decisions, Ip(ip));
      WindowsAreBounded(c, calls, Ip(ip));
    }
    forall admin ensures Bounded(Admitted(calls, decisions, Admin(admin)), c.window, c.maxPerAdmin) {
      AdmittedAreLogged(c, calls, decisions, Admin(admin));
      WindowsAreBounded(c, calls, Admin(admin));
    }
  }

  /** The lists after some calls, and the decisions taken on the way. */
  ghost predicate Served(c: Config, calls: seq<Call>, hits: Hits, decisions: seq<bool>) {
    hits == Run(c, calls) && FullHistory(c, calls, decisions)
  }

  lemma ServedStep(c: Config, calls: seq<Call>, hits: Hits, decisions: seq<bool>, q: Call)
    requires Served(c, calls, hits, decisions) && Ordered(calls + [q])
    ensures Served(c, calls + [q], Next(c, hits, q), decisions + [Allows(c, hits, q)])
  {
    hide Run, Log, Rule, Next, Allows;
    DecisionIsFullHistory(c, calls, q);
    RunStep(c, calls, q);
    var more, ok := calls + [q], decisions + [Allows(c, hits, q)];
    forall i | 0 <= i < |more| ensures ok[i] == Rule(c, Log(c, more[..i]), more[i]) {
      assert more[..i] == calls[..i];
      assert i == |calls| ==> calls[..i] == calls;
    }
  }

  lemma RunStep(c: Config, calls: seq<Call>, q: Call)
    ensures Run(c, calls + [q]) == Next(c, Run(c, calls), q)
  {
    assert (calls + [q])[..|calls|] == calls;
  }

  lemma OrderedPrefix(calls: seq<Call>, n: nat)
    requires Ordered(calls) && n < |calls|
    ensures calls[..n + 1] == calls[..n] + [calls[n]] && Ordered(calls[..n] + [calls[n]])
  {
  }

  /** A limiter asked once for each call. Positive settings are used as they are; without any, an IP has 600
  requests and an admin 120 in a minute. */
  method Serve(window: int, maxPerIP: int, maxPerAdmin: int, calls: seq<Call>) returns (decisions: seq<bool>)
    requires Ordered(calls)
    ensures FullHistory(Settings(window, maxPerIP, maxPerAdmin), calls, decisions)
    ensures WithinLimits(Settings(window, maxPerIP, maxPerAdmin), calls, decisions)
    ensures window > 0 && maxPerIP > 0 && maxPerAdmin > 0 ==> FullHistory(Config(window, maxPerIP, maxPerAdmin), calls, decisions)
    ensures window <= 0 && maxPerIP <= 0 && maxPerAdmin <= 0 ==> FullHistory(Config(60_000_000_000, 600, 120), calls, decisions)
  {
    var limiter := new AdminRateLimiter(window, maxPerIP, maxPerAdmin);
    decisions := [];
    assert calls[..0] == [];
    for i := 0 to |calls|
      invariant limiter.Valid() && fresh(limiter.hits) && fresh(limiter.hits.repr)
      invariant Served(limiter.config, calls[..i], limiter.hits.contents, decisions)
    {
      hide Served, Next, Allows, Shows, Ordered, FullHistory;
      OrderedPrefix(calls, i);
      ServedStep(limiter.config, calls[..i], limiter.hits.contents, decisions, calls[i]);
      var ok;
      ghost var added;
      ok, added := limiter.Allow(calls[i].ip, calls[i].admin, calls[i].t);
      decisions := decisions + [ok];
    }
    assert calls[..|calls|] == calls;
    AdmittedAreBounded(limiter.config, calls, decisions);
    hide FullHistory, WithinLimits;
  }
}
