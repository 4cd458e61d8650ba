/** The login limiter: attempts per client IP, failures per (IP, username), and the coalescing of reports
about denied requests. */
module LoginLimiter {
  import opened SlidingWindow
  import opened HitStore
  import opened HitKeys

  datatype Config = Config(window: int, maxFailures: int, maxPerIP: int)

  /** The settings with the defaults for non-positive ones. */
  function Settings(window: int, maxFailures: int, maxPerIP: int): Config {
    Config(if window <= 0 then 900_000_000_000 else window,
           if maxFailures <= 0 then 5 else maxFailures,
           if maxPerIP <= 0 then 20 else maxPerIP)
  }

  /** One recording call of `allow`: Client(ip) from IPAllowed, Account(ip, user) from AccountBlocked. */
  datatype Call = Call(key: Key, t: int)

  function Limit(c: Config, k: Key): int {
    if k.Client? then c.maxPerIP else c.maxFailures
  }

  predicate Allows(c: Config, hits: Hits, q: Call) {
    |Filter(At(hits, Text(q.key)), q.t - c.window)| < Limit(c, q.key)
  }

  function Next(c: Config, hits: Hits, q: Call): Hits {
    Touched(hits, q.key, q.t - c.window, if Allows(c, hits, q) then [q.t] else [])
  }

  function Run(c: Config, calls: seq<Call>): Hits {
    if calls == [] then map[] else Next(c, Run(c, calls[..|calls| - 1]), calls[|calls| - 1])
  }

  /** The full-history rule: fewer hits of the key in the window than its limit. */
  predicate Rule(c: Config, log: seq<Stamp>, q: Call) {
    Free(log, q.key, q.t - c.window, Limit(c, q.key))
  }

  /** Every hit ever recorded by that rule. */
  function Log(c: Config, calls: seq<Call>): seq<Stamp> {
    if calls == [] then []
    else
      var q := calls[|calls| - 1];
      var before := Log(c, calls[..|calls| - 1]);
      if Rule(c, before, q) then before + [Stamp(q.key, q.t)] else before
  }

  /** Times do not decrease, and no IP has a bar in its text. */
  predicate Regular(calls: seq<Call>) {
    && (forall i, j | 0 <= i < j < |calls| :: calls[i].t <= calls[j].t)
    && (forall i | 0 <= i < |calls| :: Proper(calls[i].key, LoginLimit))
  }

  lemma StepAgrees(c: Config, hits: Hits, log: seq<Stamp>, q: Call, floor: int)
    requires Agrees(hits, log, LoginLimit, floor) && floor <= q.t - c.window && Proper(q.key, LoginLimit)
    ensures Agrees(Next(c, hits, q), if Allows(c, hits, q) then log + [Stamp(q.key, q.t)] else log, LoginLimit, q.t - c.window)
  {
    hide Agrees, Touched, Allows;
    var cutoff := q.t - c.window;
    PruneAgrees(hits, log, LoginLimit, floor, q.key, cutoff);
    RecordAgrees(hits, log, LoginLimit, floor, q.key, cutoff, q.t);
  }

  lemma RegularPrefix(calls: seq<Call>, n: nat)
    requires Regular(calls) && n + 1 == |calls|
    ensures Regular(calls[..n]) && Proper(calls[n].key, LoginLimit)
    ensures n > 0 ==> calls[..n][n - 1].t <= calls[n].t
  {
  }

  lemma RunLast(c: Config, calls: seq<Call>, n: nat)
    requires n + 1 == |calls|
    ensures Run(c, calls) == Next(c, Run(c, calls[..n]), calls[n])
  {
    hide Next;
  }

  lemma LogLast(c: Config, calls: seq<Call>, n: nat)
    requires n + 1 == |calls|
    ensures Log(c, calls) ==
            if Rule(c, Log(c, calls[..n]), calls[n])
            then Log(c, calls[..n]) + [Stamp(calls[n].key, calls[n].t)] else Log(c, calls[..n])
  {
    hide Rule;
  }

  /** The last call of a run, from lists that agree with the history before it. */
  lemma LastAgrees(c: Config, calls: seq<Call>, n: nat)
    requires n + 1 == |calls| && Proper(calls[n].key, LoginLimit)
    requires Agrees(Run(c, calls[..n]), Log(c, calls[..n]), LoginLimit, calls[n].t - c.window)
    ensures Agrees(Run(c, calls), Log(c, calls), LoginLimit, calls[n].t - c.window)
  {
    hide Agrees, Allows, Rule, Next, Proper, Run, Log;
    RunLast(c, calls, n);
    LogLast(c, calls, n);
    SameDecision(c, Run(c, calls[..n]), Log(c, calls[..n]), calls[n], calls[n].t - c.window);
    StepAgrees(c, Run(c, calls[..n]), Log(c, calls[..n]), calls[n], calls[n].t - c.window);
  }

  lemma {:induction false} RunAgrees(c: Config, calls: seq<Call>, floor: int)
    requires Regular(calls) && (calls != [] ==> floor >= calls[|calls| - 1].t - c.window)
    ensures Agrees(Run(c, calls), Log(c, calls), LoginLimit, floor)
  {
    if calls != [] {
      hide Regular, Agrees, Proper, Run, Log;
      var n := |calls| - 1;
      RegularPrefix(calls, n);
      RunAgrees(c, calls[..n], calls[n].t - c.window);
      LastAgrees(c, calls, n);
      AgreesLater(Run(c, calls), Log(c, calls), LoginLimit, calls[n].t - c.window, floor);
    }
  }

  lemma SameDecision(c: Config, hits: Hits, log: seq<Stamp>, q: Call, floor: int)
    requires Agrees(hits, log, LoginLimit, floor) && floor <= q.t - c.window && Proper(q.key, LoginLimit)
    ensures Allows(c, hits, q) == Rule(c, log, q)
  {
    hide Filter, Times, Text, Limit;
  }

  /** The decision on the lists filtered in place is the full-history rule's. */
  lemma DecisionIsFullHistory(c: Config, calls: seq<Call>, q: Call)
    requires Regular(calls + [q])
    ensures Allows(c, Run(c, calls), q) == Rule(c, Log(c, calls), q)
  {
    assert forall i :: 0 <= i < |calls| ==> (calls + [q])[i] == calls[i];
    assert (calls + [q])[|calls|] == q;
    RunAgrees(c, calls, q.t - c.window);
    SameDecision(c, Run(c, calls), Log(c, calls), q, q.t - c.window);
  }

  lemma {:induction false} WindowsAreBounded(c: Config, calls: seq<Call>, k: Key)
    requires Limit(c, k) >= 0
    ensures Bounded(Times(Log(c, calls), k), c.window, Limit(c, k))
  {
    if calls != [] {
      var n := |calls| - 1;
      var q, before := calls[n], Log(c, calls[..n]);
      WindowsAreBounded(c, calls[..n], k);
      TimesAppend(before, Stamp(q.key, q.t), k);
      assert Times(before, k) + [] == Times(before, k);
      hide Bounded, Times;
      if k == q.key && Free(before, k, q.t - c.window, Limit(c, k)) {
        BoundedStep(Times(before, k), c.window, Limit(c, k), q.t);
      }
    }
  }

  /** Without the condition on IPs the lists collide: an attempt from "a|b" counts as a failure of (a, b). */
  lemma BarInIpCollides(c: Config)
    requires c.window > 1 && c.maxFailures == 1 && c.maxPerIP >= 1
    ensures var calls, q := [Call(Client("a|b"), 0)], Call(Account("a", "b"), 1);
            !Allows(c, Run(c, calls), q) && Rule(c, Log(c, calls), q)
  {
    var first, q := Call(Client("a|b"), 0), Call(Account("a", "b"), 1);
    assert Text(first.key) == Text(q.key) == "a|b";
    FirstHit(c, first);
    assert [0][..0] == [] && Filter([0], 1 - c.window) == [0];
    assert [Stamp(first.key, 0)][..0] == [] && Times([Stamp(first.key, 0)], q.key) == [];
    hide Run, Log, Text;
  }

  lemma FirstHit(c: Config, q: Call)
    requires Limit(c, q.key) >= 1
    ensures Run(c, [q]) == map[Text(q.key) := [q.t]] && Log(c, [q]) == [Stamp(q.key, q.t)]
  {
    assert [q][..0] == [];
    assert Run(c, []) == map[] && Log(c, []) == [];
    assert Run(c, [q]) == Next(c, map[], q);
    assert [] + [q.t] == [q.t];
    assert Filter(At(map[], Text(q.key)), q.t - c.window) == [] && Filter(Times([], q.key), q.t - c.window) == [];
  }

  class LoginLimiter {
    const config: Config
    const hits: Store
    var reported: map<string, int>

    ghost predicate Valid() reads hits, hits.repr {
      hits.Valid()
    }

    constructor (window: int, maxFailures: int, maxPerIP: int)
      ensures Valid() && fresh(hits) && hits.repr == {} && hits.contents == map[] && reported == map[]
      ensures config == Settings(window, maxFailures, maxPerIP)
    {
      config := Settings(window, maxFailures, maxPerIP);
      hits := new Store();
      reported := map[];
    }

    /** Without `record` nothing is stored, but the key's list has been compacted in its array. */
    method Allow(key: string, t: int, limit: int, record: bool) returns (ok: bool, ghost added: set<array<int>>)
      requires Valid()
      modifies hits, hits.repr
      ensures Valid() && fresh(added) && hits.repr <= old(hits.repr) + added
      ensures ok == (|Filter(At(old(hits.contents), key), t - config.window)| < limit)
      ensures record ==> var x := Filter(At(old(hits.contents), key), t - config.window);
                         hits.contents == old(hits.contents)[key := x + if ok then [t] else []]
      ensures !record ==> hits.contents == Squeezed(old(hits.contents), key, t - config.window)
    {
      ShownAt(hits.slices, hits.contents, hits.repr, key);
      hide Shows, Filter;
      if record {
        ok, added := hits.Admit(key, t - config.window, t, limit);
      } else {
        var recent := hits.Recent(key, t - config.window);
        ok, added := (if recent.Nil? then 0 else recent.len) < limit, {};
      }
    }

    method IPAllowed(ip: string, t: int) returns (ok: bool, ghost added: set<array<int>>)
      requires Valid()
      modifies hits, hits.repr
      ensures Valid() && fresh(added) && hits.repr <= old(hits.repr) + added
      ensures ok == Allows(config, old(hits.contents), Call(Client(ip), t))
      ensures hits.contents == Next(config, old(hits.contents), Call(Client(ip), t))
    {
      hide Filter, Shows;
      ok, added := Allow(ip, t, config.maxPerIP, true);
    }

    method AccountBlocked(ip: string, username: string, t: int) returns (blocked: bool, ghost added: set<array<int>>)
      requires Valid()
      modifies hits, hits.repr
      ensures Valid() && fresh(added) && hits.repr <= old(hits.repr) + added
      ensures blocked == !Allows(config, old(hits.contents), Call(Account(ip, username), t))
      ensures hits.contents == Next(config, old(hits.contents), Call(Account(ip, username), t))
    {
      hide Filter, Shows;
      var ok;
      ok, added := Allow(ip + "|" + username, t, config.maxFailures, true);
      blocked := !ok;
    }

    /** Whether this denial is reported; reports older than the window are forgotten. */
    method ReportBlock(key: string, t: int) returns (report: bool)
      modifies this
      ensures report == Reports(config.window, old(reported), key, t)
      ensures reported == NextReported(config.window, old(reported), key, t)
    {
      var cutoff := t - config.window;
      var todo := reported.Keys;
      while todo != {}
        invariant todo <= old(reported).Keys
        invariant reported == map k | k in old(reported) && (k in todo || old(reported)[k] > cutoff) :: old(reported)[k]
        decreases todo
      {
        var existing :| existing in todo;
        if reported[existing] <= cutoff {
          reported := reported - {existing};
        }
        todo := todo - {existing};
      }
      if key in reported && reported[key] > cutoff {
        return false;
      }
      reported := reported[key := t];
      return true;
    }
  }

  // ----- a limiter in use

  /** Every decision is the full-history rule's. */
  ghost predicate FullHistory(c: Config, calls: seq<Call>, decisions: seq<bool>) {
    && |decisions| == |calls|
    && forall i :: 0 <= i < |calls| ==>
         decisions[i] == Rule(c, Log(c, calls[..i]), calls[i])
  }

  /** The times of the admitted calls of a key. */
  function Admitted(calls: seq<Call>, decisions: seq<bool>, k: Key): seq<int>
    requires |decisions| == |calls|
  {
    if calls == [] then []
    else
      var n := |calls| - 1;
      Admitted(calls[..n], decisions[..n], k) + if decisions[n] && calls[n].key == k then [calls[n].t] else []
  }

  lemma AdmittedStep(c: Config, calls: seq<Call>, n: nat, k: Key)
    requires |calls| == n + 1
    ensures var q, before := calls[n], Log(c, calls[..n]);
            Times(Log(c, calls), k) ==
            Times(before, k) + if Rule(c, before, q) && q.key == k then [q.t] else []
  {
    LogLast(c, calls, n);
    TimesAppend(Log(c, calls[..n]), Stamp(calls[n].key, calls[n].t), k);
    hide Log, Rule;
  }

  lemma PrefixHistory(c: Config, calls: seq<Call>, decisions: seq<bool>, n: nat)
    requires FullHistory(c, calls, decisions) && |calls| == n + 1
    ensures |decisions| == n + 1 && FullHistory(c, calls[..n], decisions[..n])
    ensures decisions[n] == Rule(c, Log(c, calls[..n]), calls[n])
  {
    hide Log, Rule;
    forall i | 0 <= i < n ensures calls[..n][..i] == calls[..i] {
    }
  }

  lemma {:induction false} AdmittedAreLogged(c: Config, calls: seq<Call>, decisions: seq<bool>, k: Key)
    requires FullHistory(c, calls, decisions)
    ensures |decisions| == |calls| && Admitted(calls, decisions, k) == Times(Log(c, calls), k)
  {
    if calls != [] {
      var n := |calls| - 1;
      PrefixHistory(c, calls, decisions, n);
      AdmittedAreLogged(c, calls[..n], decisions[..n], k);
      AdmittedMore(c, calls, decisions, n, k);
    }
  }

  lemma AdmittedMore(c: Config, calls: seq<Call>, decisions: seq<bool>, n: nat, k: Key)
    requires |calls| == |decisions| == n + 1 && decisions[n] == Rule(c, Log(c, calls[..n]), calls[n])
    requires Admitted(calls[..n], decisions[..n], k) == Times(Log(c, calls[..n]), k)
    ensures Admitted(calls, decisions, k) == Times(Log(c, calls), k)
  {
    hide Log, Rule;
    AdmittedStep(c, calls, n, k);
  }

  /** No window has more admitted calls than its limit: attempts from an IP, failures of an account. */
  ghost predicate WithinLimits(c: Config, calls: seq<Call>, decisions: seq<bool>)
    requires |decisions| == |calls|
  {
    forall k :: Bounded(Admitted(calls, decisions, k), c.window, Limit(c, k))
  }

  lemma AdmittedAreBounded(c: Config, calls: seq<Call>, decisions: seq<bool>)
    requires c.maxPerIP >= 0 && c.maxFailures >= 0 && FullHistory(c, calls, decisions)
    ensures WithinLimits(c, calls, decisions)
  {
    assert |decisions| == |calls|;
    hide Admitted, Bounded, Log, Times;
    forall k ensures Bounded(Admitted(calls, decisions, k), c.window, Limit(c, k)) {
      AdmittedAreLogged(c, calls, decisions, k);
      WindowsAreBounded(c, calls, k);
    }
  }

  ghost predicate Served(c: Config, calls: seq<Call>, hits: Hits, decisions: seq<bool>) {
    hits == Run(c, calls) && FullHistory(c, calls, decisions)
  }

  lemma ServedStep(c: Config, calls: seq<Call>, hits: Hits, decisions: seq<bool>, q: Call)
    requires Served(c, calls, hits, decisions) && Regular(calls + [q])
    ensures Served(c, calls + [q], Next(c, hits, q), decisions + [Allows(c, hits, q)])
  {
    hide Run, Log, Limit, Next, Allows, Regular;
    DecisionIsFullHistory(c, calls, q);
    var more, ok := calls + [q], decisions + [Allows(c, hits, q)];
    RunLast(c, more, |calls|);
    assert more[..|calls|] == calls;
    forall i | 0 <= i < |more|
      ensures ok[i] == Rule(c, Log(c, more[..i]), more[i])
    {
      assert more[..i] == calls[..i];
      assert i == |calls| ==> calls[..i] == calls;
    }
  }

  lemma RegularUpTo(calls: seq<Call>, n: nat)
    requires Regular(calls) && n < |calls|
    ensures calls[..n + 1] == calls[..n] + [calls[n]] && Regular(calls[..n] + [calls[n]]) && Proper(calls[n].key, LoginLimit)
  {
  }

  /** A limiter asked once for each attempt and each failure. Positive settings are used as they are; without any,
  a quarter of an hour has room for five failures of an account and twenty attempts of an IP. */
  method Serve(window: int, maxFailures: int, maxPerIP: int, calls: seq<Call>) returns (decisions: seq<bool>)
    requires Regular(calls)
    ensures FullHistory(Settings(window, maxFailures, maxPerIP), calls, decisions)
    ensures WithinLimits(Settings(window, maxFailures, maxPerIP), calls, decisions)
    ensures window > 0 && maxFailures > 0 && maxPerIP > 0 ==> FullHistory(Config(window, maxFailures, maxPerIP), calls, decisions)
    ensures window <= 0 && maxFailures <= 0 && maxPerIP <= 0 ==> FullHistory(Config(900_000_000_000, 5, 20), calls, decisions)
  {
    var limiter := new LoginLimiter(window, maxFailures, maxPerIP);
    decisions := [];
    assert calls[..0] == [];
    for i := 0 to |calls|
      invariant limiter.Valid() && fresh(limiter.hits) && fresh(limiter.hits.repr)
      invariant Served(limiter.config, calls[..i], limiter.hits.contents, decisions)
    {
      hide Served, Next, Allows, Regular, FullHistory;
      RegularUpTo(calls, i);
      ServedStep(limiter.config, calls[..i], limiter.hits.contents, decisions, calls[i]);
      var q := calls[i];
      var ok;
      ghost var added;
      if q.key.Client? {
        ok, added := limiter.IPAllowed(q.key.ip, q.t);
      } else {
        ok, added := limiter.AccountBlocked(q.key.ip, q.key.user, q.t);
        ok := !ok;
      }
      decisions := decisions + [ok];
    }
    assert calls[..|calls|] == calls;
    AdmittedAreBounded(limiter.config, calls, decisions);
    hide FullHistory, WithinLimits;
  }

  // ----- reports

  predicate Reports(window: int, reported: map<string, int>, key: string, t: int) {
    !(key in reported && reported[key] > t - window)
  }

  function NextReported(window: int, reported: map<string, int>, key: string, t: int): map<string, int> {
    var kept := map k | k in reported && reported[k] > t - window :: reported[k];
    if Reports(window, reported, key, t) then kept[key := t] else kept
  }

  datatype Denial = Denial(key: string, t: int)

  function RunReports(window: int, denials: seq<Denial>): map<string, int> {
    if denials == [] then map[]
    else
      var d := denials[|denials| - 1];
      NextReported(window, RunReports(window, denials[..|denials| - 1]), d.key, d.t)
  }

  /** A report of the key lies after the cutoff. */
  ghost predicate Recently(reports: seq<Denial>, key: string, cutoff: int) {
    exists i :: 0 <= i < |reports| && reports[i].key == key && reports[i].t > cutoff
  }

  /** The denials that are reported when each key is reported at most once a window. */
  ghost function Reported(window: int, denials: seq<Denial>): seq<Denial> {
    if denials == [] then []
    else
      var d := denials[|denials| - 1];
      var before := Reported(window, denials[..|denials| - 1]);
      if Recently(before, d.key, d.t - window) then before else before + [d]
  }

  predicate Ordered(denials: seq<Denial>) {
    forall i, j | 0 <= i < j < |denials| :: denials[i].t <= denials[j].t
  }

  /** The map remembers exactly the keys reported since a cutoff. */
  ghost predicate Remembers(reported: map<string, int>, reports: seq<Denial>, floor: int) {
    forall key, cutoff :: cutoff >= floor ==>
      (Recently(reports, key, cutoff) <==> key in reported && reported[key] > cutoff)
  }

  lemma RecentlyAppend(reports: seq<Denial>, d: Denial, key: string, cutoff: int)
    ensures Recently(reports + [d], key, cutoff) <==> Recently(reports, key, cutoff) || (d.key == key && d.t > cutoff)
  {
    if d.key == key && d.t > cutoff {
      assert (reports + [d])[|reports|] == d;
    }
    if Recently(reports, key, cutoff) {
      var i :| 0 <= i < |reports| && reports[i].key == key && reports[i].t > cutoff;
      assert (reports + [d])[i] == reports[i];
    }
  }

  lemma RemembersStep(window: int, reported: map<string, int>, reports: seq<Denial>, d: Denial)
    requires Remembers(reported, reports, d.t - window)
    requires forall i :: 0 <= i < |reports| ==> reports[i].t <= d.t
    ensures Reports(window, reported, d.key, d.t) == !Recently(reports, d.key, d.t - window)
    ensures Remembers(NextReported(window, reported, d.key, d.t),
                      if Recently(reports, d.key, d.t - window) then reports else reports + [d], d.t - window)
  {
    var next := NextReported(window, reported, d.key, d.t);
    var more := if Recently(reports, d.key, d.t - window) then reports else reports + [d];
    forall key, cutoff | cutoff >= d.t - window
      ensures Recently(more, key, cutoff) <==> key in next && next[key] > cutoff
    {
      RecentlyAppend(reports, d, key, cutoff);
      assert Recently(reports, key, cutoff) <==> key in reported && reported[key] > cutoff;
    }
  }

  lemma {:induction false} RunRemembers(window: int, denials: seq<Denial>, floor: int)
    requires Ordered(denials) && (denials != [] ==> floor >= denials[|denials| - 1].t - window)
    ensures Remembers(RunReports(window, denials), Reported(window, denials), floor)
    ensures forall i :: 0 <= i < |Reported(window, denials)| ==> Reported(window, denials)[i] in denials
  {
    if denials != [] {
      var n := |denials| - 1;
      var d := denials[n];
      RunRemembers(window, denials[..n], d.t - window);
      RemembersStep(window, RunReports(window, denials[..n]), Reported(window, denials[..n]), d);
    }
  }

  /** A denial is reported exactly when its key was not reported in the window before it. */
  lemma ReportIsFullHistory(window: int, denials: seq<Denial>, d: Denial)
    requires Ordered(denials + [d])
    ensures Reports(window, RunReports(window, denials), d.key, d.t) == !Recently(Reported(window, denials), d.key, d.t - window)
  {
    assert forall i :: 0 <= i < |denials| ==> (denials + [d])[i] == denials[i];
    assert (denials + [d])[|denials|] == d;
    RunRemembers(window, denials, d.t - window);
    assert Recently(Reported(window, denials), d.key, d.t - window) <==>
           d.key in RunReports(window, denials) && RunReports(window, denials)[d.key] > d.t - window;
  }

  /** Two reports of a key lie at least a window apart. */
  lemma {:induction false} ReportsAreSpaced(window: int, denials: seq<Denial>, i: nat, j: nat)
    requires i < j < |Reported(window, denials)| && Reported(window, denials)[i].key == Reported(window, denials)[j].key
    ensures Reported(window, denials)[j].t - Reported(window, denials)[i].t >= window
  {
    var n := |denials| - 1;
    if j < |Reported(window, denials[..n])| {
      ReportsAreSpaced(window, denials[..n], i, j);
    }
  }
}
