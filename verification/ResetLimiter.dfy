/** The password-reset limiter: sends per client IP, sends per (IP, username), and a minimum interval
between sends to one username. When the account limit refuses, the IP's list has been compacted in place
but its shorter slice is not stored, so the map keeps the old length over the compacted array. */
module ResetLimiter {
  import opened SlidingWindow
  import opened HitStore

  datatype Config = Config(window: int, maxPerIP: int, maxPerAccount: int, minInterval: int)

  /** The settings with the defaults for non-positive ones. */
  function Settings(window: int, maxPerIP: int, maxPerAccount: int, minInterval: int): Config {
    Config(if window <= 0 then 900_000_000_000 else window,
           if maxPerIP <= 0 then 10 else maxPerIP,
           if maxPerAccount <= 0 then 5 else maxPerAccount,
           if minInterval <= 0 then 60_000_000_000 else minInterval)
  }

  datatype Call = Call(ip: string, user: string, t: int)

  datatype State = State(ip: Hits, acct: Hits, last: map<string, int>)

  function AcctKey(q: Call): string {
    q.ip + "|" + q.user
  }

  // ----- one call, on values

  datatype Outcome = TooSoon | IpFull | AccountFull | Sent

  function Decide(c: Config, s: State, q: Call): Outcome {
    if q.user in s.last && q.t - s.last[q.user] < c.minInterval then TooSoon
    else if |Filter(At(s.ip, q.ip), q.t - c.window)| >= c.maxPerIP then IpFull
    else if |Filter(At(s.acct, AcctKey(q)), q.t - c.window)| >= c.maxPerAccount then AccountFull
    else Sent
  }

  function Next(c: Config, s: State, q: Call): State {
    var cutoff, key := q.t - c.window, AcctKey(q);
    var x, y := Filter(At(s.ip, q.ip), cutoff), Filter(At(s.acct, key), cutoff);
    match Decide(c, s, q)
    case TooSoon => s
    case IpFull => s.(ip := s.ip[q.ip := x])
    case AccountFull => s.(ip := Squeezed(s.ip, q.ip, cutoff), acct := s.acct[key := y])
    case Sent => State(s.ip[q.ip := x + [q.t]], s.acct[key := y + [q.t]], s.last[q.user := q.t])
  }

  const INIT := State(map[], map[], map[])

  function Run(c: Config, calls: seq<Call>): State {
    if calls == [] then INIT else Next(c, Run(c, calls[..|calls| - 1]), calls[|calls| - 1])
  }

  /** The calls that were answered with a send. */
  function Sends(c: Config, calls: seq<Call>): seq<Call> {
    if calls == [] then []
    else
      var n := |calls| - 1;
      Sends(c, calls[..n]) + if Decide(c, Run(c, calls[..n]), calls[n]).Sent? then [calls[n]] else []
  }

  // ----- what the lists stand for

  /** A group of sends: from an IP, under a list's key, or from an IP to a username. */
  datatype Group = ByIp(ip: string) | ByKey(key: string) | ByPair(from: string, user: string)

  predicate Belongs(q: Call, g: Group) {
    match g
    case ByIp(ip) => q.ip == ip
    case ByKey(key) => AcctKey(q) == key
    case ByPair(ip, user) => q.ip == ip && q.user == user
  }

  function Times(sends: seq<Call>, g: Group): seq<int> {
    if sends == [] then []
    else Times(sends[..|sends| - 1], g) + if Belongs(sends[|sends| - 1], g) then [sends[|sends| - 1].t] else []
  }

  lemma TimesAppend(sends: seq<Call>, q: Call, g: Group)
    ensures Times(sends + [q], g) == if Belongs(q, g) then Times(sends, g) + [q.t] else Times(sends, g)
  {
    assert (sends + [q])[..|sends|] == sends;
    assert Times(sends, g) + [] == Times(sends, g);
  }

  predicate Ordered(calls: seq<Call>) {
    forall i, j | 0 <= i < j < |calls| :: calls[i].t <= calls[j].t
  }

  // ----- safety: no list ever counts less than the sends it stands for

  /** From the floor on, the stored list counts at least the real hits. */
  ghost predicate Counts(stored: seq<int>, actual: seq<int>, floor: int) {
    forall cutoff :: cutoff >= floor ==> |Filter(actual, cutoff)| <= |Filter(stored, cutoff)|
  }

  lemma CountsFiltered(stored: seq<int>, actual: seq<int>, floor: int, t: int)
    requires Counts(stored, actual, floor)
    ensures Counts(Filter(stored, floor), actual, floor)
    ensures Counts(Filter(stored, floor) + [t], actual + [t], floor)
  {
    forall cutoff | cutoff >= floor
      ensures |Filter(actual, cutoff)| <= |Filter(Filter(stored, floor), cutoff)|
      ensures |Filter(actual + [t], cutoff)| <= |Filter(Filter(stored, floor) + [t], cutoff)|
    {
      FilterTwice(stored, floor, cutoff);
      FilterAppend(actual, t, cutoff);
      FilterAppend(Filter(stored, floor), t, cutoff);
    }
  }

  /** Compacting keeps every live hit at least once. */
  lemma CountsCompacted(stored: seq<int>, actual: seq<int>, floor: int)
    requires Counts(stored, actual, floor)
    ensures Counts(Compacted(stored, floor), actual, floor)
  {
    FilterShorter(stored, floor);
    forall cutoff | cutoff >= floor ensures |Filter(actual, cutoff)| <= |Filter(Compacted(stored, floor), cutoff)| {
      FilterConcat(Filter(stored, floor), stored[|Filter(stored, floor)|..], cutoff);
      FilterTwice(stored, floor, cutoff);
    }
  }

  ghost predicate CoversIp(ip: Hits, sends: seq<Call>, floor: int) {
    forall k :: Counts(At(ip, k), Times(sends, ByIp(k)), floor)
  }

  ghost predicate CoversAcct(acct: Hits, sends: seq<Call>, floor: int) {
    forall k :: Counts(At(acct, k), Times(sends, ByKey(k)), floor)
  }

  /** The last send to a username is remembered. */
  ghost predicate CoversLast(last: map<string, int>, sends: seq<Call>) {
    forall i :: 0 <= i < |sends| ==> sends[i].user in last && sends[i].t <= last[sends[i].user]
  }

  ghost predicate Covers(s: State, sends: seq<Call>, floor: int) {
    CoversIp(s.ip, sends, floor) && CoversAcct(s.acct, sends, floor) && CoversLast(s.last, sends)
  }

  function Answered(c: Config, s: State, q: Call, sends: seq<Call>): seq<Call> {
    if Decide(c, s, q).Sent? then sends + [q] else sends
  }

  /** What a call leaves in one list of the IP map. */
  lemma NextIp(c: Config, s: State, q: Call, k: string)
    ensures var times, floor := At(s.ip, k), q.t - c.window;
            At(Next(c, s, q).ip, k) ==
            if k != q.ip then times
            else match Decide(c, s, q)
              case TooSoon => times
              case IpFull => Filter(times, floor)
              case AccountFull => Compacted(times, floor)
              case Sent => Filter(times, floor) + [q.t]
  {
    hide Decide, Filter;
  }

  lemma NextAcct(c: Config, s: State, q: Call, k: string)
    ensures var times, floor := At(s.acct, k), q.t - c.window;
            At(Next(c, s, q).acct, k) ==
            if k != AcctKey(q) then times
            else match Decide(c, s, q)
              case TooSoon => times
              case IpFull => times
              case AccountFull => Filter(times, floor)
              case Sent => Filter(times, floor) + [q.t]
  {
    hide Decide, Filter;
  }

  lemma IpStep(c: Config, s: State, sends: seq<Call>, q: Call)
    requires CoversIp(s.ip, sends, q.t - c.window)
    ensures CoversIp(Next(c, s, q).ip, Answered(c, s, q, sends), q.t - c.window)
  {
    var floor := q.t - c.window;
    hide Counts, Filter, Times, Compacted, Next, Decide, At;
    forall k ensures Counts(At(Next(c, s, q).ip, k), Times(Answered(c, s, q, sends), ByIp(k)), floor) {
      var times, actual := At(s.ip, k), Times(sends, ByIp(k));
      TimesAppend(sends, q, ByIp(k));
      NextIp(c, s, q, k);
      CountsFiltered(times, actual, floor, q.t);
      CountsCompacted(times, actual, floor);
    }
  }

  lemma AcctStep(c: Config, s: State, sends: seq<Call>, q: Call)
    requires CoversAcct(s.acct, sends, q.t - c.window)
    ensures CoversAcct(Next(c, s, q).acct, Answered(c, s, q, sends), q.t - c.window)
  {
    var floor := q.t - c.window;
    hide Counts, Filter, Times, Compacted, Next, Decide, At;
    forall k ensures Counts(At(Next(c, s, q).acct, k), Times(Answered(c, s, q, sends), ByKey(k)), floor) {
      TimesAppend(sends, q, ByKey(k));
      NextAcct(c, s, q, k);
      CountsFiltered(At(s.acct, k), Times(sends, ByKey(k)), floor, q.t);
    }
  }

  lemma LastStep(c: Config, s: State, sends: seq<Call>, q: Call)
    requires CoversLast(s.last, sends) && c.minInterval >= 0
    ensures CoversLast(Next(c, s, q).last, Answered(c, s, q, sends))
    ensures Decide(c, s, q).Sent? ==>
              forall i :: 0 <= i < |sends| && sends[i].user == q.user ==> q.t - sends[i].t >= c.minInterval
  {
    hide Filter;
  }

  /** A send is answered only when its IP and its pair are below their limits. */
  lemma SentIsFree(c: Config, s: State, sends: seq<Call>, q: Call)
    requires Covers(s, sends, q.t - c.window) && Decide(c, s, q).Sent?
    ensures |Filter(Times(sends, ByIp(q.ip)), q.t - c.window)| < c.maxPerIP
    ensures |Filter(Times(sends, ByKey(AcctKey(q))), q.t - c.window)| < c.maxPerAccount
  {
    hide Filter, Times;
    assert Counts(At(s.ip, q.ip), Times(sends, ByIp(q.ip)), q.t - c.window);
    assert Counts(At(s.acct, AcctKey(q)), Times(sends, ByKey(AcctKey(q))), q.t - c.window);
  }

  lemma CoversLater(s: State, sends: seq<Call>, floor: int, later: int)
    requires Covers(s, sends, floor) && floor <= later
    ensures Covers(s, sends, later)
  {
    hide Filter, Times;
    assert forall k :: Counts(At(s.ip, k), Times(sends, ByIp(k)), floor);
    assert forall k :: Counts(At(s.acct, k), Times(sends, ByKey(k)), floor);
  }

  lemma RunLast(c: Config, calls: seq<Call>, n: nat)
    requires n + 1 == |calls|
    ensures Run(c, calls) == Next(c, Run(c, calls[..n]), calls[n])
    ensures Sends(c, calls) == Answered(c, Run(c, calls[..n]), calls[n], Sends(c, calls[..n]))
  {
    hide Next, Decide;
    assert Sends(c, calls[..n]) + [] == Sends(c, calls[..n]);
  }

  lemma StartOfRun(c: Config, floor: int)
    ensures Covers(Run(c, []), Sends(c, []), floor)
  {
    hide Next, Decide;
    assert forall k :: At(INIT.ip, k) == [] && At(INIT.acct, k) == [];
    assert forall g :: Times([], g) == [];
  }

  lemma OrderedPrefix(calls: seq<Call>, n: nat)
    requires Ordered(calls) && n + 1 == |calls|
    ensures Ordered(calls[..n]) && (n > 0 ==> calls[..n][n - 1].t <= calls[n].t)
  {
  }

  lemma CoversStep(c: Config, s: State, sends: seq<Call>, q: Call)
    requires Covers(s, sends, q.t - c.window) && c.minInterval >= 0
    ensures Covers(Next(c, s, q), Answered(c, s, q, sends), q.t - c.window)
  {
    hide CoversIp, CoversAcct, CoversLast, Next, Decide, Answered;
    IpStep(c, s, sends, q);
    AcctStep(c, s, sends, q);
    LastStep(c, s, sends, q);
  }

  lemma {:induction false} RunCovers(c: Config, calls: seq<Call>, floor: int)
    requires Ordered(calls) && c.minInterval >= 0 && (calls != [] ==> floor >= calls[|calls| - 1].t - c.window)
    ensures Covers(Run(c, calls), Sends(c, calls), floor)
  {
    StartOfRun(c, floor);
    hide Covers, Next, Run, Sends, Answered, Ordered;
    if calls != [] {
      var n := |calls| - 1;
      var q := calls[n];
      OrderedPrefix(calls, n);
      RunLast(c, calls, n);
      RunCovers(c, calls[..n], q.t - c.window);
      CoversStep(c, Run(c, calls[..n]), Sends(c, calls[..n]), q);
      CoversLater(Run(c, calls), Sends(c, calls), q.t - c.window, floor);
    }
  }

  function GroupLimit(c: Config, g: Group): int {
    if g.ByIp? then c.maxPerIP else c.maxPerAccount
  }

  /** An answered send keeps the windows of its groups bounded. */
  lemma SentKeepsBound(c: Config, s: State, sends: seq<Call>, q: Call, g: Group)
    requires Covers(s, sends, q.t - c.window) && !g.ByPair?
    requires Bounded(Times(sends, g), c.window, GroupLimit(c, g))
    ensures Bounded(Times(Answered(c, s, q, sends), g), c.window, GroupLimit(c, g))
  {
    hide Bounded, Covers, Decide, Times, Filter;
    TimesAppend(sends, q, g);
    if Decide(c, s, q).Sent? && Belongs(q, g) {
      SentIsFree(c, s, sends, q);
      BoundedStep(Times(sends, g), c.window, GroupLimit(c, g), q.t);
    }
  }

  /** For every run of calls in time order: no window holds more than maxPerIP sends from an IP or
  maxPerAccount sends under a list's key. */
  lemma {:induction false} WindowsAreBounded(c: Config, calls: seq<Call>, g: Group)
    requires Ordered(calls) && c.minInterval >= 0 && c.maxPerIP >= 0 && c.maxPerAccount >= 0 && !g.ByPair?
    ensures Bounded(Times(Sends(c, calls), g), c.window, GroupLimit(c, g))
  {
    if calls != [] {
      hide Bounded, Covers, Next, Answered, Run, Sends, Ordered, Times, GroupLimit;
      var n := |calls| - 1;
      OrderedPrefix(calls, n);
      RunLast(c, calls, n);
      WindowsAreBounded(c, calls[..n], g);
      RunCovers(c, calls[..n], calls[n].t - c.window);
      SentKeepsBound(c, Run(c, calls[..n]), Sends(c, calls[..n]), calls[n], g);
    }
  }

  lemma {:induction false} PairWithinKey(sends: seq<Call>, ip: string, user: string, window: int, end: int)
    ensures |InWindow(Times(sends, ByPair(ip, user)), window, end)| <= |InWindow(Times(sends, ByKey(ip + "|" + user)), window, end)|
  {
    if sends != [] {
      var n := |sends| - 1;
      PairWithinKey(sends[..n], ip, user, window, end);
      TimesAppend(sends[..n], sends[n], ByPair(ip, user));
      TimesAppend(sends[..n], sends[n], ByKey(ip + "|" + user));
      assert sends == sends[..n] + [sends[n]];
      var a, b := Times(sends[..n], ByPair(ip, user)), Times(sends[..n], ByKey(ip + "|" + user));
      assert (a + [sends[n].t])[..|a|] == a && (b + [sends[n].t])[..|b|] == b;
      hide Times;
    }
  }

  /** So no more than maxPerAccount sends from an IP to a username, whatever characters they hold. */
  lemma PairsAreBounded(c: Config, calls: seq<Call>, ip: string, user: string)
    requires Ordered(calls) && c.minInterval >= 0 && c.maxPerIP >= 0 && c.maxPerAccount >= 0
    ensures Bounded(Times(Sends(c, calls), ByPair(ip, user)), c.window, c.maxPerAccount)
  {
    WindowsAreBounded(c, calls, ByKey(ip + "|" + user));
    forall end ensures |InWindow(Times(Sends(c, calls), ByPair(ip, user)), c.window, end)| <= c.maxPerAccount {
      PairWithinKey(Sends(c, calls), ip, user, c.window, end);
    }
  }

  /** Sends to one username lie at least minInterval apart. */
  lemma {:induction false} SendsAreSpaced(c: Config, calls: seq<Call>, i: nat, j: nat)
    requires Ordered(calls) && c.minInterval >= 0
    requires i < j < |Sends(c, calls)| && Sends(c, calls)[i].user == Sends(c, calls)[j].user
    ensures Sends(c, calls)[j].t - Sends(c, calls)[i].t >= c.minInterval
  {
    var n := |calls| - 1;
    var q, s, sends := calls[n], Run(c, calls[..n]), Sends(c, calls[..n]);
    OrderedPrefix(calls, n);
    RunLast(c, calls, n);
    RunCovers(c, calls[..n], q.t - c.window);
    LastStep(c, s, sends, q);
    if j < |sends| {
      SendsAreSpaced(c, calls[..n], i, j);
    }
  }

  // ----- the full-history rule

  /** A send to the username lies within the interval. */
  predicate TooSoonFor(c: Config, sends: seq<Call>, q: Call) {
    exists i | 0 <= i < |sends| :: sends[i].user == q.user && q.t - sends[i].t < c.minInterval
  }

  /** The answer of the full-history rule, with its reason. */
  function Judge(c: Config, sends: seq<Call>, q: Call): Outcome {
    if TooSoonFor(c, sends, q) then TooSoon
    else if |Filter(Times(sends, ByIp(q.ip)), q.t - c.window)| >= c.maxPerIP then IpFull
    else if |Filter(Times(sends, ByKey(AcctKey(q))), q.t - c.window)| >= c.maxPerAccount then AccountFull
    else Sent
  }

  // ----- a send refused although the full-history rule admits it

  lemma FilterThree(a: int, b: int, d: int, cutoff: int)
    ensures Filter([a], cutoff) == if a > cutoff then [a] else []
    ensures Filter([a, b], cutoff) == Filter([a], cutoff) + if b > cutoff then [b] else []
    ensures Filter([a, b, d], cutoff) == Filter([a, b], cutoff) + if d > cutoff then [d] else []
  {
    assert [a][..0] == [] && [a, b][..1] == [a] && [a, b, d][..2] == [a, b];
  }

  lemma TimesOfThree(p: Call, q: Call, r: Call, g: Group)
    ensures Times([p, q, r], g) ==
            (if Belongs(p, g) then [p.t] else []) + (if Belongs(q, g) then [q.t] else []) + (if Belongs(r, g) then [r.t] else [])
  {
    assert [p][..0] == [] && [p, q][..1] == [p] && [p, q, r][..2] == [p, q];
    assert Times([p], g) == if Belongs(p, g) then [p.t] else [];
    assert Times([p, q], g) == Times([p], g) + if Belongs(q, g) then [q.t] else [];
  }

  const LIMITS := Config(15, 3, 2, 1)
  const FIRST := Call("A", "v", 0)
  const SECOND := Call("A", "u", 10)
  const THIRD := Call("A", "u", 11)
  const DENIED := Call("A", "u", 16)
  const REFUSED := Call("A", "w", 17)

  // The lists after one, two and three sends.
  const ONE := State(map["A" := [0]], map["A|v" := [0]], map["v" := 0])
  const TWO := State(ONE.ip["A" := [0, 10]], ONE.acct["A|u" := [10]], ONE.last["u" := 10])
  const THREE := State(TWO.ip["A" := [0, 10, 11]], TWO.acct["A|u" := [10, 11]], TWO.last["u" := 11])

  lemma SendStep(c: Config, s: State, q: Call, x: seq<int>, y: seq<int>)
    requires x == Filter(At(s.ip, q.ip), q.t - c.window) && y == Filter(At(s.acct, AcctKey(q)), q.t - c.window)
    requires |x| < c.maxPerIP && |y| < c.maxPerAccount && (q.user in s.last ==> q.t - s.last[q.user] >= c.minInterval)
    ensures Decide(c, s, q).Sent?
    ensures Next(c, s, q) == State(s.ip[q.ip := x + [q.t]], s.acct[AcctKey(q) := y + [q.t]], s.last[q.user := q.t])
  {
    hide Filter;
  }

  lemma FirstSend()
    ensures Decide(LIMITS, INIT, FIRST).Sent? && Next(LIMITS, INIT, FIRST) == ONE
  {
    assert AcctKey(FIRST) == "A|v" && Filter([], -15) == [] && [] + [0] == [0];
    hide Filter, Decide, Next;
    SendStep(LIMITS, INIT, FIRST, [], []);
  }

  lemma SecondSend()
    ensures Decide(LIMITS, ONE, SECOND).Sent? && Next(LIMITS, ONE, SECOND) == TWO
  {
    FilterThree(0, 10, 11, -5);
    assert AcctKey(SECOND) == "A|u" && Filter([], -5) == [] && [] + [10] == [10] && [0] + [10] == [0, 10];
    hide Filter, Decide, Next;
    assert At(ONE.ip, "A") == [0] && At(ONE.acct, "A|u") == [];
    SendStep(LIMITS, ONE, SECOND, [0], []);
  }

  lemma ListsAtThird()
    ensures Filter([0, 10], -4) == [0, 10] && Filter([10], -4) == [10]
  {
    FilterThree(0, 10, 11, -4);
    FilterThree(10, 11, 0, -4);
  }

  lemma ThirdSend()
    ensures Decide(LIMITS, TWO, THIRD).Sent? && Next(LIMITS, TWO, THIRD) == THREE
  {
    hide Filter, Decide, Next;
    ListsAtThird();
    assert AcctKey(THIRD) == "A|u" && [0, 10] + [11] == [0, 10, 11] && [10] + [11] == [10, 11];
    assert At(TWO.ip, "A") == [0, 10] && At(TWO.acct, "A|u") == [10];
    SendStep(LIMITS, TWO, THIRD, [0, 10], [10]);
  }

  lemma ThreeSends()
    ensures Run(LIMITS, [FIRST, SECOND, THIRD]) == THREE && Sends(LIMITS, [FIRST, SECOND, THIRD]) == [FIRST, SECOND, THIRD]
  {
    FirstSend();
    SecondSend();
    ThirdSend();
    assert Run(LIMITS, []) == INIT && Sends(LIMITS, []) == [];
    hide Decide, Next, Run, Sends;
    assert [FIRST][..0] == [] && [FIRST, SECOND][..1] == [FIRST] && [FIRST, SECOND, THIRD][..2] == [FIRST, SECOND];
    RunLast(LIMITS, [FIRST], 0);
    RunLast(LIMITS, [FIRST, SECOND], 1);
    RunLast(LIMITS, [FIRST, SECOND, THIRD], 2);
  }

  /** The account limit refuses a fourth; the IP's list then reads [10, 11, 11]. */
  lemma DenialSqueezes()
    ensures Decide(LIMITS, THREE, DENIED).AccountFull?
    ensures At(Next(LIMITS, THREE, DENIED).ip, "A") == [10, 11, 11] && "w" !in Next(LIMITS, THREE, DENIED).last
  {
    FilterThree(0, 10, 11, 1);
    FilterThree(10, 11, 0, 1);
    assert AcctKey(DENIED) == "A|u";
    assert Compacted([0, 10, 11], 1) == [10, 11] + [11] == [10, 11, 11];
    hide Filter, Compacted;
  }

  /** With the three sends as the history, the rule admits a call for another username. */
  lemma RuleAdmits()
    ensures Judge(LIMITS, [FIRST, SECOND, THIRD], REFUSED).Sent?
  {
    FilterThree(0, 10, 11, 2);
    TimesOfThree(FIRST, SECOND, THIRD, ByIp("A"));
    TimesOfThree(FIRST, SECOND, THIRD, ByKey("A|w"));
    assert AcctKey(REFUSED) == "A|w" && AcctKey(FIRST) == "A|v" && AcctKey(SECOND) == AcctKey(THIRD) == "A|u";
    assert Filter([], 2) == [] && [0] + [10] + [11] == [0, 10, 11];
    hide Filter, Times;
  }

  lemma LimiterRefuses(s: State)
    requires At(s.ip, "A") == [10, 11, 11] && "w" !in s.last
    ensures Decide(LIMITS, s, REFUSED).IpFull?
  {
    FilterThree(10, 11, 11, 2);
    hide Filter;
  }

  /** That call is refused by the limiter, with two sends in the window and a limit of three. */
  lemma AccountDenialOverRefuses()
    ensures var calls := [FIRST, SECOND, THIRD, DENIED];
            && Ordered(calls + [REFUSED])
            && Decide(LIMITS, Run(LIMITS, calls), REFUSED).IpFull? && Judge(LIMITS, Sends(LIMITS, calls), REFUSED).Sent?
  {
    hide Run, Sends, Times, Filter, Next, Decide, Judge;
    var calls := [FIRST, SECOND, THIRD, DENIED];
    ThreeSends();
    DenialSqueezes();
    assert calls[..3] == [FIRST, SECOND, THIRD] && calls[3] == DENIED;
    RunLast(LIMITS, calls, 3);
    RuleAdmits();
    LimiterRefuses(Run(LIMITS, calls));
  }

  // ----- the limiter

  class ResetRateLimiter {
    const config: Config
    const ipHits: Store
    const acctHits: Store
    var lastSent: map<string, int>

    ghost predicate Valid() reads this, ipHits, ipHits.repr, acctHits, acctHits.repr {
      Separate(ipHits, acctHits)
    }

    ghost function Value(): State reads this, ipHits, acctHits {
      State(ipHits.contents, acctHits.contents, lastSent)
    }

    constructor (window: int, maxPerIP: int, maxPerAccount: int, minInterval: int)
      ensures Valid() && Value() == INIT && fresh(ipHits) && fresh(acctHits) && ipHits.repr == {} && acctHits.repr == {}
      ensures config == Settings(window, maxPerIP, maxPerAccount, minInterval)
    {
      config := Settings(window, maxPerIP, maxPerAccount, minInterval);
      ipHits := new Store();
      acctHits := new Store();
      lastSent := map[];
    }

    method AllowSend(ip: string, username: string, t: int) returns (ok: bool, ghost added: set<array<int>>)
      requires Valid()
      modifies this, ipHits, ipHits.repr, acctHits, acctHits.repr
      ensures Valid() && fresh(added)
      ensures ipHits.repr <= old(ipHits.repr) + added && acctHits.repr <= old(acctHits.repr) + added
      ensures Value() == Next(config, old(Value()), Call(ip, username, t))
      ensures ok == Decide(config, old(Value()), Call(ip, username, t)).Sent?
    {
      ghost var s, q := Value(), Call(ip, username, t);
      TooSoonIs(config, s, q);
      hide Next, Decide, Spent, Shows;
      if username in lastSent && t - lastSent[username] < config.minInterval {
        return false, {};
      }
      var limits := Limits(t - config.window, config.maxPerIP, config.maxPerAccount);
      ok, added := Spend(ipHits, acctHits, ip, ip + "|" + username, limits, t);
      NextIs(config, s, q, ipHits.contents, acctHits.contents, ok);
      if ok {
        lastSent := lastSent[username := t];
      }
    }
  }

  lemma TooSoonIs(c: Config, s: State, q: Call)
    ensures q.user in s.last && q.t - s.last[q.user] < c.minInterval ==> Decide(c, s, q).TooSoon? && Next(c, s, q) == s
  {
    hide Filter, Compacted;
  }

  lemma NextIs(c: Config, s: State, q: Call, a: Hits, b: Hits, ok: bool)
    requires q.user in s.last ==> q.t - s.last[q.user] >= c.minInterval
    requires Spent(s.ip, s.acct, q.ip, AcctKey(q), Limits(q.t - c.window, c.maxPerIP, c.maxPerAccount), q.t, a, b, ok)
    ensures ok == Decide(c, s, q).Sent?
    ensures Next(c, s, q) == State(a, b, if ok then s.last[q.user := q.t] else s.last)
  {
    hide Filter, Compacted;
    assert forall y: seq<int> :: y + [] == y;
  }

  // ----- a limiter in use

  /** A limiter asked once for each call, in time order: the sends it lets through respect all three limits. Positive
  settings are used as they are; without any, a quarter of an hour has room for ten sends of an IP and five of an
  account, a minute apart. */
  method Serve(window: int, maxPerIP: int, maxPerAccount: int, minInterval: int, calls: seq<Call>) returns (sends: seq<Call>)
    requires Ordered(calls)
    ensures sends == Sends(Settings(window, maxPerIP, maxPerAccount, minInterval), calls)
    ensures window > 0 && maxPerIP > 0 && maxPerAccount > 0 && minInterval > 0 ==>
              sends == Sends(Config(window, maxPerIP, maxPerAccount, minInterval), calls)
    ensures window <= 0 && maxPerIP <= 0 && maxPerAccount <= 0 && minInterval <= 0 ==>
              sends == Sends(Config(900_000_000_000, 10, 5, 60_000_000_000), calls)
    ensures var c := Settings(window, maxPerIP, maxPerAccount, minInterval);
            && (forall ip :: Bounded(Times(sends, ByIp(ip)), c.window, c.maxPerIP))
            && (forall ip, user :: Bounded(Times(sends, ByPair(ip, user)), c.window, c.maxPerAccount))
            && (forall i, j :: 0 <= i < j < |sends| && sends[i].user == sends[j].user ==> sends[j].t - sends[i].t >= c.minInterval)
  {
    var limiter := new ResetRateLimiter(window, maxPerIP, maxPerAccount, minInterval);
    ghost var c := limiter.config;
    sends := [];
    assert calls[..0] == [];
    for n := 0 to |calls|
      invariant limiter.Valid() && fresh(limiter) && fresh(limiter.ipHits) && fresh(limiter.acctHits)
      invariant fresh(limiter.ipHits.repr) && fresh(limiter.acctHits.repr)
      invariant limiter.Value() == Run(c, calls[..n]) && sends == Sends(c, calls[..n])
    {
      hide Run, Sends, Next, Decide;
      RunLast(c, calls[..n + 1], n);
      assert calls[..n + 1][..n] == calls[..n];
      var ok;
      ghost var added;
      ok, added := limiter.AllowSend(calls[n].ip, calls[n].user, calls[n].t);
      if ok {
        sends := sends + [calls[n]];
      }
    }
    assert calls[..|calls|] == calls;
    AllLimitsHold(c, calls);
  }

  lemma AllLimitsHold(c: Config, calls: seq<Call>)
    requires Ordered(calls) && c.minInterval >= 0 && c.maxPerIP >= 0 && c.maxPerAccount >= 0
    ensures var sends := Sends(c, calls);
            && (forall ip :: Bounded(Times(sends, ByIp(ip)), c.window, c.maxPerIP))
            && (forall ip, user :: Bounded(Times(sends, ByPair(ip, user)), c.window, c.maxPerAccount))
            && (forall i, j :: 0 <= i < j < |sends| && sends[i].user == sends[j].user ==> sends[j].t - sends[i].t >= c.minInterval)
  {
    hide Sends, Bounded, Times;
    forall ip ensures Bounded(Times(Sends(c, calls), ByIp(ip)), c.window, c.maxPerIP) {
      WindowsAreBounded(c, calls, ByIp(ip));
    }
    forall ip, user ensures Bounded(Times(Sends(c, calls), ByPair(ip, user)), c.window, c.maxPerAccount) {
      PairsAreBounded(c, calls, ip, user);
    }
    forall i, j | 0 <= i < j < |Sends(c, calls)| && Sends(c, calls)[i].user == Sends(c, calls)[j].user
      ensures Sends(c, calls)[j].t - Sends(c, calls)[i].t >= c.minInterval
    {
      SendsAreSpaced(c, calls, i, j);
    }
  }
}
