/** When the reset limiter follows the full-history rule. Only the lists of IPs can go wrong: an account-denied
call compacts the IP's list in its array and leaves the map with the old, longer slice. */
module ResetExact {
  import opened SlidingWindow
  import opened HitStore
  import opened ResetLimiter

  /** What the constructor makes sure of. */
  predicate Positive(c: Config) {
    c.window > 0 && c.maxPerIP > 0 && c.maxPerAccount > 0 && c.minInterval > 0
  }

  // ----- one list

  /** Compacting without storing counts some live hits twice: exactly those that stand at or after the
  position where the live ones end up. */
  lemma CompactedCounts(stored: seq<int>, floor: int, cutoff: int)
    requires floor <= cutoff
    ensures |Filter(stored, floor)| <= |stored|
    ensures Filter(Compacted(stored, floor), cutoff) ==
            Filter(stored, cutoff) + Filter(stored[|Filter(stored, floor)|..], cutoff)
  {
    FilterShorter(stored, floor);
    FilterConcat(Filter(stored, floor), stored[|Filter(stored, floor)|..], cutoff);
    FilterTwice(stored, floor, cutoff);
  }

  lemma {:induction false} FilterKeepsAll(times: seq<int>, cutoff: int)
    ensures Filter(times, cutoff) == times <==> forall i :: 0 <= i < |times| ==> times[i] > cutoff
    ensures Filter(times, cutoff) == [] <==> forall i :: 0 <= i < |times| ==> times[i] <= cutoff
    ensures |Filter(times, cutoff)| == |times| ==> Filter(times, cutoff) == times
  {
    if times != [] {
      var n := |times| - 1;
      FilterKeepsAll(times[..n], cutoff);
      FilterShorter(times[..n], cutoff);
      assert times == times[..n] + [times[n]];
    }
  }

  /** No live hit stands behind the place where the live ones end up. */
  predicate Harmless(stored: seq<int>, floor: int) {
    FilterShorter(stored, floor);
    Filter(stored[|Filter(stored, floor)|..], floor) == []
  }

  /** From the floor on, the stored list counts exactly the actual hits. */
  ghost predicate Even(stored: seq<int>, actual: seq<int>, floor: int) {
    forall cutoff :: cutoff >= floor ==> |Filter(actual, cutoff)| == |Filter(stored, cutoff)|
  }

  /** Compacting without storing keeps the count exactly when it is harmless. */
  lemma EvenCompacted(stored: seq<int>, actual: seq<int>, floor: int)
    requires Even(stored, actual, floor)
    ensures Even(Compacted(stored, floor), actual, floor) <==> Harmless(stored, floor)
  {
    FilterShorter(stored, floor);
    var tail := stored[|Filter(stored, floor)|..];
    forall cutoff | cutoff >= floor
      ensures |Filter(Compacted(stored, floor), cutoff)| == |Filter(stored, cutoff)| + |Filter(tail, cutoff)|
      ensures |Filter(tail, cutoff)| <= |Filter(tail, floor)|
    {
      CompactedCounts(stored, floor, cutoff);
      FilterShrinks(tail, floor, cutoff);
    }
    assert |Filter(actual, floor)| == |Filter(stored, floor)|;
    assert |Filter(Compacted(stored, floor), floor)| == |Filter(stored, floor)| + |Filter(tail, floor)|;
  }

  lemma EvenFiltered(stored: seq<int>, actual: seq<int>, floor: int, t: int)
    requires Even(stored, actual, floor)
    ensures Even(Filter(stored, floor), actual, floor)
    ensures Even(Filter(stored, floor) + [t], actual + [t], floor)
  {
    forall cutoff | cutoff >= floor
      ensures |Filter(actual, cutoff)| == |Filter(Filter(stored, floor), cutoff)|
      ensures |Filter(actual + [t], cutoff)| == |Filter(Filter(stored, floor) + [t], cutoff)|
    {
      FilterTwice(stored, floor, cutoff);
      FilterAppend(actual, t, cutoff);
      FilterAppend(Filter(stored, floor), t, cutoff);
    }
  }

  /** For a list in time order compaction is harmless exactly when all of it is live or none. */
  lemma HarmlessIff(stored: seq<int>, floor: int)
    requires Sorted(stored)
    ensures Harmless(stored, floor) <==>
            (forall i :: 0 <= i < |stored| ==> stored[i] > floor) || (forall i :: 0 <= i < |stored| ==> stored[i] <= floor)
  {
    FilterShorter(stored, floor);
    FilterKeepsAll(stored, floor);
    var m := |Filter(stored, floor)|;
    var tail := stored[m..];
    FilterKeepsAll(tail, floor);
    assert m == 0 ==> tail == stored;
    assert m < |stored| ==> tail[|tail| - 1] == stored[|stored| - 1];
  }

  /** From the floor on, the stored list holds the actual hits. */
  ghost predicate Exact(stored: seq<int>, actual: seq<int>, floor: int) {
    forall cutoff :: cutoff >= floor ==> Filter(actual, cutoff) == Filter(stored, cutoff)
  }

  lemma ExactFiltered(stored: seq<int>, actual: seq<int>, floor: int, t: int)
    requires Exact(stored, actual, floor)
    ensures Exact(Filter(stored, floor), actual, floor)
    ensures Exact(Filter(stored, floor) + [t], actual + [t], floor)
  {
    forall cutoff | cutoff >= floor
      ensures Filter(actual, cutoff) == Filter(Filter(stored, floor), cutoff)
      ensures Filter(actual + [t], cutoff) == Filter(Filter(stored, floor) + [t], cutoff)
    {
      FilterTwice(stored, floor, cutoff);
      FilterAppend(actual, t, cutoff);
      FilterAppend(Filter(stored, floor), t, cutoff);
    }
  }

  /** The stored list counts at least the actual hits, and no more than them when they reach the limit. */
  ghost predicate Cap(stored: seq<int>, actual: seq<int>, floor: int, max: int) {
    forall cutoff :: cutoff >= floor ==>
      && |Filter(actual, cutoff)| <= |Filter(stored, cutoff)|
      && (|Filter(actual, cutoff)| >= max ==> |Filter(stored, cutoff)| == |Filter(actual, cutoff)|)
  }

  lemma CapFiltered(stored: seq<int>, actual: seq<int>, floor: int, max: int, t: int)
    requires Cap(stored, actual, floor, max)
    ensures Cap(Filter(stored, floor), actual, floor, max)
    ensures |Filter(stored, floor)| < max ==> Cap(Filter(stored, floor) + [t], actual + [t], floor, max)
  {
    forall cutoff | cutoff >= floor
      ensures |Filter(Filter(stored, floor), cutoff)| == |Filter(stored, cutoff)| <= |Filter(stored, floor)|
      ensures |Filter(actual + [t], cutoff)| == |Filter(actual, cutoff)| + if t > cutoff then 1 else 0
      ensures |Filter(Filter(stored, floor) + [t], cutoff)| == |Filter(stored, cutoff)| + if t > cutoff then 1 else 0
    {
      FilterTwice(stored, floor, cutoff);
      FilterShrinks(stored, floor, cutoff);
      FilterAppend(actual, t, cutoff);
      FilterAppend(Filter(stored, floor), t, cutoff);
    }
  }

  lemma CapCompacted(stored: seq<int>, actual: seq<int>, floor: int, max: int)
    requires Cap(stored, actual, floor, max) && |Filter(stored, floor)| < max
    ensures Cap(Compacted(stored, floor), actual, floor, max)
  {
    forall cutoff | cutoff >= floor
      ensures |Filter(actual, cutoff)| <= |Filter(Compacted(stored, floor), cutoff)| && |Filter(actual, cutoff)| < max
    {
      CompactedCounts(stored, floor, cutoff);
      FilterShrinks(stored, floor, cutoff);
    }
  }

  // ----- what every run keeps

  /** The limiter and the sends it has answered. */
  datatype Situation = Situation(s: State, sends: seq<Call>)

  /** The answer to a call. */
  function Answer(c: Config, x: Situation, q: Call): Outcome {
    Decide(c, x.s, q)
  }

  /** The rule's answer, from the sends alone. */
  function Verdict(c: Config, x: Situation, q: Call): Outcome {
    Judge(c, x.sends, q)
  }

  function Go(c: Config, x: Situation, q: Call): Situation {
    Situation(Next(c, x.s, q), Answered(c, x.s, q, x.sends))
  }

  // The list stored for an IP and the sends it stands for, and the same for a key of the account lists.

  function IpList(x: Situation, ip: string): seq<int> {
    At(x.s.ip, ip)
  }

  function IpSends(x: Situation, ip: string): seq<int> {
    Times(x.sends, ByIp(ip))
  }

  function AcctList(x: Situation, key: string): seq<int> {
    At(x.s.acct, key)
  }

  function AcctSends(x: Situation, key: string): seq<int> {
    Times(x.sends, ByKey(key))
  }

  ghost predicate ExactAcct(x: Situation, floor: int) {
    forall k :: Exact(AcctList(x, k), AcctSends(x, k), floor)
  }

  /** The map holds the latest send to each username. */
  ghost predicate ExactLast(last: map<string, int>, sends: seq<Call>) {
    && CoversLast(last, sends)
    && (forall u :: u in last ==> exists i :: 0 <= i < |sends| && sends[i].user == u && sends[i].t == last[u])
  }

  ghost predicate Capped(c: Config, x: Situation, floor: int) {
    forall k :: Cap(IpList(x, k), IpSends(x, k), floor, c.maxPerIP)
  }

  /** Every IP's list counts exactly its sends, at every cutoff from the floor on. */
  ghost predicate EvenIp(x: Situation, floor: int) {
    forall k :: Even(IpList(x, k), IpSends(x, k), floor)
  }

  /** The accounts' lists and the last sends are exact, and the IPs' lists count at least the sends. */
  ghost predicate Sane(c: Config, x: Situation, floor: int) {
    ExactAcct(x, floor) && ExactLast(x.s.last, x.sends) && Capped(c, x, floor)
  }

  /** What a call does to a list. */
  function Moved(o: Outcome, stored: seq<int>, floor: int, t: int, compacts: bool): seq<int> {
    match o
    case TooSoon => stored
    case IpFull => if compacts then Filter(stored, floor) else stored
    case AccountFull => if compacts then Compacted(stored, floor) else Filter(stored, floor)
    case Sent => Filter(stored, floor) + [t]
  }

  lemma GoIpList(c: Config, x: Situation, q: Call, k: string)
    ensures IpList(Go(c, x, q), k) ==
            if k == q.ip then Moved(Answer(c, x, q), IpList(x, k), q.t - c.window, q.t, true) else IpList(x, k)
  {
    NextIp(c, x.s, q, k);
  }

  lemma GoSends(c: Config, x: Situation, q: Call, g: Group)
    ensures Times(Go(c, x, q).sends, g) ==
            if Answer(c, x, q).Sent? && Belongs(q, g) then Times(x.sends, g) + [q.t] else Times(x.sends, g)
  {
    TimesAppend(x.sends, q, g);
  }

  lemma RoomLeft(c: Config, x: Situation, q: Call)
    requires Answer(c, x, q).AccountFull? || Answer(c, x, q).Sent?
    ensures |Filter(IpList(x, q.ip), q.t - c.window)| < c.maxPerIP
  {
  }

  lemma GoIp(c: Config, x: Situation, q: Call, k: string)
    ensures var o, y, floor := Answer(c, x, q), Go(c, x, q), q.t - c.window;
            && IpList(y, k) == (if k == q.ip then Moved(o, IpList(x, k), floor, q.t, true) else IpList(x, k))
            && IpSends(y, k) == (if k == q.ip && o.Sent? then IpSends(x, k) + [q.t] else IpSends(x, k))
            && (k == q.ip && (o.AccountFull? || o.Sent?) ==> |Filter(IpList(x, k), floor)| < c.maxPerIP)
  {
    hide Go, Answer, Moved, IpList;
    GoIpList(c, x, q, k);
    GoSends(c, x, q, ByIp(k));
    if k == q.ip && (Answer(c, x, q).AccountFull? || Answer(c, x, q).Sent?) {
      RoomLeft(c, x, q);
    }
  }

  lemma GoAcctList(c: Config, x: Situation, q: Call, k: string)
    ensures AcctList(Go(c, x, q), k) ==
            if k == AcctKey(q) then Moved(Answer(c, x, q), AcctList(x, k), q.t - c.window, q.t, false) else AcctList(x, k)
  {
    NextAcct(c, x.s, q, k);
  }

  lemma GoAcct(c: Config, x: Situation, q: Call, k: string)
    ensures var o, y, floor := Answer(c, x, q), Go(c, x, q), q.t - c.window;
            && AcctList(y, k) == (if k == AcctKey(q) then Moved(o, AcctList(x, k), floor, q.t, false) else AcctList(x, k))
            && AcctSends(y, k) == (if k == AcctKey(q) && o.Sent? then AcctSends(x, k) + [q.t] else AcctSends(x, k))
  {
    hide Go, Answer, Moved, AcctList;
    GoAcctList(c, x, q, k);
    GoSends(c, x, q, ByKey(k));
  }

  lemma ExactAcctStep(c: Config, x: Situation, q: Call)
    requires ExactAcct(x, q.t - c.window)
    ensures ExactAcct(Go(c, x, q), q.t - c.window)
  {
    var floor, y := q.t - c.window, Go(c, x, q);
    hide Exact, Go, Answer, AcctList, AcctSends;
    forall k ensures Exact(AcctList(y, k), AcctSends(y, k), floor) {
      GoAcct(c, x, q, k);
      ExactFiltered(AcctList(x, k), AcctSends(x, k), floor, q.t);
    }
  }

  lemma CapMoved(o: Outcome, stored: seq<int>, actual: seq<int>, floor: int, max: int, t: int)
    requires Cap(stored, actual, floor, max)
    requires o.AccountFull? || o.Sent? ==> |Filter(stored, floor)| < max
    ensures Cap(Moved(o, stored, floor, t, true), if o.Sent? then actual + [t] else actual, floor, max)
  {
    hide Cap;
    CapFiltered(stored, actual, floor, max, t);
    if o.AccountFull? {
      CapCompacted(stored, actual, floor, max);
    }
  }

  lemma CappedStep(c: Config, x: Situation, q: Call)
    requires Capped(c, x, q.t - c.window)
    ensures Capped(c, Go(c, x, q), q.t - c.window)
  {
    var floor, y := q.t - c.window, Go(c, x, q);
    hide Cap, Go, Answer, IpList, IpSends, Moved;
    forall k ensures Cap(IpList(y, k), IpSends(y, k), floor, c.maxPerIP) {
      GoIp(c, x, q, k);
      if k == q.ip {
        CapMoved(Answer(c, x, q), IpList(x, k), IpSends(x, k), floor, c.maxPerIP, q.t);
      }
    }
  }

  lemma ExactLastStep(c: Config, s: State, sends: seq<Call>, q: Call)
    requires ExactLast(s.last, sends) && c.minInterval >= 0
    ensures ExactLast(Next(c, s, q).last, Answered(c, s, q, sends))
  {
    LastStep(c, s, sends, q);
    var next, more := Next(c, s, q).last, Answered(c, s, q, sends);
    assert next == if Decide(c, s, q).Sent? then s.last[q.user := q.t] else s.last by {
      hide Decide, Filter;
    }
    hide Next, Decide;
    forall u | u in next ensures exists i :: 0 <= i < |more| && more[i].user == u && more[i].t == next[u] {
      if Decide(c, s, q).Sent? && u == q.user {
        assert more[|sends|] == q;
      } else {
        var i :| 0 <= i < |sends| && sends[i].user == u && sends[i].t == s.last[u];
        assert more[i] == sends[i];
      }
    }
  }

  lemma SaneStep(c: Config, x: Situation, q: Call)
    requires Sane(c, x, q.t - c.window) && Positive(c)
    ensures Sane(c, Go(c, x, q), q.t - c.window)
  {
    hide ExactAcct, ExactLast, Capped;
    ExactAcctStep(c, x, q);
    ExactLastStep(c, x.s, x.sends, q);
    CappedStep(c, x, q);
  }

  lemma SaneLater(c: Config, x: Situation, floor: int, later: int)
    requires Sane(c, x, floor) && floor <= later
    ensures Sane(c, x, later)
  {
    hide IpList, IpSends, AcctList, AcctSends;
    assert forall k :: Exact(AcctList(x, k), AcctSends(x, k), floor);
    assert forall k :: Cap(IpList(x, k), IpSends(x, k), floor, c.maxPerIP);
  }

  /** One more call keeps the IPs' lists even exactly when it is not an account denial that does harm. */
  lemma EvenStep(c: Config, x: Situation, q: Call)
    requires EvenIp(x, q.t - c.window)
    ensures EvenIp(Go(c, x, q), q.t - c.window) <==>
            (Answer(c, x, q).AccountFull? ==> Harmless(IpList(x, q.ip), q.t - c.window))
  {
    var floor, y := q.t - c.window, Go(c, x, q);
    hide Even, Harmless, Go, Answer, IpList, IpSends;
    forall k
      ensures Even(IpList(y, k), IpSends(y, k), floor) <==>
              (k == q.ip && Answer(c, x, q).AccountFull? ==> Harmless(IpList(x, k), floor))
    {
      GoIp(c, x, q, k);
      EvenFiltered(IpList(x, k), IpSends(x, k), floor, q.t);
      EvenCompacted(IpList(x, k), IpSends(x, k), floor);
    }
  }

  lemma EvenLater(x: Situation, floor: int, later: int)
    requires EvenIp(x, floor) && floor <= later
    ensures EvenIp(x, later)
  {
    hide IpList, IpSends;
    assert forall k :: Even(IpList(x, k), IpSends(x, k), floor);
  }

  // ----- decisions

  lemma TooSoonByHistory(c: Config, x: Situation, q: Call)
    requires ExactLast(x.s.last, x.sends)
    ensures TooSoonFor(c, x.sends, q) <==> q.user in x.s.last && q.t - x.s.last[q.user] < c.minInterval
  {
  }

  /** With even lists the limiter's answer and reason are the rule's. */
  lemma EvenDecision(c: Config, x: Situation, q: Call)
    requires Sane(c, x, q.t - c.window) && EvenIp(x, q.t - c.window)
    ensures Answer(c, x, q) == Verdict(c, x, q)
  {
    TooSoonByHistory(c, x, q);
    assert Even(IpList(x, q.ip), IpSends(x, q.ip), q.t - c.window);
    assert Exact(AcctList(x, AcctKey(q)), AcctSends(x, AcctKey(q)), q.t - c.window);
  }

  // ----- continuations

  function After(c: Config, x: Situation, more: seq<Call>): Situation {
    if more == [] then x else Go(c, After(c, x, more[..|more| - 1]), more[|more| - 1])
  }

  lemma AfterNone(c: Config, x: Situation)
    ensures After(c, x, []) == x
  {
  }

  lemma AfterLast(c: Config, x: Situation, more: seq<Call>, n: nat)
    requires |more| == n + 1
    ensures After(c, x, more) == Go(c, After(c, x, more[..n]), more[n])
  {
  }

  /** Calls in time order, none before `now`. */
  predicate From(more: seq<Call>, now: int) {
    Ordered(more) && forall i | 0 <= i < |more| :: more[i].t >= now
  }

  /** No account denial among the calls leaves a live hit behind. */
  predicate Quiet(c: Config, x: Situation, more: seq<Call>) {
    forall i | 0 <= i < |more| ::
      var y := After(c, x, more[..i]);
      Answer(c, y, more[i]).AccountFull? ==> Harmless(IpList(y, more[i].ip), more[i].t - c.window)
  }

  /** Every one of the calls is answered as the full-history rule says. */
  predicate Agrees(c: Config, x: Situation, more: seq<Call>) {
    forall i | 0 <= i < |more| :: var y := After(c, x, more[..i]); Answer(c, y, more[i]) == Verdict(c, y, more[i])
  }

  /** From `now` on the limiter follows the rule on every continuation, up to the first harmful account denial. */
  ghost predicate Follows(c: Config, x: Situation, now: int) {
    forall more :: From(more, now) && Quiet(c, x, more) ==> Agrees(c, x, more)
  }

  function Latest(more: seq<Call>, now: int): int {
    if more == [] then now else more[|more| - 1].t
  }

  lemma {:induction false} EvenAfter(c: Config, x: Situation, now: int, more: seq<Call>)
    requires Positive(c) && Sane(c, x, now - c.window) && EvenIp(x, now - c.window)
    requires From(more, now) && Quiet(c, x, more)
    ensures Sane(c, After(c, x, more), Latest(more, now) - c.window)
    ensures EvenIp(After(c, x, more), Latest(more, now) - c.window)
  {
    AfterNone(c, x);
    hide Sane, EvenIp, Harmless, Go, Positive, Answer, IpList, After;
    if more != [] {
      var n := |more| - 1;
      AfterLast(c, x, more, n);
      var init, q := more[..n], more[n];
      assert Quiet(c, x, init) by {
        forall i | 0 <= i < n ensures init[..i] == more[..i] {
        }
      }
      EvenAfter(c, x, now, init);
      var y := After(c, x, init);
      SaneLater(c, y, Latest(init, now) - c.window, q.t - c.window);
      EvenLater(y, Latest(init, now) - c.window, q.t - c.window);
      SaneStep(c, y, q);
      EvenStep(c, y, q);
    }
  }

  lemma EvenFollows(c: Config, x: Situation, now: int)
    requires Positive(c) && Sane(c, x, now - c.window) && EvenIp(x, now - c.window)
    ensures Follows(c, x, now)
  {
    forall more, i | From(more, now) && Quiet(c, x, more) && 0 <= i < |more|
      ensures var y := After(c, x, more[..i]); Answer(c, y, more[i]) == Verdict(c, y, more[i])
    {
      EvenAnswer(c, x, now, more, i);
    }
  }

  lemma EvenAnswer(c: Config, x: Situation, now: int, more: seq<Call>, i: nat)
    requires Positive(c) && Sane(c, x, now - c.window) && EvenIp(x, now - c.window)
    requires From(more, now) && Quiet(c, x, more) && i < |more|
    ensures var y := After(c, x, more[..i]); Answer(c, y, more[i]) == Verdict(c, y, more[i])
  {
    hide Sane, EvenIp, Harmless, After, Positive, Verdict, Answer, IpList;
    var init, q := more[..i], more[i];
    assert Quiet(c, x, init) by {
      forall j | 0 <= j < i ensures init[..j] == more[..j] {
      }
    }
    EvenAfter(c, x, now, init);
    var y := After(c, x, init);
    SaneLater(c, y, Latest(init, now) - c.window, q.t - c.window);
    EvenLater(y, Latest(init, now) - c.window, q.t - c.window);
    EvenDecision(c, y, q);
  }

  // ----- a list that counts too much is found out

  function Name(n: nat): (r: string)
    ensures |r| == n
  {
    seq(n, _ => 'a')
  }

  /** A call for a username that no call has named. */
  function Stranger(c: Config, ip: string, cut: int, n: nat): Call {
    Call(ip, Name(n), cut + c.window)
  }

  lemma StrangerTime(c: Config, ip: string, cut: int, n: nat)
    ensures Stranger(c, ip, cut, n).t == cut + c.window
  {
  }

  /** All names are shorter than `n`, and all keys of lists shorter than a key of such a name. */
  ghost predicate NamesBelow(s: State, ip: string, n: nat) {
    (forall u :: u in s.last ==> |u| < n) && (forall key :: key in s.acct ==> |key| < |ip| + 1 + n)
  }

  lemma {:induction false} LengthBound(names: set<string>) returns (n: nat)
    ensures forall u :: u in names ==> |u| < n
  {
    n := 0;
    if names != {} {
      var u :| u in names;
      var m := LengthBound(names - {u});
      n := if |u| < m then m else |u| + 1;
      assert forall w :: w in names ==> w == u || w in names - {u};
    }
  }

  /** The IP's list counts `stored` hits after the cutoff, and there were `actual` sends. */
  ghost predicate Lag(c: Config, x: Situation, ip: string, cut: int, n: nat, stored: nat, actual: nat) {
    && Sane(c, x, cut) && NamesBelow(x.s, ip, n)
    && |Filter(IpList(x, ip), cut)| == stored && |Filter(IpSends(x, ip), cut)| == actual
  }

  lemma StrangerIsNew(c: Config, x: Situation, ip: string, cut: int, n: nat)
    requires NamesBelow(x.s, ip, n)
    ensures var q := Stranger(c, ip, cut, n); q.user !in x.s.last && AcctKey(q) !in x.s.acct && At(x.s.acct, AcctKey(q)) == []
    ensures NamesBelow(Next(c, x.s, Stranger(c, ip, cut, n)), ip, n + 1)
  {
    var q := Stranger(c, ip, cut, n);
    assert |q.user| == n && |AcctKey(q)| == |ip| + 1 + n;
  }

  lemma StrangerSends(c: Config, x: Situation, ip: string, cut: int, n: nat, stored: nat, actual: nat)
    requires Positive(c) && Lag(c, x, ip, cut, n, stored, actual) && stored < c.maxPerIP
    ensures Answer(c, x, Stranger(c, ip, cut, n)).Sent?
  {
    StrangerIsNew(c, x, ip, cut, n);
    hide Sane, NamesBelow;
    assert Filter([], cut) == [];
  }

  lemma OneMore(list: seq<int>, sends: seq<int>, t: int, cut: int)
    requires t > cut
    ensures |Filter(Filter(list, cut) + [t], cut)| == |Filter(list, cut)| + 1
    ensures |Filter(sends + [t], cut)| == |Filter(sends, cut)| + 1
  {
    FilterTwice(list, cut, cut);
    FilterAppend(Filter(list, cut), t, cut);
    FilterAppend(sends, t, cut);
  }

  lemma StrangerStays(c: Config, x: Situation, ip: string, cut: int, n: nat)
    requires Positive(c) && Sane(c, x, cut) && NamesBelow(x.s, ip, n)
    ensures var y := Go(c, x, Stranger(c, ip, cut, n)); Sane(c, y, cut) && NamesBelow(y.s, ip, n + 1)
    ensures Stranger(c, ip, cut, n).ip == ip && Stranger(c, ip, cut, n).t == cut + c.window > cut
  {
    StrangerIsNew(c, x, ip, cut, n);
    hide Sane, NamesBelow;
    SaneStep(c, x, Stranger(c, ip, cut, n));
  }

  lemma StrangerIsSent(c: Config, x: Situation, ip: string, cut: int, n: nat, stored: nat, actual: nat)
    requires Positive(c) && Lag(c, x, ip, cut, n, stored, actual) && stored < c.maxPerIP
    ensures Answer(c, x, Stranger(c, ip, cut, n)).Sent?
    ensures Lag(c, Go(c, x, Stranger(c, ip, cut, n)), ip, cut, n + 1, stored + 1, actual + 1)
  {
    var q := Stranger(c, ip, cut, n);
    StrangerSends(c, x, ip, cut, n, stored, actual);
    StrangerStays(c, x, ip, cut, n);
    hide Sane, NamesBelow, Answer, Go, Stranger, IpList, IpSends, Positive;
    assert q.t - c.window == cut;
    GoIp(c, x, q, ip);
    assert IpList(Go(c, x, q), ip) == Filter(IpList(x, ip), cut) + [q.t];
    OneMore(IpList(x, ip), IpSends(x, ip), q.t, cut);
  }

  lemma StrangerIsRefused(c: Config, x: Situation, ip: string, cut: int, n: nat, stored: nat, actual: nat)
    requires Positive(c) && Lag(c, x, ip, cut, n, stored, actual) && actual < c.maxPerIP <= stored
    ensures Answer(c, x, Stranger(c, ip, cut, n)).IpFull? && Verdict(c, x, Stranger(c, ip, cut, n)).Sent?
  {
    var q := Stranger(c, ip, cut, n);
    StrangerIsNew(c, x, ip, cut, n);
    TooSoonByHistory(c, x, q);
    assert Exact(AcctList(x, AcctKey(q)), AcctSends(x, AcctKey(q)), cut);
    assert Filter([], cut) == [];
  }

  /** Calls for `k` new usernames, all at one time. */
  function Burst(c: Config, ip: string, cut: int, n: nat, k: nat): (r: seq<Call>)
    ensures |r| == k
  {
    if k == 0 then [] else Burst(c, ip, cut, n, k - 1) + [Stranger(c, ip, cut, n + k - 1)]
  }

  lemma {:induction false} BurstAt(c: Config, ip: string, cut: int, n: nat, k: nat, i: nat)
    requires i < k
    ensures Burst(c, ip, cut, n, k)[i] == Stranger(c, ip, cut, n + i) && Burst(c, ip, cut, n, k)[..i] == Burst(c, ip, cut, n, i)
  {
    var shorter := Burst(c, ip, cut, n, k - 1);
    assert Burst(c, ip, cut, n, k)[..k - 1] == shorter;
    if i < k - 1 {
      BurstAt(c, ip, cut, n, k - 1, i);
      assert Burst(c, ip, cut, n, k)[..i] == shorter[..i];
    }
  }

  lemma {:induction false} BurstLags(c: Config, x: Situation, ip: string, cut: int, n: nat, stored: nat, actual: nat, k: nat)
    requires Positive(c) && Lag(c, x, ip, cut, n, stored, actual) && (k == 0 || stored + k <= c.maxPerIP)
    ensures Lag(c, After(c, x, Burst(c, ip, cut, n, k)), ip, cut, n + k, stored + k, actual + k)
  {
    AfterNone(c, x);
    hide Lag, Go, Stranger, Answer, After, Positive;
    if k != 0 {
      BurstLags(c, x, ip, cut, n, stored, actual, k - 1);
      var init := Burst(c, ip, cut, n, k - 1);
      StrangerIsSent(c, After(c, x, init), ip, cut, n + k - 1, stored + k - 1, actual + k - 1);
      assert Burst(c, ip, cut, n, k)[..k - 1] == init;
      AfterLast(c, x, Burst(c, ip, cut, n, k), k - 1);
    }
  }

  /** Fill the list up with new usernames; the next one is refused although the rule admits it. */
  lemma Exposed(c: Config, x: Situation, ip: string, cut: int, n: nat, stored: nat, actual: nat, k: nat)
    requires Positive(c) && Lag(c, x, ip, cut, n, stored, actual)
    requires if stored < c.maxPerIP then stored + k == c.maxPerIP else k == 0
    requires actual < stored && actual < c.maxPerIP
    ensures var more := Burst(c, ip, cut, n, k + 1); From(more, cut + c.window) && Quiet(c, x, more) && !Agrees(c, x, more)
  {
    hide Lag, After, Verdict, Harmless, Go, Positive, Answer, IpList, Stranger;
    var more := Burst(c, ip, cut, n, k + 1);
    forall i | 0 <= i <= k
      ensures more[i].t == cut + c.window && !Answer(c, After(c, x, more[..i]), more[i]).AccountFull?
      ensures i == k ==> var y := After(c, x, more[..k]); Answer(c, y, more[k]).IpFull? && Verdict(c, y, more[k]).Sent?
    {
      BurstAt(c, ip, cut, n, k + 1, i);
      assert Stranger(c, ip, cut, n + i).t == cut + c.window by {
        StrangerTime(c, ip, cut, n + i);
      }
      BurstLags(c, x, ip, cut, n, stored, actual, i);
      var y := After(c, x, more[..i]);
      if i < k {
        StrangerIsSent(c, y, ip, cut, n + i, stored + i, actual + i);
      } else {
        StrangerIsRefused(c, y, ip, cut, n + k, stored + k, actual + k);
      }
    }
  }

  lemma UnevenStrays(c: Config, x: Situation, now: int, ip: string, cut: int)
    requires Positive(c) && Sane(c, x, now - c.window) && cut >= now - c.window
    requires |Filter(IpSends(x, ip), cut)| != |Filter(IpList(x, ip), cut)|
    ensures !Follows(c, x, now)
  {
    var stored, actual := |Filter(IpList(x, ip), cut)|, |Filter(IpSends(x, ip), cut)|;
    assert Cap(IpList(x, ip), IpSends(x, ip), now - c.window, c.maxPerIP);
    hide Quiet, Agrees, Sane, After, Lag;
    SaneLater(c, x, now - c.window, cut);
    var a := LengthBound(x.s.last.Keys);
    var b := LengthBound(x.s.acct.Keys);
    var n := a + b;
    assert Lag(c, x, ip, cut, n, stored, actual) by {
      LagStart(c, x, ip, cut, n);
    }
    var k := if stored < c.maxPerIP then c.maxPerIP - stored else 0;
    Exposed(c, x, ip, cut, n, stored, actual, k);
  }

  lemma LagStart(c: Config, x: Situation, ip: string, cut: int, n: nat)
    requires Sane(c, x, cut) && NamesBelow(x.s, ip, n)
    ensures Lag(c, x, ip, cut, n, |Filter(IpList(x, ip), cut)|, |Filter(IpSends(x, ip), cut)|)
  {
  }

  /** The limiter follows the rule from now on exactly when every IP's list counts its sends exactly. */
  lemma FollowsIffEven(c: Config, x: Situation, now: int)
    requires Positive(c) && Sane(c, x, now - c.window)
    ensures Follows(c, x, now) <==> EvenIp(x, now - c.window)
  {
    hide Follows, Sane, Positive;
    if EvenIp(x, now - c.window) {
      EvenFollows(c, x, now);
    } else {
      var ip :| !Even(IpList(x, ip), IpSends(x, ip), now - c.window);
      var cut :| cut >= now - c.window && |Filter(IpSends(x, ip), cut)| != |Filter(IpList(x, ip), cut)|;
      UnevenStrays(c, x, now, ip, cut);
    }
  }

  // ----- runs

  /** Where a run leads. */
  function Reached(c: Config, calls: seq<Call>): Situation {
    Situation(Run(c, calls), Sends(c, calls))
  }

  lemma ReachedStep(c: Config, calls: seq<Call>, n: nat)
    requires |calls| == n + 1
    ensures Reached(c, calls) == Go(c, Reached(c, calls[..n]), calls[n])
  {
    RunLast(c, calls, n);
  }

  lemma ReachedStart(c: Config, floor: int)
    ensures Sane(c, Reached(c, []), floor) && EvenIp(Reached(c, []), floor)
  {
    assert Run(c, []) == INIT && Sends(c, []) == [];
    assert forall g :: Times([], g) == [];
    assert forall k :: At(INIT.ip, k) == [] && At(INIT.acct, k) == [];
  }

  /** Calls in time order, none after `now`. */
  predicate Until(calls: seq<Call>, now: int) {
    Ordered(calls) && forall i | 0 <= i < |calls| :: calls[i].t <= now
  }

  lemma {:induction false} SaneRun(c: Config, calls: seq<Call>, now: int)
    requires Positive(c) && Until(calls, now)
    ensures Sane(c, Reached(c, calls), now - c.window)
  {
    hide Sane, Go, Reached, Positive, EvenIp;
    if calls == [] {
      ReachedStart(c, now - c.window);
    } else {
      var n := |calls| - 1;
      SaneRun(c, calls[..n], calls[n].t);
      SaneStep(c, Reached(c, calls[..n]), calls[n]);
      ReachedStep(c, calls, n);
      SaneLater(c, Reached(c, calls), calls[n].t - c.window, now - c.window);
    }
  }

  /** After any calls in time order, the limiter answers like the full-history rule from now on exactly when
  every IP's list counts exactly its sends at every cutoff from the current window's start on. */
  lemma FollowsIffCounted(c: Config, calls: seq<Call>, now: int)
    requires Positive(c) && Until(calls, now)
    ensures Follows(c, Reached(c, calls), now) <==> EvenIp(Reached(c, calls), now - c.window)
  {
    hide Follows, Sane, Positive, EvenIp, Reached;
    SaneRun(c, calls, now);
    FollowsIffEven(c, Reached(c, calls), now);
  }

  // ----- the same condition told from the calls

  /** What the last call that stored the IP's list dropped: everything up to its window's start. */
  datatype Sweep = Never | UpTo(cutoff: int)

  function LastSweep(c: Config, calls: seq<Call>, ip: string): Sweep {
    if calls == [] then Never
    else
      var n := |calls| - 1;
      var o := Verdict(c, Reached(c, calls[..n]), calls[n]);
      if calls[n].ip == ip && (o.Sent? || o.IpFull?) then UpTo(calls[n].t - c.window) else LastSweep(c, calls[..n], ip)
  }

  predicate Survives(t: int, sweep: Sweep) {
    sweep.Never? || t > sweep.cutoff
  }

  function Kept(times: seq<int>, sweep: Sweep): seq<int> {
    if sweep.Never? then times else Filter(times, sweep.cutoff)
  }

  /** One send of the IP that no call has dropped lies outside the window, and one inside. */
  predicate Split(sends: seq<Call>, ip: string, floor: int, sweep: Sweep) {
    exists i, j | 0 <= i < |sends| && 0 <= j < |sends| ::
      sends[i].ip == ip && sends[j].ip == ip && sends[i].t <= floor < sends[j].t && Survives(sends[i].t, sweep)
  }

  predicate Mixed(c: Config, calls: seq<Call>, q: Call) {
    Split(Reached(c, calls).sends, q.ip, q.t - c.window, LastSweep(c, calls, q.ip))
  }

  /** The account limit of the full-history rule refuses while the IP's sends are mixed. */
  predicate Disturbs(c: Config, calls: seq<Call>, q: Call) {
    Verdict(c, Reached(c, calls), q).AccountFull? && Mixed(c, calls, q)
  }

  predicate Undisturbed(c: Config, calls: seq<Call>) {
    forall i | 0 <= i < |calls| :: !Disturbs(c, calls[..i], calls[i])
  }

  lemma {:induction false} SweepIsPast(c: Config, calls: seq<Call>, ip: string, now: int)
    requires Until(calls, now)
    ensures LastSweep(c, calls, ip).UpTo? ==> LastSweep(c, calls, ip).cutoff <= now - c.window
  {
    if calls != [] {
      SweepIsPast(c, calls[..|calls| - 1], ip, now);
    }
  }

  lemma {:induction false} FilterHas(times: seq<int>, cutoff: int, t: int)
    ensures t in Filter(times, cutoff) <==> t in times && t > cutoff
  {
    if times != [] {
      var n := |times| - 1;
      FilterHas(times[..n], cutoff, t);
      assert times == times[..n] + [times[n]];
    }
  }

  lemma {:induction false} TimesHas(sends: seq<Call>, g: Group, t: int)
    ensures t in Times(sends, g) <==> exists i :: 0 <= i < |sends| && Belongs(sends[i], g) && sends[i].t == t
  {
    if sends != [] {
      var n := |sends| - 1;
      TimesHas(sends[..n], g, t);
      assert sends == sends[..n] + [sends[n]];
    }
  }

  lemma SortedAppend(times: seq<int>, t: int)
    requires Sorted(times) && forall u :: u in times ==> u <= t
    ensures Sorted(times + [t]) && forall u :: u in times + [t] ==> u <= t
  {
    assert forall i :: 0 <= i < |times| ==> times[i] in times;
  }

  lemma {:induction false} FilterSorted(times: seq<int>, cutoff: int)
    requires Sorted(times)
    ensures Sorted(Filter(times, cutoff))
  {
    if times != [] {
      var n := |times| - 1;
      FilterSorted(times[..n], cutoff);
      forall t | t in Filter(times[..n], cutoff) ensures t <= times[n] {
        FilterHas(times[..n], cutoff, t);
      }
      SortedAppend(Filter(times[..n], cutoff), times[n]);
    }
  }

  lemma {:induction false} SendsSorted(c: Config, calls: seq<Call>, ip: string, now: int)
    requires Until(calls, now)
    ensures var times := IpSends(Reached(c, calls), ip); Sorted(times) && forall t :: t in times ==> t <= now
  {
    if calls != [] {
      hide Go, Answer, IpSends, IpList, Moved, Reached;
      var n := |calls| - 1;
      SendsSorted(c, calls[..n], ip, calls[n].t);
      ReachedStep(c, calls, n);
      GoIp(c, Reached(c, calls[..n]), calls[n], ip);
      SortedAppend(IpSends(Reached(c, calls[..n]), ip), calls[n].t);
    }
  }

  /** The stored list of every IP is made of its sends since the last sweep. */
  ghost predicate Told(c: Config, calls: seq<Call>) {
    forall ip :: IpList(Reached(c, calls), ip) == Kept(IpSends(Reached(c, calls), ip), LastSweep(c, calls, ip))
  }

  lemma KeptSorted(c: Config, calls: seq<Call>, ip: string, now: int)
    requires Until(calls, now)
    ensures Sorted(Kept(IpSends(Reached(c, calls), ip), LastSweep(c, calls, ip)))
  {
    var times := IpSends(Reached(c, calls), ip);
    SendsSorted(c, calls, ip, now);
    hide IpSends, Reached, LastSweep;
    var sweep := LastSweep(c, calls, ip);
    if sweep.UpTo? {
      FilterSorted(times, sweep.cutoff);
    }
  }

  lemma KeptHas(times: seq<int>, sweep: Sweep, t: int)
    ensures t in Kept(times, sweep) <==> t in times && Survives(t, sweep)
  {
    if sweep.UpTo? {
      FilterHas(times, sweep.cutoff, t);
    }
  }

  predicate SentAt(sends: seq<Call>, ip: string, t: int) {
    exists i | 0 <= i < |sends| :: sends[i].ip == ip && sends[i].t == t
  }

  lemma HarmlessIffNotSplit(list: seq<int>, sends: seq<Call>, ip: string, floor: int, sweep: Sweep)
    requires Sorted(list) && (sweep.UpTo? ==> sweep.cutoff <= floor)
    requires forall t :: t in list <==> SentAt(sends, ip, t) && Survives(t, sweep)
    ensures Harmless(list, floor) <==> !Split(sends, ip, floor, sweep)
  {
    HarmlessIff(list, floor);
    hide Harmless;
    assert forall a :: 0 <= a < |list| ==> list[a] in list;
    if Split(sends, ip, floor, sweep) {
      var i, j :| 0 <= i < |sends| && 0 <= j < |sends| && sends[i].ip == ip && sends[j].ip == ip
                  && sends[i].t <= floor < sends[j].t && Survives(sends[i].t, sweep);
      assert SentAt(sends, ip, sends[i].t) && SentAt(sends, ip, sends[j].t);
      assert sends[i].t in list && sends[j].t in list;
    }
  }

  lemma KeptAre(x: Situation, ip: string, sweep: Sweep, t: int)
    ensures t in Kept(IpSends(x, ip), sweep) <==> SentAt(x.sends, ip, t) && Survives(t, sweep)
  {
    KeptHas(IpSends(x, ip), sweep, t);
    TimesHas(x.sends, ByIp(ip), t);
    hide Kept, Survives;
  }

  lemma HarmlessIffNotMixed(c: Config, calls: seq<Call>, q: Call)
    requires Until(calls, q.t)
    ensures Harmless(Kept(IpSends(Reached(c, calls), q.ip), LastSweep(c, calls, q.ip)), q.t - c.window) <==> !Mixed(c, calls, q)
  {
    hide Harmless, Kept, LastSweep, IpSends, Reached, Survives, SentAt, Split, Until;
    var x, sweep := Reached(c, calls), LastSweep(c, calls, q.ip);
    forall t ensures t in Kept(IpSends(x, q.ip), sweep) <==> SentAt(x.sends, q.ip, t) && Survives(t, sweep) {
      KeptAre(x, q.ip, sweep, t);
    }
    SweepIsPast(c, calls, q.ip, q.t);
    KeptSorted(c, calls, q.ip, q.t);
    HarmlessIffNotSplit(Kept(IpSends(x, q.ip), sweep), x.sends, q.ip, q.t - c.window, sweep);
  }

  /** On a list in time order, a harmless compaction changes nothing. */
  lemma HarmlessChangesNothing(stored: seq<int>, floor: int)
    requires Sorted(stored) && Harmless(stored, floor)
    ensures Compacted(stored, floor) == stored
  {
    HarmlessIff(stored, floor);
    FilterKeepsAll(stored, floor);
  }

  lemma KeptMoves(o: Outcome, times: seq<int>, sweep: Sweep, floor: int, t: int)
    requires Sorted(Kept(times, sweep)) && (sweep.UpTo? ==> sweep.cutoff <= floor < t)
    requires floor < t && (o.AccountFull? ==> Harmless(Kept(times, sweep), floor))
    ensures Moved(o, Kept(times, sweep), floor, t, true) ==
            Kept(if o.Sent? then times + [t] else times, if o.Sent? || o.IpFull? then UpTo(floor) else sweep)
  {
    FilterAppend(times, t, floor);
    if sweep.UpTo? {
      FilterTwice(times, sweep.cutoff, floor);
    }
    if o.AccountFull? {
      HarmlessChangesNothing(Kept(times, sweep), floor);
    }
  }

  /** The list of an IP after one more call, and the sweep told from the calls. */
  lemma Pushed(c: Config, calls: seq<Call>, q: Call, ip: string)
    requires Answer(c, Reached(c, calls), q) == Verdict(c, Reached(c, calls), q)
    ensures var x, y, o := Reached(c, calls), Reached(c, calls + [q]), Answer(c, Reached(c, calls), q);
            if ip == q.ip then
              && IpList(y, ip) == Moved(o, IpList(x, ip), q.t - c.window, q.t, true)
              && IpSends(y, ip) == (if o.Sent? then IpSends(x, ip) + [q.t] else IpSends(x, ip))
              && LastSweep(c, calls + [q], ip) ==
                 (if o.Sent? || o.IpFull? then UpTo(q.t - c.window) else LastSweep(c, calls, ip))
            else IpList(y, ip) == IpList(x, ip) && IpSends(y, ip) == IpSends(x, ip)
                 && LastSweep(c, calls + [q], ip) == LastSweep(c, calls, ip)
  {
    var all, n := calls + [q], |calls|;
    assert all[..n] == calls && all[n] == q;
    hide Go, Answer, Verdict, Reached, IpList, IpSends, Moved;
    ReachedStep(c, all, n);
    GoIp(c, Reached(c, calls), q, ip);
  }

  /** A call disturbs exactly when it is denied for the account and the compaction does harm. */
  lemma DisturbsIff(c: Config, calls: seq<Call>, q: Call)
    requires Until(calls, q.t) && Told(c, calls)
    requires Sane(c, Reached(c, calls), q.t - c.window) && EvenIp(Reached(c, calls), q.t - c.window)
    ensures var x := Reached(c, calls);
            && Answer(c, x, q) == Verdict(c, x, q)
            && (Disturbs(c, calls, q) <==> Answer(c, x, q).AccountFull? && !Harmless(IpList(x, q.ip), q.t - c.window))
  {
    hide Sane, EvenIp, Answer, IpList, IpSends, Verdict, Mixed, Kept, Harmless, LastSweep;
    EvenDecision(c, Reached(c, calls), q);
    HarmlessIffNotMixed(c, calls, q);
  }

  lemma KeptAfter(c: Config, calls: seq<Call>, q: Call, o: Outcome, times: seq<int>, sweep: Sweep)
    requires Positive(c) && Until(calls, q.t) && times == IpSends(Reached(c, calls), q.ip) && sweep == LastSweep(c, calls, q.ip)
    requires o.AccountFull? ==> Harmless(Kept(times, sweep), q.t - c.window)
    ensures Moved(o, Kept(times, sweep), q.t - c.window, q.t, true) ==
            Kept(if o.Sent? then times + [q.t] else times, if o.Sent? || o.IpFull? then UpTo(q.t - c.window) else sweep)
  {
    assert c.window > 0;
    hide Reached, IpSends, Kept, Harmless, Moved, LastSweep, Positive, Until;
    SweepIsPast(c, calls, q.ip, q.t);
    KeptSorted(c, calls, q.ip, q.t);
    KeptMoves(o, times, sweep, q.t - c.window, q.t);
  }

  lemma ToldAt(c: Config, calls: seq<Call>, q: Call, ip: string)
    requires Positive(c) && Until(calls, q.t)
    requires var x := Reached(c, calls);
             && Answer(c, x, q) == Verdict(c, x, q)
             && (Answer(c, x, q).AccountFull? ==> Harmless(IpList(x, q.ip), q.t - c.window))
             && IpList(x, ip) == Kept(IpSends(x, ip), LastSweep(c, calls, ip))
    ensures IpList(Reached(c, calls + [q]), ip) == Kept(IpSends(Reached(c, calls + [q]), ip), LastSweep(c, calls + [q], ip))
  {
    hide Answer, Verdict, Reached, IpList, IpSends, Kept, Harmless, Moved, LastSweep, Positive, Until;
    Pushed(c, calls, q, ip);
    if ip == q.ip {
      var x := Reached(c, calls);
      KeptAfter(c, calls, q, Answer(c, x, q), IpSends(x, ip), LastSweep(c, calls, ip));
    }
  }

  /** A call that does not disturb keeps the lists as told and even. */
  lemma ToldStep(c: Config, calls: seq<Call>, q: Call)
    requires Positive(c) && Until(calls, q.t) && Told(c, calls)
    requires Sane(c, Reached(c, calls), q.t - c.window) && EvenIp(Reached(c, calls), q.t - c.window)
    ensures !Disturbs(c, calls, q) <==> EvenIp(Reached(c, calls + [q]), q.t - c.window)
    ensures !Disturbs(c, calls, q) ==> Told(c, calls + [q])
  {
    var all, n := calls + [q], |calls|;
    assert all[..n] == calls && all[n] == q;
    hide Sane, EvenIp, Go, Answer, Verdict, Reached, IpList, IpSends, Disturbs, Kept, Harmless, LastSweep, Positive;
    DisturbsIff(c, calls, q);
    ReachedStep(c, all, n);
    EvenStep(c, Reached(c, calls), q);
    if !Disturbs(c, calls, q) {
      forall ip ensures IpList(Reached(c, all), ip) == Kept(IpSends(Reached(c, all), ip), LastSweep(c, all, ip)) {
        ToldAt(c, calls, q, ip);
      }
    }
  }

  lemma {:induction false} UndisturbedRun(c: Config, calls: seq<Call>, now: int)
    requires Positive(c) && Until(calls, now) && Undisturbed(c, calls)
    ensures Told(c, calls) && EvenIp(Reached(c, calls), now - c.window)
  {
    hide Sane, EvenIp, Told, Disturbs, Reached, Positive;
    if calls == [] {
      ReachedStart(c, now - c.window);
      ToldStart(c);
    } else {
      var n := |calls| - 1;
      var init := calls[..n];
      assert Undisturbed(c, init) by {
        forall i | 0 <= i < n ensures init[..i] == calls[..i] {
        }
      }
      UndisturbedRun(c, init, calls[n].t);
      SaneRun(c, init, calls[n].t);
      assert init + [calls[n]] == calls;
      ToldStep(c, init, calls[n]);
      EvenLater(Reached(c, calls), calls[n].t - c.window, now - c.window);
    }
  }

  lemma ToldStart(c: Config)
    ensures Told(c, [])
  {
    assert Run(c, []) == INIT && Sends(c, []) == [];
    assert forall g :: Times([], g) == [];
    assert forall k :: At(INIT.ip, k) == [];
  }

  lemma SpelledOut(c: Config, calls: seq<Call>, q: Call)
    ensures Answer(c, Reached(c, calls), q) == Decide(c, Run(c, calls), q)
    ensures Verdict(c, Reached(c, calls), q) == Judge(c, Sends(c, calls), q)
  {
  }

  /** As long as no call disturbs, every answer is the rule's, with the rule's reason. */
  lemma DecisionIsFullHistory(c: Config, calls: seq<Call>, q: Call)
    requires Positive(c) && Until(calls, q.t) && Undisturbed(c, calls)
    ensures Decide(c, Run(c, calls), q) == Judge(c, Sends(c, calls), q)
  {
    hide Sane, EvenIp, Told, Undisturbed, Verdict, Answer, Reached, Positive;
    UndisturbedRun(c, calls, q.t);
    SaneRun(c, calls, q.t);
    EvenDecision(c, Reached(c, calls), q);
    SpelledOut(c, calls, q);
  }

  /** After calls that did not disturb: the limiter follows the rule from this call on exactly when this call
  does not disturb either. */
  lemma FullHistoryIff(c: Config, calls: seq<Call>, q: Call)
    requires Positive(c) && Until(calls, q.t) && Undisturbed(c, calls)
    ensures Follows(c, Reached(c, calls + [q]), q.t) <==> !Disturbs(c, calls, q)
  {
    hide Sane, EvenIp, Told, Undisturbed, Disturbs, Follows, Reached, Positive;
    UndisturbedRun(c, calls, q.t);
    SaneRun(c, calls, q.t);
    ToldStep(c, calls, q);
    FollowsIffCounted(c, calls + [q], q.t);
  }
}
