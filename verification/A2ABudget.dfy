/** The budget of a durable relay task over every run, holders that pass the running TTL included: the
counters are charged in one guarded update, so the bounds do not depend on who holds the row. */
module A2ABudget {
  import opened A2ARelay

  /** Connector calls a request may still make on its present attempt. */
  function Left(me: Relay, key: string): nat {
    if me.key != key || !me.pc.Calling? then 0 else if me.pc.tries == 0 then 2 else 1
  }

  function First(relays: map<nat, Relay>, key: string): set<nat> {
    set r | r in relays && Left(relays[r], key) == 2
  }

  function Second(relays: map<nat, Relay>, key: string): set<nat> {
    set r | r in relays && Left(relays[r], key) == 1
  }

  /** The calls all requests of a key may still make. */
  function Open(relays: map<nat, Relay>, key: string): nat {
    2 * |First(relays, key)| + |Second(relays, key)|
  }

  lemma Changed(f: set<nat>, g: set<nat>, r: nat, now: bool)
    requires g == (f - {r}) + if now then {r} else {}
    ensures |g| == |f| + (if now then 1 else 0) - if r in f then 1 else 0
  {
    var rest := f - {r};
    assert r in f ==> f == rest + {r};
    assert r !in f ==> f == rest;
  }

  lemma FirstStep(relays: map<nat, Relay>, r: nat, me: Relay, key: string)
    ensures |First(relays[r := me], key)| == |First(relays, key)| + (if Left(me, key) == 2 then 1 else 0)
                                           - if r in relays && Left(relays[r], key) == 2 then 1 else 0
  {
    Changed(First(relays, key), First(relays[r := me], key), r, Left(me, key) == 2);
  }

  lemma SecondStep(relays: map<nat, Relay>, r: nat, me: Relay, key: string)
    ensures |Second(relays[r := me], key)| == |Second(relays, key)| + (if Left(me, key) == 1 then 1 else 0)
                                            - if r in relays && Left(relays[r], key) == 1 then 1 else 0
  {
    Changed(Second(relays, key), Second(relays[r := me], key), r, Left(me, key) == 1);
  }

  lemma OpenStep(relays: map<nat, Relay>, r: nat, me: Relay, key: string)
    ensures Open(relays[r := me], key) ==
            Open(relays, key) + Left(me, key) - if r in relays then Left(relays[r], key) else 0
  {
    hide First, Second;
    FirstStep(relays, r, me, key);
    SecondStep(relays, r, me, key);
  }

  /** Attempts charged to the row of a key. */
  function Charged(rows: map<string, Row>, key: string): nat {
    if key in rows then rows[key].calls else 0
  }

  predicate RowOk(row: Row) {
    row.calls <= row.hops <= MAX_HOPS
  }

  ghost predicate RelayFits(rows: map<string, Row>, me: Relay) {
    && (Holding(me.pc) ==> me.key in rows)
    && (me.pc.Refused? ==> me.key in rows && rows[me.key].hops + me.hops + 1 > MAX_HOPS)
    && (me.pc.Calling? ==> me.pc.tries <= 1)
  }

  ghost predicate Paid(s: State, key: string) {
    Invoked(s, key) + Open(s.relays, key) <= 2 * Charged(s.rows, key)
  }

  ghost predicate Inv(s: State) {
    && (forall key :: key in s.rows ==> RowOk(s.rows[key]))
    && (forall r :: r in s.relays ==> RelayFits(s.rows, s.relays[r]))
    && (forall key :: Paid(s, key))
  }

  /** Rows stay, and their counters never fall. */
  ghost predicate Grows(rows: map<string, Row>, more: map<string, Row>) {
    forall key :: key in rows ==> key in more && more[key].hops >= rows[key].hops && more[key].calls >= rows[key].calls
  }

  /** One request moves; what it invokes or may yet invoke is paid by its old claim or a new charge. */
  lemma MoveKeeps(s: State, t: State, r: nat)
    requires Inv(s) && r in t.relays && t.relays == s.relays[r := t.relays[r]]
    requires Grows(s.rows, t.rows) && (forall key :: key in t.rows ==> RowOk(t.rows[key])) && RelayFits(t.rows, t.relays[r])
    requires forall key :: Invoked(t, key) + Left(t.relays[r], key) - (if r in s.relays then Left(s.relays[r], key) else 0) <=
                           Invoked(s, key) + 2 * (Charged(t.rows, key) - Charged(s.rows, key))
    ensures Inv(t)
  {
    forall key ensures Paid(t, key) {
      assert Paid(s, key);
      OpenStep(s.relays, r, t.relays[r], key);
    }
    forall q | q in t.relays ensures RelayFits(t.rows, t.relays[q]) {
      if q != r {
        assert RelayFits(s.rows, s.relays[q]);
      }
    }
  }

  lemma ChargeKeeps(s: State, r: nat)
    requires Inv(s) && r in s.relays && s.relays[r].pc.Charging?
    ensures Inv(Next(s, r))
  {
    assert RelayFits(s.rows, s.relays[r]);
    assert RowOk(s.rows[s.relays[r].key]);
    MoveKeeps(s, Next(s, r), r);
  }

  /** Steps that charge nothing: new rows start at zero and old ones keep their counters. */
  lemma FreeKeeps(s: State, t: State, r: nat)
    requires Inv(s) && r in s.relays && r in t.relays && t.relays == s.relays[r := t.relays[r]] && t.invoked == s.invoked
    requires Grows(s.rows, t.rows) && RelayFits(t.rows, t.relays[r]) && !t.relays[r].pc.Calling?
    requires forall key :: key in t.rows ==>
               if key in s.rows then t.rows[key].hops == s.rows[key].hops && t.rows[key].calls == s.rows[key].calls
               else t.rows[key].hops == t.rows[key].calls == 0
    ensures Inv(t)
  {
    MoveKeeps(s, t, r);
  }

  lemma ActKeeps(s: State, r: nat)
    requires Inv(s) && r in s.relays && !s.relays[r].pc.Charging?
    ensures Inv(Next(s, r))
  {
    var t := Next(s, r);
    if t != s {
      assert t.rows == s.rows || s.relays[r].pc.Admitted? || s.relays[r].pc.Creating? || s.relays[r].pc.Starting?;
      hide Inv;
      FreeKeeps(s, t, r);
    }
  }

  lemma CallKeeps(s: State, r: nat, result: CallResult)
    requires Inv(s) && r in s.relays && s.relays[r].pc.Calling?
    ensures Inv(CallOnce(s, r, result))
  {
    assert RelayFits(s.rows, s.relays[r]);
    MoveKeeps(s, CallOnce(s, r, result), r);
  }

  lemma SettleKeeps(s: State, r: nat, stored: bool, reported: bool)
    requires Inv(s) && r in s.relays
    ensures Inv(SettleTask(s, r, stored, reported))
  {
    var t := SettleTask(s, r, stored, reported);
    if t != s {
      MoveKeeps(s, t, r);
    }
  }

  lemma OtherKeeps(s: State, e: Event)
    requires Inv(s) && (e.Tick? || e.Arrive? || e.Approve? || e.ReadLimit? || e.Crash?)
    ensures Inv(Step(s, e))
  {
    var t := Step(s, e);
    if e.Tick? {
      assert forall key :: Paid(s, key) ==> Paid(t, key);
    } else if t != s {
      assert e.r in s.relays ==> RelayFits(s.rows, s.relays[e.r]);
      MoveKeeps(s, t, e.r);
    }
  }

  lemma StepKeeps(s: State, e: Event)
    requires Inv(s)
    ensures Inv(Step(s, e))
  {
    hide Inv;
    match e
    case Act(r) => if r in s.relays { if s.relays[r].pc.Charging? { ChargeKeeps(s, r); } else { ActKeeps(s, r); } }
    case CallPeer(r, result) => if r in s.relays && s.relays[r].pc.Calling? { CallKeeps(s, r, result); }
    case Settle(r, stored, reported) => if r in s.relays { SettleKeeps(s, r, stored, reported); }
    case _ => OtherKeeps(s, e);
  }

  lemma {:induction false} RunKeeps(events: seq<Event>)
    ensures Inv(Run(events))
  {
    if events == [] {
      assert forall key :: First(INIT.relays, key) == {} && Second(INIT.relays, key) == {};
    } else {
      RunKeeps(events[..|events| - 1]);
      StepKeeps(Run(events[..|events| - 1]), events[|events| - 1]);
    }
  }

  /** In every run, over the whole life of a task: at most three attempts are charged and six connector calls
  made, and a charge is refused exactly when the hops do not fit, never for the number of calls. */
  lemma BudgetHolds(events: seq<Event>, key: string, hops: nat)
    requires key in Run(events).rows
    ensures Run(events).rows[key].calls <= Run(events).rows[key].hops <= 3
    ensures Invoked(Run(events), key) <= 6
    ensures Affordable(Run(events).rows[key], hops) <==> Run(events).rows[key].hops + hops <= MAX_HOPS
  {
    RunKeeps(events);
    assert RowOk(Run(events).rows[key]) && Paid(Run(events), key);
  }

  lemma RunNext(events: seq<Event>, e: Event)
    ensures Run(events + [e]) == Step(Run(events), e)
  {
    assert (events + [e])[..|events|] == events;
  }

  lemma ChargeStep(s: State, r: nat)
    requires Inv(s) && r in s.relays && s.relays[r].pc.Charging?
    ensures var me, t := s.relays[r], Step(s, Act(r));
            && me.key in s.rows && me.key in t.rows && r in t.relays
            && if s.rows[me.key].hops + me.hops + 1 <= 3
               then t.relays[r].pc == Calling(0) && t.rows[me.key].hops == s.rows[me.key].hops + me.hops + 1
                    && t.rows[me.key].calls == s.rows[me.key].calls + 1
               else t.relays[r].pc == Refused && t.rows == s.rows
  {
    assert RelayFits(s.rows, s.relays[r]);
    assert RowOk(s.rows[s.relays[r].key]);
  }

  /** In every run a claimed task is charged, and called, exactly when the hops of all its attempts come to three
  at most with the request's own; the charge is then the request's hops and one call. */
  lemma ChargeDecides(events: seq<Event>, r: nat)
    requires r in Run(events).relays && Run(events).relays[r].pc.Charging?
    ensures var s, t := Run(events), Run(events + [Act(r)]);
            var key, hops := s.relays[r].key, s.relays[r].hops + 1;
            && key in s.rows && key in t.rows && r in t.relays
            && if s.rows[key].hops + hops <= 3
               then t.relays[r].pc == Calling(0) && t.rows[key].hops == s.rows[key].hops + hops
                    && t.rows[key].calls == s.rows[key].calls + 1
               else t.relays[r].pc == Refused && t.rows == s.rows
  {
    RunKeeps(events);
    RunNext(events, Act(r));
    hide Inv;
    ChargeStep(Run(events), r);
  }

  lemma RefusalSteps(s: State, r: nat, readable: bool, stored: bool)
    requires Inv(s) && r in s.relays && s.relays[r].pc.Refused?
    ensures var t, key := Step(Step(s, ReadLimit(r, readable)), Settle(r, stored, true)), s.relays[r].key;
            && r in t.relays && t.relays[r].pc == Done(if readable then HopLimit else CallLimit)
            && key in t.rows && (stored ==> t.rows[key].status == Failed) && (!stored ==> t.rows == s.rows)
  {
    assert RelayFits(s.rows, s.relays[r]);
  }

  /** In every run a refused charge ends as the hop limit if its row can be read back, and as the call limit if
  not; its row is then failed, unless that could not be stored. */
  lemma RefusalIsHopLimit(events: seq<Event>, r: nat, readable: bool, stored: bool)
    requires r in Run(events).relays && Run(events).relays[r].pc.Refused?
    ensures var s, t := Run(events), Run(events + [ReadLimit(r, readable)] + [Settle(r, stored, true)]);
            var key := s.relays[r].key;
            && r in t.relays && t.relays[r].pc == Done(if readable then HopLimit else CallLimit)
            && key in t.rows && (stored ==> t.rows[key].status == Failed) && (!stored ==> t.rows == s.rows)
  {
    RunKeeps(events);
    RunNext(events, ReadLimit(r, readable));
    RunNext(events + [ReadLimit(r, readable)], Settle(r, stored, true));
    hide Inv;
    RefusalSteps(Run(events), r, readable, stored);
  }

  /** The connector is called only for a key that has a row, so the six calls bound every key. */
  lemma CallsAreCharged(events: seq<Event>, key: string)
    ensures Invoked(Run(events), key) > 0 ==> key in Run(events).rows
  {
    RunKeeps(events);
    assert Paid(Run(events), key);
  }
}
