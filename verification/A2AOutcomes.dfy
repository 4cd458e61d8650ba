/** What the outcomes of the durable relay mean, over every run and without any assumption on time: each has its
cause among the events, each call of the connector is counted once, and rows say when and by whom they were
changed. */
module A2AOutcomes {
  import opened A2ARelay
  import A2ABudget

  function World(events: seq<Event>, n: nat): State
    requires n <= |events|
  {
    Run(events[..n])
  }

  lemma WorldNext(events: seq<Event>, n: nat)
    requires n < |events|
    ensures World(events, n + 1) == Step(World(events, n), events[n])
  {
    assert events[..n + 1][..n] == events[..n];
  }

  lemma WorldFirst(events: seq<Event>)
    ensures World(events, 0) == INIT
  {
    assert events[..0] == [];
  }

  // ----- rows

  /** Rows stay under their task, and do not become pending again; only completed ones carry a result. */
  ghost predicate RowGoesOn(row: Row, next: Row, now: int) {
    && next.taskId == row.taskId && (next.status == Pending ==> row.status == Pending)
    && ((row.status != Completed ==> row.result == "") ==> next.status != Completed ==> next.result == "")
    && (next != row ==> next.updatedAt == now)
  }

  lemma RowStep(s: State, e: Event, key: string)
    requires key in s.rows
    ensures key in Step(s, e).rows && RowGoesOn(s.rows[key], Step(s, e).rows[key], s.now)
  {
  }

  lemma NewRow(s: State, e: Event, key: string)
    requires key !in s.rows && key in Step(s, e).rows
    ensures e.Act? && Step(s, e).rows[key] == Row(e.r, Pending, "", 0, 0, s.now)
  {
  }

  /** Every change of a row is stamped with the time at which it was made. */
  lemma ChangesAreStamped(events: seq<Event>, n: nat, key: string)
    requires n < |events| && key in World(events, n + 1).rows
    ensures var s, row := World(events, n), World(events, n + 1).rows[key];
            !(key in s.rows && s.rows[key] == row) ==> row.updatedAt == s.now
  {
    WorldNext(events, n);
    hide World;
    if key in World(events, n).rows {
      RowStep(World(events, n), events[n], key);
    } else {
      NewRow(World(events, n), events[n], key);
    }
  }

  /** Only a completed task has a result. */
  lemma {:induction false} ResultMeansCompleted(events: seq<Event>, n: nat, key: string)
    requires n <= |events| && key in World(events, n).rows
    ensures World(events, n).rows[key].result != "" ==> World(events, n).rows[key].status == Completed
  {
    if n == 0 {
      WorldFirst(events);
    } else {
      WorldNext(events, n - 1);
      hide World;
      if key in World(events, n - 1).rows {
        ResultMeansCompleted(events, n - 1, key);
        RowStep(World(events, n - 1), events[n - 1], key);
      } else {
        NewRow(World(events, n - 1), events[n - 1], key);
      }
    }
  }

  // ----- who may claim

  /** Where a request stands, its row is there; and only its creator stands before the claim of a pending one. */
  ghost predicate Placed(rows: map<string, Row>, r: nat, me: Relay) {
    && (me.pc in {Created, Adopting, Starting, Approving(true)} || Holding(me.pc) ==> me.key in rows)
    && (me.pc == Approving(true) ==> rows[me.key].status != Pending)
    && (me.pc == Starting ==> rows[me.key].status == Pending ==> rows[me.key].taskId == r)
  }

  ghost predicate AllPlaced(s: State) {
    forall r :: r in s.relays ==> Placed(s.rows, r, s.relays[r])
  }

  /** The rows move on and the request stays where it is. */
  lemma OthersStay(s: State, e: Event, r: nat)
    requires r in s.relays && Placed(s.rows, r, s.relays[r])
    ensures Placed(Step(s, e).rows, r, s.relays[r])
  {
    var key := s.relays[r].key;
    if key in s.rows {
      RowStep(s, e, key);
    }
  }

  lemma ActPlaces(s: State, r: nat)
    requires r in s.relays && Placed(s.rows, r, s.relays[r])
    ensures r in Step(s, Act(r)).relays && Placed(Step(s, Act(r)).rows, r, Step(s, Act(r)).relays[r])
  {
  }

  lemma OtherPlaces(s: State, e: Event, r: nat)
    requires r in s.relays && Placed(s.rows, r, s.relays[r]) && !e.Act? && !e.Tick? && e.r == r
    ensures r in Step(s, e).relays && Placed(Step(s, e).rows, r, Step(s, e).relays[r])
  {
  }

  lemma RelayPlaces(s: State, e: Event, r: nat)
    requires AllPlaced(s) && r in Step(s, e).relays
    ensures Placed(Step(s, e).rows, r, Step(s, e).relays[r])
  {
    var t := Step(s, e);
    if r !in s.relays {
      assert t.relays[r].pc == New;
    } else if e.Tick? || e.r != r {
      assert t.relays[r] == s.relays[r];
      OthersStay(s, e, r);
    } else if e.Act? {
      ActPlaces(s, r);
    } else {
      OtherPlaces(s, e, r);
    }
    hide Placed;
  }

  lemma StepPlaces(s: State, e: Event)
    requires AllPlaced(s)
    ensures AllPlaced(Step(s, e))
  {
    var t := Step(s, e);
    forall r | r in t.relays ensures Placed(t.rows, r, t.relays[r]) {
      RelayPlaces(s, e, r);
    }
    hide Placed;
  }

  lemma {:induction false} RunPlaces(events: seq<Event>, n: nat)
    requires n <= |events|
    ensures AllPlaced(World(events, n))
  {
    if n == 0 {
      WorldFirst(events);
    } else {
      RunPlaces(events, n - 1);
      WorldNext(events, n - 1);
      hide World, AllPlaced;
      StepPlaces(World(events, n - 1), events[n - 1]);
    }
  }

  /** A task that has not been tried is claimed by the request that created it and by no other. */
  lemma PendingIsItsCreators(events: seq<Event>, n: nat, r: nat)
    requires n < |events| && events[n] == Act(r) && r in World(events, n).relays && World(events, n).relays[r].pc == Starting
    ensures var s, key := World(events, n), World(events, n).relays[r].key;
            key in s.rows && (s.rows[key].status == Pending ==> s.rows[key].taskId == r)
  {
    RunPlaces(events, n);
    assert Placed(World(events, n).rows, r, World(events, n).relays[r]);
  }

  // ----- the claim behind a holder

  /** At event i the request claimed the row, at that time. */
  ghost predicate ClaimedAt(events: seq<Event>, i: nat, r: nat, me: Relay)
    requires i < |events|
  {
    var s := World(events, i);
    && events[i] == Act(r) && r in s.relays && s.relays[r].pc == Starting && s.relays[r].key == me.key && me.claimedAt == s.now
    && me.key in s.rows && s.rows[me.key].status in {Pending, Failed, Cancelled}
  }

  ghost predicate HoldsOn(s: State, t: State, e: Event, r: nat)
    requires r in s.relays && r in t.relays
  {
    var me, now := s.relays[r], t.relays[r];
    && now.key == me.key
    && if Holding(me.pc) then now.claimedAt == me.claimedAt
       else e == Act(r) && me.pc == Starting && now.claimedAt == s.now
            && me.key in s.rows && s.rows[me.key].status in {Pending, Failed, Cancelled}
  }

  lemma ClaimAct(s: State, r: nat)
    requires r in s.relays && r in Step(s, Act(r)).relays && Holding(Step(s, Act(r)).relays[r].pc)
    ensures HoldsOn(s, Step(s, Act(r)), Act(r), r)
  {
  }

  lemma ClaimOther(s: State, e: Event, r: nat)
    requires e != Act(r) && r in Step(s, e).relays && Holding(Step(s, e).relays[r].pc)
    ensures r in s.relays && HoldsOn(s, Step(s, e), e, r)
  {
  }

  lemma ClaimStep(s: State, e: Event, r: nat)
    requires r in Step(s, e).relays && Holding(Step(s, e).relays[r].pc)
    ensures r in s.relays && HoldsOn(s, Step(s, e), e, r)
  {
    hide HoldsOn;
    if e == Act(r) {
      ClaimAct(s, r);
    } else {
      ClaimOther(s, e, r);
    }
  }

  /** Whoever holds a task claimed it from a state in which nobody ran it, at the time it has on record. */
  lemma {:induction false} HolderClaimed(events: seq<Event>, n: nat, r: nat) returns (i: nat)
    requires n <= |events| && r in World(events, n).relays && Holding(World(events, n).relays[r].pc)
    ensures i < n && ClaimedAt(events, i, r, World(events, n).relays[r])
  {
    i := 0;
    if n == 0 {
      WorldFirst(events);
    } else {
      WorldNext(events, n - 1);
      hide World;
      ClaimStep(World(events, n - 1), events[n - 1], r);
      if Holding(World(events, n - 1).relays[r].pc) {
        i := HolderClaimed(events, n - 1, r);
      } else {
        i := n - 1;
      }
    }
  }

  // ----- every call is counted

  /** Event i called the connector for the key; an open circuit lets no call through. */
  predicate CallsAt(events: seq<Event>, i: nat, key: string)
    requires i < |events|
  {
    var s, e := World(events, i), events[i];
    e.CallPeer? && !e.result.CircuitOpen? && e.r in s.relays && s.relays[e.r].pc.Calling? && s.relays[e.r].key == key
  }

  function Calls(events: seq<Event>, n: nat, key: string): nat
    requires n <= |events|
  {
    if n == 0 then 0 else Calls(events, n - 1, key) + if CallsAt(events, n - 1, key) then 1 else 0
  }

  lemma CountStep(s: State, e: Event, key: string)
    ensures Invoked(Step(s, e), key) == Invoked(s, key) +
            if e.CallPeer? && !e.result.CircuitOpen? && e.r in s.relays && s.relays[e.r].pc.Calling? && s.relays[e.r].key == key then 1 else 0
  {
  }

  lemma {:induction false} InvokedIsExact(events: seq<Event>, n: nat, key: string)
    requires n <= |events|
    ensures Invoked(World(events, n), key) == Calls(events, n, key)
  {
    if n == 0 {
      WorldFirst(events);
    } else {
      InvokedIsExact(events, n - 1, key);
      WorldNext(events, n - 1);
      hide World;
      CountStep(World(events, n - 1), events[n - 1], key);
    }
  }

  /** Over the whole life of a task the connector is called at most six times. */
  lemma AtMostSixCalls(events: seq<Event>, key: string)
    ensures Calls(events, |events|, key) <= 6
  {
    InvokedIsExact(events, |events|, key);
    assert events[..|events|] == events;
    A2ABudget.CallsAreCharged(events, key);
    if key in Run(events).rows {
      A2ABudget.BudgetHolds(events, key, 0);
    }
  }

  // ----- every outcome has its cause

  /** The charge for the request was refused at event i, because the hops did not fit. */
  ghost predicate RefusedAt(events: seq<Event>, i: nat, r: nat)
    requires i < |events|
  {
    var s := World(events, i);
    && events[i] == Act(r) && r in s.relays && s.relays[r].pc == Charging
    && s.relays[r].key in s.rows && s.rows[s.relays[r].key].hops + s.relays[r].hops + 1 > 3
  }

  /** The request found its task taken at event i. */
  ghost predicate TakenAt(events: seq<Event>, i: nat, r: nat)
    requires i < |events|
  {
    var s := World(events, i);
    && events[i] == Act(r) && r in s.relays
    && s.relays[r].key in s.rows && s.rows[s.relays[r].key].status in {Pending, Running, Completed}
  }

  /** The request came with too many hops. */
  ghost predicate TurnedAwayAt(events: seq<Event>, i: nat, r: nat)
    requires i < |events|
  {
    events[i] == Act(r) && r in World(events, i).relays && World(events, i).relays[r].pc == New && World(events, i).relays[r].hops >= 3
  }

  /** The peer's call failed, or the request crashed, was denied, or its result was not stored or reported. */
  predicate FailedAt(events: seq<Event>, i: nat, r: nat)
    requires i < |events|
  {
    match events[i]
    case Crash(q) => q == r
    case Approve(q, ok) => q == r && !ok
    case CallPeer(q, result) => q == r && !result.Ok?
    case Settle(q, stored, reported) => q == r && !(stored && reported)
    case _ => false
  }

  ghost predicate Cause(events: seq<Event>, i: nat, r: nat, o: Outcome)
    requires i < |events|
  {
    match o
    case Success(_, _) => true
    case InProgress => TakenAt(events, i, r)
    case HopLimit => TurnedAwayAt(events, i, r) || RefusedAt(events, i, r)
    case CallLimit => events[i] == ReadLimit(r, false)
    case Failure => FailedAt(events, i, r)
  }

  /** What will be the cause of the outcome the request is on its way to. */
  function Heading(pc: Pc): Option<Outcome> {
    match pc
    case Done(o) => if o.Success? then None else Some(o)
    case Refused => Some(HopLimit)
    case Limited(byHops) => Some(if byHops then HopLimit else CallLimit)
    case Called(ok, _) => if ok then None else Some(Failure)
    case _ => None
  }

  datatype Option<+T> = None | Some(value: T)

  ghost predicate Caused(events: seq<Event>, n: nat, r: nat, o: Outcome)
    requires n <= |events|
  {
    exists i :: 0 <= i < n && Cause(events, i, r, o)
  }

  ghost predicate HeadsOn(events: seq<Event>, n: nat, r: nat)
    requires n < |events| && r in World(events, n).relays && r in Step(World(events, n), events[n]).relays
  {
    var h := Heading(Step(World(events, n), events[n]).relays[r].pc);
    h.Some? ==> Heading(World(events, n).relays[r].pc) == h || Cause(events, n, r, h.value)
  }

  lemma OthersHead(events: seq<Event>, n: nat, r: nat)
    requires n < |events| && r in World(events, n).relays && (events[n].Tick? || events[n].r != r)
    ensures r in Step(World(events, n), events[n]).relays && HeadsOn(events, n, r)
  {
    hide World, Cause;
  }

  lemma SettleHeads(events: seq<Event>, n: nat, r: nat)
    requires n < |events| && events[n].Settle? && events[n].r == r && r in World(events, n).relays
    requires Placed(World(events, n).rows, r, World(events, n).relays[r])
    ensures r in Step(World(events, n), events[n]).relays && HeadsOn(events, n, r)
  {
    hide World;
  }

  lemma ReadHeads(events: seq<Event>, n: nat, r: nat)
    requires n < |events| && events[n].ReadLimit? && events[n].r == r && r in World(events, n).relays
    requires A2ABudget.RelayFits(World(events, n).rows, World(events, n).relays[r])
    ensures r in Step(World(events, n), events[n]).relays && HeadsOn(events, n, r)
  {
    hide World;
  }

  lemma OwnHeads(events: seq<Event>, n: nat, r: nat)
    requires n < |events| && r in World(events, n).relays
    requires (events[n].Arrive? || events[n].Approve? || events[n].CallPeer? || events[n].Crash?) && events[n].r == r
    ensures r in Step(World(events, n), events[n]).relays && HeadsOn(events, n, r)
  {
    hide World;
  }

  /** One step: the request heads where it did, or this step is the cause. */
  lemma HeadingStep(events: seq<Event>, n: nat, r: nat)
    requires n < |events| && A2ABudget.Inv(World(events, n)) && AllPlaced(World(events, n)) && r in World(events, n).relays
    ensures r in Step(World(events, n), events[n]).relays && HeadsOn(events, n, r)
  {
    var s, e := World(events, n), events[n];
    PlacedOne(s, r);
    A2ABudgetFits(s, r);
    hide World, AllPlaced, HeadsOn, Placed;
    if e.Tick? || e.r != r {
      OthersHead(events, n, r);
    } else if e.Act? {
      ActHeads(events, n, r);
    } else if e.Settle? {
      SettleHeads(events, n, r);
    } else if e.ReadLimit? {
      ReadHeads(events, n, r);
    } else {
      OwnHeads(events, n, r);
    }
  }

  lemma NewcomersHeadNowhere(s: State, e: Event, r: nat)
    requires r !in s.relays && r in Step(s, e).relays
    ensures Heading(Step(s, e).relays[r].pc).None?
  {
  }

  lemma PlacedOne(s: State, r: nat)
    requires AllPlaced(s) && r in s.relays
    ensures Placed(s.rows, r, s.relays[r])
  {
  }

  lemma A2ABudgetFits(s: State, r: nat)
    requires A2ABudget.Inv(s) && r in s.relays
    ensures A2ABudget.RelayFits(s.rows, s.relays[r])
  {
  }

  lemma ActHeads(events: seq<Event>, n: nat, r: nat)
    requires n < |events| && events[n] == Act(r) && r in World(events, n).relays && A2ABudget.Inv(World(events, n))
    requires Placed(World(events, n).rows, r, World(events, n).relays[r])
    ensures r in Step(World(events, n), events[n]).relays && HeadsOn(events, n, r)
  {
    hide World;
    var s := World(events, n);
    if s.relays[r].pc.Charging? {
      A2ABudget.ChargeStep(s, r);
    }
  }

  lemma CausedLater(events: seq<Event>, n: nat, r: nat, o: Outcome)
    requires n < |events| && (Caused(events, n, r, o) || Cause(events, n, r, o))
    ensures Caused(events, n + 1, r, o)
  {
    hide Cause;
  }

  lemma {:induction false} HeadingHasCause(events: seq<Event>, n: nat, r: nat)
    requires n <= |events| && r in World(events, n).relays && Heading(World(events, n).relays[r].pc).Some?
    ensures Caused(events, n, r, Heading(World(events, n).relays[r].pc).value)
  {
    if n == 0 {
      WorldFirst(events);
    } else {
      WorldNext(events, n - 1);
      A2ABudget.RunKeeps(events[..n - 1]);
      RunPlaces(events, n - 1);
      if r in World(events, n - 1).relays {
        HeadingStep(events, n - 1, r);
      } else {
        NewcomersHeadNowhere(World(events, n - 1), events[n - 1], r);
      }
      hide World, Heading, Caused, Cause, AllPlaced;
      var o := Heading(World(events, n).relays[r].pc).value;
      if Heading(World(events, n - 1).relays[r].pc) == Some(o) {
        HeadingHasCause(events, n - 1, r);
      }
      CausedLater(events, n - 1, r, o);
    }
  }

  /** In every run an outcome other than a success has its cause among the events: the key was found taken; the
  hops did not fit, at the gate or at the charge; the refused row could not be read; or the peer, the approval,
  the store or the request itself failed. */
  lemma OutcomesAreTrue(events: seq<Event>, r: nat, o: Outcome)
    requires r in Run(events).relays && Run(events).relays[r].pc == Done(o) && !o.Success?
    ensures exists i :: 0 <= i < |events| && Cause(events, i, r, o)
  {
    assert events[..|events|] == events;
    HeadingHasCause(events, |events|, r);
    hide Cause;
  }

  // ----- steps that go on

  /** A request that lost the race to create adopts the row it finds: it is answered from a completed one, told of
  a running one, and goes on to claim a failed one without a second approval. */
  lemma AdoptionDecides(events: seq<Event>, r: nat)
    requires r in Run(events).relays && Run(events).relays[r].pc == Adopting
    ensures var s, t := Run(events), Run(events + [Act(r)]);
            var key := s.relays[r].key;
            && key in s.rows && r in t.relays && t.rows == s.rows
            && t.relays[r].pc == match s.rows[key].status
                                 case Completed => Done(Success(s.rows[key].taskId, s.rows[key].result))
                                 case Pending => Done(InProgress)
                                 case Running => Done(InProgress)
                                 case Failed => Starting
                                 case Cancelled => Starting
  {
    assert events[..|events|] == events && (events + [Act(r)])[..|events|] == events;
    RunPlaces(events, |events|);
    assert Placed(Run(events).rows, r, Run(events).relays[r]);
  }

  /** A call that failed leaves a failed task, which a later request may retry. */
  lemma FailedCallFails(events: seq<Event>, r: nat, reported: bool)
    requires r in Run(events).relays && Run(events).relays[r].pc.Called? && !Run(events).relays[r].pc.ok
    ensures var s, t := Run(events), Run(events + [Settle(r, true, reported)]);
            var key := s.relays[r].key;
            && r in t.relays && t.relays[r].pc == Done(Failure)
            && key in t.rows && t.rows[key].status == Failed && t.rows[key].result == ""
  {
    assert events[..|events|] == events && (events + [Settle(r, true, reported)])[..|events|] == events;
    RunPlaces(events, |events|);
    assert Placed(Run(events).rows, r, Run(events).relays[r]);
  }
}
