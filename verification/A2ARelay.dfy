/** The durable outbound A2A relay. Any number of requests run `invokeA2ARelay` at once, each a
sequence of store calls; an event below is one of those calls, or a crash, or the passing of time.

The store is `A2ATaskStore`: one row for each idempotency key, insert if absent, and updates guarded
by the status or the counters. A row is addressed here by its key; its task id is the id of the
request that created it and never changes. Time is in seconds, as the store writes it. */
module A2ARelay {

  const MAX_HOPS := 3
  const MAX_CALLS := 16
  const RUNNING_TTL := 300

  datatype Status = Pending | Running | Completed | Failed | Cancelled

  datatype Row = Row(taskId: nat, status: Status, result: string, hops: nat, calls: nat, updatedAt: int)

  datatype Outcome =
    | Success(taskId: nat, content: string)  // a completion or the replay of one
    | InProgress
    | HopLimit
    | CallLimit
    | Failure

  /** Where a request stands: between two store calls. */
  datatype Pc =
    | New                                    // before the hop gate
    | Admitted                               // before ReapStaleRunning
    | Reaped                                 // before GetByIdempotency
    | Approving(durable: bool)               // before admission and approval; durable: a failed task is retried
    | Creating                               // before Create
    | Created                                // before GetByTask
    | Adopting                               // before the second GetByIdempotency
    | Starting                               // before TryStart
    | Charging                               // the row is claimed; before AdvanceCounters
    | Refused                                // before the limit error is read
    | Limited(byHops: bool)                  // before the refused task is marked failed
    | Calling(tries: nat)                    // before a connector call
    | Called(ok: bool, content: string)      // before the result is stored
    | Done(outcome: Outcome)

  datatype Relay = Relay(key: string, hops: nat, started: int, claimedAt: int, pc: Pc)

  datatype State = State(now: int, rows: map<string, Row>, relays: map<nat, Relay>, invoked: map<string, nat>)

  /** How one connector call ends. */
  datatype CallResult = Ok(content: string) | Retryable | Fatal | CircuitOpen

  datatype Event =
    | Tick(seconds: nat)
    | Arrive(r: nat, key: string, hops: nat)
    | Act(r: nat)                            // the next store call, answered
    | Approve(r: nat, ok: bool)
    | ReadLimit(r: nat, readable: bool)
    | CallPeer(r: nat, result: CallResult)
    | Settle(r: nat, stored: bool, reported: bool)
    | Crash(r: nat)                          // an error return, a cancelled context, a dead process

  // ----- the store

  predicate Claimable(status: Status) {
    status == Pending || status == Failed || status == Cancelled
  }

  predicate Stale(row: Row, staleBefore: int) {
    row.status == Running && row.updatedAt < staleBefore
  }

  function ReapRow(row: Row, staleBefore: int, now: int): Row {
    if Stale(row, staleBefore) then row.(status := Failed, result := "", updatedAt := now) else row
  }

  function Reap(rows: map<string, Row>, staleBefore: int, now: int): map<string, Row> {
    map k | k in rows :: ReapRow(rows[k], staleBefore, now)
  }

  predicate Affordable(row: Row, hops: nat) {
    row.hops + hops <= MAX_HOPS && row.calls + 1 <= MAX_CALLS
  }

  // ----- the steps of a request

  function Go(s: State, r: nat, pc: Pc): State
    requires r in s.relays
  {
    s.(relays := s.relays[r := s.relays[r].(pc := pc)])
  }

  function Put(s: State, key: string, row: Row): State {
    s.(rows := s.rows[key := row])
  }

  /** What a row found under the key means: a replay, a refusal, or a task to retry. */
  function OnFound(row: Row): Pc {
    match row.status
    case Completed => Done(Success(row.taskId, row.result))
    case Pending => Done(InProgress)
    case Running => Done(InProgress)
    case _ => Approving(true)
  }

  function Next(s: State, r: nat): State
    requires r in s.relays
  {
    var me := s.relays[r];
    match me.pc
    case New => Go(s, r, if me.hops >= MAX_HOPS then Done(HopLimit) else Admitted)
    case Admitted => Go(s.(rows := Reap(s.rows, me.started - RUNNING_TTL, s.now)), r, Reaped)
    case Reaped => Go(s, r, if me.key in s.rows then OnFound(s.rows[me.key]) else Approving(false))
    case Creating =>
      Go(if me.key in s.rows then s else Put(s, me.key, Row(r, Pending, "", 0, 0, s.now)), r, Created)
    case Created => Go(s, r, if me.key in s.rows && s.rows[me.key].taskId == r then Starting else Adopting)
    case Adopting =>
      if me.key !in s.rows then Go(s, r, Done(Failure))
      else
        var pc := OnFound(s.rows[me.key]);
        Go(s, r, if pc == Approving(true) then Starting else pc)
    case Starting =>
      if me.key in s.rows && Claimable(s.rows[me.key].status) then
        var row := s.rows[me.key].(status := Running, result := "", updatedAt := s.now);
        Put(s, me.key, row).(relays := s.relays[r := me.(claimedAt := s.now, pc := Charging)])
      else Go(s, r, Done(InProgress))
    case Charging =>
      if me.key in s.rows && Affordable(s.rows[me.key], me.hops + 1) then
        var row := s.rows[me.key];
        Go(Put(s, me.key, row.(hops := row.hops + me.hops + 1, calls := row.calls + 1, updatedAt := s.now)), r, Calling(0))
      else Go(s, r, Refused)
    case _ => s
  }

  /** a2aTaskLimitError: which limit is reported for a refused charge. */
  predicate LimitIsHops(s: State, r: nat, readable: bool)
    requires r in s.relays
  {
    var me := s.relays[r];
    readable && me.key in s.rows && s.rows[me.key].hops + me.hops + 1 > MAX_HOPS
  }

  function Count(s: State, key: string): State {
    s.(invoked := s.invoked[key := (if key in s.invoked then s.invoked[key] else 0) + 1])
  }

  /** One connector call: a retryable failure is tried once more. */
  function CallOnce(s: State, r: nat, result: CallResult): State
    requires r in s.relays && s.relays[r].pc.Calling?
  {
    var me := s.relays[r];
    Go(if result.CircuitOpen? then s else Count(s, me.key), r,
       match result
       case Ok(content) => Called(true, content)
       case Retryable => if me.pc.tries == 0 then Calling(1) else Called(false, "")
       case _ => Called(false, ""))
  }

  /** SetStatusResult: it may be lost, and the answer to the caller may be lost after it. */
  function SettleTask(s: State, r: nat, stored: bool, reported: bool): State
    requires r in s.relays
  {
    var me := s.relays[r];
    match me.pc
    case Limited(byHops) =>
      var t := if stored && me.key in s.rows then
        Put(s, me.key, s.rows[me.key].(status := Failed, result := "", updatedAt := s.now)) else s;
      Go(t, r, Done(if !reported then Failure else if byHops then HopLimit else CallLimit))
    case Called(ok, content) =>
      var t := if stored && me.key in s.rows then
        Put(s, me.key, s.rows[me.key].(status := if ok then Completed else Failed,
                                       result := if ok then content else "", updatedAt := s.now)) else s;
      Go(t, r, Done(if ok && stored && reported && me.key in s.rows then Success(s.rows[me.key].taskId, content) else Failure))
    case _ => s
  }

  function Step(s: State, e: Event): State {
    match e
    case Tick(seconds) => s.(now := s.now + seconds)
    case Arrive(r, key, hops) =>
      if r in s.relays then s else s.(relays := s.relays[r := Relay(key, hops, s.now, s.now, New)])
    case Act(r) => if r in s.relays then Next(s, r) else s
    case Approve(r, ok) =>
      if r in s.relays && s.relays[r].pc.Approving? then
        Go(s, r, if !ok then Done(Failure) else if s.relays[r].pc.durable then Starting else Creating)
      else s
    case ReadLimit(r, readable) =>
      if r in s.relays && s.relays[r].pc.Refused? then Go(s, r, Limited(LimitIsHops(s, r, readable))) else s
    case CallPeer(r, result) => if r in s.relays && s.relays[r].pc.Calling? then CallOnce(s, r, result) else s
    case Settle(r, stored, reported) => if r in s.relays then SettleTask(s, r, stored, reported) else s
    case Crash(r) => if r in s.relays && !s.relays[r].pc.Done? then Go(s, r, Done(Failure)) else s
  }

  const INIT := State(0, map[], map[], map[])

  function Run(events: seq<Event>): State {
    if events == [] then INIT else Step(Run(events[..|events| - 1]), events[|events| - 1])
  }

  // ----- claims

  /** Between a successful claim and the settling of the durable task. */
  predicate Holding(pc: Pc) {
    pc.Charging? || pc.Refused? || pc.Limited? || pc.Calling? || pc.Called?
  }

  /** The operating assumption: whoever holds a task settles it, or dies, within the running TTL. */
  ghost predicate Timely(s: State) {
    forall r :: r in s.relays && Holding(s.relays[r].pc) ==> s.now - s.relays[r].claimedAt <= RUNNING_TTL
  }

  ghost predicate TimelyRun(events: seq<Event>) {
    forall n :: 0 <= n <= |events| ==> Timely(Run(events[..n]))
  }

  // ----- the invariant

  function Invoked(s: State, key: string): nat {
    if key in s.invoked then s.invoked[key] else 0
  }

  ghost predicate HolderOk(me: Relay, row: Row) {
    row.status == Running && row.updatedAt >= me.claimedAt
  }

  ghost predicate RelayOk(s: State, me: Relay) {
    && me.started <= s.now && me.claimedAt <= s.now
    && (Holding(me.pc) ==> me.key in s.rows && HolderOk(me, s.rows[me.key]))
    && (me.pc.Done? && me.pc.outcome.Success? ==>
          && me.key in s.rows && s.rows[me.key].status == Completed
          && me.pc.outcome == Success(s.rows[me.key].taskId, s.rows[me.key].result))
  }

  ghost predicate RelaysOk(s: State) {
    forall r :: r in s.relays ==> RelayOk(s, s.relays[r])
  }

  /** At most one request holds the durable task of a key. */
  ghost predicate Exclusive(s: State) {
    forall r, q :: r in s.relays && q in s.relays && r != q && Holding(s.relays[r].pc) && Holding(s.relays[q].pc) ==>
      s.relays[r].key != s.relays[q].key
  }

  ghost predicate Inv(s: State) {
    RelaysOk(s) && Exclusive(s)
  }

  /** A request moves on and no row changes. */
  lemma MoveKeeps(s: State, r: nat, pc: Pc)
    requires Inv(s) && r in s.relays && RelayOk(s, s.relays[r].(pc := pc))
    requires Holding(pc) ==> Holding(s.relays[r].pc)
    ensures Inv(Go(s, r, pc))
  {
  }

  /** The holder of a task changes its row, or a request claims a row nobody holds. */
  lemma ChangeKeeps(s: State, r: nat, me: Relay, row: Row)
    requires Inv(s) && r in s.relays && me.key == s.relays[r].key && me.key in s.rows
    requires Holding(s.relays[r].pc) || (Claimable(s.rows[me.key].status))
    requires s.rows[me.key].status != Completed
    requires RelayOk(s.(rows := s.rows[me.key := row]), me)
    ensures Inv(s.(rows := s.rows[me.key := row], relays := s.relays[r := me]))
  {
    var t := s.(rows := s.rows[me.key := row], relays := s.relays[r := me]);
    forall q | q in t.relays ensures RelayOk(t, t.relays[q]) {
      assert RelayOk(s, s.relays[q]);
    }
  }

  /** Recovery never takes a task from a holder that is within its time. */
  lemma ReapKeeps(s: State, staleBefore: int)
    requires Inv(s) && Timely(s) && staleBefore <= s.now - RUNNING_TTL
    ensures Inv(s.(rows := Reap(s.rows, staleBefore, s.now)))
  {
    var t := s.(rows := Reap(s.rows, staleBefore, s.now));
    forall q | q in t.relays ensures RelayOk(t, t.relays[q]) {
      assert RelayOk(s, s.relays[q]);
    }
  }

  lemma CreateKeeps(s: State, r: nat)
    requires Inv(s) && r in s.relays && s.relays[r].pc.Creating?
    ensures Inv(Next(s, r))
  {
    var key := s.relays[r].key;
    if key !in s.rows {
      var t := Put(s, key, Row(r, Pending, "", 0, 0, s.now));
      forall q | q in t.relays ensures RelayOk(t, t.relays[q]) {
        assert RelayOk(s, s.relays[q]);
      }
      MoveKeeps(t, r, Created);
    } else {
      MoveKeeps(s, r, Created);
    }
  }

  lemma CallKeeps(s: State, r: nat, result: CallResult)
    requires Inv(s) && r in s.relays && s.relays[r].pc.Calling?
    ensures Inv(CallOnce(s, r, result))
  {
    var t := CallOnce(s, r, result);
    var me := s.relays[r];
    assert RelayOk(s, me);
    if result.CircuitOpen? {
      MoveKeeps(s, r, t.relays[r].pc);
    } else {
      forall q | q in t.relays ensures RelayOk(t, t.relays[q]) {
        assert RelayOk(s, s.relays[q]);
      }
    }
  }

  lemma ClaimKeeps(s: State, r: nat)
    requires Inv(s) && r in s.relays && s.relays[r].pc.Starting?
    ensures Inv(Next(s, r))
  {
    var me := s.relays[r];
    assert RelayOk(s, me);
    if me.key in s.rows && Claimable(s.rows[me.key].status) {
      var row := s.rows[me.key].(status := Running, result := "", updatedAt := s.now);
      ChangeKeeps(s, r, me.(claimedAt := s.now, pc := Charging), row);
    } else {
      MoveKeeps(s, r, Done(InProgress));
    }
  }

  lemma ChargeKeeps(s: State, r: nat)
    requires Inv(s) && r in s.relays && s.relays[r].pc.Charging?
    ensures Inv(Next(s, r))
  {
    var me := s.relays[r];
    assert RelayOk(s, me);
    var row := s.rows[me.key];
    if Affordable(row, me.hops + 1) {
      ChangeKeeps(s, r, me.(pc := Calling(0)),
                  row.(hops := row.hops + me.hops + 1, calls := row.calls + 1, updatedAt := s.now));
    } else {
      MoveKeeps(s, r, Refused);
    }
  }

  lemma SettleKeeps(s: State, r: nat, stored: bool, reported: bool)
    requires Inv(s) && r in s.relays
    ensures Inv(SettleTask(s, r, stored, reported))
  {
    var me := s.relays[r];
    var t := SettleTask(s, r, stored, reported);
    assert RelayOk(s, me);
    if me.pc.Limited? || me.pc.Called? {
      var row := s.rows[me.key];
      if stored {
        ChangeKeeps(s, r, t.relays[r], t.rows[me.key]);
      } else {
        MoveKeeps(s, r, t.relays[r].pc);
      }
    }
  }

  lemma RecoverKeeps(s: State, r: nat)
    requires Inv(s) && Timely(s) && r in s.relays && s.relays[r].pc.Admitted?
    ensures Inv(Next(s, r))
  {
    var me := s.relays[r];
    assert RelayOk(s, me);
    ReapKeeps(s, me.started - RUNNING_TTL);
    hide Inv, Timely, Reap;
    MoveKeeps(s.(rows := Reap(s.rows, me.started - RUNNING_TTL, s.now)), r, Reaped);
  }

  /** The steps that only read rows. */
  lemma ReadKeeps(s: State, r: nat)
    requires Inv(s) && r in s.relays
    requires var pc := s.relays[r].pc; pc.New? || pc.Reaped? || pc.Created? || pc.Adopting?
    ensures Inv(Next(s, r))
  {
    assert RelayOk(s, s.relays[r]);
    var pc := Next(s, r).relays[r].pc;
    assert Next(s, r) == Go(s, r, pc);
    hide Inv;
    MoveKeeps(s, r, pc);
  }

  lemma ActKeeps(s: State, r: nat)
    requires Inv(s) && Timely(s) && r in s.relays
    ensures Inv(Next(s, r))
  {
    hide Inv, Timely;
    var me := s.relays[r];
    match me.pc
    case Admitted => RecoverKeeps(s, r);
    case Creating => CreateKeeps(s, r);
    case Starting => ClaimKeeps(s, r);
    case Charging => ChargeKeeps(s, r);
    case New => ReadKeeps(s, r);
    case Reaped => ReadKeeps(s, r);
    case Created => ReadKeeps(s, r);
    case Adopting => ReadKeeps(s, r);
    case _ =>
  }

  lemma ClockKeeps(s: State, e: Event)
    requires Inv(s) && (e.Tick? || e.Arrive?)
    ensures Inv(Step(s, e))
  {
    var t := Step(s, e);
    forall q | q in t.relays ensures RelayOk(t, t.relays[q]) {
      assert q in s.relays ==> RelayOk(s, s.relays[q]);
    }
  }

  lemma StepKeeps(s: State, e: Event)
    requires Inv(s) && Timely(s)
    ensures Inv(Step(s, e))
  {
    if e.Tick? || e.Arrive? {
      ClockKeeps(s, e);
    } else if e.r in s.relays {
      assert RelayOk(s, s.relays[e.r]);
      match e
      case Act(r) => ActKeeps(s, r);
      case Approve(r, ok) => if s.relays[r].pc.Approving? { MoveKeeps(s, r, Step(s, e).relays[r].pc); }
      case ReadLimit(r, readable) => if s.relays[r].pc.Refused? { MoveKeeps(s, r, Step(s, e).relays[r].pc); }
      case CallPeer(r, result) => if s.relays[r].pc.Calling? { CallKeeps(s, r, result); }
      case Settle(r, stored, reported) => SettleKeeps(s, r, stored, reported);
      case Crash(r) => if !s.relays[r].pc.Done? { MoveKeeps(s, r, Done(Failure)); }
    }
  }

  lemma {:induction false} RunKeeps(events: seq<Event>)
    requires TimelyRun(events)
    ensures Inv(Run(events))
  {
    if events != [] {
      var before := events[..|events| - 1];
      forall n | 0 <= n <= |before| ensures Timely(Run(before[..n])) {
        assert before[..n] == events[..n];
      }
      RunKeeps(before);
      assert before == before[..|before|];
      StepKeeps(Run(before), events[|events| - 1]);
    }
  }

  // ----- the results

  /** However the requests interleave, at most one of them is between claiming and settling the durable task
  of a key. */
  lemma AtMostOneHolder(events: seq<Event>, r: nat, q: nat)
    requires TimelyRun(events) && r in Run(events).relays && q in Run(events).relays && r != q
    requires Run(events).relays[r].key == Run(events).relays[q].key
    ensures !(Holding(Run(events).relays[r].pc) && Holding(Run(events).relays[q].pc))
  {
    RunKeeps(events);
  }

  /** Every success answered for a key names the same task and the same content, the stored one. */
  lemma SuccessesAgree(events: seq<Event>, r: nat)
    requires TimelyRun(events) && r in Run(events).relays
    requires Run(events).relays[r].pc.Done? && Run(events).relays[r].pc.outcome.Success?
    ensures var s := Run(events); var key := s.relays[r].key;
            && key in s.rows && s.rows[key].status == Completed
            && s.relays[r].pc.outcome == Success(s.rows[key].taskId, s.rows[key].result)
  {
    RunKeeps(events);
    assert RelayOk(Run(events), Run(events).relays[r]);
  }

  /** A step leaves a completed task and its connector calls as they are. */
  lemma CompletedStays(s: State, e: Event, key: string)
    requires Inv(s) && key in s.rows && s.rows[key].status == Completed
    ensures key in Step(s, e).rows && Step(s, e).rows[key] == s.rows[key] && Invoked(Step(s, e), key) == Invoked(s, key)
  {
    if !e.Tick? && !e.Arrive? && e.r in s.relays {
      var me := s.relays[e.r];
      assert RelayOk(s, me);
      hide Inv;
      if me.key == key {
        assert !Holding(me.pc);
      }
    }
  }

  ghost predicate SameTask(s: State, t: State, key: string) {
    key in s.rows && key in t.rows && t.rows[key] == s.rows[key] && Invoked(t, key) == Invoked(s, key)
  }

  /** Once a task is completed nothing about it changes again and the connector is not called for it. */
  lemma {:induction false} CompletedForever(events: seq<Event>, n: nat, key: string)
    requires TimelyRun(events) && n <= |events|
    requires key in Run(events[..n]).rows && Run(events[..n]).rows[key].status == Completed
    ensures SameTask(Run(events[..n]), Run(events), key)
  {
    if n == |events| {
      assert events[..n] == events;
    } else {
      var before := events[..|events| - 1];
      forall m | 0 <= m <= |before| ensures Timely(Run(before[..m])) {
        assert before[..m] == events[..m];
      }
      assert before[..n] == events[..n];
      CompletedForever(before, n, key);
      RunKeeps(before);
      hide Step, Inv;
      CompletedStays(Run(before), events[|events| - 1], key);
    }
  }

  /** The assumption is needed: from any state in which a holder is overdue for a request that is
  about to recover stale tasks, four steps of that request make it a second holder. */
  lemma OverdueHolderIsOvertaken(s: State, r: nat, q: nat)
    requires r in s.relays && q in s.relays && r != q && Holding(s.relays[r].pc) && s.relays[q].pc.Admitted?
    requires s.relays[q].key == s.relays[r].key && s.relays[r].key in s.rows
    requires Stale(s.rows[s.relays[r].key], s.relays[q].started - RUNNING_TTL)
    ensures var t := Step(Step(Step(Step(s, Act(q)), Act(q)), Approve(q, true)), Act(q));
            && r in t.relays && q in t.relays && t.relays[r].key == t.relays[q].key
            && Holding(t.relays[r].pc) && Holding(t.relays[q].pc)
  {
    var key := s.relays[q].key;
    var s1 := Step(s, Act(q));
    assert s1.rows[key].status == Failed && s1.relays[q].pc == Reaped && s1.relays[r] == s.relays[r];
    var s2 := Step(s1, Act(q));
    assert s2.relays[q].pc == Approving(true) && s2.rows == s1.rows && s2.relays[r] == s.relays[r];
    var s3 := Step(s2, Approve(q, true));
    assert s3.relays[q].pc == Starting && s3.rows == s1.rows && s3.relays[r] == s.relays[r];
  }
}
