/** What a request of the durable relay is told, over every run: a success carries what the peer answered to a
call for the key, and the scripts of a request that goes through, of one that comes again, and of a retry. */
module A2AAnswers {
  import opened A2ARelay

  // ----- where a success comes from

  /** Event i is the peer's answer c to a call that a request of the key was about to make. */
  ghost predicate PeerSaid(events: seq<Event>, i: nat, key: string, c: string)
    requires i < |events|
  {
    var s, e := Run(events[..i]), events[i];
    e.CallPeer? && e.result == Ok(c) && e.r in s.relays && s.relays[e.r].key == key && s.relays[e.r].pc.Calling?
  }

  /** Event i is the store call by which request id inserted the row of the key. */
  ghost predicate Inserts(events: seq<Event>, i: nat, key: string, id: nat)
    requires i < |events|
  {
    var s := Run(events[..i]);
    events[i] == Act(id) && id in s.relays && s.relays[id].key == key && s.relays[id].pc.Creating? && key !in s.rows
  }

  ghost predicate Said(events: seq<Event>, n: nat, key: string, c: string)
    requires n <= |events|
  {
    exists i :: 0 <= i < n && PeerSaid(events, i, key, c)
  }

  ghost predicate Inserted(events: seq<Event>, n: nat, key: string, id: nat)
    requires n <= |events|
  {
    exists i :: 0 <= i < n && Inserts(events, i, key, id)
  }

  ghost predicate RowTraced(events: seq<Event>, n: nat, key: string, row: Row)
    requires n <= |events|
  {
    Inserted(events, n, key, row.taskId) && (row.status == Completed ==> Said(events, n, key, row.result))
  }

  ghost predicate RelayTraced(events: seq<Event>, n: nat, me: Relay)
    requires n <= |events|
  {
    match me.pc
    case Called(ok, content) => ok ==> Said(events, n, me.key, content)
    case Done(Success(id, content)) => Said(events, n, me.key, content) && Inserted(events, n, me.key, id)
    case _ => true
  }

  ghost predicate Traced(events: seq<Event>, n: nat)
    requires n <= |events|
  {
    var s := Run(events[..n]);
    && (forall key :: key in s.rows ==> RowTraced(events, n, key, s.rows[key]))
    && (forall r :: r in s.relays ==> RelayTraced(events, n, s.relays[r]))
  }

  lemma TracedLater(events: seq<Event>, n: nat, key: string, row: Row, me: Relay)
    requires n < |events|
    ensures RowTraced(events, n, key, row) ==> RowTraced(events, n + 1, key, row)
    ensures RelayTraced(events, n, me) ==> RelayTraced(events, n + 1, me)
  {
    hide PeerSaid, Inserts;
  }

  lemma RunLast(events: seq<Event>, n: nat)
    requires n < |events|
    ensures Run(events[..n + 1]) == Step(Run(events[..n]), events[n])
  {
    assert events[..n + 1][..n] == events[..n];
  }

  /** A row after one step: as it was, inserted by this step, changed without being completed, or completed with
  the content the request had. */
  ghost predicate RowMoves(s: State, e: Event, key: string)
    requires key in Step(s, e).rows
  {
    var row := Step(s, e).rows[key];
    if key !in s.rows then
      e.Act? && e.r in s.relays && s.relays[e.r].key == key && s.relays[e.r].pc.Creating? && row.taskId == e.r && row.status != Completed
    else
      && row.taskId == s.rows[key].taskId
      && (row.status == Completed ==>
            || (s.rows[key].status == Completed && row.result == s.rows[key].result)
            || (e.Settle? && e.r in s.relays && s.relays[e.r].key == key && s.relays[e.r].pc == Called(true, row.result)))
  }

  lemma RowStep(s: State, e: Event, key: string)
    requires key in Step(s, e).rows
    ensures RowMoves(s, e, key)
  {
  }

  /** A request after one step. */
  ghost predicate RelayMoves(s: State, e: Event, r: nat)
    requires r in Step(s, e).relays
  {
    var me := Step(s, e).relays[r];
    && (r in s.relays ==> me.key == s.relays[r].key)
    && (me.pc.Called? && me.pc.ok && !(r in s.relays && s.relays[r].pc == me.pc) ==>
          r in s.relays && s.relays[r].pc.Calling? && e == CallPeer(r, Ok(me.pc.content)))
    && (me.pc.Done? && me.pc.outcome.Success? && !(r in s.relays && s.relays[r].pc == me.pc) ==>
          && r in s.relays && me.key in s.rows && me.pc.outcome.taskId == s.rows[me.key].taskId
          && (if e.Settle? then s.relays[r].pc == Called(true, me.pc.outcome.content)
              else s.rows[me.key].status == Completed && me.pc.outcome.content == s.rows[me.key].result))
  }

  lemma RelayStep(s: State, e: Event, r: nat)
    requires r in Step(s, e).relays
    ensures RelayMoves(s, e, r)
  {
    match e {
      case Act(q) => ActMoves(s, q, r);
      case Settle(q, stored, reported) => SettleMoves(s, q, stored, reported, r);
      case Tick(_) =>
      case Arrive(_, _, _) =>
      case Approve(_, _) =>
      case ReadLimit(_, _) =>
      case CallPeer(_, _) =>
      case Crash(_) =>
    }
  }

  lemma ActMoves(s: State, q: nat, r: nat)
    requires r in Step(s, Act(q)).relays
    ensures RelayMoves(s, Act(q), r)
  {
  }

  lemma SettleMoves(s: State, q: nat, stored: bool, reported: bool, r: nat)
    requires r in Step(s, Settle(q, stored, reported)).relays
    ensures RelayMoves(s, Settle(q, stored, reported), r)
  {
  }

  lemma RowKeeps(events: seq<Event>, n: nat, key: string)
    requires n < |events| && Traced(events, n) && key in Run(events[..n + 1]).rows
    ensures RowTraced(events, n + 1, key, Run(events[..n + 1]).rows[key])
  {
    var s, e := Run(events[..n]), events[n];
    RunLast(events, n);
    RowStep(s, e, key);
    if key !in s.rows {
      assert Inserts(events, n, key, e.r);
    } else {
      assert RowTraced(events, n, key, s.rows[key]);
      TracedLater(events, n, key, s.rows[key], Relay("", 0, 0, 0, New));
      var row := Step(s, e).rows[key];
      if row.status == Completed && !(s.rows[key].status == Completed && row.result == s.rows[key].result) {
        assert RelayTraced(events, n, s.relays[e.r]);
        TracedLater(events, n, key, s.rows[key], s.relays[e.r]);
      }
    }
  }

  lemma RelayKeeps(events: seq<Event>, n: nat, r: nat)
    requires n < |events| && Traced(events, n) && r in Run(events[..n + 1]).relays
    ensures RelayTraced(events, n + 1, Run(events[..n + 1]).relays[r])
  {
    var s, e := Run(events[..n]), events[n];
    RunLast(events, n);
    RelayStep(s, e, r);
    var me := Step(s, e).relays[r];
    if r in s.relays {
      assert RelayTraced(events, n, s.relays[r]);
      if me.key in s.rows {
        assert RowTraced(events, n, me.key, s.rows[me.key]);
        TracedLater(events, n, me.key, s.rows[me.key], s.relays[r]);
      }
      TracedLater(events, n, me.key, Row(0, Pending, "", 0, 0, 0), s.relays[r]);
      if me.pc.Called? && me.pc.ok && s.relays[r].pc != me.pc {
        assert PeerSaid(events, n, me.key, me.pc.content);
      }
    }
  }

  lemma {:induction false} RunIsTraced(events: seq<Event>, n: nat)
    requires n <= |events|
    ensures Traced(events, n)
  {
    if n == 0 {
      assert events[..0] == [];
    } else {
      RunIsTraced(events, n - 1);
      hide RowTraced, RelayTraced;
      var s := Run(events[..n]);
      forall key | key in s.rows ensures RowTraced(events, n, key, s.rows[key]) {
        RowKeeps(events, n - 1, key);
      }
      forall r | r in s.relays ensures RelayTraced(events, n, s.relays[r]) {
        RelayKeeps(events, n - 1, r);
      }
    }
  }

  /** In every run, whoever holds or overruns what: a request told of success is told what the peer answered to a
  call made for its key, under the id of the request that inserted the key's row. */
  lemma SuccessIsPeersAnswer(events: seq<Event>, r: nat, id: nat, c: string)
    requires r in Run(events).relays && Run(events).relays[r].pc == Done(Success(id, c))
    ensures var key := Run(events).relays[r].key;
            && (exists i :: 0 <= i < |events| && PeerSaid(events, i, key, c))
            && (exists i :: 0 <= i < |events| && Inserts(events, i, key, id))
  {
    RunIsTraced(events, |events|);
    assert events[..|events|] == events;
    assert RelayTraced(events, |events|, Run(events).relays[r]);
    hide PeerSaid, Inserts;
  }

  // ----- one request from end to end

  /** The state a run leads to. */
  function World(events: seq<Event>): State {
    Run(events)
  }

  lemma RunPush(events: seq<Event>, e: Event)
    ensures World(events + [e]) == Step(World(events), e)
  {
    assert (events + [e])[..|events|] == events;
  }

  /** A request arrives, passes the hop gate, recovers stale tasks and looks its key up. */
  function Lookup(r: nat, key: string, hops: nat): seq<Event> {
    [Arrive(r, key, hops)] + [Act(r)] + [Act(r)] + [Act(r)]
  }

  /** The row of the key as the request finds it: a row left running for longer than the TTL has failed. */
  function Found(row: Row, now: int): Row {
    if row.status == Running && row.updatedAt < now - RUNNING_TTL then row.(status := Failed, result := "", updatedAt := now) else row
  }

  /** Arrival and the hop gate. */
  lemma ArriveSteps(s: State, r: nat, key: string, hops: nat)
    requires r !in s.relays
    ensures var me := Relay(key, hops, s.now, s.now, if hops >= MAX_HOPS then Done(HopLimit) else Admitted);
            Step(Step(s, Arrive(r, key, hops)), Act(r)) == s.(relays := s.relays[r := me])
  {
    var t := Step(s, Arrive(r, key, hops));
    assert t.relays[r] == Relay(key, hops, s.now, s.now, New);
    assert s.relays[r := t.relays[r]][r := t.relays[r].(pc := Admitted)] == s.relays[r := t.relays[r].(pc := Admitted)];
    assert s.relays[r := t.relays[r]][r := t.relays[r].(pc := Done(HopLimit))] == s.relays[r := t.relays[r].(pc := Done(HopLimit))];
  }

  /** What a request that looks its key up goes on with. */
  function Answer(found: Row): Pc {
    match found.status
    case Completed => Done(Success(found.taskId, found.result))
    case Pending => Done(InProgress)
    case Running => Done(InProgress)
    case Failed => Approving(true)
    case Cancelled => Approving(true)
  }

  lemma LookSteps(s: State, r: nat)
    requires r in s.relays && s.relays[r].pc.Admitted? && s.relays[r].started == s.now
    ensures var me, t := s.relays[r], Step(Step(s, Act(r)), Act(r));
            && t.invoked == s.invoked && t.now == s.now && t.rows.Keys == s.rows.Keys
            && (forall k :: k in s.rows ==> t.rows[k] == Found(s.rows[k], s.now))
            && r in t.relays
            && t.relays[r] == me.(pc := if me.key in s.rows then Answer(Found(s.rows[me.key], s.now)) else Approving(false))
  {
    var t := Step(s, Act(r));
    assert t.relays[r].pc.Reaped? && t.rows == Reap(s.rows, s.now - RUNNING_TTL, s.now);
  }

  lemma RunFour(events: seq<Event>, a: Event, b: Event, c: Event, d: Event)
    ensures World(events + ([a] + [b] + [c] + [d])) == Step(Step(Step(Step(World(events), a), b), c), d)
  {
    hide World;
    RunPush(events, a);
    RunPush(events + [a], b);
    RunPush(events + [a] + [b], c);
    RunPush(events + [a] + [b] + [c], d);
    assert events + ([a] + [b] + [c] + [d]) == events + [a] + [b] + [c] + [d];
  }

  /** After the lookup: refused at the hop gate, answered by the row that is there, or on its way. */
  lemma LookupAnswers(events: seq<Event>, r: nat, key: string, hops: nat)
    requires r !in World(events).relays
    ensures var s, t := World(events), World(events + Lookup(r, key, hops));
            && t.invoked == s.invoked && t.now == s.now && t.rows.Keys == s.rows.Keys && r in t.relays
            && (forall k :: k in s.rows ==> t.rows[k] == if hops < MAX_HOPS then Found(s.rows[k], s.now) else s.rows[k])
            && t.relays[r] == Relay(key, hops, s.now, s.now,
                 if hops >= MAX_HOPS then Done(HopLimit)
                 else if key in s.rows then Answer(Found(s.rows[key], s.now)) else Approving(false))
  {
    hide World;
    var s := World(events);
    RunFour(events, Arrive(r, key, hops), Act(r), Act(r), Act(r));
    ArriveSteps(s, r, key, hops);
    var t := Step(Step(s, Arrive(r, key, hops)), Act(r));
    if hops < MAX_HOPS {
      LookSteps(t, r);
    }
  }

  /** An approved request inserts its row, finds it, claims it and is charged for one call. */
  function Start(r: nat): seq<Event> {
    [Approve(r, true)] + [Act(r)] + [Act(r)] + ([Act(r)] + [Act(r)])
  }

  /** An approved retry claims the row and is charged. */
  function Restart(r: nat): seq<Event> {
    [Approve(r, true)] + [Act(r)] + [Act(r)]
  }

  function Started(s: State, r: nat): State {
    Step(Step(Step(Step(Step(s, Approve(r, true)), Act(r)), Act(r)), Act(r)), Act(r))
  }

  function Restarted(s: State, r: nat): State {
    Step(Step(Step(s, Approve(r, true)), Act(r)), Act(r))
  }

  lemma RestartSteps(s: State, r: nat)
    requires r in s.relays && s.relays[r].pc == Approving(true) && s.relays[r].key in s.rows
    requires s.rows[s.relays[r].key].status in {Failed, Cancelled}
    requires s.rows[s.relays[r].key].hops + s.relays[r].hops + 1 <= 3 && s.rows[s.relays[r].key].calls < 16
    ensures var me, row := s.relays[r], s.rows[s.relays[r].key];
            var t := Restarted(s, r);
            && t.rows == s.rows[me.key := Row(row.taskId, Running, "", row.hops + me.hops + 1, row.calls + 1, s.now)]
            && r in t.relays && t.relays[r].key == me.key && t.relays[r].pc == Calling(0) && t.now == s.now
  {
    var me, row := s.relays[r], s.rows[s.relays[r].key];
    var s1 := Step(s, Approve(r, true));
    assert s1.relays[r] == me.(pc := Starting) && s1.rows == s.rows;
    var s2 := Step(s1, Act(r));
    assert s2.relays[r].pc == Charging && s2.rows == s.rows[me.key := row.(status := Running, result := "", updatedAt := s.now)];
  }

  lemma StartSteps(s: State, r: nat)
    requires r in s.relays && s.relays[r].pc == Approving(false) && s.relays[r].key !in s.rows && s.relays[r].hops < 3
    ensures var me := s.relays[r];
            var t := Started(s, r);
            && t.rows == s.rows[me.key := Row(r, Running, "", me.hops + 1, 1, s.now)]
            && r in t.relays && t.relays[r].key == me.key && t.relays[r].pc == Calling(0) && t.now == s.now
  {
    var me := s.relays[r];
    var s1 := Step(s, Approve(r, true));
    assert s1.relays[r] == me.(pc := Creating) && s1.rows == s.rows;
    var s2 := Step(s1, Act(r));
    assert s2.relays[r] == me.(pc := Created) && s2.rows == s.rows[me.key := Row(r, Pending, "", 0, 0, s.now)];
    var s3 := Step(s2, Act(r));
    assert s3.relays[r] == me.(pc := Starting) && s3.rows == s2.rows;
    var s4 := Step(s3, Act(r));
    assert s4.relays[r].pc == Charging && s4.relays[r].hops == me.hops && s4.rows == s.rows[me.key := Row(r, Running, "", 0, 0, s.now)];
  }

  /** The call is answered, at once or on the second try, and the answer is stored and reported. */
  lemma FinishSteps(s: State, r: nat, c: string, retried: bool)
    requires r in s.relays && s.relays[r].pc == Calling(0) && s.relays[r].key in s.rows
    ensures var me, row := s.relays[r], s.rows[s.relays[r].key];
            var s1 := if retried then Step(s, CallPeer(r, Retryable)) else s;
            var t := Step(Step(s1, CallPeer(r, Ok(c))), Settle(r, true, true));
            && t.rows == s.rows[me.key := row.(status := Completed, result := c, updatedAt := s.now)]
            && r in t.relays && t.relays[r].pc == Done(Success(row.taskId, c))
  {
    var me := s.relays[r];
    var s1 := if retried then Step(s, CallPeer(r, Retryable)) else s;
    assert s1.rows == s.rows && s1.now == s.now && s1.relays[r].key == me.key && s1.relays[r].pc == Calling(if retried then 1 else 0);
    var s2 := Step(s1, CallPeer(r, Ok(c)));
    assert s2.rows == s.rows && s2.now == s.now && s2.relays[r].key == me.key && s2.relays[r].pc == Called(true, c);
  }

  function Finish(r: nat, c: string, retried: bool): seq<Event> {
    (if retried then [CallPeer(r, Retryable)] else []) + ([CallPeer(r, Ok(c))] + [Settle(r, true, true)])
  }

  lemma RunThree(events: seq<Event>, a: Event, b: Event, c: Event)
    ensures World(events + ([a] + [b] + [c])) == Step(Step(Step(World(events), a), b), c)
  {
    hide World;
    RunPush(events, a);
    RunPush(events + [a], b);
    RunPush(events + [a] + [b], c);
    assert events + ([a] + [b] + [c]) == events + [a] + [b] + [c];
  }

  lemma RunTwo(events: seq<Event>, a: Event, b: Event)
    ensures World(events + ([a] + [b])) == Step(Step(World(events), a), b)
  {
    hide World;
    RunPush(events, a);
    RunPush(events + [a], b);
    assert events + ([a] + [b]) == events + [a] + [b];
  }

  lemma FinishRuns(events: seq<Event>, r: nat, c: string, retried: bool)
    requires r in World(events).relays && World(events).relays[r].pc == Calling(0) && World(events).relays[r].key in World(events).rows
    ensures var s, t := World(events), World(events + Finish(r, c, retried));
            var row := s.rows[s.relays[r].key];
            && t.rows == s.rows[s.relays[r].key := row.(status := Completed, result := c, updatedAt := s.now)]
            && r in t.relays && t.relays[r].pc == Done(Success(row.taskId, c))
  {
    hide World;
    FinishSteps(World(events), r, c, retried);
    if retried {
      RunThree(events, CallPeer(r, Retryable), CallPeer(r, Ok(c)), Settle(r, true, true));
      assert [CallPeer(r, Retryable)] + ([CallPeer(r, Ok(c))] + [Settle(r, true, true)]) ==
             [CallPeer(r, Retryable)] + [CallPeer(r, Ok(c))] + [Settle(r, true, true)];
    } else {
      RunTwo(events, CallPeer(r, Ok(c)), Settle(r, true, true));
      assert [] + ([CallPeer(r, Ok(c))] + [Settle(r, true, true)]) == [CallPeer(r, Ok(c))] + [Settle(r, true, true)];
    }
  }

  lemma StartRuns(events: seq<Event>, r: nat)
    requires r in World(events).relays && World(events).relays[r].pc == Approving(false)
    requires World(events).relays[r].key !in World(events).rows && World(events).relays[r].hops < 3
    ensures var s, t := World(events), World(events + Start(r));
            var me := s.relays[r];
            && t.rows == s.rows[me.key := Row(r, Running, "", me.hops + 1, 1, s.now)]
            && r in t.relays && t.relays[r].key == me.key && t.relays[r].pc == Calling(0) && t.now == s.now
  {
    hide World, Started, Start;
    StartSteps(World(events), r);
    StartIs(events, r);
  }

  lemma StartIs(events: seq<Event>, r: nat)
    ensures World(events + Start(r)) == Started(World(events), r)
  {
    hide World;
    var begun := [Approve(r, true)] + [Act(r)] + [Act(r)];
    RunThree(events, Approve(r, true), Act(r), Act(r));
    RunTwo(events + begun, Act(r), Act(r));
    assert events + Start(r) == events + begun + ([Act(r)] + [Act(r)]);
  }

  lemma RestartIs(events: seq<Event>, r: nat)
    ensures World(events + Restart(r)) == Restarted(World(events), r)
  {
    hide World;
    RunThree(events, Approve(r, true), Act(r), Act(r));
  }

  lemma RestartRuns(events: seq<Event>, r: nat)
    requires var s := World(events);
             && r in s.relays && s.relays[r].pc == Approving(true) && s.relays[r].key in s.rows
             && s.rows[s.relays[r].key].status in {Failed, Cancelled}
             && s.rows[s.relays[r].key].hops + s.relays[r].hops + 1 <= 3 && s.rows[s.relays[r].key].calls < 16
    ensures var s, t := World(events), World(events + Restart(r));
            var me := s.relays[r];
            var row := s.rows[me.key];
            && t.rows == s.rows[me.key := Row(row.taskId, Running, "", row.hops + me.hops + 1, row.calls + 1, s.now)]
            && r in t.relays && t.relays[r].key == me.key && t.relays[r].pc == Calling(0) && t.now == s.now
  {
    hide World, Restarted, Restart;
    RestartSteps(World(events), r);
    RestartIs(events, r);
  }

  /** After any run, a request with a new key that is approved and whose call is answered ends in success with the
  peer's content under its own id, and the row says so. */
  lemma RequestSucceeds(events: seq<Event>, r: nat, key: string, hops: nat, c: string, retried: bool)
    requires r !in World(events).relays && key !in World(events).rows && hops < MAX_HOPS
    ensures var t := World(events + Lookup(r, key, hops) + Start(r) + Finish(r, c, retried));
            && r in t.relays && t.relays[r].pc == Done(Success(r, c))
            && key in t.rows && t.rows[key] == Row(r, Completed, c, hops + 1, 1, World(events).now)
  {
    hide World;
    var looked := events + Lookup(r, key, hops);
    var started := looked + Start(r);
    LookupAnswers(events, r, key, hops);
    StartRuns(looked, r);
    hide Lookup, Start, Finish;
    FinishRuns(started, r, c, retried);
  }

  /** Whoever comes again with a completed key gets the stored answer, and the peer is not called. */
  lemma RepeatIsReplayed(events: seq<Event>, r: nat, key: string, hops: nat)
    requires r !in World(events).relays && hops < MAX_HOPS && key in World(events).rows && World(events).rows[key].status == Completed
    ensures var s, t := World(events), World(events + Lookup(r, key, hops));
            && r in t.relays && t.relays[r].pc == Done(Success(s.rows[key].taskId, s.rows[key].result))
            && key in t.rows && t.rows[key] == s.rows[key] && t.invoked == s.invoked
  {
    hide World;
    LookupAnswers(events, r, key, hops);
  }

  /** A task that failed, or was left running for longer than the TTL, succeeds on a retry under its old id, while
  the hops fit. */
  lemma RetrySucceeds(events: seq<Event>, r: nat, key: string, hops: nat, c: string, retried: bool)
    requires r !in World(events).relays && key in World(events).rows
    requires var s := World(events); Found(s.rows[key], s.now).status in {Failed, Cancelled}
    requires World(events).rows[key].hops + hops + 1 <= 3 && World(events).rows[key].calls < 16
    ensures var t := World(events + Lookup(r, key, hops) + Restart(r) + Finish(r, c, retried));
            var row := World(events).rows[key];
            && r in t.relays && t.relays[r].pc == Done(Success(row.taskId, c))
            && key in t.rows && t.rows[key] == Row(row.taskId, Completed, c, row.hops + hops + 1, row.calls + 1, World(events).now)
  {
    hide World;
    var looked := events + Lookup(r, key, hops);
    var started := looked + Restart(r);
    LookupAnswers(events, r, key, hops);
    RestartRuns(looked, r);
    hide Lookup, Restart, Finish;
    FinishRuns(started, r, c, retried);
  }
}
