/** The drain lifecycle: requests that call Acquire and DoneInflight, long streams that register and
unregister, and callers of BeginDrain, interleaved at every access to shared state (the atomic phase,
the gate mutex, the in-flight counter, the stream registry). */
module Drain {

  datatype Option<+T> = None | Some(value: T)

  datatype Phase = Running | Draining | Exited

  /** A request in Acquire, in service, and after. */
  datatype RequestPc =
    | Arriving   // before the gate
    | Entered    // holds the gate; before the phase is read
    | Passed     // holds the gate and saw RUNNING; before Add(1)
    | Counted    // holds the gate; before Unlock
    | Serving    // accepted
    | Finished   // after Done
    | Barred     // holds the gate and saw another phase; before Unlock
    | Refused

  /** A caller of BeginDrain. */
  datatype DrainPc =
    | Called         // before the compare-and-swap
    | Won            // before the gate
    | Gated          // holds the gate; before the streams are told
    | StreamsTold    // holds the gate; before the wait is started
    | WaitStarted    // holds the gate; before Unlock
    | AwaitRequests
    | AwaitStreams
    | Finalizing     // before the finalizer
    | Closing        // before the phase becomes EXITED
    | Returned

  datatype Owner = Request(r: nat) | Drainer(d: nat)

  /** The fields of Lifecycle and StreamRegistry, and what the drain has seen. */
  datatype Shared = Shared(
    phase: Phase,
    gate: Option<Owner>,
    inflight: int,
    streams: set<nat>,
    streamsDraining: bool,
    requestsTimedOut: bool,
    streamsTimedOut: bool,
    finalized: nat)

  datatype State = State(shared: Shared, requests: map<nat, RequestPc>, drainers: map<nat, DrainPc>)

  /** What a step leaves: the shared fields and where its caller then stands. */
  datatype Move<+Pc> = Move(shared: Shared, pc: Pc)

  datatype Event =
    | Arrive(r: nat)
    | RequestStep(r: nat)
    | BeginDrain(d: nat)
    | DrainStep(d: nat)
    | RequestTimeout(d: nat)
    | StreamTimeout(d: nat)
    | Register(id: nat)
    | Unregister(id: nat)

  const INIT := State(Shared(Running, None, 0, {}, false, false, false, 0), map[], map[])

  function RequestMove(h: Shared, r: nat, pc: RequestPc): Move<RequestPc> {
    match pc
    case Arriving => if h.gate.None? then Move(h.(gate := Some(Request(r))), Entered) else Move(h, pc)
    case Entered => Move(h, if h.phase == Running then Passed else Barred)
    case Passed => Move(h.(inflight := h.inflight + 1), Counted)
    case Counted => Move(h.(gate := None), Serving)
    case Serving => Move(h.(inflight := h.inflight - 1), Finished)
    case Barred => Move(h.(gate := None), Refused)
    case _ => Move(h, pc)
  }

  function DrainMove(h: Shared, d: nat, pc: DrainPc): Move<DrainPc> {
    match pc
    case Called => if h.phase == Running then Move(h.(phase := Draining), Won) else Move(h, Returned)
    case Won => if h.gate.None? then Move(h.(gate := Some(Drainer(d))), Gated) else Move(h, pc)
    case Gated => Move(h.(streamsDraining := true), StreamsTold)
    case StreamsTold => Move(h, WaitStarted)
    case WaitStarted => Move(h.(gate := None), AwaitRequests)
    case AwaitRequests => Move(h, if h.inflight == 0 then AwaitStreams else pc)
    case AwaitStreams => Move(h, if h.streams == {} then Finalizing else pc)
    case Finalizing => Move(h.(finalized := h.finalized + 1), Closing)
    case Closing => Move(h.(phase := Exited), Returned)
    case Returned => Move(h, pc)
  }

  function WithRequest(s: State, r: nat, m: Move<RequestPc>): State {
    State(m.shared, s.requests[r := m.pc], s.drainers)
  }

  function WithDrainer(s: State, d: nat, m: Move<DrainPc>): State {
    State(m.shared, s.requests, s.drainers[d := m.pc])
  }

  function Step(s: State, e: Event): State {
    var h := s.shared;
    match e
    case Arrive(r) => if r in s.requests then s else WithRequest(s, r, Move(h, Arriving))
    case RequestStep(r) => if r in s.requests then WithRequest(s, r, RequestMove(h, r, s.requests[r])) else s
    case BeginDrain(d) => if d in s.drainers then s else WithDrainer(s, d, Move(h, Called))
    case DrainStep(d) => if d in s.drainers then WithDrainer(s, d, DrainMove(h, d, s.drainers[d])) else s
    case RequestTimeout(d) =>
      if d in s.drainers && s.drainers[d] == AwaitRequests
      then WithDrainer(s, d, Move(h.(requestsTimedOut := true), AwaitStreams)) else s
    case StreamTimeout(d) =>
      if d in s.drainers && s.drainers[d] == AwaitStreams
      then WithDrainer(s, d, Move(h.(streamsTimedOut := true), Finalizing)) else s
    case Register(id) => if h.streamsDraining then s else s.(shared := h.(streams := h.streams + {id}))
    case Unregister(id) => s.(shared := h.(streams := h.streams - {id}))
  }

  function Run(events: seq<Event>): State {
    if events == [] then INIT else Step(Run(events[..|events| - 1]), events[|events| - 1])
  }

  // ----- what is counted

  predicate InService(pc: RequestPc) {
    pc == Counted || pc == Serving
  }

  /** Requests the in-flight counter stands for. */
  function InFlight(requests: map<nat, RequestPc>): set<nat> {
    set r | r in requests && InService(requests[r])
  }

  /** Requests that were let in. */
  function Accepted(requests: map<nat, RequestPc>): set<nat> {
    set r | r in requests && (InService(requests[r]) || requests[r] == Finished)
  }

  /** No request is between its look at the phase and its count. */
  ghost predicate NonePassed(requests: map<nat, RequestPc>) {
    forall r :: r in requests ==> requests[r] != Passed
  }

  predicate HoldsGate(pc: RequestPc) {
    pc == Entered || pc == Passed || pc == Counted || pc == Barred
  }

  predicate GatedDrain(pc: DrainPc) {
    pc == Gated || pc == StreamsTold || pc == WaitStarted
  }

  /** The compare-and-swap was won and the drain is not over. */
  predicate Active(pc: DrainPc) {
    pc != Called && pc != Returned
  }

  /** The gate has been taken by the drain: from here on nothing is let in. */
  predicate Closed(pc: DrainPc) {
    Active(pc) && pc != Won
  }

  /** The drain has given up waiting for requests, or has seen the last of them. */
  predicate PastRequests(pc: DrainPc) {
    pc == AwaitStreams || pc == Finalizing || pc == Closing
  }

  predicate PastStreams(pc: DrainPc) {
    pc == Finalizing || pc == Closing
  }

  // ----- the invariant

  /** The gate's owner is exactly the caller inside the critical section. */
  ghost predicate GateOk(s: State) {
    && (forall r :: r in s.requests ==> (HoldsGate(s.requests[r]) <==> s.shared.gate == Some(Request(r))))
    && (forall d :: d in s.drainers ==> (GatedDrain(s.drainers[d]) <==> s.shared.gate == Some(Drainer(d))))
    && (s.shared.gate.Some? ==>
          match s.shared.gate.value
          case Request(r) => r in s.requests
          case Drainer(d) => d in s.drainers)
  }

  ghost predicate CountOk(s: State) {
    s.shared.inflight == |InFlight(s.requests)|
  }

  ghost predicate DrainOk(h: Shared, requests: map<nat, RequestPc>, pc: DrainPc) {
    && (pc != Called ==> h.phase != Running)
    && (Active(pc) ==> h.phase == Draining && h.finalized == if pc == Closing then 1 else 0)
    && (Closed(pc) && pc != Gated ==> h.streamsDraining)
    && (Closed(pc) ==> NonePassed(requests))
    && (PastRequests(pc) ==> h.requestsTimedOut || InFlight(requests) == {})
    && (PastStreams(pc) ==> h.streamsTimedOut || h.streams == {})
  }

  ghost predicate DrainsOk(s: State) {
    forall d :: d in s.drainers ==> DrainOk(s.shared, s.requests, s.drainers[d])
  }

  ghost predicate PhaseOk(h: Shared, requests: map<nat, RequestPc>) {
    && (h.phase == Running ==> h.finalized == 0)
    && (h.phase == Exited ==> h.finalized == 1 && h.streamsDraining && NonePassed(requests))
    && h.finalized <= 1
  }

  /** One caller at most drains. */
  ghost predicate OneDrain(drainers: map<nat, DrainPc>) {
    forall d, e :: d in drainers && e in drainers && d != e ==> !(Active(drainers[d]) && Active(drainers[e]))
  }

  ghost predicate Inv(s: State) {
    && GateOk(s) && CountOk(s) && DrainsOk(s)
    && PhaseOk(s.shared, s.requests) && OneDrain(s.drainers)
  }

  // ----- requests keep it

  lemma InFlightStep(requests: map<nat, RequestPc>, r: nat, pc: RequestPc)
    ensures InService(pc) ==> InFlight(requests[r := pc]) == InFlight(requests) + {r}
    ensures !InService(pc) ==> InFlight(requests[r := pc]) == InFlight(requests) - {r}
  {
  }

  lemma RequestGate(s: State, r: nat)
    requires GateOk(s) && r in s.requests
    ensures GateOk(WithRequest(s, r, RequestMove(s.shared, r, s.requests[r])))
  {
  }

  lemma RequestCount(s: State, r: nat)
    requires CountOk(s) && r in s.requests
    ensures CountOk(WithRequest(s, r, RequestMove(s.shared, r, s.requests[r])))
  {
    hide InFlight, RequestMove;
    InFlightStep(s.requests, r, RequestMove(s.shared, r, s.requests[r]).pc);
    MoveCounts(s.shared, s.requests, r);
    Counts(InFlight(s.requests), r);
  }

  lemma Counts(a: set<nat>, r: nat)
    ensures |a + {r}| == |a| + if r in a then 0 else 1
    ensures |a - {r}| == |a| - if r in a then 1 else 0
  {
    assert r in a ==> a + {r} == a;
    assert r !in a ==> a - {r} == a;
  }

  /** The counter moves with the set of requests in service. */
  lemma MoveCounts(h: Shared, requests: map<nat, RequestPc>, r: nat)
    requires r in requests
    ensures r in InFlight(requests) <==> InService(requests[r])
    ensures var m := RequestMove(h, r, requests[r]);
            m.shared.inflight - h.inflight ==
            (if InService(m.pc) then 1 else 0) - (if InService(requests[r]) then 1 else 0)
  {
  }

  lemma RequestPhase(h: Shared, requests: map<nat, RequestPc>, r: nat)
    requires PhaseOk(h, requests) && r in requests
    ensures var m := RequestMove(h, r, requests[r]); PhaseOk(m.shared, requests[r := m.pc])
  {
  }

  lemma RequestDrain(h: Shared, requests: map<nat, RequestPc>, r: nat, pc: DrainPc)
    requires DrainOk(h, requests, pc) && r in requests
    ensures var m := RequestMove(h, r, requests[r]); DrainOk(m.shared, requests[r := m.pc], pc)
  {
    InFlightStep(requests, r, RequestMove(h, r, requests[r]).pc);
    assert InService(requests[r]) ==> r in InFlight(requests);
    hide InFlight;
  }

  lemma RequestKeeps(s: State, r: nat)
    requires Inv(s) && r in s.requests
    ensures Inv(WithRequest(s, r, RequestMove(s.shared, r, s.requests[r])))
  {
    RequestGate(s, r);
    RequestCount(s, r);
    RequestPhase(s.shared, s.requests, r);
    forall pc | DrainOk(s.shared, s.requests, pc)
      ensures var m := RequestMove(s.shared, r, s.requests[r]); DrainOk(m.shared, s.requests[r := m.pc], pc)
    {
      RequestDrain(s.shared, s.requests, r, pc);
    }
    hide GateOk, CountOk, DrainOk, PhaseOk, RequestMove;
  }

  // ----- drains keep it

  lemma DrainGate(s: State, d: nat)
    requires GateOk(s) && d in s.drainers
    ensures GateOk(WithDrainer(s, d, DrainMove(s.shared, d, s.drainers[d])))
  {
  }

  /** The caller that moves; when it takes the gate no request is between its check and its count. */
  lemma DrainSelf(s: State, d: nat)
    requires GateOk(s) && CountOk(s) && PhaseOk(s.shared, s.requests) && d in s.drainers
    requires DrainOk(s.shared, s.requests, s.drainers[d])
    ensures var m := DrainMove(s.shared, d, s.drainers[d]);
            DrainOk(m.shared, s.requests, m.pc) && PhaseOk(m.shared, s.requests)
  {
    assert s.shared.gate.None? ==> NonePassed(s.requests);
    assert s.shared.inflight == 0 ==> InFlight(s.requests) == {};
    hide GateOk, CountOk, InFlight, NonePassed;
  }

  lemma DrainOther(h: Shared, requests: map<nat, RequestPc>, d: nat, pc: DrainPc, other: DrainPc)
    requires DrainOk(h, requests, pc) && DrainOk(h, requests, other) && !(Active(pc) && Active(other))
    ensures var m := DrainMove(h, d, pc); DrainOk(m.shared, requests, other) && !(Active(m.pc) && Active(other))
  {
    hide NonePassed, InFlight;
  }

  lemma DrainKeeps(s: State, d: nat)
    requires Inv(s) && d in s.drainers
    ensures Inv(WithDrainer(s, d, DrainMove(s.shared, d, s.drainers[d])))
  {
    DrainGate(s, d);
    DrainSelf(s, d);
    var m := DrainMove(s.shared, d, s.drainers[d]);
    assert m.shared.inflight == s.shared.inflight;
    forall e | e in s.drainers && e != d
      ensures DrainOk(m.shared, s.requests, s.drainers[e]) && !(Active(m.pc) && Active(s.drainers[e]))
    {
      DrainOther(s.shared, s.requests, d, s.drainers[d], s.drainers[e]);
    }
    hide GateOk, DrainOk, PhaseOk, DrainMove;
  }

  // ----- new callers, timeouts and streams keep it

  lemma ArriveKeeps(s: State, r: nat)
    requires Inv(s) && r !in s.requests
    ensures Inv(WithRequest(s, r, Move(s.shared, Arriving)))
  {
    InFlightStep(s.requests, r, Arriving);
    assert InFlight(s.requests) - {r} == InFlight(s.requests);
    hide InFlight;
  }

  lemma BeginKeeps(s: State, d: nat)
    requires Inv(s) && d !in s.drainers
    ensures Inv(WithDrainer(s, d, Move(s.shared, Called)))
  {
    hide InFlight;
  }

  /** Timeouts and stream changes leave the gate, the phase and the counter alone. */
  lemma SharedKeeps(s: State, h: Shared, drainers: map<nat, DrainPc>)
    requires Inv(s) && drainers.Keys == s.drainers.Keys
    requires h.phase == s.shared.phase && h.gate == s.shared.gate && h.inflight == s.shared.inflight
    requires h.streamsDraining == s.shared.streamsDraining && h.finalized == s.shared.finalized
    requires forall d :: d in drainers ==>
               && DrainOk(h, s.requests, drainers[d])
               && Active(drainers[d]) == Active(s.drainers[d]) && GatedDrain(drainers[d]) == GatedDrain(s.drainers[d])
    ensures Inv(State(h, s.requests, drainers))
  {
    hide DrainOk, InFlight, NonePassed;
  }

  lemma TimeoutDrains(s: State, e: Event, d: nat)
    requires DrainsOk(s) && (e.RequestTimeout? || e.StreamTimeout?) && d in s.drainers
    ensures var t := Step(s, e);
            && d in t.drainers && DrainOk(t.shared, s.requests, t.drainers[d])
            && Active(t.drainers[d]) == Active(s.drainers[d]) && GatedDrain(t.drainers[d]) == GatedDrain(s.drainers[d])
  {
    assert DrainOk(s.shared, s.requests, s.drainers[d]);
    hide InFlight, NonePassed;
  }

  lemma TimeoutKeeps(s: State, e: Event)
    requires Inv(s) && (e.RequestTimeout? || e.StreamTimeout?)
    ensures Inv(Step(s, e))
  {
    var t := Step(s, e);
    hide GateOk, CountOk, DrainOk;
    forall d | d in t.drainers
      ensures d in s.drainers && DrainOk(t.shared, s.requests, t.drainers[d]) &&
              Active(t.drainers[d]) == Active(s.drainers[d]) && GatedDrain(t.drainers[d]) == GatedDrain(s.drainers[d])
    {
      TimeoutDrains(s, e, d);
    }
    SharedKeeps(s, t.shared, t.drainers);
  }

  lemma StreamDrains(s: State, e: Event, d: nat)
    requires DrainsOk(s) && (e.Register? || e.Unregister?) && d in s.drainers
    ensures DrainOk(Step(s, e).shared, s.requests, s.drainers[d])
  {
    assert DrainOk(s.shared, s.requests, s.drainers[d]);
    hide InFlight, NonePassed;
  }

  lemma StreamKeeps(s: State, e: Event)
    requires Inv(s) && (e.Register? || e.Unregister?)
    ensures Inv(Step(s, e))
  {
    var t := Step(s, e);
    hide GateOk, CountOk, DrainOk;
    forall d | d in t.drainers ensures DrainOk(t.shared, s.requests, t.drainers[d]) {
      StreamDrains(s, e, d);
    }
    SharedKeeps(s, t.shared, t.drainers);
  }

  lemma StepKeeps(s: State, e: Event)
    requires Inv(s)
    ensures Inv(Step(s, e))
  {
    hide Inv;
    match e
    case Arrive(r) => if r !in s.requests { ArriveKeeps(s, r); }
    case RequestStep(r) => if r in s.requests { RequestKeeps(s, r); }
    case BeginDrain(d) => if d !in s.drainers { BeginKeeps(s, d); }
    case DrainStep(d) => if d in s.drainers { DrainKeeps(s, d); }
    case RequestTimeout(_) => TimeoutKeeps(s, e);
    case StreamTimeout(_) => TimeoutKeeps(s, e);
    case Register(_) => StreamKeeps(s, e);
    case Unregister(_) => StreamKeeps(s, e);
  }

  lemma {:induction false} RunKeeps(events: seq<Event>)
    ensures Inv(Run(events))
  {
    if events == [] {
      assert InFlight(INIT.requests) == {};
    } else {
      RunKeeps(events[..|events| - 1]);
      StepKeeps(Run(events[..|events| - 1]), events[|events| - 1]);
    }
  }

  // ----- what every run keeps

  lemma RunStep(events: seq<Event>, n: nat)
    requires n < |events|
    ensures Run(events[..n + 1]) == Step(Run(events[..n]), events[n])
  {
    assert events[..n + 1][..n] == events[..n];
  }

  /** RUNNING to DRAINING to EXITED, one step at a time. */
  predicate Next(a: Phase, b: Phase) {
    a == b || (a == Running && b == Draining) || (a == Draining && b == Exited)
  }

  function Rank(p: Phase): nat {
    match p case Running => 0 case Draining => 1 case Exited => 2
  }

  lemma PhaseStep(s: State, e: Event)
    requires Inv(s)
    ensures Next(s.shared.phase, Step(s, e).shared.phase)
  {
    if e.DrainStep? && e.d in s.drainers {
      assert DrainOk(s.shared, s.requests, s.drainers[e.d]);
    }
    hide InFlight, NonePassed, GateOk, CountOk, PhaseOk;
  }

  /** Phases never move back and never skip DRAINING. */
  lemma {:induction false} PhasesOnlyAdvance(events: seq<Event>, n: nat, m: nat)
    requires n <= m <= |events|
    ensures Rank(Run(events[..n]).shared.phase) <= Rank(Run(events[..m]).shared.phase)
    ensures m == n + 1 ==> Next(Run(events[..n]).shared.phase, Run(events[..m]).shared.phase)
  {
    hide Inv, Step, Run;
    if n < m {
      PhasesOnlyAdvance(events, n, m - 1);
      RunStep(events, m - 1);
      RunKeeps(events[..m - 1]);
      PhaseStep(Run(events[..m - 1]), events[m - 1]);
    }
  }

  /** The drain has taken the gate, so the in-flight wait starts or has started. */
  ghost predicate Sealed(s: State) {
    s.shared.phase == Exited || exists d :: d in s.drainers && Closed(s.drainers[d])
  }

  lemma SealedRefuses(s: State)
    requires Inv(s) && Sealed(s)
    ensures s.shared.phase != Running && NonePassed(s.requests)
  {
    if s.shared.phase != Exited {
      var d :| d in s.drainers && Closed(s.drainers[d]);
      assert DrainOk(s.shared, s.requests, s.drainers[d]);
    }
  }

  lemma SealedStays(s: State, e: Event)
    requires Sealed(s)
    ensures Sealed(Step(s, e))
  {
    if s.shared.phase != Exited {
      var d :| d in s.drainers && Closed(s.drainers[d]);
      var t := Step(s, e);
      assert t.shared.phase == Exited || (d in t.drainers && Closed(t.drainers[d]));
    }
  }

  lemma SealedAccepts(s: State, e: Event)
    requires Inv(s) && Sealed(s)
    ensures Accepted(Step(s, e).requests) == Accepted(s.requests)
  {
    SealedRefuses(s);
    hide Inv, Sealed;
    if e.RequestStep? && e.r in s.requests {
      var pc := s.requests[e.r];
      var next := RequestMove(s.shared, e.r, pc).pc;
      assert (InService(next) || next == Finished) == (InService(pc) || pc == Finished);
    }
  }

  lemma SealedOnce(events: seq<Event>, n: nat)
    requires n < |events| && Sealed(Run(events[..n]))
    ensures Sealed(Run(events[..n + 1]))
    ensures Accepted(Run(events[..n + 1]).requests) == Accepted(Run(events[..n]).requests)
  {
    hide Inv, Step, Run, Sealed, Accepted;
    RunStep(events, n);
    RunKeeps(events[..n]);
    SealedStays(Run(events[..n]), events[n]);
    SealedAccepts(Run(events[..n]), events[n]);
  }

  /** Every request ever accepted was counted before the drain took the gate; none is accepted after. */
  lemma {:induction false} NoneAcceptedAfterSeal(events: seq<Event>, n: nat, m: nat)
    requires n <= m <= |events| && Sealed(Run(events[..n]))
    ensures Sealed(Run(events[..m]))
    ensures Accepted(Run(events[..m]).requests) == Accepted(Run(events[..n]).requests)
  {
    hide Run, Sealed, Accepted;
    if n < m {
      NoneAcceptedAfterSeal(events, n, m - 1);
      SealedOnce(events, m - 1);
    }
  }

  /** The counter the drain waits on is the number of accepted requests that are not done. */
  lemma CounterIsExact(events: seq<Event>)
    ensures var s := Run(events);
            s.shared.inflight == |InFlight(s.requests)| &&
            InFlight(s.requests) == set r | r in Accepted(s.requests) && s.requests[r] != Finished
  {
    RunKeeps(events);
  }

  /** A timeout that ends the wait of the drainer it is for. */
  predicate GivesUp(s: State, e: Event) {
    match e
    case RequestTimeout(d) => d in s.drainers && s.drainers[d] == AwaitRequests
    case StreamTimeout(d) => d in s.drainers && s.drainers[d] == AwaitStreams
    case _ => false
  }

  /** Event i gave up the wait for requests, or for streams. */
  ghost predicate GaveUp(events: seq<Event>, i: nat, streams: bool)
    requires i < |events|
  {
    GivesUp(Run(events[..i]), events[i]) && (if streams then events[i].StreamTimeout? else events[i].RequestTimeout?)
  }

  lemma TimeoutStep(s: State, e: Event)
    ensures Step(s, e).shared.requestsTimedOut ==> s.shared.requestsTimedOut || (e.RequestTimeout? && GivesUp(s, e))
    ensures Step(s, e).shared.streamsTimedOut ==> s.shared.streamsTimedOut || (e.StreamTimeout? && GivesUp(s, e))
  {
  }

  lemma {:induction false} TimeoutsAreEvents(events: seq<Event>, n: nat)
    requires n <= |events|
    ensures Run(events[..n]).shared.requestsTimedOut ==> exists i :: 0 <= i < n && GaveUp(events, i, false)
    ensures Run(events[..n]).shared.streamsTimedOut ==> exists i :: 0 <= i < n && GaveUp(events, i, true)
  {
    assert events[..0] == [];
    if n > 0 {
      TimeoutsAreEvents(events, n - 1);
      RunStep(events, n - 1);
      TimeoutStep(Run(events[..n - 1]), events[n - 1]);
      hide Step, Run, GivesUp;
      assert GaveUp(events, n - 1, events[n - 1].StreamTimeout?) <==>
             GivesUp(Run(events[..n - 1]), events[n - 1]) && (events[n - 1].StreamTimeout? || events[n - 1].RequestTimeout?);
    }
  }

  lemma FinalizeStep(s: State, e: Event)
    requires Inv(s)
    ensures var t := Step(s, e).shared;
            && s.shared.finalized <= t.finalized
            && (s.shared.finalized < t.finalized ==>
                  && s.shared.phase == Draining && s.shared.finalized == 0 && t.finalized == 1
                  && (s.shared.requestsTimedOut || InFlight(s.requests) == {})
                  && (s.shared.streamsTimedOut || s.shared.streams == {}))
  {
    if e.DrainStep? && e.d in s.drainers {
      assert DrainOk(s.shared, s.requests, s.drainers[e.d]);
    }
    hide InFlight, NonePassed, GateOk, CountOk, PhaseOk;
  }

  /** The finalizer runs at most once in a run, and when it does every accepted request is done or a drainer gave
  up waiting for them, and every stream is gone or a drainer gave up waiting for those. */
  lemma FinalizesOnceAndLast(events: seq<Event>, n: nat)
    requires n < |events|
    ensures Run(events).shared.finalized <= 1
    ensures var s := Run(events[..n]);
            Run(events[..n + 1]).shared.finalized > s.shared.finalized ==>
              && ((forall r :: r in Accepted(s.requests) ==> s.requests[r] == Finished)
                  || exists i :: 0 <= i < n && GaveUp(events, i, false))
              && (s.shared.streams == {} || exists i :: 0 <= i < n && GaveUp(events, i, true))
  {
    RunKeeps(events);
    RunKeeps(events[..n]);
    RunStep(events, n);
    TimeoutsAreEvents(events, n);
    var s := Run(events[..n]);
    FinalizeStep(s, events[n]);
    assert InFlight(s.requests) == {} ==> forall r :: r in Accepted(s.requests) ==> s.requests[r] == Finished by {
      assert forall r :: r in s.requests && InService(s.requests[r]) ==> r in InFlight(s.requests);
    }
    hide Run, Step, GateOk, CountOk, DrainsOk, OneDrain, InFlight, Accepted, GaveUp;
  }

  // ----- a request that may be served is, and a drain comes to an end

  lemma RunMore(events: seq<Event>, e: Event)
    ensures Run(events + [e]) == Step(Run(events), e)
  {
    assert (events + [e])[..|events|] == events;
  }

  /** The steps of r in the events. */
  function Own(events: seq<Event>, r: nat): nat {
    if events == [] then 0 else Own(events[..|events| - 1], r) + if events[|events| - 1] == RequestStep(r) then 1 else 0
  }

  /** Where a request stands, so many steps of its own after its look at the phase. */
  function After(running: bool, steps: nat): RequestPc {
    if running then (if steps == 0 then Passed else if steps == 1 then Counted else if steps == 2 then Serving else Finished)
    else if steps == 0 then Barred else Refused
  }

  lemma AfterStep(s: State, e: Event, r: nat, running: bool, steps: nat)
    requires r in s.requests && s.requests[r] == After(running, steps)
    ensures r in Step(s, e).requests && Step(s, e).requests[r] == After(running, steps + if e == RequestStep(r) then 1 else 0)
  {
  }

  lemma OwnLast(events: seq<Event>, n: nat, m: nat, r: nat)
    requires n + 1 < m <= |events|
    ensures Own(events[n + 1..m], r) == Own(events[n + 1..m - 1], r) + if events[m - 1] == RequestStep(r) then 1 else 0
  {
    assert events[n + 1..m][..m - n - 2] == events[n + 1..m - 1];
  }

  lemma LookStep(s: State, r: nat)
    requires r in s.requests && s.requests[r] == Entered
    ensures r in Step(s, RequestStep(r)).requests && Step(s, RequestStep(r)).requests[r] == After(s.shared.phase == Running, 0)
  {
  }

  /** From its look at the phase on, a request's way depends on its own steps alone: one that saw RUNNING is
  counted, served and done, and any other is refused, whatever requests and drains do in between. */
  lemma {:induction false} LookDecides(events: seq<Event>, n: nat, m: nat, r: nat)
    requires n < m <= |events| && events[n] == RequestStep(r)
    requires r in Run(events[..n]).requests && Run(events[..n]).requests[r] == Entered
    ensures r in Run(events[..m]).requests
    ensures Run(events[..m]).requests[r] == After(Run(events[..n]).shared.phase == Running, Own(events[n + 1..m], r))
  {
    hide Run, Step, After;
    RunStep(events, m - 1);
    if m == n + 1 {
      assert events[n + 1..m] == [];
      LookStep(Run(events[..n]), r);
    } else {
      LookDecides(events, n, m - 1, r);
      OwnLast(events, n, m, r);
      AfterStep(Run(events[..m - 1]), events[m - 1], r, Run(events[..n]).shared.phase == Running, Own(events[n + 1..m - 1], r));
    }
  }

  lemma Enters(s: State, r: nat)
    requires r !in s.requests && s.shared.gate.None?
    ensures Step(Step(s, Arrive(r)), RequestStep(r)) ==
            State(s.shared.(gate := Some(Request(r))), s.requests[r := Entered], s.drainers)
  {
  }

  lemma Leaves(s: State, r: nat)
    requires r in s.requests && s.requests[r] == Entered
    ensures var t := Step(Step(s, RequestStep(r)), RequestStep(r));
            if s.shared.phase == Running
            then Step(t, RequestStep(r)) ==
                 State(s.shared.(gate := None, inflight := s.shared.inflight + 1), s.requests[r := Serving], s.drainers)
            else t == State(s.shared.(gate := None), s.requests[r := Refused], s.drainers)
  {
  }

  /** Alone at the gate, a request that comes while RUNNING is counted and served, and any other is refused and
  leaves no trace. */
  lemma AloneAtGate(events: seq<Event>, r: nat)
    requires r !in Run(events).requests && Run(events).shared.gate.None?
    ensures var s := Run(events);
            var t := events + [Arrive(r)] + [RequestStep(r)] + [RequestStep(r)] + [RequestStep(r)];
            if s.shared.phase == Running
            then Run(t + [RequestStep(r)]) ==
                 State(s.shared.(inflight := s.shared.inflight + 1), s.requests[r := Serving], s.drainers)
            else Run(t) == State(s.shared, s.requests[r := Refused], s.drainers)
  {
    hide Run, Step;
    var s, e := Run(events), RequestStep(r);
    RunMore(events, Arrive(r));
    RunMore(events + [Arrive(r)], e);
    RunMore(events + [Arrive(r)] + [e], e);
    RunMore(events + [Arrive(r)] + [e] + [e], e);
    RunMore(events + [Arrive(r)] + [e] + [e] + [e], e);
    Enters(s, r);
    Leaves(State(s.shared.(gate := Some(Request(r))), s.requests[r := Entered], s.drainers), r);
  }

  /** So many steps of one drainer, with nobody else moving. */
  function Moves(m: Move<DrainPc>, d: nat, n: nat): Move<DrainPc> {
    if n == 0 then m else DrainMove(Moves(m, d, n - 1).shared, d, Moves(m, d, n - 1).pc)
  }

  function DrainSteps(d: nat, n: nat): seq<Event> {
    seq(n, _ => DrainStep(d))
  }

  lemma MovesOne(s: State, d: nat, m: Move<DrainPc>)
    requires d in s.drainers
    ensures Step(WithDrainer(s, d, m), DrainStep(d)) == WithDrainer(s, d, DrainMove(m.shared, d, m.pc))
  {
    hide DrainMove;
    var pc := DrainMove(m.shared, d, m.pc).pc;
    assert s.drainers[d := m.pc][d := pc] == s.drainers[d := pc];
  }

  lemma {:induction false} RunMoves(events: seq<Event>, d: nat, n: nat)
    requires d in Run(events).drainers
    ensures var s := Run(events);
            Run(events + DrainSteps(d, n)) == WithDrainer(s, d, Moves(Move(s.shared, s.drainers[d]), d, n))
  {
    hide Run, Step, DrainMove;
    var s := Run(events);
    if n == 0 {
      assert events + DrainSteps(d, 0) == events;
      assert s.drainers[d := s.drainers[d]] == s.drainers;
    } else {
      RunMoves(events, d, n - 1);
      RunMore(events + DrainSteps(d, n - 1), DrainStep(d));
      assert events + DrainSteps(d, n) == events + DrainSteps(d, n - 1) + [DrainStep(d)];
      MovesOne(s, d, Moves(Move(s.shared, s.drainers[d]), d, n - 1));
    }
  }

  lemma NineMoves(h: Shared, d: nat)
    requires h.phase == Running && h.gate.None? && h.inflight == 0 && h.streams == {}
    ensures Moves(Move(h, Called), d, 9) ==
            Move(h.(phase := Exited, streamsDraining := true, finalized := h.finalized + 1), Returned)
  {
    var m := Move(h, Called);
    var u := h.(phase := Draining, gate := Some(Drainer(d)));
    var w := h.(phase := Draining, streamsDraining := true);
    assert Moves(m, d, 1) == Move(h.(phase := Draining), Won);
    assert Moves(m, d, 2) == Move(u, Gated);
    assert Moves(m, d, 3) == Move(u.(streamsDraining := true), StreamsTold);
    assert Moves(m, d, 4) == Move(u.(streamsDraining := true), WaitStarted);
    assert Moves(m, d, 5) == Move(w, AwaitRequests);
    assert Moves(m, d, 6) == Move(w, AwaitStreams);
    assert Moves(m, d, 7) == Move(w, Finalizing);
    assert Moves(m, d, 8) == Move(w.(finalized := h.finalized + 1), Closing);
  }

  lemma NothingInFlight(events: seq<Event>)
    requires Run(events).shared.phase == Running
    requires forall r :: r in Accepted(Run(events).requests) ==> Run(events).requests[r] == Finished
    ensures Run(events).shared.inflight == 0 && Run(events).shared.finalized == 0
  {
    RunKeeps(events);
    CounterIsExact(events);
    hide Run, GateOk, DrainsOk, OneDrain;
    assert InFlight(Run(events).requests) == {};
  }

  lemma Begun(events: seq<Event>, d: nat)
    requires d !in Run(events).drainers
    ensures var s := Run(events); Run(events + [BeginDrain(d)]) == State(s.shared, s.requests, s.drainers[d := Called])
  {
    RunMore(events, BeginDrain(d));
  }

  /** In any run with a free gate, every accepted request done and no stream open, a drain that is begun goes
  through to the end by itself: the finalizer runs, once, and the phase is EXITED. */
  lemma LoneDrainExits(events: seq<Event>, d: nat)
    requires var s := Run(events);
             && d !in s.drainers && s.shared.phase == Running && s.shared.gate.None? && s.shared.streams == {}
             && forall r :: r in Accepted(s.requests) ==> s.requests[r] == Finished
    ensures var s, t := Run(events), Run(events + [BeginDrain(d)] + DrainSteps(d, 9));
            && t.drainers == s.drainers[d := Returned] && t.requests == s.requests
            && t.shared == s.shared.(phase := Exited, streamsDraining := true, finalized := 1)
  {
    NothingInFlight(events);
    hide Run, Accepted, Moves;
    var s := Run(events);
    Begun(events, d);
    RunMoves(events + [BeginDrain(d)], d, 9);
    NineMoves(s.shared, d);
    assert s.drainers[d := Called][d := Returned] == s.drainers[d := Returned];
  }

  /** A second drain returns at once and changes nothing. */
  lemma SecondDrainReturns(events: seq<Event>, d: nat)
    requires d !in Run(events).drainers && Run(events).shared.phase != Running
    ensures var s := Run(events);
            Run(events + [BeginDrain(d)] + DrainSteps(d, 1)) == State(s.shared, s.requests, s.drainers[d := Returned])
  {
    hide Run;
    var s := Run(events);
    Begun(events, d);
    RunMoves(events + [BeginDrain(d)], d, 1);
    assert Moves(Move(s.shared, Called), d, 0) == Move(s.shared, Called);
    assert Moves(Move(s.shared, Called), d, 1) == Move(s.shared, Returned);
    assert s.drainers[d := Called][d := Returned] == s.drainers[d := Returned];
  }

  // ----- the stream registry

  /** Event i registered the stream before the streams were told, and nothing has unregistered it since. */
  ghost predicate OpenSince(events: seq<Event>, n: nat, i: nat, id: nat)
    requires i < n <= |events|
  {
    && events[i] == Register(id) && !Run(events[..i]).shared.streamsDraining
    && forall j :: i < j < n ==> events[j] != Unregister(id)
  }

  lemma RegistryStep(s: State, e: Event, id: nat)
    ensures id in Step(s, e).shared.streams <==>
            (e == Register(id) && !s.shared.streamsDraining) || (id in s.shared.streams && e != Unregister(id))
  {
  }

  ghost predicate IsOpen(events: seq<Event>, n: nat, id: nat)
    requires n <= |events|
  {
    exists i :: 0 <= i < n && OpenSince(events, n, i, id)
  }

  lemma OpenLast(events: seq<Event>, n: nat, id: nat)
    requires n < |events|
    ensures IsOpen(events, n + 1, id) <==>
            || (events[n] == Register(id) && !Run(events[..n]).shared.streamsDraining)
            || (IsOpen(events, n, id) && events[n] != Unregister(id))
  {
    hide Run;
    if events[n] == Register(id) && !Run(events[..n]).shared.streamsDraining {
      assert OpenSince(events, n + 1, n, id);
    }
    if IsOpen(events, n, id) && events[n] != Unregister(id) {
      var i :| 0 <= i < n && OpenSince(events, n, i, id);
      assert OpenSince(events, n + 1, i, id);
    }
    if IsOpen(events, n + 1, id) {
      var i :| 0 <= i < n + 1 && OpenSince(events, n + 1, i, id);
      assert i < n ==> OpenSince(events, n, i, id);
    }
  }

  /** The registry holds exactly the streams that were registered in time and not unregistered since. */
  lemma {:induction false} RegistryIsExact(events: seq<Event>, n: nat, id: nat)
    requires n <= |events|
    ensures id in Run(events[..n]).shared.streams <==> IsOpen(events, n, id)
  {
    assert events[..0] == [];
    if n > 0 {
      RegistryIsExact(events, n - 1, id);
      RunStep(events, n - 1);
      RegistryStep(Run(events[..n - 1]), events[n - 1], id);
      OpenLast(events, n - 1, id);
      hide Step, Run, IsOpen;
    }
  }
}
