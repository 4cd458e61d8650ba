/** Approval requests with separation of duties. A decision reads the request in one step and writes it back
in a later one; the write replaces whatever is stored. */
module Approval {

  datatype Option<+T> = None | Some(value: T)

  datatype Status = Pending | Approved | Rejected

  datatype Request = Request(
    requester: string,
    action: string,
    dual: bool,
    status: Status,
    approvedBy: seq<string>,
    rejectedBy: string)

  datatype Failure = NotPending | Unverified | SelfApproval | AlreadyDecided | NotFound | Invalid

  datatype Verdict = Write(request: Request) | Refuse(failure: Failure)

  // ----- the decisions, on the copy that was read

  function ApproveCopy(r: Request, approver: string, verified: bool): Verdict {
    if r.status != Pending then Refuse(NotPending)
    else if !verified then Refuse(Unverified)
    else if approver == r.requester then Refuse(SelfApproval)
    else if approver in r.approvedBy then Refuse(AlreadyDecided)
    else
      var list := r.approvedBy + [approver];
      Write(r.(approvedBy := list, status := if r.dual && |list| < 2 then Pending else Approved))
  }

  function RejectCopy(r: Request, actor: string, verified: bool): Verdict {
    if r.status != Pending then Refuse(NotPending)
    else if !verified then Refuse(Unverified)
    else if actor == r.requester then Refuse(SelfApproval)
    else Write(r.(status := Rejected, rejectedBy := actor))
  }

  /** What the store's Update leaves: only the decision's columns change. */
  function Updated(row: Request, r: Request): Request {
    row.(status := r.status, approvedBy := r.approvedBy, rejectedBy := r.rejectedBy)
  }

  /** The service, used by one decider at a time. `verified` is the answer of the approver check. */
  class Service {
    var store: map<string, Request>

    constructor ()
      ensures store == map[]
    {
      store := map[];
    }

    method Create(id: string, request: Request) returns (ok: bool)
      modifies this
      ensures ok == (request.requester != "" && request.action != "" && id !in old(store))
      ensures store == if ok then old(store)[id := request.(status := Pending)] else old(store)
    {
      if request.requester == "" || request.action == "" {
        return false;
      }
      if id in store {
        return false;
      }
      store := store[id := request.(status := Pending)];
      return true;
    }

    method Approve(id: string, approver: string, verified: bool) returns (v: Verdict)
      modifies this
      ensures id !in old(store) ==> v == Refuse(NotFound)
      ensures id in old(store) ==> v == ApproveCopy(old(store)[id], approver, verified)
      ensures store == if v.Write? then old(store)[id := v.request] else old(store)
    {
      if id !in store {
        return Refuse(NotFound);
      }
      var request := store[id];
      if request.status != Pending {
        return Refuse(NotPending);
      }
      if !verified {
        return Refuse(Unverified);
      }
      if approver == request.requester {
        return Refuse(SelfApproval);
      }
      for i := 0 to |request.approvedBy|
        invariant approver !in request.approvedBy[..i]
      {
        if request.approvedBy[i] == approver {
          return Refuse(AlreadyDecided);
        }
      }
      assert request.approvedBy[..|request.approvedBy|] == request.approvedBy;
      request := request.(approvedBy := request.approvedBy + [approver]);
      if !(request.dual && |request.approvedBy| < 2) {
        request := request.(status := Approved);
      }
      store := store[id := request];
      return Write(request);
    }

    method Reject(id: string, actor: string, verified: bool) returns (v: Verdict)
      modifies this
      ensures id !in old(store) ==> v == Refuse(NotFound)
      ensures id in old(store) ==> v == RejectCopy(old(store)[id], actor, verified)
      ensures store == if v.Write? then old(store)[id := v.request] else old(store)
    {
      if id !in store {
        return Refuse(NotFound);
      }
      v := RejectCopy(store[id], actor, verified);
      if v.Write? {
        store := store[id := v.request];
      }
    }
  }

  // ----- many deciders at once

  datatype Copy = Copy(id: string, request: Request)

  datatype State = State(store: map<string, Request>, copies: map<nat, Copy>)

  datatype Event =
    | Open(id: string, request: Request)
    | Read(decider: nat, id: string)
    | Finish(decider: nat, actor: string, approve: bool, verified: bool)

  const INIT := State(map[], map[])

  function Decision(r: Request, e: Event): Verdict
    requires e.Finish?
  {
    if e.approve then ApproveCopy(r, e.actor, e.verified) else RejectCopy(r, e.actor, e.verified)
  }

  function Step(s: State, e: Event): State {
    match e
    case Open(id, request) =>
      if request.requester == "" || request.action == "" || id in s.store then s
      else s.(store := s.store[id := request.(status := Pending)])
    case Read(d, id) => if id in s.store then s.(copies := s.copies[d := Copy(id, s.store[id])]) else s.(copies := s.copies - {d})
    case Finish(d, _, _, _) =>
      if d !in s.copies then s
      else
        var copy := s.copies[d];
        var done := s.(copies := s.copies - {d});
        match Decision(copy.request, e)
        case Refuse(_) => done
        case Write(r) => if copy.id in s.store then done.(store := s.store[copy.id := Updated(s.store[copy.id], r)]) else done
  }

  function Run(events: seq<Event>): State {
    if events == [] then INIT else Step(Run(events[..|events| - 1]), events[|events| - 1])
  }

  // ----- separation of duties

  /** Distinct approvers, none of them the requester, and enough of them once approved. */
  ghost predicate Sound(r: Request) {
    && (forall i, j :: 0 <= i < j < |r.approvedBy| ==> r.approvedBy[i] != r.approvedBy[j])
    && r.requester !in r.approvedBy
    && (r.status == Approved ==> |r.approvedBy| >= if r.dual then 2 else 1)
  }

  ghost predicate Inv(s: State) {
    && (forall id :: id in s.store ==> Sound(s.store[id]))
    && (forall d :: d in s.copies ==>
          && s.copies[d].id in s.store && Sound(s.copies[d].request)
          && s.copies[d].request.requester == s.store[s.copies[d].id].requester
          && s.copies[d].request.dual == s.store[s.copies[d].id].dual)
  }

  /** The approvers a request is opened with are distinct, and its requester is not among them. */
  ghost predicate Admissible(request: Request) {
    Sound(request.(status := Pending))
  }

  ghost predicate AdmissibleRequests(events: seq<Event>) {
    forall i :: 0 <= i < |events| && events[i].Open? ==> Admissible(events[i].request)
  }

  lemma DecisionIsSound(r: Request, e: Event, row: Request)
    requires Sound(r) && e.Finish? && Decision(r, e).Write? && row.requester == r.requester && row.dual == r.dual
    ensures Sound(Updated(row, Decision(r, e).request))
  {
  }

  lemma StepKeeps(s: State, e: Event)
    requires Inv(s) && (e.Open? ==> Admissible(e.request))
    ensures Inv(Step(s, e))
  {
    if e.Finish? && e.decider in s.copies && Decision(s.copies[e.decider].request, e).Write? {
      var copy := s.copies[e.decider];
      DecisionIsSound(copy.request, e, s.store[copy.id]);
    }
    hide Decision;
  }

  lemma {:induction false} RunKeeps(events: seq<Event>)
    requires AdmissibleRequests(events)
    ensures Inv(Run(events))
  {
    if events != [] {
      RunKeeps(events[..|events| - 1]);
      StepKeeps(Run(events[..|events| - 1]), events[|events| - 1]);
    }
  }

  /** In every interleaving a request stored as approved lists distinct approvers, none of them the requester,
  at least one, and at least two when dual approval is set. */
  lemma ApprovedIsSound(events: seq<Event>, id: string)
    requires AdmissibleRequests(events) && id in Run(events).store && Run(events).store[id].status == Approved
    ensures var r := Run(events).store[id];
            && (forall i, j :: 0 <= i < j < |r.approvedBy| ==> r.approvedBy[i] != r.approvedBy[j])
            && r.requester !in r.approvedBy && |r.approvedBy| >= 1 && (r.dual ==> |r.approvedBy| >= 2)
  {
    RunKeeps(events);
  }

  /** The condition is needed: Create keeps the approvers it is given. */
  lemma GivenApproversCount()
    ensures var r := Request("eve", "act", true, Pending, ["eve"], "");
            var s := Run([Open("1", r), Read(0, "1"), Finish(0, "bob", true, true)]);
            "1" in s.store && s.store["1"].status == Approved && s.store["1"].requester in s.store["1"].approvedBy
  {
    var r := Request("eve", "act", true, Pending, ["eve"], "");
    var a, b, c := Open("1", r), Read(0, "1"), Finish(0, "bob", true, true);
    assert [a][..0] == [] && [a, b][..1] == [a] && [a, b, c][..2] == [a, b];
    var s := Step(INIT, a);
    assert Run([a]) == s && Run([a, b]) == Step(s, b) && Run([a, b, c]) == Step(Step(s, b), c);
    assert Step(s, b).copies[0] == Copy("1", r);
    assert (["eve"] + ["bob"])[0] == "eve";
  }

  /** Somebody who is neither the requester nor an approver. */
  function Stranger(names: seq<string>): (name: string)
    ensures forall i :: 0 <= i < |names| ==> |names[i]| < |name|
    ensures name !in names
  {
    if names == [] then "x"
    else
      var other, last := Stranger(names[..|names| - 1]), names[|names| - 1];
      if |last| < |other| then other else last + "x"
  }

  /** From any state, two steps approve a pending request with a list that is not admissible. */
  lemma UnsoundIsApproved(s: State, id: string)
    requires id in s.store && s.store[id].status == Pending && !Admissible(s.store[id])
    ensures var actor := Stranger(s.store[id].approvedBy + [s.store[id].requester]);
            var t := Step(Step(s, Read(0, id)), Finish(0, actor, true, true));
            id in t.store && t.store[id].status == Approved && !Sound(t.store[id])
  {
    var r := s.store[id];
    var names := r.approvedBy + [r.requester];
    var actor := Stranger(names);
    assert r.requester == names[|r.approvedBy|] && forall i :: 0 <= i < |r.approvedBy| ==> names[i] == r.approvedBy[i];
    assert actor != r.requester && actor !in r.approvedBy;
    var list := r.approvedBy + [actor];
    assert ApproveCopy(r, actor, true) == Write(r.(approvedBy := list, status := Approved));
    Unsound(r, actor);
  }

  lemma Unsound(r: Request, actor: string)
    requires !Admissible(r)
    ensures !Sound(r.(approvedBy := r.approvedBy + [actor], status := Approved)) && r.approvedBy != []
  {
    var list := r.approvedBy + [actor];
    assert forall i :: 0 <= i < |r.approvedBy| ==> list[i] == r.approvedBy[i];
  }

  /** In every continuation the request is sound whenever it is stored as approved. */
  ghost predicate StaysSound(events: seq<Event>, id: string) {
    forall more :: AdmissibleRequests(more) ==>
      var s := Run(events + more); id in s.store && s.store[id].status == Approved ==> Sound(s.store[id])
  }

  /** A request that is opened can be approved against the separation of duties exactly when it was opened with a
  list that already breaks it. */
  lemma OpeningIff(events: seq<Event>, id: string, request: Request)
    requires AdmissibleRequests(events) && request.requester != "" && request.action != "" && id !in Run(events).store
    ensures StaysSound(events + [Open(id, request)], id) <==> Admissible(request)
  {
    var started := events + [Open(id, request)];
    assert started[..|events|] == events;
    if Admissible(request) {
      forall more | AdmissibleRequests(more)
        ensures var s := Run(started + more); id in s.store && s.store[id].status == Approved ==> Sound(s.store[id])
      {
        RunKeeps(started + more);
      }
    } else {
      var s := Run(started);
      assert s.store[id] == request.(status := Pending);
      UnsoundIsApproved(s, id);
      var more := [Read(0, id), Finish(0, Stranger(s.store[id].approvedBy + [s.store[id].requester]), true, true)];
      RunAppend(started, more);
      assert AdmissibleRequests(more);
    }
  }

  // ----- decisions that are overwritten

  /** A decision does not stand while another decider holds an older copy: a rejection becomes an approval. */
  lemma RejectionIsOverwritten()
    ensures var r := Request("eve", "act", false, Pending, [], "");
            var before := [Open("1", r), Read(0, "1"), Read(1, "1"), Finish(1, "ann", false, true)];
            var s, t := Run(before), Run(before + [Finish(0, "bob", true, true)]);
            "1" in s.store && s.store["1"].status == Rejected && "1" in t.store && t.store["1"].status == Approved
  {
    var r := Request("eve", "act", false, Pending, [], "");
    var a, b, c, d, e := Open("1", r), Read(0, "1"), Read(1, "1"), Finish(1, "ann", false, true), Finish(0, "bob", true, true);
    assert [a][..0] == [] && [a, b][..1] == [a] && [a, b, c][..2] == [a, b] && [a, b, c, d][..3] == [a, b, c];
    assert ([a, b, c, d] + [e])[..4] == [a, b, c, d];
    assert Run([]) == INIT && Run([a]) == Step(INIT, a) && Run([a, b]) == Step(Run([a]), b);
    var s3 := Run([a, b, c]);
    assert s3 == Step(Run([a, b]), c);
    assert s3.store == map["1" := r] && s3.copies[0] == Copy("1", r) && s3.copies[1] == Copy("1", r);
    assert Run([a, b, c, d]) == Step(s3, d);
  }

  /** No decider holds a pending copy of the request. */
  predicate Quiet(s: State, id: string) {
    forall d | d in s.copies :: s.copies[d].id == id ==> s.copies[d].request.status != Pending
  }

  lemma DecidedStep(s: State, e: Event, id: string)
    requires id in s.store && s.store[id].status != Pending && Quiet(s, id)
    ensures id in Step(s, e).store && Step(s, e).store[id] == s.store[id] && Quiet(Step(s, e), id)
  {
  }

  lemma RunStep(events: seq<Event>, n: nat)
    requires n < |events|
    ensures Run(events[..n + 1]) == Step(Run(events[..n]), events[n])
  {
    assert events[..n + 1][..n] == events[..n];
  }

  /** Once a request is decided and nobody holds a pending copy of it, it stays as decided for good. */
  lemma {:induction false} DecidedStays(events: seq<Event>, n: nat, m: nat, id: string)
    requires n <= m <= |events|
    requires id in Run(events[..n]).store && Run(events[..n]).store[id].status != Pending && Quiet(Run(events[..n]), id)
    ensures id in Run(events[..m]).store && Run(events[..m]).store[id] == Run(events[..n]).store[id] && Quiet(Run(events[..m]), id)
  {
    if n < m {
      DecidedStays(events, n, m - 1, id);
      RunStep(events, m - 1);
      DecidedStep(Run(events[..m - 1]), events[m - 1], id);
    }
  }

  /** And only then: while somebody holds a pending copy, one decision of an eligible actor changes it. */
  lemma PendingCopyOverwrites(s: State, d: nat, actor: string)
    requires Inv(s) && d in s.copies && s.copies[d].request.status == Pending
    requires actor != s.copies[d].request.requester && actor !in s.copies[d].request.approvedBy
    ensures var row := s.store[s.copies[d].id];
            Step(s, Finish(d, actor, row.status == Rejected, true)).store[s.copies[d].id] != row
  {
    var copy := s.copies[d];
    var row := s.store[copy.id];
    var e := Finish(d, actor, row.status == Rejected, true);
    assert Decision(copy.request, e).Write?;
    assert Step(s, e).store[copy.id] == Updated(row, Decision(copy.request, e).request);
    assert Decision(copy.request, e).request.status != row.status;
  }

  // ----- the service in use

  datatype Op = CreateOp(id: string, request: Request) | DecideOp(id: string, actor: string, approve: bool, verified: bool)

  /** An operation of the service is a read and a write with nothing between them. */
  function EventsOf(op: Op): seq<Event> {
    match op
    case CreateOp(id, request) => [Open(id, request)]
    case DecideOp(id, actor, approve, verified) => [Read(0, id), Finish(0, actor, approve, verified)]
  }

  function Events(ops: seq<Op>): seq<Event> {
    if ops == [] then [] else Events(ops[..|ops| - 1]) + EventsOf(ops[|ops| - 1])
  }

  lemma {:induction false} RunAppend(events: seq<Event>, more: seq<Event>)
    requires |more| == 1 || |more| == 2
    ensures Run(events + more) == if |more| == 1 then Step(Run(events), more[0]) else Step(Step(Run(events), more[0]), more[1])
  {
    hide Step;
    if |more| == 1 {
      assert (events + more)[..|events|] == events;
    } else {
      RunAppend(events, more[..1]);
      assert (events + more)[..|events| + 1] == events + more[..1];
    }
  }

  /** With nothing between read and write, the write leaves the decided copy. */
  lemma DecideAtOnce(s: State, id: string, actor: string, approve: bool, verified: bool)
    requires s.copies == map[]
    ensures var e := Finish(0, actor, approve, verified);
            var t := Step(Step(s, Read(0, id)), e);
            && t.copies == map[]
            && t.store == if id in s.store && Decision(s.store[id], e).Write?
                          then s.store[id := Decision(s.store[id], e).request] else s.store
  {
    var e := Finish(0, actor, approve, verified);
    if id in s.store && Decision(s.store[id], e).Write? {
      assert Updated(s.store[id], Decision(s.store[id], e).request) == Decision(s.store[id], e).request;
    }
  }

  method Perform(service: Service, op: Op) returns (ghost s: State)
    modifies service
    ensures s == (if op.CreateOp? then Step(State(old(service.store), map[]), EventsOf(op)[0])
                  else Step(Step(State(old(service.store), map[]), EventsOf(op)[0]), EventsOf(op)[1]))
    ensures s == State(service.store, map[])
  {
    s := State(service.store, map[]);
    match op {
      case CreateOp(id, request) =>
        s := Step(s, EventsOf(op)[0]);
        var _ := service.Create(id, request);
      case DecideOp(id, actor, approve, verified) =>
        DecideAtOnce(s, id, actor, approve, verified);
        s := Step(Step(s, EventsOf(op)[0]), EventsOf(op)[1]);
        hide ApproveCopy, RejectCopy, Step;
        if approve {
          var _ := service.Approve(id, actor, verified);
        } else {
          var _ := service.Reject(id, actor, verified);
        }
    }
  }

  lemma {:induction false} AdmissibleEvents(ops: seq<Op>)
    requires forall i :: 0 <= i < |ops| && ops[i].CreateOp? ==> Admissible(ops[i].request)
    ensures AdmissibleRequests(Events(ops))
  {
    if ops != [] {
      AdmissibleEvents(ops[..|ops| - 1]);
    }
  }

  /** A service used by one decider at a time is one run of the deciders: what it stores is sound. */
  method Serve(ops: seq<Op>) returns (store: map<string, Request>)
    requires forall i :: 0 <= i < |ops| && ops[i].CreateOp? ==> Admissible(ops[i].request)
    ensures store == Run(Events(ops)).store
    ensures forall id :: id in store ==> Sound(store[id])
  {
    var service := new Service();
    assert ops[..0] == [];
    for i := 0 to |ops|
      invariant fresh(service) && Run(Events(ops[..i])) == State(service.store, map[])
    {
      hide Step, Run;
      assert ops[..i + 1][..i] == ops[..i];
      RunAppend(Events(ops[..i]), EventsOf(ops[i]));
      ghost var s := Perform(service, ops[i]);
    }
    assert ops[..|ops|] == ops;
    AdmissibleEvents(ops);
    RunKeeps(Events(ops));
    return service.store;
  }

  // ----- who decided

  /** Event i opened the request with the name on its list, or was that person's verified approval of it. */
  ghost predicate VouchedAt(events: seq<Event>, i: nat, id: string, name: string)
    requires i < |events|
  {
    match events[i]
    case Open(key, request) => key == id && name in request.approvedBy
    case Read(_, _) => false
    case Finish(d, actor, approve, verified) =>
      approve && verified && actor == name && d in Run(events[..i]).copies && Run(events[..i]).copies[d].id == id
  }

  /** Event i was that person's verified rejection of the request. */
  ghost predicate RejectedAt(events: seq<Event>, i: nat, id: string, name: string)
    requires i < |events|
  {
    && events[i].Finish? && !events[i].approve && events[i].verified && events[i].actor == name
    && events[i].decider in Run(events[..i]).copies && Run(events[..i]).copies[events[i].decider].id == id
  }

  ghost predicate Traced(r: Request, events: seq<Event>, n: nat, id: string)
    requires n <= |events|
  {
    && (forall name :: name in r.approvedBy ==> exists i :: 0 <= i < n && VouchedAt(events, i, id, name))
    && (r.status == Rejected ==> exists i :: 0 <= i < n && RejectedAt(events, i, id, r.rejectedBy))
  }

  ghost predicate AllTraced(s: State, events: seq<Event>, n: nat)
    requires n <= |events|
  {
    && (forall id :: id in s.store ==> Traced(s.store[id], events, n, id))
    && (forall d :: d in s.copies ==> Traced(s.copies[d].request, events, n, s.copies[d].id))
  }

  lemma TracedLater(r: Request, events: seq<Event>, n: nat, id: string)
    requires n < |events| && Traced(r, events, n, id)
    ensures Traced(r, events, n + 1, id)
  {
    hide VouchedAt, RejectedAt;
  }

  lemma OpenIsTraced(events: seq<Event>, n: nat)
    requires n < |events| && events[n].Open?
    ensures Traced(events[n].request.(status := Pending), events, n + 1, events[n].id)
  {
    forall name | name in events[n].request.approvedBy ensures exists i :: 0 <= i < n + 1 && VouchedAt(events, i, events[n].id, name) {
      assert VouchedAt(events, n, events[n].id, name);
    }
  }

  lemma DecisionIsTraced(events: seq<Event>, n: nat, row: Request)
    requires n < |events| && events[n].Finish? && events[n].decider in Run(events[..n]).copies
    requires var copy := Run(events[..n]).copies[events[n].decider];
             Traced(copy.request, events, n, copy.id) && Decision(copy.request, events[n]).Write?
    ensures var copy := Run(events[..n]).copies[events[n].decider];
            Traced(Updated(row, Decision(copy.request, events[n]).request), events, n + 1, copy.id)
  {
    var e := events[n];
    var copy := Run(events[..n]).copies[e.decider];
    TracedLater(copy.request, events, n, copy.id);
    if e.approve {
      assert VouchedAt(events, n, copy.id, e.actor);
    } else {
      assert RejectedAt(events, n, copy.id, e.actor);
    }
    hide VouchedAt, RejectedAt, Run;
  }

  lemma TracedStep(events: seq<Event>, n: nat)
    requires n < |events| && AllTraced(Run(events[..n]), events, n)
    ensures AllTraced(Step(Run(events[..n]), events[n]), events, n + 1)
  {
    var s, e := Run(events[..n]), events[n];
    forall id | id in s.store ensures Traced(s.store[id], events, n + 1, id) {
      TracedLater(s.store[id], events, n, id);
    }
    forall d | d in s.copies ensures Traced(s.copies[d].request, events, n + 1, s.copies[d].id) {
      TracedLater(s.copies[d].request, events, n, s.copies[d].id);
    }
    if e.Open? {
      OpenIsTraced(events, n);
    } else if e.Finish? && e.decider in s.copies && Decision(s.copies[e.decider].request, e).Write? && s.copies[e.decider].id in s.store {
      DecisionIsTraced(events, n, s.store[s.copies[e.decider].id]);
    }
    hide Traced, Decision, Updated;
  }

  lemma {:induction false} RunIsTraced(events: seq<Event>, n: nat)
    requires n <= |events|
    ensures AllTraced(Run(events[..n]), events, n)
  {
    assert events[..0] == [];
    if n > 0 {
      RunIsTraced(events, n - 1);
      RunStep(events, n - 1);
      hide AllTraced, Step, Run;
      TracedStep(events, n - 1);
    }
  }

  /** In every interleaving everyone who stands as approver of a request was named when it was opened or approved
  it, verified; and a request that is rejected names somebody who rejected it, verified. */
  lemma DecidersAreReal(events: seq<Event>, id: string)
    requires id in Run(events).store
    ensures var r := Run(events).store[id];
            && (forall name :: name in r.approvedBy ==> exists i :: 0 <= i < |events| && VouchedAt(events, i, id, name))
            && (r.status == Rejected ==> exists i :: 0 <= i < |events| && RejectedAt(events, i, id, r.rejectedBy))
  {
    assert events[..|events|] == events;
    RunIsTraced(events, |events|);
  }

  /** A decision on the request as it stands takes effect exactly for a verified actor other than the requester
  who has not yet approved; a refusal tells which of these failed, and changes nothing. */
  lemma DecisionIff(events: seq<Event>, d: nat, id: string, actor: string, approve: bool, verified: bool)
    requires id in Run(events).store
    ensures var r, e := Run(events).store[id], Finish(d, actor, approve, verified);
            var t := Run(events + [Read(d, id), e]).store;
            var list := r.approvedBy + [actor];
            t == if r.status == Pending && verified && actor != r.requester && (approve ==> actor !in r.approvedBy)
                 then Run(events).store[id := if !approve then r.(status := Rejected, rejectedBy := actor)
                                              else if r.dual && |list| == 1 then r.(approvedBy := list)
                                              else r.(approvedBy := list, status := Approved)]
                 else Run(events).store
    ensures var r, v := Run(events).store[id], Decision(Run(events).store[id], Finish(d, actor, approve, verified));
            && (v == Refuse(NotPending) <==> r.status != Pending)
            && (v == Refuse(Unverified) <==> r.status == Pending && !verified)
            && (v == Refuse(SelfApproval) <==> r.status == Pending && verified && actor == r.requester)
            && (v == Refuse(AlreadyDecided) <==> r.status == Pending && verified && actor != r.requester && approve && actor in r.approvedBy)
  {
    var e := Finish(d, actor, approve, verified);
    RunAppend(events, [Read(d, id), e]);
    DecisionStep(Run(events), d, id, e);
  }

  lemma DecisionStep(s: State, d: nat, id: string, e: Event)
    requires id in s.store && e.Finish? && e.decider == d
    ensures var t := Step(Step(s, Read(d, id)), e).store;
            t == if Decision(s.store[id], e).Write? then s.store[id := Decision(s.store[id], e).request] else s.store
  {
    hide ApproveCopy, RejectCopy;
    var u := Step(s, Read(d, id));
    assert u.store == s.store && u.copies[d] == Copy(id, s.store[id]);
    if Decision(s.store[id], e).Write? {
      DecidedColumns(s.store[id], e);
    }
  }

  lemma DecidedColumns(r: Request, e: Event)
    requires e.Finish? && Decision(r, e).Write?
    ensures Updated(r, Decision(r, e).request) == Decision(r, e).request
  {
  }
}
