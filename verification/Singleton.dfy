/** The singleton runner: processes that loop over a shared lease row and run a job while they hold
it. An event is one store call, the start or end of a job, a timer, a crash, or the passing of time.
The lease row is the one `CoordinationLeaseStore` keeps for a scope; identifiers are never reused. */
module Singleton {

  datatype Option<+T> = None | Some(value: T)

  datatype Lease = Lease(id: nat, expiresAt: int)

  /** Where a process stands in its loop. */
  datatype Pc =
    | Top      // before Acquire or Renew
    | Granted  // the store said yes; before the job
    | InJob
    | Waiting  // before the timer or the end of the context
    | Stopped

  datatype Proc = Proc(holder: bool, leaseId: nat, grantedAt: int, pc: Pc)

  datatype State = State(now: int, lease: Option<Lease>, procs: map<nat, Proc>, nextId: nat)

  /** A store call is answered, or fails before or after it took effect. */
  datatype Reply = Answered | FailedBefore | FailedAfter

  datatype Event =
    | Tick(duration: nat)
    | Spawn(p: nat)
    | Ask(p: nat, reply: Reply)
    | StartJob(p: nat)
    | EndJob(p: nat)
    | Timer(p: nat)
    | Shutdown(p: nat, reply: Reply)
    | Crash(p: nat)

  // ----- the store

  predicate Acquirable(s: State) {
    s.lease.None? || s.lease.value.expiresAt < s.now
  }

  predicate Renewable(s: State, id: nat) {
    s.lease.Some? && s.lease.value.id == id && s.lease.value.expiresAt > s.now
  }

  // ----- the loop

  function Set(s: State, p: nat, proc: Proc): State {
    s.(procs := s.procs[p := proc])
  }

  /** A process that is no holder asks for the lease. */
  function Acquire(s: State, p: nat, ttl: nat, reply: Reply): State
    requires p in s.procs
  {
    var me := s.procs[p];
    var t := if !reply.FailedBefore? && Acquirable(s) then
               s.(lease := Some(Lease(s.nextId, s.now + ttl)), nextId := s.nextId + 1) else s;
    if reply.Answered? && Acquirable(s) then Set(t, p, Proc(true, s.nextId, s.now, Granted))
    else Set(t, p, me.(pc := Waiting))
  }

  /** A holder renews before the next job; it steps down when the store says the lease is lost. */
  function Renew(s: State, p: nat, ttl: nat, reply: Reply): State
    requires p in s.procs
  {
    var me := s.procs[p];
    var t := if !reply.FailedBefore? && Renewable(s, me.leaseId) then
               s.(lease := Some(Lease(me.leaseId, s.now + ttl))) else s;
    if !reply.Answered? then Set(t, p, me.(pc := Waiting))
    else if Renewable(s, me.leaseId) then Set(t, p, me.(grantedAt := s.now, pc := Granted))
    else Set(t, p, me.(holder := false, pc := Waiting))
  }

  function Release(s: State, p: nat, reply: Reply): State
    requires p in s.procs
  {
    var me := s.procs[p];
    var t := if me.holder && !reply.FailedBefore? && s.lease.Some? && s.lease.value.id == me.leaseId
             then s.(lease := None) else s;
    Set(t, p, me.(pc := Stopped))
  }

  function Step(s: State, e: Event, ttl: nat): State {
    match e
    case Tick(duration) => s.(now := s.now + duration)
    case Spawn(p) => if p in s.procs then s else Set(s, p, Proc(false, 0, s.now, Top))
    case Ask(p, reply) =>
      if p in s.procs && s.procs[p].pc == Top
      then if s.procs[p].holder then Renew(s, p, ttl, reply) else Acquire(s, p, ttl, reply)
      else s
    case StartJob(p) => if p in s.procs && s.procs[p].pc == Granted then Set(s, p, s.procs[p].(pc := InJob)) else s
    case EndJob(p) => if p in s.procs && s.procs[p].pc == InJob then Set(s, p, s.procs[p].(pc := Waiting)) else s
    case Timer(p) => if p in s.procs && s.procs[p].pc == Waiting then Set(s, p, s.procs[p].(pc := Top)) else s
    case Shutdown(p, reply) => if p in s.procs && s.procs[p].pc == Waiting then Release(s, p, reply) else s
    case Crash(p) => if p in s.procs then Set(s, p, s.procs[p].(pc := Stopped)) else s
  }

  /** Any lease may be in the table at the start, as long as its identifier is taken. */
  ghost predicate Init(s: State) {
    s.procs == map[] && (s.lease.Some? ==> s.lease.value.id < s.nextId) && s.nextId > 0
  }

  function Run(s: State, events: seq<Event>, ttl: nat): State {
    if events == [] then s else Step(Run(s, events[..|events| - 1], ttl), events[|events| - 1], ttl)
  }

  // ----- mutual exclusion

  /** The operating assumption: a job ends within the TTL of the grant just before it. */
  ghost predicate Timely(s: State, ttl: nat) {
    forall p :: p in s.procs && s.procs[p].pc == InJob ==> s.now <= s.procs[p].grantedAt + ttl
  }

  /** While a grant is younger than the TTL, the lease row is the grant. */
  ghost predicate GrantOk(s: State, me: Proc, ttl: nat) {
    && (me.holder ==> 0 < me.leaseId < s.nextId)
    && me.grantedAt <= s.now
    && (me.pc == Granted || me.pc == InJob ==> me.holder)
    && ((me.pc == Granted || me.pc == InJob) && s.now <= me.grantedAt + ttl ==>
          s.lease.Some? && s.lease.value.id == me.leaseId && s.lease.value.expiresAt >= me.grantedAt + ttl)
  }

  ghost predicate Inv(s: State, ttl: nat) {
    && s.nextId > 0
    && (s.lease.Some? ==> s.lease.value.id < s.nextId)
    && (forall p :: p in s.procs ==> GrantOk(s, s.procs[p], ttl))
    && (forall p, q :: p in s.procs && q in s.procs && p != q && s.procs[p].holder && s.procs[q].holder ==>
          s.procs[p].leaseId != s.procs[q].leaseId)
  }

  lemma AcquireKeeps(s: State, p: nat, ttl: nat, reply: Reply)
    requires Inv(s, ttl) && p in s.procs && s.procs[p].pc == Top && !s.procs[p].holder
    ensures Inv(Acquire(s, p, ttl, reply), ttl)
  {
    var t := Acquire(s, p, ttl, reply);
    forall q | q in t.procs ensures GrantOk(t, t.procs[q], ttl) {
      assert GrantOk(s, s.procs[q], ttl);
    }
  }

  lemma RenewKeeps(s: State, p: nat, ttl: nat, reply: Reply)
    requires Inv(s, ttl) && p in s.procs && s.procs[p].pc == Top && s.procs[p].holder
    ensures Inv(Renew(s, p, ttl, reply), ttl)
  {
    var t := Renew(s, p, ttl, reply);
    forall q | q in t.procs ensures GrantOk(t, t.procs[q], ttl) {
      assert GrantOk(s, s.procs[q], ttl);
    }
  }

  lemma OtherKeeps(s: State, e: Event, ttl: nat)
    requires Inv(s, ttl) && !e.Ask?
    ensures Inv(Step(s, e, ttl), ttl)
  {
    var t := Step(s, e, ttl);
    forall q | q in t.procs ensures GrantOk(t, t.procs[q], ttl) {
      assert q in s.procs ==> GrantOk(s, s.procs[q], ttl);
    }
  }

  lemma StepKeeps(s: State, e: Event, ttl: nat)
    requires Inv(s, ttl)
    ensures Inv(Step(s, e, ttl), ttl)
  {
    hide Inv, Acquire, Renew;
    if !e.Ask? {
      OtherKeeps(s, e, ttl);
    } else if e.p in s.procs && s.procs[e.p].pc == Top {
      if s.procs[e.p].holder {
        RenewKeeps(s, e.p, ttl, e.reply);
      } else {
        AcquireKeeps(s, e.p, ttl, e.reply);
      }
    }
  }

  lemma {:induction false} RunKeeps(s: State, events: seq<Event>, ttl: nat)
    requires Init(s)
    ensures Inv(Run(s, events, ttl), ttl)
  {
    if events != [] {
      RunKeeps(s, events[..|events| - 1], ttl);
      StepKeeps(Run(s, events[..|events| - 1], ttl), events[|events| - 1], ttl);
    }
  }

  /** No two processes run the job at the same time, whatever crashes and store errors occur. */
  lemma OneJobAtATime(s: State, events: seq<Event>, ttl: nat, p: nat, q: nat)
    requires Init(s) && Timely(Run(s, events, ttl), ttl) && p != q
    requires p in Run(s, events, ttl).procs && q in Run(s, events, ttl).procs
    ensures !(Run(s, events, ttl).procs[p].pc == InJob && Run(s, events, ttl).procs[q].pc == InJob)
  {
    RunKeeps(s, events, ttl);
    assert GrantOk(Run(s, events, ttl), Run(s, events, ttl).procs[p], ttl);
    assert GrantOk(Run(s, events, ttl), Run(s, events, ttl).procs[q], ttl);
  }

  /** The assumption is needed: once the lease of a running job has lapsed, a process that asks for
  it gets in beside the job. */
  lemma OverrunIsOvertaken(s: State, ttl: nat, p: nat, q: nat)
    requires p in s.procs && q in s.procs && p != q && s.procs[p].pc == InJob
    requires s.procs[q] == Proc(false, 0, s.procs[q].grantedAt, Top) && Acquirable(s)
    ensures var t := Step(Step(s, Ask(q, Answered), ttl), StartJob(q), ttl);
            p in t.procs && q in t.procs && t.procs[p].pc == InJob && t.procs[q].pc == InJob
  {
    var t := Step(s, Ask(q, Answered), ttl);
    assert t.procs[q].pc == Granted && t.procs[p] == s.procs[p];
  }

  /** A job starts only on a grant: a store call answered with yes, that wrote the lease row. */
  lemma JobNeedsGrant(s: State, e: Event, ttl: nat, p: nat)
    requires Inv(s, ttl) && p in Step(s, e, ttl).procs
    ensures Step(s, e, ttl).procs[p].pc == InJob ==> p in s.procs && s.procs[p].pc in {Granted, InJob}
    ensures Step(s, e, ttl).procs[p].pc == Granted && !(p in s.procs && s.procs[p].pc == Granted) ==>
              && e == Ask(p, Answered) && p in s.procs
              && (if s.procs[p].holder then Renewable(s, s.procs[p].leaseId) else Acquirable(s))
              && Step(s, e, ttl).lease == Some(Lease(Step(s, e, ttl).procs[p].leaseId, s.now + ttl))
  {
    if e.Ask? && e.p in s.procs && e.p != p {
      assert Step(s, e, ttl).procs[p] == s.procs[p];
    }
  }

  lemma RunLast(s: State, events: seq<Event>, n: nat, ttl: nat)
    requires n < |events|
    ensures Run(s, events[..n + 1], ttl) == Step(Run(s, events[..n], ttl), events[n], ttl)
  {
    assert events[..n + 1][..n] == events[..n];
  }

  /** The store answered p's call number k with yes, and the lease row was written for p then. */
  ghost predicate GrantAt(s: State, events: seq<Event>, ttl: nat, k: nat, p: nat, me: Proc)
    requires k < |events|
  {
    var before, after := Run(s, events[..k], ttl), Run(s, events[..k + 1], ttl);
    && events[k] == Ask(p, Answered) && me.grantedAt == before.now
    && after.lease == Some(Lease(me.leaseId, before.now + ttl))
  }

  lemma GrantStep(s: State, e: Event, ttl: nat, p: nat)
    requires Inv(s, ttl) && p in Step(s, e, ttl).procs && Step(s, e, ttl).procs[p].pc in {Granted, InJob}
    ensures var t := Step(s, e, ttl);
            || (p in s.procs && s.procs[p].pc in {Granted, InJob} && t.procs[p].(pc := InJob) == s.procs[p].(pc := InJob))
            || (e == Ask(p, Answered) && t.procs[p].grantedAt == s.now && t.lease == Some(Lease(t.procs[p].leaseId, s.now + ttl)))
  {
    JobNeedsGrant(s, e, ttl, p);
  }

  /** In every run, a process at its job got a grant from the store earlier, for the lease it works under. */
  lemma {:induction false} JobHasGrant(s: State, events: seq<Event>, ttl: nat, n: nat, p: nat)
    requires Init(s) && n <= |events|
    requires p in Run(s, events[..n], ttl).procs && Run(s, events[..n], ttl).procs[p].pc in {Granted, InJob}
    ensures exists k :: 0 <= k < n && GrantAt(s, events, ttl, k, p, Run(s, events[..n], ttl).procs[p].(pc := InJob))
  {
    assert events[..0] == [];
    if n > 0 {
      RunLast(s, events, n - 1, ttl);
      RunKeeps(s, events[..n - 1], ttl);
      hide Step, Run, Inv;
      var before, me := Run(s, events[..n - 1], ttl), Run(s, events[..n], ttl).procs[p].(pc := InJob);
      GrantStep(before, events[n - 1], ttl, p);
      if p in before.procs && before.procs[p].pc in {Granted, InJob} && before.procs[p].(pc := InJob) == me {
        JobHasGrant(s, events, ttl, n - 1, p);
      } else {
        assert GrantAt(s, events, ttl, n - 1, p, me);
      }
    }
  }

  lemma {:induction false} NobodyAsked(s: State, events: seq<Event>, ttl: nat)
    requires s.lease.None? && forall i :: 0 <= i < |events| ==> !events[i].Ask?
    ensures Run(s, events, ttl).lease.None?
  {
    if events != [] {
      NobodyAsked(s, events[..|events| - 1], ttl);
    }
  }

  /** After a shutdown that reached the store, the next process that asks becomes the leader at once, whatever
  else happens in between. */
  lemma ShutdownHandsOver(s: State, ttl: nat, p: nat, events: seq<Event>, q: nat)
    requires Inv(s, ttl) && p in s.procs && s.procs[p].pc == Waiting
    requires s.procs[p].holder && s.lease.Some? && s.lease.value.id == s.procs[p].leaseId
    requires forall i :: 0 <= i < |events| ==> !events[i].Ask?
    requires var t := Run(Step(s, Shutdown(p, Answered), ttl), events, ttl);
             q in t.procs && t.procs[q].pc == Top && !t.procs[q].holder
    ensures var t := Run(Step(s, Shutdown(p, Answered), ttl), events, ttl);
            Step(t, Ask(q, Answered), ttl).procs[q] == Proc(true, t.nextId, t.now, Granted)
  {
    var after := Step(s, Shutdown(p, Answered), ttl);
    assert after.lease.None?;
    NobodyAsked(after, events, ttl);
  }

  // ----- a process that may run the job does

  lemma {:induction false} RunSplit(s: State, a: seq<Event>, b: seq<Event>, ttl: nat)
    ensures Run(s, a + b, ttl) == Run(Run(s, a, ttl), b, ttl)
  {
    if b == [] {
      assert a + b == a;
    } else {
      var n := |b| - 1;
      RunSplit(s, a, b[..n], ttl);
      assert (a + b)[..|a + b| - 1] == a + b[..n];
    }
  }

  lemma RunTwo(s: State, e: Event, f: Event, ttl: nat)
    ensures Run(s, [e, f], ttl) == Step(Step(s, e, ttl), f, ttl)
  {
    assert [e, f][..1] == [e] && [e][..0] == [];
    assert Run(s, [e], ttl) == Step(s, e, ttl);
  }

  lemma AskThenJob(s: State, ttl: nat, p: nat)
    requires p in s.procs && s.procs[p].pc == Top
    requires if s.procs[p].holder then s.lease.Some? && s.lease.value.id == s.procs[p].leaseId && s.now < s.lease.value.expiresAt
             else s.lease.None? || s.lease.value.expiresAt < s.now
    ensures var id := if s.procs[p].holder then s.procs[p].leaseId else s.nextId;
            && Step(Step(s, Ask(p, Answered), ttl), StartJob(p), ttl).procs == s.procs[p := Proc(true, id, s.now, InJob)]
            && Step(Step(s, Ask(p, Answered), ttl), StartJob(p), ttl).lease == Some(Lease(id, s.now + ttl))
  {
    var id := if s.procs[p].holder then s.procs[p].leaseId else s.nextId;
    var t := Step(s, Ask(p, Answered), ttl);
    assert t.procs == s.procs[p := Proc(true, id, s.now, Granted)];
    assert t.procs[p := Proc(true, id, s.now, InJob)] == s.procs[p := Proc(true, id, s.now, InJob)];
  }

  /** In any run, a holder whose lease row is its own and in force renews it for a full TTL and runs the job; so
  does, under a new lease, a process that is no holder when the row is missing or has lapsed. */
  lemma GrantLeadsToJob(s: State, events: seq<Event>, ttl: nat, p: nat)
    requires var t := Run(s, events, ttl);
             && p in t.procs && t.procs[p].pc == Top
             && if t.procs[p].holder
                then t.lease.Some? && t.lease.value.id == t.procs[p].leaseId && t.now < t.lease.value.expiresAt
                else t.lease.None? || t.lease.value.expiresAt < t.now
    ensures var t, u := Run(s, events, ttl), Run(s, events + [Ask(p, Answered), StartJob(p)], ttl);
            var id := if t.procs[p].holder then t.procs[p].leaseId else t.nextId;
            u.procs == t.procs[p := Proc(true, id, t.now, InJob)] && u.lease == Some(Lease(id, t.now + ttl))
  {
    RunSplit(s, events, [Ask(p, Answered), StartJob(p)], ttl);
    var t := Run(s, events, ttl);
    hide Step;
    RunTwo(t, Ask(p, Answered), StartJob(p), ttl);
    AskThenJob(t, ttl, p);
  }

  lemma LostStep(s: State, ttl: nat, p: nat)
    requires p in s.procs && s.procs[p].pc == Top && s.procs[p].holder
    requires s.lease.Some? ==> s.lease.value.id != s.procs[p].leaseId || s.lease.value.expiresAt <= s.now
    ensures Step(Step(s, Ask(p, Answered), ttl), Timer(p), ttl) == Set(s, p, s.procs[p].(holder := false, pc := Top))
  {
    var me := s.procs[p].(holder := false, pc := Waiting);
    assert Step(s, Ask(p, Answered), ttl) == Set(s, p, me);
    assert s.procs[p := me][p := me.(pc := Top)] == s.procs[p := me.(pc := Top)];
  }

  /** In any run, a holder whose lease is gone, another's or lapsed is told so, runs no job, and stands at the
  next interval where it asks for a new lease; nothing else is changed. */
  lemma LostLeaseIsGivenUp(s: State, events: seq<Event>, ttl: nat, p: nat)
    requires var t := Run(s, events, ttl);
             && p in t.procs && t.procs[p].pc == Top && t.procs[p].holder
             && (t.lease.Some? ==> t.lease.value.id != t.procs[p].leaseId || t.lease.value.expiresAt <= t.now)
    ensures var t := Run(s, events, ttl);
            Run(s, events + [Ask(p, Answered), Timer(p)], ttl) == Set(t, p, t.procs[p].(holder := false, pc := Top))
  {
    RunSplit(s, events, [Ask(p, Answered), Timer(p)], ttl);
    var t := Run(s, events, ttl);
    hide Step;
    RunTwo(t, Ask(p, Answered), Timer(p), ttl);
    LostStep(t, ttl, p);
  }

  /** And if its own lease had merely lapsed, it is the leader again one interval later. */
  lemma LapsedLeaderComesBack(s: State, events: seq<Event>, ttl: nat, p: nat)
    requires var t := Run(s, events, ttl);
             && p in t.procs && t.procs[p].pc == Top && t.procs[p].holder
             && (t.lease.Some? ==> t.lease.value.expiresAt < t.now)
    ensures var t, u := Run(s, events, ttl), Run(s, events + [Ask(p, Answered), Timer(p)] + [Ask(p, Answered), StartJob(p)], ttl);
            u.procs == t.procs[p := Proc(true, t.nextId, t.now, InJob)] && u.lease == Some(Lease(t.nextId, t.now + ttl))
  {
    LostLeaseIsGivenUp(s, events, ttl, p);
    var t := Run(s, events, ttl);
    GrantLeadsToJob(s, events + [Ask(p, Answered), Timer(p)], ttl, p);
    var me := t.procs[p].(holder := false, pc := Top);
    assert t.procs[p := me][p := Proc(true, t.nextId, t.now, InJob)] == t.procs[p := Proc(true, t.nextId, t.now, InJob)];
  }

  lemma JobAndBack(s: State, ttl: nat, p: nat)
    requires p in s.procs && s.procs[p].pc == InJob
    ensures Step(Step(s, EndJob(p), ttl), Timer(p), ttl) == Set(s, p, s.procs[p].(pc := Top))
  {
    var me := s.procs[p];
    assert s.procs[p := me.(pc := Waiting)][p := me.(pc := Top)] == s.procs[p := me.(pc := Top)];
  }

  /** A job that ends leaves its process, still the holder, at the top of the loop an interval later. */
  lemma JobIsRepeated(s: State, events: seq<Event>, ttl: nat, p: nat)
    requires p in Run(s, events, ttl).procs && Run(s, events, ttl).procs[p].pc == InJob
    ensures var t := Run(s, events, ttl);
            Run(s, events + [EndJob(p), Timer(p)], ttl) == Set(t, p, t.procs[p].(pc := Top))
  {
    RunSplit(s, events, [EndJob(p), Timer(p)], ttl);
    var t := Run(s, events, ttl);
    hide Step;
    RunTwo(t, EndJob(p), Timer(p), ttl);
    JobAndBack(t, ttl, p);
  }

  lemma SpawnStep(s: State, ttl: nat, p: nat)
    requires p !in s.procs
    ensures Step(s, Spawn(p), ttl) == Set(s, p, Proc(false, 0, s.now, Top))
  {
  }

  /** A new process that finds the row missing or lapsed leads at once. */
  lemma NewcomerLeads(s: State, events: seq<Event>, ttl: nat, p: nat)
    requires var t := Run(s, events, ttl);
             p !in t.procs && (t.lease.Some? ==> t.lease.value.expiresAt < t.now)
    ensures var t, u := Run(s, events, ttl), Run(s, events + [Spawn(p)] + [Ask(p, Answered), StartJob(p)], ttl);
            u.procs == t.procs[p := Proc(true, t.nextId, t.now, InJob)] && u.lease == Some(Lease(t.nextId, t.now + ttl))
  {
    var t := Run(s, events, ttl);
    assert (events + [Spawn(p)])[..|events|] == events;
    SpawnStep(t, ttl, p);
    GrantLeadsToJob(s, events + [Spawn(p)], ttl, p);
    var me := Proc(false, 0, t.now, Top);
    assert t.procs[p := me][p := Proc(true, t.nextId, t.now, InJob)] == t.procs[p := Proc(true, t.nextId, t.now, InJob)];
  }

  /** The event ends the loop of p: a crash, or a shutdown while it waits. */
  predicate Ends(s: State, e: Event, p: nat) {
    p in s.procs && (e == Crash(p) || (e.Shutdown? && e.p == p && s.procs[p].pc == Waiting))
  }

  lemma StopStep(s: State, e: Event, ttl: nat, p: nat)
    ensures var t := Step(s, e, ttl);
            p in t.procs && t.procs[p].pc == Stopped <==> (p in s.procs && s.procs[p].pc == Stopped) || Ends(s, e, p)
  {
  }

  ghost predicate EndedAt(s: State, events: seq<Event>, ttl: nat, k: nat, p: nat)
    requires k < |events|
  {
    Ends(Run(s, events[..k], ttl), events[k], p)
  }

  ghost predicate StoppedAfter(s: State, events: seq<Event>, ttl: nat, n: nat, p: nat)
    requires n <= |events|
  {
    p in Run(s, events[..n], ttl).procs && Run(s, events[..n], ttl).procs[p].pc == Stopped
  }

  lemma StoppedLast(s: State, events: seq<Event>, ttl: nat, n: nat, p: nat)
    requires n < |events|
    ensures StoppedAfter(s, events, ttl, n + 1, p) <==> StoppedAfter(s, events, ttl, n, p) || EndedAt(s, events, ttl, n, p)
  {
    RunLast(s, events, n, ttl);
    hide Step, Ends;
    StopStep(Run(s, events[..n], ttl), events[n], ttl, p);
  }

  lemma NobodyAtFirst(s: State, events: seq<Event>, ttl: nat, p: nat)
    requires Init(s)
    ensures !StoppedAfter(s, events, ttl, 0, p)
  {
    assert events[..0] == [];
  }

  /** A loop is over exactly when an event ended it: no failing store, lost lease or failing job does, and nothing
  starts it again. */
  lemma {:induction false} StoppedIffEnded(s: State, events: seq<Event>, ttl: nat, n: nat, p: nat)
    requires Init(s) && n <= |events|
    ensures StoppedAfter(s, events, ttl, n, p) <==> exists k :: 0 <= k < n && EndedAt(s, events, ttl, k, p)
  {
    hide StoppedAfter, EndedAt;
    if n == 0 {
      NobodyAtFirst(s, events, ttl, p);
    } else {
      StoppedIffEnded(s, events, ttl, n - 1, p);
      StoppedLast(s, events, ttl, n - 1, p);
    }
  }
}
