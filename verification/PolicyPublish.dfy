/** Publishing a guardrail policy: the next version is computed under the lock, stored and audited without
it, and committed under the lock only if the version has not moved. */
module PolicyPublish {

  datatype Policy = Policy(version: int, epoch: int, rules: string)

  datatype Phase = Computed | Stored | Audited

  /** A publish under way. */
  datatype Attempt = Attempt(tenant: string, base: int, policy: Policy, phase: Phase)

  datatype Record = Record(tenant: string, policy: Policy)

  /** `commits` lists what was made active, oldest first. */
  datatype State = State(
    active: map<string, Policy>,
    attempts: map<nat, Attempt>,
    stored: set<Record>,
    audited: set<Record>,
    commits: seq<Record>)

  /** `ok` is the answer of the store or the audit recorder. */
  datatype Event = Begin(publisher: nat, tenant: string, rules: string) | Proceed(publisher: nat, ok: bool)

  const INIT := State(map[], map[], {}, {}, [])

  /** The zero policy stands for none. */
  function Current(s: State, tenant: string): Policy {
    if tenant in s.active then s.active[tenant] else Policy(0, 0, "")
  }

  function Drop(s: State, p: nat): State {
    s.(attempts := s.attempts - {p})
  }

  function Step(s: State, e: Event): State {
    match e
    case Begin(p, tenant, rules) =>
      var c := Current(s, tenant);
      s.(attempts := s.attempts[p := Attempt(tenant, c.version, Policy(c.version + 1, c.epoch + 1, rules), Computed)])
    case Proceed(p, ok) =>
      if p !in s.attempts then s
      else
        var a := s.attempts[p];
        match a.phase
        case Computed =>
          if !ok then Drop(s, p)
          else s.(attempts := s.attempts[p := a.(phase := Stored)], stored := s.stored + {Record(a.tenant, a.policy)})
        case Stored =>
          if !ok then Drop(s, p)
          else s.(attempts := s.attempts[p := a.(phase := Audited)], audited := s.audited + {Record(a.tenant, a.policy)})
        case Audited =>
          if Current(s, a.tenant).version != a.base then Drop(s, p)
          else Drop(s, p).(active := s.active[a.tenant := a.policy], commits := s.commits + [Record(a.tenant, a.policy)])
  }

  function Run(events: seq<Event>): State {
    if events == [] then INIT else Step(Run(events[..|events| - 1]), events[|events| - 1])
  }

  /** How often a tenant's policy was replaced. */
  function Count(commits: seq<Record>, tenant: string): nat {
    if commits == [] then 0
    else Count(commits[..|commits| - 1], tenant) + if commits[|commits| - 1].tenant == tenant then 1 else 0
  }

  lemma CountAppend(commits: seq<Record>, r: Record, tenant: string)
    ensures Count(commits + [r], tenant) == Count(commits, tenant) + if r.tenant == tenant then 1 else 0
  {
    assert (commits + [r])[..|commits|] == commits;
  }

  ghost predicate AttemptOk(s: State, a: Attempt) {
    && a.policy.version == a.base + 1 && a.policy.epoch == a.policy.version
    && (a.phase != Computed ==> Record(a.tenant, a.policy) in s.stored)
    && (a.phase == Audited ==> Record(a.tenant, a.policy) in s.audited)
  }

  ghost predicate Inv(s: State) {
    && (forall t :: Current(s, t).version == Current(s, t).epoch == Count(s.commits, t))
    && (forall p :: p in s.attempts ==> AttemptOk(s, s.attempts[p]))
    && (forall i :: 0 <= i < |s.commits| ==>
          && s.commits[i].policy.version == Count(s.commits[..i], s.commits[i].tenant) + 1
          && s.commits[i] in s.stored && s.commits[i] in s.audited)
  }

  /** The publish is recorded and the version has not moved. */
  predicate Commits(s: State, p: nat) {
    p in s.attempts && s.attempts[p].phase == Audited && Current(s, s.attempts[p].tenant).version == s.attempts[p].base
  }

  lemma CommitKeeps(s: State, p: nat)
    requires Inv(s) && Commits(s, p)
    ensures Inv(Step(s, Proceed(p, true))) && Inv(Step(s, Proceed(p, false)))
  {
    var a := s.attempts[p];
    var r := Record(a.tenant, a.policy);
    assert AttemptOk(s, a);
    var t := Step(s, Proceed(p, true));
    assert Step(s, Proceed(p, false)) == t;
    forall tenant ensures Current(t, tenant).version == Current(t, tenant).epoch == Count(t.commits, tenant) {
      CountAppend(s.commits, r, tenant);
    }
    forall i | 0 <= i < |t.commits| ensures t.commits[i].policy.version == Count(t.commits[..i], t.commits[i].tenant) + 1 {
      assert t.commits[..i] == s.commits[..i];
      assert i == |s.commits| ==> s.commits[..i] == s.commits;
    }
    forall q | q in t.attempts ensures AttemptOk(t, t.attempts[q]) {
      assert AttemptOk(s, s.attempts[q]);
    }
  }

  lemma StepKeeps(s: State, e: Event)
    requires Inv(s)
    ensures Inv(Step(s, e))
  {
    if e.Proceed? && Commits(s, e.publisher) {
      CommitKeeps(s, e.publisher);
    } else {
      hide Count;
      var t := Step(s, e);
      assert t.commits == s.commits && t.active == s.active;
      assert forall tenant :: Current(t, tenant) == Current(s, tenant);
      forall q | q in t.attempts ensures AttemptOk(t, t.attempts[q]) {
        assert q in s.attempts ==> AttemptOk(s, s.attempts[q]);
        assert e.Begin? ==> Current(s, e.tenant).version == Current(s, e.tenant).epoch;
      }
    }
  }

  lemma {:induction false} RunKeeps(events: seq<Event>)
    ensures Inv(Run(events))
  {
    if events != [] {
      RunKeeps(events[..|events| - 1]);
      StepKeeps(Run(events[..|events| - 1]), events[|events| - 1]);
    }
  }

  /** From an empty registry, however publishes overlap: the policies a tenant sees are versions 1, 2, 3, ...
  without gap or repetition, and each was stored and audited before it became active. */
  lemma VersionsAreConsecutive(events: seq<Event>, i: nat)
    requires i < |Run(events).commits|
    ensures var s := Run(events);
            && s.commits[i].policy.version == Count(s.commits[..i], s.commits[i].tenant) + 1
            && s.commits[i] in s.stored && s.commits[i] in s.audited
            && Current(s, s.commits[i].tenant).version == Count(s.commits, s.commits[i].tenant)
  {
    RunKeeps(events);
  }

  // ----- one publish

  lemma RunMore(events: seq<Event>, e: Event)
    ensures Run(events + [e]) == Step(Run(events), e)
  {
    assert (events + [e])[..|events|] == events;
  }

  /** The store and the audit recorder both answered, and nobody published in between: the policy is active. */
  lemma PublishAlone(events: seq<Event>, p: nat, tenant: string, rules: string, ok: bool)
    ensures var s := Run(events);
            var t := Run(events + [Begin(p, tenant, rules)] + [Proceed(p, true)] + [Proceed(p, true)] + [Proceed(p, ok)]);
            var next := Policy(Current(s, tenant).version + 1, Current(s, tenant).epoch + 1, rules);
            && t.active == s.active[tenant := next] && t.attempts == s.attempts - {p}
            && t.stored == s.stored + {Record(tenant, next)} && t.audited == s.audited + {Record(tenant, next)}
            && t.commits == s.commits + [Record(tenant, next)]
  {
    var s := Run(events);
    var a := events + [Begin(p, tenant, rules)];
    RunMore(events, Begin(p, tenant, rules));
    RunMore(a, Proceed(p, true));
    RunMore(a + [Proceed(p, true)], Proceed(p, true));
    RunMore(a + [Proceed(p, true)] + [Proceed(p, true)], Proceed(p, ok));
    hide Run;
    var next := Policy(Current(s, tenant).version + 1, Current(s, tenant).epoch + 1, rules);
    var attempt := Attempt(tenant, Current(s, tenant).version, next, Computed);
    var s1 := Step(s, Begin(p, tenant, rules));
    assert s1 == s.(attempts := s.attempts[p := attempt]);
    var s2 := Step(s1, Proceed(p, true));
    assert s2.attempts[p] == attempt.(phase := Stored);
    var s3 := Step(s2, Proceed(p, true));
    assert s3.attempts[p] == attempt.(phase := Audited) && Current(s3, tenant) == Current(s, tenant);
    assert s3.attempts - {p} == s.attempts - {p};
  }

  /** A publish that the store or the recorder refuses, or that another one overtook, is dropped and leaves no
  trace but what was recorded before. */
  lemma FailedIsDropped(events: seq<Event>, p: nat, ok: bool)
    requires p in Run(events).attempts
    requires if Run(events).attempts[p].phase == Audited
             then Current(Run(events), Run(events).attempts[p].tenant).version != Run(events).attempts[p].base else !ok
    ensures Run(events + [Proceed(p, ok)]) == Run(events).(attempts := Run(events).attempts - {p})
  {
    RunMore(events, Proceed(p, ok));
  }

  /** Nothing is recorded unless it was asked for and answered. */
  lemma {:induction false} RecordsAreAnswered(events: seq<Event>, n: nat, r: Record)
    requires n <= |events|
    ensures r in Run(events[..n]).stored ==> exists i :: 0 <= i < n && AnsweredAt(events, i, r, Computed)
    ensures r in Run(events[..n]).audited ==> exists i :: 0 <= i < n && AnsweredAt(events, i, r, Stored)
  {
    assert events[..0] == [];
    if n > 0 {
      RecordsAreAnswered(events, n - 1, r);
      assert events[..n][..n - 1] == events[..n - 1];
      RecordStep(events, n - 1, r);
      hide AnsweredAt, Run, Step;
    }
  }

  /** Event i was the answer yes to a publish of the record that stood in the phase. */
  ghost predicate AnsweredAt(events: seq<Event>, i: nat, r: Record, phase: Phase)
    requires i < |events|
  {
    var s := Run(events[..i]);
    && events[i].Proceed? && events[i].ok && events[i].publisher in s.attempts
    && var a := s.attempts[events[i].publisher]; a.phase == phase && r == Record(a.tenant, a.policy)
  }

  lemma RecordStep(events: seq<Event>, n: nat, r: Record)
    requires n < |events|
    ensures var s, t := Run(events[..n]), Step(Run(events[..n]), events[n]);
            && (r in t.stored ==> r in s.stored || AnsweredAt(events, n, r, Computed))
            && (r in t.audited ==> r in s.audited || AnsweredAt(events, n, r, Stored))
  {
  }
}
