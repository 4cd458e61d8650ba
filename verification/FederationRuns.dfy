/** What the admin operations do to a relationship, told from the run: which events change it, to what, and
which leave it alone. */
module FederationRuns {
  import opened Federation

  ghost predicate Verified(r: Relationship) {
    exists i :: 0 <= i < |r.anchors| && r.anchors[i].verified
  }

  // ----- what one operation leaves to be loaded

  lemma SaveLoads(v: Vault, tenant: string, r: Relationship, stored: bool, k: string)
    requires TidyVault(v, tenant) && r.tenant == tenant
    ensures Load(Save(Warm(v, tenant, r.id), r, stored).vault, tenant, k) == if k == r.id then Some(r) else Load(v, tenant, k)
  {
    WarmKeeps(v, tenant, r.id);
  }

  lemma WarmLoads(v: Vault, tenant: string, id: string, k: string)
    requires TidyVault(v, tenant)
    ensures Load(Warm(v, tenant, id), tenant, k) == Load(v, tenant, k)
  {
    WarmKeeps(v, tenant, id);
  }

  /** The vault of a state and what it answers, with the state's run out of sight. */
  function Seen(tenant: string, s: State, id: string): Option<Relationship> {
    Load(s.vault, tenant, id)
  }

  lemma FindStep(tenant: string, s: State, r: Relationship, stored: bool, k: string)
    requires Inv(s, tenant)
    ensures Seen(tenant, Step(tenant, s, Find(r, stored)), k) ==
            if k == r.id && Seen(tenant, s, k).None? then Some(r.(tenant := tenant, status := Candidate, version := 1))
            else Seen(tenant, s, k)
  {
    WarmLoads(s.vault, tenant, r.id, k);
    SaveLoads(s.vault, tenant, r.(tenant := tenant, status := Candidate, version := 1), stored, k);
  }

  lemma ChangeStep(tenant: string, s: State, id: string, field: string, stored: bool, k: string)
    requires Inv(s, tenant)
    ensures var now := Seen(tenant, s, k);
            Seen(tenant, Step(tenant, s, Change(id, field, stored)), k) ==
            if k == id && now.Some?
            then Some(now.value.(status := PendingReview, review := "material_change:" + field, version := now.value.version + 1))
            else now
  {
    WarmLoads(s.vault, tenant, id, k);
    if Load(s.vault, tenant, id).Some? {
      LoadTidy(s.vault, tenant, id);
      var r := Load(s.vault, tenant, id).value;
      SaveLoads(s.vault, tenant, r.(status := PendingReview, review := "material_change:" + field, version := r.version + 1), stored, k);
    }
  }

  lemma StopStep(tenant: string, s: State, id: string, stored: bool, k: string)
    requires Inv(s, tenant)
    ensures var now := Seen(tenant, s, k);
            Seen(tenant, Step(tenant, s, Stop(id, stored)), k) ==
            if k == id && now.Some? && now.value.status != Revoked
            then Some(now.value.(status := Suspended, version := now.value.version + 1)) else now
  {
    WarmLoads(s.vault, tenant, id, k);
    if Load(s.vault, tenant, id).Some? {
      LoadTidy(s.vault, tenant, id);
      var r := Load(s.vault, tenant, id).value;
      SaveLoads(s.vault, tenant, r.(status := Suspended, version := r.version + 1), stored, k);
    }
  }

  lemma TurnStep(tenant: string, s: State, admin: nat, stored: bool, k: string)
    requires Inv(s, tenant) && admin in s.copies
    ensures var now := Seen(tenant, s, k);
            Seen(tenant, Step(tenant, s, Turn(admin, stored)), k) ==
            if k == s.copies[admin].id && now.Some? && now.value.status in {Candidate, PendingReview}
            then Some(now.value.(status := PendingReview, review := "rejected", version := now.value.version + 1)) else now
  {
    var copy := s.copies[admin];
    assert CopyOk(s, copy, tenant);
    WarmLoads(s.vault, tenant, copy.id, k);
    if Load(s.vault, tenant, copy.id).Some? {
      LoadTidy(s.vault, tenant, copy.id);
      var r := Load(s.vault, tenant, copy.id).value;
      SaveLoads(s.vault, tenant, r.(status := PendingReview, review := "rejected", version := r.version + 1), stored, k);
    }
  }

  /** The grants of an approval: those it supplies, or else those that were read. */
  function Granted(supplied: seq<string>, read: seq<string>): seq<string> {
    if supplied == [] then read else supplied
  }

  lemma ApproveStep(tenant: string, s: State, admin: nat, projects: seq<string>, capabilities: seq<string>, stored: bool, k: string)
    requires Inv(s, tenant) && admin in s.copies
    ensures var now, read := Seen(tenant, s, k), s.copies[admin];
            var p, c := Granted(projects, read.projects), Granted(capabilities, read.capabilities);
            Seen(tenant, Step(tenant, s, Approve(admin, projects, capabilities, stored)), k) ==
            if k == read.id && now.Some? && now.value.version == read.version && Verified(read) && p != [] && c != []
            then Some(Relationship(k, tenant, Active, read.anchors, p, c, "approved", read.version + 1)) else now
  {
    var read := s.copies[admin];
    assert CopyOk(s, read, tenant);
    var copy := WithGrants(read, projects, capabilities);
    WarmLoads(s.vault, tenant, copy.id, k);
    assert Load(s.vault, tenant, copy.id).Some?;
    SaveLoads(s.vault, tenant, copy.(status := Active, review := "approved", version := Load(s.vault, tenant, copy.id).value.version + 1), stored, k);
    assert HasVerifiedAnchor(copy) <==> Verified(read);
    hide Verified;
  }

  // ----- the same in a run

  lemma Now(tenant: string, store: Relationships, events: seq<Event>, n: nat, id: string)
    requires Tidy(store, tenant) && n < |events|
    ensures Inv(Run(tenant, store, events[..n]), tenant)
    ensures At(tenant, store, events, n, id) == Seen(tenant, Run(tenant, store, events[..n]), id)
    ensures At(tenant, store, events, n + 1, id) == Seen(tenant, Step(tenant, Run(tenant, store, events[..n]), events[n]), id)
  {
    RunKeeps(tenant, store, events[..n]);
    OneStep(tenant, store, events, n, id);
  }

  /** A discovery makes a candidate of version 1 where nothing was, a material change and a rejection send back to
  review, a stop suspends; each goes one version on, changes no grant and no anchor, and leaves every other
  relationship alone. */
  lemma TransitionsAre(tenant: string, store: Relationships, events: seq<Event>, n: nat, id: string)
    requires Tidy(store, tenant) && n < |events|
    ensures var e, now, next := events[n], At(tenant, store, events, n, id), At(tenant, store, events, n + 1, id);
            && (e.Read? ==> next == now)
            && (e.Find? ==> next == if id == e.r.id && now.None?
                                    then Some(e.r.(tenant := tenant, status := Candidate, version := 1)) else now)
            && (e.Change? ==> next == if id == e.id && now.Some?
                                      then Some(now.value.(status := PendingReview, review := "material_change:" + e.field, version := now.value.version + 1))
                                      else now)
            && (e.Stop? ==> next == if id == e.id && now.Some? && now.value.status != Revoked
                                    then Some(now.value.(status := Suspended, version := now.value.version + 1)) else now)
  {
    Now(tenant, store, events, n, id);
    var s := Run(tenant, store, events[..n]);
    if events[n].Read? {
      WarmLoads(s.vault, tenant, events[n].id, id);
    }
    hide Seen;
    match events[n]
    case Find(r, stored) => FindStep(tenant, s, r, stored, id);
    case Change(i, field, stored) => ChangeStep(tenant, s, i, field, stored, id);
    case Stop(i, stored) => StopStep(tenant, s, i, stored, id);
    case _ =>
  }

  /** An admin who read the relationship and has not read since. */
  ghost predicate LastRead(events: seq<Event>, a: nat, b: nat, admin: nat, id: string)
    requires b <= |events|
  {
    a < b && events[a] == Read(admin, id) && forall k :: a < k < b ==> !(events[k].Read? && events[k].admin == admin)
  }

  /** A rejection takes effect exactly on a candidate or a relationship under review. */
  lemma RejectionIff(tenant: string, store: Relationships, events: seq<Event>, a: nat, b: nat, admin: nat, id: string, stored: bool)
    requires Tidy(store, tenant) && b < |events| && LastRead(events, a, b, admin, id) && At(tenant, store, events, a, id).Some?
    requires events[b] == Turn(admin, stored)
    ensures var now := At(tenant, store, events, b, id);
            && now.Some?
            && At(tenant, store, events, b + 1, id) ==
               if now.value.status in {Candidate, PendingReview}
               then Some(now.value.(status := PendingReview, review := "rejected", version := now.value.version + 1)) else now
  {
    Now(tenant, store, events, b, id);
    CopyStays(tenant, store, events, a, b, admin, id);
    VersionsIncrease(tenant, store, events, a, b, id);
    ReadIsTidy(tenant, store, events, a, id);
    hide Seen;
    TurnStep(tenant, Run(tenant, store, events[..b]), admin, stored, id);
  }

  lemma ReadIsTidy(tenant: string, store: Relationships, events: seq<Event>, a: nat, id: string)
    requires Tidy(store, tenant) && a <= |events| && At(tenant, store, events, a, id).Some?
    ensures var r := At(tenant, store, events, a, id).value; r.id == id && r.tenant == tenant
  {
    RunKeeps(tenant, store, events[..a]);
    LoadTidy(Run(tenant, store, events[..a]).vault, tenant, id);
  }

  /** An approval takes effect exactly when the relationship is still what the admin read, an anchor of it is
  verified, and there are grants of both kinds, supplied or read; it then makes active what was read, with those
  grants, one version on. Otherwise it changes nothing. */
  lemma ApprovalIff(tenant: string, store: Relationships, events: seq<Event>, a: nat, b: nat, admin: nat, id: string)
    requires Tidy(store, tenant) && b < |events| && LastRead(events, a, b, admin, id) && At(tenant, store, events, a, id).Some?
    requires events[b].Approve? && events[b].admin == admin
    ensures var read, now := At(tenant, store, events, a, id).value, At(tenant, store, events, b, id);
            var p, c := Granted(events[b].projects, read.projects), Granted(events[b].capabilities, read.capabilities);
            At(tenant, store, events, b + 1, id) ==
            if now == Some(read) && Verified(read) && p != [] && c != []
            then Some(Relationship(id, tenant, Active, read.anchors, p, c, "approved", read.version + 1)) else now
  {
    Now(tenant, store, events, b, id);
    CopyStays(tenant, store, events, a, b, admin, id);
    VersionsIncrease(tenant, store, events, a, b, id);
    ReadIsTidy(tenant, store, events, a, id);
    hide Seen, Verified;
    ApproveStep(tenant, Run(tenant, store, events[..b]), admin, events[b].projects, events[b].capabilities, events[b].stored, id);
  }

  // ----- versions and activity over a run

  lemma StepIs(tenant: string, s: State, e: Event, id: string)
    requires Inv(s, tenant)
    ensures var now, next := Seen(tenant, s, id), Seen(tenant, Step(tenant, s, e), id);
            || next == now
            || (now.None? && next.Some? && e.Find? && next.value.version == 1 && next.value.status == Candidate)
            || (now.Some? && next.Some? && next.value.version == now.value.version + 1 &&
                (next.value.status == Active ==> e.Approve? && e.admin in s.copies))
  {
    if e.Read? {
      WarmLoads(s.vault, tenant, e.id, id);
    }
    match e
    case Find(r, stored) => FindStep(tenant, s, r, stored, id);
    case Change(i, field, stored) => ChangeStep(tenant, s, i, field, stored, id);
    case Stop(i, stored) => StopStep(tenant, s, i, stored, id);
    case Turn(admin, stored) => if admin in s.copies { TurnStep(tenant, s, admin, stored, id); }
    case Approve(admin, p, c, stored) => if admin in s.copies { ApproveStep(tenant, s, admin, p, c, stored, id); }
    case Read(_, _) =>
  }

  /** How often the relationship changed between two points of a run. */
  function Changes(tenant: string, store: Relationships, events: seq<Event>, n: nat, m: nat, id: string): nat
    requires n <= m <= |events|
  {
    if n == m then 0
    else Changes(tenant, store, events, n, m - 1, id) +
         if At(tenant, store, events, m - 1, id) == At(tenant, store, events, m, id) then 0 else 1
  }

  /** The version counts the changes: it goes up by one at each, and starts at one. */
  lemma {:induction false} VersionCountsChanges(tenant: string, store: Relationships, events: seq<Event>, n: nat, m: nat, id: string)
    requires Tidy(store, tenant) && n <= m <= |events|
    ensures var before, after := At(tenant, store, events, n, id), At(tenant, store, events, m, id);
            var changes := Changes(tenant, store, events, n, m, id);
            && (before.Some? ==> after.Some? && after.value.version == before.value.version + changes)
            && (before.None? && after.Some? ==> after.value.version == changes)
            && (after.None? ==> changes == 0)
  {
    if n < m {
      VersionCountsChanges(tenant, store, events, n, m - 1, id);
      Now(tenant, store, events, m - 1, id);
      hide Seen;
      StepIs(tenant, Run(tenant, store, events[..m - 1]), events[m - 1], id);
    }
  }

  /** What is active was so in the store at the start, or an approval made it so. */
  lemma {:induction false} ActiveWasApproved(tenant: string, store: Relationships, events: seq<Event>, m: nat, id: string)
    requires Tidy(store, tenant) && m <= |events|
    requires At(tenant, store, events, m, id).Some? && At(tenant, store, events, m, id).value.status == Active
    ensures || At(tenant, store, events, m, id) == Visible(store, tenant, id)
            || exists b :: 0 <= b < m && events[b].Approve? && At(tenant, store, events, b + 1, id) == At(tenant, store, events, m, id)
  {
    assert events[..0] == [];
    if m > 0 {
      Now(tenant, store, events, m - 1, id);
      StepIs(tenant, Run(tenant, store, events[..m - 1]), events[m - 1], id);
      hide Seen;
      if At(tenant, store, events, m - 1, id) == At(tenant, store, events, m, id) {
        ActiveWasApproved(tenant, store, events, m - 1, id);
      } else {
        assert events[m - 1].Approve? && At(tenant, store, events, (m - 1) + 1, id) == At(tenant, store, events, m, id);
      }
    }
  }

  // ----- the store behind the hot map

  predicate StoreAnswers(e: Event) {
    !e.Read? ==> e.stored
  }

  /** What is hot is stored. */
  ghost predicate Follows(v: Vault) {
    forall id :: id in v.states ==> id in v.store && v.store[id] == v.states[id]
  }

  lemma SaveFollows(v: Vault, tenant: string, id: string, r: Relationship)
    requires TidyVault(v, tenant) && Follows(v)
    ensures Follows(Warm(v, tenant, id)) && Follows(Save(Warm(v, tenant, id), r, true).vault)
  {
  }

  lemma FollowsStep(tenant: string, s: State, e: Event)
    requires Inv(s, tenant) && Follows(s.vault) && StoreAnswers(e)
    ensures Follows(Step(tenant, s, e).vault)
  {
    forall id, r ensures Follows(Warm(s.vault, tenant, id)) && Follows(Save(Warm(s.vault, tenant, id), r, true).vault) {
      SaveFollows(s.vault, tenant, id, r);
    }
    if (e.Turn? || e.Approve?) && e.admin in s.copies {
      assert CopyOk(s, s.copies[e.admin], tenant);
    }
    hide Follows;
  }

  /** While the store answers, what the lifecycle holds is what the store holds, so a restart loses nothing. */
  lemma StoreFollows(tenant: string, store: Relationships, events: seq<Event>)
    requires Tidy(store, tenant) && forall i :: 0 <= i < |events| ==> StoreAnswers(events[i])
    ensures var v := Run(tenant, store, events).vault;
            forall id :: Load(Vault(map[], v.store), tenant, id) == Load(v, tenant, id)
  {
    FollowsRun(tenant, store, events);
    RunKeeps(tenant, store, events);
  }

  lemma {:induction false} FollowsRun(tenant: string, store: Relationships, events: seq<Event>)
    requires Tidy(store, tenant) && forall i :: 0 <= i < |events| ==> StoreAnswers(events[i])
    ensures Follows(Run(tenant, store, events).vault)
  {
    if events != [] {
      var n := |events| - 1;
      FollowsRun(tenant, store, events[..n]);
      RunKeeps(tenant, store, events[..n]);
      hide Follows, StoreAnswers;
      FollowsStep(tenant, Run(tenant, store, events[..n]), events[n]);
    }
  }

  // ----- a refusal is true

  lemma RefusalsAreTrue(v: Vault, copy: Relationship, stored: bool)
    ensures var current := Load(v, copy.tenant, copy.id);
            && (Activate(v, copy, stored).outcome == Refused(Unverified) <==> !Verified(copy))
            && (Activate(v, copy, stored).outcome == Refused(NotGranted) <==> Verified(copy) && (copy.projects == [] || copy.capabilities == []))
            && (Activate(v, copy, stored).outcome == Refused(StaleState) ==> current.Some? && copy.version != current.value.version)
            && (Activate(v, copy, stored).outcome == Refused(StoreFailed) ==> !stored)
            && (Reject(v, copy, stored).outcome == Refused(NotFound) <==> current.None?)
            && (Reject(v, copy, stored).outcome == Refused(StaleState) <==> current.Some? && current.value.status in {Active, Suspended, Revoked})
            && (Discover(v, copy, stored).outcome == Refused(AlreadyActive) <==> current.Some?)
            && (Suspend(v, copy.tenant, copy.id, stored).outcome == Refused(NotFound) <==> current.None?)
            && (Suspend(v, copy.tenant, copy.id, stored).outcome == Refused(StaleState) <==> current.Some? && current.value.status == Revoked)
            && (forall field :: ChangeMaterially(v, copy.tenant, copy.id, field, stored).outcome == Refused(NotFound) <==> current.None?)
  {
    assert Verified(copy) <==> HasVerifiedAnchor(copy);
    hide Verified;
  }
}
