/** The lifecycle of federation relationships, and the admin operations that drive it. Every operation of
the lifecycle runs under its mutex and is one step here; an admin's Review reads a copy in one step and
activates it in a later one. The clock and the Agent Card are parameters. */
module Federation {

  datatype Option<+T> = None | Some(value: T)

  datatype Status = Candidate | PendingReview | Active | Suspended | Revoked

  datatype Anchor = Anchor(id: string, verified: bool)

  datatype Relationship = Relationship(
    id: string,
    tenant: string,
    status: Status,
    anchors: seq<Anchor>,
    projects: seq<string>,
    capabilities: seq<string>,
    review: string,
    version: int)

  predicate HasVerifiedAnchor(r: Relationship) {
    exists i | 0 <= i < |r.anchors| :: r.anchors[i].verified
  }

  method FindVerifiedAnchor(r: Relationship) returns (found: bool)
    ensures found == HasVerifiedAnchor(r)
  {
    for i := 0 to |r.anchors|
      invariant forall j :: 0 <= j < i ==> !r.anchors[j].verified
    {
      if r.anchors[i].verified {
        return true;
      }
    }
    return false;
  }

  /** An active relationship has a verified anchor, a project grant and a capability grant. */
  predicate Sound(r: Relationship) {
    r.status == Active ==> HasVerifiedAnchor(r) && r.projects != [] && r.capabilities != []
  }

  type Relationships = map<string, Relationship>

  /** The hot map and the backing store. */
  datatype Vault = Vault(states: Relationships, store: Relationships)

  datatype Failure = AlreadyActive | NotFound | StaleState | Unverified | NotGranted | StoreFailed

  datatype Outcome = Saved(relationship: Relationship) | Refused(failure: Failure)

  /** What one operation leaves and answers. */
  datatype Result = Result(vault: Vault, outcome: Outcome)

  // ----- the lifecycle, on values

  function Visible(rs: Relationships, tenant: string, id: string): Option<Relationship> {
    if id in rs && rs[id].tenant == tenant then Some(rs[id]) else None
  }

  /** The hot map, then the store. */
  function Load(v: Vault, tenant: string, id: string): Option<Relationship> {
    if id in v.states then Visible(v.states, tenant, id) else Visible(v.store, tenant, id)
  }

  /** A load keeps what it found in the hot map. */
  function Warm(v: Vault, tenant: string, id: string): Vault {
    match Load(v, tenant, id)
    case None => v
    case Some(r) => v.(states := v.states[id := r])
  }

  /** `stored` says whether the store's Put succeeds; the hot map is written first either way. */
  function Save(v: Vault, r: Relationship, stored: bool): Result {
    Result(Vault(v.states[r.id := r], if stored then v.store[r.id := r] else v.store),
           if stored then Saved(r) else Refused(StoreFailed))
  }

  function Discover(v: Vault, r: Relationship, stored: bool): Result {
    var w := Warm(v, r.tenant, r.id);
    if Load(v, r.tenant, r.id).Some? then Result(w, Refused(AlreadyActive))
    else Save(w, r.(status := Candidate, version := 1), stored)
  }

  /** Review with approved = false. */
  function Reject(v: Vault, copy: Relationship, stored: bool): Result {
    var w := Warm(v, copy.tenant, copy.id);
    match Load(v, copy.tenant, copy.id)
    case None => Result(w, Refused(NotFound))
    case Some(r) =>
      if r.status != Candidate && r.status != PendingReview then Result(w, Refused(StaleState))
      else Save(w, r.(status := PendingReview, review := "rejected", version := r.version + 1), stored)
  }

  function Activate(v: Vault, copy: Relationship, stored: bool): Result {
    if !HasVerifiedAnchor(copy) then Result(v, Refused(Unverified))
    else if copy.projects == [] || copy.capabilities == [] then Result(v, Refused(NotGranted))
    else
      var w := Warm(v, copy.tenant, copy.id);
      var current := Load(v, copy.tenant, copy.id);
      if current.Some? && copy.version != current.value.version then Result(w, Refused(StaleState))
      else
        var version := if current.Some? then current.value.version + 1 else 1;
        Save(w, copy.(status := Active, review := "approved", version := version), stored)
  }

  function Suspend(v: Vault, tenant: string, id: string, stored: bool): Result {
    var w := Warm(v, tenant, id);
    match Load(v, tenant, id)
    case None => Result(w, Refused(NotFound))
    case Some(r) =>
      if r.status == Revoked then Result(w, Refused(StaleState))
      else Save(w, r.(status := Suspended, version := r.version + 1), stored)
  }

  /** ReviewMaterialChange with at least one changed field. */
  function ChangeMaterially(v: Vault, tenant: string, id: string, field: string, stored: bool): Result {
    var w := Warm(v, tenant, id);
    match Load(v, tenant, id)
    case None => Result(w, Refused(NotFound))
    case Some(r) => Save(w, r.(status := PendingReview, review := "material_change:" + field, version := r.version + 1), stored)
  }

  // ----- the object

  class Lifecycle {
    var states: Relationships
    var store: Relationships

    ghost function Value(): Vault reads this {
      Vault(states, store)
    }

    constructor (store: Relationships)
      ensures Value() == Vault(map[], store)
    {
      states := map[];
      this.store := store;
    }

    method LoadLocked(tenant: string, id: string) returns (r: Option<Relationship>)
      modifies this`states
      ensures r == Load(old(Value()), tenant, id) && Value() == Warm(old(Value()), tenant, id)
    {
      if id in states {
        if states[id].tenant != tenant {
          return None;
        }
        assert states == states[id := states[id]];
        return Some(states[id]);
      }
      if id in store && store[id].tenant == tenant {
        states := states[id := store[id]];
        return Some(store[id]);
      }
      return None;
    }

    method SaveLocked(r: Relationship, stored: bool) returns (o: Outcome)
      modifies this
      ensures Result(Value(), o) == Save(old(Value()), r, stored)
    {
      states := states[r.id := r];
      if !stored {
        return Refused(StoreFailed);
      }
      store := store[r.id := r];
      return Saved(r);
    }

    method DiscoverRelationship(relationship: Relationship, stored: bool) returns (o: Outcome)
      modifies this
      ensures Result(Value(), o) == Discover(old(Value()), relationship, stored)
    {
      var r := relationship.(status := Candidate, version := 1);
      var existing := LoadLocked(r.tenant, r.id);
      if existing.Some? {
        return Refused(AlreadyActive);
      }
      o := SaveLocked(r, stored);
    }

    method RejectRelationship(copy: Relationship, stored: bool) returns (o: Outcome)
      modifies this
      ensures Result(Value(), o) == Reject(old(Value()), copy, stored)
    {
      var current := LoadLocked(copy.tenant, copy.id);
      if current.None? {
        return Refused(NotFound);
      }
      var r := current.value;
      if r.status != Candidate && r.status != PendingReview {
        return Refused(StaleState);
      }
      o := SaveLocked(r.(status := PendingReview, review := "rejected", version := r.version + 1), stored);
    }

    method ActivateRelationship(copy: Relationship, stored: bool) returns (o: Outcome)
      modifies this
      ensures Result(Value(), o) == Activate(old(Value()), copy, stored)
    {
      var verified := FindVerifiedAnchor(copy);
      if !verified {
        return Refused(Unverified);
      }
      if |copy.projects| == 0 || |copy.capabilities| == 0 {
        return Refused(NotGranted);
      }
      var current := LoadLocked(copy.tenant, copy.id);
      if current.Some? && copy.version != current.value.version {
        return Refused(StaleState);
      }
      var r := copy.(status := Active, review := "approved");
      if current.Some? {
        r := r.(version := current.value.version + 1);
      } else {
        r := r.(version := 1);
      }
      o := SaveLocked(r, stored);
    }

    method SuspendRelationship(tenant: string, id: string, stored: bool) returns (o: Outcome)
      modifies this
      ensures Result(Value(), o) == Suspend(old(Value()), tenant, id, stored)
    {
      var current := LoadLocked(tenant, id);
      if current.None? {
        return Refused(NotFound);
      }
      var r := current.value;
      if r.status == Revoked {
        return Refused(StaleState);
      }
      o := SaveLocked(r.(status := Suspended, version := r.version + 1), stored);
    }

    method ReviewMaterialChange(tenant: string, id: string, fields: seq<string>, stored: bool) returns (o: Outcome)
      modifies this
      ensures fields != [] ==> Result(Value(), o) == ChangeMaterially(old(Value()), tenant, id, fields[0], stored)
      ensures fields == [] ==> Value() == Warm(old(Value()), tenant, id)
      ensures fields == [] ==> o == match Load(old(Value()), tenant, id) case None => Refused(NotFound) case Some(r) => Saved(r)
    {
      var current := LoadLocked(tenant, id);
      if current.None? {
        return Refused(NotFound);
      }
      var r := current.value;
      if fields == [] {
        return Saved(r);
      }
      o := SaveLocked(r.(status := PendingReview, review := "material_change:" + fields[0], version := r.version + 1), stored);
    }
  }

  // ----- runs of the admin operations of one tenant

  /** `copies` holds the relationship each admin read last. */
  datatype State = State(vault: Vault, copies: map<nat, Relationship>)

  datatype Event =
    | Read(admin: nat, id: string)
    | Find(r: Relationship, stored: bool)
    | Change(id: string, field: string, stored: bool)
    | Turn(admin: nat, stored: bool)
    | Approve(admin: nat, projects: seq<string>, capabilities: seq<string>, stored: bool)
    | Stop(id: string, stored: bool)

  /** The copy an approval activates: supplied grants replace those that were read. */
  function WithGrants(copy: Relationship, projects: seq<string>, capabilities: seq<string>): Relationship {
    copy.(projects := if projects != [] then projects else copy.projects,
          capabilities := if capabilities != [] then capabilities else copy.capabilities)
  }

  function Step(tenant: string, s: State, e: Event): State {
    match e
    case Read(admin, id) =>
      var r := Load(s.vault, tenant, id);
      State(Warm(s.vault, tenant, id), if r.Some? then s.copies[admin := r.value] else s.copies - {admin})
    case Find(r, stored) => s.(vault := Discover(s.vault, r.(tenant := tenant), stored).vault)
    case Change(id, field, stored) => s.(vault := ChangeMaterially(s.vault, tenant, id, field, stored).vault)
    case Turn(admin, stored) => if admin in s.copies then s.(vault := Reject(s.vault, s.copies[admin], stored).vault) else s
    case Approve(admin, projects, capabilities, stored) =>
      if admin in s.copies
      then s.(vault := Activate(s.vault, WithGrants(s.copies[admin], projects, capabilities), stored).vault) else s
    case Stop(id, stored) => s.(vault := Suspend(s.vault, tenant, id, stored).vault)
  }

  function Run(tenant: string, store: Relationships, events: seq<Event>): State {
    if events == [] then State(Vault(map[], store), map[])
    else Step(tenant, Run(tenant, store, events[..|events| - 1]), events[|events| - 1])
  }

  // ----- the invariant

  /** Relationships of one tenant, each under its own id. */
  ghost predicate Tidy(rs: Relationships, tenant: string) {
    forall id :: id in rs ==> rs[id].id == id && rs[id].tenant == tenant && Sound(rs[id])
  }

  /** A copy is of a relationship that is still there, at the same version or a later one. */
  predicate CopyOk(s: State, copy: Relationship, tenant: string) {
    copy.tenant == tenant && copy.id in s.vault.states && copy.version <= s.vault.states[copy.id].version
  }

  ghost predicate Inv(s: State, tenant: string) {
    && Tidy(s.vault.states, tenant) && Tidy(s.vault.store, tenant)
    && (forall a :: a in s.copies ==> CopyOk(s, s.copies[a], tenant))
  }

  /** The current relationship stayed, or a newer version replaced it. */
  predicate Newer(before: Option<Relationship>, after: Option<Relationship>) {
    before.Some? ==> after.Some? && (after == before || after.value.version > before.value.version)
  }

  lemma SaveKeeps(v: Vault, r: Relationship, stored: bool, tenant: string)
    requires Tidy(v.states, tenant) && Tidy(v.store, tenant) && r.tenant == tenant && Sound(r)
    ensures var w := Save(v, r, stored).vault;
            Tidy(w.states, tenant) && Tidy(w.store, tenant) && w.states == v.states[r.id := r]
  {
  }

  lemma WarmKeeps(v: Vault, tenant: string, id: string)
    requires Tidy(v.states, tenant) && Tidy(v.store, tenant)
    ensures var w := Warm(v, tenant, id);
            && Tidy(w.states, tenant) && w.store == v.store
            && (forall k :: Load(w, tenant, k) == Load(v, tenant, k))
            && (forall k :: k in v.states ==> k in w.states && w.states[k] == v.states[k])
            && (Load(v, tenant, id).Some? ==> id in w.states && w.states[id] == Load(v, tenant, id).value)
  {
  }

  /** Nothing visible is lost and every change is a newer version. */
  ghost predicate Grows(v: Vault, w: Vault, tenant: string) {
    && (forall id :: Newer(Load(v, tenant, id), Load(w, tenant, id)))
    && (forall id :: id in v.states ==> id in w.states)
  }

  ghost predicate TidyVault(v: Vault, tenant: string) {
    Tidy(v.states, tenant) && Tidy(v.store, tenant)
  }

  lemma SavesNewer(v: Vault, r: Relationship, stored: bool, tenant: string)
    requires TidyVault(v, tenant) && r.tenant == tenant && Sound(r)
    requires Load(v, tenant, r.id).Some? ==> r.version > Load(v, tenant, r.id).value.version
    ensures var w := Save(Warm(v, tenant, r.id), r, stored).vault; TidyVault(w, tenant) && Grows(v, w, tenant)
  {
    WarmKeeps(v, tenant, r.id);
    var warm := Warm(v, tenant, r.id);
    SaveKeeps(warm, r, stored, tenant);
    var w := Save(warm, r, stored).vault;
    hide Tidy, Sound;
    forall id ensures Newer(Load(v, tenant, id), Load(w, tenant, id)) {
      assert id != r.id ==> Load(w, tenant, id) == Load(warm, tenant, id);
    }
  }

  lemma WarmGrows(v: Vault, tenant: string, id: string)
    requires TidyVault(v, tenant)
    ensures TidyVault(Warm(v, tenant, id), tenant) && Grows(v, Warm(v, tenant, id), tenant)
  {
    WarmKeeps(v, tenant, id);
    hide Tidy;
  }

  lemma DiscoverGrows(v: Vault, r: Relationship, stored: bool)
    requires TidyVault(v, r.tenant)
    ensures TidyVault(Discover(v, r, stored).vault, r.tenant) && Grows(v, Discover(v, r, stored).vault, r.tenant)
  {
    WarmGrows(v, r.tenant, r.id);
    if Load(v, r.tenant, r.id).None? {
      SavesNewer(v, r.(status := Candidate, version := 1), stored, r.tenant);
    }
    hide TidyVault, Grows, Warm, Save;
  }

  /** What is loaded is sound and stands under its id. */
  lemma LoadTidy(v: Vault, tenant: string, id: string)
    requires TidyVault(v, tenant) && Load(v, tenant, id).Some?
    ensures var r := Load(v, tenant, id).value; r.id == id && r.tenant == tenant && Sound(r)
  {
  }

  /** Saving the loaded relationship back, not active and one version on. */
  lemma RevisedGrows(v: Vault, tenant: string, id: string, next: Relationship, stored: bool)
    requires TidyVault(v, tenant) && Load(v, tenant, id).Some?
    requires next.id == id && next.tenant == tenant && next.status != Active && next.version == Load(v, tenant, id).value.version + 1
    ensures var w := Save(Warm(v, tenant, id), next, stored).vault; TidyVault(w, tenant) && Grows(v, w, tenant)
  {
    SavesNewer(v, next, stored, tenant);
  }

  lemma ChangeGrows(v: Vault, tenant: string, id: string, field: string, stored: bool)
    requires TidyVault(v, tenant)
    ensures var w := ChangeMaterially(v, tenant, id, field, stored).vault; TidyVault(w, tenant) && Grows(v, w, tenant)
  {
    WarmGrows(v, tenant, id);
    if Load(v, tenant, id).Some? {
      LoadTidy(v, tenant, id);
      hide TidyVault, Grows, Warm, Save, Sound, Load;
      var r := Load(v, tenant, id).value;
      var next := r.(status := PendingReview, review := "material_change:" + field, version := r.version + 1);
      RevisedGrows(v, tenant, id, next, stored);
    }
  }

  lemma SuspendGrows(v: Vault, tenant: string, id: string, stored: bool)
    requires TidyVault(v, tenant)
    ensures var w := Suspend(v, tenant, id, stored).vault; TidyVault(w, tenant) && Grows(v, w, tenant)
  {
    WarmGrows(v, tenant, id);
    if Load(v, tenant, id).Some? {
      LoadTidy(v, tenant, id);
      hide TidyVault, Grows, Warm, Save, Sound, Load;
      var r := Load(v, tenant, id).value;
      RevisedGrows(v, tenant, id, r.(status := Suspended, version := r.version + 1), stored);
    }
  }

  lemma RejectGrows(v: Vault, copy: Relationship, stored: bool)
    requires TidyVault(v, copy.tenant)
    ensures var w := Reject(v, copy, stored).vault; TidyVault(w, copy.tenant) && Grows(v, w, copy.tenant)
  {
    WarmGrows(v, copy.tenant, copy.id);
    if Load(v, copy.tenant, copy.id).Some? {
      LoadTidy(v, copy.tenant, copy.id);
      hide TidyVault, Grows, Warm, Save, Sound, Load;
      var r := Load(v, copy.tenant, copy.id).value;
      RevisedGrows(v, copy.tenant, copy.id, r.(status := PendingReview, review := "rejected", version := r.version + 1), stored);
    }
  }

  lemma ActivateGrows(v: Vault, copy: Relationship, stored: bool)
    requires TidyVault(v, copy.tenant)
    ensures var w := Activate(v, copy, stored).vault; TidyVault(w, copy.tenant) && Grows(v, w, copy.tenant)
  {
    WarmGrows(v, copy.tenant, copy.id);
    var current := Load(v, copy.tenant, copy.id);
    var version := if current.Some? then current.value.version + 1 else 1;
    var r := copy.(status := Active, review := "approved", version := version);
    assert HasVerifiedAnchor(copy) ==> HasVerifiedAnchor(r);
    assert Grows(v, v, copy.tenant);
    if HasVerifiedAnchor(copy) && copy.projects != [] && copy.capabilities != [] {
      SavesNewer(v, r, stored, copy.tenant);
    }
    hide TidyVault, Grows, Warm, Save, HasVerifiedAnchor, Load;
  }

  lemma VaultStep(tenant: string, s: State, e: Event)
    requires Inv(s, tenant)
    ensures TidyVault(Step(tenant, s, e).vault, tenant) && Grows(s.vault, Step(tenant, s, e).vault, tenant)
  {
    assert TidyVault(s.vault, tenant) && Grows(s.vault, s.vault, tenant);
    hide TidyVault, Grows, Discover, ChangeMaterially, Reject, Activate, Suspend, Warm;
    match e
    case Read(_, id) => WarmGrows(s.vault, tenant, id);
    case Find(r, stored) => DiscoverGrows(s.vault, r.(tenant := tenant), stored);
    case Change(id, field, stored) => ChangeGrows(s.vault, tenant, id, field, stored);
    case Turn(admin, stored) => if admin in s.copies { RejectGrows(s.vault, s.copies[admin], stored); }
    case Approve(admin, projects, capabilities, stored) =>
      if admin in s.copies { ActivateGrows(s.vault, WithGrants(s.copies[admin], projects, capabilities), stored); }
    case Stop(id, stored) => SuspendGrows(s.vault, tenant, id, stored);
  }

  lemma StepKeeps(tenant: string, s: State, e: Event)
    requires Inv(s, tenant)
    ensures Inv(Step(tenant, s, e), tenant)
  {
    var t := Step(tenant, s, e);
    VaultStep(tenant, s, e);
    forall a | a in t.copies ensures CopyOk(t, t.copies[a], tenant) {
      CopyStep(tenant, s, e, a);
    }
  }

  lemma CopyStep(tenant: string, s: State, e: Event, a: nat)
    requires Inv(s, tenant) && a in Step(tenant, s, e).copies
    requires TidyVault(Step(tenant, s, e).vault, tenant) && Grows(s.vault, Step(tenant, s, e).vault, tenant)
    ensures CopyOk(Step(tenant, s, e), Step(tenant, s, e).copies[a], tenant)
  {
    var t := Step(tenant, s, e);
    if e.Read? && e.admin == a {
      LoadTidy(s.vault, tenant, e.id);
      WarmKeeps(s.vault, tenant, e.id);
    } else {
      assert t.copies[a] == s.copies[a];
      var id := s.copies[a].id;
      assert Load(s.vault, tenant, id) == Some(s.vault.states[id]);
      assert Newer(Load(s.vault, tenant, id), Load(t.vault, tenant, id));
      assert Load(t.vault, tenant, id) == Some(t.vault.states[id]);
    }
  }

  lemma {:induction false} RunKeeps(tenant: string, store: Relationships, events: seq<Event>)
    requires Tidy(store, tenant)
    ensures Inv(Run(tenant, store, events), tenant)
  {
    if events != [] {
      var n := |events| - 1;
      RunKeeps(tenant, store, events[..n]);
      hide Inv, Tidy, Step;
      StepKeeps(tenant, Run(tenant, store, events[..n]), events[n]);
    }
  }

  // ----- what every run keeps

  /** In every run within a tenant, an active relationship has a verified anchor, a project grant and a
  capability grant. */
  lemma ActiveIsTrusted(tenant: string, store: Relationships, events: seq<Event>, id: string)
    requires Tidy(store, tenant)
    ensures var r := Load(Run(tenant, store, events).vault, tenant, id);
            r.Some? && r.value.status == Active ==>
              HasVerifiedAnchor(r.value) && r.value.projects != [] && r.value.capabilities != []
  {
    RunKeeps(tenant, store, events);
    hide Run;
    var v := Run(tenant, store, events).vault;
    if Load(v, tenant, id).Some? {
      LoadTidy(v, tenant, id);
    }
  }

  function At(tenant: string, store: Relationships, events: seq<Event>, n: nat, id: string): Option<Relationship>
    requires n <= |events|
  {
    Load(Run(tenant, store, events[..n]).vault, tenant, id)
  }

  lemma OneStep(tenant: string, store: Relationships, events: seq<Event>, n: nat, id: string)
    requires Tidy(store, tenant) && n < |events|
    ensures Run(tenant, store, events[..n + 1]) == Step(tenant, Run(tenant, store, events[..n]), events[n])
    ensures Newer(At(tenant, store, events, n, id), At(tenant, store, events, n + 1, id))
  {
    assert events[..n + 1][..n] == events[..n];
    RunKeeps(tenant, store, events[..n]);
    VaultStep(tenant, Run(tenant, store, events[..n]), events[n]);
    hide Inv, Tidy, Step, Load;
  }

  /** Versions strictly increase on every change, so a relationship never returns to an earlier version. */
  lemma {:induction false} VersionsIncrease(tenant: string, store: Relationships, events: seq<Event>, n: nat, m: nat, id: string)
    requires Tidy(store, tenant) && n <= m <= |events|
    ensures Newer(At(tenant, store, events, n, id), At(tenant, store, events, m, id))
  {
    if n < m {
      VersionsIncrease(tenant, store, events, n, m - 1, id);
      OneStep(tenant, store, events, m - 1, id);
      hide At;
    }
  }

  /** The copy an admin read is kept until that admin reads again. */
  lemma {:induction false} CopyStays(tenant: string, store: Relationships, events: seq<Event>, a: nat, b: nat, admin: nat, id: string)
    requires Tidy(store, tenant) && a < b <= |events| && events[a] == Read(admin, id) && At(tenant, store, events, a, id).Some?
    requires forall k :: a < k < b ==> !(events[k].Read? && events[k].admin == admin)
    ensures var s := Run(tenant, store, events[..b]);
            admin in s.copies && s.copies[admin] == At(tenant, store, events, a, id).value
  {
    hide Run, Load, Tidy, Step;
    OneStep(tenant, store, events, b - 1, id);
    StepCopies(tenant, Run(tenant, store, events[..b - 1]), events[b - 1], admin, id);
    if a + 1 < b {
      CopyStays(tenant, store, events, a, b - 1, admin, id);
    }
  }

  lemma StepCopies(tenant: string, s: State, e: Event, admin: nat, id: string)
    ensures !(e.Read? && e.admin == admin) && admin in s.copies ==>
              admin in Step(tenant, s, e).copies && Step(tenant, s, e).copies[admin] == s.copies[admin]
    ensures e == Read(admin, id) && Load(s.vault, tenant, id).Some? ==>
              admin in Step(tenant, s, e).copies && Step(tenant, s, e).copies[admin] == Load(s.vault, tenant, id).value
  {
    hide Load, Discover, ChangeMaterially, Reject, Activate, Suspend, Warm;
  }

  /** An approval built on a copy read before another transition is refused and changes nothing. */
  lemma StaleApprovalIsRefused(tenant: string, store: Relationships, events: seq<Event>,
                               a: nat, k: nat, b: nat, admin: nat, id: string)
    requires Tidy(store, tenant) && a <= k < b < |events|
    requires events[a] == Read(admin, id) && At(tenant, store, events, a, id).Some?
    requires forall j :: a < j < b ==> !(events[j].Read? && events[j].admin == admin)
    requires At(tenant, store, events, k + 1, id) != At(tenant, store, events, k, id)
    requires events[b].Approve? && events[b].admin == admin
    ensures admin in Run(tenant, store, events[..b]).copies
    ensures var s := Run(tenant, store, events[..b]);
            var copy := WithGrants(s.copies[admin], events[b].projects, events[b].capabilities);
            && Activate(s.vault, copy, events[b].stored).outcome.Refused?
            && At(tenant, store, events, b + 1, id) == At(tenant, store, events, b, id)
  {
    VersionsIncrease(tenant, store, events, a, k, id);
    OneStep(tenant, store, events, k, id);
    VersionsIncrease(tenant, store, events, k + 1, b, id);
    CopyStays(tenant, store, events, a, b, admin, id);
    OneStep(tenant, store, events, b, id);
    RunKeeps(tenant, store, events[..a]);
    RunKeeps(tenant, store, events[..b]);
    LoadTidy(Run(tenant, store, events[..a]).vault, tenant, id);
    var s := Run(tenant, store, events[..b]);
    var copy := WithGrants(s.copies[admin], events[b].projects, events[b].capabilities);
    assert copy.version < At(tenant, store, events, b, id).value.version;
    hide Run, Tidy;
    StaleActivate(s.vault, copy, events[b].stored, tenant);
  }

  lemma StaleActivate(v: Vault, copy: Relationship, stored: bool, tenant: string)
    requires TidyVault(v, tenant) && copy.tenant == tenant
    requires Load(v, tenant, copy.id).Some? && copy.version != Load(v, tenant, copy.id).value.version
    ensures Activate(v, copy, stored).outcome.Refused?
    ensures forall id :: Load(Activate(v, copy, stored).vault, tenant, id) == Load(v, tenant, id)
  {
    WarmKeeps(v, tenant, copy.id);
  }

  /** Ids are shared between tenants: whatever the vault holds, a discovery by one tenant hides a relationship
  of the same id from the other tenant, and when it is stored the in-memory store loses it too. */
  lemma OtherTenantReplaces(v: Vault, tenant: string, id: string, other: Relationship, stored: bool)
    requires Load(v, tenant, id).Some? && other.id == id && other.tenant != tenant
    ensures var w := Discover(v, other, stored).vault;
            && Load(w, tenant, id) == None && Load(w, other.tenant, id) == Some(other.(status := Candidate, version := 1))
            && (stored ==> Visible(w.store, tenant, id) == None)
  {
  }

  // ----- the store in SQL

  /** A row of the table: the tenant column, and the relationship in the body. */
  datatype Row = Row(tenant: string, body: Relationship)

  /** Put: a conflict on the id replaces the body and leaves the tenant column. */
  function Upsert(table: map<string, Row>, r: Relationship): map<string, Row> {
    table[r.id := Row(if r.id in table then table[r.id].tenant else r.tenant, r)]
  }

  /** Get: the body of the row with that id and that tenant column. */
  function Select(table: map<string, Row>, tenant: string, id: string): Option<Relationship> {
    if id in table && table[id].tenant == tenant then Some(table[id].body) else None
  }

  /** The table answers every Get as the map does. */
  ghost predicate Answers(table: map<string, Row>, rs: Relationships) {
    forall tenant, id :: Select(table, tenant, id) == Visible(rs, tenant, id)
  }

  /** A Put keeps the table in line with the map exactly when it does not replace another tenant's relationship. */
  lemma UpsertIff(table: map<string, Row>, rs: Relationships, r: Relationship)
    requires Answers(table, rs)
    ensures Answers(Upsert(table, r), rs[r.id := r]) <==> (r.id in table ==> table[r.id].tenant == r.tenant)
  {
    var t, s := Upsert(table, r), rs[r.id := r];
    forall tenant, id | id != r.id ensures Select(t, tenant, id) == Visible(s, tenant, id) {
      assert Select(table, tenant, id) == Visible(rs, tenant, id);
    }
    if r.id in table && table[r.id].tenant != r.tenant {
      assert Select(t, r.tenant, r.id) == None && Visible(s, r.tenant, r.id) == Some(r);
    }
  }

  /** When it does, the first tenant is given the other tenant's relationship from then on. */
  lemma OtherTenantIsServed(table: map<string, Row>, tenant: string, other: Relationship)
    requires Select(table, tenant, other.id).Some? && other.tenant != tenant
    ensures Select(Upsert(table, other), tenant, other.id) == Some(other) && Select(Upsert(table, other), other.tenant, other.id) == None
  {
  }

  // ----- a lifecycle in use

  /** One event on the object, with the copies that the admins hold. */
  method Perform(lifecycle: Lifecycle, tenant: string, copies: map<nat, Relationship>, e: Event) returns (more: map<nat, Relationship>)
    modifies lifecycle
    ensures State(lifecycle.Value(), more) == Step(tenant, State(old(lifecycle.Value()), copies), e)
  {
    hide Load, Warm, Discover, ChangeMaterially, Reject, Activate, Suspend;
    more := copies;
    var o: Outcome;
    match e {
      case Read(admin, id) =>
        var r := lifecycle.LoadLocked(tenant, id);
        more := if r.Some? then copies[admin := r.value] else copies - {admin};
      case Find(r, stored) => o := lifecycle.DiscoverRelationship(r.(tenant := tenant), stored);
      case Change(id, field, stored) => o := lifecycle.ReviewMaterialChange(tenant, id, [field], stored);
      case Turn(admin, stored) =>
        if admin in copies {
          o := lifecycle.RejectRelationship(copies[admin], stored);
        }
      case Approve(admin, projects, capabilities, stored) =>
        if admin in copies {
          o := lifecycle.ActivateRelationship(WithGrants(copies[admin], projects, capabilities), stored);
        }
      case Stop(id, stored) => o := lifecycle.SuspendRelationship(tenant, id, stored);
    }
  }

  /** A lifecycle that serves the admins of a tenant: whatever they do, what is active is sound. */
  method Serve(tenant: string, store: Relationships, events: seq<Event>) returns (states: Relationships, saved: Relationships)
    requires Tidy(store, tenant)
    ensures Vault(states, saved) == Run(tenant, store, events).vault
    ensures Tidy(states, tenant) && Tidy(saved, tenant)
  {
    var lifecycle := new Lifecycle(store);
    var copies := map[];
    assert events[..0] == [];
    for i := 0 to |events|
      invariant fresh(lifecycle) && State(lifecycle.Value(), copies) == Run(tenant, store, events[..i])
    {
      hide Step, Tidy;
      assert events[..i + 1][..i] == events[..i];
      copies := Perform(lifecycle, tenant, copies, events[i]);
    }
    assert events[..|events|] == events;
    RunKeeps(tenant, store, events);
    return lifecycle.states, lifecycle.store;
  }
}
