/** Concurrency leases of the AI reporting guard: two counters per query, given back once. */
module UsageGuard {
  import opened Wrappers

  type Counts = map<string, nat>

  function Count(m: Counts, key: string): nat { if key in m then m[key] else 0 }

  function Incremented(m: Counts, key: string): Counts { m[key := Count(m, key) + 1] }

  /** `decrement`: the last one removes the entry. */
  function Decremented(m: Counts, key: string): Counts {
    if Count(m, key) <= 1 then m - {key} else m[key := m[key] - 1]
  }

  /** What a caller's two counters are filed under. */
  function UserKey(tenant: string, user: string): string { tenant + ":" + user }

  /** Tenant ids are UUIDs; all that matters here is that they hold no colon. */
  predicate IsId(tenant: string) { ':' !in tenant }

  /** What stands before the first colon. */
  function TenantOf(key: string): string {
    if key == "" || key[0] == ':' then "" else [key[0]] + TenantOf(key[1..])
  }

  lemma {:induction false} TenantRecovered(t: string, u: string)
    requires IsId(t)
    ensures TenantOf(UserKey(t, u)) == t
  {
    if t != "" {
      assert t[0] in t && forall c :: c in t[1..] ==> c in t;
      TenantRecovered(t[1..], u);
      assert UserKey(t, u)[1..] == UserKey(t[1..], u);
    }
  }

  lemma UserKeyInjective(t: string, u: string, t': string, u': string)
    requires IsId(t) && IsId(t') && UserKey(t, u) == UserKey(t', u')
    ensures t == t' && u == u'
  {
    TenantRecovered(t, u);
    TenantRecovered(t', u');
    assert u == UserKey(t, u)[|t| + 1..] && u' == UserKey(t', u')[|t'| + 1..];
  }

  // ---- the guard in the program's form

  class Guard {
    var activeByUser: Counts
    var activeByTenant: Counts

    constructor ()
      ensures activeByUser == map[] && activeByTenant == map[]
    {
      activeByUser, activeByTenant := map[], map[];
    }

    /** `acquire`, from the check on: no await comes in between. `within` is the answer of the rate
        limits. Null is the refusal. */
    method Acquire(tenant: string, user: string, limits: Limits, within: bool) returns (lease: UsageLease?)
      modifies this
      ensures lease == null <==> !Admits(old(activeByUser), old(activeByTenant), tenant, user, limits, within)
      ensures lease != null <==>
        && within && Count(old(activeByUser), tenant + ":" + user) < limits.perUser
        && Count(old(activeByTenant), tenant) < limits.perTenant
      ensures lease == null ==> activeByUser == old(activeByUser) && activeByTenant == old(activeByTenant)
      ensures lease != null ==>
        && fresh(lease) && lease.guard == this && lease.userKey == UserKey(tenant, user) && lease.tenantId == tenant
        && !lease.released
        && activeByUser == Incremented(old(activeByUser), UserKey(tenant, user))
        && activeByTenant == Incremented(old(activeByTenant), tenant)
    {
      if !within { return null; }
      var userKey := UserKey(tenant, user);
      var userActive := Count(activeByUser, userKey);
      var tenantActive := Count(activeByTenant, tenant);
      if userActive >= limits.perUser || tenantActive >= limits.perTenant { return null; }
      activeByUser := activeByUser[userKey := userActive + 1];
      activeByTenant := activeByTenant[tenant := tenantActive + 1];
      lease := new UsageLease(this, userKey, tenant);
    }
  }

  class UsageLease {
    const guard: Guard
    const userKey: string
    const tenantId: string
    var released: bool

    constructor (guard: Guard, userKey: string, tenantId: string)
      ensures this.guard == guard && this.userKey == userKey && this.tenantId == tenantId && !released
    {
      this.guard, this.userKey, this.tenantId, released := guard, userKey, tenantId, false;
    }

    /** The first call gives both counters back; any further one does nothing. */
    method Release()
      modifies this, guard
      ensures released
      ensures guard.activeByUser
           == if old(released) then old(guard.activeByUser) else Decremented(old(guard.activeByUser), userKey)
      ensures guard.activeByTenant
           == if old(released) then old(guard.activeByTenant) else Decremented(old(guard.activeByTenant), tenantId)
    {
      if released { return; }
      released := true;
      guard.activeByUser := Decrement(guard.activeByUser, userKey);
      guard.activeByTenant := Decrement(guard.activeByTenant, tenantId);
    }

    method Decrement(m: Counts, key: string) returns (m': Counts)
      ensures m' == Decremented(m, key)
    {
      var current := Count(m, key);
      if current <= 1 {
        m' := map k | k in m && k != key :: m[k];
      } else {
        m' := m[key := current - 1];
      }
    }
  }

  // ---- whole runs

  datatype Limits = Limits(perUser: nat, perTenant: nat)

  predicate Admits(byUser: Counts, byTenant: Counts, tenant: string, user: string, limits: Limits, within: bool) {
    within && Count(byUser, UserKey(tenant, user)) < limits.perUser && Count(byTenant, tenant) < limits.perTenant
  }

  datatype Lease = Lease(tenant: string, user: string, released: bool)

  datatype State = State(byUser: Counts, byTenant: Counts, leases: seq<Lease>)

  datatype Event =
    | Acquire(tenant: string, user: string, within: bool)
    | Release(lease: nat)

  /** One call, with the limits each tenant is configured with. */
  function Step(s: State, limits: string -> Limits, e: Event): State {
    match e
    case Acquire(t, u, within) =>
      if IsId(t) && Admits(s.byUser, s.byTenant, t, u, limits(t), within)
      then State(Incremented(s.byUser, UserKey(t, u)), Incremented(s.byTenant, t), s.leases + [Lease(t, u, false)])
      else s
    case Release(i) =>
      if i < |s.leases| && !s.leases[i].released then
        var l := s.leases[i];
        State(Decremented(s.byUser, UserKey(l.tenant, l.user)), Decremented(s.byTenant, l.tenant),
              s.leases[i := l.(released := true)])
      else s
  }

  function Run(limits: string -> Limits, events: seq<Event>): State {
    if events == [] then State(map[], map[], [])
    else Step(Run(limits, events[..|events| - 1]), limits, events[|events| - 1])
  }

  /** How many leases of a tenant, or of one of its users, are still out. */
  function Open(leases: seq<Lease>, tenant: string, user: Option<string>): nat {
    if leases == [] then 0
    else
      var l := leases[|leases| - 1];
      Open(leases[..|leases| - 1], tenant, user) + Weigh(l, tenant, user)
  }

  function Weigh(l: Lease, tenant: string, user: Option<string>): nat {
    if !l.released && l.tenant == tenant && (user.None? || user.value == l.user) then 1 else 0
  }

  lemma OpenAppend(leases: seq<Lease>, l: Lease, tenant: string, user: Option<string>)
    ensures Open(leases + [l], tenant, user) == Open(leases, tenant, user) + Weigh(l, tenant, user)
  {
    assert (leases + [l])[..|leases|] == leases;
  }

  lemma {:induction false} OpenReleased(leases: seq<Lease>, i: nat, tenant: string, user: Option<string>)
    requires i < |leases| && !leases[i].released
    ensures Open(leases[i := leases[i].(released := true)], tenant, user)
         == Open(leases, tenant, user) - Weigh(leases[i], tenant, user)
  {
    var n, closed := |leases| - 1, leases[i].(released := true);
    if i == n {
      assert leases[i := closed][..n] == leases[..n];
    } else {
      assert leases[i := closed][..n] == leases[..n][i := closed];
      OpenReleased(leases[..n], i, tenant, user);
    }
  }

  ghost predicate NoZeroes(m: Counts) { forall k :: k in m ==> m[k] > 0 }

  ghost predicate Sound(s: State, limits: string -> Limits) {
    && (forall l :: l in s.leases ==> IsId(l.tenant))
    && NoZeroes(s.byUser) && NoZeroes(s.byTenant)
    && (forall t :: IsId(t) ==> Count(s.byTenant, t) == Open(s.leases, t, None) <= limits(t).perTenant)
    && (forall t, u :: IsId(t) ==> Count(s.byUser, UserKey(t, u)) == Open(s.leases, t, Some(u)) <= limits(t).perUser)
  }

  lemma CountChanges(m: Counts, key: string, k: string)
    ensures Count(Incremented(m, key), k) == Count(m, k) + if k == key then 1 else 0
    ensures Count(m, key) > 0 ==> Count(Decremented(m, key), k) == Count(m, k) - if k == key then 1 else 0
    ensures NoZeroes(m) ==> NoZeroes(Incremented(m, key)) && NoZeroes(Decremented(m, key))
  {}

  lemma AcquireKeeps(s: State, limits: string -> Limits, t: string, u: string)
    requires Sound(s, limits) && IsId(t) && Admits(s.byUser, s.byTenant, t, u, limits(t), true)
    ensures Sound(Step(s, limits, Acquire(t, u, true)), limits)
  {
    var s' := Step(s, limits, Acquire(t, u, true));
    var l := Lease(t, u, false);
    CountChanges(s.byUser, UserKey(t, u), UserKey(t, u));
    CountChanges(s.byTenant, t, t);
    hide Incremented, Open;
    forall v | IsId(v) ensures Count(s'.byTenant, v) == Open(s'.leases, v, None) <= limits(v).perTenant {
      CountChanges(s.byTenant, t, v);
      OpenAppend(s.leases, l, v, None);
    }
    forall v, w | IsId(v) ensures Count(s'.byUser, UserKey(v, w)) == Open(s'.leases, v, Some(w)) <= limits(v).perUser {
      CountChanges(s.byUser, UserKey(t, u), UserKey(v, w));
      OpenAppend(s.leases, l, v, Some(w));
      if UserKey(v, w) == UserKey(t, u) { UserKeyInjective(v, w, t, u); }
    }
  }

  lemma {:induction false} OpenLeaseCounts(leases: seq<Lease>, i: nat, user: Option<string>)
    requires i < |leases| && Weigh(leases[i], leases[i].tenant, user) == 1
    ensures Open(leases, leases[i].tenant, user) >= 1
  {
    if i < |leases| - 1 { OpenLeaseCounts(leases[..|leases| - 1], i, user); }
  }

  lemma ReleaseKeeps(s: State, limits: string -> Limits, i: nat)
    requires Sound(s, limits) && i < |s.leases| && !s.leases[i].released
    ensures Sound(Step(s, limits, Release(i)), limits)
  {
    var s', l := Step(s, limits, Release(i)), s.leases[i];
    var t, u := l.tenant, l.user;
    assert l in s.leases;
    OpenLeaseCounts(s.leases, i, None);
    OpenLeaseCounts(s.leases, i, Some(u));
    CountChanges(s.byUser, UserKey(t, u), UserKey(t, u));
    CountChanges(s.byTenant, t, t);
    hide Decremented, Open;
    forall v | IsId(v) ensures Count(s'.byTenant, v) == Open(s'.leases, v, None) <= limits(v).perTenant {
      CountChanges(s.byTenant, t, v);
      OpenReleased(s.leases, i, v, None);
    }
    forall v, w | IsId(v) ensures Count(s'.byUser, UserKey(v, w)) == Open(s'.leases, v, Some(w)) <= limits(v).perUser {
      CountChanges(s.byUser, UserKey(t, u), UserKey(v, w));
      OpenReleased(s.leases, i, v, Some(w));
      if UserKey(v, w) == UserKey(t, u) { UserKeyInjective(v, w, t, u); }
    }
  }

  lemma {:induction false} RunKeeps(limits: string -> Limits, events: seq<Event>)
    ensures Sound(Run(limits, events), limits)
  {
    if events != [] {
      var s, e := Run(limits, events[..|events| - 1]), events[|events| - 1];
      RunKeeps(limits, events[..|events| - 1]);
      match e
      case Acquire(t, u, within) =>
        if IsId(t) && Admits(s.byUser, s.byTenant, t, u, limits(t), within) { AcquireKeeps(s, limits, t, u); }
      case Release(i) => if i < |s.leases| && !s.leases[i].released { ReleaseKeeps(s, limits, i); }
    }
  }

  /** In every reachable state each counter is exactly the leases still out, within its limit, and
      no zero entry is left in either map. */
  lemma CountersAreOpenLeases(limits: string -> Limits, events: seq<Event>, t: string, u: string)
    requires IsId(t)
    ensures var s := Run(limits, events);
      && Count(s.byUser, UserKey(t, u)) == Open(s.leases, t, Some(u)) <= limits(t).perUser
      && Count(s.byTenant, t) == Open(s.leases, t, None) <= limits(t).perTenant
      && NoZeroes(s.byUser) && NoZeroes(s.byTenant)
  {
    RunKeeps(limits, events);
  }

  // ---- a tenant's counter is the sum of its users'

  ghost predicate Listing(users: seq<string>) { forall i, j :: 0 <= i < j < |users| ==> users[i] != users[j] }

  function SumOfUsers(byUser: Counts, t: string, users: seq<string>): nat {
    if users == [] then 0
    else SumOfUsers(byUser, t, users[..|users| - 1]) + Count(byUser, UserKey(t, users[|users| - 1]))
  }

  function OpenOfUsers(leases: seq<Lease>, t: string, users: seq<string>): nat {
    if users == [] then 0
    else OpenOfUsers(leases, t, users[..|users| - 1]) + Open(leases, t, Some(users[|users| - 1]))
  }

  /** One lease is counted under one user of the listing. */
  lemma {:induction false} OneUserEach(leases: seq<Lease>, l: Lease, t: string, users: seq<string>)
    requires Listing(users)
    ensures OpenOfUsers(leases + [l], t, users)
         == OpenOfUsers(leases, t, users) + if l.user in users then Weigh(l, t, None) else 0
  {
    if users != [] {
      var n := |users| - 1;
      OneUserEach(leases, l, t, users[..n]);
      OpenAppend(leases, l, t, Some(users[n]));
      assert users == users[..n] + [users[n]];
      assert users[n] !in users[..n];
    }
  }

  lemma {:induction false} NobodyOpen(t: string, users: seq<string>)
    ensures OpenOfUsers([], t, users) == 0
  {
    if users != [] { NobodyOpen(t, users[..|users| - 1]); }
  }

  lemma {:induction false} TenantIsItsUsers(leases: seq<Lease>, t: string, users: seq<string>)
    requires Listing(users) && forall l :: l in leases && l.tenant == t && !l.released ==> l.user in users
    ensures Open(leases, t, None) == OpenOfUsers(leases, t, users)
  {
    if leases == [] {
      NobodyOpen(t, users);
    } else {
      var n := |leases| - 1;
      assert forall l :: l in leases[..n] ==> l in leases;
      assert leases[n] in leases && leases == leases[..n] + [leases[n]];
      TenantIsItsUsers(leases[..n], t, users);
      OneUserEach(leases[..n], leases[n], t, users);
    }
  }

  lemma {:induction false} SumsAgree(s: State, limits: string -> Limits, t: string, users: seq<string>)
    requires Sound(s, limits) && IsId(t)
    ensures SumOfUsers(s.byUser, t, users) == OpenOfUsers(s.leases, t, users)
  {
    if users != [] { SumsAgree(s, limits, t, users[..|users| - 1]); }
  }

  /** In every reachable state a tenant's counter is the sum of the counters of its users, over any
      listing of them that leaves out nobody with a lease. */
  lemma TenantCounterIsSum(limits: string -> Limits, events: seq<Event>, t: string, users: seq<string>)
    requires IsId(t) && Listing(users)
    requires forall l :: l in Run(limits, events).leases && l.tenant == t && !l.released ==> l.user in users
    ensures Count(Run(limits, events).byTenant, t) == SumOfUsers(Run(limits, events).byUser, t, users)
  {
    RunKeeps(limits, events);
    SumsAgree(Run(limits, events), limits, t, users);
    TenantIsItsUsers(Run(limits, events).leases, t, users);
  }
}
