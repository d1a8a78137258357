module OperatorRuns {
  // The operator over whole runs: watch events mixed with the edits others make to its rulebook.

  import opened Wrappers
  import opened Order
  import opened Policy
  import opened Operator
  import opened OperatorProofs

  datatype Action =
    | PolicyEvent(cluster: Cluster, deleted: bool, key: string, policy: PolicyObject)
    | TenantEvent(cluster: Cluster, gone: bool, key: string, tenant: TenantObject)
    | Reprice(name: string, capacity: Option<real>, refill: Option<real>, quota: Option<real>)
    | BindKey(apiKey: string, tier: string, tenantId: string)
    | WriteKey(apiKey: string, written: Tenant)
    | DropKey(apiKey: string)
    | OffboardSite(tenantId: string)

  function Chosen(o: Option<real>, other: real): real {
    if o.Some? then o.value else other
  }

  /** Policy.UpdateTier: only a tier that is there, only the numbers that are given. */
  function Repriced(tiers: map<string, Tier>, name: string, capacity: Option<real>, refill: Option<real>,
                    quota: Option<real>): map<string, Tier> {
    if name !in tiers then tiers
    else
      var t := tiers[name];
      tiers[name := Tier(Chosen(capacity, t.capacity), Chosen(refill, t.refillPerSecond),
                         if quota.Some? then quota else t.monthlyQuota)]
  }

  ghost function Apply(s: State, a: Action): State {
    match a
    case PolicyEvent(c, deleted, key, p) => OnPolicy(c, s, deleted, key, p)
    case TenantEvent(c, gone, key, t) => OnTenant(c, s, gone, key, t)
    case Reprice(name, capacity, refill, quota) =>
      s.(book := s.book.(tiers := Repriced(s.book.tiers, name, capacity, refill, quota)))
    case BindKey(apiKey, tier, tenantId) =>
      s.(book := s.book.(tenants := Bind(s.book.tenants, apiKey, tier, tenantId)))
    case WriteKey(apiKey, t) => s.(book := s.book.(tenants := s.book.tenants[apiKey := t]))
    case DropKey(apiKey) => s.(book := s.book.(tenants := s.book.tenants - {apiKey}))
    case OffboardSite(id) => s.(book := s.book.(tenants := Offboard(s.book.tenants, id)))
  }

  ghost function Run(s: State, trace: seq<Action>): State {
    if trace == [] then s else Apply(Run(s, trace[..|trace| - 1]), trace[|trace| - 1])
  }

  /** The state a reconcile starts from, when the action runs one. */
  ghost function Reconciling(s: State, a: Action): Option<State> {
    match a
    case PolicyEvent(c, deleted, key, p) =>
      if deleted then Some(s.(policies := s.policies - {key}))
      else if key in s.policies && SameGeneration(s.policies[key].generation, p.generation) then None
      else Some(s.(policies := s.policies[key := p]))
    case TenantEvent(c, gone, key, t) =>
      if gone || (key in s.tenants && SameGeneration(s.tenants[key].generation, t.generation)) then None
      else Some(s.(tenants := s.tenants[key := t]))
    case _ => None
  }

  // ---- No fail-open -----------------------------------------------------------------

  /** Every route in the table is priced by a known class, and the wildcard is there. */
  ghost predicate Priced(routes: map<string, Route>) {
    RoutesKnown(routes) && "*" in routes
  }

  lemma ReconcilePrices(c: Cluster, s: State)
    requires Governed(s) || Priced(s.book.routes)
    ensures Priced(Reconciled(c, s).book.routes)
  {
    GovernedIff(s);
    DesiredKnown(s.policies, InOrder(s.policies.Keys));
  }

  lemma StepStaysPriced(s: State, a: Action)
    requires Priced(s.book.routes)
    ensures Priced(Apply(s, a).book.routes)
  {
    if Reconciling(s, a).Some? {
      ReconcilePrices(a.cluster, Reconciling(s, a).value);
    }
  }

  /** Priced after the first j actions. */
  ghost predicate PricedAt(s: State, trace: seq<Action>, j: nat)
    requires j <= |trace|
  {
    Priced(Run(s, trace[..j]).book.routes)
  }

  lemma PricedNext(s: State, trace: seq<Action>, j: nat)
    requires j < |trace| && PricedAt(s, trace, j)
    ensures PricedAt(s, trace, j + 1)
  {
    RunStep(s, trace, j);
    StepStaysPriced(Run(s, trace[..j]), trace[j]);
  }

  lemma {:induction false} StaysPriced(s: State, trace: seq<Action>, i: nat, j: nat)
    requires i <= j <= |trace| && PricedAt(s, trace, i)
    ensures PricedAt(s, trace, j)
    decreases j
  {
    if i < j {
      StaysPriced(s, trace, i, j - 1);
      PricedNext(s, trace, j - 1);
    }
  }

  /** A key that reconciling manages resolves on a priced table. */
  lemma ManagedResolves(c: Cluster, s: State, apiKey: string, ip: string, route: string)
    requires Priced(Reconciled(c, s).book.routes)
    requires apiKey in Reconciled(c, s).managedKeys && apiKey != ""
    ensures ResolveRequest(Reconciled(c, s).book, apiKey, ip, route).Resolved?
  {
    var s1, s' := PoliciesReconciled(s), Reconciled(c, s);
    TenantsSettle(c, s1, apiKey);
    assert s'.book.tenants[apiKey].tier in s'.book.tiers;
    ResolveFailsIff(s'.book, s'.book.tenants[apiKey].tenantId, s'.book.tenants[apiKey].tier, route);
  }

  /** The j-th action runs a reconcile, from this state. */
  ghost predicate ReconcilesAt(s: State, trace: seq<Action>, j: nat) {
    j < |trace| && Reconciling(Run(s, trace[..j]), trace[j]).Some?
  }

  ghost function At(s: State, trace: seq<Action>, j: nat): State
    requires ReconcilesAt(s, trace, j)
  {
    Reconciling(Run(s, trace[..j]), trace[j]).value
  }

  lemma ReconcileStep(s: State, trace: seq<Action>, j: nat) returns (c: Cluster)
    requires ReconcilesAt(s, trace, j)
    ensures Run(s, trace[..j + 1]) == Reconciled(c, At(s, trace, j))
  {
    RunStep(s, trace, j);
    c := trace[j].cluster;
  }

  lemma RunStep(s: State, trace: seq<Action>, j: nat)
    requires j < |trace|
    ensures Run(s, trace[..j + 1]) == Apply(Run(s, trace[..j]), trace[j])
  {
    assert trace[..j + 1][..j] == trace[..j];
  }

  lemma GovernedPrices(s: State, trace: seq<Action>, i: nat)
    requires ReconcilesAt(s, trace, i) && Governed(At(s, trace, i))
    ensures PricedAt(s, trace, i + 1)
  {
    var c := ReconcileStep(s, trace, i);
    ReconcilePrices(c, At(s, trace, i));
  }

  /** No fail-open.  Once some reconcile, the i-th action, has seen a valid policy, then after
      every later reconcile each managed key resolves on every route from every address, whatever
      events, skipped events and hand edits lie between. */
  lemma NoFailOpen(s: State, trace: seq<Action>, i: nat, j: nat, apiKey: string, ip: string, route: string)
    requires i <= j && ReconcilesAt(s, trace, i) && ReconcilesAt(s, trace, j)
    requires Governed(At(s, trace, i))
    requires apiKey in Run(s, trace[..j + 1]).managedKeys && apiKey != ""
    ensures ResolveRequest(Run(s, trace[..j + 1]).book, apiKey, ip, route).Resolved?
  {
    GovernedPrices(s, trace, i);
    StaysPriced(s, trace, i + 1, j + 1);
    var c := ReconcileStep(s, trace, j);
    ManagedResolves(c, At(s, trace, j), apiKey, ip, route);
  }

  /** And on what it was sold: the numbers the policies declare for the tier of the object that owns
      the key, and the tokens of a class the gateway knows. */
  lemma LimitedAsDeclared(c: Cluster, s: State, k: string, apiKey: string, ip: string, route: string)
    requires Governed(s) && apiKey in Reconciled(c, s).managedKeys && apiKey != ""
    requires k == Reconciled(c, s).managedKeys[apiKey] && k in s.tenants && s.tenants[k].spec.tier in DesiredState(s.policies).tiers
    ensures
      var r, sold := ResolveRequest(Reconciled(c, s).book, apiKey, ip, route), DesiredState(s.policies).tiers[s.tenants[k].spec.tier];
      && r.Resolved? && r.plan.capacity == sold.capacity && r.plan.refillRatePerMs * 1000.0 == sold.refillPerSecond
      && r.plan.monthlyQuota == sold.monthlyQuota && r.plan.cost in {1.0, 2.0, 5.0}
  {
    var s1, s' := PoliciesReconciled(s), Reconciled(c, s);
    ReconcilePrices(c, s);
    ManagedResolves(c, s, apiKey, ip, route);
    TenantsSettle(c, s1, apiKey);
    ReconcileSettles(c, s);
    ResolvedPlan(s'.book, s'.book.tenants[apiKey].tenantId, s'.book.tenants[apiKey].tier, route);
  }

  /** Strangers are another matter.  A request no key answers for is served after a governed
      reconcile exactly when "free" is declared, or was live and never the operator's. */
  lemma StrangersResolveIff(c: Cluster, s: State, apiKey: string, ip: string, route: string)
    requires Governed(s)
    requires apiKey == "" || apiKey !in Reconciled(c, s).book.tenants
    ensures ResolveRequest(Reconciled(c, s).book, apiKey, ip, route).Resolved?
            <==> "free" in DesiredState(s.policies).tiers || ("free" in s.book.tiers && "free" !in s.managedTiers)
  {
    var s' := Reconciled(c, s);
    ReconcilePrices(c, s);
    ReconcileSettles(c, s);
    ResolveFailsIff(s'.book, Identify(s'.book, apiKey, ip).tenantId, "free", route);
  }

  lemma OneName(k: string)
    ensures InOrder({k}) == [k]
  {
    SortedUnique(InOrder({k}), [k]);
  }

  lemma OnePolicy(k: string, p: PolicyObject)
    requires ValidPolicy(p.spec)
    ensures DesiredState(map[k := p]).tiers == p.spec.tiers
  {
    OneName(k);
    var m := map[k := p];
    assert m.Keys == {k};
    assert [k][..0] == [];
    assert DesiredBy(m, [k]) == Overlay(DesiredBy(m, []), p.spec);
    assert map[] + p.spec.tiers == p.spec.tiers;
  }

  /** A single valid manifest, reconciled: its tiers are live and managed, and what was managed
      before and it does not declare is gone. */
  lemma OneManifest(c: Cluster, s: State, key: string, p: PolicyObject)
    requires s.policies == map[key := p] && ValidPolicy(p.spec)
    ensures Governed(s) && DesiredState(s.policies).tiers == p.spec.tiers
    ensures Reconciled(c, s).policies == s.policies
    ensures Reconciled(c, s).managedTiers == p.spec.tiers.Keys
    ensures forall n | n in p.spec.tiers :: n in Reconciled(c, s).book.tiers && Reconciled(c, s).book.tiers[n] == p.spec.tiers[n]
    ensures forall n | n in s.managedTiers && n !in p.spec.tiers :: n !in Reconciled(c, s).book.tiers
  {
    OnePolicy(key, p);
    assert key in s.policies && ValidPolicy(s.policies[key].spec);
    ReconcileSettles(c, s);
  }

  /** The event that brings it: the first for its object, or one with a new generation. */
  lemma ManifestArrives(c: Cluster, s: State, key: string, p: PolicyObject) returns (r: State)
    requires s.policies.Keys <= {key} && ValidPolicy(p.spec)
    requires key in s.policies ==> s.policies[key].generation != p.generation
    ensures r == s.(policies := map[key := p]) && OnPolicy(c, s, false, key, p) == Reconciled(c, r)
  {
    r := s.(policies := map[key := p]);
    assert s.policies[key := p] == r.policies;
  }

  /** An edit that drops "free" from the only manifest withdraws it, and every stranger is then
      let through unlimited, on every route. */
  lemma FreeWithdrawn(c: Cluster, s: State, key: string, p: PolicyObject, q: PolicyObject, ip: string, route: string)
    requires s.policies == map[] && p.generation != q.generation
    requires ValidPolicy(p.spec) && "free" in p.spec.tiers
    requires ValidPolicy(q.spec) && "free" !in q.spec.tiers
    ensures
      var s1 := OnPolicy(c, s, false, key, p);
      var s2 := OnPolicy(c, s1, false, key, q);
      && ResolveRequest(s1.book, "", ip, route).Resolved?
      && ResolveRequest(s2.book, "", ip, route) == UnknownTier
  {
    var r1 := ManifestArrives(c, s, key, p);
    OneManifest(c, r1, key, p);
    StrangersResolveIff(c, r1, "", ip, route);
    var r2 := ManifestArrives(c, Reconciled(c, r1), key, q);
    OneManifest(c, r2, key, q);
  }

  // ---- Deletion ---------------------------------------------------------------------

  lemma {:induction false} OwnerNamesSite(c: Cluster, tiers: map<string, Tier>, tenants: map<string, Tenant>,
                                          objects: map<string, TenantObject>, keys: seq<string>, apiKey: string)
    requires forall k | k in keys :: k in objects
    requires FinalOwner(c, tiers, objects, keys, apiKey).Some?
    requires objects[FinalOwner(c, tiers, objects, keys, apiKey).value].spec.tenantId != ""
    ensures FinalId(c, tiers, tenants, objects, keys, apiKey)
            == objects[FinalOwner(c, tiers, objects, keys, apiKey).value].spec.tenantId
  {
    var n := |keys| - 1;
    if FinalOwner(c, tiers, objects, keys, apiKey) != Some(keys[n]) {
      OwnerNamesSite(c, tiers, tenants, objects, keys[..n], apiKey);
    }
  }

  /** What the finalizer is for: a Tenant object that goes away takes its key with it.  It does
      at once exactly when the object names a site; one without a tenantId leaves its key live. */
  lemma TerminationRevokesIff(c: Cluster, s: State, apiKey: string)
    requires apiKey in Reconciled(c, s).managedKeys
    ensures
      var s' := Reconciled(c, s);
      var k := s'.managedKeys[apiKey];
      && k in s'.tenants
      && (apiKey !in OnTenant(c, s', true, k, s'.tenants[k]).book.tenants <==> s'.tenants[k].spec.tenantId != "")
  {
    var s1 := PoliciesReconciled(s);
    TenantsSettle(c, s1, apiKey);
    var keys := InOrder(s1.tenants.Keys);
    ServedEntry(c, s1.book.tiers, s1.book.tenants, s1.tenants, keys, apiKey);
    var k := FinalOwner(c, s1.book.tiers, s1.tenants, keys, apiKey).value;
    if s1.tenants[k].spec.tenantId != "" {
      OwnerNamesSite(c, s1.book.tiers, s1.book.tenants, s1.tenants, keys, apiKey);
    }
  }

  /** The key is live and bound to this site. */
  ghost predicate Bound(s: State, apiKey: string, id: string) {
    apiKey in s.book.tenants && s.book.tenants[apiKey].tenantId == id
  }

  /** An action that runs no reconcile and does not rebind the key or drop it. */
  ghost predicate LeavesKey(s: State, a: Action, apiKey: string, id: string) {
    && Reconciling(s, a).None?
    && match a
       case PolicyEvent(_, _, _, _) => true
       case TenantEvent(_, gone, _, t) => gone ==> t.spec.tenantId == "" || t.spec.tenantId != id
       case Reprice(_, _, _, _) => true
       case BindKey(k, _, tenantId) => k == apiKey ==> id != "" && (tenantId == "" || tenantId == id)
       case WriteKey(k, t) => k == apiKey ==> t.tenantId == id
       case DropKey(k) => k != apiKey
       case OffboardSite(tenantId) => tenantId != id
  }

  lemma StepKeepsBound(s: State, a: Action, apiKey: string, id: string)
    requires Bound(s, apiKey, id) && LeavesKey(s, a, apiKey, id)
    ensures Bound(Apply(s, a), apiKey, id)
  {
  }

  ghost predicate AllLeaveKey(s: State, trace: seq<Action>, apiKey: string, id: string) {
    forall j | 0 <= j < |trace| :: LeavesKey(Run(s, trace[..j]), trace[j], apiKey, id)
  }

  lemma {:induction false} StaysBound(s: State, trace: seq<Action>, apiKey: string, id: string)
    requires Bound(s, apiKey, id) && AllLeaveKey(s, trace, apiKey, id)
    ensures Bound(Run(s, trace), apiKey, id)
  {
    if trace != [] {
      var n := |trace| - 1;
      forall j | 0 <= j < n
        ensures LeavesKey(Run(s, trace[..n][..j]), trace[..n][j], apiKey, id)
      {
        assert trace[..n][..j] == trace[..j];
      }
      StaysBound(s, trace[..n], apiKey, id);
      StepKeepsBound(Run(s, trace[..n]), trace[n], apiKey, id);
    }
  }

  /** And so it stays until the next reconcile, through skipped events and hand edits elsewhere: the
      event that takes the object away takes its key exactly when it names the site the key was
      bound to, which the object did at the reconcile if it named any. */
  lemma TerminationRevokes(c: Cluster, s: State, trace: seq<Action>, later: Cluster, t: TenantObject, apiKey: string)
    requires apiKey in Reconciled(c, s).managedKeys && apiKey in Reconciled(c, s).book.tenants
    requires AllLeaveKey(Reconciled(c, s), trace, apiKey, Reconciled(c, s).book.tenants[apiKey].tenantId)
    ensures
      var s' := Reconciled(c, s);
      var k, id := s'.managedKeys[apiKey], s'.book.tenants[apiKey].tenantId;
      && (apiKey !in OnTenant(later, Run(s', trace), true, k, t).book.tenants <==> t.spec.tenantId != "" && t.spec.tenantId == id)
      && k in s'.tenants && (s'.tenants[k].spec.tenantId != "" ==> s'.tenants[k].spec.tenantId == id)
  {
    var s' := Reconciled(c, s);
    StaysBound(s', trace, apiKey, s'.book.tenants[apiKey].tenantId);
    TerminationRevokesIff(c, s, apiKey);
  }

  /** A terminating object names the site the key is bound to. */
  predicate NamesSite(t: TenantObject, tenants: map<string, Tenant>, apiKey: string) {
    apiKey in tenants && t.spec.tenantId != "" && tenants[apiKey].tenantId == t.spec.tenantId
  }

  /** A reconcile, key by key, both halves together. */
  lemma ReconcileKeyByKey(c: Cluster, s: State, apiKey: string)
    ensures
      var s' := Reconciled(c, s);
      && (apiKey in s'.managedKeys <==> exists j :: Serves(c, s'.book.tiers, s.tenants, j, apiKey))
      && (apiKey in s'.book.tenants <==> apiKey in s'.managedKeys || (apiKey in s.book.tenants && apiKey !in s.managedKeys))
  {
    TenantsSettle(c, PoliciesReconciled(s), apiKey);
  }

  lemma ServesWithout(c: Cluster, tiers: map<string, Tier>, objects: map<string, TenantObject>, k: string, j: string,
                      apiKey: string)
    ensures Serves(c, tiers, objects - {k}, j, apiKey) <==> j != k && Serves(c, tiers, objects, j, apiKey)
  {
  }

  /** Somebody but k serves the key. */
  ghost predicate OtherServes(c: Cluster, tiers: map<string, Tier>, objects: map<string, TenantObject>, k: string,
                              apiKey: string) {
    exists j :: j != k && Serves(c, tiers, objects, j, apiKey)
  }

  lemma OtherServesIff(c: Cluster, tiers: map<string, Tier>, objects: map<string, TenantObject>, k: string, apiKey: string)
    ensures (exists j :: Serves(c, tiers, objects - {k}, j, apiKey)) <==> OtherServes(c, tiers, objects, k, apiKey)
  {
    forall j
      ensures Serves(c, tiers, objects - {k}, j, apiKey) <==> j != k && Serves(c, tiers, objects, j, apiKey)
    {
      ServesWithout(c, tiers, objects, k, j, apiKey);
    }
  }

  /** What goes with a terminating object, key by key and whoever owns them: every key of its site,
      and no other; and the keys of the object itself, if it names a site, are managed no more.  And
      what the next reconcile makes of it: a key is live exactly when some object left serves it, or it
      was live and nobody manages it. */
  lemma TerminationKeyByKey(later: Cluster, s: State, k: string, t: TenantObject, next: Cluster, apiKey: string)
    ensures
      var s1 := OnTenant(later, s, true, k, t);
      && (apiKey in s1.book.tenants <==> apiKey in s.book.tenants && !NamesSite(t, s.book.tenants, apiKey))
      && (apiKey in s1.book.tenants ==> s1.book.tenants[apiKey] == s.book.tenants[apiKey])
      && (apiKey in s1.managedKeys <==> apiKey in s.managedKeys && (s.managedKeys[apiKey] != k || t.spec.tenantId == ""))
      && (apiKey in s1.managedKeys ==> s1.managedKeys[apiKey] == s.managedKeys[apiKey])
    ensures
      var s1 := OnTenant(later, s, true, k, t);
      var s2 := Reconciled(next, s1);
      && (apiKey in s2.managedKeys <==> OtherServes(next, s2.book.tiers, s.tenants, k, apiKey))
      && (apiKey in s2.book.tenants <==> apiKey in s2.managedKeys || (apiKey in s1.book.tenants && apiKey !in s1.managedKeys))
  {
    var s1 := OnTenant(later, s, true, k, t);
    assert s1.tenants == s.tenants - {k};
    ReconcileKeyByKey(next, s1, apiKey);
    OtherServesIff(next, Reconciled(next, s1).book.tiers, s.tenants, k, apiKey);
  }

  /** So an object that goes away takes the live keys of its site-mates with it, through skipped
      events and hand edits since the last reconcile, and the next one brings them back. */
  lemma SiteMatesComeBack(c: Cluster, s: State, trace: seq<Action>, later: Cluster, k: string, t: TenantObject,
                          next: Cluster, apiKey: string)
    requires apiKey in Reconciled(c, s).managedKeys && apiKey in Reconciled(c, s).book.tenants
    requires AllLeaveKey(Reconciled(c, s), trace, apiKey, Reconciled(c, s).book.tenants[apiKey].tenantId)
    requires t.spec.tenantId == Reconciled(c, s).book.tenants[apiKey].tenantId != ""
    ensures
      var now := Run(Reconciled(c, s), trace);
      var s1 := OnTenant(later, now, true, k, t);
      var s2 := Reconciled(next, s1);
      && apiKey in now.book.tenants && apiKey !in s1.book.tenants
      && (apiKey in s2.book.tenants <==> OtherServes(next, s2.book.tiers, now.tenants, k, apiKey))
  {
    var now := Run(Reconciled(c, s), trace);
    StaysBound(Reconciled(c, s), trace, apiKey, Reconciled(c, s).book.tenants[apiKey].tenantId);
    TerminationKeyByKey(later, now, k, t, next, apiKey);
  }

  /** Either way the next reconcile settles it: with its only object gone the key is dead. */
  lemma TerminationSettles(c: Cluster, s: State, apiKey: string)
    requires apiKey in Reconciled(c, s).managedKeys
    requires forall k | Serves(c, Reconciled(c, s).book.tiers, s.tenants, k, apiKey) :: k == Reconciled(c, s).managedKeys[apiKey]
    ensures
      var s' := Reconciled(c, s);
      var k := s'.managedKeys[apiKey];
      k in s'.tenants && apiKey !in Reconciled(c, OnTenant(c, s', true, k, s'.tenants[k])).book.tenants
  {
    var s' := Reconciled(c, s);
    TerminationRevokesIff(c, s, apiKey);
    var k := s'.managedKeys[apiKey];
    var s'' := OnTenant(c, s', true, k, s'.tenants[k]);
    SettledTiers(c, s);
    assert s''.book.tiers == s'.book.tiers && s''.managedTiers == s'.managedTiers && s''.policies == s'.policies;
    var s3 := PoliciesReconciled(s'');
    assert s3.book.tiers == s'.book.tiers;
    TenantsSettle(c, s3, apiKey);
    forall j
      ensures !Serves(c, s3.book.tiers, s3.tenants, j, apiKey)
    {
      assert Serves(c, s3.book.tiers, s3.tenants, j, apiKey) ==> Serves(c, s'.book.tiers, s.tenants, j, apiKey);
    }
  }

  lemma SettledTiers(c: Cluster, s: State)
    ensures PoliciesReconciled(Reconciled(c, s)).book.tiers == Reconciled(c, s).book.tiers
  {
    HalvesCommute(c, PoliciesReconciled(s));
    PoliciesRepeat(s);
  }

  // ---- Skipped events ---------------------------------------------------------------

  /** The rulebook is what the cached policies say it should be. */
  ghost predicate Settled(s: State) {
    PoliciesReconciled(s) == s
  }

  ghost predicate SameOutcome(d: Desired, e: Desired) {
    && d.tiers == e.tiers
    && d.routes["*" := Route(d.defaultClass)] == e.routes["*" := Route(e.defaultClass)]
  }

  /** An event skipped for its generation leaves the rulebook right exactly when the object adds
      up to the same rulebook, or leaves no valid policy at all. */
  lemma SkipIsSoundIff(c: Cluster, s: State, key: string, p: PolicyObject)
    requires Settled(s) && Governed(s)
    requires key in s.policies && s.policies[key].generation == p.generation != 0
    ensures
      var s' := OnPolicy(c, s, false, key, p);
      && s'.book == s.book
      && (Settled(s') <==> !Governed(s') || SameOutcome(DesiredState(s.policies), DesiredState(s'.policies)))
  {
    var s' := OnPolicy(c, s, false, key, p);
    var d, e := DesiredState(s.policies), DesiredState(s'.policies);
    GovernedIff(s);
    GovernedIff(s');
    if Governed(s') {
      LiveTiers(s);
      if Settled(s') {
        LiveTiers(s');
        assert d.tiers == e.tiers;
      }
      if SameOutcome(d, e) {
        assert PoliciesReconciled(s').book == PoliciesReconciled(s).book;
      }
    }
  }

  /** No other event is skipped: one whose object is new, has a new generation or gives none is
      followed by a reconcile. */
  lemma OthersReconcile(c: Cluster, s: State, key: string, p: PolicyObject, t: TenantObject)
    ensures !(key in s.policies && s.policies[key].generation == p.generation != 0) ==>
              OnPolicy(c, s, false, key, p) == Reconciled(c, s.(policies := s.policies[key := p]))
    ensures !(key in s.tenants && s.tenants[key].generation == t.generation != 0) ==>
              OnTenant(c, s, false, key, t) == Reconciled(c, s.(tenants := s.tenants[key := t]))
  {
  }

  lemma LiveTiers(s: State)
    requires Settled(s) && Governed(s)
    ensures s.managedTiers == DesiredState(s.policies).tiers.Keys
    ensures forall n | n in DesiredState(s.policies).tiers ::
              n in s.book.tiers && s.book.tiers[n] == DesiredState(s.policies).tiers[n]
  {
    GovernedIff(s);
    var d := DesiredState(s.policies);
    forall n | n in d.tiers
      ensures n in s.book.tiers && s.book.tiers[n] == d.tiers[n]
    {
      assert n in PoliciesReconciled(s).book.tiers && PoliciesReconciled(s).book.tiers[n] == d.tiers[n];
    }
  }

  lemma {:induction false} SpecDecides(policies: map<string, PolicyObject>, others: map<string, PolicyObject>,
                                       keys: seq<string>)
    requires forall k | k in keys :: k in policies && k in others && policies[k].spec == others[k].spec
    ensures DesiredBy(policies, keys) == DesiredBy(others, keys)
  {
    if keys != [] {
      SpecDecides(policies, others, keys[..|keys| - 1]);
    }
  }

  /** The operator's own status write coming back: the generation and the spec are the ones it
      holds, and skipping it is safe. */
  lemma EchoIsHarmless(c: Cluster, s: State, key: string, p: PolicyObject)
    requires Settled(s) && Governed(s) && key in s.policies
    requires s.policies[key].generation == p.generation != 0 && p.spec == s.policies[key].spec
    ensures Settled(OnPolicy(c, s, false, key, p)) && OnPolicy(c, s, false, key, p).book == s.book
  {
    var s' := OnPolicy(c, s, false, key, p);
    assert s'.policies.Keys == s.policies.Keys;
    SpecDecides(s.policies, s'.policies, InOrder(s.policies.Keys));
    SkipIsSoundIff(c, s, key, p);
  }

  lemma StaleTier(s: State, key: string, q: PolicyObject, name: string)
    requires s.policies == map[key := q] && ValidPolicy(q.spec)
    requires name in q.spec.tiers && name in s.book.tiers && s.book.tiers[name] != q.spec.tiers[name]
    ensures !Settled(s)
  {
    OnePolicy(key, q);
    assert name in PoliciesReconciled(s).book.tiers && PoliciesReconciled(s).book.tiers[name] == q.spec.tiers[name];
  }

  lemma ManifestSkipped(c: Cluster, s: State, key: string, q: PolicyObject) returns (r: State)
    requires s.policies.Keys == {key} && s.policies[key].generation == q.generation != 0
    ensures r == s.(policies := map[key := q]) && OnPolicy(c, s, false, key, q) == r
  {
    r := s.(policies := map[key := q]);
    assert s.policies[key := q] == r.policies;
  }

  /** Not every such event is an echo.  An object deleted and made again while the watch was
      away carries generation 1 again; its new spec is cached and never applied. */
  lemma RecreationGoesUnseen(c: Cluster, s: State, key: string, p: PolicyObject, q: PolicyObject, name: string)
    requires s.policies == map[] && p.generation == q.generation == 1
    requires ValidPolicy(p.spec) && ValidPolicy(q.spec)
    requires name in p.spec.tiers && name in q.spec.tiers && p.spec.tiers[name] != q.spec.tiers[name]
    ensures
      var s1 := OnPolicy(c, s, false, key, p);
      var s2 := OnPolicy(c, s1, false, key, q);
      && s2.policies == map[key := q] && !Settled(s2)
      && name in s2.book.tiers && s2.book.tiers[name] == p.spec.tiers[name]
  {
    var r1 := ManifestArrives(c, s, key, p);
    OneManifest(c, r1, key, p);
    assert Reconciled(c, r1).policies.Keys == {key};
    var s2 := ManifestSkipped(c, Reconciled(c, r1), key, q);
    StaleTier(s2, key, q, name);
  }
}
