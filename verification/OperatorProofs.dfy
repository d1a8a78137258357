/** What reconciling guarantees, over one pass and over whole runs. */
module OperatorProofs {
  import opened Wrappers
  import opened Order
  import opened Policy
  import opened Operator

  // ---- The policy half as a function of the cache -----------------------------------

  /** Every route the fold has gathered names a known class. */
  ghost predicate RoutesKnown(routes: map<string, Route>) {
    forall r | r in routes :: routes[r].costClass != "" && ClassCost(routes[r].costClass).Some?
  }

  lemma {:induction false} AddRoutesKnown(routes: map<string, Route>, specs: seq<RouteSpec>)
    requires RoutesKnown(routes) && forall r | r in specs :: ValidRoute(r)
    ensures RoutesKnown(AddRoutes(routes, specs))
  {
    if specs != [] {
      AddRoutesKnown(routes, specs[..|specs| - 1]);
      assert specs[|specs| - 1] in specs;
    }
  }

  lemma {:induction false} DesiredKnown(policies: map<string, PolicyObject>, keys: seq<string>)
    requires forall k | k in keys :: k in policies
    ensures RoutesKnown(DesiredBy(policies, keys).routes)
    ensures ClassCost(DesiredBy(policies, keys).defaultClass).Some?
    ensures forall n | n in DesiredBy(policies, keys).tiers ::
              var t := DesiredBy(policies, keys).tiers[n];
              t.capacity > 0.0 && t.refillPerSecond > 0.0 && (t.monthlyQuota.Some? ==> t.monthlyQuota.value >= 0.0)
  {
    if keys != [] {
      var n := |keys| - 1;
      DesiredKnown(policies, keys[..n]);
      var p := policies[keys[n]].spec;
      if ValidPolicy(p) {
        AddRoutesKnown(DesiredBy(policies, keys[..n]).routes, p.routes);
      }
    }
  }

  /** A policy object that declares a tier, validly. */
  ghost predicate Declares(policies: map<string, PolicyObject>, k: string, name: string) {
    k in policies && ValidPolicy(policies[k].spec) && name in policies[k].spec.tiers
  }

  /** The last object in name order that declares it. */
  ghost predicate Wins(policies: map<string, PolicyObject>, k: string, name: string) {
    Declares(policies, k, name) && forall k' | Declares(policies, k', name) :: k' == k || Less(k', k)
  }

  ghost function LastDeclarer(policies: map<string, PolicyObject>, keys: seq<string>, name: string): (r: Option<string>)
    ensures r.Some? ==> r.value in keys && Declares(policies, r.value, name)
    ensures r.None? ==> forall k | k in keys :: !Declares(policies, k, name)
  {
    if keys == [] then None
    else if Declares(policies, keys[|keys| - 1], name) then Some(keys[|keys| - 1])
    else
      assert forall k :: k in keys <==> k in keys[..|keys| - 1] || k == keys[|keys| - 1];
      LastDeclarer(policies, keys[..|keys| - 1], name)
  }

  lemma {:induction false} DesiredEntry(policies: map<string, PolicyObject>, keys: seq<string>, name: string)
    requires forall k | k in keys :: k in policies
    ensures
      match LastDeclarer(policies, keys, name)
      case None => name !in DesiredBy(policies, keys).tiers
      case Some(k) => name in DesiredBy(policies, keys).tiers
                      && DesiredBy(policies, keys).tiers[name] == policies[k].spec.tiers[name]
  {
    if keys != [] {
      var n := |keys| - 1;
      DesiredEntry(policies, keys[..n], name);
    }
  }

  lemma {:induction false} LastIsGreatest(policies: map<string, PolicyObject>, keys: seq<string>, name: string)
    requires Sorted(keys) && LastDeclarer(policies, keys, name).Some?
    ensures forall k | k in keys && Declares(policies, k, name) ::
              k == LastDeclarer(policies, keys, name).value || Less(k, LastDeclarer(policies, keys, name).value)
  {
    var n := |keys| - 1;
    assert forall k :: k in keys <==> k in keys[..n] || k == keys[n];
    if !Declares(policies, keys[n], name) {
      LastIsGreatest(policies, keys[..n], name);
    }
  }

  /** Conflicts resolve by name: the desired tiers are exactly the validly declared ones, each
      as the alphabetically last object that declares it has it. */
  lemma LastDeclarerWins(policies: map<string, PolicyObject>, name: string)
    ensures name in DesiredState(policies).tiers <==> exists k :: Declares(policies, k, name)
    ensures name in DesiredState(policies).tiers ==>
              exists k :: Wins(policies, k, name) && DesiredState(policies).tiers[name] == policies[k].spec.tiers[name]
  {
    var keys := InOrder(policies.Keys);
    DesiredEntry(policies, keys, name);
    match LastDeclarer(policies, keys, name)
    case None =>
    case Some(k) =>
      LastIsGreatest(policies, keys, name);
      assert Wins(policies, k, name);
  }

  /** Some valid policy is cached, which is what it takes for a reconcile to act. */
  ghost predicate Governed(s: State) {
    exists k :: k in s.policies && ValidPolicy(s.policies[k].spec)
  }

  lemma GovernedIff(s: State)
    ensures Governed(s) <==> DesiredState(s.policies).tiers != map[]
  {
    var d := DesiredState(s.policies);
    if Governed(s) {
      var k :| k in s.policies && ValidPolicy(s.policies[k].spec);
      var name :| name in s.policies[k].spec.tiers;
      LastDeclarerWins(s.policies, name);
      assert Declares(s.policies, k, name);
    }
    if d.tiers != map[] {
      var name :| name in d.tiers;
      LastDeclarerWins(s.policies, name);
    }
  }

  /** A reconcile with at least one valid policy: the live tiers are the desired ones over the
      old ones less what was managed and is declared no more; the operator manages exactly
      what is declared; what it never declared is untouched.  Without one, nothing moves. */
  lemma ReconcileSettles(c: Cluster, s: State)
    ensures
      var d, s' := DesiredState(s.policies), Reconciled(c, s);
      && (Governed(s) ==>
            && s'.managedTiers == d.tiers.Keys
            && s'.book.tiers.Keys == (s.book.tiers.Keys - s.managedTiers) + d.tiers.Keys
            && (forall n | n in d.tiers :: n in s'.book.tiers && s'.book.tiers[n] == d.tiers[n])
            && (forall n | n !in d.tiers && n !in s.managedTiers ::
                  (n in s'.book.tiers <==> n in s.book.tiers)
                  && (n in s.book.tiers ==> s'.book.tiers[n] == s.book.tiers[n]))
            && s'.book.tiers != map[])
      && (!Governed(s) ==> s'.book.tiers == s.book.tiers && s'.book.routes == s.book.routes && s'.managedTiers == s.managedTiers)
  {
    GovernedIff(s);
    var d := DesiredState(s.policies);
    if Governed(s) {
      var n :| n in d.tiers;
      assert n in Reconciled(c, s).book.tiers;
    }
  }

  /** The class a list of routes gives a path: its last word on it. */
  function LastClass(specs: seq<RouteSpec>, path: string): Option<string> {
    if specs == [] then None
    else if specs[|specs| - 1].path == path then Some(specs[|specs| - 1].costClass)
    else LastClass(specs[..|specs| - 1], path)
  }

  /** The class the objects give a path: the last valid one that prices it decides. */
  function PathClass(policies: map<string, PolicyObject>, keys: seq<string>, path: string): Option<string>
    requires forall k | k in keys :: k in policies
  {
    if keys == [] then None
    else
      var n := |keys| - 1;
      var p := policies[keys[n]].spec;
      if ValidPolicy(p) && LastClass(p.routes, path).Some? then LastClass(p.routes, path)
      else PathClass(policies, keys[..n], path)
  }

  /** The class for everything else: the last valid one that names it, else light. */
  function OtherClass(policies: map<string, PolicyObject>, keys: seq<string>): string
    requires forall k | k in keys :: k in policies
  {
    if keys == [] then "light"
    else
      var n := |keys| - 1;
      var p := policies[keys[n]].spec;
      if ValidPolicy(p) && p.defaultCostClass != "" then p.defaultCostClass else OtherClass(policies, keys[..n])
  }

  lemma {:induction false} RouteAdded(routes: map<string, Route>, specs: seq<RouteSpec>, path: string)
    ensures
      var r := AddRoutes(routes, specs);
      match LastClass(specs, path)
      case Some(class_) => path in r && r[path] == Route(class_)
      case None => (path in r <==> path in routes) && (path in routes ==> r[path] == routes[path])
  {
    if specs != [] {
      RouteAdded(routes, specs[..|specs| - 1], path);
    }
  }

  lemma {:induction false} DesiredRoute(policies: map<string, PolicyObject>, keys: seq<string>, path: string)
    requires forall k | k in keys :: k in policies
    ensures
      match PathClass(policies, keys, path)
      case Some(class_) => path in DesiredBy(policies, keys).routes && DesiredBy(policies, keys).routes[path] == Route(class_)
      case None => path !in DesiredBy(policies, keys).routes
    ensures DesiredBy(policies, keys).defaultClass == OtherClass(policies, keys)
  {
    if keys != [] {
      var n := |keys| - 1;
      DesiredRoute(policies, keys[..n], path);
      var p := policies[keys[n]].spec;
      if ValidPolicy(p) {
        RouteAdded(DesiredBy(policies, keys[..n]).routes, p.routes, path);
      }
    }
  }

  /** The route table after a reconcile with at least one valid policy, path by path: the last valid
      object that prices a path decides; nothing else is left of the old table; and the wildcard is
      the default class, even where a manifest prices "*" itself. */
  lemma RoutesSettle(c: Cluster, s: State, path: string)
    requires Governed(s)
    ensures
      var routes, keys := Reconciled(c, s).book.routes, InOrder(s.policies.Keys);
      && "*" in routes && routes["*"] == Route(OtherClass(s.policies, keys))
      && (path != "*" ==>
            match PathClass(s.policies, keys, path)
            case Some(class_) => path in routes && routes[path] == Route(class_)
            case None => path !in routes)
  {
    GovernedIff(s);
    DesiredRoute(s.policies, InOrder(s.policies.Keys), path);
  }

  // ---- The tenant half --------------------------------------------------------------

  /** Object k is served under this key. */
  ghost predicate Serves(c: Cluster, tiers: map<string, Tier>, objects: map<string, TenantObject>, k: string,
                         apiKey: string) {
    k in objects && ResolveKey(c, objects[k]) == Some(apiKey) && objects[k].spec.tier in tiers
  }

  /** The id a key ends up with: the last one given for it, else the one it had. */
  function FinalId(c: Cluster, tiers: map<string, Tier>, tenants: map<string, Tenant>, objects: map<string, TenantObject>,
                   keys: seq<string>, apiKey: string): string
    requires forall k | k in keys :: k in objects
  {
    if keys == [] then BoundId(tenants, apiKey)
    else
      var n := |keys| - 1;
      var t := objects[keys[n]];
      if ResolveKey(c, t) == Some(apiKey) && t.spec.tier in tiers && t.spec.tenantId != "" then t.spec.tenantId
      else FinalId(c, tiers, tenants, objects, keys[..n], apiKey)
  }

  /** The last object, in the order given, served under a key. */
  function FinalOwner(c: Cluster, tiers: map<string, Tier>, objects: map<string, TenantObject>, keys: seq<string>,
                      apiKey: string): (r: Option<string>)
    requires forall k | k in keys :: k in objects
    ensures r.Some? ==> r.value in keys && Serves(c, tiers, objects, r.value, apiKey)
    ensures r.None? ==> forall k | k in keys :: !Serves(c, tiers, objects, k, apiKey)
  {
    if keys == [] then None
    else
      var n := |keys| - 1;
      assert forall k :: k in keys <==> k in keys[..n] || k == keys[n];
      if ResolveKey(c, objects[keys[n]]) == Some(apiKey) && objects[keys[n]].spec.tier in tiers then Some(keys[n])
      else FinalOwner(c, tiers, objects, keys[..n], apiKey)
  }

  /** Key by key, what serving every object in order leaves behind. */
  lemma {:induction false} ServedEntry(c: Cluster, tiers: map<string, Tier>, tenants: map<string, Tenant>,
                                       objects: map<string, TenantObject>, keys: seq<string>, apiKey: string)
    requires forall k | k in keys :: k in objects
    ensures
      var v := ServeAll(c, tiers, Serving(tenants, map[]), objects, keys);
      match FinalOwner(c, tiers, objects, keys, apiKey)
      case None => apiKey !in v.seen && (apiKey in v.tenants <==> apiKey in tenants)
                   && (apiKey in tenants ==> v.tenants[apiKey] == tenants[apiKey])
      case Some(k) => apiKey in v.seen && v.seen[apiKey] == k && apiKey in v.tenants
                      && v.tenants[apiKey] == Tenant(FinalId(c, tiers, tenants, objects, keys, apiKey), objects[k].spec.tier)
  {
    if keys != [] {
      var n := |keys| - 1;
      ServedEntry(c, tiers, tenants, objects, keys[..n], apiKey);
      FinalIdUnserved(c, tiers, tenants, objects, keys[..n], apiKey);
    }
  }

  lemma {:induction false} FinalIdUnserved(c: Cluster, tiers: map<string, Tier>, tenants: map<string, Tenant>,
                                           objects: map<string, TenantObject>, keys: seq<string>, apiKey: string)
    requires forall k | k in keys :: k in objects
    ensures FinalOwner(c, tiers, objects, keys, apiKey).None? ==>
              FinalId(c, tiers, tenants, objects, keys, apiKey) == BoundId(tenants, apiKey)
    ensures apiKey != "" ==> FinalId(c, tiers, tenants, objects, keys, apiKey) != ""
    ensures FinalId(c, tiers, tenants, objects, keys, apiKey) == "" ==>
              FinalId(c, tiers, tenants, objects, keys, apiKey) == BoundId(tenants, apiKey)
  {
    if keys != [] {
      var n := |keys| - 1;
      FinalIdUnserved(c, tiers, tenants, objects, keys[..n], apiKey);
    }
  }

  lemma {:induction false} OwnerIsGreatest(c: Cluster, tiers: map<string, Tier>, objects: map<string, TenantObject>,
                                           keys: seq<string>, apiKey: string)
    requires forall k | k in keys :: k in objects
    requires Sorted(keys) && FinalOwner(c, tiers, objects, keys, apiKey).Some?
    ensures forall k | k in keys && Serves(c, tiers, objects, k, apiKey) ::
              k == FinalOwner(c, tiers, objects, keys, apiKey).value
              || Less(k, FinalOwner(c, tiers, objects, keys, apiKey).value)
  {
    var n := |keys| - 1;
    assert forall k :: k in keys <==> k in keys[..n] || k == keys[n];
    if !Serves(c, tiers, objects, keys[n], apiKey) {
      OwnerIsGreatest(c, tiers, objects, keys[..n], apiKey);
    }
  }

  /** The object that owns a key: of those that serve it, the last by name. */
  ghost predicate Owns(c: Cluster, tiers: map<string, Tier>, objects: map<string, TenantObject>, k: string, apiKey: string) {
    && Serves(c, tiers, objects, k, apiKey)
    && forall k' | Serves(c, tiers, objects, k', apiKey) :: k' == k || Less(k', k)
  }

  ghost function Final(c: Cluster, s: State, apiKey: string): string {
    FinalId(c, s.book.tiers, s.book.tenants, s.tenants, InOrder(s.tenants.Keys), apiKey)
  }

  /** The tenant half, key by key: a key is managed exactly when some object serves it, by
      the object that owns it; a managed key is live on its owner's tier; a key that was managed
      and is served no more is dead; every other key is as it was. */
  lemma TenantsSettle(c: Cluster, s: State, apiKey: string)
    ensures
      var s' := TenantsReconciled(c, s);
      && (apiKey in s'.managedKeys <==> exists k :: Serves(c, s.book.tiers, s.tenants, k, apiKey))
      && (apiKey in s'.managedKeys ==>
            && Owns(c, s.book.tiers, s.tenants, s'.managedKeys[apiKey], apiKey)
            && apiKey in s'.book.tenants
            && s'.book.tenants[apiKey] == Tenant(Final(c, s, apiKey), s.tenants[s'.managedKeys[apiKey]].spec.tier))
      && (apiKey in s.managedKeys && apiKey !in s'.managedKeys ==> apiKey !in s'.book.tenants)
      && (apiKey !in s.managedKeys && apiKey !in s'.managedKeys ==>
            (apiKey in s'.book.tenants <==> apiKey in s.book.tenants)
            && (apiKey in s.book.tenants ==> s'.book.tenants[apiKey] == s.book.tenants[apiKey]))
  {
    var keys := InOrder(s.tenants.Keys);
    ServedEntry(c, s.book.tiers, s.book.tenants, s.tenants, keys, apiKey);
    if FinalOwner(c, s.book.tiers, s.tenants, keys, apiKey).Some? {
      OwnerIsGreatest(c, s.book.tiers, s.tenants, keys, apiKey);
    }
  }

  lemma {:induction false} FinalIdRepeats(c: Cluster, tiers: map<string, Tier>, was: map<string, Tenant>,
                                          now: map<string, Tenant>, objects: map<string, TenantObject>, keys: seq<string>,
                                          apiKey: string)
    requires forall k | k in keys :: k in objects
    ensures FinalId(c, tiers, was, objects, keys, apiKey) == FinalId(c, tiers, now, objects, keys, apiKey)
            || (FinalId(c, tiers, was, objects, keys, apiKey) == BoundId(was, apiKey)
                && FinalId(c, tiers, now, objects, keys, apiKey) == BoundId(now, apiKey))
  {
    if keys != [] {
      FinalIdRepeats(c, tiers, was, now, objects, keys[..|keys| - 1], apiKey);
    }
  }

  lemma FinalRepeats(c: Cluster, s: State, apiKey: string)
    requires apiKey in TenantsReconciled(c, s).managedKeys
    ensures Final(c, TenantsReconciled(c, s), apiKey) == Final(c, s, apiKey)
  {
    var s', keys := TenantsReconciled(c, s), InOrder(s.tenants.Keys);
    TenantsSettle(c, s, apiKey);
    FinalIdRepeats(c, s.book.tiers, s.book.tenants, s'.book.tenants, s.tenants, keys, apiKey);
    FinalIdUnserved(c, s.book.tiers, s.book.tenants, s.tenants, keys, apiKey);
  }

  lemma OwnerUnique(c: Cluster, tiers: map<string, Tier>, objects: map<string, TenantObject>, k: string, j: string,
                    apiKey: string)
    requires Owns(c, tiers, objects, k, apiKey) && Owns(c, tiers, objects, j, apiKey)
    ensures k == j
  {
    if k != j {
      LessTransitive(k, j, k);
      LessIrreflexive(k);
    }
  }

  lemma TenantsRepeat(c: Cluster, s: State)
    ensures TenantsReconciled(c, TenantsReconciled(c, s)) == TenantsReconciled(c, s)
  {
    var s1 := TenantsReconciled(c, s);
    var s2 := TenantsReconciled(c, s1);
    forall k
      ensures k in s1.managedKeys <==> k in s2.managedKeys
      ensures k in s1.managedKeys ==> s1.managedKeys[k] == s2.managedKeys[k]
      ensures k in s1.book.tenants <==> k in s2.book.tenants
      ensures k in s1.book.tenants ==> s1.book.tenants[k] == s2.book.tenants[k]
    {
      TenantsSettle(c, s, k);
      TenantsSettle(c, s1, k);
      if k in s1.managedKeys {
        FinalRepeats(c, s, k);
        OwnerUnique(c, s.book.tiers, s.tenants, s1.managedKeys[k], s2.managedKeys[k], k);
      }
    }
    assert s1.managedKeys == s2.managedKeys;
    assert s1.book.tenants == s2.book.tenants;
  }

  lemma PoliciesRepeat(s: State)
    ensures PoliciesReconciled(PoliciesReconciled(s)) == PoliciesReconciled(s)
  {
    var d, s1 := DesiredState(s.policies), PoliciesReconciled(s);
    if d.tiers != map[] {
      assert s1.book.tiers - (s1.managedTiers - d.tiers.Keys) + d.tiers == s1.book.tiers;
    }
  }

  /** The halves do not step on each other. */
  lemma HalvesCommute(c: Cluster, s: State)
    ensures PoliciesReconciled(TenantsReconciled(c, s)).book.tiers == PoliciesReconciled(s).book.tiers
    ensures PoliciesReconciled(TenantsReconciled(c, s))
            == TenantsReconciled(c, s).(managedTiers := PoliciesReconciled(s).managedTiers,
                 book := PoliciesReconciled(s).book.(tenants := TenantsReconciled(c, s).book.tenants))
  {
  }

  /** Level-triggered: a second reconcile of the same cache and the same Secrets does nothing. */
  lemma ReconcileIdempotent(c: Cluster, s: State)
    ensures Reconciled(c, Reconciled(c, s)) == Reconciled(c, s)
  {
    var s1 := PoliciesReconciled(s);
    HalvesCommute(c, s1);
    PoliciesRepeat(s);
    assert PoliciesReconciled(TenantsReconciled(c, s1)) == TenantsReconciled(c, s1);
    TenantsRepeat(c, s1);
  }
}
