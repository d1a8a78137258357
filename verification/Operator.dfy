/** The operator (internal/operator/operator.go): a cache of Kubernetes objects, and a
    reconcile that makes the live rulebook match all of it.  One reconcile is one step: the
    snapshot it takes of the cache is the cache it applies.  */
module Operator {
  import opened Wrappers
  import opened Order
  import opened Policy

  // ---- The objects ------------------------------------------------------------------

  datatype RouteSpec = RouteSpec(path: string, costClass: string)

  datatype PolicySpec = PolicySpec(tiers: map<string, Tier>, routes: seq<RouteSpec>, defaultCostClass: string)

  datatype PolicyObject = PolicyObject(generation: int, spec: PolicySpec)

  datatype SecretRef = SecretRef(name: string, key: string)

  datatype TenantSpec = TenantSpec(tenantId: string, tier: string, secretRef: Option<SecretRef>, apiKey: string)

  datatype TenantObject = TenantObject(generation: int, namespace: string, spec: TenantSpec)

  datatype Secret = Secret(stringData: map<string, string>, data: map<string, string>)

  /** What a reconcile reads besides its cache.  `read` answers None for a Secret that is
      missing, unreadable or malformed; `decode` is base64. */
  datatype Cluster = Cluster(
    namespace: string,
    read: (string, string) -> Option<Secret>,
    decode: string -> Option<string>)

  /** The operator's fields, with the rulebook it drives. */
  datatype State = State(
    policies: map<string, PolicyObject>,
    tenants: map<string, TenantObject>,
    managedTiers: set<string>,
    managedKeys: map<string, string>,
    book: Book)

  // ---- Policies ---------------------------------------------------------------------

  predicate ValidTier(t: Tier) {
    t.capacity > 0.0 && t.refillPerSecond > 0.0 && (t.monthlyQuota.Some? ==> t.monthlyQuota.value >= 0.0)
  }

  predicate ValidRoute(r: RouteSpec) {
    r.path != "" && ClassCost(r.costClass).Some?
  }

  /** validatePolicy found no problem. */
  predicate ValidPolicy(p: PolicySpec) {
    && p.tiers != map[]
    && (forall n | n in p.tiers :: ValidTier(p.tiers[n]))
    && (forall r | r in p.routes :: ValidRoute(r))
    && (p.defaultCostClass == "" || ClassCost(p.defaultCostClass).Some?)
  }

  datatype Desired = Desired(tiers: map<string, Tier>, routes: map<string, Route>, defaultClass: string)

  function AddRoutes(routes: map<string, Route>, specs: seq<RouteSpec>): map<string, Route> {
    if specs == [] then routes
    else
      var last := specs[|specs| - 1];
      AddRoutes(routes, specs[..|specs| - 1])[last.path := Route(last.costClass)]
  }

  /** One more policy laid over what the earlier ones declared; an invalid one is skipped. */
  function Overlay(d: Desired, p: PolicySpec): Desired {
    if !ValidPolicy(p) then d
    else Desired(d.tiers + p.tiers, AddRoutes(d.routes, p.routes),
                 if p.defaultCostClass != "" then p.defaultCostClass else d.defaultClass)
  }

  function DesiredBy(policies: map<string, PolicyObject>, keys: seq<string>): Desired
    requires forall k | k in keys :: k in policies
  {
    if keys == [] then Desired(map[], map[], "light")
    else
      var n := |keys| - 1;
      Overlay(DesiredBy(policies, keys[..n]), policies[keys[n]].spec)
  }

  /** What the cached policies add up to, read in name order. */
  ghost function DesiredState(policies: map<string, PolicyObject>): Desired {
    DesiredBy(policies, InOrder(policies.Keys))
  }

  /** The policy half of a reconcile, as a function. */
  ghost function PoliciesReconciled(s: State): State {
    var d := DesiredState(s.policies);
    if d.tiers == map[] then s
    else
      s.(managedTiers := d.tiers.Keys,
         book := s.book.(tiers := (s.book.tiers - (s.managedTiers - d.tiers.Keys)) + d.tiers,
                         routes := d.routes["*" := Route(d.defaultClass)]))
  }

  // ---- Tenants ----------------------------------------------------------------------

  predicate Space(c: char) {
    c == ' ' || c == '\t' || c == '\n' || c == '\r' || c == '\U{0B}' || c == '\U{0C}'
  }

  function TrimSpace(s: string): string {
    if s == "" then s
    else if Space(s[0]) then TrimSpace(s[1..])
    else if Space(s[|s| - 1]) then TrimSpace(s[..|s| - 1])
    else s
  }

  /** The credential of a tenant, from its Secret or inline. */
  function ResolveKey(c: Cluster, t: TenantObject): Option<string> {
    match t.spec.secretRef
    case Some(ref) =>
      (match c.read(if t.namespace == "" then c.namespace else t.namespace, ref.name)
       case None => None
       case Some(sec) =>
         if ref.key in sec.stringData && sec.stringData[ref.key] != ""
         then Some(TrimSpace(sec.stringData[ref.key]))
         else if ref.key !in sec.data then None
         else
           match c.decode(sec.data[ref.key])
           case None => None
           case Some(plain) => if TrimSpace(plain) == "" then None else Some(TrimSpace(plain)))
    case None => if t.spec.apiKey != "" then Some(t.spec.apiKey) else None
  }

  datatype Serving = Serving(tenants: map<string, Tenant>, seen: map<string, string>)

  /** One tenant object: served if its key resolves and its tier is live. */
  function ServeOne(c: Cluster, tiers: map<string, Tier>, v: Serving, owner: string, t: TenantObject): Serving {
    match ResolveKey(c, t)
    case None => v
    case Some(apiKey) =>
      if t.spec.tier !in tiers then v
      else Serving(Bind(v.tenants, apiKey, t.spec.tier, t.spec.tenantId), v.seen[apiKey := owner])
  }

  function ServeAll(c: Cluster, tiers: map<string, Tier>, v: Serving, objects: map<string, TenantObject>,
                    keys: seq<string>): Serving
    requires forall k | k in keys :: k in objects
  {
    if keys == [] then v
    else
      var n := |keys| - 1;
      ServeOne(c, tiers, ServeAll(c, tiers, v, objects, keys[..n]), keys[n], objects[keys[n]])
  }

  /** The tenant half of a reconcile: serve what is declared, revoke what no longer is. */
  ghost function TenantsReconciled(c: Cluster, s: State): State {
    var v := ServeAll(c, s.book.tiers, Serving(s.book.tenants, map[]), s.tenants, InOrder(s.tenants.Keys));
    s.(managedKeys := v.seen,
       book := s.book.(tenants := v.tenants - (s.managedKeys.Keys - v.seen.Keys)))
  }

  ghost function Reconciled(c: Cluster, s: State): State {
    TenantsReconciled(c, PoliciesReconciled(s))
  }

  /** A tenant is going away: offboard its site, and stop managing its keys. */
  ghost function Revoked(s: State, tenantId: string, owner: string): State {
    if tenantId == "" then s
    else
      s.(managedKeys := map k | k in s.managedKeys && s.managedKeys[k] != owner :: s.managedKeys[k],
         book := s.book.(tenants := Offboard(s.book.tenants, tenantId)))
  }

  // ---- Watch events -----------------------------------------------------------------

  /** The same spec by its generation, which only counts spec edits; zero means none given. */
  predicate SameGeneration(held: int, coming: int) {
    held == coming && coming != 0
  }

  ghost function OnPolicy(c: Cluster, s: State, deleted: bool, key: string, p: PolicyObject): State {
    if deleted then Reconciled(c, s.(policies := s.policies - {key}))
    else if key in s.policies && SameGeneration(s.policies[key].generation, p.generation) then
      s.(policies := s.policies[key := p])
    else Reconciled(c, s.(policies := s.policies[key := p]))
  }

  /** `gone` covers an object held open by its finalizer as well as a deleted one. */
  ghost function OnTenant(c: Cluster, s: State, gone: bool, key: string, t: TenantObject): State {
    if gone then Revoked(s.(tenants := s.tenants - {key}), t.spec.tenantId, key)
    else if key in s.tenants && SameGeneration(s.tenants[key].generation, t.generation) then
      s.(tenants := s.tenants[key := t])
    else Reconciled(c, s.(tenants := s.tenants[key := t]))
  }

  // ---- The operator itself ----------------------------------------------------------

  class Controller {
    const rulebook: Rulebook
    var policies: map<string, PolicyObject>
    var tenants: map<string, TenantObject>
    var managedTiers: set<string>
    var managedKeys: map<string, string>

    constructor (rulebook: Rulebook)
      ensures this.rulebook == rulebook
      ensures View() == State(map[], map[], {}, map[], rulebook.View())
    {
      this.rulebook := rulebook;
      policies, tenants, managedTiers, managedKeys := map[], map[], {}, map[];
    }

    function View(): State
      reads this, rulebook
    {
      State(policies, tenants, managedTiers, managedKeys, rulebook.View())
    }

    method Reconcile(c: Cluster)
      modifies this, rulebook
      ensures View() == Reconciled(c, old(View()))
    {
      ReconcilePolicies();
      ReconcileTenants(c);
    }

    /** Put what is declared, then withdraw what is not, then swap the routes.  The
        rulebook's refusal to drop its last tier never gets in the way. */
    method ReconcilePolicies()
      modifies this, rulebook
      ensures View() == PoliciesReconciled(old(View()))
    {
      if policies == map[] {
        return;
      }
      var desired := ComputeDesired(policies);
      if desired.tiers == map[] {
        return;
      }
      ghost var live, managed := rulebook.tiers, managedTiers;
      PutTiers(desired.tiers);
      WithdrawTiers(desired.tiers);
      PutThenWithdraw(live, managed, desired.tiers);
      rulebook.SetRoutes(desired.routes["*" := Route(desired.defaultClass)]);
    }

    method PutTiers(desired: map<string, Tier>)
      modifies this`managedTiers, rulebook`tiers
      ensures managedTiers == old(managedTiers) + desired.Keys
      ensures rulebook.tiers == old(rulebook.tiers) + desired
    {
      ghost var start, mine, done := rulebook.tiers, managedTiers, {};
      var todo := desired.Keys;
      PutNone(start, desired);
      while todo != {}
        invariant todo == desired.Keys - done && done <= desired.Keys
        invariant rulebook.tiers == Put(start, desired, done)
        invariant managedTiers == mine + done
        decreases todo
      {
        var name :| name in todo;
        PutOne(start, desired, done, name);
        rulebook.PutTier(name, desired[name]);
        managedTiers := managedTiers + {name};
        todo := todo - {name};
        done := done + {name};
      }
      assert done == desired.Keys;
      PutAll(start, desired, done);
    }

    method WithdrawTiers(desired: map<string, Tier>)
      requires desired != map[] && desired.Keys <= managedTiers && desired.Keys <= rulebook.tiers.Keys
      modifies this`managedTiers, rulebook`tiers
      ensures managedTiers == desired.Keys
      ensures rulebook.tiers == old(rulebook.tiers) - (old(managedTiers) - desired.Keys)
    {
      var todo := managedTiers;
      ghost var before := managedTiers;
      while todo != {}
        invariant todo <= managedTiers && desired.Keys <= managedTiers
        invariant managedTiers - todo <= desired.Keys
        invariant managedTiers <= before
        invariant rulebook.tiers == old(rulebook.tiers) - (before - managedTiers)
        decreases todo
      {
        var name :| name in todo;
        todo := todo - {name};
        if name !in desired {
          var kept :| kept in desired;
          NotLast(rulebook.tiers, name, kept);
          var _ := rulebook.RemoveTier(name);
          managedTiers := managedTiers - {name};
        }
      }
    }

    method ReconcileTenants(c: Cluster)
      modifies this`managedKeys, rulebook`tenants
      ensures View() == TenantsReconciled(c, old(View()))
    {
      var keys := SortNames(tenants.Keys);
      var seen := ServeTenants(c, keys);
      RevokeUnseen(seen);
    }

    /** Serve every object in turn; `seen` remembers which object each key came from. */
    method ServeTenants(c: Cluster, keys: seq<string>) returns (seen: map<string, string>)
      requires forall k | k in keys :: k in tenants
      modifies rulebook`tenants
      ensures Serving(rulebook.tenants, seen)
              == ServeAll(c, rulebook.tiers, Serving(old(rulebook.tenants), map[]), tenants, keys)
    {
      seen := map[];
      ghost var start := Serving(rulebook.tenants, map[]);
      for i := 0 to |keys|
        invariant Serving(rulebook.tenants, seen) == ServeAll(c, rulebook.tiers, start, tenants, keys[..i])
      {
        ServeNext(c, rulebook.tiers, start, tenants, keys, i);
        seen := ServeObject(c, keys[i], tenants[keys[i]], seen);
      }
      assert keys[..|keys|] == keys;
    }

    method ServeObject(c: Cluster, owner: string, t: TenantObject, before: map<string, string>)
      returns (seen: map<string, string>)
      modifies rulebook`tenants
      ensures Serving(rulebook.tenants, seen)
              == ServeOne(c, rulebook.tiers, Serving(old(rulebook.tenants), before), owner, t)
    {
      seen := before;
      var apiKey := ResolveKey(c, t);
      if apiKey.Some? && t.spec.tier in rulebook.tiers {
        rulebook.SetTier(apiKey.value, t.spec.tier, t.spec.tenantId);
        seen := seen[apiKey.value := owner];
      }
    }

    /** Revoke every managed key that nothing declared this time, and own what was. */
    method RevokeUnseen(seen: map<string, string>)
      modifies this`managedKeys, rulebook`tenants
      ensures managedKeys == seen
      ensures rulebook.tenants == old(rulebook.tenants) - (old(managedKeys).Keys - seen.Keys)
    {
      ghost var live, mine, gone := rulebook.tenants, managedKeys, {};
      var todo := managedKeys.Keys;
      WithoutOne(live, {}, "");
      WithoutOne(mine, {}, "");
      while todo != {}
        invariant todo <= mine.Keys && gone == (mine.Keys - todo) - seen.Keys
        invariant managedKeys == Without(mine, gone)
        invariant rulebook.tenants == Without(live, gone)
        decreases todo
      {
        var apiKey :| apiKey in todo;
        todo := todo - {apiKey};
        if apiKey !in seen {
          WithoutOne(live, gone, apiKey);
          WithoutOne(mine, gone, apiKey);
          if apiKey in rulebook.tenants {
            rulebook.DeleteTenant(apiKey);
          }
          managedKeys := managedKeys - {apiKey};
          gone := gone + {apiKey};
        }
      }
      managedKeys := managedKeys + seen;
      assert managedKeys == seen;
    }

    method RevokeTenant(tenantId: string, owner: string)
      modifies this`managedKeys, rulebook`tenants
      ensures View() == Revoked(old(View()), tenantId, owner)
    {
      if tenantId == "" {
        return;
      }
      var _ := rulebook.RemoveByTenantId(tenantId);
      managedKeys := map k | k in managedKeys && managedKeys[k] != owner :: managedKeys[k];
    }

    method OnPolicyEvent(c: Cluster, deleted: bool, key: string, p: PolicyObject)
      modifies this, rulebook
      ensures View() == OnPolicy(c, old(View()), deleted, key, p)
    {
      if deleted {
        policies := policies - {key};
      } else {
        if key in policies && SameGeneration(policies[key].generation, p.generation) {
          policies := policies[key := p];
          return;
        }
        policies := policies[key := p];
      }
      Reconcile(c);
    }

    method OnTenantEvent(c: Cluster, gone: bool, key: string, t: TenantObject)
      modifies this, rulebook
      ensures View() == OnTenant(c, old(View()), gone, key, t)
    {
      if gone {
        tenants := tenants - {key};
        RevokeTenant(t.spec.tenantId, key);
        return;
      }
      if key in tenants && SameGeneration(tenants[key].generation, t.generation) {
        tenants := tenants[key := t];
        return;
      }
      tenants := tenants[key := t];
      Reconcile(c);
    }
  }

  lemma ServeNext(c: Cluster, tiers: map<string, Tier>, v: Serving, objects: map<string, TenantObject>, keys: seq<string>,
                  i: nat)
    requires i < |keys| && forall k | k in keys :: k in objects
    ensures ServeAll(c, tiers, v, objects, keys[..i + 1])
            == ServeOne(c, tiers, ServeAll(c, tiers, v, objects, keys[..i]), keys[i], objects[keys[i]])
  {
    assert keys[..i + 1][..i] == keys[..i];
  }

  lemma DesiredNext(policies: map<string, PolicyObject>, keys: seq<string>, i: nat)
    requires i < |keys| && forall k | k in keys :: k in policies
    ensures DesiredBy(policies, keys[..i + 1]) == Overlay(DesiredBy(policies, keys[..i]), policies[keys[i]].spec)
  {
    assert keys[..i + 1][..i] == keys[..i];
  }

  lemma PutThenWithdraw(live: map<string, Tier>, managed: set<string>, desired: map<string, Tier>)
    ensures (live + desired) - ((managed + desired.Keys) - desired.Keys) == (live - (managed - desired.Keys)) + desired
  {
  }

  /** The tiers once the ones named in `done` have been put. */
  ghost function Put(start: map<string, Tier>, desired: map<string, Tier>, done: set<string>): map<string, Tier> {
    start + map n | n in desired && n in done :: desired[n]
  }

  lemma PutNone(start: map<string, Tier>, desired: map<string, Tier>)
    ensures Put(start, desired, {}) == start
  {
  }

  lemma PutOne(start: map<string, Tier>, desired: map<string, Tier>, done: set<string>, name: string)
    requires name in desired
    ensures Put(start, desired, done)[name := desired[name]] == Put(start, desired, done + {name})
  {
  }

  lemma PutAll(start: map<string, Tier>, desired: map<string, Tier>, done: set<string>)
    requires desired.Keys <= done
    ensures Put(start, desired, done) == start + desired
  {
  }

  /** The keys left once the ones in `gone` have been revoked. */
  ghost function Without<V>(start: map<string, V>, gone: set<string>): map<string, V> {
    start - gone
  }

  lemma WithoutOne<V>(start: map<string, V>, gone: set<string>, key: string)
    ensures Without(start, gone + {key}) == Without(start, gone) - {key}
    ensures Without(start, {}) == start
  {
  }

  /** A second tier is enough for the first one to be removable. */
  lemma NotLast(tiers: map<string, Tier>, name: string, kept: string)
    requires kept in tiers && kept != name
    ensures name in tiers ==> |tiers| != 1
  {
    if name in tiers {
      assert {name, kept} <= tiers.Keys && |{name, kept}| == 2;
      Cardinality({name, kept}, tiers.Keys);
    }
  }

  lemma {:induction false} Cardinality(a: set<string>, b: set<string>)
    requires a <= b
    ensures |a| <= |b|
  {
    if a != {} {
      var x :| x in a;
      Cardinality(a - {x}, b - {x});
    }
  }

  method PriceRoutes(routes: map<string, Route>, specs: seq<RouteSpec>) returns (r: map<string, Route>)
    ensures r == AddRoutes(routes, specs)
  {
    r := routes;
    for j := 0 to |specs|
      invariant r == AddRoutes(routes, specs[..j])
    {
      assert specs[..j + 1][..j] == specs[..j];
      r := r[specs[j].path := Route(specs[j].costClass)];
    }
    assert specs[..|specs|] == specs;
  }

  /** What can be wrong with a policy. */
  datatype Problem =
    | NoTiers | NoCapacity(tier: string) | NeverRefills(tier: string) | NegativeQuota(tier: string)
    | NoPath | BadClass(costClass: string) | BadDefault

  ghost predicate TierWrong(tiers: map<string, Tier>, x: Problem) {
    match x
    case NoCapacity(n) => n in tiers && tiers[n].capacity <= 0.0
    case NeverRefills(n) => n in tiers && tiers[n].refillPerSecond <= 0.0
    case NegativeQuota(n) => n in tiers && tiers[n].monthlyQuota.Some? && tiers[n].monthlyQuota.value < 0.0
    case _ => false
  }

  ghost predicate RouteWrong(routes: seq<RouteSpec>, x: Problem) {
    match x
    case NoPath => exists r :: r in routes && r.path == ""
    case BadClass(c) => c !in {"light", "standard", "heavy"} && exists r :: r in routes && r.costClass == c
    case _ => false
  }

  ghost predicate Wrong(p: PolicySpec, x: Problem) {
    || (x == NoTiers && p.tiers == map[])
    || TierWrong(p.tiers, x)
    || RouteWrong(p.routes, x)
    || (x == BadDefault && p.defaultCostClass !in {"", "light", "standard", "heavy"})
  }

  /** All that is wrong with these tiers, and nothing else. */
  ghost predicate Reports(problems: seq<Problem>, tiers: map<string, Tier>, names: seq<string>) {
    forall x :: x in problems <==> TierWrong(tiers, x) && x.tier in names
  }

  lemma ReportsMore(problems: seq<Problem>, more: seq<Problem>, tiers: map<string, Tier>, names: seq<string>, i: nat)
    requires i < |names| && Reports(problems, tiers, names[..i]) && Reports(more, tiers, [names[i]])
    ensures Reports(problems + more, tiers, names[..i + 1])
  {
    assert names[..i + 1] == names[..i] + [names[i]];
  }

  lemma ReportsAll(problems: seq<Problem>, tiers: map<string, Tier>, names: seq<string>)
    requires Reports(problems, tiers, names) && forall n :: n in names <==> n in tiers
    ensures forall x :: x in problems <==> TierWrong(tiers, x)
  {
  }

  method TierProblems(tiers: map<string, Tier>, name: string) returns (problems: seq<Problem>)
    requires name in tiers
    ensures Reports(problems, tiers, [name])
  {
    problems := [];
    var t := tiers[name];
    if t.capacity <= 0.0 {
      problems := problems + [NoCapacity(name)];
    }
    if t.refillPerSecond <= 0.0 {
      problems := problems + [NeverRefills(name)];
    }
    if t.monthlyQuota.Some? && t.monthlyQuota.value < 0.0 {
      problems := problems + [NegativeQuota(name)];
    }
  }

  method TiersProblems(tiers: map<string, Tier>) returns (problems: seq<Problem>)
    ensures forall x :: x in problems <==> TierWrong(tiers, x)
  {
    problems := [];
    var names := SortNames(tiers.Keys);
    for i := 0 to |names|
      invariant Reports(problems, tiers, names[..i])
    {
      var more := TierProblems(tiers, names[i]);
      ReportsMore(problems, more, tiers, names, i);
      problems := problems + more;
    }
    assert names[..|names|] == names;
    ReportsAll(problems, tiers, names);
  }

  method RouteProblems(routes: seq<RouteSpec>) returns (problems: seq<Problem>)
    ensures forall x :: x in problems <==> RouteWrong(routes, x)
  {
    problems := [];
    for i := 0 to |routes|
      invariant forall x :: x in problems <==> RouteWrong(routes[..i], x)
    {
      assert routes[..i + 1] == routes[..i] + [routes[i]];
      if routes[i].path == "" {
        problems := problems + [NoPath];
      }
      if ClassCost(routes[i].costClass).None? {
        problems := problems + [BadClass(routes[i].costClass)];
      }
    }
    assert routes[..|routes|] == routes;
  }

  /** validatePolicy: everything that is wrong with a policy, and nothing else. */
  method ValidatePolicy(p: PolicySpec) returns (problems: seq<Problem>)
    ensures forall x :: x in problems <==> Wrong(p, x)
    ensures problems == [] <==> ValidPolicy(p)
  {
    problems := if p.tiers == map[] then [NoTiers] else [];
    var tierProblems := TiersProblems(p.tiers);
    var routeProblems := RouteProblems(p.routes);
    problems := problems + tierProblems + routeProblems;
    if p.defaultCostClass != "" && ClassCost(p.defaultCostClass).None? {
      problems := problems + [BadDefault];
    }
    ValidIff(p);
    assert problems != [] ==> problems[0] in problems;
  }

  /** A policy is valid exactly when nothing is wrong with it. */
  lemma ValidIff(p: PolicySpec)
    ensures ValidPolicy(p) <==> forall x :: !Wrong(p, x)
  {
    if forall x :: !Wrong(p, x) {
      assert !Wrong(p, NoTiers) && !Wrong(p, BadDefault);
      forall n | n in p.tiers
        ensures ValidTier(p.tiers[n])
      {
        assert !Wrong(p, NoCapacity(n)) && !Wrong(p, NeverRefills(n)) && !Wrong(p, NegativeQuota(n));
      }
      forall r | r in p.routes
        ensures ValidRoute(r)
      {
        assert !Wrong(p, NoPath) && !Wrong(p, BadClass(r.costClass));
      }
    }
  }

  method ApplyPolicy(d: Desired, p: PolicySpec) returns (r: Desired)
    ensures r == Overlay(d, p)
  {
    var problems := ValidatePolicy(p);
    if problems != [] {
      return d;
    }
    var routes := PriceRoutes(d.routes, p.routes);
    var defaultClass := d.defaultClass;
    if p.defaultCostClass != "" {
      defaultClass := p.defaultCostClass;
    }
    return Desired(d.tiers + p.tiers, routes, defaultClass);
  }

  /** The loop over the policies, in name order. */
  method ComputeDesired(policies: map<string, PolicyObject>) returns (d: Desired)
    ensures d == DesiredState(policies)
  {
    var keys := SortNames(policies.Keys);
    d := Desired(map[], map[], "light");
    for i := 0 to |keys|
      invariant d == DesiredBy(policies, keys[..i])
    {
      DesiredNext(policies, keys, i);
      d := ApplyPolicy(d, policies[keys[i]].spec);
    }
    assert keys[..|keys|] == keys;
  }
}
