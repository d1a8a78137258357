/** The rulebook (internal/policy/policy.go): tiers, routes and the tenants behind API keys. */
module Policy {
  import opened Wrappers

  datatype Tier = Tier(capacity: real, refillPerSecond: real, monthlyQuota: Option<real>)

  /** An empty cost class means the route does not name one. */
  datatype Route = Route(costClass: string)

  datatype Tenant = Tenant(tenantId: string, tier: string)

  /** Everything the rulebook holds, as a value. */
  datatype Book = Book(tiers: map<string, Tier>, routes: map<string, Route>, tenants: map<string, Tenant>)

  /** The tokens a request of a class spends, for the three classes there are. */
  function ClassCost(class_: string): Option<real> {
    if class_ == "light" then Some(1.0)
    else if class_ == "standard" then Some(2.0)
    else if class_ == "heavy" then Some(5.0)
    else None
  }

  /** An unlisted route, or one that names no class, is cheap; an unknown class is an error. */
  function ClassifyCost(route: Option<Route>): (r: Option<string>)
    ensures r.Some? ==> ClassCost(r.value).Some?
  {
    var class_ := if route.Some? && route.value.costClass != "" then route.value.costClass else "light";
    if ClassCost(class_).Some? then Some(class_) else None
  }

  /** The route's own entry, or the wildcard's. */
  function RouteFor(book: Book, route: string): Option<Route> {
    if route in book.routes then Some(book.routes[route])
    else if "*" in book.routes then Some(book.routes["*"])
    else None
  }

  /** Who is asking; a stranger gets a free tenant of its own, keyed by address. */
  function Identify(book: Book, apiKey: string, ip: string): Tenant {
    if apiKey != "" && apiKey in book.tenants then book.tenants[apiKey]
    else Tenant("anon:" + (if ip == "" then "unknown" else ip), "free")
  }

  datatype Plan = Plan(
    key: string,
    capacity: real,
    refillRatePerMs: real,
    cost: real,
    costClass: string,
    monthlyQuota: Option<real>,
    monthlyKey: string)

  /** One jar per tenant, tier and route. */
  function JarKey(tenantId: string, tier: string, route: string): string {
    tenantId + Suffix(tier, route)
  }

  function Suffix(tier: string, route: string): string {
    ":" + tier + ":" + route
  }

  datatype Resolution = UnknownTier | UnknownClass | Resolved(plan: Plan)

  function Resolve(book: Book, tenantId: string, tier: string, route: string): (r: Resolution)
    ensures r.Resolved? ==> r.plan.cost > 0.0
  {
    if tier !in book.tiers then UnknownTier
    else
      match ClassifyCost(RouteFor(book, route))
      case None => UnknownClass
      case Some(class_) =>
        var t := book.tiers[tier];
        Resolved(Plan(JarKey(tenantId, tier, route), t.capacity, t.refillPerSecond / 1000.0,
                      ClassCost(class_).value, class_, t.monthlyQuota, tenantId + ":" + tier + ":monthly"))
  }

  /** A request by API key: identify, then resolve.  The gateway fails open on an error. */
  function ResolveRequest(book: Book, apiKey: string, ip: string, route: string): Resolution {
    var who := Identify(book, apiKey, ip);
    Resolve(book, who.tenantId, who.tier, route)
  }

  /** TenantStore.SetTier: an empty id keeps the site the key is bound to, or is the key. */
  function Bind(tenants: map<string, Tenant>, apiKey: string, tier: string, tenantId: string): map<string, Tenant> {
    tenants[apiKey := Tenant(if tenantId != "" then tenantId else BoundId(tenants, apiKey), tier)]
  }

  function BoundId(tenants: map<string, Tenant>, apiKey: string): string {
    if apiKey in tenants && tenants[apiKey].tenantId != "" then tenants[apiKey].tenantId else apiKey
  }

  /** The live rulebook, edited while requests are served. */
  class Rulebook {
    var tiers: map<string, Tier>
    var routes: map<string, Route>
    var tenants: map<string, Tenant>

    constructor (tiers: map<string, Tier>, routes: map<string, Route>, tenants: map<string, Tenant>)
      requires tiers != map[]
      ensures View() == Book(tiers, routes, tenants)
    {
      this.tiers, this.routes, this.tenants := tiers, routes, tenants;
    }

    function View(): Book
      reads this
    {
      Book(tiers, routes, tenants)
    }

    method PutTier(name: string, tier: Tier)
      modifies this`tiers
      ensures View() == old(View()).(tiers := old(tiers)[name := tier])
    {
      tiers := tiers[name := tier];
    }

    /** Refuses to take the last tier away, and a tier that is not there. */
    method RemoveTier(name: string) returns (removed: bool)
      modifies this`tiers
      ensures removed <==> name in old(tiers) && |old(tiers)| != 1
      ensures View() == if removed then old(View()).(tiers := old(tiers) - {name}) else old(View())
    {
      if name !in tiers || |tiers| == 1 {
        return false;
      }
      tiers := tiers - {name};
      return true;
    }

    method SetRoutes(routes: map<string, Route>)
      modifies this`routes
      ensures View() == old(View()).(routes := routes)
    {
      this.routes := routes;
    }

    method SetTier(apiKey: string, tier: string, tenantId: string)
      modifies this`tenants
      ensures View() == old(View()).(tenants := Bind(old(tenants), apiKey, tier, tenantId))
    {
      var id := tenantId;
      if id == "" {
        if apiKey in tenants && tenants[apiKey].tenantId != "" {
          id := tenants[apiKey].tenantId;
        } else {
          id := apiKey;
        }
      }
      tenants := tenants[apiKey := Tenant(id, tier)];
    }

    method DeleteTenant(apiKey: string)
      modifies this`tenants
      ensures View() == old(View()).(tenants := old(tenants) - {apiKey})
    {
      tenants := tenants - {apiKey};
    }

    /** Offboard a site: every key bound to it goes, and no other. */
    method RemoveByTenantId(tenantId: string) returns (removed: nat)
      modifies this`tenants
      ensures View() == old(View()).(tenants := Offboard(old(tenants), tenantId))
      ensures removed == |old(tenants)| - |tenants|
    {
      removed := 0;
      ghost var before := tenants;
      var todo := tenants.Keys;
      while todo != {}
        invariant todo <= tenants.Keys <= before.Keys
        invariant forall k | k in tenants :: tenants[k] == before[k]
        invariant forall k | k in before :: k in tenants <==> k in todo || before[k].tenantId != tenantId
        invariant removed == |before.Keys| - |tenants.Keys|
        decreases todo
      {
        var key :| key in todo;
        todo := todo - {key};
        if tenants[key].tenantId == tenantId {
          ghost var was := tenants.Keys;
          tenants := tenants - {key};
          assert tenants.Keys == was - {key};
          removed := removed + 1;
        }
      }
      assert tenants == Offboard(before, tenantId);
    }
  }

  function Offboard(tenants: map<string, Tenant>, tenantId: string): map<string, Tenant> {
    map k | k in tenants && tenants[k].tenantId != tenantId :: tenants[k]
  }

  /** Which requests fail open: an unknown tier, or a route priced by an unknown class. */
  lemma ResolveFailsIff(book: Book, tenantId: string, tier: string, route: string)
    ensures !Resolve(book, tenantId, tier, route).Resolved?
            <==> tier !in book.tiers
                 || (exists r :: RouteFor(book, route) == Some(r) && r.costClass != "" && ClassCost(r.costClass).None?)
  {
    match RouteFor(book, route)
    case None =>
    case Some(r) =>
  }

  /** What a resolved request is charged and against what: the tier's own numbers, a thousandth of
      its refill each millisecond, and one, two or five tokens by the class of its own route, else
      of the wildcard, else light. */
  lemma ResolvedPlan(book: Book, tenantId: string, tier: string, route: string)
    requires Resolve(book, tenantId, tier, route).Resolved?
    ensures
      var plan := Resolve(book, tenantId, tier, route).plan;
      && tier in book.tiers && plan.capacity == book.tiers[tier].capacity
      && plan.refillRatePerMs * 1000.0 == book.tiers[tier].refillPerSecond
      && plan.monthlyQuota == book.tiers[tier].monthlyQuota
      && (route in book.routes && book.routes[route].costClass != "" ==> plan.costClass == book.routes[route].costClass)
      && (route !in book.routes && "*" in book.routes && book.routes["*"].costClass != "" ==> plan.costClass == book.routes["*"].costClass)
      && (route !in book.routes && "*" !in book.routes ==> plan.costClass == "light")
    ensures
      var plan := Resolve(book, tenantId, tier, route).plan;
      || (plan.costClass == "light" && plan.cost == 1.0)
      || (plan.costClass == "standard" && plan.cost == 2.0)
      || (plan.costClass == "heavy" && plan.cost == 5.0)
  {
    var class_ := ClassifyCost(RouteFor(book, route)).value;
    assert class_ in {"light", "standard", "heavy"};
  }

  /** A caller whose key names no tenant is a free tenant by its address; one without an address shares
      a tenant with the rest of those, and with no one else but a caller at the address "unknown". */
  lemma StrangersApart(book: Book, k: string, a: string, l: string, b: string)
    requires k == "" || k !in book.tenants
    requires l == "" || l !in book.tenants
    ensures Identify(book, k, a).tier == "free"
    ensures Identify(book, k, a) == Identify(book, l, b) <==> a == b || {a, b} == {"", "unknown"}
  {
    var x, y := if a == "" then "unknown" else a, if b == "" then "unknown" else b;
    assert ("anon:" + x)[5..] == x && ("anon:" + y)[5..] == y;
  }

  predicate EndsWith(s: string, tail: string) {
    |tail| <= |s| && s[|s| - |tail|..] == tail
  }

  /** On one tier and route, jars are apart exactly as tenants are. */
  lemma TenantsHaveOwnJars(a: string, b: string, tier: string, route: string)
    ensures JarKey(a, tier, route) == JarKey(b, tier, route) <==> a == b
  {
    var x, y := JarKey(a, tier, route), JarKey(b, tier, route);
    assert x[..|x| - |Suffix(tier, route)|] == a && y[..|y| - |Suffix(tier, route)|] == b;
  }

  lemma SharedEnds(a: string, b: string, s: string, t: string)
    requires a + s == b + t && |s| <= |t|
    ensures EndsWith(t, s)
  {
    var x := a + s;
    assert x[|x| - |t|..] == t && x[|x| - |s|..] == s;
    assert t[|t| - |s|..] == x[|x| - |s|..];
  }

  /** Across tiers and routes the names are joined without escaping: some two tenants share a jar
      exactly when what follows one tenant's name ends with what follows the other's. */
  lemma JarsCollideIff(tier: string, route: string, tier': string, route': string)
    ensures (exists a, b :: JarKey(a, tier, route) == JarKey(b, tier', route'))
            <==> EndsWith(Suffix(tier, route), Suffix(tier', route')) || EndsWith(Suffix(tier', route'), Suffix(tier, route))
  {
    var s, t := Suffix(tier, route), Suffix(tier', route');
    if exists a, b :: JarKey(a, tier, route) == JarKey(b, tier', route') {
      var a, b :| JarKey(a, tier, route) == JarKey(b, tier', route');
      if |s| <= |t| {
        SharedEnds(a, b, s, t);
      } else {
        SharedEnds(b, a, t, s);
      }
    }
    if EndsWith(s, t) {
      assert s == s[..|s| - |t|] + t;
      assert JarKey("", tier, route) == JarKey(s[..|s| - |t|], tier', route');
    }
    if EndsWith(t, s) {
      assert t == t[..|t| - |s|] + s;
      assert JarKey(t[..|t| - |s|], tier, route) == JarKey("", tier', route');
    }
  }

  /** So names without colons never collide: the jar tells tenant, tier and route. */
  lemma PlainNamesHaveOwnJars(a: string, tier: string, route: string, b: string, tier': string, route': string)
    requires ':' !in tier && ':' !in route && ':' !in tier' && ':' !in route'
    ensures JarKey(a, tier, route) == JarKey(b, tier', route') <==> a == b && tier == tier' && route == route'
  {
    assert JarKey(a, tier, route) == (a + ":" + tier) + ":" + route;
    assert JarKey(b, tier', route') == (b + ":" + tier') + ":" + route';
    if JarKey(a, tier, route) == JarKey(b, tier', route') {
      LastName(a + ":" + tier, route, b + ":" + tier', route');
      LastName(a, tier, b, tier');
    }
  }

  lemma LastName(a: string, x: string, b: string, y: string)
    requires ':' !in x && ':' !in y
    ensures a + ":" + x == b + ":" + y ==> a == b && x == y
  {
    var s, t := a + ":" + x, b + ":" + y;
    assert s[|a|] == ':' && t[|b|] == ':';
    assert s[..|a|] == a && t[..|b|] == b && s[|a| + 1..] == x && t[|b| + 1..] == y;
    assert s == t ==> |a| == |b|;
  }
}
