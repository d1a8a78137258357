module WatchTenants {
  // The tenants reflector and the operator behind it: what becomes of a Tenant whose deletion nobody
  // saw, down to the keys that are live.

  import opened Wrappers
  import opened Watch
  import opened WatchProofs
  import opened WatchHandlers
  import opened Operator
  import opened OperatorProofs
  import opened Policy
  import OperatorRuns
  import opened WatchOperator

  /** A Tenant as it comes off the wire; one held open by its finalizer is terminating. */
  datatype Sighting = Sighting(tenant: TenantObject, terminating: bool)

  ghost function OnTenantItem(c: Cluster, s: State, key: string, deleted: bool, item: Item<Sighting>): State {
    match item
    case Garbled => s
    case Readable(v) => OnTenant(c, s, v.terminating || deleted, key, v.tenant)
  }

  /** What the operator keeps of the mirror: the objects not on their way out. */
  ghost function Alive(cache: map<string, Sighting>): map<string, TenantObject> {
    map k | k in cache && !cache[k].terminating :: cache[k].tenant
  }

  lemma TenantEventCaches(c: Cluster, s: State, gone: bool, key: string, t: TenantObject)
    ensures OnTenant(c, s, gone, key, t).tenants == if gone then s.tenants - {key} else s.tenants[key := t]
  {
    ReconcileKeepsCache(c, s.(tenants := s.tenants[key := t]));
  }

  lemma AliveAfter(cache: map<string, Sighting>, key: string, deleted: bool, v: Sighting)
    ensures Alive(Handle(cache, key, deleted, Readable(v)))
            == if v.terminating || deleted then Alive(cache) - {key} else Alive(cache)[key := v.tenant]
  {
  }

  /** Terminating or deleted, created, edited or skipped, a sighting leaves the operator's cache
      with the mirror's living objects. */
  lemma TenantCacheFollows(c: Cluster, s: State, cache: map<string, Sighting>, key: string, deleted: bool,
                           item: Item<Sighting>)
    requires s.tenants == Alive(cache)
    ensures OnTenantItem(c, s, key, deleted, item).tenants == Alive(Handle(cache, key, deleted, item))
  {
    if item.Readable? {
      TenantEventCaches(c, s, item.value.terminating || deleted, key, item.value.tenant);
      AliveAfter(cache, key, deleted, item.value);
    }
  }

  // ---- Runs -------------------------------------------------------------------------

  /** Nobody else delivers tenants: policies and hand edits may come in between. */
  ghost predicate OtherThanTenants(actions: seq<OperatorRuns.Action>) {
    forall j | 0 <= j < |actions| :: !actions[j].TenantEvent?
  }

  ghost predicate TenantsFromHere(w: Moments) {
    forall turn: nat, at: nat :: OtherThanTenants(w(turn, at).meanwhile)
  }

  lemma OtherKeepsTenants(s: State, a: OperatorRuns.Action)
    requires !a.TenantEvent?
    ensures OperatorRuns.Apply(s, a).tenants == s.tenants
  {
    if a.PolicyEvent? {
      ReconcileKeepsCache(a.cluster, s.(policies := s.policies - {a.key}));
      ReconcileKeepsCache(a.cluster, s.(policies := s.policies[a.key := a.policy]));
    }
  }

  lemma {:induction false} OthersKeepTenants(s: State, actions: seq<OperatorRuns.Action>)
    requires OtherThanTenants(actions)
    ensures OperatorRuns.Run(s, actions).tenants == s.tenants
  {
    if actions != [] {
      var n := |actions| - 1;
      OthersKeepTenants(s, actions[..n]);
      OtherKeepsTenants(OperatorRuns.Run(s, actions[..n]), actions[n]);
    }
  }

  ghost function TenantHandler(w: Moments): Handler<State, Sighting> {
    (turn: nat, at: nat, s: State, key: string, deleted: bool, item: Item<Sighting>) =>
      OnTenantItem(w(turn, at).cluster, OperatorRuns.Run(s, w(turn, at).meanwhile), key, deleted, item)
  }

  ghost function TenantStep(): (State, map<string, Sighting>) -> bool {
    (s: State, cache: map<string, Sighting>) => s.tenants == Alive(cache)
  }

  lemma TenantHandlerKeeps(w: Moments)
    requires TenantsFromHere(w)
    ensures Keeps(TenantHandler(w), TenantStep())
  {
    forall turn: nat, at: nat, s, cache, key, deleted, item | TenantStep()(s, cache)
      ensures TenantStep()(TenantHandler(w)(turn, at, s, key, deleted, item), Handle(cache, key, deleted, item))
    {
      var now := w(turn, at);
      OthersKeepTenants(s, now.meanwhile);
      TenantCacheFollows(now.cluster, OperatorRuns.Run(s, now.meanwhile), cache, key, deleted, item);
    }
  }

  /** Over any run of the reflector, whatever policies and edits come in between, the tenants that
      every reconcile serves are the mirror's living objects. */
  lemma TenantsFollow(w: Moments, turn: nat, s: State, m: Mirror<Sighting>, replies: seq<Reply<Sighting>>)
    requires TenantsFromHere(w) && s.tenants == Alive(m.cache)
    ensures OnRun(TenantHandler(w), turn, s, m, replies).tenants == Alive(Run(m, replies).cache)
  {
    TenantHandlerKeeps(w);
    RunKeeps(TenantHandler(w), TenantStep(), turn, s, m, replies);
  }

  // ---- Which tenants are wrong ------------------------------------------------------

  lemma AliveLookup(a: map<string, Sighting>, k: string)
    ensures Lookup(Alive(a), k) == if k in a && !a[k].terminating then Some(a[k].tenant) else None
  {
  }

  /** A key the mirror has wrong since a list is one it still holds as it was before. */
  lemma WrongIsKept(log: seq<Change<Sighting>>, cache: map<string, Sighting>, items: seq<Entry<Sighting>>, rv: nat,
                    m: Mirror<Sighting>, k: string)
    requires Increasing(log) && AllReadable(log) && Lists(items, StateAt(log, rv))
    requires m.rv.Some? && InSync(log, Some(Base(rv, HandleAll(cache, items))), m)
    requires k !in StateAt(log, rv) && !Touched(k, Since(log, rv, m.rv.value))
    ensures Lookup(m.cache, k) == Lookup(cache, k) && Lookup(Truth(StateAt(log, m.rv.value)), k) == None
  {
    var base, truth, since := HandleAll(cache, items), Truth(StateAt(log, rv)), Since(log, rv, m.rv.value);
    ListOverlays(cache, items, StateAt(log, rv), k);
    ReplayEntry(base, base, since, k);
    TruthReplays(log, Seen(log, rv), Seen(log, m.rv.value), truth);
    ReplayEntry(truth, truth, since, k);
  }

  lemma AliveWrongIff(log: seq<Change<Sighting>>, cache: map<string, Sighting>, items: seq<Entry<Sighting>>, rv: nat,
                      m: Mirror<Sighting>, k: string)
    requires Increasing(log) && AllReadable(log) && Lists(items, StateAt(log, rv))
    requires m.rv.Some? && InSync(log, Some(Base(rv, HandleAll(cache, items))), m)
    ensures Lookup(Alive(m.cache), k) != Lookup(Alive(Truth(StateAt(log, m.rv.value))), k)
            <==> k in Alive(cache) && k !in StateAt(log, rv) && !Touched(k, Since(log, rv, m.rv.value))
  {
    var truth := Truth(StateAt(log, m.rv.value));
    WrongIff(log, cache, items, rv, m, k);
    AliveLookup(m.cache, k);
    AliveLookup(truth, k);
    AliveLookup(cache, k);
    if Lookup(m.cache, k) != Lookup(truth, k) {
      WrongIsKept(log, cache, items, rv, m, k);
    }
  }

  /** From a re-list to the next the operator serves a wrong Tenant under a name exactly when it had
      a living one, the list did not name it, and nothing has happened to it since.  What the
      finalizer is for: an object it still holds open is named by the list, and does not stay. */
  lemma TenantWrongIff(w: Moments, turn: nat, s: State, log: seq<Change<Sighting>>, m: Mirror<Sighting>,
                       replies: seq<Reply<Sighting>>, k: string)
    requires TenantsFromHere(w) && Increasing(log) && AllReadable(log) && m.rv.None? && s.tenants == Alive(m.cache)
    requires replies != [] && replies[0].list.Listing? && Legal(log, m, replies) && Run(m, replies).rv.Some?
    requires LastList(m, None, replies) == Some(Base(replies[0].list.rv.value, HandleAll(m.cache, replies[0].list.items)))
    ensures
      var rv, now := replies[0].list.rv.value, Run(m, replies).rv.value;
      && Seen(log, rv) <= Seen(log, now)
      && (Lookup(OnRun(TenantHandler(w), turn, s, m, replies).tenants, k) != Lookup(Alive(Truth(StateAt(log, now))), k)
          <==> k in s.tenants && k !in StateAt(log, rv) && !Touched(k, Since(log, rv, now)))
  {
    TenantsFollow(w, turn, s, m, replies);
    WatchRefinement(log, m, replies);
    AliveWrongIff(log, m.cache, replies[0].list.items, replies[0].list.rv.value, Run(m, replies), k);
  }

  // ---- A deletion nobody saw --------------------------------------------------------

  /** The first n changes leave no such object, and the later ones do not make it again. */
  ghost predicate GoneFrom<V>(log: seq<Change<V>>, n: nat, k: string) {
    n <= |log| && k !in Stored(log[..n]) && forall i | n <= i < |log| :: log[i].key != k
  }

  ghost predicate Covers<V>(log: seq<Change<V>>, n: nat, rv: Option<nat>) {
    rv.Some? ==> n <= Seen(log, rv.value)
  }

  /** Every list of the run is a snapshot with those n changes in it. */
  ghost predicate ListsCover<V>(log: seq<Change<V>>, n: nat, m: Mirror<V>, replies: seq<Reply<V>>)
    decreases |replies|
  {
    replies == []
    || ((m.rv.None? && replies[0].list.Listing? ==> Covers(log, n, replies[0].list.rv))
        && ListsCover(log, n, Turned(m, replies[0].list, replies[0].watch), replies[1..]))
  }

  lemma {:induction false} StaysGone<V>(log: seq<Change<V>>, n: nat, j: nat, k: string)
    requires GoneFrom(log, n, k) && n <= j <= |log|
    ensures k !in Stored(log[..j])
    decreases j
  {
    if n < j {
      StaysGone(log, n, j - 1, k);
      StoredNext(log, j - 1);
    }
  }

  lemma {:induction false} StreamForgets<V>(log: seq<Change<V>>, n: nat, m: Mirror<V>, events: seq<Event<V>>,
                                            end: StreamEnd, k: string)
    requires Increasing(log) && GoneFrom(log, n, k)
    requires m.rv.Some? && Covers(log, n, m.rv) && LegalStream(log, m.rv.value, events)
    ensures Streamed(m, events, end).0.rv.Some? && Covers(log, n, Streamed(m, events, end).0.rv)
    ensures Lookup(Streamed(m, events, end).0.cache, k) == Lookup(m.cache, k)
    decreases |events|
  {
    if events != [] && !events[0].Failure? {
      if events[0].Changed? {
        NextAdvances(log, m.rv.value, events[0]);
      }
      StreamForgets(log, n, Took(m, events[0]), events[1..], end, k);
    }
  }

  lemma ListForgets<V>(log: seq<Change<V>>, n: nat, cache: map<string, V>, items: seq<Entry<V>>, rv: nat, k: string)
    requires GoneFrom(log, n, k) && n <= Seen(log, rv) && Lists(items, StateAt(log, rv))
    ensures Lookup(HandleAll(cache, items), k) == Lookup(cache, k)
  {
    StaysGone(log, n, Seen(log, rv), k);
    ListOverlays(cache, items, StateAt(log, rv), k);
  }

  lemma WatchForgets<V>(log: seq<Change<V>>, n: nat, m: Mirror<V>, reply: WatchReply<V>, k: string)
    requires Increasing(log) && GoneFrom(log, n, k) && m.rv.Some? && Covers(log, n, m.rv) && LegalWatch(log, m.rv.value, reply)
    ensures Covers(log, n, Watched(m, reply).0.rv) && Lookup(Watched(m, reply).0.cache, k) == Lookup(m.cache, k)
  {
    if reply.Stream? {
      StreamForgets(log, n, m.(stats := m.stats.(watches := m.stats.watches + 1)), reply.events, reply.end, k);
    }
  }

  lemma TurnForgets<V>(log: seq<Change<V>>, n: nat, m: Mirror<V>, r: Reply<V>, k: string)
    requires Increasing(log) && GoneFrom(log, n, k) && Covers(log, n, m.rv)
    requires LegalTurn(log, m, r) && (m.rv.None? && r.list.Listing? ==> Covers(log, n, r.list.rv))
    ensures Covers(log, n, Turned(m, r.list, r.watch).rv)
    ensures Lookup(Turned(m, r.list, r.watch).cache, k) == Lookup(m.cache, k)
  {
    if !(m.rv.None? && r.list.ListFailed?) {
      var m1 := if m.rv.None? then Relisted(m, r.list.items, r.list.rv).(attempt := 0) else m;
      if m.rv.None? {
        ListForgets(log, n, m.cache, r.list.items, r.list.rv.value, k);
      }
      WatchForgets(log, n, m1, r.watch, k);
    }
  }

  /** No legal answer from then on says anything about the object: whatever the mirror held under
      its name it holds for good. */
  lemma {:induction false} ForgottenForGood<V>(log: seq<Change<V>>, n: nat, m: Mirror<V>, replies: seq<Reply<V>>, k: string)
    requires Increasing(log) && GoneFrom(log, n, k) && Covers(log, n, m.rv)
    requires Legal(log, m, replies) && ListsCover(log, n, m, replies)
    ensures Lookup(Run(m, replies).cache, k) == Lookup(m.cache, k)
    decreases |replies|
  {
    if replies != [] {
      TurnForgets(log, n, m, replies[0], k);
      ForgottenForGood(log, n, Turned(m, replies[0].list, replies[0].watch), replies[1..], k);
    }
  }

  /** The object's own claim on a key, if it were still there. */
  ghost predicate Claims(c: Cluster, tiers: map<string, Tier>, t: TenantObject, apiKey: string) {
    ResolveKey(c, t) == Some(apiKey) && t.spec.tier in tiers
  }

  lemma ServedWith(c: Cluster, s: State, k: string, apiKey: string)
    requires k in s.tenants
    ensures
      var s' := Reconciled(c, s);
      apiKey in s'.managedKeys <==>
        Claims(c, s'.book.tiers, s.tenants[k], apiKey) || OperatorRuns.OtherServes(c, s'.book.tiers, s.tenants, k, apiKey)
  {
    var s' := Reconciled(c, s);
    OperatorRuns.ReconcileKeyByKey(c, s, apiKey);
    if Claims(c, s'.book.tiers, s.tenants[k], apiKey) {
      assert Serves(c, s'.book.tiers, s.tenants, k, apiKey);
    }
  }

  /** So a Tenant deleted while the watch was away is served for good.  The cursor has expired, the
      deletion is in the history and every list from now on is of a later moment: after any number
      of re-lists, reconnects, errors, policies and hand edits the operator still has the object as
      it last saw it, and every reconcile makes a key live exactly when that object still claims
      it - its Secret still holds the key, and its tier is live - or another object serves it, or it
      was live and nobody's. */
  lemma DeletedTenantServed(w: Moments, turn: nat, s: State, log: seq<Change<Sighting>>, n: nat, m: Mirror<Sighting>,
                            replies: seq<Reply<Sighting>>, after: seq<OperatorRuns.Action>, c: Cluster, k: string,
                            apiKey: string)
    requires TenantsFromHere(w) && OtherThanTenants(after) && s.tenants == Alive(m.cache) && k in s.tenants
    requires Increasing(log) && GoneFrom(log, n, k) && m.rv.None?
    requires Legal(log, m, replies) && ListsCover(log, n, m, replies)
    ensures
      var now := OperatorRuns.Run(OnRun(TenantHandler(w), turn, s, m, replies), after);
      var s' := Reconciled(c, now);
      && k in now.tenants && now.tenants[k] == s.tenants[k]
      && (apiKey in s'.managedKeys <==>
            Claims(c, s'.book.tiers, s.tenants[k], apiKey) || OperatorRuns.OtherServes(c, s'.book.tiers, now.tenants, k, apiKey))
      && (apiKey in s'.book.tenants <==> apiKey in s'.managedKeys || (apiKey in now.book.tenants && apiKey !in now.managedKeys))
  {
    var ran := OnRun(TenantHandler(w), turn, s, m, replies);
    var now := OperatorRuns.Run(ran, after);
    TenantsFollow(w, turn, s, m, replies);
    OthersKeepTenants(ran, after);
    ForgottenForGood(log, n, m, replies, k);
    AliveLookup(m.cache, k);
    AliveLookup(Run(m, replies).cache, k);
    assert Lookup(now.tenants, k) == Lookup(s.tenants, k);
    ServedWith(c, now, k, apiKey);
    OperatorRuns.ReconcileKeyByKey(c, now, apiKey);
  }

  // ---- A deletion the leader let go of ----------------------------------------------

  /** What the finalizer ensures: a Tenant is only deleted once it has been seen to terminate, and its
      keys been revoked by the leader, which then lets it go. */
  ghost predicate HeldOpen(log: seq<Change<Sighting>>) {
    forall i | 0 <= i < |log| && log[i].deleted ::
      var held := Stored(log[..i]);
      log[i].key in held && held[log[i].key].Readable? && held[log[i].key].value.terminating
  }

  /** Created, terminating, deleted. */
  function Life(k: string, t: TenantObject): seq<Change<Sighting>> {
    [Change(1, k, false, Readable(Sighting(t, false))), Change(2, k, false, Readable(Sighting(t, true))),
     Change(3, k, true, Readable(Sighting(t, true)))]
  }

  const NEW: Mirror<Sighting> := Mirror(None, map[], false, 0, Stats(0, 0, 0, 0, 0, 0))

  function Born(k: string, t: TenantObject): ListReply<Sighting> {
    Listing([Entry(k, Readable(Sighting(t, false)))], Some(1))
  }

  lemma LifeIs(k: string, t: TenantObject)
    ensures Increasing(Life(k, t)) && AllReadable(Life(k, t)) && HeldOpen(Life(k, t)) && GoneFrom(Life(k, t), 3, k)
    ensures Seen(Life(k, t), 1) == 1 && Seen(Life(k, t), 2) == 2
    ensures StateAt(Life(k, t), 1) == map[k := Readable(Sighting(t, false))]
  {
    var log := Life(k, t);
    SeenIs(log, 1, 1);
    SeenIs(log, 2, 2);
    assert log[..0] == [] && Stored(log[..0]) == map[];
    StoredNext(log, 0);
    StoredNext(log, 1);
    StoredNext(log, 2);
    assert log[..3] == log;
  }

  lemma BornIsLegal(k: string, t: TenantObject)
    ensures LegalList(Life(k, t), Born(k, t)) && HandleAll(map[], Born(k, t).items) == map[k := Sighting(t, false)]
  {
    LifeIs(k, t);
    OneListed(map[], Entry(k, Readable(Sighting(t, false))));
    assert Born(k, t).items[0].key == k;
  }

  /** The leader, watching, sees the object terminate and go, and has nothing left of it. */
  lemma LeaderLetsGo(w: Moments, s: State, k: string, t: TenantObject)
    requires TenantsFromHere(w) && s.tenants == map[]
    ensures
      var e2, e3 := Changed(Some(2), k, false, Readable(Sighting(t, true))), Changed(Some(3), k, true, Readable(Sighting(t, true)));
      var replies := [Reply(Born(k, t), Stream([e2, e3], Closed))];
      && Legal(Life(k, t), NEW, replies) && Run(NEW, replies).rv == Some(3)
      && OnRun(TenantHandler(w), 0, s, NEW, replies).tenants == map[]
  {
    var log := Life(k, t);
    var e2, e3 := Changed(Some(2), k, false, Readable(Sighting(t, true))), Changed(Some(3), k, true, Readable(Sighting(t, true)));
    var replies := [Reply(Born(k, t), Stream([e2, e3], Closed))];
    LifeIs(k, t);
    BornIsLegal(k, t);
    assert [e2, e3][1..] == [e3] && [e3][1..] == [] && replies[1..] == [];
    assert LegalStream(log, 2, [e3]);
    TwoEvents(Relisted(NEW, Born(k, t).items, Some(1)).(attempt := 0), e2, e3);
    assert Alive(NEW.cache) == map[];
    TenantsFollow(w, 0, s, NEW, replies);
  }

  lemma TwoEvents(m: Mirror<Sighting>, a: Event<Sighting>, b: Event<Sighting>)
    requires a.Changed? && b.Changed? && b.deleted && b.item.Readable? && a.key == b.key && b.rv.Some? && m.cache.Keys == {b.key}
    ensures
      var out := Watched(m, Stream([a, b], Closed));
      out.0.rv == b.rv && out.0.cache == map[] && out.1 == Fine
  {
    var m1 := m.(stats := m.stats.(watches := m.stats.watches + 1));
    var m2 := Took(m1, a);
    var m3 := Took(m2, b);
    assert [a, b][0] == a && [a, b][1..] == [b] && [b][0] == b && [b][1..] == [];
    assert Streamed(m3, [], Closed) == (m3, Fine);
    assert Streamed(m2, [b], Closed) == (m3, Fine);
    assert Streamed(m1, [a, b], Closed) == (m3, Fine);
    assert m2.cache.Keys <= {b.key} && m3.cache == m2.cache - {b.key};
  }

  /** A follower reconciles as the leader does, and the finalizer does not wait for it: one whose cursor
      expires before the object terminates, and which lists after it is gone, serves it for good. */
  lemma FollowerServesOn(w: Moments, s: State, k: string, t: TenantObject, replies: seq<Reply<Sighting>>,
                         after: seq<OperatorRuns.Action>, c: Cluster, apiKey: string)
    requires TenantsFromHere(w) && OtherThanTenants(after) && s.tenants == map[]
    requires
      var m := Turned(NEW, Born(k, t), Refused(410));
      Legal(Life(k, t), m, replies) && ListsCover(Life(k, t), 3, m, replies)
    ensures
      var all := [Reply(Born(k, t), Refused(410))] + replies;
      var now := OperatorRuns.Run(OnRun(TenantHandler(w), 0, s, NEW, all), after);
      var s' := Reconciled(c, now);
      && HeldOpen(Life(k, t)) && Legal(Life(k, t), NEW, all) && k in now.tenants && now.tenants[k] == t
      && (apiKey in s'.managedKeys <==> Claims(c, s'.book.tiers, t, apiKey) || OperatorRuns.OtherServes(c, s'.book.tiers, now.tenants, k, apiKey))
  {
    var first := Reply(Born(k, t), Refused(410));
    var all := [first] + replies;
    var m := Turned(NEW, first.list, first.watch);
    LifeIs(k, t);
    BornIsLegal(k, t);
    assert all[0] == first && all[1..] == replies;
    assert Alive(NEW.cache) == map[];
    TenantHandlerKeeps(w);
    TurnKeeps(TenantHandler(w), TenantStep(), 0, s, NEW, first);
    var s1 := OnTurn(TenantHandler(w), 0, s, NEW, first);
    assert m.cache == map[k := Sighting(t, false)] && m.rv.None?;
    DeletedTenantServed(w, 1, s1, Life(k, t), 3, m, replies, after, c, k, apiKey);
  }
}
