module WatchOperator {
  // The two halves meet: the operator's policy cache is what the reflector mirrors.

  import opened Wrappers
  import opened Watch
  import opened WatchProofs
  import opened WatchHandlers
  import opened Operator
  import opened Policy
  import OperatorRuns

  /** An undecodable object is an error to the handler and changes nothing. */
  ghost function OnPolicyItem(c: Cluster, s: State, key: string, deleted: bool, item: Item<PolicyObject>): State {
    match item
    case Garbled => s
    case Readable(p) => OnPolicy(c, s, deleted, key, p)
  }

  lemma ReconcileKeepsCache(c: Cluster, s: State)
    ensures Reconciled(c, s).policies == s.policies && Reconciled(c, s).tenants == s.tenants
  {
  }

  /** Whatever the handler does to the rulebook, and whether or not it skips, its policy cache
      moves as the mirror's does. */
  lemma CacheFollows(c: Cluster, s: State, key: string, deleted: bool, item: Item<PolicyObject>)
    ensures OnPolicyItem(c, s, key, deleted, item).policies == Handle(s.policies, key, deleted, item)
    ensures OnPolicyItem(c, s, key, deleted, item).tenants == s.tenants
  {
    if item.Readable? {
      ReconcileKeepsCache(c, s.(policies := s.policies - {key}));
      ReconcileKeepsCache(c, s.(policies := s.policies[key := item.value]));
    }
  }

  /** The operator fed a stretch of history, each event under what the cluster answered then. */
  ghost function OnHistory(cs: seq<Cluster>, s: State, log: seq<Change<PolicyObject>>): State
    requires |cs| == |log|
    decreases |log|
  {
    if log == [] then s
    else
      var n := |log| - 1;
      OnPolicyItem(cs[n], OnHistory(cs[..n], s, log[..n]), log[n].key, log[n].deleted, log[n].item)
  }

  /** So the object cache that every reconcile reads is the replayed history, while the rulebook
      follows only the events the generation check lets through. */
  lemma {:induction false} OperatorMirrors(cs: seq<Cluster>, s: State, log: seq<Change<PolicyObject>>)
    requires |cs| == |log|
    ensures OnHistory(cs, s, log).policies == Replay(s.policies, log) && OnHistory(cs, s, log).tenants == s.tenants
    decreases |log|
  {
    if log != [] {
      var n := |log| - 1;
      OperatorMirrors(cs[..n], s, log[..n]);
      CacheFollows(cs[n], OnHistory(cs[..n], s, log[..n]), log[n].key, log[n].deleted, log[n].item);
    }
  }

  // ---- Lists, streams and turns -----------------------------------------------------

  /** What comes before an item: the other actions since the last one, and what the cluster answers
      the reconcile that the item causes. */
  datatype Moment = Moment(meanwhile: seq<OperatorRuns.Action>, cluster: Cluster)

  type Moments = (nat, nat) -> Moment

  /** Nobody else delivers policies: tenants and hand edits may come in between. */
  ghost predicate OtherThanPolicies(actions: seq<OperatorRuns.Action>) {
    forall j | 0 <= j < |actions| :: !actions[j].PolicyEvent?
  }

  ghost predicate PoliciesFromHere(w: Moments) {
    forall turn: nat, at: nat :: OtherThanPolicies(w(turn, at).meanwhile)
  }

  /** The policies reflector runs on its own. */
  ghost predicate Alone(w: Moments) {
    forall turn: nat, at: nat :: w(turn, at).meanwhile == []
  }

  lemma {:induction false} OthersKeepPolicies(s: State, actions: seq<OperatorRuns.Action>)
    requires OtherThanPolicies(actions)
    ensures OperatorRuns.Run(s, actions).policies == s.policies
  {
    if actions != [] {
      var n := |actions| - 1;
      OthersKeepPolicies(s, actions[..n]);
      OtherKeepsPolicies(OperatorRuns.Run(s, actions[..n]), actions[n]);
    }
  }

  lemma OtherKeepsPolicies(s: State, a: OperatorRuns.Action)
    requires !a.PolicyEvent?
    ensures OperatorRuns.Apply(s, a).policies == s.policies
  {
    if a.TenantEvent? {
      ReconcileKeepsCache(a.cluster, s.(tenants := s.tenants[a.key := a.tenant]));
    }
  }

  ghost function PolicyHandler(w: Moments): Handler<State, PolicyObject> {
    (turn: nat, at: nat, s: State, key: string, deleted: bool, item: Item<PolicyObject>) =>
      OnPolicyItem(w(turn, at).cluster, OperatorRuns.Run(s, w(turn, at).meanwhile), key, deleted, item)
  }

  ghost function PolicyStep(w: Moments, tenants: map<string, TenantObject>): (State, map<string, PolicyObject>) -> bool {
    (s: State, cache: map<string, PolicyObject>) => s.policies == cache && (Alone(w) ==> s.tenants == tenants)
  }

  lemma PolicyHandlerKeeps(w: Moments, tenants: map<string, TenantObject>)
    requires PoliciesFromHere(w)
    ensures Keeps(PolicyHandler(w), PolicyStep(w, tenants))
  {
    forall turn: nat, at: nat, s, cache, key, deleted, item | PolicyStep(w, tenants)(s, cache)
      ensures PolicyStep(w, tenants)(PolicyHandler(w)(turn, at, s, key, deleted, item), Handle(cache, key, deleted, item))
    {
      var now := w(turn, at);
      OthersKeepPolicies(s, now.meanwhile);
      CacheFollows(now.cluster, OperatorRuns.Run(s, now.meanwhile), key, deleted, item);
    }
  }

  /** Over any run of the reflector, re-lists, errors and reconnects included, whatever tenants and
      edits come in between, the object cache that every reconcile reads is the mirror's. */
  lemma OperatorFollows(w: Moments, turn: nat, s: State, m: Mirror<PolicyObject>, replies: seq<Reply<PolicyObject>>)
    requires PoliciesFromHere(w) && s.policies == m.cache
    ensures OnRun(PolicyHandler(w), turn, s, m, replies).policies == Run(m, replies).cache
    ensures Alone(w) ==> OnRun(PolicyHandler(w), turn, s, m, replies).tenants == s.tenants
  {
    PolicyHandlerKeeps(w, s.tenants);
    RunKeeps(PolicyHandler(w), PolicyStep(w, s.tenants), turn, s, m, replies);
  }

  /** So from a re-list to the next the operator works from a wrong object under a name exactly when
      it had one, the list did not name it, and nothing has happened to it since: a policy deleted
      while the watch was away goes on declaring its tiers. */
  lemma OperatorWrongIff(w: Moments, turn: nat, s: State, log: seq<Change<PolicyObject>>, m: Mirror<PolicyObject>,
                         replies: seq<Reply<PolicyObject>>, k: string)
    requires PoliciesFromHere(w) && Increasing(log) && AllReadable(log) && m.rv.None? && m.cache == s.policies
    requires replies != [] && replies[0].list.Listing? && Legal(log, m, replies) && Run(m, replies).rv.Some?
    requires LastList(m, None, replies) == Some(Base(replies[0].list.rv.value, HandleAll(m.cache, replies[0].list.items)))
    ensures
      var rv, now := replies[0].list.rv.value, Run(m, replies).rv.value;
      && Seen(log, rv) <= Seen(log, now)
      && (Lookup(OnRun(PolicyHandler(w), turn, s, m, replies).policies, k) != Lookup(Truth(StateAt(log, now)), k)
          <==> k in s.policies && k !in StateAt(log, rv) && !Touched(k, Since(log, rv, now)))
  {
    OperatorFollows(w, turn, s, m, replies);
    WatchRefinement(log, m, replies);
    WrongIff(log, m.cache, replies[0].list.items, replies[0].list.rv.value, Run(m, replies), k);
  }
}
