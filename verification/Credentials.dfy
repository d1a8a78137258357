module Credentials {
  // Which key a Tenant is given: read where, and made of what.

  import opened Wrappers
  import opened Policy
  import opened Operator
  import opened OperatorProofs

  // ---- Trimming ---------------------------------------------------------------------

  /** Space, tab, line feed, carriage return, vertical tab, form feed. */
  predicate Blank(c: char) {
    c in " \t\n\r\U{0B}\U{0C}"
  }

  /** All before i and from j on is blank, and what is in between neither begins nor ends so. */
  predicate TrimsTo(s: string, i: nat, j: nat) {
    && i <= j <= |s| && (forall k | 0 <= k < i :: Blank(s[k])) && (forall k | j <= k < |s| :: Blank(s[k]))
    && (i < j ==> !Blank(s[i]) && !Blank(s[j - 1]))
  }

  /** What is left of s without the blanks at either end. */
  ghost predicate Trimmed(s: string, r: string) {
    exists i: nat, j: nat :: TrimsTo(s, i, j) && r == s[i..j]
  }

  lemma TrimsFront(s: string, i: nat, j: nat)
    requires s != "" && Blank(s[0]) && TrimsTo(s[1..], i, j)
    ensures TrimsTo(s, i + 1, j + 1) && s[1..][i..j] == s[i + 1..j + 1]
  {
    assert forall k | j + 1 <= k < |s| :: s[1..][k - 1] == s[k];
  }

  lemma TrimsBack(s: string, i: nat, j: nat)
    requires s != "" && Blank(s[|s| - 1]) && TrimsTo(s[..|s| - 1], i, j)
    ensures TrimsTo(s, i, j) && s[..|s| - 1][i..j] == s[i..j]
  {
  }

  lemma {:induction false} Trims(s: string) returns (i: nat, j: nat)
    ensures TrimsTo(s, i, j) && TrimSpace(s) == s[i..j]
    decreases |s|
  {
    if s == "" {
      i, j := 0, 0;
    } else if Space(s[0]) {
      i, j := Trims(s[1..]);
      TrimsFront(s, i, j);
      i, j := i + 1, j + 1;
    } else if Space(s[|s| - 1]) {
      i, j := Trims(s[..|s| - 1]);
      TrimsBack(s, i, j);
    } else {
      i, j := 0, |s|;
    }
  }

  /** There is only one way to trim. */
  lemma TrimIsUnique(s: string, i: nat, j: nat, k: nat, l: nat)
    requires TrimsTo(s, i, j) && TrimsTo(s, k, l)
    ensures s[i..j] == s[k..l]
  {
  }

  lemma TrimIs(s: string, r: string)
    ensures Trimmed(s, r) <==> r == TrimSpace(s)
  {
    var i, j := Trims(s);
    if k: nat, l: nat :| TrimsTo(s, k, l) && r == s[k..l] {
      TrimIsUnique(s, i, j, k, l);
    }
  }

  // ---- The key ----------------------------------------------------------------------

  /** The namespace a Tenant's Secret is in: its own, or the operator's if it has none. */
  function NamespaceOf(c: Cluster, t: TenantObject): string {
    if t.namespace != "" then t.namespace else c.namespace
  }

  /** The Secret says this under this name: as plain text if there is any, else decoded from its data,
      where blanks alone do not count; trimmed in either case. */
  ghost predicate Says(c: Cluster, sec: Secret, name: string, key: string) {
    if name in sec.stringData && sec.stringData[name] != "" then Trimmed(sec.stringData[name], key)
    else name in sec.data && c.decode(sec.data[name]).Some? && Trimmed(c.decode(sec.data[name]).value, key) && key != ""
  }

  /** This key is the Tenant's: the one its Secret says, if it refers to one, and the inline one, if there
      is one, only if it does not. */
  ghost predicate Credential(c: Cluster, t: TenantObject, key: string) {
    match t.spec.secretRef
    case Some(ref) =>
      var sec := c.read(NamespaceOf(c, t), ref.name);
      sec.Some? && Says(c, sec.value, ref.key, key)
    case None => key == t.spec.apiKey != ""
  }

  lemma ResolvesIff(c: Cluster, t: TenantObject, key: string)
    ensures ResolveKey(c, t) == Some(key) <==> Credential(c, t, key)
  {
    match t.spec.secretRef
    case Some(ref) =>
      var sec := c.read(NamespaceOf(c, t), ref.name);
      if sec.Some? {
        var plain := if ref.key in sec.value.stringData && sec.value.stringData[ref.key] != "" then Some(sec.value.stringData[ref.key])
                     else if ref.key in sec.value.data then c.decode(sec.value.data[ref.key]) else None;
        if plain.Some? {
          TrimIs(plain.value, key);
        }
      }
    case None =>
  }

  lemma NoKeyIff(c: Cluster, t: TenantObject)
    ensures ResolveKey(c, t) == None <==> forall key :: !Credential(c, t, key)
  {
    forall key
      ensures ResolveKey(c, t) == Some(key) <==> Credential(c, t, key)
    {
      ResolvesIff(c, t, key);
    }
    if ResolveKey(c, t).Some? {
      assert Credential(c, t, ResolveKey(c, t).value);
    }
  }

  /** What serving one Tenant object does: binds its key to its tier and site, if it has a key and its
      tier is live, and nothing otherwise. */
  lemma ServedByCredential(c: Cluster, tiers: map<string, Tier>, v: Serving, owner: string, t: TenantObject)
    ensures forall key | Credential(c, t, key) && t.spec.tier in tiers ::
              && ServeOne(c, tiers, v, owner, t).seen == v.seen[key := owner]
              && ServeOne(c, tiers, v, owner, t).tenants.Keys == v.tenants.Keys + {key}
              && ServeOne(c, tiers, v, owner, t).tenants[key].tier == t.spec.tier
              && (t.spec.tenantId != "" ==> ServeOne(c, tiers, v, owner, t).tenants[key].tenantId == t.spec.tenantId)
              && forall k | k in v.tenants && k != key :: ServeOne(c, tiers, v, owner, t).tenants[k] == v.tenants[k]
    ensures t.spec.tier !in tiers || (forall key :: !Credential(c, t, key)) ==> ServeOne(c, tiers, v, owner, t) == v
  {
    NoKeyIff(c, t);
    forall key | Credential(c, t, key) && t.spec.tier in tiers
      ensures ResolveKey(c, t) == Some(key)
    {
      ResolvesIff(c, t, key);
    }
  }

  /** Key by key, over all objects: after a reconcile a key is managed exactly when it is the credential of
      some Tenant on a live tier, and it is bound to the tier of such a one. */
  lemma ManagedByCredential(c: Cluster, s: State, key: string)
    ensures
      var s' := TenantsReconciled(c, s);
      && (key in s'.managedKeys <==>
            exists k :: k in s.tenants && Credential(c, s.tenants[k], key) && s.tenants[k].spec.tier in s.book.tiers)
      && (key in s'.managedKeys ==>
            && key in s'.book.tenants && s'.managedKeys[key] in s.tenants
            && Credential(c, s.tenants[s'.managedKeys[key]], key)
            && s'.book.tenants[key].tier == s.tenants[s'.managedKeys[key]].spec.tier)
  {
    TenantsSettle(c, s, key);
    forall k | k in s.tenants
      ensures Serves(c, s.book.tiers, s.tenants, k, key) <==> Credential(c, s.tenants[k], key) && s.tenants[k].spec.tier in s.book.tiers
    {
      ResolvesIff(c, s.tenants[k], key);
    }
  }

  /** Two clusters that agree on the one Secret the object refers to, and on what its data decodes to. */
  ghost predicate AgreeOn(c: Cluster, d: Cluster, t: TenantObject) {
    t.spec.secretRef.Some? ==>
      var ref := t.spec.secretRef.value;
      var sec := c.read(NamespaceOf(c, t), ref.name);
      && d.read(NamespaceOf(d, t), ref.name) == sec
      && (sec.Some? && ref.key in sec.value.data ==> c.decode(sec.value.data[ref.key]) == d.decode(sec.value.data[ref.key]))
  }

  /** They serve it alike: no other Secret, and no other name in it, has a part in the key. */
  lemma OtherSecretsAreNothing(c: Cluster, d: Cluster, tiers: map<string, Tier>, v: Serving, owner: string, t: TenantObject)
    requires AgreeOn(c, d, t)
    ensures ServeOne(c, tiers, v, owner, t) == ServeOne(d, tiers, v, owner, t)
  {
  }
}
