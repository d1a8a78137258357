/** What the cache is worth: the server's history replayed up to the cursor. */
module WatchProofs {
  import opened Wrappers
  import opened Watch

  // ---- The server -------------------------------------------------------------------

  /** One committed change.  Versions only grow; they need not be consecutive, since other
      resources draw from the same counter. */
  datatype Change<V> = Change(rv: nat, key: string, deleted: bool, item: Item<V>)

  ghost predicate Increasing<V>(log: seq<Change<V>>) {
    forall i, j | 0 <= i < j < |log| :: log[i].rv < log[j].rv
  }

  /** How many changes a version covers. */
  ghost function Seen<V>(log: seq<Change<V>>, rv: nat): (n: nat)
    ensures n <= |log|
  {
    if log == [] then 0
    else if log[|log| - 1].rv <= rv then |log|
    else Seen(log[..|log| - 1], rv)
  }

  lemma {:induction false} SeenSplits<V>(log: seq<Change<V>>, rv: nat)
    requires Increasing(log)
    ensures forall i | 0 <= i < Seen(log, rv) :: log[i].rv <= rv
    ensures forall i | Seen(log, rv) <= i < |log| :: rv < log[i].rv
  {
    if log != [] && rv < log[|log| - 1].rv {
      SeenSplits(log[..|log| - 1], rv);
    }
  }

  lemma {:induction false} SeenIs<V>(log: seq<Change<V>>, rv: nat, n: nat)
    requires n <= |log|
    requires forall i | 0 <= i < n :: log[i].rv <= rv
    requires forall i | n <= i < |log| :: rv < log[i].rv
    ensures Seen(log, rv) == n
  {
    if log != [] && rv < log[|log| - 1].rv {
      SeenIs(log[..|log| - 1], rv, n);
    }
  }

  /** What the server holds after these changes. */
  ghost function Stored<V>(log: seq<Change<V>>): map<string, Item<V>> {
    if log == [] then map[]
    else
      var last := log[|log| - 1];
      var before := Stored(log[..|log| - 1]);
      if last.deleted then before - {last.key} else before[last.key := last.item]
  }

  ghost function StateAt<V>(log: seq<Change<V>>, rv: nat): map<string, Item<V>> {
    Stored(log[..Seen(log, rv)])
  }

  // ---- Answers the server may give --------------------------------------------------

  /** A list is some snapshot, recent or stale, under its own version. */
  ghost predicate Lists<V>(items: seq<Entry<V>>, state: map<string, Item<V>>) {
    && (forall e | e in items :: e.key in state && state[e.key] == e.item)
    && (forall k | k in state :: exists i :: 0 <= i < |items| && items[i].key == k)
  }

  ghost predicate LegalList<V>(log: seq<Change<V>>, reply: ListReply<V>) {
    reply.Listing? ==> reply.rv.Some? && Lists(reply.items, StateAt(log, reply.rv.value))
  }

  /** The change that follows a version. */
  ghost predicate Next<V>(log: seq<Change<V>>, c: nat, e: Event<V>)
    requires e.Changed?
  {
    && e.rv.Some? && Seen(log, c) < |log|
    && log[Seen(log, c)] == Change(e.rv.value, e.key, e.deleted, e.item)
  }

  /** A bookmark names a version that nothing has happened up to. */
  ghost predicate Quiet<V>(log: seq<Change<V>>, c: nat, b: nat) {
    c <= b && Seen(log, b) == Seen(log, c)
  }

  /** A stream opened at c: the changes after c in order, bookmarks where they are true, and a
      failure or an end anywhere. */
  ghost predicate LegalStream<V>(log: seq<Change<V>>, c: nat, events: seq<Event<V>>)
    decreases |events|
  {
    if events == [] then true
    else
      match events[0]
      case Failure(_) => true
      case Bookmark(b) => (b.Some? ==> Quiet(log, c, b.value)) && LegalStream(log, if b.Some? then b.value else c, events[1..])
      case Changed(_, _, _, _) => Next(log, c, events[0]) && LegalStream(log, events[0].rv.value, events[1..])
  }

  ghost predicate LegalWatch<V>(log: seq<Change<V>>, c: nat, reply: WatchReply<V>) {
    reply.Stream? ==> LegalStream(log, c, reply.events)
  }

  datatype Reply<V> = Reply(list: ListReply<V>, watch: WatchReply<V>)

  /** The version the watch of this turn is opened at, if one is. */
  ghost function OpenedAt<V>(m: Mirror<V>, r: Reply<V>): Option<nat> {
    if m.rv.Some? then m.rv else if r.list.Listing? then r.list.rv else None
  }

  ghost predicate LegalTurn<V>(log: seq<Change<V>>, m: Mirror<V>, r: Reply<V>) {
    && (m.rv.None? ==> LegalList(log, r.list))
    && (OpenedAt(m, r).Some? ==> LegalWatch(log, OpenedAt(m, r).value, r.watch))
  }

  // ---- Runs -------------------------------------------------------------------------

  ghost function Run<V>(m: Mirror<V>, replies: seq<Reply<V>>): Mirror<V>
    decreases |replies|
  {
    if replies == [] then m else Run(Turned(m, replies[0].list, replies[0].watch), replies[1..])
  }

  ghost predicate Legal<V>(log: seq<Change<V>>, m: Mirror<V>, replies: seq<Reply<V>>)
    decreases |replies|
  {
    replies == [] || (LegalTurn(log, m, replies[0])
                      && Legal(log, Turned(m, replies[0].list, replies[0].watch), replies[1..]))
  }

  /** The last list of a run: its version, and the cache it left. */
  datatype Base<V> = Base(rv: nat, cache: map<string, V>)

  ghost function LastList<V>(m: Mirror<V>, base: Option<Base<V>>, replies: seq<Reply<V>>): Option<Base<V>>
    decreases |replies|
  {
    if replies == [] then base
    else
      var r := replies[0];
      var base' := if m.rv.None? && r.list.Listing? && r.list.rv.Some?
                   then Some(Base(r.list.rv.value, HandleAll(m.cache, r.list.items))) else base;
      LastList(Turned(m, r.list, r.watch), base', replies[1..])
  }

  /** The handler run over a stretch of history. */
  ghost function Replay<V>(cache: map<string, V>, log: seq<Change<V>>): map<string, V> {
    if log == [] then cache
    else
      var last := log[|log| - 1];
      Handle(Replay(cache, log[..|log| - 1]), last.key, last.deleted, last.item)
  }

  /** The changes a cache has had since a version. */
  ghost function Since<V>(log: seq<Change<V>>, from: nat, to: nat): seq<Change<V>>
    requires Seen(log, from) <= Seen(log, to)
  {
    log[Seen(log, from)..Seen(log, to)]
  }

  /** The cache is the last list with the history up to the cursor replayed on it. */
  ghost predicate InSync<V>(log: seq<Change<V>>, base: Option<Base<V>>, m: Mirror<V>) {
    m.rv.Some? ==>
      && base.Some? && Seen(log, base.value.rv) <= Seen(log, m.rv.value)
      && m.cache == Replay(base.value.cache, Since(log, base.value.rv, m.rv.value))
  }

  lemma NextAdvances<V>(log: seq<Change<V>>, c: nat, e: Event<V>)
    requires Increasing(log) && e.Changed? && Next(log, c, e)
    ensures Seen(log, e.rv.value) == Seen(log, c) + 1
  {
    SeenSplits(log, c);
    SeenIs(log, e.rv.value, Seen(log, c) + 1);
  }

  lemma ReplayOne<V>(cache: map<string, V>, log: seq<Change<V>>, a: nat, n: nat)
    requires a <= n < |log|
    ensures Replay(cache, log[a..n + 1]) == Handle(Replay(cache, log[a..n]), log[n].key, log[n].deleted, log[n].item)
  {
    assert log[a..n + 1][..n - a] == log[a..n];
  }

  lemma TookInSync<V>(log: seq<Change<V>>, base: Option<Base<V>>, m: Mirror<V>, e: Event<V>)
    requires Increasing(log) && m.rv.Some? && InSync(log, base, m)
    requires e.Bookmark? && e.rv.Some? ==> Quiet(log, m.rv.value, e.rv.value)
    requires e.Changed? ==> Next(log, m.rv.value, e)
    requires !e.Failure?
    ensures Took(m, e).rv.Some? && InSync(log, base, Took(m, e))
    ensures Took(m, e).rv == if e.rv.Some? then e.rv else m.rv
  {
    if e.Changed? {
      NextAdvances(log, m.rv.value, e);
      ReplayOne(base.value.cache, log, Seen(log, base.value.rv), Seen(log, m.rv.value));
    }
  }

  lemma {:induction false} StreamInSync<V>(log: seq<Change<V>>, base: Option<Base<V>>, m: Mirror<V>,
                                           events: seq<Event<V>>, end: StreamEnd)
    requires Increasing(log) && m.rv.Some? && InSync(log, base, m) && LegalStream(log, m.rv.value, events)
    ensures Streamed(m, events, end).0.rv.Some? && InSync(log, base, Streamed(m, events, end).0)
    decreases |events|
  {
    if events != [] && !events[0].Failure? {
      TookInSync(log, base, m, events[0]);
      StreamInSync(log, base, Took(m, events[0]), events[1..], end);
    }
  }

  /** A turn's watch and its conclusion, from a cursor. */
  lemma WatchInSync<V>(log: seq<Change<V>>, base: Option<Base<V>>, m: Mirror<V>, reply: WatchReply<V>)
    requires Increasing(log) && m.rv.Some? && InSync(log, base, m) && LegalWatch(log, m.rv.value, reply)
    ensures InSync(log, base, Concluded(Watched(m, reply).0, Watched(m, reply).1))
  {
    if reply.Stream? {
      StreamInSync(log, base, m.(stats := m.stats.(watches := m.stats.watches + 1)), reply.events, reply.end);
    }
  }

  lemma {:induction false} Refinement<V>(log: seq<Change<V>>, m: Mirror<V>, base: Option<Base<V>>, replies: seq<Reply<V>>)
    requires Increasing(log) && InSync(log, base, m) && Legal(log, m, replies)
    ensures InSync(log, LastList(m, base, replies), Run(m, replies))
    decreases |replies|
  {
    if replies != [] {
      var r := replies[0];
      if m.rv.None? && r.list.ListFailed? {
        Refinement(log, Turned(m, r.list, r.watch), base, replies[1..]);
      } else if m.rv.None? {
        var m1 := Relisted(m, r.list.items, r.list.rv).(attempt := 0);
        var base' := Some(Base(r.list.rv.value, m1.cache));
        assert log[Seen(log, r.list.rv.value)..Seen(log, r.list.rv.value)] == [];
        WatchInSync(log, base', m1, r.watch);
        Refinement(log, Turned(m, r.list, r.watch), base', replies[1..]);
      } else {
        WatchInSync(log, base, m, r.watch);
        Refinement(log, Turned(m, r.list, r.watch), base, replies[1..]);
      }
    }
  }

  /** Between two lists the cache is exactly the last list with the server's history replayed
      up to the cursor, over any number of reconnects, bookmarks, errors and stale lists. */
  lemma WatchRefinement<V>(log: seq<Change<V>>, m: Mirror<V>, replies: seq<Reply<V>>)
    requires Increasing(log) && m.rv.None? && Legal(log, m, replies)
    ensures InSync(log, LastList(m, None, replies), Run(m, replies))
  {
    Refinement(log, m, None, replies);
  }

  // ---- What a cache agrees with -----------------------------------------------------

  function Lookup<V>(m: map<string, V>, k: string): Option<V> {
    if k in m then Some(m[k]) else None
  }

  /** The decodable part of what the server holds. */
  ghost function Truth<V>(state: map<string, Item<V>>): map<string, V> {
    map k | k in state && state[k].Readable? :: state[k].value
  }

  ghost predicate AllReadable<V>(log: seq<Change<V>>) {
    forall i | 0 <= i < |log| :: log[i].item.Readable?
  }

  ghost predicate Touched<V>(k: string, log: seq<Change<V>>) {
    exists i :: 0 <= i < |log| && log[i].key == k
  }

  /** After a list: what it names is the server's, the rest is what was there before. */
  lemma {:induction false} ListedEntry<V>(cache: map<string, V>, items: seq<Entry<V>>, state: map<string, Item<V>>, k: string)
    requires forall e | e in items :: e.key in state && state[e.key] == e.item
    ensures Lookup(HandleAll(cache, items), k)
            == if (exists e :: e in items && e.key == k && e.item.Readable?) then Lookup(Truth(state), k) else Lookup(cache, k)
  {
    if items != [] {
      var n := |items| - 1;
      ListedEntry(cache, items[..n], state, k);
      assert items[n] in items;
      assert forall e :: e in items <==> e in items[..n] || e == items[n];
    }
  }

  lemma ListOverlays<V>(cache: map<string, V>, items: seq<Entry<V>>, state: map<string, Item<V>>, k: string)
    requires Lists(items, state)
    ensures Lookup(HandleAll(cache, items), k) == if k in Truth(state) then Lookup(Truth(state), k) else Lookup(cache, k)
  {
    ListedEntry(cache, items, state, k);
    if k in state {
      var i :| 0 <= i < |items| && items[i].key == k;
      assert items[i] in items;
    }
  }

  /** A list repairs the cache exactly when nothing cached is missing from it. */
  lemma ListExactIff<V>(cache: map<string, V>, items: seq<Entry<V>>, state: map<string, Item<V>>)
    requires Lists(items, state)
    ensures HandleAll(cache, items) == Truth(state) <==> cache.Keys <= Truth(state).Keys
  {
    forall k
      ensures Lookup(HandleAll(cache, items), k) == if k in Truth(state) then Lookup(Truth(state), k) else Lookup(cache, k)
    {
      ListOverlays(cache, items, state, k);
    }
    if cache.Keys <= Truth(state).Keys {
      SameLookups(HandleAll(cache, items), Truth(state));
    }
    if HandleAll(cache, items) == Truth(state) {
      forall k | k in cache
        ensures k in Truth(state)
      {
        assert Lookup(HandleAll(cache, items), k) == Lookup(Truth(state), k);
      }
    }
  }

  lemma SameLookups<V>(a: map<string, V>, b: map<string, V>)
    requires forall k :: Lookup(a, k) == Lookup(b, k)
    ensures a == b
  {
    forall k
      ensures k in a <==> k in b
      ensures k in a ==> a[k] == b[k]
    {
      assert Lookup(a, k) == Lookup(b, k);
    }
  }

  lemma {:induction false} ReplayEntry<V>(a: map<string, V>, b: map<string, V>, log: seq<Change<V>>, k: string)
    requires AllReadable(log)
    ensures Touched(k, log) ==> Lookup(Replay(a, log), k) == Lookup(Replay(b, log), k)
    ensures !Touched(k, log) ==> Lookup(Replay(a, log), k) == Lookup(a, k)
  {
    if log != [] {
      var n := |log| - 1;
      ReplayEntry(a, b, log[..n], k);
      if log[n].key != k {
        assert Touched(k, log) ==> Touched(k, log[..n]);
        assert Touched(k, log[..n]) ==> Touched(k, log);
      }
    }
  }

  lemma StoredNext<V>(log: seq<Change<V>>, n: nat)
    requires n < |log|
    ensures
      var before, ch := Stored(log[..n]), log[n];
      Stored(log[..n + 1]) == if ch.deleted then before - {ch.key} else before[ch.key := ch.item]
  {
    assert log[..n + 1][..n] == log[..n];
  }

  lemma TruthNext<V>(log: seq<Change<V>>, n: nat, m: nat, t: map<string, V>)
    requires n <= m < |log| && AllReadable(log)
    requires Truth(Stored(log[..m])) == Replay(t, log[n..m])
    ensures Truth(Stored(log[..m + 1])) == Replay(t, log[n..m + 1])
  {
    ReplayOne(t, log, n, m);
    StoredNext(log, m);
  }

  lemma {:induction false} TruthReplays<V>(log: seq<Change<V>>, n: nat, m: nat, t: map<string, V>)
    requires n <= m <= |log| && AllReadable(log) && t == Truth(Stored(log[..n]))
    ensures Truth(Stored(log[..m])) == Replay(t, log[n..m])
    decreases m
  {
    if n < m {
      TruthReplays(log, n, m - 1, t);
      TruthNext(log, n, m - 1, t);
    } else {
      assert log[n..m] == [];
    }
  }

  /** Key by key, for decodable histories: while the cursor is set, the cache has the server's
      entry exactly when the key has changed since the last list, or that list left it right. */
  lemma AgreesIff<V>(log: seq<Change<V>>, base: Option<Base<V>>, m: Mirror<V>, k: string)
    requires Increasing(log) && AllReadable(log) && m.rv.Some? && InSync(log, base, m)
    ensures Lookup(m.cache, k) == Lookup(Truth(StateAt(log, m.rv.value)), k) <==>
            Touched(k, Since(log, base.value.rv, m.rv.value))
            || Lookup(base.value.cache, k) == Lookup(Truth(StateAt(log, base.value.rv)), k)
  {
    var from, to := base.value.rv, m.rv.value;
    var truth, since := Truth(StateAt(log, from)), Since(log, from, to);
    TruthReplays(log, Seen(log, from), Seen(log, to), truth);
    ReplayEntry(base.value.cache, truth, since, k);
    ReplayEntry(truth, base.value.cache, since, k);
  }

  /** Put together for the turn that lists: from then on, and until the next list, a key is wrong
      exactly when it was cached, is not in the snapshot, and has not changed since. */
  lemma WrongIff<V>(log: seq<Change<V>>, cache: map<string, V>, items: seq<Entry<V>>, rv: nat, m: Mirror<V>, k: string)
    requires Increasing(log) && AllReadable(log) && Lists(items, StateAt(log, rv))
    requires m.rv.Some? && InSync(log, Some(Base(rv, HandleAll(cache, items))), m)
    ensures Lookup(m.cache, k) != Lookup(Truth(StateAt(log, m.rv.value)), k) <==>
            k in cache && k !in StateAt(log, rv) && !Touched(k, Since(log, rv, m.rv.value))
  {
    AgreesIff(log, Some(Base(rv, HandleAll(cache, items))), m, k);
    ListOverlays(cache, items, StateAt(log, rv), k);
    ReadableTruth(log, Seen(log, rv));
  }

  lemma {:induction false} ReadableTruth<V>(log: seq<Change<V>>, n: nat)
    requires n <= |log| && AllReadable(log)
    ensures forall k | k in Stored(log[..n]) :: k in Truth(Stored(log[..n]))
  {
    if n > 0 {
      ReadableTruth(log, n - 1);
      assert log[..n][..n - 1] == log[..n - 1];
    }
  }

  /** A reflector that starts empty and has listed once holds what the server holds. */
  lemma FirstSync<V>(log: seq<Change<V>>, items: seq<Entry<V>>, rv: nat, m: Mirror<V>)
    requires Increasing(log) && AllReadable(log) && Lists(items, StateAt(log, rv))
    requires m.rv.Some? && InSync(log, Some(Base(rv, HandleAll(map[], items))), m)
    ensures m.cache == Truth(StateAt(log, m.rv.value))
  {
    forall k
      ensures Lookup(m.cache, k) == Lookup(Truth(StateAt(log, m.rv.value)), k)
    {
      WrongIff(log, map[], items, rv, m, k);
    }
    SameLookups(m.cache, Truth(StateAt(log, m.rv.value)));
  }

  // ---- What a re-list cannot see ----------------------------------------------------

  ghost predicate MentionsInStream<V>(events: seq<Event<V>>, k: string) {
    exists i :: 0 <= i < |events| && events[i].Changed? && events[i].key == k
  }

  ghost predicate Mentions<V>(r: Reply<V>, k: string) {
    || (r.list.Listing? && exists i :: 0 <= i < |r.list.items| && r.list.items[i].key == k)
    || (r.watch.Stream? && MentionsInStream(r.watch.events, k))
  }

  lemma {:induction false} StreamSilent<V>(m: Mirror<V>, events: seq<Event<V>>, end: StreamEnd, k: string)
    requires !MentionsInStream(events, k)
    ensures Lookup(Streamed(m, events, end).0.cache, k) == Lookup(m.cache, k)
    decreases |events|
  {
    if events != [] && !events[0].Failure? {
      StreamSilent(Took(m, events[0]), events[1..], end, k);
    }
  }

  lemma {:induction false} ListSilent<V>(cache: map<string, V>, items: seq<Entry<V>>, k: string)
    requires !exists i :: 0 <= i < |items| && items[i].key == k
    ensures Lookup(HandleAll(cache, items), k) == Lookup(cache, k)
  {
    if items != [] {
      ListSilent(cache, items[..|items| - 1], k);
    }
  }

  /** A key no reply names keeps its entry, over any number of re-lists: an object deleted while
      the watch was away is served for as long as the process runs. */
  lemma {:induction false} UnseenDeletionStays<V>(m: Mirror<V>, replies: seq<Reply<V>>, k: string)
    requires forall i | 0 <= i < |replies| :: !Mentions(replies[i], k)
    ensures Lookup(Run(m, replies).cache, k) == Lookup(m.cache, k)
    decreases |replies|
  {
    if replies != [] {
      var r := replies[0];
      assert !Mentions(r, k);
      if r.list.Listing? {
        ListSilent(m.cache, r.list.items, k);
      }
      if !(m.rv.None? && r.list.ListFailed?) && r.watch.Stream? {
        var m1 := if m.rv.None? then Relisted(m, r.list.items, r.list.rv).(attempt := 0) else m;
        StreamSilent(m1.(stats := m1.stats.(watches := m1.stats.watches + 1)), r.watch.events, r.watch.end, k);
      }
      UnseenDeletionStays(Turned(m, r.list, r.watch), replies[1..], k);
    }
  }

  /** The history in which it happens: an object is listed, the cursor expires, the object is
      deleted, and the second list is empty. */
  lemma DeletedInTheGap<V>(k: string, v: V)
    ensures
      var log := [Change(1, k, false, Readable(v)), Change(2, k, true, Readable(v))];
      var first := Reply(Listing([Entry(k, Readable(v))], Some(1)), Refused(410));
      var second := Reply(Listing([], Some(2)), Stream([], Closed));
      var m := Mirror(None, map[], false, 0, Stats(0, 0, 0, 0, 0, 0));
      && Increasing(log) && Legal(log, m, [first, second])
      && Run(m, [first, second]).rv == Some(2)
      && StateAt(log, 2) == map[] && Run(m, [first, second]).cache == map[k := v]
  {
    var log := [Change(1, k, false, Readable(v)), Change(2, k, true, Readable(v))];
    var first := Reply(Listing([Entry(k, Readable(v))], Some(1)), Refused(410));
    var second := Reply(Listing([], Some(2)), Stream([], Closed));
    var m := Mirror(None, map[], false, 0, Stats(0, 0, 0, 0, 0, 0));
    TwoChanges(log);
    OneListed(map[], Entry(k, Readable(v)));
    assert [Entry(k, Readable(v))][0].key == k;
    TwoTurns(m, first, second);
  }

  lemma OneListed<V>(cache: map<string, V>, e: Entry<V>)
    ensures HandleAll(cache, [e]) == Handle(cache, e.key, false, e.item)
  {
    assert [e][..0] == [];
  }

  lemma TwoTurns<V>(m: Mirror<V>, a: Reply<V>, b: Reply<V>)
    ensures Run(m, [a, b]) == Turned(Turned(m, a.list, a.watch), b.list, b.watch)
    ensures forall log {:trigger Legal(log, m, [a, b])} ::
              Legal(log, m, [a, b]) == (LegalTurn(log, m, a) && LegalTurn(log, Turned(m, a.list, a.watch), b))
  {
    var m1 := Turned(m, a.list, a.watch);
    assert [a, b][1..] == [b] && [b][1..] == [];
    assert Run(m1, [b]) == Turned(m1, b.list, b.watch);
    forall log: seq<Change<V>>
      ensures Legal(log, m1, [b]) == LegalTurn(log, m1, b)
    {
    }
  }

  lemma TwoChanges<V>(log: seq<Change<V>>)
    requires |log| == 2 && log[0].rv == 1 && log[1].rv == 2 && log[0].key == log[1].key
    requires !log[0].deleted && log[1].deleted
    ensures Increasing(log)
    ensures StateAt(log, 1) == map[log[0].key := log[0].item] && StateAt(log, 2) == map[]
  {
    var one := log[..1];
    assert one[..0] == [] && one[0] == log[0];
    assert Stored(one) == map[log[0].key := log[0].item];
    assert log[..2] == log;
    assert Stored(log) == Stored(one) - {log[1].key};
    assert Seen(one, 1) == 1;
  }

  // ---- The counters -----------------------------------------------------------------

  /** Every list but the current one was ended by an expired cursor, and the reflector calls
      itself synced exactly while it holds a cursor. */
  ghost predicate Counted<V>(m: Mirror<V>) {
    && m.stats.lists == m.stats.relists + (if m.rv.Some? then 1 else 0)
    && (m.synced <==> m.rv.Some?)
  }

  lemma {:induction false} StreamCounted<V>(m: Mirror<V>, events: seq<Event<V>>, end: StreamEnd)
    requires m.rv.Some? && Counted(m)
    ensures Streamed(m, events, end).0.rv.Some? && Counted(Streamed(m, events, end).0)
    decreases |events|
  {
    if events != [] && !events[0].Failure? {
      StreamCounted(Took(m, events[0]), events[1..], end);
    }
  }

  lemma TurnCounted<V>(m: Mirror<V>, r: Reply<V>)
    requires Counted(m) && (m.rv.None? && r.list.Listing? ==> r.list.rv.Some?)
    ensures Counted(Turned(m, r.list, r.watch))
  {
    if !(m.rv.None? && r.list.ListFailed?) {
      var m1 := if m.rv.None? then Relisted(m, r.list.items, r.list.rv).(attempt := 0) else m;
      if r.watch.Stream? {
        StreamCounted(m1.(stats := m1.stats.(watches := m1.stats.watches + 1)), r.watch.events, r.watch.end);
      }
    }
  }

  lemma {:induction false} ListsCountRelists<V>(log: seq<Change<V>>, m: Mirror<V>, replies: seq<Reply<V>>)
    requires Counted(m) && Legal(log, m, replies)
    ensures Counted(Run(m, replies))
    decreases |replies|
  {
    if replies != [] {
      TurnCounted(m, replies[0]);
      ListsCountRelists(log, Turned(m, replies[0].list, replies[0].watch), replies[1..]);
    }
  }

  // ---- How a watch ends -------------------------------------------------------------

  /** The cursor after these events: the last version any of them carried. */
  function LastRead<V>(rv: Option<nat>, events: seq<Event<V>>): Option<nat>
    requires forall e | e in events :: !e.Failure?
  {
    if events == [] then rv
    else
      var last := events[|events| - 1];
      if last.rv.Some? then last.rv else LastRead(rv, events[..|events| - 1])
  }

  /** What they do to the cache, one handler call for each change. */
  function AfterAll<V>(cache: map<string, V>, events: seq<Event<V>>): map<string, V>
    requires forall e | e in events :: !e.Failure?
  {
    if events == [] then cache
    else
      var n := |events| - 1;
      var before, e := AfterAll(cache, events[..n]), events[n];
      if e.Bookmark? || e.item.Garbled? then before
      else if e.deleted then before - {e.key}
      else before[e.key := e.item.value]
  }

  function ChangesIn<V>(events: seq<Event<V>>): (n: nat)
    ensures n <= |events|
  {
    if events == [] then 0 else ChangesIn(events[..|events| - 1]) + if events[|events| - 1].Changed? then 1 else 0
  }

  /** The mirror after events that are not failures. */
  ghost predicate ReadThrough<V>(m: Mirror<V>, events: seq<Event<V>>, m': Mirror<V>)
    requires forall e | e in events :: !e.Failure?
  {
    && m'.rv == LastRead(m.rv, events) && m'.cache == AfterAll(m.cache, events)
    && m'.synced == m.synced && m'.attempt == m.attempt
    && m'.stats == m.stats.(events := m.stats.events + ChangesIn(events), bookmarks := m.stats.bookmarks + |events| - ChangesIn(events))
  }

  lemma {:induction false} TookAll<V>(m: Mirror<V>, events: seq<Event<V>>) returns (m': Mirror<V>)
    requires forall e | e in events :: !e.Failure?
    ensures ReadThrough(m, events, m')
    ensures forall rest, end {:trigger Streamed(m, events + rest, end)} :: Streamed(m, events + rest, end) == Streamed(m', rest, end)
    decreases |events|
  {
    if events == [] {
      m' := m;
      forall rest: seq<Event<V>>, end
        ensures Streamed(m, events + rest, end) == Streamed(m', rest, end)
      {
        assert events + rest == rest;
      }
    } else {
      var n := |events| - 1;
      var m1 := TookAll(m, events[..n]);
      assert events[n] in events;
      m' := Took(m1, events[n]);
      forall rest: seq<Event<V>>, end
        ensures Streamed(m, events + rest, end) == Streamed(m', rest, end)
      {
        assert events + rest == events[..n] + ([events[n]] + rest);
        assert ([events[n]] + rest)[1..] == rest;
      }
    }
  }

  /** A mirror that watched this far and was told to start over. */
  ghost predicate StartsOver<V>(m: Mirror<V>, before: Mirror<V>) {
    && m.rv == None && !m.synced && m.attempt == 0 && m.cache == before.cache
    && m.stats.relists == before.stats.relists + 1 && m.stats.errors == before.stats.errors
  }

  ghost predicate BacksOff<V>(m: Mirror<V>, before: Mirror<V>, rv: Option<nat>) {
    && m.rv == rv && m.synced == before.synced && m.attempt == before.attempt + 1 && m.cache == before.cache
    && m.stats.relists == before.stats.relists && m.stats.errors == before.stats.errors + 1
  }

  /** A status in the stream, whatever was read before it and whatever is left unread behind it.  410, and
      nothing else, costs the cursor; any other keeps the last version read, and backs off. */
  lemma StatusInStream<V>(m: Mirror<V>, l: ListReply<V>, events: seq<Event<V>>, code: int, rest: seq<Event<V>>,
                          end: StreamEnd)
    requires m.rv.Some? && forall e | e in events :: !e.Failure?
    ensures
      var m', seen := Turned(m, l, Stream(events + ([Failure(code)] + rest), end)), m.(cache := AfterAll(m.cache, events));
      if code == 410 then StartsOver(m', seen) else BacksOff(m', seen, LastRead(m.rv, events))
  {
    var watching := m.(stats := m.stats.(watches := m.stats.watches + 1));
    var m1 := TookAll(watching, events);
    assert ([Failure(code)] + rest)[0] == Failure(code);
  }

  /** The same of a watch that is refused outright. */
  lemma StatusAtOnce<V>(m: Mirror<V>, l: ListReply<V>, code: int)
    requires m.rv.Some?
    ensures if code == 410 then StartsOver(Turned(m, l, Refused(code)), m) else BacksOff(Turned(m, l, Refused(code)), m, m.rv)
  {
  }

  /** A stream that ends of itself keeps the last version read: at once if it was closed, after a while
      if it broke. */
  lemma StreamEnds<V>(m: Mirror<V>, l: ListReply<V>, events: seq<Event<V>>, end: StreamEnd)
    requires m.rv.Some? && forall e | e in events :: !e.Failure?
    ensures
      var m', seen := Turned(m, l, Stream(events, end)), m.(cache := AfterAll(m.cache, events));
      if end.Broken? then BacksOff(m', seen, LastRead(m.rv, events))
      else m'.rv == LastRead(m.rv, events) && m'.cache == seen.cache && m'.attempt == 0 && m'.synced == m.synced
           && m'.stats.errors == m.stats.errors && m'.stats.relists == m.stats.relists
  {
    var watching := m.(stats := m.stats.(watches := m.stats.watches + 1));
    var m1 := TookAll(watching, events);
    assert events + [] == events;
    assert Streamed(watching, events + [], end) == Streamed(m1, [], end);
  }

  /** And a mirror that starts over takes the next good list whole, objects first and cursor then, and
      watches from there. */
  lemma ListsAgain<V>(m: Mirror<V>, items: seq<Entry<V>>, rv: Option<nat>)
    requires m.rv == None && rv.Some?
    ensures
      var m' := Turned(m, Listing(items, rv), NoAnswer);
      && m'.rv == rv && m'.synced && m'.attempt == 0 && m'.cache == HandleAll(m.cache, items)
      && m'.stats.lists == m.stats.lists + 1
    ensures Turned(m, ListFailed, NoAnswer) == m.(attempt := m.attempt + 1, stats := m.stats.(errors := m.stats.errors + 1))
  {
  }
}
