module WatchHandlers {
  // A handler behind the reflector: what it is called with over lists, streams, turns and runs, and
  // what it keeps in step with the mirror.

  import opened Wrappers
  import opened Watch
  import opened WatchProofs

  /** What a call does to the handler's state: the turn, the place in it, and the item. */
  type Handler<!S, !V> = (nat, nat, S, string, bool, Item<V>) -> S

  /** A list: every item an ADDED, in order. */
  ghost function OnItems<S, V>(h: Handler<S, V>, turn: nat, s: S, items: seq<Entry<V>>): S {
    if items == [] then s
    else
      var n := |items| - 1;
      h(turn, n, OnItems(h, turn, s, items[..n]), items[n].key, false, items[n].item)
  }

  /** A stream, up to its end or its first failure; a bookmark is nothing to the handler. */
  ghost function OnStream<S, V>(h: Handler<S, V>, turn: nat, at: nat, s: S, events: seq<Event<V>>): S
    decreases |events|
  {
    if events == [] || events[0].Failure? then s
    else
      var e := events[0];
      OnStream(h, turn, at + 1, if e.Changed? then h(turn, at, s, e.key, e.deleted, e.item) else s, events[1..])
  }

  /** One turn of the reflector, as its handler sees it. */
  ghost function OnTurn<S, V>(h: Handler<S, V>, turn: nat, s: S, m: Mirror<V>, r: Reply<V>): S {
    if m.rv.None? && r.list.ListFailed? then s
    else
      var s1 := if m.rv.None? then OnItems(h, turn, s, r.list.items) else s;
      if !r.watch.Stream? then s1
      else OnStream(h, turn, if m.rv.None? then |r.list.items| else 0, s1, r.watch.events)
  }

  ghost function OnRun<S, V>(h: Handler<S, V>, turn: nat, s: S, m: Mirror<V>, replies: seq<Reply<V>>): S
    decreases |replies|
  {
    if replies == [] then s
    else OnRun(h, turn + 1, OnTurn(h, turn, s, m, replies[0]), Turned(m, replies[0].list, replies[0].watch), replies[1..])
  }

  /** Each call keeps the state in this relation to the mirror's cache. */
  ghost predicate Keeps<S(!new), V(!new)>(h: Handler<S, V>, inStep: (S, map<string, V>) -> bool) {
    forall turn: nat, at: nat, s, cache, key, deleted, item | inStep(s, cache) ::
      inStep(h(turn, at, s, key, deleted, item), Handle(cache, key, deleted, item))
  }

  lemma {:induction false} ItemsKeep<S(!new), V(!new)>(h: Handler<S, V>, inStep: (S, map<string, V>) -> bool, turn: nat,
                                                       s: S, cache: map<string, V>, items: seq<Entry<V>>)
    requires Keeps(h, inStep) && inStep(s, cache)
    ensures inStep(OnItems(h, turn, s, items), HandleAll(cache, items))
  {
    if items != [] {
      ItemsKeep(h, inStep, turn, s, cache, items[..|items| - 1]);
    }
  }

  lemma {:induction false} StreamKeeps<S(!new), V(!new)>(h: Handler<S, V>, inStep: (S, map<string, V>) -> bool, turn: nat,
                                                         at: nat, s: S, m: Mirror<V>, events: seq<Event<V>>,
                                                         end: StreamEnd)
    requires Keeps(h, inStep) && inStep(s, m.cache)
    ensures inStep(OnStream(h, turn, at, s, events), Streamed(m, events, end).0.cache)
    decreases |events|
  {
    if events != [] && !events[0].Failure? {
      var e := events[0];
      StreamKeeps(h, inStep, turn, at + 1, if e.Changed? then h(turn, at, s, e.key, e.deleted, e.item) else s, Took(m, e), events[1..], end);
    }
  }

  lemma TurnKeeps<S(!new), V(!new)>(h: Handler<S, V>, inStep: (S, map<string, V>) -> bool, turn: nat, s: S, m: Mirror<V>,
                                    r: Reply<V>)
    requires Keeps(h, inStep) && inStep(s, m.cache)
    ensures inStep(OnTurn(h, turn, s, m, r), Turned(m, r.list, r.watch).cache)
  {
    if !(m.rv.None? && r.list.ListFailed?) {
      var m1 := if m.rv.None? then Relisted(m, r.list.items, r.list.rv).(attempt := 0) else m;
      var s1 := if m.rv.None? then OnItems(h, turn, s, r.list.items) else s;
      if m.rv.None? {
        ItemsKeep(h, inStep, turn, s, m.cache, r.list.items);
      }
      if r.watch.Stream? {
        StreamKeeps(h, inStep, turn, if m.rv.None? then |r.list.items| else 0, s1,
                    m1.(stats := m1.stats.(watches := m1.stats.watches + 1)), r.watch.events, r.watch.end);
      }
    }
  }

  /** Whatever each call keeps in step stays in step over any run of the reflector: re-lists, errors,
      reconnects and all. */
  lemma {:induction false} RunKeeps<S(!new), V(!new)>(h: Handler<S, V>, inStep: (S, map<string, V>) -> bool, turn: nat,
                                                      s: S, m: Mirror<V>, replies: seq<Reply<V>>)
    requires Keeps(h, inStep) && inStep(s, m.cache)
    ensures inStep(OnRun(h, turn, s, m, replies), Run(m, replies).cache)
    decreases |replies|
  {
    if replies != [] {
      TurnKeeps(h, inStep, turn, s, m, replies[0]);
      RunKeeps(h, inStep, turn + 1, OnTurn(h, turn, s, m, replies[0]), Turned(m, replies[0].list, replies[0].watch), replies[1..]);
    }
  }
}
