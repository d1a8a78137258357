/** LIST then WATCH (internal/k8s/watch.go), and the cache its handler keeps.  A resource
    version is opaque to the client, which only stores it and sends it back. */
module Watch {
  import opened Wrappers

  /** An object off the wire: the handler may fail to decode it. */
  datatype Item<V> = Readable(value: V) | Garbled

  datatype Entry<V> = Entry(key: string, item: Item<V>)

  /** One line of a watch stream.  A failure carries its status code, 0 for none. */
  datatype Event<V> =
    | Changed(rv: Option<nat>, key: string, deleted: bool, item: Item<V>)
    | Bookmark(rv: Option<nat>)
    | Failure(code: int)

  datatype ListReply<V> = ListFailed | Listing(items: seq<Entry<V>>, rv: Option<nat>)

  datatype StreamEnd = Closed | Broken

  /** A refusal carries its status, 0 for none; NoAnswer is an end of file in place of a response, which
      the loop takes for an idle watch that was closed. */
  datatype WatchReply<V> = Refused(code: int) | NoAnswer | Stream(events: seq<Event<V>>, end: StreamEnd)

  /** How a watch came back to the loop. */
  datatype Outcome = Fine | Gone | Trouble

  const GONE := 410

  datatype Stats = Stats(lists: nat, watches: nat, events: nat, bookmarks: nat, relists: nat, errors: nat)

  /** The reflector's fields, its counters, and the handler's cache. */
  datatype Mirror<V> = Mirror(rv: Option<nat>, cache: map<string, V>, synced: bool, attempt: nat, stats: Stats)

  /** The handler: what it cannot decode it drops, and the last version it could stays. */
  function Handle<V>(cache: map<string, V>, key: string, deleted: bool, item: Item<V>): map<string, V> {
    match item
    case Garbled => cache
    case Readable(v) => if deleted then cache - {key} else cache[key := v]
  }

  function HandleAll<V>(cache: map<string, V>, items: seq<Entry<V>>): map<string, V> {
    if items == [] then cache
    else
      var n := |items| - 1;
      Handle(HandleAll(cache, items[..n]), items[n].key, false, items[n].item)
  }

  function Relisted<V>(m: Mirror<V>, items: seq<Entry<V>>, rv: Option<nat>): Mirror<V> {
    m.(cache := HandleAll(m.cache, items), rv := rv, synced := true, stats := m.stats.(lists := m.stats.lists + 1))
  }

  function Classify(code: int): Outcome {
    if code == GONE then Gone else Trouble
  }

  function Newer(rv: Option<nat>, cursor: Option<nat>): Option<nat> {
    if rv.Some? then rv else cursor
  }

  /** One event that is not a failure. */
  function Took<V>(m: Mirror<V>, e: Event<V>): Mirror<V>
    requires !e.Failure?
  {
    match e
    case Bookmark(rv) => m.(rv := Newer(rv, m.rv), stats := m.stats.(bookmarks := m.stats.bookmarks + 1))
    case Changed(rv, key, deleted, item) =>
      m.(rv := Newer(rv, m.rv), cache := Handle(m.cache, key, deleted, item),
         stats := m.stats.(events := m.stats.events + 1))
  }

  function Streamed<V>(m: Mirror<V>, events: seq<Event<V>>, end: StreamEnd): (r: (Mirror<V>, Outcome))
    decreases |events|
  {
    if events == [] then (m, if end.Closed? then Fine else Trouble)
    else if events[0].Failure? then (m, Classify(events[0].code))
    else Streamed(Took(m, events[0]), events[1..], end)
  }

  function Watched<V>(m: Mirror<V>, reply: WatchReply<V>): (Mirror<V>, Outcome) {
    match reply
    case Refused(code) => (m, Classify(code))
    case NoAnswer => (m, Fine)
    case Stream(events, end) =>
      Streamed(m.(stats := m.stats.(watches := m.stats.watches + 1)), events, end)
  }

  function Concluded<V>(m: Mirror<V>, outcome: Outcome): Mirror<V> {
    match outcome
    case Fine => m.(attempt := 0)
    case Gone => m.(rv := None, synced := false, attempt := 0, stats := m.stats.(relists := m.stats.relists + 1))
    case Trouble => m.(attempt := m.attempt + 1, stats := m.stats.(errors := m.stats.errors + 1))
  }

  /** One turn of the loop.  The watch reply is not asked for when a list fails. */
  function Turned<V>(m: Mirror<V>, l: ListReply<V>, w: WatchReply<V>): Mirror<V> {
    if m.rv.None? && l.ListFailed? then Concluded(m, Trouble)
    else
      var m1 := if m.rv.None? then Relisted(m, l.items, l.rv).(attempt := 0) else m;
      var (m2, outcome) := Watched(m1, w);
      Concluded(m2, outcome)
  }

  class Reflector<V> {
    var rv: Option<nat>
    var cache: map<string, V>
    var synced: bool
    var attempt: nat
    var stats: Stats

    constructor ()
      ensures View() == Mirror(None, map[], false, 0, Stats(0, 0, 0, 0, 0, 0))
    {
      rv, cache, synced, attempt, stats := None, map[], false, 0, Stats(0, 0, 0, 0, 0, 0);
    }

    function View(): Mirror<V>
      reads this
    {
      Mirror(rv, cache, synced, attempt, stats)
    }

    method OnEvent(key: string, deleted: bool, item: Item<V>)
      modifies this`cache
      ensures cache == Handle(old(cache), key, deleted, item)
    {
      if item.Readable? {
        if deleted {
          cache := cache - {key};
        } else {
          cache := cache[key := item.value];
        }
      }
    }

    method List(reply: ListReply<V>) returns (ok: bool)
      modifies this
      ensures ok == reply.Listing?
      ensures View() == if ok then Relisted(old(View()), reply.items, reply.rv) else old(View())
    {
      if reply.ListFailed? {
        return false;
      }
      stats := stats.(lists := stats.lists + 1);
      for i := 0 to |reply.items|
        invariant cache == HandleAll(old(cache), reply.items[..i])
        invariant View() == old(View()).(cache := cache, stats := old(stats).(lists := old(stats).lists + 1))
      {
        assert reply.items[..i + 1][..i] == reply.items[..i];
        OnEvent(reply.items[i].key, false, reply.items[i].item);
      }
      assert reply.items[..|reply.items|] == reply.items;
      rv := reply.rv;
      synced := true;
      return true;
    }

    /** Read the stream until it ends or reports a failure. */
    method Read(events: seq<Event<V>>, end: StreamEnd) returns (outcome: Outcome)
      modifies this
      ensures (View(), outcome) == Streamed(old(View()), events, end)
    {
      var i := 0;
      while i < |events|
        invariant i <= |events|
        invariant Streamed(View(), events[i..], end) == Streamed(old(View()), events, end)
      {
        var e := events[i];
        assert events[i..][0] == e && events[i..][1..] == events[i + 1..];
        if e.Failure? {
          return Classify(e.code);
        }
        ghost var before := View();
        Take(e);
        assert View() == Took(before, e);
        i := i + 1;
      }
      outcome := if end.Closed? then Fine else Trouble;
    }

    /** The cursor moves before the handler runs. */
    method Take(e: Event<V>)
      requires !e.Failure?
      modifies this
      ensures View() == Took(old(View()), e)
    {
      if e.rv.Some? {
        rv := e.rv;
      }
      if e.Bookmark? {
        stats := stats.(bookmarks := stats.bookmarks + 1);
      } else {
        stats := stats.(events := stats.events + 1);
        OnEvent(e.key, e.deleted, e.item);
      }
    }

    method Watch(reply: WatchReply<V>) returns (outcome: Outcome)
      modifies this
      ensures (View(), outcome) == Watched(old(View()), reply)
    {
      match reply
      case Refused(code) =>
        outcome := Classify(code);
      case NoAnswer =>
        outcome := Fine;
      case Stream(events, end) =>
        stats := stats.(watches := stats.watches + 1);
        outcome := Read(events, end);
    }

    method Turn(l: ListReply<V>, w: WatchReply<V>)
      modifies this
      ensures View() == Turned(old(View()), l, w)
    {
      if rv.None? {
        var ok := List(l);
        if !ok {
          stats := stats.(errors := stats.errors + 1);
          attempt := attempt + 1;
          return;
        }
        attempt := 0;
      }
      var outcome := Watch(w);
      match outcome
      case Fine =>
        attempt := 0;
      case Gone =>
        stats := stats.(relists := stats.relists + 1);
        rv, synced, attempt := None, false, 0;
      case Trouble =>
        stats := stats.(errors := stats.errors + 1);
        attempt := attempt + 1;
    }
  }
}
