module XdpPackets {
  // The fast path as packets meet it: many sources interleaved, bans set and lifted from user space.

  import opened Wrappers
  import opened Xdp
  import opened XdpProofs

  datatype Event =
    | Arrives(key: IpKey, now: u64)
    | Bans(key: IpKey, until: u64)
    | Lifts(key: IpKey)

  function After(c: Config, t: Tables, e: Event): Tables {
    match e
    case Arrives(key, now) => Handled(c, t, key, now).0
    case Bans(key, until) => t.(banned := t.banned[key := until])
    case Lifts(key) => t.(banned := t.banned - {key})
  }

  /** The packet is one of this source, and no ban stops it. */
  predicate Tried(t: Tables, e: Event, key: IpKey) {
    e.Arrives? && e.key == key && !(key in t.banned && BanLive(t.banned[key], e.now))
  }

  /** When the packets of a source came that no ban stopped. */
  function TimesOf(c: Config, t: Tables, events: seq<Event>, key: IpKey): seq<u64>
    decreases |events|
  {
    if events == [] then []
    else (if Tried(t, events[0], key) then [events[0].now] else []) + TimesOf(c, After(c, t, events[0]), events[1..], key)
  }

  /** And which of them the budget dropped. */
  function DropsOf(c: Config, t: Tables, events: seq<Event>, key: IpKey): seq<bool>
    decreases |events|
  {
    if events == [] then []
    else
      (if Tried(t, events[0], key) then [Handled(c, t, key, events[0].now).1.DroppedRate?] else [])
      + DropsOf(c, After(c, t, events[0]), events[1..], key)
  }

  /** The packets of a source that get through. */
  function PassedOf(c: Config, t: Tables, events: seq<Event>, key: IpKey): nat
    decreases |events|
  {
    if events == [] then 0
    else
      (if events[0].Arrives? && events[0].key == key && Handled(c, t, key, events[0].now).1.Passed? then 1 else 0)
      + PassedOf(c, After(c, t, events[0]), events[1..], key)
  }

  /** The verdicts on a source's jar, if it has one, or on a new address. */
  function ByItself(c: Config, buckets: map<IpKey, Bucket>, key: IpKey, times: seq<u64>): seq<bool>
    requires Fits(c)
  {
    if key in buckets then RunKernel(c, buckets[key], times) else KernelVerdicts(c, times)
  }

  lemma NewJar(c: Config)
    requires Fits(c)
    ensures Wrap(Wrap(Scaled(c.burst)) - NSEC_PER_SEC) == Capacity(c) - NSEC_PER_SEC
  {
    WrapSmall(Capacity(c));
    WrapSmall(Capacity(c) - NSEC_PER_SEC);
  }

  lemma TriedFirst(c: Config, t: Tables, key: IpKey, now: u64, times: seq<u64>)
    requires Fits(c) && Tried(t, Arrives(key, now), key)
    ensures
      var (t', v) := Handled(c, t, key, now);
      ByItself(c, t.buckets, key, [now] + times) == [v.DroppedRate?] + ByItself(c, t'.buckets, key, times)
  {
    NewJar(c);
    assert ([now] + times)[1..] == times;
  }

  lemma OthersApart(c: Config, t: Tables, e: Event, key: IpKey, times: seq<u64>)
    requires Fits(c) && !Tried(t, e, key)
    ensures ByItself(c, After(c, t, e).buckets, key, times) == ByItself(c, t.buckets, key, times)
  {
    assert key in After(c, t, e).buckets <==> key in t.buckets;
    assert key in t.buckets ==> After(c, t, e).buckets[key] == t.buckets[key];
  }

  /** Sources do not meet: whatever others send and whoever is banned, the budget's verdicts on one
      source are those on its own jar, at the times of the packets that no ban stopped. */
  lemma {:induction false} SourcesApart(c: Config, t: Tables, events: seq<Event>, key: IpKey)
    requires Fits(c)
    ensures DropsOf(c, t, events, key) == ByItself(c, t.buckets, key, TimesOf(c, t, events, key))
    decreases |events|
  {
    if events != [] {
      var t' := After(c, t, events[0]);
      var times, drops := TimesOf(c, t', events[1..], key), DropsOf(c, t', events[1..], key);
      SourcesApart(c, t', events[1..], key);
      if Tried(t, events[0], key) {
        TriedFirst(c, t, key, events[0].now, times);
      } else {
        OthersApart(c, t, events[0], key, times);
        assert [] + times == times && [] + drops == drops;
      }
    }
  }

  /** Packets in the order of their clock, between two instants. */
  ghost predicate Between(events: seq<Event>, t1: int, t2: int)
    decreases |events|
  {
    events == []
    || (if events[0].Arrives? then t1 <= events[0].now <= t2 && Between(events[1..], events[0].now, t2)
        else Between(events[1..], t1, t2))
  }

  lemma {:induction false} TimesBetween(c: Config, t: Tables, events: seq<Event>, key: IpKey, t1: int, t2: int)
    requires Between(events, t1, t2)
    ensures Ascending(TimesOf(c, t, events, key), t1) && forall x | x in TimesOf(c, t, events, key) :: x <= t2
    decreases |events|
  {
    if events != [] {
      var t' := After(c, t, events[0]);
      var later := TimesOf(c, t', events[1..], key);
      TimesBetween(c, t', events[1..], key, if events[0].Arrives? then events[0].now else t1, t2);
      if Tried(t, events[0], key) {
        assert ([events[0].now] + later)[1..] == later;
      } else {
        assert [] + later == later;
      }
    }
  }

  lemma {:induction false} PassedAreTried(c: Config, t: Tables, events: seq<Event>, key: IpKey)
    ensures PassedOf(c, t, events, key) == Passes(DropsOf(c, t, events, key))
    decreases |events|
  {
    if events != [] {
      var t' := After(c, t, events[0]);
      PassedAreTried(c, t', events[1..], key);
      var later := DropsOf(c, t', events[1..], key);
      if Tried(t, events[0], key) {
        PassesCons(Handled(c, t, key, events[0].now).1.DroppedRate?, later);
      } else {
        assert [] + later == later;
      }
    }
  }

  /** A new address gets no more than a full jar would. */
  lemma NewAddressBound(c: Config, times: seq<u64>, t1: int, t2: int)
    requires Fits(c) && c.burst <= 60 * c.ratePps && t1 <= t2 && Ascending(times, t1) && forall t | t in times :: t <= t2
    ensures Scaled(Passes(KernelVerdicts(c, times))) <= Capacity(c) + Gained(c, t2 - t1)
  {
    if times == [] {
      GainedBounds(c, 0, t2 - t1);
    } else {
      var first: u64 := Capacity(c) - NSEC_PER_SEC;
      var now := times[0];
      assert now in times && forall t | t in times[1..] :: t in times;
      RunsAgree(c, Bucket(first, now), times[1..]);
      IdealBound(c, Jar(first, now), times[1..], t2);
      PassesCons(false, RunKernel(c, Bucket(first, now), times[1..]));
      GainedBounds(c, t2 - now, t2 - t1);
    }
  }

  /** The promise of the fast path: between two instants, whatever else arrives and whoever is banned or
      let off, the packets of one source that pass are at most a burst and the rate times the interval. */
  lemma SourceBound(c: Config, t: Tables, events: seq<Event>, key: IpKey, t1: int, t2: int)
    requires Fits(c) && c.burst <= 60 * c.ratePps && t1 <= t2 && Between(events, t1, t2)
    requires key in t.buckets ==> t.buckets[key].tokens <= Capacity(c) && t.buckets[key].lastNs <= t1
    ensures Scaled(PassedOf(c, t, events, key)) <= Capacity(c) + Gained(c, t2 - t1)
  {
    var times := TimesOf(c, t, events, key);
    SourcesApart(c, t, events, key);
    PassedAreTried(c, t, events, key);
    TimesBetween(c, t, events, key, t1, t2);
    if key in t.buckets {
      PacketBound(c, t.buckets[key], times, t1, t2);
    } else {
      NewAddressBound(c, times, t1, t2);
    }
  }

  // ---- Bans -------------------------------------------------------------------------

  function AfterAll(c: Config, t: Tables, events: seq<Event>): Tables {
    if events == [] then t else After(c, AfterAll(c, t, events[..|events| - 1]), events[|events| - 1])
  }

  /** The ban user space last left on a source, if any, and until when. */
  function LastBan(t: Tables, events: seq<Event>, key: IpKey): Option<u64> {
    if events == [] then if key in t.banned then Some(t.banned[key]) else None
    else
      match events[|events| - 1]
      case Bans(k, until) => if k == key then Some(until) else LastBan(t, events[..|events| - 1], key)
      case Lifts(k) => if k == key then None else LastBan(t, events[..|events| - 1], key)
      case Arrives(_, _) => LastBan(t, events[..|events| - 1], key)
  }

  /** The table says so, unless a packet found the ban over. */
  ghost predicate Stands(t: Tables, key: IpKey, ban: Option<u64>, now: u64) {
    if key in t.banned then ban == Some(t.banned[key])
    else ban.None? || (ban.value != 0 && ban.value <= now)
  }

  lemma {:induction false} BansStand(c: Config, t: Tables, events: seq<Event>, key: IpKey, now: u64)
    requires forall e | e in events && e.Arrives? && e.key == key :: e.now <= now
    ensures Stands(AfterAll(c, t, events), key, LastBan(t, events, key), now)
    decreases |events|
  {
    if events != [] {
      var early, last := events[..|events| - 1], events[|events| - 1];
      assert last in events && forall e | e in early :: e in events;
      BansStand(c, t, early, key, now);
    }
  }

  /** A packet is dropped for a ban exactly when the last word of user space on its source is a ban
      until 0, at every instant, or until a later instant.  It then spends nothing; and a ban that a packet
      finds over is off the table. */
  lemma BannedIff(c: Config, t: Tables, events: seq<Event>, key: IpKey, now: u64)
    requires forall e | e in events && e.Arrives? && e.key == key :: e.now <= now
    ensures
      var t', ban := AfterAll(c, t, events), LastBan(t, events, key);
      var (t2, v) := Handled(c, t', key, now);
      && (v == DroppedBanned <==> ban.Some? && (ban.value == 0 || now < ban.value))
      && (v == DroppedBanned ==> t2 == t') && (v != DroppedBanned ==> key !in t2.banned)
  {
    BansStand(c, t, events, key, now);
  }

  /** A setting of zero, of either, turns the budget off: no packet spends and none is dropped for it. */
  lemma ZeroIsOff(c: Config, t: Tables, key: IpKey, now: u64)
    requires c.ratePps == 0 || c.burst == 0
    ensures
      var (t', v) := Handled(c, t, key, now);
      t'.buckets == t.buckets && v != DroppedRate
  {
  }

  // ---- When the promise holds -------------------------------------------------------

  function Arrivals(key: IpKey, times: seq<u64>): (events: seq<Event>)
    ensures |events| == |times|
  {
    if times == [] then [] else [Arrives(key, times[0])] + Arrivals(key, times[1..])
  }

  lemma {:induction false} AloneTimes(c: Config, t: Tables, key: IpKey, times: seq<u64>, t1: int, t2: int)
    requires key !in t.banned && Ascending(times, t1) && forall x | x in times :: x <= t2
    ensures TimesOf(c, t, Arrivals(key, times), key) == times && Between(Arrivals(key, times), t1, t2)
    decreases |times|
  {
    if times != [] {
      var events := Arrivals(key, times);
      assert events[0] == Arrives(key, times[0]) && events[1..] == Arrivals(key, times[1..]);
      assert times[0] in times && forall x | x in times[1..] :: x in times;
      AloneTimes(c, After(c, t, events[0]), key, times[1..], times[0], t2);
      assert [times[0]] + times[1..] == times;
    }
  }

  lemma {:induction false} AllOfThem(n: nat)
    ensures Passes(AllPass(n)) == n
  {
    if n > 0 {
      AllOfThem(n - 1);
      assert AllPass(n)[1..] == AllPass(n - 1);
    }
  }

  lemma TwoBursts(c: Config, n: nat)
    requires Fits(c) && c.burst == n + 1
    ensures
      var times := Repeat(0, n + 1) + Repeat(MINUTE, n + 1);
      KernelVerdicts(c, times) == AllPass(n + 1) + AllPass(n + 1)
  {
    var late := Repeat(MINUTE, n + 1);
    RepeatCons(0, n + 1, late);
    KernelAtOnce(c, Scaled(n), 0, n, late);
    KernelAfterMinute(c, n);
    AllPassCons(n + 1, AllPass(n + 1));
  }

  lemma {:induction false} PassesAppend(a: seq<bool>, b: seq<bool>)
    ensures Passes(a + b) == Passes(a) + Passes(b)
    decreases |a|
  {
    if a == [] {
      assert a + b == b;
    } else {
      assert (a + b)[1..] == a[1..] + b;
      PassesAppend(a[1..], b);
    }
  }

  lemma {:induction false} RepeatedOnly(x: u64, n: nat)
    ensures forall y | y in Repeat(x, n) :: y == x
  {
    if n > 0 {
      RepeatedOnly(x, n - 1);
    }
  }

  /** Otherwise two bursts pass a minute apart, where a burst and a minute's rate is less. */
  lemma LargeJarBreaks(c: Config, key: IpKey) returns (events: seq<Event>)
    requires Fits(c) && c.burst > 60 * c.ratePps
    ensures Between(events, 0, MINUTE)
    ensures Scaled(PassedOf(c, Tables(map[], map[]), events, key)) > Capacity(c) + Gained(c, MINUTE)
  {
    var n, none := c.burst - 1, Tables(map[], map[]);
    var late := Repeat(MINUTE, n + 1);
    var times := Repeat(0, n + 1) + late;
    assert late + [] == late;
    RepeatAscending(MINUTE, n + 1, [], 0);
    RepeatAscending(0, n + 1, late, 0);
    RepeatedOnly(0, n + 1);
    RepeatedOnly(MINUTE, n + 1);
    events := Arrivals(key, times);
    AloneTimes(c, none, key, times, 0, MINUTE);
    SourcesApart(c, none, events, key);
    PassedAreTried(c, none, events, key);
    TwoBursts(c, n);
    PassesAppend(AllPass(n + 1), AllPass(n + 1));
    AllOfThem(n + 1);
    GainedMinute(c);
  }

  ghost predicate KeepsSources(c: Config)
    requires Fits(c)
  {
    forall t: Tables, events, key, t1, t2 |
      && t1 <= t2 && Between(events, t1, t2)
      && (key in t.buckets ==> t.buckets[key].tokens <= Capacity(c) && t.buckets[key].lastNs <= t1) ::
        Scaled(PassedOf(c, t, events, key)) <= Capacity(c) + Gained(c, t2 - t1)
  }

  /** The exact condition: the promise holds on every trace of packets and bans if and only if the burst
      is at most a minute's rate. */
  lemma KeepsSourcesIff(c: Config)
    requires Fits(c)
    ensures KeepsSources(c) <==> c.burst <= 60 * c.ratePps
  {
    if c.burst <= 60 * c.ratePps {
      forall t: Tables, events, key, t1, t2 |
        && t1 <= t2 && Between(events, t1, t2)
        && (key in t.buckets ==> t.buckets[key].tokens <= Capacity(c) && t.buckets[key].lastNs <= t1)
        ensures Scaled(PassedOf(c, t, events, key)) <= Capacity(c) + Gained(c, t2 - t1)
      {
        SourceBound(c, t, events, key, t1, t2);
      }
    } else {
      var key: IpKey := [];
      var none := Tables(map[], map[]);
      var events := LargeJarBreaks(c, key);
      assert key !in none.buckets && Gained(c, MINUTE - 0) == Gained(c, MINUTE);
      assert !(Scaled(PassedOf(c, none, events, key)) <= Capacity(c) + Gained(c, MINUTE - 0));
    }
  }
}
