/** What a plan meter promises. */
module MonthlyQuotaProofs {
  import opened MonthlyQuota

  function Run(meters: map<string, Meter>, cs: seq<Charge>): map<string, Meter> {
    if cs == [] then meters else Charged(Run(meters, cs[..|cs| - 1]), cs[|cs| - 1]).0
  }

  /** The verdict on the last charge of a run. */
  function LastVerdict(meters: map<string, Meter>, cs: seq<Charge>): Verdict
    requires cs != []
  {
    Charged(Run(meters, cs[..|cs| - 1]), cs[|cs| - 1]).1
  }

  /** What the plan let through for a key in a month. */
  function Spent(meters: map<string, Meter>, cs: seq<Charge>, key: string, month: string): real {
    if cs == [] then 0.0
    else
      var last := cs[|cs| - 1];
      Spent(meters, cs[..|cs| - 1], key, month)
      + if last.key == key && last.month == month && LastVerdict(meters, cs).allowed then Price(last.cost) else 0.0
  }

  /** A key's months do not come back. */
  ghost predicate MonthsPass(cs: seq<Charge>) {
    forall i, j, k | 0 <= i < j < k < |cs| && cs[i].key == cs[j].key == cs[k].key && cs[i].month == cs[k].month ::
      cs[j].month == cs[k].month
  }

  ghost function LastOf(cs: seq<Charge>, key: string): (r: int)
    ensures -1 <= r < |cs|
    ensures r >= 0 ==> cs[r].key == key
    ensures forall i | r < i < |cs| :: cs[i].key != key
  {
    if cs == [] then -1 else if cs[|cs| - 1].key == key then |cs| - 1 else LastOf(cs[..|cs| - 1], key)
  }

  lemma {:induction false} NothingSpent(meters: map<string, Meter>, cs: seq<Charge>, key: string, month: string)
    requires forall i | 0 <= i < |cs| :: cs[i].key != key || cs[i].month != month
    ensures Spent(meters, cs, key, month) == 0.0
  {
    if cs != [] {
      NothingSpent(meters, cs[..|cs| - 1], key, month);
    }
  }

  /** In the month of a key's last charge, nothing of that month lies before another month. */
  lemma NewMonth(cs: seq<Charge>)
    requires cs != [] && MonthsPass(cs)
    ensures
      var n, c := |cs| - 1, cs[|cs| - 1];
      var last := LastOf(cs[..n], c.key);
      last >= 0 && cs[last].month != c.month ==>
        forall i | 0 <= i < n :: cs[i].key != c.key || cs[i].month != c.month
  {
    var n, c := |cs| - 1, cs[|cs| - 1];
    var last := LastOf(cs[..n], c.key);
    if last >= 0 && cs[last].month != c.month {
      forall i | 0 <= i < n
        ensures cs[i].key != c.key || cs[i].month != c.month
      {
        assert cs[i] == cs[..n][i] && cs[last] == cs[..n][last];
        assert i < last || i == last || cs[..n][i].key != c.key;
      }
    }
  }

  /** A charge let through puts what it costs on the meter, and one that names no cost puts one unit; a
      charge refused puts nothing, and what is left of the quota is what the meter has not reached. */
  lemma ChargesItsCost(meters: map<string, Meter>, c: Charge)
    ensures
      var (meters', v) := Charged(meters, c);
      && c.key in meters' && meters'[c.key].month == c.month && meters'[c.key].used == v.used
      && v.used == UsedBy(meters, c.key, c.month) + (if !v.allowed then 0.0 else if c.cost == 0.0 then 1.0 else c.cost)
      && v.remaining == if v.used <= c.quota then c.quota - v.used else 0.0
  {
  }

  /** The meter is the bill: after any run from empty meters, a key's usage is exactly the cost of
      what the plan let through in its current month, refused requests charging nothing. */
  lemma {:induction false} MeterIsSpend(cs: seq<Charge>, key: string)
    requires MonthsPass(cs)
    ensures
      var last := LastOf(cs, key);
      if last < 0 then key !in Run(map[], cs)
      else key in Run(map[], cs) && Run(map[], cs)[key] == Meter(cs[last].month, Spent(map[], cs, key, cs[last].month))
  {
    if cs != [] {
      var n, c := |cs| - 1, cs[|cs| - 1];
      MeterIsSpend(cs[..n], key);
      if c.key == key {
        NewMonth(cs);
        var last := LastOf(cs[..n], key);
        if last < 0 || cs[last].month != c.month {
          NothingSpent(map[], cs[..n], key, c.month);
        }
      }
    }
  }

  /** A charge is refused exactly when what the month has let through and it together would pass the
      quota: a plan can be used to its last unit, and no further. */
  lemma RefusedIffOver(cs: seq<Charge>, c: Charge)
    requires MonthsPass(cs + [c])
    ensures !Charged(Run(map[], cs), c).1.allowed <==> Spent(map[], cs, c.key, c.month) + Price(c.cost) > c.quota
  {
    var all := cs + [c];
    assert all[..|cs|] == cs;
    NewMonth(all);
    MeterIsSpendPrefix(all, c.key);
    var last := LastOf(cs, c.key);
    if last < 0 || cs[last].month != c.month {
      assert forall i | 0 <= i < |cs| :: all[i] == cs[i];
      NothingSpent(map[], cs, c.key, c.month);
    } else {
      PassPrefix(cs, c);
      MeterIsSpend(cs, c.key);
    }
  }

  lemma PassPrefix(cs: seq<Charge>, c: Charge)
    requires MonthsPass(cs + [c])
    ensures MonthsPass(cs)
  {
    var all := cs + [c];
    forall i, j, k | 0 <= i < j < k < |cs| && cs[i].key == cs[j].key == cs[k].key && cs[i].month == cs[k].month
      ensures cs[j].month == cs[k].month
    {
      assert all[i] == cs[i] && all[j] == cs[j] && all[k] == cs[k];
    }
  }

  /** Never over the plan: when no charge of a key asks against more than this quota, its meter
      never passes it. */
  lemma {:induction false} WithinQuota(meters: map<string, Meter>, cs: seq<Charge>, key: string, quota: real)
    requires quota >= 0.0 && (key in meters ==> meters[key].used <= quota)
    requires forall i | 0 <= i < |cs| && cs[i].key == key :: cs[i].quota <= quota
    ensures key in Run(meters, cs) ==> Run(meters, cs)[key].used <= quota
  {
    if cs != [] {
      WithinQuota(meters, cs[..|cs| - 1], key, quota);
    }
  }

  // ---- Redis refines it -------------------------------------------------------------

  function RunRedis(cs: seq<Charge>): Store {
    if cs == [] then map[] else Evaluated(RunRedis(cs[..|cs| - 1]), cs[|cs| - 1]).0
  }

  /** No month is longer than 31 days, in milliseconds. */
  ghost predicate MonthsAreShort(cs: seq<Charge>) {
    forall i, j | 0 <= i < j < |cs| && cs[i].key == cs[j].key && cs[i].month == cs[j].month ::
      cs[j].now - cs[i].now <= 2_678_400_000
  }

  /** A counter outlives its month. */
  lemma OutlivesMonth(cs: seq<Charge>)
    requires MonthsAreShort(cs)
    ensures forall i, j | 0 <= i < j < |cs| && cs[i].key == cs[j].key && cs[i].month == cs[j].month ::
              cs[j].now < cs[i].now + MONTH_TTL_MS
  {
  }

  /** The counter of the month a key is in says what its meter says, until it expires. */
  ghost predicate Matches(cs: seq<Charge>, key: string) {
    var last := LastOf(cs, key);
    last >= 0 ==>
      var k := (key, cs[last].month);
      var used := UsedBy(Run(map[], cs), key, cs[last].month);
      if k in RunRedis(cs) then RunRedis(cs)[k] == Counter(used, cs[last].now + MONTH_TTL_MS) else used == 0.0
  }

  lemma {:induction false} NoCounter(cs: seq<Charge>, key: string, month: string)
    requires forall i | 0 <= i < |cs| :: cs[i].key != key || cs[i].month != month
    ensures (key, month) !in RunRedis(cs)
  {
    if cs != [] {
      NoCounter(cs[..|cs| - 1], key, month);
    }
  }

  /** What the script will read is what the meter will. */
  lemma SameUsage(cs: seq<Charge>)
    requires cs != [] && MonthsPass(cs) && MonthsAreShort(cs) && Matches(cs[..|cs| - 1], cs[|cs| - 1].key)
    ensures
      var n, c := |cs| - 1, cs[|cs| - 1];
      var store := RunRedis(cs[..n]);
      UsedBy(Run(map[], cs[..n]), c.key, c.month)
      == if Live(store, (c.key, c.month), c.now) then store[(c.key, c.month)].used else 0.0
  {
    var n, c := |cs| - 1, cs[|cs| - 1];
    var last := LastOf(cs[..n], c.key);
    NewMonth(cs);
    MeterIsSpendPrefix(cs, c.key);
    if last < 0 || cs[last].month != c.month {
      NoCounter(cs[..n], c.key, c.month);
    } else {
      assert cs[..n][last] == cs[last];
      OutlivesMonth(cs);
    }
  }

  lemma MeterIsSpendPrefix(cs: seq<Charge>, key: string)
    requires cs != [] && MonthsPass(cs)
    ensures
      var n := |cs| - 1;
      var last := LastOf(cs[..n], key);
      if last < 0 then key !in Run(map[], cs[..n])
      else key in Run(map[], cs[..n]) && Run(map[], cs[..n])[key].month == cs[last].month
  {
    var n := |cs| - 1;
    assert MonthsPass(cs[..n]) by {
      forall i, j, k | 0 <= i < j < k < n && cs[..n][i].key == cs[..n][j].key == cs[..n][k].key
                       && cs[..n][i].month == cs[..n][k].month
        ensures cs[..n][j].month == cs[..n][k].month
      {
        assert cs[i].key == cs[j].key == cs[k].key;
      }
    }
    MeterIsSpend(cs[..n], key);
  }

  lemma NextMatches(cs: seq<Charge>)
    requires cs != [] && MonthsPass(cs) && MonthsAreShort(cs) && Matches(cs[..|cs| - 1], cs[|cs| - 1].key)
    ensures Matches(cs, cs[|cs| - 1].key)
  {
    SameUsage(cs);
  }

  lemma OthersMatch(cs: seq<Charge>, key: string)
    requires cs != [] && cs[|cs| - 1].key != key && Matches(cs[..|cs| - 1], key)
    ensures Matches(cs, key)
  {
  }

  lemma {:induction false} AlwaysMatches(cs: seq<Charge>, key: string)
    requires MonthsPass(cs) && MonthsAreShort(cs)
    ensures Matches(cs, key)
  {
    if cs != [] {
      AlwaysMatches(cs[..|cs| - 1], key);
      if cs[|cs| - 1].key == key {
        NextMatches(cs);
      } else {
        OthersMatch(cs, key);
      }
    }
  }

  /** Any number of replicas charging one Redis, in whatever order their scripts run, are told
      what one in-process meter fed the same charges would tell them. */
  lemma RedisRefinesMeter(cs: seq<Charge>, c: Charge)
    requires MonthsPass(cs + [c]) && MonthsAreShort(cs + [c])
    ensures Evaluated(RunRedis(cs), c).1 == Charged(Run(map[], cs), c).1
  {
    var all := cs + [c];
    assert all[..|cs|] == cs;
    forall i, j | 0 <= i < j < |cs| && cs[i].key == cs[j].key && cs[i].month == cs[j].month
      ensures cs[j].now - cs[i].now <= 2_678_400_000
    {
      assert all[i] == cs[i] && all[j] == cs[j];
    }
    PassPrefix(cs, c);
    AlwaysMatches(cs, c.key);
    SameUsage(all);
  }

  /** And lasts 70 days from the last charge: within them a second charge of the month is told what
      the meter would tell it, and after them the first is forgotten. */
  lemma ForgottenIff(a: Charge, b: Charge)
    requires a.key == b.key && a.month == b.month && 0.0 < Price(a.cost) <= a.quota
    ensures Evaluated(RunRedis([a]), b).1 == Charged(Run(map[], [a]), b).1 <==> b.now - a.now < 6_048_000_000
  {
    assert [a][..0] == [] && RunRedis([a]) == Evaluated(map[], a).0 && Run(map[], [a]) == Charged(map[], a).0;
  }
}
