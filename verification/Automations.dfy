/** The autopilot (internal/automations/automations.go): three rules over the decision stream, and
    the bans they and people set.  The clock is an argument, and months are names. */
module Automations {
  import opened Wrappers

  /** Thresholds after their defaults, and the name of the month of an instant. */
  datatype Config = Config(threshold: int, windowMs: int, cooldownMs: int, monthOf: int -> string)

  function WithDefaults(c: Config): Config {
    Config(if c.threshold == 0 then 10 else c.threshold,
           if c.windowMs == 0 then 60000 else c.windowMs,
           if c.cooldownMs == 0 then 300000 else c.cooldownMs, c.monthOf)
  }

  datatype Event = Event(at: int, tenant: string, allowed: bool, reason: string, used: Option<real>, remaining: Option<real>)

  datatype Kind = QuotaAlert | UpgradeNudge | AutoCooldown | ManualBan | ManualUnban

  datatype Action = Action(at: int, kind: Kind, tenant: string, cooldownMs: int)

  datatype Hits = Hits(month: string, count: nat)

  const RING := 500

  datatype Pilot = Pilot(
    actions: seq<Action>,
    firedOnce: set<string>,
    capHits: map<string, Hits>,
    stormLog: map<string, seq<int>>,
    bans: map<string, int>)

  const IDLE := Pilot([], {}, map[], map[], map[])

  function Acted(p: Pilot, a: Action): Pilot {
    var all := p.actions + [a];
    p.(actions := if |all| > RING then all[1..] else all)
  }

  // ---- Rule 1: the plan is 80% used -------------------------------------------------

  function AlertKey(c: Config, e: Event): string {
    e.tenant + ":" + c.monthOf(e.at) + ":80pct"
  }

  /** used / (used + remaining) >= 0.8, on a plan of more than nothing. */
  predicate NearQuota(e: Event) {
    && e.used.Some? && e.remaining.Some?
    && var quota := e.used.value + e.remaining.value;
    quota > 0.0 && e.used.value / quota >= 0.8
  }

  predicate Alerts(c: Config, p: Pilot, e: Event) {
    NearQuota(e) && AlertKey(c, e) !in p.firedOnce
  }

  function AfterAlert(c: Config, p: Pilot, e: Event, now: int): Pilot {
    if Alerts(c, p, e)
    then Acted(p.(firedOnce := p.firedOnce + {AlertKey(c, e)}), Action(now, QuotaAlert, e.tenant, 0))
    else p
  }

  // ---- Rule 2: the cap three times in a month ---------------------------------------

  function NudgeKey(c: Config, e: Event): string {
    e.tenant + ":" + c.monthOf(e.at) + ":nudge"
  }

  predicate Capped(e: Event) {
    !e.allowed && e.reason == "monthly_quota"
  }

  /** The count this slam makes; a new month starts afresh. */
  function CountNow(c: Config, p: Pilot, e: Event): nat {
    if e.tenant in p.capHits && p.capHits[e.tenant].month == c.monthOf(e.at) then p.capHits[e.tenant].count + 1 else 1
  }

  predicate Nudges(c: Config, p: Pilot, e: Event) {
    Capped(e) && CountNow(c, p, e) == 3 && NudgeKey(c, e) !in p.firedOnce
  }

  function AfterNudge(c: Config, p: Pilot, e: Event, now: int): Pilot {
    if !Capped(e) then p
    else
      var p1 := p.(capHits := p.capHits[e.tenant := Hits(c.monthOf(e.at), CountNow(c, p, e))]);
      if Nudges(c, p, e)
      then Acted(p1.(firedOnce := p1.firedOnce + {NudgeKey(c, e)}), Action(now, UpgradeNudge, e.tenant, 0))
      else p1
  }

  // ---- Rule 3: a burst storm --------------------------------------------------------

  predicate Blocked(e: Event) {
    !e.allowed && e.reason == "burst"
  }

  function Log(p: Pilot, tenant: string): seq<int> {
    if tenant in p.stormLog then p.stormLog[tenant] else []
  }

  /** The hits still inside the window. */
  function Recent(log: seq<int>, at: int, windowMs: int): (r: seq<int>)
    ensures |r| <= |log|
    ensures forall t | t in r :: at - t < windowMs
  {
    if log == [] then []
    else
      var t := log[|log| - 1];
      var before := Recent(log[..|log| - 1], at, windowMs);
      if at - t < windowMs then before + [t] else before
  }

  function Fresh(c: Config, p: Pilot, e: Event): seq<int> {
    Recent(Log(p, e.tenant), e.at, c.windowMs) + [e.at]
  }

  /** Live, not merely on file: expired bans are only reaped when asked about. */
  predicate Banned(p: Pilot, tenant: string, now: int) {
    tenant in p.bans && p.bans[tenant] > now
  }

  predicate Trips(c: Config, p: Pilot, e: Event, now: int) {
    Blocked(e) && |Fresh(c, p, e)| >= c.threshold && !Banned(p, e.tenant, now)
  }

  /** The ban replaces the evidence. */
  function AfterStorm(c: Config, p: Pilot, e: Event, now: int): Pilot {
    if !Blocked(e) then p
    else if Trips(c, p, e, now) then
      Acted(p.(bans := p.bans[e.tenant := now + c.cooldownMs], stormLog := p.stormLog - {e.tenant}),
            Action(now, AutoCooldown, e.tenant, c.cooldownMs))
    else p.(stormLog := p.stormLog[e.tenant := Fresh(c, p, e)])
  }

  /** The autopilot never reacts to its own bans. */
  function Decided(c: Config, p: Pilot, e: Event, now: int): Pilot {
    if e.reason == "auto_cooldown" then p
    else AfterStorm(c, AfterNudge(c, AfterAlert(c, p, e, now), e, now), e, now)
  }

  // ---- Bans -------------------------------------------------------------------------

  function Remaining(p: Pilot, tenant: string, now: int): int {
    if Banned(p, tenant, now) then p.bans[tenant] - now else 0
  }

  /** Asking reaps an expired ban. */
  function Asked(p: Pilot, tenant: string, now: int): Pilot {
    if Banned(p, tenant, now) then p else p.(bans := p.bans - {tenant})
  }

  function ByHand(c: Config, p: Pilot, tenant: string, ms: int, now: int): Pilot {
    var d := if ms <= 0 then c.cooldownMs else ms;
    Acted(p.(bans := p.bans[tenant := now + d]), Action(now, ManualBan, tenant, d))
  }

  function Lifted(p: Pilot, tenant: string, now: int): Pilot {
    Acted(p.(bans := p.bans - {tenant}), Action(now, ManualUnban, tenant, 0))
  }

  class Autopilot {
    const config: Config
    var actions: seq<Action>
    var firedOnce: set<string>
    var capHits: map<string, Hits>
    var stormLog: map<string, seq<int>>
    var bans: map<string, int>

    constructor (config: Config)
      ensures this.config == WithDefaults(config) && View() == IDLE
      ensures this.config.threshold == if config.threshold == 0 then 10 else config.threshold
      ensures this.config.windowMs == if config.windowMs == 0 then 60_000 else config.windowMs
      ensures this.config.cooldownMs == if config.cooldownMs == 0 then 300_000 else config.cooldownMs
    {
      this.config := WithDefaults(config);
      actions, firedOnce, capHits, stormLog, bans := [], {}, map[], map[], map[];
    }

    function View(): Pilot
      reads this
    {
      Pilot(actions, firedOnce, capHits, stormLog, bans)
    }

    method Act(a: Action)
      modifies this`actions
      ensures View() == Acted(old(View()), a)
    {
      actions := actions + [a];
      if |actions| > RING {
        actions := actions[1..];
      }
    }

    /** True exactly once per key. */
    method ClaimOnce(key: string) returns (first: bool)
      modifies this`firedOnce
      ensures first <==> key !in old(firedOnce)
      ensures firedOnce == old(firedOnce) + {key}
    {
      first := key !in firedOnce;
      firedOnce := firedOnce + {key};
    }

    method OnDecision(e: Event, now: int)
      modifies this
      ensures View() == Decided(config, old(View()), e, now)
    {
      if e.reason == "auto_cooldown" {
        return;
      }
      QuotaRule(e, now);
      CapRule(e, now);
      StormRule(e, now);
    }

    method QuotaRule(e: Event, now: int)
      modifies this
      ensures View() == AfterAlert(config, old(View()), e, now)
    {
      if NearQuota(e) {
        var first := ClaimOnce(AlertKey(config, e));
        if first {
          Act(Action(now, QuotaAlert, e.tenant, 0));
        } else {
          assert firedOnce == old(firedOnce);
        }
      }
    }

    method CapRule(e: Event, now: int)
      modifies this
      ensures View() == AfterNudge(config, old(View()), e, now)
    {
      if !e.allowed && e.reason == "monthly_quota" {
        var month := config.monthOf(e.at);
        var count := 0;
        if e.tenant in capHits && capHits[e.tenant].month == month {
          count := capHits[e.tenant].count;
        }
        count := count + 1;
        capHits := capHits[e.tenant := Hits(month, count)];
        if count == 3 {
          var first := ClaimOnce(NudgeKey(config, e));
          if first {
            Act(Action(now, UpgradeNudge, e.tenant, 0));
          } else {
            assert firedOnce == old(firedOnce);
          }
        }
      }
    }

    method StormRule(e: Event, now: int)
      modifies this
      ensures View() == AfterStorm(config, old(View()), e, now)
    {
      if !e.allowed && e.reason == "burst" {
        var recent := KeepRecent(Log(View(), e.tenant), e.at, config.windowMs);
        recent := recent + [e.at];
        if |recent| >= config.threshold && !Banned(View(), e.tenant, now) {
          bans := bans[e.tenant := now + config.cooldownMs];
          stormLog := stormLog - {e.tenant};
          Act(Action(now, AutoCooldown, e.tenant, config.cooldownMs));
        } else {
          stormLog := stormLog[e.tenant := recent];
        }
      }
    }

    method BanRemainingMs(tenant: string, now: int) returns (left: int)
      modifies this`bans
      ensures left == Remaining(old(View()), tenant, now)
      ensures View() == Asked(old(View()), tenant, now)
    {
      if tenant !in bans {
        assert bans - {tenant} == bans;
        return 0;
      }
      left := bans[tenant] - now;
      if left <= 0 {
        bans := bans - {tenant};
        left := 0;
      }
    }

    method Ban(tenant: string, ms: int, now: int)
      modifies this
      ensures View() == ByHand(config, old(View()), tenant, ms, now)
    {
      var d := ms;
      if d <= 0 {
        d := config.cooldownMs;
      }
      bans := bans[tenant := now + d];
      Act(Action(now, ManualBan, tenant, d));
    }

    method Unban(tenant: string, now: int)
      modifies this
      ensures View() == Lifted(old(View()), tenant, now)
    {
      bans := bans - {tenant};
      Act(Action(now, ManualUnban, tenant, 0));
    }
  }

  /** The filter loop. */
  method KeepRecent(log: seq<int>, at: int, windowMs: int) returns (recent: seq<int>)
    ensures recent == Recent(log, at, windowMs)
  {
    recent := [];
    for i := 0 to |log|
      invariant recent == Recent(log[..i], at, windowMs)
    {
      assert log[..i + 1][..i] == log[..i];
      if at - log[i] < windowMs {
        recent := recent + [log[i]];
      }
    }
    assert log[..|log|] == log;
  }
}
