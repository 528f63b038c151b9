/** Flapping detection (watchdog/flap.py): a sliding-window restart counter per service, with an
    escalation cooldown that wipes the history when it expires.

    The first half states every operation on values; the class is the program's mutable tracker,
    proved against it. Each operation reads the clock once, at `now`. */
module Flap {
  datatype Config = Config(window: real, threshold: int, cooldown: real)

  datatype Tracker = Tracker(restarts: map<string, seq<real>>, cooldownUntil: map<string, real>)

  const Fresh := Tracker(map[], map[])

  /** The restart times kept for a service; a service never seen has none. */
  function Kept(t: Tracker, service: string): seq<real> {
    if service in t.restarts then t.restarts[service] else []
  }

  /** Drop restarts older than the window, oldest first. */
  function Prune(times: seq<real>, now: real, window: real): seq<real>
    decreases |times|
  {
    if times != [] && now - times[0] > window then Prune(times[1..], now, window) else times
  }

  /** Pruning drops a prefix: everything dropped has left the window, and what is kept starts inside it. */
  lemma {:induction false} PruneIsSuffix(times: seq<real>, now: real, window: real)
    ensures var kept := Prune(times, now, window);
            && |kept| <= |times|
            && kept == times[|times| - |kept|..]
            && (forall i :: 0 <= i < |times| - |kept| ==> now - times[i] > window)
            && (kept != [] ==> now - kept[0] <= window)
    decreases |times|
  {
    if times != [] && now - times[0] > window {
      PruneIsSuffix(times[1..], now, window);
    }
  }

  function Pruned(c: Config, t: Tracker, service: string, now: real): Tracker {
    t.(restarts := t.restarts[service := Prune(Kept(t, service), now, c.window)])
  }

  function Recorded(c: Config, t: Tracker, service: string, now: real): Tracker {
    t.(restarts := t.restarts[service := Prune(Kept(t, service) + [now], now, c.window)])
  }

  function RestartCount(c: Config, t: Tracker, service: string, now: real): nat {
    |Prune(Kept(t, service), now, c.window)|
  }

  predicate IsFlapping(c: Config, t: Tracker, service: string, now: real) {
    RestartCount(c, t, service, now) >= c.threshold
  }

  function CoolingDown(t: Tracker, service: string, until: real): Tracker {
    t.(cooldownUntil := t.cooldownUntil[service := until])
  }

  predicate InCooldown(t: Tracker, service: string, now: real) {
    service in t.cooldownUntil && now < t.cooldownUntil[service]
  }

  /** The tracker after asking whether a service is cooling down: an expired cooldown is forgotten
      together with the service's restart history. */
  function CooldownChecked(t: Tracker, service: string, now: real): Tracker {
    if service in t.cooldownUntil && now >= t.cooldownUntil[service]
    then Tracker(t.restarts[service := []], t.cooldownUntil - {service})
    else t
  }

  /** A clock that never runs backwards. */
  class Clock {
    var now: real

    constructor (start: real)
      ensures now == start
    {
      now := start;
    }

    method Read() returns (t: real)
      modifies this
      ensures old(now) <= now == t
    {
      t := *;
      if t < now {
        t := now;
      }
      now := t;
    }

    /** Sleeping lasts at least as long as asked. */
    method Sleep(seconds: real)
      requires seconds >= 0.0
      modifies this
      ensures now >= old(now) + seconds
    {
      var t := Read();
      now := t + seconds;
    }
  }

  class FlapTracker {
    const config: Config
    const clock: Clock
    var restarts: map<string, seq<real>>
    var cooldownUntil: map<string, real>

    ghost function View(): Tracker
      reads this
    {
      Tracker(restarts, cooldownUntil)
    }

    constructor (config: Config, clock: Clock)
      ensures this.config == config && this.clock == clock && View() == Fresh
    {
      this.config, this.clock := config, clock;
      restarts, cooldownUntil := map[], map[];
    }

    /** The deque loop, popping from the front. */
    method PruneAt(service: string, now: real)
      modifies this`restarts
      ensures View() == Pruned(config, old(View()), service, now)
    {
      var times := if service in restarts then restarts[service] else [];
      ghost var all := times;
      while times != [] && now - times[0] > config.window
        invariant Prune(times, now, config.window) == Prune(all, now, config.window)
        decreases |times|
      {
        times := times[1..];
      }
      restarts := restarts[service := times];
    }

    method RecordRestart(service: string)
      modifies this`restarts, clock
      ensures old(clock.now) <= clock.now
      ensures View() == Recorded(config, old(View()), service, clock.now)
    {
      var now := clock.Read();
      var times := if service in restarts then restarts[service] else [];
      restarts := restarts[service := times + [now]];
      PruneAt(service, now);
    }

    method CountRestarts(service: string) returns (count: nat)
      modifies this`restarts, clock
      ensures old(clock.now) <= clock.now
      ensures count == RestartCount(config, old(View()), service, clock.now)
      ensures View() == Pruned(config, old(View()), service, clock.now)
    {
      var now := clock.Read();
      PruneAt(service, now);
      count := |restarts[service]|;
    }

    method CheckFlapping(service: string) returns (flapping: bool)
      modifies this`restarts, clock
      ensures old(clock.now) <= clock.now
      ensures flapping == IsFlapping(config, old(View()), service, clock.now)
      ensures View() == Pruned(config, old(View()), service, clock.now)
    {
      var count := CountRestarts(service);
      flapping := count >= config.threshold;
    }

    method StartCooldown(service: string, duration: real)
      modifies this`cooldownUntil, clock
      ensures old(clock.now) <= clock.now
      ensures View() == CoolingDown(old(View()), service, clock.now + duration)
    {
      var now := clock.Read();
      cooldownUntil := cooldownUntil[service := now + duration];
    }

    method CheckCooldown(service: string) returns (cooling: bool)
      modifies this, clock
      ensures old(clock.now) <= clock.now
      ensures cooling == InCooldown(old(View()), service, clock.now)
      ensures View() == CooldownChecked(old(View()), service, clock.now)
    {
      var now := clock.Read();
      if service !in cooldownUntil {
        return false;
      }
      if now < cooldownUntil[service] {
        return true;
      }
      cooldownUntil := cooldownUntil - {service};
      restarts := restarts[service := []];
      return false;
    }
  }
}
