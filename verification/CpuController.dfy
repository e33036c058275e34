/** The hysteresis controller of the CPU guard: three consecutive samples above the trigger lower
    the quota geometrically, twelve consecutive samples below the recovery threshold raise it by
    five points, and a quota past the ceiling returns to the original one (written 0).
    Percentages are exact reals. */
module CpuController {
  import opened Basics

  datatype Config = Config(
    enabled: bool, highPercent: real, lowPercent: real, maxQuota: real, minQuota: real)

  predicate Accepted(c: Config) {
    && 0.0 < c.lowPercent < c.highPercent <= 100.0
    && 0.0 < c.minQuota <= c.maxQuota <= 100.0
  }

  function Default(value: real, standard: real): real {
    if value == 0.0 then standard else value
  }

  function WithDefaults(c: Config): Config {
    Config(c.enabled, Default(c.highPercent, 90.0), Default(c.lowPercent, 70.0),
           Default(c.maxQuota, 80.0), Default(c.minQuota, 20.0))
  }

  /** Fills in the defaults on a local copy and rejects a copy outside the allowed ranges. */
  method Normalize(config: Config) returns (c: Config, ok: bool)
    ensures c == WithDefaults(config)
    ensures c.enabled == config.enabled
    ensures c.highPercent == if config.highPercent == 0.0 then 90.0 else config.highPercent
    ensures c.lowPercent == if config.lowPercent == 0.0 then 70.0 else config.lowPercent
    ensures c.maxQuota == if config.maxQuota == 0.0 then 80.0 else config.maxQuota
    ensures c.minQuota == if config.minQuota == 0.0 then 20.0 else config.minQuota
    ensures ok <==> Accepted(c)
    ensures ok <==> && 0.0 < c.lowPercent && c.lowPercent < c.highPercent && c.highPercent <= 100.0
                    && 0.0 < c.minQuota && c.minQuota <= c.maxQuota && c.maxQuota <= 100.0
    ensures ok ==> WithDefaults(c) == c
  {
    c := config;
    if c.highPercent == 0.0 { c := c.(highPercent := 90.0); }
    if c.lowPercent == 0.0 { c := c.(lowPercent := 70.0); }
    if c.maxQuota == 0.0 { c := c.(maxQuota := 80.0); }
    if c.minQuota == 0.0 { c := c.(minQuota := 20.0); }
    if c.highPercent > 100.0 || c.highPercent <= c.lowPercent || c.lowPercent <= 0.0 {
      return c, false;
    }
    if c.maxQuota > 100.0 || c.maxQuota <= 0.0 || c.minQuota <= 0.0 || c.minQuota > c.maxQuota {
      return c, false;
    }
    ok := true;
  }

  // ---------------------------------------------------------------- one sample

  datatype CpuSample = CpuSample(total: nat, idle: nat, cores: nat)

  /** Two samples of one boot: the same cores and counters that did not run backwards. */
  predicate Comparable(prev: CpuSample, next: CpuSample) {
    && next.cores == prev.cores && next.total > prev.total
    && 0 <= next.idle - prev.idle <= next.total - prev.total
  }

  /** The share of the machine in use between two samples; none across a counter reset. */
  function CpuPercent(prev: CpuSample, next: CpuSample): (usage: Option<real>)
    ensures usage.Some? <==> Comparable(prev, next)
    ensures usage.Some? ==>
              && 0.0 <= usage.value <= 100.0
              && usage.value * (next.total - prev.total) as real
                 + 100.0 * (next.idle - prev.idle) as real == 100.0 * (next.total - prev.total) as real
  {
    if next.cores != prev.cores || next.total <= prev.total || next.idle < prev.idle then None
    else
      var total, idle := next.total - prev.total, next.idle - prev.idle;
      if idle > total then None
      else
        Divide(100.0 * (total - idle) as real, total as real);
        Some(100.0 * (total - idle) as real / total as real)
  }

  lemma Divide(x: real, y: real)
    requires 0.0 < y && 0.0 <= x <= 100.0 * y
    ensures 0.0 <= x / y <= 100.0 && x / y * y == x
  {
    assert x / y * y == x;
  }

  datatype Control = Control(high: nat, low: nat, quota: real)

  /** What the controller asks for: the quota, and whether it is a change. */
  datatype Decision = Decision(quota: real, changed: bool)

  function Max(x: real, y: real): real { if x < y then y else x }

  /** The quota the next lowering round asks for. */
  function LoweredOnce(cfg: Config, quota: real): real {
    Max(if quota > 0.0 then quota * 0.8 else cfg.maxQuota, cfg.minQuota)
  }

  /** The quota the next recovery round asks for. */
  function RaisedOnce(cfg: Config, quota: real): real {
    if quota + 5.0 > cfg.maxQuota then 0.0 else quota + 5.0
  }

  function Decide(cfg: Config, c: Control, usage: real): (Control, Decision) {
    if usage > cfg.highPercent then
      if c.high + 1 < 3 then (c.(high := c.high + 1, low := 0), Decision(c.quota, false))
      else
        var q := LoweredOnce(cfg, c.quota);
        (c.(high := 0, low := 0), Decision(q, q != c.quota))
    else if usage < cfg.lowPercent && c.quota > 0.0 then
      if c.low + 1 < 12 then (c.(high := 0, low := c.low + 1), Decision(c.quota, false))
      else (c.(high := 0, low := 0), Decision(RaisedOnce(cfg, c.quota), true))
    else
      (c.(high := 0, low := 0), Decision(c.quota, false))
  }

  class Controller {
    const cfg: Config
    var high: nat
    var low: nat
    var quota: real

    function View(): Control reads this { Control(high, low, quota) }

    constructor (cfg: Config, quota: real)
      ensures this.cfg == cfg && View() == Control(0, 0, quota)
    {
      this.cfg := cfg;
      this.high, this.low, this.quota := 0, 0, quota;
    }

    /** Counts one sample and says which quota to ask for. The quota field stays: the caller
        stores it only after systemd has taken the change. */
    method Next(usage: real) returns (d: Decision)
      modifies this
      ensures (View(), d) == Decide(cfg, old(View()), usage)
      ensures quota == old(quota)
    {
      if usage > cfg.highPercent {
        high := high + 1;
        low := 0;
        if high < 3 {
          return Decision(quota, false);
        }
        high := 0;
        var q := cfg.maxQuota;
        if quota > 0.0 {
          q := quota * 0.8;
        }
        if q < cfg.minQuota {
          q := cfg.minQuota;
        }
        return Decision(q, q != quota);
      }
      high := 0;
      if usage < cfg.lowPercent && quota > 0.0 {
        low := low + 1;
        if low < 12 {
          return Decision(quota, false);
        }
        low := 0;
        var q := quota + 5.0;
        if q > cfg.maxQuota {
          q := 0.0;
        }
        return Decision(q, true);
      }
      low := 0;
      return Decision(quota, false);
    }

    method Forget()
      modifies this
      ensures View() == old(View()).(high := 0, low := 0)
    {
      high, low := 0, 0;
    }
  }

  // ------------------------------------------------------------ whole histories

  /** One turn of the sampling loop: an unusable reading, or a usage together with whether an
      adjustment asked for at this turn reached systemd. */
  datatype Reading = Unusable | Usage(percent: real, applied: bool)

  function Feed(cfg: Config, c: Control, r: Reading): Control {
    match r
    case Unusable => c.(high := 0, low := 0)
    case Usage(u, applied) =>
      var (next, d) := Decide(cfg, c, u);
      if d.changed && applied then next.(quota := d.quota) else next
  }

  function FeedAll(cfg: Config, c: Control, rs: seq<Reading>): Control {
    if rs == [] then c else Feed(cfg, FeedAll(cfg, c, rs[..|rs| - 1]), rs[|rs| - 1])
  }

  predicate Hot(cfg: Config, r: Reading) { r.Usage? && r.percent > cfg.highPercent }

  predicate Cool(cfg: Config, r: Reading) { r.Usage? && r.percent < cfg.lowPercent }

  /** How many readings at the end of the history are above the trigger without a break. */
  function HotStreak(cfg: Config, rs: seq<Reading>): nat {
    if rs == [] || !Hot(cfg, rs[|rs| - 1]) then 0 else 1 + HotStreak(cfg, rs[..|rs| - 1])
  }

  function CoolStreak(cfg: Config, rs: seq<Reading>): nat {
    if rs == [] || !Cool(cfg, rs[|rs| - 1]) then 0 else 1 + CoolStreak(cfg, rs[..|rs| - 1])
  }

  predicate InBand(cfg: Config, quota: real) {
    quota == 0.0 || cfg.minQuota <= quota <= cfg.maxQuota
  }

  /** Over every history of readings, usable or not, and every pattern of failed adjustments:
      the quota is the original one or inside the configured band, and the two counters are the
      lengths of the unbroken streaks, so that no shorter or interrupted streak ever changes
      the quota. */
  lemma {:induction false} CountersAreStreaks(cfg: Config, quota: real, rs: seq<Reading>)
    requires Accepted(cfg) && InBand(cfg, quota)
    ensures var c := FeedAll(cfg, Control(0, 0, quota), rs);
            && InBand(cfg, c.quota)
            && c.high == HotStreak(cfg, rs) % 3
            && c.low == if c.quota > 0.0 then CoolStreak(cfg, rs) % 12 else 0
  {
    if rs != [] {
      var front, r := rs[..|rs| - 1], rs[|rs| - 1];
      CountersAreStreaks(cfg, quota, front);
      FeedCounts(cfg, FeedAll(cfg, Control(0, 0, quota), front), r);
    }
  }

  /** One reading: a hot one adds to high, a cool one to low while a quota is set, modulo the number
      that triggers an adjustment; everything else starts the count again. */
  lemma FeedCounts(cfg: Config, c: Control, r: Reading)
    requires Accepted(cfg) && InBand(cfg, c.quota) && c.high < 3 && c.low < 12
    ensures var e := Feed(cfg, c, r);
            && InBand(cfg, e.quota)
            && e.high == (if Hot(cfg, r) then (c.high + 1) % 3 else 0)
            && e.low == (if Cool(cfg, r) && c.quota > 0.0 then (c.low + 1) % 12 else 0)
            && (c.quota == 0.0 && e.quota > 0.0 ==> Hot(cfg, r))
            && (e.quota == 0.0 && c.quota > 0.0 ==> e.low == 0)
  {
  }

  /** The controller asks for a change exactly when it asks for another quota than the one it has. */
  lemma AskingIsChanging(cfg: Config, c: Control, usage: real)
    requires Accepted(cfg) && InBand(cfg, c.quota)
    ensures var d := Decide(cfg, c, usage).1;
            (d.changed <==> d.quota != c.quota) && InBand(cfg, d.quota)
  {
  }

  /** The quota changes at a reading exactly when it completes a multiple of three hot readings
      and is above the floor, or a multiple of twelve cool readings below the original quota. */
  lemma {:induction false} QuotaChangesOnlyOnFullStreaks(
    cfg: Config, quota: real, rs: seq<Reading>, r: Reading)
    requires Accepted(cfg) && InBand(cfg, quota)
    ensures var before := FeedAll(cfg, Control(0, 0, quota), rs).quota;
            var after := FeedAll(cfg, Control(0, 0, quota), rs + [r]).quota;
            after != before <==>
            && r.Usage? && r.applied
            && (|| (Hot(cfg, r) && HotStreak(cfg, rs + [r]) % 3 == 0 && before != cfg.minQuota)
                || (Cool(cfg, r) && CoolStreak(cfg, rs + [r]) % 12 == 0 && before > 0.0))
  {
    var all := rs + [r];
    assert all[..|all| - 1] == rs;
    CountersAreStreaks(cfg, quota, rs);
  }

  /** How far a full streak moves the quota once the change is applied: the third hot reading puts
      the ceiling on a service without a quota, and takes a fifth off a quota, down to the floor; the
      twelfth cool one adds five points, and past the ceiling the original quota is back. */
  lemma {:induction false} FullStreaksMoveTheQuota(
    cfg: Config, quota: real, rs: seq<Reading>, r: Reading)
    requires Accepted(cfg) && InBand(cfg, quota) && r.Usage? && r.applied
    ensures var before := FeedAll(cfg, Control(0, 0, quota), rs).quota;
            var after := FeedAll(cfg, Control(0, 0, quota), rs + [r]).quota;
            && (Hot(cfg, r) && HotStreak(cfg, rs + [r]) % 3 == 0 ==>
                  && (before == 0.0 ==> after == cfg.maxQuota)
                  && (before > 0.0 ==>
                        && after >= cfg.minQuota && 5.0 * after >= 4.0 * before
                        && (after == cfg.minQuota || 5.0 * after == 4.0 * before)))
            && (Cool(cfg, r) && CoolStreak(cfg, rs + [r]) % 12 == 0 && before > 0.0 ==>
                  if before + 5.0 > cfg.maxQuota then after == 0.0 else after == before + 5.0)
  {
    var all := rs + [r];
    assert all[..|all| - 1] == rs;
    CountersAreStreaks(cfg, quota, rs);
  }

  // ------------------------------------------------------------ sustained load

  function LoweredTimes(cfg: Config, quota: real, rounds: nat): real {
    if rounds == 0 then quota else LoweredOnce(cfg, LoweredTimes(cfg, quota, rounds - 1))
  }

  lemma {:induction false} HotRunLowers(cfg: Config, c: Control, rs: seq<Reading>)
    requires Accepted(cfg) && c.high < 3
    requires forall r <- rs :: Hot(cfg, r) && r.applied
    ensures var e := FeedAll(cfg, c, rs);
            && e.high == (c.high + |rs|) % 3
            && e.quota == LoweredTimes(cfg, c.quota, (c.high + |rs|) / 3)
  {
    if rs != [] {
      HotRunLowers(cfg, c, rs[..|rs| - 1]);
      assert Hot(cfg, rs[|rs| - 1]);
    }
  }

  /** What is left of a quota after so many times a fifth is taken off. */
  function FifthsOff(quota: real, times: nat): real {
    if times == 0 then quota else FifthsOff(quota, times - 1) * 4.0 / 5.0
  }

  /** The quota after so many rounds of sustained load: a fifth off in each, beginning with the ceiling
      for a service without a quota, and never below the floor. */
  function AfterRounds(cfg: Config, quota: real, rounds: nat): real {
    if rounds == 0 then quota
    else
      var left := if quota > 0.0 then FifthsOff(quota, rounds) else FifthsOff(cfg.maxQuota, rounds - 1);
      if left < cfg.minQuota then cfg.minQuota else left
  }

  lemma {:induction false} LoweredExactly(cfg: Config, quota: real, rounds: nat)
    requires Accepted(cfg) && InBand(cfg, quota)
    ensures LoweredTimes(cfg, quota, rounds) == AfterRounds(cfg, quota, rounds)
  {
    if rounds > 0 {
      LoweredExactly(cfg, quota, rounds - 1);
    }
  }

  /** Under sustained load the quota after every number of samples is known exactly, so the floor is
      reached in the first round in which four fifths of the quota would fall to it, not one earlier. */
  lemma SustainedLoadLowers(cfg: Config, c: Control, rs: seq<Reading>)
    requires Accepted(cfg) && InBand(cfg, c.quota) && c.high < 3
    requires forall r <- rs :: Hot(cfg, r) && r.applied
    ensures FeedAll(cfg, c, rs).quota == AfterRounds(cfg, c.quota, (c.high + |rs|) / 3)
    ensures FeedAll(cfg, c, rs).high == (c.high + |rs|) % 3
  {
    HotRunLowers(cfg, c, rs);
    LoweredExactly(cfg, c.quota, (c.high + |rs|) / 3);
  }

  /** Enough rounds to reach the floor from any quota: one to install a quota, then at least a
      fifth of the floor off at each. */
  function RoundsToFloor(cfg: Config): (rounds: nat)
    requires Accepted(cfg)
    ensures rounds >= 2
  {
    var ratio := 5.0 * (cfg.maxQuota - cfg.minQuota) / cfg.minQuota;
    assert ratio * cfg.minQuota >= 0.0;
    2 + ratio.Floor
  }

  /** One round from a quota in the band takes at least a fifth of the floor off or ends at it. */
  lemma OneRoundDown(cfg: Config, q: real, bound: real)
    requires Accepted(cfg) && cfg.minQuota <= q <= cfg.maxQuota && (q == cfg.minQuota || q <= bound)
    ensures var next := LoweredOnce(cfg, q);
            && cfg.minQuota <= next <= cfg.maxQuota
            && (next == cfg.minQuota || next <= bound - cfg.minQuota / 5.0)
  {
  }

  /** A line from the ceiling that falls by a fifth of the floor in each round. */
  function Descent(cfg: Config, rounds: nat): real {
    if rounds == 0 then cfg.maxQuota else Descent(cfg, rounds - 1) - cfg.minQuota / 5.0
  }

  lemma {:induction false} DescentSum(cfg: Config, rounds: nat)
    ensures Descent(cfg, rounds) == cfg.maxQuota - rounds as real * (cfg.minQuota / 5.0)
  {
    if rounds > 0 {
      DescentSum(cfg, rounds - 1);
      OneMoreStep(rounds - 1, cfg.minQuota / 5.0);
    }
  }

  lemma OneMoreStep(n: nat, step: real)
    ensures (n + 1) as real * step == n as real * step + step
  {
  }

  lemma {:induction false} LoweredDescends(cfg: Config, quota: real, rounds: nat)
    requires Accepted(cfg) && InBand(cfg, quota) && rounds > 0
    ensures var q := LoweredTimes(cfg, quota, rounds);
            cfg.minQuota <= q <= cfg.maxQuota && (q == cfg.minQuota || q <= Descent(cfg, rounds - 1))
  {
    if rounds > 1 {
      LoweredDescends(cfg, quota, rounds - 1);
      OneRoundDown(cfg, LoweredTimes(cfg, quota, rounds - 1), Descent(cfg, rounds - 2));
    } else {
      FirstRoundDown(cfg, quota);
    }
  }

  lemma FirstRoundDown(cfg: Config, quota: real)
    requires Accepted(cfg) && InBand(cfg, quota)
    ensures cfg.minQuota <= LoweredTimes(cfg, quota, 1) <= cfg.maxQuota
  {
    assert LoweredTimes(cfg, quota, 1) == LoweredOnce(cfg, quota);
  }

  lemma StepsCoverBand(low: real, high: real, steps: real)
    requires 0.0 < low <= high && steps > 5.0 * (high - low) / low
    ensures high - steps * (low / 5.0) < low
  {
    var ratio := 5.0 * (high - low) / low;
    assert ratio * low == 5.0 * (high - low);
    assert (steps - ratio) * low > 0.0;
    assert steps * (low / 5.0) == steps * low / 5.0;
  }

  lemma EnoughRounds(cfg: Config, rounds: nat)
    requires Accepted(cfg) && rounds >= RoundsToFloor(cfg)
    ensures (rounds - 1) as real > 5.0 * (cfg.maxQuota - cfg.minQuota) / cfg.minQuota
  {
  }

  lemma DescentPassesFloor(cfg: Config, rounds: nat)
    requires Accepted(cfg) && rounds >= RoundsToFloor(cfg)
    ensures Descent(cfg, rounds - 1) < cfg.minQuota
  {
    var steps := (rounds - 1) as real;
    EnoughRounds(cfg, rounds);
    StepsCoverBand(cfg.minQuota, cfg.maxQuota, steps);
    DescentSum(cfg, rounds - 1);
    assert Descent(cfg, rounds - 1) == cfg.maxQuota - steps * (cfg.minQuota / 5.0);
  }

  lemma {:induction false} FloorReached(cfg: Config, quota: real, rounds: nat)
    requires Accepted(cfg) && InBand(cfg, quota) && rounds >= RoundsToFloor(cfg)
    ensures LoweredTimes(cfg, quota, rounds) == cfg.minQuota
  {
    LoweredDescends(cfg, quota, rounds);
    DescentPassesFloor(cfg, rounds);
  }

  /** Under sustained load above the trigger the quota reaches the floor after finitely many
      rounds of three samples, and stays there however long the load lasts. */
  lemma {:induction false} SustainedLoadReachesFloor(cfg: Config, c: Control, rs: seq<Reading>)
    requires Accepted(cfg) && InBand(cfg, c.quota) && c.high < 3
    requires forall r <- rs :: Hot(cfg, r) && r.applied
    requires |rs| >= 3 * RoundsToFloor(cfg)
    ensures FeedAll(cfg, c, rs).quota == cfg.minQuota
  {
    HotRunLowers(cfg, c, rs);
    FloorReached(cfg, c.quota, (c.high + |rs|) / 3);
  }

  /** The number of recovery rounds from a quota back to the original one. */
  function RoundsToOriginal(cfg: Config, quota: real): nat
    requires quota <= cfg.maxQuota
  {
    ((cfg.maxQuota - quota) / 5.0).Floor + 1
  }

  lemma FewerRounds(cfg: Config, quota: real)
    requires Accepted(cfg) && cfg.minQuota <= quota <= cfg.maxQuota
    ensures RoundsToOriginal(cfg, quota) <= RoundsToOriginal(cfg, cfg.minQuota)
  {
  }

  /** One cool reading: it counts while a quota is set, and the twelfth raises the quota. */
  lemma CoolReading(cfg: Config, c: Control, r: Reading)
    requires Accepted(cfg) && Cool(cfg, r) && r.applied && c.low < 12
    ensures var e := Feed(cfg, c, r);
            && (c.quota <= 0.0 ==> e.quota == c.quota)
            && (c.quota > 0.0 && c.low < 11 ==> e.quota == c.quota && e.low == c.low + 1)
            && (c.quota > 0.0 && c.low == 11 ==> e.quota == RaisedOnce(cfg, c.quota) && e.low == 0)
  {
  }

  /** Raising after so many rounds exceeds the ceiling exactly in the last round. */
  lemma RaiseInRound(cfg: Config, quota: real, rounds: nat)
    requires quota <= cfg.maxQuota && rounds < RoundsToOriginal(cfg, quota)
    ensures var q := quota + 5.0 * rounds as real;
            RaisedOnce(cfg, q)
            == if rounds + 1 == RoundsToOriginal(cfg, quota) then 0.0
               else quota + 5.0 * (rounds + 1) as real
  {
    var span := (cfg.maxQuota - quota) / 5.0;
    assert quota + 5.0 * rounds as real + 5.0 > cfg.maxQuota <==> (rounds + 1) as real > span;
  }

  lemma {:induction false} CalmKeepsOriginal(cfg: Config, c: Control, rs: seq<Reading>)
    requires Accepted(cfg) && c.quota == 0.0 && forall r <- rs :: Cool(cfg, r)
    ensures FeedAll(cfg, c, rs).quota == 0.0
  {
    if rs != [] {
      assert Cool(cfg, rs[|rs| - 1]);
      CalmKeepsOriginal(cfg, c, rs[..|rs| - 1]);
    }
  }

  predicate OnTheWay(cfg: Config, quota: real, e: Control, n: nat) {
    e.quota == quota + 5.0 * (n / 12) as real && e.quota > 0.0 && e.low == n % 12
  }

  lemma OneMoreCool(cfg: Config, quota: real, e: Control, n: nat, r: Reading)
    requires Accepted(cfg) && 0.0 < quota <= cfg.maxQuota && Cool(cfg, r) && r.applied
    requires n < 12 * RoundsToOriginal(cfg, quota) && OnTheWay(cfg, quota, e, n)
    ensures var full, f := 12 * RoundsToOriginal(cfg, quota), Feed(cfg, e, r);
            if n + 1 < full then OnTheWay(cfg, quota, f, n + 1) else f.quota == 0.0 && f.low == 0
  {
    CoolReading(cfg, e, r);
    if n % 12 == 11 {
      RaiseInRound(cfg, quota, n / 12);
      assert (n + 1) / 12 == n / 12 + 1;
    } else {
      assert (n + 1) / 12 == n / 12 && (n + 1) % 12 == n % 12 + 1;
    }
  }

  /** Under sustained load below the recovery threshold the quota climbs by five points every
      twelve samples and is back at the original one after exactly RoundsToOriginal rounds, not
      one sample earlier. */
  lemma {:induction false} SustainedCalmRestores(cfg: Config, c: Control, rs: seq<Reading>)
    requires Accepted(cfg) && c.low == 0 && 0.0 < c.quota <= cfg.maxQuota
    requires forall r <- rs :: Cool(cfg, r) && r.applied
    ensures var full := 12 * RoundsToOriginal(cfg, c.quota);
            var e := FeedAll(cfg, c, rs);
            if |rs| < full then OnTheWay(cfg, c.quota, e, |rs|) else e.quota == 0.0 && e.low == 0
  {
    if rs != [] {
      var front, r := rs[..|rs| - 1], rs[|rs| - 1];
      SustainedCalmRestores(cfg, c, front);
      if |front| < 12 * RoundsToOriginal(cfg, c.quota) {
        OneMoreCool(cfg, c.quota, FeedAll(cfg, c, front), |front|, r);
      }
    }
  }
}
