/** The login throttle. Records are kept per user and address; each recorded failure also prunes
    the records that can no longer matter. Times are Unix seconds. */
module LoginProtection {

  datatype Config = Config(enabled: bool, maxAttempts: int, windowMinutes: int, lockMinutes: int)

  function Max(x: int, y: int): int { if x < y then y else x }

  function WindowSeconds(cfg: Config): int { Max(60, cfg.windowMinutes * 60) }

  function LockSeconds(cfg: Config): int { Max(60, cfg.lockMinutes * 60) }

  function Ttl(cfg: Config): int { Max(3600, cfg.lockMinutes * 120) }

  function Threshold(cfg: Config): int { Max(1, cfg.maxAttempts) }

  datatype Record = Record(failed: int, windowStart: int, lastFailed: int, lockedUntil: int)

  const BLANK := Record(0, 0, 0, 0)

  type Store = map<string, Record>

  function Lookup(s: Store, key: string): Record { if key in s then s[key] else BLANK }

  /** The record after one more failure. */
  function Failed(cfg: Config, r: Record, now: int): Record {
    var recent :=
      if r.windowStart == 0 || r.windowStart + WindowSeconds(cfg) < now
      then r.(windowStart := now, failed := 0) else r;
    var counted := recent.(failed := recent.failed + 1, lastFailed := now);
    if counted.failed >= Threshold(cfg) then counted.(lockedUntil := now + LockSeconds(cfg))
    else counted
  }

  /** Still locked, or failed too recently to forget. */
  predicate Live(cfg: Config, r: Record, now: int) {
    r.lockedUntil > now || r.lastFailed + Ttl(cfg) > now
  }

  function Pruned(cfg: Config, s: Store, now: int): Store {
    map key | key in s && Live(cfg, s[key], now) :: s[key]
  }

  predicate Allowed(cfg: Config, s: Store, key: string, now: int) {
    !cfg.enabled || Lookup(s, key).lockedUntil <= now
  }

  function AfterFailure(cfg: Config, s: Store, key: string, now: int): Store {
    if !cfg.enabled then s else Pruned(cfg, s[key := Failed(cfg, Lookup(s, key), now)], now)
  }

  function AfterSuccess(s: Store, key: string): Store { s - {key} }

  class LoginProtection {
    const cfg: Config
    var records: Store

    constructor (cfg: Config)
      ensures this.cfg == cfg && records == map[]
    {
      this.cfg, records := cfg, map[];
    }

    method AssertAllowed(key: string, now: int) returns (ok: bool)
      ensures ok == Allowed(cfg, records, key, now)
    {
      if !cfg.enabled {
        return true;
      }
      var record := Lookup(records, key);
      return !(record.lockedUntil > now);
    }

    method RecordFailure(key: string, now: int)
      modifies this
      ensures records == AfterFailure(cfg, old(records), key, now)
    {
      if !cfg.enabled {
        return;
      }
      var record := Lookup(records, key);
      if record.windowStart == 0 || record.windowStart + WindowSeconds(cfg) < now {
        record := record.(windowStart := now, failed := 0);
      }
      record := record.(failed := record.failed + 1, lastFailed := now);
      if record.failed >= Threshold(cfg) {
        record := record.(lockedUntil := now + LockSeconds(cfg));
      }
      records := records[key := record];
      records := Prune(records, now);
    }

    method RecordSuccess(key: string)
      modifies this
      ensures records == AfterSuccess(old(records), key)
    {
      records := records - {key};
    }

    method Prune(s: Store, now: int) returns (result: Store)
      ensures result == Pruned(cfg, s, now)
    {
      result := map[];
      var keys := s.Keys;
      while keys != {}
        invariant keys <= s.Keys
        invariant result == map key | key in s.Keys - keys && Live(cfg, s[key], now) :: s[key]
        decreases keys
      {
        var key :| key in keys;
        keys := keys - {key};
        if Live(cfg, s[key], now) {
          result := result[key := s[key]];
        }
      }
    }
  }

  // ---------------------------------------------------------------- pruning is invisible

  datatype Event = Failure(key: string, at: int) | Success(key: string, at: int)

  /** The service as it is, and the same service with a store that is never pruned. */
  function Step(cfg: Config, s: Store, e: Event): Store {
    match e
    case Failure(key, at) => AfterFailure(cfg, s, key, at)
    case Success(key, _) => AfterSuccess(s, key)
  }

  function StepUnpruned(cfg: Config, s: Store, e: Event): Store {
    match e
    case Failure(key, at) => if cfg.enabled then s[key := Failed(cfg, Lookup(s, key), at)] else s
    case Success(key, _) => AfterSuccess(s, key)
  }

  function Run(cfg: Config, es: seq<Event>): Store {
    if es == [] then map[] else Step(cfg, Run(cfg, es[..|es| - 1]), es[|es| - 1])
  }

  function RunUnpruned(cfg: Config, es: seq<Event>): Store {
    if es == [] then map[] else StepUnpruned(cfg, RunUnpruned(cfg, es[..|es| - 1]), es[|es| - 1])
  }

  /** A clock that starts after the epoch and never runs backwards. */
  predicate Timed(es: seq<Event>, now: int) {
    && 0 <= now
    && (forall i | 0 <= i < |es| :: 0 < es[i].at <= now)
    && (forall i, j | 0 <= i < j < |es| :: es[i].at <= es[j].at)
  }

  /** The unpruned record u has nothing left to say at this time. */
  predicate Spent(cfg: Config, u: Record, now: int) {
    && u.lockedUntil <= now
    && (u == BLANK
        || (0 < u.windowStart <= u.lastFailed && u.lastFailed + Ttl(cfg) <= now))
  }

  /** Two records that cannot be told apart from now on: equal up to expired locks and, unless a
      single failure locks, in their counting window. */
  predicate Same(cfg: Config, p: Record, u: Record, now: int) {
    && (p.lockedUntil == u.lockedUntil || (p.lockedUntil <= now && u.lockedUntil <= now))
    && p.failed >= 0 && u.failed >= 0
    && (Threshold(cfg) > 1 ==>
          || (p == BLANK && Spent(cfg, u, now))
          || (&& p.failed == u.failed && p.windowStart == u.windowStart
              && p.lastFailed == u.lastFailed && 0 < p.windowStart <= p.lastFailed <= now))
  }

  /** The configurations for which pruning never shows. */
  predicate Harmless(cfg: Config) {
    !cfg.enabled || WindowSeconds(cfg) < Ttl(cfg) || Threshold(cfg) == 1
  }

  ghost predicate Bisimilar(cfg: Config, p: Store, u: Store, now: int) {
    forall key :: Same(cfg, Lookup(p, key), Lookup(u, key), now)
  }

  lemma TimePasses(cfg: Config, p: Record, u: Record, now: int, later: int)
    requires Same(cfg, p, u, now) && now <= later
    ensures Same(cfg, p, u, later)
  {
  }

  lemma FailureKeepsSame(cfg: Config, p: Record, u: Record, now: int)
    requires Harmless(cfg) && cfg.enabled && Same(cfg, p, u, now) && now > 0
    ensures Same(cfg, Failed(cfg, p, now), Failed(cfg, u, now), now)
  {
  }

  lemma ForgettingKeepsSame(cfg: Config, p: Record, u: Record, now: int)
    requires Same(cfg, p, u, now) && !Live(cfg, p, now) && 0 < now
    ensures Same(cfg, BLANK, u, now)
  {
  }

  lemma StepIsBisimilar(cfg: Config, p: Store, u: Store, e: Event, now: int)
    requires Harmless(cfg) && Bisimilar(cfg, p, u, now) && 0 < e.at && now <= e.at
    ensures Bisimilar(cfg, Step(cfg, p, e), StepUnpruned(cfg, u, e), e.at)
  {
    forall key
      ensures Same(cfg, Lookup(Step(cfg, p, e), key), Lookup(StepUnpruned(cfg, u, e), key), e.at)
    {
      TimePasses(cfg, Lookup(p, key), Lookup(u, key), now, e.at);
      if e.Failure? && cfg.enabled {
        var p', u' := Lookup(p, key), Lookup(u, key);
        if key == e.key {
          FailureKeepsSame(cfg, p', u', e.at);
          p', u' := Failed(cfg, p', e.at), Failed(cfg, u', e.at);
        }
        if !Live(cfg, p', e.at) {
          ForgettingKeepsSame(cfg, p', u', e.at);
        }
      }
    }
  }

  lemma {:induction false} RunsAreBisimilar(cfg: Config, es: seq<Event>, now: int)
    requires Harmless(cfg) && Timed(es, now)
    ensures Bisimilar(cfg, Run(cfg, es), RunUnpruned(cfg, es), now)
  {
    if es == [] {
    } else {
      var last := es[|es| - 1];
      RunsAreBisimilar(cfg, es[..|es| - 1], last.at);
      StepIsBisimilar(cfg, Run(cfg, es[..|es| - 1]), RunUnpruned(cfg, es[..|es| - 1]), last, last.at);
      forall key
        ensures Same(cfg, Lookup(Run(cfg, es), key), Lookup(RunUnpruned(cfg, es), key), now)
      {
        TimePasses(cfg, Lookup(Run(cfg, es), key), Lookup(RunUnpruned(cfg, es), key), last.at, now);
      }
    }
  }

  /** After any sequence of failures and successes both stores answer every later query alike. */
  ghost predicate Invisible(cfg: Config) {
    forall es: seq<Event>, key: string, now: int | Timed(es, now) ::
      Allowed(cfg, Run(cfg, es), key, now) == Allowed(cfg, RunUnpruned(cfg, es), key, now)
  }

  // ---------------------------------------------------------------- and exactly when

  /** What a lookup finds after one more failure. */
  lemma LookupAfterFailure(cfg: Config, s: Store, key: string, at: int, k: string)
    requires cfg.enabled
    ensures var r := if k == key then Failed(cfg, Lookup(s, key), at) else Lookup(s, k);
            && Lookup(Step(cfg, s, Failure(key, at)), k) == (if Live(cfg, r, at) then r else BLANK)
            && Lookup(StepUnpruned(cfg, s, Failure(key, at)), k) == r
  {
  }

  lemma DistinguishingStart(cfg: Config)
    requires !Harmless(cfg)
    ensures var es := [Failure("a", 1), Failure("b", 1 + Ttl(cfg))];
            && Lookup(Run(cfg, es), "a") == BLANK
            && Lookup(RunUnpruned(cfg, es), "a") == Record(1, 1, 1, 0)
  {
    var one, es := [Failure("a", 1)], [Failure("a", 1), Failure("b", 1 + Ttl(cfg))];
    assert one[..0] == [] && es[..1] == one && es[1] == Failure("b", 1 + Ttl(cfg));
    LookupAfterFailure(cfg, map[], "a", 1, "a");
    assert Run(cfg, one) == Step(cfg, map[], Failure("a", 1));
    assert RunUnpruned(cfg, one) == StepUnpruned(cfg, map[], Failure("a", 1));
    assert Failed(cfg, BLANK, 1) == Record(1, 1, 1, 0);
    assert "a"[0] != "b"[0];
    LookupAfterFailure(cfg, Run(cfg, one), "b", 1 + Ttl(cfg), "a");
    LookupAfterFailure(cfg, RunUnpruned(cfg, one), "b", 1 + Ttl(cfg), "a");
    assert Run(cfg, es) == Step(cfg, Run(cfg, one), es[1]);
    assert RunUnpruned(cfg, es) == StepUnpruned(cfg, RunUnpruned(cfg, one), es[1]);
  }

  lemma FailureInsideWindow(cfg: Config, r: Record, now: int)
    requires r.lockedUntil == 0 && r.windowStart > 0 && r.windowStart + WindowSeconds(cfg) >= now
    ensures Failed(cfg, r, now)
         == Record(r.failed + 1, r.windowStart, now,
                   if r.failed + 1 >= Threshold(cfg) then now + LockSeconds(cfg) else 0)
  {
  }

  /** The records of a that the two stores hold after the given number of later failures. */
  function PrunedRecord(cfg: Config, more: nat): Record {
    if more == 0 then BLANK else Record(more, 1 + Ttl(cfg), 1 + Ttl(cfg), 0)
  }

  function UnprunedRecord(cfg: Config, more: nat): Record {
    var t := 1 + Ttl(cfg);
    Record(more + 1, 1, if more == 0 then 1 else t,
           if more + 1 == Threshold(cfg) then t + LockSeconds(cfg) else 0)
  }

  lemma DistinguishingStep(cfg: Config, p: Store, u: Store, more: nat)
    requires !Harmless(cfg) && more + 1 < Threshold(cfg)
    requires Lookup(p, "a") == PrunedRecord(cfg, more)
    requires Lookup(u, "a") == UnprunedRecord(cfg, more)
    ensures var e := Failure("a", 1 + Ttl(cfg));
            && Lookup(Step(cfg, p, e), "a") == PrunedRecord(cfg, more + 1)
            && Lookup(StepUnpruned(cfg, u, e), "a") == UnprunedRecord(cfg, more + 1)
  {
    var t := 1 + Ttl(cfg);
    LookupAfterFailure(cfg, p, "a", t, "a");
    LookupAfterFailure(cfg, u, "a", t, "a");
    FailureInsideWindow(cfg, UnprunedRecord(cfg, more), t);
    if more > 0 {
      FailureInsideWindow(cfg, PrunedRecord(cfg, more), t);
    }
  }

  /** Both stores hold the expected record of a after the given number of later failures. */
  predicate Expected(cfg: Config, p: Store, u: Store, more: nat) {
    Lookup(p, "a") == PrunedRecord(cfg, more) && Lookup(u, "a") == UnprunedRecord(cfg, more)
  }

  lemma OneMoreEvent(cfg: Config, before: seq<Event>, e: Event)
    ensures Run(cfg, before + [e]) == Step(cfg, Run(cfg, before), e)
    ensures RunUnpruned(cfg, before + [e]) == StepUnpruned(cfg, RunUnpruned(cfg, before), e)
  {
    var es := before + [e];
    assert es[..|es| - 1] == before;
  }

  lemma ExpectedNext(cfg: Config, before: seq<Event>, more: nat)
    requires !Harmless(cfg) && more + 1 < Threshold(cfg)
    requires Expected(cfg, Run(cfg, before), RunUnpruned(cfg, before), more)
    ensures var es := before + [Failure("a", 1 + Ttl(cfg))];
            Expected(cfg, Run(cfg, es), RunUnpruned(cfg, es), more + 1)
  {
    OneMoreEvent(cfg, before, Failure("a", 1 + Ttl(cfg)));
    DistinguishingStep(cfg, Run(cfg, before), RunUnpruned(cfg, before), more);
  }

  /** A burst of failures for a, whose first one the service has forgotten at the time of the last:
      one failure, a failure of b exactly when a's record may be forgotten, then so many more. */
  predicate Forgotten(cfg: Config, es: seq<Event>, more: nat) {
    && Timed(es, 1 + Ttl(cfg)) && Burst(cfg, es, "a", 1) && FailuresOf(es, "a") == more + 1
    && (more > 0 ==> LastFailure(es, "a") == 1 + Ttl(cfg))
    && Expected(cfg, Run(cfg, es), RunUnpruned(cfg, es), more)
  }

  lemma ForgottenStart(cfg: Config)
    requires !Harmless(cfg)
    ensures Forgotten(cfg, [Failure("a", 1), Failure("b", 1 + Ttl(cfg))], 0)
  {
    DistinguishingStart(cfg);
    var one, es := [Failure("a", 1)], [Failure("a", 1), Failure("b", 1 + Ttl(cfg))];
    assert one[..0] == [] && es[..1] == one && es[1] == Failure("b", 1 + Ttl(cfg));
    assert "a"[0] != "b"[0];
    assert FailuresOf(one, "a") == 1;
  }

  lemma ForgottenNext(cfg: Config, es: seq<Event>, more: nat)
    requires !Harmless(cfg) && more + 1 < Threshold(cfg) && Forgotten(cfg, es, more)
    ensures Forgotten(cfg, es + [Failure("a", 1 + Ttl(cfg))], more + 1)
  {
    var longer := es + [Failure("a", 1 + Ttl(cfg))];
    assert longer[..|es|] == es;
    ExpectedNext(cfg, es, more);
  }

  lemma {:induction false} DistinguishingRun(cfg: Config, more: nat) returns (es: seq<Event>)
    requires !Harmless(cfg) && more < Threshold(cfg)
    ensures Forgotten(cfg, es, more)
  {
    if more == 0 {
      ForgottenStart(cfg);
      es := [Failure("a", 1), Failure("b", 1 + Ttl(cfg))];
    } else {
      var before := DistinguishingRun(cfg, more - 1);
      ForgottenNext(cfg, before, more - 1);
      es := before + [Failure("a", 1 + Ttl(cfg))];
    }
  }

  /** Pruning is invisible exactly when the throttle is off, the counting window is shorter than
      the time a record is kept, or a single failure locks. */
  lemma PruningIsInvisible(cfg: Config)
    ensures Invisible(cfg) <==> Harmless(cfg)
  {
    if Harmless(cfg) {
      forall es: seq<Event>, key: string, now: int | Timed(es, now)
        ensures Allowed(cfg, Run(cfg, es), key, now) == Allowed(cfg, RunUnpruned(cfg, es), key, now)
      {
        RunsAreBisimilar(cfg, es, now);
        assert Same(cfg, Lookup(Run(cfg, es), key), Lookup(RunUnpruned(cfg, es), key), now);
      }
    } else {
      var last := Threshold(cfg) - 1;
      var es := DistinguishingRun(cfg, last);
      assert !Allowed(cfg, RunUnpruned(cfg, es), "a", 1 + Ttl(cfg));
      assert Allowed(cfg, Run(cfg, es), "a", 1 + Ttl(cfg));
    }
  }

  // ---------------------------------------------------------------- what the throttle does

  /** The failures of a key since its last success. */
  function FailuresOf(es: seq<Event>, key: string): nat {
    if es == [] then 0
    else
      var e := es[|es| - 1];
      if e.key != key then FailuresOf(es[..|es| - 1], key)
      else if e.Success? then 0
      else FailuresOf(es[..|es| - 1], key) + 1
  }

  /** The record of a key counts at most its failures since the last success, and is not locked
      before they reach the threshold. */
  predicate Counts(cfg: Config, r: Record, failures: nat) {
    0 <= r.failed <= failures && (failures < Threshold(cfg) ==> r.lockedUntil == 0)
  }

  lemma StoredRecord(cfg: Config, s: Store, e: Event, key: string)
    ensures var r, t := Lookup(s, key), Lookup(Step(cfg, s, e), key);
            || t == r || t == BLANK
            || (e.Failure? && e.key == key && t == Failed(cfg, r, e.at))
    ensures e.Success? && e.key == key ==> Lookup(Step(cfg, s, e), key) == BLANK
  {
  }

  lemma {:induction false} StoreCounts(cfg: Config, es: seq<Event>, key: string)
    ensures Counts(cfg, Lookup(Run(cfg, es), key), FailuresOf(es, key))
  {
    if es != [] {
      var before := es[..|es| - 1];
      StoreCounts(cfg, before, key);
      StoredRecord(cfg, Run(cfg, before), es[|es| - 1], key);
    }
  }

  /** Fewer failures than the threshold since the last success never lock a key, under any
      configuration, whatever happens to the others and whatever the clock does: forgetting a record
      only lowers its count. */
  lemma FewFailuresNeverLock(cfg: Config, es: seq<Event>, key: string, now: int)
    requires now >= 0 && FailuresOf(es, key) < (if cfg.maxAttempts < 1 then 1 else cfg.maxAttempts)
    ensures Allowed(cfg, Run(cfg, es), key, now)
  {
    StoreCounts(cfg, es, key);
  }

  /** The failures of a key since its last success that lie within one window from the start given. */
  function Within(cfg: Config, es: seq<Event>, key: string, start: int): nat {
    if es == [] then 0
    else
      var e, before := es[|es| - 1], Within(cfg, es[..|es| - 1], key, start);
      var minutes := if cfg.windowMinutes < 1 then 1 else cfg.windowMinutes;
      if e.key != key then before
      else if e.Success? then 0
      else before + if start <= e.at <= start + 60 * minutes then 1 else 0
  }

  /** The count in a record is backed by as many failures in its window, and so is its lock. */
  ghost predicate Backed(cfg: Config, es: seq<Event>, key: string, r: Record) {
    && 0 <= r.failed
    && (r.windowStart != 0 ==> r.failed <= Within(cfg, es, key, r.windowStart))
    && (r.windowStart == 0 ==> r == BLANK)
    && (r.lockedUntil != 0 ==> exists start :: Within(cfg, es, key, start) >= Threshold(cfg))
    && r.windowStart <= r.lastFailed
  }

  lemma FailureIsBacked(cfg: Config, es: seq<Event>, key: string, r: Record, at: int)
    requires Backed(cfg, es, key, r) && 0 < at && r.lastFailed <= at
    ensures Backed(cfg, es + [Failure(key, at)], key, Failed(cfg, r, at))
  {
    var more := es + [Failure(key, at)];
    assert more[..|es|] == es;
    assert forall start :: Within(cfg, more, key, start) >= Within(cfg, es, key, start);
    var t := Failed(cfg, r, at);
    assert t.failed <= Within(cfg, more, key, t.windowStart);
  }

  lemma OtherEventIsBacked(cfg: Config, es: seq<Event>, key: string, r: Record, e: Event)
    requires Backed(cfg, es, key, r) && e.key != key
    ensures Backed(cfg, es + [e], key, r)
  {
    assert (es + [e])[..|es|] == es;
    assert forall start :: Within(cfg, es + [e], key, start) == Within(cfg, es, key, start);
  }

  lemma {:induction false} RecordsAreBacked(cfg: Config, es: seq<Event>, key: string, now: int)
    requires Timed(es, now)
    ensures var r := Lookup(Run(cfg, es), key);
            Backed(cfg, es, key, r) && r.lastFailed <= now
  {
    if es != [] {
      var before, e := es[..|es| - 1], es[|es| - 1];
      assert es == before + [e];
      TimedPrefix(before, e, now);
      RecordsAreBacked(cfg, before, key, e.at);
      StoredRecord(cfg, Run(cfg, before), e, key);
      var r := Lookup(Run(cfg, before), key);
      if e.key != key {
        OtherEventIsBacked(cfg, before, key, r, e);
      } else if e.Failure? {
        FailureIsBacked(cfg, before, key, r, e.at);
      }
      RecordOf(cfg, before, e, key);
    }
  }

  lemma RecordOf(cfg: Config, before: seq<Event>, e: Event, key: string)
    ensures var r := Lookup(Run(cfg, before), key);
            var t := Lookup(Run(cfg, before + [e]), key);
            || t == BLANK
            || (e.key != key && t == r)
            || (e.key == key && e.Failure? && t == if cfg.enabled then Failed(cfg, r, e.at) else r)
  {
    OneMoreEvent(cfg, before, e);
  }

  /** A key is refused only if, since its last success, as many failures as the threshold fell within
      one window: failures further apart never lock it. */
  lemma LocksNeedABurst(cfg: Config, es: seq<Event>, key: string, now: int)
    requires Timed(es, now) && !Allowed(cfg, Run(cfg, es), key, now)
    ensures exists start ::
              Within(cfg, es, key, start) >= if cfg.maxAttempts < 1 then 1 else cfg.maxAttempts
  {
    RecordsAreBacked(cfg, es, key, now);
  }

  /** In the settings' own minutes: pruning is harmless when the throttle is off, one failure locks, or
      the counting window is shorter than an hour or than twice the lock time. */
  lemma HarmlessInMinutes(cfg: Config)
    ensures Harmless(cfg)
       <==> || !cfg.enabled || cfg.maxAttempts <= 1
            || cfg.windowMinutes < 60 || cfg.windowMinutes < 2 * cfg.lockMinutes
  {
  }

  /** Failures of the key inside one window that starts with the first of them. */
  predicate Burst(cfg: Config, es: seq<Event>, key: string, start: int) {
    var minutes := if cfg.windowMinutes < 1 then 1 else cfg.windowMinutes;
    forall e <- es | e.key == key :: e.Failure? && 0 < start <= e.at <= start + 60 * minutes
  }

  /** The time of the key's last failure, or 0. */
  function LastFailure(es: seq<Event>, key: string): int {
    if es == [] then 0
    else
      var e := es[|es| - 1];
      if e.key == key && e.Failure? then e.at else LastFailure(es[..|es| - 1], key)
  }

  /** The service knows nothing of the key: what an unpruned store would still hold is spent. */
  lemma FreshKey(cfg: Config, past: seq<Event>, key: string, now: int)
    requires Harmless(cfg) && cfg.enabled && Timed(past, now)
    requires Lookup(Run(cfg, past), key) == BLANK
    ensures Threshold(cfg) == 1 || Spent(cfg, Lookup(RunUnpruned(cfg, past), key), now)
  {
    RunsAreBisimilar(cfg, past, now);
    assert Same(cfg, Lookup(Run(cfg, past), key), Lookup(RunUnpruned(cfg, past), key), now);
  }

  /** The record of a key after n failures of a burst, the last one at that time. */
  predicate InBurst(cfg: Config, r: Record, n: nat, start: int, last: int) {
    && (Threshold(cfg) > 1 ==>
          r.failed == n && start <= r.windowStart <= start + WindowSeconds(cfg)
          && r.lastFailed == last)
    && (n >= Threshold(cfg) ==> r.lockedUntil == last + LockSeconds(cfg))
  }

  lemma FirstOfBurst(cfg: Config, u: Record, start: int, now: int)
    requires Harmless(cfg) && cfg.enabled && 0 < start <= now <= start + WindowSeconds(cfg)
    requires if Threshold(cfg) == 1 then u.failed >= 0 else Spent(cfg, u, now)
    ensures InBurst(cfg, Failed(cfg, u, now), 1, start, now)
    ensures Failed(cfg, u, now).failed >= 1
  {
  }

  lemma NextOfBurst(cfg: Config, r: Record, n: nat, start: int, last: int, now: int)
    requires 0 < start <= now <= start + WindowSeconds(cfg) && n > 0 && r.failed >= 0
    requires InBurst(cfg, r, n, start, last)
    ensures InBurst(cfg, Failed(cfg, r, now), n + 1, start, now)
  {
  }

  lemma {:induction false} FailedIsNotNegative(cfg: Config, es: seq<Event>, key: string)
    ensures Lookup(RunUnpruned(cfg, es), key).failed >= 0
  {
    if es != [] {
      FailedIsNotNegative(cfg, es[..|es| - 1], key);
    }
  }

  /** What the events of a burst leave in the store that is never pruned. */
  predicate Reached(cfg: Config, past: seq<Event>, es: seq<Event>, key: string, start: int) {
    var r, n := Lookup(RunUnpruned(cfg, past + es), key), FailuresOf(es, key);
    && r.failed >= 0
    && if n == 0 then r == Lookup(RunUnpruned(cfg, past), key)
       else InBurst(cfg, r, n, start, LastFailure(es, key))
  }

  lemma {:induction false} BurstRecord(
    cfg: Config, past: seq<Event>, es: seq<Event>, key: string, start: int, now: int)
    requires cfg.enabled && Harmless(cfg) && Timed(past + es, now)
    requires Lookup(Run(cfg, past), key) == BLANK && Burst(cfg, es, key, start)
    ensures Reached(cfg, past, es, key, start)
  {
    if es == [] {
      assert past + es == past;
      FailedIsNotNegative(cfg, past, key);
    } else {
      var front, e := es[..|es| - 1], es[|es| - 1];
      assert past + es == (past + front) + [e] && e in es && forall x <- front :: x in es;
      TimedPrefix(past + front, e, now);
      BurstRecord(cfg, past, front, key, start, e.at);
      BurstGrows(cfg, past, front, e, key, start);
      assert front + [e] == es;
    }
  }

  lemma BurstGrows(
    cfg: Config, past: seq<Event>, front: seq<Event>, e: Event, key: string, start: int)
    requires cfg.enabled && Harmless(cfg) && Timed(past + front, e.at)
    requires Lookup(Run(cfg, past), key) == BLANK && Burst(cfg, [e], key, start)
    requires Reached(cfg, past, front, key, start)
    ensures Reached(cfg, past, front + [e], key, start)
  {
    var es := front + [e];
    assert es[..|front|] == front && past + es == (past + front) + [e];
    assert e in [e];
    UnprunedRecordOf(cfg, past + front, e, past + es, key);
    FailedIsNotNegative(cfg, past + es, key);
    if e.key == key {
      BurstStep(cfg, past, front, key, start, e.at);
    }
  }

  lemma UnprunedRecordOf(cfg: Config, before: seq<Event>, e: Event, after: seq<Event>, key: string)
    requires cfg.enabled && after == before + [e]
    ensures var r := Lookup(RunUnpruned(cfg, before), key);
            Lookup(RunUnpruned(cfg, after), key)
            == if e.key != key then r else if e.Failure? then Failed(cfg, r, e.at) else BLANK
  {
    assert after[..|before|] == before;
  }

  lemma BurstStep(cfg: Config, past: seq<Event>, front: seq<Event>, key: string, start: int, at: int)
    requires cfg.enabled && Harmless(cfg) && Timed(past + front, at)
    requires Lookup(Run(cfg, past), key) == BLANK && 0 < start <= at <= start + WindowSeconds(cfg)
    requires Reached(cfg, past, front, key, start)
    ensures InBurst(cfg, Failed(cfg, Lookup(RunUnpruned(cfg, past + front), key), at),
                    FailuresOf(front, key) + 1, start, at)
  {
    var r, n := Lookup(RunUnpruned(cfg, past + front), key), FailuresOf(front, key);
    if n == 0 {
      TimedPast(past, front, at);
      FreshKey(cfg, past, key, at);
      FirstOfBurst(cfg, r, start, at);
    } else {
      NextOfBurst(cfg, r, n, start, LastFailure(front, key), at);
    }
  }

  lemma TimedPrefix(before: seq<Event>, e: Event, now: int)
    requires Timed(before + [e], now)
    ensures Timed(before, e.at) && e.at <= now
  {
    var all := before + [e];
    assert all[|before|] == e;
    forall i | 0 <= i < |before| ensures 0 < before[i].at <= e.at {
      assert all[i] == before[i];
    }
    forall i, j | 0 <= i < j < |before| ensures before[i].at <= before[j].at {
      assert all[i] == before[i] && all[j] == before[j];
    }
  }

  lemma TimedPast(past: seq<Event>, es: seq<Event>, now: int)
    requires Timed(past + es, now)
    ensures Timed(past, now)
  {
    var all := past + es;
    forall i | 0 <= i < |past| ensures 0 < past[i].at <= now {
      assert all[i] == past[i];
    }
    forall i, j | 0 <= i < j < |past| ensures past[i].at <= past[j].at {
      assert all[i] == past[i] && all[j] == past[j];
    }
  }

  /** Whatever came before, a key of which the service knows nothing that fails as often as the
      threshold within one window is refused until the lock time after its last failure has passed,
      and allowed again afterwards. */
  ghost predicate BurstsLock(cfg: Config) {
    forall past, es, key, start, now :: BurstLocks(cfg, past, es, key, start, now)
  }

  predicate BurstLocks(
    cfg: Config, past: seq<Event>, es: seq<Event>, key: string, start: int, now: int)
  {
    && Timed(past + es, now) && Lookup(Run(cfg, past), key) == BLANK
    && Burst(cfg, es, key, start)
    && FailuresOf(es, key) >= (if cfg.maxAttempts < 1 then 1 else cfg.maxAttempts) ==>
      (Allowed(cfg, Run(cfg, past + es), key, now)
       <==> now >= LastFailure(es, key) + 60 * (if cfg.lockMinutes < 1 then 1 else cfg.lockMinutes))
  }

  lemma HarmlessBurstLocks(
    cfg: Config, past: seq<Event>, es: seq<Event>, key: string, start: int, now: int)
    requires cfg.enabled && Harmless(cfg)
    ensures BurstLocks(cfg, past, es, key, start, now)
  {
    if Timed(past + es, now) && Lookup(Run(cfg, past), key) == BLANK && Burst(cfg, es, key, start) {
      BurstRecord(cfg, past, es, key, start, now);
      PruningIsInvisible(cfg);
    }
  }

  lemma UnlockedBurst(cfg: Config, es: seq<Event>, key: string, now: int)
    requires Timed(es, now) && Burst(cfg, es, key, 1) && LastFailure(es, key) == now
    requires FailuresOf(es, key) >= (if cfg.maxAttempts < 1 then 1 else cfg.maxAttempts)
    requires Allowed(cfg, Run(cfg, es), key, now)
    ensures !BurstLocks(cfg, [], es, key, 1, now)
  {
    assert [] + es == es && Lookup(Run(cfg, []), key) == BLANK;
  }

  lemma ForgottenBurst(cfg: Config)
    requires !Harmless(cfg)
    ensures !BurstsLock(cfg)
  {
    var last := Threshold(cfg) - 1;
    var es := DistinguishingRun(cfg, last);
    UnlockedBurst(cfg, es, "a", 1 + Ttl(cfg));
  }

  /** Every such burst locks if and only if pruning is harmless: otherwise another key's failure can
      make the service forget the first failures of a burst that is still within its window. */
  lemma EnoughFailuresLock(cfg: Config)
    requires cfg.enabled
    ensures BurstsLock(cfg) <==> Harmless(cfg)
  {
    if Harmless(cfg) {
      forall past, es, key, start, now ensures BurstLocks(cfg, past, es, key, start, now)
      {
        HarmlessBurstLocks(cfg, past, es, key, start, now);
      }
    } else {
      ForgottenBurst(cfg);
    }
  }
}
