/** The CPU guard around the controller: a state file written before systemd is touched, recovery
    after a crash, a restart or a reboot, and configuration updates with rollback. Every I/O call
    may succeed, fail with or without its effect, or take the agent down in the middle. */
module CpuGuard {
  import opened Basics
  import opened CpuController

  /** A CPU quota in percent of one core; 0 is unlimited. */
  type Quota = q: real | q >= 0.0

  /** The quota each service has from its own unit files, before the guard touches it. */
  type Originals = string -> Quota

  datatype GuardState = GuardState(service: string, baseline: Quota, quota: Quota)

  datatype Content = Torn | Whole(state: GuardState)

  datatype AgentConfig = AgentConfig(service: string, cpu: Config)

  /** What outlives the agent process: its configuration, the state file and the temporary file
      beside it, and the quotas set at run time. */
  datatype Durable = Durable(
    config: AgentConfig, tmp: Option<Content>, file: Option<Content>, runtime: map<string, Quota>)

  function InForce(o: Originals, d: Durable, service: string): Quota {
    if service in d.runtime then d.runtime[service] else o(service)
  }

  // ---------------------------------------------------------------- I/O calls

  datatype Call =
    | Read
    | WriteTmp(state: GuardState)
    | Rename
    | SetQuota(service: string, value: Quota)
    | Remove
    | PutConfig(config: AgentConfig)

  datatype Effect = Nothing | Half | Full

  datatype Fault = Success | Failure(effect: Effect) | Crash(effect: Effect)

  function EffectOf(f: Fault): Effect { if f.Success? then Full else f.effect }

  /** Only the write of the temporary file can be left half done; the other calls are atomic. */
  function Perform(d: Durable, call: Call, effect: Effect): Durable {
    if effect.Nothing? then d
    else if effect.Half? then if call.WriteTmp? then d.(tmp := Some(Torn)) else d
    else
      match call
      case Read => d
      case WriteTmp(s) => d.(tmp := Some(Whole(s)))
      case Rename => d.(tmp := None, file := d.tmp)
      case SetQuota(s, v) => d.(runtime := d.runtime[s := v])
      case Remove => d.(file := None)
      case PutConfig(c) => d.(config := c)
  }

  /** A write cut off in the middle leaves a torn temporary file and the state file as it was; a rename
      moves the temporary file over the state file. */
  lemma TornWritesStayBeside(d: Durable, s: GuardState)
    ensures Perform(d, WriteTmp(s), Half) == d.(tmp := Some(Torn))
    ensures Perform(Perform(d, WriteTmp(s), Full), Rename, Full) == d.(tmp := None, file := Some(Whole(s)))
  {
  }

  function Rebooted(d: Durable): Durable { d.(tmp := None, file := None, runtime := map[]) }

  // ---------------------------------------------------------------- safety

  predicate NotLooser(limit: Quota, than: Quota) {
    than == 0.0 || 0.0 < limit <= than
  }

  /** The state file names this service. */
  predicate Guarded(d: Durable, service: string) {
    d.file.Some? && d.file.value.Whole? && d.file.value.state.service == service
  }

  /** What must hold at every instant: the state file is whole and holds the original quota of
      its service; that service is never looser than its original quota; every other service,
      and every service when there is no state file, has exactly its original quota. */
  ghost predicate Safe(o: Originals, d: Durable) {
    && (d.file.Some? ==>
          d.file.value.Whole? && d.file.value.state.baseline == o(d.file.value.state.service))
    && forall s: string :: if Guarded(d, s) then NotLooser(InForce(o, d, s), o(s))
                                            else InForce(o, d, s) == o(s)
  }

  /** The discipline the agent keeps: a state file is installed from a whole temporary file that
      repeats the baseline of the old state file or, without one, the quota in force; a quota is set
      only under a state file and within its baseline; the state file goes last. */
  predicate Lawful(o: Originals, d: Durable, call: Call) {
    match call
    case Read => true
    case WriteTmp(_) => true
    case PutConfig(_) => true
    case Rename => d.tmp.Some? && d.tmp.value.Whole? && BaselineKnown(o, d, d.tmp.value.state)
    case SetQuota(s, v) => Guarded(d, s) && NotLooser(v, d.file.value.state.baseline)
    case Remove =>
      && d.file.Some? && d.file.value.Whole?
      && InForce(o, d, d.file.value.state.service) == d.file.value.state.baseline
  }

  predicate BaselineKnown(o: Originals, d: Durable, s: GuardState) {
    if d.file.None? then s.baseline == InForce(o, d, s.service)
    else
      d.file.value.Whole?
      && d.file.value.state.service == s.service && d.file.value.state.baseline == s.baseline
  }

  /** One lawful call keeps the host safe whatever part of it takes effect. */
  lemma LawfulCallIsSafe(o: Originals, d: Durable, call: Call, effect: Effect)
    requires Safe(o, d) && Lawful(o, d, call)
    ensures Safe(o, Perform(d, call, effect))
  {
    var e := Perform(d, call, effect);
    forall s: string
      ensures if Guarded(e, s) then NotLooser(InForce(o, e, s), o(s)) else InForce(o, e, s) == o(s)
    {
      assert if Guarded(d, s) then NotLooser(InForce(o, d, s), o(s)) else InForce(o, d, s) == o(s);
    }
  }

  ghost predicate LawfulRun(o: Originals, d: Durable, calls: seq<(Call, Effect)>)
    decreases calls
  {
    calls == [] ||
    (Lawful(o, d, calls[0].0)
     && LawfulRun(o, Perform(d, calls[0].0, calls[0].1), calls[1..]))
  }

  function PerformAll(d: Durable, calls: seq<(Call, Effect)>): Durable
    decreases calls
  {
    if calls == [] then d else PerformAll(Perform(d, calls[0].0, calls[0].1), calls[1..])
  }

  /** A run of lawful calls can be cut at any point: what is left on the host is safe. */
  lemma {:induction false} LawfulRunIsSafe(
    o: Originals, d: Durable, calls: seq<(Call, Effect)>, cut: nat)
    requires Safe(o, d) && LawfulRun(o, d, calls) && cut <= |calls|
    ensures Safe(o, PerformAll(d, calls[..cut]))
    decreases cut
  {
    if cut > 0 {
      LawfulCallIsSafe(o, d, calls[0].0, calls[0].1);
      LawfulRunIsSafe(o, Perform(d, calls[0].0, calls[0].1), calls[1..], cut - 1);
      assert calls[..cut][1..] == calls[1..][..cut - 1];
    }
  }

  // ---------------------------------------------------------------- the agent

  /** The quota the guard asks systemd for: the share of the whole machine times the cores, never
      above the original quota; the original quota itself for a state that limits nothing. */
  function Limit(s: GuardState, cores: nat): Quota {
    if s.quota > 0.0 then
      if s.baseline > 0.0 && s.quota * cores as real > s.baseline then s.baseline
      else s.quota * cores as real
    else s.baseline
  }

  lemma LimitNotLooser(s: GuardState, cores: nat)
    requires cores > 0
    ensures NotLooser(Limit(s, cores), s.baseline)
  {
    if s.quota > 0.0 {
      assert s.quota * cores as real >= s.quota * 1.0;
    }
  }

  /** The limit is the greatest quota that is neither above the given share of every core nor looser
      than the original one; without a share it is the original one. */
  lemma LimitIsGreatest(s: GuardState, cores: nat)
    requires cores > 0
    ensures s.quota > 0.0 ==>
              && 0.0 < Limit(s, cores) <= s.quota * cores as real
              && forall q: Quota | 0.0 < q <= s.quota * cores as real && NotLooser(q, s.baseline) ::
                   q <= Limit(s, cores)
    ensures s.quota == 0.0 ==> Limit(s, cores) == s.baseline
  {
    if s.quota > 0.0 {
      assert s.quota * cores as real >= s.quota * 1.0;
    }
  }

  /** A reboot clears every trace of the guard: each service has its original quota. */
  lemma RebootRestores(o: Originals, d: Durable, service: string)
    ensures InForce(o, Rebooted(d), service) == o(service) && Quiet(o, Rebooted(d), service)
    ensures Rebooted(d).file == None && Rebooted(d).tmp == None && Rebooted(d).config == d.config
  {
  }

  datatype Outcome = Finished | Refused | Killed

  function OutcomeOf(f: Fault): Outcome {
    match f case Success => Finished case Failure(_) => Refused case Crash(_) => Killed
  }

  datatype Memory = Memory(state: GuardState, prev: CpuSample)

  datatype Event =
    | Boot
    | Tick
    | Update(next: Config)
    | Kill
    | Reboot
    | Edit(config: AgentConfig)

  const DEFAULT_SERVICE := "hysteria-server"

  /** What a saved quota is resumed as: the original one stays, one outside the band is moved to its
      nearer edge, one inside is kept. */
  predicate Resumed(c: Config, saved: Quota, now: Quota) {
    && (saved == 0.0 ==> now == 0.0)
    && (0.0 < saved < c.minQuota ==> now == c.minQuota)
    && (c.minQuota <= saved <= c.maxQuota ==> now == saved)
    && (saved > c.maxQuota ==> now == c.maxQuota)
  }

  /** The quota in the state file; none counts as the original one. */
  function SavedQuota(d: Durable): Quota {
    if d.file.Some? && d.file.value.Whole? then d.file.value.state.quota else 0.0
  }

  /** There is no state file of another service. */
  predicate FileAllows(d: Durable, service: string) { d.file.Some? ==> Guarded(d, service) }

  /** Nothing of the service is limited and no saved quota would limit it later. */
  predicate Quiet(o: Originals, d: Durable, service: string) {
    && InForce(o, d, service) == o(service)
    && (Guarded(d, service) ==> d.file.value.state.quota == 0.0)
  }

  /** A reading of the processor counters that parseCPUSample accepts. */
  predicate Usable(sample: CpuSample) { sample.total > 0 && sample.cores > 0 }

  /** What one turn of the sampling loop makes of its read: the usage against the previous sample
      where both are good and comparable. */
  predicate Shows(reading: Reading, f: Fault, prev: CpuSample, sample: CpuSample) {
    if f.Success? && Usable(sample) && Comparable(prev, sample)
    then reading.Usage? && reading.percent == CpuPercent(prev, sample).value
    else reading == Unusable
  }

  datatype Load = Busy | Calm

  predicate Under(load: Load, cfg: Config, r: Reading) {
    if load.Busy? then Hot(cfg, r) else Cool(cfg, r)
  }

  /** Any reading between these two samples lies beyond the load's threshold. */
  predicate Measures(load: Load, cfg: Config, prev: CpuSample, sample: CpuSample) {
    && Usable(sample) && Comparable(prev, sample)
    && Under(load, cfg, Usage(CpuPercent(prev, sample).value, true))
  }

  lemma FedOneMore(cfg: Config, c: Control, readings: seq<Reading>, r: Reading)
    ensures FeedAll(cfg, c, readings + [r]) == Feed(cfg, FeedAll(cfg, c, readings), r)
  {
    assert (readings + [r])[..|readings|] == readings;
  }

  class Node {
    const original: Originals
    const faults: nat -> Fault
    const stats: nat -> CpuSample
    var calls: nat
    var disk: Durable
    ghost var history: seq<Durable>
    var up: bool
    var cfg: AgentConfig
    var guard: Option<Memory>
    var controller: Controller?

    ghost predicate Recorded()
      reads `disk, `history
    {
      && |history| > 0 && history[|history| - 1] == disk
      && forall k | 0 <= k < |history| :: Safe(original, history[k])
    }

    /** A running guard remembers the state file's service and baseline and the quota in use. */
    ghost predicate Valid()
      reads this, controller
    {
      && Recorded()
      && (guard.Some? <==> controller != null)
      && (guard.Some? ==>
            var s := guard.value.state;
            && up && s.service == cfg.service
            && Guarded(disk, s.service) && disk.file.value.state.baseline == s.baseline
            && controller.cfg == WithDefaults(cfg.cpu)
            && Accepted(controller.cfg) && controller.cfg.enabled
            && controller.quota == s.quota && InBand(controller.cfg, s.quota)
            && controller.high < 3 && controller.low < 12)
    }

    /** Between two events: an agent whose configuration says the guard is off leaves its
        service at the original quota. */
    ghost predicate Rested()
      reads `disk, `up, `cfg
    {
      up && !WithDefaults(cfg.cpu).enabled ==> Quiet(original, disk, cfg.service)
    }

    constructor (original: Originals, faults: nat -> Fault, stats: nat -> CpuSample,
                 config: AgentConfig)
      ensures Valid() && Rested() && !up
      ensures disk == Durable(config, None, None, map[]) && history == [disk]
      ensures this.original == original && this.faults == faults && this.stats == stats && calls == 0
    {
      this.original, this.faults, this.stats := original, faults, stats;
      var pristine := Durable(config, None, None, map[]);
      calls, up, cfg, guard, controller := 0, false, config, None, null;
      disk, history := pristine, [pristine];
    }

    /** So many calls from this one on succeed. */
    predicate Obeyed(from: nat, n: nat) { forall k | from <= k < from + n :: faults(k) == Success }

    /** From this call on every call succeeds and every two samples, beginning with the given one, show
        the load. */
    ghost predicate Steady(load: Load, cfg: Config, prev: CpuSample, from: nat) {
      && (forall k: nat | from <= k :: faults(k) == Success)
      && (forall k: nat | from < k :: Measures(load, cfg, prev, stats(k)))
      && (forall j: nat, k: nat | from < j < k :: Measures(load, cfg, stats(j), stats(k)))
    }

    /** From this call on every call succeeds and reads usable counters. */
    ghost predicate AllWork(from: nat) {
      forall k: nat | from <= k :: faults(k) == Success && Usable(stats(k))
    }

    /** From this call on every call succeeds and any two samples show the load. */
    ghost predicate AlwaysUnder(load: Load, cfg: Config, from: nat) {
      && AllWork(from)
      && (forall j: nat, k: nat | from < j < k :: Measures(load, cfg, stats(j), stats(k)))
    }

    lemma SteadyAfterStart(load: Load, cfg: Config, from: nat, now: nat)
      requires AlwaysUnder(load, cfg, from) && from + 2 <= now
      ensures Steady(load, cfg, stats(now - 1), now)
    {
    }

    /** The next turn on a steady host shows the load and succeeds, and the host stays steady. */
    lemma SteadyTurn(load: Load, cfg: Config, prev: CpuSample, from: nat, reading: Reading, next: nat)
      requires Steady(load, cfg, prev, from) && from < next
      requires Shows(reading, faults(from), prev, stats(from + 1))
      ensures Obeyed(from, 4) && faults(from).Success? && Usable(stats(from + 1))
      ensures reading.Usage? && Under(load, cfg, reading)
      ensures Steady(load, cfg, stats(from + 1), next)
    {
      assert Measures(load, cfg, prev, stats(from + 1));
    }

    /** The quota in force is the one the guard last asked for, and the state file leads back to it. */
    predicate Settled()
      reads `disk, `guard, `cfg
    {
      guard.Some? ==>
        && InForce(original, disk, guard.value.state.service)
           == Limit(guard.value.state, guard.value.prev.cores)
        && Resumed(WithDefaults(cfg.cpu), SavedQuota(disk), guard.value.state.quota)
    }

    method Invoke(call: Call) returns (f: Fault)
      requires Recorded() && Lawful(original, disk, call)
      modifies `disk, `calls, `history, `up, `guard, `controller
      ensures Recorded() && f == faults(old(calls)) && calls == old(calls) + 1
      ensures disk == Perform(old(disk), call, EffectOf(f))
      ensures history == old(history) + [disk]
      ensures if f.Crash? then !up && guard == None && controller == null
              else up == old(up) && guard == old(guard) && controller == old(controller)
    {
      LawfulCallIsSafe(original, disk, call, EffectOf(faults(calls)));
      f := faults(calls);
      calls := calls + 1;
      disk := Perform(disk, call, EffectOf(f));
      history := history + [disk];
      if f.Crash? {
        up, guard, controller := false, None, null;
      }
    }

    /** Writes the temporary file and renames it over the state file. */
    method SaveState(s: GuardState) returns (r: Outcome)
      requires Recorded() && up && BaselineKnown(original, disk, s)
      modifies `disk, `calls, `history, `up, `guard, `controller
      ensures Recorded() && disk.config == old(disk).config && disk.runtime == old(disk).runtime
      ensures old(history) <= history
      ensures disk.file == Some(Whole(s)) || (r != Finished && disk.file == old(disk).file)
      ensures calls >= old(calls) && (Obeyed(old(calls), 2) ==> r == Finished && calls == old(calls) + 2)
      ensures if r == Killed then !up && guard == None && controller == null
              else up && guard == old(guard) && controller == old(controller)
    {
      var f := Invoke(WriteTmp(s));
      if f != Success {
        return OutcomeOf(f);
      }
      f := Invoke(Rename);
      return OutcomeOf(f);
    }

    method ApplyQuota(s: GuardState, cores: nat) returns (r: Outcome)
      requires Recorded() && up && cores > 0
      requires Guarded(disk, s.service) && disk.file.value.state.baseline == s.baseline
      modifies `disk, `calls, `history, `up, `guard, `controller
      ensures Recorded() && old(history) <= history
      ensures disk == old(disk).(runtime := old(disk).runtime[s.service := Limit(s, cores)])
           || (r != Finished && disk == old(disk))
      ensures r == OutcomeOf(faults(old(calls))) && calls == old(calls) + 1
      ensures if r == Killed then !up && guard == None && controller == null
              else up && guard == old(guard) && controller == old(controller)
    {
      LimitNotLooser(s, cores);
      var f := Invoke(SetQuota(s.service, Limit(s, cores)));
      return OutcomeOf(f);
    }

    /** Without a state file: reads the quota in force and saves it as the baseline. */
    method Establish() returns (r: Outcome, state: GuardState)
      requires Recorded() && up && disk.file == None
      modifies `disk, `calls, `history, `up, `guard, `controller
      ensures Recorded() && old(history) <= history
      ensures disk.config == old(disk).config && disk.runtime == old(disk).runtime
      ensures state == GuardState(cfg.service, InForce(original, disk, cfg.service), 0.0)
      ensures disk.file == Some(Whole(state)) || (r != Finished && disk.file == None)
      ensures calls >= old(calls) && (Obeyed(old(calls), 3) ==> r == Finished && calls == old(calls) + 3)
      ensures if r == Killed then !up && guard == None && controller == null
              else up && guard == old(guard) && controller == old(controller)
    {
      state := GuardState(cfg.service, InForce(original, disk, cfg.service), 0.0);
      var f := Invoke(Read);
      if f != Success {
        return OutcomeOf(f), state;
      }
      r := SaveState(state);
    }

    /** Puts the service back to its original quota and forgets the state. */
    method Undo(state: GuardState) returns (r: Outcome)
      requires Recorded() && up && state.quota == 0.0
      requires Guarded(disk, state.service) && disk.file.value.state.baseline == state.baseline
      modifies `disk, `calls, `history, `up, `guard, `controller
      ensures Recorded() && old(history) <= history && disk.config == old(disk).config
      ensures r == Finished ==> disk.file == None
      ensures disk.file == old(disk).file || disk.file == None
      ensures disk.runtime == old(disk).runtime
           || disk.runtime == old(disk).runtime[state.service := state.baseline]
      ensures if r == Killed then !up && guard == None && controller == null
              else up && guard == old(guard) && controller == old(controller)
    {
      r := ApplyQuota(state, 1);
      if r != Finished {
        return;
      }
      var f := Invoke(Remove);
      return OutcomeOf(f);
    }

    /** Brings the saved quota into the configured range, applies it and starts sampling. */
    method Resume(c: Config, saved: GuardState) returns (r: Outcome)
      requires Recorded() && up && guard == None && controller == null && Accepted(c)
      requires Guarded(disk, saved.service) && disk.file.value.state.baseline == saved.baseline
      modifies this
      ensures Recorded() && old(history) <= history && cfg == old(cfg)
      ensures up <==> r != Killed
      ensures r != Finished ==> guard == None && controller == null
      ensures r == Finished ==>
                && guard.Some? && fresh(controller)
                && guard.value.state.service == saved.service
                && guard.value.state.baseline == saved.baseline
                && controller.cfg == c && InBand(c, guard.value.state.quota)
                && Resumed(c, saved.quota, guard.value.state.quota)
                && controller.View() == Control(0, 0, guard.value.state.quota)
                && InForce(original, disk, saved.service)
                   == Limit(guard.value.state, guard.value.prev.cores)
      ensures r == Finished ==> calls == old(calls) + 2 && guard.value.prev == stats(old(calls) + 1)
      ensures r == Finished ==> guard.value.prev.total > 0 && guard.value.prev.cores > 0
      ensures Obeyed(old(calls), 2) && Usable(stats(old(calls) + 1)) ==> r == Finished
      ensures exists v :: disk == old(disk).(runtime := v)
      ensures saved.quota == 0.0 ==>
                disk.runtime == old(disk).runtime
                || disk.runtime == old(disk).runtime[saved.service := saved.baseline]
      ensures forall s: string | s != saved.service ::
                InForce(original, disk, s) == InForce(original, old(disk), s)
    {
      var state := saved;
      assert disk == disk.(runtime := disk.runtime);
      var f := Invoke(Read);
      if f != Success {
        return OutcomeOf(f);
      }
      var prev := stats(calls);
      if !Usable(prev) {
        return Refused;
      }
      if state.quota > c.maxQuota {
        state := state.(quota := c.maxQuota);
      }
      if state.quota > 0.0 && state.quota < c.minQuota {
        state := state.(quota := c.minQuota);
      }
      r := ApplyQuota(state, prev.cores);
      if r != Finished {
        return;
      }
      controller := new Controller(c, state.quota);
      guard := Some(Memory(state, prev));
    }

    /** Resumes or sets up protection, or undoes it when it is switched off. */
    method Start() returns (r: Outcome)
      requires Valid() && up && guard == None
      modifies this
      ensures Valid() && old(history) <= history
      ensures cfg == old(cfg) && disk.config == old(disk).config && (up <==> r != Killed)
      ensures r != Finished ==> guard == None
      ensures r == Finished && WithDefaults(cfg.cpu).enabled ==>
                && guard.Some? && Settled() && controller.View() == Control(0, 0, controller.quota)
                && calls >= old(calls) + 2 && guard.value.prev == stats(calls - 1)
                && Resumed(WithDefaults(cfg.cpu), SavedQuota(old(disk)), guard.value.state.quota)
      ensures (&& Accepted(WithDefaults(cfg.cpu)) && WithDefaults(cfg.cpu).enabled
               && FileAllows(old(disk), cfg.service) && AllWork(old(calls))) ==> r == Finished
      ensures faults(old(calls)).Failure? && Accepted(WithDefaults(cfg.cpu)) ==>
                r == Refused && disk == old(disk) && calls == old(calls) + 1
      ensures (&& Accepted(WithDefaults(cfg.cpu)) && WithDefaults(cfg.cpu).enabled
               && old(disk).file == None && Obeyed(old(calls), 6) && Usable(stats(old(calls) + 5))) ==>
                r == Finished && calls == old(calls) + 6
      ensures r == Finished && !WithDefaults(cfg.cpu).enabled ==>
                disk.file == None && InForce(original, disk, cfg.service) == original(cfg.service)
      ensures old(Quiet(original, disk, cfg.service)) ==> Quiet(original, disk, cfg.service)
      ensures controller == null || fresh(controller)
    {
      var c, accepted := Normalize(cfg.cpu);
      if !accepted {
        return Refused;
      }
      var f := Invoke(Read);
      if f != Success {
        return OutcomeOf(f);
      }
      var state := GuardState(cfg.service, 0.0, 0.0);
      var saved := disk.file.Some?;
      if saved {
        state := disk.file.value.state;
        if state.service != cfg.service {
          return Refused;
        }
      }
      if !c.enabled {
        r := TurnOff(saved, state);
        return;
      }
      r := TurnOn(c, saved, state);
    }

    /** Undoes what a state file says; without one there is nothing to undo. */
    method TurnOff(saved: bool, found: GuardState) returns (r: Outcome)
      requires Recorded() && up && guard == None && controller == null
      requires if saved then disk.file == Some(Whole(found)) && found.service == cfg.service
               else disk.file == None
      modifies `disk, `calls, `history, `up, `guard, `controller
      ensures Valid() && old(history) <= history && guard == None && controller == null
      ensures disk.config == old(disk).config && (up <==> r != Killed)
      ensures r == Finished ==>
                disk.file == None && InForce(original, disk, cfg.service) == original(cfg.service)
      ensures old(Quiet(original, disk, cfg.service)) ==> Quiet(original, disk, cfg.service)
    {
      if saved {
        r := Undo(found.(quota := 0.0));
        return;
      }
      return Finished;
    }

    /** Resumes what the state file says, or sets protection up without one. */
    method TurnOn(c: Config, saved: bool, found: GuardState) returns (r: Outcome)
      requires Recorded() && up && guard == None && controller == null
      requires Accepted(c) && c.enabled && c == WithDefaults(cfg.cpu)
      requires if saved then disk.file == Some(Whole(found)) && found.service == cfg.service
               else disk.file == None
      modifies this
      ensures Valid() && old(history) <= history
      ensures cfg == old(cfg) && disk.config == old(disk).config && (up <==> r != Killed)
      ensures r != Finished ==> guard == None
      ensures r == Finished ==>
                && guard.Some? && Settled() && controller.View() == Control(0, 0, controller.quota)
                && calls >= old(calls) + 2 && guard.value.prev == stats(calls - 1)
                && Resumed(c, SavedQuota(old(disk)), guard.value.state.quota)
      ensures AllWork(old(calls)) ==> r == Finished
      ensures !saved && Obeyed(old(calls), 5) && Usable(stats(old(calls) + 4)) ==>
                r == Finished && calls == old(calls) + 5
      ensures old(Quiet(original, disk, cfg.service)) ==> Quiet(original, disk, cfg.service)
      ensures controller == null || fresh(controller)
    {
      var state := found;
      if !saved {
        r, state := Establish();
        if r != Finished {
          return;
        }
      }
      r := Resume(c, state);
    }

    /** Saves and then applies a new quota; if either fails the old state is saved back. */
    method Adjust(quota: Quota) returns (r: Outcome)
      requires Valid() && guard.Some? && guard.value.prev.cores > 0
      modifies `disk, `calls, `history, `up, `guard, `controller
      ensures Recorded() && old(history) <= history && disk.config == old(disk).config
      ensures var state := old(guard).value.state;
              && Guarded(disk, state.service) && disk.file.value.state.baseline == state.baseline
              && (r == Finished ==>
                    && disk.file == Some(Whole(state.(quota := quota)))
                    && InForce(original, disk, state.service)
                       == Limit(state.(quota := quota), old(guard).value.prev.cores))
      ensures calls >= old(calls) && (Obeyed(old(calls), 3) ==> r == Finished)
      ensures if r == Killed then !up && guard == None && controller == null
              else up && guard == old(guard) && controller == old(controller)
    {
      var state := guard.value.state;
      var candidate := state.(quota := quota);
      r := SaveState(candidate);
      if r == Finished {
        r := ApplyQuota(candidate, guard.value.prev.cores);
      }
      if r == Refused {
        var restored := SaveState(state);
        if restored == Killed {
          r := Killed;
        }
      }
    }

    /** Reads the counters once; the new sample replaces the previous one even when the two cannot be
        compared. */
    method Measure() returns (usage: Option<real>)
      requires Valid() && guard.Some?
      modifies `disk, `calls, `history, `up, `guard, `controller
      ensures Valid() && old(history) <= history && disk == old(disk) && calls == old(calls) + 1
      ensures up <==> !faults(old(calls)).Crash?
      ensures up ==>
                && guard.Some? && controller == old(controller)
                && guard.value.state == old(guard).value.state
                && guard.value.prev == (if faults(old(calls)).Success? && Usable(stats(old(calls) + 1))
                                        then stats(old(calls) + 1) else old(guard).value.prev)
                && (guard.value.prev != old(guard).value.prev ==>
                      guard.value.prev.total > 0 && guard.value.prev.cores > 0)
      ensures usage == if faults(old(calls)).Success? && Usable(stats(old(calls) + 1))
                       then CpuPercent(old(guard).value.prev, stats(old(calls) + 1)) else None
    {
      usage := None;
      var f := Invoke(Read);
      if f != Success {
        return;
      }
      var sample := stats(calls);
      if !Usable(sample) {
        return;
      }
      usage := CpuPercent(guard.value.prev, sample);
      guard := Some(Memory(guard.value.state, sample));
    }

    /** One turn of the sampling loop. A change is saved first and applied second; after a failed
        change the controller keeps its quota and asks again later. The reading says what was
        measured, and whether the change it asked for, if any, was made. */
    method Sample() returns (reading: Reading)
      requires Valid() && guard.Some?
      modifies this, controller
      ensures Valid() && old(history) <= history && cfg == old(cfg) && calls > old(calls)
      ensures disk.config == old(disk).config
      ensures controller == null || controller == old(controller)
      ensures up ==>
                && !faults(old(calls)).Crash? && guard.Some?
                && Shows(reading, faults(old(calls)), old(guard).value.prev, stats(old(calls) + 1))
                && guard.value.prev == (if faults(old(calls)).Success? && Usable(stats(old(calls) + 1))
                                        then stats(old(calls) + 1) else old(guard).value.prev)
                && guard.value.state == old(guard).value.state.(quota := controller.quota)
                && controller.View() == Feed(controller.cfg, old(controller.View()), reading)
      ensures up && controller.quota != old(controller.quota) ==>
                disk.file == Some(Whole(guard.value.state)) && Settled()
      ensures up && reading.Usage? && reading.applied && old(Settled()) ==> Settled()
      ensures Obeyed(old(calls), 4) ==> up && (reading.Usage? ==> reading.applied)
      ensures up && (reading.Usage? ==> reading.applied) && controller.quota == old(controller.quota) ==>
                disk == old(disk)
    {
      var usage := Measure();
      if !up {
        return Unusable;
      }
      if usage.None? {
        controller.Forget();
        return Unusable;
      }
      AskingIsChanging(controller.cfg, controller.View(), usage.value);
      var d := controller.Next(usage.value);
      reading := Usage(usage.value, true);
      if !d.changed {
        return;
      }
      var r := Adjust(d.quota);
      if r == Finished {
        guard := Some(guard.value.(state := guard.value.state.(quota := d.quota)));
        controller.quota := d.quota;
      } else {
        reading := Usage(usage.value, false);
      }
    }

    // -------------------------------------------------------------- the running guard under load

    /** The sampling loop: the controller has been fed exactly the readings taken, and as long as every
        change was made the quota in force is the one it wants. On a host with steady load whose calls
        succeed, every reading shows the load and every change is made. */
    method Watch(turns: nat, load: Load) returns (readings: seq<Reading>)
      requires Valid() && guard.Some?
      modifies this, controller
      ensures Valid() && old(history) <= history && cfg == old(cfg)
      ensures controller == null || controller == old(controller)
      ensures up ==>
                && guard.Some? && |readings| == turns
                && controller.View() == FeedAll(controller.cfg, old(controller.View()), readings)
      ensures up && old(Settled()) && (forall r <- readings :: r.Usage? && r.applied) ==> Settled()
      ensures Steady(load, old(controller).cfg, old(guard).value.prev, old(calls)) ==>
                up && forall r <- readings :: Under(load, controller.cfg, r) && r.applied
    {
      readings := [];
      ghost var first := controller.View();
      ghost var steady := Steady(load, controller.cfg, guard.value.prev, calls);
      while |readings| < turns
        invariant Valid() && guard.Some? && controller == old(controller) && cfg == old(cfg)
        invariant old(history) <= history && |readings| <= turns
        invariant controller.View() == FeedAll(controller.cfg, first, readings)
        invariant old(Settled()) && (forall r <- readings :: r.Usage? && r.applied) ==> Settled()
        invariant steady ==> Steady(load, controller.cfg, guard.value.prev, calls)
        invariant steady ==> forall r <- readings :: Under(load, controller.cfg, r) && r.applied
        decreases turns - |readings|
      {
        ghost var prev, from := guard.value.prev, calls;
        var reading := Sample();
        if !up {
          return;
        }
        if steady {
          SteadyTurn(load, controller.cfg, prev, from, reading, calls);
        }
        FedOneMore(controller.cfg, first, readings, reading);
        readings := readings + [reading];
      }
    }

    /** On a host with sustained load whose calls succeed, the running guard brings the quota in force
        down to the limit for the floor, and keeps it there. */
    method HoldFloor(turns: nat)
      requires Valid() && guard.Some? && Settled()
      requires Steady(Busy, controller.cfg, guard.value.prev, calls)
      requires turns >= 3 * RoundsToFloor(controller.cfg)
      modifies this, controller
      ensures Valid() && up && guard.Some? && controller == old(controller)
      ensures guard.value.state == old(guard).value.state.(quota := controller.cfg.minQuota)
      ensures InForce(original, disk, cfg.service)
           == Limit(guard.value.state, guard.value.prev.cores)
    {
      ghost var before := controller.View();
      var readings := Watch(turns, Busy);
      SustainedLoadReachesFloor(controller.cfg, before, readings);
    }

    /** On a host that stays calm and whose calls succeed, the running guard gives the service its
        original quota back after RoundsToOriginal rounds of twelve samples. */
    method GiveBack(turns: nat)
      requires Valid() && guard.Some? && Settled()
      requires Steady(Calm, controller.cfg, guard.value.prev, calls)
      requires controller.low == 0
      requires controller.quota > 0.0 ==>
                 turns >= 12 * RoundsToOriginal(controller.cfg, controller.quota)
      modifies this, controller
      ensures Valid() && up && guard.Some? && controller == old(controller)
      ensures guard.value.state.quota == 0.0
      ensures InForce(original, disk, cfg.service) == original(cfg.service)
    {
      ghost var before := controller.View();
      var readings := Watch(turns, Calm);
      if before.quota > 0.0 {
        SustainedCalmRestores(controller.cfg, before, readings);
      } else {
        CalmKeepsOriginal(controller.cfg, before, readings);
      }
    }

    // -------------------------------------------------------------- configuration updates

    /** Puts the previous configuration back after a refused update and tries to resume it. On disk the
        refused one stays exactly when the write has no effect. */
    method RollBack(previous: AgentConfig, data: AgentConfig) returns (r: Outcome)
      requires Valid() && up && guard == None && previous.service == cfg.service
      requires !WithDefaults(previous.cpu).enabled ==> Quiet(original, disk, cfg.service)
      modifies this
      ensures Valid() && Rested() && old(history) <= history && (up <==> r != Killed)
      ensures up ==> cfg == previous
      ensures disk.config == if EffectOf(faults(old(calls))).Full? then data else old(disk).config
      ensures r == Finished ==> (guard.Some? <==> WithDefaults(previous.cpu).enabled)
      ensures r != Finished ==> guard == None
      ensures (&& !faults(old(calls)).Crash? && faults(old(calls) + 1).Failure?
               && Accepted(WithDefaults(previous.cpu))) ==> r == Refused && calls == old(calls) + 2
      ensures controller == null || fresh(controller)
    {
      cfg := previous;
      var f := Invoke(PutConfig(data));
      if f.Crash? {
        return Killed;
      }
      r := Start();
    }

    /** Starts over with the new configuration; what was on disk before is written back if it fails. */
    method Replace(n: Config, data: AgentConfig) returns (r: Outcome)
      requires Valid() && Rested() && up && WithDefaults(n) == n
      modifies this
      ensures Valid() && Rested() && old(history) <= history && (up <==> r != Killed)
      ensures r == Finished ==>
                && cfg == old(cfg).(cpu := n) && disk.config == old(disk).config
                && (guard.Some? <==> n.enabled)
      ensures r == Refused ==>
                && cfg == old(cfg) && (guard.Some? ==> WithDefaults(cfg.cpu).enabled)
                && (disk.config == old(disk).config || disk.config == data)
      ensures CannotRestart(n, old(cfg).cpu, old(calls)) ==>
                && r == Refused && guard == None
                && disk.config == if EffectOf(faults(old(calls) + 1)).Full? then data
                                  else old(disk).config
      ensures controller == null || fresh(controller)
    {
      guard, controller := None, null;
      var previous := cfg;
      cfg := cfg.(cpu := n);
      r := Start();
      if r == Refused {
        var resumed := RollBack(previous, data);
        if resumed == Killed {
          r := Killed;
        }
      }
    }

    /** Writes the new configuration, stops the running guard and starts over. After a refusal the old
        configuration is held; the guard runs as before if the write failed, and otherwise only if the
        old configuration could be resumed. */
    method Install(n: Config) returns (r: Outcome)
      requires Valid() && Rested() && up && WithDefaults(n) == n
      modifies this
      ensures Valid() && Rested() && old(history) <= history && (up <==> r != Killed)
      ensures r == Finished ==>
                && cfg == old(cfg).(cpu := n) && disk.config == old(disk).config.(cpu := n)
                && (guard.Some? <==> n.enabled)
      ensures r == Refused ==>
                && cfg == old(cfg)
                && (disk.config == old(disk).config || disk.config == old(disk).config.(cpu := n))
      ensures faults(old(calls)).Failure? ==> r == Refused && guard == old(guard)
      ensures faults(old(calls)) == Success && CannotRestart(n, old(cfg).cpu, old(calls) + 1) ==>
                && r == Refused && guard == None
                && disk.config == if EffectOf(faults(old(calls) + 2)).Full? then old(disk).config
                                  else old(disk).config.(cpu := n)
      ensures controller == null || controller == old(controller) || fresh(controller)
    {
      var data := disk.config;
      var f := Invoke(PutConfig(data.(cpu := n)));
      if f != Success {
        return OutcomeOf(f);
      }
      r := Replace(n, data);
    }

    /** From this call on: starting the new configuration fails at its first read, and after the
        rollback write, whatever becomes of it, so does resuming the old one. */
    predicate CannotRestart(next: Config, previous: Config, from: nat) {
      && Accepted(WithDefaults(next)) && Accepted(WithDefaults(previous))
      && faults(from).Failure? && !faults(from + 1).Crash? && faults(from + 2).Failure?
    }

    /** Takes over a configuration from the panel; on failure the previous one is restored. A finished
        update says which configuration the agent holds; whether its guard runs depends on whether
        anything changed: an equal configuration is taken as in effect without looking. */
    method UpdateConfig(next: Config) returns (r: Outcome)
      requires Valid() && Rested() && up
      modifies this
      ensures Valid() && Rested() && old(history) <= history && (up <==> r != Killed)
      ensures r == Finished ==> WithDefaults(cfg.cpu) == WithDefaults(next)
      ensures r == Finished && next.enabled ==>
                (guard.Some? <==>
                   WithDefaults(old(cfg).cpu) != WithDefaults(next) || old(guard).Some?)
      ensures r == Finished && !next.enabled ==>
                guard == None && InForce(original, disk, cfg.service) == original(cfg.service)
      ensures Accepted(WithDefaults(next)) && WithDefaults(old(cfg).cpu) == WithDefaults(next) ==>
                r == Finished && cfg == old(cfg) && guard == old(guard) && disk == old(disk)
      ensures r == Refused ==> cfg == old(cfg)
      ensures Obeyed(old(calls), 2) && CannotRestart(next, old(cfg).cpu, old(calls) + 2)
              && WithDefaults(old(cfg).cpu) != WithDefaults(next) ==>
                && r == Refused && guard == None
                && disk.config == if EffectOf(faults(old(calls) + 3)).Full? then old(disk).config
                                  else old(disk).config.(cpu := WithDefaults(next))
      ensures controller == null || controller == old(controller) || fresh(controller)
    {
      var n, accepted := Normalize(next);
      if !accepted {
        return Refused;
      }
      var current, sound := Normalize(cfg.cpu);
      if !sound {
        return Refused;
      }
      if current == n {
        return Finished;
      }
      var f := Invoke(Read);
      if f != Success {
        return OutcomeOf(f);
      }
      r := Install(n);
    }

    /** How the guard gets lost: after a refused update that cannot resume the old configuration, an
        update back to it finishes at once, and the agent holds an enabled configuration and runs no
        guard. If the rollback write had no effect, the refused configuration is still on disk. */
    method LoseGuard(next: Config) returns (refused: Outcome, back: Outcome)
      requires Valid() && Rested() && up && guard.Some?
      requires WithDefaults(next) != WithDefaults(cfg.cpu)
      requires Obeyed(calls, 2) && CannotRestart(next, cfg.cpu, calls + 2)
      modifies this
      ensures Valid() && Rested() && up && cfg == old(cfg)
      ensures refused == Refused && back == Finished
      ensures WithDefaults(cfg.cpu).enabled && guard == None
      ensures disk.config == if EffectOf(faults(old(calls) + 3)).Full? then old(disk).config
                             else old(disk).config.(cpu := WithDefaults(next))
    {
      refused := UpdateConfig(next);
      back := UpdateConfig(cfg.cpu);
    }

    method BootAgent() returns (r: Outcome)
      requires Valid() && !up
      modifies this
      ensures Valid() && Rested() && old(history) <= history && (up <==> r == Finished)
      ensures disk.config == old(disk).config && cfg.cpu == disk.config.cpu
      ensures cfg.service == if disk.config.service == "" then "hysteria-server"
                             else disk.config.service
      ensures r == Finished ==> (guard.Some? <==> WithDefaults(cfg.cpu).enabled) && Settled()
      ensures r == Finished && guard.Some? ==>
                && controller.View() == Control(0, 0, controller.quota)
                && calls >= old(calls) + 2 && guard.value.prev == stats(calls - 1)
                && Resumed(WithDefaults(cfg.cpu), SavedQuota(old(disk)), guard.value.state.quota)
      ensures (&& Accepted(WithDefaults(cfg.cpu)) && WithDefaults(cfg.cpu).enabled
               && FileAllows(old(disk), cfg.service) && AllWork(old(calls))) ==> r == Finished
      ensures Accepted(WithDefaults(cfg.cpu)) && WithDefaults(cfg.cpu).enabled
              && old(disk).file == None && Obeyed(old(calls), 6) && Usable(stats(old(calls) + 5)) ==>
                r == Finished && calls == old(calls) + 6
      ensures controller == null || fresh(controller)
    {
      up, cfg := true, disk.config;
      if cfg.service == "" {
        cfg := cfg.(service := DEFAULT_SERVICE);
      }
      r := Start();
      up := r == Finished;
    }

    /** What the next boot will run is what runs now. */
    predicate SameOnDisk()
      reads `disk, `cfg
    {
      && disk.config.cpu == cfg.cpu
      && cfg.service == if disk.config.service == "" then DEFAULT_SERVICE else disk.config.service
    }

    /** The agent dies and is started again on the same machine, with the same configuration and all
        calls working: the guard goes on with the quota it had, and what is in force is the same. */
    method DieAndBoot() returns (r: Outcome)
      requires Valid() && guard.Some? && Settled() && SameOnDisk()
      requires AllWork(calls) && forall k: nat | calls <= k :: stats(k).cores == guard.value.prev.cores
      modifies this
      ensures Valid() && r == Finished && up && cfg == old(cfg)
      ensures guard.Some? && guard.value.state == old(guard).value.state
      ensures controller.View() == Control(0, 0, guard.value.state.quota)
      ensures InForce(original, disk, cfg.service) == old(InForce(original, disk, cfg.service))
      ensures Settled()
    {
      up, guard, controller := false, None, null;
      r := BootAgent();
    }

    /** From any boot with the guard on, whatever an earlier agent left in its state file: on a host
        with sustained load whose calls succeed the quota in force ends at the limit for the floor. */
    method BootAndHoldFloor(turns: nat) returns (r: Outcome)
      requires Valid() && !up
      requires var c, service := WithDefaults(disk.config.cpu), disk.config.service;
               && Accepted(c) && c.enabled && AlwaysUnder(Busy, c, calls)
               && FileAllows(disk, if service == "" then DEFAULT_SERVICE else service)
               && turns >= 3 * RoundsToFloor(c)
      modifies this
      ensures Valid() && r == Finished && up && guard.Some?
      ensures guard.value.state.quota == WithDefaults(old(disk).config.cpu).minQuota
      ensures InForce(original, disk, cfg.service) == Limit(guard.value.state, guard.value.prev.cores)
    {
      ghost var from := calls;
      r := BootAgent();
      SteadyAfterStart(Busy, controller.cfg, from, calls);
      HoldFloor(turns);
    }

    /** From any such boot on a calm host whose calls succeed, the service gets its original quota
        back within the rounds needed from the floor. */
    method BootAndGiveBack(turns: nat) returns (r: Outcome)
      requires Valid() && !up
      requires var c, service := WithDefaults(disk.config.cpu), disk.config.service;
               && Accepted(c) && c.enabled && AlwaysUnder(Calm, c, calls)
               && FileAllows(disk, if service == "" then DEFAULT_SERVICE else service)
               && turns >= 12 * RoundsToOriginal(c, c.minQuota)
      modifies this
      ensures Valid() && r == Finished && up && guard.Some?
      ensures InForce(original, disk, cfg.service) == original(cfg.service)
    {
      ghost var from := calls;
      r := BootAgent();
      SteadyAfterStart(Calm, controller.cfg, from, calls);
      if controller.quota > 0.0 {
        FewerRounds(controller.cfg, controller.quota);
      }
      GiveBack(turns);
    }

    /** One event in the life of the host; an event that cannot happen now changes nothing. */
    method Handle(event: Event)
      requires Valid() && Rested()
      modifies this, controller
      ensures Valid() && Rested() && old(history) <= history
      ensures event.Kill? ==> !up && disk == old(disk)
      ensures event.Reboot? ==> !up && disk == Rebooted(old(disk))
      ensures event.Edit? ==>
                disk == old(disk).(config := event.config) && up == old(up) && cfg == old(cfg)
      ensures controller == null || controller == old(controller) || fresh(controller)
    {
      match event {
        case Boot =>
          if !up {
            var r := BootAgent();
          }
        case Tick =>
          if guard.Some? {
            var r := Sample();
          }
        case Update(next) =>
          if up {
            var r := UpdateConfig(next);
          }
        case Kill =>
          up, guard, controller := false, None, null;
        case Reboot =>
          up, guard, controller := false, None, null;
          disk := Rebooted(disk);
          history := history + [disk];
        case Edit(config) =>
          disk := disk.(config := config);
          history := history + [disk];
      }
    }

    /** Every run: whatever the faults, the crash points and the order of the events, the host was
        safe at every instant, and at rest an agent with the guard switched off has its service
        at the original quota. */
    method Live(events: seq<Event>)
      requires Valid() && Rested()
      modifies this, controller
      ensures forall k | 0 <= k < |history| :: Safe(original, history[k])
      ensures old(history) <= history && history[|history| - 1] == disk
      ensures up && !WithDefaults(cfg.cpu).enabled ==>
                InForce(original, disk, cfg.service) == original(cfg.service)
    {
      for i := 0 to |events|
        invariant Valid() && Rested() && old(history) <= history
        invariant controller == null || controller == old(controller) || fresh(controller)
      {
        Handle(events[i]);
      }
    }
  }
  /** Such a run from the start: boot with the guard on, an update whose start, rollback write and
      resumption all fail, and the update back. The guard is off although the panel is told it is on,
      and the next boot takes up the configuration that was refused. */
  method GuardCanStayOff(original: Originals, first: Config, next: Config) returns (node: Node)
    requires Accepted(WithDefaults(first)) && WithDefaults(first).enabled
    requires Accepted(WithDefaults(next)) && WithDefaults(next) != WithDefaults(first)
    ensures fresh(node) && node.Valid() && node.up
    ensures node.cfg.cpu == first && node.guard == None
    ensures node.disk.config.cpu == WithDefaults(next)
  {
    var faults := (k: nat) => if 8 <= k <= 10 then Failure(Nothing) else Success;
    node := new Node(original, faults, (k: nat) => CpuSample(k, 0, 1), AgentConfig(DEFAULT_SERVICE, first));
    var booted := node.BootAgent();
    assert booted == Finished && node.calls == 6;
    var refused, back := node.LoseGuard(next);
  }
}
