/** Outage mails for a node: one mail per outage, retried after failures, remembered in a stored
    state that may itself fail to be saved. Sample times are in milliseconds, retry times in Unix
    seconds. */
module NodeAlerts {

  const RETRY_SECONDS: int := 300

  datatype Alert = Alert(notified: bool, retryAt: int)

  const CALM := Alert(false, 0)

  /** What one check sees: the settings, the newest sample (0 for none) and the creation time, the
      clock, whether the stored state can be read, a mail would be accepted and a changed state can
      be saved. */
  datatype Check = Check(
    enabled: bool, timeout: nat, lastSample: int, created: int, now: int,
    readOk: bool, sendOk: bool, saveOk: bool)

  predicate SampleStale(now: int, lastSample: int, created: int, timeout: nat) {
    var last := if lastSample == 0 then created else lastSample;
    last > 0 && now - last >= timeout * 1000
  }

  predicate Stale(c: Check) { SampleStale(c.now, c.lastSample, c.created, c.timeout) }

  function Unix(ms: int): int { ms / 1000 }

  /** A mail is tried in this check. */
  predicate Tries(a: Alert, c: Check) {
    c.readOk && Stale(c) && c.enabled && !a.notified && Unix(c.now) >= a.retryAt
  }

  predicate Sends(a: Alert, c: Check) { Tries(a, c) && c.sendOk }

  /** The state the check wants stored. */
  function Wanted(a: Alert, c: Check): Alert {
    if !Stale(c) then CALM
    else if !Tries(a, c) then a
    else if c.sendOk then Alert(true, 0)
    else a.(retryAt := Unix(c.now + RETRY_SECONDS * 1000))
  }

  /** The state that is stored afterwards. */
  function After(a: Alert, c: Check): Alert { if c.readOk && c.saveOk then Wanted(a, c) else a }

  class AlertService {
    var stored: map<int, Alert>

    constructor ()
      ensures stored == map[]
    {
      stored := map[];
    }

    function StateOf(id: int): Alert
      reads this
    {
      if id in stored then stored[id] else CALM
    }

    /** One check of one node; mailed counts the mails accepted. */
    method CheckNode(id: int, c: Check) returns (tried: bool, mailed: nat)
      modifies this
      ensures StateOf(id) == After(old(StateOf(id)), c)
      ensures forall other | other != id :: StateOf(other) == old(StateOf(other))
      ensures tried == Tries(old(StateOf(id)), c)
      ensures mailed == if Sends(old(StateOf(id)), c) then 1 else 0
    {
      tried, mailed := false, 0;
      if !c.readOk {
        return;
      }
      var state := StateOf(id);
      var next, changed;
      next, changed, tried, mailed := Advance(state, c);
      if !changed {
        return;
      }
      if c.saveOk {
        stored := stored[id := next];
      }
    }

    method Advance(state: Alert, c: Check)
      returns (next: Alert, changed: bool, tried: bool, mailed: nat)
      requires c.readOk
      ensures next == Wanted(state, c) && (changed <==> next != state)
      ensures tried == Tries(state, c) && mailed == if Sends(state, c) then 1 else 0
    {
      if !Stale(c) {
        return CALM, state != CALM, false, 0;
      }
      if !c.enabled || state.notified || Unix(c.now) < state.retryAt {
        return state, false, false, 0;
      }
      if !c.sendOk {
        return state.(retryAt := Unix(c.now + RETRY_SECONDS * 1000)), true, true, 0;
      }
      return Alert(true, 0), true, true, 1;
    }
  }

  /** When an outage is announced: with nothing stored, an enabled check that can read the state tries
      a mail exactly from the moment on at which the newest sample, or for a node that never sent one
      its creation, is at least the timeout's seconds ago. */
  lemma AnnouncedFrom(c: Check)
    requires c.enabled && c.readOk && c.now >= 0
    ensures var last := if c.lastSample == 0 then c.created else c.lastSample;
            Tries(CALM, c) <==> last > 0 && c.now >= last + 1000 * c.timeout
  {
  }

  // ---------------------------------------------------------------- runs

  function Run(a: Alert, checks: seq<Check>): Alert {
    if checks == [] then a
    else After(Run(a, checks[..|checks| - 1]), checks[|checks| - 1])
  }

  function Count(b: bool): nat { if b then 1 else 0 }

  /** Mails accepted over a run. */
  function Mails(a: Alert, checks: seq<Check>): nat {
    if checks == [] then 0
    else
      Mails(a, checks[..|checks| - 1])
      + Count(Sends(Run(a, checks[..|checks| - 1]), checks[|checks| - 1]))
  }

  /** Mails whose notified state could not be saved. */
  function Forgotten(a: Alert, checks: seq<Check>): nat {
    if checks == [] then 0
    else
      var last := checks[|checks| - 1];
      Forgotten(a, checks[..|checks| - 1])
      + Count(Sends(Run(a, checks[..|checks| - 1]), last) && !last.saveOk)
  }

  /** A check that finds a fresh sample and can read and save the state. */
  predicate Rearms(c: Check) { !Stale(c) && c.readOk && c.saveOk }

  /** Checks that store the end of an outage that had been announced. */
  function Rearmed(a: Alert, checks: seq<Check>): nat {
    if checks == [] then 0
    else
      var last := checks[|checks| - 1];
      Rearmed(a, checks[..|checks| - 1])
      + Count(Run(a, checks[..|checks| - 1]).notified && Rearms(last))
  }

  /** The ledger of every run: each accepted mail was forgotten, or is the one the stored state
      remembers, or was rearmed by a stored recovery. */
  lemma {:induction false} EveryMailIsAccountedFor(a: Alert, checks: seq<Check>)
    ensures Count(a.notified) + Mails(a, checks)
         == Forgotten(a, checks) + Rearmed(a, checks) + Count(Run(a, checks).notified)
  {
    if checks != [] {
      EveryMailIsAccountedFor(a, checks[..|checks| - 1]);
    }
  }

  predicate Unbroken(checks: seq<Check>) { forall c <- checks :: Stale(c) }

  lemma {:induction false} OutagesDoNotRearm(a: Alert, checks: seq<Check>)
    requires Unbroken(checks)
    ensures Rearmed(a, checks) == 0
  {
    if checks != [] {
      assert checks[|checks| - 1] in checks;
      OutagesDoNotRearm(a, checks[..|checks| - 1]);
    }
  }

  /** In one unbroken outage the mails number at most one plus those whose state was not saved;
      none at all beyond the latter when the outage starts in the notified state. */
  lemma OneMailPerOutage(a: Alert, checks: seq<Check>)
    requires Unbroken(checks)
    ensures Mails(a, checks) <= 1 + Forgotten(a, checks)
    ensures a.notified ==> Mails(a, checks) == 0
    ensures a.notified ==> Run(a, checks).notified
  {
    EveryMailIsAccountedFor(a, checks);
    OutagesDoNotRearm(a, checks);
    if a.notified {
      NotifiedStaysSilent(a, checks);
    }
  }

  lemma {:induction false} NotifiedStaysSilent(a: Alert, checks: seq<Check>)
    requires Unbroken(checks) && a.notified
    ensures Mails(a, checks) == 0 && Run(a, checks).notified
  {
    if checks != [] {
      assert checks[|checks| - 1] in checks;
      NotifiedStaysSilent(a, checks[..|checks| - 1]);
    }
  }

  /** Attempts over a run, accepted or not. */
  function Attempts(a: Alert, checks: seq<Check>): nat {
    if checks == [] then 0
    else
      Attempts(a, checks[..|checks| - 1])
      + Count(Tries(Run(a, checks[..|checks| - 1]), checks[|checks| - 1]))
  }

  /** Within an outage, after a failed attempt whose state was saved, the next attempt comes at the
      first enabled check that is at least 300 seconds later, however many there are between. */
  lemma {:induction false} RetriesAreSpaced(a: Alert, first: Check, between: seq<Check>, next: Check)
    requires Tries(a, first) && !first.sendOk && first.saveOk
    requires Unbroken(between) && Attempts(After(a, first), between) == 0
    ensures Run(After(a, first), between) == After(a, first)
    ensures Tries(Run(After(a, first), between), next)
       <==> Stale(next) && next.enabled && next.readOk && Unix(next.now) - Unix(first.now) >= 300
  {
    if between != [] {
      assert between[|between| - 1] in between;
      RetriesAreSpaced(a, first, between[..|between| - 1], between[|between| - 1]);
    }
  }

  /** Only a check that finds a fresh sample and saves the state re-arms the alert. */
  lemma OnlyRecoveryRearms(a: Alert, c: Check)
    ensures a.notified && !After(a, c).notified <==> a.notified && Rearms(c)
  {
  }

  /** A recovery re-arms the alert exactly when one of its checks can read and save the state: after
      that the first enabled check of the next outage tries a mail, otherwise that outage stays
      silent. */
  lemma UnsavedRecoverySilencesTheNextOutage(
    a: Alert, recovery: seq<Check>, outage: seq<Check>)
    requires a.notified && Unbroken(outage)
    requires forall c <- recovery :: !Stale(c)
    ensures (exists c <- recovery :: Rearms(c)) ==>
              forall c | Stale(c) && c.readOk && c.enabled && c.now >= 0 ::
                Tries(Run(a, recovery), c)
    ensures !(exists c <- recovery :: Rearms(c)) ==> Mails(Run(a, recovery), outage) == 0
  {
    RecoveryState(a, recovery);
    if Run(a, recovery).notified {
      OneMailPerOutage(Run(a, recovery), outage);
    }
  }

  lemma {:induction false} RecoveryState(a: Alert, recovery: seq<Check>)
    requires forall c <- recovery :: !Stale(c)
    ensures Run(a, recovery) == if exists c <- recovery :: Rearms(c) then CALM else a
  {
    if recovery != [] {
      var front, last := recovery[..|recovery| - 1], recovery[|recovery| - 1];
      assert last in recovery && forall c <- front :: c in recovery;
      RecoveryState(a, front);
    }
  }
}
