/** The service watchdog, operator actions and the file that records the operator's intent. Both
    sides work under one mutex; every other step, including the agent's death in the middle of a
    write, can fall between any two of theirs. */
module Watchdog {
  import opened Basics
  import opened Text

  datatype Action = StartService | StopService | RestartService

  /** What an action leaves in the intent file. */
  function IntentText(a: Action): string { if a.StopService? then "stopped\n" else "running\n" }

  /** The watchdog may act: there is no intent file, or its trimmed content is "running". */
  predicate MayRecover(file: Option<string>) { file.None? || Trim(file.value) == "running" }

  // ---------------------------------------------------------------- the agent's code

  /** How writing the intent file ends: whole, failed after some characters, or not even opened. */
  datatype Save = Whole | Cut(written: nat) | NotOpened

  class Service {
    var intent: Option<string>
    var upgrading: bool
    var uninstalling: bool
    var starts: nat

    constructor (intent: Option<string>)
      ensures this.intent == intent && !upgrading && !uninstalling && starts == 0
    {
      this.intent, upgrading, uninstalling, starts := intent, false, false, 0;
    }

    /** An operator action: the intent is written first, and only then is systemctl run. */
    method Act(a: Action, save: Save, loggingOk: bool) returns (ran: bool)
      requires save.Cut? ==> save.written <= |IntentText(a)|
      modifies this
      ensures ran <==> save.Whole? && loggingOk
      ensures intent == match save
                        case Whole => Some(IntentText(a))
                        case Cut(n) => Some(IntentText(a)[..n])
                        case NotOpened => old(intent)
      ensures upgrading == old(upgrading) && uninstalling == old(uninstalling)
      ensures starts == old(starts)
    {
      match save {
        case NotOpened =>
          return false;
        case Cut(n) =>
          intent := Some(IntentText(a)[..n]);
          return false;
        case Whole =>
          intent := Some(IntentText(a));
      }
      if !loggingOk {
        return false;
      }
      return true;
    }

    /** One watchdog tick; it issues a start exactly when nothing speaks against it. */
    method Recover(absolutePath: bool, readable: bool, status: string) returns (started: bool)
      modifies this
      ensures started <==>
                && !upgrading && !uninstalling && absolutePath && readable
                && (old(intent) == None || Trim(old(intent).value) == "running")
                && (Trim(status) == "inactive" || Trim(status) == "failed")
      ensures intent == old(intent) && starts == old(starts) + if started then 1 else 0
      ensures upgrading == old(upgrading) && uninstalling == old(uninstalling)
    {
      if upgrading || uninstalling || !absolutePath {
        return false;
      }
      if !readable || (intent.Some? && Trim(intent.value) != "running") {
        return false;
      }
      if Trim(status) != "inactive" && Trim(status) != "failed" {
        return false;
      }
      starts := starts + 1;
      return true;
    }
  }

  // ---------------------------------------------------------------- interleavings

  /** Who holds the service mutex and how far it has come. */
  datatype Holder =
    | Free
    | Writing(action: Action, written: nat)
    | Checking
    | Cleared
    | Trusted

  /** stopInForce: a stop has begun to be recorded, and since then no start or restart has been
      recorded. busyAtCheck: an upgrade or uninstall was set when the watchdog last looked.
      recoveries: the two for each start the watchdog issued, at the moment it issued it. */
  datatype State = State(
    file: Option<string>,
    holder: Holder,
    upgrading: bool,
    uninstalling: bool,
    stopInForce: bool,
    busyAtCheck: bool,
    recoveries: seq<(bool, bool)>)

  datatype Event =
    | OperatorLocks(action: Action)
    | WriteMore
    | OperatorDone
    | WatchdogLocks
    | CheckFlags
    | ReadIntent(readable: bool)
    | IssueStart
    | WatchdogStops
    | SetUpgrading(on: bool)
    | SetUninstalling
    | AgentRestarts

  const START := State(None, Free, false, false, false, false, [])

  /** A start or restart counts as recorded once its word is in the file. */
  predicate Recorded(a: Action, written: nat) { !a.StopService? && written >= |"running"| }

  /** One step; an event that is not enabled changes nothing. Opening the file for an intent
      truncates it, and each further step of the write adds one character. */
  function Step(s: State, e: Event): State {
    match e
    case OperatorLocks(a) =>
      if s.holder.Free? then
        s.(holder := Writing(a, 0), file := Some(""), stopInForce := s.stopInForce || a.StopService?)
      else s
    case WriteMore =>
      if !s.holder.Writing? || s.holder.written >= |IntentText(s.holder.action)| then s
      else
        var a, n := s.holder.action, s.holder.written + 1;
        s.(holder := Writing(a, n), file := Some(IntentText(a)[..n]),
           stopInForce := s.stopInForce && !Recorded(a, n))
    case OperatorDone => if s.holder.Writing? then s.(holder := Free) else s
    case WatchdogLocks => if s.holder.Free? then s.(holder := Checking) else s
    case CheckFlags =>
      if !s.holder.Checking? then s
      else s.(busyAtCheck := s.upgrading || s.uninstalling,
              holder := if s.upgrading || s.uninstalling then Free else Cleared)
    case ReadIntent(readable) =>
      if !s.holder.Cleared? then s
      else s.(holder := if readable && MayRecover(s.file) then Trusted else Free)
    case IssueStart =>
      if !s.holder.Trusted? then s
      else s.(holder := Free, recoveries := s.recoveries + [(s.stopInForce, s.busyAtCheck)])
    case WatchdogStops => if s.holder.Cleared? || s.holder.Trusted? then s.(holder := Free) else s
    case SetUpgrading(on) => s.(upgrading := on)
    case SetUninstalling => s.(uninstalling := true)
    case AgentRestarts => s.(holder := Free, upgrading := false, uninstalling := false)
  }

  function Run(events: seq<Event>): State {
    if events == [] then START else Step(Run(events[..|events| - 1]), events[|events| - 1])
  }

  lemma ShortTextIsRefused(t: string)
    requires |t| < |"running"|
    ensures !MayRecover(Some(t))
  {
    TrimLeftShape(t, IsSpace);
    TrimRightShape(TrimLeft(t, IsSpace), IsSpace);
    assert |Trim(t)| < |"running"|;
  }

  lemma StopTextIsRefused(t: string)
    requires t != "" && t[0] == 's'
    ensures !MayRecover(Some(t))
  {
    assert TrimLeft(t, IsSpace) == t;
    TrimRightShape(t, IsSpace);
    var u := TrimRight(t, IsSpace);
    assert u != "" ==> u[0] == 's';
    assert "running"[0] == 'r';
  }

  lemma RunningIsAccepted()
    ensures MayRecover(Some("running")) && MayRecover(Some("running\n"))
  {
    var word, line := "running", "running\n";
    TrimClean(word);
    assert TrimLeft(line, IsSpace) == line && TrimLeft(word, IsSpace) == word;
    assert line[..|line| - 1] == word;
  }

  /** No part of a stop intent and no part of a start intent shorter than its word reads as
      permission, and every longer part of a start intent does. */
  lemma TornIntentsAreRefused(a: Action, written: nat)
    requires written <= |IntentText(a)|
    ensures MayRecover(Some(IntentText(a)[..written])) <==> Recorded(a, written)
  {
    var t := IntentText(a)[..written];
    if written < |"running"| {
      ShortTextIsRefused(t);
    } else if a.StopService? {
      StopTextIsRefused(t);
    } else {
      RunningIsAccepted();
      assert t == "running" || t == "running\n";
    }
  }

  predicate Sound(s: State) {
    && (s.stopInForce ==> !MayRecover(s.file))
    && (s.holder.Writing? ==>
          && s.holder.written <= |IntentText(s.holder.action)|
          && s.file == Some(IntentText(s.holder.action)[..s.holder.written]))
    && (s.holder.Cleared? || s.holder.Trusted? ==> !s.busyAtCheck)
    && (s.holder.Trusted? ==> MayRecover(s.file))
    && (forall i | 0 <= i < |s.recoveries| :: s.recoveries[i] == (false, false))
  }

  lemma StepIsSound(s: State, e: Event)
    requires Sound(s)
    ensures Sound(Step(s, e))
  {
    match e
    case OperatorLocks(a) => TornIntentsAreRefused(a, 0);
    case WriteMore =>
      if s.holder.Writing? && s.holder.written < |IntentText(s.holder.action)| {
        TornIntentsAreRefused(s.holder.action, s.holder.written + 1);
      }
    case _ =>
  }

  /** In every interleaving of operator actions, watchdog ticks, torn writes, upgrades, uninstalls
      and agent restarts, the watchdog never issued a start while a stop was in force, nor when an
      upgrade or uninstall was set at its check. */
  lemma {:induction false} StopsAreRespected(events: seq<Event>)
    ensures Sound(Run(events))
    ensures forall i | 0 <= i < |Run(events).recoveries| :: Run(events).recoveries[i] == (false, false)
  {
    if events != [] {
      StopsAreRespected(events[..|events| - 1]);
      StepIsSound(Run(events[..|events| - 1]), events[|events| - 1]);
    }
  }

  /** A whole undisturbed tick, from any reachable state with the mutex free, issues a start exactly
      when nothing is set and the intent file is missing or says running. */
  lemma UndisturbedTick(events: seq<Event>)
    requires Run(events).holder.Free?
    ensures var s := Run(events);
            var t := Step(Step(Step(Step(s, WatchdogLocks), CheckFlags), ReadIntent(true)), IssueStart);
            && t.file == s.file && t.holder == Free
            && t.recoveries == s.recoveries
               + (if !s.upgrading && !s.uninstalling
                     && (s.file == None || Trim(s.file.value) == "running")
                  then [(false, false)] else [])
  {
    StopsAreRespected(events);
    assert Run(events).recoveries + [] == Run(events).recoveries;
  }

  /** How a stop gets into force and out of it: the step that opens the file for a stop puts it there, and
      only the step after which the file reads as running, written for a start or a restart, ends it. */
  lemma StopsEndWithAStart(events: seq<Event>, e: Event)
    ensures var s := Run(events);
            var t := Step(s, e);
            && (s.holder == Free && e == OperatorLocks(StopService) ==> t.stopInForce)
            && (s.stopInForce && !t.stopInForce ==>
                  && e == WriteMore && s.holder.Writing? && s.holder.action != StopService
                  && t.file.Some? && Trim(t.file.value) == "running")
            && (!s.stopInForce && t.stopInForce ==> e == OperatorLocks(StopService))
  {
    StopsAreRespected(events);
    var s := Run(events);
    if e == WriteMore && s.holder.Writing? && s.holder.written < |IntentText(s.holder.action)| {
      TornIntentsAreRefused(s.holder.action, s.holder.written + 1);
    }
  }

  /** The watchdog's check notes whether an upgrade or an uninstall is set and goes on only if neither is;
      each flag is set by its own event and cleared by the end of an upgrade or a restart of the
      agent, which also gives the mutex back and leaves the file as it is. */
  lemma FlagsAreChecked(s: State, on: bool)
    ensures s.holder == Checking ==>
              var t := Step(s, CheckFlags);
              && (t.holder == Cleared <==> !s.upgrading && !s.uninstalling)
              && (t.busyAtCheck <==> s.upgrading || s.uninstalling)
              && t.file == s.file && t.recoveries == s.recoveries
    ensures Step(s, SetUpgrading(on)) == s.(upgrading := on)
    ensures Step(s, SetUninstalling) == s.(uninstalling := true)
    ensures var t := Step(s, AgentRestarts);
            && !t.upgrading && !t.uninstalling && t.holder == Free && t.file == s.file
            && t.stopInForce == s.stopInForce && t.recoveries == s.recoveries
    ensures s.holder == Cleared || s.holder == Trusted ==>
              Step(s, WatchdogStops) == s.(holder := Free)
  {
  }

  /** A new agent with no intent file has nothing in force. */
  lemma NothingAtStart()
    ensures Run([]) == State(None, Free, false, false, false, false, [])
  {
  }

  function Writes(n: nat): seq<Event> { if n == 0 then [] else Writes(n - 1) + [WriteMore] }

  lemma OneWrite(s: State, a: Action, n: nat)
    requires s.holder == Writing(a, n) && n < |IntentText(a)|
    ensures var t := Step(s, WriteMore);
            t.holder == Writing(a, n + 1) && t.file == Some(IntentText(a)[..n + 1])
  {
  }

  /** So much of an action's text is in the file. */
  predicate Wrote(s: State, a: Action, n: nat) {
    n <= |IntentText(a)| && s.holder == Writing(a, n) && s.file == Some(IntentText(a)[..n])
  }

  lemma WroteOneMore(before: seq<Event>, a: Action, n: nat)
    requires Wrote(Run(before), a, n) && n < |IntentText(a)|
    ensures Wrote(Run(before + [WriteMore]), a, n + 1)
  {
    assert (before + [WriteMore])[..|before|] == before;
    OneWrite(Run(before), a, n);
  }

  lemma {:induction false} WritesGoOn(before: seq<Event>, a: Action, n: nat)
    requires Wrote(Run(before), a, 0) && n <= |IntentText(a)|
    ensures Wrote(Run(before + Writes(n)), a, n)
  {
    if n == 0 {
      assert before + Writes(0) == before;
    } else {
      WritesGoOn(before, a, n - 1);
      WroteOneMore(before + Writes(n - 1), a, n - 1);
      assert before + Writes(n - 1) + [WriteMore] == before + Writes(n);
    }
  }

  /** A whole undisturbed action, from any reachable state with the mutex free, leaves its text in the
      file and the mutex free again. */
  lemma UndisturbedAction(events: seq<Event>, a: Action)
    requires Run(events).holder.Free?
    ensures var text := if a == StopService then "stopped\n" else "running\n";
            var all := events + [OperatorLocks(a)] + Writes(|text|) + [OperatorDone];
            Run(all).file == Some(text) && Run(all).holder == Free
  {
    var text := IntentText(a);
    var locked := events + [OperatorLocks(a)];
    assert locked[..|events|] == events && Run(locked) == Step(Run(events), OperatorLocks(a));
    WritesGoOn(locked, a, |text|);
    var all := locked + Writes(|text|) + [OperatorDone];
    assert all[..|all| - 1] == locked + Writes(|text|) && text[..|text|] == text;
  }
}
