/** The users the agent works with: what its task loop makes of the users that syncs and config
    deploys carry, and what that means for a kick. */
module AgentUsers {
  import opened Basics
  import opened TaskQueue

  /** The version of the users the agent works with. */
  function HeldVersion(s: State): Option<nat> {
    if s.applied == [] || s.applied[|s.applied| - 1] >= |s.tasks| then None
    else Carries(s.tasks[s.applied[|s.applied| - 1]].job)
  }

  lemma HeldIn(s: State, first: nat) returns (last: nat)
    requires Sound(s) && first in s.applied
    ensures first <= last < |s.tasks| && last in s.applied
    ensures HeldVersion(s) == Carries(s.tasks[last].job) && HeldVersion(s).Some?
  {
    last := s.applied[|s.applied| - 1];
    assert last in s.applied && last in s.dispatched;
    AscendingLast(s.applied, first);
  }

  /** The users held after a task was applied come from that task or from one queued after it. */
  lemma HeldComesFrom(clock: int, events: seq<Event>, first: nat) returns (last: nat)
    requires first in Run(Start(clock), events).applied
    ensures var s := Run(Start(clock), events);
            && first <= last < |s.tasks| && last in s.applied
            && HeldVersion(s) == Carries(s.tasks[last].job) && HeldVersion(s).Some?
  {
    EveryRunIsSound(clock, events);
    last := HeldIn(Run(Start(clock), events), first);
  }

  /** Tasks that carry users stand in the table in the order in which the users were read. */
  predicate Serial(tasks: seq<Task>) {
    forall i, j | 0 <= i < j < |tasks| ::
      Carries(tasks[i].job).Some? && Carries(tasks[j].job).Some? ==>
        Carries(tasks[i].job).value <= Carries(tasks[j].job).value
  }

  /** No task after this one carries older users than it does. */
  predicate NoneOlderSince(tasks: seq<Task>, sync: nat) {
    forall k | sync <= k < |tasks| && Carries(tasks[k].job).Some? ::
      Carries(tasks[sync].job).Some?
      && Carries(tasks[k].job).value >= Carries(tasks[sync].job).value
  }

  /** The agent holds the newest users it was ever given. */
  predicate HoldsNewest(s: State) {
    forall p <- s.applied | p < |s.tasks| && Carries(s.tasks[p].job).Some? ::
      HeldVersion(s).Some? && HeldVersion(s).value >= Carries(s.tasks[p].job).value
  }

  /** When payloads are built and queued one after the other, the agent holds the newest users it was
      ever given, in every run. */
  lemma SerialUsersStayNewest(clock: int, events: seq<Event>)
    requires Serial(Run(Start(clock), events).tasks)
    ensures HoldsNewest(Run(Start(clock), events))
  {
    var s := Run(Start(clock), events);
    forall p | p in s.applied && p < |s.tasks| && Carries(s.tasks[p].job).Some?
      ensures HeldVersion(s).Some? && HeldVersion(s).value >= Carries(s.tasks[p].job).value
    {
      var last := HeldComesFrom(clock, events, p);
    }
  }

  /** From the moment the kick of a refresh whose inserts were at most 120 seconds apart is handed out,
      for the rest of the run, the agent holds the users of that refresh or newer ones, provided its
      sync, once handed out, reached the agent and succeeded, and no task queued after it carries
      older users. */
  lemma KickFollowsItsUsers(clock: int, events: seq<Event>, sync: nat, kick: nat)
    requires var s := Run(Start(clock), events);
             && IsRefresh(s.tasks, sync, kick) && kick in s.dispatched
             && s.tasks[kick].created - s.tasks[sync].created <= 120
             && (sync in s.dispatched ==> sync in s.applied) && NoneOlderSince(s.tasks, sync)
    ensures var s := Run(Start(clock), events);
            && sync in s.applied
            && HeldVersion(s).Some? && HeldVersion(s).value >= s.tasks[sync].job.version
  {
    SyncIsDispatchedBeforeItsKick(clock, events, sync, kick);
    var last := HeldComesFrom(clock, events, sync);
  }

  // ---------------------------------------------------------------- queues of tasks

  /** Tasks waiting together: what each asks for and its lifetime. */
  type Queue = seq<(Job, int)>

  function Queued(queue: Queue): seq<Event> {
    seq(|queue|, i requires 0 <= i < |queue| => Enqueue(queue[i].0, queue[i].1))
  }

  function Waiting(queue: Queue, clock: int): seq<Task> {
    seq(|queue|, i requires 0 <= i < |queue| =>
      Task(queue[i].0, Pending, clock, Expiry(clock, queue[i].1)))
  }

  /** The rest of a run queues tasks of any kind but no more users. */
  predicate NoMoreUsers(events: seq<Event>) {
    forall e <- events :: e.Enqueue? ==> Carries(e.job).None?
  }

  function UsersOf(queue: Queue, k: nat): Option<nat>
    requires k < |queue|
  {
    Carries(queue[k].0)
  }

  lemma {:induction false} QueuedTasks(clock: int, queue: Queue)
    ensures Run(Start(clock), Queued(queue)) == Start(clock).(tasks := Waiting(queue, clock))
  {
    var n := |queue|;
    if n > 0 {
      var front := queue[..n - 1];
      QueuedTasks(clock, front);
      assert Queued(queue)[..n - 1] == Queued(front);
      assert Waiting(queue, clock) == Waiting(front, clock) + [Waiting(queue, clock)[n - 1]];
    }
  }

  lemma {:induction false} RunsJoin(s: State, before: seq<Event>, after: seq<Event>)
    ensures Run(s, before + after) == Run(Run(s, before), after)
  {
    var all := before + after;
    if after == [] {
      assert all == before;
    } else {
      RunsJoin(s, before, after[..|after| - 1]);
      assert all[..|all| - 1] == before + after[..|after| - 1];
      assert all[|all| - 1] == after[|after| - 1];
    }
  }

  /** Only the tasks that were there carry users. */
  predicate UsersFrom(tasks: seq<Task>, s: State) {
    && |tasks| <= |s.tasks|
    && (forall k | 0 <= k < |tasks| :: s.tasks[k].job == tasks[k].job)
    && (forall k | |tasks| <= k < |s.tasks| :: Carries(s.tasks[k].job).None?)
  }

  lemma {:induction false} NoUsersAdded(s: State, events: seq<Event>)
    requires NoMoreUsers(events)
    ensures UsersFrom(s.tasks, Run(s, events))
  {
    if events != [] {
      var before := events[..|events| - 1];
      assert events[|events| - 1] in events && forall e <- before :: e in events;
      NoUsersAdded(s, before);
    }
  }

  lemma QueueStays(clock: int, queue: Queue, events: seq<Event>)
    requires NoMoreUsers(events)
    ensures var s := Run(Start(clock), Queued(queue) + events);
            && |queue| <= |s.tasks|
            && (forall k | 0 <= k < |queue| :: s.tasks[k].job == queue[k].0)
            && (forall k | |queue| <= k < |s.tasks| :: Carries(s.tasks[k].job).None?)
  {
    QueuedTasks(clock, queue);
    RunsJoin(Start(clock), Queued(queue), events);
    NoUsersAdded(Start(clock).(tasks := Waiting(queue, clock)), events);
  }

  // ---------------------------------------------------------------- one run through the queue

  /** The agent pulling and executing so many tasks; those in keep succeed. */
  function Rounds(k: nat, keep: set<nat>): seq<Event> {
    if k == 0 then [] else Rounds(k - 1, keep) + [Pull(true), Execute((k - 1) in keep, false)]
  }

  lemma {:induction false} RoundsQueueNothing(k: nat, keep: set<nat>)
    ensures NoMoreUsers(Rounds(k, keep))
  {
    if k > 0 {
      RoundsQueueNothing(k - 1, keep);
    }
  }

  /** The first k tasks have been executed, and the users of those in keep were taken over. */
  ghost predicate Drained(s: State, queue: Queue, clock: int, k: nat, keep: set<nat>) {
    && s.agent == Idle && s.clock == clock && |s.tasks| == |queue| && k <= |queue|
    && (forall i | 0 <= i < |queue| ::
          s.tasks[i] == Waiting(queue, clock)[i].(status := if i < k then Running else Pending))
    && Ascending(s.dispatched) && Ascending(s.applied)
    && (forall i: nat :: i in s.dispatched <==> i < k)
    && (forall i: nat :: i in s.applied <==> i < k && i in keep && UsersOf(queue, i).Some?)
  }

  lemma {:induction false} SkipsRunning(
    s: State, queue: Queue, clock: int, k: nat, keep: set<nat>, start: nat)
    requires Drained(s, queue, clock, k, keep) && start <= k < |queue|
    ensures FirstDue(s.tasks, clock, start) == k
    decreases k - start
  {
    if start < k {
      SkipsRunning(s, queue, clock, k, keep, start + 1);
    }
  }

  lemma OneRound(s: State, queue: Queue, clock: int, k: nat, keep: set<nat>)
    requires Drained(s, queue, clock, k, keep) && k < |queue|
    ensures Drained(Step(Step(s, Pull(true)), Execute(k in keep, false)), queue, clock, k + 1, keep)
  {
    SkipsRunning(s, queue, clock, k, keep, 0);
    Appended(s.dispatched, k);
    Appended(s.applied, k);
  }

  lemma RunTwo(s: State, before: seq<Event>, e: Event, f: Event)
    ensures Run(s, before + [e, f]) == Step(Step(Run(s, before), e), f)
  {
    var one, two := before + [e], before + [e, f];
    assert one[..|one| - 1] == before && two[..|two| - 1] == one;
  }

  lemma RoundsGrow(s: State, k: nat, keep: set<nat>)
    ensures Run(s, Rounds(k + 1, keep))
         == Step(Step(Run(s, Rounds(k, keep)), Pull(true)), Execute(k in keep, false))
  {
    RunTwo(s, Rounds(k, keep), Pull(true), Execute(k in keep, false));
  }

  lemma OneMoreRound(s: State, queue: Queue, clock: int, k: nat, keep: set<nat>)
    requires k < |queue| && Drained(Run(s, Rounds(k, keep)), queue, clock, k, keep)
    ensures Drained(Run(s, Rounds(k + 1, keep)), queue, clock, k + 1, keep)
  {
    RoundsGrow(s, k, keep);
    OneRound(Run(s, Rounds(k, keep)), queue, clock, k, keep);
  }

  lemma {:induction false} RoundsDrain(s: State, queue: Queue, clock: int, k: nat, keep: set<nat>)
    requires Drained(s, queue, clock, 0, keep) && k <= |queue|
    ensures Drained(Run(s, Rounds(k, keep)), queue, clock, k, keep)
  {
    if k > 0 {
      RoundsDrain(s, queue, clock, k - 1, keep);
      OneMoreRound(s, queue, clock, k - 1, keep);
    }
  }

  lemma QueueDrains(clock: int, queue: Queue, k: nat, keep: set<nat>)
    requires k <= |queue|
    ensures NoMoreUsers(Rounds(k, keep))
    ensures Drained(Run(Start(clock), Queued(queue) + Rounds(k, keep)), queue, clock, k, keep)
  {
    RoundsQueueNothing(k, keep);
    QueuedTasks(clock, queue);
    RunsJoin(Start(clock), Queued(queue), Rounds(k, keep));
    RoundsDrain(Start(clock).(tasks := Waiting(queue, clock)), queue, clock, k, keep);
  }

  /** The agent then holds the users of the last task kept. */
  lemma DrainedHolds(s: State, queue: Queue, clock: int, k: nat, keep: set<nat>, last: nat)
    requires Drained(s, queue, clock, k, keep) && last < k && last in keep
    requires UsersOf(queue, last).Some? && forall i <- keep :: i <= last
    ensures HeldVersion(s) == UsersOf(queue, last)
  {
    AscendingLast(s.applied, last);
    assert s.applied[|s.applied| - 1] in s.applied;
  }

  // ---------------------------------------------------------------- exactly when

  /** For every list of waiting tasks: in every run the agent keeps the newest users it was given if and
      only if no users were queued after newer ones. Building a payload and queuing it are separate
      steps, so two refreshes, or a refresh and a deploy, that overlap can break the order. */
  lemma NewestIsKeptExactly(clock: int, queue: Queue)
    ensures (forall events | NoMoreUsers(events) ::
               HoldsNewest(Run(Start(clock), Queued(queue) + events)))
            <==> Serial(Waiting(queue, clock))
  {
    if Serial(Waiting(queue, clock)) {
      forall events | NoMoreUsers(events)
        ensures HoldsNewest(Run(Start(clock), Queued(queue) + events))
      {
        QueueStays(clock, queue, events);
        SerialCarriesOver(queue, clock, Run(Start(clock), Queued(queue) + events).tasks);
        SerialUsersStayNewest(clock, Queued(queue) + events);
      }
    } else {
      var waiting := Waiting(queue, clock);
      var i, j :| && 0 <= i < j < |waiting|
                  && Carries(waiting[i].job).Some? && Carries(waiting[j].job).Some?
                  && Carries(waiting[i].job).value > Carries(waiting[j].job).value;
      DisorderShows(clock, queue, i, j);
    }
  }

  lemma SerialCarriesOver(queue: Queue, clock: int, tasks: seq<Task>)
    requires Serial(Waiting(queue, clock)) && |queue| <= |tasks|
    requires forall k | 0 <= k < |queue| :: tasks[k].job == queue[k].0
    requires forall k | |queue| <= k < |tasks| :: Carries(tasks[k].job).None?
    ensures Serial(tasks)
  {
    var waiting := Waiting(queue, clock);
    forall i, j | 0 <= i < j < |tasks| && Carries(tasks[i].job).Some? && Carries(tasks[j].job).Some?
      ensures Carries(tasks[i].job).value <= Carries(tasks[j].job).value
    {
      assert waiting[i].job == tasks[i].job && waiting[j].job == tasks[j].job;
    }
  }

  /** The run that goes back: newer users are taken over, and then older ones queued after them. */
  lemma DisorderShows(clock: int, queue: Queue, i: nat, j: nat)
    requires i < j < |queue| && UsersOf(queue, i).Some? && UsersOf(queue, j).Some?
    requires UsersOf(queue, i).value > UsersOf(queue, j).value
    ensures NoMoreUsers(Rounds(j + 1, {i, j}))
    ensures !HoldsNewest(Run(Start(clock), Queued(queue) + Rounds(j + 1, {i, j})))
  {
    QueueDrains(clock, queue, j + 1, {i, j});
    var s := Run(Start(clock), Queued(queue) + Rounds(j + 1, {i, j}));
    DrainedHolds(s, queue, clock, j + 1, {i, j}, j);
    assert i in s.applied && s.tasks[i].job == queue[i].0;
  }

  /** In every run from these waiting tasks, whenever the kick has been handed out and the sync was
      applied, now or long ago, the users held are good ones. */
  ghost predicate GoodFromTheKickOn(
    clock: int, queue: Queue, sync: nat, kick: nat, good: nat -> bool)
  {
    forall events | NoMoreUsers(events) ::
      var s := Run(Start(clock), Queued(queue) + events);
      kick in s.dispatched && sync in s.applied ==>
        HeldVersion(s).Some? && good(HeldVersion(s).value)
  }

  /** That is so if and only if the users of the sync and of every task queued after it are good, with
      no regard to their order: each of them can be the last to arrive. */
  lemma GoodExactly(clock: int, queue: Queue, sync: nat, kick: nat, good: nat -> bool)
    requires sync < kick < |queue| && UsersOf(queue, sync).Some?
    ensures GoodFromTheKickOn(clock, queue, sync, kick, good)
       <==> forall k | sync <= k < |queue| && UsersOf(queue, k).Some? ::
              good(UsersOf(queue, k).value)
  {
    if forall k | sync <= k < |queue| && UsersOf(queue, k).Some? :: good(UsersOf(queue, k).value) {
      forall events | NoMoreUsers(events) && sync in Run(Start(clock), Queued(queue) + events).applied
        ensures var s := Run(Start(clock), Queued(queue) + events);
                HeldVersion(s).Some? && good(HeldVersion(s).value)
      {
        QueueStays(clock, queue, events);
        var last := HeldComesFrom(clock, Queued(queue) + events, sync);
        assert UsersOf(queue, last) == HeldVersion(Run(Start(clock), Queued(queue) + events));
      }
    } else {
      var k :| sync <= k < |queue| && UsersOf(queue, k).Some? && !good(UsersOf(queue, k).value);
      BadUsersArrive(clock, queue, sync, kick, k);
    }
  }

  lemma BadUsersArrive(clock: int, queue: Queue, sync: nat, kick: nat, k: nat)
    requires sync <= k < |queue| && sync < kick < |queue|
    requires UsersOf(queue, sync).Some? && UsersOf(queue, k).Some?
    ensures exists events | NoMoreUsers(events) ::
              var s := Run(Start(clock), Queued(queue) + events);
              kick in s.dispatched && sync in s.applied && HeldVersion(s) == UsersOf(queue, k)
  {
    var n := (if k < kick then kick else k) + 1;
    QueueDrains(clock, queue, n, {sync, k});
    var s := Run(Start(clock), Queued(queue) + Rounds(n, {sync, k}));
    DrainedHolds(s, queue, clock, n, {sync, k}, k);
    assert kick in s.dispatched && sync in s.applied;
  }

  // ---------------------------------------------------------------- a deploy in between

  /** A refresh with a config deploy queued between its two inserts. */
  function Overtaken(newer: nat, older: nat): Queue {
    [(SyncAuth(newer), SYNC_TTL), (Deploy(Some(older)), DEPLOY_TTL), (KickClients, KICK_TTL)]
  }

  /** The run in which the deploy of another request, whose payload was built before the change, puts
      the older users back just before the kick is executed. */
  lemma DeployBringsOlderUsersBack(clock: int, newer: nat, older: nat)
    ensures exists events ::
              var s := Run(Start(clock), Queued(Overtaken(newer, older)) + events);
              && IsRefresh(s.tasks, 0, 2) && s.tasks[2].created == s.tasks[0].created
              && s.agent == Executing(2) && 0 in s.applied && HeldVersion(s) == Some(older)
  {
    var queue := Overtaken(newer, older);
    var rounds := Rounds(2, {0, 1});
    QueueDrains(clock, queue, 2, {0, 1});
    var s := Run(Start(clock), Queued(queue) + rounds);
    DrainedHolds(s, queue, clock, 2, {0, 1}, 1);
    SkipsRunning(s, queue, clock, 2, {0, 1}, 0);
    var events := rounds + [Pull(true)];
    var all := Queued(queue) + events;
    assert all[..|all| - 1] == Queued(queue) + rounds;
    var t := Run(Start(clock), all);
    assert t == Step(s, Pull(true));
    assert t.tasks[0] == s.tasks[0] && t.tasks[1] == s.tasks[1] && 0 in t.applied;
    assert Waiting(queue, clock)[0].job == SyncAuth(newer);
    assert IsRefresh(t.tasks, 0, 2);
  }
}
