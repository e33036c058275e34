/** The panel's task table for one agent and the agent's sequential task loop. A task is named by
    its place in insertion order, which is the order of its auto-increment id. The clock is in
    seconds and never runs backwards. Messages can be lost, completions can arrive late and the
    agent can die while it executes. */
module TaskQueue {
  import opened Basics

  datatype Status = Pending | Running | Done | Error

  /** What a task asks for. A local-auth sync carries the version of the user table it was built
      from, and so does a config deploy to a node that authorises locally. */
  datatype Job =
    | SyncAuth(version: nat)
    | Deploy(users: Option<nat>)
    | KickClients
    | Other(opcode: nat)

  /** The version of the users that come with a task. */
  function Carries(job: Job): Option<nat> {
    match job
    case SyncAuth(version) => Some(version)
    case Deploy(users) => users
    case _ => None
  }

  /** Executing the job replaces the agent's users. A sync does nothing else; a deploy replaces them
      first, and may still fail afterwards. */
  predicate Replaces(job: Job, ok: bool, stored: bool) {
    match job
    case SyncAuth(_) => ok
    case Deploy(users) => users.Some? && (ok || stored)
    case _ => false
  }

  datatype Task = Task(job: Job, status: Status, created: int, expires: int)

  const SYNC_TTL: int := 300
  const KICK_TTL: int := 180
  const DEPLOY_TTL: int := 300

  // ---------------------------------------------------------------- the table

  function Expiry(now: int, ttl: int): int { now + if ttl < 10 then 120 else ttl }

  predicate Due(t: Task, now: int) { t.status == Pending && t.expires >= now }

  /** ORDER BY id LIMIT 1 over the pending tasks that have not expired; the table's length when
      there is none. */
  function FirstDue(tasks: seq<Task>, now: int, start: nat): (p: nat)
    requires start <= |tasks|
    ensures start <= p <= |tasks| && (p < |tasks| ==> Due(tasks[p], now))
    ensures forall k | start <= k < p :: !Due(tasks[k], now)
    decreases |tasks| - start
  {
    if start == |tasks| || Due(tasks[start], now) then start else FirstDue(tasks, now, start + 1)
  }

  function Marked(tasks: seq<Task>, p: nat, status: Status): seq<Task>
    requires p < |tasks|
  {
    tasks[p := tasks[p].(status := status)]
  }

  /** Tasks i and j can be the sync and the kick of one refresh. */
  predicate IsRefresh(tasks: seq<Task>, i: nat, j: nat) {
    && i < j < |tasks| && tasks[i].job.SyncAuth? && tasks[j].job.KickClients?
    && tasks[i].expires == tasks[i].created + SYNC_TTL
    && tasks[j].expires == tasks[j].created + KICK_TTL
  }

  class TaskTable {
    var tasks: seq<Task>

    constructor ()
      ensures tasks == []
    {
      tasks := [];
    }

    method Enqueue(job: Job, now: int, ttl: int) returns (p: nat)
      modifies this
      ensures p == |old(tasks)|
      ensures tasks == old(tasks) + [Task(job, Pending, now, now + if ttl < 10 then 120 else ttl)]
    {
      var lifetime := ttl;
      if lifetime < 10 {
        lifetime := 120;
      }
      p := |tasks|;
      tasks := tasks + [Task(job, Pending, now, now + lifetime)];
    }

    /** Hands out the first due task and marks it running. */
    method Pull(now: int) returns (p: Option<nat>)
      modifies this
      ensures var first := FirstDue(old(tasks), now, 0);
              if first == |old(tasks)| then p == None && tasks == old(tasks)
              else p == Some(first) && tasks == Marked(old(tasks), first, Running)
      ensures p.Some? ==>
                && p.value < |old(tasks)| && tasks[p.value].expires >= now
                && old(tasks)[p.value].status == Pending
                && tasks == old(tasks)[p.value := old(tasks)[p.value].(status := Running)]
      ensures forall k | 0 <= k < (if p.Some? then p.value else |tasks|) ::
                tasks[k].status != Pending || tasks[k].expires < now
    {
      var k := 0;
      while k < |tasks| && !Due(tasks[k], now)
        invariant k <= |tasks| && FirstDue(tasks, now, 0) == FirstDue(tasks, now, k)
      {
        k := k + 1;
      }
      if k == |tasks| {
        return None;
      }
      tasks := Marked(tasks, k, Running);
      return Some(k);
    }

    /** Records a result. There is no check of the status before. */
    method Complete(p: nat, ok: bool) returns (known: bool)
      modifies this
      ensures known == (p < |old(tasks)|)
      ensures tasks == if known then Marked(old(tasks), p, if ok then Done else Error)
                                else old(tasks)
    {
      if p >= |tasks| {
        return false;
      }
      tasks := Marked(tasks, p, if ok then Done else Error);
      return true;
    }

    /** A sync with the current users and, if there is anyone to disconnect, a kick behind it. The
        kick is queued even when the users could not be read (no version) and so no sync is. The
        clock may have moved on between the two inserts. */
    method QueueLocalAuthRefresh(version: Option<nat>, kick: bool, now: int, later: int)
      returns (sync: Option<nat>, kicked: Option<nat>)
      requires now <= later
      modifies this
      ensures tasks == old(tasks) + (match version
                                     case Some(v) => [Task(SyncAuth(v), Pending, now, now + 300)]
                                     case None => [])
                       + if kick then [Task(KickClients, Pending, later, later + 180)] else []
      ensures sync == if version.Some? then Some(|old(tasks)|) else None
      ensures kicked == if kick then Some(|tasks| - 1) else None
      ensures sync.Some? && kicked.Some? ==> IsRefresh(tasks, sync.value, kicked.value)
    {
      sync, kicked := None, None;
      if version.Some? {
        var p := Enqueue(SyncAuth(version.value), now, SYNC_TTL);
        sync := Some(p);
      }
      if kick {
        var p := Enqueue(KickClients, later, KICK_TTL);
        kicked := Some(p);
      }
    }

    /** A config deploy with the users read when its payload was built; none is queued when they could
        not be read. */
    method QueueConfigDeploy(version: Option<nat>, now: int) returns (deploy: Option<nat>)
      modifies this
      ensures deploy == if version.Some? then Some(|old(tasks)|) else None
      ensures tasks == old(tasks) + if version.Some?
                                    then [Task(Deploy(version), Pending, now, now + 300)]
                                    else []
    {
      if version.None? {
        return None;
      }
      var p := Enqueue(Deploy(version), now, DEPLOY_TTL);
      deploy := Some(p);
    }
  }

  // ---------------------------------------------------------------- panel and agent

  datatype Agent = Idle | Executing(task: nat)

  /** dispatched, executed and applied list tasks in the order in which the panel handed them out,
      the agent finished executing them, and they replaced the agent's stored users; succeeded holds
      the executed ones that ended without an error; reports are
      the completions on their way. */
  datatype State = State(
    tasks: seq<Task>,
    clock: int,
    agent: Agent,
    dispatched: seq<nat>,
    executed: seq<nat>,
    applied: seq<nat>,
    succeeded: set<nat>,
    reports: map<nat, bool>)

  /** stored says of a deploy that fails whether the users were replaced before, and of an agent that
      dies in the middle of a task whether it had stored the users by then; it loads what is stored
      when it is started again. */
  datatype Event =
    | Wait(seconds: nat)
    | Enqueue(job: Job, ttl: int)
    | Pull(delivered: bool)
    | Execute(ok: bool, stored: bool)
    | Die(stored: bool)
    | Report(task: nat)
    | LoseReport(task: nat)

  function Start(clock: int): State { State([], clock, Idle, [], [], [], {}, map[]) }

  function Step(s: State, e: Event): State {
    match e
    case Wait(d) => s.(clock := s.clock + d)
    case Enqueue(job, ttl) =>
      s.(tasks := s.tasks + [Task(job, Pending, s.clock, Expiry(s.clock, ttl))])
    case Pull(delivered) =>
      var p := FirstDue(s.tasks, s.clock, 0);
      if !s.agent.Idle? || p == |s.tasks| then s
      else s.(tasks := Marked(s.tasks, p, Running), dispatched := s.dispatched + [p],
              agent := if delivered then Executing(p) else Idle)
    case Execute(ok, stored) =>
      if s.agent.Idle? || s.agent.task >= |s.tasks| then s
      else
        var p := s.agent.task;
        s.(agent := Idle, executed := s.executed + [p], reports := s.reports[p := ok],
           succeeded := if ok then s.succeeded + {p} else s.succeeded,
           applied := if Replaces(s.tasks[p].job, ok, stored) then s.applied + [p] else s.applied)
    case Die(stored) =>
      if s.agent.Idle? || s.agent.task >= |s.tasks| then s
      else
        var p := s.agent.task;
        s.(agent := Idle,
           applied := if stored && Carries(s.tasks[p].job).Some? then s.applied + [p]
                      else s.applied)
    case Report(p) =>
      if p in s.reports && p < |s.tasks| then
        s.(tasks := Marked(s.tasks, p, if s.reports[p] then Done else Error),
           reports := s.reports - {p})
      else s
    case LoseReport(p) => s.(reports := s.reports - {p})
  }

  function Run(s: State, events: seq<Event>): State {
    if events == [] then s else Step(Run(s, events[..|events| - 1]), events[|events| - 1])
  }

  predicate Ascending(q: seq<nat>) { forall i, j | 0 <= i < j < |q| :: q[i] < q[j] }

  function Last(q: seq<nat>): int { if q == [] then -1 else q[|q| - 1] }

  /** A task left behind by a later dispatch has expired for good, and one that lives at least as
      long as a dispatched later task was dispatched too. */
  predicate InOrder(s: State) {
    && Ascending(s.dispatched) && Ascending(s.executed) && Ascending(s.applied)
    && (forall p <- s.dispatched :: p < |s.tasks|)
    && (forall p <- s.executed :: p in s.dispatched)
    && (forall p <- s.applied :: p in s.dispatched && Carries(s.tasks[p].job).Some?)
    && (forall p | 0 <= p < |s.tasks| :: s.tasks[p].status == Pending <==> p !in s.dispatched)
    && (forall p | 0 <= p < Last(s.dispatched) && p < |s.tasks| :: !Due(s.tasks[p], s.clock))
    && (forall i, j | 0 <= i < j < |s.tasks| && s.tasks[i].expires >= s.tasks[j].expires ::
          j in s.dispatched ==> i in s.dispatched)
  }

  /** A result is on its way or recorded only for a task the agent finished, and is recorded once:
      until then the task is running. */
  predicate Reported(s: State) {
    && (s.agent.Executing? ==>
          s.agent.task == Last(s.dispatched)
          && s.agent.task !in s.executed && s.agent.task !in s.applied)
    && (forall p | p in s.reports ::
          p in s.executed && p < |s.tasks| && s.tasks[p].status == Running
          && (s.reports[p] <==> p in s.succeeded))
    && (forall p | 0 <= p < |s.tasks| && (s.tasks[p].status == Done || s.tasks[p].status == Error) ::
          p in s.executed && p !in s.reports
          && (s.tasks[p].status == Done <==> p in s.succeeded))
    && (forall p <- s.succeeded :: p in s.executed)
    && (forall p <- s.executed :: p <= Last(s.dispatched))
  }

  predicate Sound(s: State) { InOrder(s) && Reported(s) }

  lemma AscendingLast(q: seq<nat>, p: nat)
    requires Ascending(q) && p in q
    ensures p <= Last(q)
  {
  }

  lemma Appended(q: seq<nat>, p: nat)
    requires Ascending(q) && forall x <- q :: x < p
    ensures Ascending(q + [p]) && forall x :: x in q + [p] <==> x in q || x == p
  {
    forall i | 0 <= i < |q| ensures q[i] < p {
      assert q[i] in q;
    }
    assert (q + [p])[|q|] == p;
  }

  lemma StepIsSound(s: State, e: Event)
    requires Sound(s)
    ensures Sound(Step(s, e))
  {
    match e
    case Enqueue(job, ttl) => EnqueueIsSound(s, job, ttl);
    case Pull(delivered) => PullIsSound(s, delivered);
    case Execute(ok, stored) => ExecuteIsSound(s, ok, stored);
    case Die(stored) => DieIsSound(s, stored);
    case Report(p) => ReportIsSound(s, p);
    case LoseReport(_) =>
    case Wait(_) =>
  }

  lemma EnqueueIsSound(s: State, job: Job, ttl: int)
    requires Sound(s)
    ensures Sound(Step(s, Enqueue(job, ttl)))
  {
    if s.dispatched != [] {
      assert s.dispatched[|s.dispatched| - 1] in s.dispatched;
    }
  }

  lemma FirstDueIsLater(s: State)
    requires Sound(s)
    ensures var p := FirstDue(s.tasks, s.clock, 0);
            p < |s.tasks| ==> Last(s.dispatched) < p && forall q <- s.dispatched :: q < p
  {
    var p := FirstDue(s.tasks, s.clock, 0);
    if p < |s.tasks| && s.dispatched != [] {
      assert s.dispatched[|s.dispatched| - 1] in s.dispatched;
      assert p !in s.dispatched;
      assert !(p < Last(s.dispatched));
      forall q <- s.dispatched ensures q < p {
        AscendingLast(s.dispatched, q);
      }
    }
  }

  lemma PullKeepsOrder(s: State, t: State, p: nat)
    requires Sound(s) && p == FirstDue(s.tasks, s.clock, 0) < |s.tasks|
    requires t.tasks == Marked(s.tasks, p, Running) && t.dispatched == s.dispatched + [p]
    requires t.clock == s.clock && t.executed == s.executed && t.applied == s.applied
    ensures InOrder(t)
  {
    FirstDueIsLater(s);
    Appended(s.dispatched, p);
    forall k | 0 <= k < |t.tasks| && k != p ensures t.tasks[k] == s.tasks[k] {
    }
    forall k | 0 <= k < p ensures !Due(t.tasks[k], t.clock) {
      assert !Due(s.tasks[k], s.clock);
    }
    forall i, j | 0 <= i < j < |t.tasks| && t.tasks[i].expires >= t.tasks[j].expires
      ensures j in t.dispatched ==> i in t.dispatched
    {
      if j == p {
        assert !Due(s.tasks[i], s.clock);
      }
    }
  }

  lemma PullKeepsReports(s: State, t: State, p: nat)
    requires Sound(s) && s.agent.Idle? && p == FirstDue(s.tasks, s.clock, 0) < |s.tasks|
    requires t.tasks == Marked(s.tasks, p, Running) && t.dispatched == s.dispatched + [p]
    requires t.executed == s.executed && t.applied == s.applied && t.reports == s.reports
    requires t.succeeded == s.succeeded
    requires t.agent == Idle || t.agent == Executing(p)
    ensures Reported(t)
  {
    FirstDueIsLater(s);
    assert p !in s.dispatched && p !in s.executed && p !in s.applied;
    forall k | 0 <= k < |t.tasks| && k != p ensures t.tasks[k] == s.tasks[k] {
    }
    assert Last(t.dispatched) == p;
  }

  lemma PullIsSound(s: State, delivered: bool)
    requires Sound(s)
    ensures Sound(Step(s, Pull(delivered)))
  {
    var p := FirstDue(s.tasks, s.clock, 0);
    if s.agent.Idle? && p < |s.tasks| {
      PullKeepsOrder(s, Step(s, Pull(delivered)), p);
      PullKeepsReports(s, Step(s, Pull(delivered)), p);
    }
  }

  /** What the agent executes is newer than all it has executed and applied. */
  lemma ExecutingIsNewest(s: State)
    requires Sound(s) && s.agent.Executing? && s.agent.task < |s.tasks|
    ensures s.agent.task in s.dispatched
    ensures forall q <- s.executed + s.applied :: q < s.agent.task
  {
    assert s.dispatched[|s.dispatched| - 1] == s.agent.task;
    forall q <- s.executed + s.applied ensures q < s.agent.task {
      AscendingLast(s.dispatched, q);
    }
  }

  lemma DieIsSound(s: State, stored: bool)
    requires Sound(s)
    ensures Sound(Step(s, Die(stored)))
  {
    if s.agent.Executing? && s.agent.task < |s.tasks| {
      ExecutingIsNewest(s);
      assert forall q <- s.applied :: q in s.executed + s.applied;
      Appended(s.applied, s.agent.task);
    }
  }

  /** A new status for a task handed out before does not touch the order. */
  lemma MarkKeepsOrder(s: State, t: State, p: nat, status: Status)
    requires InOrder(s) && p in s.dispatched && status != Pending
    requires p < |s.tasks| && t.tasks == Marked(s.tasks, p, status) && t.clock == s.clock
    requires t.dispatched == s.dispatched && t.executed == s.executed && t.applied == s.applied
    ensures InOrder(t)
  {
    forall k | 0 <= k < |t.tasks|
      ensures t.tasks[k].job == s.tasks[k].job && t.tasks[k].expires == s.tasks[k].expires
      ensures t.tasks[k].status == if k == p then status else s.tasks[k].status
    {
    }
  }

  lemma ReportIsSound(s: State, p: nat)
    requires Sound(s)
    ensures Sound(Step(s, Report(p)))
  {
    if p in s.reports && p < |s.tasks| {
      assert p in s.dispatched;
      MarkKeepsOrder(s, Step(s, Report(p)), p, if s.reports[p] then Done else Error);
    }
  }

  lemma ExecuteKeepsOrder(s: State, t: State)
    requires Sound(s) && s.agent.Executing? && s.agent.task < |s.tasks|
    requires t.tasks == s.tasks && t.clock == s.clock && t.dispatched == s.dispatched
    requires t.executed == s.executed + [s.agent.task]
    requires || t.applied == s.applied
             || (t.applied == s.applied + [s.agent.task]
                 && Carries(s.tasks[s.agent.task].job).Some?)
    ensures InOrder(t)
  {
    var p := s.agent.task;
    ExecutingIsNewest(s);
    assert forall q <- s.executed :: q in s.executed + s.applied;
    assert forall q <- s.applied :: q in s.executed + s.applied;
    Appended(s.executed, p);
    Appended(s.applied, p);
  }

  lemma ExecuteKeepsReports(s: State, t: State, ok: bool)
    requires Sound(s) && s.agent.Executing? && s.agent.task < |s.tasks| && t.agent == Idle
    requires t.tasks == s.tasks && t.dispatched == s.dispatched
    requires t.executed == s.executed + [s.agent.task] && t.reports == s.reports[s.agent.task := ok]
    requires t.succeeded == if ok then s.succeeded + {s.agent.task} else s.succeeded
    ensures Reported(t)
  {
    var p := s.agent.task;
    ExecutingIsNewest(s);
    assert forall q <- s.executed :: q in s.executed + s.applied;
    Appended(s.executed, p);
  }

  lemma ExecuteIsSound(s: State, ok: bool, stored: bool)
    requires Sound(s)
    ensures Sound(Step(s, Execute(ok, stored)))
  {
    if s.agent.Executing? && s.agent.task < |s.tasks| {
      ExecuteKeepsOrder(s, Step(s, Execute(ok, stored)));
      ExecuteKeepsReports(s, Step(s, Execute(ok, stored)), ok);
    }
  }

  lemma {:induction false} EveryRunIsSound(clock: int, events: seq<Event>)
    ensures Sound(Run(Start(clock), events))
  {
    if events != [] {
      EveryRunIsSound(clock, events[..|events| - 1]);
      StepIsSound(Run(Start(clock), events[..|events| - 1]), events[|events| - 1]);
    }
  }

  /** In every run the tasks handed out, executed and applied are in strictly increasing order:
      none is handed out or executed twice, and users never overwrite those queued after them, even
      if the agent dies between storing them and reporting. */
  lemma TasksRunOnceAndInOrder(clock: int, events: seq<Event>)
    ensures var s := Run(Start(clock), events);
            && Ascending(s.dispatched) && Ascending(s.executed) && Ascending(s.applied)
            && (forall p <- s.applied :: p in s.dispatched)
            && (forall p <- s.executed :: p in s.dispatched)
  {
    EveryRunIsSound(clock, events);
  }

  predicate Forward(before: Status, after: Status) {
    || before == after
    || (before == Pending && after == Running)
    || (before == Running && (after == Done || after == Error))
  }

  /** In every run each step moves each task's status at most one place along pending, running,
      then done or error, although recording a result checks no status. */
  lemma StatusOnlyMovesForward(clock: int, events: seq<Event>, e: Event, p: nat)
    requires p < |Run(Start(clock), events).tasks|
    ensures var s := Run(Start(clock), events);
            var t := Step(s, e);
            p < |t.tasks| && Forward(s.tasks[p].status, t.tasks[p].status)
            && t.tasks[p].job == s.tasks[p].job && t.tasks[p].expires == s.tasks[p].expires
  {
    EveryRunIsSound(clock, events);
  }

  /** In every run a task is done only if the agent executed it without an error, in error only if it
      executed it with one, and a result still on its way says the same. */
  lemma ResultsAreTrue(clock: int, events: seq<Event>, p: nat)
    requires p < |Run(Start(clock), events).tasks|
    ensures var s := Run(Start(clock), events);
            && (s.tasks[p].status == Done ==> p in s.executed && p in s.succeeded)
            && (s.tasks[p].status == Error ==> p in s.executed && p !in s.succeeded)
            && (p in s.reports ==> (s.reports[p] <==> p in s.succeeded))
  {
    EveryRunIsSound(clock, events);
  }

  /** Executing a task with a result, and the result arriving: done or error accordingly. */
  lemma ResultsArrive(clock: int, events: seq<Event>, ok: bool, stored: bool)
    requires Run(Start(clock), events).agent.Executing?
    ensures var s := Run(Start(clock), events);
            var p := s.agent.task;
            var t := Step(s, Execute(ok, stored));
            && p < |s.tasks| && t.agent == Idle && t.tasks == s.tasks
            && (p in t.succeeded <==> ok) && p in t.executed
            && t.applied == (match s.tasks[p].job
                             case SyncAuth(_) => if ok then s.applied + [p] else s.applied
                             case Deploy(Some(_)) => if ok || stored then s.applied + [p] else s.applied
                             case _ => s.applied)
            && p !in Step(t, Report(p)).reports && p !in Step(t, LoseReport(p)).reports
            && Step(t, LoseReport(p)).tasks == t.tasks
            && Step(t, Report(p)).tasks
               == s.tasks[p := s.tasks[p].(status := if ok then Done else Error)]
  {
    EveryRunIsSound(clock, events);
    var s := Run(Start(clock), events);
    assert s.dispatched[|s.dispatched| - 1] in s.dispatched;
  }

  /** A death in the middle of a task leaves no result; users stored by then stay. */
  lemma DeathsLeaveNoResult(clock: int, events: seq<Event>, stored: bool)
    requires Run(Start(clock), events).agent.Executing?
    ensures var s := Run(Start(clock), events);
            var p := s.agent.task;
            var t := Step(s, Die(stored));
            && p < |s.tasks| && t.agent == Idle && t.tasks == s.tasks && t.executed == s.executed
            && t.reports == s.reports && t.succeeded == s.succeeded
            && t.applied == if stored && (s.tasks[p].job.SyncAuth?
                                          || (s.tasks[p].job.Deploy? && s.tasks[p].job.users.Some?))
                            then s.applied + [p] else s.applied
  {
    EveryRunIsSound(clock, events);
    var s := Run(Start(clock), events);
    assert s.dispatched[|s.dispatched| - 1] in s.dispatched;
  }

  /** A task queued in a run waits with the lifetime asked for, one below ten seconds being two
      minutes. */
  lemma QueuedTaskWaits(clock: int, events: seq<Event>, job: Job, ttl: int)
    ensures var s := Run(Start(clock), events);
            Step(s, Enqueue(job, ttl))
            == s.(tasks := s.tasks + [Task(job, Pending, s.clock,
                                           s.clock + if ttl < 10 then 120 else ttl)])
  {
  }

  /** The run's pull hands out the first task that waits and has not expired, or leaves all as it is. */
  lemma PullHandsOutTheFirst(clock: int, events: seq<Event>, delivered: bool)
    requires Run(Start(clock), events).agent == Idle
    ensures var s := Run(Start(clock), events);
            var t := Step(s, Pull(delivered));
            || (t == s && forall k | 0 <= k < |s.tasks| ::
                            s.tasks[k].status != Pending || s.tasks[k].expires < s.clock)
            || exists p: nat ::
                 && p < |s.tasks| && s.tasks[p].status == Pending && s.tasks[p].expires >= s.clock
                 && (forall k | 0 <= k < p ::
                       s.tasks[k].status != Pending || s.tasks[k].expires < s.clock)
                 && t.tasks == s.tasks[p := s.tasks[p].(status := Running)]
                 && t.dispatched == s.dispatched + [p]
                 && t.agent == if delivered then Executing(p) else Idle
  {
    var s := Run(Start(clock), events);
    var p := FirstDue(s.tasks, s.clock, 0);
    forall k | 0 <= k < p ensures s.tasks[k].status != Pending || s.tasks[k].expires < s.clock {
      assert !Due(s.tasks[k], s.clock);
    }
  }

  // ---------------------------------------------------------------- sync before kick

  /** Whenever a task has been handed out, every earlier task that expires no sooner was handed out
      before it. */
  lemma LongerLivedGoFirst(clock: int, events: seq<Event>, i: nat, j: nat)
    requires var s := Run(Start(clock), events);
             && i < j < |s.tasks| && s.tasks[i].expires >= s.tasks[j].expires
             && j in s.dispatched
    ensures var s := Run(Start(clock), events);
            exists a, b :: 0 <= a < b < |s.dispatched| && s.dispatched[a] == i && s.dispatched[b] == j
  {
    EveryRunIsSound(clock, events);
    var s := Run(Start(clock), events);
    var a :| 0 <= a < |s.dispatched| && s.dispatched[a] == i;
    var b :| 0 <= b < |s.dispatched| && s.dispatched[b] == j;
  }

  /** If the two inserts of a refresh are at most 120 seconds apart then in every run in which the
      kick has been handed out the sync was handed out before it. */
  lemma SyncIsDispatchedBeforeItsKick(clock: int, events: seq<Event>, sync: nat, kick: nat)
    requires var s := Run(Start(clock), events);
             && IsRefresh(s.tasks, sync, kick) && kick in s.dispatched
             && s.tasks[kick].created - s.tasks[sync].created <= 120
    ensures var s := Run(Start(clock), events);
            exists a, b ::
              0 <= a < b < |s.dispatched| && s.dispatched[a] == sync && s.dispatched[b] == kick
  {
    LongerLivedGoFirst(clock, events, sync, kick);
  }

  /** Beyond 120 seconds the order is lost: wait until the sync has expired and pull. */
  lemma SlowRefreshCanKickFirst(clock: int, version: nat, gap: nat)
    requires gap > 120
    ensures exists events: seq<Event> ::
              var s := Run(Start(clock), events);
              && IsRefresh(s.tasks, 0, 1) && s.tasks[0].job == SyncAuth(version)
              && s.tasks[1].created - s.tasks[0].created == gap
              && s.dispatched == [1] && s.tasks[0].status == Pending
  {
    var more := if gap > 301 then 0 else 301 - gap;
    var events := [Enqueue(SyncAuth(version), SYNC_TTL), Wait(gap), Enqueue(KickClients, KICK_TTL),
                   Wait(more), Pull(true)];
    var s0 := Start(clock);
    var s1 := Step(s0, events[0]);
    var s2 := Step(s1, events[1]);
    var s3 := Step(s2, events[2]);
    var s4 := Step(s3, events[3]);
    assert Run(s0, events[..0]) == s0;
    assert events[..1][..0] == events[..0] && Run(s0, events[..1]) == s1;
    assert events[..2][..1] == events[..1] && Run(s0, events[..2]) == s2;
    assert events[..3][..2] == events[..2] && Run(s0, events[..3]) == s3;
    assert events[..4][..3] == events[..3] && Run(s0, events[..4]) == s4;
    assert !Due(s4.tasks[0], s4.clock) && Due(s4.tasks[1], s4.clock);
    assert FirstDue(s4.tasks, s4.clock, 0) == FirstDue(s4.tasks, s4.clock, 1) == 1;
    assert Run(s0, events) == Step(s4, events[4]);
  }
}
