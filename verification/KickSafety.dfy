/** What a kick is for: the users it disconnects cannot come back. Versions of the user table, which
    the task queue only numbers, stand here for the tables themselves. */
module KickSafety {
  import opened Text
  import TaskQueue
  import AgentUsers
  import LocalAuth

  /** The user table in each version. */
  type Tables = nat -> seq<LocalAuth.User>

  /** The answer of an agent in this state, whatever its heartbeat guard says. */
  function Answer(s: TaskQueue.State, tables: Tables, guardActive: bool, presented: string, now: int)
    : LocalAuth.Decision
  {
    var held := AgentUsers.HeldVersion(s);
    var users := if held.Some? then LocalAuth.ByCredential(tables(held.value)) else map[];
    LocalAuth.AgentDecision(users, guardActive, presented, now)
  }

  /** The panel rejects the credential in this version of a table in which credentials are unique. */
  predicate PanelRejects(tables: Tables, version: nat, presented: string, now: int) {
    && LocalAuth.UniqueCredentials(tables(version))
    && (forall u <- tables(version) :: LocalAuth.WellKept(u))
    && LocalAuth.PanelDecision(tables(version), Trim(presented), now).Reject?
  }

  /** From the moment the kick of a refresh whose inserts were at most 120 seconds apart is handed out,
      during the kick and for the rest of the run, the agent rejects every credential that the panel
      rejects in the users of the sync and in all users queued after it, provided the sync, once
      handed out, reached the agent and succeeded. So a client disconnected by the kick is refused
      when it returns. */
  lemma KickedUsersAreRejected(
    clock: int, events: seq<TaskQueue.Event>, sync: nat, kick: nat,
    tables: Tables, guardActive: bool, presented: string, now: int)
    requires var s := TaskQueue.Run(TaskQueue.Start(clock), events);
             && TaskQueue.IsRefresh(s.tasks, sync, kick) && kick in s.dispatched
             && s.tasks[kick].created - s.tasks[sync].created <= 120
             && (sync in s.dispatched ==> sync in s.applied)
             && forall k | sync <= k < |s.tasks| && TaskQueue.Carries(s.tasks[k].job).Some? ::
                  PanelRejects(tables, TaskQueue.Carries(s.tasks[k].job).value, presented, now)
    ensures var s := TaskQueue.Run(TaskQueue.Start(clock), events);
            Answer(s, tables, guardActive, presented, now).Reject?
  {
    TaskQueue.SyncIsDispatchedBeforeItsKick(clock, events, sync, kick);
    var last := AgentUsers.HeldComesFrom(clock, events, sync);
    var held := AgentUsers.HeldVersion(TaskQueue.Run(TaskQueue.Start(clock), events));
    LocalAuth.AgentAgreesWithPanel(tables(held.value), presented, now);
  }

  /** The agent itself rejects the credential when it holds this version. */
  function AgentRejects(tables: Tables, presented: string, now: int): nat -> bool {
    (version: nat) =>
      LocalAuth.AgentDecision(LocalAuth.ByCredential(tables(version)), false, presented, now).Reject?
  }

  /** For every list of waiting tasks with a sync and a kick behind it: once the sync was applied the
      agent rejects the credential from the kick on, in every run, if and only if it does so with the
      users of the sync and of every task queued after it. */
  lemma KickIsSafeExactly(
    clock: int, queue: AgentUsers.Queue, sync: nat, kick: nat, tables: Tables, presented: string,
    now: int)
    requires sync < kick < |queue| && AgentUsers.UsersOf(queue, sync).Some?
    ensures (forall events | AgentUsers.NoMoreUsers(events) ::
               var s := TaskQueue.Run(TaskQueue.Start(clock), AgentUsers.Queued(queue) + events);
               kick in s.dispatched && sync in s.applied ==>
                 Answer(s, tables, false, presented, now).Reject?)
            <==> forall k | sync <= k < |queue| && AgentUsers.UsersOf(queue, k).Some? ::
                   AgentRejects(tables, presented, now)(AgentUsers.UsersOf(queue, k).value)
  {
    var good := AgentRejects(tables, presented, now);
    AgentUsers.GoodExactly(clock, queue, sync, kick, good);
    forall events | AgentUsers.NoMoreUsers(events)
      ensures var s := TaskQueue.Run(TaskQueue.Start(clock), AgentUsers.Queued(queue) + events);
              sync in s.applied ==>
                && AgentUsers.HeldVersion(s).Some?
                && (good(AgentUsers.HeldVersion(s).value)
                    <==> Answer(s, tables, false, presented, now).Reject?)
    {
      var all := AgentUsers.Queued(queue) + events;
      if sync in TaskQueue.Run(TaskQueue.Start(clock), all).applied {
        var last := AgentUsers.HeldComesFrom(clock, all, sync);
      }
    }
  }
}
