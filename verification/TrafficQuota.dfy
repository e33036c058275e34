/** Traffic accounting per user: a clearing sync moves the node's counters into the user table, and
    both the sync and the heartbeat suspend users who have used up their quota. Operators, who may
    change a row in any way, are not part of the runs below. */
module TrafficQuota {

  const GIGABYTE: nat := 0x4000_0000

  datatype User = User(quotaGb: nat, used: nat, suspended: bool)

  type Table = map<string, User>

  function Quota(u: User): nat { u.quotaGb * GIGABYTE }

  /** What the database does for one user: every statement works; the bytes are counted, but reading
      the row back or suspending it fails; or the very UPDATE that counts the bytes is refused. */
  datatype Outcome = Stored | Unchecked | Refused

  type Database = string -> Outcome

  /** The row after a sync that reports so many bytes. The row is read again after the UPDATE and
      the reported bytes are added once more for the comparison. */
  function AfterUsage(u: User, bytes: nat): User {
    var updated := Counted(u, bytes);
    var next := updated.used + bytes;
    if u.quotaGb > 0 && next >= Quota(u) && !u.suspended then updated.(suspended := true)
    else updated
  }

  function Counted(u: User, bytes: nat): User { u.(used := u.used + bytes) }

  /** The row after a heartbeat that reports the live counter. */
  function AfterHeartbeat(u: User, live: nat): User {
    if u.suspended || u.quotaGb == 0 || u.used + live < Quota(u) then u else u.(suspended := true)
  }

  /** The table after the listed payload entries have been counted. */
  function Applied(t: Table, payload: map<string, nat>, names: set<string>, db: Database): Table
    requires names <= payload.Keys
  {
    map name | name in t ::
      if name !in names then t[name]
      else if db(name).Stored? then AfterUsage(t[name], payload[name])
      else Counted(t[name], payload[name])
  }

  function Enforced(t: Table, payload: map<string, nat>, names: set<string>, db: Database): Table
    requires names <= payload.Keys
  {
    map name | name in t ::
      if name in names && db(name).Stored? then AfterHeartbeat(t[name], payload[name]) else t[name]
  }

  function NewlySuspended(before: Table, after: Table): set<string> {
    set name | name in before && name in after && !before[name].suspended && after[name].suspended
  }

  class Accounting {
    var users: Table

    constructor (users: Table)
      ensures this.users == users
    {
      this.users := users;
    }

    /** Applies a traffic payload entry by entry in an arbitrary order; a refused UPDATE ends it. The
        users to kick are known only at the end. */
    method ApplyTrafficUsage(payload: map<string, nat>, db: Database)
      returns (ok: bool, kicked: set<string>)
      modifies this
      ensures ok <==> forall name <- payload :: db(name) != Refused
      ensures ok ==> users == Applied(old(users), payload, payload.Keys, db)
      ensures ok ==> kicked == NewlySuspended(old(users), users)
      ensures !ok ==> kicked == {} && exists done: set<string> ::
                done < payload.Keys && users == Applied(old(users), payload, done, db)
    {
      var rest := payload.Keys;
      ghost var start := users;
      kicked := {};
      while rest != {}
        invariant rest <= payload.Keys
        invariant users == Applied(start, payload, payload.Keys - rest, db)
        invariant kicked == NewlySuspended(start, users)
        invariant forall name <- payload.Keys - rest :: db(name) != Refused
        decreases rest
      {
        var name :| name in rest;
        if db(name) == Refused {
          assert payload.Keys - rest < payload.Keys;
          return false, {};
        }
        rest := rest - {name};
        if name in users {
          var bytes := payload[name];
          users := users[name := users[name].(used := users[name].used + bytes)];
          if db(name) == Unchecked {
            continue;
          }
          var user := users[name];
          var next := user.used + bytes;
          if user.quotaGb > 0 && next >= Quota(user) && !user.suspended {
            users := users[name := user.(suspended := true)];
            kicked := kicked + {name};
          }
        }
      }
      assert payload.Keys - rest == payload.Keys;
      ok := true;
    }

    /** Suspends, at a heartbeat, the active users whose live traffic reaches their quota, as far as
        the database answers. */
    method EnforceRealtimeQuota(payload: map<string, nat>, db: Database)
      returns (kicked: set<string>)
      modifies this
      ensures users == Enforced(old(users), payload, payload.Keys, db)
      ensures kicked == NewlySuspended(old(users), users)
    {
      var rest := payload.Keys;
      ghost var start := users;
      kicked := {};
      while rest != {}
        invariant rest <= payload.Keys
        invariant users == Enforced(start, payload, payload.Keys - rest, db)
        invariant kicked == NewlySuspended(start, users)
        decreases rest
      {
        var name :| name in rest;
        rest := rest - {name};
        if name in users && db(name).Stored? {
          var user := users[name];
          if user.suspended || user.quotaGb == 0 {
            continue;
          }
          if user.used + payload[name] < Quota(user) {
            continue;
          }
          users := users[name := user.(suspended := true)];
          kicked := kicked + {name};
        }
      }
      assert payload.Keys - rest == payload.Keys;
    }
  }

  // ---------------------------------------------------------------- one sync

  /** A delivered sync on one reported user, with used the bytes after it: at or over the quota the
      user ends suspended; a fresh suspension happens exactly when used is at most one reported
      amount short of the quota, so it is early exactly when used is still below the quota; and
      nobody is reactivated. */
  lemma SyncSuspends(u: User, bytes: nat)
    ensures var v, quota := AfterUsage(u, bytes), u.quotaGb * 0x4000_0000;
            && v.used == u.used + bytes && v.quotaGb == u.quotaGb
            && (u.suspended ==> v.suspended)
            && (u.quotaGb > 0 && v.used >= quota ==> v.suspended)
            && (v.suspended && !u.suspended <==>
                  !u.suspended && u.quotaGb > 0 && v.used >= quota - bytes)
            && (v.suspended && !u.suspended && v.used < quota <==>
                  !u.suspended && u.quotaGb > 0
                  && quota - 2 * bytes <= u.used < quota - bytes)
  {
  }

  /** A heartbeat on one reported user: nothing is counted, and the user is suspended afterwards exactly
      when that was so before or the counted and the live bytes together reach the quota. */
  lemma HeartbeatSuspends(u: User, live: nat)
    ensures var v := AfterHeartbeat(u, live);
            && v.used == u.used && v.quotaGb == u.quotaGb
            && (v.suspended <==>
                  u.suspended || (u.quotaGb > 0 && u.used + live >= u.quotaGb * 0x4000_0000))
  {
  }

  // ---------------------------------------------------------------- runs

  /** A report is counted to the end, or up to a refused UPDATE after some of its entries, or it never
      reaches the panel. */
  datatype Delivery = Delivered(db: Database) | Broken(applied: set<string>, db: Database) | Lost

  /** A clearing sync has two halves, the clear on the node and the count on the panel; a heartbeat is
      taken on the node and handled on the panel. Anything can fall between the two. */
  datatype Event =
    | Transfer(name: string, bytes: nat)
    | Clear
    | Count(report: nat, delivery: Delivery)
    | TakeHeartbeat
    | Heartbeat(beat: nat, db: Database)
    | RestartNode

  type Bytes = map<string, nat>

  /** The panel's table, the node's counters, the cleared counters not yet counted, the heartbeats
      taken, and for the proof the bytes each user has moved, those that were cleared on the node
      without reaching the table, and the users for whom the database failed after their bytes were
      last counted. */
  datatype State = State(
    users: Table, live: Bytes, reports: seq<Bytes>, beats: seq<Bytes>, moved: Bytes, lost: Bytes,
    overdue: set<string>)

  /** Who is overdue once some users have been looked at. */
  function StillOverdue(overdue: set<string>, seen: set<string>, db: Database): set<string> {
    overdue - seen + set name | name in seen && !db(name).Stored?
  }

  function At(m: Bytes, name: string): nat { if name in m then m[name] else 0 }

  function Add(m: Bytes, name: string, n: nat): Bytes { m[name := At(m, name) + n] }

  function AddAll(m: Bytes, more: Bytes, names: set<string>): Bytes {
    map name | name in m.Keys + more.Keys ::
      At(m, name) + if name in names then At(more, name) else 0
  }

  function Start(users: Table): State { State(users, map[], [], [], map[], map[], {}) }

  function Without(reports: seq<Bytes>, i: nat): seq<Bytes>
    requires i < |reports|
  {
    reports[..i] + reports[i + 1..]
  }

  /** What the panel makes of one report. */
  function Counting(s: State, payload: Bytes, delivery: Delivery): State {
    match delivery
    case Delivered(db) =>
      s.(users := Applied(s.users, payload, payload.Keys, db),
         overdue := StillOverdue(s.overdue, payload.Keys, db))
    case Broken(names, db) =>
      var applied := names * payload.Keys;
      s.(users := Applied(s.users, payload, applied, db),
         lost := AddAll(s.lost, payload, payload.Keys - applied),
         overdue := StillOverdue(s.overdue, applied, db))
    case Lost => s.(lost := AddAll(s.lost, payload, payload.Keys))
  }

  /** One step; an event about a report or a heartbeat that does not exist changes nothing. */
  function Step(s: State, e: Event): State {
    match e
    case Transfer(name, n) =>
      s.(live := Add(s.live, name, n), moved := Add(s.moved, name, n))
    case Clear => s.(reports := s.reports + [s.live], live := map[])
    case Count(i, delivery) =>
      if i >= |s.reports| then s
      else Counting(s.(reports := Without(s.reports, i)), s.reports[i], delivery)
    case TakeHeartbeat => s.(beats := s.beats + [s.live])
    case Heartbeat(i, db) =>
      if i >= |s.beats| then s
      else
        var payload := s.beats[i];
        var seen := set name | name in payload && db(name).Stored?;
        s.(users := Enforced(s.users, payload, payload.Keys, db), overdue := s.overdue - seen)
    case RestartNode => s.(live := map[], lost := AddAll(s.lost, s.live, s.live.Keys))
  }

  function Run(s: State, events: seq<Event>): State {
    if events == [] then s else Step(Run(s, events[..|events| - 1]), events[|events| - 1])
  }

  /** The bytes of a user in all reports on their way. */
  function InFlight(reports: seq<Bytes>, name: string): nat {
    if reports == [] then 0
    else InFlight(reports[..|reports| - 1], name) + At(reports[|reports| - 1], name)
  }

  lemma {:induction false} TakenOut(reports: seq<Bytes>, i: nat, name: string)
    requires i < |reports|
    ensures InFlight(reports, name) == InFlight(Without(reports, i), name) + At(reports[i], name)
  {
    var n := |reports| - 1;
    if i < n {
      TakenOut(reports[..n], i, name);
      var rest := Without(reports, i);
      assert rest[..n - 1] == Without(reports[..n], i) && rest[n - 1] == reports[n];
    } else {
      assert Without(reports, i) == reports[..n];
    }
  }

  predicate UsedUp(u: User) { u.quotaGb > 0 && u.used >= Quota(u) }

  /** Every byte of a known user is in the table, in a report, on the node's counter, or lost. A user
      whose counted bytes grew to the quota is suspended; one who is freshly suspended reached the
      quota if every byte moved is taken twice. */
  predicate Balanced(initial: Table, s: State, name: string) {
    && name in s.users && name in initial
    && s.users[name].used + InFlight(s.reports, name) + At(s.live, name) + At(s.lost, name)
       == initial[name].used + At(s.moved, name)
    && (forall i | 0 <= i < |s.beats| :: At(s.beats[i], name) <= At(s.moved, name))
    && s.users[name].quotaGb == initial[name].quotaGb
    && (initial[name].suspended ==> s.users[name].suspended)
    && (s.users[name].used <= initial[name].used || !UsedUp(s.users[name])
        || s.users[name].suspended || name in s.overdue)
    && s.users[name].used >= initial[name].used
    && (s.users[name].suspended && !initial[name].suspended ==>
          Quota(initial[name]) <= initial[name].used + 2 * At(s.moved, name))
  }

  /** The part of a report that is counted: the bytes of the names listed move into the table, the
      others are lost. */
  lemma CountIsBalanced(initial: Table, s: State, i: nat, t: State, done: set<string>, db: Database,
                        name: string)
    requires Balanced(initial, s, name) && i < |s.reports| && done <= s.reports[i].Keys
    requires t.users == Applied(s.users, s.reports[i], done, db) && t.live == s.live
    requires t.reports == Without(s.reports, i) && t.beats == s.beats
    requires (t.lost == s.lost && done == s.reports[i].Keys)
          || t.lost == AddAll(s.lost, s.reports[i], s.reports[i].Keys - done)
    requires t.moved == s.moved && t.overdue == StillOverdue(s.overdue, done, db)
    ensures Balanced(initial, t, name)
    ensures s.users[name].suspended ==> t.users[name].suspended
  {
    TakenOut(s.reports, i, name);
    if name in done {
      SyncSuspends(s.users[name], s.reports[i][name]);
    }
  }

  lemma HeartbeatIsBalanced(initial: Table, s: State, i: nat, db: Database, name: string)
    requires Balanced(initial, s, name)
    ensures Balanced(initial, Step(s, Heartbeat(i, db)), name)
    ensures s.users[name].suspended ==> Step(s, Heartbeat(i, db)).users[name].suspended
  {
  }

  lemma ClearIsBalanced(initial: Table, s: State, name: string)
    requires Balanced(initial, s, name)
    ensures Balanced(initial, Step(s, Clear), name)
  {
    assert Step(s, Clear).reports[..|s.reports|] == s.reports;
  }

  lemma DeliveryIsBalanced(initial: Table, s: State, i: nat, delivery: Delivery, name: string)
    requires Balanced(initial, s, name) && i < |s.reports|
    ensures var t := Step(s, Count(i, delivery));
            Balanced(initial, t, name) && (s.users[name].suspended ==> t.users[name].suspended)
  {
    var t := Step(s, Count(i, delivery));
    var names := s.reports[i].Keys;
    match delivery
    case Delivered(db) => CountIsBalanced(initial, s, i, t, names, db, name);
    case Broken(part, db) => CountIsBalanced(initial, s, i, t, part * names, db, name);
    case Lost => TakenOut(s.reports, i, name);
  }

  lemma StepIsBalanced(initial: Table, s: State, e: Event, name: string)
    requires Balanced(initial, s, name)
    ensures Balanced(initial, Step(s, e), name)
    ensures s.users[name].suspended ==> Step(s, e).users[name].suspended
  {
    match e
    case Clear => ClearIsBalanced(initial, s, name);
    case Count(i, delivery) =>
      if i < |s.reports| {
        DeliveryIsBalanced(initial, s, i, delivery, name);
      }
    case Heartbeat(i, db) => HeartbeatIsBalanced(initial, s, i, db, name);
    case Transfer(_, _) =>
    case TakeHeartbeat =>
    case RestartNode =>
  }

  /** In every interleaving of traffic, restarts, clears, counts and heartbeats, with reports
      delivered late, broken off in the middle or lost and heartbeats handled late or again: no byte of
      a known user is counted twice or disappears unnoticed, a user whose counted traffic grew to the
      quota is suspended unless the database failed the last time it was asked about that user, none
      is suspended before twice the bytes moved reach the quota, and no step reactivates anyone. */
  lemma {:induction false} TrafficIsConserved(initial: Table, events: seq<Event>, name: string)
    requires name in initial
    ensures Balanced(initial, Run(Start(initial), events), name)
  {
    if events != [] {
      var before := events[..|events| - 1];
      TrafficIsConserved(initial, before, name);
      StepIsBalanced(initial, Run(Start(initial), before), events[|events| - 1], name);
    }
  }

  /** A clearing sync whose report is delivered, whatever is still on its way: the bytes of each known
      user move from the counter to the table; if the database answers for a reported user who is then
      at or over the quota, that user ends suspended. */
  lemma DeliveredSyncPreservesBytes(initial: Table, events: seq<Event>, name: string, db: Database)
    requires name in initial
    ensures var s := Run(Start(initial), events);
            var t := Step(Step(s, Clear), Count(|s.reports|, Delivered(db)));
            && name in s.users && name in t.users
            && t.users[name].used == s.users[name].used + At(s.live, name)
            && At(t.live, name) == 0 && t.reports == s.reports && t.lost == s.lost
            && (db(name).Stored? && name in s.live && UsedUp(t.users[name]) ==>
                  t.users[name].suspended)
  {
    TrafficIsConserved(initial, events, name);
    var s := Run(Start(initial), events);
    assert Without(s.reports + [s.live], |s.reports|) == s.reports;
  }

  /** A heartbeat handled at any point of any run, however late: every known user whom it reports and
      for whom the database answers is suspended afterwards exactly when that was so before or the
      counted and the reported bytes together reach the quota; nobody else changes. */
  lemma HeartbeatEnforces(initial: Table, events: seq<Event>, beat: nat, db: Database, name: string)
    requires name in initial && beat < |Run(Start(initial), events).beats|
    ensures var s := Run(Start(initial), events);
            var t := Step(s, Heartbeat(beat, db));
            && name in s.users && name in t.users && t.users[name].used == s.users[name].used
            && (if name in s.beats[beat] && db(name).Stored? then
                  t.users[name].suspended <==>
                    || s.users[name].suspended
                    || (initial[name].quotaGb > 0
                        && s.users[name].used + s.beats[beat][name]
                           >= initial[name].quotaGb * 0x4000_0000)
                else t.users[name] == s.users[name])
            && (name in t.overdue
                <==> name in s.overdue && !(name in s.beats[beat] && db(name).Stored?))
  {
    TrafficIsConserved(initial, events, name);
    var s := Run(Start(initial), events);
    if name in s.beats[beat] {
      HeartbeatSuspends(s.users[name], s.beats[beat][name]);
    }
  }

  /** A heartbeat carries the counters at the time it is taken, and taking it changes nothing else. After a
      count a reported user is overdue exactly when the database failed for that user. */
  lemma BeatsAndCounts(s: State, report: nat, db: Database, name: string)
    ensures var t := Step(s, TakeHeartbeat);
            t == s.(beats := t.beats) && t.beats == s.beats + [s.live]
    ensures report < |s.reports| ==>
              var t := Step(s, Count(report, Delivered(db)));
              name in t.overdue
              <==> if name in s.reports[report] then !db(name).Stored? else name in s.overdue
  {
  }

  /** Nothing is lost in a run without restarts whose reports are all delivered. */
  lemma {:induction false} DeliveredRunsLoseNothing(
    initial: Table, events: seq<Event>, name: string)
    requires name in initial
    requires forall e <- events :: !e.RestartNode? && (e.Count? ==> e.delivery.Delivered?)
    ensures var s := Run(Start(initial), events);
            && At(s.lost, name) == 0 && name in s.users
            && s.users[name].used + InFlight(s.reports, name) + At(s.live, name)
               == initial[name].used + At(s.moved, name)
  {
    TrafficIsConserved(initial, events, name);
    if events != [] {
      var before := events[..|events| - 1];
      assert events[|events| - 1] in events && forall e <- before :: e in events;
      DeliveredRunsLoseNothing(initial, before, name);
    }
  }
}
