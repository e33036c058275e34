/** The monitoring pipeline between the collector, the upload worker and the panel's table.
    Each channel operation, each upload and each arrival at the panel is one step, and the steps
    of the three parties interleave freely. Samples are named by their position in collection
    order; times[i] is the timestamp of sample i. */
module MonitorPipeline {
  import opened Basics

  const CAPACITY: nat := 12

  function Listed(m: Option<nat>): seq<nat> { if m.Some? then [m.value] else [] }

  lemma InOrder(all: seq<nat>, a: seq<nat>, b: seq<nat>, c: seq<nat>, d: seq<nat>, m: nat)
    requires all == a + (b + (c + d))
    ensures all + [m] == a + b + c + (d + [m]) && |d| <= |all|
    ensures |b| == 1 ==> |d| < |all|
  {
  }

  /** The buffered channel between the collector and the worker. */
  class Channel {
    var buffer: seq<nat>

    constructor ()
      ensures buffer == []
    {
      buffer := [];
    }

    method TrySend(m: nat) returns (sent: bool)
      requires |buffer| <= CAPACITY
      modifies this
      ensures sent == (|old(buffer)| < 12)
      ensures buffer == old(buffer) + if sent then [m] else []
    {
      sent := |buffer| < CAPACITY;
      if sent {
        buffer := buffer + [m];
      }
    }

    method TryReceive() returns (m: Option<nat>)
      modifies this
      ensures old(buffer) == Listed(m) + buffer && (m == None ==> buffer == [])
    {
      if buffer == [] {
        return None;
      }
      m := Some(buffer[0]);
      buffer := buffer[1..];
    }

    /** The worker receiving at most so many samples. */
    method Drain(count: nat) returns (received: seq<nat>)
      modifies this
      ensures old(buffer) == received + buffer
      ensures |received| == count || (buffer == [] && |received| < count)
    {
      received := [];
      for i := 0 to count
        invariant old(buffer) == received + buffer
        invariant |received| == i || (buffer == [] && |received| < i)
      {
        var m := TryReceive();
        received := received + Listed(m);
      }
    }

    /** The collector publishing a sample while the worker may receive before and after the discard:
        nothing is reordered, at most the oldest sample left is discarded, and only after the
        channel was found full; the new sample is always the last one in. */
    method Publish(m: nat, before: nat, after: nat)
      returns (early: seq<nat>, evicted: Option<nat>, late: seq<nat>)
      requires |buffer| <= CAPACITY
      modifies this
      ensures old(buffer) + [m] == early + Listed(evicted) + late + buffer
      ensures buffer != [] && buffer[|buffer| - 1] == m && |buffer| <= 12
      ensures |old(buffer)| < 12 ==> early == [] && evicted == None && late == []
      ensures |old(buffer)| == 12 ==>
                && |early| == (if before < 12 then before else 12)
                && (evicted.Some? <==> before < 12)
                && |late| == (if before + after < 11 then after else if before < 11 then 11 - before
                              else 0)
    {
      early, evicted, late := [], None, [];
      var sent := TrySend(m);
      if !sent {
        early := Drain(before);
        evicted := TryReceive();
        late := Drain(after);
        ghost var rest := buffer;
        InOrder(old(buffer), early, Listed(evicted), late, rest, m);
        sent := TrySend(m);
      }
    }
  }

  /** Where the collector is: idle, holding a fresh sample, past a full channel, or past the
      discard of the oldest sample. */
  datatype Collector = Idle | Fresh(sample: nat) | Blocked(sample: nat) | Freed(sample: nat)

  datatype Worker = Waiting | Holding(held: nat)

  datatype Fate = Acknowledged | Evicted | Expired | Dropped

  /** One row of node_system_metrics for the node. */
  datatype Row = Row(at: int, sample: nat)

  /** times, fates and attempts are the history of the run; horizon is the latest cutoff of the hourly
      cleanup, which deletes rows older than seven days. */
  datatype State = State(
    times: seq<int>,
    queue: seq<nat>,
    collector: Collector,
    worker: Worker,
    fates: map<nat, Fate>,
    attempts: seq<nat>,
    inFlight: set<nat>,
    rows: seq<Row>,
    horizon: Option<int>)

  /** What becomes of one upload: stored and acknowledged, stored with the acknowledgement lost,
      timed out while the request may still arrive, or refused or lost for good. */
  datatype Delivery = Acked | AckLost | Late | Lost

  datatype Event =
    | Collect(at: int)
    | Offer
    | DiscardOldest
    | OfferAgain
    | Take
    | Expire
    | Upload(delivery: Delivery)
    | Arrive(sample: nat)
    | Cleanup(cutoff: int, limit: nat)

  const START := State([], [], Idle, Waiting, map[], [], {}, [], None)

  predicate HasRow(rows: seq<Row>, at: int) { exists i | 0 <= i < |rows| :: rows[i].at == at }

  /** INSERT ... ON DUPLICATE KEY UPDATE that rewrites only the key itself. */
  function Upsert(rows: seq<Row>, at: int, sample: nat): seq<Row> {
    if HasRow(rows, at) then rows else rows + [Row(at, sample)]
  }

  /** DELETE ... LIMIT: the rows without the first so many that are older than the cutoff. */
  function Cleaned(rows: seq<Row>, cutoff: int, limit: nat): seq<Row> {
    if rows == [] || limit == 0 then rows
    else if rows[0].at < cutoff then Cleaned(rows[1..], cutoff, limit - 1)
    else [rows[0]] + Cleaned(rows[1..], cutoff, limit)
  }

  function Later(horizon: Option<int>, cutoff: int): Option<int> {
    if horizon.Some? && horizon.value > cutoff then horizon else Some(cutoff)
  }

  /** Old enough to have been deleted. */
  predicate Past(s: State, at: int) { s.horizon.Some? && at < s.horizon.value }

  /** One step; an event that is not enabled changes nothing. */
  function Step(s: State, e: Event): State {
    match e
    case Collect(at) =>
      if s.collector.Idle? then s.(times := s.times + [at], collector := Fresh(|s.times|)) else s
    case Offer =>
      if !s.collector.Fresh? then s
      else if |s.queue| < CAPACITY then
        s.(queue := s.queue + [s.collector.sample], collector := Idle)
      else s.(collector := Blocked(s.collector.sample))
    case DiscardOldest =>
      if !s.collector.Blocked? then s
      else if s.queue == [] then s.(collector := Freed(s.collector.sample))
      else s.(queue := s.queue[1..], fates := s.fates[s.queue[0] := Evicted],
              collector := Freed(s.collector.sample))
    case OfferAgain =>
      if !s.collector.Freed? then s
      else if |s.queue| < CAPACITY then
        s.(queue := s.queue + [s.collector.sample], collector := Idle)
      else s.(fates := s.fates[s.collector.sample := Dropped], collector := Idle)
    case Take =>
      if s.worker.Waiting? && s.queue != [] then
        s.(queue := s.queue[1..], worker := Holding(s.queue[0]))
      else s
    case Expire =>
      if s.worker.Holding? then
        s.(worker := Waiting, fates := s.fates[s.worker.held := Expired])
      else s
    case Upload(delivery) =>
      if !s.worker.Holding? || s.worker.held >= |s.times| then s
      else
        var m := s.worker.held;
        var tried := s.(attempts := s.attempts + [m]);
        (match delivery
         case Acked =>
           tried.(rows := Upsert(s.rows, s.times[m], m), worker := Waiting,
                  fates := s.fates[m := Acknowledged])
         case AckLost => tried.(rows := Upsert(s.rows, s.times[m], m))
         case Late => tried.(inFlight := s.inFlight + {m})
         case Lost => tried)
    case Arrive(m) =>
      if m in s.inFlight && m < |s.times| then
        s.(rows := Upsert(s.rows, s.times[m], m), inFlight := s.inFlight - {m})
      else s
    case Cleanup(cutoff, limit) =>
      s.(rows := Cleaned(s.rows, cutoff, limit), horizon := Later(s.horizon, cutoff))
  }

  function Run(events: seq<Event>): State {
    if events == [] then START else Step(Run(events[..|events| - 1]), events[|events| - 1])
  }

  // ---------------------------------------------------------------- what every run keeps

  function Held(s: State): seq<nat> { if s.worker.Holding? then [s.worker.held] else [] }

  function Pending(s: State): seq<nat> { if s.collector.Idle? then [] else [s.collector.sample] }

  /** The samples still on their way, in the order they will be tried. */
  function Line(s: State): seq<nat> { Held(s) + s.queue + Pending(s) }

  predicate Ascending(q: seq<nat>) { forall i, j | 0 <= i < j < |q| :: q[i] < q[j] }

  predicate NeverBackwards(q: seq<nat>) { forall i, j | 0 <= i < j < |q| :: q[i] <= q[j] }

  /** No attempt was for a sample that is still waiting, except the one in hand. */
  predicate AttemptsBehind(s: State) {
    && (forall i | 0 <= i < |s.attempts| :: s.attempts[i] < |s.times|)
    && forall i, j | 0 <= i < |s.attempts| && 0 <= j < |Line(s)| ::
         s.attempts[i] <= Line(s)[j] && (s.attempts[i] == Line(s)[j] ==> s.worker.Holding? && j == 0)
  }

  /** Every collected sample is on its way or has met its fate, never both. */
  predicate Partition(s: State) {
    && (forall m | 0 <= m < |s.times| :: m in Line(s) <==> m !in s.fates)
    && (forall m | m in s.fates :: m < |s.times|)
    && (forall j | 0 <= j < |Line(s)| :: Line(s)[j] < |s.times|)
  }

  predicate Bounded(s: State) {
    && |s.queue| <= CAPACITY
    && (s.collector.Freed? ==> |s.queue| < CAPACITY)
    && (!s.collector.Idle? ==> s.collector.sample == |s.times| - 1)
  }

  predicate OnePerTime(rows: seq<Row>) {
    forall i, j | 0 <= i < j < |rows| :: rows[i].at != rows[j].at
  }

  /** The table holds one row per timestamp, each from a collected sample with that timestamp, and
      one for every acknowledged sample that is not older than a cleanup's cutoff. */
  predicate Table(s: State) {
    && OnePerTime(s.rows)
    && (forall i | 0 <= i < |s.rows| ::
          s.rows[i].sample < |s.times| && s.times[s.rows[i].sample] == s.rows[i].at
          && s.rows[i].sample in s.attempts)
    && (forall m | m in s.fates && s.fates[m] == Acknowledged && m < |s.times| ::
          HasRow(s.rows, s.times[m]) || Past(s, s.times[m]))
    && (forall m | m in s.inFlight :: m < |s.times| && m in s.attempts)
  }

  predicate Sound(s: State) {
    && Bounded(s)
    && Ascending(Line(s))
    && NeverBackwards(s.attempts)
    && AttemptsBehind(s)
    && Partition(s)
    && Table(s)
    && forall m | m in s.fates :: s.fates[m] != Dropped
  }

  lemma StepIsSound(s: State, e: Event)
    requires Sound(s)
    ensures Sound(Step(s, e))
  {
    match e
    case Collect(at) =>
      if s.collector.Idle? {
        CollectIsSound(s, at);
      }
    case Offer =>
      if s.collector.Fresh? {
        if |s.queue| < CAPACITY {
          EnqueueIsSound(s);
        } else {
          WaitIsSound(s, Blocked(s.collector.sample));
        }
      }
    case DiscardOldest =>
      if s.collector.Blocked? {
        if s.queue != [] {
          DiscardIsSound(s);
        } else {
          WaitIsSound(s, Freed(s.collector.sample));
        }
      }
    case OfferAgain =>
      if s.collector.Freed? {
        EnqueueIsSound(s);
      }
    case Take =>
      if s.worker.Waiting? && s.queue != [] {
        TakeIsSound(s);
      }
    case Expire =>
      if s.worker.Holding? {
        assert Line(s)[0] == s.worker.held;
        ReleaseIsSound(s, Step(s, Expire), Expired);
      }
    case Upload(delivery) =>
      if s.worker.Holding? {
        UploadIsSound(s, delivery);
      }
    case Arrive(m) =>
      if m in s.inFlight {
        ArriveIsSound(s, m);
      }
    case Cleanup(cutoff, limit) => CleanupIsSound(s, cutoff, limit);
  }

  /** What the cleanup leaves: rows that were there, and every one young enough. */
  predicate Leaves(rows: seq<Row>, left: seq<Row>, cutoff: int) {
    && (forall i | 0 <= i < |left| :: left[i] in rows)
    && (forall i | 0 <= i < |rows| :: rows[i].at < cutoff || rows[i] in left)
    && (OnePerTime(rows) ==> OnePerTime(left))
  }

  lemma {:induction false} CleanedRows(rows: seq<Row>, cutoff: int, limit: nat)
    ensures Leaves(rows, Cleaned(rows, cutoff, limit), cutoff)
  {
    if rows != [] && limit > 0 {
      var first, rest := rows[0], rows[1..];
      var fewer := if first.at < cutoff then limit - 1 else limit;
      CleanedRows(rest, cutoff, fewer);
      assert [first] + rest == rows;
      OneMoreRow(first, rest, Cleaned(rest, cutoff, fewer), cutoff);
    }
  }

  lemma OneMoreRow(first: Row, rest: seq<Row>, left: seq<Row>, cutoff: int)
    requires Leaves(rest, left, cutoff)
    ensures Leaves([first] + rest, [first] + left, cutoff)
    ensures first.at < cutoff ==> Leaves([first] + rest, left, cutoff)
  {
    var all := [first] + rest;
    forall i | 0 <= i < |left| ensures left[i] in all {
      assert left[i] in rest;
    }
    if OnePerTime(all) {
      forall i, j | 0 <= i < j < |rest| ensures rest[i].at != rest[j].at {
        assert all[i + 1] == rest[i] && all[j + 1] == rest[j];
      }
      forall i | 0 <= i < |left| ensures left[i].at != first.at {
        var j :| 0 <= j < |rest| && rest[j] == left[i];
        assert all[0] == first && all[j + 1] == rest[j];
      }
    }
  }

  lemma YoungRowsStay(rows: seq<Row>, left: seq<Row>, cutoff: int, at: int)
    requires Leaves(rows, left, cutoff) && HasRow(rows, at) && at >= cutoff
    ensures HasRow(left, at)
  {
    var i :| 0 <= i < |rows| && rows[i].at == at;
    var j :| 0 <= j < |left| && left[j] == rows[i];
  }

  /** With room in its limit for every row the cleanup leaves none older than its cutoff; otherwise it
      deletes as many as the limit allows. */
  lemma {:induction false} CleanedCount(rows: seq<Row>, cutoff: int, limit: nat)
    ensures var left := Cleaned(rows, cutoff, limit);
            && |rows| - limit <= |left| <= |rows|
            && (|left| > |rows| - limit ==> forall i | 0 <= i < |left| :: left[i].at >= cutoff)
  {
    if rows != [] && limit > 0 {
      CleanedCount(rows[1..], cutoff, if rows[0].at < cutoff then limit - 1 else limit);
    }
  }

  lemma CleanupIsSound(s: State, cutoff: int, limit: nat)
    requires Sound(s)
    ensures Sound(Step(s, Cleanup(cutoff, limit)))
  {
    var t := Step(s, Cleanup(cutoff, limit));
    assert Line(t) == Line(s);
    CleanupKeepsTable(s, cutoff, limit);
  }

  /** The cleanup touches the table alone, and with room in its limit leaves no old row. */
  lemma CleanupDeletesOldRows(s: State, cutoff: int, limit: nat)
    ensures var t := Step(s, Cleanup(cutoff, limit));
            && t == s.(rows := t.rows, horizon := t.horizon)
            && |s.rows| - limit <= |t.rows| <= |s.rows|
            && (limit > |s.rows| ==> forall i | 0 <= i < |t.rows| :: t.rows[i].at >= cutoff)
            && forall at :: Past(t, at) <==> Past(s, at) || at < cutoff
  {
    CleanedCount(s.rows, cutoff, limit);
  }

  lemma CleanupKeepsTable(s: State, cutoff: int, limit: nat)
    requires Table(s)
    ensures Table(Step(s, Cleanup(cutoff, limit)))
  {
    var t := Step(s, Cleanup(cutoff, limit));
    CleanedRows(s.rows, cutoff, limit);
    forall i | 0 <= i < |t.rows|
      ensures t.rows[i].sample < |t.times| && t.times[t.rows[i].sample] == t.rows[i].at
      ensures t.rows[i].sample in t.attempts
    {
      assert t.rows[i] in s.rows;
      var j :| 0 <= j < |s.rows| && s.rows[j] == t.rows[i];
    }
    forall m | m in s.fates && s.fates[m] == Acknowledged && m < |s.times|
      ensures HasRow(t.rows, t.times[m]) || Past(t, t.times[m])
    {
      if HasRow(s.rows, s.times[m]) && s.times[m] >= cutoff {
        YoungRowsStay(s.rows, t.rows, cutoff, s.times[m]);
      }
    }
  }

  /** The collector goes on with the same sample in hand. */
  lemma WaitIsSound(s: State, c: Collector)
    requires Sound(s) && !s.collector.Idle? && !c.Idle? && c.sample == s.collector.sample
    requires c.Freed? ==> |s.queue| < CAPACITY
    ensures Sound(s.(collector := c))
  {
    assert Line(s.(collector := c)) == Line(s);
  }

  lemma TakeIsSound(s: State)
    requires Sound(s) && s.worker.Waiting? && s.queue != []
    ensures Sound(Step(s, Take))
  {
    assert Line(Step(s, Take)) == Line(s);
  }

  lemma ArriveIsSound(s: State, m: nat)
    requires Sound(s) && m in s.inFlight
    ensures Sound(Step(s, Arrive(m)))
  {
    StoreKeepsTable(s, m);
    assert Line(Step(s, Arrive(m))) == Line(s);
  }

  lemma CollectKeepsTable(s: State, at: int)
    requires Table(s) && Partition(s) && s.collector.Idle?
    ensures Table(Step(s, Collect(at)))
  {
  }

  lemma CollectKeepsPartition(s: State, at: int)
    requires Partition(s) && s.collector.Idle?
    ensures Partition(Step(s, Collect(at))) && Line(Step(s, Collect(at))) == Line(s) + [|s.times|]
  {
    var t := Step(s, Collect(at));
    assert Pending(s) == [];
    assert Line(t) == Line(s) + [|s.times|];
    forall m | 0 <= m < |t.times| ensures m in Line(t) <==> m !in t.fates {
      if m < |s.times| {
        assert m in Line(s) <==> m !in s.fates;
      }
    }
  }

  lemma CollectIsSound(s: State, at: int)
    requires Sound(s) && s.collector.Idle?
    ensures Sound(Step(s, Collect(at)))
  {
    CollectKeepsTable(s, at);
    CollectKeepsPartition(s, at);
  }

  lemma EnqueueIsSound(s: State)
    requires Sound(s) && (s.collector.Fresh? || s.collector.Freed?) && |s.queue| < CAPACITY
    ensures Sound(s.(queue := s.queue + [s.collector.sample], collector := Idle))
  {
    var t := s.(queue := s.queue + [s.collector.sample], collector := Idle);
    assert Line(t) == Line(s);
  }

  /** An ascending sequence without its k-th element. */
  lemma Without(q: seq<nat>, k: nat, rest: seq<nat>)
    requires Ascending(q) && k < |q| && rest == q[..k] + q[k + 1..]
    ensures Ascending(rest)
    ensures forall j | 0 <= j < |rest| :: rest[j] == q[if j < k then j else j + 1]
    ensures forall m :: m in rest <==> m in q && m != q[k]
  {
    forall m | m in q && m != q[k] ensures m in rest {
      var i :| 0 <= i < |q| && q[i] == m;
      assert rest[if i < k then i else i - 1] == m;
    }
  }

  /** Taking one sample off the line and recording its fate. */
  lemma PartitionAfterRemoval(s: State, t: State, k: nat, fate: Fate)
    requires Partition(s) && Ascending(Line(s)) && k < |Line(s)|
    requires t.times == s.times && t.fates == s.fates[Line(s)[k] := fate]
    requires Line(t) == Line(s)[..k] + Line(s)[k + 1..]
    ensures Partition(t) && Ascending(Line(t))
    ensures forall j | 0 <= j < |Line(t)| :: Line(t)[j] == Line(s)[if j < k then j else j + 1]
  {
    Without(Line(s), k, Line(t));
    var gone := Line(s)[k];
    forall m | 0 <= m < |t.times| ensures m in Line(t) <==> m !in t.fates {
      assert m in Line(s) <==> m !in s.fates;
    }
  }

  /** A fate other than an unstored acknowledgement does not touch the table. */
  lemma FateKeepsTable(s: State, t: State, m: nat, fate: Fate)
    requires Table(s) && m < |s.times| && (fate == Acknowledged ==> HasRow(s.rows, s.times[m]))
    requires t.times == s.times && t.rows == s.rows && t.attempts == s.attempts
    requires t.inFlight == s.inFlight && t.horizon == s.horizon && t.fates == s.fates[m := fate]
    ensures Table(t)
  {
  }

  lemma AttemptKeepsTable(s: State, m: nat)
    requires Table(s)
    ensures Table(s.(attempts := s.attempts + [m]))
  {
    var t := s.(attempts := s.attempts + [m]);
    forall k | k in s.attempts ensures k in t.attempts {
    }
  }

  lemma WithoutFirst(held: seq<nat>, queue: seq<nat>, pending: seq<nat>)
    requires queue != []
    ensures var line, k := held + queue + pending, |held|;
            line[k] == queue[0] && held + queue[1..] + pending == line[..k] + line[k + 1..]
  {
  }

  lemma DiscardIsSound(s: State)
    requires Sound(s) && s.collector.Blocked? && s.queue != []
    ensures Sound(Step(s, DiscardOldest))
  {
    var t := Step(s, DiscardOldest);
    var k := |Held(s)|;
    WithoutFirst(Held(s), s.queue, Pending(s));
    PartitionAfterRemoval(s, t, k, Evicted);
    FateKeepsTable(s, t, s.queue[0], Evicted);
  }

  /** The worker lets go of the sample in hand. */
  lemma ReleaseIsSound(s: State, t: State, fate: Fate)
    requires Sound(s) && s.worker.Holding? && fate != Dropped
    requires t == s.(worker := Waiting, fates := s.fates[s.worker.held := fate])
    requires s.worker.held < |s.times|
    requires fate == Acknowledged ==> HasRow(s.rows, s.times[s.worker.held])
    ensures Sound(t)
  {
    assert Line(s)[0] == s.worker.held;
    assert Line(t) == Line(s)[..0] + Line(s)[1..];
    PartitionAfterRemoval(s, t, 0, fate);
    FateKeepsTable(s, t, s.worker.held, fate);
  }

  /** An attempt that leaves the sample in hand keeps everything but the table's rows. */
  lemma AttemptIsSound(s: State)
    requires Sound(s) && s.worker.Holding?
    ensures s.worker.held < |s.times|
    ensures Sound(s.(attempts := s.attempts + [s.worker.held]))
  {
    var t := s.(attempts := s.attempts + [s.worker.held]);
    assert Line(s)[0] == s.worker.held && s.worker.held in Line(s);
    assert Line(t) == Line(s);
    AttemptKeepsTable(s, s.worker.held);
  }

  lemma StoreKeepsTable(s: State, m: nat)
    requires Table(s) && m < |s.times| && m in s.attempts
    ensures var rows := Upsert(s.rows, s.times[m], m);
            Table(s.(rows := rows)) && HasRow(rows, s.times[m])
    ensures Table(s.(rows := Upsert(s.rows, s.times[m], m), inFlight := s.inFlight - {m}))
  {
    var rows := Upsert(s.rows, s.times[m], m);
    if !HasRow(s.rows, s.times[m]) {
      assert rows[|s.rows|].at == s.times[m];
      forall at | HasRow(s.rows, at) ensures HasRow(rows, at) {
        var i :| 0 <= i < |s.rows| && s.rows[i].at == at;
        assert rows[i].at == at;
      }
    }
  }

  /** A stored upload, before its acknowledgement arrives or is lost. */
  lemma StoredIsSound(s: State)
    requires Sound(s) && s.worker.Holding? && s.worker.held < |s.times|
    requires s.worker.held in s.attempts
    ensures var m := s.worker.held;
            var stored := s.(rows := Upsert(s.rows, s.times[m], m));
            Sound(stored) && HasRow(stored.rows, s.times[m])
  {
    var m := s.worker.held;
    StoreKeepsTable(s, m);
    assert Line(s.(rows := Upsert(s.rows, s.times[m], m))) == Line(s);
  }

  lemma LateIsSound(s: State, m: nat)
    requires Sound(s) && m < |s.times| && m in s.attempts
    ensures Sound(s.(inFlight := s.inFlight + {m}))
  {
    assert Line(s.(inFlight := s.inFlight + {m})) == Line(s);
  }

  lemma AckIsSound(tried: State, t: State)
    requires Sound(tried) && tried.worker.Holding? && tried.worker.held < |tried.times|
    requires tried.worker.held in tried.attempts
    requires var m := tried.worker.held;
             t == tried.(rows := Upsert(tried.rows, tried.times[m], m), worker := Waiting,
                         fates := tried.fates[m := Acknowledged])
    ensures Sound(t)
  {
    var m := tried.worker.held;
    StoredIsSound(tried);
    ReleaseIsSound(tried.(rows := Upsert(tried.rows, tried.times[m], m)), t, Acknowledged);
  }

  lemma UploadIsSound(s: State, delivery: Delivery)
    requires Sound(s) && s.worker.Holding?
    ensures Sound(Step(s, Upload(delivery)))
  {
    AttemptIsSound(s);
    var m := s.worker.held;
    var tried := s.(attempts := s.attempts + [m]);
    assert tried.attempts[|s.attempts|] == m;
    match delivery
    case Acked =>
      AckIsSound(tried, Step(s, Upload(Acked)));
    case AckLost =>
      StoredIsSound(tried);
    case Late =>
      LateIsSound(tried, m);
    case Lost =>
  }

  /** Every interleaving of collector, worker and panel: the queue never exceeds its capacity,
      samples are tried in collection order, each is on its way or has exactly one fate, none is
      ever dropped for lack of room, and the table has one row per timestamp. */
  lemma {:induction false} EveryRunIsSound(events: seq<Event>)
    ensures Sound(Run(events))
  {
    if events != [] {
      EveryRunIsSound(events[..|events| - 1]);
      StepIsSound(Run(events[..|events| - 1]), events[|events| - 1]);
    }
  }

  /** The queue holds at most twelve samples. The first offer succeeds exactly when there are fewer, and
      a fresh sample is only ever taken up by an idle collector. */
  lemma AtMostTwelve(events: seq<Event>)
    ensures var s := Run(events);
            && |s.queue| <= 12
            && (s.collector.Fresh? ==>
                  && s.collector.sample == |s.times| - 1
                  && if |s.queue| < 12 then
                       && Step(s, Offer).queue == s.queue + [s.collector.sample]
                       && Step(s, Offer).collector == Idle
                     else Step(s, Offer) == s.(collector := Blocked(s.collector.sample)))
            && (forall at ::
                  if s.collector == Idle then
                    Step(s, Collect(at)) == s.(times := s.times + [at], collector := Fresh(|s.times|))
                  else Step(s, Collect(at)) == s)
  {
    EveryRunIsSound(events);
  }

  /** In every reachable state a discarded sample made room: the second offer puts the newest
      sample at the end of the queue, so its default branch is never taken. */
  lemma SecondOfferSucceeds(events: seq<Event>)
    requires Run(events).collector.Freed?
    ensures var s := Run(events);
            var t := Step(s, OfferAgain);
            t.queue == s.queue + [|s.times| - 1] && t.fates == s.fates
  {
    EveryRunIsSound(events);
  }

  /** A discard that finds the queue emptied in the meantime discards nothing. */
  lemma DiscardOfNothing(s: State)
    requires s.collector.Blocked? && s.queue == []
    ensures Step(s, DiscardOldest) == s.(collector := Freed(s.collector.sample))
  {
  }

  /** The sample discarded is the oldest one queued, older than the one that needs the room; the
      sample in the worker's hand is never touched. */
  lemma DiscardTakesTheOldest(events: seq<Event>)
    requires Run(events).collector.Blocked? && Run(events).queue != []
    ensures var s := Run(events);
            var t := Step(s, DiscardOldest);
            && t.collector == Freed(s.collector.sample) && s.queue[0] !in s.fates && t.fates == s.fates[s.queue[0] := Evicted]
            && t.worker == s.worker && t.queue == s.queue[1..]
            && (forall m <- t.queue + Pending(t) :: s.queue[0] < m)
            && (forall m <- Held(s) :: m < s.queue[0])
  {
    EveryRunIsSound(events);
    var s := Run(events);
    var k := |Held(s)|;
    assert Line(s)[k] == s.queue[0];
    var behind := s.queue[1..] + Pending(s);
    forall j | 0 <= j < |behind| ensures s.queue[0] < behind[j] {
      assert behind[j] == Line(s)[k + 1 + j];
    }
    assert s.queue[0] in Line(s);
    assert Held(s) != [] ==> Line(s)[0] == Held(s)[0];
  }

  /** What each outcome of an upload leaves behind: acknowledged or not, a stored sample has its row,
      and the worker goes on with it until an acknowledgement arrives; a late one is stored when it
      arrives; a lost one leaves nothing but the attempt. */
  lemma UploadsAreStored(events: seq<Event>, delivery: Delivery)
    requires Run(events).worker.Holding?
    ensures var s := Run(events);
            var m := s.worker.held;
            var t := Step(s, Upload(delivery));
            && m < |s.times| && t.attempts == s.attempts + [m] && t.queue == s.queue
            && (delivery == Acked || delivery == AckLost ==> HasRow(t.rows, s.times[m]))
            && (delivery == Late || delivery == Lost ==> t.rows == s.rows)
            && (delivery == Late ==> m in t.inFlight)
            && (if delivery == Acked then
                  t.worker == Waiting && m in t.fates && t.fates[m] == Acknowledged
                else t.worker == s.worker && t.fates == s.fates)
  {
    EveryRunIsSound(events);
    AttemptIsSound(Run(events));
    var s := Run(events);
    StoredRow(s.rows, s.times[s.worker.held], s.worker.held);
  }

  lemma StoredRow(rows: seq<Row>, at: int, m: nat)
    ensures HasRow(Upsert(rows, at, m), at)
    ensures rows <= Upsert(rows, at, m)
  {
    if !HasRow(rows, at) {
      assert (rows + [Row(at, m)])[|rows|].at == at;
    }
  }

  /** A request that was on its way is stored when it arrives, whatever became of its sample; rows that
      were there stay as they are. */
  lemma ArrivalsAreStored(events: seq<Event>, m: nat)
    requires m in Run(events).inFlight
    ensures var s := Run(events);
            var t := Step(s, Arrive(m));
            && m < |s.times| && HasRow(t.rows, s.times[m]) && s.rows <= t.rows
            && t.inFlight == s.inFlight - {m}
            && t.fates == s.fates && t.worker == s.worker
  {
    EveryRunIsSound(events);
    var s := Run(events);
    StoredRow(s.rows, s.times[m], m);
  }

  /** The worker takes the oldest sample, and only lets go of one unacknowledged by expiry. */
  lemma WorkerTakesTheOldest(events: seq<Event>)
    requires Run(events).worker.Waiting? && Run(events).queue != []
    ensures var s := Run(events);
            var t := Step(s, Take);
            && t.worker == Holding(s.queue[0]) && t.queue == s.queue[1..] && t.fates == s.fates
            && (forall m <- t.queue + Pending(t) :: s.queue[0] < m)
            && Step(t, Expire).fates == s.fates[s.queue[0] := Expired]
            && Step(t, Expire).worker == Waiting
  {
    EveryRunIsSound(events);
    var s := Run(events);
    var behind := s.queue[1..] + Pending(s);
    forall j | 0 <= j < |behind| ensures s.queue[0] < behind[j] {
      assert behind[j] == Line(s)[1 + j] && Line(s)[0] == s.queue[0];
    }
  }

  predicate Settled(s: State) { s.collector.Idle? && s.worker.Waiting? && s.queue == [] }

  /** Conservation: once nothing is on its way, every collected sample was acknowledged, evicted
      or expired, and every acknowledged one is in the table unless the cleanup took it. */
  lemma SettledRunsAccountForEverySample(events: seq<Event>, m: nat)
    requires Settled(Run(events)) && m < |Run(events).times|
    ensures var s := Run(events);
            && m in s.fates
            && (s.fates[m] == Acknowledged || s.fates[m] == Evicted || s.fates[m] == Expired)
            && (s.fates[m] == Acknowledged ==> HasRow(s.rows, s.times[m]) || Past(s, s.times[m]))
  {
    EveryRunIsSound(events);
    assert Line(Run(events)) == [];
  }
}
