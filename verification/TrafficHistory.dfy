/** Traffic snapshots of a node whose counter restarts from zero, and the deltas recorded for them. A
    snapshot stores the last reading the panel has. With an agent that is the last heartbeat stored,
    which reports zero when the agent could not read the counter; without one the counter is read for
    the snapshot itself. Snapshots are taken at the end of a traffic sync, and a sync clears the
    counter. */
module TrafficHistory {

  function Delta(current: int, previous: int, hasPrevious: bool): int {
    var clipped := if current < 0 then 0 else current;
    if !hasPrevious then 0
    else if clipped >= previous then clipped - previous
    else clipped
  }

  datatype Row = Row(total: int, delta: int)

  class TrafficTable {
    var rows: seq<Row>

    constructor ()
      ensures rows == []
    {
      rows := [];
    }

    method InsertSnapshot(total: int)
      modifies this
      ensures rows == Snapshot(old(rows), total)
    {
      var hasPrevious := |rows| > 0;
      var previous := 0;
      if hasPrevious {
        previous := rows[|rows| - 1].total;
      }
      rows := rows + [Row(total, Delta(total, previous, hasPrevious))];
    }
  }

  function Snapshot(rows: seq<Row>, total: int): seq<Row> {
    rows + [Row(total, if rows == [] then Delta(total, 0, false)
                       else Delta(total, rows[|rows| - 1].total, true))]
  }

  // ---------------------------------------------------------------- runs

  /** A heartbeat is taken on the node and stored on the panel, possibly late. */
  datatype Event = Transfer(bytes: nat) | Reset | Take(fetched: bool) | Store(beat: nat) | Record

  /** The node's counter, all bytes moved since the run began, the readings taken, the one the panel
      stored last, and the table. */
  datatype State = State(counter: nat, moved: nat, beats: seq<nat>, current: nat, rows: seq<Row>)

  /** A node whose counter is at zero and of which nothing is known: the column's default counts as a
      reading of zero. */
  const START := State(0, 0, [0], 0, [])

  function Reported(s: State): nat { if s.current < |s.beats| then s.beats[s.current] else 0 }

  function Step(s: State, e: Event): State {
    match e
    case Transfer(n) => s.(counter := s.counter + n, moved := s.moved + n)
    case Reset => s.(counter := 0)
    case Take(fetched) => s.(beats := s.beats + [if fetched then s.counter else 0])
    case Store(i) => if i < |s.beats| then s.(current := i) else s
    case Record => s.(rows := Snapshot(s.rows, Reported(s)))
  }

  function Run(s: State, events: seq<Event>): State
    decreases |events|
  {
    if events == [] then s else Step(Run(s, events[..|events| - 1]), events[|events| - 1])
  }

  function LastTotal(rows: seq<Row>): int { if rows == [] then 0 else rows[|rows| - 1].total }

  function Sum(rows: seq<Row>): int {
    if rows == [] then 0 else Sum(rows[..|rows| - 1]) + rows[|rows| - 1].delta
  }

  /** The totals just before each visible reset: a row smaller than the one before it. */
  function LostAtResets(rows: seq<Row>): int {
    if |rows| < 2 then 0
    else
      var n := |rows|;
      LostAtResets(rows[..n - 1])
      + if rows[n - 1].total < rows[n - 2].total then rows[n - 2].total else 0
  }

  lemma RecordedSum(rows: seq<Row>, total: int)
    ensures var t := Snapshot(rows, total);
            && Sum(t) == Sum(rows) + t[|rows|].delta
            && LostAtResets(t) == LostAtResets(rows)
               + if rows != [] && total < rows[|rows| - 1].total then rows[|rows| - 1].total else 0
  {
    assert Snapshot(rows, total)[..|rows|] == rows;
  }

  /** What the panel has after a heartbeat is taken and stored: the counter, or zero when it could not be
      read; before the first one it has zero, and a negative total counts as zero. */
  lemma ReadingsOfHeartbeats(s: State, fetched: bool)
    ensures var t := Step(Step(s, Take(fetched)), Store(|s.beats|));
            Reported(t) == (if fetched then s.counter else 0) && t.rows == s.rows
    ensures Reported(START) == 0 && START.counter == 0 && START.moved == 0 && START.rows == []
    ensures forall total: int, previous: nat | total < 0 :: Delta(total, previous, true) == 0
    ensures forall total: int, previous: int :: Delta(total, previous, false) == 0
  {
  }

  // ---------------------------------------------------------------- the ledger

  /** Kept for the proof, as numbers of bytes moved: where each reading stands, those behind the first
      and the last row, the bytes that deltas counted twice and the bytes they missed. A reading that
      failed stands where the counter last was zero. */
  datatype Ledger = Ledger(ats: seq<int>, firstAt: int, lastAt: int, twice: nat, missed: nat)

  const BLANK := Ledger([0], 0, 0, 0, 0)

  function ReadAt(l: Ledger, s: State): int { if s.current < |l.ats| then l.ats[s.current] else 0 }

  /** The bytes moved between the readings behind the last row and the next one. */
  function Gap(l: Ledger, s: State): int { ReadAt(l, s) - l.lastAt }

  /** The delta of the next row. */
  function NextOf(s: State): int { Delta(Reported(s), LastTotal(s.rows), true) }

  function Positive(n: int): nat { if n > 0 then n else 0 }

  function Booked(l: Ledger, s: State, e: Event): Ledger {
    match e
    case Transfer(_) => l
    case Reset => l
    case Store(_) => l
    case Take(fetched) => l.(ats := l.ats + [if fetched then s.moved else s.moved - s.counter])
    case Record =>
      if s.rows == [] then l.(firstAt := ReadAt(l, s), lastAt := ReadAt(l, s))
      else l.(lastAt := ReadAt(l, s), twice := l.twice + Positive(NextOf(s) - Gap(l, s)),
              missed := l.missed + Positive(Gap(l, s) - NextOf(s)))
  }

  function Books(l: Ledger, s: State, events: seq<Event>): Ledger
    decreases |events|
  {
    if events == [] then l
    else
      var before := events[..|events| - 1];
      Booked(Books(l, s, before), Run(s, before), events[|events| - 1])
  }

  lemma {:induction false} RunsJoin(s: State, l: Ledger, before: seq<Event>, after: seq<Event>)
    ensures Run(s, before + after) == Run(Run(s, before), after)
    ensures Books(l, s, before + after) == Books(Books(l, s, before), Run(s, before), after)
    decreases |after|
  {
    if after == [] {
      assert before + after == before;
    } else {
      var front, e := after[..|after| - 1], after[|after| - 1];
      RunsJoin(s, l, before, front);
      RunMore(s, l, before + front, e, before + after);
      RunMore(Run(s, before), Books(l, s, before), front, e, after);
    }
  }

  lemma RunMore(s: State, l: Ledger, front: seq<Event>, e: Event, all: seq<Event>)
    requires |all| == |front| + 1 && all[|front|] == e && front == all[..|front|]
    ensures Run(s, all) == Step(Run(s, front), e)
    ensures Books(l, s, all) == Booked(Books(l, s, front), Run(s, front), e)
  {
  }

  lemma RunOne(s: State, l: Ledger, e: Event)
    ensures Run(s, [e]) == Step(s, e) && Books(l, s, [e]) == Booked(l, s, e)
  {
    assert [e][..0] == [];
  }

  lemma RunTwo(s: State, l: Ledger, e: Event, f: Event)
    ensures Run(s, [e, f]) == Step(Step(s, e), f)
    ensures Books(l, s, [e, f]) == Booked(Booked(l, s, e), Step(s, e), f)
  {
    RunOne(s, l, e);
    RunOne(Step(s, e), Booked(l, s, e), f);
    RunsJoin(s, l, [e], [f]);
    assert [e, f] == [e] + [f];
  }

  lemma RunThree(s: State, l: Ledger, e: Event, f: Event, g: Event)
    ensures Run(s, [e, f, g]) == Step(Step(Step(s, e), f), g)
    ensures Books(l, s, [e, f, g])
         == Booked(Booked(Booked(l, s, e), Step(s, e), f), Step(Step(s, e), f), g)
  {
    RunTwo(s, l, e, f);
    RunOne(Step(Step(s, e), f), Booked(Booked(l, s, e), Step(s, e), f), g);
    RunsJoin(s, l, [e, f], [g]);
    assert [e, f, g] == [e, f] + [g];
  }

  /** The deltas against the totals and against the bytes moved. */
  predicate Tied(s: State, l: Ledger) {
    && s.current < |s.beats| == |l.ats|
    && (forall i | 0 <= i < |s.rows| :: s.rows[i].total >= 0)
    && (s.rows == [] ==> l.twice == 0 && l.missed == 0)
    && (s.rows != [] ==>
          && Sum(s.rows) == l.lastAt - l.firstAt + l.twice - l.missed
          && Sum(s.rows) == LastTotal(s.rows) - s.rows[0].total + LostAtResets(s.rows))
  }

  lemma RecordIsTied(s: State, l: Ledger)
    requires Tied(s, l)
    ensures Tied(Step(s, Record), Booked(l, s, Record))
  {
    RecordedSum(s.rows, Reported(s));
    var t := Step(s, Record);
    if s.rows == [] {
      assert t.rows == [Row(Reported(s), 0)];
    } else {
      assert t.rows[0] == s.rows[0];
    }
  }

  lemma {:induction false} RunIsTied(s: State, l: Ledger, events: seq<Event>)
    requires Tied(s, l)
    ensures Tied(Run(s, events), Books(l, s, events))
    decreases |events|
  {
    if events != [] {
      var before := events[..|events| - 1];
      RunIsTied(s, l, before);
      if events[|events| - 1] == Record {
        RecordIsTied(Run(s, before), Books(l, s, before));
      }
    }
  }

  /** In every interleaving of transfers, resets, heartbeats, read or not, stored at once, late, in any
      order or again, and snapshots: the recorded deltas are exactly the bytes moved between the
      readings behind the first and the last row, plus those counted twice, less those missed; and
      exactly the last total minus the first plus the total before each visible reset. */
  lemma DeltasAddUp(events: seq<Event>)
    requires Run(START, events).rows != []
    ensures var s, l := Run(START, events), Books(BLANK, START, events);
            && Sum(s.rows) == l.lastAt - l.firstAt + l.twice - l.missed
            && Sum(s.rows) == LastTotal(s.rows) - s.rows[0].total + LostAtResets(s.rows)
  {
    RunIsTied(START, BLANK, events);
  }

  // ---------------------------------------------------------------- orderly heartbeats

  /** How a reading after m bytes relates to a later one after n: the counter went on from it or was
      reset since, and then shows no more than what moved between. */
  predicate Follows(early: int, m: int, late: int, n: int) {
    m <= n && (late == early + (n - m) || late <= n - m)
  }

  /** The delta between two readings: never more than what moved between them, and exactly that if
      and only if the counter went on, or everything moved after a reset that shows. */
  lemma DeltaOfReadings(a: int, m: int, b: int, n: int)
    requires 0 <= a && 0 <= b && Follows(a, m, b, n)
    ensures 0 <= Delta(b, a, true) <= n - m
    ensures Delta(b, a, true) == n - m <==> b == a + (n - m) || (b == n - m && b < a)
  {
  }

  /** No heartbeat is blank and none is stored after a later one. */
  predicate Orderly(s: State, events: seq<Event>)
    decreases |events|
  {
    events == [] ||
    (var before, last := events[..|events| - 1], events[|events| - 1];
     && Orderly(s, before) && last != Take(false)
     && (last.Store? ==> last.beat >= Run(s, before).current))
  }

  /** The last row, the readings that can still be stored and the counter follow each other. */
  predicate Sound(s: State, l: Ledger) {
    && Tied(s, l) && l.twice == 0
    && (forall i | s.current <= i < |s.beats| :: Follows(s.beats[i], l.ats[i], s.counter, s.moved))
    && (forall i, j | s.current <= i < j < |s.beats| ::
          Follows(s.beats[i], l.ats[i], s.beats[j], l.ats[j]))
    && (s.rows != [] ==>
          && Follows(LastTotal(s.rows), l.lastAt, s.counter, s.moved)
          && forall i | s.current <= i < |s.beats| ::
               Follows(LastTotal(s.rows), l.lastAt, s.beats[i], l.ats[i]))
  }

  lemma RecordIsSound(s: State, l: Ledger)
    requires Sound(s, l)
    ensures Sound(Step(s, Record), Booked(l, s, Record))
  {
    RecordIsTied(s, l);
    if s.rows != [] {
      DeltaOfReadings(LastTotal(s.rows), l.lastAt, Reported(s), ReadAt(l, s));
    }
    assert LastTotal(Step(s, Record).rows) == Reported(s);
  }

  lemma TakeIsSound(s: State, l: Ledger)
    requires Sound(s, l)
    ensures Sound(Step(s, Take(true)), Booked(l, s, Take(true)))
  {
  }

  lemma OtherStepIsSound(s: State, l: Ledger, e: Event)
    requires Sound(s, l) && (e.Transfer? || e.Reset? || (e.Store? && e.beat >= s.current))
    ensures Sound(Step(s, e), Booked(l, s, e))
  {
  }

  lemma {:induction false} RunIsSound(s: State, l: Ledger, events: seq<Event>)
    requires Sound(s, l) && Orderly(s, events)
    ensures var t, k := Run(s, events), Books(l, s, events);
            && Sound(t, k)
            && (s.rows != [] ==> t.rows != [] && k.firstAt == l.firstAt)
    decreases |events|
  {
    if events != [] {
      var before, last := events[..|events| - 1], events[|events| - 1];
      var t, k := Run(s, before), Books(l, s, before);
      RunIsSound(s, l, before);
      match last
      case Record => RecordIsSound(t, k);
      case Take(_) => TakeIsSound(t, k);
      case _ => OtherStepIsSound(t, k, last);
    }
  }

  /** When no heartbeat is blank or stored after a later one nothing is counted twice: the deltas never
      sum to more than the bytes moved since the reading behind the first row. */
  lemma OrderlyDeltasNeverExceedTraffic(events: seq<Event>)
    requires Orderly(START, events) && Run(START, events).rows != []
    ensures var s, l := Run(START, events), Books(BLANK, START, events);
            && l.twice == 0 && Sum(s.rows) == l.lastAt - l.firstAt - l.missed
            && Sum(s.rows) <= s.moved - l.firstAt
  {
    RunIsSound(START, BLANK, events);
  }

  // ---------------------------------------------------------------- what deltas miss

  /** The next row will show every byte: it is the first, or its reading goes on from the last total,
      or everything moved after a reset that shows. */
  predicate ShowsAll(s: State, l: Ledger) {
    || s.rows == []
    || Reported(s) == LastTotal(s.rows) + Gap(l, s)
    || (Reported(s) == Gap(l, s) && Reported(s) < LastTotal(s.rows))
  }

  /** Over every orderly run, resets and syncs included: no byte is missed if and only if each snapshot
      shows all that moved since the one before. */
  lemma {:induction false} NothingMissedExactly(s: State, l: Ledger, events: seq<Event>)
    requires Sound(s, l) && Orderly(s, events)
    ensures Books(l, s, events).missed >= l.missed
    ensures Books(l, s, events).missed == l.missed <==> EachShowsAll(s, l, events)
    decreases |events|
  {
    if events != [] {
      var n := |events| - 1;
      var before := events[..n];
      NothingMissedExactly(s, l, before);
      RunIsSound(s, l, before);
      MissedInOneStep(Run(s, before), Books(l, s, before), events[n]);
      ShowingGrows(s, l, events);
    }
  }

  /** If the step numbered k is a snapshot, it shows every byte. */
  predicate StepShowsAll(s: State, l: Ledger, events: seq<Event>, k: nat)
    requires k < |events|
  {
    events[k] == Record ==> ShowsAll(Run(s, events[..k]), Books(l, s, events[..k]))
  }

  predicate EachShowsAll(s: State, l: Ledger, events: seq<Event>) {
    forall k | 0 <= k < |events| :: StepShowsAll(s, l, events, k)
  }

  lemma ShowingGrows(s: State, l: Ledger, events: seq<Event>)
    requires events != []
    ensures var before := events[..|events| - 1];
            EachShowsAll(s, l, events)
            <==> EachShowsAll(s, l, before) && StepShowsAll(s, l, events, |before|)
  {
    var n := |events| - 1;
    var before := events[..n];
    forall k | 0 <= k < n ensures StepShowsAll(s, l, events, k) <==> StepShowsAll(s, l, before, k) {
      assert before[..k] == events[..k] && before[k] == events[k];
    }
  }

  lemma MissedInOneStep(s: State, l: Ledger, e: Event)
    requires Sound(s, l)
    ensures Booked(l, s, e).missed >= l.missed
    ensures Booked(l, s, e).missed == l.missed <==> (e == Record ==> ShowsAll(s, l))
  {
    if e == Record && s.rows != [] {
      DeltaOfReadings(LastTotal(s.rows), l.lastAt, Reported(s), ReadAt(l, s));
    }
  }

  // ---------------------------------------------------------------- one sync after another

  /** The traffic of one sync: what its heartbeat shows, and what moves between that heartbeat and the
      clear. */
  datatype Cycle = Cycle(seen: nat, unseen: nat)

  function OneSync(c: Cycle, beat: nat): seq<Event> {
    [Transfer(c.seen), Take(true), Store(beat)] + [Transfer(c.unseen), Reset, Record]
  }

  /** Syncs one after the other, the first heartbeat being number beat. */
  function Syncs(cs: seq<Cycle>, beat: nat): seq<Event> {
    if cs == [] then []
    else Syncs(cs[..|cs| - 1], beat) + OneSync(cs[|cs| - 1], beat + |cs| - 1)
  }

  /** After a sync: the counter is at zero, the last total is a and u bytes moved since its reading. */
  predicate Synced(s: State, l: Ledger, a: nat, u: nat) {
    && Tied(s, l) && s.rows != [] && s.counter == 0
    && LastTotal(s.rows) == a && s.moved - l.lastAt == u
  }

  function LastSeen(a: nat, cs: seq<Cycle>): nat { if cs == [] then a else cs[|cs| - 1].seen }

  function LastUnseen(u: nat, cs: seq<Cycle>): nat { if cs == [] then u else cs[|cs| - 1].unseen }

  /** What one sync records after a total of a. */
  function RecordedBy(a: nat, c: Cycle): nat { if c.seen < a then c.seen else c.seen - a }

  /** What one sync misses: the bytes unseen by the heartbeat before it, and the whole of the last total
      unless the new one is smaller. */
  function MissedBy(a: nat, u: nat, c: Cycle): nat { u + if c.seen < a then 0 else a }

  function RecordedByAll(a: nat, cs: seq<Cycle>): nat {
    if cs == [] then 0
    else RecordedByAll(a, cs[..|cs| - 1]) + RecordedBy(LastSeen(a, cs[..|cs| - 1]), cs[|cs| - 1])
  }

  function MissedByAll(a: nat, u: nat, cs: seq<Cycle>): nat {
    if cs == [] then 0
    else
      var front := cs[..|cs| - 1];
      MissedByAll(a, u, front) + MissedBy(LastSeen(a, front), LastUnseen(u, front), cs[|cs| - 1])
  }

  lemma AfterBeat(s: State, l: Ledger, a: nat, u: nat, n: nat)
    requires Synced(s, l, a, u)
    ensures var events := [Transfer(n), Take(true), Store(|s.beats|)];
            && Run(s, events) == State(n, s.moved + n, s.beats + [n], |s.beats|, s.rows)
            && Books(l, s, events) == l.(ats := l.ats + [s.moved + n])
  {
    RunThree(s, l, Transfer(n), Take(true), Store(|s.beats|));
  }

  lemma AfterOneSync(s: State, l: Ledger, a: nat, u: nat, c: Cycle)
    requires Synced(s, l, a, u)
    ensures var events := OneSync(c, |s.beats|);
            && Run(s, events) == State(0, s.moved + c.seen + c.unseen, s.beats + [c.seen], |s.beats|,
                                       Snapshot(s.rows, c.seen))
            && Books(l, s, events) == Ledger(l.ats + [s.moved + c.seen], l.firstAt, s.moved + c.seen,
                                             l.twice, l.missed + MissedBy(a, u, c))
  {
    var t := State(c.seen, s.moved + c.seen, s.beats + [c.seen], |s.beats|, s.rows);
    var k := l.(ats := l.ats + [s.moved + c.seen]);
    AfterBeat(s, l, a, u, c.seen);
    AfterClear(t, k, a, u, c);
    JoinedAt(s, l, [Transfer(c.seen), Take(true), Store(|s.beats|)],
             [Transfer(c.unseen), Reset, Record], t, k);
  }

  lemma JoinedAt(s: State, l: Ledger, before: seq<Event>, after: seq<Event>, t: State, k: Ledger)
    requires t == Run(s, before) && k == Books(l, s, before)
    ensures Run(s, before + after) == Run(t, after) && Books(l, s, before + after) == Books(k, t, after)
  {
    RunsJoin(s, l, before, after);
  }

  lemma AfterClear(s: State, l: Ledger, a: nat, u: nat, c: Cycle)
    requires s.rows != [] && LastTotal(s.rows) == a && s.moved - l.lastAt == u + c.seen
    requires s.current < |s.beats| == |l.ats| && s.beats[s.current] == c.seen
    requires l.ats[s.current] == s.moved
    ensures var events := [Transfer(c.unseen), Reset, Record];
            && Run(s, events) == State(0, s.moved + c.unseen, s.beats, s.current,
                                       Snapshot(s.rows, c.seen))
            && Books(l, s, events) == l.(lastAt := s.moved, missed := l.missed + MissedBy(a, u, c))
  {
    RunThree(s, l, Transfer(c.unseen), Reset, Record);
  }

  /** What one sync makes of the table and the ledger. */
  predicate Advances(s: State, l: Ledger, t: State, k: Ledger, a: nat, u: nat, c: Cycle) {
    && Synced(t, k, c.seen, c.unseen) && |t.beats| == |s.beats| + 1
    && Sum(t.rows) == Sum(s.rows) + RecordedBy(a, c)
    && k.missed == l.missed + MissedBy(a, u, c) && k.twice == l.twice
  }

  lemma OneMoreSync(s: State, l: Ledger, beat: nat, a: nat, u: nat, c: Cycle)
    requires Synced(s, l, a, u) && beat == |s.beats|
    ensures var events := OneSync(c, beat);
            Advances(s, l, Run(s, events), Books(l, s, events), a, u, c)
  {
    AfterOneSync(s, l, a, u, c);
    RunIsTied(s, l, OneSync(c, |s.beats|));
    RecordedSum(s.rows, c.seen);
  }

  /** What a sequence of syncs has made of the table and the ledger. */
  predicate AddedUp(s: State, l: Ledger, t: State, k: Ledger, a: nat, u: nat, cs: seq<Cycle>) {
    && Synced(t, k, LastSeen(a, cs), LastUnseen(u, cs)) && |t.beats| == |s.beats| + |cs|
    && Sum(t.rows) == Sum(s.rows) + RecordedByAll(a, cs)
    && k.missed == l.missed + MissedByAll(a, u, cs) && k.twice == l.twice
  }

  lemma AddsUpWith(s: State, l: Ledger, t: State, k: Ledger, t': State, k': Ledger, a: nat, u: nat,
                   cs: seq<Cycle>, c: Cycle)
    requires AddedUp(s, l, t, k, a, u, cs)
    requires Advances(t, k, t', k', LastSeen(a, cs), LastUnseen(u, cs), c)
    ensures AddedUp(s, l, t', k', a, u, cs + [c])
  {
    assert (cs + [c])[..|cs|] == cs;
  }

  lemma OneMoreAddsUp(s: State, l: Ledger, a: nat, u: nat, cs: seq<Cycle>, c: Cycle,
                      before: seq<Event>, last: seq<Event>)
    requires var t, k := Run(s, before), Books(l, s, before);
             && AddedUp(s, l, t, k, a, u, cs)
             && Advances(t, k, Run(t, last), Books(k, t, last), LastSeen(a, cs), LastUnseen(u, cs), c)
    ensures AddedUp(s, l, Run(s, before + last), Books(l, s, before + last), a, u, cs + [c])
  {
    var t, k := Run(s, before), Books(l, s, before);
    JoinedAt(s, l, before, last, t, k);
    AddsUpWith(s, l, t, k, Run(t, last), Books(k, t, last), a, u, cs, c);
  }

  lemma SyncsGoOn(s: State, l: Ledger, a: nat, u: nat, cs: seq<Cycle>, c: Cycle, before: seq<Event>)
    requires AddedUp(s, l, Run(s, before), Books(l, s, before), a, u, cs)
    ensures var all := before + OneSync(c, |s.beats| + |cs|);
            AddedUp(s, l, Run(s, all), Books(l, s, all), a, u, cs + [c])
  {
    var t, k, beat := Run(s, before), Books(l, s, before), |s.beats| + |cs|;
    OneMoreSync(t, k, beat, LastSeen(a, cs), LastUnseen(u, cs), c);
    OneMoreAddsUp(s, l, a, u, cs, c, before, OneSync(c, beat));
  }

  /** What every sequence of syncs records and misses: nothing is counted twice, and each sync misses
      what its predecessor's heartbeat did not see and, unless its total is the smaller one, the
      predecessor's whole total. */
  lemma {:induction false} SyncsAddUp(s: State, l: Ledger, a: nat, u: nat, cs: seq<Cycle>)
    requires Synced(s, l, a, u)
    ensures var events := Syncs(cs, |s.beats|);
            AddedUp(s, l, Run(s, events), Books(l, s, events), a, u, cs)
  {
    if cs != [] {
      var front, c := cs[..|cs| - 1], cs[|cs| - 1];
      SyncsAddUp(s, l, a, u, front);
      SyncsGoOn(s, l, a, u, front, c, Syncs(front, |s.beats|));
      assert front + [c] == cs;
    }
  }

  /** Every heartbeat saw everything, the last one perhaps not, and every total is smaller than the one
      before it or follows a zero. */
  predicate Falling(a: nat, u: nat, cs: seq<Cycle>) {
    forall i | 0 <= i < |cs| :: FallsAt(a, u, cs, i)
  }

  predicate FallsAt(a: nat, u: nat, cs: seq<Cycle>, i: nat)
    requires i < |cs|
  {
    var last := LastSeen(a, cs[..i]);
    LastUnseen(u, cs[..i]) == 0 && (cs[i].seen < last || last == 0)
  }

  lemma FallingGrows(a: nat, u: nat, cs: seq<Cycle>)
    requires cs != []
    ensures Falling(a, u, cs) <==> Falling(a, u, cs[..|cs| - 1]) && FallsAt(a, u, cs, |cs| - 1)
  {
    var n := |cs| - 1;
    var front := cs[..n];
    forall i | 0 <= i < n ensures FallsAt(a, u, cs, i) <==> FallsAt(a, u, front, i) {
      assert front[..i] == cs[..i] && front[i] == cs[i];
    }
  }

  /** A sequence of syncs misses nothing exactly when the node moves less and less between them. */
  lemma {:induction false} SyncsMissNothingExactly(a: nat, u: nat, cs: seq<Cycle>)
    ensures MissedByAll(a, u, cs) == 0 <==> Falling(a, u, cs)
  {
    if cs != [] {
      SyncsMissNothingExactly(a, u, cs[..|cs| - 1]);
      FallingGrows(a, u, cs);
    }
  }

  /** A node that moves the same amount between syncs records nothing, for ever. */
  lemma {:induction false} SteadyTrafficRecordsNothing(a: nat, cs: seq<Cycle>)
    requires forall c <- cs :: c == Cycle(a, 0)
    ensures RecordedByAll(a, cs) == 0 && MissedByAll(a, 0, cs) == |cs| * a
  {
    if cs != [] {
      var n := |cs| - 1;
      var front := cs[..n];
      assert cs[n] in cs && forall c <- front :: c in cs;
      SteadyTrafficRecordsNothing(a, front);
      assert n == 0 || front[n - 1] in cs;
      assert |cs| * a == n * a + a;
    }
  }

  // ---------------------------------------------------------------- what deltas count twice

  /** The next delta against the bytes moved since the last row's reading, when that heartbeat is
      followed by transfers and resets and then a good one. After a good heartbeat the delta is never
      more; after a blank one it is the whole counter, which is more exactly when the counter was
      running then and has not been reset since. */
  lemma {:induction false} NextDelta(s: State, between: seq<Event>)
    requires forall e <- between :: e.Transfer? || e.Reset?
    ensures var t := Run(s, between);
            && Delta(t.counter, s.counter, true) <= t.moved - s.moved
            && Delta(t.counter, 0, true) == t.counter
            && (t.counter <= t.moved - s.moved <==> s.counter == 0 || Reset in between)
  {
    CounterGoesOn(s, between);
    var t := Run(s, between);
    DeltaOfReadings(s.counter, s.moved, t.counter, t.moved);
  }

  lemma {:induction false} CounterGoesOn(s: State, between: seq<Event>)
    requires forall e <- between :: e.Transfer? || e.Reset?
    ensures var t := Run(s, between);
            && t.moved >= s.moved
            && (if Reset in between then t.counter <= t.moved - s.moved
                else t.counter == s.counter + (t.moved - s.moved))
    decreases |between|
  {
    if between != [] {
      var before, last := between[..|between| - 1], between[|between| - 1];
      assert last in between && forall e <- before :: e in between;
      CounterGoesOn(s, before);
      assert between == before + [last];
      assert Reset in between <==> Reset in before || last == Reset;
    }
  }

  /** Two readings recorded one after the other. */
  function TwoRows(i: nat, j: nat): seq<Event> { [Store(i), Record] + [Store(j), Record] }

  lemma AfterTwoRows(s: State, i: nat, j: nat)
    requires i < |s.beats| && j < |s.beats|
    ensures Run(s, TwoRows(i, j))
         == s.(current := j, rows := Snapshot(Snapshot(s.rows, s.beats[i]), s.beats[j]))
    ensures Sum(Run(s, TwoRows(i, j)).rows)
         == Sum(s.rows) + (if s.rows == [] then 0 else Delta(s.beats[i], LastTotal(s.rows), true))
            + Delta(s.beats[j], s.beats[i], true)
  {
    RunsJoin(s, BLANK, [Store(i), Record], [Store(j), Record]);
    RunTwo(s, BLANK, Store(i), Record);
    RunTwo(Run(s, [Store(i), Record]), BLANK, Store(j), Record);
    RecordedSum(s.rows, s.beats[i]);
    RecordedSum(Snapshot(s.rows, s.beats[i]), s.beats[j]);
  }

  /** From any state whose last row is the reading j, recording another reading i and then j again adds
      deltas although nothing moves: for a blank reading the whole of j once more, and for an earlier,
      smaller one stored late also just that. They add nothing exactly when j is zero or both agree. */
  lemma StrayReadingCountsTwice(s: State, i: nat, j: nat)
    requires i < |s.beats| && j < |s.beats| && s.rows != [] && LastTotal(s.rows) == s.beats[j]
    ensures var t := Run(s, TwoRows(i, j));
            && t.moved == s.moved && t.counter == s.counter
            && (s.beats[i] < s.beats[j] ==> Sum(t.rows) == Sum(s.rows) + s.beats[j])
            && (Sum(t.rows) == Sum(s.rows) <==> s.beats[i] == s.beats[j])
  {
    AfterTwoRows(s, i, j);
  }

  /** The ledger of a blank reading recorded right after a current row: the bytes of the counter are
      counted twice by the next delta, and nothing is missed. */
  lemma BlankRowIsBooked(s: State, l: Ledger)
    requires Tied(s, l) && s.rows != [] && LastTotal(s.rows) == s.counter && l.lastAt == s.moved
    ensures var blank := [Take(false), Store(|s.beats|), Record];
            var k := Books(l, s, blank);
            k.twice == l.twice + s.counter && k.missed == l.missed && k.lastAt == s.moved - s.counter
  {
    RunThree(s, l, Take(false), Store(|s.beats|), Record);
  }

  // ---------------------------------------------------------------- since the first snapshot

  /** The deltas never exceed the bytes moved since the snapshot taken in this state, however an orderly
      run goes on. */
  ghost predicate BoundedSince(first: State) {
    forall events: seq<Event> | Orderly(first, events) ::
      Sum(Run(first, events).rows) <= Run(first, events).moved - first.moved
  }

  /** The reading numbered i, or the counter as the one to be taken next. */
  function Outstanding(s: State, i: nat): nat { if i < |s.beats| then s.beats[i] else s.counter }

  /** No two readings that can still be recorded, in their order, give a delta: each is the same as the
      stored one until one is zero, and zero from then on, and so is the counter. */
  predicate Current(s: State) {
    forall i, j | s.current <= i < j <= |s.beats| ::
      Outstanding(s, j) == Outstanding(s, i) || Outstanding(s, j) == 0
  }

  /** The bound since the first snapshot itself holds for every continuation if and only if the snapshot
      was current, heartbeats on their way included. */
  lemma BoundSinceFirstSnapshot(before: seq<Event>)
    requires Run(START, before).rows == []
    ensures var s := Run(START, before);
            BoundedSince(Step(s, Record)) <==> Current(s)
  {
    RunIsTied(START, BLANK, before);
    var s := Run(START, before);
    var first := Step(s, Record);
    assert first.rows == [Row(Reported(s), 0)];
    forall i: nat ensures Outstanding(first, i) == Outstanding(s, i) {
    }
    assert Current(first) <==> Current(s);
    if Current(first) {
      CurrentSnapshotBounds(first);
    } else {
      var i, j :| first.current <= i < j <= |first.beats|
                  && Outstanding(first, j) != Outstanding(first, i) && Outstanding(first, j) != 0;
      StaleSnapshotFails(first, i, j);
    }
  }

  lemma CurrentSnapshotBounds(first: State)
    requires first.current < |first.beats| && first.rows == [Row(Reported(first), 0)]
    requires Current(first)
    ensures BoundedSince(first)
  {
    var m := first.moved;
    var l := Ledger(seq(|first.beats|, i => m), m, m, 0, 0);
    assert Sum(first.rows) == 0 by { RecordedSum([], Reported(first)); }
    forall i | first.current <= i < |first.beats|
      ensures Follows(first.beats[i], m, first.counter, m)
      ensures Follows(Reported(first), m, first.beats[i], m)
    {
      assert Outstanding(first, |first.beats|) == first.counter;
      assert Outstanding(first, i) == first.beats[i];
      assert Outstanding(first, first.current) == Reported(first);
    }
    forall i, j | first.current <= i < j < |first.beats|
      ensures Follows(first.beats[i], m, first.beats[j], m)
    {
      assert Outstanding(first, i) == first.beats[i] && Outstanding(first, j) == first.beats[j];
    }
    assert Sound(first, l);
    forall events: seq<Event> | Orderly(first, events)
      ensures Sum(Run(first, events).rows) <= Run(first, events).moved - m
    {
      RunIsSound(first, l, events);
    }
  }

  /** The run that fails: the two readings are recorded right after the first snapshot. */
  lemma StaleSnapshotFails(first: State, i: nat, j: nat)
    requires first.current < |first.beats| && first.rows == [Row(Reported(first), 0)]
    requires first.current <= i < j <= |first.beats|
    requires Outstanding(first, j) != Outstanding(first, i) && Outstanding(first, j) != 0
    ensures var events := [Take(true)] + TwoRows(i, j);
            && Orderly(first, events)
            && Run(first, events).moved == first.moved && Sum(Run(first, events).rows) > 0
    ensures !BoundedSince(first)
  {
    StaleRun(first, i, j);
    StaleRunIsOrderly(first, i, j);
  }

  lemma StaleRun(first: State, i: nat, j: nat)
    requires first.current < |first.beats| && first.rows == [Row(Reported(first), 0)]
    requires first.current <= i < j <= |first.beats|
    requires Outstanding(first, j) != Outstanding(first, i) && Outstanding(first, j) != 0
    ensures var t := Run(first, [Take(true)] + TwoRows(i, j));
            t.moved == first.moved && Sum(t.rows) > 0
  {
    var taken := Step(first, Take(true));
    assert taken.beats[i] == Outstanding(first, i) && taken.beats[j] == Outstanding(first, j);
    StaleDeltas(taken, i, j);
    TakenFirst(first, TwoRows(i, j));
  }

  lemma TakenFirst(s: State, events: seq<Event>)
    ensures Run(s, [Take(true)] + events) == Run(Step(s, Take(true)), events)
  {
    RunOne(s, BLANK, Take(true));
    RunsJoin(s, BLANK, [Take(true)], events);
  }

  lemma StaleDeltas(taken: State, i: nat, j: nat)
    requires |taken.rows| == 1 && taken.rows[0].delta == 0 && taken.rows[0].total >= 0
    requires i < |taken.beats| && j < |taken.beats|
    requires taken.beats[j] != taken.beats[i] && taken.beats[j] != 0
    ensures var t := Run(taken, TwoRows(i, j));
            t.moved == taken.moved && Sum(t.rows) > 0
  {
    AfterTwoRows(taken, i, j);
    assert Sum(taken.rows[..0]) == 0 && Sum(taken.rows) == 0;
  }

  lemma OrderlyJoin(s: State, before: seq<Event>, e: Event)
    requires Orderly(s, before) && e != Take(false)
    requires e.Store? ==> e.beat >= Run(s, before).current
    ensures Orderly(s, before + [e])
  {
    var all := before + [e];
    assert all[..|all| - 1] == before;
  }

  lemma StaleRunIsOrderly(first: State, i: nat, j: nat)
    requires first.current <= i < j <= |first.beats|
    ensures Orderly(first, [Take(true)] + TwoRows(i, j))
  {
    var one := [Take(true)];
    assert one == [] + [Take(true)];
    OrderlyJoin(first, [], Take(true));
    RunOne(first, BLANK, Take(true));
    OrderlyJoin(first, one, Store(i));
    RunsJoin(first, BLANK, one, [Store(i)]);
    RunOne(Run(first, one), BLANK, Store(i));
    OrderlyJoin(first, one + [Store(i)], Record);
    RunsJoin(first, BLANK, one + [Store(i)], [Record]);
    RunOne(Run(first, one + [Store(i)]), BLANK, Record);
    OrderlyJoin(first, one + [Store(i)] + [Record], Store(j));
    OrderlyJoin(first, one + [Store(i)] + [Record] + [Store(j)], Record);
    assert one + [Store(i)] + [Record] + [Store(j)] + [Record] == one + TwoRows(i, j);
  }

  /** A node without an agent is read for its snapshots: the bound since the first one holds. */
  lemma DirectSnapshotsAreBounded(before: seq<Event>)
    requires Run(START, before).rows == []
    ensures var s := Run(START, before);
            BoundedSince(Step(Step(Step(s, Take(true)), Store(|s.beats|)), Record))
  {
    var s := Run(START, before);
    var read := Step(Step(s, Take(true)), Store(|s.beats|));
    var first := Step(read, Record);
    assert first.rows == [Row(s.counter, 0)];
    CurrentSnapshotBounds(first);
  }
}
