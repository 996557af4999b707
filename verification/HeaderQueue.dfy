/**
 The network observer's per-tab queues: records wait for 80 ms or for fifty of them,
 whichever comes first, and are then handed over as one batch.
 */
module HeaderQueue {
  import opened Wrappers

  const MAX_BATCH_SIZE: nat := 50

  /** A received header record, identified by its number. */
  type Record = int

  datatype Entry = Entry(entries: seq<Record>, timer: Option<nat>)

  /** Batches in the order they were handed over, per tab. */
  type Batches = map<int, seq<seq<Record>>>

  function BatchesOf(b: Batches, tab: int): seq<seq<Record>> {
    if tab in b then b[tab] else []
  }

  /**
   The queue, the timers that are set, and the batches handed over. `orphans` counts the
   flushes that left records in an entry no longer in the map.
   */
  datatype State = State(queue: map<int, Entry>, timers: map<nat, int>, nextTimer: nat, orphans: nat, flushed: Batches)

  const START := State(map[], map[], 0, 0, map[])

  function SetTimer(s: State, tab: int): State {
    s.(timers := s.timers[s.nextTimer := tab], nextTimer := s.nextTimer + 1)
  }

  /** Takes the tab's entry out of the map, hands over its first fifty records, and arms a timer if any are left. */
  function FlushTabQueue(s: State, tab: int): State {
    if tab !in s.queue then s else
      var all := s.queue[tab].entries;
      var k := if |all| < MAX_BATCH_SIZE then |all| else MAX_BATCH_SIZE;
      var taken := s.(queue := s.queue - {tab});
      if k == 0 then taken else
        var handed := taken.(flushed := s.flushed[tab := BatchesOf(s.flushed, tab) + [all[..k]]]);
        if |all| > k then SetTimer(handed, tab).(orphans := s.orphans + 1) else handed
  }

  function EntryOf(s: State, tab: int): Entry {
    if tab in s.queue then s.queue[tab] else Entry([], None)
  }

  /** A header record arrives. Records without a real tab are ignored. */
  function EnqueueHeaders(s: State, tab: Option<int>, r: Record): State {
    if tab.None? || tab.value < 0 then s else
      var known := EntryOf(s, tab.value);
      var entries := known.entries + [r];
      if |entries| >= MAX_BATCH_SIZE then
        var disarmed := if known.timer.Some? then s.(timers := s.timers - {known.timer.value}) else s;
        FlushTabQueue(disarmed.(queue := s.queue[tab.value := Entry(entries, None)]), tab.value)
      else if known.timer.None? then
        SetTimer(s, tab.value).(queue := s.queue[tab.value := Entry(entries, Some(s.nextTimer))])
      else s.(queue := s.queue[tab.value := Entry(entries, known.timer)])
  }

  /** A timer fires, if it is still set. */
  function Fire(s: State, t: nat): State {
    if t !in s.timers then s else FlushTabQueue(s.(timers := s.timers - {t}), s.timers[t])
  }

  /** The module state of the observer, updated in place. */
  class Observer {
    var queue: map<int, Entry>
    var timers: map<nat, int>
    var nextTimer: nat
    var orphans: nat
    var flushed: Batches

    ghost function View(): State
      reads this
    {
      State(queue, timers, nextTimer, orphans, flushed)
    }

    constructor ()
      ensures View() == START
    {
      queue, timers, nextTimer, orphans, flushed := map[], map[], 0, 0, map[];
    }

    method Arm(tab: int) returns (t: nat)
      modifies this`timers, this`nextTimer
      ensures t == old(nextTimer) && View() == SetTimer(old(View()), tab)
    {
      t := nextTimer;
      timers := timers[t := tab];
      nextTimer := nextTimer + 1;
    }

    method Flush(tab: int)
      modifies this
      ensures View() == FlushTabQueue(old(View()), tab)
    {
      if tab !in queue { return; }
      var entry := queue[tab];
      queue := queue - {tab};
      var k := if |entry.entries| < MAX_BATCH_SIZE then |entry.entries| else MAX_BATCH_SIZE;
      var batch, rest := entry.entries[..k], entry.entries[k..];
      if |batch| == 0 { return; }
      flushed := flushed[tab := BatchesOf(flushed, tab) + [batch]];
      if |rest| > 0 {
        var _ := Arm(tab);
        orphans := orphans + 1;
      }
    }

    method Enqueue(tab: Option<int>, r: Record)
      modifies this
      ensures View() == EnqueueHeaders(old(View()), tab, r)
    {
      if tab.None? || tab.value < 0 { return; }
      var entry := if tab.value in queue then queue[tab.value] else Entry([], None);
      entry := entry.(entries := entry.entries + [r]);
      if |entry.entries| >= MAX_BATCH_SIZE {
        if entry.timer.Some? {
          timers := timers - {entry.timer.value};
          entry := entry.(timer := None);
        }
        queue := queue[tab.value := entry];
        Flush(tab.value);
      } else {
        if entry.timer.None? {
          var t := Arm(tab.value);
          entry := entry.(timer := Some(t));
        }
        queue := queue[tab.value := entry];
      }
    }

    method Elapse(t: nat)
      requires t in timers
      modifies this
      ensures View() == Fire(old(View()), t)
    {
      var tab := timers[t];
      timers := timers - {t};
      Flush(tab);
    }
  }

  // ----- runs -----

  datatype Event = Arrive(tab: Option<int>, r: Record) | Elapsed(t: nat)

  function Step(s: State, e: Event): State {
    match e
    case Arrive(tab, r) => EnqueueHeaders(s, tab, r)
    case Elapsed(t) => Fire(s, t)
  }

  function After(events: seq<Event>): State {
    if events == [] then START else Step(After(events[..|events|-1]), events[|events|-1])
  }

  /** The records that arrived for a tab, in order. */
  function Received(events: seq<Event>, tab: int): seq<Record> {
    if events == [] then [] else
      var e := events[|events|-1];
      Received(events[..|events|-1], tab) + (if e.Arrive? && e.tab == Some(tab) && tab >= 0 then [e.r] else [])
  }

  function Flat(b: seq<seq<Record>>): seq<Record> {
    if b == [] then [] else Flat(b[..|b|-1]) + b[|b|-1]
  }

  lemma FlatAppend(b: seq<seq<Record>>, batch: seq<Record>)
    ensures Flat(b + [batch]) == Flat(b) + batch
  {
    assert (b + [batch])[..|b|] == b;
  }

  /** What a tab's records have become: the batches handed over, then the queue. */
  function Kept(s: State, tab: int): seq<Record> {
    Flat(BatchesOf(s.flushed, tab)) + EntryOf(s, tab).entries
  }

  predicate EntryOk(s: State, tab: int)
    requires tab in s.queue
  {
    var e := s.queue[tab];
    1 <= |e.entries| < MAX_BATCH_SIZE && e.timer.Some? && e.timer.value in s.timers && s.timers[e.timer.value] == tab
  }

  /** Each queued tab has exactly one live timer, and each live timer belongs to a queued tab. */
  predicate TimersOk(s: State) {
    && (forall tab | tab in s.queue :: EntryOk(s, tab))
    && (forall t | t in s.timers :: t < s.nextTimer && s.timers[t] in s.queue && s.queue[s.timers[t]].timer == Some(t))
  }

  predicate BatchesOk(s: State) {
    forall tab, b | tab in s.flushed && b in s.flushed[tab] :: 1 <= |b| <= MAX_BATCH_SIZE
  }

  predicate Inv(s: State) {
    TimersOk(s) && BatchesOk(s) && s.orphans == 0
  }

  /** A flush of one to fifty records hands over exactly them and leaves no orphan. */
  lemma FlushKeeps(s: State, tab: int)
    requires tab in s.queue && 1 <= |s.queue[tab].entries| <= MAX_BATCH_SIZE && BatchesOk(s) && s.orphans == 0
    requires forall x | x in s.queue && x != tab :: EntryOk(s, x)
    requires forall t | t in s.timers :: t < s.nextTimer && s.timers[t] in s.queue && s.timers[t] != tab && s.queue[s.timers[t]].timer == Some(t)
    ensures Inv(FlushTabQueue(s, tab))
    ensures forall x :: Kept(FlushTabQueue(s, tab), x) == Kept(s, x)
  {
    var n := FlushTabQueue(s, tab);
    var all := s.queue[tab].entries;
    assert all[..|all|] == all;
    assert n == s.(queue := s.queue - {tab}, flushed := s.flushed[tab := BatchesOf(s.flushed, tab) + [all]]);
    FlatAppend(BatchesOf(s.flushed, tab), all);
    forall x ensures Kept(n, x) == Kept(s, x) {
      if x == tab { assert Kept(n, x) == Flat(BatchesOf(s.flushed, tab)) + all; }
    }
    forall x | x in n.queue ensures EntryOk(n, x) { assert EntryOk(s, x); }
  }

  lemma FireKeeps(s: State, t: nat)
    requires Inv(s)
    ensures Inv(Fire(s, t)) && forall x :: Kept(Fire(s, t), x) == Kept(s, x)
  {
    if t in s.timers {
      var tab := s.timers[t];
      var d := s.(timers := s.timers - {t});
      assert EntryOk(s, tab);
      forall x | x in d.queue && x != tab ensures EntryOk(d, x) { assert EntryOk(s, x); }
      FlushKeeps(d, tab);
      assert forall x :: Kept(d, x) == Kept(s, x);
    }
  }

  /** The queue with the record added and its timer cleared, before the flush. */
  function Filled(s: State, tab: int, r: Record): State
    requires tab in s.queue && s.queue[tab].timer.Some?
  {
    s.(timers := s.timers - {s.queue[tab].timer.value}, queue := s.queue[tab := Entry(s.queue[tab].entries + [r], None)])
  }

  lemma FilledOk(s: State, tab: int, r: Record)
    requires Inv(s) && tab in s.queue && EntryOk(s, tab)
    ensures var d := Filled(s, tab, r);
      && (forall x | x in d.queue && x != tab :: EntryOk(d, x)) && BatchesOk(d)
      && (forall t | t in d.timers :: t < d.nextTimer && d.timers[t] in d.queue && d.timers[t] != tab && d.queue[d.timers[t]].timer == Some(t))
  {
    var d := Filled(s, tab, r);
    forall x | x in d.queue && x != tab ensures EntryOk(d, x) { assert EntryOk(s, x); }
  }

  lemma FilledKept(s: State, tab: int, r: Record, x: int)
    requires tab in s.queue && s.queue[tab].timer.Some?
    ensures Kept(Filled(s, tab, r), x) == if x == tab then Kept(s, x) + [r] else Kept(s, x)
  {
    var before := Flat(BatchesOf(s.flushed, tab));
    assert before + (s.queue[tab].entries + [r]) == (before + s.queue[tab].entries) + [r];
  }

  lemma FullKeeps(s: State, tab: int, r: Record)
    requires Inv(s) && tab >= 0 && |EntryOf(s, tab).entries| + 1 >= MAX_BATCH_SIZE
    ensures var n := EnqueueHeaders(s, Some(tab), r);
      Inv(n) && forall x :: Kept(n, x) == if x == tab then Kept(s, x) + [r] else Kept(s, x)
  {
    assert EntryOk(s, tab);
    var d := Filled(s, tab, r);
    FilledOk(s, tab, r);
    FlushKeeps(d, tab);
    assert EnqueueHeaders(s, Some(tab), r) == FlushTabQueue(d, tab);
    forall x ensures Kept(FlushTabQueue(d, tab), x) == if x == tab then Kept(s, x) + [r] else Kept(s, x) {
      FilledKept(s, tab, r, x);
    }
  }

  lemma RoomKeeps(s: State, tab: int, r: Record)
    requires Inv(s) && tab >= 0 && |EntryOf(s, tab).entries| + 1 < MAX_BATCH_SIZE
    ensures var n := EnqueueHeaders(s, Some(tab), r);
      Inv(n) && forall x :: Kept(n, x) == if x == tab then Kept(s, x) + [r] else Kept(s, x)
  {
    var n := EnqueueHeaders(s, Some(tab), r);
    if tab in s.queue { assert EntryOk(s, tab); }
    forall x | x in n.queue ensures EntryOk(n, x) {
      if x != tab { assert EntryOk(s, x); }
    }
    assert forall x :: Kept(n, x) == if x == tab then Kept(s, x) + [r] else Kept(s, x);
  }

  /**
   After any run: for each tab, the batches handed over and then the queue are the records
   received, in order; batches hold one to fifty records; every queued tab has exactly one
   timer; and no flush ever left records behind.
   */
  lemma {:induction false} NothingLostOrReordered(events: seq<Event>, tab: int)
    ensures Inv(After(events)) && Kept(After(events), tab) == Received(events, tab)
  {
    if events != [] {
      var n := |events| - 1;
      NothingLostOrReordered(events[..n], tab);
      var s := After(events[..n]);
      match events[n]
      case Elapsed(t) => FireKeeps(s, t);
      case Arrive(x, r) =>
        if x.Some? && x.value >= 0 {
          if |EntryOf(s, x.value).entries| + 1 >= MAX_BATCH_SIZE { FullKeeps(s, x.value, r); } else { RoomKeeps(s, x.value, r); }
        }
    }
  }

  // ----- what is handed over, and when -----

  /** After any run, a timer that fires hands over exactly what its tab had queued, and nothing else happens. */
  lemma FiringHandsOver(events: seq<Event>, t: nat)
    requires t in After(events).timers
    ensures var s, n := After(events), After(events + [Elapsed(t)]);
      var x := s.timers[t];
      && x in s.queue && x !in n.queue && t !in n.timers
      && BatchesOf(n.flushed, x) == BatchesOf(s.flushed, x) + [s.queue[x].entries]
      && (forall y | y != x :: BatchesOf(n.flushed, y) == BatchesOf(s.flushed, y) && EntryOf(n, y) == EntryOf(s, y))
  {
    NothingLostOrReordered(events, 0);
    assert (events + [Elapsed(t)])[..|events|] == events;
    var s := After(events);
    var all := s.queue[s.timers[t]].entries;
    assert EntryOk(s, s.timers[t]);
    assert all[..|all|] == all;
  }

  /**
   After any run, an arriving record is handed over at once exactly when it is the fiftieth
   queued record of its tab, together with the other forty-nine; otherwise it is queued, and
   a timer is set for the tab.
   */
  lemma ArrivalHandsOver(events: seq<Event>, x: int, r: Record)
    requires x >= 0
    ensures var s, n := After(events), After(events + [Arrive(Some(x), r)]);
      var queued := EntryOf(s, x).entries + [r];
      && (BatchesOf(n.flushed, x) != BatchesOf(s.flushed, x) <==> |queued| == 50)
      && (|queued| == 50 ==> x !in n.queue && BatchesOf(n.flushed, x) == BatchesOf(s.flushed, x) + [queued])
      && (|queued| != 50 ==> x in n.queue && n.queue[x].entries == queued && exists t :: t in n.timers && n.timers[t] == x)
      && (forall y | y != x :: BatchesOf(n.flushed, y) == BatchesOf(s.flushed, y) && EntryOf(n, y) == EntryOf(s, y))
  {
    NothingLostOrReordered(events, x);
    NothingLostOrReordered(events + [Arrive(Some(x), r)], x);
    assert (events + [Arrive(Some(x), r)])[..|events|] == events;
    var s := After(events);
    var queued := EntryOf(s, x).entries + [r];
    if x in s.queue { assert EntryOk(s, x); }
    assert queued[..|queued|] == queued;
    if |queued| != 50 {
      var n := After(events + [Arrive(Some(x), r)]);
      assert EntryOk(n, x);
    }
  }
}
