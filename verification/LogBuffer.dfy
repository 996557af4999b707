/** Log records, the ring that keeps the newest of them, and the context a thread attaches to them. */
module LogBuffer {
  import opened Wrappers

  datatype Pair = Pair(key: string, value: string)

  datatype Record = Record(ms: nat, level: string, thread: string, message: string, context: seq<Pair>)

  // ----- the ring -----

  const CAPACITY: nat := 5000

  /** The last `n` elements, or all of them. */
  function Newest<T>(s: seq<T>, n: nat): (r: seq<T>)
    ensures |r| == if |s| < n then |s| else n
  {
    if |s| <= n then s else s[|s| - n..]
  }

  function Pushed(buffer: seq<Record>, e: Record): seq<Record> {
    (if |buffer| == CAPACITY then buffer[1..] else buffer) + [e]
  }

  function AfterWrites(writes: seq<Record>): seq<Record> {
    if writes == [] then [] else Pushed(AfterWrites(writes[..|writes| - 1]), writes[|writes| - 1])
  }

  class Ring {
    var buffer: seq<Record>

    constructor ()
      ensures buffer == AfterWrites([])
    {
      buffer := [];
    }

    method Write(e: Record, ghost writes: seq<Record>)
      requires buffer == AfterWrites(writes)
      modifies this
      ensures buffer == Pushed(old(buffer), e)
      ensures buffer == Newest(writes + [e], 5000)
    {
      if |buffer| == CAPACITY {
        buffer := buffer[1..];
      }
      buffer := buffer + [e];
      assert (writes + [e])[..|writes|] == writes;
      RingIsNewest(writes + [e]);
    }
  }

  /** After any writes the ring is the last 5000 of them, in order. */
  lemma {:induction false} RingIsNewest(writes: seq<Record>)
    ensures AfterWrites(writes) == Newest(writes, 5000)
  {
    if writes != [] {
      var n := |writes| - 1;
      RingIsNewest(writes[..n]);
      assert writes == writes[..n] + [writes[n]];
    }
  }

  // ----- scoped context -----

  /** Guards are numbered by one counter that all threads share. */
  datatype Scope = Scope(id: nat, pair: Pair)

  datatype Event =
    | Push(on: int, pair: Pair)
    | Drop(on: int, id: nat)

  function Pushes(events: seq<Event>): nat {
    if events == [] then 0 else
      Pushes(events[..|events| - 1]) + if events[|events| - 1].Push? then 1 else 0
  }

  /** `retain`. */
  function Without(stack: seq<Scope>, id: nat): seq<Scope> {
    if stack == [] then [] else (if stack[0].id == id then [] else [stack[0]]) + Without(stack[1..], id)
  }

  /** The stack of a thread; the first guard has number 1. */
  function Stack(events: seq<Event>, thread: int): seq<Scope> {
    if events == [] then [] else
      var before, e := events[..|events| - 1], events[|events| - 1];
      var stack := Stack(before, thread);
      if e.on != thread then stack
      else if e.Push? then stack + [Scope(Pushes(before) + 1, e.pair)]
      else Without(stack, e.id)
  }

  class ThreadContext {
    const thread: int
    var stack: seq<Scope>

    constructor (thread: int)
      ensures this.thread == thread && stack == Stack([], thread)
    {
      this.thread := thread;
      stack := [];
    }

    /** `next` is what the shared counter gives. */
    method PushContext(pair: Pair, next: nat, ghost events: seq<Event>) returns (guard: nat)
      requires stack == Stack(events, thread) && next == Pushes(events) + 1
      modifies this
      ensures guard == next && stack == old(stack) + [Scope(guard, pair)]
      ensures stack == Stack(events + [Push(thread, pair)], thread)
    {
      guard := next;
      stack := stack + [Scope(guard, pair)];
      assert (events + [Push(thread, pair)])[..|events|] == events;
    }

    method DropGuard(guard: nat, ghost events: seq<Event>)
      requires stack == Stack(events, thread)
      modifies this
      ensures stack == Without(old(stack), guard)
      ensures stack == Stack(events + [Drop(thread, guard)], thread)
    {
      var kept: seq<Scope> := [];
      var i := 0;
      while i < |stack|
        invariant i <= |stack| && stack == old(stack)
        invariant kept + Without(stack[i..], guard) == Without(stack, guard)
      {
        assert stack[i..] == [stack[i]] + stack[i + 1..];
        if stack[i].id != guard {
          kept := kept + [stack[i]];
        }
        i := i + 1;
      }
      assert kept == kept + Without(stack[i..], guard);
      stack := kept;
      assert (events + [Drop(thread, guard)])[..|events|] == events;
    }
  }

  /** Event `p` is the push that made guard `s`. */
  predicate Made(events: seq<Event>, p: nat, thread: int, s: Scope) {
    p < |events| && events[p] == Push(thread, s.pair) && s.id == Pushes(events[..p]) + 1
  }

  predicate DroppedOn(events: seq<Event>, p: nat, thread: int, id: nat) {
    exists q :: p < q < |events| && events[q] == Drop(thread, id)
  }

  ghost predicate Kept(events: seq<Event>, thread: int, s: Scope) {
    exists p: nat :: Made(events, p, thread, s) && !DroppedOn(events, p, thread, s.id)
  }

  lemma {:induction false} WithoutMembers(stack: seq<Scope>, id: nat)
    ensures forall s :: s in Without(stack, id) <==> s in stack && s.id != id
  {
    if stack != [] {
      WithoutMembers(stack[1..], id);
      assert stack == [stack[0]] + stack[1..];
    }
  }

  predicate Increasing(stack: seq<Scope>) {
    forall i, j | 0 <= i < j < |stack| :: stack[i].id < stack[j].id
  }

  lemma {:induction false} WithoutIncreasing(stack: seq<Scope>, id: nat)
    requires Increasing(stack)
    ensures Increasing(Without(stack, id))
  {
    if stack != [] {
      var rest := Without(stack[1..], id);
      WithoutIncreasing(stack[1..], id);
      WithoutMembers(stack[1..], id);
      forall j | 0 <= j < |rest| ensures stack[0].id < rest[j].id {
        assert rest[j] in rest;
        assert rest[j] in stack[1..];
      }
    }
  }

  /** Pushes stand in the stack in the order they were made. */
  lemma {:induction false} StackInPushOrder(events: seq<Event>, thread: int)
    ensures Increasing(Stack(events, thread))
    ensures forall s | s in Stack(events, thread) :: s.id <= Pushes(events)
  {
    if events != [] {
      var before, e := events[..|events| - 1], events[|events| - 1];
      StackInPushOrder(before, thread);
      WithoutMembers(Stack(before, thread), if e.Drop? then e.id else 0);
      if e.Drop? {
        WithoutIncreasing(Stack(before, thread), e.id);
      } else {
        var held := Stack(before, thread);
        assert forall i | 0 <= i < |held| :: held[i] in held;
      }
    }
  }

  lemma KeptBefore(before: seq<Event>, e: Event, thread: int, s: Scope)
    requires Kept(before, thread, s) && e != Drop(thread, s.id)
    ensures Kept(before + [e], thread, s)
  {
    var p: nat :| Made(before, p, thread, s) && !DroppedOn(before, p, thread, s.id);
    var events := before + [e];
    assert events[..p] == before[..p];
    assert Made(events, p, thread, s);
    forall q | p < q < |events| ensures events[q] != Drop(thread, s.id) {
      assert q < |before| ==> before[q] == events[q];
    }
  }

  lemma KeptAfter(before: seq<Event>, e: Event, thread: int, s: Scope)
    requires Kept(before + [e], thread, s)
    ensures (Kept(before, thread, s) && e != Drop(thread, s.id)) || (e == Push(thread, s.pair) && s.id == Pushes(before) + 1)
  {
    var events := before + [e];
    var p: nat :| Made(events, p, thread, s) && !DroppedOn(events, p, thread, s.id);
    assert events[..p] == before[..p];
    if p < |before| {
      assert Made(before, p, thread, s);
      forall q | p < q < |before| ensures before[q] != Drop(thread, s.id) {
        assert before[q] == events[q];
      }
      assert events[|before|] == e;
    } else {
      assert before[..p] == before;
    }
  }

  /** A thread's context is exactly the guards made on it and not yet dropped on it. */
  lemma {:induction false} StackIsKept(events: seq<Event>, thread: int, s: Scope)
    ensures s in Stack(events, thread) <==> Kept(events, thread, s)
  {
    if events != [] {
      var before, e := events[..|events| - 1], events[|events| - 1];
      assert events == before + [e];
      StackIsKept(before, thread, s);
      if e.Drop? {
        WithoutMembers(Stack(before, thread), e.id);
      }
      if Kept(events, thread, s) {
        KeptAfter(before, e, thread, s);
      }
      if Kept(before, thread, s) && e != Drop(thread, s.id) {
        KeptBefore(before, e, thread, s);
      }
      if e == Push(thread, s.pair) && s.id == Pushes(before) + 1 {
        assert Made(events, |before|, thread, s);
      }
    }
  }

  /** A guard is live until it is dropped, on whatever thread that happens. */
  ghost predicate Live(events: seq<Event>, thread: int, s: Scope) {
    exists p: nat :: Made(events, p, thread, s) && forall q, other | p < q < |events| :: events[q] != Drop(other, s.id)
  }

  /** The guards made on `thread` are dropped on `thread`. */
  ghost predicate DroppedAtHome(events: seq<Event>, thread: int) {
    forall p: nat, q: nat | p < q < |events| && events[p].Push? && events[p].on == thread
      && events[q].Drop? && events[q].id == Pushes(events[..p]) + 1 :: DroppedOn(events, p, thread, events[q].id)
  }

  lemma {:induction false} PushesGrow(events: seq<Event>, p: nat, q: nat)
    requires p < q <= |events| && events[p].Push?
    ensures Pushes(events[..p]) < Pushes(events[..q])
  {
    assert events[..q][..q - 1] == events[..q - 1];
    if q > p + 1 {
      PushesGrow(events, p, q - 1);
    }
  }

  lemma MadeOnce(events: seq<Event>, p: nat, q: nat, thread: int, s: Scope)
    requires Made(events, p, thread, s) && Made(events, q, thread, s)
    ensures p == q
  {
    if p < q {
      PushesGrow(events, p, q);
    } else if q < p {
      PushesGrow(events, q, p);
    }
  }

  lemma LiveIsKept(events: seq<Event>, thread: int, s: Scope)
    requires Live(events, thread, s)
    ensures Kept(events, thread, s)
  {
    var p: nat :| Made(events, p, thread, s) && forall q, other | p < q < |events| :: events[q] != Drop(other, s.id);
    assert !DroppedOn(events, p, thread, s.id);
  }

  lemma KeptIsLive(events: seq<Event>, thread: int, s: Scope)
    requires DroppedAtHome(events, thread) && Kept(events, thread, s)
    ensures Live(events, thread, s)
  {
    var p: nat :| Made(events, p, thread, s) && !DroppedOn(events, p, thread, s.id);
    forall q, other | p < q < |events| ensures events[q] != Drop(other, s.id) {
    }
  }

  /** A guard that was dropped only on another thread stays in the context. */
  lemma StrayStays(events: seq<Event>, thread: int, p: nat, q: nat) returns (s: Scope)
    requires p < q < |events| && events[p].Push? && events[p].on == thread
    requires events[q].Drop? && events[q].id == Pushes(events[..p]) + 1
    requires !DroppedOn(events, p, thread, events[q].id)
    ensures Kept(events, thread, s) && !Live(events, thread, s)
  {
    s := Scope(events[q].id, events[p].pair);
    assert Made(events, p, thread, s) && events[q] == Drop(events[q].on, s.id);
    if Live(events, thread, s) {
      var r: nat :| Made(events, r, thread, s) && forall k, other | r < k < |events| :: events[k] != Drop(other, s.id);
      MadeOnce(events, p, r, thread, s);
    }
  }

  ghost predicate ContextIsLive(events: seq<Event>, thread: int) {
    forall s :: s in Stack(events, thread) <==> Live(events, thread, s)
  }

  /** The context is the live guards exactly when the thread's guards are dropped on the thread. */
  lemma ContextIsLiveExactly(events: seq<Event>, thread: int)
    ensures ContextIsLive(events, thread) <==> DroppedAtHome(events, thread)
  {
    forall s ensures s in Stack(events, thread) <==> Kept(events, thread, s) {
      StackIsKept(events, thread, s);
    }
    forall s | Live(events, thread, s) ensures Kept(events, thread, s) {
      LiveIsKept(events, thread, s);
    }
    if DroppedAtHome(events, thread) {
      forall s | Kept(events, thread, s) ensures Live(events, thread, s) {
        KeptIsLive(events, thread, s);
      }
    } else {
      var p: nat, q: nat :| p < q < |events| && events[p].Push? && events[p].on == thread
        && events[q].Drop? && events[q].id == Pushes(events[..p]) + 1 && !DroppedOn(events, p, thread, events[q].id);
      var s := StrayStays(events, thread, p, q);
    }
  }

  /** It happens: a guard made on thread 0 and dropped on thread 1 stays in the context of thread 0. */
  lemma StrayGuard(p: Pair)
    ensures var events := [Push(0, p), Drop(1, 1)];
      Stack(events, 0) == [Scope(1, p)] && !Live(events, 0, Scope(1, p)) && !ContextIsLive(events, 0)
  {
    var events := [Push(0, p), Drop(1, 1)];
    assert events[..1] == [Push(0, p)] && [Push(0, p)][..0] == [] && events[..0] == [];
    assert Stack([Push(0, p)], 0) == [] + [Scope(1, p)];
    assert Made(events, 0, 0, Scope(1, p)) && events[1] == Drop(1, 1);
    forall q: nat | Made(events, q, 0, Scope(1, p)) ensures q == 0 {
      MadeOnce(events, 0, q, 0, Scope(1, p));
    }
    assert Scope(1, p) in Stack(events, 0);
  }
}
