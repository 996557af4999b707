/** How runs are put together, and what one action does to the state. */
module OutboxRuns {
  import opened Wrappers
  import opened OutboxModel
  import opened OutboxProtocol
  import opened OutboxSafety

  lemma {:induction false} AfterMore(s: State, acts: seq<Action>, more: seq<Action>)
    ensures After(s, acts + more) == After(After(s, acts), more)
  {
    if more == [] {
      assert acts + more == acts;
    } else {
      var n := |more| - 1;
      AfterMore(s, acts, more[..n]);
      assert (acts + more)[..|acts| + n] == acts + more[..n];
    }
  }

  lemma AfterOne(s: State, acts: seq<Action>, a: Action)
    ensures After(s, acts + [a]) == Exec(After(s, acts), a)
  {
    assert (acts + [a])[..|acts|] == acts;
  }

  lemma AfterFirst(s: State, a: Action, more: seq<Action>)
    ensures After(s, [a] + more) == After(Exec(s, a), more)
  {
    AfterMore(s, [a], more);
    AfterOne(s, [], a);
    assert [] + [a] == [a];
  }

  /** A run from a state that satisfies the invariant ends in one. */
  lemma {:induction false} RunKeepsInv(s: State, acts: seq<Action>)
    requires Inv(s)
    ensures Inv(After(s, acts))
  {
    if acts != [] {
      RunKeepsInv(s, acts[..|acts|-1]);
      StepKeeps(After(s, acts[..|acts|-1]), acts[|acts|-1]);
    }
  }

  /** What a caller's step leaves. */
  lemma CallTo(s: State, c: nat, uuid: int, e: Effect<CallerPc>)
    requires Enabled(s, Call(c, uuid)) && e == CallStep(s.jobs, s.ledger, s.clock, s.callers[c], uuid)
    ensures var n := Exec(s, Call(c, uuid));
      && n.jobs == e.jobs && n.callers == Put(s.callers, c, e.pc) && n.used == s.used + e.jobs.Keys
      && n.clock == s.clock && n.workers == s.workers && n.owners == s.owners && n.ledger == e.ledger
  {
  }

  /** What a worker's step leaves. */
  lemma WorkTo(s: State, o: string, outcome: Outcome, jitter: nat, e: Effect<WorkerPc>)
    requires o in s.workers && jitter < RETRY_JITTER_MS && e == WorkStep(s.jobs, s.ledger, s.clock, o, s.workers[o], outcome, jitter)
    ensures var n := Exec(s, Work(o, outcome, jitter));
      && n.jobs == e.jobs && n.workers == Put(s.workers, o, e.pc) && n.used == s.used + e.jobs.Keys
      && n.clock == s.clock && n.callers == s.callers && n.owners == s.owners && n.ledger == e.ledger
  {
  }
}
