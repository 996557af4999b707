/**
 When a job that NOVA accepted stays `sent`, with any number of workers and any overlap of
 requeues: exactly when nobody is on the way to write its row.
 */
module OutboxSent {
  import opened Wrappers
  import opened Sets
  import opened OutboxModel
  import opened OutboxProtocol
  import opened OutboxSafety
  import opened OutboxRuns

  // ----- one step -----

  /** The worker's next write to row `id` is not the one that marks it `sent`. */
  predicate WorkerUnsends(w: WorkerPc, id: int) {
    match w
    case WLoop(todo) => todo != [] && todo[0].id == id
    case WSend(todo, _) => todo != [] && todo[0].id == id && !todo[0].parses
    case WMark(todo, _, p) => todo != [] && todo[0].id == id && !p.ToSent?
    case _ => false
  }

  /** The step is such a write of a worker, or the write of a requeue that read the row earlier. */
  predicate Unsends(s: State, a: Action, id: int) {
    Enabled(s, a) && ((a.Work? && WorkerUnsends(s.workers[a.o], id)) || (a.Call? && s.callers[a.c] == RPut(id)))
  }

  predicate SentIn(t: Table, id: int) {
    id in t && t[id].status.Sent?
  }

  lemma WorkUnsends(t: Table, l: Ledger, clock: int, o: string, w: WorkerPc, outcome: Outcome, jitter: nat, id: int)
    requires TableOk(t, clock) && |t| <= MAX_OUTBOX_JOBS && WorkerOk(w, clock) && jitter < RETRY_JITTER_MS && SentIn(t, id)
    ensures var r := WorkStep(t, l, clock, o, w, outcome, jitter).jobs;
      id in r ==> (SentIn(r, id) <==> !WorkerUnsends(w, id))
  {
    match w
    case WMaint(m) => MaintStepOk(t, m, clock);
    case WClaim(now, ids) => ClaimRows(t, ids, o, now, clock);
    case WReady =>
    case WRead(_) =>
    case WLoop(_) =>
    case WSend(_, _) =>
    case WMark(_, _, _) =>
  }

  lemma CallUnsends(t: Table, l: Ledger, clock: int, p: CallerPc, uuid: int, id: int)
    requires TableOk(t, clock) && |t| <= MAX_OUTBOX_JOBS && CallerOk(p, clock) && (p.EAdd? ==> p.job.id !in t) && SentIn(t, id)
    ensures var r := CallStep(t, l, clock, p, uuid).jobs;
      id in r ==> (SentIn(r, id) <==> p != RPut(id))
  {
    match p
    case EMaint(_, m) => MaintStepOk(t, m, clock);
    case EAdd(job) => AddOk(t, job, clock);
    case Sweep(m) => MaintStepOk(t, m, clock);
    case _ =>
  }

  lemma StepUnsends(s: State, a: Action, id: int)
    requires Inv(s) && SentIn(s.jobs, id) && id in Exec(s, a).jobs
    ensures SentIn(Exec(s, a).jobs, id) <==> !Unsends(s, a, id)
  {
    if Enabled(s, a) {
      if a.Work? { WorkUnsends(s.jobs, s.ledger, s.clock, a.o, s.workers[a.o], a.outcome, a.jitter, id); }
      else if a.Call? { CallUnsends(s.jobs, s.ledger, s.clock, s.callers[a.c], a.uuid, id); }
      else if Quiet(a) { QuietActors(s, a); }
    }
  }

  // ----- who is on the way to write -----

  predicate Listed(todo: seq<Job>, id: int) {
    exists i :: 0 <= i < |todo| && todo[i].id == id
  }

  /** The worker has the row on its list, and will write something else than `sent` to it. */
  predicate WorkerArmed(w: WorkerPc, id: int) {
    match w
    case WClaim(_, ids) => id in ids
    case WLoop(todo) => Listed(todo, id)
    case WSend(todo, _) => Listed(todo, id)
    case WMark(todo, _, p) => todo != [] && ((todo[0].id == id && !p.ToSent?) || Listed(todo[1..], id))
    case _ => false
  }

  /** Some caller has read the row as a dead letter, or some worker has it on its list. */
  predicate Armed(s: State, id: int) {
    || (exists c :: c in s.callers && s.callers[c] == RPut(id))
    || (exists o :: o in s.workers && WorkerArmed(s.workers[o], id))
  }

  lemma UnsendsIsArmed(s: State, a: Action, id: int)
    requires Unsends(s, a, id)
    ensures Armed(s, id)
  {
    if a.Work? {
      assert WorkerArmed(s.workers[a.o], id);
    }
  }

  lemma ListedTail(todo: seq<Job>, id: int)
    requires todo != []
    ensures Listed(todo, id) <==> todo[0].id == id || Listed(todo[1..], id)
  {
    if i :| 0 <= i < |todo[1..]| && todo[1..][i].id == id {
      assert todo[i + 1].id == id;
    }
    if i :| 0 < i < |todo| && todo[i].id == id {
      assert todo[1..][i - 1].id == id;
    }
  }

  /** A worker that does not have a sent row on its list does not get it there. */
  lemma WorkerStaysUnarmed(t: Table, l: Ledger, clock: int, o: string, w: WorkerPc, outcome: Outcome, jitter: nat, id: int)
    requires TableOk(t, clock) && jitter < RETRY_JITTER_MS && SentIn(t, id) && !WorkerArmed(w, id)
    ensures var e := WorkStep(t, l, clock, o, w, outcome, jitter); e.pc.Some? ==> !WorkerArmed(e.pc.value, id)
  {
    match w
    case WMaint(_) =>
    case WReady =>
    case WRead(now) => assert !Due(t[id], now);
    case WClaim(now, ids) => ClaimRows(t, ids, o, now, clock);
    case WLoop(_) =>
    case WSend(todo, _) => if todo != [] { ListedTail(todo, id); }
    case WMark(todo, _, _) =>
  }

  lemma CallerStaysUnarmed(t: Table, l: Ledger, clock: int, p: CallerPc, uuid: int, id: int)
    requires SentIn(t, id)
    ensures var e := CallStep(t, l, clock, p, uuid); e.pc != Some(RPut(id))
  {
  }

  /** From a sent row that nobody is on the way to write, every step that keeps it stored keeps it so. */
  lemma StepStaysUnarmed(s: State, a: Action, id: int)
    requires Inv(s) && SentIn(s.jobs, id) && !Armed(s, id)
    ensures !Armed(Exec(s, a), id)
  {
    if Enabled(s, a) {
      var n := Exec(s, a);
      if a.Work? {
        WorkerStaysUnarmed(s.jobs, s.ledger, s.clock, a.o, s.workers[a.o], a.outcome, a.jitter, id);
      } else if a.Call? {
        CallerStaysUnarmed(s.jobs, s.ledger, s.clock, s.callers[a.c], a.uuid, id);
      }
      forall c | c in n.callers ensures n.callers[c] != RPut(id) {
        assert c in s.callers ==> s.callers[c] != RPut(id);
      }
      forall o | o in n.workers ensures !WorkerArmed(n.workers[o], id) {
        assert o in s.workers ==> !WorkerArmed(s.workers[o], id);
      }
    }
  }

  // ----- runs -----

  /** The row is stored all through the run. */
  predicate AlwaysStored(s: State, acts: seq<Action>, id: int) {
    id in After(s, acts).jobs && (acts == [] || AlwaysStored(s, acts[..|acts|-1], id))
  }

  lemma {:induction false} UnarmedStaysSent(s: State, acts: seq<Action>, id: int)
    requires Inv(s) && SentIn(s.jobs, id) && !Armed(s, id) && AlwaysStored(s, acts, id)
    ensures Inv(After(s, acts)) && SentIn(After(s, acts).jobs, id) && !Armed(After(s, acts), id)
  {
    if acts != [] {
      var init, a := acts[..|acts|-1], acts[|acts|-1];
      UnarmedStaysSent(s, init, id);
      StepKeeps(After(s, init), a);
      StepStaysUnarmed(After(s, init), a, id);
      StepUnsends(After(s, init), a, id);
      if Unsends(After(s, init), a, id) { UnsendsIsArmed(After(s, init), a, id); }
    }
  }

  lemma {:induction false} StoredCons(s: State, a: Action, more: seq<Action>, id: int)
    requires id in s.jobs && AlwaysStored(Exec(s, a), more, id)
    ensures AlwaysStored(s, [a] + more, id)
  {
    AfterFirst(s, a, more);
    if more == [] {
      assert ([a] + more)[..0] == [];
    } else {
      StoredCons(s, a, more[..|more|-1], id);
      assert ([a] + more)[..|more|] == [a] + more[..|more|-1];
    }
  }

  /** A run that keeps the row stored and leaves it not sent. */
  predicate Undoes(s: State, acts: seq<Action>, id: int) {
    AlwaysStored(s, acts, id) && !SentIn(After(s, acts).jobs, id)
  }

  lemma UndoesCons(s: State, a: Action, more: seq<Action>, id: int)
    requires id in s.jobs && Undoes(Exec(s, a), more, id)
    ensures Undoes(s, [a] + more, id)
  {
    StoredCons(s, a, more, id);
    AfterFirst(s, a, more);
  }

  /** One step that undoes `sent`. */
  lemma UndoesNow(s: State, a: Action, id: int)
    requires Inv(s) && SentIn(s.jobs, id) && Unsends(s, a, id) && id in Exec(s, a).jobs
    ensures Undoes(s, [a] + [], id)
  {
    StepUnsends(s, a, id);
    UndoesCons(s, a, [], id);
  }

  const REFUSED := Rejected("refused", false)

  function Rank(w: WorkerPc): nat {
    match w
    case WLoop(todo) => 3 * |todo| + 2
    case WSend(todo, _) => 3 * |todo| + 1
    case WMark(todo, _, _) => 3 * |todo|
    case _ => 0
  }

  /** The worker's next step writes the row, or brings it nearer to doing so. */
  lemma ListGoesOn(t: Table, l: Ledger, clock: int, o: string, w: WorkerPc, id: int)
    requires WorkerArmed(w, id) && (w.WLoop? || w.WSend? || w.WMark?)
    ensures var e := WorkStep(t, l, clock, o, w, REFUSED, 0);
      && e.jobs.Keys == t.Keys
      && (WorkerUnsends(w, id) || (e.pc.Some? && WorkerArmed(e.pc.value, id) && Rank(e.pc.value) < Rank(w)
                                   && (e.pc.value.WLoop? || e.pc.value.WSend? || e.pc.value.WMark?)))
  {
    match w
    case WLoop(todo) =>
    case WSend(todo, _) => if todo != [] { ListedTail(todo, id); }
    case WMark(todo, _, _) =>
  }

  /** A worker with the row on its list, refused at every send, ends up writing it. */
  lemma {:induction false} ListedWrites(s: State, o: string, id: int) returns (acts: seq<Action>)
    requires Inv(s) && SentIn(s.jobs, id) && o in s.workers && WorkerArmed(s.workers[o], id) && !s.workers[o].WClaim?
    ensures Undoes(s, acts, id)
    decreases Rank(if o in s.workers then s.workers[o] else WReady)
  {
    var a := Work(o, REFUSED, 0);
    var n := Exec(s, a);
    ListGoesOn(s.jobs, s.ledger, s.clock, o, s.workers[o], id);
    WorkTo(s, o, REFUSED, 0, WorkStep(s.jobs, s.ledger, s.clock, o, s.workers[o], REFUSED, 0));
    if Unsends(s, a, id) {
      UndoesNow(s, a, id);
      acts := [a] + [];
    } else {
      StepKeeps(s, a);
      StepUnsends(s, a, id);
      var more := ListedWrites(n, o, id);
      UndoesCons(s, a, more, id);
      acts := [a] + more;
    }
  }

  lemma ClaimLists(t: Table, ids: seq<int>, o: string, now: int, clock: int, id: int)
    requires (forall x | x in t :: t[x].id == x) && id in t && id in ids && !LeaseActive(t[id], o, now)
    ensures var r := ClaimTx(t, ids, o, now, clock); r.0.Keys == t.Keys && Listed(r.1, id)
  {
    ClaimRows(t, ids, o, now, clock);
    var r := ClaimTx(t, ids, o, now, clock);
    var i :| 0 <= i < |r.1| && r.1[i] == r.0[id];
    assert r.1[i].id == id;
  }

  /** Claiming a row that nobody else holds puts it on the worker's list. */
  lemma ClaimWrites(s: State, o: string, id: int) returns (acts: seq<Action>)
    requires Inv(s) && SentIn(s.jobs, id) && o in s.workers && s.workers[o].WClaim? && id in s.workers[o].ids
    requires !LeaseActive(s.jobs[id], o, s.workers[o].now)
    ensures Undoes(s, acts, id)
  {
    var a := Work(o, REFUSED, 0);
    ClaimLists(s.jobs, s.workers[o].ids, o, s.workers[o].now, s.clock, id);
    WorkTo(s, o, REFUSED, 0, WorkStep(s.jobs, s.ledger, s.clock, o, s.workers[o], REFUSED, 0));
    StepKeeps(s, a);
    StepUnsends(s, a, id);
    var more := ListedWrites(Exec(s, a), o, id);
    UndoesCons(s, a, more, id);
    acts := [a] + more;
  }

  /** Anybody who knows the owner can have a lease released, in three steps. */
  lemma ReleaseWrites(s: State, o: string, id: int, more: seq<Action>, c: nat)
    requires Inv(s) && SentIn(s.jobs, id) && s.jobs[id].leaseOwner == Some(o) && c !in s.callers
    requires Undoes(Released(s, o, id, c), more, id)
    ensures Undoes(s, [StartRelease(c, id, o)] + ([Call(c, 0)] + ([Call(c, 0)] + more)), id)
  {
    var s1 := Exec(s, StartRelease(c, id, o));
    CallTo(s1, c, 0, Effect(s.jobs, Some(LPut(id)), s.ledger));
    var s2 := Exec(s1, Call(c, 0));
    UndoesCons(s2, Call(c, 0), more, id);
    UndoesCons(s1, Call(c, 0), [Call(c, 0)] + more, id);
    UndoesCons(s, StartRelease(c, id, o), [Call(c, 0)] + ([Call(c, 0)] + more), id);
  }

  function Released(s: State, o: string, id: int, c: nat): State {
    Exec(Exec(Exec(s, StartRelease(c, id, o)), Call(c, 0)), Call(c, 0))
  }

  lemma ReleaseStarts(s: State, o: string, id: int, c: nat)
    requires Inv(s) && c !in s.callers
    ensures var n := Exec(s, StartRelease(c, id, o));
      Inv(n) && n.jobs == s.jobs && n.workers == s.workers && c in n.callers && n.callers[c] == LGet(id, o)
  {
    StepKeeps(s, StartRelease(c, id, o));
  }

  lemma ReleaseReads(s: State, o: string, id: int, c: nat)
    requires Inv(s) && id in s.jobs && s.jobs[id].leaseOwner == Some(o) && c in s.callers && s.callers[c] == LGet(id, o)
    ensures var n := Exec(s, Call(c, 0));
      Inv(n) && n.jobs == s.jobs && n.workers == s.workers && c in n.callers && n.callers[c] == LPut(id)
  {
    StepKeeps(s, Call(c, 0));
    CallTo(s, c, 0, Effect(s.jobs, Some(LPut(id)), s.ledger));
  }

  lemma ReleaseClears(s: State, id: int, c: nat)
    requires Inv(s) && SentIn(s.jobs, id) && c in s.callers && s.callers[c] == LPut(id)
    ensures var n := Exec(s, Call(c, 0));
      Inv(n) && SentIn(n.jobs, id) && n.workers == s.workers && n.jobs[id].leaseOwner.None?
  {
    StepKeeps(s, Call(c, 0));
    CallTo(s, c, 0, CallStep(s.jobs, s.ledger, s.clock, LPut(id), 0));
  }

  lemma ReleasedState(s: State, o: string, id: int, c: nat)
    requires Inv(s) && SentIn(s.jobs, id) && s.jobs[id].leaseOwner == Some(o) && c !in s.callers
    ensures var n := Released(s, o, id, c);
      Inv(n) && SentIn(n.jobs, id) && n.workers == s.workers && n.jobs[id].leaseOwner.None?
  {
    var s1 := Exec(s, StartRelease(c, id, o));
    ReleaseStarts(s, o, id, c);
    ReleaseReads(s1, o, id, c);
    ReleaseClears(Exec(s1, Call(c, 0)), id, c);
  }

  /** A worker about to claim the row from its list gets it, once the lease of anyone else is released. */
  lemma ClaimerWrites(s: State, o: string, id: int) returns (acts: seq<Action>)
    requires Inv(s) && SentIn(s.jobs, id) && o in s.workers && s.workers[o].WClaim? && id in s.workers[o].ids
    ensures Undoes(s, acts, id)
  {
    if LeaseActive(s.jobs[id], o, s.workers[o].now) {
      var holder := s.jobs[id].leaseOwner.value;
      var c := Above(s.callers.Keys);
      ReleasedState(s, holder, id, c);
      var more := ClaimWrites(Released(s, holder, id, c), o, id);
      ReleaseWrites(s, holder, id, more, c);
      acts := [StartRelease(c, id, holder)] + ([Call(c, 0)] + ([Call(c, 0)] + more));
    } else {
      acts := ClaimWrites(s, o, id);
    }
  }

  /** Whoever is on the way to write the row can do so. */
  lemma ArmedWrites(s: State, id: int) returns (acts: seq<Action>)
    requires Inv(s) && SentIn(s.jobs, id) && Armed(s, id)
    ensures Undoes(s, acts, id)
  {
    if c :| c in s.callers && s.callers[c] == RPut(id) {
      CallTo(s, c, 0, CallStep(s.jobs, s.ledger, s.clock, RPut(id), 0));
      UndoesNow(s, Call(c, 0), id);
      acts := [Call(c, 0)] + [];
    } else {
      var o :| o in s.workers && WorkerArmed(s.workers[o], id);
      if s.workers[o].WClaim? {
        acts := ClaimerWrites(s, o, id);
      } else {
        acts := ListedWrites(s, o, id);
      }
    }
  }

  /** Every run that keeps the row stored keeps it sent. */
  ghost predicate SentForGood(s: State, id: int) {
    forall acts | AlwaysStored(s, acts, id) :: SentIn(After(s, acts).jobs, id)
  }

  /**
   A sent job stays `sent` in every continuation that keeps it stored exactly when nobody is
   on the way to write its row: no requeue has read it as a dead letter, no worker has it on
   its list. Any number of workers and requeues may run and start.
   */
  lemma SentForGoodExactly(s: State, id: int)
    requires Inv(s) && SentIn(s.jobs, id)
    ensures SentForGood(s, id) <==> !Armed(s, id)
  {
    if Armed(s, id) {
      var acts := ArmedWrites(s, id);
      assert AlwaysStored(s, acts, id);
    } else {
      forall acts | AlwaysStored(s, acts, id) ensures SentIn(After(s, acts).jobs, id) {
        UnarmedStaysSent(s, acts, id);
      }
    }
  }
}
