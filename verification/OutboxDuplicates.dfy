/**
 When two live jobs share an idempotency key. The index lookup returns the row of lowest id,
 so an old dead letter can hide a live row, and a requeue revives a dead letter without
 looking for others: exactly these steps put a second live row beside a live one.
 */
module OutboxDuplicates {
  import opened Wrappers
  import opened Sets
  import opened OutboxModel
  import opened OutboxProtocol
  import opened OutboxSafety
  import opened OutboxRuns
  import opened OutboxLifecycle
  import opened OutboxRace

  /** A row of the key that is not a dead letter. */
  predicate LiveRow(t: Table, id: int, key: string) {
    id in t && t[id].key == key && !t[id].status.DeadLetter?
  }

  predicate HasLive(t: Table, key: string) {
    exists id :: id in t && LiveRow(t, id, key)
  }

  predicate OneLive(t: Table, key: string) {
    forall i, j | i in t && j in t && LiveRow(t, i, key) && LiveRow(t, j, key) :: i == j
  }

  // ----- the steps that duplicate -----

  predicate DeadRow(t: Table, id: int, key: string) {
    id in t && t[id].key == key && t[id].status.DeadLetter?
  }

  /** Row `x` survives the insertion of a new job. */
  predicate Survives(t: Table, x: int) {
    |t| < MAX_OUTBOX_JOBS || (TerminalKeys(t) != {} && Oldest(t, TerminalKeys(t)) != x)
  }

  /** An insertion finds a dead letter first, and has room without evicting the live row. */
  predicate InsertsBeside(t: Table, job: Job) {
    && First(t, job.key).Some? && First(t, job.key).value.status.DeadLetter?
    && exists id :: id in t && LiveRow(t, id, job.key) && Survives(t, id)
  }

  /** The row the caller's step brings back from the dead. */
  predicate CallerDuplicates(t: Table, p: CallerPc, key: string) {
    || (p.EAdd? && p.job.key == key && InsertsBeside(t, p.job))
    || (p.RPut? && DeadRow(t, p.id, key) && HasLive(t, key))
  }

  /** A worker marks a job on its list that someone else has dead-lettered since. */
  predicate WorkerDuplicates(t: Table, w: WorkerPc, key: string) {
    match w
    case WLoop(todo) => todo != [] && DeadRow(t, todo[0].id, key) && HasLive(t, key)
    case WMark(todo, _, p) => todo != [] && !p.ToDead? && DeadRow(t, todo[0].id, key) && HasLive(t, key)
    case _ => false
  }

  predicate Duplicates(s: State, a: Action, key: string) {
    && Enabled(s, a)
    && ((a.Call? && CallerDuplicates(s.jobs, s.callers[a.c], key)) || (a.Work? && WorkerDuplicates(s.jobs, s.workers[a.o], key)))
  }

  // ----- one step -----

  /** No row becomes live: there is still at most one. */
  lemma NoNewLive(t: Table, t': Table, key: string)
    requires OneLive(t, key) && forall id | LiveRow(t', id, key) :: LiveRow(t, id, key)
    ensures OneLive(t', key)
  {
  }

  predicate Revives(p: Patch) {
    p.ToSending? || p.ToPending? || p.ToSent? || p.ToFailed?
  }

  lemma UpdateDuplicates(t: Table, id: int, p: Patch, clock: int, key: string)
    requires OneLive(t, key)
    ensures !OneLive(Update(t, id, p, clock), key) <==> Revives(p) && DeadRow(t, id, key) && HasLive(t, key)
  {
    var t' := Update(t, id, p, clock);
    if Revives(p) && DeadRow(t, id, key) && HasLive(t, key) {
      var x :| x in t && LiveRow(t, x, key);
      assert LiveRow(t', x, key) && LiveRow(t', id, key) && x != id;
    } else {
      forall i, j | LiveRow(t', i, key) && LiveRow(t', j, key) ensures i == j {
        if i != id { assert LiveRow(t, i, key); }
        if j != id { assert LiveRow(t, j, key); }
        if id in t && !DeadRow(t, id, key) && t[id].key == key { assert LiveRow(t, id, key); }
      }
    }
  }

  lemma InsertShape(t: Table, job: Job)
    requires job.id !in t
    ensures var t' := AddTx(t, job).0;
      && (job.id in t' <==> (First(t, job.key).None? || First(t, job.key).value.status.DeadLetter?)
                            && (|t| < MAX_OUTBOX_JOBS || TerminalKeys(t) != {}))
      && (job.id in t' ==> t'[job.id] == job && forall x | x in t :: x in t' <==> Survives(t, x))
      && (forall x | x in t' && x != job.id :: x in t && t'[x] == t[x])
  {
  }

  lemma NoLiveFirst(t: Table, key: string)
    ensures HasLive(t, key) ==> First(t, key).Some?
  {
    if HasLive(t, key) {
      var x :| x in t && LiveRow(t, x, key);
      assert x in KeyRows(t, key);
    }
  }

  lemma InsertDuplicates(t: Table, job: Job, key: string)
    requires OneLive(t, key) && job.id !in t && job.status.Pending?
    ensures !OneLive(AddTx(t, job).0, key) <==> job.key == key && InsertsBeside(t, job)
  {
    var t' := AddTx(t, job).0;
    InsertShape(t, job);
    NoLiveFirst(t, key);
    if job.key == key && InsertsBeside(t, job) {
      var x :| x in t && LiveRow(t, x, key) && Survives(t, x);
      assert LiveRow(t', x, key) && LiveRow(t', job.id, key);
    } else if job.id !in t' || job.key != key {
      NoNewLive(t, t', key);
    } else {
      assert forall x | x in t && LiveRow(t, x, key) :: !Survives(t, x);
    }
  }

  lemma ClaimDuplicates(t: Table, ids: seq<int>, o: string, now: int, clock: int, key: string)
    requires OneLive(t, key) && TableOk(t, clock)
    ensures OneLive(ClaimTx(t, ids, o, now, clock).0, key)
  {
    var t' := ClaimTx(t, ids, o, now, clock).0;
    forall id | LiveRow(t', id, key) ensures LiveRow(t, id, key) {
      ClaimRows(t, ids, o, now, clock);
    }
    NoNewLive(t, t', key);
  }

  lemma MaintDuplicates(t: Table, m: MaintPc, clock: int, key: string)
    requires OneLive(t, key) && TableOk(t, clock) && MaintOk(m) && |t| <= MAX_OUTBOX_JOBS
    ensures OneLive(MaintStep(t, m).0, key)
  {
    MaintStepOk(t, m, clock);
    NoNewLive(t, MaintStep(t, m).0, key);
  }

  lemma WorkDuplicates(t: Table, l: Ledger, clock: int, o: string, w: WorkerPc, outcome: Outcome, jitter: nat, key: string)
    requires OneLive(t, key) && TableOk(t, clock) && |t| <= MAX_OUTBOX_JOBS && WorkerOk(w, clock) && jitter < RETRY_JITTER_MS
    ensures !OneLive(WorkStep(t, l, clock, o, w, outcome, jitter).jobs, key) <==> WorkerDuplicates(t, w, key)
  {
    match w
    case WMaint(m) => MaintDuplicates(t, m, clock, key);
    case WReady =>
    case WRead(_) =>
    case WClaim(now, ids) => ClaimDuplicates(t, ids, o, now, clock, key);
    case WLoop(todo) => if todo != [] { UpdateDuplicates(t, todo[0].id, ToSending(todo[0].attempts + 1), clock, key); }
    case WSend(todo, _) => UpdateDuplicates(t, todo[0].id, ToInvalid, clock, key);
    case WMark(todo, _, p) => UpdateDuplicates(t, todo[0].id, p, clock, key);
  }

  lemma CallDuplicates(t: Table, l: Ledger, clock: int, p: CallerPc, uuid: int, key: string)
    requires OneLive(t, key) && TableOk(t, clock) && |t| <= MAX_OUTBOX_JOBS && CallerOk(p, clock) && (p.EAdd? ==> p.job.id !in t)
    ensures !OneLive(CallStep(t, l, clock, p, uuid).jobs, key) <==> CallerDuplicates(t, p, key)
  {
    match p
    case EMaint(_, m) => MaintDuplicates(t, m, clock, key);
    case EAdd(job) => InsertDuplicates(t, job, key);
    case Sweep(m) => MaintDuplicates(t, m, clock, key);
    case RPut(id) => UpdateDuplicates(t, id, ToPending, clock, key);
    case LPut(id) => UpdateDuplicates(t, id, Unlease, clock, key);
    case _ =>
  }

  /** A step leaves two live rows of a key exactly when it is an insertion or a revival of that kind. */
  lemma StepDuplicatesExactly(s: State, a: Action, key: string)
    requires Inv(s) && OneLive(s.jobs, key)
    ensures !OneLive(Exec(s, a).jobs, key) <==> Duplicates(s, a, key)
  {
    if Enabled(s, a) {
      if a.Work? { WorkDuplicates(s.jobs, s.ledger, s.clock, a.o, s.workers[a.o], a.outcome, a.jitter, key); }
      else if a.Call? { CallDuplicates(s.jobs, s.ledger, s.clock, s.callers[a.c], a.uuid, key); }
      else if Quiet(a) { QuietActors(s, a); }
      else { NoNewLive(s.jobs, Exec(s, a).jobs, key); }
    }
  }

  /** Under single flight only callers do that: no worker ever writes to a dead letter. */
  lemma SerialWorkersDuplicateNothing(s: State, a: Action, key: string)
    requires Life(s) && a.Work?
    ensures !Duplicates(s, a, key)
  {
    if Enabled(s, a) {
      var w := s.workers[a.o];
      assert WorkerLife(s.jobs, s.ledger, s.used, w);
      if w.WLoop? && w.todo != [] { assert SnapshotOk(s.jobs, s.ledger, s.used, w.todo[0]); }
    }
  }

  // ----- whole runs -----

  /** At the end of the run and of every shorter one there is at most one live row of the key. */
  predicate AlwaysOneLive(s: State, acts: seq<Action>, key: string) {
    OneLive(After(s, acts).jobs, key) && (acts == [] || AlwaysOneLive(s, acts[..|acts|-1], key))
  }

  predicate NeverDuplicates(s: State, acts: seq<Action>, key: string) {
    acts == [] || (NeverDuplicates(s, acts[..|acts|-1], key) && !Duplicates(After(s, acts[..|acts|-1]), acts[|acts|-1], key))
  }

  /** A run from the empty store has one live job per key all along exactly when none of its steps is such a step. */
  lemma {:induction false} OneLiveExactly(clock: int, acts: seq<Action>, key: string)
    ensures AlwaysOneLive(Init(clock), acts, key) <==> NeverDuplicates(Init(clock), acts, key)
  {
    if acts != [] {
      var init, a := acts[..|acts|-1], acts[|acts|-1];
      OneLiveExactly(clock, init, key);
      RunKeeps(clock, init);
      if OneLive(After(Init(clock), init).jobs, key) {
        StepDuplicatesExactly(After(Init(clock), init), a, key);
      }
    }
  }

  // ----- both kinds happen -----

  /** A dead letter and a live row of the key "k", nobody at work. */
  predicate HiddenLive(s: State, dead: int, live: int) {
    && Inv(s) && s.callers == map[] && dead < live && live !in {dead}
    && s.jobs.Keys == {dead, live} && DeadRow(s.jobs, dead, "k") && LiveRow(s.jobs, live, "k")
    && s.jobs[dead].updatedAt == s.clock && s.jobs[live].status.Pending?
  }

  lemma HiddenIsFree(t: Table, dead: int, clock: int)
    requires DeadRow(t, dead, "k") && |t| < MAX_OUTBOX_JOBS
    requires forall id | id in t :: dead <= id && (id != dead ==> t[id].status.Pending?)
    requires t[dead].updatedAt == clock
    ensures Free(t, "k", clock) && First(t, "k") == Some(t[dead])
  {
    assert dead in KeyRows(t, "k");
    assert Min(KeyRows(t, "k")) == dead;
    forall id | id in t ensures !Expired(t[id], clock) {
    }
  }

  lemma HiddenReached(clock: int) returns (acts: seq<Action>, live: int)
    ensures HiddenLive(After(Init(clock), acts), 7, live)
  {
    var before := OneDead(clock);
    var s := After(Init(clock), before);
    live := Above(s.used);
    assert |s.jobs| == |s.jobs.Keys| == 1;
    HiddenIsFree(s.jobs, 7, s.clock);
    Enqueued(s, 0, "k", live);
    AfterMore(Init(clock), before, Enqueue(0, "k", live));
    acts := before + Enqueue(0, "k", live);
  }

  /** From such a state, the step leaves two live rows where there was one. */
  predicate Doubles(s: State, a: Action) {
    && OneLive(s.jobs, "k") && Duplicates(s, a, "k") && !OneLive(Exec(s, a).jobs, "k")
  }

  lemma HiddenHasOneLive(t: Table, dead: int, live: int)
    requires t.Keys == {dead, live} && DeadRow(t, dead, "k") && LiveRow(t, live, "k")
    ensures OneLive(t, "k") && HasLive(t, "k") && |t| == 2
  {
    assert dead != live;
    assert |t| == |t.Keys| == 2;
  }

  /** A run from the empty store whose last step inserts a second live job behind a dead letter. */
  lemma DuplicateByEnqueue(clock: int) returns (acts: seq<Action>, a: Action)
    ensures var s := After(Init(clock), acts);
      Doubles(s, a) && a.Call? && s.callers[a.c].EAdd?
  {
    var before, live := HiddenReached(clock);
    var s := After(Init(clock), before);
    var uuid: int := Above(s.used);
    HiddenHasOneLive(s.jobs, 7, live);
    HiddenIsFree(s.jobs, 7, s.clock);
    Prepared(s, 0, "k", uuid);
    AfterMore(Init(clock), before, Preparing(0, "k", uuid));
    acts, a := before + Preparing(0, "k", uuid), Call(0, uuid);
    var n := After(Init(clock), acts);
    assert LiveRow(n.jobs, live, "k") && Survives(n.jobs, live);
    assert InsertsBeside(n.jobs, NewRow(uuid, "k", s.clock));
    StepDuplicatesExactly(n, a, "k");
  }

  /** A run from the empty store whose last step revives a dead letter beside a live job, with nothing inserted. */
  lemma DuplicateByRequeue(clock: int) returns (acts: seq<Action>, a: Action)
    ensures var s := After(Init(clock), acts);
      Doubles(s, a) && a.Call? && s.callers[a.c].RPut?
  {
    var before, live := HiddenReached(clock);
    var s := After(Init(clock), before);
    HiddenHasOneLive(s.jobs, 7, live);
    RequeueReads(s, 7, 0);
    AfterMore(Init(clock), before, Requeue(0, 7));
    AfterFirst(s, StartRequeue(0, 7), [Call(0, 0)] + []);
    AfterFirst(Exec(s, StartRequeue(0, 7)), Call(0, 0), []);
    acts, a := before + Requeue(0, 7), Call(0, 0);
    RunKeeps(clock, acts);
    StepDuplicatesExactly(After(Init(clock), acts), a, "k");
  }
}
