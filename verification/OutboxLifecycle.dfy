/**
 The life of one job when only one worker runs at a time and requeues of the same
 row do not overlap. Workers may still crash anywhere and callers interleave freely.
 */
module OutboxLifecycle {
  import opened Wrappers
  import opened Sets
  import opened OutboxModel
  import opened OutboxProtocol
  import opened OutboxSafety
  import opened OutboxGuarantees
  import opened OutboxRuns
  import opened OutboxSent

  // ----- the laws -----

  predicate Within(ids: set<int>, used: set<int>) {
    forall id | id in ids :: id in used
  }

  /** Pending jobs were never tried; failed jobs have retries left and a time for the next one. */
  predicate RowLaw(j: Job) {
    && (j.status.Pending? ==> j.attempts == 0 && j.nextRetryAt.None?)
    && (j.status.Failed? ==> 1 <= j.attempts < MAX_ATTEMPTS && j.nextRetryAt.Some?)
  }

  /** How often a job in this status can have been sent and delivered. */
  predicate TallyLaw(status: Status, attempts: nat, k: Tally) {
    match status
    case Pending => k == Tally(0, 0, 0)
    case Failed => k.sends <= attempts && k.oks <= k.crashes
    case Sending => k.sends <= attempts <= MAX_ATTEMPTS - 1 + k.crashes && k.oks <= k.crashes
    case Sent => k.sends <= MAX_ATTEMPTS + k.crashes && k.oks <= k.crashes + 1
    case DeadLetter => k.sends <= MAX_ATTEMPTS + k.crashes && k.oks <= k.crashes
  }

  /** The job the worker has marked `sending`, if any. */
  function Current(w: WorkerPc): Option<int> {
    if (w.WSend? || w.WMark?) && w.todo != [] then Some(w.todo[0].id) else None
  }

  predicate RowsLife(t: Table, l: Ledger, skip: Option<int>) {
    && (forall id | id in t :: RowLaw(t[id]))
    && (forall id | id in t && skip != Some(id) :: TallyLaw(t[id].status, t[id].attempts, TallyOf(l, id)))
  }

  predicate Distinct(todo: seq<Job>) {
    forall i, j | 0 <= i < j < |todo| :: todo[i].id != todo[j].id
  }

  /** A snapshot still to be handled agrees with its row, if the row is still there. */
  predicate SnapshotOk(t: Table, l: Ledger, used: set<int>, j: Job) {
    && j.id in used && !j.status.Terminal() && RowLaw(j) && TallyLaw(j.status, j.attempts, TallyOf(l, j.id))
    && (j.id in t ==> t[j.id].status == j.status && t[j.id].attempts == j.attempts)
  }

  predicate CurrentOk(t: Table, used: set<int>, j: Job, n: nat) {
    && j.id in used && n >= 1
    && (j.id in t ==> t[j.id].status.Sending? && t[j.id].attempts == n)
  }

  predicate WorkerLife(t: Table, l: Ledger, used: set<int>, w: WorkerPc) {
    match w
    case WClaim(_, ids) => Increasing(ids) && forall id | id in ids :: id in used && (id in t ==> !t[id].status.Terminal())
    case WLoop(todo) => Distinct(todo) && forall i | 0 <= i < |todo| :: SnapshotOk(t, l, used, todo[i])
    case WSend(todo, n) =>
      && todo != [] && Distinct(todo) && CurrentOk(t, used, todo[0], n)
      && (forall i | 1 <= i < |todo| :: SnapshotOk(t, l, used, todo[i]))
      && (var k := TallyOf(l, todo[0].id); k.sends < n <= MAX_ATTEMPTS + k.crashes && k.oks <= k.crashes)
    case WMark(todo, n, p) =>
      && todo != [] && Distinct(todo) && CurrentOk(t, used, todo[0], n)
      && (forall i | 1 <= i < |todo| :: SnapshotOk(t, l, used, todo[i]))
      && (p.ToSent? || p.ToDead? || (p.ToFailed? && n < MAX_ATTEMPTS))
      && (var k := TallyOf(l, todo[0].id);
          k.sends <= n <= MAX_ATTEMPTS + k.crashes && k.oks <= k.crashes + (if p.ToSent? then 1 else 0))
    case _ => true
  }

  /** Over all runs: at most five sends and one delivery, and one more of each per crash. */
  predicate Bounded(l: Ledger) {
    forall id | id in l :: l[id].sends <= MAX_ATTEMPTS + l[id].crashes && l[id].oks <= l[id].crashes + 1
  }

  predicate RequeueLife(t: Table, used: set<int>, callers: map<nat, CallerPc>) {
    && (forall c | c in callers && callers[c].RPut? :: callers[c].id in used)
    && (forall c | c in callers && callers[c].RPut? && callers[c].id in t :: t[callers[c].id].status.DeadLetter?)
    && (forall c, d | c in callers && d in callers && c != d && callers[c].RPut? :: callers[c] != callers[d])
  }

  predicate LifeCore(s: State) {
    && (forall o, p | o in s.workers && p in s.workers :: o == p)
    && Within(s.ledger.Keys, s.used) && Bounded(s.ledger)
    && (forall o | o in s.workers :: WorkerLife(s.jobs, s.ledger, s.used, s.workers[o]) && RowsLife(s.jobs, s.ledger, Current(s.workers[o])))
    && (s.workers == map[] ==> RowsLife(s.jobs, s.ledger, None))
    && RequeueLife(s.jobs, s.used, s.callers)
  }

  predicate Life(s: State) {
    Inv(s) && LifeCore(s)
  }

  // ----- the worker's own steps -----

  /** Which changes of status a step may make. */
  predicate Allowed(a: Status, b: Status) {
    match a
    case Pending => b.Pending? || b.Sending?
    case Failed => b.Failed? || b.Sending?
    case Sending => !b.Pending?
    case Sent => b.Sent?
    case DeadLetter => b.DeadLetter? || b.Pending?
  }

  predicate Moves(t: Table, t': Table) {
    forall id | id in t && id in t' :: Allowed(t[id].status, t'[id].status)
  }

  /** What the worker's step must establish. */
  predicate WorkDone(t: Table, l: Ledger, used: set<int>, e: Effect<WorkerPc>) {
    && Within(e.ledger.Keys, used) && Bounded(e.ledger)
    && (e.pc.Some? ==> WorkerLife(e.jobs, e.ledger, used, e.pc.value) && RowsLife(e.jobs, e.ledger, Current(e.pc.value)))
    && (e.pc.None? ==> RowsLife(e.jobs, e.ledger, None))
    && Moves(t, e.jobs)
    && (forall id | id in t && id in e.jobs && t[id].status.DeadLetter? :: e.jobs[id].status.DeadLetter?)
  }

  predicate WorkPre(t: Table, l: Ledger, used: set<int>, clock: int, w: WorkerPc) {
    && TableOk(t, clock) && |t| <= MAX_OUTBOX_JOBS && Within(t.Keys, used) && WorkerOk(w, clock)
    && Within(l.Keys, used) && Bounded(l) && WorkerLife(t, l, used, w) && RowsLife(t, l, Current(w))
  }

  lemma ReadLife(t: Table, l: Ledger, used: set<int>, clock: int, o: string, w: WorkerPc, outcome: Outcome, jitter: nat)
    requires WorkPre(t, l, used, clock, w) && jitter < RETRY_JITTER_MS
    requires w.WMaint? || w.WReady? || w.WRead?
    ensures WorkDone(t, l, used, WorkStep(t, l, clock, o, w, outcome, jitter))
  {
    if w.WMaint? { MaintStepOk(t, w.m, clock); }
  }

  lemma ClaimedSnapshots(t: Table, l: Ledger, used: set<int>, ids: seq<int>, o: string, now: int, clock: int)
    requires TableOk(t, clock) && Within(t.Keys, used) && RowsLife(t, l, None)
    requires Increasing(ids) && forall id | id in ids && id in t :: !t[id].status.Terminal()
    ensures var r := ClaimTx(t, ids, o, now, clock); WorkerLife(r.0, l, used, WLoop(r.1))
  {
    ClaimRows(t, ids, o, now, clock);
    ClaimOrder(t, ids, o, now, clock);
    var (t', claimed) := ClaimTx(t, ids, o, now, clock);
    forall i | 0 <= i < |claimed| ensures SnapshotOk(t', l, used, claimed[i]) {
      assert claimed[i] in claimed;
      assert claimed[i] == t'[claimed[i].id];
    }
  }

  /** Claiming changes neither status nor attempts nor the time of the next retry. */
  lemma ClaimKeepsRow(t: Table, ids: seq<int>, o: string, now: int, clock: int, id: int)
    requires TableOk(t, clock) && id in ClaimTx(t, ids, o, now, clock).0
    ensures var t' := ClaimTx(t, ids, o, now, clock).0;
      id in t && t'[id].status == t[id].status && t'[id].attempts == t[id].attempts && t'[id].nextRetryAt == t[id].nextRetryAt
  {
    ClaimRows(t, ids, o, now, clock);
  }

  lemma ClaimKeepsRows(t: Table, l: Ledger, ids: seq<int>, o: string, now: int, clock: int)
    requires TableOk(t, clock) && RowsLife(t, l, None)
    ensures var t' := ClaimTx(t, ids, o, now, clock).0;
      && RowsLife(t', l, None) && Moves(t, t')
      && forall id | id in t' :: id in t && t'[id].status == t[id].status
  {
    var t' := ClaimTx(t, ids, o, now, clock).0;
    forall id | id in t' ensures id in t && t'[id].status == t[id].status && t'[id].attempts == t[id].attempts && t'[id].nextRetryAt == t[id].nextRetryAt {
      ClaimKeepsRow(t, ids, o, now, clock, id);
    }
  }

  lemma ClaimLife(t: Table, l: Ledger, used: set<int>, clock: int, o: string, w: WorkerPc, outcome: Outcome, jitter: nat)
    requires WorkPre(t, l, used, clock, w) && jitter < RETRY_JITTER_MS && w.WClaim?
    ensures WorkDone(t, l, used, WorkStep(t, l, clock, o, w, outcome, jitter))
  {
    ClaimedSnapshots(t, l, used, w.ids, o, w.now, clock);
    ClaimKeepsRows(t, l, w.ids, o, w.now, clock);
  }

  lemma SendingLife(t: Table, l: Ledger, used: set<int>, clock: int, o: string, w: WorkerPc, outcome: Outcome, jitter: nat)
    requires WorkPre(t, l, used, clock, w) && jitter < RETRY_JITTER_MS && w.WLoop?
    ensures WorkDone(t, l, used, WorkStep(t, l, clock, o, w, outcome, jitter))
  {
    if w.todo != [] {
      var t' := Update(t, w.todo[0].id, ToSending(w.todo[0].attempts + 1), clock);
      assert SnapshotOk(t, l, used, w.todo[0]);
      forall i | 1 <= i < |w.todo| ensures SnapshotOk(t', l, used, w.todo[i]) {
        assert SnapshotOk(t, l, used, w.todo[i]);
      }
    }
  }

  /** After the current job is settled, the rest of the list is as it was. */
  lemma RestLife(t: Table, t': Table, l: Ledger, used: set<int>, todo: seq<Job>)
    requires todo != [] && Distinct(todo) && forall i | 1 <= i < |todo| :: SnapshotOk(t, l, used, todo[i])
    requires t'.Keys == t.Keys && forall id | id in t && id != todo[0].id :: t'[id] == t[id]
    ensures WorkerLife(t', l, used, WLoop(todo[1..]))
  {
    forall i | 0 <= i < |todo| - 1 ensures SnapshotOk(t', l, used, todo[1..][i]) {
      assert todo[1..][i] == todo[i + 1];
      assert SnapshotOk(t, l, used, todo[i + 1]);
    }
  }

  /** The payload does not parse: the job is dead-lettered without being sent. */
  lemma InvalidLife(t: Table, l: Ledger, used: set<int>, clock: int, o: string, w: WorkerPc, outcome: Outcome, jitter: nat)
    requires WorkPre(t, l, used, clock, w) && jitter < RETRY_JITTER_MS && w.WSend? && !w.todo[0].parses
    ensures WorkDone(t, l, used, WorkStep(t, l, clock, o, w, outcome, jitter))
  {
    RestLife(t, Update(t, w.todo[0].id, ToInvalid, clock), l, used, w.todo);
    if w.todo[0].id in t {
      InvalidRow(t[w.todo[0].id], clock, w.attempts, TallyOf(l, w.todo[0].id));
    }
    SettleRows(t, l, w.todo[0].id, ToInvalid, clock);
  }

  lemma InvalidRow(j: Job, clock: int, n: nat, k: Tally)
    requires j.status.Sending? && j.attempts == n >= 1
    requires k.sends < n <= MAX_ATTEMPTS + k.crashes && k.oks <= k.crashes
    ensures var r := Apply(j, ToInvalid, clock); RowLaw(r) && TallyLaw(r.status, r.attempts, k) && Allowed(j.status, r.status)
  {
  }

  lemma CountedRest(t: Table, l: Ledger, used: set<int>, todo: seq<Job>, k: Tally)
    requires todo != [] && Distinct(todo) && forall i | 1 <= i < |todo| :: SnapshotOk(t, l, used, todo[i])
    ensures forall i | 1 <= i < |todo| :: SnapshotOk(t, l[todo[0].id := k], used, todo[i])
  {
  }

  lemma SendLife(t: Table, l: Ledger, used: set<int>, clock: int, o: string, w: WorkerPc, outcome: Outcome, jitter: nat)
    requires WorkPre(t, l, used, clock, w) && jitter < RETRY_JITTER_MS && w.WSend? && w.todo[0].parses
    ensures WorkDone(t, l, used, WorkStep(t, l, clock, o, w, outcome, jitter))
  {
    var k := Counted(TallyOf(l, w.todo[0].id), outcome);
    CountedRest(t, l, used, w.todo, k);
    var l' := l[w.todo[0].id := k];
    assert Bounded(l');
    assert RowsLife(t, l', Some(w.todo[0].id));
    assert WorkerLife(t, l', used, WMark(w.todo, w.attempts, Verdict(w.attempts, outcome, clock, jitter)));
  }

  lemma MarkLife(t: Table, l: Ledger, used: set<int>, clock: int, o: string, w: WorkerPc, outcome: Outcome, jitter: nat)
    requires WorkPre(t, l, used, clock, w) && jitter < RETRY_JITTER_MS && w.WMark?
    ensures WorkDone(t, l, used, WorkStep(t, l, clock, o, w, outcome, jitter))
  {
    RestLife(t, Update(t, w.todo[0].id, w.patch, clock), l, used, w.todo);
    if w.todo[0].id in t {
      MarkRow(t[w.todo[0].id], w.patch, clock, w.attempts, TallyOf(l, w.todo[0].id));
    }
    SettleRows(t, l, w.todo[0].id, w.patch, clock);
  }

  /** The current row is settled by the law, the others are as they were. */
  lemma SettleRows(t: Table, l: Ledger, id: int, p: Patch, clock: int)
    requires RowsLife(t, l, Some(id))
    requires id in t ==>
      var r := Apply(t[id], p, clock); RowLaw(r) && TallyLaw(r.status, r.attempts, TallyOf(l, id)) && Allowed(t[id].status, r.status)
    ensures RowsLife(Update(t, id, p, clock), l, None) && Moves(t, Update(t, id, p, clock))
  {
  }

  lemma MarkRow(j: Job, p: Patch, clock: int, n: nat, k: Tally)
    requires j.status.Sending? && j.attempts == n >= 1 && (p.ToSent? || p.ToDead? || (p.ToFailed? && n < MAX_ATTEMPTS))
    requires k.sends <= n <= MAX_ATTEMPTS + k.crashes && k.oks <= k.crashes + (if p.ToSent? then 1 else 0)
    ensures var r := Apply(j, p, clock); RowLaw(r) && TallyLaw(r.status, r.attempts, k) && Allowed(j.status, r.status)
  {
  }

  lemma WorkLife(t: Table, l: Ledger, used: set<int>, clock: int, o: string, w: WorkerPc, outcome: Outcome, jitter: nat)
    requires WorkPre(t, l, used, clock, w) && jitter < RETRY_JITTER_MS
    ensures WorkDone(t, l, used, WorkStep(t, l, clock, o, w, outcome, jitter))
  {
    if w.WClaim? { ClaimLife(t, l, used, clock, o, w, outcome, jitter); }
    else if w.WLoop? { SendingLife(t, l, used, clock, o, w, outcome, jitter); }
    else if w.WSend? && !w.todo[0].parses { InvalidLife(t, l, used, clock, o, w, outcome, jitter); }
    else if w.WSend? { SendLife(t, l, used, clock, o, w, outcome, jitter); }
    else if w.WMark? { MarkLife(t, l, used, clock, o, w, outcome, jitter); }
    else { ReadLife(t, l, used, clock, o, w, outcome, jitter); }
  }

  // ----- everybody else's steps -----

  /** A row after somebody else's step: untouched, revived from a dead letter, or new. */
  predicate EnvRow(t: Table, l: Ledger, used: set<int>, t': Table, l': Ledger, id: int)
    requires id in t'
  {
    || (id in t && t'[id].status == t[id].status && t'[id].attempts == t[id].attempts && t'[id].nextRetryAt == t[id].nextRetryAt
        && TallyOf(l', id) == TallyOf(l, id))
    || ((id in t ==> t[id].status.DeadLetter?) && (id !in t ==> id !in used)
        && t'[id].status.Pending? && t'[id].attempts == 0 && t'[id].nextRetryAt.None? && TallyOf(l', id) == Tally(0, 0, 0))
  }

  predicate EnvMove(t: Table, l: Ledger, used: set<int>, t': Table, l': Ledger) {
    && (forall id | id in t' :: EnvRow(t, l, used, t', l', id))
    && (forall id | id in used && !(id in t && t[id].status.DeadLetter?) :: TallyOf(l', id) == TallyOf(l, id))
    && (forall id | id in l' :: id in used && (l'[id] == Tally(0, 0, 0) || (id in l && l'[id] == l[id])))
  }

  lemma EnvSnapshot(t: Table, l: Ledger, used: set<int>, t': Table, l': Ledger, used': set<int>, j: Job)
    requires EnvMove(t, l, used, t', l') && used <= used' && SnapshotOk(t, l, used, j)
    ensures SnapshotOk(t', l', used', j)
  {
    if j.id in t' { assert EnvRow(t, l, used, t', l', j.id); }
  }

  lemma EnvLife(t: Table, l: Ledger, used: set<int>, t': Table, l': Ledger, used': set<int>, w: WorkerPc)
    requires EnvMove(t, l, used, t', l') && used <= used' && Within(t.Keys, used)
    requires WorkerLife(t, l, used, w) && RowsLife(t, l, Current(w))
    ensures WorkerLife(t', l', used', w) && RowsLife(t', l', Current(w))
  {
    forall id | id in t' ensures RowLaw(t'[id]) && (Current(w) != Some(id) ==> TallyLaw(t'[id].status, t'[id].attempts, TallyOf(l', id))) {
      assert EnvRow(t, l, used, t', l', id);
    }
    if w.WLoop? || w.WSend? || w.WMark? {
      forall i | 0 <= i < |w.todo| && SnapshotOk(t, l, used, w.todo[i]) ensures SnapshotOk(t', l', used', w.todo[i]) {
        EnvSnapshot(t, l, used, t', l', used', w.todo[i]);
      }
    }
    if (w.WSend? || w.WMark?) && w.todo[0].id in t' {
      assert EnvRow(t, l, used, t', l', w.todo[0].id);
    }
  }

  lemma UntouchedMoves(t: Table, l: Ledger, used: set<int>, t': Table)
    requires Within(l.Keys, used)
    requires forall id | id in t' ::
      id in t && t'[id].status == t[id].status && t'[id].attempts == t[id].attempts && t'[id].nextRetryAt == t[id].nextRetryAt
    ensures EnvMove(t, l, used, t', l) && Moves(t, t')
  {
  }

  lemma AddMoves(t: Table, l: Ledger, used: set<int>, clock: int, job: Job)
    requires TableOk(t, clock) && |t| <= MAX_OUTBOX_JOBS && NewJob(job, clock) && Within(t.Keys, used) && Within(l.Keys, used)
    requires job.id !in used
    ensures EnvMove(t, l, used, AddTx(t, job).0, l) && Moves(t, AddTx(t, job).0)
  {
    AddOk(t, job, clock);
    var t' := AddTx(t, job).0;
    forall id | id in t' ensures EnvRow(t, l, used, t', l, id) {
      assert id == job.id ==> id !in l;
    }
  }

  lemma RequeueMoves(t: Table, l: Ledger, used: set<int>, clock: int, id: int)
    requires Within(t.Keys, used) && Within(l.Keys, used) && id in t && t[id].status.DeadLetter?
    ensures var t' := Update(t, id, ToPending, clock);
      EnvMove(t, l, used, t', l[id := Tally(0, 0, 0)]) && Moves(t, t')
  {
    var t', l' := Update(t, id, ToPending, clock), l[id := Tally(0, 0, 0)];
    forall x | x in t' ensures EnvRow(t, l, used, t', l', x) {
      assert x != id ==> t'[x] == t[x];
    }
  }

  /** A caller's step is such a move, and makes only allowed changes of status. */
  lemma CallMoves(t: Table, l: Ledger, used: set<int>, clock: int, p: CallerPc, uuid: int)
    requires TableOk(t, clock) && |t| <= MAX_OUTBOX_JOBS && CallerOk(p, clock) && Within(t.Keys, used) && Within(l.Keys, used)
    requires p.EAdd? ==> p.job.id !in used
    requires p.RPut? && p.id in t ==> t[p.id].status.DeadLetter?
    ensures var e := CallStep(t, l, clock, p, uuid); EnvMove(t, l, used, e.jobs, e.ledger) && Moves(t, e.jobs)
  {
    if p.EAdd? {
      AddMoves(t, l, used, clock, p.job);
    } else if p.RPut? && p.id in t {
      RequeueMoves(t, l, used, clock, p.id);
    } else {
      if p.EMaint? || p.Sweep? { MaintStepOk(t, p.m, clock); }
      UntouchedMoves(t, l, used, CallStep(t, l, clock, p, uuid).jobs);
    }
  }

  // ----- every disciplined step keeps the laws -----

  lemma WorkCore(s: State, o: string, e: Effect<WorkerPc>, n: State)
    requires LifeCore(s) && o in s.workers && WorkDone(s.jobs, s.ledger, s.used, e) && Refines(s.jobs, e.jobs)
    requires n.jobs == e.jobs && n.ledger == e.ledger && n.workers == Put(s.workers, o, e.pc) && n.callers == s.callers && n.used == s.used
    ensures LifeCore(n)
  {
    if e.pc.Some? {
      assert o in n.workers;
    } else {
      assert n.workers == map[];
    }
  }

  lemma WorkLifeStep(s: State, a: Action)
    requires Life(s) && a.Work? && Enabled(s, a)
    ensures Life(Exec(s, a)) && Moves(s.jobs, Exec(s, a).jobs)
  {
    StepKeeps(s, a);
    WorkOk(s.jobs, s.ledger, s.clock, a.o, s.workers[a.o], a.outcome, a.jitter);
    WorkLife(s.jobs, s.ledger, s.used, s.clock, a.o, s.workers[a.o], a.outcome, a.jitter);
    var e := WorkStep(s.jobs, s.ledger, s.clock, a.o, s.workers[a.o], a.outcome, a.jitter);
    SameUsed(s, e.jobs);
    WorkCore(s, a.o, e, Exec(s, a));
  }

  lemma EnvBounded(t: Table, l: Ledger, used: set<int>, t': Table, l': Ledger)
    requires EnvMove(t, l, used, t', l') && Bounded(l)
    ensures Bounded(l') && Within(l'.Keys, used)
  {
  }

  lemma IdleLife(t: Table, l: Ledger, used: set<int>, t': Table, l': Ledger)
    requires EnvMove(t, l, used, t', l') && Within(t.Keys, used) && RowsLife(t, l, None)
    ensures RowsLife(t', l', None)
  {
    EnvLife(t, l, used, t', l', used, WReady);
  }

  /** After caller `c` moved from `p` to `next`, each writer of a requeue still faces a dead letter of its own. */
  lemma RequeueStep(t: Table, used: set<int>, t': Table, used': set<int>, callers: map<nat, CallerPc>, c: nat, next: Option<CallerPc>)
    requires RequeueLife(t, used, callers) && c in callers
    requires forall id | id in used :: id in used'
    requires forall id | id in t' && id in used :: id in t && (t[id].status.DeadLetter? ==> t'[id].status.DeadLetter? || callers[c] == RPut(id))
    requires next.Some? && next.value.RPut? ==>
      && next.value.id in used && next.value.id in t && t[next.value.id].status.DeadLetter?
      && callers[c] != next.value && forall d | d in callers :: callers[d] != next.value
    ensures RequeueLife(t', used', Put(callers, c, next))
  {
  }

  lemma CallRevives(t: Table, l: Ledger, clock: int, p: CallerPc, uuid: int)
    requires TableOk(t, clock) && |t| <= MAX_OUTBOX_JOBS && CallerOk(p, clock) && (p.EAdd? ==> p.job.id !in t)
    ensures var e := CallStep(t, l, clock, p, uuid);
      && (forall id | id in e.jobs && id in t && t[id].status.DeadLetter? :: e.jobs[id].status.DeadLetter? || p == RPut(id))
      && (e.pc.Some? && e.pc.value.RPut? ==> p == RGet(e.pc.value.id) && p.id in t && t[p.id].status.DeadLetter?)
  {
    match p
    case EMaint(_, m) => MaintStepOk(t, m, clock);
    case EAdd(job) => AddOk(t, job, clock);
    case Sweep(m) => MaintStepOk(t, m, clock);
    case _ =>
  }

  lemma CallRequeue(s: State, a: Action)
    requires Life(s) && a.Call? && Enabled(s, a) && Disciplined(s, a)
    ensures var n := Exec(s, a); RequeueLife(n.jobs, n.used, n.callers)
  {
    var p := s.callers[a.c];
    var e := CallStep(s.jobs, s.ledger, s.clock, p, a.uuid);
    CallRevives(s.jobs, s.ledger, s.clock, p, a.uuid);
    forall id | id in e.jobs && id in s.used ensures id in s.jobs {
      CallMoves(s.jobs, s.ledger, s.used, s.clock, p, a.uuid);
      assert EnvRow(s.jobs, s.ledger, s.used, e.jobs, e.ledger, id);
    }
    RequeueStep(s.jobs, s.used, e.jobs, s.used + e.jobs.Keys, s.callers, a.c, e.pc);
  }

  lemma CallLifeStep(s: State, a: Action)
    requires Life(s) && a.Call? && Enabled(s, a) && Disciplined(s, a)
    ensures Life(Exec(s, a)) && Moves(s.jobs, Exec(s, a).jobs)
  {
    StepKeeps(s, a);
    CallRequeue(s, a);
    CallMoves(s.jobs, s.ledger, s.used, s.clock, s.callers[a.c], a.uuid);
    var n := Exec(s, a);
    EnvBounded(s.jobs, s.ledger, s.used, n.jobs, n.ledger);
    forall o | o in n.workers ensures WorkerLife(n.jobs, n.ledger, n.used, n.workers[o]) && RowsLife(n.jobs, n.ledger, Current(n.workers[o])) {
      EnvLife(s.jobs, s.ledger, s.used, n.jobs, n.ledger, n.used, s.workers[o]);
    }
    if n.workers == map[] { IdleLife(s.jobs, s.ledger, s.used, n.jobs, n.ledger); }
  }

  /** The row of the current job satisfies the law of an orphaned `sending` row after the crash. */
  lemma CrashRows(t: Table, l: Ledger, used: set<int>, w: WorkerPc)
    requires WorkerLife(t, l, used, w) && RowsLife(t, l, Current(w)) && Bounded(l) && Within(l.Keys, used)
    ensures var l' := CrashLedger(l, w); RowsLife(t, l', None) && Bounded(l') && Within(l'.Keys, used)
  {
  }

  lemma CrashLifeStep(s: State, a: Action)
    requires Life(s) && a.Crash? && Enabled(s, a)
    ensures Life(Exec(s, a)) && Moves(s.jobs, Exec(s, a).jobs)
  {
    StepKeeps(s, a);
    var n := Exec(s, a);
    assert n.workers == map[];
    assert forall id :: id in n.used <==> id in s.used;
    CrashRows(s.jobs, s.ledger, s.used, s.workers[a.o]);
  }

  /** Rows may go, as long as the rest stays as it is. */
  lemma ShrinkLife(s: State, n: State)
    requires LifeCore(s) && Within(s.jobs.Keys, s.used) && (forall id | id in n.jobs :: id in s.jobs && n.jobs[id] == s.jobs[id])
    requires n.ledger == s.ledger && n.workers == s.workers && n.callers == s.callers && n.used == s.used
    ensures LifeCore(n) && Moves(s.jobs, n.jobs)
  {
    UntouchedMoves(s.jobs, s.ledger, s.used, n.jobs);
    forall o | o in n.workers ensures WorkerLife(n.jobs, n.ledger, n.used, n.workers[o]) && RowsLife(n.jobs, n.ledger, Current(n.workers[o])) {
      EnvLife(s.jobs, s.ledger, s.used, n.jobs, n.ledger, n.used, s.workers[o]);
    }
    if n.workers == map[] { IdleLife(s.jobs, s.ledger, s.used, n.jobs, n.ledger); }
    assert RequeueLife(n.jobs, n.used, n.callers);
  }

  lemma ClearLifeStep(s: State, a: Action)
    requires Life(s) && (a.ClearTerminal? || a.ClearAll?)
    ensures Life(Exec(s, a)) && Moves(s.jobs, Exec(s, a).jobs)
  {
    if a.ClearTerminal? { ClearTerminalLife(s); } else { ClearAllLife(s); }
  }

  lemma ClearTerminalLife(s: State)
    requires Life(s)
    ensures Life(Exec(s, ClearTerminal)) && Moves(s.jobs, Exec(s, ClearTerminal).jobs)
  {
    StepKeeps(s, ClearTerminal);
    SameUsed(s, Exec(s, ClearTerminal).jobs);
    ShrinkLife(s, Exec(s, ClearTerminal));
  }

  lemma ClearAllLife(s: State)
    requires Life(s)
    ensures Life(Exec(s, ClearAll)) && Moves(s.jobs, Exec(s, ClearAll).jobs)
  {
    StepKeeps(s, ClearAll);
    SameUsed(s, Exec(s, ClearAll).jobs);
    ShrinkLife(s, Exec(s, ClearAll));
  }

  lemma StartLifeStep(s: State, a: Action)
    requires Life(s) && a.StartWorker? && Enabled(s, a) && Disciplined(s, a)
    ensures Life(Exec(s, a)) && Moves(s.jobs, Exec(s, a).jobs)
  {
    StepKeeps(s, a);
    SameUsed(s, s.jobs);
    StartCore(s, Exec(s, a), a.o);
  }

  lemma StartCore(s: State, n: State, o: string)
    requires LifeCore(s) && s.workers == map[]
    requires n.jobs == s.jobs && n.ledger == s.ledger && n.callers == s.callers && n.used == s.used
    requires n.workers == map[o := WMaint(Expire(s.clock))]
    ensures LifeCore(n) && Moves(s.jobs, n.jobs)
  {
  }

  /** The other steps only add or remove a caller that is not about to write a requeue, or move the clock. */
  lemma QuietLifeStep(s: State, a: Action)
    requires Life(s) && Quiet(a) && !a.Crash? && !a.StartWorker? && Enabled(s, a)
    ensures Life(Exec(s, a)) && Moves(s.jobs, Exec(s, a).jobs)
  {
    StepKeeps(s, a);
    SameUsed(s, s.jobs);
    var n := Act(s, a);
    assert n.jobs == s.jobs && n.ledger == s.ledger && n.workers == s.workers && n.used == s.used;
    assert forall c | c in n.callers && n.callers[c].RPut? :: c in s.callers && s.callers[c] == n.callers[c];
    QuietCore(s, Exec(s, a));
  }

  lemma QuietCore(s: State, n: State)
    requires LifeCore(s) && n.jobs == s.jobs && n.ledger == s.ledger && n.workers == s.workers && n.used == s.used
    requires forall c | c in n.callers && n.callers[c].RPut? :: c in s.callers && s.callers[c] == n.callers[c]
    ensures LifeCore(n) && Moves(s.jobs, n.jobs)
  {
  }

  lemma StepLife(s: State, a: Action)
    requires Life(s) && Disciplined(s, a)
    ensures Life(Exec(s, a)) && Moves(s.jobs, Exec(s, a).jobs)
  {
    if Enabled(s, a) {
      if a.Work? { WorkLifeStep(s, a); }
      else if a.Call? { CallLifeStep(s, a); }
      else if a.Crash? { CrashLifeStep(s, a); }
      else if a.StartWorker? { StartLifeStep(s, a); }
      else if Quiet(a) { QuietLifeStep(s, a); }
      else { ClearLifeStep(s, a); }
    }
  }

  lemma {:induction false} RunLife(clock: int, acts: seq<Action>)
    requires Serial(Init(clock), acts)
    ensures Life(After(Init(clock), acts))
  {
    if acts != [] {
      var n := |acts| - 1;
      assert forall i | 0 <= i < n :: acts[..n][..i] == acts[..i];
      RunLife(clock, acts[..n]);
      StepLife(After(Init(clock), acts[..n]), acts[n]);
    }
  }

  // ----- the theorems -----

  /** Pending means untried, failed means between one and four tries and a time to retry. */
  lemma StatusTellsAttempts(clock: int, acts: seq<Action>, id: int)
    requires Serial(Init(clock), acts) && id in After(Init(clock), acts).jobs
    ensures RowLaw(After(Init(clock), acts).jobs[id])
  {
    RunLife(clock, acts);
    var s := After(Init(clock), acts);
    if s.workers != map[] {
      var o := Pick(s.workers.Keys);
      assert RowsLife(s.jobs, s.ledger, Current(s.workers[o]));
    }
  }

  /** Every change of status in every such run is an edge of the lifecycle graph. */
  lemma OnlyAllowedMoves(clock: int, acts: seq<Action>, a: Action)
    requires Serial(Init(clock), acts + [a])
    ensures Moves(After(Init(clock), acts).jobs, After(Init(clock), acts + [a]).jobs)
  {
    var all := acts + [a];
    assert all[..|acts|] == acts && all[|acts|] == a;
    assert forall i | 0 <= i < |acts| :: all[..i] == acts[..i];
    RunLife(clock, acts);
    StepLife(After(Init(clock), acts), a);
  }

  /** Under the two rules nobody is ever on the way to write a sent row. */
  lemma LifeIsUnarmed(s: State, id: int)
    requires Life(s) && SentIn(s.jobs, id)
    ensures !Armed(s, id)
  {
    forall o | o in s.workers ensures !WorkerArmed(s.workers[o], id) {
      WorkerIsUnarmed(s.jobs, s.ledger, s.used, s.workers[o], id);
    }
  }

  lemma WorkerIsUnarmed(t: Table, l: Ledger, used: set<int>, w: WorkerPc, id: int)
    requires WorkerLife(t, l, used, w) && SentIn(t, id)
    ensures !WorkerArmed(w, id)
  {
    match w
    case WLoop(todo) =>
      forall i | 0 <= i < |todo| ensures todo[i].id != id { assert SnapshotOk(t, l, used, todo[i]); }
    case WSend(todo, _) =>
      forall i | 0 <= i < |todo| ensures todo[i].id != id { assert i > 0 ==> SnapshotOk(t, l, used, todo[i]); }
    case WMark(todo, _, _) =>
      forall i | 0 <= i < |todo| ensures todo[i].id != id { assert i > 0 ==> SnapshotOk(t, l, used, todo[i]); }
      ListedTail(todo, id);
    case _ =>
  }

  /** A row that is stored at the end was stored all the time. */
  lemma {:induction false} StoredBefore(s: State, acts: seq<Action>, id: int)
    requires Inv(s) && id in s.used
    ensures id in After(s, acts).used && (id in After(s, acts).jobs ==> AlwaysStored(s, acts, id))
  {
    if acts != [] {
      var init, a := acts[..|acts|-1], acts[|acts|-1];
      StoredBefore(s, init, id);
      RunKeepsInv(s, init);
      StepKeepsIdentity(After(s, init), a, id);
    }
  }

  /**
   Under the two rules a job that was sent is `sent` for as long as it is stored, whatever
   happens afterwards: later workers and requeues may overlap as they like.
   */
  lemma SentIsFinal(clock: int, acts: seq<Action>, more: seq<Action>, id: int)
    requires Serial(Init(clock), acts)
    requires SentIn(After(Init(clock), acts).jobs, id) && id in After(Init(clock), acts + more).jobs
    ensures SentIn(After(Init(clock), acts + more).jobs, id)
  {
    var s := After(Init(clock), acts);
    AfterMore(Init(clock), acts, more);
    RunLife(clock, acts);
    StoredBefore(s, more, id);
    LifeIsUnarmed(s, id);
    UnarmedStaysSent(s, more, id);
  }

  /**
   Since it was stored or last requeued, a job was sent at most five times and delivered
   at most once; each crash of the worker while the job was `sending` can add one.
   */
  lemma SendsAreBounded(clock: int, acts: seq<Action>, id: int)
    requires Serial(Init(clock), acts)
    ensures var k := TallyOf(After(Init(clock), acts).ledger, id);
      k.sends <= 5 + k.crashes && k.oks <= 1 + k.crashes
  {
    RunLife(clock, acts);
  }

  /** Without a crash on it, a job is never sent again after it was delivered. */
  lemma NoSendAfterDelivery(clock: int, acts: seq<Action>, o: string)
    requires Serial(Init(clock), acts)
    requires var s := After(Init(clock), acts); o in s.workers && s.workers[o].WSend? && s.workers[o].todo != []
    ensures var s := After(Init(clock), acts);
      var k := TallyOf(s.ledger, s.workers[o].todo[0].id);
      k.oks <= k.crashes && k.sends < s.workers[o].attempts <= MAX_ATTEMPTS + k.crashes
  {
    RunLife(clock, acts);
    SendingTally(After(Init(clock), acts), o);
  }

  lemma SendingTally(s: State, o: string)
    requires LifeCore(s) && o in s.workers && s.workers[o].WSend? && s.workers[o].todo != []
    ensures var k := TallyOf(s.ledger, s.workers[o].todo[0].id);
      k.oks <= k.crashes && k.sends < s.workers[o].attempts <= MAX_ATTEMPTS + k.crashes
  {
    assert WorkerLife(s.jobs, s.ledger, s.used, s.workers[o]);
  }
}
