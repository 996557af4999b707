/** What every run of the outbox keeps, however many workers and callers interleave. */
module OutboxSafety {
  import opened Wrappers
  import opened Sets
  import opened OutboxModel
  import opened OutboxProtocol

  // ----- facts about the atomic operations -----

  lemma DeleteSize(t: Table, ids: set<int>)
    ensures |Delete(t, ids)| <= |t|
  {
    var d := Delete(t, ids);
    assert d.Keys == t.Keys - ids;
    SubsetSize(d.Keys, t.Keys);
    assert |d| == |d.Keys| && |t| == |t.Keys|;
  }

  lemma DeleteOne(t: Table, x: int)
    requires x in t
    ensures |Delete(t, {x})| == |t| - 1
  {
    var d := Delete(t, {x});
    assert d.Keys == t.Keys - {x};
    assert |d| == |d.Keys| && |t| == |t.Keys|;
  }

  lemma DeleteRows(t: Table, ids: set<int>, id: int)
    ensures id in Delete(t, ids) <==> id in t && id !in ids
    ensures id in Delete(t, ids) ==> Delete(t, ids)[id] == t[id]
  {
  }

  lemma SameSize(t: Table, t': Table)
    requires t.Keys == t'.Keys
    ensures |t| == |t'|
  {
    assert |t| == |t.Keys| && |t'| == |t'.Keys|;
  }

  /** What the claiming transaction does to each row, and which rows it hands over. */
  lemma {:induction false} ClaimRows(t: Table, ids: seq<int>, owner: string, now: int, clock: int)
    requires forall id | id in t :: t[id].id == id
    ensures var r := ClaimTx(t, ids, owner, now, clock);
      && r.0.Keys == t.Keys
      && (forall id | id in t :: r.0[id] ==
            if id in ids && !LeaseActive(t[id], owner, now)
            then Apply(t[id], Lease(owner, now + LEASE_MS), clock) else t[id])
      && (forall j | j in r.1 :: j.id in ids && j.id in t && !LeaseActive(t[j.id], owner, now) && j == r.0[j.id])
      && (forall id | id in ids && id in t && !LeaseActive(t[id], owner, now) :: r.0[id] in r.1)
  {
    if ids != [] {
      var n := |ids| - 1;
      ClaimRows(t, ids[..n], owner, now, clock);
      assert ids == ids[..n] + [ids[n]];
    }
  }

  /** Rows claimed from an increasing list come out in increasing order. */
  lemma {:induction false} ClaimOrder(t: Table, ids: seq<int>, owner: string, now: int, clock: int)
    requires forall id | id in t :: t[id].id == id
    requires Increasing(ids)
    ensures var c := ClaimTx(t, ids, owner, now, clock).1;
      forall i, j | 0 <= i < j < |c| :: c[i].id < c[j].id
  {
    if ids != [] {
      var n := |ids| - 1;
      ClaimOrder(t, ids[..n], owner, now, clock);
      ClaimRows(t, ids[..n], owner, now, clock);
      var c := ClaimTx(t, ids[..n], owner, now, clock).1;
      forall i | 0 <= i < |c| ensures c[i].id < ids[n] {
        assert c[i] in c;
      }
    }
  }

  // ----- the invariant -----

  /** A row can be retried or reclaimed by anyone two minutes after it was last written. */
  predicate Timely(j: Job) {
    && (j.nextRetryAt.Some? ==> j.nextRetryAt.value <= j.updatedAt + LEASE_MS)
    && (j.leaseExpiresAt.Some? ==> j.leaseExpiresAt.value <= j.updatedAt + LEASE_MS)
  }

  predicate RowsOk(s: State) {
    forall id | id in s.jobs ::
      s.jobs[id].id == id && id in s.used && s.jobs[id].updatedAt <= s.clock && Timely(s.jobs[id])
  }

  /** Maintenance never gets past its count. */
  predicate MaintOk(m: MaintPc) {
    m.Expire? || m.Count?
  }

  predicate WorkerOk(w: WorkerPc, clock: int) {
    match w
    case WMaint(m) => MaintOk(m)
    case WReady => true
    case WRead(now) => now <= clock
    case WClaim(now, _) => now <= clock
    case WLoop(_) => true
    case WSend(todo, _) => todo != []
    case WMark(todo, _, p) => todo != [] && (p.ToSent? || p.ToDead? || (p.ToFailed? && p.retryAt <= clock + LEASE_MS))
  }

  predicate NewJob(j: Job, clock: int) {
    && j.status.Pending? && j.attempts == 0 && j.nextRetryAt.None?
    && j.leaseOwner.None? && j.leaseExpiresAt.None? && j.updatedAt <= clock
  }

  predicate CallerOk(p: CallerPc, clock: int) {
    match p
    case EFind(_, _, now) => now <= clock
    case EMaint(job, m) => NewJob(job, clock) && MaintOk(m)
    case EAdd(job) => NewJob(job, clock)
    case Sweep(m) => MaintOk(m)
    case _ => true
  }

  predicate ActorsOk(s: State) {
    && (forall o | o in s.workers :: o in s.owners && o != "" && WorkerOk(s.workers[o], s.clock))
    && (forall c | c in s.callers :: CallerOk(s.callers[c], s.clock))
  }

  /** One row per idempotency key, as long as no row of that key was ever dead-lettered. */
  predicate OnePerKey(s: State) {
    && (forall id | id in s.jobs && s.jobs[id].status.DeadLetter? :: s.jobs[id].key in s.deadKeys)
    && (forall i, j | i in s.jobs && j in s.jobs && i != j && s.jobs[i].key == s.jobs[j].key :: s.jobs[i].key in s.deadKeys)
  }

  predicate Inv(s: State) {
    RowsOk(s) && ActorsOk(s) && OnePerKey(s) && |s.jobs| <= MAX_OUTBOX_JOBS
  }

  // ----- the four ways a step changes the table -----

  /** Every row of `t'` is a row of `t` whose key and id are the same. */
  predicate Refines(t: Table, t': Table) {
    t'.Keys <= t.Keys && forall id | id in t' :: t'[id].id == t[id].id && t'[id].key == t[id].key && t'[id].parses == t[id].parses
  }

  predicate TableOk(t: Table, clock: int) {
    forall id | id in t :: t[id].id == id && t[id].updatedAt <= clock && Timely(t[id])
  }

  /** A patch that never schedules anything later than two minutes from now. */
  predicate PatchOk(p: Patch, clock: int) {
    match p
    case ToFailed(_, at) => at <= clock + LEASE_MS
    case Lease(_, e) => e <= clock + LEASE_MS
    case _ => true
  }

  lemma UpdateOk(t: Table, id: int, p: Patch, clock: int)
    requires TableOk(t, clock) && PatchOk(p, clock)
    ensures TableOk(Update(t, id, p, clock), clock)
    ensures Refines(t, Update(t, id, p, clock)) && Update(t, id, p, clock).Keys == t.Keys
    ensures |Update(t, id, p, clock)| == |t|
  {
    if id in t {
      var row := Apply(t[id], p, clock);
      assert Update(t, id, p, clock) == t[id := row];
      assert row.id == t[id].id && row.key == t[id].key && row.parses == t[id].parses && row.updatedAt == clock && Timely(row);
      assert t[id := row].Keys == t.Keys;
    }
    SameSize(t, Update(t, id, p, clock));
  }

  lemma ClaimOk(t: Table, ids: seq<int>, owner: string, now: int, clock: int)
    requires TableOk(t, clock) && now <= clock
    ensures var t' := ClaimTx(t, ids, owner, now, clock).0;
      TableOk(t', clock) && Refines(t, t') && t'.Keys == t.Keys && |t'| == |t|
  {
    var t' := ClaimTx(t, ids, owner, now, clock).0;
    assert t'.Keys == t.Keys && forall id | id in t :: t'[id] == t[id] || t'[id] == Apply(t[id], Lease(owner, now + LEASE_MS), clock) by {
      ClaimRows(t, ids, owner, now, clock);
    }
    SameSize(t, t');
  }

  lemma MaintStepOk(t: Table, m: MaintPc, clock: int)
    requires TableOk(t, clock) && MaintOk(m) && |t| <= MAX_OUTBOX_JOBS
    ensures var r := MaintStep(t, m);
      TableOk(r.0, clock) && Refines(t, r.0) && |r.0| <= MAX_OUTBOX_JOBS && (r.1.Some? ==> MaintOk(r.1.value))
    ensures forall id | id in t && !t[id].status.Terminal() :: id in MaintStep(t, m).0
    ensures forall id | id in MaintStep(t, m).0 :: MaintStep(t, m).0[id] == t[id]
  {
    if m.Expire? { DeleteSize(t, ExpiredKeys(t, m.now)); }
  }

  /** No row has the key when the first row of it does not exist. */
  lemma FirstNone(t: Table, key: string)
    ensures First(t, key).None? ==> forall id | id in t :: t[id].key != key
    ensures First(t, key).Some? ==> exists id :: id in t && t[id].key == key && First(t, key) == Some(t[id])
  {
    var rows := KeyRows(t, key);
    if rows == {} {
      forall id | id in t ensures t[id].key != key {
        assert id !in rows;
      }
    } else {
      var id := Min(rows);
      assert id in t && t[id].key == key;
    }
  }

  lemma AddOk(t: Table, job: Job, clock: int)
    requires TableOk(t, clock) && |t| <= MAX_OUTBOX_JOBS && job.id !in t && NewJob(job, clock)
    ensures var r := AddTx(t, job);
      && TableOk(r.0, clock) && |r.0| <= MAX_OUTBOX_JOBS
      && (forall id | id in t && !t[id].status.Terminal() :: id in r.0)
      && (forall id | id in r.0 && id != job.id :: id in t && r.0[id] == t[id])
      && (job.id in r.0 ==>
            && r.0[job.id] == job
            && (First(t, job.key).None? || First(t, job.key).value.status.DeadLetter?))
  {
    if TerminalKeys(t) != {} {
      DeleteOne(t, Oldest(t, TerminalKeys(t)));
    }
  }

  // ----- every step keeps the invariant -----

  lemma OnePerKeyKept(s: State, n: State)
    requires Inv(s) && Refines(s.jobs, n.jobs) && s.deadKeys <= n.deadKeys
    requires forall id | id in n.jobs && n.jobs[id].status.DeadLetter? :: n.jobs[id].key in n.deadKeys
    ensures OnePerKey(n)
  {
  }

  lemma WorkOk(t: Table, l: Ledger, clock: int, o: string, w: WorkerPc, outcome: Outcome, jitter: nat)
    requires TableOk(t, clock) && |t| <= MAX_OUTBOX_JOBS && WorkerOk(w, clock) && jitter < RETRY_JITTER_MS
    ensures var e := WorkStep(t, l, clock, o, w, outcome, jitter);
      && TableOk(e.jobs, clock) && Refines(t, e.jobs) && |e.jobs| <= MAX_OUTBOX_JOBS
      && (e.pc.Some? ==> WorkerOk(e.pc.value, clock))
  {
    match w
    case WMaint(m) => MaintStepOk(t, m, clock);
    case WReady =>
    case WRead(_) =>
    case WClaim(now, ids) => ClaimOk(t, ids, o, now, clock);
    case WLoop(todo) => if todo != [] { UpdateOk(t, todo[0].id, ToSending(todo[0].attempts + 1), clock); }
    case WSend(todo, n) => UpdateOk(t, todo[0].id, ToInvalid, clock);
    case WMark(todo, n, p) => UpdateOk(t, todo[0].id, p, clock);
  }

  /** A step that inserts nothing uses no new id. */
  lemma SameUsed(s: State, t: Table)
    requires RowsOk(s) && Refines(s.jobs, t)
    ensures s.used + t.Keys == s.used
  {
    forall id | id in t.Keys ensures id in s.used {
      assert id in t && id in s.jobs;
    }
  }

  lemma WorkKeeps(s: State, o: string, outcome: Outcome, jitter: nat)
    requires Inv(s) && Enabled(s, Work(o, outcome, jitter))
    ensures Inv(Exec(s, Work(o, outcome, jitter)))
  {
    WorkOk(s.jobs, s.ledger, s.clock, o, s.workers[o], outcome, jitter);
    OnePerKeyKept(s, Exec(s, Work(o, outcome, jitter)));
  }

  lemma CallOk(t: Table, l: Ledger, clock: int, p: CallerPc, uuid: int)
    requires TableOk(t, clock) && |t| <= MAX_OUTBOX_JOBS && CallerOk(p, clock)
    requires p.EAdd? ==> p.job.id !in t
    ensures var e := CallStep(t, l, clock, p, uuid);
      && TableOk(e.jobs, clock) && |e.jobs| <= MAX_OUTBOX_JOBS
      && (!p.EAdd? ==> Refines(t, e.jobs))
      && (e.pc.Some? ==> CallerOk(e.pc.value, clock))
  {
    match p
    case EMaint(_, m) => MaintStepOk(t, m, clock);
    case EAdd(job) => AddOk(t, job, clock);
    case Sweep(m) => MaintStepOk(t, m, clock);
    case RPut(id) => UpdateOk(t, id, ToPending, clock);
    case LPut(id) => UpdateOk(t, id, Unlease, clock);
    case _ =>
  }

  lemma CallKeeps(s: State, c: nat, uuid: int)
    requires Inv(s) && Enabled(s, Call(c, uuid))
    ensures Inv(Exec(s, Call(c, uuid)))
  {
    var e := Exec(s, Call(c, uuid));
    CallOk(s.jobs, s.ledger, s.clock, s.callers[c], uuid);
    if s.callers[c].EAdd? { AddKeepsOnePerKey(s, s.callers[c].job, e); } else { OnePerKeyKept(s, e); }
  }

  /** Inserting keeps one row per key unless the key has a dead-letter row. */
  lemma AddKeepsOnePerKey(s: State, job: Job, n: State)
    requires Inv(s) && job.id !in s.jobs && NewJob(job, s.clock)
    requires n.jobs == AddTx(s.jobs, job).0 && s.deadKeys <= n.deadKeys
    requires forall id | id in n.jobs && n.jobs[id].status.DeadLetter? :: n.jobs[id].key in n.deadKeys
    ensures OnePerKey(n)
  {
    AddOk(s.jobs, job, s.clock);
    FirstNone(s.jobs, job.key);
  }

  /** Steps that leave the rows alone. */
  predicate Quiet(a: Action) {
    !a.Work? && !a.Call? && !a.ClearTerminal? && !a.ClearAll?
  }

  lemma QuietActors(s: State, a: Action)
    requires ActorsOk(s) && Quiet(a) && Enabled(s, a)
    ensures var n := Act(s, a);
      n.jobs == s.jobs && n.clock >= s.clock && n.used == s.used && n.deadKeys == s.deadKeys && ActorsOk(n)
  {
  }

  lemma QuietKeeps(s: State, a: Action)
    requires Inv(s) && Quiet(a) && Enabled(s, a)
    ensures Inv(Exec(s, a))
  {
    QuietActors(s, a);
    OnePerKeyKept(s, Exec(s, a));
  }

  /** Rows may go, as long as the rest stays as it is. */
  lemma ShrinkKeeps(s: State, n: State)
    requires Inv(s) && (forall id | id in n.jobs :: id in s.jobs && n.jobs[id] == s.jobs[id]) && |n.jobs| <= |s.jobs|
    requires n.clock == s.clock && n.workers == s.workers && n.callers == s.callers && n.owners == s.owners
    requires (forall id | id in s.used :: id in n.used) && (forall k | k in s.deadKeys :: k in n.deadKeys)
    ensures Inv(n)
  {
    assert RowsOk(n);
    assert ActorsOk(n);
    assert OnePerKey(n);
  }

  lemma ClearTerminalKeeps(s: State)
    requires Inv(s)
    ensures Inv(Exec(s, ClearTerminal))
  {
    DeleteKeeps(s, Exec(s, ClearTerminal), TerminalKeys(s.jobs));
  }

  lemma DeleteKeeps(s: State, n: State, ids: set<int>)
    requires Inv(s) && n.jobs == Delete(s.jobs, ids)
    requires n.clock == s.clock && n.workers == s.workers && n.callers == s.callers && n.owners == s.owners
    requires (forall id | id in s.used :: id in n.used) && (forall k | k in s.deadKeys :: k in n.deadKeys)
    ensures Inv(n)
  {
    DeleteSize(s.jobs, ids);
    forall id | id in n.jobs ensures id in s.jobs && n.jobs[id] == s.jobs[id] { DeleteRows(s.jobs, ids, id); }
    ShrinkKeeps(s, n);
  }

  lemma ClearAllKeeps(s: State)
    requires Inv(s)
    ensures Inv(Exec(s, ClearAll))
  {
    ShrinkKeeps(s, Exec(s, ClearAll));
  }

  lemma ClearKeeps(s: State, a: Action)
    requires Inv(s) && (a.ClearTerminal? || a.ClearAll?)
    ensures Inv(Exec(s, a))
  {
    if a.ClearTerminal? { ClearTerminalKeeps(s); } else { ClearAllKeeps(s); }
  }

  lemma StepKeeps(s: State, a: Action)
    requires Inv(s)
    ensures Inv(Exec(s, a))
  {
    if Enabled(s, a) {
      if a.Work? { WorkKeeps(s, a.o, a.outcome, a.jitter); }
      else if a.Call? { CallKeeps(s, a.c, a.uuid); }
      else if Quiet(a) { QuietKeeps(s, a); }
      else { ClearKeeps(s, a); }
    }
  }

  /** Every run from the empty store keeps the invariant. */
  lemma {:induction false} RunKeeps(clock: int, acts: seq<Action>)
    ensures Inv(After(Init(clock), acts))
  {
    if acts != [] {
      RunKeeps(clock, acts[..|acts|-1]);
      StepKeeps(After(Init(clock), acts[..|acts|-1]), acts[|acts|-1]);
    }
  }
}
