/**
 Why the lifecycle theorems ask that requeues of one row do not overlap: `requeueDeadLetter`
 reads the row and writes it in two separate operations. A run in which two of them overlap
 turns a job that NOVA accepted back into a pending one.
 */
module OutboxRace {
  import opened Wrappers
  import opened Sets
  import opened OutboxModel
  import opened OutboxProtocol
  import opened OutboxSafety
  import opened OutboxRuns

  lemma LoneDue(t: Table, id: int, now: int)
    requires t.Keys == {id} && Due(t[id], now)
    ensures DueList(t, now, CLAIM_LIMIT) == [id]
  {
    assert DueKeys(t, now) == {id};
    assert |Ordered({id})| == 1 && Ordered({id})[0] in Ordered({id});
  }

  function Repeat(a: Action, n: nat): seq<Action> {
    if n == 0 then [] else [a] + Repeat(a, n - 1)
  }

  /** The next step of a worker that nobody interrupts; a finished one does nothing. */
  function Next(e: Effect<WorkerPc>, clock: int, o: string, outcome: Outcome): Effect<WorkerPc> {
    if e.pc.None? then e else WorkStep(e.jobs, e.ledger, clock, o, e.pc.value, outcome, 0)
  }

  function From(e: Effect<WorkerPc>, clock: int, o: string, outcome: Outcome, n: nat): Effect<WorkerPc>
    decreases n
  {
    if n == 0 then e else From(Next(e, clock, o, outcome), clock, o, outcome, n - 1)
  }

  function Solo(t: Table, l: Ledger, clock: int, o: string, w: WorkerPc, outcome: Outcome, n: nat): Effect<WorkerPc> {
    From(Effect(t, Some(w), l), clock, o, outcome, n)
  }

  /** The state changes by the worker's effect and by nothing else. */
  predicate Advanced(s: State, n: State, o: string, e: Effect<WorkerPc>) {
    n == s.(jobs := e.jobs, ledger := e.ledger, workers := Put(s.workers, o, e.pc), deadKeys := n.deadKeys)
  }

  /** A run that started in `s` is in `si`, where the worker alone has changed anything. */
  predicate At(s: State, si: State, o: string, e: Effect<WorkerPc>) {
    Inv(si) && Advanced(s, si, o, e)
  }

  /** A worker's step, written out. */
  lemma WorkExec(s: State, o: string, outcome: Outcome, e: Effect<WorkerPc>)
    requires o in s.workers && e == WorkStep(s.jobs, s.ledger, s.clock, o, s.workers[o], outcome, 0)
    ensures Exec(s, Work(o, outcome, 0)) == s.(jobs := e.jobs, ledger := e.ledger, workers := Put(s.workers, o, e.pc),
                                               used := s.used + e.jobs.Keys, deadKeys := s.deadKeys + DeadKeys(e.jobs))
  {
  }

  lemma PutAgain(m: map<string, WorkerPc>, o: string, v: Option<WorkerPc>, w: Option<WorkerPc>)
    ensures Put(Put(m, o, v), o, w) == Put(m, o, w)
  {
  }

  lemma AdvancedAgain(s: State, si: State, n: State, o: string, e: Effect<WorkerPc>, e': Effect<WorkerPc>)
    requires Advanced(s, si, o, e)
    requires n == si.(jobs := e'.jobs, ledger := e'.ledger, workers := Put(si.workers, o, e'.pc), used := si.used, deadKeys := n.deadKeys)
    ensures Advanced(s, n, o, e')
  {
    PutAgain(s.workers, o, e.pc, e'.pc);
  }

  lemma IdsKept(s: State, o: string, outcome: Outcome, e: Effect<WorkerPc>)
    requires Inv(s) && o in s.workers && e == WorkStep(s.jobs, s.ledger, s.clock, o, s.workers[o], outcome, 0)
    ensures s.used + e.jobs.Keys == s.used
  {
    WorkOk(s.jobs, s.ledger, s.clock, o, s.workers[o], outcome, 0);
    SameUsed(s, e.jobs);
  }

  lemma AdvancedFacts(s: State, si: State, o: string, e: Effect<WorkerPc>)
    requires Advanced(s, si, o, e) && e.pc.Some?
    ensures si.jobs == e.jobs && si.ledger == e.ledger && si.clock == s.clock && o in si.workers && si.workers[o] == e.pc.value
  {
  }

  lemma SoloStep(s: State, si: State, o: string, outcome: Outcome, e: Effect<WorkerPc>)
    requires At(s, si, o, e) && e.pc.Some?
    ensures Advanced(s, Exec(si, Work(o, outcome, 0)), o, Next(e, s.clock, o, outcome))
  {
    var e' := Next(e, s.clock, o, outcome);
    AdvancedFacts(s, si, o, e);
    WorkExec(si, o, outcome, e');
    IdsKept(si, o, outcome, e');
    AdvancedAgain(s, si, Exec(si, Work(o, outcome, 0)), o, e, e');
  }

  lemma SoloNextAt(s: State, si: State, o: string, outcome: Outcome, e: Effect<WorkerPc>)
    requires At(s, si, o, e)
    ensures At(s, Exec(si, Work(o, outcome, 0)), o, Next(e, s.clock, o, outcome))
  {
    StepKeeps(si, Work(o, outcome, 0));
    if e.pc.Some? { SoloStep(s, si, o, outcome, e); }
  }

  function Steps(s: State, a: Action, n: nat): State
    decreases n
  {
    if n == 0 then s else Steps(Exec(s, a), a, n - 1)
  }

  lemma {:induction false} RepeatIsSteps(s: State, a: Action, n: nat)
    ensures After(s, Repeat(a, n)) == Steps(s, a, n)
    decreases n
  {
    if n > 0 {
      AfterFirst(s, a, Repeat(a, n - 1));
      RepeatIsSteps(Exec(s, a), a, n - 1);
    }
  }

  lemma {:induction false} SoloRun(s: State, si: State, o: string, outcome: Outcome, e: Effect<WorkerPc>, n: nat)
    requires At(s, si, o, e)
    ensures At(s, Steps(si, Work(o, outcome, 0), n), o, From(e, s.clock, o, outcome, n))
    decreases n
  {
    if n > 0 {
      SoloNextAt(s, si, o, outcome, e);
      SoloRun(s, Exec(si, Work(o, outcome, 0)), o, outcome, Next(e, s.clock, o, outcome), n - 1);
    }
  }

  predicate LonePending(t: Table, id: int) {
    && t.Keys == {id} && t[id].id == id && t[id].parses
    && t[id].status.Pending? && t[id].nextRetryAt.None? && t[id].leaseOwner.None?
  }

  /** Sweeping, reading and claiming a lone pending job. */
  lemma LoneClaim(t: Table, l: Ledger, clock: int, o: string, id: int, outcome: Outcome)
    requires LonePending(t, id)
    ensures var j := Apply(t[id], Lease(o, clock + LEASE_MS), clock);
      && WorkStep(t, l, clock, o, WMaint(Expire(clock)), outcome, 0) == Effect(t, Some(WMaint(Count)), l)
      && WorkStep(t, l, clock, o, WMaint(Count), outcome, 0) == Effect(t, Some(WReady), l)
      && WorkStep(t, l, clock, o, WRead(clock), outcome, 0) == Effect(t, Some(WClaim(clock, [id])), l)
      && WorkStep(t, l, clock, o, WClaim(clock, [id]), outcome, 0) == Effect(t[id := j], Some(WLoop([j])), l)
  {
    assert ExpiredKeys(t, clock) == {};
    assert Delete(t, {}) == t;
    assert |t| == |t.Keys| == 1;
    LoneDue(t, id, clock);
    var ids := [id];
    assert ids[..|ids| - 1] == [] && ClaimTx(t, [], o, clock, clock) == (t, []);
    var j := Apply(t[id], Lease(o, clock + LEASE_MS), clock);
    assert [] + [j] == [j];
    assert ClaimTx(t, ids, o, clock, clock) == (t[id := j], [j]);
  }

  lemma SoloNext(t: Table, l: Ledger, clock: int, o: string, w: WorkerPc, outcome: Outcome, n: nat)
    requires n > 0 && WorkStep(t, l, clock, o, w, outcome, 0).pc.Some?
    ensures var e := WorkStep(t, l, clock, o, w, outcome, 0);
      Solo(t, l, clock, o, w, outcome, n) == Solo(e.jobs, e.ledger, clock, o, e.pc.value, outcome, n - 1)
  {
  }

  /** Settling, then finishing. */
  lemma LoneMark(t: Table, l: Ledger, clock: int, o: string, j: Job, n: nat, p: Patch, outcome: Outcome)
    ensures Solo(t, l, clock, o, WMark([j], n, p), outcome, 2) == Effect(Update(t, j.id, p, clock), None, l)
  {
    var t' := Update(t, j.id, p, clock);
    assert [j][1..] == [];
    SoloNext(t, l, clock, o, WMark([j], n, p), outcome, 2);
    assert Solo(t', l, clock, o, WLoop([]), outcome, 1) == Effect(t', None, l);
  }

  /** Sending and settling the only job on the list. */
  lemma LoneSend(t: Table, l: Ledger, clock: int, o: string, j: Job, outcome: Outcome)
    requires t.Keys == {j.id} && t[j.id] == j && j.parses && (outcome.Delivered? || !outcome.retryable)
    ensures var e := Solo(t, l, clock, o, WLoop([j]), outcome, 4);
      && e.pc.None? && e.jobs.Keys == {j.id}
      && e.jobs[j.id].status == (if outcome.Delivered? then Sent else DeadLetter)
      && e.jobs[j.id].parses && e.jobs[j.id].leaseOwner.None? && e.jobs[j.id].key == j.key && e.jobs[j.id].updatedAt == clock
  {
    var n := j.attempts + 1;
    var t2 := Update(t, j.id, ToSending(n), clock);
    var l1 := l[j.id := Counted(TallyOf(l, j.id), outcome)];
    SoloNext(t, l, clock, o, WLoop([j]), outcome, 4);
    SoloNext(t2, l, clock, o, WSend([j], n), outcome, 3);
    LoneMark(t2, l1, clock, o, j, n, Verdict(n, outcome, clock, 0), outcome);
  }

  /** A lone pending job goes through a whole pass. */
  lemma LonePass(t: Table, l: Ledger, clock: int, o: string, id: int, outcome: Outcome)
    requires LonePending(t, id) && (outcome.Delivered? || !outcome.retryable)
    ensures var e := Solo(t, l, clock, o, WMaint(Expire(clock)), outcome, 9);
      && e.pc.None? && e.jobs.Keys == {id}
      && e.jobs[id].status == (if outcome.Delivered? then Sent else DeadLetter)
      && e.jobs[id].parses && e.jobs[id].leaseOwner.None? && e.jobs[id].key == t[id].key && e.jobs[id].updatedAt == clock
  {
    LoneClaim(t, l, clock, o, id, outcome);
    SoloNext(t, l, clock, o, WMaint(Expire(clock)), outcome, 9);
    SoloNext(t, l, clock, o, WMaint(Count), outcome, 8);
    SoloNext(t, l, clock, o, WReady, outcome, 7);
    SoloNext(t, l, clock, o, WRead(clock), outcome, 6);
    SoloNext(t, l, clock, o, WClaim(clock, [id]), outcome, 5);
    var j := Apply(t[id], Lease(o, clock + LEASE_MS), clock);
    LoneSend(t[id := j], l, clock, o, j, outcome);
  }

  /** The store holds one job, and nobody is working on it. */
  predicate Alone(s: State, id: int, status: Status) {
    && Inv(s) && s.workers == map[] && s.jobs.Keys == {id} && s.jobs[id].parses
    && s.jobs[id].status == status && s.jobs[id].leaseOwner.None? && (status.Pending? ==> s.jobs[id].nextRetryAt.None?)
    && s.jobs[id].key == "k" && s.jobs[id].updatedAt == s.clock
  }

  /** A worker starts and takes `n` steps. */
  function Pass(o: string, outcome: Outcome, n: nat): seq<Action> {
    [StartWorker(o)] + Repeat(Work(o, outcome, 0), n)
  }

  lemma PassStarts(s: State, o: string, id: int) returns (n: State)
    requires Alone(s, id, Pending) && o != "" && o !in s.owners
    ensures n == Exec(s, StartWorker(o)) && LonePending(n.jobs, id) && n.jobs[id].key == "k" && n.workers.Keys == {o}
    ensures At(n, n, o, Effect(n.jobs, Some(WMaint(Expire(n.clock))), n.ledger))
    ensures n.callers == s.callers && n.owners == s.owners + {o} && n.clock == s.clock
  {
    n := Exec(s, StartWorker(o));
    StepKeeps(s, StartWorker(o));
    assert n.workers == map[o := WMaint(Expire(s.clock))];
  }

  lemma PassEnds(s: State, n: State, o: string, id: int, status: Status, e: Effect<WorkerPc>)
    requires At(s, n, o, e) && e.pc.None? && s.workers.Keys == {o} && !status.Pending?
    requires e.jobs.Keys == {id} && e.jobs[id].status == status && e.jobs[id].parses && e.jobs[id].leaseOwner.None?
    requires e.jobs[id].key == "k" && e.jobs[id].updatedAt == s.clock
    ensures Alone(n, id, status) && n.callers == s.callers && n.owners == s.owners && n.clock == s.clock
  {
    assert s.workers - {o} == map[];
  }

  /** The worker's run, from its start to `last`. */
  predicate PassTo(s: State, last: State, o: string, outcome: Outcome, steps: nat) {
    last == Steps(Exec(s, StartWorker(o)), Work(o, outcome, 0), steps)
  }

  /** Nine steps take a lone pending job to its end. */
  lemma PassSettles(s: State, last: State, o: string, id: int, outcome: Outcome, steps: nat)
    requires Alone(s, id, Pending) && o != "" && o !in s.owners && (outcome.Delivered? || !outcome.retryable) && steps == 9
    requires PassTo(s, last, o, outcome, steps)
    ensures Alone(last, id, if outcome.Delivered? then Sent else DeadLetter)
    ensures last.callers == s.callers && last.owners == s.owners + {o} && last.clock == s.clock
  {
    var n := PassStarts(s, o, id);
    PassRuns(n, last, o, id, outcome, steps);
  }

  lemma PassIsSteps(s: State, o: string, outcome: Outcome, steps: nat)
    ensures PassTo(s, After(s, Pass(o, outcome, steps)), o, outcome, steps)
  {
    AfterFirst(s, StartWorker(o), Repeat(Work(o, outcome, 0), steps));
    RepeatIsSteps(Exec(s, StartWorker(o)), Work(o, outcome, 0), steps);
  }

  /** A worker took the lone job of `s` to its end and left everything else alone. */
  predicate Settled(s: State, last: State, o: string, id: int, outcome: Outcome) {
    && Alone(last, id, if outcome.Delivered? then Sent else DeadLetter)
    && last.callers == s.callers && last.owners == s.owners + {o} && last.clock == s.clock
  }

  lemma PassSettled(s: State, o: string, id: int, outcome: Outcome, steps: nat) returns (last: State)
    requires Alone(s, id, Pending) && o != "" && o !in s.owners && (outcome.Delivered? || !outcome.retryable) && steps == 9
    ensures last == After(s, Pass(o, outcome, steps)) && Settled(s, last, o, id, outcome)
  {
    last := After(s, Pass(o, outcome, steps));
    PassIsSteps(s, o, outcome, steps);
    PassSettles(s, last, o, id, outcome, steps);
  }

  lemma PassRuns(s: State, last: State, o: string, id: int, outcome: Outcome, steps: nat)
    requires last == Steps(s, Work(o, outcome, 0), steps) && steps == 9
    requires LonePending(s.jobs, id) && s.jobs[id].key == "k" && (outcome.Delivered? || !outcome.retryable)
    requires s.workers.Keys == {o} && At(s, s, o, Effect(s.jobs, Some(WMaint(Expire(s.clock))), s.ledger))
    ensures Alone(last, id, if outcome.Delivered? then Sent else DeadLetter)
    ensures last.callers == s.callers && last.owners == s.owners && last.clock == s.clock
  {
    var e := Effect(s.jobs, Some(WMaint(Expire(s.clock))), s.ledger);
    SoloRun(s, s, o, outcome, e, steps);
    LonePass(s.jobs, s.ledger, s.clock, o, id, outcome);
    PassEnds(s, last, o, id, if outcome.Delivered? then Sent else DeadLetter, From(e, s.clock, o, outcome, steps));
  }

  predicate StatusIs(s: State, id: int, status: Status) {
    id in s.jobs && s.jobs[id].status == status
  }

  lemma RequeueWrites(s: State, id: int, c: nat)
    requires Inv(s) && id in s.jobs && c in s.callers && s.callers[c] == RPut(id)
    ensures var n := Exec(s, Call(c, 0));
      && Inv(n) && n.jobs.Keys == s.jobs.Keys && n.jobs[id] == Apply(s.jobs[id], ToPending, s.clock)
      && n.workers == s.workers && n.owners == s.owners && n.clock == s.clock && n.callers == s.callers - {c}
  {
    StepKeeps(s, Call(c, 0));
  }

  /**
   From any state in which two requeues have both seen the same lone dead letter, the job
   is delivered and marked `sent`, and then becomes pending again.
   */
  lemma OverlapRevivesSent(s: State, id: int, c: nat, d: nat, o: string, steps: nat)
    requires Alone(s, id, DeadLetter) && c != d && c in s.callers && d in s.callers
    requires s.callers[c] == RPut(id) && s.callers[d] == RPut(id) && o != "" && o !in s.owners && steps == 9
    ensures var run := [Call(c, 0)] + Pass(o, Delivered, steps);
      StatusIs(After(s, run), id, Sent) && StatusIs(After(s, run + [Call(d, 0)]), id, Pending)
  {
    var s1 := FirstRequeue(s, id, c);
    AfterFirst(s, Call(c, 0), Pass(o, Delivered, steps));
    var s2 := PassSettled(s1, o, id, Delivered, steps);
    LastRequeue(s2, id, d);
    AfterOne(s, [Call(c, 0)] + Pass(o, Delivered, steps), Call(d, 0));
  }

  lemma LastRequeue(s: State, id: int, d: nat)
    requires Alone(s, id, Sent) && d in s.callers && s.callers[d] == RPut(id)
    ensures StatusIs(s, id, Sent) && StatusIs(Exec(s, Call(d, 0)), id, Pending)
  {
    RequeueWrites(s, id, d);
  }

  lemma FirstRequeue(s: State, id: int, c: nat) returns (n: State)
    requires Alone(s, id, DeadLetter) && c in s.callers && s.callers[c] == RPut(id)
    ensures n == Exec(s, Call(c, 0)) && Alone(n, id, Pending) && n.owners == s.owners && n.callers == s.callers - {c}
  {
    RequeueWrites(s, id, c);
    n := Exec(s, Call(c, 0));
  }

  function NewRow(uuid: int, key: string, clock: int): Job {
    Job(uuid, key, true, Pending, 0, None, clock, clock, None, None, None)
  }

  /** An enqueue of the key would go through: no live row is found first, and there is room. */
  predicate Free(t: Table, key: string, clock: int) {
    && (First(t, key).Some? ==> First(t, key).value.status.DeadLetter?)
    && ExpiredKeys(t, clock) == {} && |t| < MAX_OUTBOX_JOBS
  }

  /** The four operations of an enqueue that goes through. */
  lemma FreeCalls(t: Table, l: Ledger, clock: int, key: string, uuid: int)
    requires Free(t, key, clock)
    ensures var job := NewRow(uuid, key, clock);
      && CallStep(t, l, clock, EFind(key, true, clock), uuid) == Effect(t, Some(EMaint(job, Expire(clock))), l)
      && CallStep(t, l, clock, EMaint(job, Expire(clock)), uuid) == Effect(t, Some(EMaint(job, Count)), l)
      && CallStep(t, l, clock, EMaint(job, Count), uuid) == Effect(t, Some(EAdd(job)), l)
      && CallStep(t, l, clock, EAdd(job), uuid) == Effect(t[uuid := job], None, l)
  {
    assert Delete(t, {}) == t;
  }

  /** The caller starts and takes three steps: it is about to insert. */
  function Preparing(c: nat, key: string, uuid: int): seq<Action> {
    [StartEnqueue(c, key, true)] + ([Call(c, uuid)] + ([Call(c, uuid)] + ([Call(c, uuid)] + [])))
  }

  /** Nothing moved but caller `c`, which is now at `p`. */
  predicate CallerAt(s: State, n: State, c: nat, p: CallerPc) {
    && n.jobs == s.jobs && n.workers == s.workers && n.owners == s.owners && n.clock == s.clock && n.ledger == s.ledger
    && n.callers == s.callers[c := p] && n.used == s.used
  }

  lemma AtAgain(m: map<nat, CallerPc>, c: nat, p: CallerPc, q: CallerPc)
    ensures m[c := p][c := q] == m[c := q]
  {
  }

  lemma CallerMoves(s: State, n: State, c: nat, p: CallerPc, q: CallerPc, uuid: int)
    requires RowsOk(n) && CallerAt(s, n, c, p) && !p.EAdd?
    requires CallStep(s.jobs, s.ledger, s.clock, p, uuid) == Effect(s.jobs, Some(q), s.ledger)
    ensures CallerAt(s, Exec(n, Call(c, uuid)), c, q)
  {
    assert n.callers[c] == p;
    CallTo(n, c, uuid, Effect(s.jobs, Some(q), s.ledger));
    SameUsed(n, n.jobs);
    AtAgain(s.callers, c, p, q);
  }

  lemma Prepared(s: State, c: nat, key: string, uuid: int)
    requires Inv(s) && Free(s.jobs, key, s.clock) && c !in s.callers
    ensures var n := After(s, Preparing(c, key, uuid)); Inv(n) && CallerAt(s, n, c, EAdd(NewRow(uuid, key, s.clock)))
  {
    var a, job := Call(c, uuid), NewRow(uuid, key, s.clock);
    var s0 := Exec(s, StartEnqueue(c, key, true));
    StepKeeps(s, StartEnqueue(c, key, true));
    SameUsed(s, s.jobs);
    FreeCalls(s.jobs, s.ledger, s.clock, key, uuid);
    CallerMoves(s, s0, c, EFind(key, true, s.clock), EMaint(job, Expire(s.clock)), uuid);
    var s1 := Exec(s0, a);
    StepKeeps(s0, a);
    CallerMoves(s, s1, c, EMaint(job, Expire(s.clock)), EMaint(job, Count), uuid);
    var s2 := Exec(s1, a);
    StepKeeps(s1, a);
    CallerMoves(s, s2, c, EMaint(job, Count), EAdd(job), uuid);
    StepKeeps(s2, a);
    PreparingIsFourSteps(s, c, key, uuid);
  }

  lemma PreparingIsFourSteps(s: State, c: nat, key: string, uuid: int)
    ensures After(s, Preparing(c, key, uuid)) ==
      Exec(Exec(Exec(Exec(s, StartEnqueue(c, key, true)), Call(c, uuid)), Call(c, uuid)), Call(c, uuid))
  {
    var a := Call(c, uuid);
    var s0 := Exec(s, StartEnqueue(c, key, true));
    AfterFirst(s, StartEnqueue(c, key, true), [a] + ([a] + ([a] + [])));
    AfterFirst(s0, a, [a] + ([a] + []));
    AfterFirst(Exec(s0, a), a, [a] + []);
    AfterFirst(Exec(Exec(s0, a), a), a, []);
  }

  /** The fourth step inserts. */
  lemma Inserts(s: State, n: State, c: nat, key: string, uuid: int)
    requires Inv(n) && Free(s.jobs, key, s.clock) && uuid !in s.used && CallerAt(s, n, c, EAdd(NewRow(uuid, key, s.clock))) && c !in s.callers
    ensures var m := Exec(n, Call(c, uuid));
      && Inv(m) && m.jobs == s.jobs[uuid := NewRow(uuid, key, s.clock)]
      && m.workers == s.workers && m.owners == s.owners && m.clock == s.clock && m.callers == s.callers
  {
    StepKeeps(n, Call(c, uuid));
    FreeCalls(s.jobs, s.ledger, s.clock, key, uuid);
    CallTo(n, c, uuid, Effect(s.jobs[uuid := NewRow(uuid, key, s.clock)], None, s.ledger));
    assert s.callers[c := EAdd(NewRow(uuid, key, s.clock))] - {c} == s.callers;
  }

  function Enqueue(c: nat, key: string, uuid: int): seq<Action> {
    Preparing(c, key, uuid) + [Call(c, uuid)]
  }

  /** A whole enqueue that goes through. */
  lemma Enqueued(s: State, c: nat, key: string, uuid: int)
    requires Inv(s) && Free(s.jobs, key, s.clock) && uuid !in s.used && c !in s.callers
    ensures var m := After(s, Enqueue(c, key, uuid));
      && Inv(m) && m.jobs == s.jobs[uuid := NewRow(uuid, key, s.clock)]
      && m.workers == s.workers && m.owners == s.owners && m.clock == s.clock && m.callers == s.callers
  {
    Prepared(s, c, key, uuid);
    Inserts(s, After(s, Preparing(c, key, uuid)), c, key, uuid);
    AfterOne(s, Preparing(c, key, uuid), Call(c, uuid));
  }

  lemma EnqueueAlone(clock: int)
    ensures var n := After(Init(clock), Enqueue(0, "k", 7));
      Alone(n, 7, Pending) && n.callers == map[] && n.owners == {}
  {
    var s := Init(clock);
    assert KeyRows(s.jobs, "k") == {} && ExpiredKeys(s.jobs, clock) == {};
    RunKeeps(clock, []);
    Enqueued(s, 0, "k", 7);
  }

  /** A requeue starts and reads the dead letter. */
  lemma RequeueReads(s: State, id: int, c: nat)
    requires id in s.jobs && s.jobs[id].status.DeadLetter? && c !in s.callers
    ensures var n := Exec(Exec(s, StartRequeue(c, id)), Call(c, 0));
      && n.jobs == s.jobs && n.workers == s.workers && n.owners == s.owners && n.clock == s.clock && n.callers == s.callers[c := RPut(id)]
  {
    var s1 := Exec(s, StartRequeue(c, id));
    assert s1.callers == s.callers[c := RGet(id)] && s1.jobs == s.jobs;
    CallTo(s1, c, 0, Effect(s.jobs, Some(RPut(id)), s.ledger));
  }

  lemma RequeueAlone(s: State, id: int, c: nat)
    requires Alone(s, id, DeadLetter) && c !in s.callers
    ensures var n := After(s, [StartRequeue(c, id)] + ([Call(c, 0)] + []));
      && Alone(n, id, DeadLetter) && n.owners == s.owners && n.callers == s.callers[c := RPut(id)]
  {
    var s1 := Exec(s, StartRequeue(c, id));
    StepKeeps(s, StartRequeue(c, id));
    StepKeeps(s1, Call(c, 0));
    AfterFirst(s, StartRequeue(c, id), [Call(c, 0)] + []);
    AfterFirst(s1, Call(c, 0), []);
    RequeueReads(s, id, c);
  }

  function Requeue(c: nat, id: int): seq<Action> {
    [StartRequeue(c, id)] + ([Call(c, 0)] + [])
  }

  /** A reachable state with one dead letter and nobody at work. */
  lemma OneDead(clock: int) returns (acts: seq<Action>)
    ensures var s := After(Init(clock), acts);
      Alone(s, 7, DeadLetter) && s.callers == map[] && s.owners == {"a"}
  {
    EnqueueAlone(clock);
    var refused, steps: nat := Rejected("refused", false), 9;
    var last := PassSettled(After(Init(clock), Enqueue(0, "k", 7)), "a", 7, refused, steps);
    AfterMore(Init(clock), Enqueue(0, "k", 7), Pass("a", refused, steps));
    acts := Enqueue(0, "k", 7) + Pass("a", refused, steps);
  }

  /** A reachable state in which two requeues have read the same dead letter. */
  lemma TwoReaders(clock: int) returns (acts: seq<Action>)
    ensures var s := After(Init(clock), acts);
      && Alone(s, 7, DeadLetter) && s.callers == map[1 := RPut(7), 2 := RPut(7)] && s.owners == {"a"}
  {
    var before := OneDead(clock);
    var s2 := After(Init(clock), before);
    RequeueAlone(s2, 7, 1);
    AfterMore(Init(clock), before, Requeue(1, 7));
    var s3 := After(s2, Requeue(1, 7));
    RequeueAlone(s3, 7, 2);
    AfterMore(Init(clock), before + Requeue(1, 7), Requeue(2, 7));
    acts := before + Requeue(1, 7) + Requeue(2, 7);
  }

  /** The race is reachable from the empty store: `sent` is not final in every run. */
  lemma SentIsNotAlwaysFinal(clock: int) returns (acts: seq<Action>)
    ensures StatusIs(After(Init(clock), acts), 7, Sent)
    ensures StatusIs(After(Init(clock), acts + [Call(2, 0)]), 7, Pending)
  {
    var before := TwoReaders(clock);
    var s := After(Init(clock), before);
    var steps: nat := 9;
    var race := [Call(1, 0)] + Pass("b", Delivered, steps);
    OverlapRevivesSent(s, 7, 1, 2, "b", steps);
    AfterMore(Init(clock), before, race);
    AfterMore(Init(clock), before, race + [Call(2, 0)]);
    acts := before + race;
    assert acts + [Call(2, 0)] == before + (race + [Call(2, 0)]);
  }
}
