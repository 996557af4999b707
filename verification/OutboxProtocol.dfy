/**
 The outbox as a transition system. Each database operation or transaction is one
 step; callers and retry workers interleave at every `await`; a worker or a caller
 may die between any two of its steps. Any number of workers may be live at once;
 the rule that only one runs at a time is a hypothesis of the theorems that need it.
 */
module OutboxProtocol {
  import opened Wrappers
  import opened Sets
  import opened OutboxModel

  /** `maintenance(now)` between its database operations. */
  datatype MaintPc = Expire(now: int) | Count | Overflow(n: nat) | Bulk(ids: set<int>)

  /** How the bridge answered one send. */
  datatype Outcome = Delivered | Rejected(error: string, retryable: bool)

  /** `runOnce` between its awaits. `todo` holds the claimed snapshots still to be handled. */
  datatype WorkerPc =
    | WMaint(m: MaintPc)
    | WReady
    | WRead(now: int)
    | WClaim(now: int, ids: seq<int>)
    | WLoop(todo: seq<Job>)
    | WSend(todo: seq<Job>, attempts: nat)
    | WMark(todo: seq<Job>, attempts: nat, patch: Patch)

  /** The callers of the store: `enqueueBatch`, sweeps, `requeueDeadLetter`, `releaseLease`. */
  datatype CallerPc =
    | EFind(key: string, parses: bool, now: int)
    | EMaint(job: Job, m: MaintPc)
    | EAdd(job: Job)
    | Sweep(m: MaintPc)
    | RGet(id: int)
    | RPut(id: int)
    | LGet(id: int, owner: string)
    | LPut(id: int)

  /** What happened to a job since it was stored or last requeued. */
  datatype Tally = Tally(sends: nat, oks: nat, crashes: nat)

  /** The store and its users, with the history the theorems speak about. */
  datatype State = State(
    jobs: Table, clock: int, workers: map<string, WorkerPc>, callers: map<nat, CallerPc>,
    owners: set<string>,        // every worker that ever started
    used: set<int>,             // every id that was ever stored
    deadKeys: set<string>,      // every key that ever had a dead-letter row
    ledger: Ledger)

  datatype Action =
    | Tick(t: int)
    | StartWorker(o: string)
    | Work(o: string, outcome: Outcome, jitter: nat)
    | Crash(o: string)
    | StartEnqueue(c: nat, key: string, parses: bool)
    | StartSweep(c: nat)
    | StartRequeue(c: nat, id: int)
    | StartRelease(c: nat, id: int, owner: string)
    | Call(c: nat, uuid: int)
    | Quit(c: nat)
    | ClearTerminal
    | ClearAll

  function Init(clock: int): State {
    State(map[], clock, map[], map[], {}, {}, {}, map[])
  }

  type Ledger = map<int, Tally>

  function TallyOf(l: Ledger, id: int): Tally {
    if id in l then l[id] else Tally(0, 0, 0)
  }

  /** A map of actors after one of them moved on, or went away. */
  function Put<K, V>(m: map<K, V>, k: K, v: Option<V>): map<K, V> {
    if v.Some? then m[k := v.value] else m - {k}
  }

  function MaintStep(t: Table, m: MaintPc): (Table, Option<MaintPc>) {
    match m
    case Expire(now) => (Delete(t, ExpiredKeys(t, now)), Some(Count))
    case Count => if |t| <= MAX_OUTBOX_JOBS then (t, None) else (t, Some(Overflow(|t| - MAX_OUTBOX_JOBS)))
    case Overflow(n) => (t, Some(Bulk(OldestFirst(t, TerminalKeys(t), n))))
    case Bulk(ids) => (Delete(t, ids), None)
  }

  /** The patch written after a send was answered at `now`. */
  function Verdict(attempts: nat, outcome: Outcome, now: int, jitter: nat): Patch
    requires jitter < RETRY_JITTER_MS
  {
    match outcome
    case Delivered => ToSent
    case Rejected(e, retryable) =>
      if !retryable || attempts >= MAX_ATTEMPTS then ToDead(e)
      else ToFailed(e, now + RetryDelay(attempts, jitter))
  }

  function Counted(l: Tally, outcome: Outcome): Tally {
    Tally(l.sends + 1, if outcome.Delivered? then l.oks + 1 else l.oks, l.crashes)
  }

  /** What one step of an actor does to the table, to its own program counter and to the ledger. */
  datatype Effect<Pc> = Effect(jobs: Table, pc: Option<Pc>, ledger: Ledger)

  function WorkStep(t: Table, l: Ledger, clock: int, o: string, w: WorkerPc, outcome: Outcome, jitter: nat): Effect<WorkerPc>
    requires jitter < RETRY_JITTER_MS
  {
    match w
    case WMaint(m) =>
      var r := MaintStep(t, m);
      Effect(r.0, Some(if r.1.Some? then WMaint(r.1.value) else WReady), l)
    case WReady => Effect(t, Some(WRead(clock)), l)
    case WRead(now) => Effect(t, Some(WClaim(now, DueList(t, now, CLAIM_LIMIT))), l)
    case WClaim(now, ids) =>
      var r := ClaimTx(t, ids, o, now, clock);
      Effect(r.0, Some(WLoop(r.1)), l)
    case WLoop(todo) =>
      if todo == [] then Effect(t, None, l) else
        var n := todo[0].attempts + 1;
        Effect(Update(t, todo[0].id, ToSending(n), clock), Some(WSend(todo, n)), l)
    case WSend(todo, n) =>
      if todo == [] then Effect(t, None, l)
      else if !todo[0].parses then
        Effect(Update(t, todo[0].id, ToInvalid, clock), Some(WLoop(todo[1..])), l)
      else
        Effect(t, Some(WMark(todo, n, Verdict(n, outcome, clock, jitter))),
               l[todo[0].id := Counted(TallyOf(l, todo[0].id), outcome)])
    case WMark(todo, n, patch) =>
      if todo == [] then Effect(t, None, l) else
        Effect(Update(t, todo[0].id, patch, clock), Some(WLoop(todo[1..])), l)
  }

  /** A worker dies. A job it had marked `sending` stays that way, and the ledger notes the crash. */
  function CrashLedger(l: Ledger, w: WorkerPc): Ledger {
    if (w.WSend? || w.WMark?) && w.todo != [] then
      var k := TallyOf(l, w.todo[0].id);
      l[w.todo[0].id := k.(crashes := k.crashes + 1)]
    else l
  }

  function CallStep(t: Table, l: Ledger, clock: int, p: CallerPc, uuid: int): Effect<CallerPc> {
    match p
    case EFind(key, parses, now) =>
      var existing := First(t, key);
      if existing.Some? && !existing.value.status.DeadLetter? then Effect(t, None, l)
      else
        var job := Job(uuid, key, parses, Pending, 0, None, now, now, None, None, None);
        Effect(t, Some(EMaint(job, Expire(clock))), l)
    case EMaint(job, m) =>
      var r := MaintStep(t, m);
      Effect(r.0, Some(if r.1.Some? then EMaint(job, r.1.value) else EAdd(job)), l)
    case EAdd(job) => Effect(AddTx(t, job).0, None, l)
    case Sweep(m) =>
      var r := MaintStep(t, m);
      Effect(r.0, if r.1.Some? then Some(Sweep(r.1.value)) else None, l)
    case RGet(id) => Effect(t, if id in t && t[id].status.DeadLetter? then Some(RPut(id)) else None, l)
    case RPut(id) => Effect(Update(t, id, ToPending, clock), None, if id in t then l[id := Tally(0, 0, 0)] else l)
    case LGet(id, owner) => Effect(t, if id in t && t[id].leaseOwner == Some(owner) then Some(LPut(id)) else None, l)
    case LPut(id) => Effect(Update(t, id, Unlease, clock), None, l)
  }

  /** Owners and stored ids are fresh UUIDs; time does not run backwards. */
  predicate Enabled(s: State, a: Action) {
    match a
    case Tick(t) => t >= s.clock
    case StartWorker(o) => o != "" && o !in s.owners
    case Work(o, _, jitter) => o in s.workers && jitter < RETRY_JITTER_MS
    case Crash(o) => o in s.workers
    case StartEnqueue(c, _, _) => c !in s.callers
    case StartSweep(c) => c !in s.callers
    case StartRequeue(c, _) => c !in s.callers
    case StartRelease(c, _, _) => c !in s.callers
    case Call(c, _) => c in s.callers && (s.callers[c].EAdd? ==> s.callers[c].job.id !in s.used)
    case Quit(c) => c in s.callers
    case ClearTerminal => true
    case ClearAll => true
  }

  function Act(s: State, a: Action): State
    requires Enabled(s, a)
  {
    match a
    case Tick(t) => s.(clock := t)
    case StartWorker(o) => s.(workers := s.workers[o := WMaint(Expire(s.clock))], owners := s.owners + {o})
    case Work(o, outcome, jitter) =>
      var e := WorkStep(s.jobs, s.ledger, s.clock, o, s.workers[o], outcome, jitter);
      s.(jobs := e.jobs, workers := Put(s.workers, o, e.pc), ledger := e.ledger)
    case Crash(o) => s.(workers := s.workers - {o}, ledger := CrashLedger(s.ledger, s.workers[o]))
    case StartEnqueue(c, key, parses) => s.(callers := s.callers[c := EFind(key, parses, s.clock)])
    case StartSweep(c) => s.(callers := s.callers[c := Sweep(Expire(s.clock))])
    case StartRequeue(c, id) => s.(callers := s.callers[c := RGet(id)])
    case StartRelease(c, id, owner) => s.(callers := s.callers[c := LGet(id, owner)])
    case Call(c, uuid) =>
      var e := CallStep(s.jobs, s.ledger, s.clock, s.callers[c], uuid);
      s.(jobs := e.jobs, callers := Put(s.callers, c, e.pc), ledger := e.ledger)
    case Quit(c) => s.(callers := s.callers - {c})
    case ClearTerminal => s.(jobs := Delete(s.jobs, TerminalKeys(s.jobs)))
    case ClearAll => s.(jobs := map[])
  }

  function DeadKeys(t: Table): set<string> {
    set id | id in t && t[id].status.DeadLetter? :: t[id].key
  }

  /** One step and its entry in the history; an action that is not enabled does nothing. */
  function Exec(s: State, a: Action): State {
    if !Enabled(s, a) then s else
      var n := Act(s, a);
      n.(used := n.used + n.jobs.Keys, deadKeys := n.deadKeys + DeadKeys(n.jobs))
  }

  /** The state after a run of actions. */
  function After(s: State, acts: seq<Action>): State {
    if acts == [] then s else Exec(After(s, acts[..|acts|-1]), acts[|acts|-1])
  }

  /** Single flight, and no requeue of a row starts to write while another one still has to. */
  predicate Disciplined(s: State, a: Action) {
    match a
    case StartWorker(_) => s.workers == map[]
    case Call(c, _) =>
      c in s.callers && s.callers[c].RGet? ==>
        forall d | d in s.callers :: s.callers[d] != RPut(s.callers[c].id)
    case _ => true
  }

  predicate Serial(s: State, acts: seq<Action>) {
    forall i | 0 <= i < |acts| :: Disciplined(After(s, acts[..i]), acts[i])
  }
}
