/** When a job is sent again: not before the time its last rejection set, and which jobs a claim may hand over. */
module OutboxRetry {
  import opened Wrappers
  import opened Sets
  import opened OutboxModel
  import opened OutboxProtocol
  import opened OutboxSafety
  import opened OutboxGuarantees
  import opened OutboxRuns
  import opened OutboxLifecycle

  // ----- what a claim hands over -----

  /** Still owed, its retry time has come, and nobody marked it as being sent in the last two minutes. */
  predicate Ready(j: Job, now: int) {
    && !j.status.Terminal()
    && (j.status.Sending? ==> j.updatedAt + 120_000 <= now)
    && (!j.status.Sending? && j.nextRetryAt.Some? ==> j.nextRetryAt.value <= now)
  }

  /** At the head of the queue for a page of `limit`: fewer than that many ready jobs have a smaller id. */
  predicate OnPage(t: Table, id: int, now: int, limit: nat) {
    |set x | x in t && Ready(t[x], now) && x < id| < limit
  }

  lemma DueIsReady(j: Job, now: int)
    ensures Due(j, now) <==> Ready(j, now)
  {
  }

  lemma DueAhead(t: Table, now: int, id: int)
    ensures (set x | x in DueKeys(t, now) && x < id) == (set x | x in t && Ready(t[x], now) && x < id)
  {
    forall x | x in t ensures Due(t[x], now) <==> Ready(t[x], now) { DueIsReady(t[x], now); }
  }

  /** An undisturbed claim hands over exactly the ready jobs of the page that nobody else holds. */
  lemma ClaimedExactly(t: Table, owner: string, limit: nat, now: int, clock: int, id: int)
    requires (forall x | x in t :: t[x].id == x) && id in t
    ensures (exists j :: j in ClaimTx(t, DueList(t, now, limit), owner, now, clock).1 && j.id == id) <==>
      Ready(t[id], now) && OnPage(t, id, now, limit) && !LeaseActive(t[id], owner, now)
  {
    ClaimTakesRow(t, DueList(t, now, limit), owner, now, clock, id);
    ListedReady(t, now, limit, id);
  }

  lemma ListedReady(t: Table, now: int, limit: nat, id: int)
    requires id in t
    ensures id in DueList(t, now, limit) <==> Ready(t[id], now) && OnPage(t, id, now, limit)
  {
    DueIsReady(t[id], now);
    DueAhead(t, now, id);
    if Due(t[id], now) { ListedExactly(t, now, limit, id); }
  }

  // ----- nobody comes near a failed job before its time -----

  predicate RipeRow(t: Table, id: int, at: int) {
    id in t && t[id].status.Failed? ==> t[id].nextRetryAt.Some? && t[id].nextRetryAt.value <= at
  }

  /** The failed jobs on the worker's list are past their retry time. */
  predicate Ripe(t: Table, clock: int, w: WorkerPc) {
    match w
    case WClaim(now, ids) => now <= clock && forall id | id in ids :: RipeRow(t, id, now)
    case WLoop(todo) => forall i | 0 <= i < |todo| :: RipeRow(t, todo[i].id, clock)
    case WSend(todo, _) => forall i | 1 <= i < |todo| :: RipeRow(t, todo[i].id, clock)
    case WMark(todo, _, _) => forall i | 1 <= i < |todo| :: RipeRow(t, todo[i].id, clock)
    case _ => true
  }

  predicate RipeState(s: State) {
    forall o | o in s.workers :: Ripe(s.jobs, s.clock, s.workers[o])
  }

  /** Rows that keep their status and retry time, or are not failed, stay ripe as time goes on. */
  lemma RipeKept(t: Table, clock: int, t': Table, clock': int, w: WorkerPc)
    requires Ripe(t, clock, w) && clock <= clock'
    requires forall id | id in t' && t'[id].status.Failed? :: id in t && t[id].status.Failed? && t'[id].nextRetryAt == t[id].nextRetryAt
    ensures Ripe(t', clock', w)
  {
    match w
    case WClaim(now, ids) => forall id | id in ids ensures RipeRow(t', id, now) { assert RipeRow(t, id, now); }
    case WLoop(todo) => forall i | 0 <= i < |todo| ensures RipeRow(t', todo[i].id, clock') { assert RipeRow(t, todo[i].id, clock); }
    case WSend(todo, _) => forall i | 1 <= i < |todo| ensures RipeRow(t', todo[i].id, clock') { assert RipeRow(t, todo[i].id, clock); }
    case WMark(todo, _, _) => forall i | 1 <= i < |todo| ensures RipeRow(t', todo[i].id, clock') { assert RipeRow(t, todo[i].id, clock); }
    case _ =>
  }

  lemma ReadRipe(t: Table, now: int, clock: int)
    requires now <= clock && forall id | id in t :: RowLaw(t[id])
    ensures Ripe(t, clock, WClaim(now, DueList(t, now, CLAIM_LIMIT)))
  {
    forall id | id in DueList(t, now, CLAIM_LIMIT) ensures RipeRow(t, id, now) { assert Due(t[id], now) && RowLaw(t[id]); }
  }

  lemma ClaimRipe(t: Table, ids: seq<int>, o: string, now: int, clock: int)
    requires TableOk(t, clock) && Ripe(t, clock, WClaim(now, ids))
    ensures var c := ClaimTx(t, ids, o, now, clock); Ripe(c.0, clock, WLoop(c.1))
  {
    var c := ClaimTx(t, ids, o, now, clock);
    ClaimRows(t, ids, o, now, clock);
    forall i | 0 <= i < |c.1| ensures RipeRow(c.0, c.1[i].id, clock) {
      assert c.1[i] in c.1;
      assert RipeRow(t, c.1[i].id, now);
    }
  }

  /** Writing the row of the first job leaves the others ripe. */
  lemma HeadWritten(t: Table, todo: seq<Job>, p: Patch, clock: int)
    requires todo != [] && Distinct(todo) && forall i | 1 <= i < |todo| :: RipeRow(t, todo[i].id, clock)
    ensures forall i | 1 <= i < |todo| :: RipeRow(Update(t, todo[0].id, p, clock), todo[i].id, clock)
    ensures Ripe(Update(t, todo[0].id, p, clock), clock, WLoop(todo[1..]))
  {
    var t' := Update(t, todo[0].id, p, clock);
    forall i | 1 <= i < |todo| ensures RipeRow(t', todo[i].id, clock) { assert RipeRow(t, todo[i].id, clock); }
    forall i | 0 <= i < |todo| - 1 ensures RipeRow(t', todo[1..][i].id, clock) { assert todo[1..][i] == todo[i + 1]; }
  }

  lemma WorkRipe(t: Table, l: Ledger, used: set<int>, clock: int, o: string, w: WorkerPc, outcome: Outcome, jitter: nat)
    requires WorkPre(t, l, used, clock, w) && jitter < RETRY_JITTER_MS && Ripe(t, clock, w)
    ensures var e := WorkStep(t, l, clock, o, w, outcome, jitter); e.pc.Some? ==> Ripe(e.jobs, clock, e.pc.value)
  {
    match w
    case WMaint(_) =>
    case WReady =>
    case WRead(now) => ReadRipe(t, now, clock);
    case WClaim(now, ids) => ClaimRipe(t, ids, o, now, clock);
    case WLoop(todo) => if todo != [] { HeadWritten(t, todo, ToSending(todo[0].attempts + 1), clock); }
    case WSend(todo, _) => HeadWritten(t, todo, ToInvalid, clock);
    case WMark(todo, _, p) => HeadWritten(t, todo, p, clock);
  }

  lemma CallRipe(t: Table, l: Ledger, used: set<int>, t': Table, l': Ledger, clock: int, w: WorkerPc)
    requires EnvMove(t, l, used, t', l') && Ripe(t, clock, w)
    ensures Ripe(t', clock, w)
  {
    forall id | id in t' && t'[id].status.Failed? ensures id in t && t[id].status.Failed? && t'[id].nextRetryAt == t[id].nextRetryAt {
      assert EnvRow(t, l, used, t', l', id);
    }
    RipeKept(t, clock, t', clock, w);
  }

  lemma WorkStepRipe(s: State, a: Action)
    requires Life(s) && RipeState(s) && a.Work? && Enabled(s, a)
    ensures RipeState(Exec(s, a))
  {
    var e := WorkStep(s.jobs, s.ledger, s.clock, a.o, s.workers[a.o], a.outcome, a.jitter);
    WorkRipe(s.jobs, s.ledger, s.used, s.clock, a.o, s.workers[a.o], a.outcome, a.jitter);
    WorkTo(s, a.o, a.outcome, a.jitter, e);
    assert forall o | o in s.workers :: o == a.o;
  }

  lemma CallStepRipe(s: State, a: Action)
    requires Life(s) && RipeState(s) && a.Call? && Enabled(s, a)
    ensures RipeState(Exec(s, a))
  {
    var e := CallStep(s.jobs, s.ledger, s.clock, s.callers[a.c], a.uuid);
    CallMoves(s.jobs, s.ledger, s.used, s.clock, s.callers[a.c], a.uuid);
    CallTo(s, a.c, a.uuid, e);
    forall o | o in s.workers ensures Ripe(e.jobs, s.clock, s.workers[o]) {
      CallRipe(s.jobs, s.ledger, s.used, e.jobs, e.ledger, s.clock, s.workers[o]);
    }
  }

  lemma OtherStepRipe(s: State, a: Action)
    requires Life(s) && RipeState(s) && !a.Call? && !a.Work? && Enabled(s, a)
    ensures RipeState(Exec(s, a))
  {
    var n := Exec(s, a);
    if Quiet(a) { QuietActors(s, a); }
    forall o | o in n.workers ensures Ripe(n.jobs, n.clock, n.workers[o]) {
      if o in s.workers && n.workers[o] == s.workers[o] { RipeKept(s.jobs, s.clock, n.jobs, n.clock, s.workers[o]); }
    }
  }

  lemma StepRipe(s: State, a: Action)
    requires Life(s) && RipeState(s)
    ensures RipeState(Exec(s, a))
  {
    if Enabled(s, a) {
      if a.Work? { WorkStepRipe(s, a); } else if a.Call? { CallStepRipe(s, a); } else { OtherStepRipe(s, a); }
    }
  }

  lemma SerialBefore(s: State, acts: seq<Action>, n: nat)
    requires Serial(s, acts) && n <= |acts|
    ensures Serial(s, acts[..n])
  {
    assert forall i | 0 <= i < n :: acts[..n][..i] == acts[..i];
  }

  lemma {:induction false} RunRipe(clock: int, acts: seq<Action>)
    requires Serial(Init(clock), acts)
    ensures Life(After(Init(clock), acts)) && RipeState(After(Init(clock), acts))
  {
    RunLife(clock, acts);
    if acts != [] {
      var n := |acts| - 1;
      SerialBefore(Init(clock), acts, n);
      RunRipe(clock, acts[..n]);
      StepRipe(After(Init(clock), acts[..n]), acts[n]);
    }
  }

  // ----- a failed job waits -----

  /** The row waits for `at`, or that time has come, or the row is gone. */
  predicate Waits(s: State, id: int, at: int) {
    id !in s.jobs || s.clock >= at || (s.jobs[id].status.Failed? && s.jobs[id].nextRetryAt == Some(at))
  }

  lemma ClaimWaits(t: Table, ids: seq<int>, o: string, now: int, clock: int, id: int)
    requires TableOk(t, clock) && id in t
    ensures var r := ClaimTx(t, ids, o, now, clock).0; id in r && r[id].status == t[id].status && r[id].nextRetryAt == t[id].nextRetryAt
  {
    ClaimRows(t, ids, o, now, clock);
  }

  lemma WorkWaits(t: Table, l: Ledger, used: set<int>, clock: int, o: string, w: WorkerPc, outcome: Outcome, jitter: nat, id: int, at: int)
    requires WorkPre(t, l, used, clock, w) && jitter < RETRY_JITTER_MS && Ripe(t, clock, w)
    requires id in t && t[id].status.Failed? && t[id].nextRetryAt == Some(at) && clock < at
    ensures var r := WorkStep(t, l, clock, o, w, outcome, jitter).jobs;
      id in r ==> r[id].status.Failed? && r[id].nextRetryAt == Some(at)
  {
    match w
    case WMaint(m) => MaintStepOk(t, m, clock);
    case WReady =>
    case WRead(_) =>
    case WClaim(now, ids) => ClaimWaits(t, ids, o, now, clock, id);
    case WLoop(todo) => if todo != [] { assert RipeRow(t, todo[0].id, clock); }
    case WSend(todo, _) =>
    case WMark(todo, _, _) =>
  }

  lemma StepWaits(s: State, a: Action, id: int, at: int)
    requires Life(s) && RipeState(s) && Disciplined(s, a) && id in s.used && Waits(s, id, at)
    ensures Waits(Exec(s, a), id, at) && id in Exec(s, a).used
  {
    StepKeepsIdentity(s, a, id);
    if Enabled(s, a) && id in s.jobs && s.clock < at {
      if a.Work? {
        WorkWaits(s.jobs, s.ledger, s.used, s.clock, a.o, s.workers[a.o], a.outcome, a.jitter, id, at);
      } else if a.Call? {
        CallMoves(s.jobs, s.ledger, s.used, s.clock, s.callers[a.c], a.uuid);
        var e := CallStep(s.jobs, s.ledger, s.clock, s.callers[a.c], a.uuid);
        if id in e.jobs { assert EnvRow(s.jobs, s.ledger, s.used, e.jobs, e.ledger, id); }
      } else if Quiet(a) {
        QuietActors(s, a);
      }
    }
  }

  lemma SerialLast(s: State, acts: seq<Action>)
    requires Serial(s, acts) && acts != []
    ensures Serial(s, acts[..|acts|-1]) && Disciplined(After(s, acts[..|acts|-1]), acts[|acts|-1])
  {
    SerialBefore(s, acts, |acts| - 1);
  }

  /** The laws of the lifecycle, and nobody near a failed job before its time. */
  predicate Sound(s: State) {
    Life(s) && RipeState(s)
  }

  lemma SoundStep(s: State, a: Action)
    requires Sound(s) && Disciplined(s, a)
    ensures Sound(Exec(s, a))
  {
    StepLife(s, a);
    StepRipe(s, a);
  }

  lemma {:induction false} SoundRun(s: State, acts: seq<Action>)
    requires Sound(s) && Serial(s, acts)
    ensures Sound(After(s, acts))
  {
    if acts != [] {
      SerialLast(s, acts);
      SoundRun(s, acts[..|acts|-1]);
      SoundStep(After(s, acts[..|acts|-1]), acts[|acts|-1]);
    }
  }

  /** Everything that keeps job `id` from being sent before `at`. */
  predicate Good(s: State, id: int, at: int) {
    Sound(s) && id in s.used && Waits(s, id, at)
  }

  lemma GoodStep(s: State, a: Action, id: int, at: int)
    requires Good(s, id, at) && Disciplined(s, a)
    ensures Good(Exec(s, a), id, at)
  {
    SoundStep(s, a);
    StepWaits(s, a, id, at);
  }

  lemma {:induction false} WaitsRun(s: State, acts: seq<Action>, id: int, at: int)
    requires Good(s, id, at) && Serial(s, acts)
    ensures Good(After(s, acts), id, at)
  {
    if acts != [] {
      SerialLast(s, acts);
      WaitsRun(s, acts[..|acts|-1], id, at);
      GoodStep(After(s, acts[..|acts|-1]), acts[|acts|-1], id, at);
    }
  }

  // ----- the law -----

  /** The bridge answers the send of job `id`, its `n`th, with an error that may be retried. */
  predicate Rejects(s: State, a: Action, id: int, n: nat) {
    && a.Work? && Enabled(s, a) && s.workers[a.o].WSend? && s.workers[a.o].todo != []
    && s.workers[a.o].todo[0].id == id && s.workers[a.o].todo[0].parses && s.workers[a.o].attempts == n < 5
    && a.outcome.Rejected? && a.outcome.retryable
  }

  /** The worker marks job `id` as being sent. */
  predicate MarksSending(s: State, a: Action, id: int) {
    && a.Work? && Enabled(s, a) && s.workers[a.o].WLoop? && s.workers[a.o].todo != [] && s.workers[a.o].todo[0].id == id
    && id in s.jobs
  }

  /** After the answer the worker is about to write a retry time: the backoff of the attempt and less than half a second. */
  lemma RejectionSchedules(s: State, a: Action, id: int, n: nat) returns (at: int)
    requires Rejects(s, a, id, n)
    ensures var m := Exec(s, a);
      && a.o in m.workers && m.workers[a.o] == WMark(s.workers[a.o].todo, n, ToFailed(a.outcome.error, at))
      && s.clock + Backoff(n) <= at < s.clock + Backoff(n) + 500
  {
    at := s.clock + RetryDelay(n, a.jitter);
    WorkTo(s, a.o, a.outcome, a.jitter, WorkStep(s.jobs, s.ledger, s.clock, a.o, s.workers[a.o], a.outcome, a.jitter));
  }

  /** Writing the mark makes the row wait. */
  lemma MarkWaits(s: State, a: Action, id: int, error: string, at: int)
    requires Inv(s) && a.Work? && Enabled(s, a) && s.workers[a.o].WMark? && s.workers[a.o].todo != []
    requires s.workers[a.o].todo[0].id == id && s.workers[a.o].patch == ToFailed(error, at)
    ensures Waits(Exec(s, a), id, at)
  {
    WorkTo(s, a.o, a.outcome, a.jitter, WorkStep(s.jobs, s.ledger, s.clock, a.o, s.workers[a.o], a.outcome, a.jitter));
  }

  lemma RipeWhenMarked(s: State, a: Action, id: int, at: int)
    requires RipeState(s) && MarksSending(s, a, id) && Waits(s, id, at)
    ensures s.clock >= at
  {
    assert Ripe(s.jobs, s.clock, s.workers[a.o]);
    assert RipeRow(s.jobs, s.workers[a.o].todo[0].id, s.clock);
  }

  lemma RejectedIsUsed(s: State, a: Action, id: int, n: nat)
    requires LifeCore(s) && Rejects(s, a, id, n)
    ensures id in s.used
  {
    assert WorkerLife(s.jobs, s.ledger, s.used, s.workers[a.o]);
  }

  /** The rejection as it is written down. */
  lemma RejectionIsWritten(s: State, a: Action, s1: State, b: Action, id: int, n: nat) returns (at: int)
    requires Rejects(s, a, id, n) && Inv(s1) && b.Work? && b.o == a.o && Enabled(s1, b)
    requires a.o in Exec(s, a).workers && s1.workers[a.o] == Exec(s, a).workers[a.o]
    ensures at >= s.clock + Backoff(n) && Waits(Exec(s1, b), id, at)
  {
    at := RejectionSchedules(s, a, id, n);
    MarkWaits(s1, b, id, a.outcome.error, at);
  }

  lemma GoodOnceWritten(s: State, a: Action, m: State, b: Action, id: int, n: nat) returns (at: int)
    requires Rejects(s, a, id, n) && Sound(m) && id in m.used && b.Work? && b.o == a.o && Enabled(m, b)
    requires a.o in Exec(s, a).workers && m.workers[a.o] == Exec(s, a).workers[a.o]
    ensures at >= s.clock + Backoff(n) && Good(Exec(m, b), id, at)
  {
    at := RejectionIsWritten(s, a, m, b, id, n);
    SoundStep(m, b);
    StepKeepsIdentity(m, b, id);
  }

  lemma MarkedLate(s: State, acts: seq<Action>, a: Action, id: int, at: int)
    requires Good(s, id, at) && Serial(s, acts) && MarksSending(After(s, acts), a, id)
    ensures After(s, acts).clock >= at
  {
    WaitsRun(s, acts, id, at);
    RipeWhenMarked(After(s, acts), a, id, at);
  }

  lemma UsedStays(s: State, acts: seq<Action>, id: int)
    requires Inv(s) && id in s.used
    ensures id in After(s, acts).used
  {
    JobKept(s, acts, id);
  }

  /** Between the answer and the writing of it the worker stays where it is; others may move. */
  lemma AnswerIsSound(s: State, a: Action, acts: seq<Action>, id: int, n: nat)
    requires Sound(s) && Rejects(s, a, id, n) && Serial(Exec(s, a), acts)
    ensures var m := After(Exec(s, a), acts); Sound(m) && id in m.used
  {
    RejectedIsUsed(s, a, id, n);
    SoundStep(s, a);
    StepKeepsIdentity(s, a, id);
    SoundRun(Exec(s, a), acts);
    UsedStays(Exec(s, a), acts, id);
  }

  /** The run from the answer `a` over `between` to the writing `b` of it. */
  predicate WritesDown(s: State, a: Action, between: seq<Action>, b: Action) {
    var m := After(Exec(s, a), between);
    && a.Work? && b.Work? && b.o == a.o && Enabled(m, b)
    && a.o in Exec(s, a).workers && m.workers[a.o] == Exec(s, a).workers[a.o]
  }

  /** The state when the answer has been written. */
  function Written(s: State, a: Action, between: seq<Action>, b: Action): State {
    Exec(After(Exec(s, a), between), b)
  }

  lemma SpacedFrom(s: State, a: Action, between: seq<Action>, b: Action, later: seq<Action>, c: Action, id: int, n: nat)
    requires Sound(s) && Rejects(s, a, id, n) && Serial(Exec(s, a), between) && WritesDown(s, a, between, b)
    requires Serial(Written(s, a, between, b), later) && MarksSending(After(Written(s, a, between, b), later), c, id)
    ensures After(Written(s, a, between, b), later).clock >= s.clock + Backoff(n)
  {
    AnswerIsSound(s, a, between, id, n);
    var at := GoodOnceWritten(s, a, After(Exec(s, a), between), b, id, n);
    MarkedLate(Written(s, a, between, b), later, c, id, at);
  }

  /**
   In every run with one worker at a time and no overlapping requeues, whoever crashes and
   whatever callers do: when the bridge rejected the `n`th send of a job by action `a` and
   the worker wrote that down by action `b`, no later action `c` marks the job for sending
   before 2, 4, 8 or 16 seconds have passed since the rejection, for `n` = 1, 2, 3 or 4.
   */
  lemma RetriesAreSpaced(clock: int, before: seq<Action>, a: Action, between: seq<Action>, b: Action, later: seq<Action>, c: Action, id: int, n: nat)
    requires Serial(Init(clock), before)
    requires var s := After(Init(clock), before);
      && Rejects(s, a, id, n) && Serial(Exec(s, a), between) && WritesDown(s, a, between, b)
      && Serial(Written(s, a, between, b), later) && MarksSending(After(Written(s, a, between, b), later), c, id)
    ensures var s := After(Init(clock), before);
      After(Written(s, a, between, b), later).clock >= s.clock + Backoff(n)
  {
    RunRipe(clock, before);
    SpacedFrom(After(Init(clock), before), a, between, b, later, c, id, n);
  }
}
