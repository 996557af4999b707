/** The promises of the outbox that hold for any interleaving of any number of workers and callers. */
module OutboxGuarantees {
  import opened Wrappers
  import opened Sets
  import opened OutboxModel
  import opened OutboxProtocol
  import opened OutboxSafety
  import opened OutboxRuns

  // ----- nothing is stranded -----

  /**
   In every reachable store, whoever crashed and wherever, a job that is still owed
   is due, and nobody's lease keeps another owner from claiming it, as soon as two
   minutes have passed since it was last written.
   */
  lemma Recoverable(clock: int, acts: seq<Action>, id: int, owner: string, now: int)
    requires var t := After(Init(clock), acts).jobs;
      id in t && !t[id].status.Terminal() && now >= t[id].updatedAt + LEASE_MS
    ensures var j := After(Init(clock), acts).jobs[id];
      Due(j, now) && !LeaseActive(j, owner, now)
  {
    RunKeeps(clock, acts);
  }

  /** In an increasing list, an element's index is the number of smaller elements. */
  lemma {:induction false} Position(r: seq<int>, k: nat)
    requires Increasing(r) && k < |r|
    ensures |set x | x in r && x < r[k]| == k
  {
    var below := set x | x in r && x < r[k];
    if k == 0 {
      assert below == {};
    } else {
      Position(r, k - 1);
      var rest := set x | x in r && x < r[k - 1];
      assert below == rest + {r[k - 1]};
    }
  }

  lemma InPrefix(r: seq<int>, k: nat, limit: nat)
    requires Increasing(r) && k < |r|
    ensures r[k] in (if |r| <= limit then r else r[..limit]) <==> k < limit
  {
    if k < limit < |r| {
      assert r[..limit][k] == r[k];
    }
  }

  /** A due job is on the claim list exactly when fewer than `limit` due jobs precede it. */
  lemma ListedExactly(t: Table, now: int, limit: nat, id: int)
    requires id in t && Due(t[id], now)
    ensures id in DueList(t, now, limit) <==> |set x | x in DueKeys(t, now) && x < id| < limit
  {
    var all := Ordered(DueKeys(t, now));
    assert id in all;
    var k :| 0 <= k < |all| && all[k] == id;
    Position(all, k);
    InPrefix(all, k, limit);
    assert (set x | x in all && x < id) == (set x | x in DueKeys(t, now) && x < id);
  }

  /**
   So a worker that reads the due list two minutes after the last write has the job on it,
   unless a full page of due jobs is ahead; and whatever else runs before its claim, it gets
   the job exactly when the row is still stored and nobody else holds its lease by then.
   */
  lemma ClaimedWhenItsTurn(clock: int, acts: seq<Action>, o: string, outcome: Outcome, jitter: nat, more: seq<Action>, id: int)
    requires var s := After(Init(clock), acts);
      && Enabled(s, Work(o, outcome, jitter)) && s.workers[o].WRead?
      && id in s.jobs && !s.jobs[id].status.Terminal() && s.workers[o].now >= s.jobs[id].updatedAt + LEASE_MS
      && |set x | x in DueKeys(s.jobs, s.workers[o].now) && x < id| < CLAIM_LIMIT
    requires var s := After(Init(clock), acts);
      var n := After(Exec(s, Work(o, outcome, jitter)), more);
      o in n.workers && o in Exec(s, Work(o, outcome, jitter)).workers && n.workers[o] == Exec(s, Work(o, outcome, jitter)).workers[o]
    ensures var s := After(Init(clock), acts);
      var n := After(Exec(s, Work(o, outcome, jitter)), more);
      && n.workers[o].WClaim? && n.workers[o].now == s.workers[o].now && id in n.workers[o].ids
      && ((exists j :: j in Claim(n, o) && j.id == id) <==> id in n.jobs && !LeaseActive(n.jobs[id], o, s.workers[o].now))
  {
    RunKeeps(clock, acts);
    ReadThenClaim(After(Init(clock), acts), o, outcome, jitter, more, id);
  }

  lemma ReadLists(s: State, o: string, outcome: Outcome, jitter: nat, id: int)
    requires Inv(s) && Enabled(s, Work(o, outcome, jitter)) && s.workers[o].WRead?
    requires id in s.jobs && !s.jobs[id].status.Terminal() && s.workers[o].now >= s.jobs[id].updatedAt + LEASE_MS
    requires |set x | x in DueKeys(s.jobs, s.workers[o].now) && x < id| < CLAIM_LIMIT
    ensures var n := Exec(s, Work(o, outcome, jitter));
      o in n.workers && n.workers[o].WClaim? && n.workers[o].now == s.workers[o].now && id in n.workers[o].ids
  {
    ListedExactly(s.jobs, s.workers[o].now, CLAIM_LIMIT, id);
    WorkTo(s, o, outcome, jitter, WorkStep(s.jobs, s.ledger, s.clock, o, s.workers[o], outcome, jitter));
  }

  lemma ReadThenClaim(s: State, o: string, outcome: Outcome, jitter: nat, more: seq<Action>, id: int)
    requires Inv(s) && Enabled(s, Work(o, outcome, jitter)) && s.workers[o].WRead?
    requires id in s.jobs && !s.jobs[id].status.Terminal() && s.workers[o].now >= s.jobs[id].updatedAt + LEASE_MS
    requires |set x | x in DueKeys(s.jobs, s.workers[o].now) && x < id| < CLAIM_LIMIT
    requires var s1 := Exec(s, Work(o, outcome, jitter)); o in After(s1, more).workers && o in s1.workers && After(s1, more).workers[o] == s1.workers[o]
    ensures var n := After(Exec(s, Work(o, outcome, jitter)), more);
      && n.workers[o].WClaim? && n.workers[o].now == s.workers[o].now && id in n.workers[o].ids
      && ((exists j :: j in Claim(n, o) && j.id == id) <==> id in n.jobs && !LeaseActive(n.jobs[id], o, s.workers[o].now))
  {
    var s1 := Exec(s, Work(o, outcome, jitter));
    ReadLists(s, o, outcome, jitter, id);
    StepKeeps(s, Work(o, outcome, jitter));
    RunKeepsInv(s1, more);
    ClaimTakes(After(s1, more), o, id);
  }

  /** The jobs the worker's claiming transaction would hand over now. */
  function Claim(s: State, o: string): seq<Job>
    requires o in s.workers && s.workers[o].WClaim?
  {
    ClaimTx(s.jobs, s.workers[o].ids, o, s.workers[o].now, s.clock).1
  }

  lemma ClaimTakes(s: State, o: string, id: int)
    requires Inv(s) && o in s.workers && s.workers[o].WClaim? && id in s.workers[o].ids
    ensures (exists j :: j in Claim(s, o) && j.id == id) <==> id in s.jobs && !LeaseActive(s.jobs[id], o, s.workers[o].now)
  {
    ClaimTakesRow(s.jobs, s.workers[o].ids, o, s.workers[o].now, s.clock, id);
  }

  /** The claiming transaction hands over a row exactly when it is listed, stored and not held by another. */
  lemma ClaimTakesRow(t: Table, ids: seq<int>, o: string, now: int, clock: int, id: int)
    requires forall x | x in t :: t[x].id == x
    ensures (exists j :: j in ClaimTx(t, ids, o, now, clock).1 && j.id == id) <==> id in ids && id in t && !LeaseActive(t[id], o, now)
  {
    ClaimRows(t, ids, o, now, clock);
    if id in ids && id in t && !LeaseActive(t[id], o, now) {
      var row := ClaimTx(t, ids, o, now, clock).0[id];
      assert row in ClaimTx(t, ids, o, now, clock).1 && row.id == id;
    }
  }

  // ----- capacity, and no loss -----

  /** Every reachable store fits, and no maintenance ever gets to trim an overflow. */
  lemma WithinCapacity(clock: int, acts: seq<Action>)
    ensures var s := After(Init(clock), acts);
      && |s.jobs| <= 1_000
      && (forall o | o in s.workers && s.workers[o].WMaint? :: !s.workers[o].m.Overflow? && !s.workers[o].m.Bulk?)
      && (forall c | c in s.callers && (s.callers[c].EMaint? || s.callers[c].Sweep?) ::
            !s.callers[c].m.Overflow? && !s.callers[c].m.Bulk?)
  {
    RunKeeps(clock, acts);
    var s := After(Init(clock), acts);
    assert forall o | o in s.workers :: WorkerOk(s.workers[o], s.clock);
    assert forall c | c in s.callers :: CallerOk(s.callers[c], s.clock);
  }

  lemma WorkLosesNothing(t: Table, l: Ledger, clock: int, o: string, w: WorkerPc, outcome: Outcome, jitter: nat, id: int)
    requires TableOk(t, clock) && |t| <= MAX_OUTBOX_JOBS && WorkerOk(w, clock) && jitter < RETRY_JITTER_MS
    requires id in t && !t[id].status.Terminal()
    ensures id in WorkStep(t, l, clock, o, w, outcome, jitter).jobs
  {
    if w.WMaint? { MaintStepOk(t, w.m, clock); }
    if w.WClaim? { ClaimOk(t, w.ids, o, w.now, clock); }
  }

  lemma CallLosesNothing(t: Table, l: Ledger, clock: int, p: CallerPc, uuid: int, id: int)
    requires TableOk(t, clock) && |t| <= MAX_OUTBOX_JOBS && CallerOk(p, clock)
    requires p.EAdd? ==> p.job.id !in t
    requires id in t && !t[id].status.Terminal()
    ensures id in CallStep(t, l, clock, p, uuid).jobs
  {
    match p
    case EMaint(_, m) => MaintStepOk(t, m, clock);
    case Sweep(m) => MaintStepOk(t, m, clock);
    case EAdd(job) => AddOk(t, job, clock);
    case _ =>
  }

  lemma StepLosesNothing(s: State, a: Action, id: int)
    requires Inv(s) && !a.ClearAll? && id in s.jobs && !s.jobs[id].status.Terminal()
    ensures id in Exec(s, a).jobs
  {
    if Enabled(s, a) {
      if a.Work? { WorkLosesNothing(s.jobs, s.ledger, s.clock, a.o, s.workers[a.o], a.outcome, a.jitter, id); }
      else if a.Call? { CallLosesNothing(s.jobs, s.ledger, s.clock, s.callers[a.c], a.uuid, id); }
      else if Quiet(a) { QuietActors(s, a); }
    }
  }

  /** In every run, no step but `clearAll` removes a job that is still owed. */
  lemma NothingLost(clock: int, acts: seq<Action>, a: Action, id: int)
    requires !a.ClearAll?
    requires var t := After(Init(clock), acts).jobs; id in t && !t[id].status.Terminal()
    ensures id in After(Init(clock), acts + [a]).jobs
  {
    RunKeeps(clock, acts);
    assert (acts + [a])[..|acts|] == acts;
    StepLosesNothing(After(Init(clock), acts), a, id);
  }

  // ----- what is removed, and when -----

  /** The sweep's retention: seven days for a sent job, thirty for a dead letter, from its last write. */
  predicate Outdated(j: Job, now: int) {
    (j.status.Sent? && j.updatedAt + 604_800_000 < now) || (j.status.DeadLetter? && j.updatedAt + 2_592_000_000 < now)
  }

  /** The terminal job written longest ago, the smallest id first. */
  predicate FirstToGo(t: Table, id: int) {
    && id in t && t[id].status.Terminal()
    && forall x | x in t && t[x].status.Terminal() ::
         t[id].updatedAt < t[x].updatedAt || (t[id].updatedAt == t[x].updatedAt && id <= x)
  }

  predicate MaintRemoves(t: Table, m: MaintPc, id: int)
    requires id in t
  {
    m.Expire? && Outdated(t[id], m.now)
  }

  /** The insertion finds the store full, and no live row of its key first. */
  predicate InsertRemoves(t: Table, job: Job, id: int) {
    && (First(t, job.key).Some? ==> First(t, job.key).value.status.DeadLetter?)
    && |t| >= 1_000 && FirstToGo(t, id)
  }

  predicate Removes(s: State, a: Action, id: int)
    requires id in s.jobs
  {
    && Enabled(s, a)
    && match a
       case ClearAll => true
       case ClearTerminal => s.jobs[id].status.Terminal()
       case Work(o, _, _) => s.workers[o].WMaint? && MaintRemoves(s.jobs, s.workers[o].m, id)
       case Call(c, _) =>
         || ((s.callers[c].EMaint? || s.callers[c].Sweep?) && MaintRemoves(s.jobs, s.callers[c].m, id))
         || (s.callers[c].EAdd? && InsertRemoves(s.jobs, s.callers[c].job, id))
       case _ => false
  }

  lemma MaintRemovesExactly(t: Table, m: MaintPc, id: int)
    requires MaintOk(m) && id in t
    ensures id !in MaintStep(t, m).0 <==> MaintRemoves(t, m, id)
  {
  }

  lemma FirstToGoIsOldest(t: Table, id: int)
    ensures FirstToGo(t, id) <==> TerminalKeys(t) != {} && id == Oldest(t, TerminalKeys(t))
  {
    if FirstToGo(t, id) {
      assert id in TerminalKeys(t);
      var x := Oldest(t, TerminalKeys(t));
      assert x in TerminalKeys(t);
    }
    if TerminalKeys(t) != {} && id == Oldest(t, TerminalKeys(t)) {
      forall x | x in t && t[x].status.Terminal()
        ensures t[id].updatedAt < t[x].updatedAt || (t[id].updatedAt == t[x].updatedAt && id <= x)
      {
        assert x in TerminalKeys(t);
      }
    }
  }

  lemma InsertRemovesExactly(t: Table, job: Job, id: int)
    requires id in t && job.id !in t
    ensures id !in AddTx(t, job).0 <==> InsertRemoves(t, job, id)
  {
    FirstToGoIsOldest(t, id);
  }

  lemma WorkRemovesExactly(t: Table, l: Ledger, clock: int, o: string, w: WorkerPc, outcome: Outcome, jitter: nat, id: int)
    requires TableOk(t, clock) && WorkerOk(w, clock) && jitter < RETRY_JITTER_MS && id in t
    ensures id !in WorkStep(t, l, clock, o, w, outcome, jitter).jobs <==> w.WMaint? && MaintRemoves(t, w.m, id)
  {
    if w.WMaint? { MaintRemovesExactly(t, w.m, id); }
    if w.WClaim? { ClaimRows(t, w.ids, o, w.now, clock); }
  }

  lemma CallRemovesExactly(t: Table, l: Ledger, clock: int, p: CallerPc, uuid: int, id: int)
    requires CallerOk(p, clock) && (p.EAdd? ==> p.job.id !in t) && id in t
    ensures id !in CallStep(t, l, clock, p, uuid).jobs <==>
      ((p.EMaint? || p.Sweep?) && MaintRemoves(t, p.m, id)) || (p.EAdd? && InsertRemoves(t, p.job, id))
  {
    if p.EMaint? || p.Sweep? { MaintRemovesExactly(t, p.m, id); }
    if p.EAdd? { InsertRemovesExactly(t, p.job, id); }
  }

  /**
   In every reachable state a step removes a job exactly when it clears the store, clears a
   terminal job, sweeps it after its retention, or needs its place for a new job and it is
   the terminal job written longest ago.
   */
  lemma RemovedExactly(clock: int, acts: seq<Action>, a: Action, id: int)
    requires id in After(Init(clock), acts).jobs
    ensures id !in After(Init(clock), acts + [a]).jobs <==> Removes(After(Init(clock), acts), a, id)
  {
    RunKeeps(clock, acts);
    AfterOne(Init(clock), acts, a);
    StepRemovesExactly(After(Init(clock), acts), a, id);
  }

  lemma StepRemovesExactly(s: State, a: Action, id: int)
    requires Inv(s) && id in s.jobs
    ensures id !in Exec(s, a).jobs <==> Removes(s, a, id)
  {
    if Enabled(s, a) {
      if a.Work? { WorkRemovesExactly(s.jobs, s.ledger, s.clock, a.o, s.workers[a.o], a.outcome, a.jitter, id); }
      else if a.Call? { CallRemovesExactly(s.jobs, s.ledger, s.clock, s.callers[a.c], a.uuid, id); }
      else if Quiet(a) { QuietActors(s, a); }
    }
  }

  // ----- one job per idempotency key -----

  /**
   However callers interleave, although they look for the key before the inserting
   transaction: two stored jobs share a key only if a job of that key was dead-lettered.
   */
  lemma EnqueueIsIdempotent(clock: int, acts: seq<Action>, i: int, j: int)
    requires var s := After(Init(clock), acts);
      i in s.jobs && j in s.jobs && s.jobs[i].key == s.jobs[j].key && s.jobs[i].key !in s.deadKeys
    ensures i == j
  {
    RunKeeps(clock, acts);
  }

  /** A caller gets back a stored job of its key, unless the store is full of jobs still owed. */
  lemma AddAnswers(t: Table, job: Job)
    requires job.id !in t
    ensures var (t', r) := AddTx(t, job);
      if r.Full? then t' == t && |t| >= MAX_OUTBOX_JOBS && forall id | id in t :: !t[id].status.Terminal()
      else r.job.key == job.key && exists id :: id in t' && t'[id] == r.job
  {
    var (t', r) := AddTx(t, job);
    FirstNone(t, job.key);
    match r
    case Existing(e) =>
    case Added(e) => assert t'[job.id] == e;
    case Full =>
      forall id | id in t ensures !t[id].status.Terminal() { assert id !in TerminalKeys(t); }
  }

  // ----- identity -----

  /** Once an id has left the store it never comes back; while it stays, its key and payload stay. */
  predicate SameJob(s: State, n: State, id: int) {
    && (id in s.used ==> id in n.used)
    && (id in s.used && id !in s.jobs ==> id !in n.jobs)
    && (id in s.jobs && id in n.jobs ==> n.jobs[id].key == s.jobs[id].key && n.jobs[id].parses == s.jobs[id].parses)
  }

  lemma StepKeepsIdentity(s: State, a: Action, id: int)
    requires Inv(s)
    ensures SameJob(s, Exec(s, a), id)
  {
    if Enabled(s, a) {
      if a.Work? { WorkOk(s.jobs, s.ledger, s.clock, a.o, s.workers[a.o], a.outcome, a.jitter); }
      else if a.Call? {
        CallOk(s.jobs, s.ledger, s.clock, s.callers[a.c], a.uuid);
        if s.callers[a.c].EAdd? { AddOk(s.jobs, s.callers[a.c].job, s.clock); }
      }
      else if Quiet(a) { QuietActors(s, a); }
    }
  }

  lemma {:induction false} JobKept(s: State, acts: seq<Action>, id: int)
    requires Inv(s)
    ensures SameJob(s, After(s, acts), id)
  {
    if acts != [] {
      var init, a := acts[..|acts|-1], acts[|acts|-1];
      JobKept(s, init, id);
      RunKeepsInv(s, init);
      StepKeepsIdentity(After(s, init), a, id);
    }
  }

  /** Over a whole run the idempotency key and the payload of a job never change. */
  lemma KeyNeverChanges(clock: int, acts: seq<Action>, more: seq<Action>, id: int)
    ensures SameJob(After(Init(clock), acts), After(Init(clock), acts + more), id)
  {
    RunKeeps(clock, acts);
    AfterMore(Init(clock), acts, more);
    JobKept(After(Init(clock), acts), more, id);
  }

  // ----- leases exclude -----

  /** The worker has its claims: it will not run the claiming transaction again. */
  predicate Claimed(s: State, o: string) {
    o in s.owners && (o in s.workers ==> s.workers[o].WLoop? || s.workers[o].WSend? || s.workers[o].WMark?)
  }

  /** The row is leased, at least until `until`, by someone who has claimed already. */
  predicate Held(s: State, id: int, until: int) {
    && id in s.jobs && s.jobs[id].leaseOwner.Some? && s.jobs[id].leaseOwner.value != ""
    && s.jobs[id].leaseExpiresAt.Some? && s.jobs[id].leaseExpiresAt.value >= until
    && Claimed(s, s.jobs[id].leaseOwner.value)
  }

  predicate Cleared(s: State, id: int) {
    id !in s.jobs || s.jobs[id].leaseOwner.None?
  }

  /** Right after a claim at `now`, the rows it returned are held for two minutes from `now`. */
  lemma ClaimHolds(s: State, o: string, outcome: Outcome, jitter: nat, j: Job)
    requires Inv(s) && Enabled(s, Work(o, outcome, jitter)) && s.workers[o].WClaim?
    requires j in ClaimTx(s.jobs, s.workers[o].ids, o, s.workers[o].now, s.clock).1
    ensures Held(Exec(s, Work(o, outcome, jitter)), j.id, s.workers[o].now + LEASE_MS)
    ensures Exec(s, Work(o, outcome, jitter)).jobs[j.id].leaseOwner == Some(o)
  {
    ClaimLeases(s.jobs, s.workers[o].ids, o, s.workers[o].now, s.clock, j);
    WorkTo(s, o, outcome, jitter, WorkStep(s.jobs, s.ledger, s.clock, o, s.workers[o], outcome, jitter));
  }

  lemma ClaimLeases(t: Table, ids: seq<int>, o: string, now: int, clock: int, j: Job)
    requires TableOk(t, clock) && j in ClaimTx(t, ids, o, now, clock).1
    ensures var r := ClaimTx(t, ids, o, now, clock).0;
      j.id in r && r[j.id].leaseOwner == Some(o) && r[j.id].leaseExpiresAt == Some(now + LEASE_MS)
  {
    ClaimRows(t, ids, o, now, clock);
  }

  /** A claim that looked at the clock before `until` does not return a held row. */
  lemma HeldIsNotClaimed(s: State, o: string, id: int, until: int)
    requires Inv(s) && Held(s, id, until) && o in s.workers && s.workers[o].WClaim? && s.workers[o].now < until
    ensures forall j | j in ClaimTx(s.jobs, s.workers[o].ids, o, s.workers[o].now, s.clock).1 :: j.id != id
  {
    ClaimRows(s.jobs, s.workers[o].ids, o, s.workers[o].now, s.clock);
  }

  lemma ClaimedStays(s: State, a: Action, o: string)
    requires Claimed(s, o)
    ensures Claimed(Exec(s, a), o)
  {
  }

  lemma UpdateKeepsLease(t: Table, id: int, p: Patch, clock: int, x: int)
    requires !p.Lease? && x in t
    ensures var r := Update(t, id, p, clock);
      x in r && (r[x].leaseOwner.None? || (r[x].leaseOwner == t[x].leaseOwner && r[x].leaseExpiresAt == t[x].leaseExpiresAt))
  {
  }

  /** A claim leaves the lease alone, or replaces it by its own two minutes from its clock. */
  lemma ClaimKeepsLease(t: Table, ids: seq<int>, o: string, now: int, clock: int, id: int)
    requires TableOk(t, clock) && id in t
    ensures var r := ClaimTx(t, ids, o, now, clock).0;
      && id in r
      && (r[id] == t[id] || (!LeaseActive(t[id], o, now) && r[id].leaseOwner == Some(o) && r[id].leaseExpiresAt == Some(now + LEASE_MS)))
  {
    ClaimRows(t, ids, o, now, clock);
  }

  /** What a step does to a lease: nothing, or it goes, or a claim with a later expiry replaces it. */
  lemma WorkLease(t: Table, l: Ledger, clock: int, o: string, w: WorkerPc, outcome: Outcome, jitter: nat, id: int)
    requires TableOk(t, clock) && |t| <= MAX_OUTBOX_JOBS && WorkerOk(w, clock) && jitter < RETRY_JITTER_MS && id in t
    ensures var r := WorkStep(t, l, clock, o, w, outcome, jitter).jobs;
      || id !in r || r[id].leaseOwner.None?
      || (r[id].leaseOwner == t[id].leaseOwner && r[id].leaseExpiresAt == t[id].leaseExpiresAt)
      || (w.WClaim? && !LeaseActive(t[id], o, w.now) && r[id].leaseOwner == Some(o) && r[id].leaseExpiresAt == Some(w.now + LEASE_MS))
  {
    match w
    case WMaint(m) => MaintStepOk(t, m, clock);
    case WReady =>
    case WRead(_) =>
    case WClaim(now, ids) => ClaimKeepsLease(t, ids, o, now, clock, id);
    case WLoop(todo) => if todo != [] { UpdateKeepsLease(t, todo[0].id, ToSending(todo[0].attempts + 1), clock, id); }
    case WSend(todo, n) => UpdateKeepsLease(t, todo[0].id, ToInvalid, clock, id);
    case WMark(todo, n, p) => UpdateKeepsLease(t, todo[0].id, p, clock, id);
  }

  /** No step shortens a lease without clearing it; only a claim may replace it, by a later one. */
  lemma WorkKeepsLease(s: State, o: string, outcome: Outcome, jitter: nat, id: int, until: int)
    requires Inv(s) && Held(s, id, until) && Enabled(s, Work(o, outcome, jitter))
    ensures var n := Exec(s, Work(o, outcome, jitter)); Cleared(n, id) || Held(n, id, until)
  {
    ClaimedStays(s, Work(o, outcome, jitter), s.jobs[id].leaseOwner.value);
    WorkLease(s.jobs, s.ledger, s.clock, o, s.workers[o], outcome, jitter, id);
  }

  lemma CallKeepsLease(s: State, c: nat, uuid: int, id: int, until: int)
    requires Inv(s) && Held(s, id, until) && Enabled(s, Call(c, uuid))
    ensures var n := Exec(s, Call(c, uuid)); Cleared(n, id) || Held(n, id, until)
  {
    ClaimedStays(s, Call(c, uuid), s.jobs[id].leaseOwner.value);
    match s.callers[c]
    case EMaint(_, m) => MaintStepOk(s.jobs, m, s.clock);
    case Sweep(m) => MaintStepOk(s.jobs, m, s.clock);
    case EAdd(job) => AddOk(s.jobs, job, s.clock);
    case RPut(x) => UpdateKeepsLease(s.jobs, x, ToPending, s.clock, id);
    case LPut(x) => UpdateKeepsLease(s.jobs, x, Unlease, s.clock, id);
    case _ =>
  }

  lemma StepKeepsLease(s: State, a: Action, id: int, until: int)
    requires Inv(s) && Held(s, id, until)
    ensures Cleared(Exec(s, a), id) || Held(Exec(s, a), id, until)
  {
    if Enabled(s, a) {
      if a.Work? { WorkKeepsLease(s, a.o, a.outcome, a.jitter, id, until); }
      else if a.Call? { CallKeepsLease(s, a.c, a.uuid, id, until); }
      else {
        ClaimedStays(s, a, s.jobs[id].leaseOwner.value);
        if Quiet(a) { QuietActors(s, a); }
      }
    }
  }

  /** From a held row, a run that never clears its lease keeps it held. */
  lemma {:induction false} HeldUntilCleared(s: State, acts: seq<Action>, id: int, until: int)
    requires Inv(s) && Held(s, id, until)
    requires forall i | 0 <= i <= |acts| :: !Cleared(After(s, acts[..i]), id)
    ensures Inv(After(s, acts)) && Held(After(s, acts), id, until)
  {
    if acts != [] {
      var n := |acts| - 1;
      var init := acts[..n];
      forall i | 0 <= i <= n ensures !Cleared(After(s, init[..i]), id) {
        assert init[..i] == acts[..i];
      }
      HeldUntilCleared(s, init, id, until);
      StepKeeps(After(s, init), acts[n]);
      StepKeepsLease(After(s, init), acts[n], id, until);
      assert acts[..|acts|] == acts;
    }
  }

  /**
   Exclusion: worker `o` claimed job `j` with the clock at `t`; later, with no update
   having cleared the lease, worker `p` runs a claim whose clock is below `t` + 2 min.
   Then `p` does not get the job.
   */
  lemma LeaseExcludes(clock: int, acts: seq<Action>, o: string, outcome: Outcome, jitter: nat, j: Job, more: seq<Action>, p: string)
    requires var s := After(Init(clock), acts);
      && Enabled(s, Work(o, outcome, jitter)) && s.workers[o].WClaim?
      && j in ClaimTx(s.jobs, s.workers[o].ids, o, s.workers[o].now, s.clock).1
    requires var s := After(Init(clock), acts);
      var s1 := Exec(s, Work(o, outcome, jitter));
      var s2 := After(s1, more);
      && (forall i | 0 <= i <= |more| :: !Cleared(After(s1, more[..i]), j.id))
      && p in s2.workers && s2.workers[p].WClaim? && s2.workers[p].now < s.workers[o].now + LEASE_MS
    ensures var s2 := After(Exec(After(Init(clock), acts), Work(o, outcome, jitter)), more);
      forall k | k in ClaimTx(s2.jobs, s2.workers[p].ids, p, s2.workers[p].now, s2.clock).1 :: k.id != j.id
  {
    var s := After(Init(clock), acts);
    RunKeeps(clock, acts);
    ClaimHolds(s, o, outcome, jitter, j);
    StepKeeps(s, Work(o, outcome, jitter));
    var s1 := Exec(s, Work(o, outcome, jitter));
    HeldUntilCleared(s1, more, j.id, s.workers[o].now + LEASE_MS);
    HeldIsNotClaimed(After(s1, more), p, j.id, s.workers[o].now + LEASE_MS);
  }
}
