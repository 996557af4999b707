/** The store and the retry worker as objects that update the table, one call at a time. */
module OutboxStore {
  import opened Wrappers
  import opened Sets
  import opened OutboxModel
  import opened OutboxProtocol

  /** A whole `maintenance(now)` that nobody interrupts. */
  function Maintained(t: Table, now: int): Table {
    var kept := Delete(t, ExpiredKeys(t, now));
    if |kept| <= MAX_OUTBOX_JOBS then kept
    else Delete(kept, OldestFirst(kept, TerminalKeys(kept), |kept| - MAX_OUTBOX_JOBS))
  }

  function Rank(m: MaintPc): nat {
    match m case Expire(_) => 3 case Count => 2 case Overflow(_) => 1 case Bulk(_) => 0
  }

  /** The operations of the protocol one after the other. */
  function MaintAll(t: Table, m: MaintPc): Table
    decreases Rank(m)
  {
    var r := MaintStep(t, m);
    if r.1.None? then r.0 else MaintAll(r.0, r.1.value)
  }

  lemma AfterExpiry(t: Table)
    ensures MaintAll(t, Count) ==
      if |t| <= MAX_OUTBOX_JOBS then t else Delete(t, OldestFirst(t, TerminalKeys(t), |t| - MAX_OUTBOX_JOBS))
  {
    if |t| > MAX_OUTBOX_JOBS {
      var n := |t| - MAX_OUTBOX_JOBS;
      AfterCount(t, n);
      assert MaintStep(t, Count) == (t, Some(Overflow(n)));
    }
  }

  lemma AfterCount(t: Table, n: nat)
    ensures MaintAll(t, Overflow(n)) == Delete(t, OldestFirst(t, TerminalKeys(t), n))
  {
    var ids := OldestFirst(t, TerminalKeys(t), n);
    assert MaintAll(t, Bulk(ids)) == Delete(t, ids);
  }

  lemma MaintainedIsAllSteps(t: Table, now: int)
    ensures Maintained(t, now) == MaintAll(t, Expire(now))
  {
    AfterExpiry(Delete(t, ExpiredKeys(t, now)));
  }

  /** Retention removes only terminal rows, and changes none. */
  lemma MaintainedKeepsLive(t: Table, now: int)
    ensures var m := Maintained(t, now);
      && (forall id | id in m :: id in t && m[id] == t[id])
      && (forall id | id in t && !t[id].status.Terminal() :: id in m)
  {
    var kept := Delete(t, ExpiredKeys(t, now));
    forall id | id in t && !t[id].status.Terminal() ensures id in Maintained(t, now) {
      assert id in kept && id !in TerminalKeys(kept);
    }
  }

  lemma DeleteNone(t: Table, ids: set<int>)
    ensures ids == {} ==> Delete(t, ids) == t
  {
  }

  function DeadIds(t: Table): set<int> {
    set id | id in t && t[id].status.DeadLetter?
  }

  /** The listed rows revived one by one. */
  function RequeueEach(t: Table, ids: seq<int>, clock: int): Table {
    if ids == [] then t else Update(RequeueEach(t, ids[..|ids|-1], clock), ids[|ids|-1], ToPending, clock)
  }

  lemma {:induction false} RequeueEachRows(t: Table, ids: seq<int>, clock: int)
    ensures var r := RequeueEach(t, ids, clock);
      r.Keys == t.Keys && forall id | id in t :: r[id] == if id in ids then Apply(t[id], ToPending, clock) else t[id]
  {
    if ids != [] {
      var n := |ids| - 1;
      RequeueEachRows(t, ids[..n], clock);
      assert ids == ids[..n] + [ids[n]];
    }
  }

  /** The next dead letter of the list is still one. */
  lemma RequeueNext(t: Table, dead: seq<int>, i: nat, clock: int)
    requires i < |dead| && Increasing(dead) && forall id | id in dead :: id in t && t[id].status.DeadLetter?
    ensures var r := RequeueEach(t, dead[..i], clock);
      && dead[i] in r && r[dead[i]].status.DeadLetter?
      && RequeueEach(t, dead[..i + 1], clock) == Update(r, dead[i], ToPending, clock)
  {
    assert dead[i] in dead && dead[i] !in dead[..i];
    RequeueEachRows(t, dead[..i], clock);
    assert dead[..i + 1][..i] == dead[..i];
  }

  type Jitter = j: nat | j < RETRY_JITTER_MS witness 0

  /** How one send went: the bridge's answer, the jitter of a retry, and when the two writes were made. */
  datatype Answer = Answer(outcome: Outcome, jitter: Jitter, startedAt: int, endedAt: int)

  /** Sending one claimed job and writing the verdict. */
  function Handle(t: Table, job: Job, a: Answer): Table {
    var n := job.attempts + 1;
    var sending := Update(t, job.id, ToSending(n), a.startedAt);
    if !job.parses then Update(sending, job.id, ToInvalid, a.endedAt)
    else Update(sending, job.id, Verdict(n, a.outcome, a.endedAt, a.jitter), a.endedAt)
  }

  lemma ClaimNext(t: Table, due: seq<int>, i: nat, owner: string, now: int, clock: int)
    requires i < |due|
    ensures var c, id := ClaimTx(t, due[..i], owner, now, clock), due[i];
      ClaimTx(t, due[..i + 1], owner, now, clock) ==
        if id !in c.0 || LeaseActive(c.0[id], owner, now) then c
        else (c.0[id := Apply(c.0[id], Lease(owner, now + LEASE_MS), clock)], c.1 + [Apply(c.0[id], Lease(owner, now + LEASE_MS), clock)])
  {
    assert due[..i + 1][..i] == due[..i];
  }

  class Store {
    var jobs: Table

    constructor ()
      ensures jobs == map[]
    {
      jobs := map[];
    }

    method Maintenance(now: int)
      modifies this
      ensures jobs == Maintained(old(jobs), now)
    {
      jobs := Delete(jobs, ExpiredKeys(jobs, now));
      if |jobs| <= MAX_OUTBOX_JOBS { return; }
      var overflow := |jobs| - MAX_OUTBOX_JOBS;
      var removable := OldestFirst(jobs, TerminalKeys(jobs), overflow);
      DeleteNone(jobs, removable);
      if removable != {} {
        jobs := Delete(jobs, removable);
      }
    }

    /** Insert unless a live row of the key is found first; make room if need be, or refuse. */
    method AddIfAbsent(job: Job, now: int) returns (r: AddResult)
      modifies this
      ensures (jobs, r) == AddTx(Maintained(old(jobs), now), job)
    {
      Maintenance(now);
      var existing := First(jobs, job.key);
      if existing.Some? && !existing.value.status.DeadLetter? {
        return Existing(existing.value);
      }
      if |jobs| >= MAX_OUTBOX_JOBS {
        var removable := TerminalKeys(jobs);
        if removable == {} { return Full; }
        jobs := Delete(jobs, {Oldest(jobs, removable)});
      }
      jobs := jobs[job.id := job];
      r := Added(job);
    }

    /** Read the first due rows, then lease in one transaction those that nobody else holds. */
    method ClaimDue(owner: string, limit: nat, now: int, clock: int) returns (claimed: seq<Job>)
      modifies this
      ensures (jobs, claimed) == ClaimTx(old(jobs), DueList(old(jobs), now, limit), owner, now, clock)
    {
      var due := DueList(jobs, now, limit);
      claimed := [];
      for i := 0 to |due|
        invariant (jobs, claimed) == ClaimTx(old(jobs), due[..i], owner, now, clock)
      {
        ClaimNext(old(jobs), due, i, owner, now, clock);
        if due[i] in jobs && !LeaseActive(jobs[due[i]], owner, now) {
          var row := Apply(jobs[due[i]], Lease(owner, now + LEASE_MS), clock);
          jobs := jobs[due[i] := row];
          claimed := claimed + [row];
        }
      }
      assert due[..|due|] == due;
    }

    /** Only a dead letter is revived; its counters, error and lease are cleared. */
    method RequeueDeadLetter(id: int, clock: int) returns (r: Option<Job>)
      modifies this
      ensures r.Some? <==> id in old(jobs) && old(jobs)[id].status.DeadLetter?
      ensures jobs == if r.Some? then Update(old(jobs), id, ToPending, clock) else old(jobs)
      ensures r.Some? ==> id in jobs && r.value == jobs[id]
    {
      if id !in jobs || !jobs[id].status.DeadLetter? { return None; }
      jobs := Update(jobs, id, ToPending, clock);
      r := Some(jobs[id]);
    }

    /** Every dead letter is revived and counted; no other row is touched. */
    method RequeueAllDeadLetter(clock: int) returns (n: nat)
      modifies this
      ensures n == |DeadIds(old(jobs))| && jobs.Keys == old(jobs).Keys
      ensures forall id | id in jobs ::
        jobs[id] == if old(jobs)[id].status.DeadLetter? then Apply(old(jobs)[id], ToPending, clock) else old(jobs)[id]
    {
      var dead := Ordered(DeadIds(jobs));
      for i := 0 to |dead|
        invariant jobs == RequeueEach(old(jobs), dead[..i], clock)
      {
        RequeueNext(old(jobs), dead, i, clock);
        var _ := RequeueDeadLetter(dead[i], clock);
      }
      assert dead[..|dead|] == dead;
      RequeueEachRows(old(jobs), dead, clock);
      n := |dead|;
    }

    /** Afterwards the owner holds no lease on the row; nobody else's lease and nothing else changes. */
    method ReleaseLease(id: int, owner: string, clock: int)
      modifies this
      ensures jobs.Keys == old(jobs).Keys && forall x | x in jobs && x != id :: jobs[x] == old(jobs)[x]
      ensures id in jobs ==> jobs[id].leaseOwner != Some(owner)
      ensures id in jobs && old(jobs)[id].leaseOwner != Some(owner) ==> jobs[id] == old(jobs)[id]
      ensures id in jobs && old(jobs)[id].leaseOwner == Some(owner) ==>
        jobs[id] == old(jobs)[id].(leaseOwner := None, leaseExpiresAt := None, updatedAt := clock)
    {
      if id !in jobs || jobs[id].leaseOwner != Some(owner) { return; }
      jobs := Update(jobs, id, Unlease, clock);
    }

    /** The jobs still owed are kept as they are, and no others. */
    method ClearTerminal()
      modifies this
      ensures forall id :: id in jobs <==> id in old(jobs) && !old(jobs)[id].status.Terminal()
      ensures forall id | id in jobs :: jobs[id] == old(jobs)[id]
    {
      jobs := Delete(jobs, TerminalKeys(jobs));
    }

    method ClearAll()
      modifies this
      ensures jobs == map[]
    {
      jobs := map[];
    }
  }

  /** All claimed jobs handled in order. */
  function HandleAll(t: Table, todo: seq<Job>, answers: seq<Answer>): Table
    requires |todo| <= |answers|
  {
    if todo == [] then t else HandleAll(Handle(t, todo[0], answers[0]), todo[1..], answers[1..])
  }

  /** The loop of `runOnce` over the claimed jobs. */
  method SendEach(store: Store, claimed: seq<Job>, answers: seq<Answer>)
    requires |claimed| <= |answers|
    modifies store
    ensures store.jobs == HandleAll(old(store.jobs), claimed, answers)
  {
    for i := 0 to |claimed|
      invariant HandleAll(store.jobs, claimed[i..], answers[i..]) == HandleAll(old(store.jobs), claimed, answers)
    {
      var job, a := claimed[i], answers[i];
      var attempts := job.attempts + 1;
      assert claimed[i..][1..] == claimed[i + 1..] && answers[i..][1..] == answers[i + 1..];
      store.jobs := Update(store.jobs, job.id, ToSending(attempts), a.startedAt);
      if !job.parses {
        store.jobs := Update(store.jobs, job.id, ToInvalid, a.endedAt);
      } else {
        store.jobs := Update(store.jobs, job.id, Verdict(attempts, a.outcome, a.endedAt, a.jitter), a.endedAt);
      }
    }
  }

  /** When a pass ran: its sweep, its claim with the writes of it, and the sends. */
  datatype Pass = Pass(owner: string, sweptAt: int, now: int, claimedAt: int, answers: seq<Answer>)

  function Swept(t: Table, p: Pass): Table {
    Maintained(t, p.sweptAt)
  }

  function Claims(t: Table, p: Pass): (Table, seq<Job>) {
    ClaimTx(Swept(t, p), DueList(Swept(t, p), p.now, CLAIM_LIMIT), p.owner, p.now, p.claimedAt)
  }

  /** The table after an undisturbed pass. */
  function Passed(t: Table, p: Pass): Table
    requires |p.answers| >= CLAIM_LIMIT
  {
    ClaimSize(Swept(t, p), DueList(Swept(t, p), p.now, CLAIM_LIMIT), p.owner, p.now, p.claimedAt);
    HandleAll(Claims(t, p).0, Claims(t, p).1, p.answers)
  }

  /** One undisturbed pass: sweep, claim, then send the claimed jobs one by one. */
  method RunOnce(store: Store, p: Pass) returns (claimed: seq<Job>)
    requires |p.answers| >= CLAIM_LIMIT
    modifies store
    ensures |claimed| <= 25 && claimed == Claims(old(store.jobs), p).1
    ensures store.jobs == Passed(old(store.jobs), p)
  {
    ghost var start := store.jobs;
    store.Maintenance(p.sweptAt);
    claimed := store.ClaimDue(p.owner, CLAIM_LIMIT, p.now, p.claimedAt);
    ClaimSize(Swept(start, p), DueList(Swept(start, p), p.now, CLAIM_LIMIT), p.owner, p.now, p.claimedAt);
    SendEach(store, claimed, p.answers);
  }

  lemma {:induction false} ClaimSize(t: Table, ids: seq<int>, owner: string, now: int, clock: int)
    ensures |ClaimTx(t, ids, owner, now, clock).1| <= |ids|
  {
    if ids != [] { ClaimSize(t, ids[..|ids|-1], owner, now, clock); }
  }

  /** Settled as the bridge answered: the row counts one more try and holds no lease. */
  predicate SettledAs(row: Job, job: Job, a: Answer) {
    && row.attempts == job.attempts + 1 && row.leaseOwner.None? && row.leaseExpiresAt.None? && row.updatedAt == a.endedAt
    && (row.status.Sent? <==> job.parses && a.outcome.Delivered?)
    && (row.status.Failed? <==> job.parses && a.outcome.Rejected? && a.outcome.retryable && row.attempts < MAX_ATTEMPTS)
    && (row.status.Sent? || row.status.Failed? || row.status.DeadLetter?)
    && (row.status.Failed? ==> row.nextRetryAt == Some(a.endedAt + Backoff(row.attempts) + a.jitter))
    && (row.status.Sent? ==> row.nextRetryAt.None? && row.lastError.None?)
    && (row.status.Failed? || row.status.DeadLetter? ==>
          row.lastError == Some(if !job.parses then "invalid payload" else if a.outcome.Rejected? then a.outcome.error else ""))
  }

  lemma HandleSettles(t: Table, job: Job, a: Answer)
    requires job.id in t
    ensures var r := Handle(t, job, a);
      r.Keys == t.Keys && (forall id | id in t && id != job.id :: r[id] == t[id]) && SettledAs(r[job.id], job, a)
  {
  }

  predicate Listed(todo: seq<Job>, id: int) {
    exists i :: 0 <= i < |todo| && todo[i].id == id
  }

  predicate DistinctIds(todo: seq<Job>) {
    forall i, j | 0 <= i < j < |todo| :: todo[i].id != todo[j].id
  }

  /** After the loop every job of the list is settled, and no other row moved. */
  lemma {:induction false} PassSettlesEach(t: Table, todo: seq<Job>, answers: seq<Answer>)
    requires |todo| <= |answers| && DistinctIds(todo) && forall i | 0 <= i < |todo| :: todo[i].id in t
    ensures var r := HandleAll(t, todo, answers);
      && r.Keys == t.Keys
      && (forall id | id in t && !Listed(todo, id) :: r[id] == t[id])
      && (forall i | 0 <= i < |todo| :: SettledAs(r[todo[i].id], todo[i], answers[i]))
  {
    if todo != [] {
      var rest := todo[1..];
      var t1 := Handle(t, todo[0], answers[0]);
      HandleSettles(t, todo[0], answers[0]);
      PassSettlesEach(t1, rest, answers[1..]);
      assert forall i | 0 <= i < |rest| :: rest[i] == todo[i + 1] && answers[1..][i] == answers[i + 1];
      forall id | id in t && !Listed(todo, id) ensures !Listed(rest, id) && id != todo[0].id {
        assert id == todo[0].id ==> Listed(todo, id);
      }
      assert !Listed(rest, todo[0].id);
      forall i | 0 <= i < |todo| ensures SettledAs(HandleAll(t, todo, answers)[todo[i].id], todo[i], answers[i]) {
        if i > 0 { assert rest[i - 1] == todo[i]; }
      }
    }
  }
}
