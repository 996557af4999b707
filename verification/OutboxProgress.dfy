/**
 Whole passes of the retry worker: an undisturbed pass is a run of the protocol, and a
 bounded number of passes two minutes apart settles every job.
 */
module OutboxProgress {
  import opened Wrappers
  import opened Sets
  import opened OutboxModel
  import opened OutboxProtocol
  import opened OutboxSafety
  import opened OutboxGuarantees
  import opened OutboxRuns
  import opened OutboxStore

  // ----- a pass is a run -----

  /** The times of the answers from `clock` on. */
  predicate InOrder(clock: int, answers: seq<Answer>)
    decreases answers
  {
    if answers == [] then true
    else clock <= answers[0].startedAt <= answers[0].endedAt && InOrder(answers[0].endedAt, answers[1..])
  }

  /** Nobody but worker `o` moves, and time passes. */
  predicate Alone(acts: seq<Action>, o: string) {
    forall i | 0 <= i < |acts| :: acts[i].Tick? || acts[i] == StartWorker(o) || (acts[i].Work? && acts[i].o == o)
  }

  /** A run of worker `o` alone leads from `s` to `n`. */
  ghost predicate Reaches(s: State, n: State, o: string) {
    exists acts :: Alone(acts, o) && After(s, acts) == n
  }

  lemma ReachesMore(s: State, n: State, a: Action, o: string)
    requires Reaches(s, n, o) && Alone([a], o)
    ensures Reaches(s, Exec(n, a), o)
  {
    var acts :| Alone(acts, o) && After(s, acts) == n;
    AfterOne(s, acts, a);
    assert [a][0] == a;
    assert Alone(acts + [a], o);
  }

  /** A run from `s` is in `n`, with table `t` and worker `o` at `w`, and it is `clock`. */
  ghost predicate At(s: State, n: State, o: string, t: Table, w: WorkerPc, clock: int) {
    Reaches(s, n, o) && Inv(n) && n.jobs == t && o in n.workers && n.workers[o] == w && n.clock == clock
  }

  lemma TickTo(s: State, n: State, o: string, t: Table, w: WorkerPc, clock: int, later: int) returns (m: State)
    requires At(s, n, o, t, w, clock) && clock <= later
    ensures At(s, m, o, t, w, later)
  {
    m := Exec(n, Tick(later));
    ReachesMore(s, n, Tick(later), o);
    StepKeeps(n, Tick(later));
  }

  /** The ledger has no say in what a worker does. */
  predicate Does(t: Table, clock: int, o: string, w: WorkerPc, outcome: Outcome, jitter: Jitter, t': Table, w': WorkerPc) {
    var e := WorkStep(t, map[], clock, o, w, outcome, jitter);
    e.jobs == t' && e.pc == Some(w')
  }

  lemma LedgerAside(t: Table, l: Ledger, clock: int, o: string, w: WorkerPc, outcome: Outcome, jitter: Jitter)
    ensures WorkStep(t, l, clock, o, w, outcome, jitter).jobs == WorkStep(t, map[], clock, o, w, outcome, jitter).jobs
    ensures WorkStep(t, l, clock, o, w, outcome, jitter).pc == WorkStep(t, map[], clock, o, w, outcome, jitter).pc
  {
  }

  lemma StepTo(s: State, n: State, o: string, t: Table, w: WorkerPc, clock: int, outcome: Outcome, jitter: Jitter, t': Table, w': WorkerPc) returns (m: State)
    requires At(s, n, o, t, w, clock) && Does(t, clock, o, w, outcome, jitter, t', w')
    ensures At(s, m, o, t', w', clock)
  {
    m := Exec(n, Work(o, outcome, jitter));
    ReachesMore(s, n, Work(o, outcome, jitter), o);
    StepKeeps(n, Work(o, outcome, jitter));
    LedgerAside(t, n.ledger, clock, o, w, outcome, jitter);
    WorkTo(n, o, outcome, jitter, WorkStep(t, n.ledger, clock, o, w, outcome, jitter));
  }

  /** The job is marked. */
  lemma MarkRun(s: State, n: State, o: string, t: Table, todo: seq<Job>, clock: int, a: Answer) returns (m: State)
    requires todo != [] && At(s, n, o, t, WLoop(todo), clock) && clock <= a.startedAt <= a.endedAt
    ensures var k := todo[0].attempts + 1;
      At(s, m, o, Update(t, todo[0].id, ToSending(k), a.startedAt), WSend(todo, k), a.endedAt)
  {
    var k := todo[0].attempts + 1;
    m := TickTo(s, n, o, t, WLoop(todo), clock, a.startedAt);
    m := MarkStep(s, m, o, t, todo, a, k);
    m := TickTo(s, m, o, Update(t, todo[0].id, ToSending(k), a.startedAt), WSend(todo, k), a.startedAt, a.endedAt);
  }

  lemma MarkStep(s: State, n: State, o: string, t: Table, todo: seq<Job>, a: Answer, k: nat) returns (m: State)
    requires todo != [] && At(s, n, o, t, WLoop(todo), a.startedAt) && k == todo[0].attempts + 1
    ensures At(s, m, o, Update(t, todo[0].id, ToSending(k), a.startedAt), WSend(todo, k), a.startedAt)
  {
    var t1 := Update(t, todo[0].id, ToSending(k), a.startedAt);
    assert Does(t, a.startedAt, o, WLoop(todo), a.outcome, a.jitter, t1, WSend(todo, k));
    m := StepTo(s, n, o, t, WLoop(todo), a.startedAt, a.outcome, a.jitter, t1, WSend(todo, k));
  }

  /** It does not parse. */
  lemma RejectRun(s: State, n: State, o: string, t: Table, todo: seq<Job>, k: nat, a: Answer) returns (m: State)
    requires todo != [] && !todo[0].parses && At(s, n, o, t, WSend(todo, k), a.endedAt)
    ensures At(s, m, o, Update(t, todo[0].id, ToInvalid, a.endedAt), WLoop(todo[1..]), a.endedAt)
  {
    var t1 := Update(t, todo[0].id, ToInvalid, a.endedAt);
    assert Does(t, a.endedAt, o, WSend(todo, k), a.outcome, a.jitter, t1, WLoop(todo[1..]));
    m := StepTo(s, n, o, t, WSend(todo, k), a.endedAt, a.outcome, a.jitter, t1, WLoop(todo[1..]));
  }

  /** It is sent and the verdict is written. */
  lemma SendRun(s: State, n: State, o: string, t: Table, todo: seq<Job>, k: nat, a: Answer, p: Patch) returns (m: State)
    requires todo != [] && todo[0].parses && At(s, n, o, t, WSend(todo, k), a.endedAt) && p == Verdict(k, a.outcome, a.endedAt, a.jitter)
    ensures At(s, m, o, Update(t, todo[0].id, p, a.endedAt), WLoop(todo[1..]), a.endedAt)
  {
    assert Does(t, a.endedAt, o, WSend(todo, k), a.outcome, a.jitter, t, WMark(todo, k, p));
    m := StepTo(s, n, o, t, WSend(todo, k), a.endedAt, a.outcome, a.jitter, t, WMark(todo, k, p));
    var t1 := Update(t, todo[0].id, p, a.endedAt);
    assert Does(t, a.endedAt, o, WMark(todo, k, p), a.outcome, a.jitter, t1, WLoop(todo[1..]));
    m := StepTo(s, m, o, t, WMark(todo, k, p), a.endedAt, a.outcome, a.jitter, t1, WLoop(todo[1..]));
  }

  /** One job: marking it, sending it, and writing the verdict. */
  lemma JobRun(s: State, n: State, o: string, t: Table, todo: seq<Job>, clock: int, a: Answer) returns (m: State)
    requires todo != [] && At(s, n, o, t, WLoop(todo), clock) && clock <= a.startedAt <= a.endedAt
    ensures At(s, m, o, Handle(t, todo[0], a), WLoop(todo[1..]), a.endedAt)
  {
    var k := todo[0].attempts + 1;
    var t1 := Update(t, todo[0].id, ToSending(k), a.startedAt);
    m := MarkRun(s, n, o, t, todo, clock, a);
    if todo[0].parses {
      m := SendRun(s, m, o, t1, todo, k, a, Verdict(k, a.outcome, a.endedAt, a.jitter));
    } else {
      m := RejectRun(s, m, o, t1, todo, k, a);
    }
  }

  /** The send loop, undisturbed, leaves what handling the list leaves. */
  lemma {:induction false} LoopRun(s: State, n: State, o: string, t: Table, todo: seq<Job>, clock: int, answers: seq<Answer>) returns (m: State)
    requires At(s, n, o, t, WLoop(todo), clock) && |todo| <= |answers| && InOrder(clock, answers)
    ensures Reaches(s, m, o) && m.jobs == HandleAll(t, todo, answers)
    decreases |todo|
  {
    m := n;
    if todo != [] {
      m := JobRun(s, n, o, t, todo, clock, answers[0]);
      m := LoopRun(s, m, o, Handle(t, todo[0], answers[0]), todo[1..], answers[0].endedAt, answers[1..]);
    }
  }

  predicate Timed(p: Pass, clock: int) {
    clock <= p.sweptAt <= p.now <= p.claimedAt && |p.answers| >= CLAIM_LIMIT && InOrder(p.claimedAt, p.answers)
  }

  lemma StartRun(s: State, o: string, later: int) returns (m: State)
    requires Inv(s) && s.clock <= later && o != "" && o !in s.owners
    ensures At(s, m, o, s.jobs, WMaint(Expire(later)), later)
  {
    var s1 := Exec(s, Tick(later));
    assert Alone([], o) && After(s, []) == s;
    ReachesMore(s, s, Tick(later), o);
    ReachesMore(s, s1, StartWorker(o), o);
    StepKeeps(s, Tick(later));
    StepKeeps(s1, StartWorker(o));
    m := Exec(s1, StartWorker(o));
  }

  /** A sweep of a table within capacity is its expiry. */
  lemma SweptIsExpired(t: Table, p: Pass)
    requires |t| <= MAX_OUTBOX_JOBS
    ensures Swept(t, p) == Delete(t, ExpiredKeys(t, p.sweptAt)) && |Swept(t, p)| <= MAX_OUTBOX_JOBS
  {
    DeleteSize(t, ExpiredKeys(t, p.sweptAt));
  }

  /** Sweeping. */
  lemma SweepRun(s: State, p: Pass) returns (m: State)
    requires Inv(s) && Timed(p, s.clock) && p.owner != "" && p.owner !in s.owners
    ensures At(s, m, p.owner, Swept(s.jobs, p), WReady, p.now)
  {
    var o, t := p.owner, Swept(s.jobs, p);
    SweptIsExpired(s.jobs, p);
    m := StartRun(s, o, p.sweptAt);
    assert Does(s.jobs, p.sweptAt, o, WMaint(Expire(p.sweptAt)), Delivered, 0, t, WMaint(Count));
    m := StepTo(s, m, o, s.jobs, WMaint(Expire(p.sweptAt)), p.sweptAt, Delivered, 0, t, WMaint(Count));
    assert Does(t, p.sweptAt, o, WMaint(Count), Delivered, 0, t, WReady);
    m := StepTo(s, m, o, t, WMaint(Count), p.sweptAt, Delivered, 0, t, WReady);
    m := TickTo(s, m, o, t, WReady, p.sweptAt, p.now);
  }

  /** Reading the due list. */
  lemma ReadRun(s: State, n: State, o: string, t: Table, now: int, later: int) returns (m: State)
    requires At(s, n, o, t, WReady, now) && now <= later
    ensures At(s, m, o, t, WClaim(now, DueList(t, now, CLAIM_LIMIT)), later)
  {
    var due := DueList(t, now, CLAIM_LIMIT);
    assert Does(t, now, o, WReady, Delivered, 0, t, WRead(now));
    m := StepTo(s, n, o, t, WReady, now, Delivered, 0, t, WRead(now));
    assert Does(t, now, o, WRead(now), Delivered, 0, t, WClaim(now, due));
    m := StepTo(s, m, o, t, WRead(now), now, Delivered, 0, t, WClaim(now, due));
    m := TickTo(s, m, o, t, WClaim(now, due), now, later);
  }

  /** Sweeping, reading and claiming. */
  lemma OpeningRun(s: State, p: Pass) returns (m: State)
    requires Inv(s) && Timed(p, s.clock) && p.owner != "" && p.owner !in s.owners
    ensures At(s, m, p.owner, Claims(s.jobs, p).0, WLoop(Claims(s.jobs, p).1), p.claimedAt)
  {
    var o, t := p.owner, Swept(s.jobs, p);
    var due := DueList(t, p.now, CLAIM_LIMIT);
    m := SweepRun(s, p);
    m := ReadRun(s, m, o, t, p.now, p.claimedAt);
    m := ClaimRun(s, m, o, t, due, p.now, p.claimedAt, Claims(s.jobs, p));
  }

  lemma ClaimRun(s: State, n: State, o: string, t: Table, ids: seq<int>, now: int, clock: int, c: (Table, seq<Job>)) returns (m: State)
    requires At(s, n, o, t, WClaim(now, ids), clock) && c == ClaimTx(t, ids, o, now, clock)
    ensures At(s, m, o, c.0, WLoop(c.1), clock)
  {
    assert Does(t, clock, o, WClaim(now, ids), Delivered, 0, c.0, WLoop(c.1));
    m := StepTo(s, n, o, t, WClaim(now, ids), clock, Delivered, 0, c.0, WLoop(c.1));
  }

  /** From any state of any run, an undisturbed pass of the protocol's worker leaves the table that `RunOnce` leaves. */
  lemma PassIsRun(s: State, p: Pass) returns (acts: seq<Action>)
    requires Inv(s) && Timed(p, s.clock) && p.owner != "" && p.owner !in s.owners
    ensures Alone(acts, p.owner) && After(s, acts).jobs == Passed(s.jobs, p)
  {
    var n := OpeningRun(s, p);
    ClaimSize(Swept(s.jobs, p), DueList(Swept(s.jobs, p), p.now, CLAIM_LIMIT), p.owner, p.now, p.claimedAt);
    var m := LoopRun(s, n, p.owner, Claims(s.jobs, p).0, Claims(s.jobs, p).1, p.claimedAt, p.answers);
    acts :| Alone(acts, p.owner) && After(s, acts) == m;
  }

  // ----- a bounded number of passes settles everything -----

  /** How many more sends the job can need. */
  function Left(j: Job): nat {
    if j.status.Terminal() then 0 else if j.attempts < MAX_ATTEMPTS then MAX_ATTEMPTS - j.attempts else 1
  }

  function LeftOf(t: Table): int -> nat {
    id => if id in t then Left(t[id]) else 0
  }

  /** When the last answer was written. */
  function EndOf(clock: int, answers: seq<Answer>): int
    decreases answers
  {
    if answers == [] then clock else EndOf(answers[0].endedAt, answers[1..])
  }

  function End(p: Pass): int {
    EndOf(p.claimedAt, p.answers)
  }

  /** The pass starts two minutes after `clock` or later. */
  predicate Apart(p: Pass, clock: int) {
    Timed(p, clock + LEASE_MS)
  }

  lemma SweptRows(t: Table, p: Pass, clock: int)
    requires TableOk(t, clock)
    ensures TableOk(Swept(t, p), clock)
    ensures forall id | id in Swept(t, p) :: id in t && Swept(t, p)[id] == t[id]
    ensures forall id | id in t && !t[id].status.Terminal() :: id in Swept(t, p)
  {
    MaintainedKeepsLive(t, p.sweptAt);
  }

  /** After two minutes every job still owed is due and free. */
  lemma OwedIsDue(t: Table, clock: int, id: int, owner: string, now: int)
    requires TableOk(t, clock) && id in t && !t[id].status.Terminal() && now >= clock + LEASE_MS
    ensures Due(t[id], now) && !LeaseActive(t[id], owner, now)
  {
  }

  /** A job on the claim list is settled by the pass: it needs fewer sends afterwards. */
  lemma HandledIsLess(row: Job, job: Job, a: Answer)
    requires SettledAs(row, job, a) && !job.status.Terminal()
    ensures Left(row) < Left(job)
  {
  }

  // ----- what a pass does to the rows -----

  lemma LaterOk(t: Table, clock: int, later: int)
    requires TableOk(t, clock) && clock <= later
    ensures TableOk(t, later)
  {
  }

  lemma VerdictOk(n: nat, a: Answer)
    ensures PatchOk(Verdict(n, a.outcome, a.endedAt, a.jitter), a.endedAt)
  {
  }

  lemma HandleOk(t: Table, job: Job, a: Answer, clock: int)
    requires TableOk(t, clock) && clock <= a.startedAt <= a.endedAt
    ensures TableOk(Handle(t, job, a), a.endedAt)
  {
    var k := job.attempts + 1;
    VerdictOk(k, a);
    UpdateLater(t, job.id, ToSending(k), clock, a.startedAt);
    UpdateLater(Update(t, job.id, ToSending(k), a.startedAt), job.id,
      if job.parses then Verdict(k, a.outcome, a.endedAt, a.jitter) else ToInvalid, a.startedAt, a.endedAt);
  }

  lemma UpdateLater(t: Table, id: int, p: Patch, clock: int, later: int)
    requires TableOk(t, clock) && clock <= later && PatchOk(p, later)
    ensures TableOk(Update(t, id, p, later), later)
  {
    LaterOk(t, clock, later);
    UpdateOk(t, id, p, later);
  }

  lemma {:induction false} EndLater(clock: int, answers: seq<Answer>)
    requires InOrder(clock, answers)
    ensures clock <= EndOf(clock, answers)
    decreases answers
  {
    if answers != [] { EndLater(answers[0].endedAt, answers[1..]); }
  }

  lemma {:induction false} HandleAllOk(t: Table, todo: seq<Job>, answers: seq<Answer>, clock: int)
    requires TableOk(t, clock) && InOrder(clock, answers) && |todo| <= |answers|
    ensures TableOk(HandleAll(t, todo, answers), EndOf(clock, answers))
    decreases |todo|
  {
    if todo == [] {
      EndLater(clock, answers);
      LaterOk(t, clock, EndOf(clock, answers));
    } else {
      HandleOk(t, todo[0], answers[0], clock);
      HandleAllOk(Handle(t, todo[0], answers[0]), todo[1..], answers[1..], answers[0].endedAt);
    }
  }

  lemma ClaimedIds(w: Table, ids: seq<int>, o: string, now: int, clock: int)
    requires (forall id | id in w :: w[id].id == id) && Increasing(ids)
    ensures DistinctIds(ClaimTx(w, ids, o, now, clock).1)
  {
    ClaimOrder(w, ids, o, now, clock);
  }

  lemma ClaimedLeft(w: Table, ids: seq<int>, o: string, now: int, clock: int, id: int)
    requires (forall id | id in w :: w[id].id == id) && id in w
    ensures var r := ClaimTx(w, ids, o, now, clock).0;
      r.Keys == w.Keys && Left(r[id]) == Left(w[id]) && r[id].status == w[id].status
  {
    ClaimRows(w, ids, o, now, clock);
  }

  lemma ClaimedJob(w: Table, ids: seq<int>, o: string, now: int, clock: int, i: nat)
    requires (forall id | id in w :: w[id].id == id) && i < |ClaimTx(w, ids, o, now, clock).1|
    ensures var c := ClaimTx(w, ids, o, now, clock);
      c.1[i].id in ids && c.1[i].id in w && c.1[i].id in c.0 && c.1[i] == c.0[c.1[i].id]
  {
    ClaimRows(w, ids, o, now, clock);
    assert ClaimTx(w, ids, o, now, clock).1[i] in ClaimTx(w, ids, o, now, clock).1;
  }

  /** The claimed jobs are different stored jobs, as stored, and still owed. */
  lemma ClaimedJobs(t: Table, p: Pass, clock: int)
    requires TableOk(t, clock) && Apart(p, clock)
    ensures var c := Claims(t, p);
      && DistinctIds(c.1)
      && (forall i | 0 <= i < |c.1| :: c.1[i].id in c.0 && c.1[i].id in t && !c.1[i].status.Terminal() && Left(c.1[i]) == Left(t[c.1[i].id]))
      && (forall id | id in c.0 :: id in t && Left(c.0[id]) == Left(t[id]))
  {
    var w, due := Swept(t, p), DueList(Swept(t, p), p.now, CLAIM_LIMIT);
    SweptRows(t, p, clock);
    ClaimedIds(w, due, p.owner, p.now, p.claimedAt);
    var c := Claims(t, p);
    forall id | id in c.0 ensures id in t && Left(c.0[id]) == Left(t[id]) {
      ClaimOk(w, due, p.owner, p.now, p.claimedAt);
      ClaimedLeft(w, due, p.owner, p.now, p.claimedAt, id);
    }
    forall i | 0 <= i < |c.1| ensures c.1[i].id in c.0 && c.1[i].id in t && !c.1[i].status.Terminal() && Left(c.1[i]) == Left(t[c.1[i].id]) {
      ClaimedJob(w, due, p.owner, p.now, p.claimedAt, i);
      ClaimedLeft(w, due, p.owner, p.now, p.claimedAt, c.1[i].id);
      assert Due(w[c.1[i].id], p.now);
    }
  }

  /** No job needs more sends after a pass, and a claimed one needs fewer. */
  lemma PassLess(t: Table, p: Pass, clock: int, id: int)
    requires TableOk(t, clock) && Apart(p, clock) && id in Passed(t, p)
    ensures id in t && Left(Passed(t, p)[id]) <= Left(t[id])
    ensures Listed(Claims(t, p).1, id) ==> Left(Passed(t, p)[id]) < Left(t[id])
  {
    var c := Claims(t, p);
    ClaimedJobs(t, p, clock);
    ClaimSize(Swept(t, p), DueList(Swept(t, p), p.now, CLAIM_LIMIT), p.owner, p.now, p.claimedAt);
    PassSettlesEach(c.0, c.1, p.answers);
    if Listed(c.1, id) {
      var i :| 0 <= i < |c.1| && c.1[i].id == id;
      HandledIsLess(Passed(t, p)[id], c.1[i], p.answers[i]);
    }
  }

  lemma PassOk(t: Table, p: Pass, clock: int)
    requires TableOk(t, clock) && Apart(p, clock)
    ensures TableOk(Passed(t, p), End(p))
  {
    SweptRows(t, p, clock);
    LaterOk(Swept(t, p), clock, p.claimedAt);
    ClaimOk(Swept(t, p), DueList(Swept(t, p), p.now, CLAIM_LIMIT), p.owner, p.now, p.claimedAt);
    ClaimSize(Swept(t, p), DueList(Swept(t, p), p.now, CLAIM_LIMIT), p.owner, p.now, p.claimedAt);
    HandleAllOk(Claims(t, p).0, Claims(t, p).1, p.answers, p.claimedAt);
  }

  /** The first due job is on the list. */
  lemma FirstIsDue(w: Table, now: int) returns (x: int)
    requires DueKeys(w, now) != {}
    ensures x in w && Due(w[x], now) && x in DueList(w, now, CLAIM_LIMIT)
  {
    x := Min(DueKeys(w, now));
    assert (set y | y in DueKeys(w, now) && y < x) == {};
    ListedExactly(w, now, CLAIM_LIMIT, x);
  }

  lemma FreeIsClaimed(w: Table, ids: seq<int>, o: string, now: int, clock: int, x: int)
    requires (forall id | id in w :: w[id].id == id) && x in ids && x in w && !LeaseActive(w[x], o, now)
    ensures Listed(ClaimTx(w, ids, o, now, clock).1, x)
  {
    ClaimRows(w, ids, o, now, clock);
    var c := ClaimTx(w, ids, o, now, clock);
    var i :| 0 <= i < |c.1| && c.1[i] == c.0[x];
    assert c.1[i].id == x;
  }

  /** While a job is owed, the pass claims one. */
  lemma PassClaims(t: Table, p: Pass, clock: int, id: int) returns (x: int)
    requires TableOk(t, clock) && Apart(p, clock) && id in t && !t[id].status.Terminal()
    ensures x in t && Listed(Claims(t, p).1, x)
  {
    SweptRows(t, p, clock);
    x := SomeClaimed(Swept(t, p), clock, id, p.owner, p.now, p.claimedAt);
  }

  lemma SomeClaimed(w: Table, clock: int, id: int, o: string, now: int, stamp: int) returns (x: int)
    requires TableOk(w, clock) && id in w && !w[id].status.Terminal() && now >= clock + LEASE_MS
    ensures x in w && Listed(ClaimTx(w, DueList(w, now, CLAIM_LIMIT), o, now, stamp).1, x)
  {
    OwedIsDue(w, clock, id, o, now);
    assert id in DueKeys(w, now);
    x := FirstIsDue(w, now);
    OwedIsDue(w, clock, x, o, now);
    FreeIsClaimed(w, DueList(w, now, CLAIM_LIMIT), o, now, stamp, x);
  }

  // ----- the theorem -----

  function Passes(t: Table, ps: seq<Pass>): Table
    requires forall i | 0 <= i < |ps| :: |ps[i].answers| >= CLAIM_LIMIT
    decreases ps
  {
    if ps == [] then t else Passes(Passed(t, ps[0]), ps[1..])
  }

  /** Each pass starts two minutes after the one before it ended. */
  predicate Spaced(clock: int, ps: seq<Pass>)
    decreases ps
  {
    if ps == [] then true else Apart(ps[0], clock) && Spaced(End(ps[0]), ps[1..])
  }

  lemma {:induction false} SpacedAnswers(clock: int, ps: seq<Pass>)
    requires Spaced(clock, ps)
    ensures forall i | 0 <= i < |ps| :: |ps[i].answers| >= CLAIM_LIMIT
    decreases ps
  {
    if ps != [] {
      SpacedAnswers(End(ps[0]), ps[1..]);
      assert forall i | 0 < i < |ps| :: ps[i] == ps[1..][i - 1];
    }
  }

  predicate AllSettled(t: Table) {
    forall id | id in t :: t[id].status.Terminal()
  }

  /** The sends that all jobs together can still need. */
  function Potential(ids: set<int>, t: Table): nat {
    Sum(ids, LeftOf(t))
  }

  lemma PassLowersPotential(ids: set<int>, t: Table, p: Pass, clock: int)
    requires TableOk(t, clock) && Apart(p, clock) && t.Keys <= ids
    ensures Passed(t, p).Keys <= ids
    ensures Potential(ids, Passed(t, p)) < Potential(ids, t) || (AllSettled(t) && Potential(ids, Passed(t, p)) <= Potential(ids, t))
  {
    var r := Passed(t, p);
    forall id | id in r ensures id in t && LeftOf(r)(id) <= LeftOf(t)(id) { PassLess(t, p, clock, id); }
    forall id | id in ids ensures LeftOf(r)(id) <= LeftOf(t)(id) { }
    SumMonotone(ids, LeftOf(r), LeftOf(t));
    if !AllSettled(t) {
      var id :| id in t && !t[id].status.Terminal();
      var x := PassClaims(t, p, clock, id);
      ListedStays(t, p, clock, x);
      PassLess(t, p, clock, x);
      SumStrict(ids, LeftOf(r), LeftOf(t), x);
    }
  }

  lemma ListedStays(t: Table, p: Pass, clock: int, x: int)
    requires TableOk(t, clock) && Apart(p, clock) && Listed(Claims(t, p).1, x)
    ensures x in Passed(t, p)
  {
    ClaimedJobs(t, p, clock);
    ClaimSize(Swept(t, p), DueList(Swept(t, p), p.now, CLAIM_LIMIT), p.owner, p.now, p.claimedAt);
    PassSettlesEach(Claims(t, p).0, Claims(t, p).1, p.answers);
  }

  lemma {:induction false} PotentialRunsOut(ids: set<int>, t: Table, ps: seq<Pass>, clock: int)
    requires TableOk(t, clock) && Spaced(clock, ps) && t.Keys <= ids && Potential(ids, t) <= |ps|
    requires forall i | 0 <= i < |ps| :: |ps[i].answers| >= CLAIM_LIMIT
    ensures AllSettled(Passes(t, ps))
    decreases ps
  {
    if Potential(ids, t) == 0 || ps == [] {
      forall id | id in t ensures t[id].status.Terminal() {
        SumZero(ids, LeftOf(t), id);
        assert LeftOf(t)(id) == Left(t[id]);
      }
    }
    if ps != [] {
      PassLowersPotential(ids, t, ps[0], clock);
      PassOk(t, ps[0], clock);
      if AllSettled(t) { SettledHasNone(ids, t); }
      PotentialRunsOut(ids, Passed(t, ps[0]), ps[1..], End(ps[0]));
    }
  }

  lemma SettledHasNone(ids: set<int>, t: Table)
    requires AllSettled(t)
    ensures Potential(ids, t) == 0
  {
    SumBound(ids, LeftOf(t), 0);
  }

  /**
   Undisturbed passes, each two minutes after the last, settle every job: after five passes
   per stored job at most, whatever the bridge answers, nothing is pending, failed or sending.
   */
  lemma EverythingSettles(t: Table, ps: seq<Pass>, clock: int)
    requires TableOk(t, clock) && Spaced(clock, ps) && |ps| >= MAX_ATTEMPTS * |t|
    ensures (forall i | 0 <= i < |ps| :: |ps[i].answers| >= CLAIM_LIMIT) && AllSettled(Passes(t, ps))
  {
    SpacedAnswers(clock, ps);
    SumBound(t.Keys, LeftOf(t), MAX_ATTEMPTS);
    assert |t| == |t.Keys|;
    PotentialRunsOut(t.Keys, t, ps, clock);
  }

  /** So it is from every reachable store. */
  lemma ReachableSettles(clock: int, acts: seq<Action>, ps: seq<Pass>)
    requires Spaced(After(Init(clock), acts).clock, ps) && |ps| >= MAX_ATTEMPTS * MAX_OUTBOX_JOBS
    ensures (forall i | 0 <= i < |ps| :: |ps[i].answers| >= CLAIM_LIMIT) && AllSettled(Passes(After(Init(clock), acts).jobs, ps))
  {
    RunKeeps(clock, acts);
    EverythingSettles(After(Init(clock), acts).jobs, ps, After(Init(clock), acts).clock);
  }
}
