/**
 The hand-off outbox as values: the rows, the patches written to them and the
 atomic database operations. An IndexedDB table is a map from primary key to
 row. Primary keys are UUID strings compared by their text; here an `int` stands
 for the rank of the text, so that primary-key order is `<`. Instants are
 milliseconds, whose order is the order of the ISO texts the rows hold.
 */
module OutboxModel {
  import opened Wrappers
  import opened Sets

  const MAX_OUTBOX_JOBS: nat := 1_000
  const SENT_RETENTION_MS: nat := 7 * 24 * 60 * 60_000
  const DEAD_RETENTION_MS: nat := 30 * 24 * 60 * 60_000
  const LEASE_MS: nat := 120_000
  const CLAIM_LIMIT: nat := 25
  const MAX_ATTEMPTS: nat := 5
  const RETRY_BASE_MS: nat := 2_000
  const RETRY_MAX_MS: nat := 60_000
  const RETRY_JITTER_MS: nat := 500

  datatype Status = Pending | Sending | Sent | Failed | DeadLetter {
    /** `sent` and `dead-letter` rows may be removed; the others are still owed to NOVA. */
    predicate Terminal() { Sent? || DeadLetter? }
  }

  /** One stored hand-off. `parses` says whether the payload is one candidate or a list of them. */
  datatype Job = Job(
    id: int, key: string, parses: bool, status: Status, attempts: nat, lastError: Option<string>,
    createdAt: int, updatedAt: int, nextRetryAt: Option<int>,
    leaseOwner: Option<string>, leaseExpiresAt: Option<int>)

  type Table = map<int, Job>

  /** The partial rows that the store and the retry worker write. */
  datatype Patch =
    | ToSending(attempts: nat)
    | ToInvalid
    | ToSent
    | ToFailed(error: string, retryAt: int)
    | ToDead(error: string)
    | ToPending
    | Lease(owner: string, expires: int)
    | Unlease

  /** A patched row; every patch also stamps `updatedAt`. */
  function Apply(j: Job, p: Patch, now: int): Job {
    var k := j.(updatedAt := now);
    match p
    case ToSending(n) => k.(status := Sending, attempts := n)
    case ToInvalid => k.(status := DeadLetter, lastError := Some("invalid payload"), leaseOwner := None, leaseExpiresAt := None)
    case ToSent => k.(status := Sent, nextRetryAt := None, lastError := None, leaseOwner := None, leaseExpiresAt := None)
    case ToFailed(e, at) => k.(status := Failed, lastError := Some(e), nextRetryAt := Some(at), leaseOwner := None, leaseExpiresAt := None)
    case ToDead(e) => k.(status := DeadLetter, lastError := Some(e), nextRetryAt := None, leaseOwner := None, leaseExpiresAt := None)
    case ToPending => k.(status := Pending, attempts := 0, nextRetryAt := None, lastError := None, leaseOwner := None, leaseExpiresAt := None)
    case Lease(o, e) => k.(leaseOwner := Some(o), leaseExpiresAt := Some(e))
    case Unlease => k.(leaseOwner := None, leaseExpiresAt := None)
  }

  /** `jobs.update`: a missing row is left missing. */
  function Update(t: Table, id: int, p: Patch, now: int): Table {
    if id in t then t[id := Apply(t[id], p, now)] else t
  }

  function Delete(t: Table, ids: set<int>): Table {
    t - ids
  }

  // ----- reading rows in primary-key order -----

  predicate Increasing(s: seq<int>) {
    forall i, j | 0 <= i < j < |s| :: s[i] < s[j]
  }

  /** The members of a set of primary keys in the order a cursor visits them. */
  function Ordered(s: set<int>): (r: seq<int>)
    ensures Increasing(r)
    ensures forall x :: x in r <==> x in s
    ensures |r| == |s|
    decreases |s|
  {
    if s == {} then [] else
      var m := Min(s);
      var rest := Ordered(s - {m});
      assert forall x | x in rest :: x in s - {m};
      assert forall i | 0 <= i < |rest| :: rest[i] in rest;
      [m] + rest
  }

  // ----- what is due, and who may claim it -----

  predicate Due(j: Job, now: int) {
    || ((j.status.Pending? || j.status.Failed?) && (j.nextRetryAt.None? || j.nextRetryAt.value <= now))
    || (j.status.Sending? && j.updatedAt <= now - LEASE_MS)
  }

  function DueKeys(t: Table, now: int): set<int> {
    set id | id in t && Due(t[id], now)
  }

  /** `pending(now)` cut to the first `limit` rows. */
  function DueList(t: Table, now: int, limit: nat): (r: seq<int>)
    ensures |r| <= limit && Increasing(r)
    ensures forall x | x in r :: x in t && Due(t[x], now)
  {
    var all := Ordered(DueKeys(t, now));
    var r := if |all| <= limit then all else all[..limit];
    assert forall x | x in r :: x in all;
    r
  }

  /** Another owner holds an unexpired lease. An empty owner text counts as no owner. */
  predicate LeaseActive(j: Job, owner: string, now: int) {
    && j.leaseExpiresAt.Some? && j.leaseExpiresAt.value > now
    && j.leaseOwner.Some? && j.leaseOwner.value != "" && j.leaseOwner.value != owner
  }

  /** The claiming transaction: re-read each listed row and lease it unless someone else holds it. */
  function ClaimTx(t: Table, ids: seq<int>, owner: string, now: int, clock: int): (Table, seq<Job>) {
    if ids == [] then (t, []) else
      var init := ClaimTx(t, ids[..|ids|-1], owner, now, clock);
      var id := ids[|ids|-1];
      if id !in init.0 || LeaseActive(init.0[id], owner, now) then init
      else
        var row := Apply(init.0[id], Lease(owner, now + LEASE_MS), clock);
        (init.0[id := row], init.1 + [row])
  }

  // ----- inserting -----

  function KeyRows(t: Table, key: string): set<int> {
    set id | id in t && t[id].key == key
  }

  /** `where('idempotencyKey').equals(key).first()`: the row of lowest primary key. */
  function First(t: Table, key: string): Option<Job> {
    var rows := KeyRows(t, key);
    if rows == {} then None else Some(t[Min(rows)])
  }

  function TerminalKeys(t: Table): set<int> {
    set id | id in t && t[id].status.Terminal()
  }

  /** The terminal row with the smallest (`updatedAt`, primary key): the first of a stable `sortBy`. */
  function Oldest(t: Table, ids: set<int>): (r: int)
    requires ids != {} && ids <= t.Keys
    ensures r in ids && forall x | x in ids :: t[r].updatedAt <= t[x].updatedAt
    ensures forall x | x in ids && t[x].updatedAt == t[r].updatedAt :: r <= x
  {
    var stamps := set id | id in ids :: t[id].updatedAt;
    var any := Min(ids);
    assert t[any].updatedAt in stamps;
    var stamp := Min(stamps);
    var ties := set id | id in ids && t[id].updatedAt == stamp;
    assert forall x | x in ids :: t[x].updatedAt in stamps;
    assert ties != {} by {
      var w :| w in ids && t[w].updatedAt == stamp;
      assert w in ties;
    }
    assert forall x | x in ids && t[x].updatedAt == stamp :: x in ties;
    Min(ties)
  }

  datatype AddResult = Existing(job: Job) | Added(job: Job) | Full

  /** The inserting transaction of `addIfAbsent`, with the capacity check inside it. */
  function AddTx(t: Table, job: Job): (Table, AddResult) {
    var existing := First(t, job.key);
    if existing.Some? && !existing.value.status.DeadLetter? then (t, Existing(existing.value))
    else if |t| < MAX_OUTBOX_JOBS then (t[job.id := job], Added(job))
    else if TerminalKeys(t) != {} then
      (Delete(t, {Oldest(t, TerminalKeys(t))})[job.id := job], Added(job))
    else (t, Full)
  }

  // ----- retention -----

  predicate Expired(j: Job, now: int) {
    match j.status
    case Sent => j.updatedAt < now - SENT_RETENTION_MS
    case DeadLetter => j.updatedAt < now - DEAD_RETENTION_MS
    case _ => false
  }

  function ExpiredKeys(t: Table, now: int): set<int> {
    set id | id in t && Expired(t[id], now)
  }

  /** The ids of the `n` oldest terminal rows, in the order of a stable sort by `updatedAt`. */
  function OldestFirst(t: Table, ids: set<int>, n: nat): (r: set<int>)
    requires ids <= t.Keys
    ensures r <= ids && |r| <= n
    decreases n
  {
    if n == 0 || ids == {} then {} else
      var x := Oldest(t, ids);
      var rest := OldestFirst(t, ids - {x}, n - 1);
      rest + {x}
  }

  // ----- retry delay -----

  function Pow2(n: nat): (r: nat)
    ensures r >= 1
  {
    if n == 0 then 1 else 2 * Pow2(n - 1)
  }

  /** Two seconds, doubled with every attempt, up to a minute. */
  function Backoff(n: nat): int {
    if n <= 1 then 2_000 else if n == 2 then 4_000 else if n == 3 then 8_000
    else if n == 4 then 16_000 else if n == 5 then 32_000 else 60_000
  }

  lemma {:induction false} PowerGrows(n: nat)
    requires n >= 5
    ensures Pow2(n) >= 32
  {
    if n > 5 {
      PowerGrows(n - 1);
    } else {
      assert Pow2(5) == 32;
    }
  }

  /** Exponential backoff with a cap, plus jitter. */
  function RetryDelay(attempts: nat, jitter: nat): (r: nat)
    requires jitter < RETRY_JITTER_MS
    ensures r == Backoff(attempts) + jitter
    ensures RETRY_BASE_MS <= r < RETRY_MAX_MS + RETRY_JITTER_MS
  {
    var raw := RETRY_BASE_MS * Pow2(if attempts >= 1 then attempts - 1 else 0);
    assert Pow2(0) == 1 && Pow2(1) == 2 && Pow2(2) == 4 && Pow2(3) == 8 && Pow2(4) == 16;
    assert attempts >= 6 ==> Pow2(attempts - 1) >= 32 by { if attempts >= 6 { PowerGrows(attempts - 1); } }
    (if raw < RETRY_MAX_MS then raw else RETRY_MAX_MS) + jitter
  }
}
