/**
 The page tap's emit gate: at most 480 emits per window, no repeat of a key within ten
 seconds, and a cache of recent keys that is trimmed only when it has grown past 600.
 */
module EmitGate {
  import opened Wrappers
  import opened Sets

  const EMIT_DEDUPE_TTL_MS: nat := 10_000
  const EMIT_DEDUPE_MAX: nat := 600
  const MAX_EMITS_PER_MINUTE: nat := 480
  const WINDOW_MS: nat := 60_000

  /** One entry of the cache; a JavaScript `Map` keeps its entries in insertion order. */
  datatype Entry = Entry(key: string, at: int)

  datatype Gate = Gate(cache: seq<Entry>, windowStart: int, count: nat)

  function Find(c: seq<Entry>, key: string): (r: Option<nat>)
    ensures r.Some? ==> r.value < |c| && c[r.value].key == key
    ensures r.None? ==> forall i | 0 <= i < |c| :: c[i].key != key
  {
    if c == [] then None
    else if c[|c|-1].key == key then Some(|c| - 1)
    else Find(c[..|c|-1], key)
  }

  /** `Map.set`: in place for a known key, at the end for a new one. */
  function Store(c: seq<Entry>, key: string, now: int): seq<Entry> {
    var i := Find(c, key);
    if i.Some? then c[i.value := Entry(key, now)] else c + [Entry(key, now)]
  }

  predicate Stale(e: Entry, now: int) {
    now - e.at > EMIT_DEDUPE_TTL_MS
  }

  /** The trimming loop from position `i`: drop stale entries until the cache is small enough. */
  function Trim(c: seq<Entry>, i: nat, now: int): seq<Entry>
    requires i <= |c|
    decreases |c| - i
  {
    if i == |c| then c else
      var stale := Stale(c[i], now);
      var d := if stale then c[..i] + c[i+1..] else c;
      if |d| <= EMIT_DEDUPE_MAX then d else Trim(d, if stale then i else i + 1, now)
  }

  function Rolled(g: Gate, now: int): Gate {
    if now - g.windowStart >= WINDOW_MS then g.(windowStart := now, count := 0) else g
  }

  /** `canEmit`: the gate after the call, and whether the emit may go out. */
  function CanEmit(g: Gate, key: string, now: int): (Gate, bool) {
    var w := Rolled(g, now);
    if w.count >= MAX_EMITS_PER_MINUTE then (w, false)
    else
      var seen := Find(w.cache, key);
      if seen.Some? && now - w.cache[seen.value].at < EMIT_DEDUPE_TTL_MS then (w, false)
      else
        var c := Store(w.cache, key, now);
        (Gate(if |c| > EMIT_DEDUPE_MAX then Trim(c, 0, now) else c, w.windowStart, w.count + 1), true)
  }

  /** The module state of the page tap and its one operation. */
  class Tap {
    var cache: seq<Entry>
    var windowStart: int
    var count: nat

    constructor (now: int)
      ensures Gate(cache, windowStart, count) == Gate([], now, 0)
    {
      cache, windowStart, count := [], now, 0;
    }

    method TryEmit(key: string, now: int) returns (ok: bool)
      modifies this
      ensures (Gate(cache, windowStart, count), ok) == CanEmit(old(Gate(cache, windowStart, count)), key, now)
    {
      if now - windowStart >= WINDOW_MS {
        windowStart := now;
        count := 0;
      }
      if count >= MAX_EMITS_PER_MINUTE { return false; }
      var seen := Find(cache, key);
      if seen.Some? && now - cache[seen.value].at < EMIT_DEDUPE_TTL_MS { return false; }
      cache := Store(cache, key, now);
      count := count + 1;
      if |cache| > EMIT_DEDUPE_MAX {
        var i := 0;
        ghost var full, w, n := cache, windowStart, count;
        while i < |cache|
          invariant i <= |cache|
          invariant windowStart == w && count == n
          invariant Trim(full, 0, now) == Trim(cache, i, now)
          decreases |cache| - i
        {
          var stale := Stale(cache[i], now);
          if stale { cache := cache[..i] + cache[i+1..]; }
          if |cache| <= EMIT_DEDUPE_MAX { return true; }
          if !stale { i := i + 1; }
        }
      }
      return true;
    }
  }

  // ----- runs -----

  /** An emit that went out, with the start of the window it was counted in. */
  datatype Emit = Emit(key: string, at: int, window: int)

  datatype Call = Call(key: string, at: int)

  datatype Run = Run(gate: Gate, now: int, emits: seq<Emit>)

  function Step(r: Run, c: Call): Run {
    var (g, ok) := CanEmit(r.gate, c.key, c.at);
    Run(g, c.at, if ok then r.emits + [Emit(c.key, c.at, g.windowStart)] else r.emits)
  }

  /** A page loaded at `start` and then asking once per call. */
  function Play(start: int, calls: seq<Call>): Run {
    if calls == [] then Run(Gate([], start, 0), start, []) else Step(Play(start, calls[..|calls|-1]), calls[|calls|-1])
  }

  /** The clock does not run backwards. */
  predicate Timed(start: int, calls: seq<Call>) {
    && (forall i | 0 <= i < |calls| :: start <= calls[i].at)
    && (forall i, j | 0 <= i < j < |calls| :: calls[i].at <= calls[j].at)
  }

  // ----- rate -----

  predicate InWindow(e: Emit, now: int) {
    e.window <= e.at < e.window + WINDOW_MS && e.at <= now
  }

  /** Windows start a minute apart, and the last `count` emits are those of the current window. */
  predicate Rate(r: Run) {
    && r.gate.windowStart <= r.now && r.gate.count <= |r.emits| && r.gate.count <= MAX_EMITS_PER_MINUTE
    && (forall i | 0 <= i < |r.emits| :: InWindow(r.emits[i], r.now))
    && (forall i, j | 0 <= i < j < |r.emits| :: r.emits[i].at <= r.emits[j].at)
    && (forall i | |r.emits| - r.gate.count <= i < |r.emits| :: r.emits[i].window == r.gate.windowStart)
    && (forall i | 0 <= i < |r.emits| - r.gate.count :: r.emits[i].window + WINDOW_MS <= r.gate.windowStart)
    && (forall i, j | 0 <= i && i + MAX_EMITS_PER_MINUTE <= j < |r.emits| :: r.emits[i].window + WINDOW_MS <= r.emits[j].window)
  }

  lemma RollKeepsRate(r: Run, now: int)
    requires Rate(r) && r.now <= now
    ensures Rate(Run(Rolled(r.gate, now), now, r.emits)) && now < Rolled(r.gate, now).windowStart + WINDOW_MS
  {
    var w := Rolled(r.gate, now);
    forall i | 0 <= i < |r.emits| - w.count ensures r.emits[i].window + WINDOW_MS <= w.windowStart {
      if i < |r.emits| - r.gate.count {
        assert r.emits[i].window + WINDOW_MS <= r.gate.windowStart;
      } else {
        assert r.emits[i].window == r.gate.windowStart;
      }
    }
  }

  lemma AppendKeepsRate(r: Run, key: string, c: seq<Entry>)
    requires Rate(r) && r.gate.count < MAX_EMITS_PER_MINUTE && r.now < r.gate.windowStart + WINDOW_MS
    ensures Rate(Run(Gate(c, r.gate.windowStart, r.gate.count + 1), r.now, r.emits + [Emit(key, r.now, r.gate.windowStart)]))
  {
    var m := |r.emits|;
    forall i | 0 <= i && i + MAX_EMITS_PER_MINUTE <= m ensures r.emits[i].window + WINDOW_MS <= r.gate.windowStart {
      assert i < m - r.gate.count;
    }
  }

  lemma RateStep(r: Run, c: Call)
    requires Rate(r) && r.now <= c.at
    ensures Rate(Step(r, c))
  {
    RollKeepsRate(r, c.at);
    var w := Run(Rolled(r.gate, c.at), c.at, r.emits);
    if CanEmit(r.gate, c.key, c.at).1 {
      AppendKeepsRate(w, c.key, Step(r, c).gate.cache);
    }
  }

  /** Any 961 emits in a row take more than a minute. */
  lemma SpreadOut(r: Run, i: nat)
    requires Rate(r) && i + 2 * MAX_EMITS_PER_MINUTE < |r.emits|
    ensures r.emits[i + 2 * MAX_EMITS_PER_MINUTE].at - r.emits[i].at > WINDOW_MS
  {
    var j := i + MAX_EMITS_PER_MINUTE;
    var k := j + MAX_EMITS_PER_MINUTE;
    assert r.emits[i].window + WINDOW_MS <= r.emits[j].window;
    assert r.emits[j].window + WINDOW_MS <= r.emits[k].window;
    assert InWindow(r.emits[i], r.now) && InWindow(r.emits[k], r.now);
  }

  function Between(r: Run, a: int, b: int): set<int> {
    set i | 0 <= i < |r.emits| && a <= r.emits[i].at <= b
  }

  lemma AtMost960(r: Run, a: int)
    requires Rate(r)
    ensures |Between(r, a, a + WINDOW_MS)| <= 2 * MAX_EMITS_PER_MINUTE
  {
    var s := Between(r, a, a + WINDOW_MS);
    if s != {} {
      var lo := Min(s);
      forall i | i in s ensures lo <= i < lo + 2 * MAX_EMITS_PER_MINUTE {
        if i >= lo + 2 * MAX_EMITS_PER_MINUTE {
          SpreadOut(r, lo);
          assert false;
        }
      }
      IntervalSize(s, lo, 2 * MAX_EMITS_PER_MINUTE);
    }
  }

  // ----- spacing -----

  predicate DistinctKeys(c: seq<Entry>) {
    forall i, j | 0 <= i < j < |c| :: c[i].key != c[j].key
  }

  /** Every entry is a remembered emit. */
  predicate Sourced(c: seq<Entry>, emits: seq<Emit>) {
    forall i | 0 <= i < |c| :: exists k :: 0 <= k < |emits| && emits[k].key == c[i].key && emits[k].at == c[i].at
  }

  /** An emit is remembered by an entry at least as late, or is older than the dedupe span. */
  predicate Remembered(c: seq<Entry>, e: Emit, now: int) {
    now - e.at > EMIT_DEDUPE_TTL_MS || exists i :: 0 <= i < |c| && c[i].key == e.key && c[i].at >= e.at
  }

  predicate Spaced(emits: seq<Emit>) {
    forall i, j | 0 <= i < j < |emits| && emits[i].key == emits[j].key :: emits[j].at - emits[i].at >= EMIT_DEDUPE_TTL_MS
  }

  predicate Dedupe(r: Run) {
    && DistinctKeys(r.gate.cache) && Sourced(r.gate.cache, r.emits) && Spaced(r.emits)
    && (forall k | 0 <= k < |r.emits| :: Remembered(r.gate.cache, r.emits[k], r.now))
  }

  lemma DropOne(c: seq<Entry>, i: nat)
    requires i < |c| && DistinctKeys(c)
    ensures var d := c[..i] + c[i+1..];
      DistinctKeys(d) && (forall e | e in d :: e in c) && (forall e | e in c && e != c[i] :: e in d)
  {
    var d := c[..i] + c[i+1..];
    forall e | e in c && e != c[i] ensures e in d {
      var j :| 0 <= j < |c| && c[j] == e;
      assert if j < i then d[j] == e else d[j - 1] == e;
    }
  }

  /** Trimming drops stale entries only, and stops either small or with nothing stale left. */
  lemma {:induction false} TrimKeeps(c: seq<Entry>, i: nat, now: int)
    requires i <= |c| && DistinctKeys(c) && forall j | 0 <= j < i :: !Stale(c[j], now)
    ensures var d := Trim(c, i, now);
      && DistinctKeys(d) && (forall e | e in d :: e in c) && (forall e | e in c && !Stale(e, now) :: e in d)
      && (|d| <= EMIT_DEDUPE_MAX || forall e | e in d :: !Stale(e, now))
    decreases |c| - i
  {
    if i < |c| {
      if Stale(c[i], now) {
        DropOne(c, i);
        var d := c[..i] + c[i+1..];
        if |d| > EMIT_DEDUPE_MAX {
          assert forall j | 0 <= j < i :: d[j] == c[j];
          TrimKeeps(d, i, now);
        }
      } else if |c| > EMIT_DEDUPE_MAX {
        TrimKeeps(c, i + 1, now);
      }
    }
  }

  lemma StoreKeeps(c: seq<Entry>, key: string, now: int)
    requires DistinctKeys(c)
    ensures var d := Store(c, key, now);
      && DistinctKeys(d) && Entry(key, now) in d
      && (forall e | e in d :: e == Entry(key, now) || e in c)
      && (forall e | e in c && e.key != key :: e in d)
  {
    var i := Find(c, key);
    var d := Store(c, key, now);
    assert d[if i.Some? then i.value else |c|] == Entry(key, now);
    forall e | e in c && e.key != key ensures e in d {
      var j :| 0 <= j < |c| && c[j] == e;
      assert d[j] == e;
    }
  }

  /** Accepting a call stores its key and forgets only what is stale. */
  lemma AcceptCache(g: Gate, key: string, now: int)
    requires DistinctKeys(g.cache) && CanEmit(g, key, now).1
    ensures var c := CanEmit(g, key, now).0.cache;
      && DistinctKeys(c) && Entry(key, now) in c
      && (forall e | e in c :: e == Entry(key, now) || e in g.cache)
      && (forall e | e in g.cache && e.key != key && !Stale(e, now) :: e in c)
      && (|c| <= EMIT_DEDUPE_MAX || forall e | e in c :: !Stale(e, now))
      && (forall e | e in g.cache && e.key == key :: now - e.at >= EMIT_DEDUPE_TTL_MS)
  {
    var w := Rolled(g, now);
    var c := Store(w.cache, key, now);
    StoreKeeps(w.cache, key, now);
    if |c| > EMIT_DEDUPE_MAX { TrimKeeps(c, 0, now); }
    var seen := Find(w.cache, key);
    forall e | e in g.cache && e.key == key ensures now - e.at >= EMIT_DEDUPE_TTL_MS {
      var j :| 0 <= j < |g.cache| && g.cache[j] == e;
      assert seen.Some? && seen.value == j;
    }
  }

  lemma RememberedStep(r: Run, c: Call, k: nat)
    requires Dedupe(r) && r.now <= c.at && CanEmit(r.gate, c.key, c.at).1 && k < |r.emits|
    ensures Remembered(Step(r, c).gate.cache, r.emits[k], c.at)
    ensures r.emits[k].key == c.key ==> c.at - r.emits[k].at >= EMIT_DEDUPE_TTL_MS
  {
    var e := r.emits[k];
    var d := Step(r, c).gate.cache;
    AcceptCache(r.gate, c.key, c.at);
    assert Remembered(r.gate.cache, e, r.now);
    if r.now - e.at <= EMIT_DEDUPE_TTL_MS {
      var i :| 0 <= i < |r.gate.cache| && r.gate.cache[i].key == e.key && r.gate.cache[i].at >= e.at;
      var x := r.gate.cache[i];
      assert x in r.gate.cache;
      if e.key == c.key {
        var j :| 0 <= j < |d| && d[j] == Entry(c.key, c.at);
        assert d[j].at >= e.at;
      } else if !Stale(x, c.at) {
        var j :| 0 <= j < |d| && d[j] == x;
      }
    }
  }

  lemma SourcedStep(r: Run, c: Call)
    requires Dedupe(r) && CanEmit(r.gate, c.key, c.at).1
    ensures Sourced(Step(r, c).gate.cache, Step(r, c).emits)
  {
    var n := Step(r, c);
    AcceptCache(r.gate, c.key, c.at);
    forall i | 0 <= i < |n.gate.cache|
      ensures exists k :: 0 <= k < |n.emits| && n.emits[k].key == n.gate.cache[i].key && n.emits[k].at == n.gate.cache[i].at
    {
      var e := n.gate.cache[i];
      assert e in n.gate.cache;
      if e == Entry(c.key, c.at) {
        assert n.emits[|r.emits|].key == e.key && n.emits[|r.emits|].at == e.at;
      } else {
        var j :| 0 <= j < |r.gate.cache| && r.gate.cache[j] == e;
        var k :| 0 <= k < |r.emits| && r.emits[k].key == r.gate.cache[j].key && r.emits[k].at == r.gate.cache[j].at;
        assert n.emits[k] == r.emits[k];
      }
    }
  }

  lemma DedupeStep(r: Run, c: Call)
    requires Dedupe(r) && r.now <= c.at
    ensures Dedupe(Step(r, c))
  {
    var n := Step(r, c);
    if CanEmit(r.gate, c.key, c.at).1 {
      AcceptCache(r.gate, c.key, c.at);
      SourcedStep(r, c);
      forall k | 0 <= k < |n.emits| ensures Remembered(n.gate.cache, n.emits[k], n.now) {
        if k < |r.emits| {
          RememberedStep(r, c, k);
        } else {
          var j :| 0 <= j < |n.gate.cache| && n.gate.cache[j] == Entry(c.key, c.at);
        }
      }
      forall i, j | 0 <= i < j < |n.emits| && n.emits[i].key == n.emits[j].key
        ensures n.emits[j].at - n.emits[i].at >= EMIT_DEDUPE_TTL_MS
      {
        if j == |r.emits| { RememberedStep(r, c, i); }
      }
    } else {
      forall k | 0 <= k < |n.emits| ensures Remembered(n.gate.cache, n.emits[k], n.now) {
        assert Remembered(r.gate.cache, r.emits[k], r.now);
      }
    }
  }

  // ----- size of the cache -----

  lemma {:induction false} KeysSize(c: seq<Entry>)
    requires DistinctKeys(c)
    ensures |set e | e in c :: e.key| == |c|
  {
    if c != [] {
      var n := |c| - 1;
      KeysSize(c[..n]);
      var rest := set e | e in c[..n] :: e.key;
      assert c[n].key !in rest;
      assert (set e | e in c :: e.key) == rest + {c[n].key} by {
        assert c == c[..n] + [c[n]];
      }
    } else {
      assert (set e | e in c :: e.key) == {};
    }
  }

  lemma FreshWasEmitted(r: Run, e: Entry) returns (k: nat)
    requires Rate(r) && Dedupe(r) && e in r.gate.cache && !Stale(e, r.now)
    ensures k < |r.emits| && r.emits[k].key == e.key && InWindow(r.emits[k], r.now)
    ensures k in Between(r, r.now - EMIT_DEDUPE_TTL_MS, r.now - EMIT_DEDUPE_TTL_MS + WINDOW_MS)
  {
    var c := r.gate.cache;
    var i :| 0 <= i < |c| && c[i] == e;
    k :| 0 <= k < |r.emits| && r.emits[k].key == c[i].key && r.emits[k].at == c[i].at;
    assert InWindow(r.emits[k], r.now);
  }

  /** A cache of fresh entries is no larger than the number of recent emits. */
  lemma FreshIsSmall(r: Run)
    requires Rate(r) && Dedupe(r) && forall e | e in r.gate.cache :: !Stale(e, r.now)
    ensures |r.gate.cache| <= 2 * MAX_EMITS_PER_MINUTE
  {
    var c := r.gate.cache;
    var s := Between(r, r.now - EMIT_DEDUPE_TTL_MS, r.now - EMIT_DEDUPE_TTL_MS + WINDOW_MS);
    AtMost960(r, r.now - EMIT_DEDUPE_TTL_MS);
    KeysSize(c);
    var keys := set e | e in c :: e.key;
    var f := (i: int) => if 0 <= i < |r.emits| then r.emits[i].key else "";
    forall y | y in keys ensures exists x :: x in s && f(x) == y {
      var e :| e in c && e.key == y;
      var k := FreshWasEmitted(r, e);
      assert k in s && f(k) == y;
    }
    ImageSize(s, keys, f);
  }

  predicate Inv(r: Run) {
    Rate(r) && Dedupe(r) && |r.gate.cache| <= 2 * MAX_EMITS_PER_MINUTE
  }

  lemma InvStep(r: Run, c: Call)
    requires Inv(r) && r.now <= c.at
    ensures Inv(Step(r, c))
  {
    RateStep(r, c);
    DedupeStep(r, c);
    if CanEmit(r.gate, c.key, c.at).1 {
      AcceptCache(r.gate, c.key, c.at);
      if |Step(r, c).gate.cache| > EMIT_DEDUPE_MAX { FreshIsSmall(Step(r, c)); }
    }
  }

  lemma {:induction false} PlayKeeps(start: int, calls: seq<Call>)
    requires Timed(start, calls)
    ensures Inv(Play(start, calls)) && Play(start, calls).now == if calls == [] then start else calls[|calls|-1].at
  {
    if calls != [] {
      var n := |calls| - 1;
      PlayKeeps(start, calls[..n]);
      InvStep(Play(start, calls[..|calls|-1]), calls[|calls|-1]);
    }
  }

  // ----- the theorems -----

  /** After any call of any run the cache holds at most 960 entries. */
  lemma CacheBound(start: int, calls: seq<Call>)
    requires Timed(start, calls)
    ensures |Play(start, calls).gate.cache| <= 960
  {
    PlayKeeps(start, calls);
  }

  /** Two emits of the same key are at least ten seconds apart, whatever was trimmed in between. */
  lemma RepeatsAreSpaced(start: int, calls: seq<Call>, i: nat, j: nat)
    requires Timed(start, calls)
    requires var e := Play(start, calls).emits; i < j < |e| && e[i].key == e[j].key
    ensures var e := Play(start, calls).emits; e[j].at - e[i].at >= EMIT_DEDUPE_TTL_MS
  {
    PlayKeeps(start, calls);
  }

  /** No minute, wherever it starts, sees more than 960 emits. */
  lemma MinuteBound(start: int, calls: seq<Call>, a: int)
    requires Timed(start, calls)
    ensures var r := Play(start, calls);
      |set i | 0 <= i < |r.emits| && a <= r.emits[i].at < a + WINDOW_MS| <= 960
  {
    var r := Play(start, calls);
    PlayKeeps(start, calls);
    AtMost960(r, a);
    SubsetSize((set i | 0 <= i < |r.emits| && a <= r.emits[i].at < a + WINDOW_MS), Between(r, a, a + WINDOW_MS));
  }

  // ----- exactly which calls are accepted -----

  /** The window that a call at `now` falls into, when the last one began at `w`. */
  function Window(w: int, now: int): int {
    if now - w >= 60_000 then now else w
  }

  /** Where the last window began, told from the times of the calls alone. */
  function WindowStart(start: int, calls: seq<Call>): int {
    if calls == [] then start else Window(WindowStart(start, calls[..|calls|-1]), calls[|calls|-1].at)
  }

  /** How many of the emits went out at `from` or later. */
  function CountSince(emits: seq<Call>, from: int): nat {
    if emits == [] then 0 else CountSince(emits[..|emits|-1], from) + if emits[|emits|-1].at >= from then 1 else 0
  }

  /** No emit of the key in the last ten seconds, and fewer than 480 emits in the window. */
  predicate Allowed(emits: seq<Call>, window: int, c: Call) {
    && (forall i | 0 <= i < |emits| && emits[i].key == c.key :: c.at - emits[i].at >= 10_000)
    && CountSince(emits, window) < 480
  }

  /** The gate without a cache: the whole history is looked through. */
  function Emitted(start: int, calls: seq<Call>): seq<Call> {
    if calls == [] then [] else
      var before, c := calls[..|calls|-1], calls[|calls|-1];
      var emits := Emitted(start, before);
      emits + if Allowed(emits, Window(WindowStart(start, before), c.at), c) then [c] else []
  }

  function Calls(emits: seq<Emit>): (r: seq<Call>)
    ensures |r| == |emits|
  {
    seq(|emits|, i requires 0 <= i < |emits| => Call(emits[i].key, emits[i].at))
  }

  lemma {:induction false} WindowIs(start: int, calls: seq<Call>)
    ensures Play(start, calls).gate.windowStart == WindowStart(start, calls)
  {
    if calls != [] { WindowIs(start, calls[..|calls|-1]); }
  }

  lemma {:induction false} CountFrom(emits: seq<Call>, from: int, m: nat)
    requires m <= |emits| && forall i | 0 <= i < |emits| :: emits[i].at >= from <==> i >= m
    ensures CountSince(emits, from) == |emits| - m
  {
    if emits != [] {
      var n := |emits| - 1;
      assert forall i | 0 <= i < n :: emits[..n][i] == emits[i];
      CountFrom(emits[..n], from, if m <= n then m else n);
    }
  }

  /** The counter is the number of emits of the window. */
  lemma CountIs(r: Run)
    requires Rate(r)
    ensures CountSince(Calls(r.emits), r.gate.windowStart) == r.gate.count
  {
    var m := |r.emits| - r.gate.count;
    forall i | 0 <= i < |r.emits| ensures Calls(r.emits)[i].at >= r.gate.windowStart <==> i >= m {
      assert InWindow(r.emits[i], r.now);
      if i < m { assert r.emits[i].window + WINDOW_MS <= r.gate.windowStart; } else { assert r.emits[i].window == r.gate.windowStart; }
    }
    CountFrom(Calls(r.emits), r.gate.windowStart, m);
  }

  lemma FindOnly(c: seq<Entry>, key: string, i: nat)
    requires DistinctKeys(c) && i < |c| && c[i].key == key
    ensures Find(c, key) == Some(i)
  {
  }

  /** The cache refuses the key. */
  predicate Cached(c: seq<Entry>, key: string, now: int) {
    var seen := Find(c, key);
    seen.Some? && now - c[seen.value].at < EMIT_DEDUPE_TTL_MS
  }

  lemma CachedWasEmitted(r: Run, c: Call)
    requires Dedupe(r) && Cached(r.gate.cache, c.key, c.at)
    ensures Repeats(r.emits, c)
  {
    var i := Find(r.gate.cache, c.key).value;
    var k :| 0 <= k < |r.emits| && r.emits[k].key == r.gate.cache[i].key && r.emits[k].at == r.gate.cache[i].at;
  }

  lemma EmittedIsCached(r: Run, c: Call, k: nat)
    requires Dedupe(r) && r.now <= c.at && k < |r.emits| && r.emits[k].key == c.key && c.at - r.emits[k].at < 10_000
    ensures Cached(r.gate.cache, c.key, c.at)
  {
    assert Remembered(r.gate.cache, r.emits[k], r.now);
    var i :| 0 <= i < |r.gate.cache| && r.gate.cache[i].key == r.emits[k].key && r.gate.cache[i].at >= r.emits[k].at;
    FindOnly(r.gate.cache, c.key, i);
  }

  /** The cache refuses a key exactly when an emit of it went out in the last ten seconds. */
  lemma CacheTells(r: Run, c: Call)
    requires Dedupe(r) && r.now <= c.at
    ensures Cached(r.gate.cache, c.key, c.at) <==> Repeats(r.emits, c)
  {
    if Cached(r.gate.cache, c.key, c.at) { CachedWasEmitted(r, c); }
    if Repeats(r.emits, c) {
      var k :| 0 <= k < |r.emits| && r.emits[k].key == c.key && c.at - r.emits[k].at < 10_000;
      EmittedIsCached(r, c, k);
    }
  }

  lemma RunIsGood(start: int, calls: seq<Call>, c: Call)
    requires Timed(start, calls + [c])
    ensures var r := Play(start, calls); Timed(start, calls) && Rate(r) && Dedupe(r) && r.now <= c.at
  {
    var all := calls + [c];
    assert forall i | 0 <= i < |calls| :: all[i] == calls[i];
    assert all[|calls|] == c;
    PlayKeeps(start, calls);
  }

  /**
   Over every run, a call is accepted exactly when no emit of its key went out less than ten
   seconds before and fewer than 480 emits went out since its window began.
   */
  lemma AcceptedExactly(start: int, calls: seq<Call>, c: Call)
    requires Timed(start, calls + [c])
    ensures var r := Play(start, calls);
      CanEmit(r.gate, c.key, c.at).1 <==> Allowed(Calls(r.emits), Window(WindowStart(start, calls), c.at), c)
  {
    RunIsGood(start, calls, c);
    WindowIs(start, calls);
    GateDecides(Play(start, calls), c);
  }

  /** An emit of the key of `c` in the ten seconds before it. */
  predicate Repeats(emits: seq<Emit>, c: Call) {
    exists k :: 0 <= k < |emits| && emits[k].key == c.key && c.at - emits[k].at < 10_000
  }

  lemma RepeatsInCalls(emits: seq<Emit>, c: Call)
    ensures Repeats(emits, c) <==> !(forall i | 0 <= i < |emits| && Calls(emits)[i].key == c.key :: c.at - Calls(emits)[i].at >= 10_000)
  {
    if k :| 0 <= k < |emits| && emits[k].key == c.key && c.at - emits[k].at < 10_000 {
      assert Calls(emits)[k] == Call(emits[k].key, emits[k].at);
    }
  }

  lemma GateDecides(r: Run, c: Call)
    requires Rate(r) && Dedupe(r) && r.now <= c.at
    ensures CanEmit(r.gate, c.key, c.at).1 <==> Allowed(Calls(r.emits), Window(r.gate.windowStart, c.at), c)
  {
    var w := Rolled(r.gate, c.at);
    RollKeepsRate(r, c.at);
    CountIs(Run(w, c.at, r.emits));
    CacheTells(r, c);
    RepeatsInCalls(r.emits, c);
    assert w.windowStart == Window(r.gate.windowStart, c.at) && w.cache == r.gate.cache;
  }

  lemma StepEmits(r: Run, c: Call)
    ensures Calls(Step(r, c).emits) == Calls(r.emits) + if CanEmit(r.gate, c.key, c.at).1 then [c] else []
  {
    if CanEmit(r.gate, c.key, c.at).1 {
      assert Step(r, c).emits == r.emits + [Emit(c.key, c.at, CanEmit(r.gate, c.key, c.at).0.windowStart)];
    } else {
      assert Step(r, c).emits == r.emits;
    }
  }

  lemma ReferenceStep(start: int, before: seq<Call>, c: Call)
    ensures var emits := Emitted(start, before);
      Emitted(start, before + [c]) == emits + if Allowed(emits, Window(WindowStart(start, before), c.at), c) then [c] else []
    ensures Play(start, before + [c]) == Step(Play(start, before), c)
  {
    assert (before + [c])[..|before|] == before;
  }

  /** The gate with its bounded cache emits what the gate without a cache emits. */
  lemma {:induction false} GateIsReference(start: int, calls: seq<Call>)
    requires Timed(start, calls)
    ensures Calls(Play(start, calls).emits) == Emitted(start, calls)
  {
    if calls != [] {
      var before, c := calls[..|calls|-1], calls[|calls|-1];
      assert calls == before + [c];
      RunIsGood(start, before, c);
      GateIsReference(start, before);
      AcceptedExactly(start, before, c);
      ReferenceStep(start, before, c);
      StepEmits(Play(start, before), c);
    }
  }
}
