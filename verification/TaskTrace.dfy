/** The reconstruction of one task's log trail from the ring. */
module TaskTrace {
  import opened Wrappers
  import opened LogBuffer

  datatype Phase = Phase(name: string, entries: nat, firstMs: nat, lastMs: nat)

  datatype Trace = Trace(
    entries: seq<Record>, errorPath: Option<Record>, errors: seq<Record>,
    phases: seq<Phase>, threads: seq<string>, firstMs: nat, lastMs: nat)

  // ----- which records belong to a task -----

  function ContextValue(context: seq<Pair>, key: string): (r: Option<string>)
    ensures r.None? <==> forall p | p in context :: p.key != key
  {
    if context == [] then None
    else if context[0].key == key then Some(context[0].value)
    else ContextValue(context[1..], key)
  }

  predicate StartsWith(s: string, prefix: string) {
    |prefix| <= |s| && s[..|prefix|] == prefix
  }

  predicate Contains(s: string, part: string) {
    exists i :: 0 <= i <= |s| && StartsWith(s[i..], part)
  }

  predicate IsForTask(e: Record, task: string) {
    || ContextValue(e.context, "task") == Some(task)
    || StartsWith(e.message, "Task " + task + ":")
    || Contains(e.message, "(task: " + task + ")")
  }

  predicate IsErrorPath(e: Record) {
    StartsWith(e.message, "[ERROR-PATH]")
  }

  predicate IsPlainError(e: Record) {
    e.level == "ERROR" && !IsErrorPath(e)
  }

  function PhaseOf(e: Record): string {
    var p := ContextValue(e.context, "phase");
    if p.Some? then p.value else "unknown"
  }

  function Matching(entries: seq<Record>, p: Record -> bool): seq<Record> {
    if entries == [] then [] else (if p(entries[0]) then [entries[0]] else []) + Matching(entries[1..], p)
  }

  function ForTask(task: string): Record -> bool {
    (e: Record) => IsForTask(e, task)
  }

  // ----- keys in the order of their first appearance -----

  function FirstAt(keys: seq<string>, key: string): (r: nat)
    requires key in keys
    ensures r < |keys| && keys[r] == key && forall j | 0 <= j < r :: keys[j] != key
  {
    if keys[0] == key then 0 else 1 + FirstAt(keys[1..], key)
  }

  function LastAt(keys: seq<string>, key: string): (r: nat)
    requires key in keys
    ensures r < |keys| && keys[r] == key && forall j | r < j < |keys| :: keys[j] != key
  {
    if keys[|keys| - 1] == key then |keys| - 1 else LastAt(keys[..|keys| - 1], key)
  }

  lemma FirstIs(keys: seq<string>, key: string, r: nat)
    requires r < |keys| && keys[r] == key && forall j | 0 <= j < r :: keys[j] != key
    ensures FirstAt(keys, key) == r
  {
  }

  lemma FirstAtKept(keys: seq<string>, key: string, last: string)
    requires key in keys
    ensures FirstAt(keys + [last], key) == FirstAt(keys, key)
  {
    FirstIs(keys + [last], key, FirstAt(keys, key));
  }

  lemma FirstAtNew(keys: seq<string>, last: string)
    requires last !in keys
    ensures FirstAt(keys + [last], last) == |keys|
  {
    FirstIs(keys + [last], last, |keys|);
  }

  /** The keys without repetition, each where it first appeared. */
  ghost predicate FirstAppearances(distinct: seq<string>, keys: seq<string>) {
    && (forall k :: k in distinct <==> k in keys)
    && (forall i, j | 0 <= i < j < |distinct| ::
         distinct[i] in keys && distinct[j] in keys && FirstAt(keys, distinct[i]) < FirstAt(keys, distinct[j]))
  }

  lemma AppearancesKept(distinct: seq<string>, keys: seq<string>, last: string)
    requires FirstAppearances(distinct, keys) && last in distinct
    ensures FirstAppearances(distinct, keys + [last])
  {
    forall i, j | 0 <= i < j < |distinct|
      ensures FirstAt(keys + [last], distinct[i]) < FirstAt(keys + [last], distinct[j])
    {
      FirstAtKept(keys, distinct[i], last);
      FirstAtKept(keys, distinct[j], last);
    }
  }

  lemma AppearancesGrow(distinct: seq<string>, keys: seq<string>, last: string)
    requires FirstAppearances(distinct, keys) && last !in distinct
    ensures FirstAppearances(distinct + [last], keys + [last])
  {
    var more := distinct + [last];
    forall i, j | 0 <= i < j < |more|
      ensures more[i] in keys + [last] && more[j] in keys + [last] && FirstAt(keys + [last], more[i]) < FirstAt(keys + [last], more[j])
    {
      assert more[i] == distinct[i] && distinct[i] in keys;
      FirstAtKept(keys, more[i], last);
      if j < |distinct| {
        assert more[j] == distinct[j] && distinct[j] in keys;
        FirstAtKept(keys, more[j], last);
      } else {
        FirstAtNew(keys, last);
      }
    }
  }

  function Threads(entries: seq<Record>): (r: seq<string>)
    ensures |r| == |entries|
  {
    seq(|entries|, i requires 0 <= i < |entries| => entries[i].thread)
  }

  function PhaseNames(entries: seq<Record>): (r: seq<string>)
    ensures |r| == |entries|
  {
    seq(|entries|, i requires 0 <= i < |entries| => PhaseOf(entries[i]))
  }

  method DistinctThreads(entries: seq<Record>) returns (threads: seq<string>)
    ensures FirstAppearances(threads, Threads(entries))
  {
    threads := [];
    var k := 0;
    while k < |entries|
      invariant k <= |entries|
      invariant FirstAppearances(threads, Threads(entries[..k]))
    {
      assert Threads(entries[..k + 1]) == Threads(entries[..k]) + [entries[k].thread];
      if entries[k].thread !in threads {
        AppearancesGrow(threads, Threads(entries[..k]), entries[k].thread);
        threads := threads + [entries[k].thread];
      } else {
        AppearancesKept(threads, Threads(entries[..k]), entries[k].thread);
      }
      k := k + 1;
    }
    assert entries[..k] == entries;
  }

  // ----- phases -----

  function Names(phases: seq<Phase>): (r: seq<string>)
    ensures |r| == |phases|
  {
    seq(|phases|, i requires 0 <= i < |phases| => phases[i].name)
  }

  function Total(phases: seq<Phase>): nat {
    if phases == [] then 0 else Total(phases[..|phases| - 1]) + phases[|phases| - 1].entries
  }

  /** A phase counts its records and spans the first to the last of them. */
  ghost predicate Describes(m: Phase, seen: seq<Record>) {
    var keys := PhaseNames(seen);
    && m.name in keys
    && m.entries == multiset(keys)[m.name]
    && m.firstMs == seen[FirstAt(keys, m.name)].ms
    && m.lastMs == seen[LastAt(keys, m.name)].ms
  }

  ghost predicate PhasesOf(phases: seq<Phase>, seen: seq<Record>) {
    && FirstAppearances(Names(phases), PhaseNames(seen))
    && (forall i | 0 <= i < |phases| :: Describes(phases[i], seen))
    && Total(phases) == |seen|
  }

  lemma NamesAppend(seen: seq<Record>, e: Record)
    ensures PhaseNames(seen + [e]) == PhaseNames(seen) + [PhaseOf(e)]
  {
  }

  lemma LastAtOther(keys: seq<string>, key: string, last: string)
    requires key in keys && last != key
    ensures LastAt(keys + [last], key) == LastAt(keys, key)
  {
    assert (keys + [last])[..|keys|] == keys;
  }

  lemma DescribesOther(m: Phase, seen: seq<Record>, e: Record)
    requires Describes(m, seen) && PhaseOf(e) != m.name
    ensures Describes(m, seen + [e])
  {
    var keys := PhaseNames(seen);
    NamesAppend(seen, e);
    FirstAtKept(keys, m.name, PhaseOf(e));
    LastAtOther(keys, m.name, PhaseOf(e));
    assert multiset(keys + [PhaseOf(e)]) == multiset(keys) + multiset{PhaseOf(e)};
  }

  lemma DescribesAgain(m: Phase, seen: seq<Record>, e: Record)
    requires Describes(m, seen) && PhaseOf(e) == m.name
    ensures Describes(m.(entries := m.entries + 1, lastMs := e.ms), seen + [e])
  {
    var keys := PhaseNames(seen);
    NamesAppend(seen, e);
    FirstAtKept(keys, m.name, PhaseOf(e));
    assert multiset(keys + [PhaseOf(e)]) == multiset(keys) + multiset{PhaseOf(e)};
  }

  lemma DescribesNew(seen: seq<Record>, e: Record)
    requires PhaseOf(e) !in PhaseNames(seen)
    ensures Describes(Phase(PhaseOf(e), 1, e.ms, e.ms), seen + [e])
  {
    var keys := PhaseNames(seen);
    NamesAppend(seen, e);
    FirstAtNew(keys, PhaseOf(e));
    assert multiset(keys + [PhaseOf(e)]) == multiset(keys) + multiset{PhaseOf(e)};
  }

  lemma {:induction false} TotalUpdate(phases: seq<Phase>, i: nat, m: Phase)
    requires i < |phases|
    ensures Total(phases[i := m]) == Total(phases) - phases[i].entries + m.entries
  {
    var n := |phases| - 1;
    if i < n {
      TotalUpdate(phases[..n], i, m);
      assert phases[i := m][..n] == phases[..n][i := m];
    } else {
      assert phases[i := m][..n] == phases[..n];
    }
  }

  function Find(phases: seq<Phase>, name: string): (r: Option<nat>)
    ensures r.Some? ==> r.value < |phases| && phases[r.value].name == name
    ensures r.None? ==> name !in Names(phases)
  {
    if phases == [] then None
    else if phases[0].name == name then Some(0)
    else
      var r := Find(phases[1..], name);
      assert Names(phases) == [phases[0].name] + Names(phases[1..]);
      if r.Some? then Some(r.value + 1) else None
  }

  /** What the loop does with one record. */
  function Noted(phases: seq<Phase>, e: Record): seq<Phase> {
    var at := Find(phases, PhaseOf(e));
    if at.Some? then phases[at.value := phases[at.value].(entries := phases[at.value].entries + 1, lastMs := e.ms)]
    else phases + [Phase(PhaseOf(e), 1, e.ms, e.ms)]
  }

  lemma NotedNames(phases: seq<Phase>, seen: seq<Record>, e: Record)
    requires PhasesOf(phases, seen)
    ensures FirstAppearances(Names(Noted(phases, e)), PhaseNames(seen + [e]))
  {
    NamesAppend(seen, e);
    var at := Find(phases, PhaseOf(e));
    if at.Some? {
      assert Names(phases)[at.value] == PhaseOf(e);
      assert Names(Noted(phases, e)) == Names(phases);
      AppearancesKept(Names(phases), PhaseNames(seen), PhaseOf(e));
    } else {
      assert Names(Noted(phases, e)) == Names(phases) + [PhaseOf(e)];
      AppearancesGrow(Names(phases), PhaseNames(seen), PhaseOf(e));
    }
  }

  lemma NamesDiffer(phases: seq<Phase>, seen: seq<Record>, i: nat, j: nat)
    requires PhasesOf(phases, seen) && i < |phases| && j < |phases| && i != j
    ensures phases[i].name != phases[j].name
  {
    assert Names(phases)[i] == phases[i].name && Names(phases)[j] == phases[j].name;
  }

  lemma NotedDescribes(phases: seq<Phase>, seen: seq<Record>, e: Record, i: nat)
    requires PhasesOf(phases, seen) && i < |Noted(phases, e)|
    ensures Describes(Noted(phases, e)[i], seen + [e])
  {
    var at := Find(phases, PhaseOf(e));
    if at.Some? && i == at.value {
      DescribesAgain(phases[i], seen, e);
    } else if at.Some? {
      NamesDiffer(phases, seen, i, at.value);
      DescribesOther(phases[i], seen, e);
    } else if i < |phases| {
      assert Names(phases)[i] == phases[i].name;
      DescribesOther(phases[i], seen, e);
    } else {
      DescribesNew(seen, e);
    }
  }

  lemma NotedKeeps(phases: seq<Phase>, seen: seq<Record>, e: Record)
    requires PhasesOf(phases, seen)
    ensures PhasesOf(Noted(phases, e), seen + [e])
  {
    NotedNames(phases, seen, e);
    forall i | 0 <= i < |Noted(phases, e)| ensures Describes(Noted(phases, e)[i], seen + [e]) {
      NotedDescribes(phases, seen, e, i);
    }
    NotedTotal(phases, e);
  }

  lemma NotedTotal(phases: seq<Phase>, e: Record)
    ensures Total(Noted(phases, e)) == Total(phases) + 1
  {
    var at := Find(phases, PhaseOf(e));
    if at.Some? {
      TotalUpdate(phases, at.value, phases[at.value].(entries := phases[at.value].entries + 1, lastMs := e.ms));
    } else {
      assert (phases + [Phase(PhaseOf(e), 1, e.ms, e.ms)])[..|phases|] == phases;
    }
  }

  method Note(phases: seq<Phase>, e: Record) returns (r: seq<Phase>)
    ensures r == Noted(phases, e)
  {
    var at := Find(phases, PhaseOf(e));
    if at.Some? {
      var m := phases[at.value];
      r := phases[at.value := m.(entries := m.entries + 1, lastMs := e.ms)];
    } else {
      r := phases + [Phase(PhaseOf(e), 1, e.ms, e.ms)];
    }
  }

  function PhasesIn(seen: seq<Record>): seq<Phase> {
    if seen == [] then [] else Noted(PhasesIn(seen[..|seen| - 1]), seen[|seen| - 1])
  }

  lemma NoPhases()
    ensures PhasesOf([], [])
  {
  }

  /** The phases are distinct, in order of first appearance, and their counts add up to the trace. */
  lemma {:induction false} PhasesAreRight(seen: seq<Record>)
    ensures PhasesOf(PhasesIn(seen), seen)
  {
    if seen == [] {
      NoPhases();
    } else {
      var before, e := seen[..|seen| - 1], seen[|seen| - 1];
      assert seen == before + [e];
      PhasesAreRight(before);
      NotedKeeps(PhasesIn(before), before, e);
    }
  }

  method TracePhases(matched: seq<Record>) returns (phases: seq<Phase>)
    ensures phases == PhasesIn(matched)
  {
    phases := [];
    var k := 0;
    while k < |matched|
      invariant k <= |matched|
      invariant phases == PhasesIn(matched[..k])
    {
      phases := Note(phases, matched[k]);
      assert matched[..k + 1][..k] == matched[..k];
      k := k + 1;
    }
    assert matched[..k] == matched;
  }

  // ----- the trace -----

  /** The first record that satisfies `p`. */
  function FirstMatch(entries: seq<Record>, p: Record -> bool): Option<Record> {
    var all := Matching(entries, p);
    if all == [] then None else Some(all[0])
  }

  lemma MatchingStep(entries: seq<Record>, k: nat, p: Record -> bool, sofar: seq<Record>, all: seq<Record>)
    requires k < |entries| && sofar + Matching(entries[k..], p) == all
    ensures (if p(entries[k]) then sofar + [entries[k]] else sofar) + Matching(entries[k + 1..], p) == all
  {
    assert entries[k..][1..] == entries[k + 1..];
    var rest := Matching(entries[k + 1..], p);
    assert sofar + ([entries[k]] + rest) == (sofar + [entries[k]]) + rest;
    assert [] + rest == rest;
  }

  method FilterEntries(entries: seq<Record>, p: Record -> bool) returns (r: seq<Record>)
    ensures r == Matching(entries, p)
  {
    r := [];
    var k := 0;
    while k < |entries|
      invariant k <= |entries|
      invariant r + Matching(entries[k..], p) == Matching(entries, p)
    {
      MatchingStep(entries, k, p, r, Matching(entries, p));
      if p(entries[k]) {
        r := r + [entries[k]];
      }
      k := k + 1;
    }
  }

  method TaskTraceFrom(entries: seq<Record>, task: string, limit: nat) returns (t: Trace)
    ensures t.entries == Newest(Matching(entries, ForTask(task)), limit)
    ensures t.phases == PhasesIn(t.entries)
    ensures FirstAppearances(t.threads, Threads(t.entries))
    ensures t.errors == Matching(t.entries, IsPlainError)
    ensures t.errorPath == FirstMatch(t.entries, IsErrorPath)
    ensures t.firstMs == if t.entries == [] then 0 else t.entries[0].ms
    ensures t.lastMs == if t.entries == [] then 0 else t.entries[|t.entries| - 1].ms
  {
    var matched := FilterEntries(entries, ForTask(task));
    var start := if |matched| < limit then 0 else |matched| - limit;
    matched := matched[start..];
    var fingerprints := FilterEntries(matched, IsErrorPath);
    var errors := FilterEntries(matched, IsPlainError);
    var phases := TracePhases(matched);
    var threads := DistinctThreads(matched);
    t := Trace(matched, if fingerprints == [] then None else Some(fingerprints[0]), errors, phases, threads,
               if matched == [] then 0 else matched[0].ms,
               if matched == [] then 0 else matched[|matched| - 1].ms);
  }

  lemma {:induction false} MatchingMembers(entries: seq<Record>, p: Record -> bool)
    ensures forall e :: e in Matching(entries, p) <==> e in entries && p(e)
  {
    if entries != [] {
      MatchingMembers(entries[1..], p);
      assert entries == [entries[0]] + entries[1..];
    }
  }

  /** Every ERROR record of a trail is listed as an error or is a fingerprint, and no other record is. */
  lemma ErrorsAreSplit(entries: seq<Record>, e: Record)
    ensures e in Matching(entries, IsPlainError) <==> e in entries && e.level == "ERROR" && !StartsWith(e.message, "[ERROR-PATH]")
    ensures FirstMatch(entries, IsErrorPath).None? <==> forall x | x in entries :: !StartsWith(x.message, "[ERROR-PATH]")
  {
    MatchingMembers(entries, IsPlainError);
    MatchingMembers(entries, IsErrorPath);
    var all := Matching(entries, IsErrorPath);
    if all != [] { assert all[0] in all; }
  }

  /** Positions `at` of `entries`, in order, spell `part`. */
  predicate Spells(entries: seq<Record>, at: seq<nat>, part: seq<Record>) {
    && |at| == |part|
    && (forall k | 0 <= k < |at| :: at[k] < |entries| && entries[at[k]] == part[k])
    && (forall k, l | 0 <= k < l < |at| :: at[k] < at[l])
  }

  function Moved(at: seq<nat>): (r: seq<nat>)
    ensures |r| == |at| && forall k | 0 <= k < |at| :: r[k] == at[k] + 1
  {
    seq(|at|, k requires 0 <= k < |at| => at[k] + 1)
  }

  lemma MovedMembers(at: seq<nat>, i: nat)
    ensures i + 1 in Moved(at) <==> i in at
    ensures 0 !in Moved(at)
  {
    if i in at {
      var k :| 0 <= k < |at| && at[k] == i;
      assert Moved(at)[k] == i + 1;
    }
  }

  lemma MovedSpells(entries: seq<Record>, at: seq<nat>, part: seq<Record>)
    requires entries != [] && Spells(entries[1..], at, part)
    ensures Spells(entries, Moved(at), part)
    ensures Spells(entries, [0] + Moved(at), [entries[0]] + part)
  {
  }

  /** Filtering keeps every matching position, and only those. */
  lemma {:induction false} MatchingPositions(entries: seq<Record>, p: Record -> bool) returns (at: seq<nat>)
    ensures Spells(entries, at, Matching(entries, p))
    ensures forall i | 0 <= i < |entries| :: p(entries[i]) <==> i in at
  {
    at := [];
    if entries != [] {
      var rest := MatchingPositions(entries[1..], p);
      MovedSpells(entries, rest, Matching(entries[1..], p));
      at := (if p(entries[0]) then [0] else []) + Moved(rest);
      MovedMembers(rest, 0);
      forall i | 0 <= i < |entries| ensures p(entries[i]) <==> i in at {
        if i > 0 {
          assert entries[i] == entries[1..][i - 1];
          MovedMembers(rest, i - 1);
        }
      }
    }
  }

  /** The trace is the newest matching records: what it leaves out is older than all it holds. */
  lemma TraceIsNewest(entries: seq<Record>, task: string, limit: nat) returns (at: seq<nat>)
    ensures Spells(entries, at, Newest(Matching(entries, ForTask(task)), limit))
    ensures forall i | i in at :: IsForTask(entries[i], task)
    ensures forall i | 0 <= i < |entries| && IsForTask(entries[i], task) && i !in at :: |at| == limit && forall k | k in at :: i < k
  {
    var all := MatchingPositions(entries, ForTask(task));
    at := Newest(all, limit);
    NewestSpells(entries, all, Matching(entries, ForTask(task)), limit);
    NewestCut(all, limit);
    forall i | i in at ensures IsForTask(entries[i], task) {
      assert i in all && ForTask(task)(entries[i]);
    }
    forall i | 0 <= i < |entries| && IsForTask(entries[i], task) && i !in at
      ensures |at| == limit && forall k | k in at :: i < k
    {
      assert ForTask(task)(entries[i]);
      assert i in all;
    }
  }

  lemma NewestSpells(entries: seq<Record>, all: seq<nat>, part: seq<Record>, limit: nat)
    requires Spells(entries, all, part)
    ensures Spells(entries, Newest(all, limit), Newest(part, limit))
  {
    var at, last := Newest(all, limit), Newest(part, limit);
    var cut := |all| - |at|;
    forall k | 0 <= k < |at| ensures at[k] == all[cut + k] && last[k] == part[cut + k] {
    }
    forall k, l | 0 <= k < l < |at| ensures at[k] < at[l] {
      assert all[cut + k] < all[cut + l];
    }
  }

  /** What the cut leaves out is smaller than all it keeps. */
  lemma NewestCut(all: seq<nat>, limit: nat)
    requires forall k, l | 0 <= k < l < |all| :: all[k] < all[l]
    ensures forall i | i in Newest(all, limit) :: i in all
    ensures forall i | i in all && i !in Newest(all, limit) :: |Newest(all, limit)| == limit && forall k | k in Newest(all, limit) :: i < k
  {
    var at := Newest(all, limit);
    var cut := |all| - |at|;
    forall j | cut <= j < |all| ensures all[j] in at {
      assert all[j] == at[j - cut];
    }
    forall i, k | i in all && i !in at && k in at ensures i < k {
      var x :| 0 <= x < |all| && all[x] == i;
      var y :| 0 <= y < |at| && at[y] == k;
      assert at[y] == all[cut + y];
    }
  }
}
