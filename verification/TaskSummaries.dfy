/** The per-task summaries of the ring, most recently seen first. */
module TaskSummaries {
  import opened Wrappers
  import opened Sorting
  import opened LogBuffer
  import opened TaskTrace
  import Keys = CanonicalText

  datatype Summary = Summary(
    task: string, entries: nat, errors: nat, warnings: nat, lastSeenMs: nat, lastLevel: string,
    threads: seq<string>, context: seq<Pair>)

  // ----- which task a record is counted for -----

  /** Unicode white space, as `str::trim` sees it. */
  predicate Space(c: char) {
    var n := c as int;
    || 9 <= n <= 13 || n == 0x20 || n == 0x85 || n == 0xA0 || n == 0x1680 || 0x2000 <= n <= 0x200A
    || n == 0x2028 || n == 0x2029 || n == 0x202F || n == 0x205F || n == 0x3000
  }

  function Trim(s: string): (r: string)
    ensures r == "" || (!Space(r[0]) && !Space(r[|r| - 1]))
  {
    if s == "" then ""
    else if Space(s[0]) then Trim(s[1..])
    else if Space(s[|s| - 1]) then Trim(s[..|s| - 1])
    else s
  }

  /** `split(':').next()`. */
  function UpToColon(s: string): (r: string)
    ensures |r| <= |s| && s[..|r|] == r && ':' !in r
    ensures |r| < |s| ==> s[|r|] == ':'
  {
    if s == "" || s[0] == ':' then "" else [s[0]] + UpToColon(s[1..])
  }

  /** The name before trimming. */
  function Claimed(e: Record): Option<string> {
    var c := ContextValue(e.context, "task");
    if c.Some? then c
    else if StartsWith(e.message, "Task ") then Some(UpToColon(e.message[5..]))
    else None
  }

  function Attribution(e: Record): Option<string> {
    var c := Claimed(e);
    if c.Some? && Trim(c.value) != "" then Some(Trim(c.value)) else None
  }

  function CountedFor(task: string): Record -> bool {
    (e: Record) => Attribution(e) == Some(task)
  }

  function About(entries: seq<Record>, task: string): seq<Record> {
    Matching(entries, CountedFor(task))
  }

  // ----- one summary -----

  function New(task: string): Summary {
    Summary(task, 0, 0, 0, 0, "", [], [])
  }

  predicate Hidden(p: Pair) {
    p.key == "task" || p.key == "phase" || p.key == "segment"
  }

  /** Adds the pairs not there yet. */
  function WithContext(known: seq<Pair>, pairs: seq<Pair>): seq<Pair>
    decreases pairs
  {
    if pairs == [] then known
    else WithContext(if Hidden(pairs[0]) || pairs[0] in known then known else known + [pairs[0]], pairs[1..])
  }

  function Counted(s: Summary, e: Record): Summary {
    var newer := e.ms >= s.lastSeenMs;
    s.(entries := s.entries + 1,
       errors := s.errors + (if e.level == "ERROR" then 1 else 0),
       warnings := s.warnings + (if e.level == "WARN" then 1 else 0),
       lastSeenMs := if newer then e.ms else s.lastSeenMs,
       lastLevel := if newer then e.level else s.lastLevel,
       threads := if e.thread in s.threads then s.threads else s.threads + [e.thread],
       context := WithContext(s.context, e.context))
  }

  function Summarise(task: string, es: seq<Record>): (s: Summary)
    ensures s.task == task && s.entries == |es|
  {
    if es == [] then New(task) else Counted(Summarise(task, es[..|es| - 1]), es[|es| - 1])
  }

  function HasLevel(level: string): Record -> bool {
    (e: Record) => e.level == level
  }

  function AtLevel(es: seq<Record>, level: string): seq<Record> {
    Matching(es, HasLevel(level))
  }

  predicate LatestAt(s: Summary, es: seq<Record>, k: nat)
    requires k < |es|
  {
    es[k].ms == s.lastSeenMs && es[k].level == s.lastLevel && forall l | k < l < |es| :: es[l].ms < s.lastSeenMs
  }

  /** The latest time, and the level of the last record that has it. */
  ghost predicate LastSeen(s: Summary, es: seq<Record>) {
    && (forall e | e in es :: e.ms <= s.lastSeenMs)
    && (es != [] ==> exists k :: 0 <= k < |es| && LatestAt(s, es, k))
  }

  lemma {:induction false} MatchingAppend(es: seq<Record>, e: Record, p: Record -> bool)
    ensures Matching(es + [e], p) == Matching(es, p) + if p(e) then [e] else []
  {
    if es == [] {
      assert es + [e] == [e];
    } else {
      MatchingAppend(es[1..], e, p);
      assert (es + [e])[1..] == es[1..] + [e];
    }
  }

  lemma {:induction false} SummaryLastSeen(task: string, es: seq<Record>)
    ensures LastSeen(Summarise(task, es), es)
    ensures es == [] ==> Summarise(task, es).lastSeenMs == 0
  {
    if es != [] {
      var before, e := es[..|es| - 1], es[|es| - 1];
      var s, t := Summarise(task, before), Summarise(task, es);
      assert es == before + [e];
      SummaryLastSeen(task, before);
      if e.ms >= s.lastSeenMs {
        assert LatestAt(t, es, |before|);
      } else {
        var k :| 0 <= k < |before| && LatestAt(s, before, k);
        assert LatestAt(t, es, k);
      }
    }
  }

  lemma {:induction false} SummaryCounts(task: string, es: seq<Record>)
    ensures Summarise(task, es).errors == |AtLevel(es, "ERROR")|
    ensures Summarise(task, es).warnings == |AtLevel(es, "WARN")|
  {
    if es != [] {
      var before, e := es[..|es| - 1], es[|es| - 1];
      assert es == before + [e];
      SummaryCounts(task, before);
      MatchingAppend(before, e, HasLevel("ERROR"));
      MatchingAppend(before, e, HasLevel("WARN"));
    }
  }

  lemma {:induction false} SummaryThreads(task: string, es: seq<Record>)
    ensures FirstAppearances(Summarise(task, es).threads, Threads(es))
  {
    if es != [] {
      var before, e := es[..|es| - 1], es[|es| - 1];
      SummaryThreads(task, before);
      var known := Summarise(task, before).threads;
      assert Threads(es) == Threads(before) + [e.thread];
      if e.thread in known {
        AppearancesKept(known, Threads(before), e.thread);
      } else {
        AppearancesGrow(known, Threads(before), e.thread);
      }
    }
  }

  predicate NoRepeats(ps: seq<Pair>) {
    forall i, j | 0 <= i < j < |ps| :: ps[i] != ps[j]
  }

  lemma {:induction false} WithContextMembers(known: seq<Pair>, pairs: seq<Pair>)
    requires NoRepeats(known)
    ensures NoRepeats(WithContext(known, pairs))
    ensures forall p :: p in WithContext(known, pairs) <==> p in known || (p in pairs && !Hidden(p))
    decreases pairs
  {
    if pairs != [] {
      var more := if Hidden(pairs[0]) || pairs[0] in known then known else known + [pairs[0]];
      assert NoRepeats(more);
      WithContextMembers(more, pairs[1..]);
      assert pairs == [pairs[0]] + pairs[1..];
    }
  }

  ghost predicate Carried(es: seq<Record>, p: Pair) {
    exists k :: 0 <= k < |es| && p in es[k].context
  }

  /** The context is every pair some record carried, once, without the ones that say where it was. */
  lemma {:induction false} SummaryContext(task: string, es: seq<Record>)
    ensures NoRepeats(Summarise(task, es).context)
    ensures forall p :: p in Summarise(task, es).context <==> Carried(es, p) && !Hidden(p)
  {
    if es != [] {
      var before, e := es[..|es| - 1], es[|es| - 1];
      SummaryContext(task, before);
      WithContextMembers(Summarise(task, before).context, e.context);
      forall p ensures Carried(es, p) <==> Carried(before, p) || p in e.context {
        if Carried(before, p) {
          var k :| 0 <= k < |before| && p in before[k].context;
          assert p in es[k].context;
        }
        if p in e.context {
          assert p in es[|es| - 1].context;
        }
        if Carried(es, p) && p !in e.context {
          var k :| 0 <= k < |es| && p in es[k].context;
          assert p in before[k].context;
        }
      }
    }
  }

  // ----- the table -----

  predicate Before(a: string, b: string) {
    a != b && Keys.Leq(a, b)
  }

  /** The ordered map: its rows in the order of their keys. */
  predicate Ordered(table: seq<Summary>) {
    forall i, j | 0 <= i < j < |table| :: Before(table[i].task, table[j].task)
  }

  function Upsert(table: seq<Summary>, task: string, e: Record): seq<Summary> {
    if table == [] || Before(task, table[0].task) then [Counted(New(task), e)] + table
    else if table[0].task == task then [Counted(table[0], e)] + table[1..]
    else [table[0]] + Upsert(table[1..], task, e)
  }

  function Row(table: seq<Summary>, task: string): Option<Summary> {
    if table == [] then None
    else if table[0].task == task then Some(table[0])
    else Row(table[1..], task)
  }

  function RowOrNew(table: seq<Summary>, task: string): Summary {
    var r := Row(table, task);
    if r.Some? then r.value else New(task)
  }

  lemma {:induction false} NoRowBelow(table: seq<Summary>, task: string)
    requires Ordered(table) && (table == [] || Before(task, table[0].task))
    ensures Row(table, task) == None
  {
    if table != [] {
      if |table| > 1 {
        assert Before(table[0].task, table[1].task);
        BeforeTransitive(task, table[0].task, table[1].task);
      }
      NoRowBelow(table[1..], task);
    }
  }

  lemma BeforeTransitive(a: string, b: string, c: string)
    requires Before(a, b) && Before(b, c)
    ensures Before(a, c)
  {
    Keys.LeqTransitive(a, b, c);
    Keys.LeqTotal(a, b);
    Keys.LeqTotal(b, c);
    Keys.LeqTotal(a, c);
  }

  lemma {:induction false} UpsertRows(table: seq<Summary>, task: string, e: Record, other: string)
    requires Ordered(table)
    ensures Row(Upsert(table, task, e), other) == if other == task then Some(Counted(RowOrNew(table, task), e)) else Row(table, other)
  {
    if table == [] || Before(task, table[0].task) {
      NoRowBelow(table, task);
      assert ([Counted(New(task), e)] + table)[1..] == table;
    } else if table[0].task != task {
      UpsertRows(table[1..], task, e, other);
      assert Row(table, task) == Row(table[1..], task);
    }
  }

  lemma {:induction false} UpsertMembers(table: seq<Summary>, task: string, e: Record)
    ensures forall s | s in Upsert(table, task, e) :: s.task == task || s in table
  {
    if table != [] && !Before(task, table[0].task) && table[0].task != task {
      UpsertMembers(table[1..], task, e);
    }
  }

  lemma {:induction false} UpsertOrdered(table: seq<Summary>, task: string, e: Record)
    requires Ordered(table)
    ensures Ordered(Upsert(table, task, e))
  {
    if table == [] {
    } else if Before(task, table[0].task) {
      forall j | 0 <= j < |table| ensures Before(task, table[j].task) {
        if j > 0 {
          BeforeTransitive(task, table[0].task, table[j].task);
        }
      }
    } else if table[0].task != task {
      var rest := Upsert(table[1..], task, e);
      UpsertOrdered(table[1..], task, e);
      UpsertMembers(table[1..], task, e);
      Keys.LeqTotal(task, table[0].task);
      forall j | 0 <= j < |rest| ensures Before(table[0].task, rest[j].task) {
        assert rest[j] in rest;
      }
    }
  }

  function Step(table: seq<Summary>, e: Record): seq<Summary> {
    var task := Attribution(e);
    if task.Some? then Upsert(table, task.value, e) else table
  }

  function TableOf(entries: seq<Record>): seq<Summary> {
    if entries == [] then [] else Step(TableOf(entries[..|entries| - 1]), entries[|entries| - 1])
  }

  function Expected(entries: seq<Record>, task: string): Option<Summary> {
    if About(entries, task) == [] then None else Some(Summarise(task, About(entries, task)))
  }

  lemma {:induction false} TableOrdered(entries: seq<Record>)
    ensures Ordered(TableOf(entries))
  {
    if entries != [] {
      var before, e := entries[..|entries| - 1], entries[|entries| - 1];
      TableOrdered(before);
      if Attribution(e).Some? {
        UpsertOrdered(TableOf(before), Attribution(e).value, e);
      }
    }
  }

  lemma SummariseAppend(task: string, es: seq<Record>, e: Record)
    ensures Summarise(task, es + [e]) == Counted(Summarise(task, es), e)
  {
    assert (es + [e])[..|es|] == es;
  }

  /** Each row summarises exactly the records counted for its task. */
  lemma {:induction false} TableRows(entries: seq<Record>, task: string)
    ensures Row(TableOf(entries), task) == Expected(entries, task)
  {
    if entries != [] {
      var before, e := entries[..|entries| - 1], entries[|entries| - 1];
      assert entries == before + [e];
      TableRows(before, task);
      TableOrdered(before);
      MatchingAppend(before, e, CountedFor(task));
      if Attribution(e).Some? {
        UpsertRows(TableOf(before), Attribution(e).value, e, task);
      }
      if Attribution(e) == Some(task) {
        SummariseAppend(task, About(before, task), e);
      } else {
        assert About(entries, task) == About(before, task);
      }
    }
  }

  // ----- the sorted summaries -----

  predicate ByRecency(a: Summary, b: Summary) {
    a.lastSeenMs >= b.lastSeenMs
  }

  /** Later first, and by name among those seen last at the same time. */
  predicate Precedes(a: Summary, b: Summary) {
    a.lastSeenMs > b.lastSeenMs || (a.lastSeenMs == b.lastSeenMs && Before(a.task, b.task))
  }

  predicate Ranked(all: seq<Summary>) {
    forall i, j | 0 <= i < j < |all| :: Precedes(all[i], all[j])
  }

  lemma {:induction false} InsertRanked(s: Summary, all: seq<Summary>)
    requires Ranked(all) && forall t | t in all :: Before(s.task, t.task)
    ensures Ranked(Insert(s, all, ByRecency))
  {
    if all != [] {
      if ByRecency(s, all[0]) {
        forall j | 0 <= j < |all| ensures Precedes(s, all[j]) {
          assert all[j] in all;
          assert j > 0 ==> Precedes(all[0], all[j]);
        }
      } else {
        var rest := Insert(s, all[1..], ByRecency);
        InsertRanked(s, all[1..]);
        InsertCounts(s, all[1..], ByRecency);
        forall j | 0 <= j < |rest| ensures Precedes(all[0], rest[j]) {
          assert rest[j] in multiset(rest);
          if rest[j] != s {
            assert rest[j] in all[1..];
          }
        }
      }
    }
  }

  lemma {:induction false} SortRanked(table: seq<Summary>)
    requires Ordered(table)
    ensures Ranked(Sort(table, ByRecency))
  {
    if table != [] {
      SortRanked(table[1..]);
      SortMembers(table[1..], ByRecency);
      forall t | t in Sort(table[1..], ByRecency) ensures Before(table[0].task, t.task) {
        assert t in table[1..];
      }
      InsertRanked(table[0], Sort(table[1..], ByRecency));
    }
  }

  function Sum(all: seq<Summary>): nat {
    if all == [] then 0 else all[0].entries + Sum(all[1..])
  }

  lemma {:induction false} UpsertSum(table: seq<Summary>, task: string, e: Record)
    ensures Sum(Upsert(table, task, e)) == Sum(table) + 1
  {
    if table == [] || Before(task, table[0].task) {
      assert ([Counted(New(task), e)] + table)[1..] == table;
    } else if table[0].task != task {
      UpsertSum(table[1..], task, e);
    }
  }

  lemma {:induction false} InsertSum(s: Summary, all: seq<Summary>)
    ensures Sum(Insert(s, all, ByRecency)) == s.entries + Sum(all)
  {
    if all == [] || ByRecency(s, all[0]) {
      assert ([s] + all)[1..] == all;
    } else {
      InsertSum(s, all[1..]);
    }
  }

  lemma {:induction false} SortSum(table: seq<Summary>)
    ensures Sum(Sort(table, ByRecency)) == Sum(table)
  {
    if table != [] {
      SortSum(table[1..]);
      InsertSum(table[0], Sort(table[1..], ByRecency));
    }
  }

  predicate IsAttributable(e: Record) {
    Attribution(e).Some?
  }

  function Attributable(entries: seq<Record>): seq<Record> {
    Matching(entries, IsAttributable)
  }

  lemma {:induction false} TableSum(entries: seq<Record>)
    ensures Sum(TableOf(entries)) == |Attributable(entries)|
  {
    if entries != [] {
      var before, e := entries[..|entries| - 1], entries[|entries| - 1];
      assert entries == before + [e];
      TableSum(before);
      MatchingAppend(before, e, IsAttributable);
      if Attribution(e).Some? {
        UpsertSum(TableOf(before), Attribution(e).value, e);
      }
    }
  }

  lemma {:induction false} RowsAreMembers(table: seq<Summary>, s: Summary)
    requires Ordered(table)
    ensures s in table <==> Row(table, s.task) == Some(s)
  {
    if table != [] {
      RowsAreMembers(table[1..], s);
      forall j | 0 < j < |table| ensures table[j].task != table[0].task {
        assert Before(table[0].task, table[j].task);
      }
      assert table == [table[0]] + table[1..];
    }
  }

  method TaskSummariesFrom(entries: seq<Record>) returns (all: seq<Summary>)
    ensures all == Sort(TableOf(entries), ByRecency)
  {
    var table: seq<Summary> := [];
    var k := 0;
    while k < |entries|
      invariant k <= |entries|
      invariant table == TableOf(entries[..k])
    {
      assert entries[..k + 1][..k] == entries[..k];
      var task := Attribution(entries[k]);
      if task.Some? {
        table := Upsert(table, task.value, entries[k]);
      }
      k := k + 1;
    }
    assert entries[..k] == entries;
    all := Sort(table, ByRecency);
  }

  /** One summary for each task with a counted record, ranked, and no record lost or counted twice. */
  lemma SummariesAreRight(entries: seq<Record>, all: seq<Summary>)
    requires all == Sort(TableOf(entries), ByRecency)
    ensures forall s :: s in all <==> About(entries, s.task) != [] && s == Summarise(s.task, About(entries, s.task))
    ensures Ranked(all)
    ensures Sum(all) == |Attributable(entries)|
  {
    TableOrdered(entries);
    SortMembers(TableOf(entries), ByRecency);
    forall s ensures s in all <==> About(entries, s.task) != [] && s == Summarise(s.task, About(entries, s.task)) {
      TableRows(entries, s.task);
      RowsAreMembers(TableOf(entries), s);
    }
    SortRanked(TableOf(entries));
    SortSum(TableOf(entries));
    TableSum(entries);
  }

  lemma OneSummaryPerTask(entries: seq<Record>, all: seq<Summary>, i: nat, j: nat)
    requires all == Sort(TableOf(entries), ByRecency) && i < j < |all|
    ensures all[i].task != all[j].task
  {
    SummariesAreRight(entries, all);
    assert all[i] in all && all[j] in all && Precedes(all[i], all[j]);
  }

  // ----- summaries against traces -----

  predicate EndsPlainly(rest: string) {
    Trim(UpToColon(rest)) == UpToColon(rest) && ':' in rest
  }

  /** The record names its task without stray space, and a name in the message ends with a colon. */
  predicate NamedPlainly(e: Record) {
    var c := ContextValue(e.context, "task");
    if c.Some? then Trim(c.value) == c.value
    else StartsWith(e.message, "Task ") && EndsPlainly(e.message[5..])
  }

  /** The message names the task besides the place it is counted by. */
  predicate NamedBesides(e: Record, task: string) {
    || Contains(e.message, "(task: " + task + ")")
    || (ContextValue(e.context, "task").Some? && StartsWith(e.message, "Task " + task + ":"))
  }

  lemma {:induction false} TrimPart(s: string)
    ensures forall c | c in Trim(s) :: c in s
  {
    if s != "" && Space(s[0]) {
      TrimPart(s[1..]);
    } else if s != "" && Space(s[|s| - 1]) {
      TrimPart(s[..|s| - 1]);
    }
  }

  lemma {:induction false} UpToColonIs(s: string, t: string)
    requires ':' !in t
    ensures StartsWith(s, t + ":") <==> UpToColon(s) == t && |t| < |s|
  {
    var r := UpToColon(s);
    if StartsWith(s, t + ":") {
      assert s[|t|] == (t + ":")[|t|];
      assert s[..|t|] == (t + ":")[..|t|] == t;
      forall i | 0 <= i < |t| ensures s[i] == t[i] {
      }
      forall i | 0 <= i < |r| ensures s[i] == r[i] {
      }
    }
    if r == t && |t| < |s| {
      assert s[..|t| + 1] == s[..|t|] + [s[|t|]];
    }
  }

  lemma PrefixShift(message: string, task: string)
    ensures StartsWith(message, "Task " + task + ":") <==> StartsWith(message, "Task ") && StartsWith(message[5..], task + ":")
  {
    var p, q := "Task ", task + ":";
    assert "Task " + task + ":" == p + q;
    if StartsWith(message, p + q) {
      assert message[..5] == (p + q)[..5] == p;
      assert message[5..][..|q|] == message[..|p + q|][5..] == (p + q)[5..] == q;
    }
    if StartsWith(message, p) && StartsWith(message[5..], q) {
      assert message[..|p + q|] == message[..5] + message[5..][..|q|];
    }
  }

  /** A record counted for a task is in the task's trail exactly when it names it plainly, or besides. */
  lemma CountedIsTracedExactly(e: Record, task: string)
    requires Attribution(e) == Some(task)
    ensures IsForTask(e, task) <==> NamedPlainly(e) || NamedBesides(e, task)
  {
    if ContextValue(e.context, "task").None? {
      var named := UpToColon(e.message[5..]);
      TrimPart(named);
      PrefixShift(e.message, task);
      UpToColonIs(e.message[5..], task);
    }
  }

  /** It happens: a message without a colon is counted for a task in whose trail it is not. */
  lemma CountedNotTraced()
    ensures var e := Record(0, "INFO", "main", "Task 7", []);
      Attribution(e) == Some("7") && !IsForTask(e, "7")
  {
    var e := Record(0, "INFO", "main", "Task 7", []);
    assert e.message[5..] == "7" && UpToColon("7") == ['7'] + UpToColon("7"[1..]);
    assert "7"[1..] == "" && UpToColon("7") == "7";
    assert Trim("7") == "7";
    assert e.message[..5] == "Task " && StartsWith(e.message, "Task ");
    assert Claimed(e) == Some("7");
    CountedIsTracedExactly(e, "7");
    assert forall i | 0 <= i <= |e.message| :: !StartsWith(e.message[i..], "(task: " + "7" + ")");
  }

  lemma {:induction false} MatchingGrows(es: seq<Record>, p: Record -> bool, q: Record -> bool)
    requires forall e | e in es && p(e) :: q(e)
    ensures |Matching(es, p)| <= |Matching(es, q)|
  {
    if es != [] {
      MatchingGrows(es[1..], p, q);
    }
  }

  /** A summary never counts more than the full trail holds, when its records name the task plainly. */
  lemma SummaryWithinTrace(entries: seq<Record>, task: string)
    requires forall e | e in entries && Attribution(e) == Some(task) :: NamedPlainly(e)
    ensures Summarise(task, About(entries, task)).entries <= |Matching(entries, ForTask(task))|
  {
    forall e | e in entries && CountedFor(task)(e) ensures ForTask(task)(e) {
      CountedIsTracedExactly(e, task);
    }
    MatchingGrows(entries, CountedFor(task), ForTask(task));
  }
}
