/** The per-tab limit on page scans: a sliding log of the accepted scans of the last minute. */
module ScanLimiter {
  import opened Wrappers
  import opened Sets

  const SCAN_WINDOW_MS: nat := 60_000
  const MAX_SCANS: nat := 12
  const AGGRESSIVE_MAX_SCANS: nat := 30

  datatype Profile = Standard | Aggressive

  function Limit(p: Profile): nat {
    if p.Aggressive? then AGGRESSIVE_MAX_SCANS else MAX_SCANS
  }

  type Log = map<int, seq<int>>

  function Logged(log: Log, tab: int): seq<int> {
    if tab in log then log[tab] else []
  }

  /** The timestamps less than a minute old at `now`. */
  function Recent(ts: seq<int>, now: int): seq<int> {
    if ts == [] then [] else
      var n := |ts| - 1;
      Recent(ts[..n], now) + (if now - ts[n] < SCAN_WINDOW_MS then [ts[n]] else [])
  }

  /** One request: the log it leaves, and whether the scan may run. */
  function Ask(log: Log, tab: int, now: int, p: Profile): (Log, bool) {
    var recent := Recent(Logged(log, tab), now);
    if |recent| >= Limit(p) then (log[tab := recent], false) else (log[tab := recent + [now]], true)
  }

  class ScanPolicy {
    var scanTimestampsByTab: Log

    constructor ()
      ensures scanTimestampsByTab == map[]
    {
      scanTimestampsByTab := map[];
    }

    /** Refusing (an exception in the extension) still prunes the log of the tab. */
    method AssertScanRateLimit(tab: int, now: int, p: Profile) returns (ok: bool)
      modifies this
      ensures (scanTimestampsByTab, ok) == Ask(old(scanTimestampsByTab), tab, now, p)
    {
      var known := Logged(scanTimestampsByTab, tab);
      var recent := [];
      for i := 0 to |known|
        invariant recent == Recent(known[..i], now)
      {
        assert known[..i + 1][..i] == known[..i];
        if now - known[i] < SCAN_WINDOW_MS { recent := recent + [known[i]]; }
      }
      assert known[..|known|] == known;
      if |recent| >= Limit(p) {
        scanTimestampsByTab := scanTimestampsByTab[tab := recent];
        return false;
      }
      scanTimestampsByTab := scanTimestampsByTab[tab := recent + [now]];
      return true;
    }
  }

  // ----- runs -----

  datatype Call = Call(tab: int, at: int, profile: Profile)

  /** An accepted scan. */
  datatype Scan = Scan(at: int, profile: Profile)

  /** `last` is the time of a tab's last request, accepted or not. */
  datatype Run = Run(log: Log, accepted: map<int, seq<Scan>>, last: map<int, int>)

  function Accepted(r: Run, tab: int): seq<Scan> {
    if tab in r.accepted then r.accepted[tab] else []
  }

  function Step(r: Run, c: Call): Run {
    var (log, ok) := Ask(r.log, c.tab, c.at, c.profile);
    Run(log, if ok then r.accepted[c.tab := Accepted(r, c.tab) + [Scan(c.at, c.profile)]] else r.accepted, r.last[c.tab := c.at])
  }

  function Play(calls: seq<Call>): Run {
    if calls == [] then Run(map[], map[], map[]) else Step(Play(calls[..|calls|-1]), calls[|calls|-1])
  }

  predicate Timed(calls: seq<Call>) {
    forall i, j | 0 <= i < j < |calls| :: calls[i].at <= calls[j].at
  }

  function Times(a: seq<Scan>): seq<int> {
    seq(|a|, i requires 0 <= i < |a| => a[i].at)
  }

  // ----- the log is the window -----

  predicate Ascending(ts: seq<int>) {
    forall i, j | 0 <= i < j < |ts| :: ts[i] <= ts[j]
  }

  /** From position `k` on the stamps are recent, before it they are not. */
  predicate RecentFrom(ts: seq<int>, now: int, k: nat) {
    k <= |ts| && forall i | 0 <= i < |ts| :: now - ts[i] < SCAN_WINDOW_MS <==> i >= k
  }

  /** The last stamp is recent: what is recent goes on to the end. */
  lemma EndsRecent(init: seq<int>, x: int, now: int, k: nat)
    requires RecentFrom(init, now, k) && Recent(init, now) == init[k..] && now - x < SCAN_WINDOW_MS
    ensures RecentFrom(init + [x], now, k) && Recent(init + [x], now) == (init + [x])[k..]
  {
    assert (init + [x])[..|init|] == init;
    assert init[k..] + [x] == (init + [x])[k..];
  }

  /** The last stamp is old, and so are all before it. */
  lemma EndsOld(init: seq<int>, x: int, now: int, k: nat)
    requires RecentFrom(init, now, k) && Recent(init, now) == init[k..] && now - x >= SCAN_WINDOW_MS && Ascending(init + [x])
    ensures RecentFrom(init + [x], now, |init| + 1) && Recent(init + [x], now) == []
  {
    var ts := init + [x];
    forall i | 0 <= i < |init| ensures now - init[i] >= SCAN_WINDOW_MS && i < k {
      assert ts[i] <= ts[|init|] && ts[i] == init[i];
    }
    assert init[k..] == [];
    assert ts[..|init|] == init;
  }

  lemma {:induction false} RecentStarts(ts: seq<int>, now: int) returns (k: nat)
    requires Ascending(ts)
    ensures RecentFrom(ts, now, k) && Recent(ts, now) == ts[k..]
  {
    k := 0;
    if ts != [] {
      var init, x := ts[..|ts| - 1], ts[|ts| - 1];
      assert ts == init + [x];
      k := RecentStarts(init, now);
      if now - x < SCAN_WINDOW_MS {
        EndsRecent(init, x, now, k);
      } else {
        EndsOld(init, x, now, k);
        k := |ts|;
      }
    }
  }

  /** Of an ascending log, the recent part is a suffix, and the rest is a minute old or more. */
  lemma RecentIsSuffix(ts: seq<int>, now: int)
    requires Ascending(ts)
    ensures |Recent(ts, now)| <= |ts| && Recent(ts, now) == ts[|ts| - |Recent(ts, now)|..]
    ensures forall i | 0 <= i < |ts| :: now - ts[i] < SCAN_WINDOW_MS <==> i >= |ts| - |Recent(ts, now)|
  {
    var k := RecentStarts(ts, now);
    assert |Recent(ts, now)| == |ts| - k;
  }

  lemma {:induction false} RecentAgain(ts: seq<int>, now: int, later: int)
    requires now <= later
    ensures Recent(Recent(ts, now), later) == Recent(ts, later)
  {
    if ts != [] {
      var n := |ts| - 1;
      RecentAgain(ts[..n], now, later);
      if now - ts[n] < SCAN_WINDOW_MS {
        var r := Recent(ts[..n], now) + [ts[n]];
        assert r[..|r|-1] == Recent(ts[..n], now);
      } else {
        assert Recent(ts[..n], now) + [] == Recent(ts[..n], now);
      }
    }
  }

  lemma RecentAppend(ts: seq<int>, now: int)
    ensures Recent(ts + [now], now) == Recent(ts, now) + [now]
  {
    assert (ts + [now])[..|ts|] == ts;
  }

  /** An accepted scan is a minute after the one that came its limit of scans before. */
  predicate Limited(a: seq<Scan>) {
    forall i, j | 0 <= i < j < |a| && i + Limit(a[j].profile) <= j :: a[j].at - a[i].at >= SCAN_WINDOW_MS
  }

  predicate TabInv(r: Run, tab: int, now: int) {
    && Ascending(Times(Accepted(r, tab))) && Limited(Accepted(r, tab))
    && (forall i | 0 <= i < |Accepted(r, tab)| :: Accepted(r, tab)[i].at <= now)
    && (tab in r.last ==> r.last[tab] <= now && Logged(r.log, tab) == Recent(Times(Accepted(r, tab)), r.last[tab]))
    && (tab !in r.last ==> Accepted(r, tab) == [] && tab !in r.log)
  }

  /** What a tab's own request finds: the accepted scans of the minute before it. */
  lemma AskSees(r: Run, c: Call, now: int)
    requires TabInv(r, c.tab, now) && now <= c.at
    ensures Recent(Logged(r.log, c.tab), c.at) == Recent(Times(Accepted(r, c.tab)), c.at)
  {
    if c.tab in r.last { RecentAgain(Times(Accepted(r, c.tab)), r.last[c.tab], c.at); }
  }

  lemma AcceptKeepsLimit(a: seq<Scan>, now: int, p: Profile)
    requires Ascending(Times(a)) && Limited(a) && |Recent(Times(a), now)| < Limit(p)
    requires forall i | 0 <= i < |a| :: a[i].at <= now
    ensures Limited(a + [Scan(now, p)]) && Ascending(Times(a + [Scan(now, p)]))
  {
    var b := a + [Scan(now, p)];
    assert Times(b) == Times(a) + [now];
    RecentIsSuffix(Times(a), now);
    forall i, j | 0 <= i < j < |b| && i + Limit(b[j].profile) <= j ensures b[j].at - b[i].at >= SCAN_WINDOW_MS {
      if j == |a| {
        assert Times(a)[i] == a[i].at;
      } else {
        assert b[j] == a[j] && b[i] == a[i];
      }
    }
  }

  /** What a request of the tab leaves: its accepted scans, its log and the time of the request. */
  lemma StepEffect(r: Run, c: Call)
    ensures var n := Step(r, c);
      var recent := Recent(Logged(r.log, c.tab), c.at);
      && c.tab in n.last && n.last[c.tab] == c.at
      && (|recent| < Limit(c.profile) ==>
            Accepted(n, c.tab) == Accepted(r, c.tab) + [Scan(c.at, c.profile)] && Logged(n.log, c.tab) == recent + [c.at])
      && (|recent| >= Limit(c.profile) ==> Accepted(n, c.tab) == Accepted(r, c.tab) && Logged(n.log, c.tab) == recent)
  {
  }

  lemma AcceptTimes(a: seq<Scan>, at: int, p: Profile)
    ensures Recent(Times(a + [Scan(at, p)]), at) == Recent(Times(a), at) + [at]
  {
    RecentAppend(Times(a), at);
    assert Times(a + [Scan(at, p)]) == Times(a) + [at];
  }

  lemma OwnStepKeeps(r: Run, c: Call, now: int)
    requires TabInv(r, c.tab, now) && now <= c.at
    ensures TabInv(Step(r, c), c.tab, c.at)
  {
    StepEffect(r, c);
    AskSees(r, c, now);
    if |Recent(Logged(r.log, c.tab), c.at)| < Limit(c.profile) {
      AcceptKeepsLimit(Accepted(r, c.tab), c.at, c.profile);
      AcceptTimes(Accepted(r, c.tab), c.at, c.profile);
    }
  }

  lemma OtherStepKeeps(r: Run, c: Call, tab: int, now: int)
    requires TabInv(r, tab, now) && now <= c.at && tab != c.tab
    ensures TabInv(Step(r, c), tab, c.at)
  {
    var n := Step(r, c);
    assert Accepted(n, tab) == Accepted(r, tab) && Logged(n.log, tab) == Logged(r.log, tab);
  }

  lemma {:induction false} PlayKeeps(calls: seq<Call>, tab: int, now: int)
    requires Timed(calls) && forall i | 0 <= i < |calls| :: calls[i].at <= now
    ensures TabInv(Play(calls), tab, now)
  {
    if calls != [] {
      var n := |calls| - 1;
      PlayKeeps(calls[..n], tab, calls[n].at);
      if tab == calls[n].tab {
        OwnStepKeeps(Play(calls[..n]), calls[n], calls[n].at);
      } else {
        OtherStepKeeps(Play(calls[..n]), calls[n], tab, calls[n].at);
      }
    }
  }

  // ----- the theorems -----

  /** A tab's log is exactly its accepted scans of the minute before its last request. */
  lemma LogIsWindow(calls: seq<Call>, tab: int)
    requires Timed(calls) && tab in Play(calls).last
    ensures var r := Play(calls); Logged(r.log, tab) == Recent(Times(Accepted(r, tab)), r.last[tab])
  {
    PlayKeeps(calls, tab, if calls == [] then 0 else calls[|calls|-1].at);
  }

  function During(a: seq<Scan>, from: int): set<int> {
    set i | 0 <= i < |a| && from <= a[i].at < from + SCAN_WINDOW_MS
  }

  /** Within any minute a tab gets at most 30 scans, and at most 12 if the last of them is a standard one. */
  lemma MinuteBound(calls: seq<Call>, tab: int, from: int, latest: int)
    requires Timed(calls)
    requires var s := During(Accepted(Play(calls), tab), from); latest in s && forall i | i in s :: i <= latest
    ensures var a := Accepted(Play(calls), tab);
      |During(a, from)| <= (if a[latest].profile.Standard? then 12 else 30)
  {
    PlayKeeps(calls, tab, if calls == [] then 0 else calls[|calls|-1].at);
    var a := Accepted(Play(calls), tab);
    var s := During(a, from);
    var k := Limit(a[latest].profile);
    forall i | i in s ensures latest - k + 1 <= i < latest - k + 1 + k {
      if i + k <= latest {
        assert false;
      }
    }
    IntervalSize(s, latest - k + 1, k);
  }

  function Only(calls: seq<Call>, tab: int): seq<Call> {
    if calls == [] then [] else
      var n := |calls| - 1;
      Only(calls[..n], tab) + (if calls[n].tab == tab then [calls[n]] else [])
  }

  /** What a tab is granted depends on its own requests alone. */
  lemma {:induction false} TabsAreIndependent(calls: seq<Call>, tab: int)
    ensures Logged(Play(calls).log, tab) == Logged(Play(Only(calls, tab)).log, tab)
    ensures Accepted(Play(calls), tab) == Accepted(Play(Only(calls, tab)), tab)
  {
    if calls != [] {
      var n := |calls| - 1;
      TabsAreIndependent(calls[..n], tab);
      if calls[n].tab == tab {
        var o := Only(calls[..n], tab);
        assert (o + [calls[n]])[..|o|] == o;
      } else {
        assert Only(calls[..n], tab) + [] == Only(calls[..n], tab);
      }
    }
  }

  // ----- exactly which requests are granted -----

  /** How many of the scans are less than a minute old. */
  function Lately(a: seq<Scan>, now: int): nat {
    if a == [] then 0 else Lately(a[..|a|-1], now) + if now - a[|a|-1].at < 60_000 then 1 else 0
  }

  /** Fewer than 12 of the tab's scans in the last minute, or 30 for an aggressive one. */
  predicate Allowed(a: seq<Scan>, c: Call) {
    Lately(a, c.at) < if c.profile.Aggressive? then 30 else 12
  }

  /** The limiter without a log: the tab's whole history is looked through. */
  function Granted(calls: seq<Call>, tab: int): seq<Scan> {
    if calls == [] then [] else
      var c := calls[|calls|-1];
      var before := Granted(calls[..|calls|-1], tab);
      before + if c.tab == tab && Allowed(before, c) then [Scan(c.at, c.profile)] else []
  }

  lemma {:induction false} RecentCounts(a: seq<Scan>, now: int)
    ensures |Recent(Times(a), now)| == Lately(a, now)
  {
    if a != [] {
      RecentCounts(a[..|a|-1], now);
      assert Times(a)[..|a|-1] == Times(a[..|a|-1]);
    }
  }

  lemma TimedBefore(calls: seq<Call>, c: Call)
    requires Timed(calls + [c])
    ensures Timed(calls) && forall i | 0 <= i < |calls| :: calls[i].at <= c.at
  {
    var all := calls + [c];
    assert forall i | 0 <= i < |calls| :: all[i] == calls[i];
    assert all[|calls|] == c;
  }

  /** Over every run, a request is granted exactly when the tab has fewer scans in the last minute than its limit. */
  lemma GrantedExactly(calls: seq<Call>, c: Call)
    requires Timed(calls + [c])
    ensures Ask(Play(calls).log, c.tab, c.at, c.profile).1 <==> Allowed(Accepted(Play(calls), c.tab), c)
  {
    TimedBefore(calls, c);
    PlayKeeps(calls, c.tab, c.at);
    AskSees(Play(calls), c, c.at);
    RecentCounts(Accepted(Play(calls), c.tab), c.at);
  }

  lemma StepAccepts(r: Run, c: Call, tab: int)
    ensures Accepted(Step(r, c), tab) ==
      Accepted(r, tab) + if c.tab == tab && Ask(r.log, c.tab, c.at, c.profile).1 then [Scan(c.at, c.profile)] else []
  {
  }

  /** The limiter with its pruned log grants what the limiter without a log grants. */
  lemma {:induction false} LimiterIsReference(calls: seq<Call>, tab: int)
    requires Timed(calls)
    ensures Accepted(Play(calls), tab) == Granted(calls, tab)
  {
    if calls != [] {
      var before, c := calls[..|calls|-1], calls[|calls|-1];
      assert calls == before + [c];
      TimedBefore(before, c);
      LimiterIsReference(before, tab);
      GrantedExactly(before, c);
      StepAccepts(Play(before), c, tab);
    }
  }
}
