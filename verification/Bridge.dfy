/** Deduplicating concurrent calls of one asynchronous operation. */
module SingleFlight {
  import opened Wrappers

  /** The flight in progress, if any, and the flights ever started. */
  datatype Slot = Slot(current: Option<nat>, started: nat)

  /** `run`: join the flight in progress, or start the next one. */
  function Enter(s: Slot): (Slot, nat) {
    if s.current.Some? then (s, s.current.value) else (Slot(Some(s.started), s.started + 1), s.started)
  }

  /** The promise settled: the next call starts afresh. */
  function Leave(s: Slot): Slot {
    s.(current := None)
  }

  class Flight {
    var current: Option<nat>
    var started: nat

    function Value(): Slot
      reads this
    {
      Slot(current, started)
    }

    constructor ()
      ensures Value() == Slot(None, 0)
    {
      current, started := None, 0;
    }

    method Run() returns (id: nat)
      modifies this
      ensures (Value(), id) == Enter(old(Value()))
    {
      if current.Some? { return current.value; }
      id := started;
      current, started := Some(id), started + 1;
    }

    method Settled()
      modifies this
      ensures Value() == Leave(old(Value()))
    {
      current := None;
    }
  }

  // ----- which callers share a flight -----

  datatype Event = Ask | End

  function Play(events: seq<Event>): Slot {
    if events == [] then Slot(None, 0) else
      var s := Play(events[..|events|-1]);
      if events[|events|-1].Ask? then Enter(s).0 else Leave(s)
  }

  /** The flight that the caller at position `i` gets. */
  function Answer(events: seq<Event>, i: nat): nat
    requires i < |events|
  {
    Enter(Play(events[..i])).1
  }

  lemma PlayNext(events: seq<Event>, i: nat)
    requires i < |events|
    ensures Play(events[..i + 1]) == if events[i].Ask? then Enter(Play(events[..i])).0 else Leave(Play(events[..i]))
  {
    assert events[..i + 1][..i] == events[..i];
  }

  lemma {:induction false} StartedLater(events: seq<Event>, i: nat, j: nat)
    requires i <= j <= |events|
    ensures Play(events[..i]).started <= Play(events[..j]).started
    ensures Play(events[..j]).current.Some? ==> Play(events[..j]).current.value < Play(events[..j]).started
    decreases j
  {
    if j > 0 {
      PlayNext(events, j - 1);
      StartedLater(events, if i < j then i else j - 1, j - 1);
    }
  }

  lemma {:induction false} StillFlying(events: seq<Event>, i: nat, j: nat)
    requires i < j <= |events| && events[i].Ask? && forall k | i < k < j :: events[k].Ask?
    ensures Play(events[..j]).current == Some(Answer(events, i))
    decreases j
  {
    PlayNext(events, j - 1);
    if j > i + 1 { StillFlying(events, i, j - 1); }
  }

  /** After a flight settled, whatever is in the air started later. */
  lemma {:induction false} NewFlight(events: seq<Event>, k: nat, j: nat)
    requires k < j <= |events| && events[k].End?
    ensures var s := Play(events[..j]);
      Play(events[..k]).started <= s.started && (s.current.Some? ==> Play(events[..k]).started <= s.current.value)
    decreases j
  {
    PlayNext(events, j - 1);
    if j > k + 1 { NewFlight(events, k, j - 1); }
  }

  /** Two callers get the same flight exactly when none settled between them. */
  lemma SameFlightExactly(events: seq<Event>, i: nat, j: nat)
    requires i < j < |events| && events[i].Ask? && events[j].Ask?
    ensures Answer(events, i) == Answer(events, j) <==> forall k | i < k < j :: events[k].Ask?
  {
    if forall k | i < k < j :: events[k].Ask? {
      StillFlying(events, i, j);
    } else {
      var k :| i < k < j && !events[k].Ask?;
      StillFlying(events, i, i + 1);
      StartedLater(events, i + 1, i + 1);
      StartedLater(events, i + 1, k);
      NewFlight(events, k, j);
    }
  }
}

/**
 The connection state machine of the bridge. `setState` changes the published state at once
 and then awaits the write to storage, so every program counter below is a point where other
 activities may run. Storage, discovery, the daemon's answers and failures are the
 environment's choice at each step.
 */
module Bridge {
  import opened Wrappers
  import opened SingleFlight

  const NOVA_PROTOCOL_VERSION: int := 4

  datatype Status =
    | Idle | Booting | Discovering | NativeChecking | DaemonChecking | Pairing | AuthChecking | CapabilitySyncing
    | Connected | Degraded | Reconnecting | Offline | ProtocolMismatch | IntegrationDisabled | TokenExpired | Fatal

  datatype Transport = Native | Http | Mixed

  type Capabilities = set<string>

  datatype BridgeState = BridgeState(
    status: Status, canSend: bool, transport: Option<Transport>,
    version: Option<int>, minimum: Option<int>, capabilities: Option<Capabilities>)

  datatype Found = Found(native: bool, http: bool, transport: Option<Transport>)
  datatype Ping = Ping(enabled: bool, version: int, minimum: int)

  /** `autoConnectInternal` at its awaits. */
  datatype ConnectPc =
    | Started
    | SavedNative
    | Discovery
    | SavedTransport(found: Found)
    | Refused
    | SavedDaemon(found: Found)
    | Pinging(found: Found)
    | Token(found: Found, ping: Ping)
    | SavedAuth(found: Found, ping: Ping)
    | Auth(found: Found, ping: Ping)
    | Clearing(found: Found, ping: Ping)
    | SavedPairing(found: Found, ping: Ping)
    | Pair(found: Found, ping: Ping)
    | StoringToken(found: Found, ping: Ping)
    | SavedSync(found: Found, ping: Ping)
    | Syncing(found: Found, ping: Ping)
    | Synced(found: Found, ping: Ping, caps: Capabilities)
    | Finishing
    | Failing
    | Done

  /** `reconnect`, `wakeUpDesktop` and `init` at their awaits. */
  datatype OtherPc = Reconnect | Wake | WakeNative | WakeOffline | WakeEnd | Load | InitEnd

  /** What an await resolves to; each pc looks at the field it waits for. */
  datatype Reply =
    | Resolved(found: Found, ping: Ping, token: bool, caps: Capabilities, available: bool, stored: BridgeState)
    | Thrown(expired: bool)

  datatype Manager = Manager(
    state: BridgeState, registry: Capabilities, slot: Slot,
    flights: map<nat, ConnectPc>, others: map<nat, OtherPc>)

  const INITIAL := BridgeState(Idle, false, None, None, None, None)
  const START := Manager(INITIAL, {}, Slot(None, 0), map[], map[])

  /** `connectFlight.run(autoConnectInternal)`: the synchronous part of a new flight runs at once. */
  function AutoConnect(m: Manager): Manager {
    var (slot, id) := Enter(m.slot);
    if m.slot.current.Some? then m
    else m.(slot := slot, flights := m.flights[id := Started], state := m.state.(status := Discovering, canSend := false))
  }

  predicate Compatible(p: Ping) {
    p.minimum <= p.version && p.minimum <= NOVA_PROTOCOL_VERSION
  }

  /** The published state and the next await of a flight, after one await of it resolved or threw. */
  function Advance(s: BridgeState, pc: ConnectPc, r: Reply): (BridgeState, ConnectPc) {
    if r.Thrown? then
      match pc
      case Started => (s, Done)
      case Failing => (s, Done)
      case Done => (s, Done)
      case SavedAuth(f, p) => (s, Clearing(f, p))
      case Auth(f, p) => (s, Clearing(f, p))
      case _ => (s.(status := if r.expired then TokenExpired else Offline, canSend := false), Failing)
    else
      match pc
      case Started => (s.(status := NativeChecking), SavedNative)
      case SavedNative => (s, Discovery)
      case Discovery => (s.(transport := r.found.transport), SavedTransport(r.found))
      case SavedTransport(f) =>
        if !f.http then (s.(status := if f.native then Degraded else Offline, transport := f.transport, canSend := false), Refused)
        else (s.(status := DaemonChecking), SavedDaemon(f))
      case SavedDaemon(f) => (s, Pinging(f))
      case Pinging(f) =>
        if !r.ping.enabled then (s.(status := IntegrationDisabled, canSend := false), Refused)
        else if r.ping.version < r.ping.minimum || r.ping.minimum > NOVA_PROTOCOL_VERSION then
          (s.(status := ProtocolMismatch, version := Some(r.ping.version), minimum := Some(r.ping.minimum), canSend := false), Refused)
        else (s, Token(f, r.ping))
      case Token(f, p) =>
        if r.token then (s.(status := AuthChecking), SavedAuth(f, p)) else (s.(status := Pairing), SavedPairing(f, p))
      case SavedAuth(f, p) => (s, Auth(f, p))
      case Auth(f, p) => (s.(status := CapabilitySyncing), SavedSync(f, p))
      case Clearing(f, p) => (s.(status := Pairing), SavedPairing(f, p))
      case SavedPairing(f, p) => (s, Pair(f, p))
      case Pair(f, p) => (s, StoringToken(f, p))
      case StoringToken(f, p) => (s.(status := CapabilitySyncing), SavedSync(f, p))
      case SavedSync(f, p) => (s, Syncing(f, p))
      case Syncing(f, p) => (s, Synced(f, p, r.caps))
      case Synced(f, p, caps) =>
        (BridgeState(Connected, true, if f.transport.Some? then f.transport else Some(Http), Some(p.version), Some(p.minimum), Some(caps)), Finishing)
      case Refused => (s, Done)
      case Finishing => (s, Done)
      case Failing => (s, Done)
      case Done => (s, Done)
  }

  /** The registry is updated when the capability request resolves, before the state is published. */
  function Registry(known: Capabilities, pc: ConnectPc, r: Reply): Capabilities {
    if pc.Syncing? && r.Resolved? then r.caps else known
  }

  datatype Action =
    | Connect
    | Resume(flight: nat, reply: Reply)
    | Settle(flight: nat)
    | Begin(id: nat, pc: OtherPc)
    | Continue(id: nat, reply: Reply)

  function Offlined(s: BridgeState): BridgeState {
    s.(status := Offline, canSend := false)
  }

  /** The other activities, whose first synchronous part runs when they begin. */
  function BeginStep(m: Manager, id: nat, pc: OtherPc): Manager {
    match pc
    case Reconnect => m.(others := m.others[id := Reconnect], state := m.state.(status := Reconnecting))
    case Wake => m.(others := m.others[id := Wake], state := m.state.(status := Booting, canSend := false))
    case Load => m.(others := m.others[id := Load])
    case _ => m
  }

  function ContinueStep(m: Manager, id: nat, r: Reply): Manager
    requires id in m.others
  {
    var gone := m.(others := m.others - {id});
    match m.others[id]
    case Reconnect => if r.Thrown? then gone else AutoConnect(gone)
    case Wake => if r.Thrown? then gone else m.(others := m.others[id := WakeNative])
    case WakeNative =>
      if r.Resolved? && r.available then AutoConnect(gone)
      else m.(others := m.others[id := WakeOffline], state := Offlined(m.state))
    case WakeOffline => if r.Resolved? then gone else m.(others := m.others[id := WakeEnd], state := Offlined(m.state))
    case WakeEnd => gone
    case Load =>
      if r.Thrown? then gone
      else m.(others := m.others[id := InitEnd],
              state := r.stored.(status := if r.stored.status.Connected? then Booting else r.stored.status, canSend := false))
    case InitEnd => gone
  }

  /** One step; an action that does not apply does nothing. */
  function Step(m: Manager, a: Action): Manager {
    match a
    case Connect => AutoConnect(m)
    case Resume(f, r) =>
      if f in m.flights then
        var n := Advance(m.state, m.flights[f], r);
        m.(state := n.0, registry := Registry(m.registry, m.flights[f], r), flights := m.flights[f := n.1])
      else m
    case Settle(f) =>
      if f in m.flights && m.flights[f].Done? then m.(flights := m.flights - {f}, slot := Leave(m.slot)) else m
    case Begin(id, pc) => if id in m.others then m else BeginStep(m, id, pc)
    case Continue(id, r) => if id in m.others then ContinueStep(m, id, r) else m
  }

  function After(acts: seq<Action>): Manager {
    if acts == [] then START else Step(After(acts[..|acts|-1]), acts[|acts|-1])
  }

  /** The manager with its fields; each method is what runs between two awaits. */
  class BridgeManager {
    const connectFlight: Flight
    var state: BridgeState
    var registry: Capabilities
    var flights: map<nat, ConnectPc>
    var others: map<nat, OtherPc>

    function Value(): Manager
      reads this, connectFlight
    {
      Manager(state, registry, connectFlight.Value(), flights, others)
    }

    constructor ()
      ensures Value() == START && fresh(connectFlight)
    {
      connectFlight := new Flight();
      state, registry, flights, others := INITIAL, {}, map[], map[];
    }

    /** A second caller joins the flight in progress; a new flight turns sending off at once. */
    method AutoConnectNow()
      modifies this, connectFlight
      ensures Value() == Step(old(Value()), Connect)
    {
      var joins := connectFlight.current.Some?;
      var id := connectFlight.Run();
      if !joins {
        flights := flights[id := Started];
        state := state.(status := Discovering, canSend := false);
      }
    }

    /** An await of a flight resolved or threw. */
    method ResumeFlight(f: nat, r: Reply)
      modifies this
      ensures Value() == Step(old(Value()), Resume(f, r))
    {
      if f !in flights { return; }
      var pc := flights[f];
      if pc.Syncing? && r.Resolved? { registry := r.caps; }
      var next := Advance(state, pc, r);
      state := next.0;
      flights := flights[f := next.1];
    }

    method SettleFlight(f: nat)
      modifies this, connectFlight
      ensures Value() == Step(old(Value()), Settle(f))
    {
      if f !in flights || !flights[f].Done? { return; }
      flights := flights - {f};
      connectFlight.Settled();
    }

    /** `reconnect`: the status changes, but not `canSend`. */
    method BeginReconnect(id: nat)
      requires id !in others
      modifies this
      ensures Value() == Step(old(Value()), Begin(id, Reconnect))
    {
      state := state.(status := Reconnecting);
      others := others[id := Reconnect];
    }

    /** The state was saved; then a flight is started or joined, unless saving failed. */
    method ContinueReconnect(id: nat, r: Reply)
      requires id in others && others[id].Reconnect?
      modifies this, connectFlight
      ensures Value() == Step(old(Value()), Continue(id, r))
    {
      others := others - {id};
      if r.Resolved? { AutoConnectNow(); }
    }
  }

  // ----- the invariant -----

  /** What may be sent on: a connected (or reconnecting) bridge with a compatible daemon and its own capabilities. */
  predicate Safe(m: Manager) {
    m.state.canSend ==>
      && (m.state.status.Connected? || m.state.status.Reconnecting?)
      && m.state.version.Some? && m.state.minimum.Some?
      && m.state.minimum.value <= m.state.version.value && m.state.minimum.value <= NOVA_PROTOCOL_VERSION
      && m.state.capabilities == Some(m.registry)
  }

  predicate HasPing(pc: ConnectPc) {
    || pc.Token? || pc.SavedAuth? || pc.Auth? || pc.Clearing? || pc.SavedPairing? || pc.Pair? || pc.StoringToken?
    || pc.SavedSync? || pc.Syncing? || pc.Synced?
  }

  /** A flight that has not reached its end keeps sending off, and carries what it has checked. */
  predicate FlightOk(s: BridgeState, registry: Capabilities, pc: ConnectPc) {
    && (!pc.Finishing? && !pc.Done? ==> !s.canSend)
    && (HasPing(pc) ==> Compatible(pc.ping))
    && (pc.Synced? ==> registry == pc.caps)
  }

  /** The slot names the one flight there is. */
  predicate OneFlight(m: Manager) {
    && (forall f | f in m.flights :: m.slot.current == Some(f) && f < m.slot.started)
    && (m.slot.current.Some? ==> m.slot.current.value in m.flights)
  }

  predicate Inv(m: Manager) {
    Safe(m) && OneFlight(m) && forall f | f in m.flights :: FlightOk(m.state, m.registry, m.flights[f])
  }

  lemma ConnectKeeps(m: Manager)
    requires Inv(m)
    ensures Inv(AutoConnect(m))
  {
    if m.slot.current.None? {
      var n := AutoConnect(m);
      forall f | f in n.flights ensures n.slot.current == Some(f) && f < n.slot.started {
        if f in m.flights { assert false; }
      }
    }
  }

  /** A resolved or thrown await leaves the flight in order and the published state safe. */
  lemma AdvanceKeeps(s: BridgeState, registry: Capabilities, pc: ConnectPc, r: Reply)
    requires FlightOk(s, registry, pc)
    requires Safe(Manager(s, registry, Slot(None, 0), map[], map[]))
    ensures var n := Advance(s, pc, r);
      var reg := Registry(registry, pc, r);
      FlightOk(n.0, reg, n.1) && Safe(Manager(n.0, reg, Slot(None, 0), map[], map[]))
  {
  }

  lemma ResumeKeeps(m: Manager, f: nat, r: Reply)
    requires Inv(m) && f in m.flights
    ensures Inv(Step(m, Resume(f, r)))
  {
    AdvanceKeeps(m.state, m.registry, m.flights[f], r);
    assert forall g | g in m.flights :: g == f;
  }

  lemma OtherKeeps(m: Manager, a: Action)
    requires Inv(m) && (a.Begin? || a.Continue?)
    ensures Inv(Step(m, a))
  {
    if a.Continue? && a.id in m.others {
      var gone := m.(others := m.others - {a.id});
      ConnectKeeps(gone);
    }
  }

  lemma SettleKeeps(m: Manager, f: nat)
    requires Inv(m)
    ensures Inv(Step(m, Settle(f)))
  {
  }

  lemma {:induction false} RunKeeps(acts: seq<Action>)
    ensures Inv(After(acts))
  {
    if acts != [] {
      var m := After(acts[..|acts|-1]);
      var a := acts[|acts|-1];
      RunKeeps(acts[..|acts|-1]);
      match a
      case Connect => ConnectKeeps(m);
      case Resume(f, r) => if f in m.flights { ResumeKeeps(m, f, r); }
      case Settle(f) => SettleKeeps(m, f);
      case _ => OtherKeeps(m, a);
    }
  }

  // ----- the theorems -----

  /**
   At every await of every interleaving of connects, reconnects, wake-ups and restarts:
   sending is on only with a compatible daemon whose capabilities are the published ones.
   */
  lemma SendingIsSafe(acts: seq<Action>)
    ensures Safe(After(acts))
  {
    RunKeeps(acts);
  }

  /** At most one connect flight is ever in progress, and joining callers get that one. */
  lemma AtMostOneFlight(acts: seq<Action>, f: nat, g: nat)
    requires f in After(acts).flights && g in After(acts).flights
    ensures f == g && Enter(After(acts).slot).1 == f
  {
    RunKeeps(acts);
  }

  /** While a flight is under way, nobody else can turn sending on. */
  lemma NoSendingDuringFlight(acts: seq<Action>, f: nat)
    requires f in After(acts).flights && !After(acts).flights[f].Finishing? && !After(acts).flights[f].Done?
    ensures !After(acts).state.canSend
  {
    RunKeeps(acts);
  }
}
