/** What a connect flight that nobody disturbs comes to, for every way its awaits can turn out. */
module BridgeOutcome {
  import opened Wrappers
  import opened SingleFlight
  import opened Bridge

  /** The reply to each await of a flight; only those on its way are looked at. */
  datatype Script = Script(
    saved: Reply, native: Reply, discovery: Reply, transport: Reply, refused: Reply, daemon: Reply, ping: Reply,
    token: Reply, authSaved: Reply, auth: Reply, cleared: Reply, pairSaved: Reply, paired: Reply, stored: Reply,
    syncSaved: Reply, caps: Reply, synced: Reply, finished: Reply, failed: Reply)

  function ReplyTo(sc: Script, pc: ConnectPc): Reply {
    match pc
    case Started => sc.saved
    case SavedNative => sc.native
    case Discovery => sc.discovery
    case SavedTransport(_) => sc.transport
    case Refused => sc.refused
    case SavedDaemon(_) => sc.daemon
    case Pinging(_) => sc.ping
    case Token(_, _) => sc.token
    case SavedAuth(_, _) => sc.authSaved
    case Auth(_, _) => sc.auth
    case Clearing(_, _) => sc.cleared
    case SavedPairing(_, _) => sc.pairSaved
    case Pair(_, _) => sc.paired
    case StoringToken(_, _) => sc.stored
    case SavedSync(_, _) => sc.syncSaved
    case Syncing(_, _) => sc.caps
    case Synced(_, _, _) => sc.synced
    case Finishing => sc.finished
    case Failing => sc.failed
    case Done => sc.failed
  }

  function Rank(pc: ConnectPc): nat {
    match pc
    case Started => 19 case SavedNative => 18 case Discovery => 17 case SavedTransport(_) => 16 case SavedDaemon(_) => 15
    case Pinging(_) => 14 case Token(_, _) => 13 case SavedAuth(_, _) => 12 case Auth(_, _) => 11 case Clearing(_, _) => 10
    case SavedPairing(_, _) => 9 case Pair(_, _) => 8 case StoringToken(_, _) => 7 case SavedSync(_, _) => 6
    case Syncing(_, _) => 5 case Synced(_, _, _) => 4 case Finishing => 3 case Refused => 2 case Failing => 1 case Done => 0
  }

  /** The published state and the registry when the flight is done. */
  function Land(s: BridgeState, registry: Capabilities, pc: ConnectPc, sc: Script): (BridgeState, Capabilities)
    decreases Rank(pc)
  {
    if pc.Done? then (s, registry) else
      var n := Advance(s, pc, ReplyTo(sc, pc));
      Land(n.0, Registry(registry, pc, ReplyTo(sc, pc)), n.1, sc)
  }

  // ----- the same without steps -----

  datatype Ending =
    | Unsaved
    | Lost(expired: bool)
    | Refusal(status: Status)
    | Up

  /** What the reply throws, if it does. */
  function Throws(r: Reply): Option<bool> {
    if r.Thrown? then Some(r.expired) else None
  }

  function Then(a: Option<bool>, b: Option<bool>): Option<bool> {
    if a.Some? then a else b
  }

  predicate TokenAccepted(sc: Script) {
    sc.token.Resolved? && sc.token.token && sc.authSaved.Resolved? && sc.auth.Resolved?
  }

  /** What goes wrong with pairing, which a stored token that is accepted makes unnecessary. */
  function PairingThrows(sc: Script): Option<bool> {
    if TokenAccepted(sc) then None
    else
      Then(if sc.token.Resolved? && sc.token.token then Throws(sc.cleared) else None,
           Then(Throws(sc.pairSaved), Then(Throws(sc.paired), Throws(sc.stored))))
  }

  function SyncThrows(sc: Script): Option<bool> {
    Then(Throws(sc.syncSaved), Then(Throws(sc.caps), Then(Throws(sc.synced), Throws(sc.finished))))
  }

  function RefusedWith(sc: Script, status: Status): Ending {
    if sc.refused.Thrown? then Lost(sc.refused.expired) else Refusal(status)
  }

  function LostOr(t: Option<bool>, e: Ending): Ending {
    if t.Some? then Lost(t.value) else e
  }

  predicate Usable(p: Ping) {
    p.minimum <= p.version && p.minimum <= 4
  }

  function PairedEnding(sc: Script): Ending {
    LostOr(PairingThrows(sc), LostOr(SyncThrows(sc), Up))
  }

  function PingedEnding(sc: Script, p: Ping): Ending {
    if !p.enabled then RefusedWith(sc, IntegrationDisabled)
    else if !Usable(p) then RefusedWith(sc, ProtocolMismatch)
    else LostOr(Throws(sc.token), PairedEnding(sc))
  }

  function FoundEnding(sc: Script, f: Found): Ending {
    if !f.http then RefusedWith(sc, if f.native then Degraded else Offline)
    else LostOr(Then(Throws(sc.daemon), Throws(sc.ping)), if sc.ping.Thrown? then Unsaved else PingedEnding(sc, sc.ping.ping))
  }

  /** How the flight ends: by the first reply that fails it. */
  function EndingOf(sc: Script): Ending {
    if sc.saved.Thrown? then Unsaved
    else LostOr(Then(Throws(sc.native), Then(Throws(sc.discovery), Throws(sc.transport))),
                if sc.discovery.Thrown? then Unsaved else FoundEnding(sc, sc.discovery.found))
  }

  /** The published state belongs to the ending. */
  predicate Published(r: (BridgeState, Capabilities), e: Ending, sc: Script) {
    match e
    case Unsaved => r.0.status.Discovering? && !r.0.canSend
    case Lost(expired) => r.0.status == (if expired then TokenExpired else Offline) && !r.0.canSend
    case Refusal(status) =>
      && r.0.status == status && !r.0.canSend
      && (status.ProtocolMismatch? ==>
            sc.ping.Resolved? && r.0.version == Some(sc.ping.ping.version) && r.0.minimum == Some(sc.ping.ping.minimum))
    case Up =>
      && r.0.status.Connected? && r.0.canSend
      && sc.discovery.Resolved? && r.0.transport == (if sc.discovery.found.transport.Some? then sc.discovery.found.transport else Some(Http))
      && sc.ping.Resolved? && r.0.version == Some(sc.ping.ping.version) && r.0.minimum == Some(sc.ping.ping.minimum)
      && sc.caps.Resolved? && r.0.capabilities == Some(sc.caps.caps) && r.1 == sc.caps.caps
  }

  // ----- they agree -----

  lemma LandStep(s: BridgeState, registry: Capabilities, pc: ConnectPc, sc: Script, s': BridgeState, pc': ConnectPc)
    requires !pc.Done? && !pc.Syncing? && Advance(s, pc, ReplyTo(sc, pc)) == (s', pc')
    ensures Land(s, registry, pc, sc) == Land(s', registry, pc', sc)
  {
  }

  lemma LandFailing(s: BridgeState, registry: Capabilities, sc: Script)
    ensures Land(s, registry, Failing, sc) == (s, registry)
  {
  }

  lemma LandRefused(s: BridgeState, registry: Capabilities, sc: Script)
    requires !s.canSend
    requires s.status.ProtocolMismatch? ==>
      sc.ping.Resolved? && s.version == Some(sc.ping.ping.version) && s.minimum == Some(sc.ping.ping.minimum)
    ensures Published(Land(s, registry, Refused, sc), RefusedWith(sc, s.status), sc)
  {
  }

  /** From here on a thrown reply ends the flight. */
  predicate Final(pc: ConnectPc) {
    !pc.Started? && !pc.Failing? && !pc.Done? && !pc.SavedAuth? && !pc.Auth?
  }

  lemma LandThrown(s: BridgeState, registry: Capabilities, pc: ConnectPc, sc: Script)
    requires Final(pc) && ReplyTo(sc, pc).Thrown?
    ensures Published(Land(s, registry, pc, sc), Lost(ReplyTo(sc, pc).expired), sc)
  {
    LandFailing(Advance(s, pc, ReplyTo(sc, pc)).0, registry, sc);
  }

  lemma LandSynced(s: BridgeState, registry: Capabilities, f: Found, p: Ping, sc: Script)
    requires !s.canSend && sc.caps.Resolved? && registry == sc.caps.caps
    requires sc.discovery.Resolved? && f == sc.discovery.found && sc.ping.Resolved? && p == sc.ping.ping
    ensures Published(Land(s, registry, Synced(f, p, sc.caps.caps), sc), LostOr(Then(Throws(sc.synced), Throws(sc.finished)), Up), sc)
  {
    var pc := Synced(f, p, sc.caps.caps);
    if sc.synced.Thrown? {
      LandThrown(s, registry, pc, sc);
    } else {
      var up := Advance(s, pc, sc.synced).0;
      if sc.finished.Thrown? { LandThrown(up, registry, Finishing, sc); }
    }
  }

  lemma LandSync(s: BridgeState, registry: Capabilities, f: Found, p: Ping, sc: Script)
    requires !s.canSend && sc.discovery.Resolved? && f == sc.discovery.found && sc.ping.Resolved? && p == sc.ping.ping
    ensures Published(Land(s, registry, SavedSync(f, p), sc), LostOr(SyncThrows(sc), Up), sc)
  {
    if sc.syncSaved.Thrown? {
      LandThrown(s, registry, SavedSync(f, p), sc);
    } else if sc.caps.Thrown? {
      LandThrown(s, registry, Syncing(f, p), sc);
    } else {
      LandSynced(s, sc.caps.caps, f, p, sc);
    }
  }

  lemma LandPairing(s: BridgeState, registry: Capabilities, f: Found, p: Ping, sc: Script)
    requires !s.canSend && sc.discovery.Resolved? && f == sc.discovery.found && sc.ping.Resolved? && p == sc.ping.ping
    ensures Published(Land(s, registry, SavedPairing(f, p), sc),
                      LostOr(Then(Throws(sc.pairSaved), Then(Throws(sc.paired), Throws(sc.stored))), LostOr(SyncThrows(sc), Up)), sc)
  {
    if sc.pairSaved.Thrown? {
      LandThrown(s, registry, SavedPairing(f, p), sc);
    } else {
      LandStep(s, registry, SavedPairing(f, p), sc, s, Pair(f, p));
      if sc.paired.Thrown? {
        LandThrown(s, registry, Pair(f, p), sc);
      } else {
        LandStep(s, registry, Pair(f, p), sc, s, StoringToken(f, p));
        if sc.stored.Thrown? {
          LandThrown(s, registry, StoringToken(f, p), sc);
        } else {
          LandStep(s, registry, StoringToken(f, p), sc, s.(status := CapabilitySyncing), SavedSync(f, p));
          LandSync(s.(status := CapabilitySyncing), registry, f, p, sc);
        }
      }
    }
  }

  lemma LandClearing(s: BridgeState, registry: Capabilities, f: Found, p: Ping, sc: Script)
    requires !s.canSend && sc.discovery.Resolved? && f == sc.discovery.found && sc.ping.Resolved? && p == sc.ping.ping
    requires sc.token.Resolved? && sc.token.token && !TokenAccepted(sc)
    ensures Published(Land(s, registry, Clearing(f, p), sc), PairedEnding(sc), sc)
  {
    if sc.cleared.Thrown? {
      LandThrown(s, registry, Clearing(f, p), sc);
    } else {
      LandPairing(s.(status := Pairing), registry, f, p, sc);
    }
  }

  lemma LandToken(s: BridgeState, registry: Capabilities, f: Found, p: Ping, sc: Script)
    requires !s.canSend && sc.discovery.Resolved? && f == sc.discovery.found && sc.ping.Resolved? && p == sc.ping.ping
    ensures Published(Land(s, registry, Token(f, p), sc), LostOr(Throws(sc.token), PairedEnding(sc)), sc)
  {
    if sc.token.Thrown? {
      LandThrown(s, registry, Token(f, p), sc);
    } else if !sc.token.token {
      LandPairing(s.(status := Pairing), registry, f, p, sc);
    } else {
      var checking := s.(status := AuthChecking);
      LandStep(s, registry, Token(f, p), sc, checking, SavedAuth(f, p));
      if sc.authSaved.Thrown? {
        LandStep(checking, registry, SavedAuth(f, p), sc, checking, Clearing(f, p));
        LandClearing(checking, registry, f, p, sc);
      } else {
        LandStep(checking, registry, SavedAuth(f, p), sc, checking, Auth(f, p));
        if sc.auth.Thrown? {
          LandStep(checking, registry, Auth(f, p), sc, checking, Clearing(f, p));
          LandClearing(checking, registry, f, p, sc);
        } else {
          var syncing := checking.(status := CapabilitySyncing);
          LandStep(checking, registry, Auth(f, p), sc, syncing, SavedSync(f, p));
          LandSync(syncing, registry, f, p, sc);
        }
      }
    }
  }

  lemma LandPinged(s: BridgeState, registry: Capabilities, f: Found, sc: Script)
    requires !s.canSend && sc.discovery.Resolved? && f == sc.discovery.found && sc.ping.Resolved?
    ensures Published(Land(s, registry, Pinging(f), sc), PingedEnding(sc, sc.ping.ping), sc)
  {
    var n := Advance(s, Pinging(f), sc.ping);
    if n.1.Refused? { LandRefused(n.0, registry, sc); } else { LandToken(n.0, registry, f, sc.ping.ping, sc); }
  }

  lemma LandFound(s: BridgeState, registry: Capabilities, f: Found, sc: Script)
    requires !s.canSend && sc.discovery.Resolved? && f == sc.discovery.found && sc.transport.Resolved?
    ensures Published(Land(s, registry, SavedTransport(f), sc), FoundEnding(sc, f), sc)
  {
    var n := Advance(s, SavedTransport(f), sc.transport);
    if n.1.Refused? {
      LandRefused(n.0, registry, sc);
    } else if sc.daemon.Thrown? {
      LandThrown(n.0, registry, SavedDaemon(f), sc);
    } else if sc.ping.Thrown? {
      LandThrown(n.0, registry, Pinging(f), sc);
    } else {
      LandPinged(n.0, registry, f, sc);
    }
  }

  lemma LandStarted(s: BridgeState, registry: Capabilities, sc: Script)
    requires s.status.Discovering? && !s.canSend
    ensures Published(Land(s, registry, Started, sc), EndingOf(sc), sc)
  {
    var checking := s.(status := NativeChecking);
    if sc.saved.Thrown? {
    } else if sc.native.Thrown? {
      LandThrown(checking, registry, SavedNative, sc);
    } else if sc.discovery.Thrown? {
      LandThrown(checking, registry, Discovery, sc);
    } else {
      var found := checking.(transport := sc.discovery.found.transport);
      if sc.transport.Thrown? {
        LandThrown(found, registry, SavedTransport(sc.discovery.found), sc);
      } else {
        LandFound(found, registry, sc.discovery.found, sc);
      }
    }
  }

  // ----- as a run of the manager -----

  function Run(m: Manager, acts: seq<Action>): Manager
    decreases acts
  {
    if acts == [] then m else Run(Step(m, acts[0]), acts[1..])
  }

  /** Only the awaits of flight `f` come back, each with the reply of the script, until it is done. */
  predicate Follows(m: Manager, acts: seq<Action>, f: nat, sc: Script)
    decreases acts
  {
    if acts == [] then f in m.flights && m.flights[f].Done?
    else
      && f in m.flights && !m.flights[f].Done? && acts[0] == Resume(f, ReplyTo(sc, m.flights[f]))
      && Follows(Step(m, acts[0]), acts[1..], f, sc)
  }

  lemma {:induction false} LandIsRun(m: Manager, f: nat, sc: Script) returns (acts: seq<Action>)
    requires f in m.flights
    ensures Follows(m, acts, f, sc)
    ensures var n := Run(m, acts);
      f in n.flights && n.flights[f].Done? && (n.state, n.registry) == Land(m.state, m.registry, m.flights[f], sc)
    decreases if f in m.flights then Rank(m.flights[f]) else 0
  {
    acts := [];
    if !m.flights[f].Done? {
      var a := Resume(f, ReplyTo(sc, m.flights[f]));
      var more := LandIsRun(Step(m, a), f, sc);
      acts := [a] + more;
      assert acts[1..] == more;
    }
  }

  /**
   From any manager without a flight in progress, a connect that nobody disturbs runs to its
   end and publishes what belongs to the first reply that fails it, or the connection.
   */
  lemma ConnectEnds(m: Manager, sc: Script) returns (acts: seq<Action>, f: nat)
    requires m.slot.current.None?
    ensures Follows(AutoConnect(m), acts, f, sc)
    ensures var n := Run(AutoConnect(m), acts);
      f in n.flights && n.flights[f].Done? && Published((n.state, n.registry), EndingOf(sc), sc)
  {
    var m1 := AutoConnect(m);
    f := m.slot.started;
    acts := LandIsRun(m1, f, sc);
    LandStarted(m1.state, m1.registry, sc);
  }

  /** Every reply on the way to the connection. */
  predicate AllResolve(sc: Script) {
    && sc.saved.Resolved? && sc.native.Resolved? && sc.discovery.Resolved? && sc.transport.Resolved? && sc.daemon.Resolved?
    && sc.ping.Resolved? && sc.token.Resolved? && sc.syncSaved.Resolved? && sc.caps.Resolved? && sc.synced.Resolved? && sc.finished.Resolved?
  }

  predicate Pairs(sc: Script) {
    && (sc.token.Resolved? && sc.token.token ==> sc.cleared.Resolved?)
    && sc.pairSaved.Resolved? && sc.paired.Resolved? && sc.stored.Resolved?
  }

  /**
   Sending is on at the end exactly when the service was found over HTTP, integration is
   enabled, the versions are compatible, the stored token was accepted or pairing succeeded,
   the capabilities arrived, and every state on the way was saved.
   */
  lemma SendingExactly(m: Manager, sc: Script) returns (acts: seq<Action>, f: nat)
    requires m.slot.current.None?
    ensures Follows(AutoConnect(m), acts, f, sc)
    ensures var n := Run(AutoConnect(m), acts);
      && f in n.flights && n.flights[f].Done?
      && (n.state.canSend <==>
            && AllResolve(sc) && sc.discovery.found.http && sc.ping.ping.enabled
            && sc.ping.ping.minimum <= sc.ping.ping.version && sc.ping.ping.minimum <= 4
            && (TokenAccepted(sc) || Pairs(sc)))
  {
    acts, f := ConnectEnds(m, sc);
  }

  // ----- the other activities -----

  /** A reconnect announces itself and goes on sending, a wake-up stops sending at once, a restart waits for storage. */
  lemma BeginsAs(m: Manager, id: nat)
    requires id !in m.others
    ensures var n := Step(m, Begin(id, Reconnect)); n == m.(others := m.others[id := Reconnect], state := n.state) && n.state == m.state.(status := Reconnecting)
    ensures var n := Step(m, Begin(id, Wake)); id in n.others && n.state.status.Booting? && !n.state.canSend && n.slot == m.slot
    ensures var n := Step(m, Begin(id, Load)); n == m.(others := m.others[id := Load])
  {
  }

  /** Once its state is saved, a reconnect is in a flight, a new one or the one in progress; if saving failed it is over. */
  lemma ReconnectFlies(m: Manager, id: nat, r: Reply)
    requires id in m.others && m.others[id].Reconnect?
    ensures var n := Step(m, Continue(id, r));
      && id !in n.others
      && (r.Resolved? ==> n.slot.current.Some? && (m.slot.current.Some? ==> n.slot == m.slot && n.state == m.state))
      && (r.Thrown? ==> n.state == m.state && n.slot == m.slot)
  {
  }

  /** A wake-up flies when the desktop answers; otherwise the bridge is offline and does not send. */
  lemma WakeUpEnds(m: Manager, id: nat, r: Reply)
    requires id in m.others && m.others[id].WakeNative?
    ensures var n := Step(m, Continue(id, r));
      if r.Resolved? && r.available then id !in n.others && n.slot.current.Some?
      else n.state.status.Offline? && !n.state.canSend && n.slot == m.slot
  {
  }

  /** A restart takes over the stored state without the right to send, and does not believe that it is connected. */
  lemma RestartForgets(m: Manager, id: nat, r: Reply)
    requires id in m.others && m.others[id].Load? && r.Resolved?
    ensures var n := Step(m, Continue(id, r));
      && !n.state.canSend && !n.state.status.Connected?
      && n.state.(status := r.stored.status, canSend := r.stored.canSend) == r.stored
      && (!r.stored.status.Connected? ==> n.state.status == r.stored.status)
      && (r.stored.status.Connected? ==> n.state.status.Booting?)
  {
  }
}
