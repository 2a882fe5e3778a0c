// Across all steps, the current endpoint and the preferred relay name entries of the table.
module EndpointRuns {
  import opened Options
  import opened EndpointModel

  ghost predicate IsTable(m: map<Id, Endpoint>) {
    forall id :: id in m ==> m[id].id == id && (IsRelay(m[id]) ==> IsClean(id)) && (!IsRelay(m[id]) ==> IsReserved(id))
  }

  ghost predicate Inv(s: State) {
    && IsTable(s.endpoints)
    && s.current in s.endpoints
    && s.preferred in s.endpoints && IsRelay(s.endpoints[s.preferred])
  }

  lemma {:induction false} XorAssoc(a: Id, b: Id, c: Id)
    ensures Xor(Xor(a, b), c) == Xor(a, Xor(b, c))
    decreases a + b + c
  {
    hide Xor;
    if a != 0 || b != 0 || c != 0 {
      XorAssoc(a / 2, b / 2, c / 2);
    } else {
      XorSelf(0);
    }
    XorBits(a, b);
    XorBits(b, c);
    XorBits(Xor(a, b), c);
    XorBits(a, Xor(b, c));
    SameParity(a, b, c, Xor(a, b), Xor(b, c));
    SameHalves(Xor(Xor(a, b), c), Xor(a, Xor(b, c)));
  }

  lemma SameParity(a: nat, b: nat, c: nat, ab: nat, bc: nat)
    requires ab % 2 == (a + b) % 2 && bc % 2 == (b + c) % 2
    ensures (ab + c) % 2 == (a + bc) % 2
  {
  }

  lemma SameHalves(x: nat, y: nat)
    requires x % 2 == y % 2 && x / 2 == y / 2
    ensures x == y
  {
  }

  lemma XorBits(a: Id, b: Id)
    ensures Xor(a, b) % 2 == (a + b) % 2 && Xor(a, b) / 2 == Xor(a / 2, b / 2)
    ensures Xor(a, b) == (a + b) % 2 + 2 * Xor(a / 2, b / 2)
  {
  }

  lemma {:induction false} XorSelf(a: Id)
    ensures Xor(a, a) == 0 && Xor(a, 0) == a && Xor(0, a) == a
  {
    if a > 0 {
      XorSelf(a / 2);
    }
  }

  lemma {:induction false} XorSwap(a: Id, b: Id)
    ensures Xor(a, b) == Xor(b, a)
    decreases a + b
  {
    if a != 0 || b != 0 {
      XorSwap(a / 2, b / 2);
    }
  }

  // The ids that toggling leads to are among those that are not reserved.
  lemma CleanTwins(id: Id)
    requires IsClean(id)
    ensures IsClean(Xor(id, TCP)) && IsClean(Xor(id, IPV6))
  {
    hide IsReserved, Xor;
    XorSelf(TCP);
    XorSelf(IPV6);
    XorSelf(id);
    XorAssoc(id, TCP, TCP);
    XorAssoc(id, TCP, IPV6);
    XorAssoc(id, TCP, Xor(TCP, IPV6));
    XorAssoc(TCP, TCP, IPV6);
    XorAssoc(id, IPV6, IPV6);
    XorAssoc(id, IPV6, TCP);
    XorAssoc(id, IPV6, Xor(TCP, IPV6));
    XorAssoc(IPV6, IPV6, TCP);
    XorSwap(TCP, IPV6);
    XorSelf(Xor(TCP, IPV6));
    assert Xor(TCP, Xor(TCP, IPV6)) == IPV6;
    assert Xor(IPV6, Xor(TCP, IPV6)) == TCP;
  }

  // ----- adding relays -----

  ghost predicate AreRelays(es: seq<Endpoint>) {
    forall k :: 0 <= k < |es| ==> IsRelay(es[k]) && IsClean(es[k].id)
  }

  predicate Names(es: seq<Endpoint>, id: Id) {
    exists k :: 0 <= k < |es| && es[k].id == id
  }

  lemma {:induction false} PutAllKeeps(m: map<Id, Endpoint>, es: seq<Endpoint>)
    requires IsTable(m) && AreRelays(es)
    ensures IsTable(PutAll(m, es))
    ensures forall id :: id in PutAll(m, es) <==> id in m || Names(es, id)
    ensures forall id :: (id in m && IsRelay(m[id])) || Names(es, id) ==> IsRelay(PutAll(m, es)[id])
  {
    hide IsClean;
    if es != [] {
      var n := |es| - 1;
      PutAllKeeps(m, es[..n]);
      forall id ensures Names(es, id) <==> Names(es[..n], id) || es[n].id == id {
        if Names(es[..n], id) {
          var k :| 0 <= k < n && es[..n][k].id == id;
          assert es[k].id == id;
        }
        if Names(es, id) && es[n].id != id {
          var k :| 0 <= k <= n && es[k].id == id;
          assert es[..n][k].id == id;
        }
      }
      hide Names;
      var front, e := PutAll(m, es[..n]), es[n];
      assert PutAll(m, es) == front[e.id := e];
      assert IsRelay(e) && IsClean(e.id);
      assert IsTable(front);
      assert IsTable(front[e.id := e]);
    }
  }

  lemma {:induction false} TwinsAreRelays(m: map<Id, Endpoint>, order: seq<Id>)
    requires IsTable(m) && forall k :: 0 <= k < |order| ==> order[k] in m
    ensures AreRelays(IPv6Twins(m, order))
  {
    hide IsClean, Xor, IsReserved;
    if order != [] {
      var id := order[|order| - 1];
      TwinsAreRelays(m, order[..|order| - 1]);
      if IsRelay(m[id]) { CleanTwins(id); }
    }
  }

  lemma AddIPv6KeepsInv(s: State, order: seq<Id>)
    requires Inv(s) && forall k :: 0 <= k < |order| ==> order[k] in s.endpoints
    ensures Inv(AddIPv6Relays(s, order))
  {
    TwinsAreRelays(s.endpoints, order);
    PutAllKeeps(s.endpoints, IPv6Twins(s.endpoints, order));
    hide PutAll, IPv6Twins, IsClean;
  }

  // In the loop both names are in the table, or they name a relay that is about to be put
  // there; in that case the flag is down, so that the table is not asked for them.
  ghost predicate Adds(a: Adding) {
    && IsTable(a.state.endpoints) && AreRelays(a.relays)
    && (|| Inv(a.state)
        || (!a.state.f.setCurrentToTcp && a.state.current == a.state.preferred
            && Names(a.relays, a.state.current)))
  }

  lemma NamesMore(es: seq<Endpoint>, e: Endpoint, id: Id)
    ensures Names(es, id) ==> Names(es + [e], id)
    ensures Names(es + [e], e.id)
  {
    assert (es + [e])[|es|].id == e.id;
    if Names(es, id) {
      var k :| 0 <= k < |es| && es[k].id == id;
      assert (es + [e])[k].id == id;
    }
  }

  lemma TurnAdds(a: Adding, reset: bool, id: Id)
    requires Adds(a)
    ensures Adds(Turn(a, reset, id))
  {
    hide IsClean, Xor, IsReserved;
    if id in a.state.endpoints && a.state.endpoints[id].kind == UdpRelay {
      CleanTwins(id);
      var e := a.state.endpoints[id];
      var e' := if reset then e.(averageRtt := 0.0) else e;
      PutKeepsTable(a.state.endpoints, e');
      NamesMore(a.relays, OverTcp(e'), a.state.current);
      hide IsTable, Names;
      assert AreRelays(a.relays + [OverTcp(e')]);
      hide AreRelays;
    }
  }

  lemma {:induction false} LoopAdds(s: State, reset: bool, order: seq<Id>)
    requires Inv(s)
    ensures Adds(AddTcpLoop(s, reset, order))
  {
    hide Adds, Turn;
    if order == [] {
      NothingAdded(s);
    } else {
      var front, id := order[..|order| - 1], order[|order| - 1];
      LoopAdds(s, reset, front);
      TurnAdds(AddTcpLoop(s, reset, front), reset, id);
    }
  }

  lemma NothingAdded(s: State)
    requires Inv(s)
    ensures Adds(Adding(s, []))
  {
  }

  lemma AddTcpKeepsInv(s: State, order: seq<Id>)
    requires Inv(s)
    ensures Inv(AddTcpRelays(s, order))
  {
    var a := AddTcpLoop(s, s.f.setCurrentToTcp && !s.f.useUdp, order);
    LoopAdds(s, s.f.setCurrentToTcp && !s.f.useUdp, order);
    PutAllKeeps(a.state.endpoints, a.relays);
    hide PutAll, AddTcpLoop, IsClean;
  }

  // ----- the first endpoints -----

  // With relays given, the names point into the table just if there was no name yet and
  // something was given, or the old name is among the new ones.
  lemma GivenNames(s: State, es: seq<Endpoint>, allowP2p: bool)
    requires AreRelays(es)
    ensures Inv(Given(s, es, allowP2p)) <==>
      if s.current == 0 then es != [] else Names(es, s.current)
  {
    PutAllKeeps(map[], es);
    FirstNameIs(s.current, es);
    hide PutAll, IsClean, FirstName;
  }

  lemma {:induction false} FirstNameIs(current: Id, es: seq<Endpoint>)
    ensures current != 0 ==> FirstName(current, es) == current
    ensures current == 0 && es != [] ==> Names(es, FirstName(current, es))
    ensures FirstName(current, es) == 0 ==> forall k :: 0 <= k < |es| ==> es[k].id == 0
  {
    if es != [] {
      var n := |es| - 1;
      FirstNameIs(current, es[..n]);
      assert es == es[..n] + [es[n]];
      NamesMore(es[..n], es[n], FirstName(current, es[..n]));
    }
  }

  lemma SetRemoteEstablishesInv(s: State, es: seq<Endpoint>, allowP2p: bool, order: seq<Id>)
    requires AreRelays(es) && Enumerates(order, PutAll(map[], es))
    requires if s.current == 0 then es != [] else Names(es, s.current)
    ensures Inv(SetRemote(s, es, allowP2p, order))
  {
    GivenNames(s, es, allowP2p);
    AddIPv6KeepsInv(Given(s, es, allowP2p), order);
    hide PutAll, AddIPv6Relays;
  }

  // One relay is given, and later another one in its place: the name of the first is left.
  lemma SecondGivingDangles()
    ensures var e, f := Endpoint(1, UdpRelay, 1, 0, 0.0), Endpoint(2, UdpRelay, 2, 0, 0.0);
      var start := State(map[], 0, 0, Flags(true, true, false, false, false, false, false, false, 0));
      Enumerates([1], PutAll(map[], [e])) && Enumerates([2], PutAll(map[], [f]))
      && var once := SetRemote(start, [e], true, [1]);
      var twice := SetRemote(once, [f], true, [2]);
      && once.current == once.preferred == 1 && 1 in once.endpoints
      && twice.current == twice.preferred == 1 && 1 !in twice.endpoints
  {
    var e, f := Endpoint(1, UdpRelay, 1, 0, 0.0), Endpoint(2, UdpRelay, 2, 0, 0.0);
    assert [e][..0] == [] && [f][..0] == [];
    assert PutAll(map[], [e]) == map[1 := e] && PutAll(map[], [f]) == map[2 := f];
    assert FirstName(0, [e]) == 1 && FirstName(1, [f]) == 1;
  }

  // ----- the other steps -----

  datatype Step =
    | GotPeerInfo(address: nat)
    | GotPacket(source: Id, peerSilent: bool)
    | GotInit(source: Id, udpWorks: bool)
    | GotLan(address: nat, asExtra: bool)
    | GotIPv6(address: nat)
    | PeerNetworkChanged
    | TimedOut
    | EvaluatedUdp(avgPongs: real, bad: bool, order: seq<Id>)
    | PingedRelays(t: Thresholds, order: seq<Id>)
    | OwnIPv6(address: nat, order: seq<Id>)
    | AskedPeerInfo
    | Measured(id: Id, rtt: real)

  ghost predicate Enabled(s: State, step: Step) {
    match step
    case GotPacket(source, _) => source in s.endpoints
    case GotInit(source, _) => source in s.endpoints
    case PingedRelays(_, order) => Enumerates(order, s.endpoints)
    case OwnIPv6(_, order) => Enumerates(order, s.endpoints)
    case Measured(id, _) => id in s.endpoints
    case _ => true
  }

  ghost function Next(s: State, step: Step): State
    requires s.current in s.endpoints && s.preferred in s.endpoints && Enabled(s, step)
  {
    match step
    case GotPeerInfo(address) => PeerInfo(s, address)
    case GotPacket(source, silent) => PacketFrom(s, source, silent)
    case GotInit(source, udpWorks) => InitFrom(s, source, udpWorks)
    case GotLan(address, asExtra) => LanEndpoint(s, address, asExtra)
    case GotIPv6(address) => IPv6Endpoint(s, address)
    case PeerNetworkChanged => BackToRelay(s)
    case TimedOut => Timeout(s)
    case EvaluatedUdp(avgPongs, bad, order) => UdpEvaluated(s, avgPongs, bad, order)
    case PingedRelays(t, order) => RelayPings(s, t, order)
    case OwnIPv6(address, order) => AddIPv6Relays(s.(f := s.f.(myIPv6 := address)), order)
    case AskedPeerInfo => s.(f := s.f.(waitingForPeerInfo := true))
    case Measured(id, rtt) => s.(endpoints := s.endpoints[id := s.endpoints[id].(averageRtt := rtt)])
  }

  lemma {:induction false} BestIsRelay(s: State, t: Thresholds, order: seq<Id>)
    requires Inv(s) && forall k :: 0 <= k < |order| ==> order[k] in s.endpoints
    ensures var best := BestRelay(s, t, order); best.id in s.endpoints && IsRelay(s.endpoints[best.id])
  {
    if order != [] {
      BestIsRelay(s, t, order[..|order| - 1]);
    }
  }

  lemma PingsKeepInv(s: State, t: Thresholds, order: seq<Id>)
    requires Inv(s) && Enumerates(order, s.endpoints)
    ensures Inv(RelayPings(s, t, order))
  {
    hide IsClean, Xor, IsTable, Below, IsReserved, Weighted, IsFaster, IsSlower;
    BestIsRelay(s, t, order);
    var best := BestRelay(s, t, order);
    hide BestRelay, IsTable, Below, Enumerates;
    var p := Prefer(s, best.id);
    SwitchKeepsInv(p, t, best.ping);
  }

  lemma SwitchKeepsInv(s: State, t: Thresholds, ping: Ping)
    requires Inv(s)
    ensures Inv(Switch(s, t, ping))
  {
    hide IsClean, Xor, IsTable, Below;
  }

  lemma StepKeepsInv(s: State, step: Step)
    requires Inv(s) && Enabled(s, step)
    ensures Inv(Next(s, step))
  {
    hide IsClean;
    match step
    case EvaluatedUdp(avgPongs, bad, order) => UdpKeepsInv(s, avgPongs, bad, order);
    case PingedRelays(t, order) => PingsKeepInv(s, t, order);
    case OwnIPv6(address, order) => AddIPv6KeepsInv(s.(f := s.f.(myIPv6 := address)), order);
    case _ => OtherStepKeepsInv(s, step);
  }

  lemma UdpKeepsInv(s: State, avgPongs: real, bad: bool, order: seq<Id>)
    requires Inv(s)
    ensures Inv(UdpEvaluated(s, avgPongs, bad, order))
  {
    hide AddTcpRelays, IsTable;
    AddTcpKeepsInv(WithoutUdp(s, avgPongs), order);
    AddTcpKeepsInv(s.(f := s.f.(useTcp := true, setCurrentToTcp := true)), order);
  }

  // Changing an entry that keeps its id and stays a relay if it was one.
  lemma PutKeepsTable(m: map<Id, Endpoint>, e: Endpoint)
    requires IsTable(m) && (if IsRelay(e) then IsClean(e.id) else IsReserved(e.id))
    ensures IsTable(m[e.id := e])
  {
    hide IsClean, IsReserved;
  }

  // A relay is never under a reserved id.
  lemma RelayIsNotReserved(s: State)
    requires Inv(s)
    ensures !IsReserved(s.preferred)
  {
  }

  lemma ErasedIsTable(m: map<Id, Endpoint>, id: Id)
    requires IsTable(m)
    ensures IsTable(m - {id})
  {
    hide IsClean, IsReserved;
  }

  lemma PeerInfoKeepsInv(s: State, address: nat)
    requires Inv(s)
    ensures Inv(PeerInfo(s, address))
  {
    hide IsClean, Xor, IsTable;
    RelayIsNotReserved(s);
    ErasedIsTable(s.endpoints, LAN4);
    PutKeepsTable(s.endpoints - {LAN4}, Endpoint(P2P4, P2pInet, address, 0, 0.0));
  }

  lemma LanKeepsInv(s: State, address: nat, asExtra: bool)
    requires Inv(s)
    ensures Inv(LanEndpoint(s, address, asExtra))
  {
    hide IsClean, Xor, IsTable;
    RelayIsNotReserved(s);
    PutKeepsTable(s.endpoints, Endpoint(LAN4, P2pLan, address, 0, 0.0));
  }

  lemma IPv6KeepsInv(s: State, address: nat)
    requires Inv(s)
    ensures Inv(IPv6Endpoint(s, address))
  {
    hide IsClean, Xor, IsTable;
    RelayIsNotReserved(s);
    PutKeepsTable(s.endpoints, Endpoint(P2P6, P2pInet, 0, address, 0.0));
  }

  lemma TimeoutKeepsInv(s: State)
    requires Inv(s)
    ensures Inv(Timeout(s))
  {
    hide IsClean, IsReserved;
  }

  lemma MeasuredKeepsInv(s: State, id: Id, rtt: real)
    requires Inv(s) && id in s.endpoints
    ensures Inv(s.(endpoints := s.endpoints[id := s.endpoints[id].(averageRtt := rtt)]))
  {
    hide IsClean, IsReserved;
  }

  lemma OtherStepKeepsInv(s: State, step: Step)
    requires Inv(s) && Enabled(s, step) && !step.EvaluatedUdp? && !step.PingedRelays? && !step.OwnIPv6?
    ensures Inv(Next(s, step))
  {
    match step
    case GotPeerInfo(address) => PeerInfoKeepsInv(s, address);
    case GotLan(address, asExtra) => LanKeepsInv(s, address, asExtra);
    case GotIPv6(address) => IPv6KeepsInv(s, address);
    case TimedOut => TimeoutKeepsInv(s);
    case Measured(id, rtt) => MeasuredKeepsInv(s, id, rtt);
    case _ => NamesKeepInv(s, step);
  }

  // These steps leave the table as it is.
  lemma NamesKeepInv(s: State, step: Step)
    requires Inv(s) && Enabled(s, step)
    requires step.GotPacket? || step.GotInit? || step.PeerNetworkChanged? || step.AskedPeerInfo?
    ensures Inv(Next(s, step))
  {
    hide IsClean, Xor, IsTable, IsReserved;
  }

  // The state after a run; None once a step is not enabled, or would look up a name that is
  // not in the table.
  ghost function After(s: State, run: seq<Step>): Option<State> {
    if run == [] then Some(s)
    else
      var before, step := After(s, run[..|run| - 1]), run[|run| - 1];
      if before.Some? && before.value.current in before.value.endpoints && before.value.preferred in before.value.endpoints
         && Enabled(before.value, step)
      then Some(Next(before.value, step)) else None
  }

  ghost predicate EnabledAlong(s: State, run: seq<Step>) {
    forall k :: 0 <= k < |run| && After(s, run[..k]).Some? ==> Enabled(After(s, run[..k]).value, run[k])
  }

  // From the first endpoints on, no lookup of either name fails, and the preferred relay is
  // a relay.
  lemma {:induction false} RunKeepsInv(s: State, run: seq<Step>)
    requires Inv(s) && EnabledAlong(s, run)
    ensures After(s, run).Some? && Inv(After(s, run).value)
  {
    hide IsTable, IsClean, Enabled;
    if run != [] {
      var n := |run| - 1;
      assert forall k :: 0 <= k < n ==> run[..n][..k] == run[..k];
      RunKeepsInv(s, run[..n]);
      hide Next;
      StepKeepsInv(After(s, run[..n]).value, run[n]);
    }
  }
}
