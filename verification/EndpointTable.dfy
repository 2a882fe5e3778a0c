// The endpoints of the controller, whose table and names are changed in place. The order in
// which a loop meets the entries of the table is a parameter.
module EndpointTable {
  import opened EndpointModel
  import R = EndpointRuns

  class Controller {
    var endpoints: map<Id, Endpoint>
    var currentEndpoint: Id
    var preferredRelay: Id
    var f: Flags

    ghost function Value(): State
      reads this
    {
      State(endpoints, currentEndpoint, preferredRelay, f)
    }

    // Both names point into the table.
    ghost predicate Valid()
      reads this
    {
      R.Inv(Value())
    }

    constructor (myIPv6: nat)
      ensures Value() == State(map[], 0, 0, Flags(true, true, false, false, false, false, false, false, myIPv6))
    {
      endpoints, currentEndpoint, preferredRelay := map[], 0, 0;
      f := Flags(true, true, false, false, false, false, false, false, myIPv6);
    }

    method TakeOne(e: Endpoint)
      modifies `endpoints, `currentEndpoint, `f
      ensures endpoints == old(endpoints)[e.id := e]
      ensures currentEndpoint == if old(currentEndpoint) == 0 then e.id else old(currentEndpoint)
      ensures f == old(f).(didAddTcp := old(f).didAddTcp || e.kind == TcpRelay,
                           useTcp := old(f).useTcp && e.kind != UdpRelay)
    {
      endpoints := endpoints[e.id := e];
      if currentEndpoint == 0 {
        currentEndpoint := e.id;
      }
      if e.kind == TcpRelay {
        f := f.(didAddTcp := true);
      }
      if e.kind == UdpRelay {
        f := f.(useTcp := false);
      }
    }

    // The loop takes the first id as current if there was none.
    method Give(es: seq<Endpoint>, allowP2p: bool)
      modifies this
      ensures Value() == Given(old(Value()), es, allowP2p)
    {
      hide PutAll, HasKind, FirstName;
      NoneGiven(currentEndpoint, es);
      preferredRelay := 0;
      endpoints := map[];
      f := f.(didAddTcp := false, useTcp := true);
      for k := 0 to |es|
        invariant endpoints == PutAll(map[], es[..k])
        invariant currentEndpoint == FirstName(old(currentEndpoint), es[..k])
        invariant f == old(f).(didAddTcp := HasKind(es[..k], TcpRelay),
                               useTcp := !HasKind(es[..k], UdpRelay))
      {
        OneMore(old(currentEndpoint), es, k);
        TakeOne(es[k]);
      }
      assert es[..|es|] == es;
      preferredRelay := currentEndpoint;
      f := f.(allowP2p := allowP2p);
    }

    method SetRemoteEndpoints(es: seq<Endpoint>, allowP2p: bool, order: seq<Id>)
      requires Enumerates(order, PutAll(map[], es))
      modifies this
      ensures Value() == SetRemote(old(Value()), es, allowP2p, order)
      ensures R.AreRelays(es) && (if old(currentEndpoint) == 0 then es != [] else R.Names(es, old(currentEndpoint)))
        ==> Valid()
    {
      hide PutAll, EndpointModel.AddIPv6Relays, R.AreRelays, R.Inv;
      if R.AreRelays(es) && (if currentEndpoint == 0 then es != [] else R.Names(es, currentEndpoint)) {
        R.SetRemoteEstablishesInv(Value(), es, allowP2p, order);
      }
      Give(es, allowP2p);
      AddTwins(order);
    }

    method PutEach(es: seq<Endpoint>)
      modifies `endpoints
      ensures endpoints == PutAll(old(endpoints), es)
    {
      for k := 0 to |es|
        invariant endpoints == PutAll(old(endpoints), es[..k])
      {
        assert es[..k + 1][..k] == es[..k];
        endpoints := endpoints[es[k].id := es[k]];
      }
      assert es[..|es|] == es;
    }

    method AddIPv6Relays(order: seq<Id>)
      requires Valid() && forall k :: 0 <= k < |order| ==> order[k] in endpoints
      modifies this
      ensures Valid() && Value() == EndpointModel.AddIPv6Relays(old(Value()), order)
    {
      hide R.Inv, EndpointModel.AddIPv6Relays;
      R.AddIPv6KeepsInv(Value(), order);
      AddTwins(order);
    }

    method AddTwins(order: seq<Id>)
      requires forall k :: 0 <= k < |order| ==> order[k] in endpoints
      modifies this
      ensures Value() == EndpointModel.AddIPv6Relays(old(Value()), order)
    {
      hide PutAll, IPv6Twins;
      if f.myIPv6 == 0 || f.didAddIPv6 {
        return;
      }
      var twins := FindTwins(order);
      f := f.(didAddIPv6 := twins != []);
      PutEach(twins);
    }

    method FindTwins(order: seq<Id>) returns (twins: seq<Endpoint>)
      requires forall k :: 0 <= k < |order| ==> order[k] in endpoints
      ensures twins == IPv6Twins(endpoints, order)
    {
      hide OverIPv6;
      twins := [];
      for k := 0 to |order|
        invariant twins == IPv6Twins(endpoints, order[..k])
      {
        assert order[..k + 1][..k] == order[..k];
        var e := endpoints[order[k]];
        if (e.kind == UdpRelay || e.kind == TcpRelay) && e.v6 != 0 && e.v4 != 0 {
          twins := twins + [OverIPv6(e)];
        }
      }
      assert order[..|order|] == order;
    }

    // The source looks up the current endpoint with `at`, which throws for a missing one.
    method CurrentKind() returns (kind: Kind)
      requires currentEndpoint in endpoints
      ensures kind == endpoints[currentEndpoint].kind
    {
      kind := endpoints[currentEndpoint].kind;
    }

    method AddTCPRelays(order: seq<Id>)
      requires Valid() && forall k :: 0 <= k < |order| ==> order[k] in endpoints
      modifies this
      ensures Valid() && Value() == AddTcpRelays(old(Value()), order)
    {
      hide R.IsTable, R.AreRelays, R.Names, Turn, PutAll;
      R.AddTcpKeepsInv(Value(), order);
      if f.didAddTcp {
        return;
      }
      var reset := f.setCurrentToTcp && !f.useUdp;
      var relays := [];
      ghost var start := Value();
      for k := 0 to |order|
        invariant Adding(Value(), relays) == AddTcpLoop(start, reset, order[..k])
        invariant endpoints.Keys == start.endpoints.Keys
      {
        hide AddTcpLoop, Turn, R.Inv, R.Adds;
        R.LoopAdds(start, reset, order[..k]);
        OneMoreTurn(start, reset, order, k);
        var more := OneTcpRelay(order[k], reset, relays);
        relays := more;
      }
      assert order[..|order|] == order;
      PutEach(relays);
      f := f.(didAddTcp := true);
    }

    // While the flag is up, the current endpoint is in the table, and so the lookup is safe.
    method OneTcpRelay(id: Id, reset: bool, relays: seq<Endpoint>) returns (more: seq<Endpoint>)
      requires id in endpoints && R.Adds(Adding(Value(), relays))
      modifies this
      ensures Adding(Value(), more) == Turn(Adding(old(Value()), relays), reset, id)
      ensures endpoints.Keys == old(endpoints).Keys
    {
      hide R.IsTable, R.AreRelays, Xor, R.Names;
      var e := endpoints[id];
      if e.kind != UdpRelay {
        return relays;
      }
      if reset {
        e := e.(averageRtt := 0.0);
        endpoints := endpoints[id := e];
      }
      assert endpoints == old(endpoints)[id := e];
      var tcpRelay := OverTcp(e);
      if f.setCurrentToTcp {
        var kind := CurrentKind();
        if kind != TcpRelay {
          f := f.(setCurrentToTcp := false);
          currentEndpoint, preferredRelay := tcpRelay.id, tcpRelay.id;
        }
      }
      more := relays + [tcpRelay];
    }

    method ReceivePeerInfo(address: nat)
      requires Valid()
      modifies this
      ensures Valid() && Value() == PeerInfo(old(Value()), address)
    {
      R.PeerInfoKeepsInv(Value(), address);
      hide R.Inv;
      if currentEndpoint == P2P4 || currentEndpoint == LAN4 {
        currentEndpoint := preferredRelay;
      }
      endpoints := endpoints - {LAN4};
      if f.waitingForPeerInfo {
        endpoints := endpoints[P2P4 := Endpoint(P2P4, P2pInet, address, 0, 0.0)];
        f := f.(waitingForPeerInfo := false);
      }
    }

    // The part of ProcessIncomingPacket that may move to the relay a packet came from.
    method ReceivePacket(source: Id, peerSilent: bool)
      requires Valid() && source in endpoints
      modifies this
      ensures Valid() && Value() == PacketFrom(old(Value()), source, peerSilent)
    {
      hide R.IsTable;
      var current, e := endpoints[currentEndpoint], endpoints[source];
      if source != currentEndpoint && (e.kind == UdpRelay || e.kind == TcpRelay)
         && ((current.kind != UdpRelay && current.kind != TcpRelay) || current.averageRtt == 0.0) {
        if peerSilent {
          currentEndpoint := source;
        }
      }
    }

    method ReceiveInit(source: Id, udpWorks: bool)
      requires Valid() && source in endpoints
      modifies this
      ensures Valid() && Value() == InitFrom(old(Value()), source, udpWorks)
    {
      hide R.IsTable;
      if !f.receivedInit {
        f := f.(receivedInit := true);
        var kind := endpoints[source].kind;
        if (kind == UdpRelay && udpWorks) || kind == TcpRelay {
          currentEndpoint := source;
          if kind == UdpRelay || (f.useTcp && kind == TcpRelay) {
            preferredRelay := source;
          }
        }
      }
    }

    method ReceiveLanEndpoint(address: nat, asExtra: bool)
      requires Valid()
      modifies this
      ensures Valid() && Value() == LanEndpoint(old(Value()), address, asExtra)
    {
      R.LanKeepsInv(Value(), address, asExtra);
      hide R.Inv;
      if asExtra && !f.allowP2p {
        return;
      }
      if currentEndpoint == LAN4 {
        currentEndpoint := preferredRelay;
      }
      endpoints := endpoints[LAN4 := Endpoint(LAN4, P2pLan, address, 0, 0.0)];
    }

    method ReceiveIPv6Endpoint(address: nat)
      requires Valid()
      modifies this
      ensures Valid() && Value() == IPv6Endpoint(old(Value()), address)
    {
      R.IPv6KeepsInv(Value(), address);
      hide R.Inv;
      if !f.allowP2p {
        return;
      }
      endpoints := endpoints[P2P6 := Endpoint(P2P6, P2pInet, 0, address, 0.0)];
      if f.myIPv6 != 0 {
        currentEndpoint := P2P6;
      }
    }

    method PeerNetworkChanged()
      requires Valid()
      modifies this
      ensures Valid() && Value() == BackToRelay(old(Value()))
    {
      hide R.IsTable;
      var kind := CurrentKind();
      if kind != UdpRelay && kind != TcpRelay {
        currentEndpoint := preferredRelay;
      }
    }

    method ReceiveTimeout()
      requires Valid()
      modifies this
      ensures Valid() && Value() == Timeout(old(Value()))
    {
      R.TimeoutKeepsInv(Value());
      hide R.IsTable;
      var kind := CurrentKind();
      if kind != UdpRelay && kind != TcpRelay {
        currentEndpoint := preferredRelay;
        endpoints := map id | id in endpoints :: Forgotten(endpoints[id]);
      }
    }

    method EvaluateUdpPings(avgPongs: real, bad: bool, order: seq<Id>)
      requires Valid() && forall k :: 0 <= k < |order| ==> order[k] in endpoints
      modifies this
      ensures Valid() && Value() == UdpEvaluated(old(Value()), avgPongs, bad, order)
    {
      hide AddTcpRelays, R.IsTable;
      if avgPongs == 0.0 || (bad && avgPongs < 7.0) {
        f := f.(useTcp := true, useUdp := avgPongs > 1.0);
        var kind := CurrentKind();
        if kind != TcpRelay {
          f := f.(setCurrentToTcp := true);
        }
        AddTCPRelays(order);
        f := f.(waitingForPeerInfo := false);
      } else if avgPongs < 3.0 {
        f := f.(useTcp := true, setCurrentToTcp := true);
        AddTCPRelays(order);
      }
    }

    method FindBest(t: Thresholds, order: seq<Id>) returns (best: Best)
      requires Valid() && forall k :: 0 <= k < |order| ==> order[k] in endpoints
      ensures best == BestRelay(Value(), t, order)
    {
      hide R.IsTable;
      var minPing := Weighted(endpoints[preferredRelay]);
      best := Best(if minPing == 0.0 then Unbounded else Within(minPing), preferredRelay);
      for k := 0 to |order|
        invariant best == BestRelay(Value(), t, order[..k])
      {
        assert order[..k + 1][..k] == order[..k];
        var e := endpoints[order[k]];
        if (f.useUdp && e.kind == UdpRelay) || (f.useTcp && e.kind == TcpRelay) {
          if e.averageRtt > 0.0 && Below(Weighted(e), best.ping, t.relaySwitch) {
            best := Best(Within(Weighted(e)), order[k]);
          }
        }
      }
      assert order[..|order|] == order;
    }

    method SendRelayPings(t: Thresholds, order: seq<Id>)
      requires Valid() && Enumerates(order, endpoints)
      modifies this
      ensures Valid() && Value() == RelayPings(old(Value()), t, order)
    {
      R.PingsKeepInv(Value(), t, order);
      if |endpoints| <= 1 {
        return;
      }
      R.BestIsRelay(Value(), t, order);
      var best := FindBest(t, order);
      hide R.IsTable, BestRelay, IsFaster, IsSlower, Enumerates;
      if best.id != preferredRelay {
        preferredRelay := best.id;
        var kind := CurrentKind();
        if kind == UdpRelay || kind == TcpRelay {
          currentEndpoint := preferredRelay;
        }
      }
      ChooseRoute(t, best.ping);
    }

    method ChooseRoute(t: Thresholds, ping: Ping)
      requires currentEndpoint in endpoints
      modifies `currentEndpoint
      ensures Value() == Switch(old(Value()), t, ping)
    {
      hide IsFaster, IsSlower;
      var e := endpoints[currentEndpoint];
      if e.kind == UdpRelay && f.useUdp {
        if P2P4 in endpoints {
          if IsFaster(endpoints, LAN4, ping, t.relayToP2p) {
            currentEndpoint := LAN4;
          } else if IsFaster(endpoints, P2P4, ping, t.relayToP2p) {
            currentEndpoint := P2P4;
          }
        }
      } else if IsSlower(e, ping, t.p2pToRelay) {
        currentEndpoint := preferredRelay;
      }
    }
  }

  lemma OneMoreTurn(s: State, reset: bool, order: seq<Id>, k: nat)
    requires k < |order|
    ensures AddTcpLoop(s, reset, order[..k + 1]) == Turn(AddTcpLoop(s, reset, order[..k]), reset, order[k])
  {
    assert order[..k + 1][..k] == order[..k];
    hide Turn;
  }

  lemma NoneGiven(current: Id, es: seq<Endpoint>)
    ensures PutAll(map[], es[..0]) == map[] && FirstName(current, es[..0]) == current
    ensures !HasKind(es[..0], TcpRelay) && !HasKind(es[..0], UdpRelay)
  {
  }

  lemma OneMore(current: Id, es: seq<Endpoint>, k: nat)
    requires k < |es|
    ensures var name := FirstName(current, es[..k]);
      FirstName(current, es[..k + 1]) == if name == 0 then es[k].id else name
    ensures PutAll(map[], es[..k + 1]) == PutAll(map[], es[..k])[es[k].id := es[k]]
    ensures HasKind(es[..k + 1], TcpRelay) == (HasKind(es[..k], TcpRelay) || es[k].kind == TcpRelay)
    ensures HasKind(es[..k + 1], UdpRelay) == (HasKind(es[..k], UdpRelay) || es[k].kind == UdpRelay)
  {
    var more := es[..k + 1];
    assert more[..|more| - 1] == es[..k] && more[|more| - 1] == es[k];
  }
}
