// The table of endpoints and the two names that point into it, as functions over the steps
// that change them.
module EndpointModel {
  // Ids of 64 bits, which are toggled bit by bit.
  type Id = nat

  function Xor(a: Id, b: Id): Id
    decreases a + b
  {
    if a == 0 && b == 0 then 0 else (a + b) % 2 + 2 * Xor(a / 2, b / 2)
  }

  datatype Kind = UdpRelay | TcpRelay | P2pInet | P2pLan

  // An address of 0 is empty.
  datatype Endpoint = Endpoint(id: Id, kind: Kind, v4: nat, v6: nat, averageRtt: real)

  // Endpoints that are not relays have these ids; those of relays are derived by toggling.
  const P2P4: Id := 0x5032_5034_0000_0000
  const LAN4: Id := 0x4C41_4E34_0000_0000
  const P2P6: Id := 0x5032_5036_0000_0000
  const TCP: Id := 0x5443_5000_0000_0000
  const IPV6: Id := 0x4950_7636_0000_0000

  datatype Flags = Flags(
    useTcp: bool, useUdp: bool, didAddTcp: bool, setCurrentToTcp: bool, didAddIPv6: bool,
    allowP2p: bool, waitingForPeerInfo: bool, receivedInit: bool, myIPv6: nat)

  datatype State = State(endpoints: map<Id, Endpoint>, current: Id, preferred: Id, f: Flags)

  predicate IsRelay(e: Endpoint) {
    e.kind == UdpRelay || e.kind == TcpRelay
  }

  predicate IsReserved(id: Id) {
    id == P2P4 || id == LAN4 || id == P2P6
  }

  // Neither the id nor what toggling makes of it is reserved.
  predicate IsClean(id: Id) {
    !IsReserved(id) && !IsReserved(Xor(id, TCP)) && !IsReserved(Xor(id, IPV6)) && !IsReserved(Xor(id, Xor(TCP, IPV6)))
  }

  function PutAll(m: map<Id, Endpoint>, es: seq<Endpoint>): map<Id, Endpoint> {
    if es == [] then m else PutAll(m, es[..|es| - 1])[es[|es| - 1].id := es[|es| - 1]]
  }

  // ----- relays over TCP and IPv6 -----

  function OverIPv6(e: Endpoint): Endpoint {
    e.(v4 := 0, id := Xor(e.id, IPV6), averageRtt := 0.0)
  }

  // The IPv6 twins of the relays among the endpoints named by `order`.
  function IPv6Twins(m: map<Id, Endpoint>, order: seq<Id>): seq<Endpoint>
    requires forall k :: 0 <= k < |order| ==> order[k] in m
  {
    if order == [] then []
    else
      var e := m[order[|order| - 1]];
      IPv6Twins(m, order[..|order| - 1]) + if IsRelay(e) && e.v4 != 0 && e.v6 != 0 then [OverIPv6(e)] else []
  }

  ghost predicate Enumerates(order: seq<Id>, m: map<Id, Endpoint>) {
    && (forall k :: 0 <= k < |order| ==> order[k] in m)
    && (forall id :: id in m ==> id in order)
  }

  function AddIPv6Relays(s: State, order: seq<Id>): State
    requires forall k :: 0 <= k < |order| ==> order[k] in s.endpoints
  {
    if s.f.myIPv6 == 0 || s.f.didAddIPv6 then s
    else
      var twins := IPv6Twins(s.endpoints, order);
      s.(endpoints := PutAll(s.endpoints, twins), f := s.f.(didAddIPv6 := twins != []))
  }

  function OverTcp(e: Endpoint): Endpoint {
    e.(kind := TcpRelay, averageRtt := 0.0, id := Xor(e.id, TCP))
  }

  datatype Adding = Adding(state: State, relays: seq<Endpoint>)

  predicate CurrentIsNotTcp(s: State) {
    s.current in s.endpoints && s.endpoints[s.current].kind != TcpRelay
  }

  // One turn of the loop of AddTCPRelays. It may name a relay that is put into the table
  // only after the loop.
  function Turn(a: Adding, reset: bool, id: Id): Adding {
    if id !in a.state.endpoints || a.state.endpoints[id].kind != UdpRelay then a
    else
      var e := a.state.endpoints[id];
      var e := if reset then e.(averageRtt := 0.0) else e;
      var tcp := OverTcp(e);
      var s := a.state.(endpoints := a.state.endpoints[id := e]);
      var s := if s.f.setCurrentToTcp && CurrentIsNotTcp(s) then
                 s.(f := s.f.(setCurrentToTcp := false), current := tcp.id, preferred := tcp.id)
               else s;
      Adding(s, a.relays + [tcp])
  }

  function AddTcpLoop(s: State, reset: bool, order: seq<Id>): Adding {
    if order == [] then Adding(s, [])
    else Turn(AddTcpLoop(s, reset, order[..|order| - 1]), reset, order[|order| - 1])
  }

  function AddTcpRelays(s: State, order: seq<Id>): State {
    if s.f.didAddTcp then s
    else
      var a := AddTcpLoop(s, s.f.setCurrentToTcp && !s.f.useUdp, order);
      a.state.(endpoints := PutAll(a.state.endpoints, a.relays), f := a.state.f.(didAddTcp := true))
  }

  // ----- the steps -----

  predicate HasKind(es: seq<Endpoint>, kind: Kind) {
    if es == [] then false else HasKind(es[..|es| - 1], kind) || es[|es| - 1].kind == kind
  }

  // The current endpoint if there is one, else the first of those given; 0 is none.
  function FirstName(current: Id, es: seq<Endpoint>): Id {
    if es == [] then current
    else
      var name := FirstName(current, es[..|es| - 1]);
      if name == 0 then es[|es| - 1].id else name
  }

  // SetRemoteEndpoints, before its relays over IPv6 are added
  function Given(s: State, es: seq<Endpoint>, allowP2p: bool): State {
    var current := FirstName(s.current, es);
    s.(endpoints := PutAll(map[], es), current := current, preferred := current,
       f := s.f.(allowP2p := allowP2p,
                 didAddTcp := HasKind(es, TcpRelay),
                 useTcp := !HasKind(es, UdpRelay)))
  }

  function SetRemote(s: State, es: seq<Endpoint>, allowP2p: bool, order: seq<Id>): State
    requires Enumerates(order, PutAll(map[], es))
  {
    AddIPv6Relays(Given(s, es, allowP2p), order)
  }

  function PeerInfo(s: State, address: nat): State {
    var s := if s.current == P2P4 || s.current == LAN4 then s.(current := s.preferred) else s;
    var s := s.(endpoints := s.endpoints - {LAN4});
    if s.f.waitingForPeerInfo then
      s.(endpoints := s.endpoints[P2P4 := Endpoint(P2P4, P2pInet, address, 0, 0.0)],
         f := s.f.(waitingForPeerInfo := false))
    else s
  }

  // A packet from another relay while the peer seems to be gone.
  function PacketFrom(s: State, source: Id, peerSilent: bool): State
    requires s.current in s.endpoints && source in s.endpoints
  {
    var e := s.endpoints[s.current];
    if source != s.current && IsRelay(s.endpoints[source]) && (!IsRelay(e) || e.averageRtt == 0.0) && peerSilent
    then s.(current := source) else s
  }

  function InitFrom(s: State, source: Id, udpWorks: bool): State
    requires source in s.endpoints
  {
    if s.f.receivedInit then s
    else
      var s, kind := s.(f := s.f.(receivedInit := true)), s.endpoints[source].kind;
      if (kind == UdpRelay && udpWorks) || kind == TcpRelay then
        s.(current := source, preferred := if kind == UdpRelay || s.f.useTcp then source else s.preferred)
      else s
  }

  // Told in a packet or as an extra; the latter counts only if p2p is allowed.
  function LanEndpoint(s: State, address: nat, asExtra: bool): State {
    if asExtra && !s.f.allowP2p then s else NewLan(s, address)
  }

  function NewLan(s: State, address: nat): State {
    var s := if s.current == LAN4 then s.(current := s.preferred) else s;
    s.(endpoints := s.endpoints[LAN4 := Endpoint(LAN4, P2pLan, address, 0, 0.0)])
  }

  function IPv6Endpoint(s: State, address: nat): State {
    if !s.f.allowP2p then s
    else
      s.(endpoints := s.endpoints[P2P6 := Endpoint(P2P6, P2pInet, 0, address, 0.0)],
         current := if s.f.myIPv6 != 0 then P2P6 else s.current)
  }

  // The network of the peer changed, or nothing came for long.
  function BackToRelay(s: State): State
    requires s.current in s.endpoints
  {
    if IsRelay(s.endpoints[s.current]) then s else s.(current := s.preferred)
  }

  function Forgotten(e: Endpoint): Endpoint {
    if IsRelay(e) then e else e.(averageRtt := 0.0)
  }

  function Timeout(s: State): State
    requires s.current in s.endpoints
  {
    if IsRelay(s.endpoints[s.current]) then s
    else s.(current := s.preferred, endpoints := map id | id in s.endpoints :: Forgotten(s.endpoints[id]))
  }

  function WithoutUdp(s: State, avgPongs: real): State
    requires s.current in s.endpoints
  {
    s.(f := s.f.(useTcp := true, useUdp := avgPongs > 1.0,
                 setCurrentToTcp := s.f.setCurrentToTcp || s.endpoints[s.current].kind != TcpRelay))
  }

  // The outcome of the UDP pings; bad says that they were few before.
  function UdpEvaluated(s: State, avgPongs: real, bad: bool, order: seq<Id>): State
    requires s.current in s.endpoints
  {
    if avgPongs == 0.0 || (bad && avgPongs < 7.0) then
      var s := AddTcpRelays(WithoutUdp(s, avgPongs), order);
      s.(f := s.f.(waitingForPeerInfo := false))
    else if avgPongs < 3.0 then AddTcpRelays(s.(f := s.f.(useTcp := true, setCurrentToTcp := true)), order)
    else s
  }

  // ----- choosing by round trip time -----

  // The greatest double stands for a time without bound.
  datatype Ping = Unbounded | Within(time: real)

  predicate Below(x: real, p: Ping, factor: real) {
    p.Unbounded? || x < p.time * factor
  }

  datatype Best = Best(ping: Ping, id: Id)

  datatype Thresholds = Thresholds(relaySwitch: real, relayToP2p: real, p2pToRelay: real)

  function Weighted(e: Endpoint): real {
    if e.kind == TcpRelay then e.averageRtt * 2.0 else e.averageRtt
  }

  predicate IsUsable(s: State, e: Endpoint) {
    (s.f.useUdp && e.kind == UdpRelay) || (s.f.useTcp && e.kind == TcpRelay)
  }

  function BestRelay(s: State, t: Thresholds, order: seq<Id>): Best
    requires s.preferred in s.endpoints && forall k :: 0 <= k < |order| ==> order[k] in s.endpoints
  {
    if order == [] then
      var ping := Weighted(s.endpoints[s.preferred]);
      Best(if ping == 0.0 then Unbounded else Within(ping), s.preferred)
    else
      var best, e := BestRelay(s, t, order[..|order| - 1]), s.endpoints[order[|order| - 1]];
      if IsUsable(s, e) && e.averageRtt > 0.0 && Below(Weighted(e), best.ping, t.relaySwitch)
      then Best(Within(Weighted(e)), order[|order| - 1]) else best
  }

  // What follows from the best relay: it becomes preferred, and current if a relay was.
  function Prefer(s: State, id: Id): State
    requires s.current in s.endpoints
  {
    if id == s.preferred then s
    else if IsRelay(s.endpoints[s.current]) then s.(preferred := id, current := id)
    else s.(preferred := id)
  }

  predicate IsFaster(m: map<Id, Endpoint>, id: Id, ping: Ping, factor: real) {
    id in m && m[id].averageRtt > 0.0 && Below(m[id].averageRtt, ping, factor)
  }

  predicate IsSlower(e: Endpoint, ping: Ping, factor: real) {
    ping.Within? && ping.time > 0.0 && ping.time < e.averageRtt * factor
  }

  function Switch(s: State, t: Thresholds, ping: Ping): State
    requires s.current in s.endpoints
  {
    var e := s.endpoints[s.current];
    if e.kind == UdpRelay && s.f.useUdp then
      if P2P4 !in s.endpoints then s
      else if IsFaster(s.endpoints, LAN4, ping, t.relayToP2p) then s.(current := LAN4)
      else if IsFaster(s.endpoints, P2P4, ping, t.relayToP2p) then s.(current := P2P4)
      else s
    else if IsSlower(e, ping, t.p2pToRelay) then s.(current := s.preferred)
    else s
  }

  function RelayPings(s: State, t: Thresholds, order: seq<Id>): State
    requires s.current in s.endpoints && s.preferred in s.endpoints && Enumerates(order, s.endpoints)
  {
    if |s.endpoints| <= 1 then s
    else
      var best := BestRelay(s, t, order);
      var p := Prefer(s, best.id);
      if p.current in p.endpoints then Switch(p, t, best.ping) else p
  }
}
