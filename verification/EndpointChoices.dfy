// Which endpoint is chosen, and why: by round trip time, and when UDP does not get through.
module EndpointChoices {
  import opened EndpointModel
  import opened EndpointRuns

  // ----- the best relay -----

  // What a relay is compared by: over TCP its round trip time counts twice.
  function Time(e: Endpoint): real {
    (if e.kind == TcpRelay then 2.0 else 1.0) * e.averageRtt
  }

  predicate IsCandidate(s: State, e: Endpoint) {
    && ((e.kind == UdpRelay && s.f.useUdp) || (e.kind == TcpRelay && s.f.useTcp))
    && e.averageRtt > 0.0
  }

  // A product, by name, so that proofs need not multiply.
  function Times(x: real, factor: real): real {
    x * factor
  }

  // Far enough below a ping to be worth a switch.
  predicate Beats(x: real, p: Ping, factor: real) {
    match p
    case Unbounded => true
    case Within(time) => x < Times(time, factor)
  }

  function OwnPing(e: Endpoint): Ping {
    if e.averageRtt == 0.0 then Unbounded else Within(Time(e))
  }

  lemma TimesGrows(a: real, b: real, f: real)
    requires a <= b && f >= 0.0
    ensures Times(a, f) <= Times(b, f)
  {
    assert (b - a) * f >= 0.0;
  }

  // A factor of at most 1 makes nothing positive greater.
  lemma TimesShrinks(a: real, f: real)
    requires a > 0.0 && f <= 1.0
    ensures Times(a, f) <= a && (f < 0.0 ==> Times(a, f) < 0.0)
  {
    assert a * (1.0 - f) >= 0.0;
    if f < 0.0 { assert a * (0.0 - f) > 0.0; }
  }

  lemma TimesTwice(a: real, f: real, g: real)
    ensures Times(Times(a, f), g) == Times(a, Times(f, g))
  {
  }

  lemma BeatsNothingLonger(x: real, p: Ping, q: real, factor: real)
    requires factor <= 1.0 && x > 0.0 && q > 0.0 && !Beats(x, p, factor) && Beats(q, p, factor)
    ensures !Beats(x, Within(q), factor)
  {
    hide Times;
    TimesShrinks(q, factor);
  }

  lemma BeatsInTurn(x: real, q: real, p: Ping, factor: real)
    requires factor <= 1.0 && x > 0.0 && q > 0.0 && Beats(q, p, factor) && Beats(x, Within(q), factor)
    ensures Beats(x, p, factor)
  {
    hide Times;
    TimesShrinks(q, factor);
  }

  predicate Takes(s: State, e: Endpoint, p: Ping, factor: real) {
    IsCandidate(s, e) && Beats(Time(e), p, factor)
  }

  lemma BestStep(s: State, t: Thresholds, order: seq<Id>)
    requires s.preferred in s.endpoints && (forall k :: 0 <= k < |order| ==> order[k] in s.endpoints) && order != []
    ensures var n := |order| - 1;
      var best, e := BestRelay(s, t, order[..n]), s.endpoints[order[n]];
      BestRelay(s, t, order) == if Takes(s, e, best.ping, t.relaySwitch) then Best(Within(Time(e)), order[n]) else best
  {
  }

  // With a switch threshold of at most 1, no candidate beats the one chosen.
  lemma {:induction false} BestIsUnbeaten(s: State, t: Thresholds, order: seq<Id>, k: nat)
    requires s.preferred in s.endpoints && forall k :: 0 <= k < |order| ==> order[k] in s.endpoints
    requires t.relaySwitch <= 1.0 && k < |order| && IsCandidate(s, s.endpoints[order[k]])
    ensures !Beats(Time(s.endpoints[order[k]]), BestRelay(s, t, order).ping, t.relaySwitch)
    decreases |order|
  {
    hide Time, Times, BestRelay;
    TimeIsPositive(s.endpoints[order[k]]);
    var n := |order| - 1;
    var best, e, x := BestRelay(s, t, order[..n]), s.endpoints[order[n]], Time(s.endpoints[order[k]]);
    BestStep(s, t, order);
    if k < n {
      BestIsUnbeaten(s, t, order[..n], k);
      if Takes(s, e, best.ping, t.relaySwitch) { TimeIsPositive(e); BeatsNothingLonger(x, best.ping, Time(e), t.relaySwitch); }
    } else if Takes(s, e, best.ping, t.relaySwitch) {
      NotBelowItself(Time(e), t.relaySwitch);
    }
  }

  lemma TimeIsPositive(e: Endpoint)
    ensures Time(e) > 0.0 <==> e.averageRtt > 0.0
    ensures Time(e) == 0.0 <==> e.averageRtt == 0.0
  {
  }

  lemma NotBelowItself(x: real, factor: real)
    requires factor <= 1.0 && x > 0.0
    ensures !(x < Times(x, factor))
  {
    hide Times;
    TimesShrinks(x, factor);
  }

  // It is the preferred relay, or a candidate, told with its own time, that beats it.
  lemma {:induction false} BestBeatsPreferred(s: State, t: Thresholds, order: seq<Id>)
    requires s.preferred in s.endpoints && forall k :: 0 <= k < |order| ==> order[k] in s.endpoints
    requires t.relaySwitch <= 1.0
    ensures var best, own := BestRelay(s, t, order), OwnPing(s.endpoints[s.preferred]);
      || best == Best(own, s.preferred)
      || (best.id in order && Takes(s, s.endpoints[best.id], own, t.relaySwitch)
          && best.ping == Within(Time(s.endpoints[best.id])))
  {
    if order != [] {
      hide Time, Times, BestRelay;
      var n := |order| - 1;
      var best, e, own := BestRelay(s, t, order[..n]), s.endpoints[order[n]], OwnPing(s.endpoints[s.preferred]);
      BestBeatsPreferred(s, t, order[..n]);
      BestStep(s, t, order);
      if Takes(s, e, best.ping, t.relaySwitch) && best != Best(own, s.preferred) {
        TimeIsPositive(e);
        TimeIsPositive(s.endpoints[best.id]);
        BeatsInTurn(Time(e), Time(s.endpoints[best.id]), own, t.relaySwitch);
      }
    }
  }

  // The preferred relay is kept just if no candidate beats it.
  lemma PreferredIsKeptExactly(s: State, t: Thresholds, order: seq<Id>)
    requires s.preferred in s.endpoints && s.current in s.endpoints && Enumerates(order, s.endpoints)
    requires t.relaySwitch <= 1.0 && |s.endpoints| > 1
    ensures RelayPings(s, t, order).preferred == s.preferred
      <==> forall id :: id in s.endpoints ==> !Takes(s, s.endpoints[id], OwnPing(s.endpoints[s.preferred]), t.relaySwitch)
    ensures RelayPings(s, t, order).preferred == BestRelay(s, t, order).id
  {
    var best, own := BestRelay(s, t, order), OwnPing(s.endpoints[s.preferred]);
    BestBeatsPreferred(s, t, order);
    PrefersBest(s, t, order);
    hide RelayPings, BestRelay, Time, Times;
    TimeIsPositive(s.endpoints[s.preferred]);
    if s.endpoints[s.preferred].averageRtt > 0.0 { NotBelowItself(Time(s.endpoints[s.preferred]), t.relaySwitch); }
    forall id | id in s.endpoints && Takes(s, s.endpoints[id], own, t.relaySwitch) ensures best.id != s.preferred {
      var k :| 0 <= k < |order| && order[k] == id;
      BestIsUnbeaten(s, t, order, k);
    }
  }

  lemma PrefersBest(s: State, t: Thresholds, order: seq<Id>)
    requires s.preferred in s.endpoints && s.current in s.endpoints && Enumerates(order, s.endpoints) && |s.endpoints| > 1
    ensures RelayPings(s, t, order).preferred == BestRelay(s, t, order).id
    ensures RelayPings(s, t, order).endpoints == s.endpoints && RelayPings(s, t, order).f == s.f
  {
    hide BestRelay, IsFaster, IsSlower;
  }

  // ----- leaving relays and coming back -----

  // A direct endpoint answers, far enough below the ping of the relay.
  predicate IsQuicker(m: map<Id, Endpoint>, id: Id, ping: Ping, factor: real) {
    id in m && m[id].averageRtt > 0.0 && Beats(m[id].averageRtt, ping, factor)
  }

  predicate OverUdp(s: State) {
    s.current in s.endpoints && s.endpoints[s.current].kind == UdpRelay && s.f.useUdp
  }

  // Where the call is routed after the pings: from a relay over UDP to the peer itself, its LAN
  // first, if that is quicker; from all else to the preferred relay, if its ping is far enough
  // below what is used.
  function Route(s: State, t: Thresholds, ping: Ping): Id
    requires s.current in s.endpoints
  {
    if OverUdp(s) then
      if P2P4 in s.endpoints && IsQuicker(s.endpoints, LAN4, ping, t.relayToP2p) then LAN4
      else if IsQuicker(s.endpoints, P2P4, ping, t.relayToP2p) then P2P4
      else s.current
    else if ping.Within? && 0.0 < ping.time < Times(s.endpoints[s.current].averageRtt, t.p2pToRelay) then s.preferred
    else s.current
  }

  lemma SwitchIsRoute(s: State, t: Thresholds, ping: Ping)
    requires s.current in s.endpoints
    ensures Switch(s, t, ping) == s.(current := Route(s, t, ping))
  {
  }

  // With the best relay preferred.
  function Preferring(s: State, id: Id): State
    requires s.current in s.endpoints
  {
    s.(preferred := id, current := if id != s.preferred && IsRelay(s.endpoints[s.current]) then id else s.current)
  }

  lemma Routed(s: State, t: Thresholds, order: seq<Id>)
    requires Inv(s) && Enumerates(order, s.endpoints) && |s.endpoints| > 1
    ensures var best := BestRelay(s, t, order);
      var p := Preferring(s, best.id);
      && best.id in s.endpoints && IsRelay(s.endpoints[best.id])
      && p.current in p.endpoints && RelayPings(s, t, order) == p.(current := Route(p, t, best.ping))
  {
    hide BestRelay, IsTable, IsClean, Switch, Route;
    BestIsRelay(s, t, order);
    var best := BestRelay(s, t, order);
    assert Prefer(s, best.id) == Preferring(s, best.id);
    SwitchIsRoute(Preferring(s, best.id), t, best.ping);
  }

  // A direct endpoint that is quick enough is not left again.
  lemma QuickIsNotSlow(rtt: real, ping: Ping, t: Thresholds)
    requires Times(t.relayToP2p, t.p2pToRelay) <= 1.0 && rtt > 0.0 && Beats(rtt, ping, t.relayToP2p)
    ensures !(ping.Within? && 0.0 < ping.time < Times(rtt, t.p2pToRelay))
  {
    hide Times;
    if ping.Within? && ping.time > 0.0 {
      if t.p2pToRelay < 0.0 {
        TimesShrinks(rtt, t.p2pToRelay);
      } else {
        TimesGrows(rtt, Times(ping.time, t.relayToP2p), t.p2pToRelay);
        TimesTwice(ping.time, t.relayToP2p, t.p2pToRelay);
        TimesShrinks(ping.time, Times(t.relayToP2p, t.p2pToRelay));
      }
    }
  }

  lemma DirectIsNoRelay(s: State, id: Id)
    requires Inv(s) && id in s.endpoints && (id == LAN4 || id == P2P4)
    ensures !IsRelay(s.endpoints[id])
  {
  }

  ghost function Pinged(s: State, t: Thresholds, order: seq<Id>): (s': State)
    requires Inv(s) && Enumerates(order, s.endpoints)
    ensures Inv(s') && s'.endpoints == s.endpoints && s'.f == s.f
  {
    PingsKeepInv(s, t, order);
    if |s.endpoints| > 1 then PrefersBest(s, t, order); RelayPings(s, t, order) else RelayPings(s, t, order)
  }

  // A call that went over to a direct endpoint does not come back with the same measurements,
  // if the thresholds leave room.
  lemma StaysDirect(s: State, t: Thresholds, order: seq<Id>, order': seq<Id>)
    requires Inv(s) && Enumerates(order, s.endpoints) && Enumerates(order', s.endpoints) && |s.endpoints| > 1
    requires t.relaySwitch <= 1.0 && Times(t.relayToP2p, t.p2pToRelay) <= 1.0
    requires IsRelay(s.endpoints[s.current])
    requires Pinged(s, t, order).current == LAN4 || Pinged(s, t, order).current == P2P4
    ensures Pinged(Pinged(s, t, order), t, order') == Pinged(s, t, order)
  {
    hide BestRelay, IsClean, IsTable, Beats, Time, Times, RelayPings;
    var best, s' := BestRelay(s, t, order), Pinged(s, t, order);
    Routed(s, t, order);
    DirectIsNoRelay(s', s'.current);
    BestAgain(s, s', t, order, order');
    Routed(s', t, order');
    QuickIsNotSlow(s.endpoints[s'.current].averageRtt, best.ping, t);
  }

  // The best relay stays the best one.
  lemma BestAgain(s: State, s': State, t: Thresholds, order: seq<Id>, order': seq<Id>)
    requires Inv(s) && Enumerates(order, s.endpoints) && Enumerates(order', s.endpoints)
    requires s'.endpoints == s.endpoints && s'.f == s.f && s'.preferred == BestRelay(s, t, order).id
    requires t.relaySwitch <= 1.0
    ensures s'.preferred in s'.endpoints && BestRelay(s', t, order') == BestRelay(s, t, order)
  {
    hide BestRelay, IsTable, IsClean, Beats, Time, Times;
    var best := BestRelay(s, t, order);
    BestIsRelay(s, t, order);
    BestBeatsPreferred(s, t, order);
    BestBeatsPreferred(s', t, order');
    var again := BestRelay(s', t, order');
    if again != Best(OwnPing(s'.endpoints[s'.preferred]), s'.preferred) {
      var k :| 0 <= k < |order| && order[k] == again.id;
      BestIsUnbeaten(s, t, order, k);
    }
  }

  // ----- the twins of relays -----

  predicate IsTcpTwin(e: Endpoint, twin: Endpoint) {
    twin.id == Xor(e.id, TCP) && twin.kind == TcpRelay && twin.v4 == e.v4 && twin.v6 == e.v6
  }

  lemma {:induction false} PutAllLooksUp(m: map<Id, Endpoint>, es: seq<Endpoint>, id: Id)
    ensures !Names(es, id) ==> (id in PutAll(m, es) <==> id in m) && (id in m ==> PutAll(m, es)[id] == m[id])
    ensures Names(es, id) ==> id in PutAll(m, es) && PutAll(m, es)[id] in es && PutAll(m, es)[id].id == id
  {
    if es != [] {
      var n := |es| - 1;
      assert es == es[..n] + [es[n]];
      NamesMore(es[..n], es[n], id);
      PutAllLooksUp(m, es[..n], id);
      if Names(es, id) && es[n].id != id {
        var k :| 0 <= k < |es| && es[k].id == id;
        assert es[..n][k].id == id;
      }
    }
  }

  // What the loop of AddTCPRelays has collected after the endpoints in order.
  ghost predicate Collected(s: State, order: seq<Id>, a: Adding) {
    && (forall e :: e in a.relays ==> exists id :: id in s.endpoints && s.endpoints[id].kind == UdpRelay && IsTcpTwin(s.endpoints[id], e))
    && (forall id :: id in order && id in s.endpoints && s.endpoints[id].kind == UdpRelay ==> Names(a.relays, Xor(id, TCP)))
  }

  // The loop changes no more of the table than round trip times.
  ghost predicate SameButTimes(m: map<Id, Endpoint>, m': map<Id, Endpoint>) {
    && (forall id :: id in m <==> id in m')
    && forall id :: id in m ==> m'[id] == m[id].(averageRtt := m'[id].averageRtt)
  }

  lemma TurnCollects(s: State, order: seq<Id>, a: Adding, reset: bool, id: Id)
    requires IsTable(s.endpoints) && SameButTimes(s.endpoints, a.state.endpoints) && Collected(s, order, a)
    ensures SameButTimes(s.endpoints, Turn(a, reset, id).state.endpoints)
    ensures Collected(s, order + [id], Turn(a, reset, id))
  {
    hide Xor, IsClean;
    var a' := Turn(a, reset, id);
    if id in s.endpoints && s.endpoints[id].kind == UdpRelay {
      var e := a.state.endpoints[id];
      var tcp := OverTcp(if reset then e.(averageRtt := 0.0) else e);
      assert a'.relays == a.relays + [tcp] && IsTcpTwin(s.endpoints[id], tcp);
      forall j | j in order + [id] && j in s.endpoints && s.endpoints[j].kind == UdpRelay
        ensures Names(a'.relays, Xor(j, TCP))
      {
        NamesMore(a.relays, tcp, Xor(j, TCP));
      }
      assert forall x :: x in a'.relays ==> x in a.relays || x == tcp;
    } else {
      assert a' == a;
    }
  }

  lemma {:induction false} LoopCollects(s: State, reset: bool, order: seq<Id>)
    requires IsTable(s.endpoints)
    ensures var a := AddTcpLoop(s, reset, order);
      SameButTimes(s.endpoints, a.state.endpoints) && Collected(s, order, a)
  {
    hide Turn, IsTable, Collected, SameButTimes;
    if order == [] {
      NoneCollected(s);
    } else {
      var n := |order| - 1;
      LoopCollects(s, reset, order[..n]);
      TurnCollects(s, order[..n], AddTcpLoop(s, reset, order[..n]), reset, order[n]);
      assert order[..n] + [order[n]] == order;
    }
  }

  lemma NoneCollected(s: State)
    ensures SameButTimes(s.endpoints, s.endpoints) && Collected(s, [], Adding(s, []))
  {
  }

  lemma ToggledBack(a: Id, b: Id, bit: Id)
    requires Xor(a, bit) == Xor(b, bit)
    ensures a == b
  {
    hide Xor;
    XorAssoc(a, bit, bit);
    XorAssoc(b, bit, bit);
    XorSelf(bit);
    XorSelf(a);
    XorSelf(b);
  }

  // Each relay over UDP gets its twin over TCP, at the same address.
  lemma EveryTwinIsAdded(s: State, order: seq<Id>, id: Id)
    requires Inv(s) && Enumerates(order, s.endpoints) && !s.f.didAddTcp
    requires id in s.endpoints && s.endpoints[id].kind == UdpRelay
    ensures var s' := AddTcpRelays(s, order);
      id in s'.endpoints && Xor(id, TCP) in s'.endpoints && IsTcpTwin(s.endpoints[id], s'.endpoints[Xor(id, TCP)])
  {
    hide Xor, IsClean, PutAll, AddTcpLoop;
    var reset := s.f.setCurrentToTcp && !s.f.useUdp;
    var a := AddTcpLoop(s, reset, order);
    LoopCollects(s, reset, order);
    PutAllLooksUp(a.state.endpoints, a.relays, Xor(id, TCP));
    PutAllLooksUp(a.state.endpoints, a.relays, id);
    var twin := AddTcpRelays(s, order).endpoints[Xor(id, TCP)];
    var j :| j in s.endpoints && s.endpoints[j].kind == UdpRelay && IsTcpTwin(s.endpoints[j], twin);
    ToggledBack(j, id, TCP);
  }

  // Where the loop leaves the current endpoint: at the twin of a relay, if it was to leave.
  ghost predicate Left(s: State, order: seq<Id>, a: Adding) {
    && a.state.f.useTcp == s.f.useTcp && a.state.f.useUdp == s.f.useUdp
    && if s.f.setCurrentToTcp && CurrentIsNotTcp(s) && exists id :: id in order && id in s.endpoints && s.endpoints[id].kind == UdpRelay
       then Names(a.relays, a.state.current) && !a.state.f.setCurrentToTcp
       else a.state.current == s.current && a.state.f.setCurrentToTcp == s.f.setCurrentToTcp
  }

  lemma TurnLeaves(s: State, order: seq<Id>, a: Adding, reset: bool, id: Id)
    requires IsTable(s.endpoints) && SameButTimes(s.endpoints, a.state.endpoints) && Left(s, order, a)
    ensures Left(s, order + [id], Turn(a, reset, id))
  {
    hide Xor, IsClean, Names;
    var a' := Turn(a, reset, id);
    assert forall x :: x in order + [id] <==> x in order || x == id;
    if id in s.endpoints && s.endpoints[id].kind == UdpRelay {
      NamesMore(a.relays, a'.relays[|a.relays|], a.state.current);
    } else {
      assert a' == a;
    }
  }

  lemma {:induction false} LoopLeaves(s: State, reset: bool, order: seq<Id>)
    requires IsTable(s.endpoints)
    ensures Left(s, order, AddTcpLoop(s, reset, order))
  {
    hide Turn, IsTable, Left, SameButTimes, Collected;
    if order == [] {
      assert Left(s, [], Adding(s, [])) by { NotLeft(s); }
    } else {
      var n := |order| - 1;
      LoopLeaves(s, reset, order[..n]);
      LoopCollects(s, reset, order[..n]);
      TurnLeaves(s, order[..n], AddTcpLoop(s, reset, order[..n]), reset, order[n]);
      assert order[..n] + [order[n]] == order;
    }
  }

  lemma NotLeft(s: State)
    ensures Left(s, [], Adding(s, []))
  {
  }

  // Once no relay answers over UDP, the call goes on over TCP.
  lemma UdpOutageGoesOverTcp(s: State, bad: bool, order: seq<Id>, id: Id)
    requires Inv(s) && Enumerates(order, s.endpoints) && !s.f.didAddTcp
    requires id in s.endpoints && s.endpoints[id].kind == UdpRelay
    ensures var s' := UdpEvaluated(s, 0.0, bad, order);
      && s'.f.useTcp && !s'.f.useUdp
      && s'.current in s'.endpoints && s'.endpoints[s'.current].kind == TcpRelay
  {
    hide Xor, IsClean, PutAll, AddTcpLoop, Names;
    var w := WithoutUdp(s, 0.0);
    var reset := w.f.setCurrentToTcp && !w.f.useUdp;
    var a := AddTcpLoop(w, reset, order);
    LoopCollects(w, reset, order);
    LoopLeaves(w, reset, order);
    PutAllLooksUp(a.state.endpoints, a.relays, a.state.current);
    assert id in order;
    AllTcp(w, order, a);
  }

  lemma AllTcp(s: State, order: seq<Id>, a: Adding)
    requires Collected(s, order, a)
    ensures forall e :: e in a.relays ==> e.kind == TcpRelay
  {
    hide Xor;
  }

  lemma {:induction false} LoopKeepsUse(s: State, reset: bool, order: seq<Id>)
    ensures var f := AddTcpLoop(s, reset, order).state.f; f.useTcp == s.f.useTcp && f.useUdp == s.f.useUdp
  {
    if order != [] { LoopKeepsUse(s, reset, order[..|order| - 1]); }
  }

  // TCP comes into use just if fewer than three pongs came on average, or fewer than seven when
  // they were few before; UDP goes out of use just if none came, or they were few before and
  // are at most one now.
  lemma TransportsAreChosenExactly(s: State, avgPongs: real, bad: bool, order: seq<Id>)
    requires Inv(s) && avgPongs >= 0.0
    ensures var f := UdpEvaluated(s, avgPongs, bad, order).f;
      && (f.useTcp <==> s.f.useTcp || avgPongs < 3.0 || (bad && avgPongs < 7.0))
      && (s.f.useUdp ==> (f.useUdp <==> !(avgPongs == 0.0 || (bad && avgPongs <= 1.0))))
  {
    var w := if avgPongs == 0.0 || (bad && avgPongs < 7.0) then WithoutUdp(s, avgPongs)
             else s.(f := s.f.(useTcp := true, setCurrentToTcp := true));
    LoopKeepsUse(w, w.f.setCurrentToTcp && !w.f.useUdp, order);
    hide AddTcpLoop, IsTable, PutAll;
  }

  // A relay with addresses of both kinds gets a twin that has the IPv6 one only.
  predicate IsIPv6Twin(e: Endpoint, twin: Endpoint) {
    twin.id == Xor(e.id, IPV6) && twin.kind == e.kind && twin.v4 == 0 && twin.v6 == e.v6
  }

  predicate HasBoth(e: Endpoint) {
    IsRelay(e) && e.v4 != 0 && e.v6 != 0
  }

  lemma {:induction false} IPv6TwinsAre(m: map<Id, Endpoint>, order: seq<Id>)
    requires IsTable(m) && forall k :: 0 <= k < |order| ==> order[k] in m
    ensures forall e :: e in IPv6Twins(m, order) ==> exists id :: id in m && HasBoth(m[id]) && IsIPv6Twin(m[id], e)
    ensures forall id :: id in order && HasBoth(m[id]) ==> Names(IPv6Twins(m, order), Xor(id, IPV6))
  {
    hide Xor, IsClean, Names;
    if order != [] {
      var n := |order| - 1;
      var front, id := IPv6Twins(m, order[..n]), order[n];
      IPv6TwinsAre(m, order[..n]);
      var twin := OverIPv6(m[id]);
      assert IsIPv6Twin(m[id], twin);
      assert HasBoth(m[id]) ==> IPv6Twins(m, order) == front + [twin];
      assert !HasBoth(m[id]) ==> IPv6Twins(m, order) == front + [] == front;
      forall j | j in order && HasBoth(m[j]) ensures Names(IPv6Twins(m, order), Xor(j, IPV6)) {
        assert j in order[..n] || j == id;
        NamesMore(front, twin, Xor(j, IPV6));
      }
    }
  }

  lemma EveryIPv6TwinIsAdded(s: State, order: seq<Id>, id: Id)
    requires Inv(s) && Enumerates(order, s.endpoints) && s.f.myIPv6 != 0 && !s.f.didAddIPv6
    requires id in s.endpoints && HasBoth(s.endpoints[id])
    ensures var s' := AddIPv6Relays(s, order);
      && Xor(id, IPV6) in s'.endpoints && IsIPv6Twin(s.endpoints[id], s'.endpoints[Xor(id, IPV6)])
      && s'.f.didAddIPv6
  {
    hide Xor, IsClean, PutAll, IPv6Twins;
    var twins := IPv6Twins(s.endpoints, order);
    IPv6TwinsAre(s.endpoints, order);
    PutAllLooksUp(s.endpoints, twins, Xor(id, IPV6));
    var twin := AddIPv6Relays(s, order).endpoints[Xor(id, IPV6)];
    var j :| j in s.endpoints && HasBoth(s.endpoints[j]) && IsIPv6Twin(s.endpoints[j], twin);
    ToggledBack(j, id, IPV6);
  }

  // ----- what is heard from the peer -----

  // Back on a relay, which is the preferred one unless a relay was used already.
  lemma ReturnsToRelay(s: State, step: Step)
    requires Inv(s) && (step.PeerNetworkChanged? || step.TimedOut?)
    ensures var s' := Next(s, step);
      && s'.current in s'.endpoints && IsRelay(s'.endpoints[s'.current]) && s'.preferred == s.preferred
      && (s'.current == s.current || (s'.current == s.preferred && !IsRelay(s.endpoints[s.current])))
      && (forall id :: id in s.endpoints <==> id in s'.endpoints)
      && (forall id :: id in s.endpoints && IsRelay(s.endpoints[id]) ==> s'.endpoints[id] == s.endpoints[id])
      && (step.TimedOut? && s'.current != s.current ==>
            forall id :: id in s.endpoints && !IsRelay(s.endpoints[id]) ==> s'.endpoints[id].averageRtt == 0.0)
  {
    hide IsTable, IsClean;
  }

  // The peer's addresses: the old one in its LAN is forgotten and not used; where it is reached
  // directly is entered if it was asked for. Nothing else changes.
  lemma PeerIsAtAddress(s: State, address: nat)
    requires Inv(s)
    ensures var s' := PeerInfo(s, address);
      && LAN4 !in s'.endpoints && s'.current != LAN4
      && (s.current != P2P4 && s.current != LAN4 ==> s'.current == s.current)
      && (s.current == P2P4 || s.current == LAN4 ==> s'.current == s.preferred)
      && (s.f.waitingForPeerInfo ==> P2P4 in s'.endpoints && s'.endpoints[P2P4] == Endpoint(P2P4, P2pInet, address, 0, 0.0))
      && !s'.f.waitingForPeerInfo
      && (forall id :: id in s.endpoints && id != LAN4 && (id != P2P4 || !s.f.waitingForPeerInfo) ==>
            id in s'.endpoints && s'.endpoints[id] == s.endpoints[id])
      && s'.preferred == s.preferred
  {
    hide IsTable, IsClean, IsRelay;
    PreferredIsNotDirect(s);
  }

  lemma PreferredIsNotDirect(s: State)
    requires Inv(s)
    ensures s.preferred != LAN4 && s.preferred != P2P4
  {
    assert IsReserved(LAN4) && IsReserved(P2P4) && IsClean(s.preferred);
  }

  // An address in the LAN, or over IPv6, is entered; the latter is used at once if this side has
  // such an address too, the former not before it was measured.
  lemma OwnAddressIsEntered(s: State, address: nat)
    requires Inv(s)
    ensures var lan := LanEndpoint(s, address, false);
      && LAN4 in lan.endpoints && lan.endpoints[LAN4] == Endpoint(LAN4, P2pLan, address, 0, 0.0) && lan.current != LAN4
      && (s.current != LAN4 ==> lan.current == s.current) && (s.current == LAN4 ==> lan.current == s.preferred)
    ensures LanEndpoint(s, address, true) == if s.f.allowP2p then LanEndpoint(s, address, false) else s
    ensures var six := IPv6Endpoint(s, address);
      if s.f.allowP2p then
        P2P6 in six.endpoints && six.endpoints[P2P6] == Endpoint(P2P6, P2pInet, 0, address, 0.0)
        && (six.current == P2P6 <==> s.f.myIPv6 != 0 || s.current == P2P6)
        && (six.current != P2P6 ==> six.current == s.current)
      else six == s
  {
    hide IsTable, IsClean, IsRelay;
    PreferredIsNotDirect(s);
  }

  // A packet from another relay is followed just if the peer is silent and what is used is not
  // a relay that was measured.
  lemma PacketIsFollowed(s: State, source: Id, silent: bool)
    requires Inv(s) && source in s.endpoints && source != s.current
    ensures PacketFrom(s, source, silent).current == source <==>
      silent && IsRelay(s.endpoints[source])
      && !(IsRelay(s.endpoints[s.current]) && s.endpoints[s.current].averageRtt != 0.0)
    ensures PacketFrom(s, source, silent).current != source ==> PacketFrom(s, source, silent) == s
  {
  }

  // Only the first init has an effect, whatever comes between; it leads to the relay it came
  // through, over UDP only if that is known to work.
  lemma {:induction false} InitDecidesOnce(s: State, run: seq<Step>, source: Id, udpWorks: bool)
    requires s.f.receivedInit && After(s, run).Some?
    ensures var s' := After(s, run).value;
      s'.f.receivedInit && (source in s'.endpoints ==> InitFrom(s', source, udpWorks) == s')
  {
    hide IsTable, Enabled;
    if run != [] {
      InitDecidesOnce(s, run[..|run| - 1], source, udpWorks);
      InitStays(After(s, run[..|run| - 1]).value, run[|run| - 1]);
    }
  }

  lemma InitStays(s: State, step: Step)
    requires s.current in s.endpoints && s.preferred in s.endpoints && Enabled(s, step) && s.f.receivedInit
    ensures Next(s, step).f.receivedInit
  {
    match step
    case EvaluatedUdp(avgPongs, _, order) =>
      TcpKeepsInit(WithoutUdp(s, avgPongs), order);
      TcpKeepsInit(s.(f := s.f.(useTcp := true, setCurrentToTcp := true)), order);
      hide AddTcpRelays;
    case PingedRelays(t, order) => hide BestRelay;
    case _ =>
  }

  lemma TcpKeepsInit(s: State, order: seq<Id>)
    ensures AddTcpRelays(s, order).f.receivedInit == s.f.receivedInit
  {
    LoopKeepsInit(s, s.f.setCurrentToTcp && !s.f.useUdp, order);
    hide AddTcpLoop;
  }

  lemma {:induction false} LoopKeepsInit(s: State, reset: bool, order: seq<Id>)
    ensures AddTcpLoop(s, reset, order).state.f.receivedInit == s.f.receivedInit
  {
    if order != [] { LoopKeepsInit(s, reset, order[..|order| - 1]); }
  }

  lemma FirstInitLeads(s: State, source: Id, udpWorks: bool)
    requires Inv(s) && source in s.endpoints && !s.f.receivedInit
    ensures var s', kind := InitFrom(s, source, udpWorks), s.endpoints[source].kind;
      && s'.f.receivedInit
      && (s'.current == source <==> s.current == source || kind == TcpRelay || (kind == UdpRelay && udpWorks))
      && (s'.current != source ==> s'.current == s.current)
      && (s'.preferred != s.preferred ==> s'.preferred == source == s'.current)
      && (s'.current == source && kind == UdpRelay && udpWorks ==> s'.preferred == source)
      && (kind == TcpRelay ==> s'.preferred == if s.f.useTcp then source else s.preferred)
  {
  }
}
