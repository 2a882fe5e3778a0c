// Two peers that exchange headers over a channel that may lose, repeat and reorder them.
module ExtrasOverLossyChannel {
  import opened Serial
  import opened ReceiveWindow
  import opened Extras

  // sent: the headers written so far; got: those of the other side that were accepted;
  // lastWritten: the greatest number written.
  datatype Side = Side(peer: Peer, ghost sent: set<Header>, ghost got: set<Header>, ghost lastWritten: nat)

  // The two sides; `true` names the first of them.
  datatype World = World(a: Side, b: Side) {
    function Me(first: bool): Side { if first then a else b }
    function Other(first: bool): Side { if first then b else a }
    ghost function With(first: bool, me: Side): World { if first then World(me, b) else World(a, me) }
  }

  const NEW_SIDE := Side(NEW_PEER, {}, {}, 0)

  const NEW_WORLD := World(NEW_SIDE, NEW_SIDE)

  datatype Action = Send(c: Content) | Write(pseq: nat) | Deliver(h: Header, now: real)

  // ----- steps -----

  // Any number below 2^31 is written, and any header of the other side is delivered.
  ghost predicate Possible(me: Side, other: Side, act: Action) {
    match act
    case Send(_) => true
    case Write(pseq) => 0 < pseq < HALF
    case Deliver(h, now) => h in other.sent && now > 0.0
  }

  // A number is safe for a fresh extra if it is above all before, or if all that was written
  // is acknowledged. The sender knows both before it writes.
  ghost predicate IsSafe(me: Side, pseq: nat) {
    pseq > me.lastWritten || me.peer.lastRemoteAckSeq == me.lastWritten
  }

  ghost function Act(me: Side, act: Action, hash: Content -> nat): (me': Side)
    requires IsPeer(me.peer)
    requires act.Write? ==> 0 < act.pseq < HALF
    requires act.Deliver? ==> act.now > 0.0
    ensures IsPeer(me'.peer)
  {
    match act
    case Send(c) => me.(peer := me.peer.(currentExtras := Put(me.peer.currentExtras, c)))
    case Write(pseq) => me.(
      peer := me.peer.(currentExtras := Stamp(me.peer.currentExtras, pseq)),
      sent := me.sent + {HeaderOf(me.peer, pseq)},
      lastWritten := if pseq > me.lastWritten then pseq else me.lastWritten)
    case Deliver(h, now) =>
      var r := AcceptHeader(me.peer, h, now, hash);
      me.(peer := r.peer, got := if r.accepted then me.got + {h} else me.got)
  }

  // The peer has accepted a packet with this number, or the number is still that of none.
  ghost predicate Arrived(number: uint32, got: set<Header>) {
    number == 0 || exists g :: g in got && g.number == number
  }

  ghost predicate WroteLast(me: Side) {
    me.lastWritten == 0 || exists h :: h in me.sent && h.number == me.lastWritten
  }

  // What ties the numbers that `me` writes to those that `other` accepts and acknowledges.
  ghost predicate Linked(me: Side, other: Side) {
    && IsPeer(me.peer) && IsPeer(other.peer)
    && me.lastWritten < HALF && WroteLast(me)
    && (forall h :: h in me.sent ==> 0 < h.number <= me.lastWritten)
    && other.got <= me.sent
    && (forall x :: x in me.peer.currentExtras ==> x.firstSeq <= me.lastWritten)
    && Arrived(other.peer.window.last, other.got)
    && (forall g :: g in other.got ==> g.number <= other.peer.window.last)
    && (forall h :: h in other.sent ==> h.ackId <= other.peer.window.last && Arrived(h.ackId, other.got))
    && me.peer.lastRemoteAckSeq <= other.peer.window.last
    && Arrived(me.peer.lastRemoteAckSeq, other.got)
  }

  ghost predicate Inv(w: World) { Linked(w.a, w.b) && Linked(w.b, w.a) }

  // ----- every step keeps the numbers linked -----

  lemma ActKeepsOwnLink(me: Side, other: Side, act: Action, hash: Content -> nat)
    requires Linked(me, other) && Linked(other, me) && Possible(me, other, act)
    ensures Linked(Act(me, act, hash), other)
  {
    hide Mask, Receive, Judge, Apply, Passes;
    var me' := Act(me, act, hash);
    match act
    case Send(c) =>
      PutMembers(me.peer.currentExtras, c);
    case Write(pseq) =>
      forall x | x in me'.peer.currentExtras ensures x.firstSeq <= me'.lastWritten {
        var i :| 0 <= i < |me'.peer.currentExtras| && me'.peer.currentExtras[i] == x;
        assert me.peer.currentExtras[i] in me.peer.currentExtras;
      }
    case Deliver(h, now) =>
      assert forall x :: x in me'.peer.currentExtras ==> x in me.peer.currentExtras;
  }

  lemma ActKeepsOtherLink(me: Side, other: Side, act: Action, hash: Content -> nat)
    requires Linked(me, other) && Linked(other, me) && Possible(me, other, act)
    ensures Linked(other, Act(me, act, hash))
  {
    hide Mask, Apply, Passes, Put, Stamp, Unacked;
    var me' := Act(me, act, hash);
    match act
    case Send(c) =>
    case Write(pseq) =>
    case Deliver(h, now) =>
      WindowMoves(me.peer.window, h.number, now);
      assert me.got <= me'.got;
  }

  lemma WindowMoves(w: Window, n: uint32, now: real)
    requires IsWindow(w) && w.last < HALF && n < HALF && now > 0.0
    ensures Receive(w, n, now).last == if Judge(w, n) == Accepted && n > w.last then n else w.last
    ensures n > w.last ==> Judge(w, n) == Accepted
  {
  }

  lemma ActIsDefined(me: Side, other: Side, act: Action)
    requires Linked(me, other) && Possible(me, other, act)
    ensures IsPeer(me.peer)
    ensures act.Write? ==> 0 < act.pseq < HALF
    ensures act.Deliver? ==> act.now > 0.0
  {
  }

  lemma ActKeepsInv(w: World, first: bool, act: Action, hash: Content -> nat)
    requires Inv(w) && Possible(w.Me(first), w.Other(first), act)
    ensures Inv(w.With(first, Act(w.Me(first), act, hash)))
  {
    hide Linked, Possible, Act;
    var me, other := w.Me(first), w.Other(first);
    ActIsDefined(me, other, act);
    ActKeepsOwnLink(me, other, act, hash);
    ActKeepsOtherLink(me, other, act, hash);
  }

  // ----- runs -----

  datatype Event = Event(first: bool, act: Action)

  ghost predicate IsRun(w: World, run: seq<Event>, hash: Content -> nat)
    requires ArePeers(w)
    decreases |run|, 0
  {
    run == [] || (
      var before, e := After(w, run[..|run| - 1], hash), run[|run| - 1];
      IsRun(w, run[..|run| - 1], hash) && Possible(before.Me(e.first), before.Other(e.first), e.act))
  }

  ghost function After(w: World, run: seq<Event>, hash: Content -> nat): (w': World)
    requires ArePeers(w)
    ensures ArePeers(w')
    decreases |run|, 1
  {
    if run == [] || !IsRun(w, run, hash) then w
    else Next(After(w, run[..|run| - 1], hash), run[|run| - 1], hash)
  }

  predicate ArePeers(w: World) { IsPeer(w.a.peer) && IsPeer(w.b.peer) }

  ghost function Next(w: World, e: Event, hash: Content -> nat): (w': World)
    requires ArePeers(w) && Possible(w.Me(e.first), w.Other(e.first), e.act)
    ensures ArePeers(w')
  {
    w.With(e.first, Act(w.Me(e.first), e.act, hash))
  }

  lemma RunExtends(w: World, run: seq<Event>, e: Event, hash: Content -> nat)
    requires ArePeers(w) && IsRun(w, run, hash)
    requires var at := After(w, run, hash); Possible(at.Me(e.first), at.Other(e.first), e.act)
    ensures IsRun(w, run + [e], hash) && After(w, run + [e], hash) == Next(After(w, run, hash), e, hash)
  {
    hide Possible, Next;
    var all := run + [e];
    assert all[..|all| - 1] == run && all[|all| - 1] == e;
  }

  lemma {:induction false} RunKeepsInv(w: World, run: seq<Event>, hash: Content -> nat)
    requires ArePeers(w) && Inv(w) && IsRun(w, run, hash)
    ensures Inv(After(w, run, hash))
    decreases |run|
  {
    hide Act, Inv, Possible;
    if run != [] {
      var prev, e := run[..|run| - 1], run[|run| - 1];
      RunKeepsInv(w, prev, hash);
      ActKeepsInv(After(w, prev, hash), e.first, e.act, hash);
    }
  }

  lemma NewWorldInv()
    ensures Inv(NEW_WORLD)
  {
  }

  lemma InvIs(w: World, first: bool)
    requires Inv(w)
    ensures Linked(w.Me(first), w.Other(first)) && Linked(w.Other(first), w.Me(first))
    ensures ArePeers(w)
  {
  }

  // ----- an extra leaves once it was delivered -----

  // A header was accepted that carried the extra, has a number from its stamp on, and was
  // written after number `floor`.
  ghost predicate Delivered(x: Pending, got: set<Header>, floor: nat) {
    && x.firstSeq != 0
    && exists g :: g in got && g.number >= x.firstSeq && g.number > floor && x.content in g.extras
  }

  // Event k gives c, and no later one gives another extra of its kind.
  ghost predicate LastGiving(run: seq<Event>, k: nat, first: bool, c: Content) {
    && k < |run| && run[k] == Event(first, Send(c))
    && forall i :: k < i < |run| && run[i].first == first && run[i].act.Send? ==> run[i].act.c.kind != c.kind
  }

  // From event k on, c gets no number that is not safe.
  ghost predicate StampedSafely(run: seq<Event>, k: nat, first: bool, c: Content, hash: Content -> nat) {
    forall j :: k <= j < |run| && run[j].first == first && run[j].act.Write? ==>
      var me := After(NEW_WORLD, run[..j], hash).Me(first);
      Pending(c, 0) in me.peer.currentExtras ==> IsSafe(me, run[j].act.pseq)
  }

  lemma {:induction false} RunKeepsUnique(run: seq<Event>, first: bool, hash: Content -> nat)
    requires IsRun(NEW_WORLD, run, hash)
    ensures UniqueKinds(Contents(After(NEW_WORLD, run, hash).Me(first).peer.currentExtras))
    decreases |run|
  {
    hide Act, UniqueKinds, Possible;
    if run == [] {
      assert UniqueKinds(Contents([])) by { NoKinds(); }
    } else {
      var prev, e := run[..|run| - 1], run[|run| - 1];
      RunKeepsUnique(prev, first, hash);
      if e.first == first {
        DefinedInRun(prev, e, hash);
        ActKeepsUnique(After(NEW_WORLD, prev, hash).Me(first), e.act, hash);
      }
    }
  }

  lemma NoKinds()
    ensures UniqueKinds(Contents([]))
  {
  }

  lemma ActKeepsUnique(me: Side, act: Action, hash: Content -> nat)
    requires IsPeer(me.peer) && (act.Write? ==> 0 < act.pseq < HALF) && (act.Deliver? ==> act.now > 0.0)
    requires UniqueKinds(Contents(me.peer.currentExtras))
    ensures UniqueKinds(Contents(Act(me, act, hash).peer.currentExtras))
  {
    hide UniqueKinds, Contents, Mask, Receive, Judge, Apply, Passes;
    match act
    case Send(c) => PutKeepsUnique(me.peer.currentExtras, c);
    case Write(pseq) => StampKeepsContents(me.peer.currentExtras, pseq);
    case Deliver(h, now) => UnackedKeepsUnique(me.peer.currentExtras, h.ackId);
  }

  lemma DefinedInRun(run: seq<Event>, e: Event, hash: Content -> nat)
    requires IsRun(NEW_WORLD, run, hash)
    requires var w := After(NEW_WORLD, run, hash); Possible(w.Me(e.first), w.Other(e.first), e.act)
    ensures var w := After(NEW_WORLD, run, hash);
      Inv(w) && Linked(w.Me(e.first), w.Other(e.first)) && Linked(w.Other(e.first), w.Me(e.first))
    ensures (e.act.Write? ==> 0 < e.act.pseq < HALF) && (e.act.Deliver? ==> e.act.now > 0.0)
  {
    hide Inv, Linked;
    NewWorldInv();
    RunKeepsInv(NEW_WORLD, run, hash);
    InvIs(After(NEW_WORLD, run, hash), e.first);
  }

  // What holds from the giving of c on, with `floor` the greatest number before it: the
  // pending extra of its kind is c, rides in every header above `floor`, and can be taken
  // only by an acknowledgement above `floor`.
  ghost predicate Rides(me: Side, c: Content, floor: nat) {
    && me.lastWritten >= floor
    && forall x :: x in me.peer.currentExtras && x.content.kind == c.kind ==>
         && x.content == c
         && (x.firstSeq == 0 || x.firstSeq > floor || me.peer.lastRemoteAckSeq >= floor)
         && forall h :: h in me.sent && h.number > floor ==> c in h.extras
  }

  lemma {:induction false} GivingHolds(run: seq<Event>, k: nat, first: bool, c: Content, hash: Content -> nat)
    requires IsRun(NEW_WORLD, run, hash) && LastGiving(run, k, first, c) && StampedSafely(run, k, first, c, hash)
    ensures Rides(After(NEW_WORLD, run, hash).Me(first), c, After(NEW_WORLD, run[..k], hash).Me(first).lastWritten)
    decreases |run|
  {
    hide Act, Possible, UniqueKinds, Rides, Linked, Inv, IsSafe;
    var n := |run| - 1;
    var prev, e := run[..n], run[n];
    assert forall i :: 0 <= i <= n ==> prev[..i] == run[..i];
    var before := After(NEW_WORLD, prev, hash);
    RunKeepsUnique(prev, first, hash);
    DefinedInRun(prev, e, hash);
    if k == n {
      GivesRiding(before.Me(first), before.Other(first), c, hash);
    } else {
      GivingHolds(prev, k, first, c, hash);
      if e.first == first {
        ActKeepsRides(before.Me(first), before.Other(first), e.act, c,
          After(NEW_WORLD, run[..k], hash).Me(first).lastWritten, hash);
      }
    }
  }

  lemma GivesRiding(me: Side, other: Side, c: Content, hash: Content -> nat)
    requires Linked(me, other) && UniqueKinds(Contents(me.peer.currentExtras))
    ensures Rides(Act(me, Send(c), hash), c, me.lastWritten)
  {
    hide UniqueKinds;
    PutKeepsUnique(me.peer.currentExtras, c);
  }

  lemma ActKeepsRides(me: Side, other: Side, act: Action, c: Content, floor: nat, hash: Content -> nat)
    requires Linked(me, other) && Linked(other, me) && Possible(me, other, act)
    requires Rides(me, c, floor) && (act.Send? ==> act.c.kind != c.kind)
    requires act.Write? && Pending(c, 0) in me.peer.currentExtras ==> IsSafe(me, act.pseq)
    ensures Rides(Act(me, act, hash), c, floor)
  {
    hide Mask, Receive, Judge, Apply, Passes;
    ActIsDefined(me, other, act);
    match act
    case Send(d) => PutMembers(me.peer.currentExtras, d);
    case Write(pseq) => WriteKeepsRides(me, pseq, c, floor, hash);
    case Deliver(h, now) =>
      AcksAreSmall(me, other);
      DeliverKeeps(me, h, now, hash);
  }

  lemma WriteKeepsRides(me: Side, pseq: nat, c: Content, floor: nat, hash: Content -> nat)
    requires IsPeer(me.peer) && 0 < pseq < HALF && Rides(me, c, floor)
    requires Pending(c, 0) in me.peer.currentExtras ==> IsSafe(me, pseq)
    ensures Rides(Act(me, Write(pseq), hash), c, floor)
  {
    hide Mask;
    var me', h0 := Act(me, Write(pseq), hash), HeaderOf(me.peer, pseq);
    forall x | x in me'.peer.currentExtras && x.content.kind == c.kind
      ensures x.content == c && (x.firstSeq == 0 || x.firstSeq > floor || me'.peer.lastRemoteAckSeq >= floor)
      ensures forall h :: h in me'.sent && h.number > floor ==> c in h.extras
    {
      var i :| 0 <= i < |me'.peer.currentExtras| && me'.peer.currentExtras[i] == x;
      assert me.peer.currentExtras[i] in me.peer.currentExtras && h0.extras[i] == c;
    }
  }

  lemma AcksAreSmall(me: Side, other: Side)
    requires Linked(me, other) && Linked(other, me)
    ensures me.peer.lastRemoteAckSeq < HALF && forall h :: h in other.sent ==> h.ackId < HALF
  {
  }

  lemma DeliverKeeps(me: Side, h: Header, now: real, hash: Content -> nat)
    requires IsPeer(me.peer) && me.peer.lastRemoteAckSeq < HALF && h.ackId < HALF && now > 0.0
    ensures var me' := Act(me, Deliver(h, now), hash);
      && me'.sent == me.sent && me'.lastWritten == me.lastWritten
      && me'.peer.lastRemoteAckSeq >= me.peer.lastRemoteAckSeq
      && forall x :: x in me'.peer.currentExtras ==> x in me.peer.currentExtras
  {
    hide Mask, Receive, Judge, Apply, Passes;
  }

  // The acknowledgement that takes an extra is that of a header that carried it.
  lemma AckIsDelivery(me: Side, other: Side, h: Header, now: real, x: Pending, floor: nat, hash: Content -> nat)
    requires Linked(me, other) && Linked(other, me) && Possible(me, other, Deliver(h, now))
    requires Rides(me, x.content, floor) && x in me.peer.currentExtras
    requires x !in Act(me, Deliver(h, now), hash).peer.currentExtras
    ensures Delivered(x, other.got, floor)
  {
    hide Mask, Receive, Judge, Apply, Passes, Unacked;
    assert IsAcked(x, h.ackId) && h.ackId > me.peer.lastRemoteAckSeq;
    var g :| g in other.got && g.number == h.ackId;
    assert g in me.sent;
  }

  // However often the same content was given and delivered before: once the extra that was
  // given last leaves, a header was accepted that carried it and was written after it was
  // given, with a number above all before.
  lemma EachGivingIsDelivered(run: seq<Event>, k: nat, e: Event, c: Content, x: Pending, hash: Content -> nat)
    requires IsRun(NEW_WORLD, run, hash) && LastGiving(run, k, e.first, c) && e.act.Deliver?
    requires StampedSafely(run, k, e.first, c, hash)
    requires var w := After(NEW_WORLD, run, hash); Possible(w.Me(e.first), w.Other(e.first), e.act)
    requires x.content.kind == c.kind && x in After(NEW_WORLD, run, hash).Me(e.first).peer.currentExtras
    requires x !in Next(After(NEW_WORLD, run, hash), e, hash).Me(e.first).peer.currentExtras
    ensures x.content == c
    ensures var floor := After(NEW_WORLD, run[..k], hash).Me(e.first).lastWritten;
      Delivered(x, After(NEW_WORLD, run, hash).Other(e.first).got, floor)
  {
    hide Act, Possible, Linked, Inv, Delivered;
    var w, floor := After(NEW_WORLD, run, hash), After(NEW_WORLD, run[..k], hash).Me(e.first).lastWritten;
    GivingHolds(run, k, e.first, c, hash);
    DefinedInRun(run, e, hash);
    AckIsDelivery(w.Me(e.first), w.Other(e.first), e.act.h, e.act.now, x, floor, hash);
  }

  // Whatever is pending was given.
  lemma {:induction false} PendingWasGiven(run: seq<Event>, first: bool, x: Pending, hash: Content -> nat) returns (k: nat)
    requires IsRun(NEW_WORLD, run, hash) && x in After(NEW_WORLD, run, hash).Me(first).peer.currentExtras
    ensures LastGiving(run, k, first, x.content)
    decreases |run|
  {
    hide Act, Possible, Linked, Inv, UniqueKinds;
    var n := |run| - 1;
    var prev, e := run[..n], run[n];
    var before := After(NEW_WORLD, prev, hash);
    DefinedInRun(prev, e, hash);
    if e == Event(first, Send(x.content)) {
      k := n;
    } else if e.first == first {
      RunKeepsUnique(prev, first, hash);
      var was := WasPending(before.Me(first), e.act, x, hash);
      k := PendingWasGiven(prev, first, was, hash);
    } else {
      k := PendingWasGiven(prev, first, x, hash);
    }
  }

  lemma WasPending(me: Side, act: Action, x: Pending, hash: Content -> nat) returns (was: Pending)
    requires IsPeer(me.peer) && (act.Write? ==> 0 < act.pseq < HALF) && (act.Deliver? ==> act.now > 0.0)
    requires x in Act(me, act, hash).peer.currentExtras && act != Send(x.content)
    requires UniqueKinds(Contents(me.peer.currentExtras))
    ensures was in me.peer.currentExtras && was.content == x.content
    ensures act.Send? ==> act.c.kind != x.content.kind
  {
    hide Mask, Receive, Judge, Apply, Passes, UniqueKinds;
    was := x;
    match act
    case Send(d) =>
      PutMembers(me.peer.currentExtras, d);
      PutKeepsUnique(me.peer.currentExtras, d);
    case Write(pseq) =>
      var es := Act(me, act, hash).peer.currentExtras;
      var i :| 0 <= i < |es| && es[i] == x;
      was := me.peer.currentExtras[i];
    case Deliver(h, now) =>
  }

  // In any run, when an action takes an extra from the list: another of its kind was given,
  // or it got its number, or a header that carried it from that number on, and was written
  // after event k gave it, was accepted.
  lemma ExtraLeavesOnceDelivered(run: seq<Event>, e: Event, x: Pending, hash: Content -> nat) returns (k: nat)
    requires IsRun(NEW_WORLD, run, hash) && StampedSafely(run, 0, e.first, x.content, hash)
    requires var w := After(NEW_WORLD, run, hash); Possible(w.Me(e.first), w.Other(e.first), e.act)
    requires x in After(NEW_WORLD, run, hash).Me(e.first).peer.currentExtras
    requires x !in Next(After(NEW_WORLD, run, hash), e, hash).Me(e.first).peer.currentExtras
    ensures LastGiving(run, k, e.first, x.content)
    ensures var w := After(NEW_WORLD, run, hash);
      match e.act
      case Send(c) => c.kind == x.content.kind
      case Write(pseq) => x.firstSeq == 0
        && Pending(x.content, pseq) in Next(w, e, hash).Me(e.first).peer.currentExtras
      case Deliver(_, _) =>
        Delivered(x, w.Other(e.first).got, After(NEW_WORLD, run[..k], hash).Me(e.first).lastWritten)
  {
    hide Act, Possible, Linked, Inv, Delivered, IsSafe;
    k := PendingWasGiven(run, e.first, x, hash);
    DefinedInRun(run, e, hash);
    var me := After(NEW_WORLD, run, hash).Me(e.first);
    if e.act.Deliver? {
      EachGivingIsDelivered(run, k, e, x.content, x, hash);
    } else {
      ActRemoves(me, e.act, x, hash);
    }
  }

  lemma ActRemoves(me: Side, act: Action, x: Pending, hash: Content -> nat)
    requires IsPeer(me.peer) && (act.Write? ==> 0 < act.pseq < HALF) && !act.Deliver?
    requires x in me.peer.currentExtras && x !in Act(me, act, hash).peer.currentExtras
    ensures act.Send? ==> act.c.kind == x.content.kind
    ensures act.Write? ==> x.firstSeq == 0 && Pending(x.content, act.pseq) in Act(me, act, hash).peer.currentExtras
  {
    var me' := Act(me, act, hash);
    match act
    case Send(d) =>
      PutMembers(me.peer.currentExtras, d);
    case Write(pseq) =>
      var i :| 0 <= i < |me.peer.currentExtras| && me.peer.currentExtras[i] == x;
      assert me'.peer.currentExtras[i] in me'.peer.currentExtras;
  }

  // ----- exactly when a number is not safe -----

  ghost function Written(w: World, first: bool, pseq: nat, hash: Content -> nat): (w': World)
    requires ArePeers(w) && 0 < pseq < HALF
    ensures ArePeers(w')
  {
    w.With(first, Act(w.Me(first), Write(pseq), hash))
  }

  // A delivery takes x though no header that carries it was accepted, but for those written `before`.
  ghost predicate TakesUndelivered(at: World, first: bool, x: Pending, e: Event, before: set<Header>, hash: Content -> nat)
    requires ArePeers(at)
  {
    && e.first == first && e.act.Deliver? && Possible(at.Me(first), at.Other(first), e.act)
    && x !in Next(at, e, hash).Me(first).peer.currentExtras
    && forall g :: g in at.Other(first).got && x.content in g.extras ==> g in before
  }

  // In a continuation through which x stays pending, it leaves though no header that carries
  // it and was written since w was accepted.
  ghost predicate Loses(w: World, first: bool, x: Pending, run: seq<Event>, e: Event, hash: Content -> nat)
    requires ArePeers(w) && 0 < x.firstSeq < HALF
  {
    var w1 := Written(w, first, x.firstSeq, hash);
    && IsRun(w1, run, hash) && StaysPending(w1, first, x, run, hash)
    && TakesUndelivered(After(w1, run, hash), first, x, e, w.Me(first).sent, hash)
  }

  ghost predicate StaysPending(w: World, first: bool, x: Pending, run: seq<Event>, hash: Content -> nat)
    requires ArePeers(w)
    decreases |run|
  {
    && x in After(w, run, hash).Me(first).peer.currentExtras
    && (run == [] || StaysPending(w, first, x, run[..|run| - 1], hash))
  }

  ghost predicate CanLose(w: World, first: bool, x: Pending, hash: Content -> nat)
    requires ArePeers(w) && 0 < x.firstSeq < HALF
  {
    exists run, e :: Loses(w, first, x, run, e, hash)
  }

  // With x pending ever since `was`: every header written since carries it.
  ghost predicate Since(was: Side, me: Side, x: Pending) {
    && was.sent <= me.sent && me.peer.lastRemoteAckSeq >= was.peer.lastRemoteAckSeq
    && forall h :: h in me.sent && h !in was.sent ==> x.content in h.extras
  }

  lemma {:induction false} RunSince(w: World, first: bool, x: Pending, run: seq<Event>, hash: Content -> nat)
    requires ArePeers(w) && Inv(w) && 0 < x.firstSeq < HALF && Pending(x.content, 0) in w.Me(first).peer.currentExtras
    requires var w1 := Written(w, first, x.firstSeq, hash); IsRun(w1, run, hash) && StaysPending(w1, first, x, run, hash)
    ensures var at := After(Written(w, first, x.firstSeq, hash), run, hash);
      Inv(at) && Since(w.Me(first), at.Me(first), x)
    decreases |run|
  {
    hide Act, Possible, Linked, Inv, Since;
    InvIs(w, first);
    if run == [] {
      MayWrite(w, first, x.firstSeq);
      ActKeepsInv(w, first, Write(x.firstSeq), hash);
      WriteSince(w.Me(first), x, hash);
    } else {
      var w1, n := Written(w, first, x.firstSeq, hash), |run| - 1;
      var prev, e := run[..n], run[n];
      RunSince(w, first, x, prev, hash);
      var before := After(w1, prev, hash);
      ActKeepsInv(before, e.first, e.act, hash);
      InvIs(before, first);
      if e.first == first {
        assert x in before.Me(first).peer.currentExtras;
        ActKeepsSince(w.Me(first), before.Me(first), before.Other(first), e.act, x, hash);
      }
    }
  }

  lemma MayWrite(w: World, first: bool, pseq: nat)
    requires 0 < pseq < HALF
    ensures Possible(w.Me(first), w.Other(first), Write(pseq))
  {
  }

  lemma WriteSince(me: Side, x: Pending, hash: Content -> nat)
    requires IsPeer(me.peer) && 0 < x.firstSeq < HALF && Pending(x.content, 0) in me.peer.currentExtras
    ensures var me1 := Act(me, Write(x.firstSeq), hash);
      && Since(me, me1, x) && x in me1.peer.currentExtras
      && me1.peer.lastRemoteAckSeq == me.peer.lastRemoteAckSeq && me1.got == me.got
  {
    hide Mask;
    var me1, h0 := Act(me, Write(x.firstSeq), hash), HeaderOf(me.peer, x.firstSeq);
    var i :| 0 <= i < |me.peer.currentExtras| && me.peer.currentExtras[i] == Pending(x.content, 0);
    assert me1.peer.currentExtras[i] in me1.peer.currentExtras && h0.extras[i] == x.content;
  }

  lemma ActKeepsSince(was: Side, me: Side, other: Side, act: Action, x: Pending, hash: Content -> nat)
    requires Linked(me, other) && Linked(other, me) && Possible(me, other, act)
    requires Since(was, me, x) && x in me.peer.currentExtras
    ensures ArePeers(World(me, other)) && (act.Write? ==> 0 < act.pseq < HALF) && (act.Deliver? ==> act.now > 0.0)
    ensures Since(was, Act(me, act, hash), x)
  {
    hide Mask, Receive, Judge, Apply, Passes, Put;
    match act
    case Send(_) =>
    case Write(pseq) =>
      var h0 := HeaderOf(me.peer, pseq);
      var i :| 0 <= i < |me.peer.currentExtras| && me.peer.currentExtras[i] == x;
      assert h0.extras[i] == x.content;
    case Deliver(h, now) =>
      AcksAreSmall(me, other);
      DeliverKeeps(me, h, now, hash);
  }

  // With a safe number nothing is lost, whatever comes after.
  lemma NothingLost(w: World, first: bool, x: Pending, run: seq<Event>, e: Event, hash: Content -> nat)
    requires ArePeers(w) && Inv(w) && 0 < x.firstSeq < HALF && Pending(x.content, 0) in w.Me(first).peer.currentExtras
    requires IsSafe(w.Me(first), x.firstSeq)
    ensures !Loses(w, first, x, run, e, hash)
  {
    hide Act, Linked, Inv, IsSafe, Possible, Since;
    if Loses(w, first, x, run, e, hash) {
      var at := After(Written(w, first, x.firstSeq, hash), run, hash);
      RunSince(w, first, x, run, hash);
      InvIs(w, first);
      InvIs(at, first);
      var g := AckIsNew(w.Me(first), w.Other(first), at.Me(first), at.Other(first), e.act.h, e.act.now, x, hash);
      assert false;
    }
  }

  lemma AckIsNew(was: Side, peer: Side, me: Side, other: Side, h: Header, now: real, x: Pending, hash: Content -> nat)
    returns (g: Header)
    requires Linked(was, peer) && Linked(me, other) && Linked(other, me) && Possible(me, other, Deliver(h, now))
    requires Since(was, me, x) && IsSafe(was, x.firstSeq)
    requires x in me.peer.currentExtras && x !in Act(me, Deliver(h, now), hash).peer.currentExtras
    ensures g in other.got && x.content in g.extras && g !in was.sent
  {
    hide Mask, Receive, Judge, Apply, Passes, Unacked;
    assert IsAcked(x, h.ackId) && h.ackId > me.peer.lastRemoteAckSeq;
    g :| g in other.got && g.number == h.ackId;
  }

  // The reply of a peer whose last packet is as late as the stamp makes the extra leave.
  lemma ReplyDrops(me: Side, other: Side, x: Pending, hash: Content -> nat)
    requires Linked(me, other) && Linked(other, me) && other.lastWritten + 1 < HALF
    requires 0 < x.firstSeq <= other.peer.window.last && other.peer.window.last > me.peer.lastRemoteAckSeq
    ensures var reply := HeaderOf(other.peer, other.lastWritten + 1);
      x !in Act(me, Deliver(reply, 1.0), hash).peer.currentExtras
  {
    hide Mask, Apply, Passes;
    assert me.peer.window.last <= other.lastWritten;
    WindowMoves(me.peer.window, other.lastWritten + 1, 1.0);
    hide Receive, Judge;
  }

  lemma StaysExtends(w: World, first: bool, x: Pending, run: seq<Event>, e: Event, hash: Content -> nat)
    requires ArePeers(w) && StaysPending(w, first, x, run, hash)
    requires x in After(w, run + [e], hash).Me(first).peer.currentExtras
    ensures StaysPending(w, first, x, run + [e], hash)
  {
    hide After;
    assert (run + [e])[..|run|] == run;
  }

  lemma NextIs(w: World, e: Event, first: bool, hash: Content -> nat)
    requires ArePeers(w) && Possible(w.Me(e.first), w.Other(e.first), e.act)
    ensures (e.act.Write? ==> 0 < e.act.pseq < HALF) && (e.act.Deliver? ==> e.act.now > 0.0)
    ensures e.first == first ==> Next(w, e, hash).Me(first) == Act(w.Me(first), e.act, hash)
    ensures e.first != first ==> Next(w, e, hash).Me(first) == w.Me(first)
    ensures e.first != first && e.act.Write? ==>
      var other := Next(w, e, hash).Other(first);
      other.got == w.Other(first).got && HeaderOf(w.Other(first).peer, e.act.pseq) in other.sent
  {
    hide Mask, Stamp;
  }

  // Once the last packet that the peer has is as late as the stamp, its reply takes x.
  lemma ReplyTakes(at: World, first: bool, x: Pending, before: set<Header>, hash: Content -> nat)
    requires ArePeers(at)
    requires var me, other := at.Me(first), at.Other(first);
      && Linked(me, other) && Linked(other, me) && other.lastWritten + 1 < HALF
      && 0 < x.firstSeq <= other.peer.window.last && other.peer.window.last > me.peer.lastRemoteAckSeq
      && other.got <= before
    ensures var other := at.Other(first);
      var n := other.lastWritten + 1;
      var next := Next(at, Event(!first, Write(n)), hash);
      && next.Me(first) == at.Me(first)
      && TakesUndelivered(next, first, x, Event(first, Deliver(HeaderOf(other.peer, n), 1.0)), before, hash)
  {
    hide Linked, Next, Act, HeaderOf, Mask;
    var me, other := at.Me(first), at.Other(first);
    var n := other.lastWritten + 1;
    var answer, e := Event(!first, Write(n)), Event(first, Deliver(HeaderOf(other.peer, n), 1.0));
    ReplyDrops(me, other, x, hash);
    NextIs(at, answer, first, hash);
    NextIs(Next(at, answer, hash), e, first, hash);
  }

  lemma LosesInTwo(w: World, first: bool, x: Pending, run: seq<Event>, hash: Content -> nat)
    requires ArePeers(w) && 0 < x.firstSeq < HALF
    requires var w1 := Written(w, first, x.firstSeq, hash); IsRun(w1, run, hash) && StaysPending(w1, first, x, run, hash)
    requires var at := After(Written(w, first, x.firstSeq, hash), run, hash);
      var me, other := at.Me(first), at.Other(first);
      && Linked(me, other) && Linked(other, me) && other.lastWritten + 1 < HALF
      && x.firstSeq <= other.peer.window.last && other.peer.window.last > me.peer.lastRemoteAckSeq
      && other.got <= w.Me(first).sent
    ensures CanLose(w, first, x, hash)
  {
    hide Linked, Written, IsRun, After, Next, Act, HeaderOf, TakesUndelivered, Mask;
    var w1 := Written(w, first, x.firstSeq, hash);
    var at := After(w1, run, hash);
    var n := at.Other(first).lastWritten + 1;
    var answer := Event(!first, Write(n));
    var e := Event(first, Deliver(HeaderOf(at.Other(first).peer, n), 1.0));
    assert x in at.Me(first).peer.currentExtras;
    hide StaysPending;
    ReplyTakes(at, first, x, w.Me(first).sent, hash);
    RunExtends(w1, run, answer, hash);
    StaysExtends(w1, first, x, run, answer, hash);
    assert Loses(w, first, x, run + [answer], e, hash);
  }

  lemma UnsafeIsLost(w: World, first: bool, x: Pending, hash: Content -> nat)
    requires ArePeers(w) && Inv(w) && 0 < x.firstSeq < HALF && w.Other(first).lastWritten + 1 < HALF
    requires Pending(x.content, 0) in w.Me(first).peer.currentExtras && !IsSafe(w.Me(first), x.firstSeq)
    ensures CanLose(w, first, x, hash)
  {
    hide Inv, CanLose;
    InvIs(w, first);
    var me, other := w.Me(first), w.Other(first);
    var h := Unacknowledged(me, other, x.firstSeq);
    hide Linked, IsSafe;
    MayWrite(w, first, x.firstSeq);
    ActKeepsOwnLink(me, other, Write(x.firstSeq), hash);
    ActKeepsOtherLink(me, other, Write(x.firstSeq), hash);
    WriteSince(me, x, hash);
    var w1 := Written(w, first, x.firstSeq, hash);
    var me1 := w1.Me(first);
    assert IsRun(w1, [], hash) && After(w1, [], hash) == w1;
    assert StaysPending(w1, first, x, [], hash);
    if h.number == other.peer.window.last {
      LosesInTwo(w, first, x, [], hash);
    } else {
      var arrive := Event(!first, Deliver(h, 1.0));
      RunExtends(w1, [], arrive, hash);
      ActKeepsOwnLink(other, me1, arrive.act, hash);
      ActKeepsOtherLink(other, me1, arrive.act, hash);
      ArrivesLast(other, me1, h, hash);
      StaysExtends(w1, first, x, [], arrive, hash);
      hide Act, Written;
      LosesInTwo(w, first, x, [] + [arrive], hash);
    }
  }

  // The last header of a sender for whom the number is not safe is not acknowledged yet.
  lemma Unacknowledged(me: Side, other: Side, pseq: nat) returns (h: Header)
    requires Linked(me, other) && 0 < pseq && !IsSafe(me, pseq)
    ensures h in me.sent && h.number == me.lastWritten >= pseq
    ensures me.peer.lastRemoteAckSeq < h.number && other.peer.window.last <= h.number && other.got <= me.sent
    ensures IsPeer(me.peer) && IsPeer(other.peer)
  {
    h :| h in me.sent && h.number == me.lastWritten;
  }

  // A header that is later than all that were accepted is accepted.
  lemma ArrivesLast(other: Side, me: Side, h: Header, hash: Content -> nat)
    requires Linked(me, other) && h in me.sent && h.number > other.peer.window.last
    ensures var other1 := Act(other, Deliver(h, 1.0), hash);
      && other1.peer.window.last == h.number && other1.lastWritten == other.lastWritten && other1.got == other.got + {h}
  {
    hide Mask, Apply, Passes;
    WindowMoves(other.peer.window, h.number, 1.0);
  }

  // Giving a number to a fresh extra can lose it if and only if the number is not above all
  // before and what was written last is not acknowledged.
  lemma LosesExactly(w: World, first: bool, pseq: nat, c: Content, hash: Content -> nat)
    requires Inv(w) && 0 < pseq < HALF && w.Other(first).lastWritten + 1 < HALF
    requires Pending(c, 0) in w.Me(first).peer.currentExtras
    ensures ArePeers(w)
    ensures var me := w.Me(first);
      CanLose(w, first, Pending(c, pseq), hash)
      <==> pseq <= me.lastWritten && me.peer.lastRemoteAckSeq < me.lastWritten
  {
    InvIs(w, first);
    hide Inv, Loses;
    AckIsWritten(w.Me(first), w.Other(first));
    if IsSafe(w.Me(first), pseq) {
      forall run, e ensures !Loses(w, first, Pending(c, pseq), run, e, hash) {
        NothingLost(w, first, Pending(c, pseq), run, e, hash);
      }
    } else {
      UnsafeIsLost(w, first, Pending(c, pseq), hash);
    }
  }

  lemma AckIsWritten(me: Side, other: Side)
    requires Linked(me, other)
    ensures me.peer.lastRemoteAckSeq <= me.lastWritten
  {
  }

  lemma EmptyRun(hash: Content -> nat)
    ensures IsRun(NEW_WORLD, [], hash) && After(NEW_WORLD, [], hash) == NEW_WORLD
  {
  }

  // From the start: header 5 is written and accepted, and an extra is given. The
  // acknowledgement of header 5 can lose it if it goes out in header 3.
  lemma LateNumberLosesExtra(c: Content, hash: Content -> nat) returns (run: seq<Event>)
    ensures IsRun(NEW_WORLD, run, hash)
    ensures var w := After(NEW_WORLD, run, hash);
      Pending(c, 0) in w.a.peer.currentExtras && CanLose(w, true, Pending(c, 3), hash)
  {
    hide IsRun, After, Mask, CanLose;
    EmptyRun(hash);
    run := SendsAndArrives([], NEW_WORLD, 5, hash);
    var w := After(NEW_WORLD, run, hash);
    run := Gives(run, w, c, hash);
    LosesAtThree(run, c, hash);
  }

  // A header of a is written, with a number above all before, and arrives at b.
  lemma SendsAndArrives(run: seq<Event>, w: World, pseq: nat, hash: Content -> nat) returns (run': seq<Event>)
    requires IsRun(NEW_WORLD, run, hash) && w == After(NEW_WORLD, run, hash)
    requires w.a.lastWritten < pseq < HALF
    ensures IsRun(NEW_WORLD, run', hash)
    ensures var w' := After(NEW_WORLD, run', hash);
      && w'.a.peer == w.a.peer.(currentExtras := Stamp(w.a.peer.currentExtras, pseq)) && w'.a.lastWritten == pseq
      && HeaderOf(w.a.peer, pseq) in w'.b.got && w'.b.lastWritten == w.b.lastWritten && w.b.got <= w'.b.got
  {
    hide IsRun, After, Mask, Inv, Linked;
    NewWorldInv();
    RunKeepsInv(NEW_WORLD, run, hash);
    var write := Event(true, Write(pseq));
    RunExtends(NEW_WORLD, run, write, hash);
    var w1, h := Next(w, write, hash), HeaderOf(w.a.peer, pseq);
    ActKeepsInv(w, true, write.act, hash);
    InvIs(w1, true);
    NotYetThere(w, pseq);
    var arrive := Event(false, Deliver(h, 1.0));
    RunExtends(NEW_WORLD, run + [write], arrive, hash);
    ArrivesLast(w1.b, w1.a, h, hash);
    run' := run + [write] + [arrive];
  }

  lemma NotYetThere(w: World, pseq: nat)
    requires Inv(w) && w.a.lastWritten < pseq
    ensures w.b.peer.window.last < pseq
  {
  }

  lemma Gives(run: seq<Event>, w: World, c: Content, hash: Content -> nat) returns (run': seq<Event>)
    requires IsRun(NEW_WORLD, run, hash) && w == After(NEW_WORLD, run, hash)
    ensures IsRun(NEW_WORLD, run', hash)
    ensures var w' := After(NEW_WORLD, run', hash);
      w'.b == w.b && w'.a == w.a.(peer := w.a.peer.(currentExtras := Put(w.a.peer.currentExtras, c)))
  {
    hide IsRun, After;
    RunExtends(NEW_WORLD, run, Event(true, Send(c)), hash);
    run' := run + [Event(true, Send(c))];
  }

  lemma LosesAtThree(run: seq<Event>, c: Content, hash: Content -> nat)
    requires IsRun(NEW_WORLD, run, hash)
    requires var w := After(NEW_WORLD, run, hash);
      Pending(c, 0) in w.a.peer.currentExtras && w.a.lastWritten >= 5 && w.a.peer.lastRemoteAckSeq == 0 && w.b.lastWritten == 0
    ensures CanLose(After(NEW_WORLD, run, hash), true, Pending(c, 3), hash)
  {
    hide IsRun, After, Inv, CanLose;
    NewWorldInv();
    RunKeepsInv(NEW_WORLD, run, hash);
    LosesExactly(After(NEW_WORLD, run, hash), true, 3, c, hash);
  }

  // The same to an extra that is given again after another of its kind, though the peer has
  // accepted a header with its content before.
  lemma GivenAgainIsLost(c: Content, d: Content, hash: Content -> nat) returns (run: seq<Event>)
    requires c.kind == d.kind && c != d
    ensures IsRun(NEW_WORLD, run, hash)
    ensures var w := After(NEW_WORLD, run, hash);
      && (exists g :: g in w.b.got && g.number >= 3 && c in g.extras)
      && Pending(c, 0) in w.a.peer.currentExtras && CanLose(w, true, Pending(c, 3), hash)
  {
    hide IsRun, After, Mask, CanLose;
    EmptyRun(hash);
    run := Gives([], NEW_WORLD, c, hash);
    var w1 := After(NEW_WORLD, run, hash);
    assert w1.a.peer.currentExtras == [Pending(c, 0)];
    run := SendsAndArrives(run, w1, 5, hash);
    var w2, h := After(NEW_WORLD, run, hash), HeaderOf(w1.a.peer, 5);
    assert w2.a.peer.currentExtras == [Pending(c, 5)] && h.extras == [c] && c in h.extras;
    run := Gives(run, w2, d, hash);
    var w3 := After(NEW_WORLD, run, hash);
    assert [Pending(c, 5)][1..] == [];
    assert w3.a.peer.currentExtras == [Pending(d, 0)];
    run := SendsAndArrives(run, w3, 7, hash);
    var w4 := After(NEW_WORLD, run, hash);
    assert w4.a.peer.currentExtras == [Pending(d, 7)];
    run := Gives(run, w4, c, hash);
    assert [Pending(d, 7)][1..] == [];
    assert After(NEW_WORLD, run, hash).a.peer.currentExtras == [Pending(c, 0)];
    LosesAtThree(run, c, hash);
  }
}
