// The extras of side a, when the headers to side b stay in order though some may be lost,
// and the hash does not collide on them. What b sends back may take any channel.
module ExtrasInOrder {
  import opened Bytes
  import opened Options
  import opened Serial
  import ReceiveWindow
  import opened Extras
  import opened ExtrasOverLossyChannel

  // The last data of a kind in a list of extras.
  function Last(log: seq<Content>, kind: byte): Option<seq<byte>> {
    if log == [] then None
    else if log[|log| - 1].kind == kind then Some(log[|log| - 1].data)
    else Last(log[..|log| - 1], kind)
  }

  // queue: headers from a to b under way; given: the last data handed to SendExtra, by
  // kind; known: all of it; log: the extras b let past its hash check, in order.
  datatype Line = Line(w: World, queue: seq<Header>, given: map<byte, seq<byte>>, known: set<Content>, log: seq<Content>)

  datatype Step = Take(e: Event) | Lose

  ghost predicate CollisionFree(known: set<Content>, hash: Content -> nat) {
    && (forall c :: c in known ==> hash(c) != 0)
    && (forall c, d :: c in known && d in known && c.kind == d.kind && hash(c) == hash(d) ==> c == d)
  }

  ghost predicate CanStep(l: Line, s: Step, hash: Content -> nat) {
    match s
    case Lose => l.queue != []
    case Take(e) =>
      && Possible(l.w.Me(e.first), l.w.Other(e.first), e.act)
      && (e.first && e.act.Send? ==> CollisionFree(l.known + {e.act.c}, hash))
      && (e.first && e.act.Write? ==> e.act.pseq > l.w.a.lastWritten)
      && (!e.first && e.act.Deliver? ==> l.queue != [] && e.act.h == l.queue[0])
  }

  ghost function StepOn(l: Line, s: Step, hash: Content -> nat): (l': Line)
    requires ArePeers(l.w) && CanStep(l, s, hash)
    ensures ArePeers(l'.w)
  {
    match s
    case Lose => l.(queue := l.queue[1..])
    case Take(e) =>
      var l' := l.(w := Next(l.w, e, hash));
      match e.act
      case Send(c) => if e.first then l'.(given := l.given[c.kind := c.data], known := l.known + {c}) else l'
      case Write(pseq) => if e.first then l'.(queue := l.queue + [HeaderOf(l.w.a.peer, pseq)]) else l'
      case Deliver(h, now) =>
        if e.first then l'
        else l'.(queue := l.queue[1..], log := l.log + AcceptHeader(l.w.b.peer, h, now, hash).applied)
  }

  ghost predicate QueueInOrder(l: Line) {
    && (forall i :: 0 <= i < |l.queue| ==> l.queue[i] in l.w.a.sent && l.queue[i].number > l.w.b.peer.window.last)
    && (forall i, j :: 0 <= i < j < |l.queue| ==> l.queue[i].number < l.queue[j].number)
  }

  ghost predicate HeadersKnown(l: Line) {
    forall h :: h in l.w.a.sent ==> UniqueKinds(h.extras) && forall c :: c in h.extras ==> c in l.known
  }

  // With numbers that only grow, every header from the stamp of an extra on carries it.
  ghost predicate RidesAlong(a: Side, x: Pending) {
    x.firstSeq != 0 ==> forall h :: h in a.sent && h.number >= x.firstSeq ==> x.content in h.extras
  }

  ghost predicate AllRideAlong(a: Side) {
    forall x :: x in a.peer.currentExtras ==> RidesAlong(a, x)
  }

  // A pending extra is the last one given of its kind, and has passed at b once b has
  // accepted a packet that can have carried it.
  ghost predicate PendingAgrees(l: Line, x: Pending) {
    var c := x.content;
    && c in l.known && c.kind in l.given && l.given[c.kind] == c.data
    && (x.firstSeq != 0 && l.w.b.peer.window.last >= x.firstSeq ==> Last(l.log, c.kind) == Some(c.data))
  }

  ghost predicate KindPending(a: Side, kind: byte) {
    exists x :: x in a.peer.currentExtras && x.content.kind == kind
  }

  // An extra that is no longer pending has passed at b, and nothing under way differs.
  ghost predicate Settled(l: Line, kind: byte)
    requires kind in l.given
  {
    && Last(l.log, kind) == Some(l.given[kind])
    && forall h, c :: h in l.queue && c in h.extras && c.kind == kind ==> c.data == l.given[kind]
  }

  ghost predicate HashesAgree(hashes: map<byte, nat>, log: seq<Content>, known: set<Content>, hash: Content -> nat) {
    forall k: byte :: HashAgrees(hashes, log, known, hash, k)
  }

  ghost predicate HashAgrees(hashes: map<byte, nat>, log: seq<Content>, known: set<Content>, hash: Content -> nat, k: byte) {
    match Last(log, k)
    case None => k !in hashes
    case Some(d) => k in hashes && hashes[k] == hash(Content(k, d)) && Content(k, d) in known
  }

  // No extra is let through twice in a row.
  ghost predicate NoRepeats(log: seq<Content>) {
    forall j :: 0 <= j < |log| ==> Last(log[..j], log[j].kind) != Some(log[j].data)
  }

  ghost predicate LineInv(l: Line, hash: Content -> nat) {
    && Inv(l.w)
    && CollisionFree(l.known, hash)
    && UniqueKinds(Contents(l.w.a.peer.currentExtras))
    && AllRideAlong(l.w.a)
    && QueueInOrder(l)
    && HeadersKnown(l)
    && (forall x :: x in l.w.a.peer.currentExtras ==> PendingAgrees(l, x))
    && (forall kind :: kind in l.given && !KindPending(l.w.a, kind) ==> Settled(l, kind))
    && HashesAgree(l.w.b.peer.hashes, l.log, l.known, hash)
    && NoRepeats(l.log)
  }

  // ----- what one header does to the log -----

  lemma LastAppend(log: seq<Content>, c: Content, kind: byte)
    ensures Last(log + [c], kind) == if c.kind == kind then Some(c.data) else Last(log, kind)
  {
    assert (log + [c])[..|log|] == log;
  }

  lemma NoRepeatsAppend(log: seq<Content>, c: Content)
    requires NoRepeats(log) && Last(log, c.kind) != Some(c.data)
    ensures NoRepeats(log + [c])
  {
    var all := log + [c];
    forall j | 0 <= j < |all| ensures Last(all[..j], all[j].kind) != Some(all[j].data) {
      assert all[..j] == log[..j];
      assert log[..|log|] == log;
    }
  }

  // One extra of a header: it is let through, or it is what was let through before it.
  lemma LogOne(hashes: map<byte, nat>, log: seq<Content>, known: set<Content>, c: Content, hash: Content -> nat)
    requires CollisionFree(known, hash) && HashesAgree(hashes, log, known, hash) && NoRepeats(log) && c in known
    ensures Passes(hashes, c, hash) ==>
      HashesAgree(hashes[c.kind := hash(c)], log + [c], known, hash) && NoRepeats(log + [c])
    ensures !Passes(hashes, c, hash) ==> Last(log, c.kind) == Some(c.data)
  {
    assert HashAgrees(hashes, log, known, hash, c.kind);
    if Passes(hashes, c, hash) {
      NoRepeatsAppend(log, c);
      var hashes2, log2 := hashes[c.kind := hash(c)], log + [c];
      forall k: byte ensures HashAgrees(hashes2, log2, known, hash, k) {
        LastAppend(log, c, k);
        assert HashAgrees(hashes, log, known, hash, k);
      }
    }
  }

  lemma {:induction false} ApplyLogs(hashes: map<byte, nat>, log: seq<Content>, known: set<Content>,
      cs: seq<Content>, hash: Content -> nat)
    requires CollisionFree(known, hash) && HashesAgree(hashes, log, known, hash) && NoRepeats(log)
    requires forall c :: c in cs ==> c in known
    ensures var e := Apply(hashes, cs, hash);
      && HashesAgree(e.hashes, log + e.applied, known, hash) && NoRepeats(log + e.applied)
      && forall k: byte :: Last(log + e.applied, k) == if Last(cs, k).Some? then Last(cs, k) else Last(log, k)
    decreases |cs|
  {
    hide CollisionFree, HashesAgree, NoRepeats;
    if cs == [] {
      assert log + [] == log;
    } else {
      var c, e := cs[|cs| - 1], Apply(hashes, cs[..|cs| - 1], hash);
      ApplyLogs(hashes, log, known, cs[..|cs| - 1], hash);
      LogOne(e.hashes, log + e.applied, known, c, hash);
      assert log + (e.applied + [c]) == (log + e.applied) + [c];
      forall k: byte ensures Last(log + e.applied + [c], k) == if c.kind == k then Some(c.data) else Last(log + e.applied, k) {
        LastAppend(log + e.applied, c, k);
      }
    }
  }

  lemma {:induction false} LastOfUnique(cs: seq<Content>, c: Content)
    requires UniqueKinds(cs) && c in cs
    ensures Last(cs, c.kind) == Some(c.data)
  {
    var i :| 0 <= i < |cs| && cs[i] == c;
    if i < |cs| - 1 {
      LastOfUnique(cs[..|cs| - 1], c);
    }
  }

  lemma {:induction false} LastIsMember(cs: seq<Content>, kind: byte)
    ensures Last(cs, kind).Some? ==> Content(kind, Last(cs, kind).value) in cs
  {
    if cs != [] && cs[|cs| - 1].kind != kind {
      LastIsMember(cs[..|cs| - 1], kind);
    }
  }

  lemma Bounds(me: Side, other: Side)
    requires Linked(me, other)
    ensures IsPeer(me.peer) && IsPeer(other.peer)
    ensures forall h :: h in me.sent ==> 0 < h.number <= me.lastWritten < HALF
    ensures 0 <= other.peer.window.last <= me.lastWritten
    ensures forall h :: h in other.sent ==> h.ackId <= other.peer.window.last
    ensures forall x :: x in me.peer.currentExtras ==> x.firstSeq <= me.lastWritten
  {
  }

  lemma ActKeepsRiding(a: Side, b: Side, act: Action, hash: Content -> nat)
    requires Linked(a, b) && Linked(b, a) && Possible(a, b, act) && AllRideAlong(a)
    requires act.Write? ==> act.pseq > a.lastWritten
    ensures AllRideAlong(Act(a, act, hash))
  {
    hide ReceiveWindow.Mask, ReceiveWindow.Receive, ReceiveWindow.Judge, Apply, Passes;
    var a' := Act(a, act, hash);
    match act
    case Send(c) =>
      PutMembers(a.peer.currentExtras, c);
      assert forall x :: x in a.peer.currentExtras ==> RidesAlong(a, x);
    case Write(pseq) =>
      var h := HeaderOf(a.peer, pseq);
      forall x | x in a'.peer.currentExtras ensures RidesAlong(a', x) {
        var i :| 0 <= i < |a'.peer.currentExtras| && a'.peer.currentExtras[i] == x;
        assert a.peer.currentExtras[i] in a.peer.currentExtras && RidesAlong(a, a.peer.currentExtras[i]);
        assert h.extras[i] == x.content;
      }
    case Deliver(h, now) =>
      assert forall x :: x in a'.peer.currentExtras ==> x in a.peer.currentExtras && RidesAlong(a, x);
  }

  lemma RidingStays(l: Line, act: Action, hash: Content -> nat)
    requires Inv(l.w) && AllRideAlong(l.w.a) && Possible(l.w.a, l.w.b, act)
    requires act.Write? ==> act.pseq > l.w.a.lastWritten
    ensures IsPeer(l.w.a.peer) && (act.Write? ==> 0 < act.pseq < HALF) && (act.Deliver? ==> act.now > 0.0)
    ensures AllRideAlong(Act(l.w.a, act, hash))
  {
    hide Linked, AllRideAlong;
    ActIsDefined(l.w.a, l.w.b, act);
    ActKeepsRiding(l.w.a, l.w.b, act, hash);
  }

  // ----- every step keeps the invariant -----

  lemma LoseKeeps(l: Line, hash: Content -> nat)
    requires LineInv(l, hash) && l.queue != []
    ensures ArePeers(l.w) && LineInv(StepOn(l, Lose, hash), hash)
  {
    assert ArePeers(l.w);
    hide Inv, HashesAgree, NoRepeats, CollisionFree;
    var l' := StepOn(l, Lose, hash);
    assert forall h :: h in l'.queue ==> h in l.queue;
    forall kind | kind in l'.given && !KindPending(l'.w.a, kind) ensures Settled(l', kind) {
      assert Settled(l, kind);
    }
  }

  lemma SendKeeps(l: Line, c: Content, hash: Content -> nat)
    requires LineInv(l, hash) && CanStep(l, Take(Event(true, Send(c))), hash)
    ensures ArePeers(l.w) && LineInv(StepOn(l, Take(Event(true, Send(c))), hash), hash)
  {
    assert ArePeers(l.w);
    hide NoRepeats, Last, Linked, AllRideAlong, Put, QueueInOrder, HeadersKnown, UniqueKinds, PendingAgrees, Settled;
    var e := Event(true, Send(c));
    var l' := StepOn(l, Take(e), hash);
    var es := l.w.a.peer.currentExtras;
    ActKeepsInv(l.w, true, Send(c), hash);
    RidingStays(l, Send(c), hash);
    assert l'.w.a == l.w.a.(peer := l.w.a.peer.(currentExtras := Put(es, c))) && l'.w.b == l.w.b;
    PutKeepsUnique(es, c);
    SendKeepsRest(l, l', c);
    forall k: byte ensures HashAgrees(l'.w.b.peer.hashes, l'.log, l'.known, hash, k) {
      assert HashAgrees(l.w.b.peer.hashes, l.log, l.known, hash, k);
    }
  }

  lemma SendKeepsRest(l: Line, l': Line, c: Content)
    requires QueueInOrder(l) && HeadersKnown(l) && UniqueKinds(Contents(l.w.a.peer.currentExtras))
    requires l'.queue == l.queue && l'.log == l.log && l'.w.b == l.w.b && l'.w.a.sent == l.w.a.sent
    requires l'.given == l.given[c.kind := c.data] && l'.known == l.known + {c}
    requires l'.w.a.peer.currentExtras == Put(l.w.a.peer.currentExtras, c)
    requires forall x :: x in l.w.a.peer.currentExtras ==> PendingAgrees(l, x)
    requires forall kind :: kind in l.given && !KindPending(l.w.a, kind) ==> Settled(l, kind)
    ensures QueueInOrder(l') && HeadersKnown(l')
    ensures forall x :: x in l'.w.a.peer.currentExtras ==> PendingAgrees(l', x)
    ensures forall kind :: kind in l'.given && !KindPending(l'.w.a, kind) ==> Settled(l', kind)
  {
    hide Last, Put;
    var es := l.w.a.peer.currentExtras;
    PutKeepsUnique(es, c);
    PutMembers(es, c);
    forall x | x in l'.w.a.peer.currentExtras ensures PendingAgrees(l', x) {
      if x != Pending(c, 0) {
        assert PendingAgrees(l, x);
      }
    }
    forall kind | kind in l'.given && !KindPending(l'.w.a, kind) ensures Settled(l', kind) {
      assert kind != c.kind;
      assert !KindPending(l.w.a, kind);
      assert Settled(l, kind);
    }
  }

  // What writing a header leaves as it was, and what it adds.
  ghost predicate Wrote(l: Line, l': Line, h: Header) {
    && l'.w.b == l.w.b && l'.log == l.log && l'.given == l.given && l'.known == l.known
    && h.number > l.w.a.lastWritten && h.extras == Contents(l.w.a.peer.currentExtras)
    && l'.queue == l.queue + [h] && l'.w.a.sent == l.w.a.sent + {h}
    && l'.w.a.peer.currentExtras == Stamp(l.w.a.peer.currentExtras, h.number)
  }

  lemma WriteKeeps(l: Line, pseq: nat, hash: Content -> nat)
    requires LineInv(l, hash) && CanStep(l, Take(Event(true, Write(pseq))), hash)
    ensures ArePeers(l.w) && LineInv(StepOn(l, Take(Event(true, Write(pseq))), hash), hash)
  {
    Bounds(l.w.a, l.w.b);
    hide Linked, AllRideAlong, QueueInOrder, HeadersKnown, PendingAgrees, Settled, UniqueKinds, HashesAgree, NoRepeats,
      CollisionFree;
    var l', h := StepOn(l, Take(Event(true, Write(pseq))), hash), HeaderOf(l.w.a.peer, pseq);
    ActKeepsInv(l.w, true, Write(pseq), hash);
    RidingStays(l, Write(pseq), hash);
    assert Wrote(l, l', h);
    WriteKeepsTransit(l, l', h);
    WriteKeepsSender(l, l', h);
    WriteKeepsSettled(l, l', h);
    hide Wrote, Act, Stamp;
    assert Contents(l'.w.a.peer.currentExtras) == Contents(l.w.a.peer.currentExtras) by {
      StampKeepsContents(l.w.a.peer.currentExtras, h.number);
    }
  }

  lemma WriteKeepsTransit(l: Line, l': Line, h: Header)
    requires Linked(l.w.a, l.w.b) && QueueInOrder(l) && HeadersKnown(l) && Wrote(l, l', h)
    requires UniqueKinds(Contents(l.w.a.peer.currentExtras))
    requires forall x :: x in l.w.a.peer.currentExtras ==> PendingAgrees(l, x)
    ensures QueueInOrder(l') && HeadersKnown(l')
  {
    Bounds(l.w.a, l.w.b);
    hide Linked, Stamp, UniqueKinds;
    var es := l.w.a.peer.currentExtras;
    forall d | d in h.extras ensures d in l.known {
      var i :| 0 <= i < |es| && h.extras[i] == d;
      assert PendingAgrees(l, es[i]);
    }
  }

  lemma WriteKeepsSender(l: Line, l': Line, h: Header)
    requires Linked(l.w.a, l.w.b) && Wrote(l, l', h)
    requires forall x :: x in l.w.a.peer.currentExtras ==> PendingAgrees(l, x)
    ensures forall x :: x in l'.w.a.peer.currentExtras ==> PendingAgrees(l', x)
  {
    Bounds(l.w.a, l.w.b);
    hide Linked, Last;
    var es, es' := l.w.a.peer.currentExtras, l'.w.a.peer.currentExtras;
    forall x | x in es' ensures PendingAgrees(l', x) {
      var i :| 0 <= i < |es'| && es'[i] == x;
      assert PendingAgrees(l, es[i]);
    }
  }

  lemma WriteKeepsSettled(l: Line, l': Line, h: Header)
    requires Wrote(l, l', h)
    requires forall kind :: kind in l.given && !KindPending(l.w.a, kind) ==> Settled(l, kind)
    ensures forall kind :: kind in l'.given && !KindPending(l'.w.a, kind) ==> Settled(l', kind)
  {
    hide Last, Stamp;
    var es := l.w.a.peer.currentExtras;
    forall d | d in h.extras ensures KindPending(l.w.a, d.kind) {
      var i :| 0 <= i < |es| && h.extras[i] == d;
      assert es[i] in es;
    }
    forall kind | kind in l'.given && !KindPending(l'.w.a, kind) ensures Settled(l', kind) {
      StampKeepsKinds(l.w.a, l'.w.a, h.number, kind);
      assert Settled(l, kind);
    }
  }

  lemma StampKeepsKinds(a: Side, a': Side, pseq: uint32, kind: byte)
    requires a'.peer.currentExtras == Stamp(a.peer.currentExtras, pseq)
    ensures KindPending(a, kind) ==> KindPending(a', kind)
  {
    var es, es' := a.peer.currentExtras, a'.peer.currentExtras;
    if KindPending(a, kind) {
      var i :| 0 <= i < |es| && es[i].content.kind == kind;
      assert es'[i] in es';
    }
  }

  // A packet from b arrives at a, and may acknowledge extras.
  lemma AckKeeps(l: Line, h: Header, now: real, hash: Content -> nat)
    requires LineInv(l, hash) && CanStep(l, Take(Event(true, Deliver(h, now))), hash)
    ensures ArePeers(l.w) && LineInv(StepOn(l, Take(Event(true, Deliver(h, now))), hash), hash)
  {
    Bounds(l.w.a, l.w.b);
    hide Linked, AllRideAlong, QueueInOrder, HeadersKnown, Settled, UniqueKinds, HashesAgree, NoRepeats, CollisionFree;
    var l' := StepOn(l, Take(Event(true, Deliver(h, now))), hash);
    ActKeepsInv(l.w, true, Deliver(h, now), hash);
    RidingStays(l, Deliver(h, now), hash);
    assert AckTaken(l, l', h) by {
      hide ReceiveWindow.Receive, ReceiveWindow.Judge, Apply, PendingAgrees;
    }
    UnackedKeepsUnique(l.w.a.peer.currentExtras, h.ackId);
    AckKeepsRest(l, l', h);
    hide StepOn, Act;
  }

  // What an acknowledgement leaves as it was, and what it takes away.
  ghost predicate AckTaken(l: Line, l': Line, h: Header) {
    && l'.w.b == l.w.b && l'.w.a.sent == l.w.a.sent && h.ackId <= l.w.b.peer.window.last
    && l' == l.(w := l'.w)
    && (l'.w.a.peer.currentExtras == l.w.a.peer.currentExtras
        || l'.w.a.peer.currentExtras == Unacked(l.w.a.peer.currentExtras, h.ackId))
  }

  lemma AckKeepsRest(l: Line, l': Line, h: Header)
    requires Linked(l.w.a, l.w.b) && QueueInOrder(l) && HeadersKnown(l) && AckTaken(l, l', h)
    requires forall x :: x in l.w.a.peer.currentExtras ==> PendingAgrees(l, x)
    requires forall kind :: kind in l.given && !KindPending(l.w.a, kind) ==> Settled(l, kind)
    requires AllRideAlong(l.w.a)
    ensures QueueInOrder(l') && HeadersKnown(l')
    ensures forall x :: x in l'.w.a.peer.currentExtras ==> PendingAgrees(l', x)
    ensures forall kind :: kind in l'.given && !KindPending(l'.w.a, kind) ==> Settled(l', kind)
  {
    Bounds(l.w.a, l.w.b);
    hide Linked, Last, UniqueKinds;
    var es, es' := l.w.a.peer.currentExtras, l'.w.a.peer.currentExtras;
    forall x | x in es' ensures PendingAgrees(l', x) {
      assert PendingAgrees(l, x);
    }
    forall kind | kind in l'.given && !KindPending(l'.w.a, kind) ensures Settled(l', kind) {
      if KindPending(l.w.a, kind) {
        var x :| x in es && x.content.kind == kind;
        assert x !in es' && IsAcked(x, h.ackId);
        AckedIsSettled(l, x);
      }
      assert Settled(l, kind);
    }
  }

  lemma AckedIsSettled(l: Line, x: Pending)
    requires Linked(l.w.a, l.w.b) && QueueInOrder(l) && HeadersKnown(l) && x in l.w.a.peer.currentExtras && PendingAgrees(l, x)
    requires x.firstSeq != 0 && l.w.b.peer.window.last >= x.firstSeq
    requires AllRideAlong(l.w.a)
    ensures Settled(l, x.content.kind)
  {
    hide Last;
    forall h, c | h in l.queue && c in h.extras && c.kind == x.content.kind
      ensures c.data == l.given[c.kind]
    {
      assert h in l.w.a.sent && RidesAlong(l.w.a, x);
    }
  }

  // The header at the head of the queue arrives at b.
  lemma ArrivalKeeps(l: Line, h: Header, now: real, hash: Content -> nat)
    requires LineInv(l, hash) && CanStep(l, Take(Event(false, Deliver(h, now))), hash)
    ensures ArePeers(l.w) && LineInv(StepOn(l, Take(Event(false, Deliver(h, now))), hash), hash)
  {
    Bounds(l.w.a, l.w.b);
    var l' := StepOn(l, Take(Event(false, Deliver(h, now))), hash);
    hide Linked, AllRideAlong, QueueInOrder, PendingAgrees, Settled, UniqueKinds, HashesAgree, NoRepeats, CollisionFree;
    ActKeepsInv(l.w, false, Deliver(h, now), hash);
    assert Arrives(l, l', h) by {
      hide ReceiveWindow.Receive, ReceiveWindow.Judge, HeadersKnown;
      HeadIsNext(l);
      WindowMoves(l.w.b.peer.window, h.number, now);
      ApplyLogs(l.w.b.peer.hashes, l.log, l.known, h.extras, hash) by {
        assert forall c :: c in h.extras ==> c in l.known by { HeadIsKnown(l); }
      }
    }
    ApplyLogs(l.w.b.peer.hashes, l.log, l.known, h.extras, hash) by { HeadIsKnown(l); }
    ArrivalKeepsRest(l, l', h);
  }

  lemma HeadIsNext(l: Line)
    requires QueueInOrder(l) && l.queue != []
    ensures l.queue[0] in l.w.a.sent && l.queue[0].number > l.w.b.peer.window.last
  {
  }

  lemma HeadIsKnown(l: Line)
    requires QueueInOrder(l) && HeadersKnown(l) && l.queue != []
    ensures forall c :: c in l.queue[0].extras ==> c in l.known
  {
  }

  ghost predicate Arrives(l: Line, l': Line, h: Header) {
    && l.queue != [] && h == l.queue[0] && l'.queue == l.queue[1..]
    && l'.w.a == l.w.a && l'.given == l.given && l'.known == l.known
    && l'.w.b.peer.window.last == h.number > l.w.b.peer.window.last
    && forall k: byte :: Last(l'.log, k) == if Last(h.extras, k).Some? then Last(h.extras, k) else Last(l.log, k)
  }

  lemma ArrivalKeepsRest(l: Line, l': Line, h: Header)
    requires Linked(l.w.a, l.w.b) && QueueInOrder(l) && HeadersKnown(l) && Arrives(l, l', h)
    requires forall x :: x in l.w.a.peer.currentExtras ==> PendingAgrees(l, x)
    requires forall kind :: kind in l.given && !KindPending(l.w.a, kind) ==> Settled(l, kind)
    requires AllRideAlong(l.w.a)
    ensures QueueInOrder(l') && HeadersKnown(l')
    ensures forall x :: x in l'.w.a.peer.currentExtras ==> PendingAgrees(l', x)
    ensures forall kind :: kind in l'.given && !KindPending(l'.w.a, kind) ==> Settled(l', kind)
  {
    hide Last, UniqueKinds;
    assert h in l.w.a.sent;
    forall x | x in l'.w.a.peer.currentExtras ensures PendingAgrees(l', x) {
      assert PendingAgrees(l, x);
      assert RidesAlong(l.w.a, x);
      if x.firstSeq != 0 && h.number >= x.firstSeq {
        LastOfUnique(h.extras, x.content);
      }
    }
    forall kind | kind in l'.given && !KindPending(l'.w.a, kind) ensures Settled(l', kind) {
      assert Settled(l, kind);
      LastIsMember(h.extras, kind);
      assert h in l.queue && forall g :: g in l'.queue ==> g in l.queue;
    }
  }

  // b acts in any other way.
  lemma OtherSideKeeps(l: Line, act: Action, hash: Content -> nat)
    requires LineInv(l, hash) && CanStep(l, Take(Event(false, act)), hash) && !act.Deliver?
    ensures ArePeers(l.w) && LineInv(StepOn(l, Take(Event(false, act)), hash), hash)
  {
    hide NoRepeats, Last, CollisionFree, UniqueKinds, AllRideAlong, Put, Stamp, ReceiveWindow.Mask;
    var l' := StepOn(l, Take(Event(false, act)), hash);
    ActKeepsInv(l.w, false, act, hash);
    forall x | x in l'.w.a.peer.currentExtras ensures PendingAgrees(l', x) {
      assert PendingAgrees(l, x);
    }
    forall kind | kind in l'.given && !KindPending(l'.w.a, kind) ensures Settled(l', kind) {
      assert Settled(l, kind);
    }
  }

  lemma StepKeepsInv(l: Line, s: Step, hash: Content -> nat)
    requires LineInv(l, hash) && CanStep(l, s, hash)
    ensures ArePeers(l.w) && LineInv(StepOn(l, s, hash), hash)
  {
    hide LineInv, CanStep, StepOn;
    match s
    case Lose => LoseStep(l, hash);
    case Take(e) =>
      match e.act
      case Send(c) => if e.first { SendKeeps(l, c, hash); } else { OtherSideKeeps(l, e.act, hash); }
      case Write(n) => if e.first { WriteKeeps(l, n, hash); } else { OtherSideKeeps(l, e.act, hash); }
      case Deliver(h, now) => if e.first { AckKeeps(l, h, now, hash); } else { ArrivalKeeps(l, h, now, hash); }
  }

  lemma LoseStep(l: Line, hash: Content -> nat)
    requires LineInv(l, hash) && CanStep(l, Lose, hash)
    ensures ArePeers(l.w) && LineInv(StepOn(l, Lose, hash), hash)
  {
    LoseKeeps(l, hash);
  }

  // ----- runs -----

  const NEW_LINE := Line(NEW_WORLD, [], map[], {}, [])

  ghost predicate IsLineRun(steps: seq<Step>, hash: Content -> nat)
    decreases |steps|, 0
  {
    steps == [] || (
      var l := LineAfter(steps[..|steps| - 1], hash);
      IsLineRun(steps[..|steps| - 1], hash) && CanStep(l, steps[|steps| - 1], hash))
  }

  ghost function LineAfter(steps: seq<Step>, hash: Content -> nat): (l: Line)
    ensures ArePeers(l.w)
    decreases |steps|, 1
  {
    if steps == [] || !IsLineRun(steps, hash) then NEW_LINE
    else StepOn(LineAfter(steps[..|steps| - 1], hash), steps[|steps| - 1], hash)
  }

  lemma {:induction false} LineRunKeepsInv(steps: seq<Step>, hash: Content -> nat)
    requires IsLineRun(steps, hash)
    ensures LineInv(LineAfter(steps, hash), hash)
    decreases |steps|
  {
    hide StepOn, CanStep, LineInv;
    if steps == [] {
      NewLineInv(hash);
    } else {
      LineRunKeepsInv(steps[..|steps| - 1], hash);
      StepKeepsInv(LineAfter(steps[..|steps| - 1], hash), steps[|steps| - 1], hash);
    }
  }

  lemma NewLineInv(hash: Content -> nat)
    ensures LineInv(NEW_LINE, hash)
  {
    NewWorldInv();
  }

  // After any run: once no extra of a kind is pending at a, the last of that kind that b
  // let through is the last one given to SendExtra; and b never lets the same extra
  // through twice in a row.
  lemma LastExtraArrives(steps: seq<Step>, kind: byte, hash: Content -> nat)
    requires IsLineRun(steps, hash)
    ensures var l := LineAfter(steps, hash);
      && NoRepeats(l.log)
      && (kind in l.given && !KindPending(l.w.a, kind) ==> Last(l.log, kind) == Some(l.given[kind]))
  {
    LineRunKeepsInv(steps, hash);
    var l := LineAfter(steps, hash);
    if kind in l.given && !KindPending(l.w.a, kind) {
      assert Settled(l, kind);
    }
  }

  // ----- an extra on its way there, and its acknowledgement on the way back -----

  lemma LineRunExtends(steps: seq<Step>, s: Step, hash: Content -> nat)
    requires IsLineRun(steps, hash) && CanStep(LineAfter(steps, hash), s, hash)
    ensures IsLineRun(steps + [s], hash)
    ensures LineAfter(steps + [s], hash) == StepOn(LineAfter(steps, hash), s, hash)
  {
    hide CanStep, StepOn;
    var all := steps + [s];
    assert all[..|all| - 1] == steps && all[|all| - 1] == s;
  }

  lemma EmptyLineRun(hash: Content -> nat)
    ensures IsLineRun([], hash) && LineAfter([], hash) == NEW_LINE
  {
  }

  // Within five steps an extra can be given, pass at b and leave the list of a.
  lemma ExtraTravels(c: Content, hash: Content -> nat) returns (steps: seq<Step>)
    requires hash(c) != 0
    ensures IsLineRun(steps, hash)
    ensures var l := LineAfter(steps, hash); l.log == [c] && l.given == map[c.kind := c.data] && !KindPending(l.w.a, c.kind)
  {
    hide ReceiveWindow.Mask, IsLineRun, LineAfter;
    steps := StartsOut(c, hash);
    var l := LineAfter(steps, hash);
    var back := Take(Event(false, Write(1)));
    LineRunExtends(steps, back, hash);
    var l4, h := StepOn(l, back, hash), HeaderOf(l.w.b.peer, 1);
    steps := steps + [back];
    var ack := Take(Event(true, Deliver(h, 1.0)));
    WindowMoves(l4.w.a.peer.window, 1, 1.0);
    LineRunExtends(steps, ack, hash);
    steps := steps + [ack];
    var x := Pending(c, 1);
    assert [x][1..] == [] && Unacked([x], 1) == [];
  }

  // Given to a, written into a header, and accepted by b.
  lemma StartsOut(c: Content, hash: Content -> nat) returns (steps: seq<Step>)
    requires hash(c) != 0
    ensures IsLineRun(steps, hash)
    ensures var l := LineAfter(steps, hash);
      && l.log == [c] && l.given == map[c.kind := c.data]
      && l.w.a.lastWritten == 1 && l.w.a.peer.currentExtras == [Pending(c, 1)]
      && l.w.a.peer.lastRemoteAckSeq == 0 && l.w.a.peer.window == ReceiveWindow.INITIAL
      && l.w.b.lastWritten == 0 && l.w.b.peer.window.last == 1 && l.w.b.peer.currentExtras == []
  {
    hide ReceiveWindow.Mask, IsLineRun, LineAfter;
    EmptyLineRun(hash);
    var give, write := Take(Event(true, Send(c))), Take(Event(true, Write(1)));
    LineRunExtends([], give, hash);
    steps := [] + [give];
    var l1 := StepOn(NEW_LINE, give, hash);
    assert l1.w.a.peer.currentExtras == [Pending(c, 0)];
    LineRunExtends(steps, write, hash);
    steps := steps + [write];
    var l2, h := StepOn(l1, write, hash), HeaderOf(l1.w.a.peer, 1);
    assert l2.w.a.peer.currentExtras == [Pending(c, 1)] && h.extras == [c];
    var arrive := Take(Event(false, Deliver(h, 1.0)));
    WindowMoves(l2.w.b.peer.window, 1, 1.0);
    LineRunExtends(steps, arrive, hash);
    steps := steps + [arrive];
    assert h.extras[..0] == [] && Apply(map[], [], hash) == Effect(map[], []);
    assert Apply(map[], h.extras, hash).applied == [c];
  }

  // ----- from every line, everything that is pending can still arrive -----

  lemma {:induction false} LoseAll(steps: seq<Step>, hash: Content -> nat) returns (on: seq<Step>)
    requires IsLineRun(steps, hash)
    ensures steps <= on && IsLineRun(on, hash)
    ensures LineAfter(on, hash) == LineAfter(steps, hash).(queue := [])
    decreases |LineAfter(steps, hash).queue|
  {
    hide IsLineRun, LineAfter;
    var l := LineAfter(steps, hash);
    if l.queue == [] {
      on := steps;
    } else {
      LineRunExtends(steps, Lose, hash);
      on := LoseAll(steps + [Lose], hash);
    }
  }

  // Whatever was lost, one more header there and its answer back bring every pending extra
  // to the peer and off the list: the last extra given of each kind is the last let through.
  lemma EveryExtraTravels(steps: seq<Step>, hash: Content -> nat) returns (on: seq<Step>)
    requires IsLineRun(steps, hash)
    requires var w := LineAfter(steps, hash).w; w.a.lastWritten + 1 < HALF && w.b.lastWritten + 1 < HALF
    ensures steps <= on && IsLineRun(on, hash)
    ensures var l, l' := LineAfter(steps, hash), LineAfter(on, hash);
      && l'.w.a.peer.currentExtras == [] && l'.given == l.given
      && (forall kind :: kind in l.given ==> Last(l'.log, kind) == Some(l.given[kind]))
      && (forall x :: x in l.w.a.peer.currentExtras ==> Last(l'.log, x.content.kind) == Some(x.content.data))
  {
    hide IsLineRun, LineAfter, LineInv, StepOn, CanStep, Last, PendingAgrees, KindPending;
    var l := LineAfter(steps, hash);
    on := LoseAll(steps, hash);
    on := HeaderGoesOut(on, hash);
    on := AnswerComesBack(on, hash);
    LineRunKeepsInv(steps, hash);
    var l' := LineAfter(on, hash);
    forall kind | kind in l.given ensures Last(l'.log, kind) == Some(l.given[kind]) {
      LastExtraArrives(on, kind, hash);
      NoneIsPending(l'.w.a, kind);
    }
    forall x | x in l.w.a.peer.currentExtras ensures Last(l'.log, x.content.kind) == Some(x.content.data) {
      PendingIsGiven(l, x, hash);
    }
  }

  lemma NoneIsPending(a: Side, kind: byte)
    requires a.peer.currentExtras == []
    ensures !KindPending(a, kind)
  {
  }

  lemma PendingIsGiven(l: Line, x: Pending, hash: Content -> nat)
    requires LineInv(l, hash) && x in l.w.a.peer.currentExtras
    ensures x.content.kind in l.given && l.given[x.content.kind] == x.content.data
  {
    assert PendingAgrees(l, x);
  }

  // A header is written and accepted while nothing else is under way.
  lemma HeaderGoesOut(steps: seq<Step>, hash: Content -> nat) returns (on: seq<Step>)
    requires IsLineRun(steps, hash)
    requires var l := LineAfter(steps, hash); l.queue == [] && l.w.a.lastWritten + 1 < HALF
    ensures steps <= on && IsLineRun(on, hash)
    ensures var l, l' := LineAfter(steps, hash), LineAfter(on, hash);
      && l'.given == l.given && l'.w.b.lastWritten == l.w.b.lastWritten
      && l'.w.b.peer.window.last == l'.w.a.lastWritten > l'.w.a.peer.lastRemoteAckSeq
      && forall x :: x in l'.w.a.peer.currentExtras ==> 0 < x.firstSeq <= l'.w.a.lastWritten
  {
    hide IsLineRun, LineAfter, LineInv, Inv, ReceiveWindow.Mask;
    var l := LineAfter(steps, hash);
    LineLinked(steps, hash);
    Bounds(l.w.a, l.w.b);
    var n := l.w.a.lastWritten + 1;
    var write := Take(Event(true, Write(n)));
    LineRunExtends(steps, write, hash);
    var l1, h := StepOn(l, write, hash), HeaderOf(l.w.a.peer, n);
    LineLinked(steps + [write], hash);
    var arrive := Take(Event(false, Deliver(h, 1.0)));
    LineRunExtends(steps + [write], arrive, hash);
    on := steps + [write] + [arrive];
    AckIsSmall(l.w.a, l.w.b);
    ArrivesLast(l1.w.b, l1.w.a, h, hash);
    AllStamped(l.w.a.peer.currentExtras, n);
  }

  lemma LineLinked(steps: seq<Step>, hash: Content -> nat)
    requires IsLineRun(steps, hash)
    ensures var w := LineAfter(steps, hash).w; Linked(w.a, w.b) && Linked(w.b, w.a)
  {
    LineRunKeepsInv(steps, hash);
    hide Linked, LineAfter, IsLineRun;
  }

  lemma AckIsSmall(a: Side, b: Side)
    requires Linked(a, b)
    ensures a.peer.lastRemoteAckSeq <= a.lastWritten
  {
  }

  lemma AllStamped(es: seq<Pending>, n: nat)
    requires 0 < n < HALF && forall x :: x in es ==> x.firstSeq <= n
    ensures forall x :: x in Stamp(es, n) ==> 0 < x.firstSeq <= n
  {
    forall x | x in Stamp(es, n) ensures 0 < x.firstSeq <= n {
      var i :| 0 <= i < |es| && Stamp(es, n)[i] == x;
      assert es[i] in es;
    }
  }

  // The answer to the last header takes every extra off the list.
  lemma AnswerComesBack(steps: seq<Step>, hash: Content -> nat) returns (on: seq<Step>)
    requires IsLineRun(steps, hash)
    requires var l := LineAfter(steps, hash);
      && l.w.b.lastWritten + 1 < HALF && l.w.b.peer.window.last == l.w.a.lastWritten > l.w.a.peer.lastRemoteAckSeq
      && forall x :: x in l.w.a.peer.currentExtras ==> 0 < x.firstSeq <= l.w.a.lastWritten
    ensures steps <= on && IsLineRun(on, hash)
    ensures var l, l' := LineAfter(steps, hash), LineAfter(on, hash);
      l'.given == l.given && l'.w.a.peer.currentExtras == []
  {
    hide IsLineRun, LineAfter, LineInv, Inv, ReceiveWindow.Mask;
    var l := LineAfter(steps, hash);
    LineLinked(steps, hash);
    var n := l.w.b.lastWritten + 1;
    var write := Take(Event(false, Write(n)));
    LineRunExtends(steps, write, hash);
    var l1, h := StepOn(l, write, hash), HeaderOf(l.w.b.peer, n);
    var ack := Take(Event(true, Deliver(h, 1.0)));
    LineRunExtends(steps + [write], ack, hash);
    on := steps + [write] + [ack];
    var l2 := StepOn(l1, ack, hash);
    ReplyTakesAll(l.w.a, l.w.b, hash);
  }

  lemma ReplyTakesAll(me: Side, other: Side, hash: Content -> nat)
    requires Linked(me, other) && Linked(other, me) && other.lastWritten + 1 < HALF
    requires other.peer.window.last > me.peer.lastRemoteAckSeq
    requires forall x :: x in me.peer.currentExtras ==> 0 < x.firstSeq <= other.peer.window.last
    ensures Act(me, Deliver(HeaderOf(other.peer, other.lastWritten + 1), 1.0), hash).peer.currentExtras == []
  {
    hide ReceiveWindow.Mask, Apply, Passes, Unacked;
    assert me.peer.window.last <= other.lastWritten;
    WindowMoves(me.peer.window, other.lastWritten + 1, 1.0);
    AllAcked(me.peer.currentExtras, other.peer.window.last);
  }

  lemma {:induction false} AllAcked(es: seq<Pending>, ack: uint32)
    requires forall x :: x in es ==> IsAcked(x, ack)
    ensures Unacked(es, ack) == []
  {
    if es != [] {
      AllAcked(es[1..], ack);
    }
  }
}
