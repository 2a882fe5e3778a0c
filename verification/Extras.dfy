// Extras: small messages that ride in every packet header until the peer acknowledges
// a packet that can have carried them.
module Extras {
  import opened Bytes
  import opened Serial
  import opened ReceiveWindow

  datatype Content = Content(kind: byte, data: seq<byte>)

  // firstSeq is the number of the first packet whose header carried it; 0 for none yet.
  datatype Pending = Pending(content: Content, firstSeq: uint32)

  datatype Header = Header(number: uint32, ackId: uint32, acks: uint32, extras: seq<Content>)

  datatype Peer = Peer(window: Window, lastRemoteAckSeq: uint32, currentExtras: seq<Pending>, hashes: map<byte, nat>)

  predicate IsPeer(p: Peer) { IsWindow(p.window) }

  const NEW_PEER := Peer(INITIAL, 0, [], map[])

  // An extra replaces the pending one of its kind.
  function Put(es: seq<Pending>, c: Content): seq<Pending> {
    if es == [] then [Pending(c, 0)]
    else if es[0].content.kind == c.kind then [Pending(c, 0)] + es[1..]
    else [es[0]] + Put(es[1..], c)
  }

  function Contents(es: seq<Pending>): (cs: seq<Content>)
    ensures |cs| == |es| && forall i :: 0 <= i < |es| ==> cs[i] == es[i].content
  {
    seq(|es|, i requires 0 <= i < |es| => es[i].content)
  }

  function StampOne(x: Pending, pseq: uint32): Pending {
    if x.firstSeq == 0 then x.(firstSeq := pseq) else x
  }

  function Stamp(es: seq<Pending>, pseq: uint32): (r: seq<Pending>)
    ensures |r| == |es| && forall i :: 0 <= i < |es| ==> r[i] == StampOne(es[i], pseq)
  {
    seq(|es|, i requires 0 <= i < |es| => StampOne(es[i], pseq))
  }

  function HeaderOf(p: Peer, pseq: uint32): Header
    requires IsPeer(p)
  {
    Header(pseq, p.window.last, Mask(p.window.times), Contents(p.currentExtras))
  }

  predicate IsAcked(x: Pending, ack: uint32) {
    x.firstSeq != 0 && (ack == x.firstSeq || SeqGt(ack, x.firstSeq))
  }

  function Unacked(es: seq<Pending>, ack: uint32): (r: seq<Pending>)
    ensures forall x :: x in r <==> x in es && !IsAcked(x, ack)
  {
    if es == [] then []
    else if IsAcked(es[0], ack) then Unacked(es[1..], ack)
    else [es[0]] + Unacked(es[1..], ack)
  }

  // ProcessExtraData: an extra passes unless its hash is the last seen of its kind (0 at first).
  predicate Passes(hashes: map<byte, nat>, c: Content, hash: Content -> nat) {
    hash(c) != if c.kind in hashes then hashes[c.kind] else 0
  }

  datatype Effect = Effect(hashes: map<byte, nat>, applied: seq<Content>)

  function Apply(hashes: map<byte, nat>, cs: seq<Content>, hash: Content -> nat): Effect
    decreases |cs|
  {
    if cs == [] then Effect(hashes, [])
    else
      var e, c := Apply(hashes, cs[..|cs| - 1], hash), cs[|cs| - 1];
      if Passes(e.hashes, c, hash) then Effect(e.hashes[c.kind := hash(c)], e.applied + [c]) else e
  }

  datatype Reception = Reception(peer: Peer, accepted: bool, applied: seq<Content>)

  function AcceptHeader(p: Peer, h: Header, now: real, hash: Content -> nat): (r: Reception)
    requires IsPeer(p) && now > 0.0
    ensures IsPeer(r.peer)
  {
    if Judge(p.window, h.number) != Accepted then Reception(p, false, [])
    else
      var newAck := SeqGt(h.ackId, p.lastRemoteAckSeq);
      var e := Apply(p.hashes, h.extras, hash);
      Reception(Peer(
        Receive(p.window, h.number, now),
        if newAck then h.ackId else p.lastRemoteAckSeq,
        if newAck then Unacked(p.currentExtras, h.ackId) else p.currentExtras,
        e.hashes), true, e.applied)
  }

  // ----- the controller, which updates its fields in place -----

  class Controller {
    const receiver: Receiver
    const hash: Content -> nat
    var lastRemoteAckSeq: uint32
    var currentExtras: seq<Pending>
    var lastReceivedExtrasByType: map<byte, nat>

    ghost predicate Valid()
      reads this, receiver, receiver.recvPacketTimes
    {
      receiver.Valid()
    }

    ghost function State(): Peer
      reads this, receiver, receiver.recvPacketTimes
    {
      Peer(receiver.Contents(), lastRemoteAckSeq, currentExtras, lastReceivedExtrasByType)
    }

    constructor (hash: Content -> nat)
      ensures Valid() && State() == NEW_PEER && this.hash == hash
      ensures fresh(receiver) && fresh(receiver.recvPacketTimes)
    {
      receiver := new Receiver();
      this.hash := hash;
      lastRemoteAckSeq, currentExtras, lastReceivedExtrasByType := 0, [], map[];
    }

    method SendExtra(data: seq<byte>, kind: byte)
      requires Valid()
      modifies this
      ensures Valid() && State() == old(State()).(currentExtras := Put(old(currentExtras), Content(kind, data)))
    {
      var c, x := Content(kind, data), 0;
      while x < |currentExtras| && currentExtras[x].content.kind != kind
        invariant x <= |currentExtras| && State() == old(State()) && Valid()
        invariant Put(currentExtras, c) == currentExtras[..x] + Put(currentExtras[x..], c)
      {
        PutUnfold(currentExtras, x, c);
        x := x + 1;
      }
      if x < |currentExtras| {
        PutUnfold(currentExtras, x, c);
        assert Put(currentExtras, c) == currentExtras[x := Pending(c, 0)];
        currentExtras := currentExtras[x := Pending(c, 0)];
        assert currentExtras == Put(old(currentExtras), Content(kind, data));
      } else {
        assert currentExtras[..x] == currentExtras && currentExtras[x..] == [];
        assert Put(currentExtras, c) == currentExtras + [Pending(c, 0)];
        currentExtras := currentExtras + [Pending(c, 0)];
      }
    }

    method WritePacketHeader(pseq: uint32) returns (h: Header)
      requires Valid()
      modifies this
      ensures Valid() && h == HeaderOf(old(State()), pseq)
      ensures State() == old(State()).(currentExtras := Stamp(old(currentExtras), pseq))
    {
      var acks := receiver.WriteAcks();
      var written: seq<Content> := [];
      for x := 0 to |currentExtras|
        invariant |currentExtras| == |old(currentExtras)| && |written| == x
        invariant State() == old(State()).(currentExtras := currentExtras)
        invariant forall k :: 0 <= k < x ==>
          written[k] == old(currentExtras)[k].content && currentExtras[k] == StampOne(old(currentExtras)[k], pseq)
        invariant forall k :: x <= k < |currentExtras| ==> currentExtras[k] == old(currentExtras)[k]
      {
        written := written + [currentExtras[x].content];
        if currentExtras[x].firstSeq == 0 {
          currentExtras := currentExtras[x := currentExtras[x].(firstSeq := pseq)];
        }
      }
      h := Header(pseq, receiver.lastRemoteSeq, acks, written);
    }

    method ReceiveHeader(h: Header, now: real) returns (accepted: bool, applied: seq<Content>)
      requires Valid() && now > 0.0
      modifies this, receiver, receiver.recvPacketTimes
      ensures Valid()
      ensures Reception(State(), accepted, applied) == AcceptHeader(old(State()), h, now, hash)
    {
      applied := [];
      var verdict := receiver.ReceiveSeq(h.number, now);
      if verdict != Accepted {
        return false, [];
      }
      accepted := true;
      if SeqGt(h.ackId, lastRemoteAckSeq) {
        lastRemoteAckSeq := h.ackId;
        DropAcked();
      }
      ghost var window, extras := receiver.Contents(), currentExtras;
      ghost var ack := lastRemoteAckSeq;
      for i := 0 to |h.extras|
        invariant Valid() && receiver.Contents() == window && currentExtras == extras && lastRemoteAckSeq == ack
        invariant Effect(lastReceivedExtrasByType, applied) == Apply(old(lastReceivedExtrasByType), h.extras[..i], hash)
      {
        assert h.extras[..i + 1][..i] == h.extras[..i];
        var c := h.extras[i];
        if Passes(lastReceivedExtrasByType, c, hash) {
          lastReceivedExtrasByType := lastReceivedExtrasByType[c.kind := hash(c)];
          applied := applied + [c];
        }
      }
      assert h.extras[..|h.extras|] == h.extras;
    }

    method DropAcked()
      modifies `currentExtras
      ensures currentExtras == Unacked(old(currentExtras), lastRemoteAckSeq)
    {
      var x := 0;
      while x < |currentExtras|
        invariant x <= |currentExtras|
        invariant currentExtras[..x] + Unacked(currentExtras[x..], lastRemoteAckSeq)
               == Unacked(old(currentExtras), lastRemoteAckSeq)
        decreases |currentExtras| - x
      {
        hide Unacked, IsAcked;
        UnackedUnfold(currentExtras, x, lastRemoteAckSeq);
        if IsAcked(currentExtras[x], lastRemoteAckSeq) {
          currentExtras := currentExtras[..x] + currentExtras[x + 1..];
        } else {
          x := x + 1;
        }
      }
      assert currentExtras[x..] == [];
    }
  }

  lemma UnackedUnfold(es: seq<Pending>, x: nat, ack: uint32)
    requires x < |es|
    ensures var less := es[..x] + es[x + 1..];
      IsAcked(es[x], ack) ==> less[..x] + Unacked(less[x..], ack) == es[..x] + Unacked(es[x..], ack)
    ensures !IsAcked(es[x], ack) ==> es[..x + 1] + Unacked(es[x + 1..], ack) == es[..x] + Unacked(es[x..], ack)
  {
    var less, more := es[..x] + es[x + 1..], Unacked(es[x + 1..], ack);
    assert es[x..][1..] == es[x + 1..];
    assert less[..x] == es[..x] && less[x..] == es[x + 1..];
    assert es[..x + 1] + more == es[..x] + ([es[x]] + more);
  }

  lemma PutUnfold(es: seq<Pending>, x: nat, c: Content)
    requires x < |es|
    ensures Put(es[x..], c) ==
      if es[x].content.kind == c.kind then [Pending(c, 0)] + es[x + 1..] else [es[x]] + Put(es[x + 1..], c)
    ensures es[x := Pending(c, 0)] == es[..x] + ([Pending(c, 0)] + es[x + 1..])
    ensures es[..x] + ([es[x]] + Put(es[x + 1..], c)) == es[..x + 1] + Put(es[x + 1..], c)
  {
    assert es[x..][1..] == es[x + 1..];
  }

  // ----- at most one extra of a kind is pending -----

  ghost predicate UniqueKinds(cs: seq<Content>) {
    forall i, j :: 0 <= i < j < |cs| ==> cs[i].kind != cs[j].kind
  }

  lemma {:induction false} PutMembers(es: seq<Pending>, c: Content)
    ensures forall x :: x in Put(es, c) ==> x == Pending(c, 0) || x in es
    ensures forall x :: x in es && x.content.kind != c.kind ==> x in Put(es, c)
    ensures Pending(c, 0) in Put(es, c)
  {
    if es != [] {
      assert es == [es[0]] + es[1..];
      PutMembers(es[1..], c);
    }
  }

  lemma {:induction false} PutKeepsUnique(es: seq<Pending>, c: Content)
    requires UniqueKinds(Contents(es))
    ensures UniqueKinds(Contents(Put(es, c)))
    ensures forall x :: x in es && x.content.kind == c.kind ==> x !in Put(es, c) || x == Pending(c, 0)
    ensures forall x :: x in Put(es, c) && x.content.kind == c.kind ==> x == Pending(c, 0)
  {
    if es != [] {
      TailIsUnique(es);
      PutKeepsUnique(es[1..], c);
      PutMembers(es[1..], c);
      hide UniqueKinds;
      UniqueWithHead(if es[0].content.kind == c.kind then Pending(c, 0) else es[0],
        if es[0].content.kind == c.kind then es[1..] else Put(es[1..], c));
    }
  }

  lemma TailIsUnique(es: seq<Pending>)
    requires es != [] && UniqueKinds(Contents(es))
    ensures UniqueKinds(Contents(es[1..]))
    ensures forall x :: x in es[1..] ==> x.content.kind != es[0].content.kind
  {
    var cs := Contents(es);
    assert Contents(es[1..]) == cs[1..];
    forall x | x in es[1..] ensures x.content.kind != es[0].content.kind {
      var i :| 1 <= i < |es| && es[i] == x;
      assert cs[0].kind != cs[i].kind;
    }
  }

  lemma UniqueWithHead(x: Pending, rest: seq<Pending>)
    requires UniqueKinds(Contents(rest)) && forall y :: y in rest ==> y.content.kind != x.content.kind
    ensures UniqueKinds(Contents([x] + rest))
  {
    assert Contents([x] + rest) == [x.content] + Contents(rest);
    assert forall j :: 0 <= j < |rest| ==> rest[j] in rest;
  }

  lemma {:induction false} UnackedKeepsUnique(es: seq<Pending>, ack: uint32)
    requires UniqueKinds(Contents(es))
    ensures UniqueKinds(Contents(Unacked(es, ack)))
  {
    if es != [] {
      TailIsUnique(es);
      UnackedKeepsUnique(es[1..], ack);
      UniqueWithHead(es[0], Unacked(es[1..], ack));
    }
  }

  lemma StampKeepsContents(es: seq<Pending>, pseq: uint32)
    ensures Contents(Stamp(es, pseq)) == Contents(es)
  {
  }
}
