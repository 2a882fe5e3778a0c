// Video frames: cut into fragments, sent in stream packets, and put together again.
module VideoFrames {
  import opened Bytes
  import opened Options
  import opened Serial
  import opened Streams

  const CHUNK := 1024
  const MAX_PARTS := 255

  // A frame of one packet is not marked as fragmented; its index and count read as 0.
  datatype Fragment = Fragment(pts: uint32, index: byte, count: byte, keyframe: bool, data: seq<byte>)

  // ----- cutting -----

  function Segments(n: nat): nat {
    n / CHUNK + if n % CHUNK > 0 then 1 else 0
  }

  function Chunk(frame: seq<byte>, k: nat): seq<byte>
    requires k < Segments(|frame|)
  {
    frame[k * CHUNK..if (k + 1) * CHUNK <= |frame| then (k + 1) * CHUNK else |frame|]
  }

  // Index and count are cut to a byte, whatever the size of the frame.
  function FragmentOf(frame: seq<byte>, k: nat, pts: uint32, keyframe: bool): Fragment
    requires k < Segments(|frame|)
  {
    var n := Segments(|frame|);
    if n > 1 then Fragment(pts, k % 256, n % 256, keyframe, Chunk(frame, k))
    else Fragment(pts, 0, 0, keyframe, Chunk(frame, k))
  }

  // The loop of SendVideoFrame.
  method SendVideoFrame(frame: seq<byte>, pts: uint32, keyframe: bool) returns (fragments: seq<Fragment>)
    ensures |fragments| == Segments(|frame|)
    ensures forall k :: 0 <= k < |fragments| ==> fragments[k] == FragmentOf(frame, k, pts, keyframe)
  {
    var segmentCount := |frame| / CHUNK;
    if |frame| % CHUNK > 0 {
      segmentCount := segmentCount + 1;
    }
    fragments := [];
    for seg := 0 to segmentCount
      invariant |fragments| == seg && segmentCount == Segments(|frame|)
      invariant forall k :: 0 <= k < seg ==> fragments[k] == FragmentOf(frame, k, pts, keyframe)
    {
      var offset := seg * CHUNK;
      var len := if CHUNK <= |frame| - offset then CHUNK else |frame| - offset;
      var data := frame[offset..offset + len];
      var fragmented := segmentCount > 1;
      var index, count := if fragmented then seg % 256 else 0, if fragmented then segmentCount % 256 else 0;
      fragments := fragments + [Fragment(pts, index, count, keyframe, data)];
    }
  }

  // ----- on the wire -----

  const LEN16 := 0x40
  const KEYFRAME := 0x8000
  const FRAGMENTED := 0x4000

  function LengthAndFlags(f: Fragment, fragmented: bool): nat
    requires |f.data| < 0x800
  {
    |f.data| + (if fragmented then FRAGMENTED else 0) + if f.keyframe then KEYFRAME else 0
  }

  function Encode(f: Fragment, fragmented: bool, stream: byte): seq<byte>
    requires |f.data| < 0x800 && stream < 0x40
  {
    [stream + LEN16] + (LE(2, LengthAndFlags(f, fragmented)) + (LE(4, f.pts)
      + ((if fragmented then [f.index, f.count] else []) + f.data)))
  }

  datatype StreamData = StreamData(stream: byte, fragment: Fragment)

  predicate Flag(v: nat, bit: nat)
    requires bit > 0
  {
    v / bit % 2 == 1
  }

  // The reading of one stream packet; None where it is cut off.
  function Decode(s: seq<byte>): Option<StreamData> {
    match TakeInt(s, 1)
    case None => None
    case Some(id) => DecodeLength(id.value % LEN16, if Flag(id.value, LEN16) then 2 else 1, id.rest)
  }

  function DecodeLength(stream: byte, size: nat, s: seq<byte>): Option<StreamData> {
    match TakeInt(s, size)
    case None => None
    case Some(len) =>
      match TakeInt(len.rest, 4)
      case None => None
      case Some(pts) => DecodeRest(stream, len.value, pts.value % MODULUS, pts.rest)
  }

  function DecodeRest(stream: byte, len: nat, pts: uint32, s: seq<byte>): Option<StreamData> {
    match Take(s, if Flag(len, FRAGMENTED) then 2 else 0)
    case None => None
    case Some(part) =>
      match Take(part.rest, len % 0x800)
      case None => None
      case Some(t) =>
        var fragmented := part.value != [];
        Some(StreamData(stream, Fragment(pts, if fragmented then part.value[0] else 0,
          if fragmented then part.value[1] else 0, Flag(len, KEYFRAME), t.value)))
  }

  lemma LengthAndFlagsRead(f: Fragment, fragmented: bool)
    requires |f.data| < 0x800
    ensures var v := LengthAndFlags(f, fragmented);
      && v < 0x1_0000 && v % 0x800 == |f.data|
      && (Flag(v, FRAGMENTED) <==> fragmented) && (Flag(v, KEYFRAME) <==> f.keyframe)
  {
  }

  lemma RestRead(f: Fragment, fragmented: bool, stream: byte)
    requires |f.data| < 0x800 && (!fragmented ==> f.index == 0 && f.count == 0)
    ensures DecodeRest(stream, LengthAndFlags(f, fragmented), f.pts, (if fragmented then [f.index, f.count] else []) + f.data)
      == Some(StreamData(stream, f))
  {
    LengthAndFlagsRead(f, fragmented);
    hide Take, LengthAndFlags, Flag;
    var mark := if fragmented then [f.index, f.count] else [];
    TakeOf(mark, f.data);
    assert f.data + [] == f.data;
    TakeOf(f.data, []);
  }

  lemma StreamRead(stream: byte)
    requires stream < 0x40
    ensures (stream + LEN16) % LEN16 == stream && Flag(stream + LEN16, LEN16)
  {
  }

  // Reading gives back the fragment; one that is not marked has no index.
  lemma DecodeUndoesEncode(f: Fragment, fragmented: bool, stream: byte)
    requires |f.data| < 0x800 && stream < 0x40 && (!fragmented ==> f.index == 0 && f.count == 0)
    ensures Decode(Encode(f, fragmented, stream)) == Some(StreamData(stream, f))
  {
    hide TakeInt, LE, LengthAndFlags, Flag, DecodeLength;
    StreamRead(stream);
    var rest := (if fragmented then [f.index, f.count] else []) + f.data;
    TakeByteOf(stream + LEN16, LE(2, LengthAndFlags(f, fragmented)) + (LE(4, f.pts) + rest));
    LengthRead(f, fragmented, stream);
  }

  lemma LengthRead(f: Fragment, fragmented: bool, stream: byte)
    requires |f.data| < 0x800 && (!fragmented ==> f.index == 0 && f.count == 0)
    ensures DecodeLength(stream, 2, LE(2, LengthAndFlags(f, fragmented)) + (LE(4, f.pts)
        + ((if fragmented then [f.index, f.count] else []) + f.data)))
      == Some(StreamData(stream, f))
  {
    LengthAndFlagsRead(f, fragmented);
    Powers();
    hide TakeInt, LE, LengthAndFlags, Flag, DecodeRest;
    RestRead(f, fragmented, stream);
    var rest := (if fragmented then [f.index, f.count] else []) + f.data;
    TakeIntOf(2, LengthAndFlags(f, fragmented), LE(4, f.pts) + rest);
    TakeIntOf(4, f.pts, rest);
  }

  // On the wire: the stream and whether the length has two bytes, the length with its marks, the
  // time, index and count of a fragment, and the data.
  ghost predicate IsStreamPacket(s: seq<byte>, d: StreamData) {
    exists id: byte, len: nat, mark: seq<byte>, rest: seq<byte> :: IsStreamPacketAs(s, d, id, len, mark, rest)
  }

  predicate IsStreamPacketAs(s: seq<byte>, d: StreamData, id: byte, len: nat, mark: seq<byte>, rest: seq<byte>) {
    var wide := id / 0x40 % 2 == 1;
    && s == [id] + (LE(if wide then 2 else 1, len) + (LE(4, d.fragment.pts) + (mark + (d.fragment.data + rest))))
    && d.stream == id % 0x40 && len < (if wide then 0x1_0000 else 0x100)
    && |d.fragment.data| == len % 0x800 && d.fragment.keyframe == (len / 0x8000 % 2 == 1)
    && (if len / 0x4000 % 2 == 1 then mark == [d.fragment.index, d.fragment.count]
        else mark == [] && d.fragment.index == 0 && d.fragment.count == 0)
  }

  // Index and count if the length is marked for them, the data, and whatever follows.
  predicate IsRest(s: seq<byte>, len: nat, f: Fragment, mark: seq<byte>, rest: seq<byte>) {
    && s == mark + (f.data + rest) && |f.data| == len % 0x800 && f.keyframe == (len / 0x8000 % 2 == 1)
    && (if len / 0x4000 % 2 == 1 then mark == [f.index, f.count] else mark == [] && f.index == 0 && f.count == 0)
  }

  lemma RestDecodes(stream: byte, len: nat, pts: uint32, s: seq<byte>, d: StreamData)
    ensures DecodeRest(stream, len, pts, s) == Some(d) <==>
      d.stream == stream && d.fragment.pts == pts
      && exists mark: seq<byte>, rest: seq<byte> :: IsRest(s, len, d.fragment, mark, rest)
  {
    hide Take;
    var f := d.fragment;
    var n := if Flag(len, FRAGMENTED) then 2 else 0;
    if mark: seq<byte>, rest: seq<byte> :| IsRest(s, len, f, mark, rest) {
      TakeIs(s, mark, f.data + rest);
      TakeIs(f.data + rest, f.data, rest);
    }
    if DecodeRest(stream, len, pts, s) == Some(d) {
      var part := Take(s, n).value;
      var t := Take(part.rest, len % 0x800).value;
      assert IsRest(s, len, f, part.value, t.rest);
    }
  }

  // Of all bytes, just those that are a stream packet are read, and as that packet.
  lemma DecodesExactly(s: seq<byte>, d: StreamData)
    ensures Decode(s) == Some(d) <==> IsStreamPacket(s, d)
  {
    hide Decode, IsStreamPacketAs;
    if id: byte, len: nat, mark: seq<byte>, rest: seq<byte> :| IsStreamPacketAs(s, d, id, len, mark, rest) {
      PacketDecodes(s, d, id, len, mark, rest);
    }
    if Decode(s) == Some(d) {
      DecodedIs(s, d);
    }
  }

  lemma DecodedIs(s: seq<byte>, d: StreamData)
    requires Decode(s) == Some(d)
    ensures IsStreamPacket(s, d)
  {
    hide TakeInt, LE, DecodeRest, IsRest;
    Powers();
    var id := TakeInt(s, 1).value;
    TakeByteIs(s, id.value, id.rest);
    var n := if Flag(id.value, LEN16) then 2 else 1;
    var len := TakeInt(id.rest, n).value;
    TakeIntIs(id.rest, n, len.value, len.rest);
    var pts := TakeInt(len.rest, 4).value;
    TakeIntIs(len.rest, 4, pts.value, pts.rest);
    RestDecodes(id.value % LEN16, len.value, pts.value % MODULUS, pts.rest, d);
    var mark: seq<byte>, rest: seq<byte> :| IsRest(pts.rest, len.value, d.fragment, mark, rest);
    RestIs(s, d, id.value, len.value, pts.rest, mark, rest);
  }

  lemma RestIs(s: seq<byte>, d: StreamData, id: byte, len: nat, tail: seq<byte>, mark: seq<byte>, rest: seq<byte>)
    requires var n := if id / 0x40 % 2 == 1 then 2 else 1;
      s == [id] + (LE(n, len) + (LE(4, d.fragment.pts) + tail)) && len < (if n == 2 then 0x1_0000 else 0x100)
    requires d.stream == id % 0x40 && IsRest(tail, len, d.fragment, mark, rest)
    ensures IsStreamPacketAs(s, d, id, len, mark, rest)
  {
    hide LE;
  }

  lemma PacketDecodes(s: seq<byte>, d: StreamData, id: byte, len: nat, mark: seq<byte>, rest: seq<byte>)
    requires IsStreamPacketAs(s, d, id, len, mark, rest)
    ensures Decode(s) == Some(d)
  {
    Powers();
    hide TakeInt, LE, DecodeRest;
    var n := if Flag(id, LEN16) then 2 else 1;
    var tail := mark + (d.fragment.data + rest);
    TakeByteIs(s, id, LE(n, len) + (LE(4, d.fragment.pts) + tail));
    TakeIntIs(LE(n, len) + (LE(4, d.fragment.pts) + tail), n, len, LE(4, d.fragment.pts) + tail);
    TakeIntIs(LE(4, d.fragment.pts) + tail, 4, d.fragment.pts, tail);
    RestDecodes(d.stream, len, d.fragment.pts, tail, d);
    assert IsRest(tail, len, d.fragment, mark, rest);
  }

  // ----- putting together -----

  type Parts = p: seq<seq<byte>> | |p| == MAX_PARTS witness seq(MAX_PARTS, _ => [])

  // An empty part is one that is missing. A new frame does not clear the parts.
  datatype Assembler = Assembler(currentTimestamp: uint32, partCount: byte, parts: Parts, isKeyframe: bool, received: nat)

  datatype Frame = Frame(data: seq<byte>, pts: uint32, keyframe: bool)

  datatype Added = Added(state: Assembler, frame: Option<Frame>)

  function Joined(parts: seq<seq<byte>>): seq<byte> {
    if parts == [] then [] else Joined(parts[..|parts| - 1]) + parts[|parts| - 1]
  }

  predicate AnyEmpty(parts: seq<seq<byte>>) {
    exists k :: 0 <= k < |parts| && parts[k] == []
  }

  function Cleared(parts: Parts, n: byte): Parts
    requires n <= MAX_PARTS
  {
    seq(MAX_PARTS, k requires 0 <= k < MAX_PARTS => if k < n then [] else parts[k])
  }

  function Begin(s: Assembler, f: Fragment): Assembler {
    if f.pts != s.currentTimestamp then
      s.(currentTimestamp := f.pts, partCount := f.count, isKeyframe := f.keyframe, received := 0)
    else s
  }

  // AddFragment
  function Add(s: Assembler, f: Fragment): Added {
    var s := Begin(s, f);
    if f.count <= 1 then Added(s, Some(Frame(f.data, f.pts, f.keyframe)))
    else
      var s := if f.index < s.partCount then s.(parts := s.parts[f.index := f.data]) else s;
      var s := s.(received := s.received + 1);
      if AnyEmpty(s.parts[..s.partCount]) || s.received != s.partCount then Added(s, None)
      else
        Added(s.(parts := Cleared(s.parts, s.partCount), partCount := 0, currentTimestamp := 0),
              Some(Frame(Joined(s.parts[..s.partCount]), s.currentTimestamp, s.isKeyframe)))
  }

  // ----- cutting and putting together -----

  ghost predicate IsOrder(order: seq<nat>, n: nat) {
    && |order| == n
    && (forall k :: 0 <= k < n ==> order[k] < n)
    && (forall j, k :: 0 <= j < k < n ==> order[j] != order[k])
  }

  // The state after the first k fragments in that order, and what the k-th brought forth.
  function Fed(s: Assembler, frame: seq<byte>, pts: uint32, keyframe: bool, order: seq<nat>, k: nat): Added
    requires k <= |order|
    requires forall j :: 0 <= j < |order| ==> order[j] < Segments(|frame|)
  {
    if k == 0 then Added(s, None)
    else
      Add(Fed(s, frame, pts, keyframe, order, k - 1).state, FragmentOf(frame, order[k - 1], pts, keyframe))
  }

  lemma ChunkLength(frame: seq<byte>, k: nat)
    requires k < Segments(|frame|)
    ensures 0 < |Chunk(frame, k)| <= CHUNK
  {
  }

  // In progress: as many fragments received as fed, and the parts fed are in place.
  ghost predicate InProgress(s: Assembler, frame: seq<byte>, pts: uint32, keyframe: bool, order: seq<nat>, k: nat)
    requires 1 < Segments(|frame|) <= MAX_PARTS && IsOrder(order, Segments(|frame|)) && k <= |order|
  {
    && s.currentTimestamp == pts && s.partCount == Segments(|frame|) && s.isKeyframe == keyframe && s.received == k
    && forall j :: 0 <= j < k ==> s.parts[order[j]] == Chunk(frame, order[j])
  }

  lemma FedStep(s: Assembler, frame: seq<byte>, pts: uint32, keyframe: bool, feed: seq<nat>, k: nat)
    requires 0 < k <= |feed| && forall j :: 0 <= j < |feed| ==> feed[j] < Segments(|frame|)
    ensures Fed(s, frame, pts, keyframe, feed, k)
      == Add(Fed(s, frame, pts, keyframe, feed, k - 1).state, FragmentOf(frame, feed[k - 1], pts, keyframe))
  {
  }

  // With fewer fragments received than announced nothing comes out yet.
  lemma AddGoesOn(s: Assembler, f: Fragment)
    requires var b := Begin(s, f);
      b.partCount == f.count && 1 < f.count && f.index < f.count <= MAX_PARTS && b.received + 1 < f.count
    ensures var b := Begin(s, f);
      Add(s, f) == Added(b.(parts := b.parts[f.index := f.data], received := b.received + 1), None)
  {
    hide AnyEmpty, Joined, Cleared, Begin;
  }

  lemma {:induction false} FedInProgress(s: Assembler, frame: seq<byte>, pts: uint32, keyframe: bool, order: seq<nat>, k: nat)
    requires 1 < Segments(|frame|) <= MAX_PARTS && IsOrder(order, Segments(|frame|)) && 0 < k < |order|
    requires pts != s.currentTimestamp
    ensures var r := Fed(s, frame, pts, keyframe, order, k);
      r.frame == None && InProgress(r.state, frame, pts, keyframe, order, k)
  {
    hide Segments, Chunk, Add, FragmentOf, Fed;
    var x, before := order[k - 1], Fed(s, frame, pts, keyframe, order, k - 1);
    if k > 1 {
      FedInProgress(s, frame, pts, keyframe, order, k - 1);
    } else {
      FedNone(s, frame, pts, keyframe, order);
    }
    assert x < |order|;
    FragmentIs(frame, x, pts, keyframe);
    AddGoesOn(before.state, FragmentOf(frame, x, pts, keyframe));
    FedStep(s, frame, pts, keyframe, order, k);
  }

  lemma FedNone(s: Assembler, frame: seq<byte>, pts: uint32, keyframe: bool, order: seq<nat>)
    requires forall j :: 0 <= j < |order| ==> order[j] < Segments(|frame|)
    ensures Fed(s, frame, pts, keyframe, order, 0) == Added(s, None)
  {
  }

  // All parts are in place once all were fed.
  lemma {:induction false} OrderCovers(order: seq<nat>, n: nat, x: nat)
    requires IsOrder(order, n) && x < n
    ensures exists j :: 0 <= j < n && order[j] == x
  {
    var hit := set j | 0 <= j < n :: order[j];
    CountOrder(order, n);
    if x !in hit {
      SubsetSize(hit, Range(n) - {x});
    }
  }

  function Range(n: nat): (r: set<nat>)
    ensures |r| == n && forall x: nat :: x in r <==> x < n
  {
    if n == 0 then {} else Range(n - 1) + {n - 1}
  }

  lemma {:induction false} CountOrder(order: seq<nat>, k: nat)
    requires k <= |order| && forall i, j :: 0 <= i < j < |order| ==> order[i] != order[j]
    ensures |set j | 0 <= j < k :: order[j]| == k
  {
    if k > 0 {
      CountOrder(order, k - 1);
      assert (set j | 0 <= j < k :: order[j]) == (set j | 0 <= j < k - 1 :: order[j]) + {order[k - 1]};
    }
  }

  lemma {:induction false} SubsetSize(a: set<nat>, b: set<nat>)
    requires a <= b
    ensures |a| <= |b|
    decreases |a|
  {
    if x :| x in a {
      SubsetSize(a - {x}, b - {x});
    }
  }

  lemma {:induction false} ChunksJoin(frame: seq<byte>, parts: seq<seq<byte>>, n: nat)
    requires n <= |parts| && n <= Segments(|frame|)
    requires forall k :: 0 <= k < n ==> parts[k] == Chunk(frame, k)
    ensures Joined(parts[..n]) == if n * CHUNK <= |frame| then frame[..n * CHUNK] else frame
  {
    if n > 0 {
      assert parts[..n][..n - 1] == parts[..n - 1];
      ChunksJoin(frame, parts, n - 1);
      var lo, hi := (n - 1) * CHUNK, if n * CHUNK <= |frame| then n * CHUNK else |frame|;
      assert lo < |frame| && Chunk(frame, n - 1) == frame[lo..hi];
      assert frame[..lo] + frame[lo..hi] == frame[..hi];
      assert frame[..|frame|] == frame;
    }
  }

  // Whatever the assembler holds from before, and in whatever order the fragments come, the
  // frame comes out once, with the last of them.
  lemma ReassemblyUndoesCutting(s: Assembler, frame: seq<byte>, pts: uint32, keyframe: bool, order: seq<nat>)
    requires 0 < |frame| <= MAX_PARTS * CHUNK && IsOrder(order, Segments(|frame|)) && pts != s.currentTimestamp
    ensures Segments(|frame|) <= MAX_PARTS
    ensures forall k :: 0 < k < |order| ==> Fed(s, frame, pts, keyframe, order, k).frame == None
    ensures Fed(s, frame, pts, keyframe, order, |order|).frame == Some(Frame(frame, pts, keyframe))
  {
    var n := Segments(|frame|);
    assert 0 < n <= MAX_PARTS;
    if n == 1 {
      OnePacket(s, frame, pts, keyframe, order);
    } else {
      hide Segments, Fed, InProgress;
      forall k | 0 < k < n ensures Fed(s, frame, pts, keyframe, order, k).frame == None {
        FedInProgress(s, frame, pts, keyframe, order, k);
      }
      FedInProgress(s, frame, pts, keyframe, order, n - 1);
      LastCompletes(s, frame, pts, keyframe, order);
    }
  }

  lemma OnePacket(s: Assembler, frame: seq<byte>, pts: uint32, keyframe: bool, order: seq<nat>)
    requires Segments(|frame|) == 1 && IsOrder(order, 1)
    ensures Fed(s, frame, pts, keyframe, order, 1).frame == Some(Frame(frame, pts, keyframe))
  {
    assert Chunk(frame, 0) == frame && order[0] == 0;
    assert Fed(s, frame, pts, keyframe, order, 0) == Added(s, None);
  }

  lemma LastCompletes(s: Assembler, frame: seq<byte>, pts: uint32, keyframe: bool, order: seq<nat>)
    requires 1 < Segments(|frame|) <= MAX_PARTS && IsOrder(order, Segments(|frame|))
    requires var n := Segments(|frame|);
      InProgress(Fed(s, frame, pts, keyframe, order, n - 1).state, frame, pts, keyframe, order, n - 1)
    ensures Fed(s, frame, pts, keyframe, order, |order|).frame == Some(Frame(frame, pts, keyframe))
  {
    var n := Segments(|frame|);
    var before := Fed(s, frame, pts, keyframe, order, n - 1).state;
    hide Fed;
    var x := order[n - 1];
    var parts := before.parts[x := Chunk(frame, x)];
    AllInPlace(before, frame, pts, keyframe, order, parts);
    hide InProgress, IsOrder, Joined, AnyEmpty, Chunk, Segments, Cleared;
    FragmentIs(frame, x, pts, keyframe);
    hide FragmentOf;
    AddCompletes(before, FragmentOf(frame, x, pts, keyframe));
    hide Add;
    FedStep(s, frame, pts, keyframe, order, n);
  }

  lemma FragmentIs(frame: seq<byte>, k: nat, pts: uint32, keyframe: bool)
    requires k < Segments(|frame|) && 1 < Segments(|frame|) <= MAX_PARTS
    ensures FragmentOf(frame, k, pts, keyframe) == Fragment(pts, k, Segments(|frame|), keyframe, Chunk(frame, k))
  {
    hide Segments, Chunk;
  }

  // The fragment that was missing completes the frame.
  lemma AddCompletes(s: Assembler, f: Fragment)
    requires s.currentTimestamp == f.pts && s.partCount == f.count && 1 < f.count && f.index < f.count <= MAX_PARTS
    requires s.received + 1 == f.count && !AnyEmpty(s.parts[f.index := f.data][..f.count])
    ensures Add(s, f).frame == Some(Frame(Joined(s.parts[f.index := f.data][..f.count]), f.pts, s.isKeyframe))
  {
    hide AnyEmpty, Joined;
  }

  lemma AllInPlace(before: Assembler, frame: seq<byte>, pts: uint32, keyframe: bool, order: seq<nat>, parts: seq<seq<byte>>)
    requires 1 < Segments(|frame|) <= MAX_PARTS && IsOrder(order, Segments(|frame|))
    requires InProgress(before, frame, pts, keyframe, order, Segments(|frame|) - 1)
    requires var x := order[Segments(|frame|) - 1]; parts == before.parts[x := Chunk(frame, x)]
    ensures before.currentTimestamp == pts && before.isKeyframe == keyframe
    ensures before.partCount == Segments(|frame|) && before.received + 1 == before.partCount
    ensures !AnyEmpty(parts[..Segments(|frame|)]) && Joined(parts[..Segments(|frame|)]) == frame
  {
    var n := Segments(|frame|);
    forall k | 0 <= k < n ensures parts[k] == Chunk(frame, k) && parts[k] != [] {
      OrderCovers(order, n, k);
      ChunkLength(frame, k);
    }
    ChunksJoin(frame, parts, n);
    assert n * CHUNK >= |frame| && frame[..|frame|] == frame;
  }

  // ----- frames that are too large -----

  ghost predicate SmallParts(parts: seq<seq<byte>>) {
    forall k :: 0 <= k < |parts| ==> |parts[k]| <= CHUNK
  }

  lemma {:induction false} JoinedBound(parts: seq<seq<byte>>)
    requires SmallParts(parts)
    ensures |Joined(parts)| <= |parts| * CHUNK
  {
    if parts != [] { JoinedBound(parts[..|parts| - 1]); }
  }

  lemma AddBound(s: Assembler, f: Fragment)
    requires SmallParts(s.parts) && |f.data| <= CHUNK
    ensures var r := Add(s, f);
      SmallParts(r.state.parts) && (r.frame.Some? ==> |r.frame.value.data| <= MAX_PARTS * CHUNK)
  {
    var s1 := Begin(s, f);
    var parts := if f.index < s1.partCount then s1.parts[f.index := f.data] else s1.parts;
    JoinedBound(parts[..s1.partCount]);
    hide Joined;
  }

  lemma {:induction false} FedBound(s: Assembler, frame: seq<byte>, pts: uint32, keyframe: bool, order: seq<nat>, k: nat)
    requires SmallParts(s.parts) && k <= |order|
    requires forall j :: 0 <= j < |order| ==> order[j] < Segments(|frame|)
    ensures var r := Fed(s, frame, pts, keyframe, order, k);
      SmallParts(r.state.parts) && (r.frame.Some? ==> |r.frame.value.data| <= MAX_PARTS * CHUNK)
  {
    hide Add, Segments;
    if k > 0 {
      FedBound(s, frame, pts, keyframe, order, k - 1);
      ChunkLength(frame, order[k - 1]);
      AddBound(Fed(s, frame, pts, keyframe, order, k - 1).state, FragmentOf(frame, order[k - 1], pts, keyframe));
    }
  }

  // A frame survives just if it has at most 255 fragments; a larger one never comes out.
  lemma SurvivesExactly(s: Assembler, frame: seq<byte>, pts: uint32, keyframe: bool, order: seq<nat>)
    requires SmallParts(s.parts) && |frame| > 0 && IsOrder(order, Segments(|frame|)) && pts != s.currentTimestamp
    ensures Fed(s, frame, pts, keyframe, order, |order|).frame == Some(Frame(frame, pts, keyframe))
      <==> |frame| <= MAX_PARTS * CHUNK
    ensures |frame| > MAX_PARTS * CHUNK ==> forall k :: 0 <= k <= |order| ==>
      var out := Fed(s, frame, pts, keyframe, order, k).frame; out.Some? ==> out.value.data != frame
  {
    hide Fed, Segments;
    if |frame| <= MAX_PARTS * CHUNK {
      ReassemblyUndoesCutting(s, frame, pts, keyframe, order);
    }
    forall k | 0 <= k <= |order|
      ensures var out := Fed(s, frame, pts, keyframe, order, k).frame;
        out.Some? ==> |out.value.data| <= MAX_PARTS * CHUNK
    {
      FedBound(s, frame, pts, keyframe, order, k);
    }
  }

  // ----- fragments that come more than once -----

  predicate FeedsInto(frame: seq<byte>, feed: seq<nat>) {
    forall k :: 0 <= k < |feed| ==> feed[k] < Segments(|frame|)
  }

  // Each part is missing or already belongs to the frame.
  ghost predicate Clean(parts: Parts, frame: seq<byte>)
    requires Segments(|frame|) <= MAX_PARTS
  {
    forall k :: 0 <= k < Segments(|frame|) ==> parts[k] == [] || parts[k] == Chunk(frame, k)
  }

  ghost predicate OnlyThatFrame(s: Assembler, frame: seq<byte>, pts: uint32, keyframe: bool, feed: seq<nat>)
    requires FeedsInto(frame, feed)
  {
    forall k :: 0 <= k <= |feed| ==>
      var out := Fed(s, frame, pts, keyframe, feed, k).frame; out.Some? ==> out.value == Frame(frame, pts, keyframe)
  }

  // Between frames, within this one, or past it with the time 0 that was this frame's too.
  ghost predicate Feeding(s: Assembler, frame: seq<byte>, pts: uint32, keyframe: bool)
    requires 1 < Segments(|frame|) <= MAX_PARTS
  {
    && Clean(s.parts, frame)
    && (s.currentTimestamp == pts ==> s.partCount == 0 || (s.partCount == Segments(|frame|) && s.isKeyframe == keyframe))
  }

  lemma WholeIsFrame(parts: Parts, frame: seq<byte>)
    requires 0 < Segments(|frame|) <= MAX_PARTS && Clean(parts, frame) && !AnyEmpty(parts[..Segments(|frame|)])
    ensures Joined(parts[..Segments(|frame|)]) == frame
  {
    var n := Segments(|frame|);
    forall k | 0 <= k < n ensures parts[k] == Chunk(frame, k) {
      assert parts[..n][k] != [];
    }
    ChunksJoin(frame, parts, n);
    assert n * CHUNK >= |frame| && frame[..|frame|] == frame;
  }

  lemma AddFeeds(s: Assembler, frame: seq<byte>, pts: uint32, keyframe: bool, x: nat)
    requires 1 < Segments(|frame|) <= MAX_PARTS && Feeding(s, frame, pts, keyframe) && x < Segments(|frame|)
    ensures var r := Add(s, FragmentOf(frame, x, pts, keyframe));
      Feeding(r.state, frame, pts, keyframe) && (r.frame.Some? ==> r.frame.value == Frame(frame, pts, keyframe))
  {
    FragmentIs(frame, x, pts, keyframe);
    var f, n := FragmentOf(frame, x, pts, keyframe), Segments(|frame|);
    hide FragmentOf, Segments, Chunk;
    var s1 := Begin(s, f);
    var parts: Parts := if x < s1.partCount then s1.parts[x := f.data] else s1.parts;
    assert Clean(parts, frame);
    if s1.partCount == n && !AnyEmpty(parts[..n]) {
      WholeIsFrame(parts, frame);
    }
    hide Joined, AnyEmpty;
  }

  lemma {:induction false} FeedStays(s: Assembler, frame: seq<byte>, pts: uint32, keyframe: bool, feed: seq<nat>, k: nat)
    requires 1 < Segments(|frame|) <= MAX_PARTS && Feeding(s, frame, pts, keyframe)
    requires FeedsInto(frame, feed) && k <= |feed|
    ensures var r := Fed(s, frame, pts, keyframe, feed, k);
      Feeding(r.state, frame, pts, keyframe) && (r.frame.Some? ==> r.frame.value == Frame(frame, pts, keyframe))
  {
    hide Add, Segments, Feeding;
    if k > 0 {
      FeedStays(s, frame, pts, keyframe, feed, k - 1);
      AddFeeds(Fed(s, frame, pts, keyframe, feed, k - 1).state, frame, pts, keyframe, feed[k - 1]);
    }
  }

  // Before as many fragments as the frame has were counted, those fed are in place and the
  // other parts are as they were.
  lemma {:induction false} FedParts(s: Assembler, frame: seq<byte>, pts: uint32, keyframe: bool, feed: seq<nat>, k: nat)
    requires 1 < Segments(|frame|) <= MAX_PARTS && pts != s.currentTimestamp
    requires FeedsInto(frame, feed) && 0 < k <= |feed| && k < Segments(|frame|)
    ensures var r := Fed(s, frame, pts, keyframe, feed, k);
      var n := Segments(|frame|);
      && r.state.currentTimestamp == pts && r.state.partCount == n && r.state.isKeyframe == keyframe
      && r.state.received == k
      && forall i :: 0 <= i < n ==> r.state.parts[i] == if i in feed[..k] then Chunk(frame, i) else s.parts[i]
  {
    hide Segments, Chunk, Add, FragmentOf, Fed;
    var x, before := feed[k - 1], Fed(s, frame, pts, keyframe, feed, k - 1);
    if k > 1 {
      FedParts(s, frame, pts, keyframe, feed, k - 1);
    } else {
      FedNone(s, frame, pts, keyframe, feed);
    }
    assert feed[..k] == feed[..k - 1] + [x];
    FragmentIs(frame, x, pts, keyframe);
    AddGoesOn(before.state, FragmentOf(frame, x, pts, keyframe));
    FedStep(s, frame, pts, keyframe, feed, k);
  }

  lemma {:induction false} JoinedDiffers(p: seq<seq<byte>>, q: seq<seq<byte>>, k: nat)
    requires |p| == |q| && k < |p| && p[k] != q[k]
    requires forall i :: 0 <= i < |p| && i != k ==> p[i] == q[i]
    ensures Joined(p) != Joined(q)
  {
    var n := |p| - 1;
    var a, b := Joined(p[..n]), Joined(q[..n]);
    if k == n {
      assert p[..n] == q[..n];
    } else {
      JoinedDiffers(p[..n], q[..n], k);
    }
    EndsDiffer(a, p[n], b, q[n]);
  }

  lemma EndsDiffer(a: seq<byte>, x: seq<byte>, b: seq<byte>, y: seq<byte>)
    requires (a == b && x != y) || (a != b && x == y)
    ensures a + x != b + y
  {
    assert (a + x)[..|a|] == a && (a + x)[|a|..] == x;
    assert (b + y)[..|b|] == b && (b + y)[|b|..] == y;
  }

  // All fragments but k, one of them twice.
  function AllBut(n: nat, k: nat): (feed: seq<nat>)
    ensures |feed| == n && forall i :: 0 <= i < n ==> feed[i] == if i != k then i else if k == 0 then 1 else 0
  {
    seq(n, i requires 0 <= i < n => if i != k then i else if k == 0 then 1 else 0)
  }

  // One part in place of that of the frame makes the whole differ.
  lemma MixedDiffers(frame: seq<byte>, k: nat, mixed: seq<seq<byte>>)
    requires |mixed| == Segments(|frame|) && k < |mixed| && mixed[k] != Chunk(frame, k)
    requires forall i :: 0 <= i < |mixed| && i != k ==> mixed[i] == Chunk(frame, i)
    ensures Joined(mixed) != frame
  {
    hide Segments, Chunk, Joined;
    var chunks := seq(|mixed|, i requires 0 <= i < |mixed| => Chunk(frame, i));
    JoinedDiffers(mixed, chunks, k);
    ChunksJoin(frame, chunks, |mixed|);
    assert chunks[..|mixed|] == chunks && frame[..|frame|] == frame;
    EnoughChunks(frame);
  }

  // A stale part takes the place of the missing fragment.
  lemma StalePartMixes(s: Assembler, frame: seq<byte>, pts: uint32, keyframe: bool, k: nat)
    requires 1 < Segments(|frame|) <= MAX_PARTS && pts != s.currentTimestamp
    requires k < Segments(|frame|) && s.parts[k] != [] && s.parts[k] != Chunk(frame, k)
    ensures FeedsInto(frame, AllBut(Segments(|frame|), k))
    ensures var n := Segments(|frame|);
      var out := Fed(s, frame, pts, keyframe, AllBut(n, k), n).frame;
      && out.Some? && out.value.data != frame
      && out.value.data == Joined(seq(n, i requires 0 <= i < n => if i == k then s.parts[k] else Chunk(frame, i)))
  {
    var n := Segments(|frame|);
    hide Segments, Chunk, Fed, Joined;
    var mixed := seq(n, i requires 0 <= i < n => if i == k then s.parts[k] else Chunk(frame, i));
    MixedParts(s, frame, pts, keyframe, k, mixed);
    MixedDiffers(frame, k, mixed);
  }

  lemma EnoughChunks(frame: seq<byte>)
    ensures Segments(|frame|) * CHUNK >= |frame|
  {
  }

  lemma MixedParts(s: Assembler, frame: seq<byte>, pts: uint32, keyframe: bool, k: nat, mixed: seq<seq<byte>>)
    requires 1 < Segments(|frame|) <= MAX_PARTS && pts != s.currentTimestamp
    requires k < Segments(|frame|) && s.parts[k] != [] && |mixed| == Segments(|frame|)
    requires forall i :: 0 <= i < |mixed| ==> mixed[i] == if i == k then s.parts[k] else Chunk(frame, i)
    requires FeedsInto(frame, AllBut(|mixed|, k))
    ensures Fed(s, frame, pts, keyframe, AllBut(|mixed|, k), |mixed|).frame == Some(Frame(Joined(mixed), pts, keyframe))
  {
    hide Fed, Segments, Chunk, FragmentOf, AnyEmpty, Joined, Add;
    var n := |mixed|;
    var feed := AllBut(n, k);
    var before := Fed(s, frame, pts, keyframe, feed, n - 1).state;
    FedParts(s, frame, pts, keyframe, feed, n - 1);
    FedStep(s, frame, pts, keyframe, feed, n);
    var x := feed[n - 1];
    FragmentIs(frame, x, pts, keyframe);
    AllButParts(s.parts, before.parts, frame, k, mixed);
    AddCompletes(before, FragmentOf(frame, x, pts, keyframe));
  }

  // With all fragments but the last fed, the last one makes the parts complete.
  lemma AllButParts(was: Parts, parts: Parts, frame: seq<byte>, k: nat, mixed: seq<seq<byte>>)
    requires 1 < Segments(|frame|) == |mixed| <= MAX_PARTS && k < |mixed| && was[k] != []
    requires forall i :: 0 <= i < |mixed| ==> mixed[i] == if i == k then was[k] else Chunk(frame, i)
    requires forall i :: 0 <= i < |mixed| ==>
      parts[i] == if i in AllBut(|mixed|, k)[..|mixed| - 1] then Chunk(frame, i) else was[i]
    ensures var n := |mixed|;
      var x := AllBut(n, k)[n - 1];
      var last := parts[x := Chunk(frame, x)];
      last[..n] == mixed && !AnyEmpty(last[..n])
  {
    var n := |mixed|;
    var feed := AllBut(n, k);
    var x := feed[n - 1];
    var last := parts[x := Chunk(frame, x)];
    hide Segments, Chunk;
    forall i | 0 <= i < n ensures last[i] == mixed[i] && mixed[i] != [] {
      ChunkLength(frame, i);
      if i != k && i < n - 1 {
        assert feed[..n - 1][i] == i;
      }
    }
    assert last[..n] == mixed;
  }

  // Fragments of one frame, in any order and as often as they like, bring forth that frame
  // and nothing else, just if no part of an older frame is left where this one has its own.
  lemma RepeatsAreHarmlessExactly(s: Assembler, frame: seq<byte>, pts: uint32, keyframe: bool)
    requires 1 < Segments(|frame|) <= MAX_PARTS && pts != s.currentTimestamp
    ensures (forall feed :: FeedsInto(frame, feed) ==> OnlyThatFrame(s, frame, pts, keyframe, feed))
      <==> Clean(s.parts, frame)
  {
    hide Fed, Segments, Feeding;
    if Clean(s.parts, frame) {
      forall feed | FeedsInto(frame, feed) ensures OnlyThatFrame(s, frame, pts, keyframe, feed) {
        assert Feeding(s, frame, pts, keyframe) by { IsFeeding(s, frame, pts, keyframe); }
        forall k | 0 <= k <= |feed|
          ensures var out := Fed(s, frame, pts, keyframe, feed, k).frame;
            out.Some? ==> out.value == Frame(frame, pts, keyframe)
        {
          FeedStays(s, frame, pts, keyframe, feed, k);
        }
      }
    } else {
      var n := Segments(|frame|);
      var k :| 0 <= k < n && s.parts[k] != [] && s.parts[k] != Chunk(frame, k);
      StalePartMixes(s, frame, pts, keyframe, k);
      assert !OnlyThatFrame(s, frame, pts, keyframe, AllBut(n, k));
    }
  }

  lemma IsFeeding(s: Assembler, frame: seq<byte>, pts: uint32, keyframe: bool)
    requires 1 < Segments(|frame|) <= MAX_PARTS && Clean(s.parts, frame) && pts != s.currentTimestamp
    ensures Feeding(s, frame, pts, keyframe)
  {
  }

  // A fragment that comes twice can complete a frame with a part of an older one.
  lemma RepeatedFragmentMixesFrames()
    ensures exists s: Assembler, f: Fragment, g: Fragment ::
      && f.pts == 7 && g.pts == 9 && g.count == 2
      && Add(Add(Add(s, f).state, g).state, g).frame.Some?
      && f.data <= Add(Add(Add(s, f).state, g).state, g).frame.value.data
  {
    var s := Assembler(0, 0, seq(MAX_PARTS, _ => []), false, 0);
    var f, g := Fragment(7, 0, 2, true, [1]), Fragment(9, 1, 2, false, [2]);
    var s1 := Add(s, f).state;
    assert s1.parts[..2][1] == [];
    assert s1 == Assembler(7, 2, s.parts[0 := [1]], true, 1);
    var s2 := Add(s1, g).state;
    assert s2 == Assembler(9, 2, s1.parts[1 := [2]], false, 1);
    var parts: seq<seq<byte>> := s2.parts[..2];
    assert parts[0] == [1] && parts[1] == [2] && |parts[..1][..0]| == 0;
    assert s2.parts[1 := [2]] == s2.parts && !AnyEmpty(parts);
    var last := Add(s2, g).frame;
    assert last == Some(Frame(Joined(parts), 9, false));
    assert parts[..1][0] == [1] && Joined(parts[..1]) == Joined(parts[..1][..0]) + [1];
    assert Joined(parts) == [1] + [2];
    assert f.data <= last.value.data;
  }

  // ----- the reassembler, which is updated in place -----

  class PacketReassembler {
    var currentTimestamp: uint32
    var currentPacketPartCount: byte
    const parts: array<seq<byte>>
    var currentIsKeyframe: bool
    var receivedPartCount: nat

    ghost predicate Valid()
      reads this
    {
      parts.Length == MAX_PARTS
    }

    ghost function Value(): Assembler
      requires Valid()
      reads this, parts
    {
      Assembler(currentTimestamp, currentPacketPartCount, parts[..], currentIsKeyframe, receivedPartCount)
    }

    // The source leaves the timestamp of a new reassembler as it is in memory.
    constructor (timestamp: uint32)
      ensures Valid() && fresh(parts) && Value() == Assembler(timestamp, 0, seq(MAX_PARTS, _ => []), false, 0)
    {
      parts := new seq<byte>[MAX_PARTS](_ => []);
      currentTimestamp, currentPacketPartCount, currentIsKeyframe, receivedPartCount := timestamp, 0, false, 0;
      new;
      assert parts[..] == seq(MAX_PARTS, _ => []);
    }

    method AddFragment(f: Fragment) returns (frame: Option<Frame>)
      requires Valid()
      modifies this, parts
      ensures Valid() && Added(Value(), frame) == Add(old(Value()), f)
    {
      if f.pts != currentTimestamp {
        currentTimestamp := f.pts;
        currentPacketPartCount := f.count;
        currentIsKeyframe := f.keyframe;
        receivedPartCount := 0;
      }
      if f.count == 0 || f.count == 1 {
        return Some(Frame(f.data, f.pts, f.keyframe));
      }
      if f.index < currentPacketPartCount {
        parts[f.index] := f.data;
      }
      receivedPartCount := receivedPartCount + 1;
      var anyAreEmpty := FindEmpty();
      if anyAreEmpty || receivedPartCount != currentPacketPartCount {
        return None;
      }
      var out := TakeParts();
      frame := Some(Frame(out, currentTimestamp, currentIsKeyframe));
      currentPacketPartCount := 0;
      currentTimestamp := 0;
    }

    method FindEmpty() returns (any: bool)
      requires Valid()
      ensures any == AnyEmpty(parts[..currentPacketPartCount])
    {
      any := false;
      for i := 0 to currentPacketPartCount
        invariant forall k :: 0 <= k < i ==> parts[..currentPacketPartCount][k] != []
      {
        if parts[i] == [] {
          assert parts[..currentPacketPartCount][i] == [];
          return true;
        }
      }
    }

    method TakeParts() returns (out: seq<byte>)
      requires Valid()
      modifies parts
      ensures out == Joined(old(parts[..currentPacketPartCount]))
      ensures parts[..] == Cleared(old(parts[..]), currentPacketPartCount)
    {
      out := [];
      for i := 0 to currentPacketPartCount
        invariant out == Joined(old(parts[..])[..i])
        invariant forall k :: 0 <= k < i ==> parts[k] == []
        invariant forall k :: i <= k < parts.Length ==> parts[k] == old(parts[k])
      {
        assert old(parts[..])[..i + 1][..i] == old(parts[..])[..i];
        out := out + parts[i];
        parts[i] := [];
      }
    }
  }
}
