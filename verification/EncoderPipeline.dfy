// The capture callback, the encoder thread and Stop, stepped one atomic action at a time
// over the pool, the queue and its semaphore.
module EncoderPipeline {
  import opened Numbers
  import opened Options

  const BUFFERS := 10
  const CAPACITY := 11

  // Idle; with a buffer from the pool; with the block in it; pushed, about to release the
  // semaphore and the lock of the queue.
  datatype Producer = Idle | Filling(b: nat) | Filled(b: nat) | Releasing

  // At the loop condition; in the semaphore; past it; with a packet; with one to give back.
  datatype Consumer = Checking | Waiting | Acquired | Holding(b: nat) | Returning(b: nat) | Done

  datatype Stopper = NotCalled | Marked | StopReleasing | Joining | Joined

  // captured and encoded log the blocks that got a buffer and the frames given to Encode.
  datatype State<Block> = State(
    used: set<nat>, memory: seq<Block>, queue: seq<Option<nat>>, semaphore: nat, locked: bool, running: bool,
    producer: Producer, consumer: Consumer, stopper: Stopper,
    frame: seq<Block>, encoded: seq<seq<Block>>, captured: seq<Block>)

  datatype Action<Block> =
    | TakeBuffer(b: nat) | NoBuffer | CopyBlock(block: Block) | Push | Release
    | Mark | PushMarker | ReleaseMarker | Join
    | Check | Acquire | Pop | Process | GiveBack

  function Start<Block>(memory: seq<Block>): State<Block> {
    State({}, memory, [], 0, false, true, Idle, Checking, NotCalled, [], [], [])
  }

  predicate Enabled<Block>(s: State<Block>, a: Action<Block>) {
    match a
    case TakeBuffer(b) => s.producer.Idle? && b < BUFFERS && b !in s.used
    case NoBuffer => s.producer.Idle? && forall b: nat :: b < BUFFERS ==> b in s.used
    case CopyBlock(_) => s.producer.Filling?
    case Push => s.producer.Filled? && !s.locked
    case Release => s.producer.Releasing?
    case Mark => s.stopper.NotCalled?
    case PushMarker => s.stopper.Marked? && !s.locked
    case ReleaseMarker => s.stopper.StopReleasing?
    case Join => s.stopper.Joining? && s.consumer.Done?
    case Check => s.consumer.Checking?
    case Acquire => s.consumer.Waiting? && s.semaphore > 0
    case Pop => s.consumer.Acquired? && !s.locked
    case Process => s.consumer.Holding?
    case GiveBack => s.consumer.Returning?
  }

  // Where the source would abort, or read what is not there.
  predicate Fails<Block>(s: State<Block>, a: Action<Block>, perFrame: nat) {
    match a
    case Push => |s.queue| + 1 > CAPACITY
    case PushMarker => |s.queue| + 1 > CAPACITY
    case Pop => s.queue == []
    case CopyBlock(_) => s.producer.Filling? && s.producer.b >= |s.memory|
    case Process => (s.consumer.Holding? && s.consumer.b >= |s.memory|) || |s.frame| >= perFrame
    case GiveBack => s.consumer.Returning? && s.consumer.b >= BUFFERS
    case _ => false
  }

  function Next<Block>(s: State<Block>, a: Action<Block>, perFrame: nat): State<Block>
    requires Enabled(s, a) && !Fails(s, a, perFrame)
  {
    match a
    case TakeBuffer(b) => s.(used := s.used + {b}, producer := Filling(b))
    case NoBuffer => s
    case CopyBlock(block) =>
      s.(memory := s.memory[s.producer.b := block], producer := Filled(s.producer.b), captured := s.captured + [block])
    case Push => s.(queue := s.queue + [Some(s.producer.b)], locked := true, producer := Releasing)
    case Release => s.(semaphore := s.semaphore + 1, locked := false, producer := Idle)
    case Mark => s.(running := false, stopper := Marked)
    case PushMarker => s.(queue := s.queue + [None], locked := true, stopper := StopReleasing)
    case ReleaseMarker => s.(semaphore := s.semaphore + 1, locked := false, stopper := Joining)
    case Join => s.(stopper := Joined)
    case Check => s.(consumer := if s.running then Waiting else Done)
    case Acquire => s.(semaphore := s.semaphore - 1, consumer := Acquired)
    case Pop => s.(queue := s.queue[1..], consumer := if s.queue[0].Some? then Holding(s.queue[0].value) else Checking)
    case Process =>
      var frame := s.frame + [s.memory[s.consumer.b]];
      var s := s.(consumer := Returning(s.consumer.b));
      if |frame| == perFrame then s.(frame := [], encoded := s.encoded + [frame]) else s.(frame := frame)
    case GiveBack => s.(used := s.used - {s.consumer.b}, consumer := Checking)
  }

  // ----- where each buffer is -----

  function InQueue(queue: seq<Option<nat>>, b: nat): nat {
    if queue == [] then 0
    else InQueue(queue[..|queue| - 1], b) + Bit(queue[|queue| - 1] == Some(b))
  }

  function Markers(queue: seq<Option<nat>>): nat {
    if queue == [] then 0 else Markers(queue[..|queue| - 1]) + Bit(queue[|queue| - 1] == None)
  }

  // How many places hold buffer b: the free list, the producer, the queue, the encoder.
  function Places<Block>(s: State<Block>, b: nat): nat {
    Bit(b !in s.used)
    + Bit(s.producer == Filling(b) || s.producer == Filled(b))
    + InQueue(s.queue, b)
    + Bit(s.consumer == Holding(b) || s.consumer == Returning(b))
  }

  ghost predicate PlacesAreRight<Block>(s: State<Block>) {
    && (forall b: nat :: b < BUFFERS ==> Places(s, b) == 1)
    && (forall b :: b in s.used ==> b < BUFFERS)
    && (forall k :: 0 <= k < |s.queue| && s.queue[k].Some? ==> s.queue[k].value < BUFFERS)
    && (s.producer.Filling? || s.producer.Filled? ==> s.producer.b < BUFFERS)
    && (s.consumer.Holding? || s.consumer.Returning? ==> s.consumer.b < BUFFERS)
  }

  // The semaphore counts what is in the queue, but for what is being put or taken.
  predicate Counted<Block>(s: State<Block>) {
    && s.semaphore + Bit(s.consumer.Acquired?) + Bit(s.producer.Releasing?) + Bit(s.stopper.StopReleasing?) == |s.queue|
    && s.locked == (s.producer.Releasing? || s.stopper.StopReleasing?)
    && !(s.producer.Releasing? && s.stopper.StopReleasing?)
  }

  // One marker at most, and it is there for an encoder that still waits after Stop put it.
  predicate Marking<Block>(s: State<Block>) {
    && s.running == s.stopper.NotCalled?
    && Markers(s.queue) <= Bit(!s.stopper.NotCalled? && !s.stopper.Marked?)
    && ((s.stopper.StopReleasing? || s.stopper.Joining?) && (s.consumer.Waiting? || s.consumer.Acquired?)
        ==> Markers(s.queue) == 1)
    && (s.stopper.Joined? ==> s.consumer.Done?)
  }

  function Blocks<Block>(queue: seq<Option<nat>>, memory: seq<Block>): seq<Block>
    requires forall k :: 0 <= k < |queue| && queue[k].Some? ==> queue[k].value < |memory|
  {
    if queue == [] then []
    else
      var n := |queue| - 1;
      Blocks(queue[..n], memory) + if queue[n].Some? then [memory[queue[n].value]] else []
  }

  function Flat<Block>(frames: seq<seq<Block>>): seq<Block> {
    if frames == [] then [] else Flat(frames[..|frames| - 1]) + frames[|frames| - 1]
  }

  // Encoded so far, with the unfinished frame.
  function Output<Block>(s: State<Block>): seq<Block> {
    Flat(s.encoded) + s.frame
  }

  function InEncoder<Block>(s: State<Block>): seq<Block>
    requires s.consumer.Holding? ==> s.consumer.b < |s.memory|
  {
    if s.consumer.Holding? then [s.memory[s.consumer.b]] else []
  }

  function InProducer<Block>(s: State<Block>): seq<Block>
    requires s.producer.Filled? ==> s.producer.b < |s.memory|
  {
    if s.producer.Filled? then [s.memory[s.producer.b]] else []
  }

  // Nothing captured is lost, changed or reordered on its way.
  ghost predicate Conveyed<Block>(s: State<Block>)
    requires PlacesAreRight(s) && |s.memory| == BUFFERS
  {
    s.captured == Output(s) + InEncoder(s) + (Blocks(s.queue, s.memory) + InProducer(s))
  }

  ghost predicate Framed<Block>(s: State<Block>, perFrame: nat) {
    && |s.frame| < perFrame
    && forall k :: 0 <= k < |s.encoded| ==> |s.encoded[k]| == perFrame
  }

  ghost predicate Inv<Block>(s: State<Block>, perFrame: nat) {
    && |s.memory| == BUFFERS
    && PlacesAreRight(s) && Counted(s) && Marking(s) && Conveyed(s) && Framed(s, perFrame)
  }

  // ----- the length of the queue -----

  function SumInQueue(queue: seq<Option<nat>>, n: nat): nat {
    if n == 0 then 0 else SumInQueue(queue, n - 1) + InQueue(queue, n - 1)
  }

  lemma {:induction false} SumAppend(queue: seq<Option<nat>>, x: Option<nat>, n: nat)
    ensures SumInQueue(queue + [x], n) == SumInQueue(queue, n) + Bit(x.Some? && x.value < n)
  {
    if n > 0 {
      SumAppend(queue, x, n - 1);
      assert (queue + [x])[..|queue|] == queue;
    }
  }

  lemma {:induction false} LengthIs(queue: seq<Option<nat>>)
    requires forall k :: 0 <= k < |queue| && queue[k].Some? ==> queue[k].value < BUFFERS
    ensures |queue| == SumInQueue(queue, BUFFERS) + Markers(queue)
  {
    if queue == [] {
      SumEmpty(BUFFERS);
    } else {
      var n := |queue| - 1;
      LengthIs(queue[..n]);
      SumAppend(queue[..n], queue[n], BUFFERS);
      assert queue == queue[..n] + [queue[n]];
    }
  }

  lemma {:induction false} SumEmpty(n: nat)
    ensures SumInQueue([], n) == 0
  {
    if n > 0 { SumEmpty(n - 1); }
  }

  lemma {:induction false} SumBound(queue: seq<Option<nat>>, n: nat, out: nat)
    requires forall b: nat :: b < n ==> InQueue(queue, b) <= Bit(b != out)
    ensures SumInQueue(queue, n) <= if out < n then n - 1 else n
  {
    if n > 0 { SumBound(queue, n - 1, out); }
  }

  // A producer or stopper that is about to push finds room.
  lemma PushFits<Block>(s: State<Block>, perFrame: nat)
    requires Inv(s, perFrame)
    ensures s.producer.Filled? ==> |s.queue| + 1 <= CAPACITY
    ensures s.stopper.Marked? ==> |s.queue| + 1 <= CAPACITY
    ensures |s.queue| <= CAPACITY
  {
    LengthIs(s.queue);
    var out := if s.producer.Filled? then s.producer.b else BUFFERS;
    forall b: nat | b < BUFFERS ensures InQueue(s.queue, b) <= Bit(b != out) {
      assert Places(s, b) == 1;
    }
    SumBound(s.queue, BUFFERS, out);
  }

  // No enabled action aborts or reads outside the queue, the pool or the frame.
  lemma NothingFails<Block>(s: State<Block>, a: Action<Block>, perFrame: nat)
    requires Inv(s, perFrame) && Enabled(s, a)
    ensures !Fails(s, a, perFrame)
  {
    PushFits(s, perFrame);
    hide Conveyed;
  }

  // ----- the queue at both ends -----

  lemma InQueueAppend(queue: seq<Option<nat>>, x: Option<nat>, b: nat)
    ensures InQueue(queue + [x], b) == InQueue(queue, b) + Bit(x == Some(b))
    ensures Markers(queue + [x]) == Markers(queue) + Bit(x == None)
  {
    assert (queue + [x])[..|queue|] == queue;
  }

  lemma {:induction false} InQueueFront(queue: seq<Option<nat>>, b: nat)
    requires queue != []
    ensures InQueue(queue, b) == Bit(queue[0] == Some(b)) + InQueue(queue[1..], b)
    ensures Markers(queue) == Bit(queue[0] == None) + Markers(queue[1..])
  {
    var n := |queue| - 1;
    if n > 0 {
      InQueueFront(queue[..n], b);
      assert queue[..n][1..] == queue[1..][..n - 1];
    } else {
      assert queue[..0] == [] && queue[1..] == [];
    }
  }

  lemma BlocksAppend<Block>(queue: seq<Option<nat>>, x: Option<nat>, memory: seq<Block>)
    requires forall k :: 0 <= k < |queue| && queue[k].Some? ==> queue[k].value < |memory|
    requires x.Some? ==> x.value < |memory|
    ensures Blocks(queue + [x], memory) == Blocks(queue, memory) + if x.Some? then [memory[x.value]] else []
  {
    assert (queue + [x])[..|queue|] == queue;
  }

  lemma {:induction false} BlocksFront<Block>(queue: seq<Option<nat>>, memory: seq<Block>)
    requires queue != [] && forall k :: 0 <= k < |queue| && queue[k].Some? ==> queue[k].value < |memory|
    ensures Blocks(queue, memory) == (if queue[0].Some? then [memory[queue[0].value]] else []) + Blocks(queue[1..], memory)
  {
    var n := |queue| - 1;
    if n > 0 {
      BlocksFront(queue[..n], memory);
      assert queue[..n][1..] == queue[1..][..n - 1];
    } else {
      assert queue[..0] == [] && queue[1..] == [];
    }
  }

  // Writing into a buffer that is not in the queue leaves what is in it.
  lemma {:induction false} BlocksElsewhere<Block>(queue: seq<Option<nat>>, memory: seq<Block>, b: nat, x: Block)
    requires forall k :: 0 <= k < |queue| && queue[k].Some? ==> queue[k].value < |memory|
    requires b < |memory| && InQueue(queue, b) == 0
    ensures Blocks(queue, memory[b := x]) == Blocks(queue, memory)
  {
    if queue != [] {
      BlocksElsewhere(queue[..|queue| - 1], memory, b, x);
    }
  }

  // ----- each part of the invariant -----

  lemma PlaceInQueueStays<Block>(s: State<Block>, a: Action<Block>, perFrame: nat, b: nat)
    requires Places(s, b) == 1 && Enabled(s, a) && !Fails(s, a, perFrame)
    requires a.Push? || a.PushMarker? || a.Pop?
    ensures Places(Next(s, a, perFrame), b) == 1
  {
    hide InQueue;
    match a
    case Push => InQueueAppend(s.queue, Some(s.producer.b), b);
    case PushMarker => InQueueAppend(s.queue, None, b);
    case Pop => InQueueFront(s.queue, b);
  }

  lemma PlaceStays<Block>(s: State<Block>, a: Action<Block>, perFrame: nat, b: nat)
    requires PlacesAreRight(s) && Enabled(s, a) && !Fails(s, a, perFrame) && b < BUFFERS
    ensures Places(Next(s, a, perFrame), b) == 1
  {
    assert Places(s, b) == 1;
    hide PlacesAreRight, InQueue;
    if a.Push? || a.PushMarker? || a.Pop? {
      hide Places, Next, Enabled, Fails;
      PlaceInQueueStays(s, a, perFrame, b);
    }
  }

  lemma PlacesStay<Block>(s: State<Block>, a: Action<Block>, perFrame: nat)
    requires PlacesAreRight(s) && Enabled(s, a) && !Fails(s, a, perFrame)
    ensures PlacesAreRight(Next(s, a, perFrame))
  {
    hide Places;
    forall b: nat | b < BUFFERS ensures Places(Next(s, a, perFrame), b) == 1 {
      PlaceStays(s, a, perFrame, b);
    }
  }

  lemma CountStays<Block>(s: State<Block>, a: Action<Block>, perFrame: nat)
    requires Counted(s) && Enabled(s, a) && !Fails(s, a, perFrame)
    ensures Counted(Next(s, a, perFrame))
  {
  }

  lemma MarkingStays<Block>(s: State<Block>, a: Action<Block>, perFrame: nat)
    requires Marking(s) && Enabled(s, a) && !Fails(s, a, perFrame)
    ensures Marking(Next(s, a, perFrame))
  {
    hide InQueue, Markers;
    match a
    case Push => InQueueAppend(s.queue, Some(s.producer.b), 0);
    case PushMarker => InQueueAppend(s.queue, None, 0);
    case Pop => InQueueFront(s.queue, 0);
    case _ =>
  }

  lemma FramesStay<Block>(s: State<Block>, a: Action<Block>, perFrame: nat)
    requires Framed(s, perFrame) && Enabled(s, a) && !Fails(s, a, perFrame)
    ensures Framed(Next(s, a, perFrame), perFrame)
  {
  }

  lemma ConveyStays<Block>(s: State<Block>, a: Action<Block>, perFrame: nat)
    requires |s.memory| == BUFFERS && PlacesAreRight(s) && Conveyed(s)
    requires Enabled(s, a) && !Fails(s, a, perFrame) && PlacesAreRight(Next(s, a, perFrame))
    ensures Conveyed(Next(s, a, perFrame))
  {
    hide Blocks, Flat, Places;
    match a
    case CopyBlock(x) => CopyConveys(s, x, perFrame);
    case Push => PushConveys(s, perFrame);
    case PushMarker => BlocksAppend(s.queue, None, s.memory);
    case Pop => PopConveys(s, perFrame);
    case Process => ProcessConveys(s, perFrame);
    case _ =>
  }

  lemma PushConveys<Block>(s: State<Block>, perFrame: nat)
    requires |s.memory| == BUFFERS && PlacesAreRight(s) && Conveyed(s)
    requires Enabled(s, Push) && !Fails(s, Push, perFrame) && PlacesAreRight(Next(s, Push, perFrame))
    ensures Conveyed(Next(s, Push, perFrame))
  {
    var s' := Next(s, Push, perFrame);
    BlocksAppend(s.queue, Some(s.producer.b), s.memory);
    hide Blocks, Flat, Places;
    assert Blocks(s'.queue, s'.memory) + InProducer(s') == Blocks(s.queue, s.memory) + InProducer(s);
  }

  lemma CopyConveys<Block>(s: State<Block>, x: Block, perFrame: nat)
    requires |s.memory| == BUFFERS && PlacesAreRight(s) && Conveyed(s) && s.producer.Filling?
    requires PlacesAreRight(Next(s, CopyBlock(x), perFrame))
    ensures Conveyed(Next(s, CopyBlock(x), perFrame))
  {
    var s' := Next(s, CopyBlock(x), perFrame);
    assert Places(s, s.producer.b) == 1;
    BlocksElsewhere(s.queue, s.memory, s.producer.b, x);
    hide PlacesAreRight, Blocks, Flat;
    var front := Output(s) + InEncoder(s);
    assert Output(s') + InEncoder(s') == front;
    assert front + (Blocks(s.queue, s.memory) + []) + [x] == front + (Blocks(s.queue, s.memory) + [x]);
  }

  lemma PopConveys<Block>(s: State<Block>, perFrame: nat)
    requires |s.memory| == BUFFERS && PlacesAreRight(s) && Conveyed(s)
    requires Enabled(s, Pop) && !Fails(s, Pop, perFrame) && PlacesAreRight(Next(s, Pop, perFrame))
    ensures Conveyed(Next(s, Pop, perFrame))
  {
    var s' := Next(s, Pop, perFrame);
    BlocksFront(s.queue, s.memory);
    hide PlacesAreRight, Blocks, Flat;
    var rest := Blocks(s'.queue, s.memory);
    assert Output(s) + [] + ((InEncoder(s') + rest) + InProducer(s)) == Output(s) + InEncoder(s') + (rest + InProducer(s));
  }

  lemma ProcessConveys<Block>(s: State<Block>, perFrame: nat)
    requires |s.memory| == BUFFERS && PlacesAreRight(s) && Conveyed(s)
    requires Enabled(s, Process) && !Fails(s, Process, perFrame) && PlacesAreRight(Next(s, Process, perFrame))
    ensures Conveyed(Next(s, Process, perFrame))
  {
    hide Blocks, Output, Places, InQueue, Flat;
    var s' := Next(s, Process, perFrame);
    var x := s.memory[s.consumer.b];
    ProcessOutput(s, perFrame);
    assert Output(s) + [x] + (Blocks(s.queue, s.memory) + InProducer(s)) == s.captured;
    assert Output(s') + [] == Output(s');
  }

  lemma ProcessOutput<Block>(s: State<Block>, perFrame: nat)
    requires Enabled(s, Process) && !Fails(s, Process, perFrame)
    ensures Output(Next(s, Process, perFrame)) == Output(s) + [s.memory[s.consumer.b]]
  {
    var x := s.memory[s.consumer.b];
    assert (s.encoded + [s.frame + [x]])[..|s.encoded|] == s.encoded;
    assert Flat(s.encoded) + (s.frame + [x]) == Output(s) + [x];
  }

  lemma StepKeepsInv<Block>(s: State<Block>, a: Action<Block>, perFrame: nat)
    requires Inv(s, perFrame) && Enabled(s, a)
    ensures !Fails(s, a, perFrame) && Inv(Next(s, a, perFrame), perFrame)
  {
    NothingFails(s, a, perFrame);
    PlacesStay(s, a, perFrame);
    CountStays(s, a, perFrame);
    MarkingStays(s, a, perFrame);
    ConveyStays(s, a, perFrame);
    FramesStay(s, a, perFrame);
    hide PlacesAreRight, Counted, Marking, Conveyed, Framed;
  }

  // ----- whole runs -----

  // The states a schedule goes through; None once an action is not enabled or fails.
  function After<Block>(s: State<Block>, run: seq<Action<Block>>, perFrame: nat): Option<State<Block>> {
    if run == [] then Some(s)
    else
      var before, a := After(s, run[..|run| - 1], perFrame), run[|run| - 1];
      if before.Some? && Enabled(before.value, a) && !Fails(before.value, a, perFrame)
      then Some(Next(before.value, a, perFrame)) else None
  }

  // In every interleaving, no step aborts, and the invariant holds.
  lemma {:induction false} RunKeepsInv<Block>(memory: seq<Block>, run: seq<Action<Block>>, perFrame: nat)
    requires |memory| == BUFFERS && perFrame > 0 && After(Start(memory), run, perFrame).Some?
    ensures var s := After(Start(memory), run, perFrame).value;
      Inv(s, perFrame) && forall a :: Enabled(s, a) ==> !Fails(s, a, perFrame)
  {
    var s := After(Start(memory), run, perFrame).value;
    if run == [] {
      forall b: nat | b < BUFFERS ensures Places(s, b) == 1 {}
    } else {
      RunKeepsInv(memory, run[..|run| - 1], perFrame);
      StepKeepsInv(After(Start(memory), run[..|run| - 1], perFrame).value, run[|run| - 1], perFrame);
    }
    hide Inv;
    forall a | Enabled(s, a) ensures !Fails(s, a, perFrame) {
      NothingFails(s, a, perFrame);
    }
  }

  // What is encoded is a prefix of what was captured, in frames of whole blocks.
  lemma EncodedInOrder<Block>(s: State<Block>, perFrame: nat)
    requires Inv(s, perFrame)
    ensures Output(s) <= s.captured
    ensures |Flat(s.encoded)| == perFrame * |s.encoded|
  {
    FlatLength(s.encoded, perFrame);
  }

  lemma {:induction false} FlatLength<Block>(frames: seq<seq<Block>>, perFrame: nat)
    requires forall k :: 0 <= k < |frames| ==> |frames[k]| == perFrame
    ensures |Flat(frames)| == perFrame * |frames|
  {
    if frames != [] {
      var n := |frames| - 1;
      FlatLength(frames[..n], perFrame);
      assert perFrame * (n + 1) == perFrame * n + perFrame;
    }
  }

  // The blocks that the callback was given in a run, when it had a buffer for them.
  function Given<Block>(run: seq<Action<Block>>): seq<Block> {
    if run == [] then []
    else
      var n := |run| - 1;
      Given(run[..n]) + if run[n].CopyBlock? then [run[n].block] else []
  }

  lemma {:induction false} CapturedIsGiven<Block>(memory: seq<Block>, run: seq<Action<Block>>, perFrame: nat)
    requires After(Start(memory), run, perFrame).Some?
    ensures After(Start(memory), run, perFrame).value.captured == Given(run)
  {
    hide Enabled, Fails;
    if run != [] {
      CapturedIsGiven(memory, run[..|run| - 1], perFrame);
    }
  }

  lemma {:induction false} FlatAt<Block>(frames: seq<seq<Block>>, perFrame: nat, k: nat, i: nat)
    requires (forall k :: 0 <= k < |frames| ==> |frames[k]| == perFrame) && k < |frames| && i < perFrame
    ensures perFrame * k + i < |Flat(frames)| && Flat(frames)[perFrame * k + i] == frames[k][i]
  {
    var n := |frames| - 1;
    FlatLength(frames[..n], perFrame);
    if k < n {
      FlatAt(frames[..n], perFrame, k, i);
    }
  }

  lemma FrameIsCaptured<Block>(s: State<Block>, perFrame: nat, k: nat, i: nat)
    requires Output(s) <= s.captured && (forall k :: 0 <= k < |s.encoded| ==> |s.encoded[k]| == perFrame)
    requires k < |s.encoded| && i < perFrame
    ensures perFrame * k + i < |s.captured| && s.encoded[k][i] == s.captured[perFrame * k + i]
  {
    hide Flat;
    FlatAt(s.encoded, perFrame, k, i);
    var at := perFrame * k + i;
    assert Output(s)[at] == Flat(s.encoded)[at];
  }

  lemma NothingIsUnderWay<Block>(s: State<Block>, perFrame: nat)
    requires Inv(s, perFrame) && s.queue == [] && !s.producer.Filled? && !s.consumer.Holding?
    ensures Output(s) == s.captured
  {
    hide Flat, Counted, Marking, Framed, Output, Places;
    assert Blocks(s.queue, s.memory) == [];
  }

  lemma AreFramed<Block>(s: State<Block>, perFrame: nat)
    requires Inv(s, perFrame)
    ensures forall k :: 0 <= k < |s.encoded| ==> |s.encoded[k]| == perFrame
  {
    hide Counted, Marking, Conveyed, PlacesAreRight;
  }

  // In every run, block i of frame k is the block that the callback was given at that place;
  // and when nothing is under way, all it was given is in the frames and the one begun.
  lemma FramesAreWhatWasGiven<Block>(memory: seq<Block>, run: seq<Action<Block>>, perFrame: nat, k: nat, i: nat)
    requires |memory| == BUFFERS && perFrame > 0 && After(Start(memory), run, perFrame).Some?
    ensures var s := After(Start(memory), run, perFrame).value;
      && (k < |s.encoded| && i < perFrame ==>
            |s.encoded[k]| == perFrame && perFrame * k + i < |Given(run)|
            && s.encoded[k][i] == Given(run)[perFrame * k + i])
      && (s.queue == [] && !s.producer.Filled? && !s.consumer.Holding? ==> Flat(s.encoded) + s.frame == Given(run))
  {
    hide After, Given, Flat, Inv, Enabled, Fails;
    var s := After(Start(memory), run, perFrame).value;
    RunKeepsInv(memory, run, perFrame);
    CapturedIsGiven(memory, run, perFrame);
    EncodedInOrder(s, perFrame);
    AreFramed(s, perFrame);
    if k < |s.encoded| && i < perFrame {
      FrameIsCaptured(s, perFrame, k, i);
    }
    if s.queue == [] && !s.producer.Filled? && !s.consumer.Holding? {
      NothingIsUnderWay(s, perFrame);
    }
  }

  // ----- Stop returns -----

  function Rank(c: Consumer): nat {
    match c
    case Waiting => 5
    case Acquired => 4
    case Holding(_) => 3
    case Returning(_) => 2
    case Checking => 1
    case Done => 0
  }

  predicate IsEncoderStep<Block>(a: Action<Block>) {
    a.Check? || a.Acquire? || a.Pop? || a.Process? || a.GiveBack?
  }

  // Once Stop has cleared the flag, the encoder takes at most five more steps.
  lemma EncoderWindsDown<Block>(s: State<Block>, a: Action<Block>, perFrame: nat)
    requires Inv(s, perFrame) && !s.running && Enabled(s, a)
    ensures !Fails(s, a, perFrame) && !Next(s, a, perFrame).running
    ensures var r := Rank(Next(s, a, perFrame).consumer);
      if IsEncoderStep(a) then r < Rank(s.consumer) else r == Rank(s.consumer)
  {
    NothingFails(s, a, perFrame);
    hide PlacesAreRight, Conveyed;
  }

  // While Stop waits for it the encoder is never stuck: it can take a step itself, or the
  // capture callback, which holds the lock, can let go of it.
  lemma JoinIsNotStuck<Block>(s: State<Block>, perFrame: nat)
    requires Inv(s, perFrame) && s.stopper.Joining? && !s.consumer.Done?
    ensures (exists a: Action<Block> :: IsEncoderStep(a) && Enabled(s, a)) || (s.locked && Enabled(s, Release))
  {
    var step: Action<Block> := match s.consumer
      case Waiting => Acquire
      case Acquired => Pop
      case Holding(_) => Process
      case Returning(_) => GiveBack
      case _ => Check;
    MarkersFit(s.queue);
    assert IsEncoderStep(step);
    hide PlacesAreRight, Conveyed;
  }

  lemma {:induction false} MarkersFit(queue: seq<Option<nat>>)
    ensures Markers(queue) <= |queue|
  {
    if queue != [] { MarkersFit(queue[..|queue| - 1]); }
  }

  function EncoderSteps<Block>(run: seq<Action<Block>>): nat {
    if run == [] then 0
    else EncoderSteps(run[..|run| - 1]) + Bit(IsEncoderStep(run[|run| - 1]))
  }

  // In whatever way the other threads go on, the encoder takes at most five steps after Mark.
  lemma {:induction false} EncoderStepsAfterMark<Block>(s: State<Block>, run: seq<Action<Block>>, perFrame: nat)
    requires Inv(s, perFrame) && !s.running && After(s, run, perFrame).Some?
    ensures var s' := After(s, run, perFrame).value;
      Inv(s', perFrame) && !s'.running && EncoderSteps(run) + Rank(s'.consumer) <= Rank(s.consumer) <= 5
  {
    hide Inv, Next, Enabled, Fails;
    if run != [] {
      var prev, a := run[..|run| - 1], run[|run| - 1];
      EncoderStepsAfterMark(s, prev, perFrame);
      var before := After(s, prev, perFrame).value;
      EncoderWindsDown(before, a, perFrame);
      StepKeepsInv(before, a, perFrame);
    }
  }

  lemma RunExtends<Block>(s: State<Block>, run: seq<Action<Block>>, a: Action<Block>, perFrame: nat)
    requires After(s, run, perFrame).Some?
    requires var at := After(s, run, perFrame).value; Enabled(at, a) && !Fails(at, a, perFrame)
    ensures After(s, run + [a], perFrame) == Some(Next(After(s, run, perFrame).value, a, perFrame))
  {
    hide Enabled, Fails, Next;
    assert (run + [a])[..|run|] == run;
  }

  // A step that brings Stop nearer to its return.
  lemma StepTowardsJoin<Block>(s: State<Block>, perFrame: nat) returns (a: Action<Block>)
    requires Inv(s, perFrame) && s.stopper.Joining?
    ensures Enabled(s, a) && !Fails(s, a, perFrame)
    ensures var s' := Next(s, a, perFrame);
      s'.stopper.Joined?
      || (s'.stopper.Joining? && (Rank(s'.consumer) < Rank(s.consumer)
                                  || (s'.consumer == s.consumer && s.locked && !s'.locked)))
  {
    if s.consumer.Done? {
      a := Join;
    } else {
      JoinIsNotStuck(s, perFrame);
      if b: Action<Block> :| IsEncoderStep(b) && Enabled(s, b) {
        a := b;
        EncoderWindsDown(s, a, perFrame);
      } else {
        a := Release;
      }
    }
    NothingFails(s, a, perFrame);
    hide PlacesAreRight, Conveyed;
  }

  // From every state in which Stop waits for the encoder, Stop can return.
  lemma StopReturns<Block>(s: State<Block>, perFrame: nat) returns (run: seq<Action<Block>>)
    requires Inv(s, perFrame) && s.stopper.Joining?
    ensures After(s, run, perFrame).Some? && After(s, run, perFrame).value.stopper.Joined?
  {
    run := StopReturnsFrom(s, [], perFrame);
  }

  lemma {:induction false} StopReturnsFrom<Block>(s: State<Block>, done: seq<Action<Block>>, perFrame: nat)
    returns (run: seq<Action<Block>>)
    requires After(s, done, perFrame).Some?
    requires var at := After(s, done, perFrame).value; Inv(at, perFrame) && at.stopper.Joining?
    ensures After(s, run, perFrame).Some? && After(s, run, perFrame).value.stopper.Joined?
    decreases Rank(After(s, done, perFrame).value.consumer), After(s, done, perFrame).value.locked
  {
    hide Inv, After, Next, Enabled, Fails;
    var at := After(s, done, perFrame).value;
    var a := StepTowardsJoin(at, perFrame);
    RunExtends(s, done, a, perFrame);
    StepKeepsInv(at, a, perFrame);
    if Next(at, a, perFrame).stopper.Joined? {
      run := done + [a];
    } else {
      run := StopReturnsFrom(s, done + [a], perFrame);
    }
  }
}
