// The timer queue of MessageThread, as functions over its steps. The thread holds the lock
// except while it waits, so other threads come in only between batches.
module MessageQueue {
  import opened Numbers
  import opened Options

  // A due time of 0 means at once; an interval above 0 means again and again. The stamp
  // numbers the insertions; nothing but the proofs reads it.
  datatype Message = Message(id: nat, deliverAt: real, interval: real, stamp: nat)

  datatype Firing = Firing(id: nat, due: real, at: real)

  datatype State = State(
    queue: seq<Message>, batch: seq<Message>, current: Option<Message>, cancelCurrent: bool,
    nextId: nat, stamps: nat, clock: real,
    posted: map<nat, Message>, fired: seq<Firing>, cancelled: set<nat>, finished: set<nat>)

  const START := State([], [], None, false, 1, 0, 0.0, map[], [], {}, {})

  datatype Action =
    | Post(own: bool, delay: real, interval: real, now: real)
    | Cancel(own: bool, id: nat)
    | CancelSelf
    | Collect(now: real)
    | Fire(now: real)
    | Finish

  predicate IsIdle(s: State) {
    s.batch == [] && s.current.None?
  }

  // A call comes from a message being delivered, or from another thread between batches.
  predicate Enabled(s: State, a: Action) {
    match a
    case Post(own, delay, _, now) => delay >= 0.0 && now > 0.0 && now >= s.clock && (if own then s.current.Some? else IsIdle(s))
    case Cancel(own, _) => if own then s.current.Some? else IsIdle(s)
    case CancelSelf => s.current.Some?
    case Collect(now) => IsIdle(s) && now > 0.0 && now >= s.clock
    case Fire(now) => s.current.None? && s.batch != [] && now > 0.0 && now >= s.clock
    case Finish => s.current.Some?
  }

  // The first message that is due later than t.
  function Later(q: seq<Message>, t: real): (k: nat)
    ensures k <= |q| && (forall i :: 0 <= i < k ==> q[i].deliverAt <= t) && (k < |q| ==> q[k].deliverAt > t)
  {
    if q == [] || q[0].deliverAt > t then 0 else 1 + Later(q[1..], t)
  }

  function Insert(q: seq<Message>, m: Message): seq<Message> {
    var k := Later(q, m.deliverAt);
    q[..k] + [m] + q[k..]
  }

  predicate IsDue(m: Message, now: real) {
    m.deliverAt == 0.0 || now >= m.deliverAt
  }

  datatype Kind = DueAt(now: real) | NotDueAt(now: real) | NotId(id: nat)

  predicate IsOf(m: Message, w: Kind) {
    match w
    case DueAt(now) => IsDue(m, now)
    case NotDueAt(now) => !IsDue(m, now)
    case NotId(id) => m.id != id
  }

  // The messages of a kind, in their order.
  function Pick(q: seq<Message>, w: Kind): (d: seq<Message>)
    ensures forall m :: m in d <==> m in q && IsOf(m, w)
  {
    if q == [] then []
    else Pick(q[..|q| - 1], w) + if IsOf(q[|q| - 1], w) then [q[|q| - 1]] else []
  }

  // How long Run waits; None is without end.
  function WaitTimeout(q: seq<Message>, now: real): Option<real> {
    if q == [] then None else Some(q[0].deliverAt - now)
  }

  predicate Repeats(m: Message) {
    m.interval > 0.0
  }

  function Started(m: Message, now: real): Message {
    if m.deliverAt == 0.0 then m.(deliverAt := now) else m
  }

  function Next(s: State, a: Action): State
    requires Enabled(s, a)
  {
    match a
    case Post(_, delay, interval, now) =>
      var m := Message(s.nextId, if delay == 0.0 then 0.0 else now + delay, interval, s.stamps);
      s.(queue := Insert(s.queue, m), nextId := s.nextId + 1, stamps := s.stamps + 1, clock := now,
         posted := s.posted[s.nextId := m])
    case Cancel(_, id) =>
      s.(queue := Pick(s.queue, NotId(id)),
         cancelled := if exists m :: m in s.queue && m.id == id then s.cancelled + {id} else s.cancelled)
    case CancelSelf => s.(cancelCurrent := true)
    case Collect(now) => s.(batch := Pick(s.queue, DueAt(now)), queue := Pick(s.queue, NotDueAt(now)), clock := now)
    case Fire(now) =>
      var m := Started(s.batch[0], now);
      s.(batch := s.batch[1..], current := Some(m), cancelCurrent := false, clock := now,
         fired := s.fired + [Firing(m.id, m.deliverAt, now)])
    case Finish =>
      var m := s.current.value;
      if !s.cancelCurrent && Repeats(m) then
        var again := m.(deliverAt := m.deliverAt + m.interval, stamp := s.stamps);
        s.(queue := Insert(s.queue, again), current := None, stamps := s.stamps + 1)
      else s.(current := None, finished := s.finished + {m.id})
  }

  predicate IsOwnCall(a: Action) {
    (a.Post? && a.own) || (a.Cancel? && a.own) || a.CancelSelf?
  }

  // None once an action is not enabled.
  function After(s: State, run: seq<Action>): Option<State> {
    if run == [] then Some(s)
    else
      var before, a := After(s, run[..|run| - 1]), run[|run| - 1];
      if before.Some? && Enabled(before.value, a) then Some(Next(before.value, a)) else None
  }

  // ----- order -----

  // By due time, and in the order of insertion where that is the same.
  predicate Before(a: Message, b: Message) {
    a.deliverAt < b.deliverAt || (a.deliverAt == b.deliverAt && a.stamp < b.stamp)
  }

  ghost predicate IsSorted(q: seq<Message>, stamps: nat) {
    && (forall i, j :: 0 <= i < j < |q| ==> Before(q[i], q[j]))
    && (forall i :: 0 <= i < |q| ==> q[i].stamp < stamps)
  }

  lemma InsertSorted(q: seq<Message>, m: Message, stamps: nat)
    requires IsSorted(q, stamps) && m.stamp == stamps
    ensures IsSorted(Insert(q, m), stamps + 1)
  {
  }

  lemma {:induction false} PickSorted(q: seq<Message>, w: Kind, stamps: nat)
    requires IsSorted(q, stamps)
    ensures IsSorted(Pick(q, w), stamps)
  {
    if q != [] {
      var front := q[..|q| - 1];
      PickSorted(front, w, stamps);
      var d := Pick(front, w);
      forall i | 0 <= i < |d| ensures Before(d[i], q[|q| - 1]) {
        assert d[i] in front;
      }
    }
  }

  // No message is waited for beyond its due time, and what is due when the wait ends is
  // delivered then.
  lemma NeverOversleeps(q: seq<Message>, stamps: nat, now: real, m: Message)
    requires IsSorted(q, stamps) && m in q
    ensures WaitTimeout(q, now).Some? && now + WaitTimeout(q, now).value <= m.deliverAt
    ensures now >= m.deliverAt ==> m in Pick(q, DueAt(now)) && m !in Pick(q, NotDueAt(now))
  {
    var k :| 0 <= k < |q| && q[k] == m;
    assert k > 0 ==> Before(q[0], q[k]);
  }

  // ----- where each message is, and when it fires -----

  function InSeq(q: seq<Message>, id: nat): nat {
    if q == [] then 0 else InSeq(q[..|q| - 1], id) + Bit(q[|q| - 1].id == id)
  }

  function Places(s: State, id: nat): nat {
    InSeq(s.queue, id) + InSeq(s.batch, id) + Bit(s.current.Some? && s.current.value.id == id)
    + Bit(id in s.cancelled) + Bit(id in s.finished)
  }

  lemma {:induction false} InSeqConcat(a: seq<Message>, b: seq<Message>, id: nat)
    ensures InSeq(a + b, id) == InSeq(a, id) + InSeq(b, id)
  {
    if b == [] {
      assert a + b == a;
    } else {
      InSeqConcat(a, b[..|b| - 1], id);
      assert (a + b)[..|a + b| - 1] == a + b[..|b| - 1];
    }
  }

  lemma InSeqInsert(q: seq<Message>, m: Message, id: nat)
    ensures InSeq(Insert(q, m), id) == InSeq(q, id) + Bit(m.id == id)
  {
    var k := Later(q, m.deliverAt);
    assert q == q[..k] + q[k..];
    InSeqConcat(q[..k], q[k..], id);
    InSeqConcat(q[..k], [m], id);
    InSeqConcat(q[..k] + [m], q[k..], id);
    assert [m][..0] == [];
  }

  lemma InSeqLast(q: seq<Message>, m: Message, id: nat)
    ensures InSeq(q + [m], id) == InSeq(q, id) + Bit(m.id == id)
  {
    assert (q + [m])[..|q|] == q;
  }

  lemma {:induction false} InSeqPick(q: seq<Message>, w: Kind, id: nat)
    ensures InSeq(Pick(q, w), id) <= InSeq(q, id)
    ensures w.NotId? ==> InSeq(Pick(q, w), id) == if id == w.id then 0 else InSeq(q, id)
  {
    hide InSeq;
    if q == [] {
      assert Pick(q, w) == q;
      InSeqEmpty(id);
    } else {
      var front, m := q[..|q| - 1], q[|q| - 1];
      InSeqPick(front, w, id);
      InSeqLast(Pick(front, w), m, id);
      InSeqLast(front, m, id);
      assert q == front + [m] && Pick(front, w) + [] == Pick(front, w);
    }
  }

  lemma InSeqEmpty(id: nat)
    ensures InSeq([], id) == 0
  {
  }

  lemma {:induction false} InSeqSplit(q: seq<Message>, now: real, id: nat)
    ensures InSeq(Pick(q, DueAt(now)), id) + InSeq(Pick(q, NotDueAt(now)), id) == InSeq(q, id)
  {
    hide InSeq, IsDue;
    if q == [] {
      InSeqEmpty(id);
      assert Pick(q, DueAt(now)) == [] && Pick(q, NotDueAt(now)) == [];
    } else {
      var front, m := q[..|q| - 1], q[|q| - 1];
      InSeqSplit(front, now, id);
      InSeqLast(Pick(front, DueAt(now)), m, id);
      InSeqLast(Pick(front, NotDueAt(now)), m, id);
      InSeqLast(front, m, id);
      assert q == front + [m];
      assert Pick(front, DueAt(now)) + [] == Pick(front, DueAt(now));
      assert Pick(front, NotDueAt(now)) + [] == Pick(front, NotDueAt(now));
    }
  }

  lemma {:induction false} InSeqIs(q: seq<Message>, id: nat)
    ensures InSeq(q, id) > 0 <==> exists m :: m in q && m.id == id
  {
    if q != [] {
      var n := |q| - 1;
      InSeqIs(q[..n], id);
      if InSeq(q[..n], id) > 0 {
        var m :| m in q[..n] && m.id == id;
        assert m in q;
      }
      if m :| m in q && m.id == id {
        assert m == q[n] || m in q[..n];
      }
    }
  }

  // Each message posted is in one place: queue, batch, being delivered, cancelled or done.
  ghost predicate Placed(s: State) {
    forall id: nat :: Places(s, id) == Bit(1 <= id < s.nextId)
  }

  lemma PlacesStay(s: State, a: Action, id: nat)
    requires Enabled(s, a) && Placed(s) && s.nextId >= 1
    ensures Places(Next(s, a), id) == Bit(1 <= id < Next(s, a).nextId)
  {
    assert Places(s, id) == Bit(1 <= id < s.nextId);
    hide Placed, Places;
    match a
    case Post(_, _, _, _) => PostPlaces(s, a, id);
    case Cancel(_, _) => CancelPlaces(s, a, id);
    case _ => TurnPlaces(s, a, id);
  }

  lemma TurnPlaces(s: State, a: Action, id: nat)
    requires !a.Post? && !a.Cancel? && Enabled(s, a) && Places(s, id) <= 1
    ensures Places(Next(s, a), id) == Places(s, id)
  {
    hide InSeq, Insert, Pick;
    match a
    case Collect(now) =>
      InSeqSplit(s.queue, now, id);
      InSeqEmpty(id);
    case Fire(_) => InSeqFirst(s.batch, id);
    case Finish => FinishPlaces(s, id);
    case CancelSelf =>
  }

  lemma FinishPlaces(s: State, id: nat)
    requires s.current.Some? && Places(s, id) <= 1
    ensures Places(Next(s, Finish), id) == Places(s, id)
  {
    hide InSeq, Insert;
    var m := s.current.value;
    InSeqInsert(s.queue, m.(deliverAt := m.deliverAt + m.interval, stamp := s.stamps), id);
  }

  lemma PostPlaces(s: State, a: Action, id: nat)
    requires a.Post? && Enabled(s, a) && s.nextId >= 1
    ensures Places(Next(s, a), id) == Places(s, id) + Bit(id == s.nextId)
  {
    hide InSeq, Insert;
    InSeqInsert(s.queue, Next(s, a).posted[s.nextId], id);
  }

  lemma CancelPlaces(s: State, a: Action, id: nat)
    requires a.Cancel? && Enabled(s, a) && Places(s, id) <= 1
    ensures Places(Next(s, a), id) == Places(s, id)
  {
    hide InSeq, Pick;
    InSeqPick(s.queue, NotId(a.id), id);
    InSeqIs(s.queue, a.id);
  }

  lemma InSeqFirst(q: seq<Message>, id: nat)
    requires q != []
    ensures InSeq(q, id) == Bit(q[0].id == id) + InSeq(q[1..], id)
  {
    assert q == [q[0]] + q[1..] && [q[0]][..0] == [];
    InSeqConcat([q[0]], q[1..], id);
  }

  // ----- due times -----

  // The due times at which a message fired.
  function Dues(fired: seq<Firing>, id: nat): seq<real> {
    if fired == [] then []
    else
      var n := |fired| - 1;
      Dues(fired[..n], id) + if fired[n].id == id then [fired[n].due] else []
  }

  // The k-th due time of a message first due at `first`.
  function Nth(first: real, interval: real, k: nat): real {
    if k == 0 then first else Nth(first, interval, k - 1) + interval
  }

  lemma {:induction false} NthIs(first: real, interval: real, k: nat)
    ensures Nth(first, interval, k) == first + k as real * interval
  {
    if k > 0 {
      NthIs(first, interval, k - 1);
      assert (k - 1) as real * interval + interval == k as real * interval;
    }
  }

  ghost predicate EntryOk(s: State, m: Message) {
    && m.id in s.posted && m.interval == s.posted[m.id].interval && m.deliverAt >= 0.0
    && var d := Dues(s.fired, m.id);
       if d == [] then m.deliverAt == s.posted[m.id].deliverAt
       else m.deliverAt == Nth(d[0], m.interval, |d|) && m.deliverAt > 0.0
  }

  ghost predicate CurrentOk(s: State) {
    s.current.Some? ==>
      var m := s.current.value;
      && m.id in s.posted && m.interval == s.posted[m.id].interval && m.deliverAt > 0.0
      && var d := Dues(s.fired, m.id);
         d != [] && m.deliverAt == Nth(d[0], m.interval, |d| - 1)
  }

  // Firing k is due k intervals after the first, which is due when the post said; and
  // without an interval there is at most one.
  ghost predicate FiringsOk(s: State, id: nat)
    requires id in s.posted
  {
    var d, p := Dues(s.fired, id), s.posted[id];
    && (forall k :: 0 <= k < |d| ==> d[k] == Nth(d[0], p.interval, k))
    && (d != [] && p.deliverAt != 0.0 ==> d[0] == p.deliverAt)
    && (!Repeats(p) ==> |d| == Bit(s.current.Some? && s.current.value.id == id) + Bit(id in s.finished))
  }

  ghost predicate EntriesOk(s: State) {
    forall m :: m in s.queue || m in s.batch ==> EntryOk(s, m)
  }

  ghost predicate Timely(s: State) {
    && (forall id: nat :: id in s.posted <==> 1 <= id < s.nextId)
    && EntriesOk(s) && CurrentOk(s)
    && (forall id :: id in s.posted ==> FiringsOk(s, id))
    && (forall m :: m in s.batch ==> IsDue(m, s.clock))
    && (forall f :: f in s.fired ==> f.due <= f.at <= s.clock && 1 <= f.id < s.nextId)
  }

  ghost predicate Inv(s: State) {
    && s.nextId >= 1 && IsSorted(s.queue, s.stamps) && Placed(s) && Timely(s)
  }

  lemma DuesLast(fired: seq<Firing>, f: Firing, id: nat)
    ensures Dues(fired + [f], id) == Dues(fired, id) + if f.id == id then [f.due] else []
  {
    assert (fired + [f])[..|fired|] == fired;
  }

  lemma {:induction false} DuesNone(fired: seq<Firing>, id: nat)
    requires forall f :: f in fired ==> f.id != id
    ensures Dues(fired, id) == []
  {
    if fired != [] { DuesNone(fired[..|fired| - 1], id); }
  }

  lemma InInsert(q: seq<Message>, m: Message, x: Message)
    ensures x in Insert(q, m) <==> x in q || x == m
  {
    var k := Later(q, m.deliverAt);
    assert q == q[..k] + q[k..];
  }

  lemma PostEntries(s: State, a: Action)
    requires a.Post? && Enabled(s, a) && s.nextId >= 1 && Timely(s)
    ensures EntriesOk(Next(s, a)) && CurrentOk(Next(s, a))
  {
    hide Dues, Insert;
    var s', id := Next(s, a), s.nextId;
    DuesNone(s.fired, id);
    forall x | x in s'.queue || x in s'.batch ensures EntryOk(s', x) {
      InInsert(s.queue, s'.posted[id], x);
      assert x == s'.posted[id] || EntryOk(s, x);
    }
  }

  lemma PostFirings(s: State, a: Action, id: nat)
    requires a.Post? && Enabled(s, a) && s.nextId >= 1 && Placed(s) && Timely(s) && id in Next(s, a).posted
    ensures FiringsOk(Next(s, a), id)
  {
    assert Places(s, s.nextId) == 0;
    hide Insert, InSeq, Placed, EntriesOk, CurrentOk;
    if id == s.nextId {
      DuesNone(s.fired, id);
    } else {
      assert FiringsOk(s, id);
    }
  }

  lemma PostTimely(s: State, a: Action)
    requires a.Post? && Enabled(s, a) && s.nextId >= 1 && Placed(s) && Timely(s)
    ensures Timely(Next(s, a))
  {
    hide EntriesOk, CurrentOk, FiringsOk, Placed, Insert;
    PostEntries(s, a);
    forall id | id in Next(s, a).posted ensures FiringsOk(Next(s, a), id) {
      PostFirings(s, a, id);
    }
  }

  lemma CollectTimely(s: State, a: Action)
    requires a.Collect? && Enabled(s, a) && Timely(s)
    ensures Timely(Next(s, a))
  {
    var s' := Next(s, a);
    hide Dues;
    assert forall x :: EntryOk(s, x) ==> EntryOk(s', x);
    assert forall k :: k in s.posted ==> FiringsOk(s, k) && FiringsOk(s', k);
  }

  lemma CancelTimely(s: State, a: Action)
    requires (a.Cancel? || a.CancelSelf?) && Enabled(s, a) && Timely(s)
    ensures Timely(Next(s, a))
  {
    var s' := Next(s, a);
    hide Dues;
    assert forall x :: EntryOk(s, x) ==> EntryOk(s', x);
    assert forall k :: k in s.posted ==> FiringsOk(s, k) && FiringsOk(s', k);
  }

  // The message that fires was in the batch only, so that it is neither current nor done.
  lemma FiresAlone(s: State, m: Message)
    requires s.batch != [] && s.batch[0] == m && Placed(s)
    ensures m.id !in s.finished && m.id !in s.cancelled
    ensures forall x :: x in s.queue || x in s.batch[1..] ==> x.id != m.id
  {
    assert Places(s, m.id) <= 1;
    InSeqFirst(s.batch, m.id);
    InSeqIs(s.queue, m.id);
    InSeqIs(s.batch[1..], m.id);
  }

  lemma FireFirings(s: State, a: Action, id: nat)
    requires a.Fire? && Enabled(s, a) && Placed(s) && Timely(s) && id in s.posted
    ensures FiringsOk(Next(s, a), id)
  {
    var s', m := Next(s, a), s.batch[0];
    FiresAlone(s, m);
    DuesLast(s.fired, s'.fired[|s.fired|], id);
    assert EntryOk(s, m) && FiringsOk(s, id);
    hide Dues, Placed;
  }

  lemma FireEntries(s: State, a: Action)
    requires a.Fire? && Enabled(s, a) && Placed(s) && Timely(s)
    ensures EntriesOk(Next(s, a)) && CurrentOk(Next(s, a))
  {
    var s', m := Next(s, a), s.batch[0];
    FiresAlone(s, m);
    hide Dues, Placed, FiringsOk;
    assert EntryOk(s, m);
    DuesLast(s.fired, s'.fired[|s.fired|], m.id);
    forall x | x in s'.queue || x in s'.batch ensures EntryOk(s', x) {
      assert EntryOk(s, x);
      DuesLast(s.fired, s'.fired[|s.fired|], x.id);
    }
  }

  lemma HeadIsPosted(s: State)
    requires s.batch != [] && Timely(s)
    ensures s.batch[0].id in s.posted && 1 <= s.batch[0].id < s.nextId && IsDue(s.batch[0], s.clock)
  {
    hide FiringsOk, CurrentOk, Dues;
    assert EntryOk(s, s.batch[0]);
  }

  lemma FireTimely(s: State, a: Action)
    requires a.Fire? && Enabled(s, a) && Placed(s) && Timely(s)
    ensures Timely(Next(s, a))
  {
    hide EntriesOk, CurrentOk, FiringsOk, Placed, EntryOk;
    var s' := Next(s, a);
    HeadIsPosted(s);
    FireEntries(s, a);
    forall id | id in s.posted ensures FiringsOk(s', id) {
      FireFirings(s, a, id);
    }
    forall x | x in s'.batch ensures IsDue(x, s'.clock) {
      assert x in s.batch;
    }
    forall f | f in s'.fired ensures f.due <= f.at <= s'.clock && 1 <= f.id < s'.nextId {
      assert f in s.fired || f == s'.fired[|s.fired|];
    }
  }

  lemma FinishFirings(s: State, a: Action, id: nat)
    requires a.Finish? && Enabled(s, a) && Placed(s) && CurrentOk(s) && id in s.posted && FiringsOk(s, id)
    ensures FiringsOk(Next(s, a), id)
  {
    hide Dues, Insert, InSeq;
    assert Places(s, id) <= 1;
    hide Placed;
    var s' := Next(s, a);
    assert s'.fired == s.fired && s'.posted == s.posted && s'.current.None?;
    assert id in s'.finished ==> id in s.finished || id == s.current.value.id;
  }

  lemma FinishEntries(s: State, a: Action)
    requires a.Finish? && Enabled(s, a) && CurrentOk(s) && EntriesOk(s)
    ensures EntriesOk(Next(s, a))
  {
    var s', m := Next(s, a), s.current.value;
    var again := m.(deliverAt := m.deliverAt + m.interval, stamp := s.stamps);
    hide Dues, Insert;
    forall x | x in s'.queue || x in s'.batch ensures EntryOk(s', x) {
      InInsert(s.queue, again, x);
      assert x != again ==> EntryOk(s, x);
    }
  }

  lemma FinishTimely(s: State, a: Action)
    requires a.Finish? && Enabled(s, a) && Placed(s) && Timely(s)
    ensures Timely(Next(s, a))
  {
    hide EntriesOk, FiringsOk, Placed, Insert, Dues;
    FinishEntries(s, a);
    forall id | id in s.posted ensures FiringsOk(Next(s, a), id) {
      FinishFirings(s, a, id);
    }
  }

  lemma StepKeepsInv(s: State, a: Action)
    requires Inv(s) && Enabled(s, a)
    ensures Inv(Next(s, a))
  {
    forall id: nat ensures Places(Next(s, a), id) == Bit(1 <= id < Next(s, a).nextId) {
      PlacesStay(s, a, id);
    }
    hide Places, Timely, IsSorted, Insert, Pick;
    SortedStays(s, a);
    match a
    case Post(_, _, _, _) => PostTimely(s, a);
    case Cancel(_, _) => CancelTimely(s, a);
    case CancelSelf => CancelTimely(s, a);
    case Collect(_) => CollectTimely(s, a);
    case Fire(_) => FireTimely(s, a);
    case Finish => FinishTimely(s, a);
  }

  lemma SortedStays(s: State, a: Action)
    requires IsSorted(s.queue, s.stamps) && Enabled(s, a)
    ensures IsSorted(Next(s, a).queue, Next(s, a).stamps)
  {
    hide IsSorted, Insert, Pick;
    match a
    case Post(_, _, _, _) => InsertSorted(s.queue, Next(s, a).posted[s.nextId], s.stamps);
    case Cancel(_, id) => PickSorted(s.queue, NotId(id), s.stamps);
    case Collect(now) => PickSorted(s.queue, NotDueAt(now), s.stamps);
    case Finish =>
      var m := s.current.value;
      InsertSorted(s.queue, m.(deliverAt := m.deliverAt + m.interval, stamp := s.stamps), s.stamps);
    case _ =>
  }

  lemma {:induction false} RunKeepsInv(run: seq<Action>)
    requires After(START, run).Some?
    ensures Inv(After(START, run).value)
  {
    if run == [] {
      forall id: nat ensures Places(START, id) == 0 {}
    } else {
      RunKeepsInv(run[..|run| - 1]);
      StepKeepsInv(After(START, run[..|run| - 1]).value, run[|run| - 1]);
    }
  }

  // ----- what follows for the poster of a message -----

  lemma FiredIsPosted(s: State, id: nat)
    requires Inv(s) && Dues(s.fired, id) != []
    ensures id in s.posted && FiringsOk(s, id)
  {
    if forall f :: f in s.fired ==> f.id != id {
      DuesNone(s.fired, id);
    }
    hide Dues, Placed, EntriesOk, IsSorted, CurrentOk, FiringsOk;
  }

  // Firing k is due at the first time plus k intervals, and no firing comes before it is due.
  lemma FiringTimes(s: State, id: nat, k: nat)
    requires Inv(s) && k < |Dues(s.fired, id)|
    ensures id in s.posted
    ensures Dues(s.fired, id)[k] == Dues(s.fired, id)[0] + k as real * s.posted[id].interval
    ensures s.posted[id].deliverAt != 0.0 ==> Dues(s.fired, id)[0] == s.posted[id].deliverAt
    ensures forall f :: f in s.fired ==> f.due <= f.at
  {
    hide Dues, Placed, EntriesOk, IsSorted, CurrentOk, Nth;
    FiredIsPosted(s, id);
    var d, interval := Dues(s.fired, id), s.posted[id].interval;
    assert d[k] == Nth(d[0], interval, k);
    NthIs(d[0], interval, k);
    assert forall f :: f in s.fired ==> f.due <= f.at;
    hide Inv, FiringsOk;
  }

  // How many messages a run posts; the next one gets the number behind.
  function Posts(run: seq<Action>): nat {
    if run == [] then 0 else Posts(run[..|run| - 1]) + Bit(run[|run| - 1].Post?)
  }

  lemma {:induction false} IdsCount(run: seq<Action>)
    requires After(START, run).Some?
    ensures After(START, run).value.nextId == 1 + Posts(run)
  {
    hide Insert, Pick;
    if run != [] {
      IdsCount(run[..|run| - 1]);
    }
  }

  // What was posted under an id is not changed.
  lemma {:induction false} PostStays(run: seq<Action>, k: nat)
    requires After(START, run).Some? && k < |run| && run[k].Post?
    ensures var id, p, s := 1 + Posts(run[..k]), run[k], After(START, run).value;
      && id in s.posted && id < s.nextId && s.posted[id].interval == p.interval
      && s.posted[id].deliverAt == (if p.delay == 0.0 then 0.0 else p.now + p.delay)
    decreases |run|
  {
    hide Insert, Pick;
    var n := |run| - 1;
    if k < n {
      assert run[..n][..k] == run[..k];
      PostStays(run[..n], k);
    } else {
      IdsCount(run[..n]);
    }
  }

  // The first firing of a message.
  function FirstFired(fired: seq<Firing>, id: nat): Option<Firing> {
    if fired == [] then None
    else
      var n := |fired| - 1;
      var first := FirstFired(fired[..n], id);
      if first.None? && fired[n].id == id then Some(fired[n]) else first
  }

  lemma {:induction false} FirstFiredIs(fired: seq<Firing>, id: nat)
    ensures FirstFired(fired, id).Some? <==> Dues(fired, id) != []
    ensures FirstFired(fired, id).Some? ==> FirstFired(fired, id).value.due == Dues(fired, id)[0]
  {
    if fired != [] {
      FirstFiredIs(fired[..|fired| - 1], id);
    }
  }

  lemma FirstFiredLast(fired: seq<Firing>, f: Firing, id: nat)
    ensures FirstFired(fired + [f], id)
      == if FirstFired(fired, id).None? && f.id == id then Some(f) else FirstFired(fired, id)
  {
    assert (fired + [f])[..|fired|] == fired;
  }

  // Posted to run at once, a message is due when it is started.
  ghost predicate AtOnce(s: State, id: nat) {
    id in s.posted && s.posted[id].deliverAt == 0.0 && FirstFired(s.fired, id).Some? ==>
      var f := FirstFired(s.fired, id).value; f.due == f.at
  }

  lemma AtOnceStays(s: State, a: Action, id: nat)
    requires Inv(s) && Enabled(s, a) && AtOnce(s, id)
    ensures AtOnce(Next(s, a), id)
  {
    hide Placed, IsSorted, CurrentOk, FiringsOk, Dues, Insert, Pick, FirstFired;
    if a.Fire? {
      HeadIsPosted(s);
      assert EntryOk(s, s.batch[0]);
      FirstFiredIs(s.fired, id);
      FirstFiredLast(s.fired, Next(s, a).fired[|s.fired|], id);
    } else if a.Post? && id == s.nextId {
      assert forall f :: f in s.fired ==> f.id != id;
      DuesNone(s.fired, id);
      FirstFiredIs(s.fired, id);
    }
  }

  lemma {:induction false} StartsAtOnce(run: seq<Action>, id: nat)
    requires After(START, run).Some?
    ensures AtOnce(After(START, run).value, id)
  {
    hide AtOnce, Enabled, Inv, Next;
    if run == [] {
      NothingPosted(id);
    } else {
      StartsAtOnce(run[..|run| - 1], id);
      RunKeepsInv(run[..|run| - 1]);
      AtOnceStays(After(START, run[..|run| - 1]).value, run[|run| - 1], id);
    }
  }

  lemma NothingPosted(id: nat)
    ensures AtOnce(START, id)
  {
  }

  // A message posted in a run is first due the delay after it was posted, or when it is started
  // if there is no delay, and then again after each interval; without an interval just once.
  lemma PostFiresOnTime(run: seq<Action>, k: nat, n: nat)
    requires After(START, run).Some? && k < |run| && run[k].Post?
    requires n < |Dues(After(START, run).value.fired, 1 + Posts(run[..k]))|
    ensures var id, p, fired := 1 + Posts(run[..k]), run[k], After(START, run).value.fired;
      && FirstFired(fired, id).Some?
      && Dues(fired, id)[n]
           == (if p.delay != 0.0 then p.now + p.delay else FirstFired(fired, id).value.at) + n as real * p.interval
      && (p.interval <= 0.0 ==> n == 0)
  {
    hide After, Dues, Inv, Posts, FirstFired;
    var id, p, s := 1 + Posts(run[..k]), run[k], After(START, run).value;
    RunKeepsInv(run);
    PostStays(run, k);
    FiringTimes(s, id, n);
    FirstFiredIs(s.fired, id);
    StartsAtOnce(run, id);
    assert p.now > 0.0 && p.delay >= 0.0 by { WasEnabled(run, k); }
    if p.interval <= 0.0 { OneShotFiresOnce(s, id); }
  }

  lemma {:induction false} WasEnabled(run: seq<Action>, k: nat)
    requires After(START, run).Some? && k < |run|
    ensures After(START, run[..k]).Some? && Enabled(After(START, run[..k]).value, run[k])
    decreases |run|
  {
    hide Enabled, Next;
    var n := |run| - 1;
    if k < n {
      assert run[..n][..k] == run[..k];
      WasEnabled(run[..n], k);
    }
  }

  // A message without an interval fires once, in one batch, unless it is cancelled first.
  lemma OneShotFiresOnce(s: State, id: nat)
    requires Inv(s) && id in s.posted && !Repeats(s.posted[id])
    ensures |Dues(s.fired, id)| <= 1
    ensures Dues(s.fired, id) == [] <==>
      id in s.cancelled || (exists m :: (m in s.queue || m in s.batch) && m.id == id)
  {
    assert FiringsOk(s, id) && Places(s, id) == 1;
    InSeqIs(s.queue, id);
    InSeqIs(s.batch, id);
  }

  // Nothing of the message is left to fire.
  ghost predicate Stopped(s: State, id: nat) {
    && (forall m :: m in s.queue || m in s.batch ==> m.id != id)
    && (s.current.Some? && s.current.value.id == id ==> s.cancelCurrent || !Repeats(s.current.value))
  }

  lemma StoppedStays(s: State, a: Action, id: nat)
    requires Enabled(s, a) && Stopped(s, id) && id < s.nextId
    ensures Stopped(Next(s, a), id) && Dues(Next(s, a).fired, id) == Dues(s.fired, id)
  {
    var s' := Next(s, a);
    match a
    case Post(_, _, _, _) =>
      forall x | x in s'.queue ensures x.id != id { InInsert(s.queue, s'.posted[s.nextId], x); }
    case Finish =>
      var m := s.current.value;
      var again := m.(deliverAt := m.deliverAt + m.interval, stamp := s.stamps);
      forall x ensures x in Insert(s.queue, again) <==> x in s.queue || x == again {
        InInsert(s.queue, again, x);
      }
      hide Insert, Dues;
    case Fire(_) => DuesLast(s.fired, s'.fired[|s.fired|], id);
    case _ =>
  }

  lemma {:induction false} StoppedForGood(s: State, run: seq<Action>, id: nat)
    requires After(s, run).Some? && Stopped(s, id) && id < s.nextId
    ensures var s' := After(s, run).value;
      Stopped(s', id) && id < s'.nextId && Dues(s'.fired, id) == Dues(s.fired, id)
  {
    if run != [] {
      StoppedForGood(s, run[..|run| - 1], id);
      StoppedStays(After(s, run[..|run| - 1]).value, run[|run| - 1], id);
    }
  }

  // Cancelled from another thread, a message never fires again.
  lemma CancelFromOutside(s: State, id: nat, run: seq<Action>)
    requires Enabled(s, Cancel(false, id)) && id < s.nextId && After(Next(s, Cancel(false, id)), run).Some?
    ensures Dues(After(Next(s, Cancel(false, id)), run).value.fired, id) == Dues(s.fired, id)
  {
    StoppedForGood(Next(s, Cancel(false, id)), run, id);
  }

  // Cancelled by a message that is being delivered, it never fires again just if it is
  // neither waiting in the batch nor the one being delivered and about to be repeated.
  lemma CancelFromInside(s: State, id: nat)
    requires Inv(s) && Enabled(s, Cancel(true, id)) && 1 <= id < s.nextId
    ensures (forall run :: After(Next(s, Cancel(true, id)), run).Some? ==>
               Dues(After(Next(s, Cancel(true, id)), run).value.fired, id) == Dues(s.fired, id))
      <==> (forall m :: m in s.batch ==> m.id != id)
           && (s.current.value.id == id ==> s.cancelCurrent || !Repeats(s.current.value))
  {
    var s1 := Next(s, Cancel(true, id));
    if Stopped(s1, id) {
      forall run | After(s1, run).Some? ensures Dues(After(s1, run).value.fired, id) == Dues(s.fired, id) {
        StoppedForGood(s1, run, id);
      }
    } else {
      StepKeepsInv(s, Cancel(true, id));
      var run := FiresAgain(s1, id);
      assert |Dues(After(s1, run).value.fired, id)| > |Dues(s.fired, id)|;
    }
  }

  lemma RunExtends(s: State, run: seq<Action>, a: Action)
    requires After(s, run).Some? && Enabled(After(s, run).value, a)
    ensures After(s, run + [a]) == Some(Next(After(s, run).value, a))
  {
    hide Enabled, Next;
    assert (run + [a])[..|run|] == run;
  }

  // A message that repeats every second and cancels itself fires again.
  lemma CancelledFiresAgain() returns (before: seq<Action>, after: seq<Action>)
    ensures After(START, before).Some? && Enabled(After(START, before).value, Cancel(true, 1))
    ensures var s := After(START, before).value;
      && Dues(s.fired, 1) == [2.0]
      && After(Next(s, Cancel(true, 1)), after).Some?
      && Dues(After(Next(s, Cancel(true, 1)), after).value.fired, 1) == [2.0, 3.0]
  {
    hide After, Dues;
    before := FirstFiring();
    after := SecondFiring(After(START, before).value);
    DuesLast([], Firing(1, 2.0, 2.0), 1);
    DuesLast([Firing(1, 2.0, 2.0)], Firing(1, 3.0, 3.0), 1);
    DuesNone([], 1);
    assert [] + [Firing(1, 2.0, 2.0)] == [Firing(1, 2.0, 2.0)] && [] + [2.0] == [2.0];
  }

  // The message is being delivered for the first time.
  predicate DeliversFirst(s: State) {
    && s.queue == [] && s.batch == [] && s.current == Some(Message(1, 2.0, 1.0, 0)) && !s.cancelCurrent
    && s.fired == [Firing(1, 2.0, 2.0)] && s.clock == 2.0 && s.stamps == 1
  }

  lemma FirstFiring() returns (run: seq<Action>)
    ensures After(START, run).Some? && DeliversFirst(After(START, run).value)
  {
    hide After;
    var m := Message(1, 2.0, 1.0, 0);
    AfterNothing(START);
    RunExtends(START, [], Post(false, 1.0, 1.0, 1.0));
    run := [] + [Post(false, 1.0, 1.0, 1.0)];
    var s1 := Next(START, Post(false, 1.0, 1.0, 1.0));
    assert s1.queue == [m];
    RunExtends(START, run, Collect(2.0));
    run := run + [Collect(2.0)];
    var s2 := Next(s1, Collect(2.0));
    PickOne(m, DueAt(2.0));
    PickOne(m, NotDueAt(2.0));
    hide Pick, Insert;
    assert s2.batch == [m];
    RunExtends(START, run, Fire(2.0));
    run := run + [Fire(2.0)];
  }

  lemma SecondFiring(s: State) returns (run: seq<Action>)
    requires DeliversFirst(s)
    ensures var s1 := Next(s, Cancel(true, 1));
      && After(s1, run).Some?
      && After(s1, run).value.fired == [Firing(1, 2.0, 2.0)] + [Firing(1, 3.0, 3.0)]
  {
    hide After;
    var s1 := Next(s, Cancel(true, 1));
    var again := Message(1, 3.0, 1.0, 1);
    assert s1.queue == [];
    AfterNothing(s1);
    RunExtends(s1, [], Finish);
    run := [] + [Finish];
    var s2 := Next(s1, Finish);
    assert s2.queue == [again];
    hide Insert;
    RunExtends(s1, run, Collect(3.0));
    run := run + [Collect(3.0)];
    var s3 := Next(s2, Collect(3.0));
    PickOne(again, DueAt(3.0));
    hide Pick;
    assert s3.batch == [again];
    RunExtends(s1, run, Fire(3.0));
    run := run + [Fire(3.0)];
  }

  lemma AfterNothing(s: State)
    ensures After(s, []) == Some(s)
  {
  }

  lemma PickOne(m: Message, w: Kind)
    ensures Pick([m], w) == if IsOf(m, w) then [m] else []
  {
    assert [m][..0] == [];
  }

  predicate InBatch(s: State, id: nat) {
    exists m :: m in s.batch && m.id == id
  }

  // Otherwise it can fire again.
  lemma {:induction false} FiresAgain(s: State, id: nat) returns (run: seq<Action>)
    requires Inv(s) && !Stopped(s, id)
    ensures After(s, run).Some? && |Dues(After(s, run).value.fired, id)| > |Dues(s.fired, id)|
    decreases !InBatch(s, id), |s.batch|, s.current.Some?
  {
    var a := Step(s, id);
    StepTowards(s, id);
    StepKeepsInv(s, a);
    var s1 := Next(s, a);
    if |Dues(s1.fired, id)| > |Dues(s.fired, id)| {
      run := [a];
      assert run[..0] == [];
    } else {
      hide Inv, Stopped, Enabled, Dues, InBatch, Next, Step;
      var rest := FiresAgain(s1, id);
      run := [a] + rest;
      AfterFirst(s, a, rest);
    }
  }

  // Finish what runs, fire what was collected, and collect again once it is due.
  ghost function Step(s: State, id: nat): Action {
    var now := if s.clock > 1.0 then s.clock else 1.0;
    if s.current.Some? then Finish
    else if s.batch != [] then Fire(now)
    else if m :| m in s.queue && m.id == id then Collect(if m.deliverAt > now then m.deliverAt else now)
    else Collect(now)
  }

  lemma StepTowards(s: State, id: nat)
    requires Inv(s) && !Stopped(s, id)
    ensures Enabled(s, Step(s, id))
    ensures var s1 := Next(s, Step(s, id));
      || |Dues(s1.fired, id)| > |Dues(s.fired, id)|
      || (&& !Stopped(s1, id) && Dues(s1.fired, id) == Dues(s.fired, id)
          && (!InBatch(s1, id) ==> !InBatch(s, id))
          && (InBatch(s1, id) == InBatch(s, id) ==>
                |s1.batch| < |s.batch| || (|s1.batch| == |s.batch| && s.current.Some? && s1.current.None?)))
  {
  }

  lemma {:induction false} AfterPrefix(s: State, run: seq<Action>, k: nat)
    requires After(s, run).Some? && k <= |run|
    ensures After(s, run[..k]).Some?
    decreases |run|
  {
    if k == |run| {
      assert run[..k] == run;
    } else {
      assert run[..|run| - 1][..k] == run[..k];
      AfterPrefix(s, run[..|run| - 1], k);
    }
  }

  lemma {:induction false} AfterFirst(s: State, a: Action, run: seq<Action>)
    requires Enabled(s, a)
    ensures After(s, [a] + run) == After(Next(s, a), run)
  {
    hide Enabled, Next;
    if run == [] {
      assert ([a] + run)[..0] == [] && [a] + run == [a];
    } else {
      AfterFirst(s, a, run[..|run| - 1]);
      assert ([a] + run)[..|run|] == [a] + run[..|run| - 1];
    }
  }

  // ----- one round of the thread -----

  // The time at which a message of the batch is delivered, and what it asks of the thread.
  datatype Turn = Turn(now: real, calls: seq<Action>)

  predicate IsOwn(t: Turn) {
    forall k :: 0 <= k < |t.calls| ==> IsOwnCall(t.calls[k])
  }

  function TurnOf(t: Turn): seq<Action> {
    [Fire(t.now)] + t.calls + [Finish]
  }

  // Collecting, and then one turn for each message of the batch.
  function RoundOf(now: real, turns: seq<Turn>): seq<Action> {
    if turns == [] then [Collect(now)] else RoundOf(now, turns[..|turns| - 1]) + TurnOf(turns[|turns| - 1])
  }

  lemma {:induction false} RoundPrefix(now: real, turns: seq<Turn>, k: nat)
    requires k <= |turns|
    ensures RoundOf(now, turns[..k]) <= RoundOf(now, turns)
  {
    if k < |turns| {
      assert turns[..|turns| - 1][..k] == turns[..k];
      RoundPrefix(now, turns[..|turns| - 1], k);
    } else {
      assert turns[..k] == turns;
    }
  }

  lemma {:induction false} AfterBoth(s: State, a: seq<Action>, b: seq<Action>)
    requires After(s, a).Some?
    ensures After(s, a + b) == After(After(s, a).value, b)
  {
    hide Enabled, Next;
    if b == [] {
      assert a + b == a;
    } else {
      AfterBoth(s, a, b[..|b| - 1]);
      assert (a + b)[..|a + b| - 1] == a + b[..|b| - 1];
    }
  }

  lemma AfterInitial(s: State, run: seq<Action>, front: seq<Action>)
    requires After(s, run).Some? && front <= run
    ensures After(s, front).Some?
  {
    hide After;
    assert run[..|front|] == front;
    AfterPrefix(s, run, |front|);
  }

  lemma RoundStarts(s: State, now: real, turns: seq<Turn>)
    requires After(s, RoundOf(now, turns)).Some?
    ensures Enabled(s, Collect(now)) && RoundOf(now, turns[..0]) == [Collect(now)]
    ensures After(s, RoundOf(now, turns[..0])) == Some(Next(s, Collect(now)))
  {
    RoundPrefix(now, turns, 0);
    AfterInitial(s, RoundOf(now, turns), [Collect(now)]);
    hide Enabled, Next;
    assert [Collect(now)][..0] == [];
  }

  // The next turn of a round that can be taken can be taken.
  lemma NextTurn(start: State, now: real, turns: seq<Turn>, k: nat, s: State)
    requires After(start, RoundOf(now, turns)).Some? && k < |turns|
    requires After(start, RoundOf(now, turns[..k])) == Some(s)
    ensures Enabled(s, Fire(turns[k].now)) && After(Next(s, Fire(turns[k].now)), turns[k].calls).Some?
    ensures After(start, RoundOf(now, turns[..k + 1])) == After(s, TurnOf(turns[k]))
  {
    hide Enabled, Next, After;
    var t := turns[k];
    RoundPrefix(now, turns, k + 1);
    assert turns[..k + 1][..k] == turns[..k] && turns[..k + 1][k] == t;
    AfterInitial(start, RoundOf(now, turns), RoundOf(now, turns[..k + 1]));
    AfterBoth(start, RoundOf(now, turns[..k]), TurnOf(t));
    TurnStarts(s, t);
  }

  lemma TurnStarts(s: State, t: Turn)
    requires After(s, TurnOf(t)).Some?
    ensures Enabled(s, Fire(t.now)) && After(Next(s, Fire(t.now)), t.calls).Some?
  {
    hide Enabled, Next;
    assert [Fire(t.now)] <= TurnOf(t) && [Fire(t.now)] + t.calls <= TurnOf(t);
    AfterInitial(s, TurnOf(t), [Fire(t.now)]);
    assert [Fire(t.now)][..0] == [];
    AfterInitial(s, TurnOf(t), [Fire(t.now)] + t.calls);
    AfterFirst(s, Fire(t.now), t.calls);
  }

  // ----- the thread, which updates its fields in place -----

  class MessageThread {
    var queue: seq<Message>
    var cancelCurrent: bool
    var lastMessageID: nat
    var stamps: nat
    ghost var model: State

    ghost predicate Valid()
      reads this
    {
      model.queue == queue && model.cancelCurrent == cancelCurrent && model.nextId == lastMessageID && model.stamps == stamps
    }

    constructor ()
      ensures Valid() && model == START
    {
      queue, cancelCurrent, lastMessageID, stamps, model := [], false, 1, 0, START;
    }

    method InsertMessageInternal(m: Message)
      modifies `queue
      ensures queue == Insert(old(queue), m)
    {
      if queue == [] {
        queue := queue + [m];
      } else if queue[0].deliverAt > m.deliverAt {
        queue := [m] + queue;
        assert queue == old(queue)[..0] + [m] + old(queue)[0..];
      } else {
        var insertAfter := 0;
        while !(insertAfter + 1 == |queue|
                || (queue[insertAfter + 1].deliverAt > m.deliverAt && queue[insertAfter].deliverAt <= m.deliverAt))
          invariant insertAfter < |queue| && queue == old(queue)
          invariant forall i :: 0 <= i <= insertAfter ==> queue[i].deliverAt <= m.deliverAt
          decreases |queue| - insertAfter
        {
          insertAfter := insertAfter + 1;
        }
        LaterIs(queue, m.deliverAt, insertAfter + 1);
        queue := queue[..insertAfter + 1] + [m] + queue[insertAfter + 1..];
      }
    }

    method Post(own: bool, delay: real, interval: real, now: real) returns (id: nat)
      requires Valid() && Enabled(model, Action.Post(own, delay, interval, now))
      modifies this
      ensures Valid() && model == Next(old(model), Action.Post(own, delay, interval, now)) && id == old(lastMessageID)
    {
      var m := Message(lastMessageID, if delay == 0.0 then 0.0 else now + delay, interval, stamps);
      lastMessageID := lastMessageID + 1;
      stamps := stamps + 1;
      InsertMessageInternal(m);
      id := m.id;
      model := Next(model, Action.Post(own, delay, interval, now));
    }

    method Cancel(own: bool, id: nat)
      requires Valid() && Enabled(model, Action.Cancel(own, id))
      modifies this
      ensures Valid() && model == Next(old(model), Action.Cancel(own, id))
    {
      Erase(id);
      model := Next(model, Action.Cancel(own, id));
    }

    method Erase(id: nat)
      modifies `queue
      ensures queue == Pick(old(queue), NotId(id))
    {
      var k := 0;
      ghost var done := 0;
      while k < |queue|
        invariant k <= |queue| && 0 <= done <= |old(queue)| && queue[k..] == old(queue)[done..]
        invariant queue[..k] == Pick(old(queue)[..done], NotId(id))
        decreases |queue| - k
      {
        PickStep(old(queue), queue, k, done, NotId(id));
        if queue[k].id == id {
          queue := queue[..k] + queue[k + 1..];
        } else {
          k := k + 1;
        }
        done := done + 1;
      }
      assert queue[..k] == queue && old(queue)[..done] == old(queue);
    }

    method TakeDue(now: real) returns (batch: seq<Message>)
      requires Valid() && Enabled(model, Collect(now))
      modifies this
      ensures Valid() && model == Next(old(model), Collect(now)) && batch == model.batch
    {
      batch := EraseDue(now);
      model := Next(model, Collect(now));
    }

    // The messages of a batch leave the queue in one pass.
    method EraseDue(now: real) returns (batch: seq<Message>)
      modifies `queue
      ensures queue == Pick(old(queue), NotDueAt(now)) && batch == Pick(old(queue), DueAt(now))
    {
      batch := [];
      var k := 0;
      ghost var done := 0;
      while k < |queue|
        invariant k <= |queue| && 0 <= done <= |old(queue)| && queue[k..] == old(queue)[done..]
        invariant queue[..k] == Pick(old(queue)[..done], NotDueAt(now)) && batch == Pick(old(queue)[..done], DueAt(now))
        decreases |queue| - k
      {
        DueStep(old(queue), queue, k, done, now);
        var m := queue[k];
        if m.deliverAt == 0.0 || now >= m.deliverAt {
          batch := batch + [m];
          queue := queue[..k] + queue[k + 1..];
        } else {
          k := k + 1;
        }
        done := done + 1;
      }
      assert queue[..k] == queue && old(queue)[..done] == old(queue);
    }

    // What comes before a message is called.
    method Begin(m: Message, now: real) returns (started: Message)
      requires Valid() && Enabled(model, Fire(now)) && m == model.batch[0]
      modifies this
      ensures Valid() && model == Next(old(model), Fire(now)) && Some(started) == model.current
    {
      cancelCurrent := false;
      started := if m.deliverAt == 0.0 then m.(deliverAt := now) else m;
      model := Next(model, Fire(now));
    }

    // What comes after it was called.
    method End(m: Message)
      requires Valid() && model.current == Some(m)
      modifies this
      ensures Valid() && model == Next(old(model), Finish)
    {
      if !cancelCurrent && m.interval > 0.0 {
        InsertMessageInternal(m.(deliverAt := m.deliverAt + m.interval, stamp := stamps));
        stamps := stamps + 1;
      }
      model := Next(model, Finish);
    }

    // What the function of a message asks of its thread, one call after another.
    method Call(calls: seq<Action>)
      requires Valid() && model.current.Some? && forall k :: 0 <= k < |calls| ==> IsOwnCall(calls[k])
      requires After(model, calls).Some?
      modifies this
      ensures Valid() && After(old(model), calls) == Some(model)
      ensures model.current == old(model).current && model.batch == old(model).batch
    {
      ghost var start := model;
      for k := 0 to |calls|
        invariant Valid() && After(start, calls[..k]) == Some(model)
        invariant model.current == start.current && model.batch == start.batch
      {
        assert calls[..k + 1][..k] == calls[..k];
        AfterPrefix(start, calls, k + 1);
        match calls[k] {
          case Post(_, delay, interval, now) => var _ := Post(true, delay, interval, now);
          case Cancel(_, id) => Cancel(true, id);
          case CancelSelf => CancelSelf();
        }
      }
      assert calls[..|calls|] == calls;
    }

    // The inner part of Run: a message is started, called and perhaps put back.
    method Deliver(m: Message, now: real, calls: seq<Action>)
      requires Valid() && Enabled(model, Fire(now)) && m == model.batch[0]
      requires forall k :: 0 <= k < |calls| ==> IsOwnCall(calls[k])
      requires After(Next(model, Fire(now)), calls).Some?
      modifies this
      ensures Valid() && model.current.None? && model.batch == old(model).batch[1..]
      ensures After(old(model), [Fire(now)] + calls + [Finish]) == Some(model)
    {
      ghost var start := model;
      var started := Begin(m, now);
      Call(calls);
      End(started);
      AfterFirst(start, Fire(now), calls);
      assert ([Fire(now)] + calls + [Finish])[..1 + |calls|] == [Fire(now)] + calls;
    }

    // One round of Run, behind its wait: what is due leaves the queue and is delivered, each
    // message with the time and the calls of its turn.
    method Round(now: real, turns: seq<Turn>)
      requires Valid() && After(model, RoundOf(now, turns)).Some?
      requires |turns| == |Pick(queue, DueAt(now))| && forall k :: 0 <= k < |turns| ==> IsOwn(turns[k])
      modifies this
      ensures Valid() && IsIdle(model) && After(old(model), RoundOf(now, turns)) == Some(model)
    {
      ghost var start := model;
      RoundStarts(start, now, turns);
      var batch := TakeDue(now);
      for k := 0 to |batch|
        invariant Valid() && model.current.None? && model.batch == batch[k..]
        invariant After(start, RoundOf(now, turns[..k])) == Some(model)
      {
        NextTurn(start, now, turns, k, model);
        Deliver(batch[k], turns[k].now, turns[k].calls);
      }
      assert turns[..|turns|] == turns;
    }

    method CancelSelf()
      requires Valid() && Enabled(model, Action.CancelSelf)
      modifies this
      ensures Valid() && model == Next(old(model), Action.CancelSelf)
    {
      cancelCurrent := true;
      model := Next(model, Action.CancelSelf);
    }
  }

  lemma PickLast(q: seq<Message>, m: Message, w: Kind)
    ensures Pick(q + [m], w) == Pick(q, w) + if IsOf(m, w) then [m] else []
  {
    assert (q + [m])[..|q|] == q;
  }

  lemma DueStep(all: seq<Message>, q: seq<Message>, k: nat, done: nat, now: real)
    requires done < |all| && k < |q| && q[k..] == all[done..] && q[..k] == Pick(all[..done], NotDueAt(now))
    ensures Pick(all[..done + 1], DueAt(now)) == Pick(all[..done], DueAt(now)) + if IsDue(q[k], now) then [q[k]] else []
    ensures !IsDue(q[k], now) ==> q[..k + 1] == Pick(all[..done + 1], NotDueAt(now)) && q[k + 1..] == all[done + 1..]
    ensures IsDue(q[k], now) ==>
      var r := q[..k] + q[k + 1..]; r[..k] == Pick(all[..done + 1], NotDueAt(now)) && r[k..] == all[done + 1..]
  {
    hide Pick;
    PickStep(all, q, k, done, NotDueAt(now));
    PickLast(all[..done], all[done], DueAt(now));
    assert all[..done + 1] == all[..done] + [all[done]];
  }

  lemma PickStep(all: seq<Message>, q: seq<Message>, k: nat, done: nat, w: Kind)
    requires done < |all| && k < |q| && q[k..] == all[done..] && q[..k] == Pick(all[..done], w)
    ensures q[k] == all[done]
    ensures IsOf(q[k], w) ==> q[..k + 1] == Pick(all[..done + 1], w) && q[k + 1..] == all[done + 1..]
    ensures !IsOf(q[k], w) ==>
      var r := q[..k] + q[k + 1..]; r[..k] == Pick(all[..done + 1], w) && r[k..] == all[done + 1..]
  {
    assert q[k] == q[k..][0] == all[done..][0];
    assert all[..done + 1][..done] == all[..done];
    assert q[..k + 1] == q[..k] + [q[k]];
    assert q[k + 1..] == q[k..][1..] && all[done + 1..] == all[done..][1..];
    assert (q[..k] + q[k + 1..])[k..] == q[k + 1..];
  }

  lemma LaterIs(q: seq<Message>, t: real, k: nat)
    requires k <= |q| && (forall i :: 0 <= i < k ==> q[i].deliverAt <= t) && (k < |q| ==> q[k].deliverAt > t)
    ensures Later(q, t) == k
  {
  }
}
