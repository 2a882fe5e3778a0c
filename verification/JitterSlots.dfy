// The slots of the jitter buffer, which point into a pool of buffers and are updated in place.
module JitterSlots {
  import opened Bytes
  import opened Options
  import opened Serial
  import opened BufferPool
  import opened JitterModel

  datatype Cell = Cell(buffer: array?<byte>, size: nat, timestamp: uint32, isEC: bool)

  // The cells hold different buffers of the pool, and those are the used ones.
  ghost predicate Owns(pool: seq<array<byte>>, used: set<array<byte>>, cells: seq<Cell>) {
    && (forall i :: 0 <= i < |cells| && cells[i].buffer != null ==>
          cells[i].buffer in pool && cells[i].buffer in used)
    && (forall i :: 0 <= i < |cells| ==> cells[i].size <= SLOT_SIZE)
    && (forall i, j :: 0 <= i < j < |cells| && cells[i].buffer != null ==> cells[i].buffer != cells[j].buffer)
    && (forall b :: b in used ==> IsHeld(cells, |cells|, b))
  }

  ghost predicate IsHeld(cells: seq<Cell>, n: nat, b: array<byte>)
    requires n <= |cells|
  {
    exists i :: 0 <= i < n && cells[i].buffer == b
  }

  lemma SetOfMore(pool: seq<array<byte>>, b: array<byte>)
    ensures (set x | x in pool + [b]) == (set x | x in pool) + {b}
  {
  }

  lemma {:induction false} PoolSize(pool: seq<array<byte>>, n: nat)
    requires n <= |pool| && forall i, j :: 0 <= i < j < |pool| ==> pool[i] != pool[j]
    ensures |set b | b in pool[..n]| == n
  {
    if n > 0 {
      PoolSize(pool, n - 1);
      assert pool[..n] == pool[..n - 1] + [pool[n - 1]];
      SetOfMore(pool[..n - 1], pool[n - 1]);
    }
  }

  lemma {:induction false} HeldCount(cells: seq<Cell>, n: nat, free: nat, held: set<array<byte>>)
    requires n <= |cells| && free < |cells| && cells[free].buffer == null
    requires forall b :: b in held ==> IsHeld(cells, n, b)
    ensures |held| <= if free < n then n - 1 else n
  {
    if n == 0 {
      assert held == {};
    } else if cells[n - 1].buffer == null {
      HeldCount(cells, n - 1, free, held);
    } else {
      var rest := held - {cells[n - 1].buffer};
      forall b | b in rest ensures IsHeld(cells, n - 1, b) {
        var i :| 0 <= i < n && cells[i].buffer == b;
      }
      HeldCount(cells, n - 1, free, rest);
      assert held <= rest + {cells[n - 1].buffer};
    }
  }

  // With as many buffers as cells and a cell empty, not all buffers are used.
  lemma SomeBufferUnused(pool: seq<array<byte>>, used: set<array<byte>>, cells: seq<Cell>, free: nat)
    requires |pool| == |cells| && forall i, j :: 0 <= i < j < |pool| ==> pool[i] != pool[j]
    requires Owns(pool, used, cells) && free < |cells| && cells[free].buffer == null
    ensures used != set b | b in pool
  {
    HeldCount(cells, |cells|, free, used);
    PoolSize(pool, |pool|);
    assert pool[..|pool|] == pool;
  }

  lemma OwnsAfterFree(pool: seq<array<byte>>, used: set<array<byte>>, cells: seq<Cell>, i: nat)
    requires Owns(pool, used, cells) && i < |cells| && cells[i].buffer != null
    ensures Owns(pool, used - {cells[i].buffer}, cells[i := cells[i].(buffer := null)])
  {
    var cells' := cells[i := cells[i].(buffer := null)];
    forall x | x in used - {cells[i].buffer} ensures IsHeld(cells', |cells'|, x) {
      var k :| 0 <= k < |cells| && cells[k].buffer == x;
      assert cells'[k].buffer == x;
    }
  }

  lemma OwnsAfterFill(pool: seq<array<byte>>, used: set<array<byte>>, cells: seq<Cell>, i: nat, c: Cell)
    requires Owns(pool, used, cells) && i < |cells| && cells[i].buffer == null
    requires c.buffer != null && c.buffer in pool && c.buffer !in used && c.size <= SLOT_SIZE
    ensures Owns(pool, used + {c.buffer}, cells[i := c])
  {
    var cells' := cells[i := c];
    forall x | x in used + {c.buffer} ensures IsHeld(cells', |cells'|, x) {
      if x == c.buffer {
        assert cells'[i].buffer == x;
      } else {
        var k :| 0 <= k < |cells| && cells[k].buffer == x;
        assert cells'[k].buffer == x;
      }
    }
  }

  lemma OwnsSame(pool: seq<array<byte>>, used: set<array<byte>>, cells: seq<Cell>, cells': seq<Cell>)
    requires Owns(pool, used, cells) && |cells'| == |cells|
    requires forall k :: 0 <= k < |cells| ==> cells'[k].buffer == cells[k].buffer && cells'[k].size <= SLOT_SIZE
    ensures Owns(pool, used, cells')
  {
    forall x | x in used ensures IsHeld(cells', |cells'|, x) {
      var k :| 0 <= k < |cells| && cells[k].buffer == x;
      assert cells'[k].buffer == x;
    }
  }

  lemma FirstIs(slots: seq<Slot>, w: Want, i: nat)
    requires i <= |slots| && forall k :: 0 <= k < i ==> !Suits(slots[k], w)
    requires i < |slots| ==> Suits(slots[i], w)
    ensures First(slots, w) == i
  {
  }

  class SlotTable {
    const pool: Pool
    const slots: array<Cell>

    ghost const Repr: set<object>

    ghost predicate Valid()
      reads this, Repr
      ensures Valid() ==> this in Repr
    {
      && Repr == {this, pool, slots} + (set b | b in pool.buffers)
      && pool.Valid() && pool.size == SLOT_SIZE && |pool.buffers| == SLOT_COUNT
      && slots.Length == SLOT_COUNT
      && Owns(pool.buffers, pool.Used(), slots[..])
    }

    ghost function View(c: Cell): Slot
      requires c.buffer != null ==> c.size <= c.buffer.Length
      reads c.buffer
    {
      Slot(c.timestamp, if c.buffer == null then None else Some(Packet(c.buffer[..c.size], c.isEC)))
    }

    ghost function Contents(): (h: Slots)
      requires Valid()
      reads Repr
    {
      seq(SLOT_COUNT, i requires 0 <= i < SLOT_COUNT && Valid() reads Repr => View(slots[i]))
    }

    constructor ()
      ensures Valid() && fresh(Repr) && forall i :: 0 <= i < SLOT_COUNT ==> Contents()[i] == Slot(0, None)
    {
      var p := new Pool(SLOT_SIZE, SLOT_COUNT);
      pool := p;
      slots := new Cell[SLOT_COUNT](_ => Cell(null, 0, 0, false));
      Repr := {this, pool, slots} + (set b | b in p.buffers);
      new;
      assert forall i :: 0 <= i < SLOT_COUNT ==> slots[i].buffer == null;
      assert Owns(pool.buffers, {}, slots[..]);
      hide Owns, HasBit;
    }

    method Find(w: Want) returns (i: nat)
      requires Valid()
      ensures i == First(Contents(), w)
    {
      i := 0;
      while i < slots.Length && !match w {
          case Held(t) => slots[i].buffer != null && slots[i].timestamp == t
          case Labelled(t) => slots[i].timestamp == t
          case Free => slots[i].buffer == null
        }
        invariant i <= slots.Length
        invariant forall k :: 0 <= k < i ==> !Suits(Contents()[k], w)
      {
        i := i + 1;
      }
      FirstIs(Contents(), w, i);
    }

    // GetCurrentDelay
    method HowMany() returns (delay: nat)
      requires Valid()
      ensures delay == Count(Contents())
    {
      delay := 0;
      for i := 0 to slots.Length
        invariant delay == Count(Contents()[..i])
      {
        assert Contents()[..i + 1][..i] == Contents()[..i];
        if slots[i].buffer != null {
          delay := delay + 1;
        }
      }
      assert Contents()[..SLOT_COUNT] == Contents();
    }

    method FindVictim() returns (toRemove: nat)
      requires Valid()
      ensures toRemove == Victim(Contents(), SLOT_COUNT)
    {
      toRemove := SLOT_COUNT;
      var bestTimestamp := 0xFFFF_FFFF;
      for i := 0 to slots.Length
        invariant toRemove == Victim(Contents(), i)
        invariant bestTimestamp == if toRemove < SLOT_COUNT then slots[toRemove].timestamp else 0xFFFF_FFFF
      {
        if slots[i].buffer != null && slots[i].timestamp < bestTimestamp {
          toRemove := i;
          bestTimestamp := slots[i].timestamp;
        }
      }
    }

    // The buffer of the slot goes back to the pool.
    method Free(i: nat)
      requires Valid() && i < SLOT_COUNT
      modifies Repr
      ensures Valid() && Contents() == Emptied(old(Contents()), i)
    {
      if slots[i].buffer != null {
        OwnsAfterFree(pool.buffers, pool.Used(), slots[..], i);
        pool.Reuse(slots[i].buffer);
        slots[i] := slots[i].(buffer := null);
        assert slots[..] == old(slots[..])[i := old(slots[i]).(buffer := null)];
      }
      assert Contents() == Emptied(old(Contents()), i);
    }

    // A free slot takes a packet in a buffer from the pool, which has one left.
    method Fill(i: nat, ts: uint32, p: Packet)
      requires Valid() && i < SLOT_COUNT && Contents()[i].packet.None? && |p.data| <= SLOT_SIZE
      modifies Repr
      ensures Valid() && Contents() == old(Contents())[i := Slot(ts, Some(p))]
    {
      SomeBufferUnused(pool.buffers, pool.Used(), slots[..], i);
      var b := pool.Get();
      OwnsAfterFill(pool.buffers, old(pool.Used()), slots[..], i, Cell(b, |p.data|, ts, p.isEC));
      slots[i] := Cell(b, |p.data|, ts, p.isEC);
      assert slots[..] == old(slots[..])[i := slots[i]];
      hide Owns, HasBit;
      CopyIn(i, p.data);
      assert Contents() == old(Contents())[i := Slot(ts, Some(p))];
    }

    method Overwrite(i: nat, p: Packet)
      requires Valid() && i < SLOT_COUNT && Contents()[i].packet.Some? && |p.data| <= SLOT_SIZE
      modifies Repr
      ensures Valid() && Contents() == old(Contents())[i := Slot(old(Contents())[i].timestamp, Some(p))]
    {
      slots[i] := slots[i].(size := |p.data|, isEC := p.isEC);
      OwnsSame(pool.buffers, pool.Used(), old(slots[..]), slots[..]);
      hide Owns, HasBit;
      CopyIn(i, p.data);
      assert Contents() == old(Contents())[i := Slot(old(slots[i].timestamp), Some(p))];
    }

    // memcpy into the buffer of a slot
    method CopyIn(i: nat, data: seq<byte>)
      requires Valid() && i < SLOT_COUNT && slots[i].buffer != null && |data| == slots[i].size
      modifies slots[i].buffer
      ensures Valid()
      ensures View(slots[i]) == Slot(slots[i].timestamp, Some(Packet(data, slots[i].isEC)))
      ensures forall k :: 0 <= k < SLOT_COUNT && k != i ==> View(slots[k]) == old(View(slots[k]))
    {
      var b := slots[i].buffer;
      assert forall k :: 0 <= k < SLOT_COUNT && k != i ==> slots[k].buffer != b;
      hide Owns, HasBit;
      forall j | 0 <= j < |data| { b[j] := data[j]; }
      assert b[..|data|] == data;
      assert slots[..] == old(slots[..]) && pool.Used() == old(pool.Used());
    }

    // memcpy out of the buffer of a slot, if what it holds fits
    method CopyOut(i: nat, target: array<byte>) returns (fits: bool, size: nat, isEC: bool)
      requires Valid() && i < SLOT_COUNT && Contents()[i].packet.Some? && target !in Repr
      modifies target
      ensures Valid() && Contents() == old(Contents())
      ensures var p := Contents()[i].packet.value;
        && fits == (|p.data| <= target.Length)
        && (if fits then target[..] == p.data + old(target[..])[|p.data|..] && size == |p.data| && isEC == p.isEC
            else target[..] == old(target[..]))
    {
      var c := slots[i];
      fits, size, isEC := c.size <= target.Length, c.size, c.isEC;
      ghost var data := c.buffer[..c.size];
      if fits {
        forall j | 0 <= j < c.size { target[j] := c.buffer[j]; }
        assert target[..] == data + old(target[..])[|data|..];
      }
      assert slots[..] == old(slots[..]) && pool.Used() == old(pool.Used());
      assert Contents() == old(Contents());
    }

    method FreeBefore(next: int)
      requires Valid()
      modifies Repr
      ensures Valid() && Contents() == Purge(old(Contents()), next)
    {
      hide Owns, HasBit;
      for i := 0 to slots.Length
        invariant Valid()
        invariant forall k :: 0 <= k < i ==> Contents()[k] == PurgeOne(old(Contents())[k], next)
        invariant forall k :: i <= k < SLOT_COUNT ==> Contents()[k] == old(Contents())[k]
      {
        if slots[i].buffer != null && slots[i].timestamp < next - 1 {
          Free(i);
        }
      }
      assert Contents() == Purge(old(Contents()), next);
    }

    method FreeAll()
      requires Valid()
      modifies Repr
      ensures Valid() && Contents() == AllEmptied(old(Contents()))
    {
      hide Owns, HasBit;
      for i := 0 to slots.Length
        invariant Valid()
        invariant forall k :: 0 <= k < i ==> Contents()[k] == old(Contents())[k].(packet := None)
        invariant forall k :: i <= k < SLOT_COUNT ==> Contents()[k] == old(Contents())[k]
      {
        if slots[i].buffer != null {
          Free(i);
        }
      }
      assert Contents() == AllEmptied(old(Contents()));
    }
  }
}
