/** The sender's ring buffer: values, the mutable object, and what holds of every
    sequence of packet-sized operations on it. */
module CircularBuffers {
  import opened Common

  datatype Ring = Ring(bytes: seq<byte>, table: seq<int>, used: int, notack: int, available: int,
                       head: int, tail: int, ack: int)

  predicate Shape(r: Ring)
  {
    && |r.bytes| == CAPACITY && |r.table| == WS
    && 0 <= r.head < CAPACITY && r.head % MSS == 0
    && 0 <= r.tail <= CAPACITY
    && 0 <= r.ack < CAPACITY && r.ack % MSS == 0
  }

  /** ring_buffer_init over memory with the given bytes; the whole table is zero. */
  function Fresh(bytes: seq<byte>): (r: Ring)
    requires |bytes| == CAPACITY
    ensures Shape(r)
  {
    Ring(bytes, seq(WS, _ => 0), 0, 0, CAPACITY, 0, 0, 0)
  }

  type GoodRing = r: Ring | Shape(r) witness Fresh(seq(CAPACITY, _ => 0))

  /** hole_table index of a byte position, computed as in C. */
  function SlotOf(position: int): (s: int)
    ensures s < WS
  {
    TruncMod(TruncDiv(position, MSS), WS)
  }

  lemma SlotOfBlock(s: nat)
    requires s < WS
    ensures SlotOf(MSS * s) == s && SlotOf(0 - MSS) == -1
  {
  }

  lemma SlotBefore(ack: nat)
    requires ack < CAPACITY && ack % MSS == 0
    ensures SlotOf(ack - MSS) == ack / MSS - 1
  {
  }

  /** A pointer moved on by one packet, around the end of the buffer. */
  function Advance(position: int): (r: int)
    requires 0 <= position < CAPACITY && position % MSS == 0
    ensures r == (position + MSS) % CAPACITY
    ensures 0 <= r <= CAPACITY - MSS && r % MSS == 0
  {
    if position + MSS < CAPACITY then position + MSS else 0
  }

  /** An index of -1 falls outside the table, which is then left alone. */
  function Mark(table: seq<int>, slot: int, v: int): (marked: seq<int>)
    ensures |marked| == |table|
  {
    if 0 <= slot < |table| then table[slot := v] else table
  }

  function Overwrite(bytes: seq<byte>, at: nat, item: seq<byte>): (r: seq<byte>)
    requires at + |item| <= |bytes|
  {
    bytes[..at] + item + bytes[at + |item|..]
  }

  /** The packet-sized slot s of the buffer. */
  function BlockAt(bytes: seq<byte>, s: nat): Block
    requires |bytes| == CAPACITY && s < WS
  {
    bytes[s * MSS..s * MSS + MSS]
  }

  lemma OverwriteBlock(bytes: seq<byte>, at: nat, item: Block, s: nat)
    requires |bytes| == CAPACITY && at < WS && s < WS
    ensures var after := Overwrite(bytes, at * MSS, item);
            |after| == CAPACITY && BlockAt(after, s) == if s == at then item else BlockAt(bytes, s)
  {
    var after := Overwrite(bytes, at * MSS, item);
    assert s < at ==> s * MSS + MSS <= at * MSS;
    assert s > at ==> at * MSS + MSS <= s * MSS;
    var want: seq<byte> := if s == at then item else BlockAt(bytes, s);
    forall i | 0 <= i < MSS
      ensures BlockAt(after, s)[i] == want[i]
    {
      assert BlockAt(after, s)[i] == after[s * MSS + i];
    }
  }

  // ------------------------------------------------------------- operations

  /** cb_push_data; the result code is the space left, or negative when refused. */
  function Push(r: Ring, item: Block): (q: Ring)
    requires Shape(r)
    ensures Shape(q)
  {
    if r.available < MSS then r
    else
      var head := Advance(r.head);
      r.(head := head, bytes := Overwrite(r.bytes, head, item), available := r.available - MSS,
         used := r.used + MSS, table := Mark(r.table, SlotOf(head - MSS), 1))
  }

  /** Reading the ring from the tail on, byte by byte modulo the capacity. */
  function Read(r: Ring, size: nat): (s: seq<byte>)
    requires Shape(r)
    ensures |s| == size
  {
    seq(size, i requires 0 <= i < size => r.bytes[(r.tail + i) % CAPACITY])
  }

  /** The copy in one piece, or in two around the end of the buffer, is that reading. */
  lemma TwoPartCopy(r: Ring, size: nat)
    requires Shape(r) && size <= CAPACITY
    ensures var dd := CAPACITY - r.tail;
            Read(r, size) == if size <= dd then r.bytes[r.tail..r.tail + size]
                             else r.bytes[r.tail..] + r.bytes[..size - dd]
  {
    var dd := CAPACITY - r.tail;
    var copied := if size <= dd then r.bytes[r.tail..r.tail + size] else r.bytes[r.tail..] + r.bytes[..size - dd];
    forall i | 0 <= i < size
      ensures Read(r, size)[i] == copied[i]
    {
      assert (r.tail + i) % CAPACITY == if i < dd then r.tail + i else i - dd;
    }
  }

  /** cb_pop_data */
  function Pop(r: Ring, size: nat): (q: Ring)
    requires Shape(r) && size <= CAPACITY
    ensures Shape(q)
  {
    if r.used < size then r
    else
      var tail := if size <= CAPACITY - r.tail then r.tail + size else size - (CAPACITY - r.tail);
      r.(tail := tail, used := r.used - size, notack := r.notack + size,
         table := Mark(r.table, SlotOf(tail - size), 0))
  }

  /** The slot i places after k. */
  function Around(k: nat, i: nat): (s: nat)
    ensures s < WS
  {
    (k + i) % WS
  }

  lemma AroundIs(k: nat, i: nat)
    ensures Around(0, k + i) == Around(k, i)
  {
  }

  /** How many slots in a row are zero, from the n-th after k on, going round at most once. */
  function ZeroRun(table: seq<int>, k: nat, n: nat): (z: nat)
    requires |table| == WS && n <= WS
    ensures n <= z <= WS
    ensures forall i | n <= i < z :: table[Around(k, i)] == 0
    ensures z < WS ==> table[Around(k, z)] != 0
    decreases WS - n
  {
    if n < WS && table[Around(k, n)] == 0 then ZeroRun(table, k, n + 1) else n
  }

  /** The n slots from k on set to 2. */
  function Released(table: seq<int>, k: nat, n: nat): seq<int>
    requires |table| == WS
  {
    seq(WS, s requires 0 <= s < WS => if (s - k) % WS < n then 2 else table[s])
  }

  lemma ReleasedStep(table: seq<int>, k: nat, n: nat)
    requires |table| == WS && n <= WS
    ensures n == WS ==> Released(table, k, n)[Around(k, n)] == 2
    ensures n < WS ==> Released(table, k, n)[Around(k, n)] == table[Around(k, n)]
    ensures n < WS ==> Released(table, k, n)[Around(k, n) := 2] == Released(table, k, n + 1)
  {
    if n < WS {
      var marked, next := Released(table, k, n)[Around(k, n) := 2], Released(table, k, n + 1);
      forall s | 0 <= s < WS
        ensures marked[s] == next[s]
      {
        SameSlot(s, k, n);
      }
    }
  }

  lemma SameSlot(s: nat, k: nat, n: nat)
    requires s < WS && n < WS
    ensures (s - k) % WS == n <==> s == Around(k, n)
  {
  }

  /** The ack pointer after n more slots. */
  function Onward(ack: int, n: nat): (r: int)
    requires 0 <= ack < CAPACITY && ack % MSS == 0
    ensures 0 <= r < CAPACITY && r % MSS == 0
  {
    MSS * Around(ack / MSS, n)
  }

  lemma OnwardStep(ack: int, n: nat)
    requires 0 <= ack < CAPACITY && ack % MSS == 0
    ensures Onward(ack, n + 1) == Advance(Onward(ack, n))
    ensures Onward(ack, 0) == ack
  {
    var k := ack / MSS;
    assert Around(k, n + 1) == if Around(k, n) + 1 < WS then Around(k, n) + 1 else 0;
  }

  /** One round of the release loop. */
  function ReleaseOne(r: Ring, slot: nat): (q: Ring)
    requires Shape(r) && slot < WS
    ensures Shape(q)
  {
    r.(notack := r.notack - MSS, available := r.available + MSS, ack := Advance(r.ack), table := r.table[slot := 2])
  }

  /** The ring after n slots from the ack pointer on have been released. */
  function Release(r: Ring, n: nat): (q: Ring)
    requires Shape(r)
    ensures Shape(q)
  {
    r.(notack := r.notack - n * MSS, available := r.available + n * MSS, ack := Onward(r.ack, n),
       table := Released(r.table, r.ack / MSS, n))
  }

  /** update_hole_table */
  function ReleaseRun(r: Ring): (q: Ring)
    requires Shape(r)
    ensures Shape(q)
  {
    Release(r, ZeroRun(r.table, r.ack / MSS, 0))
  }

  lemma ReleaseNone(r: Ring)
    requires Shape(r)
    ensures Release(r, 0) == r
  {
    OnwardStep(r.ack, 0);
    assert Released(r.table, r.ack / MSS, 0) == r.table;
  }

  /** The loop goes on exactly while slots of the zero run are left. */
  lemma ReleaseStep(r: Ring, n: nat)
    requires Shape(r) && n <= ZeroRun(r.table, r.ack / MSS, 0)
    ensures var slot := Around(r.ack / MSS, n); var z := ZeroRun(r.table, r.ack / MSS, 0);
            && (Release(r, n).table[slot] == 0 <==> n < z)
            && (n < z ==> ReleaseOne(Release(r, n), slot) == Release(r, n + 1))
  {
    hide Onward, Around, Advance;
    OnwardStep(r.ack, n);
    ReleasedStep(r.table, r.ack / MSS, n);
  }

  lemma LoopStep(r: Ring, n: nat)
    requires Shape(r) && n <= ZeroRun(r.table, r.ack / MSS, 0)
    ensures var slot := Around(0, r.ack / MSS + n); var z := ZeroRun(r.table, r.ack / MSS, 0);
            && (Release(r, n).table[slot] == 0 <==> n < z)
            && (n < z ==> ReleaseOne(Release(r, n), slot) == Release(r, n + 1))
  {
    hide Release, ReleaseOne, ZeroRun, Around;
    AroundIs(r.ack / MSS, n);
    ReleaseStep(r, n);
  }

  /** What an acknowledgement releases: n slots from the ack pointer on, every one zero
      before and 2 after; no further slot could be added; no other slot changes; and n
      blocks move from notack to available. */
  lemma ReleaseIsMaximal(r: Ring)
    requires Shape(r)
    ensures var q := ReleaseRun(r); var k := r.ack / MSS; var n := ZeroRun(r.table, k, 0);
            && n <= WS && q.available - r.available == n * MSS == r.notack - q.notack
            && (forall i: nat | i < n :: r.table[Around(k, i)] == 0 && q.table[Around(k, i)] == 2)
            && (n < WS ==> r.table[Around(k, n)] != 0)
            && (forall s | 0 <= s < WS && q.table[s] != r.table[s] :: exists i: nat | i < n :: s == Around(k, i))
            && q.ack == MSS * Around(k, n) && q.head == r.head && q.tail == r.tail && q.bytes == r.bytes
  {
    var q := ReleaseRun(r);
    var k := r.ack / MSS;
    var n := ZeroRun(r.table, k, 0);
    hide ZeroRun, Around;
    forall i: nat | i < n
      ensures q.table[Around(k, i)] == 2
    {
      SameSlot(Around(k, i), k, i);
    }
    forall s | 0 <= s < WS && q.table[s] != r.table[s]
      ensures exists i: nat | i < n :: s == Around(k, i)
    {
      SameSlot(s, k, (s - k) % WS);
    }
  }

  function Ack(r: Ring): (q: Ring)
    requires Shape(r)
    ensures Shape(q)
  {
    if r.notack < MSS then r
    else ReleaseRun(r.(table := Mark(r.table, SlotOf(r.ack - MSS), 2)))
  }

  /** get_data_index: only a slot marked 1 is served. */
  function Get(r: Ring, index: nat): (q: Ring)
    requires Shape(r)
    ensures Shape(q)
  {
    if r.table[index % WS] == 1 then r.(notack := r.notack + MSS) else r
  }

  // ------------------------------------------------------ the mutable buffer

  class CircularBuffer {
    var buffer: array<byte>
    var holeTable: array<int>
    var capacity: int
    var used: int
    var notack: int
    var available: int
    var head: int
    var tail: int
    var ack: int

    ghost function Value(): Ring
      reads this, buffer, holeTable
    {
      Ring(buffer[..], holeTable[..], used, notack, available, head, tail, ack)
    }

    ghost predicate Valid()
      reads this, buffer, holeTable
    {
      Shape(Value()) && capacity == CAPACITY
    }

    /** ring_buffer_init */
    constructor ()
      ensures Valid() && fresh(buffer) && fresh(holeTable)
      ensures Value() == Fresh(buffer[..])
    {
      buffer := new byte[CAPACITY];
      holeTable := new int[WS](_ => 0);
      capacity, available := CAPACITY, CAPACITY;
      used, notack, head, tail, ack := 0, 0, 0, 0, 0;
    }

    method CbPushData(item: Block) returns (rem: int)
      requires Valid()
      modifies this, buffer, holeTable
      ensures Valid() && buffer == old(buffer) && holeTable == old(holeTable)
      ensures Value() == Push(old(Value()), item)
      ensures rem == old(available) - MSS
    {
      if available < MSS {
        return available - MSS;
      }
      ghost var was := buffer[..];
      head := Advance(head);
      hide Advance;
      forall i | 0 <= i < MSS {
        buffer[head + i] := item[i];
      }
      assert buffer[..] == Overwrite(was, head, item);
      available := available - MSS;
      used := used + MSS;
      var slot := SlotOf(head - MSS);
      if slot >= 0 {
        holeTable[slot] := 1;
      }
      return available;
    }

    /** The two branches of the copy in cb_pop_data, which also move the tail. */
    method CopyFromTail(size: nat) returns (item: seq<byte>)
      requires Valid() && size <= CAPACITY
      modifies `tail
      ensures item == Read(old(Value()), size)
      ensures tail == if size <= CAPACITY - old(tail) then old(tail) + size else size - (CAPACITY - old(tail))
    {
      ghost var bytes := buffer[..];
      TwoPartCopy(Value(), size);
      hide Read;
      if size <= capacity - tail {
        item := buffer[tail..tail + size];
        assert item == bytes[tail..tail + size];
        tail := tail + size;
      } else {
        var dd := capacity - tail;
        item := buffer[tail..tail + dd];
        assert item == bytes[tail..];
        tail := 0;
        item := item + buffer[..size - dd];
        assert buffer[..size - dd] == bytes[..size - dd];
        tail := size - dd;
      }
    }

    /** The copied bytes are returned; a refused pop copies none. */
    method CbPopData(size: nat) returns (rem: int, item: seq<byte>)
      requires Valid() && size <= CAPACITY
      modifies this, holeTable
      ensures Valid() && buffer == old(buffer) && holeTable == old(holeTable)
      ensures Value() == Pop(old(Value()), size)
      ensures rem == old(used) - size
      ensures item == if rem < 0 then [] else Read(old(Value()), size)
    {
      if used < size {
        return used - size, [];
      }
      hide Read, SlotOf;
      item := CopyFromTail(size);
      used := used - size;
      notack := notack + size;
      var slot := SlotOf(tail - size);
      if slot >= 0 {
        holeTable[slot] := 0;
      }
      rem := used;
    }

    /** k has gone on from the ack pointer of the ring `was` through slots of its zero run,
        and these have been released. */
    ghost predicate Releasing(was: GoodRing, k: nat)
      reads this, buffer, holeTable
    {
      var k0 := was.ack / MSS;
      Valid() && k0 <= k <= k0 + ZeroRun(was.table, k0, 0) && Value() == Release(was, k - k0)
    }

    lemma ReleasingMore(was: GoodRing, k: nat)
      requires Releasing(was, k)
      ensures holeTable.Length == WS
      ensures holeTable[Around(0, k)] == 0 <==> k < was.ack / MSS + ZeroRun(was.table, was.ack / MSS, 0)
    {
      hide Release, ZeroRun, Around;
      LoopStep(was, k - was.ack / MSS);
      assert holeTable[Around(0, k)] == Value().table[Around(0, k)];
    }

    /** The assignments in the loop of update_hole_table. */
    method ReleaseSlot(ghost was: GoodRing, k: nat)
      requires Releasing(was, k) && k < was.ack / MSS + ZeroRun(was.table, was.ack / MSS, 0)
      modifies this, holeTable
      ensures Releasing(was, k + 1) && buffer == old(buffer) && holeTable == old(holeTable)
    {
      hide Advance, Release, ZeroRun, Around;
      LoopStep(was, k - was.ack / MSS);
      notack := notack - MSS;
      available := available + MSS;
      ack := Advance(ack);
      holeTable[Around(0, k)] := 2;  // k modulo WS
      assert Value() == ReleaseOne(old(Value()), Around(0, k));
    }

    method UpdateHoleTable()
      requires Valid()
      modifies this, holeTable
      ensures Valid() && buffer == old(buffer) && holeTable == old(holeTable)
      ensures Value() == ReleaseRun(old(Value()))
    {
      ghost var was: GoodRing := Value();
      var k := ack / MSS;
      ghost var end := k + ZeroRun(was.table, k, 0);
      ReleasingStarts();
      ReleasingMore(was, k);
      hide Release, ReleaseRun, ZeroRun, Around, CircularBuffer.Releasing, CircularBuffer.Value, CircularBuffer.Valid;
      while holeTable[Around(0, k)] == 0  // k modulo WS
        invariant Releasing(was, k) && buffer == old(buffer) && holeTable == old(holeTable)
        invariant holeTable[Around(0, k)] == 0 <==> k < end
        decreases end - k
      {
        ReleaseSlot(was, k);
        k := k + 1;
        ReleasingMore(was, k);
      }
      ReleasingEnds(was, k);
    }

    lemma ReleasingStarts()
      requires Valid()
      ensures Releasing(Value(), ack / MSS)
    {
      ReleaseNone(Value());
    }

    lemma ReleasingEnds(was: GoodRing, k: nat)
      requires Releasing(was, k) && k >= was.ack / MSS + ZeroRun(was.table, was.ack / MSS, 0)
      ensures Valid() && Value() == ReleaseRun(was)
    {
    }

    /** ack_data; the index given is only printed. */
    method AckData(index: int) returns (z: int)
      requires Valid()
      modifies this, holeTable
      ensures Valid() && buffer == old(buffer) && holeTable == old(holeTable)
      ensures Value() == Ack(old(Value()))
      ensures z == if old(notack) < MSS then old(notack) - MSS else old(notack)
    {
      hide ReleaseRun, SlotOf;
      if notack < MSS {
        return notack - MSS;
      }
      z := notack;
      var slot := SlotOf(ack - MSS);
      if slot >= 0 {
        holeTable[slot] := 2;
      }
      UpdateHoleTable();
    }

    method GetDataIndex(index: nat) returns (rc: int, item: seq<byte>)
      requires Valid()
      modifies this
      ensures Valid() && buffer == old(buffer) && holeTable == old(holeTable)
      ensures Value() == Get(old(Value()), index)
      ensures var slot := index % WS;
              if holeTable[slot] == 1 then rc == 1 && item == BlockAt(buffer[..], slot)
              else rc == -1 && item == []
    {
      var slot := index % WS;
      if holeTable[slot] == 1 {
        item := buffer[slot * MSS..slot * MSS + MSS];
        notack := notack + MSS;
        rc := 1;
      } else {
        rc, item := -1, [];
      }
    }
  }
}
