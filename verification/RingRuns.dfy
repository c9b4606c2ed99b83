/** Every sequence of packet-sized operations on the ring buffer. */
module RingRuns {
  import opened Common
  import opened CircularBuffers

  datatype Op = PushOp(item: Block) | PopOp | AckOp(index: int)

  /** The ring with the history of what went in, what came out, and how many slots
      acknowledgements have released. */
  datatype Trace = Trace(ring: GoodRing, pushed: seq<Block>, popped: seq<seq<byte>>, released: nat)

  function ReleasedBy(r: Ring): nat
    requires Shape(r)
  {
    if r.notack < MSS then 0 else ZeroRun(Mark(r.table, SlotOf(r.ack - MSS), 2), r.ack / MSS, 0)
  }

  function Perform(t: Trace, op: Op): Trace
  {
    match op
    case PushOp(item) =>
      t.(ring := Push(t.ring, item), pushed := if t.ring.available < MSS then t.pushed else t.pushed + [item])
    case PopOp =>
      t.(ring := Pop(t.ring, MSS), popped := if t.ring.used < MSS then t.popped else t.popped + [Read(t.ring, MSS)])
    case AckOp(_) =>
      t.(ring := Ack(t.ring), released := t.released + ReleasedBy(t.ring))
  }

  /** The traces between the operations of a run, over memory with the given bytes. */
  ghost predicate Played(bytes: seq<byte>, ops: seq<Op>, run: seq<Trace>)
  {
    && |bytes| == CAPACITY && |run| == |ops| + 1 && run[0] == Trace(Fresh(bytes), [], [], 0)
    && forall i {:trigger Perform(run[i], ops[i])} | 0 <= i < |ops| :: run[i + 1] == Perform(run[i], ops[i])
  }

  // ------------------------------------------------------------- the counters

  ghost predicate Counted(t: Trace)
  {
    var r := t.ring;
    && |t.popped| <= |t.pushed|
    && r.used == MSS * (|t.pushed| - |t.popped|)
    && r.notack == MSS * (|t.popped| - t.released)
    && r.available + r.used + r.notack == CAPACITY
    && r.head == MSS * (|t.pushed| % WS)
    && (r.tail == MSS * (|t.popped| % WS) || (r.tail == CAPACITY && |t.popped| % WS == 0))
    && r.ack == MSS * (t.released % WS)
  }

  lemma PushCounted(t: Trace, item: Block)
    requires Counted(t)
    ensures Counted(Perform(t, PushOp(item)))
  {
    NextSlot(|t.pushed|);
    hide SlotOf, Mark;
  }

  lemma PopCounted(t: Trace)
    requires Counted(t)
    ensures Counted(Perform(t, PopOp))
  {
    NextSlot(|t.popped|);
    hide SlotOf, Mark;
  }

  lemma AckCounted(t: Trace, index: int)
    requires Counted(t)
    ensures Counted(Perform(t, AckOp(index)))
  {
    MoreSlots(t.released, ReleasedBy(t.ring));
    hide SlotOf, Mark, ZeroRun, Onward;
  }

  lemma PerformCounted(t: Trace, op: Op)
    requires Counted(t)
    ensures Counted(Perform(t, op))
  {
    hide Counted, Perform;
    match op
    case PushOp(item) => PushCounted(t, item);
    case PopOp => PopCounted(t);
    case AckOp(index) => AckCounted(t, index);
  }

  lemma NextSlot(p: nat)
    ensures MSS * ((p + 1) % WS) == (MSS * (p % WS) + MSS) % CAPACITY
    ensures MSS * ((p + 1) % WS) == if p % WS == WS - 1 then 0 else MSS * (p % WS) + MSS
  {
  }

  lemma MoreSlots(k: nat, n: nat)
    ensures MSS * ((k + n) % WS) == Onward(MSS * (k % WS), n)
  {
  }

  /** Conservation: in every run the three counters add up to the capacity, and the
      three pointers are apart by what the counters say, modulo the capacity. */
  lemma {:induction false} CountersConserved(bytes: seq<byte>, ops: seq<Op>, run: seq<Trace>, n: nat)
    requires Played(bytes, ops, run) && n <= |ops|
    ensures Counted(run[n])
    ensures var r := run[n].ring;
            && r.available + r.used + r.notack == CAPACITY
            && r.head % CAPACITY == (r.tail + r.used) % CAPACITY
            && r.tail % CAPACITY == (r.ack + r.notack) % CAPACITY
  {
    hide Perform;
    if n == 0 {
    } else {
      CountersConserved(bytes, ops, run, n - 1);
      PerformCounted(run[n - 1], ops[n - 1]);
    }
    Congruent(run[n]);
  }

  lemma Congruent(t: Trace)
    requires Counted(t)
    ensures var r := t.ring;
            && r.head % CAPACITY == (r.tail + r.used) % CAPACITY
            && r.tail % CAPACITY == (r.ack + r.notack) % CAPACITY
  {
    SlotsApart(|t.pushed|, |t.popped|);
    SlotsApart(|t.popped|, t.released);
  }

  lemma SlotsApart(a: int, b: int)
    ensures MSS * (a % WS) == (MSS * (b % WS) + MSS * (a - b)) % CAPACITY
  {
    var q := a / WS - b / WS;
    assert MSS * (b % WS) + MSS * (a - b) == MSS * (a % WS) + CAPACITY * q;
  }

  // ------------------------------------------------------------- the contents

  /** Slot (p + 1) mod WS holds push p until push p + WS replaces it; slot 0 holds the
      initial bytes until the ring has gone round. */
  ghost predicate Holds(t: Trace, initial: seq<byte>)
  {
    && |initial| == CAPACITY && |t.ring.bytes| == CAPACITY
    && (forall p: nat | |t.pushed| - WS <= p < |t.pushed| :: BlockAt(t.ring.bytes, (p + 1) % WS) == t.pushed[p])
    && (|t.pushed| < WS ==> BlockAt(t.ring.bytes, 0) == BlockAt(initial, 0))
  }

  lemma SlotsDiffer(p: nat, q: nat)
    requires q < p < q + WS
    ensures p % WS != q % WS
  {
  }

  lemma NextHead(t: Trace)
    requires Counted(t)
    ensures Advance(t.ring.head) == (|t.pushed| + 1) % WS * MSS
  {
    NextSlot(|t.pushed|);
  }

  lemma PerformHolds(t: Trace, op: Op, initial: seq<byte>)
    requires Counted(t) && Holds(t, initial)
    ensures Holds(Perform(t, op), initial)
  {
    hide Overwrite, BlockAt, Counted, SlotOf, Mark, ZeroRun, Released, Onward;
    var u := Perform(t, op);
    if op.PushOp? && t.ring.available >= MSS {
      assert u.pushed == t.pushed + [op.item];
      var at := (|t.pushed| + 1) % WS;
      NextHead(t);
      assert u.ring.bytes == Overwrite(t.ring.bytes, at * MSS, op.item);
      hide Perform;
      forall p: nat | |u.pushed| - WS <= p < |u.pushed|
        ensures BlockAt(u.ring.bytes, (p + 1) % WS) == u.pushed[p]
      {
        OverwriteBlock(t.ring.bytes, at, op.item, (p + 1) % WS);
        if p < |t.pushed| {
          SlotsDiffer(|t.pushed| + 1, p + 1);
        }
      }
      OverwriteBlock(t.ring.bytes, at, op.item, 0);
    }
  }

  lemma {:induction false} RunHolds(bytes: seq<byte>, ops: seq<Op>, run: seq<Trace>, n: nat)
    requires Played(bytes, ops, run) && n <= |ops|
    ensures Holds(run[n], bytes)
  {
    hide Perform, Holds;
    if n == 0 {
      FreshHolds(bytes);
    } else {
      RunHolds(bytes, ops, run, n - 1);
      CountersConserved(bytes, ops, run, n - 1);
      PerformHolds(run[n - 1], ops[n - 1], bytes);
    }
  }

  lemma FreshHolds(bytes: seq<byte>)
    requires |bytes| == CAPACITY
    ensures Holds(Trace(Fresh(bytes), [], [], 0), bytes)
  {
  }

  /** The push whose bytes pop number j returns while `used` bytes are waiting. */
  function Source(j: int, used: int): int
  {
    j - 1 + WS * (used / CAPACITY)
  }

  lemma ReadIsBlock(r: Ring, j: nat)
    requires Shape(r)
    requires r.tail == MSS * (j % WS) || (r.tail == CAPACITY && j % WS == 0)
    ensures Read(r, MSS) == BlockAt(r.bytes, j % WS)
  {
    forall i | 0 <= i < MSS
      ensures Read(r, MSS)[i] == BlockAt(r.bytes, j % WS)[i]
    {
      assert (r.tail + i) % CAPACITY == MSS * (j % WS) + i;
    }
  }

  /** What a pop returns, in every reachable state: never the block it should, but the
      push before it while the ring is not full, and the newest push of all when it is;
      the very first pop returns memory that was never written. */
  lemma PopReturns(bytes: seq<byte>, ops: seq<Op>, run: seq<Trace>, n: nat)
    requires Played(bytes, ops, run) && n <= |ops|
    requires run[n].ring.used >= MSS
    ensures var t := run[n];
            var j := |t.popped|;
            var s := Source(j, t.ring.used);
            && -1 <= s < |t.pushed|
            && Read(t.ring, MSS) == (if s < 0 then BlockAt(bytes, 0) else t.pushed[s])
            && (s == j - 1 <==> t.ring.used < CAPACITY)
  {
    hide Perform, Fresh, BlockAt, Source, Read;
    var t := run[n];
    var j := |t.popped|;
    CountersConserved(bytes, ops, run, n);
    RunHolds(bytes, ops, run, n);
    ReadIsBlock(t.ring, j);
    SourceInWindow(j, |t.pushed|);
  }

  lemma SourceInWindow(j: nat, pushes: nat)
    requires j < pushes
    ensures var s := Source(j, MSS * (pushes - j));
            && -1 <= s < pushes && pushes - WS <= s && (s + 1) % WS == j % WS
            && (s < 0 ==> j == 0 && pushes < WS)
            && (s == j - 1 <==> MSS * (pushes - j) < CAPACITY)
  {
    var q := (pushes - j) / WS;
    assert MSS * (pushes - j) / CAPACITY == q;
    assert (j + WS * q) % WS == j % WS;
  }

  /** As long as the ring is never full, popping lags pushing by exactly one block. */
  lemma {:induction false} DelayedByOne(bytes: seq<byte>, ops: seq<Op>, run: seq<Trace>, n: nat)
    requires Played(bytes, ops, run) && n <= |ops|
    requires forall m | 0 <= m < n :: run[m].ring.used < CAPACITY
    ensures var t := run[n];
            && |t.popped| <= |t.pushed|
            && (forall j | 1 <= j < |t.popped| :: t.popped[j] == t.pushed[j - 1])
            && (t.popped != [] ==> t.popped[0] == BlockAt(bytes, 0))
  {
    hide Perform, Counted, Source, BlockAt, Read;
    if n == 0 {
      FreshCounted(bytes);
    } else {
      DelayedByOne(bytes, ops, run, n - 1);
      var t := run[n - 1];
      PerformLogs(t, ops[n - 1]);
      CountersConserved(bytes, ops, run, n - 1);
      CountersConserved(bytes, ops, run, n);
      PopsBehind(t);
      PopsBehind(run[n]);
      if ops[n - 1].PopOp? && t.ring.used >= MSS {
        PopReturns(bytes, ops, run, n - 1);
        SourceIs(|t.popped|, t.ring.used);
      }
    }
  }

  lemma FreshCounted(bytes: seq<byte>)
    requires |bytes| == CAPACITY
    ensures Counted(Trace(Fresh(bytes), [], [], 0))
  {
  }

  lemma PopsBehind(t: Trace)
    requires Counted(t)
    ensures |t.popped| <= |t.pushed|
  {
  }

  lemma SourceIs(j: int, used: int)
    requires 0 <= used < CAPACITY
    ensures Source(j, used) == j - 1
  {
  }

  lemma PerformLogs(t: Trace, op: Op)
    ensures var u := Perform(t, op);
            && t.pushed <= u.pushed
            && u.popped == if op.PopOp? && t.ring.used >= MSS then t.popped + [Read(t.ring, MSS)] else t.popped
  {
  }

  // ------------------------------------------------------------- the slot table

  /** In a state of a run, an accepted push marks the slot of its number with 1, except the
      last slot of the table, which no push marks; a pop clears the slot of its number. */
  lemma SlotsMarked(t: Trace, item: Block)
    requires Counted(t)
    ensures var p := |t.pushed| % WS;
            t.ring.available >= MSS ==>
              Perform(t, PushOp(item)).ring.table == if p < WS - 1 then t.ring.table[p := 1] else t.ring.table
    ensures t.ring.used >= MSS ==>
              Perform(t, PopOp).ring.table == t.ring.table[|t.popped| % WS := 0]
  {
    var p, q := |t.pushed| % WS, |t.popped| % WS;
    NextSlot(|t.pushed|);
    NextSlot(|t.popped|);
    SlotOfBlock(p);
    SlotOfBlock(q);
    assert SlotOf(Advance(t.ring.head) - MSS) == if p < WS - 1 then p else -1;
    hide SlotOf;
    if t.ring.used >= MSS {
      assert Pop(t.ring, MSS).tail == MSS * q + MSS;
    }
  }

  // --------------------------------------------------------- acknowledgements

  /** An acknowledgement releases the whole run of zero slots, used or not: the first
      one after a single push and pop takes all WS slots and drives notack below zero. */
  lemma FirstAckOvershoots(bytes: seq<byte>, item: Block, run: seq<Trace>)
    requires Played(bytes, [PushOp(item), PopOp, AckOp(0)], run)
    ensures run[3].released == WS && run[3].ring.notack == MSS - CAPACITY && run[3].ring.available == 2 * CAPACITY - MSS
  {
    var ops := [PushOp(item), PopOp, AckOp(0)];
    var t0 := run[0];
    var t1 := Perform(t0, ops[0]);
    assert t1 == run[1] && t1.ring.table == t0.ring.table[0 := 1];
    var t2 := Perform(t1, ops[1]);
    assert t2 == run[2] && t2.ring.table == t0.ring.table;
    assert run[3] == Perform(t2, ops[2]);
    assert forall s | 0 <= s < WS :: t2.ring.table[s] == 0;
  }

  lemma RunLength(table: seq<int>, k: nat, z: nat)
    requires |table| == WS && z <= WS
    requires forall i | 0 <= i < z :: table[Around(k, i)] == 0
    requires z < WS ==> table[Around(k, z)] != 0
    ensures ZeroRun(table, k, 0) == z
  {
    hide Around;
  }

  lemma MarkedAt(table: seq<int>, k: nat, i: nat)
    requires |table| == WS && k < WS && i < WS
    ensures Mark(table, k - 1, 2)[Around(k, i)] == if k > 0 && i == WS - 1 then 2 else table[Around(k, i)]
  {
  }

  /** Marking the slot before the ack pointer only keeps the run from going all round. */
  lemma MarkedRun(r: Ring)
    requires Shape(r)
    ensures var k := r.ack / MSS; var z := ZeroRun(r.table, k, 0);
            ZeroRun(Mark(r.table, SlotOf(r.ack - MSS), 2), k, 0) == if k > 0 && z == WS then WS - 1 else z
  {
    hide ZeroRun, Mark, SlotOf;
    var k := r.ack / MSS;
    var z := ZeroRun(r.table, k, 0);
    var marked := Mark(r.table, SlotOf(r.ack - MSS), 2);
    SlotBefore(r.ack);
    forall i | 0 <= i < WS
      ensures marked[Around(k, i)] == if k > 0 && i == WS - 1 then 2 else r.table[Around(k, i)]
    {
      MarkedAt(r.table, k, i);
    }
    hide Around;
    RunLength(marked, k, if k > 0 && z == WS then WS - 1 else z);
  }

  /** An acknowledgement leaves notack non-negative exactly when no more slots from the ack
      pointer on are zero than packets wait to be acknowledged. */
  lemma NotackNonNegativeIff(r: Ring)
    requires Shape(r)
    ensures var k := r.ack / MSS; var z := ZeroRun(r.table, k, 0); var all := if k > 0 then WS - 1 else WS;
            Ack(r).notack >= 0 <==> if r.notack < MSS then r.notack >= 0 else Min2(z, all) * MSS <= r.notack
  {
    hide ZeroRun, Mark, SlotOf, Around, Released, Onward;
    MarkedRun(r);
  }

  // -------------------------------------------------------------- the unmarked slot

  /** All slots but the last are used once, then the last is pushed, and an acknowledgement
      arrives while that block still waits. */
  function LastSlotOps(item: Block): seq<Op>
  {
    seq(2 * WS - 1, i => if i % 2 == 0 then PushOp(item) else PopOp) + [AckOp(0)]
  }

  /** After j blocks nothing waits and every slot is zero. */
  ghost predicate Even(t: Trace, j: nat)
  {
    && Counted(t) && |t.pushed| == |t.popped| == j && t.released == 0
    && forall s | 0 <= s < WS :: t.ring.table[s] == 0
  }

  lemma EvenStep(t: Trace, item: Block, j: nat)
    requires Even(t, j) && j < WS - 1
    ensures Even(Perform(Perform(t, PushOp(item)), PopOp), j + 1)
  {
    var u := Perform(t, PushOp(item));
    PerformCounted(t, PushOp(item));
    PerformLogs(t, PushOp(item));
    SlotsMarked(t, item);
    assert u.ring.used == MSS && u.released == 0 && |u.pushed| == j + 1;
    hide Perform;
    PerformCounted(u, PopOp);
    SlotsMarked(u, item);
    PopLogs(u);
  }

  lemma PopLogs(t: Trace)
    ensures var u := Perform(t, PopOp);
            && u.pushed == t.pushed && u.released == t.released
            && (t.ring.used >= MSS ==> |u.popped| == |t.popped| + 1)
  {
  }

  lemma {:induction false} EvenAlong(bytes: seq<byte>, item: Block, run: seq<Trace>, j: nat)
    requires Played(bytes, LastSlotOps(item), run) && j <= WS - 1
    ensures Even(run[2 * j], j)
  {
    hide Perform, Even;
    var ops := LastSlotOps(item);
    if j == 0 {
      NothingPlayed(bytes);
    } else {
      EvenAlong(bytes, item, run, j - 1);
      assert ops[2 * j - 2] == PushOp(item) && ops[2 * j - 1] == PopOp;
      assert run[2 * j - 1] == Perform(run[2 * j - 2], ops[2 * j - 2]);
      assert run[2 * j] == Perform(run[2 * j - 1], ops[2 * j - 1]);
      EvenStep(run[2 * j - 2], item, j - 1);
    }
  }

  lemma NothingPlayed(bytes: seq<byte>)
    requires |bytes| == CAPACITY
    ensures Even(Trace(Fresh(bytes), [], [], 0), 0)
  {
  }

  /** The last slot is not guarded: an acknowledgement releases it with the block still
      waiting in it, so more slots have been released than blocks popped. */
  lemma LastSlotUnguarded(bytes: seq<byte>, item: Block, run: seq<Trace>)
    requires Played(bytes, LastSlotOps(item), run)
    ensures var t := run[2 * WS];
            t.ring.used == MSS && |t.popped| == WS - 1 && t.released == WS && t.ring.notack == 0 - MSS
  {
    hide Perform;
    var ops := LastSlotOps(item);
    var t, u := run[2 * WS - 2], run[2 * WS - 1];
    EvenAlong(bytes, item, run, WS - 1);
    assert ops[2 * WS - 2] == PushOp(item) && ops[2 * WS - 1] == AckOp(0);
    assert u == Perform(t, ops[2 * WS - 2]) && run[2 * WS] == Perform(u, ops[2 * WS - 1]);
    LastPush(t, item);
    LastAck(u);
  }

  lemma LastPush(t: Trace, item: Block)
    requires Even(t, WS - 1)
    ensures var u := Perform(t, PushOp(item));
            && u.ring.used == MSS && u.ring.notack == MSS * (WS - 1) && u.ring.ack == 0
            && |u.popped| == WS - 1 && u.released == 0 && forall s | 0 <= s < WS :: u.ring.table[s] == 0
  {
    PerformCounted(t, PushOp(item));
    SlotsMarked(t, item);
    hide SlotOf, Mark, Advance;
  }

  lemma LastAck(u: Trace)
    requires u.ring.used == MSS && u.ring.notack == MSS * (WS - 1) && u.ring.ack == 0
    requires u.released == 0 && forall s | 0 <= s < WS :: u.ring.table[s] == 0
    ensures var t := Perform(u, AckOp(0));
            t.ring.used == MSS && t.popped == u.popped && t.released == WS && t.ring.notack == 0 - MSS
  {
    assert Mark(u.ring.table, SlotOf(u.ring.ack - MSS), 2) == u.ring.table;
    hide Onward, Released, SlotOf, Mark;
  }
}
