/** One whole iteration of the sender daemon in closed form. */
module SenderSteps {
  import opened Common
  import opened CircularBuffers
  import opened Timers
  import opened SenderDaemons

  // ------------------------------------------------ the ring within an iteration

  /** Between iterations, after `a` accepted blocks: nothing waits and no slot is 1. */
  ghost predicate Idle(r: GoodRing, a: nat)
  {
    && r.used == 0 && r.head == MSS * (a % WS)
    && (r.tail == r.head || (r.tail == CAPACITY && r.head == 0))
    && forall s | 0 <= s < WS :: r.table[s] != 1
  }

  /** Within an iteration, once block number a has been pushed: its slot, and only its slot,
      may be 1, and it is not zero unless it is the last one, which a push never marks. */
  ghost predicate Loaded(r: GoodRing, a: nat)
  {
    && r.used == MSS && r.head == MSS * ((a + 1) % WS)
    && (r.tail == MSS * (a % WS) || (r.tail == CAPACITY && a % WS == 0))
    && (a % WS < WS - 1 ==> r.table[a % WS] != 0)
    && forall s | 0 <= s < WS && s != a % WS :: r.table[s] != 1
  }

  function Total(r: Ring): int
  {
    r.available + r.used + r.notack
  }

  lemma PushLoads(r: GoodRing, a: nat, b: Block)
    requires Idle(r, a) && r.available >= MSS
    ensures Loaded(Push(r, b), a) && Total(Push(r, b)) == Total(r)
    ensures Push(r, b).table == if a % WS < WS - 1 then r.table[a % WS := 1] else r.table
  {
    SlotOfBlock(a % WS);
    assert (a + 1) % WS == if a % WS + 1 < WS then a % WS + 1 else 0;
    assert SlotOf(Advance(r.head) - MSS) == if a % WS < WS - 1 then a % WS else -1;
    hide SlotOf;
  }

  lemma AckKeeps(r: GoodRing, a: nat)
    ensures Idle(r, a) ==> Idle(Ack(r), a)
    ensures Loaded(r, a) ==> Loaded(Ack(r), a)
    ensures Total(Ack(r)) == Total(r)
  {
    forall s | 0 <= s < WS
      ensures r.table[s] != 1 ==> Ack(r).table[s] != 1
      ensures r.table[s] != 0 ==> Ack(r).table[s] != 0
    {
    }
  }

  lemma PopUnloads(r: GoodRing, a: nat)
    requires Loaded(r, a)
    ensures Idle(Pop(r, MSS), a + 1) && Total(Pop(r, MSS)) == Total(r)
  {
    assert (a + 1) % WS == if a % WS + 1 < WS then a % WS + 1 else 0;
    PopIs(r, a % WS);
    hide Pop;
  }

  lemma PopIs(r: GoodRing, s: nat)
    requires s < WS && r.used == MSS && (r.tail == MSS * s || (r.tail == CAPACITY && s == 0))
    ensures Pop(r, MSS) == r.(tail := MSS * s + MSS, used := 0, notack := r.notack + MSS, table := r.table[s := 0])
  {
    SlotOfBlock(s);
    hide SlotOf;
    assert Pop(r, MSS).tail == MSS * s + MSS;
  }

  lemma GetKeeps(r: GoodRing, a: nat, k: nat)
    ensures Idle(r, a) ==> Get(r, k) == r
    ensures Loaded(r, a) ==> Loaded(Get(r, k), a)
    ensures Loaded(r, a) && k % WS != a % WS ==> Get(r, k) == r
  {
  }

  // ------------------------------------------------------------ the closed form

  predicate Takes(d: Daemon, client: Option<Block>)
  {
    client.Some? && d.ring.available >= MSS
  }

  function StartMsg(k: int): Message
  {
    Message('s', k, TIMER_PORT, TIMER_TICKS)
  }

  /** The ring as the retransmission handler finds it. */
  function MidRing(d: Daemon, client: Option<Block>, ack: Option<AckIn>): GoodRing
  {
    var r: GoodRing := if client.Some? then Push(d.ring, client.value) else d.ring;
    if ack.Some? then Ack(r) else r
  }

  ghost predicate Ready(d: Daemon, a: nat)
  {
    && Idle(d.ring, a) && d.packetCount == d.packetCountClient == a
    && d.sendMsg == StartMsg(d.sendMsg.seqNo)
  }

  lemma MidRingState(d: Daemon, a: nat, client: Option<Block>, ack: Option<AckIn>)
    requires Ready(d, a)
    ensures var r := MidRing(d, client, ack);
            && Total(r) == Total(d.ring)
            && (if Takes(d, client) then Loaded(r, a) else Idle(r, a))
  {
    hide Idle, Loaded, Total, Push, Ack;
    if client.Some? {
      if Takes(d, client) {
        PushLoads(d.ring, a, client.value);
      } else {
        RefusedPush(d.ring, client.value);
      }
    }
    AckKeeps(d.ring, a);
    if client.Some? {
      AckKeeps(Push(d.ring, client.value), a);
    }
  }

  lemma RefusedPush(r: GoodRing, b: Block)
    requires r.available < MSS
    ensures Push(r, b) == r
  {
  }

  /** The daemon before the pop of an iteration. */
  function BeforePop(d: Daemon, client: Option<Block>, ack: Option<AckIn>, expiry: Option<nat>): Daemon
  {
    var d1 := if client.Some? then OnClient(d, client.value) else d;
    var d2 := if ack.Some? then OnAck(d1, ack.value) else d1;
    if expiry.Some? then OnExpiry(d2, expiry.value) else d2
  }

  /** The message for acknowledgements: a cancel until something is transmitted, and then a
      start with the current timeout that is never sent as such. */
  function Restamped(d: Daemon, ack: Option<AckIn>, sent: bool, rto: int): Message
  {
    Message(if sent then 's' else if ack.Some? then 'c' else d.ackMsg.kind,
            if ack.Some? then ack.value.seqNo else d.ackMsg.seqNo,
            d.ackMsg.port, if sent then rto else d.ackMsg.time)
  }

  lemma BeforePopIs(d: Daemon, a: nat, client: Option<Block>, ack: Option<AckIn>, expiry: Option<nat>)
    requires Ready(d, a)
    ensures var e := BeforePop(d, client, ack, expiry); var r := MidRing(d, client, ack);
            && e.ring == (if expiry.Some? then Get(r, expiry.value) else r)
            && e.recv == (if client.Some? then client.value else d.recv)
            && e.body == (if expiry.Some? then Reloaded(r, expiry.value, d.body) else d.body)
            && e.packetCount == a
            && e.packetCountClient == (if Takes(d, client) then a + 1 else a)
            && e.acked == d.acked + (if ack.Some? then MSS else 0)
            && e.sendMsg == StartMsg(if expiry.Some? then expiry.value else d.sendMsg.seqNo)
            && e.toClient == d.toClient + (if client.Some? then [d.ring.available - MSS] else [])
            && e.packets == d.packets + (if expiry.Some? then [Packet(expiry.value, e.body)] else [])
            && e.toTimer == d.toTimer + (if ack.Some? then [d.ackMsg.(seqNo := ack.value.seqNo, kind := 'c')] else [])
                            + (if expiry.Some? then [StartMsg(expiry.value)] else [])
            && e.est == (if ack.Some? then Estimated(d.est, ack.value) else d.est)
            && e.rto == (if ack.Some? then Max2(ComputedRto(Estimated(d.est, ack.value), Sample(ack.value)), MIN_RTO)
                         else d.rto)
            && e.ackMsg == Restamped(d, ack, expiry.Some?, e.rto)
  {
    hide Push, Ack, Get, Reloaded, ComputedRto, Estimated, Idle;
  }

  /** The whole iteration: a block offered by the client is either taken, and then sent
      in the same iteration under the next number with exactly its own bytes, or leaves
      no trace but a negative reply. */
  lemma IterationIs(d: Daemon, a: nat, size: int, client: Option<Block>, ack: Option<AckIn>, expiry: Option<nat>)
    requires Ready(d, a)
    ensures var e := Iteration(d, size, client, ack, expiry); var took := Takes(d, client);
            var again := if expiry.Some? then Reloaded(MidRing(d, client, ack), expiry.value, d.body) else d.body;
            && Ready(e, if took then a + 1 else a)
            && e.body == (if took then client.value else again)
            && e.acked == d.acked + (if ack.Some? then MSS else 0)
            && e.done == (e.acked >= size)
            && e.toClient == d.toClient + (if client.Some? then [d.ring.available - MSS] else [])
            && e.packets == d.packets + (if expiry.Some? then [Packet(expiry.value, again)] else [])
                            + (if took then [Packet(a, client.value)] else [])
            && e.toTimer == d.toTimer + (if ack.Some? then [d.ackMsg.(seqNo := ack.value.seqNo, kind := 'c')] else [])
                            + (if expiry.Some? then [StartMsg(expiry.value)] else [])
                            + (if took then [StartMsg(a)] else [])
            && e.est == (if ack.Some? then Estimated(d.est, ack.value) else d.est)
            && e.rto == (if ack.Some? then Max2(ComputedRto(Estimated(d.est, ack.value), Sample(ack.value)), MIN_RTO)
                         else d.rto)
            && e.ackMsg == Restamped(d, ack, expiry.Some? || took, e.rto)
  {
    MidRingState(d, a, client, ack);
    BeforePopIs(d, a, client, ack, expiry);
    var r := MidRing(d, client, ack);
    var b := BeforePop(d, client, ack, expiry);
    if expiry.Some? {
      GetKeeps(r, a, expiry.value);
    }
    if Takes(d, client) {
      PopUnloads(b.ring, a);
    }
    hide MidRing, BeforePop, Get, Reloaded, ComputedRto, Estimated, Pop;
    assert Iteration(d, size, client, ack, expiry) == OnPop(b).(done := OnPop(b).acked >= size) by {
      IterationPops(d, size, client, ack, expiry);
    }
    assert Takes(d, client) <==> b.ring.used >= MSS;
  }

  lemma IterationPops(d: Daemon, size: int, client: Option<Block>, ack: Option<AckIn>, expiry: Option<nat>)
    ensures var p := OnPop(BeforePop(d, client, ack, expiry));
            Iteration(d, size, client, ack, expiry) == p.(done := p.acked >= size)
  {
    hide OnClient, OnAck, OnExpiry, OnPop;
  }

  lemma BytesOfIteration(d: Daemon, a: nat, size: int, client: Option<Block>, ack: Option<AckIn>, expiry: Option<nat>)
    requires Ready(d, a)
    ensures var bytes := MidRing(d, client, ack).bytes;
            && bytes == (if Takes(d, client) then Overwrite(d.ring.bytes, (a + 1) % WS * MSS, client.value)
                         else d.ring.bytes)
            && Iteration(d, size, client, ack, expiry).ring.bytes == bytes
  {
    if Takes(d, client) {
      assert Advance(d.ring.head) == (a + 1) % WS * MSS;
    }
    BeforePopIs(d, a, client, ack, expiry);
    IterationPops(d, size, client, ack, expiry);
    hide Iteration, BeforePop, Advance, Overwrite, ReleaseRun, SlotOf;
  }

  lemma NextSlotDiffers(a: nat)
    ensures (a + 1) % WS != a % WS
  {
  }

  /** The slot a block is reloaded from is the one before the slot being filled. */
  lemma SlotOfIteration(d: Daemon, a: nat, size: int, client: Option<Block>, ack: Option<AckIn>, expiry: Option<nat>)
    requires Ready(d, a)
    ensures BlockAt(MidRing(d, client, ack).bytes, a % WS) == BlockAt(d.ring.bytes, a % WS)
    ensures BlockAt(Iteration(d, size, client, ack, expiry).ring.bytes, (if Takes(d, client) then a + 1 else a) % WS) ==
            if Takes(d, client) then client.value else BlockAt(d.ring.bytes, a % WS)
  {
    hide Iteration, MidRing, Overwrite, BlockAt, Ready;
    BytesOfIteration(d, a, size, client, ack, expiry);
    if Takes(d, client) {
      NextSlotDiffers(a);
      OverwriteBlock(d.ring.bytes, (a + 1) % WS, client.value, a % WS);
      OverwriteBlock(d.ring.bytes, (a + 1) % WS, client.value, (a + 1) % WS);
    }
  }

  /** Whether the retransmission handler reloads the packet from the ring. */
  predicate Reloads(d: Daemon, client: Option<Block>, ack: Option<AckIn>, expiry: Option<nat>)
  {
    expiry.Some? && MidRing(d, client, ack).table[expiry.value % WS] == 1
  }

  /** A reload needs a block pushed in the same iteration into the very slot of the expired
      packet.  It then happens unless the slot is the last one, which a push never marks, or
      an acknowledgement of the same iteration marks the slot as the one before the ack
      pointer. */
  lemma ReloadsIff(d: Daemon, a: nat, client: Option<Block>, ack: Option<AckIn>, expiry: Option<nat>)
    requires Ready(d, a)
    ensures Reloads(d, client, ack, expiry) <==>
            && expiry.Some? && Takes(d, client) && expiry.value % WS == a % WS && a % WS < WS - 1
            && !(ack.Some? && d.ring.notack >= MSS && d.ring.ack == MSS * (a % WS) + MSS)
  {
    hide Push, Ack, Loaded;
    MidRingState(d, a, client, ack);
    if Takes(d, client) {
      var r := Push(d.ring, client.value);
      PushLoads(d.ring, a, client.value);
      PushKeepsAck(d.ring, client.value);
      if a % WS < WS - 1 {
        AckMarks(r, a % WS);
      } else {
        IdleSlots(d.ring, a);
        AckNeverMarks(r, a % WS);
      }
      assert forall s | 0 <= s < WS && s != a % WS :: MidRing(d, client, ack).table[s] != 1 by {
        LoadedSlots(MidRing(d, client, ack), a);
      }
    }
  }

  lemma IdleSlots(r: GoodRing, a: nat)
    requires Idle(r, a)
    ensures forall s | 0 <= s < WS :: r.table[s] != 1
  {
  }

  lemma AckNeverMarks(r: GoodRing, s: nat)
    requires s < WS && r.table[s] != 1
    ensures Ack(r).table[s] != 1
  {
    hide Onward, ZeroRun;
  }

  lemma LoadedSlots(r: GoodRing, a: nat)
    requires Loaded(r, a)
    ensures forall s | 0 <= s < WS && s != a % WS :: r.table[s] != 1
  {
  }

  lemma PushKeepsAck(r: GoodRing, b: Block)
    ensures Push(r, b).ack == r.ack && Push(r, b).notack == r.notack
  {
  }

  /** The release stops at the first slot that is not zero, going round from the ack
      pointer, and changes no slot from there on. */
  lemma RunStops(r: GoodRing, s: nat)
    requires s < WS && r.table[s] != 0
    ensures r.available <= ReleaseRun(r).available <= r.available + MSS * ((s - r.ack / MSS) % WS)
    ensures ReleaseRun(r).table[s] == r.table[s]
    ensures forall i | (s - r.ack / MSS) % WS <= i < WS ::
              ReleaseRun(r).table[Around(r.ack / MSS, i)] == r.table[Around(r.ack / MSS, i)]
  {
    hide ReleaseRun, ZeroRun, Around;
    var k := r.ack / MSS;
    var j := (s - k) % WS;
    SameSlot(s, k, j);
    ReleaseIsMaximal(r);
    forall i | j <= i < WS
      ensures ReleaseRun(r).table[Around(k, i)] == r.table[Around(k, i)]
    {
      AroundOnce(k, i);
    }
  }

  /** What an acknowledgement does to a slot marked 1. */
  lemma AckMarks(r: GoodRing, s: nat)
    requires s < WS && r.table[s] == 1
    ensures Ack(r).table[s] == if r.notack >= MSS && r.ack == MSS * s + MSS then 2 else 1
  {
    hide ReleaseRun, SlotOf;
    if r.notack >= MSS {
      SlotBefore(r.ack);
      RunStops(r.(table := Mark(r.table, SlotOf(r.ack - MSS), 2)), s);
    }
  }

  /** An acknowledgement releases no slot from a waiting block on: going round from the ack
      pointer, it stops at the first slot that is not zero. */
  lemma AckStopsAt(r: GoodRing, s: nat)
    requires s < WS && r.table[s] != 0
    ensures r.available <= Ack(r).available <= r.available + MSS * ((s - r.ack / MSS) % WS)
    ensures forall i | (s - r.ack / MSS) % WS <= i < WS - 1 ::
              Ack(r).table[Around(r.ack / MSS, i)] == r.table[Around(r.ack / MSS, i)]
  {
    hide ReleaseRun, SlotOf, Around;
    if r.notack >= MSS {
      var k := r.ack / MSS;
      var marked := r.(table := Mark(r.table, SlotOf(r.ack - MSS), 2));
      SlotBefore(r.ack);
      RunStops(marked, s);
      forall i | (s - k) % WS <= i < WS - 1
        ensures Ack(r).table[Around(k, i)] == r.table[Around(k, i)]
      {
        SlotApart(k, i);
      }
    }
  }

  lemma SlotApart(k: nat, i: nat)
    requires k < WS && i < WS - 1
    ensures Around(k, i) != k - 1
  {
  }

  lemma AroundOnce(k: nat, i: nat)
    requires i < WS
    ensures forall j: nat | j < i :: Around(k, j) != Around(k, i)
  {
    forall j: nat | j < i
      ensures Around(k, j) != Around(k, i)
    {
      SameSlot(Around(k, i), k, i);
      SameSlot(Around(k, i), k, j);
    }
  }

  /** An iteration keeps the sum of the ring's counters exactly when it does not reload a
      packet; a retransmission then goes out with the daemon's last body.  A reload needs
      a block pushed in the same iteration into the very slot of the expired packet. */
  lemma CountersKeptUnlessReloaded(d: Daemon, a: nat, size: int,
                                   client: Option<Block>, ack: Option<AckIn>, expiry: Option<nat>)
    requires Ready(d, a)
    ensures Total(Iteration(d, size, client, ack, expiry).ring) ==
            Total(d.ring) + if Reloads(d, client, ack, expiry) then MSS else 0
    ensures expiry.Some? && !Reloads(d, client, ack, expiry) ==>
              Reloaded(MidRing(d, client, ack), expiry.value, d.body) == d.body
    ensures Reloads(d, client, ack, expiry) ==> Takes(d, client) && expiry.value % WS == a % WS
  {
    MidRingState(d, a, client, ack);
    BeforePopIs(d, a, client, ack, expiry);
    IterationPops(d, size, client, ack, expiry);
    var r := MidRing(d, client, ack);
    var b := BeforePop(d, client, ack, expiry);
    if expiry.Some? {
      GetKeeps(r, a, expiry.value);
    }
    if Takes(d, client) {
      PopUnloads(b.ring, a);
    }
    hide MidRing, BeforePop, ComputedRto, Estimated, Pop, Iteration;
  }

  // ------------------------------------------------------------------ the window

  lemma AckSpace(r: GoodRing)
    ensures r.available <= Ack(r).available <= r.available + CAPACITY
  {
    hide ZeroRun, Mark, Released, Onward;
  }

  /** An iteration uses up one packet of space for a block it takes, and an acknowledgement
      gives back at most one round of the ring, and with a block taken in the same iteration
      no more than the slots from the ack pointer up to that block's, unless that is the
      last slot. */
  lemma SpaceOfIteration(d: Daemon, a: nat, size: int, client: Option<Block>, ack: Option<AckIn>, expiry: Option<nat>)
    requires Ready(d, a)
    ensures var space := Iteration(d, size, client, ack, expiry).ring.available;
            var left := d.ring.available - if Takes(d, client) then MSS else 0;
            left <= space <= left + if ack.Some? then Freed(d, a, client) else 0
  {
    MidRingSpace(d, a, client, ack);
    BeforePopIs(d, a, client, ack, expiry);
    IterationPops(d, size, client, ack, expiry);
    hide Iteration, BeforePop, Advance, Overwrite, SlotOf, Mark, MidRing, Freed;
  }

  /** The most an acknowledgement can free in an iteration. */
  function Freed(d: Daemon, a: nat, client: Option<Block>): (f: nat)
    ensures f <= CAPACITY
  {
    if Takes(d, client) && a % WS < WS - 1 then MSS * ((a % WS - d.ring.ack / MSS) % WS) else CAPACITY
  }

  lemma MidRingSpace(d: Daemon, a: nat, client: Option<Block>, ack: Option<AckIn>)
    requires Ready(d, a)
    ensures var left := d.ring.available - if Takes(d, client) then MSS else 0;
            left <= MidRing(d, client, ack).available <= left + if ack.Some? then Freed(d, a, client) else 0
  {
    hide Ack, Advance, Overwrite, SlotOf, Mark, Idle, Loaded;
    AckSpace(if client.Some? then Push(d.ring, client.value) else d.ring);
    if Takes(d, client) {
      PushLoads(d.ring, a, client.value);
      if a % WS < WS - 1 {
        AckStopsAt(Push(d.ring, client.value), a % WS);
      }
    }
  }

  // ------------------------------------------------ the ring in two plain iterations

  /** A block is taken and nothing else happens. */
  lemma TakeRing(d: Daemon, a: nat, size: int, b: Block)
    requires Ready(d, a) && d.ring.available >= MSS
    ensures var r := Iteration(d, size, Option.Some(b), Option.None, Option.None).ring;
            && r.ack == d.ring.ack && r.notack == d.ring.notack + MSS && r.available == d.ring.available - MSS
            && r.table[a % WS] == 0
  {
    var client: Option<Block> := Option.Some(b);
    PushLoads(d.ring, a, b);
    PopIs(Push(d.ring, b), a % WS);
    PushKeepsAck(d.ring, b);
    BeforePopIs(d, a, client, Option.None, Option.None);
    IterationPops(d, size, client, Option.None, Option.None);
    hide Iteration, BeforePop, Pop, Idle, Advance, Overwrite, SlotOf, Mark;
  }

  /** An acknowledgement arrives and nothing else happens. */
  lemma AckRing(d: Daemon, a: nat, size: int, ack: AckIn)
    requires Ready(d, a)
    ensures Iteration(d, size, Option.None, Option.Some(ack), Option.None).ring == Ack(d.ring)
  {
    BeforePopIs(d, a, Option.None, Option.Some(ack), Option.None);
    IterationPops(d, size, Option.None, Option.Some(ack), Option.None);
    AckKeeps(d.ring, a);
    hide Iteration, BeforePop, Ack;
  }

  /** After j blocks, each acknowledged, q slots have been released, at least j of them. */
  ghost predicate Spacious(r: GoodRing, j: nat, q: nat)
  {
    j <= q && r.notack == MSS * (j - q) && r.ack == MSS * (q % WS) && r.available == CAPACITY - r.notack
  }

  /** If the one packet that waits for an acknowledgement has the slot at the ack pointer,
      an acknowledgement releases at least that slot. */
  lemma AckSpacious(r: GoodRing, j: nat, q: nat) returns (p: nat)
    requires j <= q && r.notack == MSS * (j + 1 - q) && r.ack == MSS * (q % WS)
    requires r.available == CAPACITY - r.notack && r.table[j % WS] == 0
    ensures Spacious(Ack(r), j + 1, p)
  {
    hide Ack, Around;
    if q > j {
      p := q;
      NoneWaiting(r);
    } else {
      var z := AckReleases(r, j % WS);
      p := q + z;
      AroundBeyond(j, z);
    }
  }

  lemma NoneWaiting(r: GoodRing)
    requires r.notack < MSS
    ensures Ack(r) == r
  {
  }

  lemma AroundBeyond(j: nat, z: nat)
    ensures Around(j % WS, z) == (j + z) % WS
  {
  }

  lemma AckReleases(r: GoodRing, k: nat) returns (z: nat)
    requires k < WS && r.notack == MSS && r.ack == MSS * k && r.table[k] == 0
    ensures 0 < z <= WS && Ack(r).notack == MSS - MSS * z && Ack(r).available == r.available + MSS * z
    ensures Ack(r).ack == MSS * Around(k, z)
  {
    hide SlotOf, Released, Onward, Mark, Around, ZeroRun;
    var marked := r.(table := Mark(r.table, SlotOf(r.ack - MSS), 2));
    FirstMarked(r, k);
    z := ZeroRun(marked.table, k, 0);
    ReleaseIsMaximal(marked);
  }

  lemma FirstMarked(r: GoodRing, k: nat)
    requires k < WS && r.ack == MSS * k && r.table[k] == 0
    ensures r.ack / MSS == k && ZeroRun(Mark(r.table, SlotOf(r.ack - MSS), 2), k, 0) > 0
  {
    SlotBefore(r.ack);
    hide SlotOf;
    assert Mark(r.table, k - 1, 2)[Around(k, 0)] == 0;
  }
}
