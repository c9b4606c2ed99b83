/** The client-side daemon: the body of its select loop, as a value and as an object. */
module SenderDaemons {
  import opened Common
  import opened CircularBuffers
  import opened Jacobson
  import opened Timers

  datatype Packet = Packet(seqNo: int, body: Block)

  /** An acknowledgement with its time stamp, and the clock when it is received. */
  datatype AckIn = AckIn(seqNo: int, stamp: Time, clock: Time)

  function Sample(a: AckIn): real
  {
    RttSample(a.clock, a.stamp)
  }

  const TIMER_PORT: int := 1234
  const TIMER_TICKS: int := 20
  const MIN_RTO: int := 5

  /** The daemon's variables and what waits in its outgoing sockets. */
  datatype Daemon = Daemon(
    ring: GoodRing, recv: Block, body: Block,
    packetCount: int, packetCountClient: int, acked: int,
    est: Estimate, rto: int, sendMsg: Message, ackMsg: Message, done: bool,
    toClient: seq<int>, toTimer: seq<Message>, packets: seq<Packet>)

  /** The state on entering the loop; what is uninitialised in C is a parameter. */
  function Entering(bytes: seq<byte>, recv: Block, body: Block, est: Estimate, rto: int, ackMsg: Message): Daemon
    requires |bytes| == CAPACITY
  {
    Daemon(Fresh(bytes), recv, body, 0, 0, 0, est, rto,
           Message('s', 20, TIMER_PORT, TIMER_TICKS), ackMsg, false, [], [], [])
  }

  // ------------------------------------------------------------- the handlers

  function OnClient(d: Daemon, block: Block): Daemon
  {
    d.(recv := block, ring := Push(d.ring, block),
       packetCountClient := d.packetCountClient + if d.ring.available < MSS then 0 else 1,
       toClient := d.toClient + [d.ring.available - MSS])
  }

  function Estimated(est: Estimate, a: AckIn): Estimate
  {
    Update(if a.seqNo < 1 then Initial(Sample(a)) else est, Sample(a))
  }

  function ComputedRto(est: Estimate, sample: real): int
  {
    if sample == -1.0 then INITIAL_RTO else Trunc(UnroundedRto(est))
  }

  function OnAck(d: Daemon, a: AckIn): Daemon
  {
    var est := Estimated(d.est, a);
    var msg := d.ackMsg.(seqNo := a.seqNo, kind := 'c');
    d.(ring := Ack(d.ring), est := est, rto := Max2(ComputedRto(est, Sample(a)), MIN_RTO),
       ackMsg := msg, toTimer := d.toTimer + [msg], acked := d.acked + MSS)
  }

  /** Transmit a packet and start its timer.  The adaptive timeout is stored in the
      message that announces acknowledgements, not in the one sent here. */
  function Transmit(d: Daemon, k: int, body: Block): Daemon
  {
    var msg := d.sendMsg.(seqNo := k);
    d.(body := body, packets := d.packets + [Packet(k, body)],
       sendMsg := msg, toTimer := d.toTimer + [msg], ackMsg := d.ackMsg.(time := d.rto, kind := 's'))
  }

  /** The body a retransmission goes out with: reloaded only from a slot marked 1. */
  function Reloaded(ring: GoodRing, k: nat, body: Block): Block
  {
    if ring.table[k % WS] == 1 then BlockAt(ring.bytes, k % WS) else body
  }

  function OnExpiry(d: Daemon, k: nat): Daemon
  {
    Transmit(d.(ring := Get(d.ring, k)), k, Reloaded(d.ring, k, d.body))
  }

  /** What is popped from the ring is overwritten by the block last received. */
  function OnPop(d: Daemon): Daemon
  {
    if d.ring.used < MSS then d
    else
      var t := Transmit(d.(ring := Pop(d.ring, MSS)), d.packetCount, d.recv);
      t.(packetCount := d.packetCount + 1)
  }

  function Iteration(d: Daemon, size: int, client: Option<Block>, ack: Option<AckIn>, expiry: Option<nat>): Daemon
  {
    var d1 := if client.Some? then OnClient(d, client.value) else d;
    var d2 := if ack.Some? then OnAck(d1, ack.value) else d1;
    var d3 := if expiry.Some? then OnExpiry(d2, expiry.value) else d2;
    var d4 := OnPop(d3);
    d4.(done := d4.acked >= size)
  }

  lemma RefusedPop(r: GoodRing)
    ensures r.used < MSS ==> Pop(r, MSS) == r
  {
  }

  // ------------------------------------------------------- the mutable daemon

  class SenderDaemon {
    const cb: CircularBuffer
    const estimator: Estimator
    const completeFileSize: int
    var recvbuffer: Block
    var body: Block
    var packetCount: int
    var packetCountClient: int
    var fileSizeAcknowledged: int
    var rto: int
    var timerMsgSend: Message
    var timerMsgAck: Message
    var done: bool
    var toClient: seq<int>
    var toTimer: seq<Message>
    var toTroll: seq<Packet>

    ghost function Repr(): set<object>
      reads this, cb
    {
      {this, cb, cb.buffer, cb.holeTable, estimator}
    }

    ghost predicate Valid()
      reads this, cb, cb.buffer, cb.holeTable, estimator
    {
      cb.Valid()
    }

    ghost function Value(): Daemon
      requires Valid()
      reads this, cb, cb.buffer, cb.holeTable, estimator
    {
      Daemon(cb.Value(), recvbuffer, body, packetCount, packetCountClient, fileSizeAcknowledged,
             estimator.Value(), rto, timerMsgSend, timerMsgAck, done, toClient, toTimer, toTroll)
    }

    /** The block and the messages stand for uninitialised memory. */
    constructor (fileSize: int, garbage: Block, anyRto: int, anyMsg: Message)
      ensures Valid() && fresh(Repr()) && completeFileSize == fileSize
      ensures Value() == Entering(cb.buffer[..], garbage, garbage, Estimate(0.0, 0.0), anyRto, anyMsg)
    {
      cb := new CircularBuffer();
      estimator := new Estimator();
      completeFileSize := fileSize;
      recvbuffer, body := garbage, garbage;
      packetCount, packetCountClient, fileSizeAcknowledged := 0, 0, 0;
      rto, timerMsgAck, done := anyRto, anyMsg, false;
      timerMsgSend := Message('s', 20, TIMER_PORT, TIMER_TICKS);
      toClient, toTimer, toTroll := [], [], [];
    }

    method FromClient(block: Block)
      requires Valid()
      modifies Repr()
      ensures Valid() && Repr() == old(Repr()) && Value() == OnClient(old(Value()), block)
    {
      recvbuffer := block;
      var rem := cb.CbPushData(recvbuffer);
      if rem >= 0 {
        packetCountClient := packetCountClient + 1;
      }
      toClient := toClient + [rem];
    }

    method FromServer(a: AckIn)
      requires Valid()
      modifies Repr()
      ensures Valid() && Repr() == old(Repr()) && Value() == OnAck(old(Value()), a)
    {
      hide Ack, Shape, CircularBuffer.Value, CircularBuffer.Valid, RttSample, Trunc;
      var _ := cb.AckData(a.seqNo);
      var rtt := estimator.CalcRtt(a.clock, a.stamp);
      if a.seqNo < 1 {
        estimator.InitializeSrttRttvar(rtt);
      }
      var computed := estimator.ComputeRto();
      rto := Max2(computed, MIN_RTO);
      timerMsgAck := timerMsgAck.(seqNo := a.seqNo, kind := 'c');
      toTimer := toTimer + [timerMsgAck];
      fileSizeAcknowledged := fileSizeAcknowledged + MSS;
    }

    method FromTimer(k: nat)
      requires Valid()
      modifies Repr()
      ensures Valid() && Repr() == old(Repr()) && Value() == OnExpiry(old(Value()), k)
    {
      hide BlockAt;
      var rc, item := cb.GetDataIndex(k);
      if rc == 1 {
        body := item;
      }
      toTroll := toTroll + [Packet(k, body)];
      timerMsgSend := timerMsgSend.(seqNo := k);
      timerMsgAck := timerMsgAck.(time := rto, kind := 's');
      toTimer := toTimer + [timerMsgSend];
    }

    method PopAndSend()
      requires Valid()
      modifies Repr()
      ensures Valid() && Repr() == old(Repr()) && Value() == OnPop(old(Value()))
    {
      assert cb.Value().used == cb.used;
      RefusedPop(cb.Value());
      hide CircularBuffer.Value, CircularBuffer.Valid, Pop, Read, Shape;
      var usd, item := cb.CbPopData(MSS);
      if usd >= 0 {
        body := item;
        body := recvbuffer;
        toTroll := toTroll + [Packet(packetCount, body)];
        timerMsgSend := timerMsgSend.(seqNo := packetCount);
        timerMsgAck := timerMsgAck.(time := rto, kind := 's');
        toTimer := toTimer + [timerMsgSend];
        packetCount := packetCount + 1;
      }
    }

    /** One iteration of the select loop on what the sockets had to offer. */
    method Loop(client: Option<Block>, ack: Option<AckIn>, expiry: Option<nat>)
      requires Valid()
      modifies Repr()
      ensures Valid() && Repr() == old(Repr())
      ensures Value() == Iteration(old(Value()), completeFileSize, client, ack, expiry)
    {
      hide OnClient, OnAck, OnExpiry, OnPop;
      if client.Some? {
        FromClient(client.value);
      }
      if ack.Some? {
        FromServer(ack.value);
      }
      if expiry.Some? {
        FromTimer(expiry.value);
      }
      PopAndSend();
      done := fileSizeAcknowledged >= completeFileSize;
    }
  }
}
