/** What holds of every run of the whole sending side. */
module SenderTheorems {
  import opened Common
  import opened FileTransfer
  import opened Timers
  import opened SenderDaemons
  import opened SenderSteps
  import opened Protocol
  import opened SenderRuns

  lemma StartInvariants(b: Boot)
    requires |b.bytes| == CAPACITY
    ensures var s := Start(b);
            Handover(s) && Guarded(s) && FirstsRight(s) && Acknowledged(s) && AlwaysNewest(s)
  {
    var s := Start(b);
    assert Tokens(s) == multiset{};
    assert SentNos([]) == Numbers(0);
  }

  lemma StepConstants(s: System, a: Action)
    ensures Step(s, a).blocks == s.blocks && Step(s, a).size == s.size
  {
    hide Iteration, Turn, Sent;
  }

  lemma {:induction false} Invariants(b: Boot, actions: seq<Action>, run: seq<System>, n: nat)
    requires IsRun(b, actions, run) && n <= |actions|
    ensures var s := run[n];
            && s.size == |b.file| && s.blocks == Blocks(b.file, b.stale)
            && Handover(s) && Guarded(s) && FirstsRight(s) && Acknowledged(s) && AlwaysNewest(s)
  {
    hide Step, Handover, Guarded, FirstsRight, Acknowledged, AlwaysNewest, Blocks;
    if n == 0 {
      StartInvariants(b);
    } else {
      var s, a := run[n - 1], actions[n - 1];
      Invariants(b, actions, run, n - 1);
      StepConstants(s, a);
      StepHandover(s, a);
      StepGuarded(s, a);
      StepFirstsRight(s, a);
      StepAcknowledged(s, a);
      StepAlwaysNewest(s, a);
    }
  }

  // ------------------------------------------------------------------ timer tokens

  /** No unacknowledged packet is forgotten, in any run: a number sent and not yet
      acknowledged has exactly one of a start message in flight, a live timer, and an
      expiry in flight; an acknowledged one has at most one; other numbers have none.
      The timer's list stays paced with the daemon's one start time, whatever timeout
      the estimator computes, so it never stalls and holds fewer than twenty timers. */
  lemma TokenConservation(b: Boot, actions: seq<Action>, run: seq<System>, n: nat, k: int)
    requires IsRun(b, actions, run) && n <= |actions|
    ensures var s := run[n]; var tokens := Tokens(s)[k];
            && (k < 0 || k >= s.d.packetCount ==> tokens == 0)
            && (k in s.received ==> tokens <= 1)
            && (0 <= k < s.d.packetCount && k !in s.received ==> tokens == 1)
    ensures var s := run[n];
            && Paced(s.timer, TIMER_TICKS) && |s.timer| < TIMER_TICKS
            && (forall m | m in s.d.toTimer && m.kind == 's' :: m.time == TIMER_TICKS)
            && (s.received != [] ==> s.d.rto >= MIN_RTO)
  {
    Invariants(b, actions, run, n);
    var s := run[n];
    assert Tokens(s)[k] >= 0;
    PrefixSumAtLeast(s.timer, |s.timer|);
    forall m | m in s.d.toTimer && m.kind == 's'
      ensures m.time == TIMER_TICKS
    {
      assert WellSent(m, s.received);
    }
  }

  // ---------------------------------------------------------- what cancels carry

  /** The timeout of the latest transmission. */
  ghost function Stamp(b: Boot, run: seq<System>, n: nat): int
    requires n < |run|
  {
    if n == 0 then b.ackMsg.time
    else if |run[n].d.packets| > |run[n - 1].d.packets| then run[n].d.rto
    else Stamp(b, run, n - 1)
  }

  lemma StepStamp(s: System, a: Action)
    requires Handover(s)
    ensures var t := Step(s, a);
            && t.d.ackMsg.time == (if |t.d.packets| > |s.d.packets| then t.d.rto else s.d.ackMsg.time)
            && t.d.ackMsg.port == s.d.ackMsg.port
            && (a.DaemonTurns? && Enabled(s, a) && a.ack.Some? ==>
                  |t.d.toTimer| > |s.d.toTimer| &&
                  t.d.toTimer[|s.d.toTimer|] == s.d.ackMsg.(kind := 'c', seqNo := a.ack.value.seqNo))
  {
    if a.DaemonTurns? && Enabled(s, a) {
      hide Enabled, Ready, Takes, ComputedRto, Estimated;
      var (client, expiry) := Offered(s, a);
      IterationIs(s.d, s.d.packetCount, s.size, client, a.ack, expiry);
      hide Iteration, Reloaded, MidRing, Handover;
    } else {
      hide Handover, Turn, Sent, DaemonTurn, Offered, Enabled;
    }
  }

  lemma {:induction false} StampIs(b: Boot, actions: seq<Action>, run: seq<System>, n: nat)
    requires IsRun(b, actions, run) && n <= |actions|
    ensures run[n].d.ackMsg.time == Stamp(b, run, n) && run[n].d.ackMsg.port == b.ackMsg.port
  {
    hide Step, Handover, Guarded, FirstsRight, Acknowledged, AlwaysNewest;
    if n == 0 {
      assert run[0].d.ackMsg == b.ackMsg;
    } else {
      StampIs(b, actions, run, n - 1);
      Invariants(b, actions, run, n - 1);
      StepStamp(run[n - 1], actions[n - 1]);
      assert run[n] == Step(run[n - 1], actions[n - 1]);
    }
  }

  /** In every run the cancel sent for an acknowledgement carries the timeout as it was at
      the latest transmission, which is where the adaptive timeout goes. */
  lemma CancelCarriesTimeout(b: Boot, actions: seq<Action>, run: seq<System>, n: nat)
    requires IsRun(b, actions, run) && n < |actions|
    requires actions[n].DaemonTurns? && actions[n].ack.Some? && Enabled(run[n], actions[n])
    ensures var queue, c := run[n + 1].d.toTimer, |run[n].d.toTimer|;
            && c < |queue|
            && queue[c] == Message('c', actions[n].ack.value.seqNo, b.ackMsg.port, Stamp(b, run, n))
  {
    hide Step, Enabled, Start;
    StampIs(b, actions, run, n);
    Invariants(b, actions, run, n);
    hide Handover, Guarded, FirstsRight, Acknowledged, AlwaysNewest;
    StepStamp(run[n], actions[n]);
    assert run[n + 1] == Step(run[n], actions[n]);
  }

  // -------------------------------------------------------------- what packets carry

  lemma {:induction false} NumberOccurs(packets: seq<Packet>, blocks: seq<Block>, n: nat, k: nat)
    requires n <= |packets| && Carried(packets, blocks) && k <= Newest(packets, n)
    ensures exists j | 0 <= j < n :: packets[j].seqNo == k
  {
    hide Carried;
    assert n > 0;
    CarriedAt(packets, blocks, n - 1);
    if packets[n - 1].seqNo != k {
      NumberOccurs(packets, blocks, n - 1, k);
    }
  }

  lemma SeenBefore(packets: seq<Packet>, blocks: seq<Block>, i: nat)
    requires i < |packets| && Carried(packets, blocks) && packets[i].seqNo == Newest(packets, i) + 1
    ensures SentNos(packets[..i]) == Numbers(packets[i].seqNo)
  {
    hide Carried, Newest;
    var before := packets[..i];
    forall k | k in SentNos(before)
      ensures k in Numbers(packets[i].seqNo)
    {
      var j :| 0 <= j < i && before[j].seqNo == k;
      SeenIsSmaller(packets, blocks, i, j);
    }
    forall k | k in Numbers(packets[i].seqNo)
      ensures k in SentNos(before)
    {
      NumberOccurs(packets, blocks, i, k);
      var j :| 0 <= j < i && packets[j].seqNo == k;
      assert before[j] in before;
    }
  }

  lemma SeenIsSmaller(packets: seq<Packet>, blocks: seq<Block>, i: nat, j: nat)
    requires j < i < |packets| && Carried(packets, blocks)
    ensures 0 <= packets[j].seqNo <= Newest(packets, i)
  {
    hide Carried, Newest;
    CarriedAt(packets, blocks, j);
    NewestMonotone(packets, j + 1, i);
    NewestNext(packets, j);
  }

  lemma NewestNext(packets: seq<Packet>, j: nat)
    requires j < |packets|
    ensures packets[j].seqNo <= Newest(packets, j + 1)
  {
  }

  /** In every run, the first packet with a given number carries exactly the file's block
      of that number, and the numbers sent before it are exactly the smaller ones: they
      appear in order, none left out. */
  lemma FirstTransmission(b: Boot, actions: seq<Action>, run: seq<System>, n: nat, i: nat)
    requires IsRun(b, actions, run) && n <= |actions| && i < |run[n].d.packets|
    requires forall j | 0 <= j < i :: run[n].d.packets[j].seqNo != run[n].d.packets[i].seqNo
    ensures var p := run[n].d.packets[i];
            && 0 <= p.seqNo < BlockCount(|b.file|)
            && p.body == Blocks(b.file, b.stale)[p.seqNo]
            && SentNos(run[n].d.packets[..i]) == Numbers(p.seqNo)
  {
    Invariants(b, actions, run, n);
    var s := run[n];
    var p := s.d.packets;
    CarriedAt(p, s.blocks, i);
    hide Carried;
    if p[i].seqNo <= Newest(p, i) {
      NumberOccurs(p, s.blocks, i, p[i].seqNo);
      assert false;
    }
    SeenBefore(p, s.blocks, i);
  }

  /** The bodies of the packets that carry a new number, in order of transmission. */
  function NewBodies(packets: seq<Packet>, n: nat): seq<Block>
    requires n <= |packets|
  {
    if n == 0 then []
    else NewBodies(packets, n - 1) + if packets[n - 1].seqNo > Newest(packets, n - 1) then [packets[n - 1].body] else []
  }

  lemma {:induction false} NewBodiesAre(packets: seq<Packet>, blocks: seq<Block>, n: nat)
    requires n <= |packets| && Carried(packets, blocks)
    ensures -1 <= Newest(packets, n) < |blocks| && NewBodies(packets, n) == blocks[..Newest(packets, n) + 1]
  {
    hide Carried;
    if n == 0 {
    } else {
      NewBodiesAre(packets, blocks, n - 1);
      CarriedAt(packets, blocks, n - 1);
    }
  }

  /** In every run the new packets are a prefix of the file's blocks, without gap or
      repeat, and once all of them are out they join up to the file itself. */
  lemma NewPacketsAreTheFile(b: Boot, actions: seq<Action>, run: seq<System>, n: nat)
    requires IsRun(b, actions, run) && n <= |actions|
    ensures var s := run[n]; var sent := NewBodies(s.d.packets, |s.d.packets|);
            && 0 <= s.d.packetCount <= BlockCount(|b.file|)
            && sent == Blocks(b.file, b.stale)[..s.d.packetCount]
            && (s.d.packetCount == BlockCount(|b.file|) ==> Joined(|b.file|, sent) == b.file)
  {
    Invariants(b, actions, run, n);
    var s := run[n];
    NewBodiesAre(s.d.packets, s.blocks, |s.d.packets|);
    SplitThenJoin(b.file, b.stale);
  }

  /** Every packet of every run, retransmissions included, carries the newest block sent so
      far.  A packet is therefore right exactly when its number is the newest or its
      block equals the newest one. */
  lemma PacketRightIff(b: Boot, actions: seq<Action>, run: seq<System>, n: nat, i: nat)
    requires IsRun(b, actions, run) && n <= |actions| && i < |run[n].d.packets|
    ensures var p := run[n].d.packets; var blocks := Blocks(b.file, b.stale);
            && 0 <= p[i].seqNo <= Newest(p, i + 1) < |blocks|
            && p[i].body == blocks[Newest(p, i + 1)]
            && (p[i].body == blocks[p[i].seqNo] <==>
                p[i].seqNo == Newest(p, i + 1) || blocks[p[i].seqNo] == blocks[Newest(p, i + 1)])
  {
    Invariants(b, actions, run, n);
    var s := run[n];
    assert NewestBody(s.d.packets, s.blocks, i);
    CarriedAt(s.d.packets, s.blocks, i);
    hide Carried;
  }

  /** How many of the first n steps reloaded a packet. */
  ghost function ReloadCount(actions: seq<Action>, run: seq<System>, n: nat): nat
    requires n <= |actions| && n < |run|
  {
    if n == 0 then 0 else ReloadCount(actions, run, n - 1) + if StepReloads(run[n - 1], actions[n - 1]) then 1 else 0
  }

  /** In every run, between iterations, nothing waits in the ring, and its counters add up
      to the capacity and one packet more for every reload so far; there has been none as
      long as the packets sent still fit the ring. */
  lemma {:induction false} RingCountersConserved(b: Boot, actions: seq<Action>, run: seq<System>, n: nat)
    requires IsRun(b, actions, run) && n <= |actions|
    ensures var s := run[n];
            && s.d.packetCount == s.d.packetCountClient && s.d.ring.used == 0
            && (forall slot | 0 <= slot < WS :: s.d.ring.table[slot] != 1)
            && s.d.ring.available + s.d.ring.notack == CAPACITY + MSS * ReloadCount(actions, run, n)
            && (s.d.packetCount <= WS ==> ReloadCount(actions, run, n) == 0)
  {
    Invariants(b, actions, run, n);
    hide Step, StepReloads, Guarded, FirstsRight, Acknowledged, AlwaysNewest;
    if n == 0 {
      assert Total(run[0].d.ring) == CAPACITY;
    } else {
      RingCountersConserved(b, actions, run, n - 1);
      Invariants(b, actions, run, n - 1);
      StepCounters(run[n - 1], actions[n - 1]);
      assert run[n] == Step(run[n - 1], actions[n - 1]);
    }
  }

  /** The window, in every run: the ring starts with room for WS packets, each block taken
      uses up one, and each acknowledgement gives back at most WS.  So at most WS packets go
      out before the first acknowledgement, and at most WS more for each one received. */
  lemma {:induction false} WindowBounded(b: Boot, actions: seq<Action>, run: seq<System>, n: nat)
    requires IsRun(b, actions, run) && n <= |actions|
    ensures var s := run[n]; var acks := |s.received|;
            && 0 <= s.d.ring.available
            && CAPACITY - MSS * s.d.packetCount <= s.d.ring.available <= CAPACITY * (1 + acks) - MSS * s.d.packetCount
            && s.d.packetCount <= WS * (1 + acks)
  {
    hide Step, Handover, Guarded, FirstsRight, Acknowledged, AlwaysNewest;
    if n == 0 {
      assert run[0].d.ring.available == CAPACITY && run[0].d.packetCount == 0;
    } else {
      WindowBounded(b, actions, run, n - 1);
      Invariants(b, actions, run, n - 1);
      StepSpace(run[n - 1], actions[n - 1]);
      assert run[n] == Step(run[n - 1], actions[n - 1]);
    }
  }

  // ---------------------------------------------------------------------- acceptance

  /** The server daemon hears a packet with number k and its buffer accepts it. */
  predicate Accepts(s: System, a: Action, k: int)
  {
    a.ServerHears? && a.rem >= 0 && a.packet < |s.d.packets| && s.d.packets[a.packet].seqNo == k
  }

  lemma StepAccepts(s: System, a: Action, k: int)
    ensures k in Step(s, a).accepted <==> k in s.accepted || Accepts(s, a, k)
  {
    hide Iteration, Turn, Sent;
  }

  /** In every run the accepted numbers are exactly those of the packets the server daemon
      has heard and its buffer has accepted. */
  lemma {:induction false} AcceptedIff(b: Boot, actions: seq<Action>, run: seq<System>, n: nat, k: int)
    requires IsRun(b, actions, run) && n <= |actions|
    ensures k in run[n].accepted <==> exists m | 0 <= m < n :: Accepts(run[m], actions[m], k)
  {
    hide Step, Accepts;
    if n == 0 {
      assert Start(b).accepted == {};
    } else {
      AcceptedIff(b, actions, run, n - 1, k);
      StepAccepts(run[n - 1], actions[n - 1], k);
      assert run[n] == Step(run[n - 1], actions[n - 1]);
    }
  }

  // ---------------------------------------------------------------------- completion

  function ToSet(s: seq<int>): set<int>
  {
    set k | k in s
  }

  predicate NoRepeats(s: seq<int>)
  {
    forall i, j | 0 <= i < j < |s| :: s[i] != s[j]
  }

  lemma {:induction false} SetSize(s: seq<int>)
    ensures |ToSet(s)| <= |s|
    ensures NoRepeats(s) <==> |ToSet(s)| == |s|
  {
    if s == [] {
    } else {
      var most, last := s[..|s| - 1], s[|s| - 1];
      SetSize(most);
      assert ToSet(s) == ToSet(most) + {last};
      if last in ToSet(most) {
        var i :| 0 <= i < |most| && most[i] == last;
        assert s[i] == s[|s| - 1];
      }
    }
  }

  lemma SubsetOfSameSize(a: set<int>, b: set<int>)
    requires a <= b
    ensures |b - a| == |b| - |a|
    ensures |a| == |b| <==> a == b
  {
    assert b == a + (b - a);
    assert |b| == |a| + |b - a|;
  }

  /** In every run acknowledgements are for accepted packets, those have been sent, and
      the daemon of a file that is not empty is done exactly when it has received as many
      acknowledgements as the file has packets worth of bytes. */
  lemma CompletionCount(b: Boot, actions: seq<Action>, run: seq<System>, n: nat)
    requires IsRun(b, actions, run) && n <= |actions|
    ensures var s := run[n];
            && ToSet(s.received) <= s.accepted <= Numbers(s.d.packetCount) <= Numbers(BlockCount(|b.file|))
            && (s.d.done ==> |s.received| == (|b.file| + MSS - 1) / MSS)
            && (|b.file| > 0 && |s.received| == (|b.file| + MSS - 1) / MSS ==> s.d.done)
            && |s.received| <= (|b.file| + MSS - 1) / MSS
  {
    Invariants(b, actions, run, n);
    NewPacketsAreTheFile(b, actions, run, n);
    var s := run[n];
    forall k | k in ToSet(s.received)
      ensures k in s.accepted
    {
    }
  }

  /** How far off completion is, in every run: when the daemon declares the transfer
      complete, the blocks without acknowledgement number exactly as many as the
      acknowledgements that were repeats, and one more if the file is a multiple of the
      packet size. */
  lemma CompletionSlack(b: Boot, actions: seq<Action>, run: seq<System>, n: nat)
    requires IsRun(b, actions, run) && n <= |actions| && run[n].d.done
    ensures var acked := ToSet(run[n].received);
            |Numbers(BlockCount(|b.file|)) - acked| ==
            (|run[n].received| - |acked|) + if |b.file| % MSS == 0 then 1 else 0
  {
    CompletionCount(b, actions, run, n);
    SubsetOfSameSize(ToSet(run[n].received), Numbers(BlockCount(|b.file|)));
  }

  /** Completion is right - all blocks acknowledged, hence accepted by the server daemon -
      exactly when the file is not a multiple of the packet size and no acknowledgement
      was received twice. */
  lemma CompletionIsRightIff(b: Boot, actions: seq<Action>, run: seq<System>, n: nat)
    requires IsRun(b, actions, run) && n <= |actions| && run[n].d.done
    ensures var s := run[n]; var all := Numbers(BlockCount(|b.file|));
            && (ToSet(s.received) == all <==> |b.file| % MSS != 0 && NoRepeats(s.received))
            && (ToSet(s.received) == all ==> s.accepted == all)
  {
    CompletionCount(b, actions, run, n);
    SetSize(run[n].received);
    SubsetOfSameSize(ToSet(run[n].received), Numbers(BlockCount(|b.file|)));
  }
}
