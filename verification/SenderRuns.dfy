/** What the sender's packets carry and what completion means, in every run. */
module SenderRuns {
  import opened Common
  import opened DeltaList
  import opened Timers
  import opened SenderDaemons
  import opened SenderSteps
  import opened CircularBuffers
  import opened Protocol

  function SentNos(packets: seq<Packet>): set<int>
  {
    set p | p in packets :: p.seqNo
  }

  function Numbers(n: int): (r: set<int>)
    ensures forall k :: k in r <==> 0 <= k < n
    ensures |r| == if n < 0 then 0 else n
    decreases if n < 0 then 0 else n
  {
    if n <= 0 then {} else Numbers(n - 1) + {n - 1}
  }

  ghost predicate KnownNumbers(packets: seq<Packet>, n: int, accepted: set<int>, received: seq<int>)
  {
    && SentNos(packets) == Numbers(n)
    && accepted <= Numbers(n)
    && (forall k | k in received :: k in accepted)
  }

  ghost predicate Acknowledged(s: System)
  {
    && KnownNumbers(s.d.packets, s.d.packetCount, s.accepted, s.received)
    && s.d.acked == MSS * |s.received|
    && (s.d.done ==> s.size <= s.d.acked < s.size + MSS)
    && (!s.d.done ==> s.d.acked < s.size || s.d.packetCount == s.d.acked == 0)
    && (s.received != [] ==> s.d.rto >= MIN_RTO)
  }

  /** The number of the newest block among the first n packets. */
  function Newest(packets: seq<Packet>, n: nat): int
    requires n <= |packets|
  {
    if n == 0 then -1 else Max2(Newest(packets, n - 1), packets[n - 1].seqNo)
  }

  /** Numbers are used up in order, and a new number goes out with its own block. */
  ghost predicate Carried(packets: seq<Packet>, blocks: seq<Block>)
  {
    forall i {:trigger packets[i]} | 0 <= i < |packets| ::
      && 0 <= packets[i].seqNo <= Newest(packets, i) + 1
      && (packets[i].seqNo == Newest(packets, i) + 1 ==>
            packets[i].seqNo < |blocks| && packets[i].body == blocks[packets[i].seqNo])
  }

  lemma CarriedAt(packets: seq<Packet>, blocks: seq<Block>, i: nat)
    requires Carried(packets, blocks) && i < |packets|
    ensures 0 <= packets[i].seqNo <= Newest(packets, i) + 1
    ensures packets[i].seqNo == Newest(packets, i) + 1 ==>
              packets[i].seqNo < |blocks| && packets[i].body == blocks[packets[i].seqNo]
  {
    hide Newest;
  }

  ghost predicate FirstsRight(s: System)
  {
    Carried(s.d.packets, s.blocks) && Newest(s.d.packets, |s.d.packets|) == s.d.packetCount - 1
  }

  predicate NewestBody(packets: seq<Packet>, blocks: seq<Block>, i: nat)
    requires i < |packets|
  {
    0 <= Newest(packets, i + 1) < |blocks| && packets[i].body == blocks[Newest(packets, i + 1)]
  }

  ghost predicate CarriesNewest(packets: seq<Packet>, blocks: seq<Block>)
  {
    forall i | 0 <= i < |packets| :: NewestBody(packets, blocks, i)
  }

  /** Every packet, first or repeated, carries the block that was newest when it went out:
      both the daemon's last body and the slot a reload would read hold that block. */
  ghost predicate AlwaysNewest(s: System)
  {
    && 0 <= s.d.packetCount <= |s.blocks|
    && (s.d.packetCount > 0 ==>
          s.d.body == BlockAt(s.d.ring.bytes, s.d.packetCount % WS) == s.blocks[s.d.packetCount - 1])
    && CarriesNewest(s.d.packets, s.blocks)
  }

  // ---------------------------------------------------------- packets in a daemon turn

  lemma {:induction false} NewestAppend(a: seq<Packet>, b: seq<Packet>, n: nat)
    requires n <= |a|
    ensures Newest(a + b, n) == Newest(a, n)
  {
    if n == 0 {
    } else {
      NewestAppend(a, b, n - 1);
    }
  }

  lemma NewestOneMore(packets: seq<Packet>, p: Packet)
    ensures Newest(packets + [p], |packets| + 1) == Max2(Newest(packets, |packets|), p.seqNo)
  {
    NewestAppend(packets, [p], |packets|);
  }

  lemma CarriedAppend(packets: seq<Packet>, blocks: seq<Block>, p: Packet)
    requires Carried(packets, blocks)
    requires 0 <= p.seqNo <= Newest(packets, |packets|) + 1
    requires p.seqNo == Newest(packets, |packets|) + 1 ==> p.seqNo < |blocks| && p.body == blocks[p.seqNo]
    ensures Carried(packets + [p], blocks)
    ensures Newest(packets + [p], |packets| + 1) == Max2(Newest(packets, |packets|), p.seqNo)
  {
    NewestOneMore(packets, p);
    var longer := packets + [p];
    hide Newest;
    forall i | 0 <= i < |longer|
      ensures 0 <= longer[i].seqNo <= Newest(longer, i) + 1
      ensures longer[i].seqNo == Newest(longer, i) + 1 ==>
                longer[i].seqNo < |blocks| && longer[i].body == blocks[longer[i].seqNo]
    {
      NewestAppend(packets, [p], i);
      if i < |packets| {
        assert longer[i] == packets[i];
      }
    }
  }

  /** The packets one daemon turn adds. */
  function Retransmitted(s: System, a: Action): seq<Packet>
    requires a.DaemonTurns? && Enabled(s, a)
  {
    var (client, expiry) := Offered(s, a);
    if expiry.Some? then [Packet(expiry.value, Reloaded(MidRing(s.d, client, a.ack), expiry.value, s.d.body))] else []
  }

  function NewPacket(s: System, a: Action): seq<Packet>
    requires a.DaemonTurns? && Enabled(s, a)
  {
    var (client, expiry) := Offered(s, a);
    if Takes(s.d, client) then [Packet(s.d.packetCount, client.value)] else []
  }

  lemma PacketsOfTurn(s: System, a: Action)
    requires Handover(s) && a.DaemonTurns? && Enabled(s, a)
    ensures var t := Step(s, a); var took := Takes(s.d, Offered(s, a).0);
            && t.d.packets == s.d.packets + Retransmitted(s, a) + NewPacket(s, a)
            && t.d.packetCount == (if took then s.d.packetCount + 1 else s.d.packetCount)
            && t.blocks == s.blocks && t.size == s.size && t.accepted == s.accepted
            && (took ==> s.d.packetCount < |s.blocks| && Offered(s, a).0 == Option.Some(s.blocks[s.d.packetCount]))
            && t.d.body == (if took then s.blocks[s.d.packetCount]
                            else if a.expiry then Retransmitted(s, a)[0].body else s.d.body)
            && t.d.acked == s.d.acked + (if a.ack.Some? then MSS else 0)
            && (t.d.done <==> t.d.acked >= s.size)
            && t.d.rto >= (if a.ack.Some? then MIN_RTO else s.d.rto)
            && t.received == (if a.ack.Some? then s.received + [a.ack.value.seqNo] else s.received)
  {
    var (client, expiry) := Offered(s, a);
    IterationIs(s.d, s.d.packetCount, s.size, client, a.ack, expiry);
    hide Iteration, Idle, Reloaded, MidRing;
  }

  /** A number whose timer expired has been sent before. */
  lemma ExpiredWasSent(s: System)
    requires Guarded(s) && s.expiries != []
    ensures 0 <= s.expiries[0] < s.d.packetCount
  {
    assert Tokens(s)[s.expiries[0]] > 0;
  }

  lemma TurnCarried(packets: seq<Packet>, blocks: seq<Block>, n: nat, again: seq<Packet>, newest: seq<Packet>)
    requires Carried(packets, blocks) && Newest(packets, |packets|) == n - 1
    requires |again| <= 1 && forall p | p in again :: 0 <= p.seqNo < n
    requires newest == [] || (n < |blocks| && newest == [Packet(n, blocks[n])])
    ensures var all := packets + again + newest;
            Carried(all, blocks) && Newest(all, |all|) == n - 1 + |newest|
  {
    hide Carried, Newest;
    var mid := packets + again;
    if again == [] {
      assert mid == packets;
    } else {
      assert mid == packets + [again[0]];
      CarriedAppend(packets, blocks, again[0]);
    }
    if newest == [] {
      assert mid + newest == mid;
    } else {
      CarriedAppend(mid, blocks, newest[0]);
    }
  }

  lemma StepFirstsRight(s: System, a: Action)
    requires Handover(s) && Guarded(s) && FirstsRight(s)
    ensures FirstsRight(Step(s, a))
  {
    if a.DaemonTurns? && Enabled(s, a) {
      PacketsOfTurn(s, a);
      if a.expiry {
        ExpiredWasSent(s);
      }
      assert forall p | p in Retransmitted(s, a) :: 0 <= p.seqNo < s.d.packetCount;
      hide Step, Handover, Guarded, Carried, Newest;
      TurnCarried(s.d.packets, s.blocks, s.d.packetCount, Retransmitted(s, a), NewPacket(s, a));
    }
  }

  // -------------------------------------------------------- the newest block, always

  lemma NewestMonotone(packets: seq<Packet>, i: nat, j: nat)
    requires i <= j <= |packets|
    ensures Newest(packets, i) <= Newest(packets, j)
    decreases j
  {
    if i == j {
    } else {
      NewestMonotone(packets, i, j - 1);
    }
  }

  lemma CarriesAppend(packets: seq<Packet>, blocks: seq<Block>, p: Packet, n: int)
    requires CarriesNewest(packets, blocks)
    requires n == Max2(Newest(packets, |packets|), p.seqNo) && 0 <= n < |blocks| && p.body == blocks[n]
    ensures CarriesNewest(packets + [p], blocks)
    ensures Newest(packets + [p], |packets| + 1) == n
  {
    NewestOneMore(packets, p);
    var longer := packets + [p];
    forall i | 0 <= i < |longer|
      ensures NewestBody(longer, blocks, i)
    {
      hide Newest;
      if i < |packets| {
        assert NewestBody(packets, blocks, i);
        NewestAppend(packets, [p], i + 1);
      }
    }
  }

  lemma TurnCarriesNewest(packets: seq<Packet>, blocks: seq<Block>, n: nat, again: seq<Packet>, newest: seq<Packet>)
    requires CarriesNewest(packets, blocks) && Newest(packets, |packets|) == n - 1 && n <= |blocks|
    requires |again| <= 1 && forall p | p in again :: 0 <= p.seqNo < n && p.body == blocks[n - 1]
    requires newest == [] || (n < |blocks| && newest == [Packet(n, blocks[n])])
    ensures CarriesNewest(packets + again + newest, blocks)
  {
    hide CarriesNewest, Newest;
    var mid := packets + again;
    if again == [] {
      assert mid == packets;
    } else {
      assert mid == packets + [again[0]];
      assert again[0] in again;
      CarriesAppend(packets, blocks, again[0], n - 1);
    }
    if newest == [] {
      assert mid + newest == mid;
    } else {
      CarriesAppend(mid, blocks, newest[0], n);
    }
  }

  lemma DaemonStepIs(s: System, a: Action)
    requires Handover(s) && a.DaemonTurns? && Enabled(s, a)
    ensures var (client, expiry) := Offered(s, a);
            && Step(s, a).d == Iteration(s.d, s.size, client, a.ack, expiry)
            && s.d.packetCount >= 0 && Ready(s.d, s.d.packetCount)
            && (expiry.Some? ==> s.expiries != [] && expiry.value == s.expiries[0])
  {
    hide Iteration, Ready;
  }

  /** A retransmission goes out with the newest block, whether it is reloaded or not: a
      reload reads the slot before the one filled in the same turn. */
  lemma RetransmittedBody(s: System, a: Action)
    requires Handover(s) && Guarded(s) && AlwaysNewest(s) && a.DaemonTurns? && Enabled(s, a)
    ensures forall p | p in Retransmitted(s, a) ::
              0 <= p.seqNo < s.d.packetCount && p.body == s.blocks[s.d.packetCount - 1]
  {
    hide Step, Iteration, Idle, Ready, MidRing, Handover, Guarded, CarriesNewest, BlockAt, Takes;
    if a.expiry {
      var (client, expiry) := Offered(s, a);
      DaemonStepIs(s, a);
      ExpiredWasSent(s);
      CountersKeptUnlessReloaded(s.d, s.d.packetCount, s.size, client, a.ack, expiry);
      SlotOfIteration(s.d, s.d.packetCount, s.size, client, a.ack, expiry);
    }
  }

  lemma BodiesOfTurn(s: System, a: Action)
    requires Handover(s) && Guarded(s) && AlwaysNewest(s) && a.DaemonTurns? && Enabled(s, a)
    ensures var t := Step(s, a); var n := s.d.packetCount; var again, added := Retransmitted(s, a), NewPacket(s, a);
            && t.d.packets == s.d.packets + again + added && t.blocks == s.blocks
            && |again| <= 1 && (forall p | p in again :: 0 <= p.seqNo < n && p.body == s.blocks[n - 1])
            && (added == [] || (n < |s.blocks| && added == [Packet(n, s.blocks[n])]))
            && t.d.packetCount == n + |added|
            && (n + |added| > 0 ==> t.d.body == s.blocks[n + |added| - 1])
  {
    hide Step, Handover, Guarded, Reloads, MidRing, CarriesNewest, BlockAt;
    PacketsOfTurn(s, a);
    RetransmittedBody(s, a);
    if a.expiry {
      ExpiredWasSent(s);
      assert Retransmitted(s, a)[0] in Retransmitted(s, a);
    }
  }

  lemma SlotOfTurn(s: System, a: Action)
    requires Handover(s) && AlwaysNewest(s) && a.DaemonTurns? && Enabled(s, a)
    ensures var t := Step(s, a);
            t.d.packetCount > 0 ==>
              (t.d.packetCount <= |s.blocks| &&
               BlockAt(t.d.ring.bytes, t.d.packetCount % WS) == s.blocks[t.d.packetCount - 1])
  {
    hide Step, Iteration, Idle, Ready, MidRing, Handover, CarriesNewest, BlockAt, Takes, Retransmitted, NewPacket;
    var (client, expiry) := Offered(s, a);
    PacketsOfTurn(s, a);
    DaemonStepIs(s, a);
    SlotOfIteration(s.d, s.d.packetCount, s.size, client, a.ack, expiry);
  }

  lemma DaemonAlwaysNewest(s: System, a: Action)
    requires Handover(s) && Guarded(s) && FirstsRight(s) && AlwaysNewest(s)
    requires a.DaemonTurns? && Enabled(s, a)
    ensures AlwaysNewest(Step(s, a))
  {
    hide Step, Handover, Guarded, Carried, Newest, CarriesNewest, BlockAt;
    hide Retransmitted, NewPacket, Enabled, Reloads, Offered;
    SlotOfTurn(s, a);
    BodiesOfTurn(s, a);
    TurnCarriesNewest(s.d.packets, s.blocks, s.d.packetCount, Retransmitted(s, a), NewPacket(s, a));
  }

  lemma StepAlwaysNewest(s: System, a: Action)
    requires Handover(s) && Guarded(s) && FirstsRight(s) && AlwaysNewest(s)
    ensures AlwaysNewest(Step(s, a))
  {
    hide Handover, Guarded, FirstsRight, CarriesNewest, BlockAt, Enabled, DaemonTurn, Turn, Sent, SeqNos, EventOf;
    if a.DaemonTurns? && Enabled(s, a) {
      DaemonAlwaysNewest(s, a);
      hide Step, AlwaysNewest;
    }
  }

  // ------------------------------------------------------------ the ring's counters

  /** Whether a step reloads a packet from the ring. */
  predicate StepReloads(s: System, a: Action)
  {
    a.DaemonTurns? && Enabled(s, a) && Reloads(s.d, Offered(s, a).0, a.ack, Offered(s, a).1)
  }

  lemma SameSlotApart(k: nat, a: nat)
    requires k < a && k % WS == a % WS
    ensures a >= WS
  {
  }

  /** A step keeps the sum of the counters unless it reloads a packet, and then it adds one
      packet; no packet shares its slot with a new one before the ring has gone round. */
  lemma StepCounters(s: System, a: Action)
    requires Handover(s) && Guarded(s)
    ensures Total(Step(s, a).d.ring) == Total(s.d.ring) + if StepReloads(s, a) then MSS else 0
    ensures StepReloads(s, a) ==> Step(s, a).d.packetCount > WS
    ensures Step(s, a).d.packetCount >= s.d.packetCount
  {
    if a.DaemonTurns? && Enabled(s, a) {
      hide Step, Iteration, Ready, Reloads, MidRing, Handover, Guarded, Total, Retransmitted, NewPacket, Enabled, Takes;
      var (client, expiry) := Offered(s, a);
      hide Offered;
      PacketsOfTurn(s, a);
      DaemonStepIs(s, a);
      if expiry.Some? {
        ExpiredWasSent(s);
        if expiry.value % WS == s.d.packetCount % WS {
          SameSlotApart(expiry.value, s.d.packetCount);
        }
      }
      CountersKeptUnlessReloaded(s.d, s.d.packetCount, s.size, client, a.ack, expiry);
    } else {
      hide Handover, Guarded, Total, Turn, Sent, DaemonTurn, Offered, SeqNos, EventOf, Enabled;
    }
  }

  lemma StepSpace(s: System, a: Action)
    requires Handover(s)
    ensures var t := Step(s, a); var acks := |t.received| - |s.received|;
            var left := s.d.ring.available - MSS * (t.d.packetCount - s.d.packetCount);
            && 0 <= acks <= 1 && left <= t.d.ring.available <= left + CAPACITY * acks
            && (t.d.packetCount > s.d.packetCount ==> left >= 0)
  {
    if a.DaemonTurns? && Enabled(s, a) {
      hide Step, Iteration, Ready, Handover, Retransmitted, NewPacket, Offered;
      var (client, expiry) := Offered(s, a);
      PacketsOfTurn(s, a);
      DaemonStepIs(s, a);
      SpaceOfIteration(s.d, s.d.packetCount, s.size, client, a.ack, expiry);
    } else {
      hide Handover, Turn, Sent, DaemonTurn, Offered, SeqNos, EventOf, Enabled;
    }
  }

  // ------------------------------------------------------------- acknowledgements

  lemma TurnKnownNumbers(packets: seq<Packet>, n: nat, accepted: set<int>, received: seq<int>,
                         again: seq<Packet>, newest: seq<Packet>, acks: seq<int>)
    requires KnownNumbers(packets, n, accepted, received)
    requires forall p | p in again :: 0 <= p.seqNo < n
    requires |newest| <= 1 && forall p | p in newest :: p.seqNo == n
    requires forall k | k in acks :: k in accepted
    ensures KnownNumbers(packets + again + newest, n + |newest|, accepted, received + acks)
  {
    TurnSentNos(packets, n, again, newest);
    hide SentNos;
  }

  function AckNos(a: Action): seq<int>
    requires a.DaemonTurns?
  {
    if a.ack.Some? then [a.ack.value.seqNo] else []
  }

  lemma NumbersOfTurn(s: System, a: Action)
    requires Handover(s) && Guarded(s) && a.DaemonTurns? && Enabled(s, a)
    ensures var t := Step(s, a); var again, added := Retransmitted(s, a), NewPacket(s, a);
            && 0 <= s.d.packetCount && t.d.packetCount == s.d.packetCount + |added|
            && t.d.packets == s.d.packets + again + added && t.accepted == s.accepted
            && t.received == s.received + AckNos(a)
            && (forall p | p in again :: 0 <= p.seqNo < s.d.packetCount)
            && |added| <= 1 && (forall p | p in added :: p.seqNo == s.d.packetCount)
            && (forall k | k in AckNos(a) :: k in s.accepted)
  {
    PacketsOfTurn(s, a);
    if a.expiry {
      ExpiredWasSent(s);
    }
    hide Step, Handover, Guarded, Takes, Newest, Reloaded, MidRing;
  }

  lemma DaemonKnownNumbers(s: System, a: Action)
    requires Handover(s) && Guarded(s) && a.DaemonTurns? && Enabled(s, a)
    requires KnownNumbers(s.d.packets, s.d.packetCount, s.accepted, s.received)
    ensures var t := Step(s, a); KnownNumbers(t.d.packets, t.d.packetCount, t.accepted, t.received)
  {
    hide Step, Handover, Guarded, KnownNumbers, AckNos, Retransmitted, NewPacket;
    NumbersOfTurn(s, a);
    TurnKnownNumbers(s.d.packets, s.d.packetCount, s.accepted, s.received,
                     Retransmitted(s, a), NewPacket(s, a), AckNos(a));
  }

  lemma StepAcknowledged(s: System, a: Action)
    requires Handover(s) && Guarded(s) && Acknowledged(s)
    ensures Acknowledged(Step(s, a))
  {
    if Enabled(s, a) {
      if a.DaemonTurns? {
        DaemonKnownNumbers(s, a);
        PacketsOfTurn(s, a);
        hide Step, Handover, Guarded, KnownNumbers, Takes, Retransmitted, NewPacket;
      } else if a.ServerHears? {
        assert s.d.packets[a.packet].seqNo in SentNos(s.d.packets);
      }
    }
  }

  lemma TurnSentNos(packets: seq<Packet>, n: nat, again: seq<Packet>, newest: seq<Packet>)
    requires SentNos(packets) == Numbers(n)
    requires forall p | p in again :: 0 <= p.seqNo < n
    requires |newest| <= 1 && forall p | p in newest :: p.seqNo == n
    ensures SentNos(packets + again + newest) == Numbers(n + |newest|)
  {
    var all := packets + again + newest;
    forall k
      ensures k in SentNos(all) <==> k in Numbers(n + |newest|)
    {
      if k in Numbers(n) {
        var p :| p in packets && p.seqNo == k;
        assert p in all;
      }
      if k == n && newest != [] {
        assert newest[0] in all;
      }
    }
  }
}
