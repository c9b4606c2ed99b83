/** What is ready gets done, in every run, and every transfer can be completed. */
module Progress {
  import opened Common
  import opened FileTransfer
  import opened Jacobson
  import opened DeltaList
  import opened Timers
  import opened CircularBuffers
  import opened SenderDaemons
  import opened SenderSteps
  import opened Protocol
  import opened SenderRuns
  import opened SenderTheorems

  // ------------------------------------------------------------- what is ready is read

  /** In every run: a waiting reply is read; after a refusal the very same block is offered
      again, after an acceptance the next one, if there is one. */
  lemma ReplyIsHeard(b: Boot, actions: seq<Action>, run: seq<System>, n: nat)
    requires IsRun(b, actions, run) && n <= |actions| && run[n].d.toClient != []
    ensures var s := run[n]; var t := Step(s, ClientHears); var u := Step(t, ClientSends);
            var refused := s.d.toClient[0] < 0;
            && |s.d.toClient| == 1 && t.d.toClient == [] && t.next == (if refused then s.next else s.next + 1)
            && (refused ==> t.next < |s.blocks|)
            && (t.next < |s.blocks| ==> u.toDaemon == [s.blocks[t.next]] && u.d.toClient == [] && u.next == t.next)
  {
    hide Step, Start, Guarded, FirstsRight, Acknowledged, AlwaysNewest;
    Invariants(b, actions, run, n);
    HearAndOffer(run[n]);
  }

  lemma HearAndOffer(s: System)
    requires Handover(s) && s.d.toClient != []
    ensures var t := Step(s, ClientHears); var u := Step(t, ClientSends);
            && |s.d.toClient| == 1 && s.waiting && s.next < |s.blocks|
            && t == s.(waiting := false, next := t.next, d := s.d.(toClient := []))
            && t.next == (if s.d.toClient[0] < 0 then s.next else s.next + 1)
            && (t.next < |s.blocks| ==> u == t.(waiting := true, toDaemon := [s.blocks[t.next]]))
  {
    hide Ready;
  }

  /** What a pass of the daemon does with what it is given: the block is answered, the
      acknowledgement counted and announced to the timer, the expired packet sent again. */
  ghost predicate ReadsAll(s: System, t: System, client: bool, ack: Option<AckIn>, expiry: bool)
  {
    && s.d.toTimer <= t.d.toTimer && s.d.packets <= t.d.packets
    && (if client then s.toDaemon != [] && t.toDaemon == s.toDaemon[1..] else t.toDaemon == s.toDaemon)
    && t.d.toClient == s.d.toClient + (if client then [s.d.ring.available - MSS] else [])
    && t.d.packetCount == s.d.packetCount + (if client && s.d.ring.available >= MSS then 1 else 0)
    && t.received == s.received + (if ack.Some? then [ack.value.seqNo] else [])
    && t.d.acked == s.d.acked + (if ack.Some? then MSS else 0)
    && (ack.Some? ==> |t.d.toTimer| > |s.d.toTimer| && t.d.toTimer[|s.d.toTimer|].kind == 'c' &&
                      t.d.toTimer[|s.d.toTimer|].seqNo == ack.value.seqNo)
    && (if expiry then s.expiries != [] && t.expiries == s.expiries[1..] else t.expiries == s.expiries)
    && (expiry ==> |t.d.packets| > |s.d.packets| && t.d.packets[|s.d.packets|].seqNo == s.expiries[0])
  }

  /** In every run: a daemon that is not done reads, in one pass, any combination of a
      waiting block, an acknowledgement the server daemon has sent, and a waiting expiry. */
  lemma PassReadsAll(b: Boot, actions: seq<Action>, run: seq<System>, n: nat,
                     client: bool, ack: Option<AckIn>, expiry: bool)
    requires IsRun(b, actions, run) && n <= |actions| && !run[n].d.done
    requires client ==> run[n].toDaemon != []
    requires ack.Some? ==> ack.value.seqNo in run[n].accepted
    requires expiry ==> run[n].expiries != []
    ensures ReadsAll(run[n], Step(run[n], DaemonTurns(client, ack, expiry)), client, ack, expiry)
  {
    hide Step, Start, ReadsAll, Enabled, Handover, Guarded, FirstsRight, Acknowledged, AlwaysNewest;
    Invariants(b, actions, run, n);
    PassEnabled(run[n], client, ack, expiry);
    TurnReads(run[n], DaemonTurns(client, ack, expiry));
  }

  lemma PassEnabled(s: System, client: bool, ack: Option<AckIn>, expiry: bool)
    requires Guarded(s) && !s.d.done && (client ==> s.toDaemon != [])
    requires (ack.Some? ==> ack.value.seqNo in s.accepted) && (expiry ==> s.expiries != [])
    ensures Enabled(s, DaemonTurns(client, ack, expiry))
  {
    if expiry {
      ExpiredWasSent(s);
    }
    hide Guarded;
  }

  lemma TurnReads(s: System, a: Action)
    requires Handover(s) && a.DaemonTurns? && Enabled(s, a)
    ensures ReadsAll(s, Step(s, a), a.client, a.ack, a.expiry)
  {
    hide Step, Handover, MidRing, Reloaded, StartMsg;
    DaemonTurnIs(s, a);
    PacketsOfTurn(s, a);
    TurnReplies(s, a);
  }

  /** In every run: the timer takes a waiting message and then ticks, or just ticks. */
  lemma TimerReads(b: Boot, actions: seq<Action>, run: seq<System>, n: nat, take: bool)
    requires IsRun(b, actions, run) && n <= |actions| && (take ==> run[n].d.toTimer != [])
    ensures var s := run[n]; var t := Step(s, TimerTurns(take));
            var ev := if take then Received(s.d.toTimer[0]) else Quiet;
            && t.d.toTimer == (if take then s.d.toTimer[1..] else s.d.toTimer)
            && t.timer == Turn(s.timer, ev) && t.expiries == s.expiries + SeqNos(Sent(s.timer, ev))
  {
    hide Turn, Sent, IsRun;
  }

  lemma TurnReplies(s: System, a: Action)
    requires Handover(s) && a.DaemonTurns? && Enabled(s, a)
    ensures var t := Step(s, a);
            && t.toDaemon == (if a.client then s.toDaemon[1..] else s.toDaemon)
            && t.waiting == s.waiting && t.next == s.next
            && t.d.toClient == s.d.toClient + (if a.client then [s.d.ring.available - MSS] else [])
  {
    var (client, expiry) := Offered(s, a);
    IterationIs(s.d, s.d.packetCount, s.size, client, a.ack, expiry);
    hide Iteration, Ready, MidRing, Reloaded, Takes, ComputedRto, Estimated;
  }

  // ------------------------------------------------------------- one step at a time

  const TAKE: Action := DaemonTurns(true, Option.None, false)

  /** The daemon takes a block, sends it and starts its timer. */
  lemma TakeTurn(s: System)
    requires Handover(s) && s.toDaemon != [] && !s.d.done && s.d.ring.available >= MSS && s.d.acked < s.size
    ensures var t := Step(s, TAKE); var k := s.d.packetCount;
            && t.d.packetCount == k + 1 && t.d.toTimer == s.d.toTimer + [StartMsg(k)]
            && |t.d.packets| == |s.d.packets| + 1 && s.d.packets <= t.d.packets
            && t.d.packets[|s.d.packets|].seqNo == k
            && t.timer == s.timer && t.expiries == s.expiries && t.received == s.received
            && t.accepted == s.accepted && t.size == s.size && t.blocks == s.blocks
            && t.d.acked == s.d.acked && !t.d.done && t.waiting == s.waiting && t.next == s.next
  {
    DaemonTurnIs(s, TAKE);
    PacketsOfTurn(s, TAKE);
    TurnReplies(s, TAKE);
    hide Step, Handover;
  }

  /** The daemon receives an acknowledgement. */
  lemma AckTurn(s: System, ack: AckIn)
    requires Handover(s) && !s.d.done && ack.seqNo in s.accepted
    ensures var a := DaemonTurns(false, Option.Some(ack), false); var t := Step(s, a);
            && t.d.packets == s.d.packets && t.d.acked == s.d.acked + MSS
            && (t.d.done <==> t.d.acked >= s.size)
            && t.accepted == s.accepted && t.received == s.received + [ack.seqNo] && t.size == s.size
            && |t.d.toTimer| == |s.d.toTimer| + 1 && t.timer == s.timer && t.expiries == s.expiries
            && s.d.toTimer <= t.d.toTimer && t.d.toTimer[|s.d.toTimer|].kind == 'c'
            && t.waiting == s.waiting && t.next == s.next && t.d.packetCount == s.d.packetCount
  {
    var a := DaemonTurns(false, Option.Some(ack), false);
    TurnReplies(s, a);
    DaemonTurnIs(s, a);
    PacketsOfTurn(s, a);
    hide Step, Handover;
  }

  lemma ServerTurn(s: System, i: nat)
    requires i < |s.d.packets|
    ensures Step(s, ServerHears(i, 0)) == s.(accepted := s.accepted + {s.d.packets[i].seqNo})
  {
  }

  lemma OfferTurn(s: System)
    requires !s.waiting && s.next < |s.blocks|
    ensures Step(s, ClientSends) == s.(waiting := true, toDaemon := s.toDaemon + [s.blocks[s.next]])
  {
  }

  lemma RingAfterTake(s: System)
    requires Handover(s) && Enabled(s, TAKE) && s.d.ring.available >= MSS
    ensures var r := Step(s, TAKE).d.ring;
            && r.ack == s.d.ring.ack && r.notack == s.d.ring.notack + MSS
            && r.available == s.d.ring.available - MSS && r.table[s.d.packetCount % WS] == 0
  {
    DaemonStepIs(s, TAKE);
    TakeRing(s.d, s.d.packetCount, s.size, s.toDaemon[0]);
    hide Step, Iteration, Handover, Ready;
  }

  lemma RingAfterAck(s: System, ack: AckIn)
    requires Handover(s) && Enabled(s, DaemonTurns(false, Option.Some(ack), false))
    ensures Step(s, DaemonTurns(false, Option.Some(ack), false)).d.ring == Ack(s.d.ring)
  {
    DaemonStepIs(s, DaemonTurns(false, Option.Some(ack), false));
    AckRing(s.d, s.d.packetCount, s.size, ack);
    hide Step, Iteration, Handover, Ready, Ack;
  }

  // --------------------------------------------------------------- a complete transfer

  function AckFor(k: nat): AckIn
  {
    AckIn(k, Time(0, 0), Time(0, 0))
  }

  /** The first j blocks have been sent, accepted and acknowledged, one after the other. */
  ghost predicate UpTo(s: System, j: nat, q: nat)
  {
    && !s.waiting && s.next == s.d.packetCount == |s.d.packets| == |s.received| == j
    && (forall i | 0 <= i < j :: s.d.packets[i].seqNo == i && s.received[i] == i)
    && s.d.acked == MSS * j && (s.d.done <==> j > 0 && MSS * j >= s.size)
    && Spacious(s.d.ring, j, q)
  }

  /** One more block: offered, taken, accepted by both daemons, acknowledged. */
  lemma OneBlock(s: System, j: nat, q: nat) returns (p: nat)
    requires Handover(s) && UpTo(s, j, q) && MSS * j < s.size
    ensures var t := Step(Step(Step(s, ClientSends), TAKE), ClientHears);
            var u := Step(Step(t, ServerHears(j, 0)), DaemonTurns(false, Option.Some(AckFor(j)), false));
            UpTo(u, j + 1, p) && u.size == s.size
  {
    var s1 := Step(s, ClientSends);
    var s2 := Step(s1, TAKE);
    var s3 := Step(s2, ClientHears);
    var s4 := Step(s3, ServerHears(j, 0));
    hide Step;
    OfferTurn(s);
    StepHandover(s, ClientSends);
    TakeTurn(s1);
    TurnReplies(s1, TAKE);
    StepHandover(s1, TAKE);
    HearAndOffer(s2);
    StepHandover(s2, ClientHears);
    ServerTurn(s3, j);
    StepHandover(s3, ServerHears(j, 0));
    AckTurn(s4, AckFor(j));
    RingAfterTake(s1);
    RingAfterAck(s4, AckFor(j));
    hide Handover;
    p := AckSpacious(s4.d.ring, j, q);
  }

  function Round(j: nat): seq<Action>
  {
    [ClientSends, TAKE, ClientHears, ServerHears(j, 0), DaemonTurns(false, Option.Some(AckFor(j)), false)]
  }

  lemma Extended(b: Boot, actions: seq<Action>, run: seq<System>, a: Action)
    requires IsRun(b, actions, run)
    ensures IsRun(b, actions + [a], run + [Step(run[|actions|], a)])
  {
    hide Step, Start;
    var longer, more := run + [Step(run[|actions|], a)], actions + [a];
    forall i | 0 <= i < |more|
      ensures longer[i + 1] == Step(longer[i], more[i])
    {
      if i < |actions| {
        assert run[i + 1] == Step(run[i], actions[i]);
      }
    }
  }

  lemma FiveSteps(b: Boot, actions: seq<Action>, run: seq<System>, a: seq<Action>)
      returns (more: seq<Action>, longer: seq<System>)
    requires IsRun(b, actions, run) && |a| == 5
    ensures IsRun(b, more, longer)
    ensures longer[|more|] == Step(Step(Step(Step(Step(run[|actions|], a[0]), a[1]), a[2]), a[3]), a[4])
  {
    hide Step, Start;
    more, longer := actions, run;
    for i := 0 to 5
      invariant IsRun(b, more, longer)
      invariant i == 0 ==> longer[|more|] == run[|actions|]
      invariant i == 1 ==> longer[|more|] == Step(run[|actions|], a[0])
      invariant i == 2 ==> longer[|more|] == Step(Step(run[|actions|], a[0]), a[1])
      invariant i == 3 ==> longer[|more|] == Step(Step(Step(run[|actions|], a[0]), a[1]), a[2])
      invariant i == 4 ==> longer[|more|] == Step(Step(Step(Step(run[|actions|], a[0]), a[1]), a[2]), a[3])
      invariant i == 5 ==> longer[|more|] == Step(Step(Step(Step(Step(run[|actions|], a[0]), a[1]), a[2]), a[3]), a[4])
    {
      Extended(b, more, longer, a[i]);
      longer, more := longer + [Step(longer[|more|], a[i])], more + [a[i]];
    }
  }

  lemma {:induction false} FirstBlocks(b: Boot, j: nat) returns (actions: seq<Action>, run: seq<System>, q: nat)
    requires |b.bytes| == CAPACITY && MSS * j < |b.file| + MSS
    ensures IsRun(b, actions, run) && UpTo(run[|actions|], j, q)
  {
    hide Step, Start, Handover, Guarded, FirstsRight, Acknowledged, AlwaysNewest, UpTo;
    if j == 0 {
      actions, run, q := [], [Start(b)], 0;
      NothingSent(b);
    } else {
      actions, run, q := FirstBlocks(b, j - 1);
      Invariants(b, actions, run, |actions|);
      q := OneBlock(run[|actions|], j - 1, q);
      actions, run := FiveSteps(b, actions, run, Round(j - 1));
    }
  }

  lemma NothingSent(b: Boot)
    requires |b.bytes| == CAPACITY
    ensures UpTo(Start(b), 0, 0)
  {
  }

  lemma {:induction false} AllNumbers(s: seq<int>, n: nat)
    requires |s| == n && forall i | 0 <= i < n :: s[i] == i
    ensures ToSet(s) == Numbers(n)
  {
    forall k | k in Numbers(n)
      ensures k in s
    {
      assert s[k] == k;
    }
  }

  /** Every file that is not empty has a run in which the daemon ends done, with one
      acknowledgement for each packet that holds bytes of the file.  These are all the
      blocks if the size is not a multiple of the packet size. */
  lemma CanComplete(b: Boot)
    requires |b.bytes| == CAPACITY && |b.file| > 0
    ensures exists actions: seq<Action>, run: seq<System> ::
              && IsRun(b, actions, run) && run[|actions|].d.done
              && ToSet(run[|actions|].received) == Numbers((|b.file| + MSS - 1) / MSS)
    ensures |b.file| % MSS != 0 <==> (|b.file| + MSS - 1) / MSS == BlockCount(|b.file|)
  {
    var j := (|b.file| + MSS - 1) / MSS;
    assert j > 0 && MSS * j >= |b.file| && MSS * j < |b.file| + MSS;
    hide Step, Start;
    var actions, run, q := FirstBlocks(b, j);
    Invariants(b, actions, run, |actions|);
    AllNumbers(run[|actions|].received, j);
    hide Handover, Guarded, FirstsRight, Acknowledged, AlwaysNewest;
  }
}
