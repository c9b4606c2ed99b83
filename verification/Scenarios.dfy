/** Three runs of the sending side, each an input on which it does not do what it is for. */
module Scenarios {
  import opened Common
  import opened FileTransfer
  import opened DeltaList
  import opened Timers
  import opened Jacobson
  import opened SenderDaemons
  import opened SenderSteps
  import opened Protocol
  import opened SenderRuns
  import opened SenderTheorems
  import opened AckTheorems
  import opened Progress

  const READ: Action := DaemonTurns(false, Option.None, true)
  const FIRST_ACK: Action := DaemonTurns(false, Option.Some(AckIn(0, Time(0, 0), Time(0, 0))), false)

  // -------------------------------------------------------------- one step at a time

  /** The daemon reads an expiry of packet 0 and sends the packet again. */
  lemma ReadTurn(s: System)
    requires Handover(s) && !s.d.done && s.expiries == [0]
    ensures var t := Step(s, READ);
            && |t.d.packets| == |s.d.packets| + 1 && s.d.packets <= t.d.packets
            && t.d.packets[|s.d.packets|].seqNo == 0
            && t.d.toTimer == s.d.toTimer + [StartMsg(0)] && t.timer == s.timer && t.expiries == []
            && t.received == s.received
  {
    DaemonTurnIs(s, READ);
    PacketsOfTurn(s, READ);
    hide Step, Handover, Reloaded, MidRing;
  }

  /** Packet 0 is out, its start waits for the timer, and nothing else has happened. */
  ghost predicate Opened(s: System, b: Boot)
  {
    && s.size == |b.file| && s.blocks == Blocks(b.file, b.stale) && s.waiting && s.next == 0
    && s.d.packetCount == 1 && |s.d.packets| == 1 && s.d.packets[0].seqNo == 0
    && s.d.toTimer == [StartMsg(0)] && s.timer == [] && s.expiries == []
    && s.received == [] && s.d.acked == 0 && !s.d.done
  }

  lemma Offer(b: Boot)
    requires |b.bytes| == CAPACITY
    ensures var s := Step(Start(b), ClientSends);
            && s.d == Start(b).d && s.toDaemon != [] && s.waiting && s.next == 0
            && s.timer == [] && s.expiries == [] && s.received == []
  {
  }

  /** The first two steps of each run. */
  lemma Opening(b: Boot, actions: seq<Action>, run: seq<System>)
    requires IsRun(b, actions, run) && |actions| >= 2 && actions[0] == ClientSends && actions[1] == TAKE
    requires |b.file| > 0
    ensures Opened(run[2], b)
  {
    Offer(b);
    assert Start(b).d.packetCount == 0 && Start(b).d.packets == [] && Start(b).d.toTimer == [];
    assert Start(b).d.acked == 0 && !Start(b).d.done && Start(b).d.ring.available == CAPACITY;
    hide Step, Start;
    assert run[1] == Step(run[0], ClientSends) && run[2] == Step(run[1], TAKE);
    Invariants(b, actions, run, 1);
    hide Handover, Guarded, FirstsRight, Acknowledged, AlwaysNewest;
    TakeTurn(run[1]);
  }

  // ------------------------------------------------------ a repeated acknowledgement

  /** With a repeated acknowledgement completion can be wrong: a file of two blocks is
      declared complete although its second block was never sent. */
  const HASTY: seq<Action> := [ClientSends, TAKE, ServerHears(0, 0), FIRST_ACK, FIRST_ACK]

  lemma RepeatedAckCompletesEarly(b: Boot, run: seq<System>)
    requires IsRun(b, HASTY, run) && MSS < |b.file| <= 2 * MSS
    ensures var s := run[5];
            s.d.done && s.received == [0, 0] && SentNos(s.d.packets) == {0} && 1 < BlockCount(|b.file|)
  {
    hide Step, Start;
    Opening(b, HASTY, run);
    assert run[3] == Step(run[2], HASTY[2]) && run[4] == Step(run[3], HASTY[3]) && run[5] == Step(run[4], HASTY[4]);
    ServerTurn(run[2], 0);
    Invariants(b, HASTY, run, 3);
    Invariants(b, HASTY, run, 4);
    hide Handover, Guarded, FirstsRight, Acknowledged, AlwaysNewest;
    AckTurn(run[3], FIRST_ACK.ack.value);
    AckTurn(run[4], FIRST_ACK.ack.value);
    assert run[5].d.packets == [run[2].d.packets[0]];
  }

  // -------------------------------------------------------- an expiry already under way

  /** Packet 0 is sent and accepted, its timer expires, and then its acknowledgement is
      received, one pass before the expiry is read. */
  const LATE: seq<Action> :=
    [ClientSends, TAKE, ServerHears(0, 0), TimerTurns(true)] + seq(19, _ => TimerTurns(false)) + [FIRST_ACK, READ]

  /** The state j turns of the timer after it has taken the start. */
  function Aged(s: System, j: nat): System
  {
    s.(d := s.d.(toTimer := []), timer := if j < 19 then [Entry(19 - j, 0, TIMER_PORT)] else [],
       expiries := if j < 19 then [] else [0])
  }

  lemma AgeStarts(s: System)
    requires s.d.toTimer == [StartMsg(0)] && s.timer == [] && s.expiries == []
    ensures Step(s, TimerTurns(true)) == Aged(s, 0)
  {
    assert EventOf(s, true) == Received(StartMsg(0));
    assert Deliver([], Received(StartMsg(0))) == [Entry(20, 0, TIMER_PORT)];
  }

  lemma AgeStep(s: System, j: nat)
    requires j < 19
    ensures Step(Aged(s, j), TimerTurns(false)) == Aged(s, j + 1)
  {
    assert Deliver(Aged(s, j).timer, Quiet) == [Entry(19 - j, 0, TIMER_PORT)];
  }

  lemma {:induction false} Ages(b: Boot, run: seq<System>, j: nat)
    requires IsRun(b, LATE, run) && |b.file| > MSS && j <= 19
    ensures run[4 + j] == Aged(run[3], j)
    ensures Opened(run[3].(accepted := run[2].accepted), b) && 0 in run[3].accepted
  {
    hide Step, Start, Aged;
    if j == 0 {
      Opening(b, LATE, run);
      ServerTurn(run[2], 0);
      assert run[3] == Step(run[2], LATE[2]) && run[4] == Step(run[3], LATE[3]);
      AgeStarts(run[3]);
    } else {
      Ages(b, run, j - 1);
      assert LATE[3 + j] == TimerTurns(false);
      assert run[4 + j] == Step(run[3 + j], LATE[3 + j]);
      AgeStep(run[3], j - 1);
    }
  }

  /** A packet acknowledged while its expiry waits for the daemon is sent again, and its
      timer started again behind the cancel, which no longer stops it. */
  lemma LateAckResends(b: Boot, run: seq<System>)
    requires IsRun(b, LATE, run) && |b.file| > MSS
    ensures var s, t := run[24], run[25];
            && run[23].expiries == s.expiries == [0] && s.received == [0] && |s.d.packets| == 1
            && |t.d.packets| == 2 && t.d.packets[1].seqNo == 0
            && Tokens(t)[0] == 1 && !Loses(t.timer, t.d.toTimer, 0)
  {
    hide Step, Start, Tokens, Loses;
    Ages(b, run, 19);
    assert LATE[23] == FIRST_ACK && LATE[24] == READ;
    assert run[24] == Step(run[23], LATE[23]) && run[25] == Step(run[24], LATE[24]);
    Invariants(b, LATE, run, 23);
    Invariants(b, LATE, run, 24);
    hide Handover, Guarded, FirstsRight, Acknowledged, AlwaysNewest;
    AckTurn(run[23], FIRST_ACK.ack.value);
    ReadTurn(run[24]);
    StartBehindCancel(run[25], run[24].d.toTimer[0]);
  }

  lemma StartBehindCancel(u: System, cancel: Message)
    requires u.d.toTimer == [cancel, StartMsg(0)] && cancel.kind == 'c'
    requires u.timer == [] && u.expiries == []
    ensures Tokens(u)[0] == 1 && !Loses(u.timer, u.d.toTimer, 0)
  {
    var queue := u.d.toTimer;
    assert queue[1..] == [StartMsg(0)] && queue[1..][1..] == [];
    StartNosOne(cancel);
    StartNosOne(StartMsg(0));
    StartNosConcat([cancel], [StartMsg(0)]);
    assert queue == [cancel] + [StartMsg(0)];
    var list := Turn([], Received(cancel));
    assert Loses(list, queue[1..], 0) == Loses(Turn(list, Received(StartMsg(0))), [], 0) == false;
    hide Turn;
  }

  // --------------------------------------------------- a retransmission with a wrong body

  /** Packets 0 and 1 are sent, the timer of packet 0 expires, and the packet is sent again. */
  const STALE: seq<Action> :=
    [ClientSends, TAKE, ClientHears, ClientSends, TAKE, TimerTurns(true), TimerTurns(true)]
    + seq(18, _ => TimerTurns(false)) + [READ]

  lemma ClientTurns(s: System)
    requires Handover(s) && s.waiting && s.next == 0 && s.d.packetCount == 1 && |s.blocks| >= 2
    ensures var t := Step(Step(s, ClientHears), ClientSends);
            t == s.(next := 1, toDaemon := t.toDaemon, d := s.d.(toClient := t.d.toClient)) && t.toDaemon != []
  {
    hide Idle;
  }

  /** The state j turns of the timer after it has taken both starts. */
  function Paired(s: System, j: nat): System
  {
    s.(d := s.d.(toTimer := []), expiries := if j < 18 then [] else [0],
       timer := (if j < 18 then [Entry(18 - j, 0, TIMER_PORT)] else []) + [Entry(1, 1, TIMER_PORT)])
  }

  lemma PairStarts(s: System)
    requires s.d.toTimer == [StartMsg(0), StartMsg(1)] && s.timer == [] && s.expiries == []
    ensures Step(Step(s, TimerTurns(true)), TimerTurns(true)) == Paired(s, 0)
  {
    var t := Step(s, TimerTurns(true));
    FirstStart(s);
    SecondStart(t);
    hide Step;
  }

  lemma FirstStart(s: System)
    requires s.d.toTimer == [StartMsg(0), StartMsg(1)] && s.timer == [] && s.expiries == []
    ensures Step(s, TimerTurns(true)) ==
            s.(d := s.d.(toTimer := [StartMsg(1)]), timer := [Entry(19, 0, TIMER_PORT)])
  {
    assert EventOf(s, true) == Received(StartMsg(0));
    assert Deliver([], Received(StartMsg(0))) == [Entry(20, 0, TIMER_PORT)];
  }

  lemma SecondStart(s: System)
    requires s.d.toTimer == [StartMsg(1)] && s.timer == [Entry(19, 0, TIMER_PORT)] && s.expiries == []
    ensures Step(s, TimerTurns(true)) == Paired(s, 0)
  {
    assert EventOf(s, true) == Received(StartMsg(1));
    assert PrefixSum(s.timer, 1) == 19;
    assert Slot(s.timer, 20, 0) == 1;
    assert Deliver(s.timer, Received(StartMsg(1))) == [Entry(19, 0, TIMER_PORT), Entry(1, 1, TIMER_PORT)];
  }

  lemma PairStep(s: System, j: nat)
    requires j < 18
    ensures Step(Paired(s, j), TimerTurns(false)) == Paired(s, j + 1)
  {
    PairTick(18 - j);
    assert Deliver(Paired(s, j).timer, Quiet) == [Entry(18 - j, 0, TIMER_PORT), Entry(1, 1, TIMER_PORT)];
    hide Tick, Fired;
  }

  lemma PairTick(t: int)
    requires t >= 1
    ensures var list := [Entry(t, 0, TIMER_PORT), Entry(1, 1, TIMER_PORT)];
            && Tick(list) == (if t > 1 then [Entry(t - 1, 0, TIMER_PORT)] else []) + [Entry(1, 1, TIMER_PORT)]
            && SeqNos(Fired(list)) == if t > 1 then [] else [0]
  {
    var m := Decrement([Entry(t, 0, TIMER_PORT), Entry(1, 1, TIMER_PORT)]);
    assert m == [Entry(t - 1, 0, TIMER_PORT), Entry(1, 1, TIMER_PORT)];
    assert Zeros(m, 0) == if t > 1 then 0 else 1;
  }

  /** Packets 0 and 1 are out and their starts wait for the timer. */
  lemma BothSent(b: Boot, run: seq<System>)
    requires IsRun(b, STALE, run) && |b.file| >= MSS
    ensures var s := run[5];
            && |s.d.packets| == 2 && s.d.packets[0].seqNo == 0 && s.d.packets[1].seqNo == 1
            && s.d.toTimer == [StartMsg(0), StartMsg(1)] && s.timer == [] && s.expiries == [] && !s.d.done
  {
    hide Step, Start;
    Opening(b, STALE, run);
    assert run[3] == Step(run[2], STALE[2]) && run[4] == Step(run[3], STALE[3]) && run[5] == Step(run[4], STALE[4]);
    Invariants(b, STALE, run, 2);
    WindowBounded(b, STALE, run, 2);
    ClientTurns(run[2]);
    Invariants(b, STALE, run, 4);
    hide Handover, Guarded, FirstsRight, Acknowledged, AlwaysNewest;
    TakeTurn(run[4]);
  }

  lemma {:induction false} Pairs(b: Boot, run: seq<System>, j: nat)
    requires IsRun(b, STALE, run) && |b.file| >= MSS && j <= 18
    ensures run[7 + j] == Paired(run[5], j)
  {
    hide Step, Start, Paired;
    if j == 0 {
      BothSent(b, run);
      assert run[6] == Step(run[5], STALE[5]) && run[7] == Step(run[6], STALE[6]);
      PairStarts(run[5]);
    } else {
      Pairs(b, run, j - 1);
      assert STALE[6 + j] == TimerTurns(false);
      assert run[7 + j] == Step(run[6 + j], STALE[6 + j]);
      PairStep(run[5], j - 1);
    }
  }

  /** The packet sent again under number 0 carries block 1, and is wrong whenever the two
      blocks differ. */
  lemma RetransmissionIsStale(b: Boot, run: seq<System>)
    requires IsRun(b, STALE, run) && |b.file| >= MSS
    ensures var p := run[26].d.packets; var blocks := Blocks(b.file, b.stale);
            && |p| == 3 && p[0].seqNo == p[2].seqNo == 0 && |blocks| >= 2
            && p[0].body == blocks[0] && p[2].body == blocks[1]
  {
    hide Step, Start;
    Pairs(b, run, 18);
    BothSent(b, run);
    assert STALE[25] == READ && run[26] == Step(run[25], STALE[25]);
    Invariants(b, STALE, run, 25);
    hide Handover, Guarded, FirstsRight, Acknowledged, AlwaysNewest;
    ReadTurn(run[25]);
    var p := run[26].d.packets;
    NewestOfThree(p);
    PacketRightIff(b, STALE, run, 26, 0);
    PacketRightIff(b, STALE, run, 26, 2);
  }

  lemma NewestOfThree(p: seq<Packet>)
    requires |p| == 3 && p[0].seqNo == p[2].seqNo == 0 && p[1].seqNo == 1
    ensures Newest(p, 1) == 0 && Newest(p, 3) == 1
  {
    assert Newest(p, 0) == -1;
    assert Newest(p, 2) == Max2(Newest(p, 1), 1);
  }
}
