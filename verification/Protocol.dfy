/** Client, sender daemon, timer process and server daemon as one system of message
    queues.  Local links are first-in first-out; whatever was sent to the server, or by
    the server, may arrive at any time, any number of times, in any order, or never. */
module Protocol {
  import opened Common
  import opened FileTransfer
  import opened DeltaList
  import opened Timers
  import opened SenderDaemons
  import opened SenderSteps
  import opened Jacobson

  /** The file, and what C leaves uninitialised. */
  datatype Boot = Boot(file: seq<byte>, stale: Block, bytes: seq<byte>, recv: Block, body: Block,
                       est: Estimate, rto: int, ackMsg: Message)

  datatype System = System(
    size: nat, blocks: seq<Block>,             // the file, never changed
    next: nat, waiting: bool,                  // client: block being sent, and whether in SENDD
    toDaemon: seq<Block>,                      // client to daemon
    d: Daemon,                                 // daemon, with its queues to client, timer and network
    timer: seq<Entry>, expiries: seq<int>,     // timer process, and its queue to the daemon
    accepted: set<int>,                        // numbers the server daemon accepted and acknowledged
    received: seq<int>)                        // acknowledgements the daemon has received

  function Start(b: Boot): System
    requires |b.bytes| == CAPACITY
  {
    System(|b.file|, Blocks(b.file, b.stale), 0, false, [],
           Entering(b.bytes, b.recv, b.body, b.est, b.rto, b.ackMsg), [], [], {}, [])
  }

  datatype Action =
    | ClientSends
    | ClientHears
    | DaemonTurns(client: bool, ack: Option<AckIn>, expiry: bool)
    | TimerTurns(take: bool)
    | ServerHears(packet: nat, rem: int)

  predicate Enabled(s: System, a: Action)
  {
    match a
    case ClientSends => !s.waiting && s.next < |s.blocks|
    case ClientHears => s.waiting && s.d.toClient != []
    case DaemonTurns(client, ack, expiry) =>
      && !s.d.done
      && (client ==> s.toDaemon != [])
      && (ack.Some? ==> ack.value.seqNo in s.accepted)
      && (expiry ==> s.expiries != [] && s.expiries[0] >= 0)
    case TimerTurns(take) => take ==> s.d.toTimer != []
    case ServerHears(i, _) => i < |s.d.packets|
  }

  function ClientSend(s: System): System
    requires Enabled(s, ClientSends)
  {
    s.(waiting := true, toDaemon := s.toDaemon + [s.blocks[s.next]])
  }

  /** A negative reply makes SENDD transmit the same block again. */
  function ClientHear(s: System): System
    requires Enabled(s, ClientHears)
  {
    s.(waiting := false, next := if s.d.toClient[0] >= 0 then s.next + 1 else s.next,
       d := s.d.(toClient := s.d.toClient[1..]))
  }

  function Offered(s: System, a: Action): (o: (Option<Block>, Option<nat>))
    requires a.DaemonTurns? && Enabled(s, a)
  {
    (if a.client then Option.Some(s.toDaemon[0]) else Option.None,
     if a.expiry then Option.Some(s.expiries[0]) else Option.None)
  }

  function DaemonTurn(s: System, a: Action): System
    requires a.DaemonTurns? && Enabled(s, a)
  {
    var (client, expiry) := Offered(s, a);
    s.(d := Iteration(s.d, s.size, client, a.ack, expiry),
       toDaemon := if a.client then s.toDaemon[1..] else s.toDaemon,
       expiries := if a.expiry then s.expiries[1..] else s.expiries,
       received := if a.ack.Some? then s.received + [a.ack.value.seqNo] else s.received)
  }

  function EventOf(s: System, take: bool): Event
    requires Enabled(s, TimerTurns(take))
  {
    if take then Received(s.d.toTimer[0]) else Quiet
  }

  function TimerTurn(s: System, take: bool): System
    requires Enabled(s, TimerTurns(take))
  {
    var ev := EventOf(s, take);
    s.(d := s.d.(toTimer := if take then s.d.toTimer[1..] else s.d.toTimer),
       timer := Turn(s.timer, ev), expiries := s.expiries + SeqNos(Sent(s.timer, ev)))
  }

  function ServerHear(s: System, i: nat, rem: int): System
    requires Enabled(s, ServerHears(i, rem))
  {
    if rem >= 0 then s.(accepted := s.accepted + {s.d.packets[i].seqNo}) else s
  }

  /** A step that is not enabled does nothing. */
  function Step(s: System, a: Action): System
  {
    if !Enabled(s, a) then s else
    match a
    case ClientSends => ClientSend(s)
    case ClientHears => ClientHear(s)
    case DaemonTurns(_, _, _) => DaemonTurn(s, a)
    case TimerTurns(take) => TimerTurn(s, take)
    case ServerHears(i, rem) => ServerHear(s, i, rem)
  }

  /** The states of a run from the start. */
  ghost predicate IsRun(b: Boot, actions: seq<Action>, run: seq<System>)
  {
    && |b.bytes| == CAPACITY && |run| == |actions| + 1 && run[0] == Start(b)
    && forall i {:trigger Step(run[i], actions[i])} | 0 <= i < |actions| :: run[i + 1] == Step(run[i], actions[i])
  }

  // ------------------------------------------------- the numbers that are about

  function StartNos(queue: seq<Message>): seq<int>
  {
    if queue == [] then []
    else (if queue[0].kind == 's' then [queue[0].seqNo] else []) + StartNos(queue[1..])
  }

  /** Start messages in flight, live timers, and expiries in flight. */
  function TokensIn(queue: seq<Message>, list: seq<Entry>, expiries: seq<int>): multiset<int>
  {
    multiset(StartNos(queue)) + multiset(SeqNos(list)) + multiset(expiries)
  }

  function Tokens(s: System): multiset<int>
  {
    TokensIn(s.d.toTimer, s.timer, s.expiries)
  }

  // ------------------------------------------------------------------ invariants

  /** The stop-and-wait hand-over between client and daemon. */
  ghost predicate Handover(s: System)
  {
    && s.d.packetCount >= 0 && Ready(s.d, s.d.packetCount)
    && s.next <= |s.blocks| && |s.blocks| == BlockCount(s.size)
    && if !s.waiting then s.toDaemon == [] && s.d.toClient == [] && s.d.packetCount == s.next
       else
         && s.next < |s.blocks|
         && (|| (s.toDaemon == [s.blocks[s.next]] && s.d.toClient == [] && s.d.packetCount == s.next)
             || (s.toDaemon == [] && |s.d.toClient| == 1 &&
                 s.d.packetCount == if s.d.toClient[0] >= 0 then s.next + 1 else s.next))
  }

  /** What the daemon puts into the timer's queue. */
  predicate WellSent(m: Message, received: seq<int>)
  {
    if m.kind == 'c' then m.seqNo in received else m == StartMsg(m.seqNo)
  }

  /** Among numbers 0 to n - 1, one token each until acknowledged and at most one after;
      none for any other number. */
  ghost predicate OneEach(tokens: multiset<int>, n: int, received: seq<int>)
  {
    forall k {:trigger tokens[k]} ::
      && tokens[k] <= 1
      && (tokens[k] > 0 ==> 0 <= k < n)
      && (0 <= k < n && k !in received ==> tokens[k] == 1)
  }

  ghost predicate AllWellSent(queue: seq<Message>, received: seq<int>)
  {
    forall m | m in queue :: WellSent(m, received)
  }

  ghost predicate Guarded(s: System)
  {
    && OneEach(Tokens(s), s.d.packetCount, s.received)
    && AllWellSent(s.d.toTimer, s.received)
    && Paced(s.timer, TIMER_TICKS)
  }

  // --------------------------------------------------------- one step of each kind

  lemma StepHandover(s: System, a: Action)
    requires Handover(s)
    ensures Handover(Step(s, a))
  {
    if a.DaemonTurns? && Enabled(s, a) {
      var (client, expiry) := Offered(s, a);
      IterationIs(s.d, s.d.packetCount, s.size, client, a.ack, expiry);
      hide Iteration, Ready;
    } else {
      hide Idle, Turn, Sent;
    }
  }

  // ---- tokens

  lemma NoStarts()
    ensures StartNos([]) == []
  {
  }

  lemma StartNosCons(m: Message, queue: seq<Message>)
    ensures StartNos([m] + queue) == (if m.kind == 's' then [m.seqNo] else []) + StartNos(queue)
  {
    assert ([m] + queue)[1..] == queue;
  }

  lemma {:induction false} StartNosConcat(a: seq<Message>, b: seq<Message>)
    ensures StartNos(a + b) == StartNos(a) + StartNos(b)
  {
    hide StartNos;
    if a == [] {
      NoStarts();
      assert a + b == b;
    } else {
      StartNosConcat(a[1..], b);
      StartNosCons(a[0], a[1..]);
      StartNosCons(a[0], a[1..] + b);
      assert a == [a[0]] + a[1..] && a + b == [a[0]] + (a[1..] + b);
    }
  }

  lemma StartNosOne(m: Message)
    ensures StartNos([m]) == if m.kind == 's' then [m.seqNo] else []
  {
    assert [m][1..] == [];
  }

  /** The part of a daemon turn the timer side sees. */
  lemma DaemonTurnIs(s: System, a: Action)
    requires Handover(s) && a.DaemonTurns? && Enabled(s, a)
    ensures var t := Step(s, a); var (client, expiry) := Offered(s, a); var took := Takes(s.d, client);
            && t.d.toTimer == s.d.toTimer + Cancels(s.d, a) + Starts(expiry)
                              + (if took then [StartMsg(s.d.packetCount)] else [])
            && t.d.packetCount == (if took then s.d.packetCount + 1 else s.d.packetCount)
            && t.timer == s.timer && t.expiries == (if a.expiry then s.expiries[1..] else s.expiries)
            && t.received == (if a.ack.Some? then s.received + [a.ack.value.seqNo] else s.received)
  {
    var (client, expiry) := Offered(s, a);
    IterationIs(s.d, s.d.packetCount, s.size, client, a.ack, expiry);
    hide Iteration, Idle, Takes;
  }

  function Cancels(d: Daemon, a: Action): seq<Message>
    requires a.DaemonTurns?
  {
    if a.ack.Some? then [d.ackMsg.(seqNo := a.ack.value.seqNo, kind := 'c')] else []
  }

  function Starts(expiry: Option<nat>): seq<Message>
  {
    if expiry.Some? then [StartMsg(expiry.value)] else []
  }

  lemma RearmTokens(queue: seq<Message>, c: seq<Message>, e: seq<Message>, n: seq<Message>,
                    list: seq<Entry>, expiries: seq<int>, rest: seq<int>)
    requires StartNos(c) == [] && expiries == StartNos(e) + rest
    ensures TokensIn(queue + c + e + n, list, rest) == TokensIn(queue, list, expiries) + multiset(StartNos(n))
  {
    StartNosConcat(queue + c + e, n);
    StartNosConcat(queue + c, e);
    StartNosConcat(queue, c);
  }

  /** The daemon re-arms an expired number, arms a new one when it takes a block, and
      an announced acknowledgement adds none. */
  lemma DaemonTokens(s: System, a: Action)
    requires Handover(s) && a.DaemonTurns? && Enabled(s, a)
    ensures Tokens(Step(s, a)) ==
            Tokens(s) + if Takes(s.d, Offered(s, a).0) then multiset{s.d.packetCount} else multiset{}
  {
    var t := Step(s, a);
    var (client, expiry) := Offered(s, a);
    DaemonTurnIs(s, a);
    var n := if Takes(s.d, client) then [StartMsg(s.d.packetCount)] else [];
    if a.ack.Some? {
      StartNosOne(Cancels(s.d, a)[0]);
    }
    if a.expiry {
      StartNosOne(StartMsg(expiry.value));
    }
    StartNosOne(StartMsg(s.d.packetCount));
    assert StartNos(Cancels(s.d, a)) == [];
    assert s.expiries == StartNos(Starts(expiry)) + t.expiries;
    hide Step, Handover, Takes, StartNos, TokensIn;
    RearmTokens(s.d.toTimer, Cancels(s.d, a), Starts(expiry), n, s.timer, s.expiries, t.expiries);
  }

  /** The timer moves numbers from its queue to its list and from its list to the daemon;
      only a cancel takes one away, and only the number it names. */
  lemma TimerTokens(s: System, take: bool)
    requires Enabled(s, TimerTurns(take))
    ensures var t := TimerTurn(s, take);
            forall k {:trigger Tokens(t)[k]} ::
              && Tokens(t)[k] <= Tokens(s)[k]
              && (Tokens(t)[k] == Tokens(s)[k] || (take && s.d.toTimer[0].kind == 'c' && s.d.toTimer[0].seqNo == k))
  {
    var t := TimerTurn(s, take);
    var ev := EventOf(s, take);
    var after := Deliver(s.timer, ev);
    var left, held := multiset(StartNos(t.d.toTimer)), multiset(SeqNos(after));
    TickSeqNos(after);
    assert multiset(SeqNos(t.timer)) + multiset(t.expiries) == held + multiset(s.expiries);
    assert Tokens(t) == left + held + multiset(s.expiries);
    DeliverSeqNos(s, take);
    hide StartNos, SeqNos, Deliver, Tick, Fired;
  }

  lemma DeliverSeqNos(s: System, take: bool)
    requires Enabled(s, TimerTurns(take))
    ensures var held := multiset(SeqNos(Deliver(s.timer, EventOf(s, take))));
            var left := multiset(StartNos(if take then s.d.toTimer[1..] else s.d.toTimer));
            var before := multiset(StartNos(s.d.toTimer)) + multiset(SeqNos(s.timer));
            left + held == before ||
            (take && s.d.toTimer[0].kind == 'c' && left == multiset(StartNos(s.d.toTimer)) &&
             held == multiset(SeqNos(s.timer)) - multiset{s.d.toTimer[0].seqNo})
  {
    if take {
      var m := s.d.toTimer[0];
      var rest := StartNos(s.d.toTimer[1..]);
      assert StartNos(s.d.toTimer) == if m.kind == 's' then [m.seqNo] + rest else rest;
      if m.kind == 's' {
        InsertSeqNos(s.timer, Entry(m.time, m.seqNo, m.port));
      } else if m.kind == 'c' {
        CancelSeqNos(s.timer, m.seqNo);
      }
    }
  }

  lemma OneMore(tokens: multiset<int>, n: nat, received: seq<int>, took: bool, more: seq<int>)
    requires OneEach(tokens, n, received)
    ensures OneEach(tokens + (if took then multiset{n} else multiset{}), if took then n + 1 else n, received + more)
  {
    var after := tokens + (if took then multiset{n} else multiset{});
    forall k
      ensures after[k] == tokens[k] + (if took && k == n then 1 else 0)
    {
    }
    assert tokens[n] == 0;
  }

  lemma DaemonGuarded(s: System, a: Action)
    requires Handover(s) && Guarded(s) && a.DaemonTurns? && Enabled(s, a)
    ensures Guarded(Step(s, a))
  {
    var t := Step(s, a);
    var took := Takes(s.d, Offered(s, a).0);
    DaemonTokens(s, a);
    DaemonTurnIs(s, a);
    OneMore(Tokens(s), s.d.packetCount, s.received, took, if a.ack.Some? then [a.ack.value.seqNo] else []);
    DaemonMessages(s, a);
    assert t.received == s.received + if a.ack.Some? then [a.ack.value.seqNo] else [];
    hide Step, Handover, TokensIn, Tokens, Paced, Takes, Offered, OneEach, AllWellSent;
  }

  lemma DaemonMessages(s: System, a: Action)
    requires Handover(s) && a.DaemonTurns? && Enabled(s, a) && AllWellSent(s.d.toTimer, s.received)
    ensures AllWellSent(Step(s, a).d.toTimer, Step(s, a).received)
  {
    hide Step, Handover, Takes, Enabled;
    DaemonTurnIs(s, a);
    var t := Step(s, a);
    forall m | m in t.d.toTimer
      ensures WellSent(m, t.received)
    {
      if m in s.d.toTimer {
        assert WellSent(m, s.received);
      }
    }
  }

  lemma TimerGuarded(s: System, take: bool)
    requires Guarded(s) && Enabled(s, TimerTurns(take))
    ensures Guarded(TimerTurn(s, take))
  {
    TimerTokens(s, take);
    if take {
      assert s.d.toTimer[0] in s.d.toTimer;
      assert WellSent(s.d.toTimer[0], s.received);
    }
    PacedTurn(s.timer, EventOf(s, take), TIMER_TICKS);
    hide Paced, Turn, Sent, Tokens;
  }

  lemma StepGuarded(s: System, a: Action)
    requires Handover(s) && Guarded(s)
    ensures Guarded(Step(s, a))
  {
    var t := Step(s, a);
    if Enabled(s, a) {
      if a.DaemonTurns? {
        DaemonGuarded(s, a);
      } else if a.TimerTurns? {
        TimerGuarded(s, a.take);
      } else {
        assert Tokens(t) == Tokens(s);
        hide Handover, Tokens, Paced, WellSent;
      }
    }
  }
}
