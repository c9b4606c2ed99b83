/** What an acknowledgement does to the timer of its packet, whatever happens afterwards. */
module AckTheorems {
  import opened DeltaList
  import opened Timers
  import opened SenderDaemons
  import opened SenderSteps
  import opened Protocol
  import opened SenderRuns
  import opened SenderTheorems
  import opened Liveness

  // ------------------------------------------------------------ when a token is lost

  /** The timer takes a cancel for k while the timer of k is live. */
  predicate Silences(s: System, a: Action, k: int)
  {
    && a.TimerTurns? && Enabled(s, a) && a.take
    && CancelFor(s.d.toTimer[0], k) && k in SeqNos(s.timer)
  }

  lemma TokenKept(s: System, take: bool, k: int)
    requires Enabled(s, TimerTurns(take)) && !Silences(s, TimerTurns(take), k)
    ensures Tokens(TimerTurn(s, take))[k] == Tokens(s)[k]
  {
    DeliverSeqNos(s, take);
    TickSeqNos(Deliver(s.timer, EventOf(s, take)));
    hide Insert, Cancel, Tick, Fired, SeqNos, StartNos;
  }

  lemma OtherTokens(s: System, a: Action)
    requires Handover(s) && !a.TimerTurns?
    ensures Tokens(Step(s, a)) == Tokens(s) ||
            Tokens(Step(s, a)) == Tokens(s) + multiset{s.d.packetCount}
  {
    if a.DaemonTurns? && Enabled(s, a) {
      DaemonTokens(s, a);
      hide Step, Handover, Takes, Tokens;
    } else {
      hide Handover, DaemonTurn, StartNos, SeqNos;
    }
  }

  lemma StepLoses(s: System, a: Action, k: int)
    requires Handover(s) && Tokens(s)[k] <= 1
    ensures Tokens(Step(s, a))[k] < Tokens(s)[k] <==> Silences(s, a, k)
    ensures Silences(s, a, k) ==> Tokens(Step(s, a))[k] == 0
  {
    hide Handover, Tokens;
    if !a.TimerTurns? {
      OtherTokens(s, a);
      hide Step, Silences;
      assert !Silences(s, a, k) by {
        NotTimer(s, a, k);
      }
    } else if Enabled(s, a) {
      if Silences(s, a, k) {
        CancelTakesToken(s, k);
        HeldIsToken(s, k);
      } else {
        TokenKept(s, a.take, k);
      }
      hide TimerTurn;
    }
  }

  lemma NotTimer(s: System, a: Action, k: int)
    requires !a.TimerTurns?
    ensures !Silences(s, a, k)
  {
  }

  lemma HeldIsToken(s: System, k: int)
    requires k in SeqNos(s.timer)
    ensures Tokens(s)[k] >= 1
  {
    assert multiset(SeqNos(s.timer))[k] >= 1;
  }

  /** In every run a number loses its token in exactly one kind of step: the timer takes a
      cancel for it while its timer is live. */
  lemma TokenLostIff(b: Boot, actions: seq<Action>, run: seq<System>, n: nat, k: int)
    requires IsRun(b, actions, run) && n < |actions|
    ensures Tokens(run[n + 1])[k] < Tokens(run[n])[k] <==> Silences(run[n], actions[n], k)
    ensures Silences(run[n], actions[n], k) ==> Tokens(run[n + 1])[k] == 0
  {
    hide Step, Start, Tokens, Silences;
    Invariants(b, actions, run, n);
    TokenConservation(b, actions, run, n, k);
    StepLoses(run[n], actions[n], k);
    assert run[n + 1] == Step(run[n], actions[n]);
  }

  /** A number whose token is gone has been sent, and is not any more. */
  lemma StepStaysGone(s: System, a: Action, k: int)
    requires Handover(s) && 0 <= k < s.d.packetCount && Tokens(s)[k] == 0
    ensures Tokens(Step(s, a))[k] == 0
  {
    hide Handover, Tokens;
    if !a.TimerTurns? {
      OtherTokens(s, a);
      hide Step;
    } else if Enabled(s, a) {
      TimerTokens(s, a.take);
      hide TimerTurn;
    }
  }

  /** What a step sends is a number whose expiry waits, or a new one. */
  lemma StepSends(s: System, a: Action, k: int)
    requires Handover(s) && k < s.d.packetCount && k !in s.expiries
    ensures var p, q := s.d.packets, Step(s, a).d.packets;
            p <= q && forall i | |p| <= i < |q| :: q[i].seqNo != k
  {
    hide Handover, Takes, MidRing, Reloaded, Turn, Sent, DaemonTurn;
    if a.DaemonTurns? && Enabled(s, a) {
      PacketsOfTurn(s, a);
      hide Step;
    } else {
      hide Offered, Enabled;
    }
  }

  lemma {:induction false} NotSentAgain(b: Boot, actions: seq<Action>, run: seq<System>, n: nat, f: nat, k: int)
    requires IsRun(b, actions, run) && n <= f <= |actions| && k < run[n].d.packetCount
    requires forall i | n <= i < f :: k !in run[i].expiries
    ensures !SentBetween(run, n, f, k)
  {
    hide Step, Start, Handover, Guarded, FirstsRight, Acknowledged, AlwaysNewest;
    if f == n {
    } else {
      NotSentAgain(b, actions, run, n, f - 1, k);
      RunGrows(b, actions, run, n, f - 1);
      Invariants(b, actions, run, f - 1);
      StepSends(run[f - 1], actions[f - 1], k);
      assert run[f] == Step(run[f - 1], actions[f - 1]);
      var p, q := run[f - 1].d.packets, run[f].d.packets;
      forall i | |run[n].d.packets| <= i < |q|
        ensures q[i].seqNo != k
      {
        if i < |p| {
          assert q[i] == p[i];
        }
      }
    }
  }

  lemma {:induction false} StaysGone(b: Boot, actions: seq<Action>, run: seq<System>, n: nat, f: nat, k: int)
    requires IsRun(b, actions, run) && n <= f <= |actions|
    requires 0 <= k < run[n].d.packetCount && Tokens(run[n])[k] == 0
    ensures Tokens(run[f])[k] == 0
  {
    hide Step, Start, Handover, Guarded, FirstsRight, Acknowledged, AlwaysNewest, Tokens;
    if f == n {
    } else {
      StaysGone(b, actions, run, n, f - 1, k);
      RunGrows(b, actions, run, n, f - 1);
      Invariants(b, actions, run, f - 1);
      StepStaysGone(run[f - 1], actions[f - 1], k);
      assert run[f] == Step(run[f - 1], actions[f - 1]);
    }
  }

  lemma ExpiryIsToken(s: System, k: int)
    ensures k in s.expiries ==> Tokens(s)[k] >= 1
  {
    assert k in s.expiries ==> multiset(s.expiries)[k] >= 1;
  }

  /** In every run: once a sent number has no token it never has one again and is never
      transmitted again, whatever happens. */
  lemma GoneForever(b: Boot, actions: seq<Action>, run: seq<System>, n: nat, f: nat, k: int)
    requires IsRun(b, actions, run) && n <= f <= |actions|
    requires 0 <= k < run[n].d.packetCount && Tokens(run[n])[k] == 0
    ensures Tokens(run[f])[k] == 0
    ensures !SentBetween(run, n, f, k)
  {
    hide Step, Start, Tokens;
    StaysGone(b, actions, run, n, f, k);
    forall i | n <= i < f
      ensures k !in run[i].expiries
    {
      StaysGone(b, actions, run, n, i, k);
      ExpiryIsToken(run[i], k);
    }
    NotSentAgain(b, actions, run, n, f, k);
  }

  // ---------------------------------------------- what the waiting messages decide

  /** Whether k loses its token while the timer takes the messages of a queue, one a turn. */
  predicate Loses(list: seq<Entry>, queue: seq<Message>, k: int)
    decreases queue
  {
    && queue != []
    && (|| (CancelFor(queue[0], k) && k in SeqNos(list))
        || Loses(Turn(list, Received(queue[0])), queue[1..], k))
  }

  predicate Acks(a: Action, k: int)
  {
    a.DaemonTurns? && a.ack.Some? && a.ack.value.seqNo == k
  }

  /** No acknowledgement of k from state n to state e, and the timer takes its messages. */
  ghost predicate Unheard(actions: seq<Action>, run: seq<System>, n: nat, e: nat, k: int)
    requires n <= e <= |actions| < |run|
  {
    (forall i | n <= i < e :: !Acks(actions[i], k)) && Prompt(actions, run, n, e)
  }

  ghost predicate NoCancel(queue: seq<Message>, k: int)
  {
    forall j | 0 <= j < |queue| :: !CancelFor(queue[j], k)
  }

  /** No cancel for k waits beyond the first c messages, and those decide. */
  ghost predicate Decided(s: System, k: int, c: nat, lost: bool)
  {
    && c <= |s.d.toTimer| && NoCancel(s.d.toTimer[c..], k)
    && (lost <==> Lost(s, k, c))
  }

  /** The token of k is gone, or the first c messages will take it away. */
  ghost predicate Lost(s: System, k: int, c: nat)
    requires c <= |s.d.toTimer|
  {
    Tokens(s)[k] == 0 || Loses(s.timer, s.d.toTimer[..c], k)
  }

  lemma NoCancelJoin(p: seq<Message>, q: seq<Message>, k: int)
    requires NoCancel(p, k) && NoCancel(q, k)
    ensures NoCancel(p + q, k)
  {
  }

  lemma QueueGrows(s: System, a: Action)
    requires Handover(s) && a.DaemonTurns? && Enabled(s, a)
    ensures Step(s, a).d.toTimer == s.d.toTimer + (Cancels(s.d, a) + NewStarts(s, a))
  {
    hide Step, Handover, Enabled, Takes, Cancels, Starts, StartMsg;
    DaemonTurnIs(s, a);
  }

  /** What a daemon turn adds to the timer's queue holds a cancel only for what it hears. */
  lemma TurnMessages(s: System, a: Action, k: int)
    requires Handover(s) && a.DaemonTurns? && Enabled(s, a)
    ensures var queue, more := s.d.toTimer, Step(s, a).d.toTimer;
            && queue <= more
            && (if Acks(a, k) then |queue| < |more| && CancelFor(more[|queue|], k) && NoCancel(more[|queue| + 1..], k)
                else NoCancel(more[|queue|..], k))
  {
    hide Step, Handover, Enabled, NewStarts, NoCancel;
    QueueGrows(s, a);
    StartsCancelNothing(s, a, k);
    Appended(s.d.toTimer, Cancels(s.d, a), NewStarts(s, a), k);
  }

  lemma Appended(queue: seq<Message>, c: seq<Message>, starts: seq<Message>, k: int)
    requires |c| <= 1 && NoCancel(starts, k)
    ensures var more := queue + (c + starts);
            if c != [] && CancelFor(c[0], k) then more[|queue|] == c[0] && NoCancel(more[|queue| + 1..], k)
            else NoCancel(more[|queue|..], k)
  {
    hide NoCancel;
    var more := queue + (c + starts);
    assert more[|queue|..] == c + starts;
    if c == [] {
      assert c + starts == starts;
    } else {
      assert more[|queue| + 1..] == starts && c == [c[0]];
      if !CancelFor(c[0], k) {
        OneMessage(c[0], k);
        NoCancelJoin(c, starts, k);
      }
    }
  }

  function NewStarts(s: System, a: Action): seq<Message>
    requires a.DaemonTurns? && Enabled(s, a)
  {
    var (client, expiry) := Offered(s, a);
    Starts(expiry) + if Takes(s.d, client) then [StartMsg(s.d.packetCount)] else []
  }

  lemma StartsCancelNothing(s: System, a: Action, k: int)
    requires a.DaemonTurns? && Enabled(s, a)
    ensures NoCancel(NewStarts(s, a), k)
  {
    hide Takes;
  }

  lemma OneMessage(m: Message, k: int)
    requires !CancelFor(m, k)
    ensures NoCancel([m], k)
  {
  }

  lemma DecidedExtends(s: System, t: System, more: seq<Message>, k: int, c: nat, lost: bool)
    requires t.timer == s.timer && t.d.toTimer == s.d.toTimer + more && NoCancel(more, k)
    requires Tokens(t)[k] == Tokens(s)[k] && Decided(s, k, c, lost)
    ensures Decided(t, k, c, lost)
  {
    hide Tokens, NoCancel, Loses;
    assert t.d.toTimer[..c] == s.d.toTimer[..c];
    assert t.d.toTimer[c..] == s.d.toTimer[c..] + more;
    NoCancelJoin(s.d.toTimer[c..], more, k);
  }

  lemma DaemonDecided(s: System, a: Action, k: int, c: nat, lost: bool)
    requires Handover(s) && a.DaemonTurns? && Enabled(s, a) && !Acks(a, k)
    requires 0 <= k < s.d.packetCount && Decided(s, k, c, lost)
    ensures Decided(Step(s, a), k, c, lost)
  {
    hide Step, Handover, Decided, Tokens, Takes, NoCancel, Acks, Starts, Cancels, Offered, Enabled, StartMsg;
    var t := Step(s, a);
    DaemonTurnIs(s, a);
    TurnMessages(s, a, k);
    DaemonTokens(s, a);
    assert t.d.toTimer == s.d.toTimer + t.d.toTimer[|s.d.toTimer|..];
    DecidedExtends(s, t, t.d.toTimer[|s.d.toTimer|..], k, c, lost);
  }

  lemma OtherDecided(s: System, a: Action, k: int, c: nat, lost: bool)
    requires Handover(s) && (a.DaemonTurns? || a.TimerTurns? ==> !Enabled(s, a))
    requires Decided(s, k, c, lost)
    ensures Decided(Step(s, a), k, c, lost)
  {
    var t := Step(s, a);
    assert t.d.toTimer == s.d.toTimer + [];
    assert NoCancel([], k);
    assert Tokens(t) == Tokens(s);
    hide Step, Handover, Decided, Tokens;
    DecidedExtends(s, t, [], k, c, lost);
  }

  lemma TimerToken(s: System, take: bool, k: int)
    requires Handover(s) && Enabled(s, TimerTurns(take)) && Tokens(s)[k] <= 1
    ensures Tokens(TimerTurn(s, take))[k] == if Silences(s, TimerTurns(take), k) then 0 else Tokens(s)[k]
  {
    StepLoses(s, TimerTurns(take), k);
    assert Step(s, TimerTurns(take)) == TimerTurn(s, take);
    hide Handover, Silences, Step, TimerTurn, Tokens;
    if !Silences(s, TimerTurns(take), k) {
      TokenKept(s, take, k);
    }
  }

  /** The timer's list and queue after a turn that takes the next message, if any. */
  lemma PromptTurn(s: System, take: bool)
    requires Enabled(s, TimerTurns(take)) && (s.d.toTimer != [] ==> take)
    ensures var t := TimerTurn(s, take);
            if s.d.toTimer == [] then t.d.toTimer == []
            else t.d.toTimer == s.d.toTimer[1..] && t.timer == Turn(s.timer, Received(s.d.toTimer[0]))
  {
    hide Turn, Sent;
  }

  lemma TimerDecided(s: System, take: bool, k: int, c: nat, lost: bool)
    requires Handover(s) && Enabled(s, TimerTurns(take)) && (s.d.toTimer != [] ==> take)
    requires Tokens(s)[k] <= 1 && Decided(s, k, c, lost)
    ensures Decided(TimerTurn(s, take), k, if c == 0 then 0 else c - 1, lost)
  {
    hide Tokens, Handover, Enabled, TimerTurn, Silences, Lost, NoCancel;
    var t := TimerTurn(s, take);
    PromptTurn(s, take);
    TimerLost(s, take, k, c);
    if c == 0 {
      NoCancelQuiet(s, take, k);
    } else {
      assert t.d.toTimer[c - 1..] == s.d.toTimer[c..];
    }
  }

  lemma NoCancelQuiet(s: System, take: bool, k: int)
    requires Enabled(s, TimerTurns(take)) && NoCancel(s.d.toTimer[0..], k)
    ensures !Silences(s, TimerTurns(take), k) && NoCancel(TimerTurn(s, take).d.toTimer[0..], k)
  {
    assert s.d.toTimer[0..] == s.d.toTimer;
    hide Turn, Sent;
  }

  lemma StepDecided(s: System, a: Action, k: int, c: nat, lost: bool)
    requires Handover(s) && !Acks(a, k) && 0 <= k < s.d.packetCount
    requires Tokens(s)[k] <= 1 && Decided(s, k, c, lost)
    requires a.TimerTurns? && s.d.toTimer != [] ==> a.take
    ensures Decided(Step(s, a), k, if a.TimerTurns? && Enabled(s, a) && c > 0 then c - 1 else c, lost)
  {
    hide Handover, Decided, Enabled, Tokens;
    if a.DaemonTurns? && Enabled(s, a) {
      DaemonDecided(s, a, k, c, lost);
    } else if a.TimerTurns? && Enabled(s, a) {
      TimerDecided(s, a.take, k, c, lost);
    } else {
      OtherDecided(s, a, k, c, lost);
    }
  }

  ghost predicate Doomed(s: System, k: int)
  {
    Tokens(s)[k] == 0 || Loses(s.timer, s.d.toTimer, k)
  }

  lemma {:induction false} DecidedAlong(b: Boot, actions: seq<Action>, run: seq<System>, n: nat, e: nat, k: int)
    requires IsRun(b, actions, run) && n <= e <= |actions| && Unheard(actions, run, n, e, k)
    requires 0 <= k < run[n].d.packetCount
    ensures Decided(run[e], k, Left(|run[n].d.toTimer|, TimerTicks(actions, run, n, e)), Doomed(run[n], k))
  {
    hide Step, Handover, Guarded, FirstsRight, Acknowledged, AlwaysNewest, Start, Tokens, Loses, Enabled;
    if e == n {
      var queue := run[n].d.toTimer;
      assert queue[..|queue|] == queue;
    } else {
      hide Decided, Doomed;
      DecidedAlong(b, actions, run, n, e - 1, k);
      Invariants(b, actions, run, e - 1);
      RunGrows(b, actions, run, n, e - 1);
      TokenConservation(b, actions, run, e - 1, k);
      assert run[e] == Step(run[e - 1], actions[e - 1]);
      StepDecided(run[e - 1], actions[e - 1], k,
                  Left(|run[n].d.toTimer|, TimerTicks(actions, run, n, e - 1)), Doomed(run[n], k));
    }
  }

  function Left(messages: nat, turns: nat): nat
  {
    if turns <= messages then messages - turns else 0
  }

  /** In every run, whatever the order of the steps, while no acknowledgement of k arrives:
      once the timer has had a turn for every message that waited, k has lost its token
      exactly if it had none, or the messages that waited take it away from the timer's
      list as it stood. */
  lemma TokenFate(b: Boot, actions: seq<Action>, run: seq<System>, n: nat, e: nat, k: int)
    requires IsRun(b, actions, run) && n <= e <= |actions| && Unheard(actions, run, n, e, k)
    requires 0 <= k < run[n].d.packetCount
    requires TimerTicks(actions, run, n, e) >= |run[n].d.toTimer|
    ensures Tokens(run[e])[k] == if Tokens(run[n])[k] == 0 || Loses(run[n].timer, run[n].d.toTimer, k) then 0 else 1
  {
    hide Step, Start, Tokens, SeqNos;
    DecidedAlong(b, actions, run, n, e, k);
    TokenConservation(b, actions, run, e, k);
    assert run[e].d.toTimer[..0] == [];
  }

  lemma TokenStays(b: Boot, actions: seq<Action>, run: seq<System>, n: nat, e: nat, k: int)
    requires IsRun(b, actions, run) && n <= e <= |actions| && Unheard(actions, run, n, e, k)
    requires 0 <= k < run[n].d.packetCount && !Doomed(run[n], k)
    ensures Tokens(run[e])[k] == 1
  {
    hide Step, Start, Tokens, Loses;
    DecidedAlong(b, actions, run, n, e, k);
    TokenConservation(b, actions, run, e, k);
  }

  // ----------------------------------------------------------- an acknowledgement in time

  /** How one turn of the timer changes what its list holds. */
  lemma TurnSeqNos(list: seq<Entry>, ev: Event, k: int)
    ensures k in SeqNos(Turn(list, ev)) ==> (IsStart(ev) && ev.msg.seqNo == k) || k in SeqNos(list)
  {
    var d := Deliver(list, ev);
    if IsStart(ev) {
      InsertSeqNos(list, Entry(ev.msg.time, ev.msg.seqNo, ev.msg.port));
    } else if IsCancel(ev) {
      CancelSeqNos(list, ev.msg.seqNo);
    }
    TickSeqNos(d);
    hide Insert, Cancel, Tick, Fired, SeqNos;
    if k in SeqNos(Turn(list, ev)) {
      assert multiset(SeqNos(Tick(d)))[k] > 0;
      assert multiset(SeqNos(d))[k] > 0;
    }
  }

  lemma {:induction false} LosesHeld(list: seq<Entry>, queue: seq<Message>, k: int)
    requires Loses(list, queue, k)
    ensures k in SeqNos(list) || k in StartNos(queue)
    decreases queue
  {
    hide Turn, SeqNos;
    if CancelFor(queue[0], k) && k in SeqNos(list) {
    } else {
      LosesHeld(Turn(list, Received(queue[0])), queue[1..], k);
      TurnSeqNos(list, Received(queue[0]), k);
    }
  }

  lemma StartNosPrefix(queue: seq<Message>, c: nat, k: int)
    requires c <= |queue| && k in StartNos(queue[..c])
    ensures k in StartNos(queue)
  {
    StartNosConcat(queue[..c], queue[c..]);
    assert queue[..c] + queue[c..] == queue;
  }

  lemma HeldElsewhere(s: System, k: int)
    requires Tokens(s)[k] == 1 && (k in SeqNos(s.timer) || k in StartNos(s.d.toTimer))
    ensures k !in s.expiries
  {
    assert multiset(SeqNos(s.timer))[k] + multiset(StartNos(s.d.toTimer))[k] >= 1;
    assert multiset(s.expiries)[k] == 0;
  }

  lemma LostNotExpired(s: System, k: int, c: nat)
    requires c <= |s.d.toTimer| && Tokens(s)[k] <= 1 && Lost(s, k, c)
    ensures k !in s.expiries
  {
    if Tokens(s)[k] == 0 {
      ExpiryIsToken(s, k);
    } else {
      LosesHeld(s.timer, s.d.toTimer[..c], k);
      if k !in SeqNos(s.timer) {
        StartNosPrefix(s.d.toTimer, c, k);
      }
      HeldElsewhere(s, k);
    }
  }

  lemma StepLost(s: System, a: Action, k: int, c: nat)
    requires Handover(s) && 0 <= k < s.d.packetCount && Tokens(s)[k] <= 1
    requires a.TimerTurns? && s.d.toTimer != [] ==> a.take
    requires c <= |s.d.toTimer| && Lost(s, k, c)
    ensures var t := Step(s, a); var d := if a.TimerTurns? && Enabled(s, a) && c > 0 then c - 1 else c;
            d <= |t.d.toTimer| && Lost(t, k, d)
  {
    hide Handover, Enabled, Tokens;
    if a.TimerTurns? && Enabled(s, a) {
      TimerLost(s, a.take, k, c);
      hide TimerTurn, Lost;
    } else if a.DaemonTurns? && Enabled(s, a) {
      DaemonLost(s, a, k, c);
      hide Step, Lost;
    } else {
      OtherLost(s, a, k, c);
      hide Step, Lost;
    }
  }

  lemma OtherLost(s: System, a: Action, k: int, c: nat)
    requires (a.DaemonTurns? || a.TimerTurns? ==> !Enabled(s, a)) && c <= |s.d.toTimer| && Lost(s, k, c)
    ensures var t := Step(s, a); c <= |t.d.toTimer| && Lost(t, k, c)
  {
    var t := Step(s, a);
    assert t.d.toTimer == s.d.toTimer && t.timer == s.timer && t.expiries == s.expiries;
    hide Step, Loses, StartNos, SeqNos;
  }

  lemma DaemonLost(s: System, a: Action, k: int, c: nat)
    requires Handover(s) && a.DaemonTurns? && Enabled(s, a) && 0 <= k < s.d.packetCount
    requires c <= |s.d.toTimer| && Lost(s, k, c)
    ensures var t := Step(s, a); c <= |t.d.toTimer| && Lost(t, k, c)
  {
    hide Step, Handover, Tokens, Takes, Loses, Starts, Cancels, Offered, Enabled, StartMsg;
    var t := Step(s, a);
    DaemonTurnIs(s, a);
    DaemonTokens(s, a);
    assert t.d.toTimer[..c] == s.d.toTimer[..c];
  }

  lemma TimerLost(s: System, take: bool, k: int, c: nat)
    requires Handover(s) && Enabled(s, TimerTurns(take)) && (s.d.toTimer != [] ==> take)
    requires Tokens(s)[k] <= 1 && c <= |s.d.toTimer|
    ensures var t := TimerTurn(s, take); var d := if c > 0 then c - 1 else c;
            && d <= |t.d.toTimer|
            && (Lost(s, k, c) ==> Lost(t, k, d))
            && (c > 0 || !Silences(s, TimerTurns(take), k) ==> (Lost(s, k, c) <==> Lost(t, k, d)))
  {
    hide Tokens, Handover, Enabled, TimerTurn, SeqNos;
    var t := TimerTurn(s, take);
    PromptTurn(s, take);
    TimerToken(s, take, k);
    var queue := s.d.toTimer[..c];
    if c > 0 {
      assert queue[0] == s.d.toTimer[0] && queue[1..] == t.d.toTimer[..c - 1];
    }
  }

  lemma {:induction false} LostAlong(b: Boot, actions: seq<Action>, run: seq<System>, n: nat, f: nat, k: int)
    requires IsRun(b, actions, run) && n <= f <= |actions| && Prompt(actions, run, n, f)
    requires 0 <= k < run[n].d.packetCount && Loses(run[n].timer, run[n].d.toTimer, k)
    ensures var c := Left(|run[n].d.toTimer|, TimerTicks(actions, run, n, f));
            c <= |run[f].d.toTimer| && Lost(run[f], k, c)
  {
    hide Step, Handover, Guarded, FirstsRight, Acknowledged, AlwaysNewest, Start, Tokens, Loses, Enabled;
    if f == n {
      var queue := run[n].d.toTimer;
      assert queue[..|queue|] == queue;
    } else {
      hide Lost;
      LostAlong(b, actions, run, n, f - 1, k);
      Invariants(b, actions, run, f - 1);
      RunGrows(b, actions, run, n, f - 1);
      TokenConservation(b, actions, run, f - 1, k);
      assert run[f] == Step(run[f - 1], actions[f - 1]);
      StepLost(run[f - 1], actions[f - 1], k, Left(|run[n].d.toTimer|, TimerTicks(actions, run, n, f - 1)));
    }
  }

  /** In every run, after an acknowledgement of k in step n that is in time, whatever
      follows: k is never transmitted again, and its token is gone once the messages that
      waited have been taken. */
  lemma AckSilencesTimer(b: Boot, actions: seq<Action>, run: seq<System>, n: nat, f: nat, k: int)
    requires IsRun(b, actions, run) && n < f <= |actions| && Prompt(actions, run, n + 1, f)
    requires Acks(actions[n], k) && Enabled(run[n], actions[n])
    requires Loses(run[n + 1].timer, run[n + 1].d.toTimer, k)
    ensures !SentBetween(run, n + 1, f, k)
    ensures TimerTicks(actions, run, n + 1, f) >= |run[n + 1].d.toTimer| ==> Tokens(run[f])[k] == 0
  {
    hide Step, Start, Tokens, SentBetween, SeqNos, TimerTicks;
    AckedWasSent(b, actions, run, n, k);
    forall i | n + 1 <= i < f
      ensures k !in run[i].expiries
    {
      LostAlong(b, actions, run, n + 1, i, k);
      TokenConservation(b, actions, run, i, k);
      hide Loses, Lost;
      LostNotExpired(run[i], k, Left(|run[n + 1].d.toTimer|, TimerTicks(actions, run, n + 1, i)));
    }
    NotSentAgain(b, actions, run, n + 1, f, k);
    LostAlong(b, actions, run, n + 1, f, k);
    assert run[f].d.toTimer[..0] == [];
  }

  lemma AckedWasSent(b: Boot, actions: seq<Action>, run: seq<System>, n: nat, k: int)
    requires IsRun(b, actions, run) && n < |actions| && Acks(actions[n], k) && Enabled(run[n], actions[n])
    ensures 0 <= k < run[n].d.packetCount <= run[n + 1].d.packetCount
    ensures run[n + 1].received == run[n].received + [k]
  {
    hide Step, Start;
    CompletionCount(b, actions, run, n);
    Invariants(b, actions, run, n);
    RunGrows(b, actions, run, n, n + 1);
    assert k in run[n].accepted;
    assert run[n + 1] == Step(run[n], actions[n]);
    hide Handover, Guarded, FirstsRight, Acknowledged, AlwaysNewest, Enabled;
    DaemonTurnIs(run[n], actions[n]);
  }

  /** In every run: an acknowledgement of k that leaves the token alone is too late.
      Until another one the packet, though acknowledged, keeps its token, expires again,
      and is transmitted again by the time the daemon has read as many expiries as then
      wait for it. */
  lemma AckTooLate(b: Boot, actions: seq<Action>, run: seq<System>, n: nat, e: nat, f: nat, k: int)
    requires IsRun(b, actions, run) && n < e <= f <= |actions|
    requires Acks(actions[n], k) && Enabled(run[n], actions[n]) && Unheard(actions, run, n + 1, e, k)
    requires Tokens(run[n + 1])[k] > 0 && !Loses(run[n + 1].timer, run[n + 1].d.toTimer, k)
    requires TimerTicks(actions, run, n + 1, e) >= |run[n + 1].d.toTimer| + TIMER_TICKS - 1
    ensures k in run[n + 1].received && ExpiredBy(run, n + 1, e, k)
    ensures ExpiryReads(actions, run, e, f) >= |run[e].expiries| ==> SentBetween(run, n + 1, f, k)
  {
    hide Step, Start, Tokens, Loses, ExpiryReads, TimerTicks;
    AckedWasSent(b, actions, run, n, k);
    forall i | n + 1 <= i <= e
      ensures Tokens(run[i])[k] == 1
    {
      TokenStays(b, actions, run, n + 1, i, k);
    }
    TokenExpires(b, actions, run, n + 1, e, k);
    if ExpiryReads(actions, run, e, f) >= |run[e].expiries| {
      var m :| n + 1 <= m <= e && k in run[m].expiries;
      ExpiryIsSent(b, actions, run, m, e, f, k);
      SentWithin(b, actions, run, n + 1, m, f, f, k);
    }
  }

  // -------------------------------------------------- the first acknowledgement of a packet

  /** The timer's list once it has taken the messages of a queue, one a turn. */
  function Worked(list: seq<Entry>, queue: seq<Message>): seq<Entry>
    decreases queue
  {
    if queue == [] then list else Worked(Turn(list, Received(queue[0])), queue[1..])
  }

  lemma {:induction false} NoCancelNoLoss(list: seq<Entry>, queue: seq<Message>, k: int)
    requires NoCancel(queue, k)
    ensures !Loses(list, queue, k)
    decreases queue
  {
    if queue == [] {
    } else {
      assert NoCancel(queue[1..], k);
      NoCancelNoLoss(Turn(list, Received(queue[0])), queue[1..], k);
    }
  }

  lemma {:induction false} OneCancelLoses(list: seq<Entry>, queue: seq<Message>, c: nat, k: int)
    requires c < |queue| && CancelFor(queue[c], k) && NoCancel(queue[..c], k) && NoCancel(queue[c + 1..], k)
    ensures Loses(list, queue, k) <==> k in SeqNos(Worked(list, queue[..c]))
    decreases queue
  {
    hide Turn, SeqNos;
    var after := Turn(list, Received(queue[0]));
    if c == 0 {
      NoCancelNoLoss(after, queue[1..], k);
      assert queue[..0] == [];
    } else {
      assert queue[..c][1..] == queue[1..][..c - 1] && queue[1..][c..] == queue[c + 1..];
      assert queue[..c][0] == queue[0];
      assert NoCancel(queue[1..][..c - 1], k);
      OneCancelLoses(after, queue[1..], c - 1, k);
    }
  }

  /** In every run: the first acknowledgement of a packet is in time if and only if the
      packet would be live once the timer had taken the messages that waited when the
      daemon received it.  It is too late if the expiry is already under way, whether or
      not it is read in the same pass, or if the timer expires before that. */
  lemma FirstAckInTimeIff(b: Boot, actions: seq<Action>, run: seq<System>, n: nat, k: int)
    requires IsRun(b, actions, run) && n < |actions|
    requires Acks(actions[n], k) && Enabled(run[n], actions[n]) && k !in run[n].received
    ensures var s, t := run[n], run[n + 1];
            && Tokens(t)[k] == 1
            && (Loses(t.timer, t.d.toTimer, k) <==> k in SeqNos(Worked(s.timer, s.d.toTimer)))
            && (k in s.expiries ==> !Loses(t.timer, t.d.toTimer, k))
  {
    hide Step, Start;
    var s, t := run[n], run[n + 1];
    AckedWasSent(b, actions, run, n, k);
    Invariants(b, actions, run, n);
    assert t == Step(s, actions[n]);
    hide FirstsRight, Acknowledged, AlwaysNewest;
    FirstAckQueue(s, actions[n], k);
    OneCancelLoses(t.timer, t.d.toTimer, |s.d.toTimer|, k);
    if k in s.expiries && Loses(t.timer, t.d.toTimer, k) {
      WorkedHolds(s.timer, s.d.toTimer, k);
      HeldElsewhere(s, k);
    }
  }

  lemma {:induction false} WorkedHolds(list: seq<Entry>, queue: seq<Message>, k: int)
    requires k in SeqNos(Worked(list, queue))
    ensures k in SeqNos(list) || k in StartNos(queue)
    decreases queue
  {
    hide Turn, SeqNos;
    if queue == [] {
    } else {
      WorkedHolds(Turn(list, Received(queue[0])), queue[1..], k);
      TurnSeqNos(list, Received(queue[0]), k);
    }
  }

  lemma FirstHeard(s: System, k: int)
    requires Guarded(s) && 0 <= k < s.d.packetCount && k !in s.received
    ensures Tokens(s)[k] == 1 && NoCancel(s.d.toTimer, k)
  {
    hide TokensIn, Paced;
    forall j | 0 <= j < |s.d.toTimer|
      ensures !CancelFor(s.d.toTimer[j], k)
    {
      assert WellSent(s.d.toTimer[j], s.received);
    }
  }

  lemma FirstAckQueue(s: System, a: Action, k: int)
    requires Handover(s) && Guarded(s) && Acks(a, k) && Enabled(s, a)
    requires 0 <= k < s.d.packetCount && k !in s.received
    ensures var t := Step(s, a); var c := |s.d.toTimer|;
            && Tokens(s)[k] == Tokens(t)[k] == 1 && t.timer == s.timer
            && c < |t.d.toTimer| && CancelFor(t.d.toTimer[c], k) && t.d.toTimer[..c] == s.d.toTimer
            && NoCancel(t.d.toTimer[..c], k) && NoCancel(t.d.toTimer[c + 1..], k)
  {
    FirstHeard(s, k);
    hide Step, Handover, Enabled, Guarded, Tokens, Takes, NoCancel, Starts, Cancels, StartMsg;
    DaemonTurnIs(s, a);
    TurnMessages(s, a, k);
    DaemonTokens(s, a);
    assert Step(s, a).d.toTimer[..|s.d.toTimer|] == s.d.toTimer;
  }
}
