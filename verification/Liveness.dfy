/** What every run owes a packet's timer, whatever the order of the steps. */
module Liveness {
  import opened DeltaList
  import opened Timers
  import opened SenderDaemons
  import opened SenderSteps
  import opened Protocol
  import opened SenderRuns
  import opened SenderTheorems

  // ------------------------------------------------------------- what only grows

  lemma StepGrows(s: System, a: Action)
    requires Handover(s)
    ensures var t := Step(s, a);
            s.received <= t.received && s.d.packets <= t.d.packets && s.d.packetCount <= t.d.packetCount
  {
    if a.DaemonTurns? && Enabled(s, a) {
      PacketsOfTurn(s, a);
      hide Step, Handover, Retransmitted, NewPacket;
    } else {
      hide Handover, Turn, Sent, DaemonTurn, Offered, Enabled;
    }
  }

  lemma {:induction false} RunGrows(b: Boot, actions: seq<Action>, run: seq<System>, i: nat, j: nat)
    requires IsRun(b, actions, run) && i <= j <= |actions|
    ensures run[i].received <= run[j].received
    ensures run[i].d.packets <= run[j].d.packets && run[i].d.packetCount <= run[j].d.packetCount
  {
    hide Step, Handover, Guarded, FirstsRight, Acknowledged, AlwaysNewest, Start;
    if i == j {
    } else {
      RunGrows(b, actions, run, i, j - 1);
      Invariants(b, actions, run, j - 1);
      StepGrows(run[j - 1], actions[j - 1]);
      assert run[j] == Step(run[j - 1], actions[j - 1]);
    }
  }

  // ------------------------------------------------------- how long a timer can take

  /** The turns of the timer among the steps from n up to e. */
  ghost function TimerTicks(actions: seq<Action>, run: seq<System>, n: nat, e: nat): nat
    requires n <= e <= |actions| < |run|
  {
    if e == n then 0
    else
      TimerTicks(actions, run, n, e - 1) +
      if actions[e - 1].TimerTurns? && Enabled(run[e - 1], actions[e - 1]) then 1 else 0
  }

  /** The timer takes a message in every turn in which one waits, as select makes it do. */
  ghost predicate Prompt(actions: seq<Action>, run: seq<System>, n: nat, e: nat)
    requires n <= e <= |actions| < |run|
  {
    forall i | n <= i < e && actions[i].TimerTurns? && run[i].d.toTimer != [] :: actions[i].take
  }

  predicate QueuedAt(s: System, k: int, c: nat)
  {
    c < |s.d.toTimer| && s.d.toTimer[c] == StartMsg(k)
  }

  predicate LiveAt(list: seq<Entry>, k: int, j: nat)
  {
    j < |list| && list[j].seqNo == k
  }

  ghost predicate LiveWithin(list: seq<Entry>, k: int, w: int)
  {
    exists j: nat :: LiveAt(list, k, j) && PrefixSum(list, j + 1) <= w
  }

  /** The timer of k expires within w turns of the timer process. */
  ghost predicate Due(s: System, k: int, w: int)
  {
    || (exists c: nat :: QueuedAt(s, k, c) && c + TIMER_TICKS <= w)
    || LiveWithin(s.timer, k, w)
  }

  lemma NeverOverdue(s: System, k: int, w: int)
    requires Paced(s.timer, TIMER_TICKS) && Due(s, k, w)
    ensures w >= 1
  {
    if LiveWithin(s.timer, k, w) {
      var j: nat :| LiveAt(s.timer, k, j) && PrefixSum(s.timer, j + 1) <= w;
      PrefixSumAtLeast(s.timer, j + 1);
    }
  }

  lemma {:induction false} StartFound(queue: seq<Message>, k: int) returns (c: nat)
    requires k in StartNos(queue)
    ensures c < |queue| && queue[c].kind == 's' && queue[c].seqNo == k
  {
    if queue[0].kind == 's' && queue[0].seqNo == k {
      c := 0;
    } else {
      c := StartFound(queue[1..], k);
      c := c + 1;
    }
  }

  /** A token that is not an expiry yet will be one within the queue's length and nineteen
      more turns. */
  lemma TokenIsDue(s: System, k: int)
    requires Guarded(s) && Tokens(s)[k] == 1 && k !in s.expiries
    ensures Due(s, k, |s.d.toTimer| + TIMER_TICKS - 1)
  {
    if k in StartNos(s.d.toTimer) {
      var c := StartFound(s.d.toTimer, k);
      assert WellSent(s.d.toTimer[c], s.received);
      assert QueuedAt(s, k, c);
    } else {
      assert k in SeqNos(s.timer) by {
        assert multiset(StartNos(s.d.toTimer))[k] == 0 && multiset(s.expiries)[k] == 0;
        assert multiset(SeqNos(s.timer))[k] == 1;
      }
      var j :| 0 <= j < |s.timer| && s.timer[j].seqNo == k;
      PrefixSumMonotone(s.timer, j + 1, |s.timer|);
      assert LiveAt(s.timer, k, j);
    }
  }

  lemma InsertKeepsLive(list: seq<Entry>, ev: Event, k: int, j: nat)
    requires Paced(list, TIMER_TICKS) && IsStart(ev) && ev.msg.time == TIMER_TICKS && LiveAt(list, k, j)
    ensures LiveAt(Deliver(list, ev), k, j) && PrefixSum(Deliver(list, ev), j + 1) == PrefixSum(list, j + 1)
  {
    PacedDeliver(list, ev, TIMER_TICKS);
    hide Deliver, Paced;
    PrefixSumAgrees(Deliver(list, ev), list, j + 1);
  }

  lemma CancelKeepsLive(list: seq<Entry>, seqNo: int, k: int, j: nat) returns (i: nat)
    requires (forall i | 0 <= i < |list| :: list[i].time >= 1) && LiveAt(list, k, j) && seqNo != k
    ensures LiveAt(Cancel(list, seqNo), k, i) && PrefixSum(Cancel(list, seqNo), i + 1) <= PrefixSum(list, j + 1)
  {
    hide PrefixSum, Find;
    var f := Find(list, seqNo, 0);
    i := if f < j then j - 1 else j;
    if f < |list| {
      PrefixSumRemove(list, f, i + 1);
    }
  }

  /** A message leaves a live timer live and not later, unless it is its cancel. */
  lemma DeliverKeepsLive(list: seq<Entry>, ev: Event, k: int, w: int)
    requires Paced(list, TIMER_TICKS) && (IsStart(ev) ==> ev.msg.time == TIMER_TICKS)
    requires LiveWithin(list, k, w) && !(IsCancel(ev) && ev.msg.seqNo == k)
    ensures LiveWithin(Deliver(list, ev), k, w)
  {
    var j: nat :| LiveAt(list, k, j) && PrefixSum(list, j + 1) <= w;
    if IsStart(ev) {
      InsertKeepsLive(list, ev, k, j);
    } else if IsCancel(ev) {
      var i := CancelKeepsLive(list, ev.msg.seqNo, k, j);
      hide PrefixSum, Cancel, LiveAt;
    }
  }

  /** A tick brings a timer one turn nearer, or fires it. */
  lemma TickKeepsLive(d: seq<Entry>, k: int, w: int)
    requires (forall j | 0 <= j < |d| :: d[j].time >= 1) && LiveWithin(d, k, w)
    ensures k in SeqNos(Fired(d)) || LiveWithin(Tick(d), k, w - 1)
  {
    var i: nat :| LiveAt(d, k, i) && PrefixSum(d, i + 1) <= w;
    var m := Decrement(d);
    var z := Zeros(m, 0);
    if i < z {
      assert SeqNos(Fired(d))[i] == k;
    } else {
      PrefixSumDropZeros(m, z, i - z + 1);
      PrefixSumDecrement(d, i + 1);
      hide PrefixSum, Zeros;
      assert LiveAt(Tick(d), k, i - z);
    }
  }

  lemma TurnNearer(list: seq<Entry>, ev: Event, k: int, w: int)
    requires Paced(list, TIMER_TICKS) && (IsStart(ev) ==> ev.msg.time == TIMER_TICKS)
    requires LiveWithin(Deliver(list, ev), k, w)
    ensures k in SeqNos(Sent(list, ev)) || LiveWithin(Turn(list, ev), k, w - 1)
  {
    PacedDeliver(list, ev, TIMER_TICKS);
    hide LiveWithin, Tick, Fired, Deliver;
    TickKeepsLive(Deliver(list, ev), k, w);
  }

  /** A cancel taken while its timer is live takes the token away. */
  lemma CancelTakesToken(s: System, k: int)
    requires s.d.toTimer != [] && CancelFor(s.d.toTimer[0], k)
    requires Tokens(s)[k] <= 1 && k in SeqNos(s.timer)
    ensures Tokens(TimerTurn(s, true))[k] == 0
  {
    DeliverSeqNos(s, true);
    TickSeqNos(Deliver(s.timer, EventOf(s, true)));
    assert multiset(SeqNos(s.timer))[k] >= 1;
    hide Insert, Cancel, Tick, Fired, SeqNos, StartNos;
  }

  predicate CancelFor(m: Message, k: int)
  {
    m.kind == 'c' && m.seqNo == k
  }

  lemma TimerTurnDue(s: System, take: bool, k: int, w: int)
    requires Guarded(s) && Enabled(s, TimerTurns(take)) && (s.d.toTimer != [] ==> take)
    requires Due(s, k, w) && Tokens(s)[k] == 1 && Tokens(TimerTurn(s, take))[k] == 1
    ensures k in TimerTurn(s, take).expiries || Due(TimerTurn(s, take), k, w - 1)
  {
    var ev := EventOf(s, take);
    var t := TimerTurn(s, take);
    hide Turn, Sent, Deliver, Paced;
    if take {
      assert WellSent(s.d.toTimer[0], s.received);
    }
    if LiveWithin(s.timer, k, w) {
      LiveIsHeld(s.timer, k, w);
      if take && CancelFor(s.d.toTimer[0], k) {
        CancelTakesToken(s, k);
      }
      DeliverKeepsLive(s.timer, ev, k, w);
      TurnNearer(s.timer, ev, k, w);
    } else {
      var c: nat :| QueuedAt(s, k, c) && c + TIMER_TICKS <= w;
      if c == 0 {
        StartedIsLive(s.timer, ev, k);
        TurnNearer(s.timer, ev, k, TIMER_TICKS);
        LiveLonger(t.timer, k, TIMER_TICKS - 1, w - 1);
      } else {
        assert QueuedAt(t, k, c - 1);
      }
    }
  }

  lemma LiveLonger(list: seq<Entry>, k: int, v: int, w: int)
    requires v <= w
    ensures LiveWithin(list, k, v) ==> LiveWithin(list, k, w)
  {
  }

  lemma LiveIsHeld(list: seq<Entry>, k: int, w: int)
    requires LiveWithin(list, k, w)
    ensures k in SeqNos(list)
  {
    var j: nat :| LiveAt(list, k, j) && PrefixSum(list, j + 1) <= w;
    assert SeqNos(list)[j] == k;
  }

  lemma StartedIsLive(list: seq<Entry>, ev: Event, k: int)
    requires Paced(list, TIMER_TICKS) && ev == Received(StartMsg(k))
    ensures LiveWithin(Deliver(list, ev), k, TIMER_TICKS)
  {
    PacedDeliver(list, ev, TIMER_TICKS);
    assert LiveAt(Deliver(list, ev), k, |list|);
  }

  /** No other step delays a timer. */
  lemma OtherStepDue(s: System, a: Action, k: int, w: int)
    requires Handover(s) && Due(s, k, w) && (a.TimerTurns? ==> !Enabled(s, a))
    ensures Due(Step(s, a), k, w)
  {
    var t := Step(s, a);
    if a.DaemonTurns? && Enabled(s, a) {
      DaemonTurnIs(s, a);
      hide Step, Handover, Takes;
      assert s.d.toTimer <= t.d.toTimer;
    }
    if c: nat :| QueuedAt(s, k, c) && c + TIMER_TICKS <= w {
      assert QueuedAt(t, k, c);
    }
  }

  // ------------------------------------------------------------------- any schedule

  ghost predicate ExpiredBy(run: seq<System>, n: nat, e: nat, k: int)
    requires n <= e < |run|
  {
    exists m | n <= m <= e :: k in run[m].expiries
  }

  lemma StepDue(s: System, a: Action, k: int, w: int)
    requires Handover(s) && Guarded(s) && Due(s, k, w)
    requires Tokens(s)[k] == 1 && Tokens(Step(s, a))[k] == 1
    requires a.TimerTurns? && s.d.toTimer != [] ==> a.take
    ensures k in Step(s, a).expiries || Due(Step(s, a), k, if a.TimerTurns? && Enabled(s, a) then w - 1 else w)
  {
    hide Handover, Guarded, Due, Tokens;
    if a.TimerTurns? && Enabled(s, a) {
      TimerTurnDue(s, a.take, k, w);
    } else {
      OtherStepDue(s, a, k, w);
    }
  }

  lemma {:induction false} DueAlong(b: Boot, actions: seq<Action>, run: seq<System>, n: nat, e: nat, k: int)
    requires IsRun(b, actions, run) && n <= e <= |actions| && Prompt(actions, run, n, e)
    requires forall i | n <= i <= e :: Tokens(run[i])[k] == 1
    ensures ExpiredBy(run, n, e, k) ||
            Due(run[e], k, |run[n].d.toTimer| + TIMER_TICKS - 1 - TimerTicks(actions, run, n, e))
  {
    hide Step, Handover, Guarded, FirstsRight, Acknowledged, AlwaysNewest, Start, Due, Tokens, Enabled;
    if e == n {
      Invariants(b, actions, run, n);
      if k !in run[n].expiries {
        TokenIsDue(run[n], k);
      }
    } else {
      DueAlong(b, actions, run, n, e - 1, k);
      Invariants(b, actions, run, e - 1);
      assert run[e] == Step(run[e - 1], actions[e - 1]);
      if !ExpiredBy(run, n, e - 1, k) {
        StepDue(run[e - 1], actions[e - 1], k,
                |run[n].d.toTimer| + TIMER_TICKS - 1 - TimerTicks(actions, run, n, e - 1));
      }
    }
  }

  /** In every run, whatever the order of the steps: a token that is not taken away by a
      cancel becomes an expiry once the timer has had as many turns as messages wait and
      nineteen more. */
  lemma TokenExpires(b: Boot, actions: seq<Action>, run: seq<System>, n: nat, e: nat, k: int)
    requires IsRun(b, actions, run) && n <= e <= |actions| && Prompt(actions, run, n, e)
    requires forall i | n <= i <= e :: Tokens(run[i])[k] == 1
    requires TimerTicks(actions, run, n, e) >= |run[n].d.toTimer| + TIMER_TICKS - 1
    ensures ExpiredBy(run, n, e, k)
  {
    hide Step, Start, Due, Tokens, ExpiredBy, Prompt;
    DueAlong(b, actions, run, n, e, k);
    TokenConservation(b, actions, run, e, k);
    hide Paced;
    if !ExpiredBy(run, n, e, k) {
      NeverOverdue(run[e], k, |run[n].d.toTimer| + TIMER_TICKS - 1 - TimerTicks(actions, run, n, e));
    }
  }

  lemma UnackedHasToken(b: Boot, actions: seq<Action>, run: seq<System>, n: nat, e: nat, k: int)
    requires IsRun(b, actions, run) && n <= e <= |actions|
    requires 0 <= k < run[n].d.packetCount && k !in run[e].received
    ensures forall i | n <= i <= e :: Tokens(run[i])[k] == 1
  {
    hide Step, Start, Tokens;
    forall i | n <= i <= e
      ensures Tokens(run[i])[k] == 1
    {
      RunGrows(b, actions, run, n, i);
      RunGrows(b, actions, run, i, e);
      TokenConservation(b, actions, run, i, k);
    }
  }

  /** In every run, whatever the order of the steps: a packet that stays unacknowledged has
      its expiry sent to the daemon once the timer has had as many turns as messages wait
      and nineteen more. */
  lemma UnackedExpires(b: Boot, actions: seq<Action>, run: seq<System>, n: nat, e: nat, k: int)
    requires IsRun(b, actions, run) && n <= e <= |actions| && Prompt(actions, run, n, e)
    requires 0 <= k < run[n].d.packetCount && k !in run[e].received
    requires TimerTicks(actions, run, n, e) >= |run[n].d.toTimer| + TIMER_TICKS - 1
    ensures exists m | n <= m <= e :: k in run[m].expiries
  {
    hide Step, Start, Tokens;
    UnackedHasToken(b, actions, run, n, e, k);
    TokenExpires(b, actions, run, n, e, k);
  }

  // ------------------------------------------------------------------ reading expiries

  /** The turns in which the daemon reads an expiry, among the steps from m up to f. */
  ghost function ExpiryReads(actions: seq<Action>, run: seq<System>, m: nat, f: nat): nat
    requires m <= f <= |actions| < |run|
  {
    if f == m then 0
    else
      ExpiryReads(actions, run, m, f - 1) +
      if actions[f - 1].DaemonTurns? && Enabled(run[f - 1], actions[f - 1]) && actions[f - 1].expiry then 1 else 0
  }

  ghost predicate SentBetween(run: seq<System>, m: nat, f: nat, k: int)
    requires m <= f < |run|
  {
    exists i | |run[m].d.packets| <= i < |run[f].d.packets| :: run[f].d.packets[i].seqNo == k
  }

  /** The daemon's queue of expiries is first-in first-out, and what is read is sent. */
  lemma StepReads(s: System, a: Action)
    requires Handover(s)
    ensures var t := Step(s, a); var taken := a.DaemonTurns? && Enabled(s, a) && a.expiry;
            && (if taken then s.expiries != [] && t.expiries == s.expiries[1..] else s.expiries <= t.expiries)
            && s.d.packets <= t.d.packets
            && (taken ==> |t.d.packets| > |s.d.packets| && t.d.packets[|s.d.packets|].seqNo == s.expiries[0])
  {
    if a.DaemonTurns? && Enabled(s, a) {
      PacketsOfTurn(s, a);
      DaemonTurnIs(s, a);
      hide Step, Handover, Takes, MidRing, Reloaded;
    } else {
      hide Handover, Turn, Sent, DaemonTurn, Offered;
    }
  }

  lemma {:induction false} ReadAlong(b: Boot, actions: seq<Action>, run: seq<System>, m: nat, f: nat, p: nat)
    requires IsRun(b, actions, run) && m <= f <= |actions| && p < |run[m].expiries|
    ensures var taken := ExpiryReads(actions, run, m, f);
            if taken <= p then p - taken < |run[f].expiries| && run[f].expiries[p - taken] == run[m].expiries[p]
            else SentBetween(run, m, f, run[m].expiries[p])
    ensures run[m].d.packets <= run[f].d.packets
  {
    hide Step, Handover, Guarded, FirstsRight, Acknowledged, AlwaysNewest, Start, Enabled;
    if f == m {
    } else {
      ReadAlong(b, actions, run, m, f - 1, p);
      Invariants(b, actions, run, f - 1);
      StepReads(run[f - 1], actions[f - 1]);
      assert run[f] == Step(run[f - 1], actions[f - 1]);
      SentStays(run, m, f, run[m].expiries[p]);
      var k := run[m].expiries[p];
      if ExpiryReads(actions, run, m, f - 1) == p && ExpiryReads(actions, run, m, f) == p + 1 {
        assert run[f].d.packets[|run[f - 1].d.packets|].seqNo == k;
      }
    }
  }

  lemma SentStays(run: seq<System>, m: nat, f: nat, k: int)
    requires m < f < |run| && run[m].d.packets <= run[f - 1].d.packets <= run[f].d.packets
    ensures SentBetween(run, m, f - 1, k) ==> SentBetween(run, m, f, k)
  {
    if SentBetween(run, m, f - 1, k) {
      var i :| |run[m].d.packets| <= i < |run[f - 1].d.packets| && run[f - 1].d.packets[i].seqNo == k;
      assert run[f].d.packets[i].seqNo == k;
    }
  }

  /** An expiry that waits for the daemon at some time m leads to a transmission by the time
      the daemon has read as many expiries as wait at a later time e, whatever else
      happens meanwhile. */
  lemma ExpiryIsSent(b: Boot, actions: seq<Action>, run: seq<System>, m: nat, e: nat, f: nat, k: int)
    requires IsRun(b, actions, run) && m <= e <= f <= |actions| && k in run[m].expiries
    requires ExpiryReads(actions, run, e, f) >= |run[e].expiries|
    ensures SentBetween(run, m, f, k)
  {
    hide ExpiryReads, Step, Start;
    var p :| 0 <= p < |run[m].expiries| && run[m].expiries[p] == k;
    ReadAlong(b, actions, run, m, e, p);
    if ExpiryReads(actions, run, m, e) <= p {
      var q := p - ExpiryReads(actions, run, m, e);
      ReadAlong(b, actions, run, e, f, q);
      SentWithin(b, actions, run, m, e, f, f, k);
    } else {
      SentWithin(b, actions, run, m, m, e, f, k);
    }
  }

  lemma SentWithin(b: Boot, actions: seq<Action>, run: seq<System>, n: nat, m: nat, e: nat, f: nat, k: int)
    requires IsRun(b, actions, run) && n <= m <= e <= f <= |actions| && SentBetween(run, m, e, k)
    ensures SentBetween(run, n, f, k)
  {
    RunGrows(b, actions, run, n, m);
    RunGrows(b, actions, run, e, f);
    var i :| |run[m].d.packets| <= i < |run[e].d.packets| && run[e].d.packets[i].seqNo == k;
    assert run[f].d.packets[i].seqNo == k;
  }

  /** In every run, whatever the order of the steps: a packet that stays unacknowledged until
      its timer has had time to expire is transmitted again, by the time the daemon has
      read as many expiries as then wait for it. */
  lemma UnackedIsRetransmitted(b: Boot, actions: seq<Action>, run: seq<System>, n: nat, e: nat, f: nat, k: int)
    requires IsRun(b, actions, run) && n <= e <= f <= |actions| && Prompt(actions, run, n, e)
    requires 0 <= k < run[n].d.packetCount && k !in run[e].received
    requires TimerTicks(actions, run, n, e) >= |run[n].d.toTimer| + TIMER_TICKS - 1
    requires ExpiryReads(actions, run, e, f) >= |run[e].expiries|
    ensures SentBetween(run, n, f, k)
  {
    UnackedExpires(b, actions, run, n, e, k);
    var m :| n <= m <= e && k in run[m].expiries;
    ExpiryIsSent(b, actions, run, m, e, f, k);
    SentWithin(b, actions, run, n, m, f, f, k);
  }
}
