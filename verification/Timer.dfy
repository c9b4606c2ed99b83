/** The timer process: its main loop over the heap list, and what holds of every run.
    One iteration takes at most one message and then ticks once. */
module Timers {
  import opened DeltaList
  import opened LinkedLists

  datatype Message = Message(kind: char, seqNo: int, port: int, time: int)

  /** What select reports in one iteration: nothing, or a datagram. */
  datatype Event = Quiet | Received(msg: Message)

  predicate IsStart(ev: Event) { ev.Received? && ev.msg.kind == 's' }

  predicate IsCancel(ev: Event) { ev.Received? && ev.msg.kind == 'c' }

  function Deliver(list: seq<Entry>, ev: Event): seq<Entry>
  {
    if IsStart(ev) then Insert(list, Entry(ev.msg.time, ev.msg.seqNo, ev.msg.port))
    else if IsCancel(ev) then Cancel(list, ev.msg.seqNo)
    else list
  }

  function Turn(list: seq<Entry>, ev: Event): seq<Entry>
  {
    Tick(Deliver(list, ev))
  }

  /** The datagrams one iteration sends. */
  function Sent(list: seq<Entry>, ev: Event): seq<Entry>
  {
    Fired(Deliver(list, ev))
  }

  /** The lists between the iterations of a run that starts with the given one. */
  ghost predicate RunFrom(list: seq<Entry>, events: seq<Event>, run: seq<seq<Entry>>)
  {
    && |run| == |events| + 1 && run[0] == list
    && forall i {:trigger Turn(run[i], events[i])} | 0 <= i < |events| :: run[i + 1] == Turn(run[i], events[i])
  }

  /** The body of the main loop. */
  method Iterate(list: LinkedList, ev: Event) returns (sent: seq<Entry>)
    requires list.Valid()
    modifies list, list.Footprint()
    ensures list.Valid() && fresh(list.Footprint() - old(list.Footprint()))
    ensures list.contents == Turn(old(list.contents), ev)
    ensures sent == Sent(old(list.contents), ev)
  {
    hide Insert, Cancel, Tick, Fired, LinkedList.Distinct, LinkedList.Linked, LinkedList.Shows;
    ghost var was := list.contents;
    if ev.Received? {
      var b := new Node(ev.msg.time, ev.msg.port, ev.msg.seqNo);
      if ev.msg.kind == 's' {
        list.AddNode(b);
      }
      if ev.msg.kind == 'c' {
        list.DeleteNodeOfSeqNo(ev.msg.seqNo);
      }
    }
    sent := list.CheckAndUpdateHead();
  }

  /** The main loop, for as many iterations as there are events. */
  method Serve(events: seq<Event>) returns (sent: seq<seq<Entry>>)
    ensures |sent| == |events|
    ensures exists run :: RunFrom([], events, run) && forall i | 0 <= i < |events| :: sent[i] == Sent(run[i], events[i])
  {
    hide Turn, Sent, LinkedList.Distinct, LinkedList.Linked, LinkedList.Shows;
    var list := new LinkedList();
    sent := [];
    ghost var run := [[]];
    for n := 0 to |events|
      invariant list.Valid() && fresh(list) && fresh(list.Footprint())
      invariant RunFrom([], events[..n], run) && list.contents == run[n]
      invariant |sent| == n && forall i | 0 <= i < n :: sent[i] == Sent(run[i], events[i])
    {
      var out := Iterate(list, events[n]);
      sent, run := sent + [out], run + [list.contents];
    }
    assert events[..|events|] == events;
  }

  // ------------------------------------------------------------- any run at all

  /** No entry is due before its predecessor. */
  ghost predicate Ordered(list: seq<Entry>)
  {
    forall j | 1 <= j < |list| :: list[j].time >= 0
  }

  /** The head has not run past its deadline. */
  predicate Headed(list: seq<Entry>)
  {
    list != [] ==> list[0].time >= 1
  }

  lemma TurnOrdered(list: seq<Entry>, ev: Event)
    requires Ordered(list)
    ensures Ordered(Deliver(list, ev)) && Ordered(Turn(list, ev))
  {
    if IsStart(ev) {
      var k := Slot(list, ev.msg.time, 0);
      assert PrefixSum(list, 0) == 0;
      if k < |list| {
        assert PrefixSum(list, k + 1) == PrefixSum(list, k) + list[k].time;
      }
    }
  }

  lemma {:induction false} RunOrdered(list: seq<Entry>, events: seq<Event>, run: seq<seq<Entry>>, n: nat)
    requires Ordered(list) && RunFrom(list, events, run) && n <= |events|
    ensures Ordered(run[n])
  {
    hide Turn;
    if n == 0 {
    } else {
      RunOrdered(list, events, run, n - 1);
      TurnOrdered(run[n - 1], events[n - 1]);
    }
  }

  /** The two ways a list whose head is still to come gets a head that is past its
      deadline: a start time below one, or a cancelled head with a zero behind it. */
  predicate Stalls(list: seq<Entry>, ev: Event)
  {
    || (IsStart(ev) && ev.msg.time < 1)
    || (IsCancel(ev) && |list| > 1 && list[0].seqNo == ev.msg.seqNo && list[1].time == 0)
  }

  lemma HeadedUnlessStalled(list: seq<Entry>, ev: Event)
    requires Ordered(list) && Headed(list)
    ensures Headed(Turn(list, ev)) <==> !Stalls(list, ev)
  {
    TurnOrdered(list, ev);
    var d := Deliver(list, ev);
    if IsStart(ev) {
      assert PrefixSum(list, 0) == 0;
      assert list != [] ==> PrefixSum(list, 1) == list[0].time;
      assert d[0].time >= 1 <==> ev.msg.time >= 1;
    } else if IsCancel(ev) && list != [] {
      if |list| == 1 && list[0].seqNo == ev.msg.seqNo {
        assert d == [];
      } else {
        assert d[0] == if list[0].seqNo == ev.msg.seqNo then list[1] else list[0];
      }
    }
  }

  /** Every timer is still to come. */
  ghost predicate Ahead(list: seq<Entry>)
  {
    forall k | 0 < k <= |list| :: PrefixSum(list, k) >= 1
  }

  lemma AheadIffHeaded(list: seq<Entry>)
    requires Ordered(list)
    ensures Ahead(list) <==> Headed(list)
  {
    if list != [] {
      assert PrefixSum(list, 1) == PrefixSum(list, 0) + list[0].time;
      forall k | 0 < k <= |list|
        ensures PrefixSum(list, k) >= list[0].time
      {
        PrefixSumMonotone(list, 1, k);
      }
    }
  }

  lemma {:induction false} HeadedWhileUnstalled(events: seq<Event>, run: seq<seq<Entry>>, n: nat)
    requires RunFrom([], events, run) && n <= |events|
    requires forall m | 0 <= m < n :: !Stalls(run[m], events[m])
    ensures Ordered(run[n]) && Headed(run[n])
  {
    hide Turn, Stalls;
    if n == 0 {
    } else {
      HeadedWhileUnstalled(events, run, n - 1);
      HeadedUnlessStalled(run[n - 1], events[n - 1]);
      TurnOrdered(run[n - 1], events[n - 1]);
    }
  }

  /** In every run, whatever the start times and cancels: up to iteration n no timer is ever
      held past its deadline if and only if no message stalls the list. */
  lemma NeverLateIff(events: seq<Event>, run: seq<seq<Entry>>, n: nat)
    requires RunFrom([], events, run) && n <= |events|
    ensures (forall m | 0 <= m < n :: !Stalls(run[m], events[m])) <==> (forall m | 0 <= m <= n :: Ahead(run[m]))
  {
    hide Turn, Stalls, Ahead;
    forall m | 0 <= m <= n
      ensures Ordered(run[m]) && (Ahead(run[m]) <==> Headed(run[m]))
    {
      RunOrdered([], events, run, m);
      AheadIffHeaded(run[m]);
    }
    if forall m | 0 <= m < n :: !Stalls(run[m], events[m]) {
      forall m | 0 <= m <= n
        ensures Ahead(run[m])
      {
        HeadedWhileUnstalled(events, run, m);
      }
    } else {
      var m :| 0 <= m < n && Stalls(run[m], events[m]);
      if Headed(run[m]) {
        HeadedUnlessStalled(run[m], events[m]);
        assert run[m + 1] == Turn(run[m], events[m]);
        assert !Ahead(run[m + 1]);
      }
    }
  }

  ghost predicate Stalled(list: seq<Entry>)
  {
    list != [] && list[0].time < 0
  }

  predicate CancelsHead(list: seq<Entry>, ev: Event)
  {
    list != [] && IsCancel(ev) && ev.msg.seqNo == list[0].seqNo
  }

  /** With a head past its deadline the one way to make a timer fire is to cancel that head
      when the timer behind it has a delta of one; and the list stays like that, whatever
      start times arrive, unless the head is cancelled, and even then if the timer behind
      it has a delta of zero. */
  lemma StalledFiresIff(list: seq<Entry>, ev: Event)
    requires Stalled(list)
    ensures Sent(list, ev) != [] <==> CancelsHead(list, ev) && |list| > 1 && list[1].time == 1
    ensures Stalled(Turn(list, ev)) || CancelsHead(list, ev)
    ensures Ordered(list) ==>
              (Stalled(Turn(list, ev)) <==> !CancelsHead(list, ev) || (|list| > 1 && list[1].time == 0))
  {
    if CancelsHead(list, ev) {
      assert Deliver(list, ev) == list[1..];
    }
  }

  /** Once the head is past its deadline no timer fires, as long as no message cancels what
      is then the head. */
  lemma {:induction false} StalledForever(list: seq<Entry>, events: seq<Event>, run: seq<seq<Entry>>, n: nat)
    requires Stalled(list) && RunFrom(list, events, run) && n <= |events|
    requires forall i | 0 <= i < |events| :: !CancelsHead(run[i], events[i])
    ensures Stalled(run[n])
    ensures n < |events| ==> Sent(run[n], events[n]) == []
  {
    hide Turn, Sent, Stalled, CancelsHead;
    if n == 0 {
    } else {
      StalledForever(list, events, run, n - 1);
      StalledFiresIff(run[n - 1], events[n - 1]);
    }
    if n < |events| {
      StalledFiresIff(run[n], events[n]);
    }
  }

  /** With start times of one or more it is the same head all the time, and it only moves
      further away from zero. */
  lemma {:induction false} SameHeadForever(list: seq<Entry>, events: seq<Event>, run: seq<seq<Entry>>, n: nat)
    requires Stalled(list) && RunFrom(list, events, run) && n <= |events|
    requires forall ev | ev in events :: IsStart(ev) ==> ev.msg.time >= 1
    requires forall ev | ev in events :: IsCancel(ev) ==> ev.msg.seqNo != list[0].seqNo
    ensures run[n] != [] && run[n][0].seqNo == list[0].seqNo && run[n][0].time == list[0].time - n
  {
    hide Turn, Sent;
    if n == 0 {
    } else {
      SameHeadForever(list, events, run, n - 1);
      SameHead(run[n - 1], events[n - 1]);
    }
  }

  lemma SameHead(list: seq<Entry>, ev: Event)
    requires Stalled(list) && !CancelsHead(list, ev) && (IsStart(ev) ==> ev.msg.time >= 1)
    ensures var end := Turn(list, ev);
            end != [] && end[0].seqNo == list[0].seqNo && end[0].time == list[0].time - 1
  {
    if IsStart(ev) {
      assert PrefixSum(list, 1) == list[0].time < ev.msg.time;
      assert Slot(list, ev.msg.time, 0) >= 1;
    }
    assert Deliver(list, ev) != [] && Deliver(list, ev)[0] == list[0];
  }

  /** Such a run exists: cancelling the earlier of two timers due together strands the
      other, which was started with five ticks to go and never fires. */
  const STRANDING: seq<Event> := [Received(Message('s', 1, 1234, 5)), Received(Message('s', 2, 1234, 4)),
                                  Received(Message('c', 2, 1234, 0))]

  lemma StrandedTimer(later: seq<Event>, run: seq<seq<Entry>>, n: nat)
    requires RunFrom([], STRANDING + later, run) && n <= |later|
    requires forall ev | ev in later :: IsStart(ev) ==> ev.msg.time >= 1
    requires forall ev | ev in later :: IsCancel(ev) ==> ev.msg.seqNo != 1
    ensures forall i | 0 <= i < 3 :: Sent(run[i], STRANDING[i]) == []
    ensures run[3 + n] != [] && run[3 + n][0].seqNo == 1
    ensures n < |later| ==> Sent(run[3 + n], later[n]) == []
  {
    var l1, l2, l3 := [Entry(4, 1, 1234)], [Entry(3, 2, 1234), Entry(0, 1, 1234)], [Entry(-1, 1, 1234)];
    StrandedFirst();
    StrandedSecond();
    StrandedThird();
    hide Turn, Sent;
    var events := STRANDING + later;
    assert events[0] == STRANDING[0] && events[1] == STRANDING[1] && events[2] == STRANDING[2];
    assert run[1] == Turn(run[0], events[0]) == l1;
    assert run[2] == Turn(run[1], events[1]) == l2;
    assert run[3] == Turn(run[2], events[2]) == l3;
    var tail := run[3..];
    forall i | 0 <= i < |later|
      ensures tail[i + 1] == Turn(tail[i], later[i])
    {
      assert events[3 + i] == later[i];
      assert run[3 + i + 1] == Turn(run[3 + i], events[3 + i]);
    }
    SameHeadForever(l3, later, tail, n);
    if n < |later| {
      StalledFiresIff(tail[n], later[n]);
    }
  }

  lemma StrandedFirst()
    ensures Turn([], STRANDING[0]) == [Entry(4, 1, 1234)] && Sent([], STRANDING[0]) == []
  {
  }

  lemma StrandedThird()
    ensures Turn([Entry(3, 2, 1234), Entry(0, 1, 1234)], STRANDING[2]) == [Entry(-1, 1, 1234)]
    ensures Sent([Entry(3, 2, 1234), Entry(0, 1, 1234)], STRANDING[2]) == []
  {
    var l2 := [Entry(3, 2, 1234), Entry(0, 1, 1234)];
    assert Find(l2, 2, 0) == 0;
    assert Deliver(l2, STRANDING[2]) == [Entry(0, 1, 1234)];
  }

  lemma StrandedSecond()
    ensures Turn([Entry(4, 1, 1234)], STRANDING[1]) == [Entry(3, 2, 1234), Entry(0, 1, 1234)]
    ensures Sent([Entry(4, 1, 1234)], STRANDING[1]) == []
  {
    var l1 := [Entry(4, 1, 1234)];
    assert PrefixSum(l1, 1) == 4 && PrefixSum(l1, 0) == 0;
    assert Slot(l1, 4, 0) == 0;
    assert Deliver(l1, STRANDING[1]) == [Entry(4, 2, 1234), Entry(0, 1, 1234)];
  }

  // ----------------------------------------- every start carries the same time

  predicate Uniform(events: seq<Event>, t: int)
  {
    forall ev | ev in events :: IsStart(ev) ==> ev.msg.time == t
  }

  /** All deltas are positive and they add up to less than t. */
  ghost predicate Paced(list: seq<Entry>, t: int)
  {
    && (forall j | 0 <= j < |list| :: list[j].time >= 1)
    && PrefixSum(list, |list|) <= t - 1
  }

  lemma {:induction false} PrefixSumAtLeast(list: seq<Entry>, k: nat)
    requires k <= |list|
    requires forall j | 0 <= j < k :: list[j].time >= 1
    ensures PrefixSum(list, k) >= k
  {
    if k == 0 {
    } else {
      PrefixSumAtLeast(list, k - 1);
    }
  }

  lemma SlotAtEnd(list: seq<Entry>, t: int)
    requires Paced(list, t)
    ensures Slot(list, t, 0) == |list|
  {
    var k := Slot(list, t, 0);
    if k < |list| {
      PrefixSumMonotone(list, k + 1, |list|);
    }
  }

  lemma PacedDeliver(list: seq<Entry>, ev: Event, t: int)
    requires Paced(list, t) && t >= 1 && (IsStart(ev) ==> ev.msg.time == t)
    ensures var d := Deliver(list, ev);
            && (forall j | 0 <= j < |d| :: d[j].time >= 1)
            && PrefixSum(d, |d|) <= (if d == [] then 0 else t)
            && (IsStart(ev) ==> d == list + [Entry(t - PrefixSum(list, |list|), ev.msg.seqNo, ev.msg.port)])
  {
    var d := Deliver(list, ev);
    if IsStart(ev) {
      SlotAtEnd(list, t);
      PrefixSumSplit(list, |list|, Entry(t, ev.msg.seqNo, ev.msg.port), t - PrefixSum(list, |list|), |list| + 1);
    } else if IsCancel(ev) {
      var i := Find(list, ev.msg.seqNo, 0);
      if i < |list| {
        PrefixSumRemove(list, i, |list| - 1);
      }
    }
  }

  lemma TickPositive(list: seq<Entry>)
    requires forall j | 0 <= j < |list| :: list[j].time >= 1
    ensures var t := Tick(list);
            && (forall j | 0 <= j < |t| :: t[j].time >= 1)
            && PrefixSum(t, |t|) == (if list == [] then 0 else PrefixSum(list, |list|) - 1)
            && |Fired(list)| <= 1
  {
    var m := Decrement(list);
    var z := Zeros(m, 0);
    assert |m| > 1 ==> m[1].time >= 1;
    PrefixSumDropZeros(m, z, |m| - z);
    PrefixSumDecrement(list, |list|);
  }

  lemma PacedTurn(list: seq<Entry>, ev: Event, t: int)
    requires Paced(list, t) && t >= 1 && (IsStart(ev) ==> ev.msg.time == t)
    ensures Paced(Turn(list, ev), t) && |Sent(list, ev)| <= 1
  {
    PacedDeliver(list, ev, t);
    TickPositive(Deliver(list, ev));
  }

  /** However starts and cancels are interleaved, with one common start time t the
      list stays paced between iterations, so it holds fewer than t timers, its head
      is never at or below zero, and an iteration fires at most one timer. */
  lemma {:induction false} UniformRun(events: seq<Event>, run: seq<seq<Entry>>, t: int, n: nat)
    requires t >= 1 && Uniform(events, t) && RunFrom([], events, run) && n <= |events|
    ensures Paced(run[n], t) && |run[n]| <= t - 1 && Headed(run[n])
    ensures n < |events| ==> |Sent(run[n], events[n])| <= 1
  {
    hide Turn, Sent;
    if n == 0 {
    } else {
      UniformRun(events, run, t, n - 1);
      PacedTurn(run[n - 1], events[n - 1], t);
    }
    PrefixSumAtLeast(run[n], |run[n]|);
    if n < |events| {
      PacedTurn(run[n], events[n], t);
    }
  }
}
