/** The timer's run with its history written down: when each timer was started, how
    much it was brought forward by cancels ahead of it, and what became of it. */
module TimerHistory {
  import opened DeltaList
  import opened Timers

  /** One started timer: the iteration that started it, its number and start time, and
      the sum of the deltas of the entries cancelled while they stood ahead of it. */
  datatype Tag = Tag(born: nat, seqNo: int, start: int, advance: int)

  /** A timer that fired, and the number of ticks done by then. */
  datatype Firing = Firing(tag: Tag, at: nat)

  datatype Past = Past(now: nat, list: seq<Entry>, tags: seq<Tag>, fired: seq<Firing>, cancelled: seq<Tag>)

  /** One tag for every entry of the list. */
  type History = h: Past | |h.tags| == |h.list| witness NOTHING

  const NOTHING: Past := Past(0, [], [], [], [])

  function Advance(tags: seq<Tag>, d: int): seq<Tag>
  {
    seq(|tags|, j requires 0 <= j < |tags| => tags[j].(advance := tags[j].advance + d))
  }

  /** The message half of an iteration, seen on the tags. */
  function Receive(h: History, ev: Event): (r: History)
    ensures r.list == Deliver(h.list, ev) && r.now == h.now && r.fired == h.fired
  {
    if IsStart(ev) then
      var k := Slot(h.list, ev.msg.time, 0);
      h.(list := Deliver(h.list, ev),
         tags := h.tags[..k] + [Tag(h.now, ev.msg.seqNo, ev.msg.time, 0)] + h.tags[k..])
    else if IsCancel(ev) && Find(h.list, ev.msg.seqNo, 0) < |h.list| then
      var i := Find(h.list, ev.msg.seqNo, 0);
      h.(list := Deliver(h.list, ev),
         tags := h.tags[..i] + Advance(h.tags[i + 1..], h.list[i].time),
         cancelled := h.cancelled + [h.tags[i]])
    else h
  }

  function Stamp(tags: seq<Tag>, at: nat): seq<Firing>
  {
    seq(|tags|, j requires 0 <= j < |tags| => Firing(tags[j], at))
  }

  /** The tick half: the fired entries leave from the front. */
  function Expire(h: History): (r: History)
    ensures r.list == Tick(h.list)
  {
    var z := |Fired(h.list)|;
    Past(h.now + 1, Tick(h.list), h.tags[z..], h.fired + Stamp(h.tags[..z], h.now + 1), h.cancelled)
  }

  /** The histories between the iterations of a run. */
  ghost predicate Recorded(events: seq<Event>, hs: seq<History>)
  {
    && |hs| == |events| + 1 && hs[0] == NOTHING
    && forall i {:trigger Receive(hs[i], events[i])} | 0 <= i < |events| ::
         hs[i + 1] == Expire(Receive(hs[i], events[i]))
  }

  function Lists(hs: seq<History>): seq<seq<Entry>>
  {
    seq(|hs|, i requires 0 <= i < |hs| => hs[i].list)
  }

  /** The history is about the timer: its lists are a run. */
  lemma ListsRun(events: seq<Event>, hs: seq<History>)
    requires Recorded(events, hs)
    ensures RunFrom([], events, Lists(hs))
  {
    hide Turn, Receive, Expire;
    var run := Lists(hs);
    forall i | 0 <= i < |events|
      ensures run[i + 1] == Turn(run[i], events[i])
    {
      ListStep(hs[i], events[i]);
    }
  }

  lemma ListStep(h: History, ev: Event)
    ensures Expire(Receive(h, ev)).list == Turn(h.list, ev)
  {
    hide Deliver, Tick;
  }

  lemma {:induction false} NowIs(events: seq<Event>, hs: seq<History>, n: nat)
    requires Recorded(events, hs) && n <= |events|
    ensures hs[n].now == n
  {
    if n == 0 {
    } else {
      NowIs(events, hs, n - 1);
      ExpireNow(Receive(hs[n - 1], events[n - 1]));
      hide Receive, Expire;
    }
  }

  lemma ExpireNow(h: History)
    ensures Expire(h).now == h.now + 1
  {
  }

  // ------------------------------------------------------- expiry accounting

  function Remaining(t: Tag, now: nat): int
  {
    t.start - (now - t.born) - t.advance
  }

  ghost predicate Accounted(h: History)
  {
    && (forall j {:trigger h.tags[j]} | 0 <= j < |h.list| ::
          h.list[j].seqNo == h.tags[j].seqNo && PrefixSum(h.list, j + 1) == Remaining(h.tags[j], h.now))
    && (forall f | f in h.fired :: f.at == f.tag.born + f.tag.start - f.tag.advance)
  }

  lemma StartAccounted(h: History, ev: Event)
    requires Accounted(h) && IsStart(ev)
    ensures Accounted(Receive(h, ev))
  {
    var r := Receive(h, ev);
    var k := Slot(h.list, ev.msg.time, 0);
    forall j | 0 <= j < |r.list|
      ensures r.list[j].seqNo == r.tags[j].seqNo && PrefixSum(r.list, j + 1) == Remaining(r.tags[j], r.now)
    {
      var e := Entry(ev.msg.time, ev.msg.seqNo, ev.msg.port);
      PrefixSumSplit(h.list, k, e, e.time - PrefixSum(h.list, k), j + 1);
      hide PrefixSum;
      assert j != k ==> r.tags[j] == h.tags[if j < k then j else j - 1];
    }
  }

  lemma CancelAccounted(h: History, ev: Event)
    requires Accounted(h) && IsCancel(ev) && Find(h.list, ev.msg.seqNo, 0) < |h.list|
    ensures Accounted(Receive(h, ev))
  {
    var r := Receive(h, ev);
    var i := Find(h.list, ev.msg.seqNo, 0);
    assert r.list == RemoveAt(h.list, i);
    forall j | 0 <= j < |r.list|
      ensures r.list[j].seqNo == r.tags[j].seqNo && PrefixSum(r.list, j + 1) == Remaining(r.tags[j], r.now)
    {
      PrefixSumRemove(h.list, i, j + 1);
      hide PrefixSum, Find;
      assert j >= i ==> r.tags[j] == h.tags[j + 1].(advance := h.tags[j + 1].advance + h.list[i].time);
      assert j < i ==> r.tags[j] == h.tags[j];
    }
  }

  lemma ReceiveAccounted(h: History, ev: Event)
    requires Accounted(h)
    ensures Accounted(Receive(h, ev))
  {
    if IsStart(ev) {
      StartAccounted(h, ev);
    } else if IsCancel(ev) && Find(h.list, ev.msg.seqNo, 0) < |h.list| {
      CancelAccounted(h, ev);
    }
  }

  lemma ExpireAccounted(h: History)
    requires Accounted(h)
    ensures Accounted(Expire(h))
  {
    var r := Expire(h);
    var d := Decrement(h.list);
    var z := Zeros(d, 0);
    forall j | 0 <= j < |r.list|
      ensures r.list[j].seqNo == r.tags[j].seqNo && PrefixSum(r.list, j + 1) == Remaining(r.tags[j], r.now)
    {
      assert r.tags[j] == h.tags[z + j];
      PrefixSumDropZeros(d, z, j + 1);
      PrefixSumDecrement(h.list, z + j + 1);
    }
    forall f | f in r.fired
      ensures f.at == f.tag.born + f.tag.start - f.tag.advance
    {
      if f !in h.fired {
        var j :| 0 <= j < z && f == Firing(h.tags[j], h.now + 1);
        PrefixSumOfZeros(d, j + 1);
        PrefixSumDecrement(h.list, j + 1);
      }
    }
  }

  /** In every run, whatever the start times and cancels, the due time of a live timer
      is its start time minus the ticks since then minus the deltas cancelled ahead of
      it, and a timer that fired did so at exactly the tick this formula gives:
      firings ahead of a timer contribute nothing. */
  lemma {:induction false} ExpiryAccounting(events: seq<Event>, hs: seq<History>, n: nat)
    requires Recorded(events, hs) && n <= |events|
    ensures Accounted(hs[n])
  {
    hide Receive, Expire;
    if n == 0 {
    } else {
      ExpiryAccounting(events, hs, n - 1);
      ReceiveAccounted(hs[n - 1], events[n - 1]);
      ExpireAccounted(Receive(hs[n - 1], events[n - 1]));
    }
  }

  // ------------------------------------------------------------ nothing is lost

  function Borns(tags: seq<Tag>): seq<nat>
  {
    seq(|tags|, j requires 0 <= j < |tags| => tags[j].born)
  }

  function FiredBorns(fired: seq<Firing>): seq<nat>
  {
    seq(|fired|, j requires 0 <= j < |fired| => fired[j].tag.born)
  }

  /** The iterations among the first n that started a timer. */
  function Starts(events: seq<Event>, n: nat): (s: multiset<nat>)
    requires n <= |events|
    ensures forall i: nat :: s[i] == if i < n && IsStart(events[i]) then 1 else 0
  {
    if n == 0 then multiset{}
    else if IsStart(events[n - 1]) then Starts(events, n - 1) + multiset{n - 1}
    else Starts(events, n - 1)
  }

  function Known(h: History): multiset<nat>
  {
    multiset(Borns(h.tags)) + multiset(FiredBorns(h.fired)) + multiset(Borns(h.cancelled))
  }

  lemma ReceiveKnown(h: History, ev: Event)
    ensures Known(Receive(h, ev)) == Known(h) + if IsStart(ev) then multiset{h.now} else multiset{}
  {
    ReceiveBorns(h, ev);
    var r := Receive(h, ev);
    var borns := Borns(h.tags);
    if IsStart(ev) {
      MultisetInsertAt(borns, Slot(h.list, ev.msg.time, 0), h.now);
    } else if IsCancel(ev) && Find(h.list, ev.msg.seqNo, 0) < |h.list| {
      var i := Find(h.list, ev.msg.seqNo, 0);
      MultisetRemoveAt(borns, i);
      assert borns[i] in multiset(borns);
    }
    hide Receive, Borns, Slot, Find;
  }

  lemma ReceiveBorns(h: History, ev: Event)
    ensures var r := Receive(h, ev); var borns := Borns(h.tags);
            if IsStart(ev) then
              var k := Slot(h.list, ev.msg.time, 0);
              Borns(r.tags) == borns[..k] + [h.now] + borns[k..] && r.cancelled == h.cancelled
            else if IsCancel(ev) && Find(h.list, ev.msg.seqNo, 0) < |h.list| then
              var i := Find(h.list, ev.msg.seqNo, 0);
              Borns(r.tags) == RemoveAt(borns, i) && Borns(r.cancelled) == Borns(h.cancelled) + [borns[i]]
            else r == h
  {
    hide Deliver;
    var r := Receive(h, ev);
    if IsStart(ev) {
      BornsAround(h.tags, Slot(h.list, ev.msg.time, 0), Tag(h.now, ev.msg.seqNo, ev.msg.time, 0));
    } else if IsCancel(ev) && Find(h.list, ev.msg.seqNo, 0) < |h.list| {
      var i := Find(h.list, ev.msg.seqNo, 0);
      BornsWithout(h.tags, i, h.list[i].time);
      assert Borns(h.cancelled + [h.tags[i]]) == Borns(h.cancelled) + [Borns(h.tags)[i]];
    }
  }

  lemma BornsAround(tags: seq<Tag>, k: nat, t: Tag)
    requires k <= |tags|
    ensures Borns(tags[..k] + [t] + tags[k..]) == Borns(tags)[..k] + [t.born] + Borns(tags)[k..]
  {
  }

  lemma BornsWithout(tags: seq<Tag>, i: nat, d: int)
    requires i < |tags|
    ensures Borns(tags[..i] + Advance(tags[i + 1..], d)) == RemoveAt(Borns(tags), i)
  {
    var now := tags[..i] + Advance(tags[i + 1..], d);
    forall j | 0 <= j < |now|
      ensures Borns(now)[j] == RemoveAt(Borns(tags), i)[j]
    {
      assert now[j].born == tags[if j < i then j else j + 1].born;
    }
  }

  lemma ExpireKnown(h: History)
    ensures Known(Expire(h)) == Known(h)
  {
    var r := Expire(h);
    var z := |Fired(h.list)|;
    assert Borns(h.tags) == Borns(h.tags[..z]) + Borns(h.tags[z..]);
    assert FiredBorns(r.fired) == FiredBorns(h.fired) + Borns(h.tags[..z]);
  }

  /** Conservation: in every run each started timer is exactly one of live, fired and
      cancelled, and nothing else ever fires. */
  lemma {:induction false} NothingLost(events: seq<Event>, hs: seq<History>, n: nat)
    requires Recorded(events, hs) && n <= |events|
    ensures Known(hs[n]) == Starts(events, n)
  {
    hide Receive, Expire, Known;
    if n == 0 {
      EmptyKnown();
    } else {
      NowIs(events, hs, n - 1);
      NothingLost(events, hs, n - 1);
      ReceiveKnown(hs[n - 1], events[n - 1]);
      ExpireKnown(Receive(hs[n - 1], events[n - 1]));
    }
  }

  lemma EmptyKnown()
    ensures Known(NOTHING) == multiset{}
  {
  }

  /** The tag describes the event that started the timer. */
  predicate Describes(t: Tag, events: seq<Event>)
  {
    t.born < |events| && IsStart(events[t.born]) &&
    events[t.born].msg.seqNo == t.seqNo && events[t.born].msg.time == t.start
  }

  ghost predicate Truthful(h: History, events: seq<Event>)
  {
    && (forall t | t in h.tags :: Describes(t, events) && t.born < h.now)
    && (forall t | t in h.cancelled :: Describes(t, events))
    && (forall f | f in h.fired :: Describes(f.tag, events) && f.tag.born < f.at <= h.now)
  }

  lemma {:induction false} RecordTruthful(events: seq<Event>, hs: seq<History>, n: nat)
    requires Recorded(events, hs) && n <= |events|
    ensures Truthful(hs[n], events)
  {
    hide Receive, Expire, Truthful, Turn, Deliver, Tick;
    if n == 0 {
      EmptyTruthful(events);
    } else {
      NowIs(events, hs, n - 1);
      RecordTruthful(events, hs, n - 1);
      TurnTruthful(hs[n - 1], events, events[n - 1]);
    }
  }

  lemma EmptyTruthful(events: seq<Event>)
    ensures Truthful(NOTHING, events)
  {
  }

  lemma ReceiveTruthful(h: History, events: seq<Event>, ev: Event)
    requires h.now < |events| && ev == events[h.now] && Truthful(h, events)
    ensures Truthful(Receive(h, ev).(now := h.now + 1), events)
  {
    hide Deliver;
    var r := Receive(h, ev);
    forall j | 0 <= j < |r.tags|
      ensures Describes(r.tags[j], events) && r.tags[j].born <= h.now
    {
      if IsStart(ev) {
        var k := Slot(h.list, ev.msg.time, 0);
        assert j != k ==> r.tags[j] in h.tags;
      } else if IsCancel(ev) && Find(h.list, ev.msg.seqNo, 0) < |h.list| {
        var i := Find(h.list, ev.msg.seqNo, 0);
        var was := h.tags[if j < i then j else j + 1];
        assert was in h.tags && r.tags[j].(advance := was.advance) == was;
      } else {
        assert r.tags[j] in h.tags;
      }
    }
  }

  lemma ExpireTruthful(h: History, events: seq<Event>)
    requires Truthful(h.(now := h.now + 1), events)
    ensures Truthful(Expire(h), events)
  {
    hide Tick;
    var z := |Fired(h.list)|;
    hide Describes;
    forall f | f in Stamp(h.tags[..z], h.now + 1)
      ensures f.tag in h.tags && f.at == h.now + 1
    {
    }
    assert forall t | t in h.tags[z..] :: t in h.tags;
  }

  lemma TurnTruthful(h: History, events: seq<Event>, ev: Event)
    requires h.now < |events| && ev == events[h.now] && Truthful(h, events)
    ensures Truthful(Expire(Receive(h, ev)), events)
  {
    ReceiveTruthful(h, events, ev);
    hide Truthful, Receive, Expire;
    ExpireTruthful(Receive(h, ev), events);
  }

  /** Exactly one thing has become of the timer started in iteration i. */
  lemma OneFate(events: seq<Event>, hs: seq<History>, n: nat, i: nat)
    requires Recorded(events, hs) && i < n <= |events| && IsStart(events[i])
    ensures var h := hs[n];
            multiset(Borns(h.tags))[i] + multiset(FiredBorns(h.fired))[i] + multiset(Borns(h.cancelled))[i] == 1
  {
    NothingLost(events, hs, n);
    assert Known(hs[n])[i] == Starts(events, n)[i];
  }

  // ------------------------------------------- as long as no message stalls the list

  /** Cancels have only ever brought timers forward. */
  ghost predicate Forward(h: History)
  {
    && (forall t | t in h.tags :: t.advance >= 0)
    && (forall f | f in h.fired :: f.tag.advance >= 0)
  }

  lemma ReceiveAdvance(h: History, ev: Event)
    requires Ordered(h.list) && Headed(h.list) && forall t | t in h.tags :: t.advance >= 0
    ensures forall t | t in Receive(h, ev).tags :: t.advance >= 0
  {
    var r := Receive(h, ev);
    forall j | 0 <= j < |r.tags|
      ensures r.tags[j].advance >= 0
    {
      if IsStart(ev) {
        var k := Slot(h.list, ev.msg.time, 0);
        assert j != k ==> r.tags[j] == h.tags[if j < k then j else j - 1];
      } else if IsCancel(ev) && Find(h.list, ev.msg.seqNo, 0) < |h.list| {
        var i := Find(h.list, ev.msg.seqNo, 0);
        assert r.tags[j].advance == if j < i then h.tags[j].advance else h.tags[j + 1].advance + h.list[i].time;
      }
    }
  }

  lemma TurnForward(h: History, ev: Event)
    requires Forward(h) && Ordered(h.list) && Headed(h.list)
    ensures Forward(Expire(Receive(h, ev)))
  {
    ReceiveAdvance(h, ev);
    var r := Receive(h, ev);
    assert r.fired == h.fired;
    hide Receive, Ordered, Headed, Tick;
    var z := |Fired(r.list)|;
    assert forall t | t in r.tags[z..] :: t in r.tags;
    assert forall f | f in Stamp(r.tags[..z], r.now + 1) :: f.tag in r.tags;
  }

  ghost predicate Unstalled(events: seq<Event>, hs: seq<History>, n: nat)
    requires n <= |events| < |hs|
  {
    forall m | 0 <= m < n :: !Stalls(hs[m].list, events[m])
  }

  lemma {:induction false} ForwardWhileUnstalled(events: seq<Event>, hs: seq<History>, n: nat)
    requires Recorded(events, hs) && n <= |events| && Unstalled(events, hs, n)
    ensures Forward(hs[n])
  {
    hide Receive, Expire, Forward, Turn, Stalls;
    if n == 0 {
      NothingForward();
    } else {
      ForwardWhileUnstalled(events, hs, n - 1);
      ListsRun(events, hs);
      HeadedWhileUnstalled(events, Lists(hs), n - 1);
      TurnForward(hs[n - 1], events[n - 1]);
    }
  }

  lemma NothingForward()
    ensures Forward(NOTHING)
  {
  }

  lemma LiveIsYoung(events: seq<Event>, hs: seq<History>, n: nat, j: nat)
    requires Recorded(events, hs) && n <= |events| && Unstalled(events, hs, n) && j < |hs[n].tags|
    ensures var t := hs[n].tags[j]; Describes(t, events) && n < t.born + t.start
  {
    hide Receive, Expire, PrefixSum, Turn, Stalls;
    var h := hs[n];
    NowIs(events, hs, n);
    ExpiryAccounting(events, hs, n);
    RecordTruthful(events, hs, n);
    ForwardWhileUnstalled(events, hs, n);
    ListsRun(events, hs);
    HeadedWhileUnstalled(events, Lists(hs), n);
    AheadIffHeaded(h.list);
    assert h.tags[j] in h.tags;
    assert PrefixSum(h.list, j + 1) >= 1;
  }

  /** In every run, whatever the start times and cancels: as long as no message has stalled
      the list every timer that has had its start time in ticks is fired or cancelled, and
      none fired later than that. */
  lemma DeadlinesMet(events: seq<Event>, hs: seq<History>, n: nat)
    requires Recorded(events, hs) && n <= |events| && Unstalled(events, hs, n)
    ensures var h := hs[n];
            && (forall i | 0 <= i < n && IsStart(events[i]) && n >= i + events[i].msg.time ::
                  i in FiredBorns(h.fired) || i in Borns(h.cancelled))
            && (forall f | f in h.fired :: f.tag.born < f.at <= f.tag.born + f.tag.start)
  {
    hide PrefixSum, Receive, Expire, Stalls;
    var h := hs[n];
    ExpiryAccounting(events, hs, n);
    RecordTruthful(events, hs, n);
    ForwardWhileUnstalled(events, hs, n);
    forall i | 0 <= i < n && IsStart(events[i]) && n >= i + events[i].msg.time
      ensures i in FiredBorns(h.fired) || i in Borns(h.cancelled)
    {
      OneFate(events, hs, n, i);
      if i in Borns(h.tags) {
        var j :| 0 <= j < |h.tags| && h.tags[j].born == i;
        LiveIsYoung(events, hs, n, j);
        assert false;
      }
    }
  }

  // ----------------------------------------- every start carries the same time

  /** The fired timers in firing order, then the live ones in list order. */
  function Line(h: History): seq<nat>
  {
    FiredBorns(h.fired) + Borns(h.tags)
  }

  ghost predicate Increasing(s: seq<nat>, bound: nat)
  {
    && (forall i, j | 0 <= i < j < |s| :: s[i] < s[j])
    && (forall i | 0 <= i < |s| :: s[i] < bound)
  }

  ghost predicate Queue(h: History)
  {
    Increasing(Line(h), h.now)
  }

  lemma ReceiveLine(h: History, ev: Event, t: int)
    requires Paced(h.list, t) && (IsStart(ev) ==> ev.msg.time == t)
    ensures Line(Receive(h, ev)) ==
            if IsStart(ev) then Line(h) + [h.now]
            else if IsCancel(ev) && Find(h.list, ev.msg.seqNo, 0) < |h.list|
              then RemoveAt(Line(h), |h.fired| + Find(h.list, ev.msg.seqNo, 0))
            else Line(h)
  {
    ReceiveBorns(h, ev);
    if IsStart(ev) {
      SlotAtEnd(h.list, t);
    }
    var r := Receive(h, ev);
    assert r.fired == h.fired;
    hide Receive, Borns, FiredBorns, Find, Slot, Deliver;
  }

  lemma IncreasingRemove(s: seq<nat>, i: nat, bound: nat)
    requires i < |s| && Increasing(s, bound)
    ensures Increasing(RemoveAt(s, i), bound + 1)
  {
  }

  lemma IncreasingAppend(s: seq<nat>, bound: nat)
    requires Increasing(s, bound)
    ensures Increasing(s + [bound], bound + 1) && Increasing(s, bound + 1)
  {
  }

  lemma LineIncreasing(h: History, ev: Event, t: int)
    requires Increasing(Line(h), h.now) && Paced(h.list, t) && (IsStart(ev) ==> ev.msg.time == t)
    ensures Increasing(Line(Receive(h, ev)), h.now + 1)
  {
    hide Receive, Increasing, Paced, Find;
    ReceiveLine(h, ev, t);
    IncreasingAppend(Line(h), h.now);
    if IsCancel(ev) && Find(h.list, ev.msg.seqNo, 0) < |h.list| {
      IncreasingRemove(Line(h), |h.fired| + Find(h.list, ev.msg.seqNo, 0), h.now);
    }
  }

  lemma ReceiveQueue(h: History, ev: Event, t: int)
    requires Queue(h) && Paced(h.list, t) && (IsStart(ev) ==> ev.msg.time == t)
    ensures var r := Receive(h, ev); Queue(r.(now := h.now + 1))
  {
    hide Receive, Increasing, Paced, Deliver;
    LineIncreasing(h, ev, t);
    var r := Receive(h, ev);
    assert Line(r.(now := h.now + 1)) == Line(r);
  }

  lemma ExpireQueue(h: History)
    requires Queue(h.(now := h.now + 1))
    ensures Queue(Expire(h))
  {
    assert Line(Expire(h)) == Line(h);
    assert Line(h.(now := h.now + 1)) == Line(h);
  }

  lemma {:induction false} UniformQueue(events: seq<Event>, hs: seq<History>, t: int, n: nat)
    requires Recorded(events, hs) && t >= 1 && Uniform(events, t) && n <= |events|
    ensures Queue(hs[n])
  {
    hide Receive, Expire, Queue, Turn, Deliver, Tick, Paced, Sent;
    if n == 0 {
      EmptyQueue();
    } else {
      var h := hs[n - 1];
      UniformQueue(events, hs, t, n - 1);
      ListsRun(events, hs);
      UniformRun(events, Lists(hs), t, n - 1);
      ReceiveQueue(h, events[n - 1], t);
      ExpireQueue(Receive(h, events[n - 1]));
    }
  }

  lemma EmptyQueue()
    ensures Queue(NOTHING)
  {
  }

  lemma UniformUnstalled(events: seq<Event>, hs: seq<History>, t: int, n: nat)
    requires Recorded(events, hs) && t >= 1 && Uniform(events, t) && n <= |events|
    ensures Unstalled(events, hs, n)
  {
    hide Receive, Expire, Turn, Sent, Stalls;
    ListsRun(events, hs);
    forall m | 0 <= m < n
      ensures !Stalls(hs[m].list, events[m])
    {
      UniformRun(events, Lists(hs), t, m);
      UniformRun(events, Lists(hs), t, m + 1);
      RunOrdered([], events, Lists(hs), m);
      HeadedUnlessStalled(hs[m].list, events[m]);
    }
  }

  /** With one common start time t and any cancels: a started timer is one of live,
      fired and cancelled; it is live for fewer than t ticks; timers fire in the order
      they were started, never early in the iteration of their own start and never
      later than t ticks after it. */
  lemma UniformFate(events: seq<Event>, hs: seq<History>, t: int, n: nat)
    requires Recorded(events, hs) && t >= 1 && Uniform(events, t) && n <= |events|
    ensures var h := hs[n];
            && (forall i | 0 <= i < n && IsStart(events[i]) && n >= i + t ::
                  i in FiredBorns(h.fired) || i in Borns(h.cancelled))
            && (forall f | f in h.fired :: f.tag.born < f.at <= f.tag.born + t)
            && (forall i, j | 0 <= i < j < |h.fired| :: h.fired[i].tag.born < h.fired[j].tag.born)
  {
    hide Receive, Expire, Unstalled;
    var h := hs[n];
    UniformUnstalled(events, hs, t, n);
    DeadlinesMet(events, hs, n);
    RecordTruthful(events, hs, n);
    UniformQueue(events, hs, t, n);
    forall i | 0 <= i < n && IsStart(events[i]) && n >= i + t
      ensures i in FiredBorns(h.fired) || i in Borns(h.cancelled)
    {
      assert events[i] in events;
    }
    forall f | f in h.fired
      ensures f.tag.born < f.at <= f.tag.born + t
    {
      assert events[f.tag.born] in events;
    }
    forall i, j | 0 <= i < j < |h.fired|
      ensures h.fired[i].tag.born < h.fired[j].tag.born
    {
      assert Line(h)[i] < Line(h)[j];
    }
  }

  // ------------------------------------------------------------ without cancels

  predicate Undisturbed(h: History)
  {
    && h.cancelled == []
    && (forall t | t in h.tags :: t.advance == 0)
    && (forall f | f in h.fired :: f.tag.advance == 0)
  }

  lemma {:induction false} CalmRun(events: seq<Event>, hs: seq<History>, n: nat)
    requires Recorded(events, hs) && n <= |events|
    requires forall ev | ev in events :: !IsCancel(ev) && (IsStart(ev) ==> ev.msg.time >= 1)
    ensures Undisturbed(hs[n])
  {
    hide Receive, Expire, Undisturbed;
    if n == 0 {
      CalmStart();
    } else {
      CalmRun(events, hs, n - 1);
      CalmTurn(hs[n - 1], events[n - 1]);
    }
  }

  lemma CalmStart()
    ensures Undisturbed(NOTHING)
  {
  }

  lemma CalmTurn(h: History, ev: Event)
    requires Undisturbed(h) && !IsCancel(ev)
    ensures Undisturbed(Expire(Receive(h, ev)))
  {
    hide Deliver, Tick;
    var r := Receive(h, ev);
    forall t | t in r.tags
      ensures t.advance == 0
    {
      assert t in h.tags || t == Tag(h.now, ev.msg.seqNo, ev.msg.time, 0);
    }
    hide Receive;
    var z := |Fired(r.list)|;
    assert forall t | t in r.tags[z..] :: t in r.tags;
    assert forall f | f in Stamp(r.tags[..z], r.now + 1) :: f.tag in r.tags;
  }

  /** Without cancels and with start times of at least one, a timer started in
      iteration i with time t fires in exactly the t-th tick from then. */
  lemma FiresOnTime(events: seq<Event>, hs: seq<History>, n: nat, i: nat)
    requires Recorded(events, hs) && i < n <= |events| && IsStart(events[i])
    requires forall ev | ev in events :: !IsCancel(ev) && (IsStart(ev) ==> ev.msg.time >= 1)
    ensures var h := hs[n]; var m := events[i].msg;
            Firing(Tag(i, m.seqNo, m.time, 0), i + m.time) in h.fired <==> n >= i + m.time
  {
    hide Receive, Expire;
    var h := hs[n];
    var m := events[i].msg;
    NowIs(events, hs, n);
    ExpiryAccounting(events, hs, n);
    RecordTruthful(events, hs, n);
    CalmRun(events, hs, n);
    if n >= i + m.time {
      DeadlinesMet(events, hs, n);
      assert i in FiredBorns(h.fired);
      var q :| 0 <= q < |h.fired| && h.fired[q].tag.born == i;
      var f := h.fired[q];
      assert f in h.fired && Describes(f.tag, events);
      assert f == Firing(Tag(i, m.seqNo, m.time, 0), i + m.time);
    }
  }
}
