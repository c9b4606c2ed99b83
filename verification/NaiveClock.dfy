/** The clock the delta list stands for: an unordered pile of timers, every one of
    which is decremented at every tick. */
module NaiveClock {
  import opened DeltaList
  import opened Timers

  /** The timers that are due now, and the others, each in pile order. */
  function Ringing(pile: seq<Alarm>): seq<Alarm>
  {
    if pile == [] then []
    else (if pile[0].due == 0 then [pile[0]] else []) + Ringing(pile[1..])
  }

  function Waiting(pile: seq<Alarm>): seq<Alarm>
  {
    if pile == [] then []
    else (if pile[0].due != 0 then [pile[0]] else []) + Waiting(pile[1..])
  }

  /** A started timer goes on top of the pile. */
  function Pile(pile: seq<Alarm>, ev: Event): seq<Alarm>
  {
    if IsStart(ev) then [Alarm(ev.msg.time, ev.msg.seqNo, ev.msg.port)] + pile else pile
  }

  function NaiveTurn(pile: seq<Alarm>, ev: Event): seq<Alarm>
  {
    Waiting(Sooner(Pile(pile, ev), 1))
  }

  /** What rings in one iteration, newest timer first. */
  function Rung(pile: seq<Alarm>, ev: Event): seq<Alarm>
  {
    Ringing(Sooner(Pile(pile, ev), 1))
  }

  /** The piles between the iterations of a run of the naive clock. */
  ghost predicate NaiveRun(events: seq<Event>, piles: seq<seq<Alarm>>)
  {
    && |piles| == |events| + 1 && piles[0] == []
    && forall i {:trigger NaiveTurn(piles[i], events[i])} | 0 <= i < |events| ::
         piles[i + 1] == NaiveTurn(piles[i], events[i])
  }

  /** Insertion sort by due time, the newest of equals first. */
  function Sorted(pile: seq<Alarm>): seq<Alarm>
  {
    if pile == [] then [] else Place(Sorted(pile[1..]), pile[0])
  }

  ghost predicate Ascending(a: seq<Alarm>)
  {
    forall i, j | 0 <= i < j < |a| :: a[i].due <= a[j].due
  }

  /** What the timer sends for an alarm that rings. */
  function Datagrams(alarms: seq<Alarm>): seq<Entry>
  {
    seq(|alarms|, j requires 0 <= j < |alarms| => Entry(alarms[j].due, alarms[j].seqNo, alarms[j].port))
  }

  // ---------------------------------------------------- sorting and the filters

  lemma PlaceAscending(a: seq<Alarm>, x: Alarm)
    requires Ascending(a)
    ensures Ascending(Place(a, x))
  {
    var k := Rank(a, x.due);
    forall i | k <= i < |a|
      ensures x.due <= a[i].due
    {
      assert a[k].due <= a[i].due;
    }
  }

  lemma {:induction false} SortedAscending(pile: seq<Alarm>)
    ensures Ascending(Sorted(pile))
  {
    if pile == [] {
    } else {
      SortedAscending(pile[1..]);
      PlaceAscending(Sorted(pile[1..]), pile[0]);
    }
  }

  lemma SoonerConcat(a: seq<Alarm>, b: seq<Alarm>, d: int)
    ensures Sooner(a + b, d) == Sooner(a, d) + Sooner(b, d)
  {
  }

  lemma PlaceSooner(a: seq<Alarm>, x: Alarm, d: int)
    ensures Sooner(Place(a, x), d) == Place(Sooner(a, d), x.(due := x.due - d))
  {
    var k := Rank(a, x.due);
    var lo, hi := a[..k], a[k..];
    RankUnique(Sooner(a, d), x.due - d, k);
    assert Sooner([x], d) == [x.(due := x.due - d)];
    assert a == lo + hi && |Sooner(lo, d)| == k;
    hide Rank, Sooner;
    SoonerConcat(lo + [x], hi, d);
    SoonerConcat(lo, [x], d);
    SoonerConcat(lo, hi, d);
  }

  lemma NothingSorted(d: int)
    ensures Sorted([]) == Sooner([], d) == []
  {
  }

  lemma SortedCons(x: Alarm, pile: seq<Alarm>)
    ensures Sorted([x] + pile) == Place(Sorted(pile), x)
  {
    assert ([x] + pile)[1..] == pile;
  }

  lemma {:induction false} SortedSooner(pile: seq<Alarm>, d: int)
    ensures Sorted(Sooner(pile, d)) == Sooner(Sorted(pile), d)
  {
    hide Sorted, Place;
    if pile == [] {
      NothingSorted(d);
    } else {
      var x, rest := pile[0], pile[1..];
      SortedSooner(rest, d);
      PlaceSooner(Sorted(rest), x, d);
      SortedCons(x, rest);
      SortedCons(x.(due := x.due - d), Sooner(rest, d));
      assert pile == [x] + rest && Sooner(pile, d) == [x.(due := x.due - d)] + Sooner(rest, d);
    }
  }

  lemma FilterNothing()
    ensures Ringing([]) == Waiting([]) == []
  {
  }

  lemma FilterCons(x: Alarm, pile: seq<Alarm>)
    ensures Ringing([x] + pile) == (if x.due == 0 then [x] else []) + Ringing(pile)
    ensures Waiting([x] + pile) == (if x.due != 0 then [x] else []) + Waiting(pile)
  {
    assert ([x] + pile)[1..] == pile;
  }

  lemma {:induction false} RingingConcat(a: seq<Alarm>, b: seq<Alarm>)
    ensures Ringing(a + b) == Ringing(a) + Ringing(b)
  {
    hide Ringing, Waiting;
    if a == [] {
      FilterNothing();
      assert a + b == b;
    } else {
      RingingConcat(a[1..], b);
      FilterCons(a[0], a[1..]);
      FilterCons(a[0], a[1..] + b);
      assert a == [a[0]] + a[1..] && a + b == [a[0]] + (a[1..] + b);
    }
  }

  lemma {:induction false} WaitingConcat(a: seq<Alarm>, b: seq<Alarm>)
    ensures Waiting(a + b) == Waiting(a) + Waiting(b)
  {
    hide Ringing, Waiting;
    if a == [] {
      FilterNothing();
      assert a + b == b;
    } else {
      WaitingConcat(a[1..], b);
      FilterCons(a[0], a[1..]);
      FilterCons(a[0], a[1..] + b);
      assert a == [a[0]] + a[1..] && a + b == [a[0]] + (a[1..] + b);
    }
  }

  lemma FilterConcat(a: seq<Alarm>, b: seq<Alarm>)
    ensures Ringing(a + b) == Ringing(a) + Ringing(b)
    ensures Waiting(a + b) == Waiting(a) + Waiting(b)
  {
    RingingConcat(a, b);
    WaitingConcat(a, b);
  }

  lemma {:induction false} FilterNone(a: seq<Alarm>)
    requires forall i | 0 <= i < |a| :: a[i].due != 0
    ensures Ringing(a) == [] && Waiting(a) == a
  {
    if a == [] {
    } else {
      FilterNone(a[1..]);
    }
  }

  lemma {:induction false} FilterAll(a: seq<Alarm>)
    requires forall i | 0 <= i < |a| :: a[i].due == 0
    ensures Ringing(a) == a && Waiting(a) == []
  {
    if a == [] {
    } else {
      FilterAll(a[1..]);
    }
  }

  lemma {:induction false} WaitingElements(a: seq<Alarm>)
    ensures forall x | x in Waiting(a) :: x in a
  {
    if a == [] {
    } else {
      WaitingElements(a[1..]);
    }
  }

  lemma FilterOne(x: Alarm)
    ensures Ringing([x]) == if x.due == 0 then [x] else []
    ensures Waiting([x]) == if x.due == 0 then [] else [x]
  {
  }

  lemma FilterAround(lo: seq<Alarm>, x: Alarm, hi: seq<Alarm>)
    ensures Ringing(lo + [x] + hi) == Ringing(lo) + (if x.due == 0 then [x] else []) + Ringing(hi)
    ensures Waiting(lo + [x] + hi) == Waiting(lo) + (if x.due == 0 then [] else [x]) + Waiting(hi)
  {
    hide Ringing, Waiting;
    FilterOne(x);
    FilterConcat(lo, [x]);
    FilterConcat(lo + [x], hi);
  }

  lemma RankBetween(lo: seq<Alarm>, hi: seq<Alarm>, due: int)
    requires forall y | y in lo :: y.due < due
    requires forall y | y in hi :: due <= y.due
    ensures Rank(Waiting(lo) + Waiting(hi), due) == |Waiting(lo)|
  {
    WaitingElements(lo);
    WaitingElements(hi);
    var l, h := Waiting(lo), Waiting(hi);
    hide Waiting;
    assert forall i | 0 <= i < |l| :: l[i] in lo;
    assert h != [] ==> h[0] in hi;
    RankUnique(l + h, due, |l|);
  }

  lemma RankSplits(a: seq<Alarm>, due: int)
    requires Ascending(a)
    ensures var k := Rank(a, due);
            (forall y | y in a[..k] :: y.due < due) && (forall y | y in a[k..] :: due <= y.due)
  {
    var k := Rank(a, due);
    assert forall i | k <= i < |a| :: a[k].due <= a[i].due;
  }

  lemma PlaceFilters(a: seq<Alarm>, x: Alarm)
    requires Ascending(a)
    ensures Ringing(Place(a, x)) == (if x.due == 0 then [x] else []) + Ringing(a)
    ensures Waiting(Place(a, x)) == if x.due == 0 then Waiting(a) else Place(Waiting(a), x)
  {
    hide Ringing, Waiting, Ascending, Rank;
    var k := Rank(a, x.due);
    var lo, hi := a[..k], a[k..];
    RankSplits(a, x.due);
    assert a == lo + hi;
    FilterConcat(lo, hi);
    FilterAround(lo, x, hi);
    if x.due == 0 {
      FilterNone(lo);
    } else {
      RankBetween(lo, hi, x.due);
    }
  }

  /** Sorting commutes with taking the due timers out. */
  lemma {:induction false} SortedFilters(pile: seq<Alarm>)
    ensures Ringing(Sorted(pile)) == Ringing(pile)
    ensures Waiting(Sorted(pile)) == Sorted(Waiting(pile))
  {
    if pile == [] {
    } else {
      hide Ascending, Place;
      SortedFilters(pile[1..]);
      SortedAscending(pile[1..]);
      PlaceFilters(Sorted(pile[1..]), pile[0]);
      var w := Waiting(pile);
      if pile[0].due != 0 {
        assert w[0] == pile[0] && w[1..] == Waiting(pile[1..]);
        assert Sorted(w) == Place(Sorted(w[1..]), w[0]);
      } else {
        assert w == Waiting(pile[1..]);
      }
    }
  }

  lemma FilterSplit(lo: seq<Alarm>, hi: seq<Alarm>)
    requires forall i | 0 <= i < |lo| :: lo[i].due == 0
    requires forall i | 0 <= i < |hi| :: hi[i].due != 0
    ensures Ringing(lo + hi) == lo && Waiting(lo + hi) == hi
  {
    hide Ringing, Waiting;
    FilterAll(lo);
    FilterNone(hi);
    FilterConcat(lo, hi);
  }

  /** In an ascending list with nothing overdue, the due timers are the leading ones. */
  lemma NonzeroAfter(a: seq<Alarm>, z: nat, i: nat)
    requires Ascending(a) && z <= i < |a| && a[0].due >= 0 && a[z].due != 0
    ensures a[i].due != 0
  {
    assert a[0].due <= a[z].due <= a[i].due;
  }

  lemma LeadingZeros(a: seq<Alarm>, z: nat)
    requires Ascending(a) && z <= |a| && (a != [] ==> a[0].due >= 0)
    requires forall i | 0 <= i < z :: a[i].due == 0
    requires z < |a| ==> a[z].due != 0
    ensures Ringing(a) == a[..z] && Waiting(a) == a[z..]
  {
    hide Ringing, Waiting, Ascending;
    var lo, hi := a[..z], a[z..];
    assert lo + hi == a;
    assert forall i | 0 <= i < z :: lo[i].due == 0;
    forall i | 0 <= i < |hi|
      ensures hi[i].due != 0
    {
      NonzeroAfter(a, z, z + i);
    }
    FilterSplit(lo, hi);
  }

  // --------------------------------------------------------------- refinement

  lemma TurnRefines(list: seq<Entry>, pile: seq<Alarm>, ev: Event)
    requires Alarms(list) == Sorted(pile) && Ordered(list) && Headed(list)
    requires !IsCancel(ev) && (IsStart(ev) ==> ev.msg.time >= 1)
    ensures Sent(list, ev) == Datagrams(Rung(pile, ev))
    ensures Alarms(Turn(list, ev)) == Sorted(NaiveTurn(pile, ev))
  {
    var d := Deliver(list, ev);
    var p := Pile(pile, ev);
    assert Alarms(d) == Sorted(p) by {
      if IsStart(ev) {
        InsertAlarms(list, Entry(ev.msg.time, ev.msg.seqNo, ev.msg.port));
        assert p[1..] == pile;
      }
    }
    TickRefines(d, p);
    DeliverKeepsHead(list, ev);
  }

  lemma DeliverKeepsHead(list: seq<Entry>, ev: Event)
    requires Ordered(list) && Headed(list)
    requires !IsCancel(ev) && (IsStart(ev) ==> ev.msg.time >= 1)
    ensures Headed(Deliver(list, ev))
  {
    if IsStart(ev) && list != [] {
      assert PrefixSum(list, 1) == PrefixSum(list, 0) + list[0].time;
    }
  }

  lemma TickRefines(d: seq<Entry>, p: seq<Alarm>)
    requires Alarms(d) == Sorted(p)
    ensures Headed(d) ==> Fired(d) == Datagrams(Ringing(Sooner(p, 1)))
    ensures Headed(d) ==> Alarms(Tick(d)) == Sorted(Waiting(Sooner(p, 1)))
  {
    if Headed(d) {
      hide Fired, Tick;
      var moved := Sooner(Alarms(d), 1);
      SortedSooner(p, 1);
      SortedFilters(Sooner(p, 1));
      SortedAscending(Sooner(p, 1));
      TickAlarms(d);
      assert d != [] ==> PrefixSum(d, 1) == PrefixSum(d, 0) + d[0].time;
      LeadingZeros(moved, |Fired(d)|);
    }
  }

  /** Refinement: without cancels, and for any start times of at least one, the timer
      sends in every iteration exactly what the naive clock rings, newest first, and
      between iterations it holds the naive clock's timers sorted by due time. */
  lemma {:induction false} DeltaListIsAClock(events: seq<Event>, run: seq<seq<Entry>>, piles: seq<seq<Alarm>>, n: nat)
    requires RunFrom([], events, run) && NaiveRun(events, piles) && n <= |events|
    requires forall ev | ev in events :: !IsCancel(ev) && (IsStart(ev) ==> ev.msg.time >= 1)
    ensures Alarms(run[n]) == Sorted(piles[n]) && Ordered(run[n]) && Headed(run[n])
    ensures n < |events| ==> Sent(run[n], events[n]) == Datagrams(Rung(piles[n], events[n]))
  {
    hide Turn, Sent, NaiveTurn, Rung, Alarms, Sorted;
    if n == 0 {
      NothingStarted();
    } else {
      DeltaListIsAClock(events, run, piles, n - 1);
      TurnRefines(run[n - 1], piles[n - 1], events[n - 1]);
      HeadedUnlessStalled(run[n - 1], events[n - 1]);
      TurnOrdered(run[n - 1], events[n - 1]);
    }
    if n < |events| {
      TurnRefines(run[n], piles[n], events[n]);
    }
  }

  lemma NothingStarted()
    ensures Alarms([]) == Sorted([])
  {
  }
}
