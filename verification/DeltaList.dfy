/** The delta list of the timer as a value: each entry stores only the time
    beyond its predecessor.  The operations below are the specifications of the
    heap methods in `LinkedLists`; their meaning is given by `Alarms`, which
    reads a list as absolute due times. */
module DeltaList {

  datatype Entry = Entry(time: int, seqNo: int, port: int)

  /** A timer as seen from outside the delta encoding: ticks still to go. */
  datatype Alarm = Alarm(due: int, seqNo: int, port: int)

  // ---------------------------------------------------------------- reading

  function PrefixSum(list: seq<Entry>, k: nat): int
    requires k <= |list|
  {
    if k == 0 then 0 else PrefixSum(list, k - 1) + list[k - 1].time
  }

  function Alarms(list: seq<Entry>): seq<Alarm>
  {
    seq(|list|, j requires 0 <= j < |list| => Alarm(PrefixSum(list, j + 1), list[j].seqNo, list[j].port))
  }

  /** All due times brought forward by d. */
  function Sooner(alarms: seq<Alarm>, d: int): seq<Alarm>
  {
    seq(|alarms|, j requires 0 <= j < |alarms| => alarms[j].(due := alarms[j].due - d))
  }

  /** The first index whose alarm is not due before `due`. */
  function Rank(alarms: seq<Alarm>, due: int): (k: nat)
    ensures k <= |alarms|
    ensures forall i | 0 <= i < k :: alarms[i].due < due
    ensures k < |alarms| ==> due <= alarms[k].due
  {
    if alarms != [] && alarms[0].due < due then 1 + Rank(alarms[1..], due) else 0
  }

  /** Put an alarm behind all earlier ones and in front of equal or later ones. */
  function Place(alarms: seq<Alarm>, a: Alarm): seq<Alarm>
  {
    var k := Rank(alarms, a.due);
    alarms[..k] + [a] + alarms[k..]
  }

  // ------------------------------------------------------------- operations

  /** Where the search of add_node_to_list stops, having passed `from` entries. */
  function Slot(list: seq<Entry>, t: int, from: nat): (k: nat)
    requires from <= |list|
    ensures from <= k <= |list|
    ensures forall i | from < i <= k :: PrefixSum(list, i) < t
    ensures k < |list| ==> t <= PrefixSum(list, k + 1)
    decreases |list| - from
  {
    if from < |list| && PrefixSum(list, from + 1) < t then Slot(list, t, from + 1) else from
  }

  /** Split the delta of the entry at k around a new entry that takes `gap` of it. */
  function SplitAt(list: seq<Entry>, k: nat, e: Entry, gap: int): seq<Entry>
    requires k <= |list|
  {
    list[..k] + [e.(time := gap)] +
    if k < |list| then [list[k].(time := list[k].time - gap)] + list[k + 1..] else []
  }

  function Insert(list: seq<Entry>, e: Entry): seq<Entry>
  {
    var k := Slot(list, e.time, 0);
    SplitAt(list, k, e, e.time - PrefixSum(list, k))
  }

  /** The first index from `from` on that carries s, or the length. */
  function Find(list: seq<Entry>, s: int, from: nat): (i: nat)
    requires from <= |list|
    ensures from <= i <= |list|
    ensures forall j | from <= j < i :: list[j].seqNo != s
    ensures i < |list| ==> list[i].seqNo == s
    decreases |list| - from
  {
    if from < |list| && list[from].seqNo != s then Find(list, s, from + 1) else from
  }

  function RemoveAt<T>(s: seq<T>, i: nat): seq<T>
    requires i < |s|
  {
    s[..i] + s[i + 1..]
  }

  function Cancel(list: seq<Entry>, s: int): seq<Entry>
  {
    var i := Find(list, s, 0);
    if i < |list| then RemoveAt(list, i) else list
  }

  function Decrement(list: seq<Entry>): seq<Entry>
  {
    if list == [] then [] else list[0 := list[0].(time := list[0].time - 1)]
  }

  /** The length of the run of zero entries that starts at `from`. */
  function Zeros(list: seq<Entry>, from: nat): (z: nat)
    requires from <= |list|
    ensures from <= z <= |list|
    ensures forall j | from <= j < z :: list[j].time == 0
    ensures z < |list| ==> list[z].time != 0
    decreases |list| - from
  {
    if from < |list| && list[from].time == 0 then Zeros(list, from + 1) else from
  }

  function Fired(list: seq<Entry>): seq<Entry>
  {
    var d := Decrement(list);
    d[..Zeros(d, 0)]
  }

  function Tick(list: seq<Entry>): seq<Entry>
  {
    var d := Decrement(list);
    d[Zeros(d, 0)..]
  }

  // ---------------------------------------------------- arithmetic of prefixes

  lemma {:induction false} PrefixSumAgrees(a: seq<Entry>, b: seq<Entry>, k: nat)
    requires k <= |a| && k <= |b|
    requires forall i | 0 <= i < k :: a[i].time == b[i].time
    ensures PrefixSum(a, k) == PrefixSum(b, k)
  {
    if k == 0 {
    } else {
      PrefixSumAgrees(a, b, k - 1);
    }
  }

  /** Splitting at k leaves every old prefix sum as it was and adds one for the new entry. */
  lemma {:induction false} PrefixSumSplit(list: seq<Entry>, k: nat, e: Entry, gap: int, j: nat)
    requires k <= |list| && j <= |list| + 1
    ensures PrefixSum(SplitAt(list, k, e, gap), j) ==
            if j <= k then PrefixSum(list, j)
            else if j == k + 1 then PrefixSum(list, k) + gap
            else PrefixSum(list, j - 1)
  {
    if j == 0 {
    } else {
      PrefixSumSplit(list, k, e, gap, j - 1);
    }
  }

  lemma {:induction false} PrefixSumRemove(list: seq<Entry>, i: nat, j: nat)
    requires i < |list| && j < |list|
    ensures PrefixSum(RemoveAt(list, i), j) ==
            if j <= i then PrefixSum(list, j) else PrefixSum(list, j + 1) - list[i].time
  {
    if j == 0 {
    } else {
      PrefixSumRemove(list, i, j - 1);
    }
  }

  lemma {:induction false} PrefixSumDecrement(list: seq<Entry>, j: nat)
    requires j <= |list|
    ensures PrefixSum(Decrement(list), j) == if j == 0 then 0 else PrefixSum(list, j) - 1
  {
    if j == 0 {
    } else {
      PrefixSumDecrement(list, j - 1);
    }
  }

  /** Dropping z entries of zero delta changes no later prefix sum. */
  lemma {:induction false} PrefixSumDropZeros(list: seq<Entry>, z: nat, j: nat)
    requires z <= |list| && j <= |list| - z
    requires forall i | 0 <= i < z :: list[i].time == 0
    ensures PrefixSum(list[z..], j) == PrefixSum(list, z + j)
  {
    if j == 0 && z == 0 {
    } else if j == 0 {
      assert list[z - 1].time == 0;
      PrefixSumDropZeros(list, z - 1, 0);
    } else {
      PrefixSumDropZeros(list, z, j - 1);
    }
  }

  lemma {:induction false} PrefixSumOfZeros(list: seq<Entry>, z: nat)
    requires z <= |list|
    requires forall i | 0 <= i < z :: list[i].time == 0
    ensures PrefixSum(list, z) == 0
  {
    PrefixSumDropZeros(list, z, 0);
  }

  lemma {:induction false} PrefixSumMonotone(list: seq<Entry>, i: nat, j: nat)
    requires i <= j <= |list|
    requires forall m | i <= m < j :: list[m].time >= 0
    ensures PrefixSum(list, i) <= PrefixSum(list, j)
  {
    if i == j {
    } else {
      PrefixSumMonotone(list, i, j - 1);
    }
  }

  // -------------------------------------------------- meaning of the operations

  /** The encoding loses nothing: equal alarms come from equal delta lists. */
  lemma {:induction false} AlarmsInjective(a: seq<Entry>, b: seq<Entry>)
    requires Alarms(a) == Alarms(b)
    ensures a == b
  {
    assert |a| == |Alarms(a)| == |b|;
    forall j | 0 <= j < |a|
      ensures a[j] == b[j]
    {
      assert Alarms(a)[j] == Alarms(b)[j];
      assert PrefixSum(a, j + 1) == PrefixSum(b, j + 1);
      if j > 0 {
        assert Alarms(a)[j - 1] == Alarms(b)[j - 1];
      }
      assert PrefixSum(a, j) == PrefixSum(b, j);
    }
  }

  lemma {:induction false} RankUnique(alarms: seq<Alarm>, due: int, k: nat)
    requires k <= |alarms|
    requires forall i | 0 <= i < k :: alarms[i].due < due
    requires k < |alarms| ==> due <= alarms[k].due
    ensures Rank(alarms, due) == k
  {
    if alarms != [] && alarms[0].due < due {
      RankUnique(alarms[1..], due, k - 1);
    }
  }

  lemma SlotIsRank(list: seq<Entry>, t: int)
    ensures Slot(list, t, 0) == Rank(Alarms(list), t)
  {
    var k := Slot(list, t, 0);
    forall i | 0 <= i < k
      ensures Alarms(list)[i].due < t
    {
      assert PrefixSum(list, i + 1) < t;
    }
    RankUnique(Alarms(list), t, k);
  }

  /** Insertion puts the new timer, due at its own start time, behind the earlier
      alarms and in front of equal ones, and moves no other alarm. */
  lemma InsertAlarms(list: seq<Entry>, e: Entry)
    ensures Alarms(Insert(list, e)) == Place(Alarms(list), Alarm(e.time, e.seqNo, e.port))
  {
    hide Slot, Rank, PrefixSum;
    var k := Slot(list, e.time, 0);
    SlotIsRank(list, e.time);
    var after := Insert(list, e);
    var placed := Place(Alarms(list), Alarm(e.time, e.seqNo, e.port));
    forall j | 0 <= j < |after|
      ensures Alarms(after)[j] == placed[j]
    {
      PrefixSumSplit(list, k, e, e.time - PrefixSum(list, k), j + 1);
      if j > k {
        assert placed[j] == Alarms(list)[j - 1];
      }
    }
  }

  /** Cancelling removes the first alarm with that number, leaves the earlier ones
      alone and brings every later one forward by exactly the removed delta. */
  lemma CancelAlarms(list: seq<Entry>, s: int)
    ensures var i := Find(list, s, 0);
            Alarms(Cancel(list, s)) ==
            if i < |list| then Alarms(list)[..i] + Sooner(Alarms(list)[i + 1..], list[i].time)
            else Alarms(list)
  {
    var i := Find(list, s, 0);
    if i < |list| {
      var after := RemoveAt(list, i);
      var expected := Alarms(list)[..i] + Sooner(Alarms(list)[i + 1..], list[i].time);
      forall j | 0 <= j < |after|
        ensures Alarms(after)[j] == expected[j]
      {
        PrefixSumRemove(list, i, j + 1);
      }
    }
  }

  /** Cancelling would be invisible to the remaining timers if it only removed an
      alarm.  When the number is there, it does so exactly when the removed entry is
      the last one or its delta is zero. */
  lemma CancelKeepsDueTimesIff(list: seq<Entry>, s: int)
    requires Find(list, s, 0) < |list|
    ensures var i := Find(list, s, 0);
            Alarms(Cancel(list, s)) == RemoveAt(Alarms(list), i) <==> i == |list| - 1 || list[i].time == 0
  {
    var i := Find(list, s, 0);
    CancelAlarms(list, s);
    var later := Alarms(list)[i + 1..];
    var kept := RemoveAt(Alarms(list), i);
    if i < |list| - 1 {
      assert Alarms(Cancel(list, s))[i] == Sooner(later, list[i].time)[0];
      assert kept[i] == later[0];
    }
    if list[i].time == 0 {
      assert Sooner(later, 0) == later;
    }
  }

  /** One tick brings every alarm forward by one, and exactly the leading alarms that
      are then due are fired, in list order. */
  lemma TickAlarms(list: seq<Entry>)
    ensures var z := |Fired(list)|; var moved := Sooner(Alarms(list), 1);
            && z <= |list|
            && Alarms(Tick(list)) == moved[z..]
            && (forall j | 0 <= j < z :: moved[j].due == 0 && Fired(list)[j] == Entry(0, moved[j].seqNo, moved[j].port))
            && (z < |list| ==> moved[z].due != 0)
  {
    if list != [] {
      var d := Decrement(list);
      var z := Zeros(d, 0);
      var moved := Sooner(Alarms(list), 1);
      forall j | 0 <= j < |list| - z
        ensures Alarms(Tick(list))[j] == moved[z + j]
      {
        PrefixSumDropZeros(d, z, j + 1);
        PrefixSumDecrement(list, z + j + 1);
      }
      forall j | 0 <= j < z
        ensures moved[j].due == 0 && Fired(list)[j] == Entry(0, moved[j].seqNo, moved[j].port)
      {
        PrefixSumOfZeros(d, j + 1);
        PrefixSumDecrement(list, j + 1);
      }
      if z < |list| {
        PrefixSumOfZeros(d, z);
        PrefixSumDecrement(list, z + 1);
      }
    }
  }

  // ----------------------------------------------- which numbers a list holds

  function SeqNos(list: seq<Entry>): seq<int>
  {
    seq(|list|, j requires 0 <= j < |list| => list[j].seqNo)
  }

  lemma MultisetInsertAt<T>(s: seq<T>, k: nat, x: T)
    requires k <= |s|
    ensures multiset(s[..k] + [x] + s[k..]) == multiset(s) + multiset{x}
  {
    assert s == s[..k] + s[k..];
  }

  lemma MultisetRemoveAt<T>(s: seq<T>, i: nat)
    requires i < |s|
    ensures multiset(RemoveAt(s, i)) == multiset(s) - multiset{s[i]}
  {
    assert s == s[..i] + [s[i]] + s[i + 1..];
  }

  lemma InsertSeqNos(list: seq<Entry>, e: Entry)
    ensures multiset(SeqNos(Insert(list, e))) == multiset(SeqNos(list)) + multiset{e.seqNo}
  {
    var k := Slot(list, e.time, 0);
    assert SeqNos(Insert(list, e)) == SeqNos(list)[..k] + [e.seqNo] + SeqNos(list)[k..];
    MultisetInsertAt(SeqNos(list), k, e.seqNo);
  }

  /** Cancelling takes away one occurrence of the number if there is one. */
  lemma CancelSeqNos(list: seq<Entry>, s: int)
    ensures multiset(SeqNos(Cancel(list, s))) == multiset(SeqNos(list)) - multiset{s}
  {
    var i := Find(list, s, 0);
    if i < |list| {
      assert SeqNos(RemoveAt(list, i)) == RemoveAt(SeqNos(list), i);
      MultisetRemoveAt(SeqNos(list), i);
    } else {
      assert s !in SeqNos(list);
    }
  }

  /** A tick loses no timer: every number is still in the list or was fired. */
  lemma TickSeqNos(list: seq<Entry>)
    ensures multiset(SeqNos(Tick(list))) + multiset(SeqNos(Fired(list))) == multiset(SeqNos(list))
  {
    assert SeqNos(list) == SeqNos(Fired(list)) + SeqNos(Tick(list));
  }
}
