/** The timer's doubly linked delta list on the heap.  Every method is proved against
    its counterpart on values in `DeltaList`. */
module LinkedLists {
  import opened DeltaList

  class Node {
    var time: int
    var port: int
    var seqNo: int
    var next: Node?
    var prev: Node?

    /** A zeroed allocation that is then given its three numbers. */
    constructor (time: int, port: int, seqNo: int)
      ensures this.time == time && this.port == port && this.seqNo == seqNo
      ensures next == null && prev == null
    {
      this.time, this.port, this.seqNo := time, port, seqNo;
      next, prev := null, null;
    }

    function Value(): Entry
      reads this
    {
      Entry(time, seqNo, port)
    }
  }

  class LinkedList {
    var head: Node?
    var tail: Node?
    var len: int
    ghost var nodes: seq<Node>      // the nodes reachable from head, in order
    ghost var contents: seq<Entry>  // their values

    /** The node at position i, null on either side of the list. */
    static ghost function At(nodes: seq<Node>, i: int): Node?
    {
      if 0 <= i < |nodes| then nodes[i] else null
    }

    /** `next` and `prev` are each other's inverse along the sequence. */
    static ghost predicate Linked(nodes: seq<Node>)
      reads nodes
    {
      && (forall i {:trigger nodes[i].next} | 0 <= i < |nodes| :: nodes[i].next == At(nodes, i + 1))
      && (forall i {:trigger nodes[i].prev} | 0 <= i < |nodes| :: nodes[i].prev == At(nodes, i - 1))
    }

    static ghost predicate Shows(nodes: seq<Node>, contents: seq<Entry>)
      reads nodes
    {
      && |contents| == |nodes|
      && (forall i {:trigger contents[i]} | 0 <= i < |nodes| :: contents[i] == nodes[i].Value())
    }

    static ghost predicate Distinct(nodes: seq<Node>)
    {
      forall i, j | 0 <= i < j < |nodes| :: nodes[i] != nodes[j]
    }

    static lemma DistinctAround(was: seq<Node>, k: nat, b: Node)
      requires Distinct(was) && b !in was && k <= |was|
      ensures Distinct(was[..k] + [b] + was[k..])
    {
    }

    static lemma ShowsAround(was: seq<Node>, contents: seq<Entry>, k: nat, b: Node, e: Entry, gap: int)
      requires k < |was| == |contents|
      requires forall i {:trigger contents[i]} | 0 <= i < |was| && i != k :: contents[i] == was[i].Value()
      requires was[k].Value() == contents[k].(time := contents[k].time - gap)
      requires b.Value() == e.(time := gap)
      ensures Shows(was[..k] + [b] + was[k..], SplitAt(contents, k, e, gap))
    {
      var now := was[..k] + [b] + was[k..];
      var shown := SplitAt(contents, k, e, gap);
      forall i | 0 <= i < |now|
        ensures shown[i] == now[i].Value()
      {
        if i > k + 1 {
          assert shown[i] == contents[i - 1];
        }
      }
    }

    static lemma LinkedAround(was: seq<Node>, k: nat, b: Node)
      requires k < |was|
      requires forall i {:trigger was[i].next} | 0 <= i < |was| ::
                 was[i].next == if i == k - 1 then b else At(was, i + 1)
      requires forall i {:trigger was[i].prev} | 0 <= i < |was| ::
                 was[i].prev == if i == k then b else At(was, i - 1)
      requires b.next == was[k] && b.prev == At(was, k - 1)
      ensures Linked(was[..k] + [b] + was[k..])
    {
      var now := was[..k] + [b] + was[k..];
      forall i | 0 <= i < |now|
        ensures now[i].next == At(now, i + 1) && now[i].prev == At(now, i - 1)
      {
        assert now[i] == if i < k then was[i] else if i == k then b else was[i - 1];
      }
    }

    static lemma ShowsWithout(was: seq<Node>, contents: seq<Entry>, k: nat)
      requires k < |was| && Shows(was, contents)
      ensures Shows(RemoveAt(was, k), RemoveAt(contents, k))
    {
    }

    static lemma DistinctWithout(was: seq<Node>, k: nat)
      requires k < |was| && Distinct(was)
      ensures Distinct(RemoveAt(was, k))
    {
    }

    static lemma LinkedWithout(was: seq<Node>, k: nat)
      requires 0 < k < |was|
      requires forall i {:trigger was[i].next} | 0 <= i < |was| && i != k ::
                 was[i].next == if i == k - 1 then At(was, k + 1) else At(was, i + 1)
      requires forall i {:trigger was[i].prev} | 0 <= i < |was| && i != k ::
                 was[i].prev == if i == k + 1 then was[k - 1] else At(was, i - 1)
      ensures Linked(RemoveAt(was, k))
    {
      var now := RemoveAt(was, k);
      forall i | 0 <= i < |now|
        ensures now[i].next == At(now, i + 1) && now[i].prev == At(now, i - 1)
      {
        assert now[i] == if i < k then was[i] else was[i + 1];
      }
    }

    /** Acyclic, doubly linked, of the recorded length.  `tail` is not constrained:
        removing the last node leaves it stale, and no decision reads it. */
    ghost predicate Valid()
      reads this, nodes
    {
      && len == |nodes|
      && Distinct(nodes)
      && head == At(nodes, 0)
      && Linked(nodes)
      && Shows(nodes, contents)
    }

    ghost function Footprint(): set<Node>
      reads this
    {
      set n | n in nodes
    }

    constructor ()
      ensures Valid() && nodes == [] && contents == []
    {
      head, tail, len := null, null, 0;
      nodes, contents := [], [];
    }

    /** add_node_to_list */
    method AddNode(b: Node)
      requires Valid() && b !in nodes && b.next == null && b.prev == null
      modifies this, Footprint(), b
      ensures Valid()
      ensures contents == Insert(old(contents), old(b.Value()))
      ensures var k := Slot(old(contents), old(b.time), 0);
              nodes == old(nodes)[..k] + [b] + old(nodes)[k..]
      ensures Footprint() <= old(Footprint()) + {b}
    {
      ghost var was := contents;
      var val := b.time;
      if len == 0 {
        head := b;
        tail := b;
        len := len + 1;
        nodes, contents := [b], [b.Value()];
        return;
      }
      var h: Node := head;
      var p: Node? := null;
      ghost var k := 0;
      hide LinkedList.Distinct;
      while h.next != null && val > h.time
        invariant 0 <= k < |nodes| && h == nodes[k]
        invariant p == At(nodes, k - 1)
        invariant val == b.time - PrefixSum(was, k)
        invariant Slot(was, b.time, k) == Slot(was, b.time, 0)
        decreases |nodes| - k
      {
        assert was[k].time == h.time;
        p := h;
        val := val - h.time;
        h := h.next;
        k := k + 1;
      }
      assert was[k].time == h.time;
      if val > h.time {
        assert Slot(was, b.time, k) == Slot(was, b.time, k + 1) == |was|;
        LinkLast(h, b, val);
      } else {
        LinkBefore(p, h, b, val, k);
      }
    }

    /** The case of add_node_to_list that passed every node. */
    method LinkLast(h: Node, b: Node, val: int)
      requires Valid() && nodes != [] && b !in nodes && b.next == null
      requires h == nodes[|nodes| - 1]
      modifies this, h, b
      ensures Valid() && nodes == old(nodes) + [b]
      ensures contents == SplitAt(old(contents), |old(nodes)|, old(b.Value()), val - old(h.time))
    {
      b.time := val - h.time;
      b.prev := h;
      h.next := b;
      tail := b;
      len := len + 1;
      nodes, contents := nodes + [b], SplitAt(contents, |contents|, b.Value(), b.time);
    }

    /** The case of add_node_to_list that stopped at node k. */
    method LinkBefore(p: Node?, h: Node, b: Node, val: int, ghost k: nat)
      requires Valid() && k < |nodes| && b !in nodes
      requires h == nodes[k] && p == At(nodes, k - 1)
      modifies this, h, b, if p != null then {p} else {}
      ensures Valid() && nodes == old(nodes)[..k] + [b] + old(nodes)[k..]
      ensures contents == SplitAt(old(contents), k, old(b.Value()), val)
    {
      ghost var e := b.Value();
      b.time := val;
      h.time := h.time - val;
      b.next := h;
      b.prev := h.prev;
      if p != null {
        p.next := b;
      } else {
        head := b;
      }
      h.prev := b;
      len := len + 1;
      LinkedAround(nodes, k, b);
      ShowsAround(nodes, contents, k, b, e, val);
      DistinctAround(nodes, k, b);
      nodes, contents := nodes[..k] + [b] + nodes[k..], SplitAt(contents, k, e, val);
    }

    /** delete_node: unlink the head. */
    method DeleteNode()
      requires Valid()
      modifies this, Footprint()
      ensures Valid()
      ensures nodes == if old(nodes) == [] then [] else old(nodes)[1..]
      ensures Footprint() <= old(Footprint())
      ensures contents == if old(contents) == [] then [] else old(contents)[1..]
    {
      if len == 0 {
        return;
      }
      if len == 1 {
        head, tail, len := null, null, 0;
        nodes, contents := [], [];
        return;
      }
      var a: Node := head;
      head := a.next;
      head.prev := null;
      len := len - 1;
      nodes, contents := nodes[1..], contents[1..];
    }

    /** check_and_update_head_value: one tick.  The datagrams it sends are returned. */
    /** The next entry to fire, if there is one. */
    static lemma FiredStep(d: seq<Entry>, i: nat)
      requires i <= Zeros(d, 0)
      ensures i < Zeros(d, 0) <==> d[i..] != [] && d[i..][0].time == 0
      ensures i < Zeros(d, 0) ==> d[..i] + [d[i..][0]] == d[..i + 1] && d[i..][1..] == d[i + 1..]
    {
    }

    lemma HeadShown()
      requires Valid()
      ensures (head == null <==> contents == []) && (head != null ==> head in nodes && contents[0] == head.Value())
    {
    }

    /** The head's time is the head delta. */
    method LowerHead()
      requires Valid() && head != null
      modifies this`contents, head`time
      ensures Valid() && contents == Decrement(old(contents))
    {
      head.time := head.time - 1;
      contents := Decrement(contents);
    }

    method CheckAndUpdateHead() returns (sent: seq<Entry>)
      requires Valid()
      modifies this, Footprint()
      ensures Valid()
      ensures contents == Tick(old(contents)) && sent == Fired(old(contents))
      ensures Footprint() <= old(Footprint())
    {
      sent := [];
      HeadShown();
      if head == null {
        return;
      }
      hide LinkedList.Linked, LinkedList.Distinct, LinkedList.Shows;
      LowerHead();
      ghost var d := contents;
      ghost var z := Zeros(d, 0);
      FiredStep(d, 0);
      hide Zeros, Decrement;
      while head != null && head.time == 0
        invariant Valid()
        invariant |sent| <= z <= |d| && sent == d[..|sent|]
        invariant contents == d[|sent|..] && Footprint() <= old(Footprint())
        decreases z - |sent|
      {
        HeadShown();
        FiredStep(d, |sent|);
        sent := sent + [Entry(head.time, head.seqNo, head.port)];
        DeleteNode();
      }
      HeadShown();
      FiredStep(d, |sent|);
    }

    /** delete_node_of_seq_no */
    method DeleteNodeOfSeqNo(seqNo: int)
      requires Valid()
      modifies this, Footprint()
      ensures Valid()
      ensures contents == Cancel(old(contents), seqNo)
      ensures var i := Find(old(contents), seqNo, 0);
              nodes == if i < |old(nodes)| then RemoveAt(old(nodes), i) else old(nodes)
      ensures Footprint() <= old(Footprint())
    {
      ghost var was := contents;
      if len == 0 || head == null {
        return;
      }
      var h: Node := head;
      if h.seqNo == seqNo {
        DeleteNode();
        return;
      }
      var p := h;
      ghost var i := 0;
      while h.next != null && h.seqNo != seqNo
        invariant 0 <= i < |nodes| && h == nodes[i]
        invariant i == 0 ==> h.seqNo != seqNo
        invariant i > 0 ==> p == nodes[i - 1]
        invariant Find(was, seqNo, 0) == Find(was, seqNo, i)
        decreases |nodes| - i
      {
        assert was[i] == h.Value();
        p := h;
        h := h.next;
        i := i + 1;
      }
      assert was[i] == h.Value();
      if h.seqNo == seqNo {
        Unlink(p, h, i);
      }
    }

    /** The two unlinking cases of delete_node_of_seq_no: inside the list, and at its end,
        where `tail` is not updated. */
    method Unlink(p: Node, h: Node, ghost i: nat)
      requires Valid() && 0 < i < |nodes| && h == nodes[i] && p == nodes[i - 1]
      modifies this, p, if h.next != null then {h.next} else {}
      ensures Valid() && nodes == RemoveAt(old(nodes), i)
      ensures contents == RemoveAt(old(contents), i)
    {
      if h.next != null {
        p.next := h.next;
        h.next.prev := p;
      } else {
        p.next := null;
      }
      len := len - 1;
      LinkedWithout(nodes, i);
      ShowsWithout(nodes, contents, i);
      DistinctWithout(nodes, i);
      hide LinkedList.Linked, LinkedList.Shows, LinkedList.Distinct;
      nodes, contents := RemoveAt(nodes, i), RemoveAt(contents, i);
    }
  }
}
