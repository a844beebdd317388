/** The intrusive doubly linked queue behind every run, message and wait queue. Its nodes are supplied by
    the callers and its two ends are sentinels inside the queue itself. */
module SimpleQueue {
  import opened Basics
  import opened Lifecycle
  import opened Protocol

  class Node {
    var thr: Tid
    var next: Node?
    var prev: Node?

    constructor (thr: Tid)
      ensures this.thr == thr
    {
      this.thr, next, prev := thr, null, null;
    }
  }

  /** The two links between neighbours `i` and `i + 1`. */
  ghost predicate Linked(all: seq<Node>, i: nat)
    requires i + 1 < |all|
    reads all[i], all[i + 1]
  {
    all[i].next == all[i + 1] && all[i + 1].prev == all[i]
  }

  ghost predicate Distinct(all: seq<Node>) {
    forall i, j :: 0 <= i < j < |all| ==> all[i] != all[j]
  }

  class Queue {
    const head: Node
    const tail: Node
    ghost var all: seq<Node>        // the sentinels and, between them, the queued nodes

    ghost predicate Valid()
      reads this, all
    {
      && |all| >= 2 && all[0] == head && all[|all| - 1] == tail
      && Distinct(all)
      && head.prev == null && tail.next == null
      && forall i :: 0 <= i < |all| - 1 ==> Linked(all, i)
    }

    /** The queued nodes, oldest first. */
    ghost function Nodes(): seq<Node>
      requires |all| >= 2
      reads this
    {
      all[1..|all| - 1]
    }

    /** The threads of the queued nodes: what the rest of the kernel sees. */
    ghost function Tids(): (q: seq<Tid>)
      requires |all| >= 2
      reads this, all
      ensures |q| == |all| - 2
    {
      seq(|all| - 2, i requires 0 <= i < |all| - 2 reads this, all => all[i + 1].thr)
    }

    constructor ()
      ensures Valid() && Tids() == [] && fresh(all)
    {
      var h := new Node(0);
      var t := new Node(0);
      head, tail := h, t;
      all := [h, t];
      new;
      head.prev, head.next := null, tail;
      tail.prev, tail.next := head, null;
      assert Linked(all, 0);
    }

    /** The new node goes to the tail. */
    method Enqueue(n: Node)
      requires Valid() && n !in all
      modifies this, n, tail, tail.prev
      ensures Valid() && all == old(all)[..|old(all)| - 1] + [n, tail]
      ensures n.thr == old(n.thr) && Tids() == old(Tids()) + [n.thr]
    {
      ghost var k: nat := |all| - 2;
      assert Linked(all, k);
      assert forall i :: 0 <= i <= k ==> all[i] != n && all[i] != tail;
      n.next := tail;
      n.prev := tail.prev;
      tail.prev.next := n;
      tail.prev := n;
      ghost var was := all;
      all := was[..k + 1] + [n, tail];
      forall i | 0 <= i < |all| - 1
        ensures Linked(all, i)
      {
        if i < k {
          assert old(Linked(was, i));
        }
      }
    }

    /** Takes the node after `node` out of the chain. */
    method Unlink(node: Node, ghost i: nat)
      requires Valid() && i + 2 < |all| && all[i] == node
      modifies this, node, all[i + 2]
      ensures Valid() && all == old(all)[..i + 1] + old(all)[i + 2..]
      ensures Tids() == old(Tids())[..i] + old(Tids())[i + 1..]
    {
      ghost var was := all;
      assert Linked(was, i) && Linked(was, i + 1);
      node.next := node.next.next;
      node.next.prev := node;
      all := was[..i + 1] + was[i + 2..];
      forall j | 0 <= j < |all| - 1
        ensures Linked(all, j)
      {
        if j < i {
          assert old(Linked(was, j));
        } else if j > i {
          assert old(Linked(was, j + 1));
        }
      }
    }

    /** The head of the queue, or null when it is empty. */
    method Dequeue() returns (rv: Node?)
      requires Valid()
      modifies this, all
      ensures Valid()
      ensures rv == null <==> old(Tids()) == []
      ensures rv == null ==> all == old(all) && Tids() == old(Tids())
      ensures rv != null ==>
        rv == old(Nodes())[0] && rv !in all && rv.thr == old(Tids())[0] && Tids() == old(Tids())[1..]
    {
      assert Linked(all, 0);
      if head.next == tail {
        return null;
      }
      rv := head.next;
      Unlink(head, 0);
    }

    /** The first node of a thread, wherever it is in the queue. */
    method RemoveTid(tid: Tid) returns (rv: Node?)
      requires Valid()
      modifies this, all
      ensures Valid()
      ensures rv == null <==> tid !in old(Tids())
      ensures rv == null ==> all == old(all) && Tids() == old(Tids())
      ensures rv != null ==>
                var q := old(Tids()); var i := IndexOf(q, tid);
                && i < |q| && rv == old(Nodes())[i] && rv !in all && rv.thr == tid
                && Tids() == q[..i] + q[i + 1..]
    {
      var node := head;
      ghost var i: nat := 0;
      ghost var q := Tids();
      assert Linked(all, 0);
      while node.next != tail
        invariant i < |all| - 1 && all[i] == node && node.next == all[i + 1]
        invariant forall j :: 0 <= j < i ==> q[j] != tid
        decreases |all| - i
      {
        assert Linked(all, i + 1);
        assert q[i] == all[i + 1].thr;
        if node.next.thr == tid {
          rv := node.next;
          FirstIndex(q, tid, i);
          Unlink(node, i);
          return;
        }
        node := node.next;
        i := i + 1;
      }
      LastIndex(i);
      return null;
    }

    lemma LastIndex(i: nat)
      requires Valid() && i < |all| - 1 && all[i + 1] == tail
      ensures i == |all| - 2
    {
    }

    /** Whether a thread is queued. */
    method IsExistTid(tid: Tid) returns (found: bool)
      requires Valid()
      ensures found <==> tid in Tids()
    {
      var node := head;
      ghost var i: nat := 0;
      ghost var q := Tids();
      assert Linked(all, 0);
      while node.next != tail
        invariant i < |all| - 1 && all[i] == node && node.next == all[i + 1]
        invariant forall j :: 0 <= j < i ==> q[j] != tid
        decreases |all| - i
      {
        assert Linked(all, i + 1);
        assert q[i] == all[i + 1].thr;
        if node.next.thr == tid {
          return true;
        }
        node := node.next;
        i := i + 1;
      }
      LastIndex(i);
      return false;
    }

    /** The number of queued nodes. */
    method Size() returns (count: nat)
      requires Valid()
      ensures count == |Tids()|
    {
      count := 0;
      var node := head;
      assert Linked(all, 0);
      while node.next != tail
        invariant count < |all| - 1 && all[count] == node && node.next == all[count + 1]
        decreases |all| - count
      {
        assert Linked(all, count + 1);
        count := count + 1;
        node := node.next;
      }
      LastIndex(count);
    }
  }

  lemma {:induction false} FirstIndex(q: seq<Tid>, tid: Tid, i: nat)
    requires i < |q| && q[i] == tid && forall j :: 0 <= j < i ==> q[j] != tid
    ensures IndexOf(q, tid) == i
  {
    if i > 0 {
      FirstIndex(q[1..], tid, i - 1);
    }
  }
}
