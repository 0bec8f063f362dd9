/** The intrusive doubly linked list of app/dll.c. */
module Dll {
  import opened Options

  /** A dll_node_t, together with the rest of the mpool_node_t (app/mem_pool.c) it is
      the first member of: a pointer to one is a pointer to the other.  The list
      operations never touch `addr` and `inUse`. */
  class Node {
    var prev: Node?
    var next: Node?
    var addr: nat
    var inUse: nat

    constructor (addr: nat)
      ensures this.addr == addr && inUse == 0
    {
      this.addr, inUse := addr, 0;
      prev, next := null, null;
    }
  }

  ghost function Reversed<T>(s: seq<T>): (r: seq<T>)
    ensures |r| == |s| && forall i :: 0 <= i < |s| ==> r[i] == s[|s| - 1 - i]
  {
    if s == [] then [] else Reversed(s[1..]) + [s[0]]
  }

  ghost predicate Distinct<T>(s: seq<T>) {
    forall i, j :: 0 <= i < j < |s| ==> s[i] != s[j]
  }

  lemma InsertedAt<T>(s: seq<T>, at: nat, x: T)
    requires at <= |s|
    ensures var r := s[..at] + [x] + s[at..];
            && |r| == |s| + 1 && r[at] == x
            && (forall i :: 0 <= i < at ==> r[i] == s[i])
            && (forall i :: at < i < |r| ==> r[i] == s[i - 1])
            && (Distinct(s) && x !in s ==> Distinct(r))
  {
  }

  lemma RemovedAt<T>(s: seq<T>, at: nat)
    requires at < |s|
    ensures var r := s[..at] + s[at + 1..];
            && |r| == |s| - 1
            && (forall i :: 0 <= i < at ==> r[i] == s[i])
            && (forall i :: at <= i < |r| ==> r[i] == s[i + 1])
            && (Distinct(s) ==> Distinct(r))
  {
  }

  class List {
    var head: Node?
    var tail: Node?
    var count: nat
    /** The nodes of the list, in order. */
    ghost var nodes: seq<Node>

    ghost predicate Valid()
      reads this, nodes
    {
      && Distinct(nodes)
      && count == |nodes|
      && (nodes == [] ==> head == null && tail == null)
      && (nodes != [] ==>
            && head == nodes[0] && nodes[0].prev == null
            && tail == nodes[|nodes| - 1] && nodes[|nodes| - 1].next == null)
      && (forall i {:trigger nodes[i].prev} :: 1 <= i < |nodes| ==> nodes[i].prev == nodes[i - 1])
      && (forall i {:trigger nodes[i].next} :: 0 <= i < |nodes| - 1 ==> nodes[i].next == nodes[i + 1])
    }

    lemma EachOnce()
      requires Valid()
      ensures Distinct(nodes)
    {
    }

    constructor ()
      ensures Valid() && nodes == []
    {
      head, tail, count := null, null, 0;
      nodes := [];
    }

    method InsertBefore(ref: Node, inserted: Node, ghost at: nat)
      requires Valid() && at < |nodes| && nodes[at] == ref && inserted !in nodes
      modifies this, nodes`prev, nodes`next, inserted`prev, inserted`next
      ensures Valid() && nodes == old(nodes[..at] + [inserted] + nodes[at..])
    {
      ghost var grown := nodes[..at] + [inserted] + nodes[at..];
      InsertedAt(nodes, at, inserted);
      assert ref.prev == null <==> at == 0;
      if ref.prev == null {
        head := inserted;
        ref.prev := inserted;
        inserted.next := ref;
        inserted.prev := null;
      } else {
        ref.prev.next := inserted;
        inserted.prev := ref.prev;
        inserted.next := ref;
        ref.prev := inserted;
      }
      count := count + 1;
      nodes := grown;
    }

    method InsertAfter(ref: Node, inserted: Node, ghost at: nat)
      requires Valid() && at < |nodes| && nodes[at] == ref && inserted !in nodes
      modifies this, nodes`prev, nodes`next, inserted`prev, inserted`next
      ensures Valid() && nodes == old(nodes[..at + 1] + [inserted] + nodes[at + 1..])
    {
      ghost var grown := nodes[..at + 1] + [inserted] + nodes[at + 1..];
      InsertedAt(nodes, at + 1, inserted);
      assert ref.next == null <==> at == |nodes| - 1;
      if ref.next == null {
        tail := inserted;
        ref.next := inserted;
        inserted.next := null;
        inserted.prev := ref;
      } else {
        ref.next.prev := inserted;
        inserted.prev := ref;
        inserted.next := ref.next;
        ref.next := inserted;
      }
      count := count + 1;
      nodes := grown;
    }

    method PushHead(node: Node)
      requires Valid() && node !in nodes
      modifies this, nodes`prev, node`prev, node`next
      ensures Valid() && nodes == [node] + old(nodes)
    {
      if head == null {
        head, tail := node, node;
        node.next, node.prev := null, null;
      } else {
        node.next := head;
        node.prev := null;
        head.prev := node;
        head := node;
      }
      count := count + 1;
      nodes := [node] + nodes;
    }

    method PushTail(node: Node)
      requires Valid() && node !in nodes
      modifies this, nodes`next, node`prev, node`next
      ensures Valid() && nodes == old(nodes) + [node]
    {
      if tail == null {
        head, tail := node, node;
        node.next, node.prev := null, null;
      } else {
        tail.next := node;
        node.prev := tail;
        node.next := null;
        tail := node;
      }
      count := count + 1;
      nodes := nodes + [node];
    }

    method PopHead() returns (node: Node?)
      requires Valid()
      modifies this, nodes`prev
      ensures Valid()
      ensures old(nodes) == [] ==> node == null && nodes == []
      ensures old(nodes) != [] ==> node == old(nodes[0]) && nodes == old(nodes[1..])
    {
      node := head;
      if node != null {
        count := count - 1;
        head := node.next;
        if head == null {
          tail := null;
        } else {
          node.next.prev := null;
        }
        nodes := nodes[1..];
      }
    }

    method PopTail() returns (node: Node?)
      requires Valid()
      modifies this, nodes`next
      ensures Valid()
      ensures old(nodes) == [] ==> node == null && nodes == []
      ensures old(nodes) != [] ==> node == old(nodes[|nodes| - 1]) && nodes == old(nodes[..|nodes| - 1])
    {
      node := tail;
      if node != null {
        count := count - 1;
        tail := node.prev;
        if tail == null {
          head := null;
        } else {
          node.prev.next := null;
        }
        nodes := nodes[..|nodes| - 1];
      }
    }

    method Remove(node: Node, ghost at: nat)
      requires Valid() && at < |nodes| && nodes[at] == node
      modifies this, nodes`prev, nodes`next
      ensures Valid() && nodes == old(nodes[..at] + nodes[at + 1..])
    {
      RemovedAt(nodes, at);
      assert node.prev == null <==> at == 0;
      assert node.next == null <==> at == |nodes| - 1;
      if node.prev == null {
        head := node.next;
      } else {
        node.prev.next := node.next;
      }
      if node.next == null {
        tail := node.prev;
      } else {
        node.next.prev := node.prev;
      }
      count := count - 1;
      nodes := nodes[..at] + nodes[at + 1..];
    }

    /** The first node the callback rejects, or NULL; NULL at once without a callback.  The
        callback may look at the nodes, and at whatever its argument points to. */
    method Traverse<A>(callback: Option<(Node, A) ~> bool>, arg: A) returns (node: Node?, ghost at: nat)
      requires Valid()
      requires callback.Some? ==> forall n :: n in nodes ==> callback.value.requires(n, arg)
      ensures callback.None? ==> node == null
      ensures callback.Some? ==>
                && at <= |nodes| && node == (if at < |nodes| then nodes[at] else null)
                && (forall i :: 0 <= i < at ==> callback.value(nodes[i], arg))
                && (at < |nodes| ==> !callback.value(nodes[at], arg))
    {
      at := 0;
      if callback.None? {
        return null, 0;
      }
      node := head;
      while node != null && callback.value(node, arg)
        invariant at <= |nodes| && node == (if at < |nodes| then nodes[at] else null)
        invariant forall i :: 0 <= i < at ==> callback.value(nodes[i], arg)
        decreases |nodes| - at
      {
        node, at := node.next, at + 1;
      }
    }

    /** The nodes met from `node` by following next, as long as they lie in `within`. */
    static ghost function Ahead(node: Node?, within: set<Node>, steps: nat): seq<Node>
      reads within
      decreases steps
    {
      if node == null || node !in within || steps == 0 then []
      else [node] + Ahead(node.next, within, steps - 1)
    }

    static ghost function Behind(node: Node?, within: set<Node>, steps: nat): seq<Node>
      reads within
      decreases steps
    {
      if node == null || node !in within || steps == 0 then []
      else [node] + Behind(node.prev, within, steps - 1)
    }

    ghost function Members(): set<Node>
      reads this
    {
      set n | n in nodes
    }

    lemma {:induction false} AheadFrom(i: nat, steps: nat)
      requires Valid() && i <= |nodes| && steps >= |nodes| - i
      ensures Ahead(if i == |nodes| then null else nodes[i], Members(), steps) == nodes[i..]
      decreases |nodes| - i
    {
      if i < |nodes| {
        AheadFrom(i + 1, steps - 1);
      }
    }

    lemma {:induction false} BehindFrom(i: nat, steps: nat)
      requires Valid() && i <= |nodes| && steps >= i
      ensures Behind(if i == 0 then null else nodes[i - 1], Members(), steps) == Reversed(nodes[..i])
      decreases i
    {
      if i > 0 {
        BehindFrom(i - 1, steps - 1);
        assert Reversed(nodes[..i]) == [nodes[i - 1]] + Reversed(nodes[..i - 1]);
      }
    }

    /** Walking next from head meets the nodes in order, walking prev from tail meets
        them in reverse, and both walks stop after `count` nodes. */
    lemma WalksAreReversed(steps: nat)
      requires Valid() && steps >= count
      ensures Ahead(head, Members(), steps) == nodes && |nodes| == count
      ensures Behind(tail, Members(), steps) == Reversed(Ahead(head, Members(), steps))
    {
      AheadFrom(0, steps);
      BehindFrom(|nodes|, steps);
      assert nodes[0..] == nodes && nodes[..|nodes|] == nodes;
    }
  }
}
