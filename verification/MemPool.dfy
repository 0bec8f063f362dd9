/** The fixed-size buffer pool of app/mem_pool.c. */
module MemPool {
  import opened Dll

  const NULL: nat := 0
  const MAX_MEMORY_POOL_NUM: nat := 36
  const MAX_MEMORY_POOL_SIZE: nat := 1024 * 1024 * 10

  // What a pool is to its users: the addresses it owns and those that are free, in
  // the order in which they will be handed out.

  datatype Pool = Pool(buffers: set<nat>, free: seq<nat>) {
    ghost predicate Valid() {
      && NULL !in buffers
      && Distinct(free)
      && forall i :: 0 <= i < |free| ==> free[i] in buffers
    }

    function FreeSet(): set<nat> { set i | 0 <= i < |free| :: free[i] }

    /** The buffers handed out and not given back. */
    function Used(): set<nat> { buffers - FreeSet() }

    /** mpool_alloc: the longest free buffer, or NULL. */
    function Alloc(): (r: (nat, Pool))
    {
      if free == [] then (NULL, this) else (free[0], this.(free := free[1..]))
    }

    /** mpool_free: only an outstanding buffer is taken back. */
    function Release(buf: nat): (r: (int, Pool))
    {
      if buf in Used() then (0, this.(free := free + [buf])) else (-1, this)
    }
  }

  lemma AllocKeeps(p: Pool)
    requires p.Valid()
    ensures var (buf, q) := p.Alloc();
            && q.Valid() && q.buffers == p.buffers
            && (buf == NULL <==> p.Used() == p.buffers)
            && (buf != NULL ==> buf in p.buffers && buf !in p.Used() && q.Used() == p.Used() + {buf})
            && (buf == NULL ==> q == p)
  {
  }

  lemma ReleaseKeeps(p: Pool, buf: nat)
    requires p.Valid()
    ensures var (r, q) := p.Release(buf);
            && q.Valid() && q.buffers == p.buffers
            && (r == 0 <==> buf in p.Used())
            && (r == 0 ==> q.Used() == p.Used() - {buf})
            && (r != 0 ==> r == -1 && q == p)
  {
    var (r, q) := p.Release(buf);
    if r == 0 {
      assert forall i :: 0 <= i < |p.free| ==> q.free[i] == p.free[i];
      forall b ensures b in q.FreeSet() <==> b in p.FreeSet() || b == buf {
        if b in p.FreeSet() {
          var i :| 0 <= i < |p.free| && p.free[i] == b;
          assert q.free[i] == b;
        }
        assert q.free[|p.free|] == buf;
      }
    }
  }

  /** Free plus used is all. */
  lemma {:induction false} FreeAndUsed(p: Pool)
    requires p.Valid()
    ensures |p.free| + |p.Used()| == |p.buffers|
    decreases |p.free|
  {
    if p.free == [] {
      assert p.FreeSet() == {};
      assert p.Used() == p.buffers;
    } else {
      AllocKeeps(p);
      var (buf, q) := p.Alloc();
      FreeAndUsed(q);
    }
  }

  // Runs of pool operations.

  datatype Op = AllocOp | ReleaseOp(buf: nat)

  function Perform(p: Pool, op: Op): Pool {
    match op
    case AllocOp => p.Alloc().1
    case ReleaseOp(buf) => p.Release(buf).1
  }

  predicate HandsOut(p: Pool, op: Op, b: nat) { op == AllocOp && p.Alloc().0 == b }

  predicate TakesBack(p: Pool, op: Op, b: nat) { op == ReleaseOp(b) && p.Release(b).0 == 0 }

  lemma PerformKeeps(p: Pool, op: Op, b: nat)
    requires p.Valid() && b in p.buffers
    ensures Perform(p, op).Valid() && Perform(p, op).buffers == p.buffers
    ensures HandsOut(p, op, b) ==> b !in p.Used() && b in Perform(p, op).Used()
    ensures TakesBack(p, op, b) ==> b in p.Used() && b !in Perform(p, op).Used()
    ensures !HandsOut(p, op, b) && !TakesBack(p, op, b) ==> (b in p.Used() <==> b in Perform(p, op).Used())
  {
    hide Pool.Valid, Pool.Used;
    match op {
      case AllocOp => AllocKeeps(p);
      case ReleaseOp(buf) => ReleaseKeeps(p, buf);
    }
    assert NULL !in p.buffers by { NeverNull(p); }
  }

  lemma NeverNull(p: Pool)
    requires p.Valid()
    ensures NULL !in p.buffers
  {
  }

  /** The state after `ops`. */
  function After(p: Pool, ops: seq<Op>): Pool
    decreases |ops|
  {
    if ops == [] then p else Perform(After(p, ops[..|ops| - 1]), ops[|ops| - 1])
  }

  /** How many times `ops` handed `b` out, and took it back. */
  function Handed(p: Pool, ops: seq<Op>, b: nat): nat
    decreases |ops|
  {
    if ops == [] then 0
    else
      var before := ops[..|ops| - 1];
      Handed(p, before, b) + if HandsOut(After(p, before), ops[|ops| - 1], b) then 1 else 0
  }

  function Returned(p: Pool, ops: seq<Op>, b: nat): nat
    decreases |ops|
  {
    if ops == [] then 0
    else
      var before := ops[..|ops| - 1];
      Returned(p, before, b) + if TakesBack(After(p, before), ops[|ops| - 1], b) then 1 else 0
  }

  /** After any operations on a fresh pool, a buffer has been handed out once more
      than it was taken back if it is outstanding, and equally often otherwise: no
      buffer is handed out twice, and no buffer is taken back twice. */
  lemma {:induction false} HandedOutOnce(p: Pool, ops: seq<Op>, b: nat)
    requires p.Valid() && p.Used() == {} && b in p.buffers
    ensures After(p, ops).Valid() && After(p, ops).buffers == p.buffers
    ensures Handed(p, ops, b) == Returned(p, ops, b) + if b in After(p, ops).Used() then 1 else 0
    ensures |After(p, ops).free| + |After(p, ops).Used()| == |p.buffers|
    decreases |ops|
  {
    hide Pool.Valid, Pool.Used, Perform, HandsOut, TakesBack;
    if ops != [] {
      var before := ops[..|ops| - 1];
      HandedOutOnce(p, before, b);
      PerformKeeps(After(p, before), ops[|ops| - 1], b);
    }
    FreeAndUsed(After(p, ops));
  }

  /** What `ops` handed out, and took back, in order. */
  function HandedOut(p: Pool, ops: seq<Op>): seq<nat>
    decreases |ops|
  {
    if ops == [] then []
    else
      var before, q := ops[..|ops| - 1], After(p, ops[..|ops| - 1]);
      HandedOut(p, before) + if ops[|ops| - 1].AllocOp? && q.Alloc().0 != NULL then [q.Alloc().0] else []
  }

  function TakenBack(p: Pool, ops: seq<Op>): seq<nat>
    decreases |ops|
  {
    if ops == [] then []
    else
      var before, op := ops[..|ops| - 1], ops[|ops| - 1];
      TakenBack(p, before) + if op.ReleaseOp? && After(p, before).Release(op.buf).0 == 0 then [op.buf] else []
  }

  lemma PerformInOrder(q: Pool, op: Op, was: seq<nat>, back: seq<nat>, out: seq<nat>)
    requires q.Valid() && was + back == out + q.free
    ensures was + (back + if op.ReleaseOp? && q.Release(op.buf).0 == 0 then [op.buf] else [])
            == (out + if op.AllocOp? && q.Alloc().0 != NULL then [q.Alloc().0] else []) + Perform(q, op).free
    ensures Perform(q, op).Valid()
  {
    assert back + [] == back && out + [] == out;
    match op
    case AllocOp =>
      AllocKeeps(q);
      if q.free != [] {
        assert out + q.free == (out + [q.free[0]]) + q.free[1..];
      }
    case ReleaseOp(buf) =>
      ReleaseKeeps(q, buf);
      assert was + (back + [buf]) == (was + back) + [buf] == out + (q.free + [buf]);
  }

  /** Buffers are handed out in the order in which they became free. */
  lemma {:induction false} LongestFreeFirst(p: Pool, ops: seq<Op>)
    requires p.Valid()
    ensures After(p, ops).Valid()
    ensures p.free + TakenBack(p, ops) == HandedOut(p, ops) + After(p, ops).free
    decreases |ops|
  {
    hide Pool.Valid, Pool.Used, Perform;
    if ops != [] {
      var before := ops[..|ops| - 1];
      LongestFreeFirst(p, before);
      PerformInOrder(After(p, before), ops[|ops| - 1], p.free, TakenBack(p, before), HandedOut(p, before));
    }
  }

  // Addresses.

  function Address(start: nat, size: nat, i: nat): nat { start + i * size }

  lemma {:induction false} MulOrder(a: int, b: int, size: nat)
    ensures a < b ==> a * size + size <= b * size
    decreases b - a
  {
    if a + 1 == b {
      assert b * size == a * size + size;
    } else if a < b {
      MulOrder(a, b - 1, size);
      assert b * size == (b - 1) * size + size;
    }
  }

  /** Buffer `i` is recovered from its address. */
  lemma IndexOfAddress(size: nat, i: nat)
    requires size > 0
    ensures (i * size) % size == 0 && (i * size) / size == i
  {
    var q := (i * size) / size;
    MulOrder(q, i, size);
    MulOrder(i, q, size);
  }

  /** Buffers do not overlap and lie within the pool. */
  lemma BuffersDisjoint(start: nat, size: nat, count: nat, i: nat, j: nat)
    requires i < j < count
    ensures Address(start, size, i) + size <= Address(start, size, j)
    ensures Address(start, size, j) + size <= Address(start, size, count)
  {
    MulOrder(i, j, size);
    MulOrder(j, count, size);
  }

  /** The tests of mpool_free before it indexes p_node (lines 144 to 155). */
  predicate Aligned(start: nat, size: nat, count: nat, buf: nat)
    requires size > 0
  {
    start <= buf <= Address(start, size, count) && (buf - start) % size == 0
  }

  /** An address that passes them indexes a node of the pool exactly when it is not
      the end address, which the first test lets through. */
  lemma IndexInBounds(start: nat, size: nat, count: nat, buf: nat)
    requires size > 0 && Aligned(start, size, count, buf)
    ensures (buf - start) / size < count <==> buf != Address(start, size, count)
    ensures buf == Address(start, size, (buf - start) / size)
  {
  }

  lemma EndAddressPasses(start: nat, size: nat, count: nat)
    requires size > 0
    ensures Aligned(start, size, count, Address(start, size, count))
  {
    IndexOfAddress(size, count);
  }

  /** The addresses of all buffers. */
  function Addresses(start: nat, size: nat, count: nat): set<nat> {
    set i | 0 <= i < count :: Address(start, size, i)
  }

  lemma IsBuffer(start: nat, size: nat, count: nat, buf: nat)
    requires size > 0
    ensures buf in Addresses(start, size, count) <==>
            Aligned(start, size, count, buf) && buf != Address(start, size, count)
  {
    if buf in Addresses(start, size, count) {
      var i :| 0 <= i < count && buf == Address(start, size, i);
      IndexOfAddress(size, i);
      MulOrder(i, count, size);
    }
    if Aligned(start, size, count, buf) && buf != Address(start, size, count) {
      IndexInBounds(start, size, count, buf);
    }
  }

  lemma FirstAddress(start: nat, size: nat)
    ensures Address(start, size, 0) == start
  {
  }

  lemma NextAddress(start: nat, size: nat, i: nat)
    ensures Address(start, size, i + 1) == Address(start, size, i) + size
  {
  }

  lemma AllDistinct(start: nat, size: nat, count: nat, free: seq<nat>)
    requires start > 0 && size > 0 && |free| == count
    requires forall i {:trigger free[i]} :: 0 <= i < count ==> free[i] == Address(start, size, i)
    ensures Pool(Addresses(start, size, count), free).Valid()
  {
  }

  class MemoryPool {
    var startAddr: nat
    var endAddr: nat
    var bufferSize: nat
    var bufferCount: nat
    var freeBuffer: List
    var pNode: seq<Node>
    /** What the pool is to its users. */
    ghost var pool: Pool

    ghost predicate NodesValid()
      reads this, pNode
    {
      && startAddr > 0 && bufferSize > 0
      && endAddr == Address(startAddr, bufferSize, bufferCount)
      && |pNode| == bufferCount && Distinct(pNode)
      && (forall i {:trigger pNode[i].addr} ::
            0 <= i < bufferCount ==> pNode[i].addr == Address(startAddr, bufferSize, i))
    }

    /** The free list holds exactly the nodes not in use, each once. */
    ghost predicate FreeValid()
      reads this, freeBuffer, freeBuffer.nodes, pNode
    {
      && freeBuffer.Valid()
      && (forall k {:trigger freeBuffer.nodes[k]} :: 0 <= k < |freeBuffer.nodes| ==> freeBuffer.nodes[k] in pNode)
      && (forall i {:trigger pNode[i].inUse} :: 0 <= i < |pNode| ==>
            pNode[i].inUse == if pNode[i] in freeBuffer.nodes then 0 else 1)
    }

    ghost predicate Valid()
      reads this, freeBuffer, freeBuffer.nodes, pNode
    {
      && NodesValid() && FreeValid()
      && pool.Valid()
      && pool.buffers == Addresses(startAddr, bufferSize, bufferCount)
      && |pool.free| == |freeBuffer.nodes|
      && (forall k {:trigger freeBuffer.nodes[k]} :: 0 <= k < |pool.free| ==> freeBuffer.nodes[k].addr == pool.free[k])
    }

    /** A node is outstanding exactly when it is in use. */
    lemma UsedIffInUse(i: nat)
      requires Valid() && i < bufferCount
      ensures pNode[i].addr in pool.Used() <==> pNode[i].inUse == 1
    {
      var n := pNode[i];
      IsBuffer(startAddr, bufferSize, bufferCount, n.addr);
      assert n.addr == Address(startAddr, bufferSize, i);
      assert n.addr in pool.buffers;
      if n in freeBuffer.nodes {
        var k :| 0 <= k < |freeBuffer.nodes| && freeBuffer.nodes[k] == n;
        assert pool.free[k] == n.addr;
      }
      if n.addr in pool.FreeSet() {
        var k :| 0 <= k < |pool.free| && pool.free[k] == n.addr;
        var j :| 0 <= j < bufferCount && pNode[j] == freeBuffer.nodes[k];
        assert pNode[j].addr == pNode[i].addr;
        if i < j { BuffersDisjoint(startAddr, bufferSize, bufferCount, i, j); }
        if j < i { BuffersDisjoint(startAddr, bufferSize, bufferCount, j, i); }
      }
    }

    /** mem_pool_create at an aligned address that leaves room below 2^32. */
    constructor (bufferSize: nat, bufferCount: nat, memory: nat)
      requires bufferSize > 0 && memory > 0
      ensures Valid()
      ensures startAddr == memory && this.bufferSize == bufferSize && this.bufferCount == bufferCount
      ensures |pool.free| == bufferCount
      ensures forall i :: 0 <= i < bufferCount ==> pool.free[i] == Address(memory, bufferSize, i)
    {
      hide Address, Addresses, List.Valid, Pool.Valid;
      startAddr, this.bufferSize, this.bufferCount := memory, bufferSize, bufferCount;
      endAddr := Address(memory, bufferSize, bufferCount);
      freeBuffer := new List();
      pNode := [];
      pool := Pool({}, []);
      new;
      FirstAddress(memory, bufferSize);
      var bufferStartAddr := memory;
      for index := 0 to bufferCount
        invariant startAddr == memory && this.bufferSize == bufferSize && this.bufferCount == bufferCount
        invariant endAddr == Address(memory, bufferSize, bufferCount)
        invariant fresh(freeBuffer) && freeBuffer.Valid() && freeBuffer.nodes == pNode
        invariant |pNode| == index
        invariant forall i {:trigger pNode[i]} :: 0 <= i < index ==>
                    fresh(pNode[i]) && pNode[i].addr == Address(memory, bufferSize, i) && pNode[i].inUse == 0
        invariant bufferStartAddr == Address(memory, bufferSize, index)
      {
        AddNode(bufferStartAddr);
        NextAddress(memory, bufferSize, index);
        bufferStartAddr := bufferStartAddr + bufferSize;
      }
      pool := Pool(Addresses(memory, bufferSize, bufferCount),
                   seq(bufferCount, i requires 0 <= i => Address(memory, bufferSize, i)));
      AllDistinct(memory, bufferSize, bufferCount, pool.free);
      freeBuffer.EachOnce();
    }

    /** One turn of the loop of mpool_init. */
    method AddNode(addr: nat)
      requires freeBuffer.Valid() && freeBuffer.nodes == pNode
      modifies this`pNode, freeBuffer, pNode`next
      ensures freeBuffer.Valid() && freeBuffer.nodes == pNode
      ensures |pNode| == old(|pNode|) + 1 && pNode[..old(|pNode|)] == old(pNode)
      ensures var node := pNode[old(|pNode|)]; fresh(node) && node.addr == addr && node.inUse == 0
    {
      var node := new Node(addr);
      freeBuffer.PushTail(node);
      pNode := pNode + [node];
    }

    method Alloc() returns (buf: nat)
      requires Valid()
      modifies this`pool, freeBuffer, pNode
      ensures Valid() && (buf, pool) == old(pool.Alloc())
    {
      hide Address, Addresses, List.Valid, Pool.Used, Pool.FreeSet;
      AllocKeeps(pool);
      var node := freeBuffer.PopHead();
      buf := NULL;
      if node != null {
        node.inUse := 1;
        buf := node.addr;
      }
      pool := pool.Alloc().1;
    }

    /** mpool_free.  The caller must not pass the end address: see IndexInBounds. */
    method Free(buf: nat) returns (ret: int)
      requires Valid() && buf != endAddr
      modifies this`pool, freeBuffer, pNode
      ensures Valid() && (ret, pool) == old(pool.Release(buf))
    {
      hide Address, Addresses, Pool.FreeSet, Aligned, List.Valid;
      ReleaseKeeps(pool, buf);
      IsBuffer(startAddr, bufferSize, bufferCount, buf);
      AlignedMeans(startAddr, bufferSize, bufferCount, buf);
      if buf < startAddr || buf > endAddr {
        return -1;
      }
      var freeAddr := buf - startAddr;
      if freeAddr % bufferSize != 0 {
        return -1;
      }
      var index := freeAddr / bufferSize;
      IndexInBounds(startAddr, bufferSize, bufferCount, buf);
      if pNode[index].addr != buf {
        return -1;
      }
      UsedIffInUse(index);
      if pNode[index].inUse != 1 {
        return -1;
      }
      pNode[index].inUse := 0;
      freeBuffer.PushTail(pNode[index]);
      pool := pool.Release(buf).1;
      ret := 0;
    }
  }

  lemma AlignedMeans(start: nat, size: nat, count: nat, buf: nat)
    requires size > 0
    ensures Aligned(start, size, count, buf) <==>
            start <= buf && buf <= Address(start, size, count) && (buf - start) % size == 0
  {
  }

  /** mem_pool_create: `memory` is what the two allocations return. */
  method MemPoolCreate(bufferSize: nat, bufferCount: nat, memory: nat) returns (p: MemoryPool?)
    requires memory > 0
    ensures p == null <==>
            bufferSize < 4 || bufferSize > 10485760 || bufferSize % 8 != 0
            || bufferCount == 0 || bufferCount > 36
    ensures p != null ==> fresh(p) && p.Valid() && p.bufferSize == bufferSize && p.pool.Used() == {}
    ensures p != null ==> |p.pool.free| == |p.pool.buffers| == bufferCount
  {
    if bufferSize < 4 || bufferSize > MAX_MEMORY_POOL_SIZE || bufferCount == 0 || bufferCount > MAX_MEMORY_POOL_NUM {
      return null;
    }
    if bufferSize % 8 != 0 {
      return null;
    }
    p := new MemoryPool(bufferSize, bufferCount, memory);
    AllFree(p.pool, memory, bufferSize, bufferCount);
    FreeAndUsed(p.pool);
  }

  lemma AllFree(p: Pool, start: nat, size: nat, count: nat)
    requires p.buffers == Addresses(start, size, count) && |p.free| == count
    requires forall i :: 0 <= i < count ==> p.free[i] == Address(start, size, i)
    ensures p.Used() == {}
  {
  }
}
