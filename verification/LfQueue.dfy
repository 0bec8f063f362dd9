/** The lock-free queue of app/lf_queue.c as a system of atomic steps.

    Every read, write, compare-and-swap or fetch-and-add of the shared memory is
    one step; a memcpy is one step per byte.  A step of a thread is a function of
    the memory and of that thread's program counter, which carries the thread's
    local variables.  Threads interleave in any order, under sequential
    consistency. */
module LfQueue {

  const LIST_END: int := -1

  type Payload = seq<bv8>

  /** A unit: its header and its data. */
  datatype Node = Node(next: int, useFlag: bool, data: Payload)

  /** The shared segment.  Unit `o` is stored at index `o + 1`, the sentinel
      LIST_END at index 0, as in UNIT_HEAD. */
  datatype Memory = Memory(
    unitSize: nat, capacity: nat,
    pHead: int, pTail: int, wTail: int, wLen: int, rLen: int,
    units: seq<Node>)
  {
    predicate Holds(o: int) { LIST_END <= o <= capacity }

    function At(o: int): Node
      requires |units| == capacity + 2 && Holds(o)
    {
      units[o + 1]
    }

    function Put(o: int, u: Node): (m: Memory)
      requires |units| == capacity + 2 && Holds(o)
      ensures Sound() && Holds(u.next) && |u.data| == unitSize ==> m.Sound()
    {
      this.(units := units[o + 1 := u])
    }

    /** Every offset stored in the segment stays inside the segment. */
    predicate Sound() {
      && capacity >= 1
      && |units| == capacity + 2
      && Holds(pHead) && Holds(pTail)
      && 0 <= wTail <= capacity + 1
      && forall i :: 0 <= i < |units| ==> Holds(units[i].next) && |units[i].data| == unitSize
    }
  }

  /** Where a pushing thread is; the constructor names its next access. */
  datatype Producer =
    | PIdle
    | ReadWLen(item: Payload)
    | CasWLen(item: Payload, seen: int)
    | ReadWTail(item: Payload)
    | CasWTail(item: Payload, seen: int)
    | ReadUseFlag(item: Payload, slot: int)
    | WriteNext(item: Payload, slot: int)
    | WriteUseFlag(item: Payload, slot: int)
    | WriteData(item: Payload, slot: int, k: nat)
    | ReadPTail(item: Payload, slot: int, tries: nat)
    | WalkTest(item: Payload, slot: int, tries: nat, oldTail: int, tail: int)
    | WalkMove(item: Payload, slot: int, tries: nat, oldTail: int, tail: int)
    | CasNext(item: Payload, slot: int, tries: nat, oldTail: int, tail: int)
    | CasPTail(item: Payload, slot: int, oldTail: int)
    | AddRLen(item: Payload)
  {
    /** The thread holds a unit it has not finished linking. */
    predicate HoldsSlot() {
      ReadUseFlag? || WriteNext? || WriteUseFlag? || WriteData? || ReadPTail?
      || WalkTest? || WalkMove? || CasNext? || CasPTail?
    }

    /** The unit's header says it is in use. */
    predicate Flagged() {
      WriteData? || ReadPTail? || WalkTest? || WalkMove? || CasNext? || CasPTail? || AddRLen?
    }
  }

  /** Where a popping thread is.  `from` is the offset of its u_head, `buf` the
      bytes copied so far. */
  datatype Consumer =
    | CIdle
    | ReadRLen
    | CasRLen(seen: int)
    | ReadPHead
    | ReadHeadNext(from: int)
    | CasPHead(from: int, next: int)
    | ReadCopyNext(from: int)
    | CopyData(from: int, src: int, buf: Payload)
    | ReadFlagNext(from: int, buf: Payload)
    | ClearUseFlag(slot: int, buf: Payload)
    | SubWLen(buf: Payload)

  /** The offsets a thread will dereference are inside the segment. */
  predicate ProducerSound(m: Memory, p: Producer) {
    && (p.PIdle? || |p.item| == m.unitSize)
    && (p.CasWTail? ==> 0 <= p.seen <= m.capacity + 1)
    && (p.HoldsSlot() ==> 0 <= p.slot <= m.capacity)
    && (p.WalkTest? || p.WalkMove? || p.CasNext? ==> m.Holds(p.tail))
    && (p.WriteData? ==> p.k <= m.unitSize)
  }

  predicate ConsumerSound(m: Memory, c: Consumer) {
    && (c.ReadHeadNext? || c.CasPHead? || c.ReadCopyNext? || c.CopyData? || c.ReadFlagNext? ==> m.Holds(c.from))
    && (c.CasPHead? ==> m.Holds(c.next))
    && (c.CopyData? ==> m.Holds(c.src) && |c.buf| <= m.unitSize)
    && (c.ClearUseFlag? ==> m.Holds(c.slot))
  }

  /** The segment lf_queue_init leaves when it created it: shmget zero-fills. */
  function Fresh(unitSize: nat, capacity: nat): (m: Memory)
  {
    Memory(unitSize, capacity, LIST_END, LIST_END, 0, 0, 0,
           [Node(LIST_END, false, Zeros(unitSize))]
           + seq(capacity + 1, _ => Node(0, false, Zeros(unitSize))))
  }

  function Zeros(n: nat): (z: Payload)
    ensures |z| == n
  {
    seq(n, _ => 0)
  }

  /** The accesses that reserve room and allocate a unit (lines 135 to 153). */
  function ReserveStep(m: Memory, p: Producer): (r: (Memory, Producer))
    requires m.Sound() && ProducerSound(m, p)
    requires p.ReadWLen? || p.CasWLen? || p.ReadWTail? || p.CasWTail? || p.ReadUseFlag?
    ensures r.0.Sound() && ProducerSound(r.0, r.1)
    ensures r.0.unitSize == m.unitSize && r.0.capacity == m.capacity
  {
    match p
    case ReadWLen(item) =>
      if m.wLen >= m.capacity then (m, PIdle) else (m, CasWLen(item, m.wLen))
    case CasWLen(item, seen) =>
      if m.wLen == seen then (m.(wLen := seen + 1), ReadWTail(item)) else (m, ReadWLen(item))
    case ReadWTail(item) =>
      (m, CasWTail(item, m.wTail))
    case CasWTail(item, seen) =>
      Wrapped(seen, m.capacity);
      var slot := seen % (m.capacity + 1);
      if m.wTail == seen then (m.(wTail := slot + 1), ReadUseFlag(item, slot)) else (m, ReadWTail(item))
    case ReadUseFlag(item, slot) =>
      if m.At(slot).useFlag then (m, ReadWTail(item)) else (m, WriteNext(item, slot))
  }

  /** The accesses that fill the unit (lines 156 to 160). */
  function FillStep(m: Memory, p: Producer): (r: (Memory, Producer))
    requires m.Sound() && ProducerSound(m, p)
    requires p.WriteNext? || p.WriteUseFlag? || p.WriteData?
    ensures r.0.Sound() && ProducerSound(r.0, r.1)
    ensures r.0.unitSize == m.unitSize && r.0.capacity == m.capacity
  {
    match p
    case WriteNext(item, slot) =>
      (m.Put(slot, m.At(slot).(next := LIST_END)), WriteUseFlag(item, slot))
    case WriteUseFlag(item, slot) =>
      (m.Put(slot, m.At(slot).(useFlag := true)), WriteData(item, slot, 0))
    case WriteData(item, slot, k) =>
      if k < m.unitSize
      then (m.Put(slot, m.At(slot).(data := m.At(slot).data[k := item[k]])), WriteData(item, slot, k + 1))
      else (m, ReadPTail(item, slot, 0))
  }

  /** The accesses that link the unit and count it (lines 163 to 181). */
  function LinkStep(m: Memory, p: Producer): (r: (Memory, Producer))
    requires m.Sound() && ProducerSound(m, p)
    requires p.ReadPTail? || p.WalkTest? || p.WalkMove? || p.CasNext? || p.CasPTail? || p.AddRLen?
    ensures r.0.Sound() && ProducerSound(r.0, r.1)
    ensures r.0.unitSize == m.unitSize && r.0.capacity == m.capacity
  {
    match p
    case ReadPTail(item, slot, tries) =>
      if tries + 1 >= 3
      then (m, WalkTest(item, slot, tries + 1, m.pTail, m.pTail))
      else (m, CasNext(item, slot, tries + 1, m.pTail, m.pTail))
    case WalkTest(item, slot, tries, oldTail, tail) =>
      if m.At(tail).next != LIST_END
      then (m, WalkMove(item, slot, tries, oldTail, tail))
      else (m, CasNext(item, slot, tries, oldTail, tail))
    case WalkMove(item, slot, tries, oldTail, tail) =>
      (m, WalkTest(item, slot, tries, oldTail, m.At(tail).next))
    case CasNext(item, slot, tries, oldTail, tail) =>
      if m.At(tail).next == LIST_END
      then (m.Put(tail, m.At(tail).(next := slot)), CasPTail(item, slot, oldTail))
      else (m, ReadPTail(item, slot, tries))
    case CasPTail(item, slot, oldTail) =>
      (if m.pTail == oldTail then m.(pTail := slot) else m, AddRLen(item))
    case AddRLen(item) =>
      (m.(rLen := m.rLen + 1), PIdle)
  }

  /** One atomic access of lf_queue_push.  Memory safe whatever the other
      threads do. */
  function ProducerStep(m: Memory, p: Producer): (r: (Memory, Producer))
    requires m.Sound() && ProducerSound(m, p) && !p.PIdle?
    ensures r.0.Sound() && ProducerSound(r.0, r.1)
    ensures r.0.unitSize == m.unitSize && r.0.capacity == m.capacity
  {
    if p.ReadWLen? || p.CasWLen? || p.ReadWTail? || p.CasWTail? || p.ReadUseFlag? then ReserveStep(m, p)
    else if p.WriteNext? || p.WriteUseFlag? || p.WriteData? then FillStep(m, p)
    else LinkStep(m, p)
  }

  /** One atomic access of lf_queue_pop. */
  function ConsumerStep(m: Memory, c: Consumer): (r: (Memory, Consumer))
    requires m.Sound() && ConsumerSound(m, c) && !c.CIdle?
    ensures r.0.Sound() && ConsumerSound(r.0, r.1)
    ensures r.0.unitSize == m.unitSize && r.0.capacity == m.capacity
  {
    match c
    case ReadRLen =>
      if m.rLen <= 0 then (m, CIdle) else (m, CasRLen(m.rLen))
    case CasRLen(seen) =>
      if m.rLen == seen then (m.(rLen := seen - 1), ReadPHead) else (m, ReadRLen)
    case ReadPHead =>
      (m, ReadHeadNext(m.pHead))
    case ReadHeadNext(from) =>
      (m, CasPHead(from, m.At(from).next))
    case CasPHead(from, next) =>
      if m.pHead == from then (m.(pHead := next), ReadCopyNext(from)) else (m, ReadPHead)
    case ReadCopyNext(from) =>
      (m, CopyData(from, m.At(from).next, []))
    case CopyData(from, src, buf) =>
      if |buf| < m.unitSize
      then (m, CopyData(from, src, buf + [m.At(src).data[|buf|]]))
      else (m, ReadFlagNext(from, buf))
    case ReadFlagNext(from, buf) =>
      (m, ClearUseFlag(m.At(from).next, buf))
    case ClearUseFlag(slot, buf) =>
      (m.Put(slot, m.At(slot).(useFlag := false)), SubWLen(buf))
    case SubWLen(buf) =>
      (m.(wLen := m.wLen - 1), CIdle)
  }

  lemma Wrapped(seen: int, capacity: nat)
    requires 0 <= seen <= capacity + 1
    ensures seen % (capacity + 1) == if seen == capacity + 1 then 0 else seen
  {
  }

  /** Any number of pushing and popping threads.  `sent` lists the payloads whose
      push was not refused, `got` those returned by pops, in the order in which
      the pushes passed the capacity check and the pops returned. */
  datatype System = System(mem: Memory, producers: seq<Producer>, consumers: seq<Consumer>,
                           sent: seq<Payload>, got: seq<Payload>)

  datatype Event =
    | Push(i: nat, item: Payload)  // an idle thread calls lf_queue_push
    | Produce(i: nat)              // one access of a pushing thread
    | Pop(i: nat)                  // an idle thread calls lf_queue_pop
    | Consume(i: nat)              // one access of a popping thread

  predicate Sound(s: System) {
    && s.mem.Sound()
    && (forall i :: 0 <= i < |s.producers| ==> ProducerSound(s.mem, s.producers[i]))
    && (forall i :: 0 <= i < |s.consumers| ==> ConsumerSound(s.mem, s.consumers[i]))
  }

  predicate Enabled(s: System, e: Event) {
    match e
    case Push(i, item) => i < |s.producers| && s.producers[i].PIdle? && |item| == s.mem.unitSize
    case Produce(i) => i < |s.producers| && !s.producers[i].PIdle?
    case Pop(i) => i < |s.consumers| && s.consumers[i].CIdle?
    case Consume(i) => i < |s.consumers| && !s.consumers[i].CIdle?
  }

  /** One event.  Every offset dereferenced stays inside the segment, whatever the
      number of threads and their interleaving. */
  function Step(s: System, e: Event): (t: System)
    requires Sound(s) && Enabled(s, e)
    ensures Sound(t)
    ensures |t.producers| == |s.producers| && |t.consumers| == |s.consumers|
  {
    match e
    case Push(i, item) => s.(producers := s.producers[i := ReadWLen(item)])
    case Produce(i) =>
      var p := s.producers[i];
      var (m, q) := ProducerStep(s.mem, p);
      s.(mem := m, producers := s.producers[i := q],
         sent := if p.CasWLen? && q.ReadWTail? then s.sent + [p.item] else s.sent)
    case Pop(i) => s.(consumers := s.consumers[i := ReadRLen])
    case Consume(i) =>
      var c := s.consumers[i];
      var (m, d) := ConsumerStep(s.mem, c);
      s.(mem := m, consumers := s.consumers[i := d],
         got := if c.SubWLen? then s.got + [c.buf] else s.got)
  }

  function Start(unitSize: nat, capacity: nat, producers: nat, consumers: nat): (s: System)
    requires capacity >= 1
    ensures Sound(s)
  {
    System(Fresh(unitSize, capacity), seq(producers, _ => PIdle), seq(consumers, _ => CIdle), [], [])
  }

  /** `t` is reached from `s` by the events of `run`. */
  ghost predicate Runs(s: System, run: seq<Event>, t: System)
    requires Sound(s)
    decreases |run|
  {
    if run == [] then s == t
    else Enabled(s, run[0]) && Runs(Step(s, run[0]), run[1..], t)
  }
}
