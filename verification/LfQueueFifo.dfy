/** One pushing and one popping thread: the invariant of the lock-free queue and
    what follows from it.

    Payloads are numbered in the order their pushes passed the capacity check.
    Payload `k` is always put in unit `Slot(k)`; counters derived from the two
    program counters say how far each payload has got. */
module LfQueueFifo {
  import opened LfQueue

  /** The unit of payload `k`; the sentinel stands before payload 0. */
  function Slot(capacity: nat, k: int): int
    decreases k
  {
    if k < 0 then LIST_END
    else if k == 0 || Slot(capacity, k - 1) == capacity then 0
    else Slot(capacity, k - 1) + 1
  }

  lemma NextSlot(capacity: nat, k: nat)
    ensures 0 <= Slot(capacity, k) <= capacity
    ensures Slot(capacity, k) == if k == 0 || Slot(capacity, k - 1) == capacity then 0 else Slot(capacity, k - 1) + 1
  {
    SlotOffset(capacity, k, k);
  }

  lemma {:induction false} SlotOffset(capacity: nat, i: nat, j: nat)
    requires i <= j <= i + capacity
    ensures 0 <= Slot(capacity, i) <= capacity
    ensures Slot(capacity, j) == (var o := Slot(capacity, i) + (j - i); if o <= capacity then o else o - (capacity + 1))
    decreases j
  {
    if i < j {
      SlotOffset(capacity, i, j - 1);
    } else if 0 < i {
      SlotOffset(capacity, i - 1, i - 1);
    }
  }

  lemma SlotCycle(capacity: nat, k: nat)
    ensures Slot(capacity, k + capacity + 1) == Slot(capacity, k)
  {
    SlotOffset(capacity, k, k + capacity);
    NextSlot(capacity, k + capacity + 1);
  }

  /** Payloads fewer than a full cycle apart never share a unit. */
  lemma SlotsApart(capacity: nat)
    ensures forall i {:trigger Slot(capacity, i)} :: 0 <= i ==> 0 <= Slot(capacity, i) <= capacity
    ensures forall i, j {:trigger Slot(capacity, i), Slot(capacity, j)} ::
              -1 <= i < j <= i + capacity ==> Slot(capacity, i) != Slot(capacity, j)
  {
    forall i | 0 <= i ensures 0 <= Slot(capacity, i) <= capacity { SlotOffset(capacity, i, i); }
    forall i, j | -1 <= i < j <= i + capacity ensures Slot(capacity, i) != Slot(capacity, j) {
      if 0 <= i { SlotOffset(capacity, i, j); } else { SlotOffset(capacity, j, j); }
    }
  }

  function Unit(m: Memory, k: int): Node
    requires m.Sound() && k >= -1
  {
    SlotHeld(m.capacity, k);
    m.At(Slot(m.capacity, k))
  }

  lemma SlotHeld(capacity: nat, k: int)
    requires k >= -1
    ensures LIST_END <= Slot(capacity, k) <= capacity
  {
  }

  // Of the `n` payloads accepted: how many have their unit allocated, flagged,
  // linked, made the tail, and counted in r_len.
  function Allocated(p: Producer, n: nat): int { if p.ReadWTail? || p.CasWTail? then n - 1 else n }
  function Flagged(p: Producer, n: nat): int {
    if p.ReadWTail? || p.CasWTail? || p.ReadUseFlag? || p.WriteNext? || p.WriteUseFlag? then n - 1 else n
  }
  function Linked(p: Producer, n: nat): int { if p.CasPTail? then n else Tail(p, n) }
  function Tail(p: Producer, n: nat): int {
    if p.ReadWTail? || p.CasWTail? || p.HoldsSlot() then n - 1 else n
  }
  function Counted(p: Producer, n: nat): int { if p.AddRLen? then n - 1 else Tail(p, n) }

  // With `d` pops returned: how many payloads have been claimed in r_len, made
  // the head, and had their use_flag cleared.
  function Claimed(c: Consumer, d: nat): int { if c.CIdle? || c.ReadRLen? || c.CasRLen? then d else d + 1 }
  function Headed(c: Consumer, d: nat): int {
    if c.ReadCopyNext? || c.CopyData? || c.ReadFlagNext? || c.ClearUseFlag? || c.SubWLen? then d + 1 else d
  }
  function Cleared(c: Consumer, d: nat): int { if c.SubWLen? then d + 1 else d }

  /** From payload `d - 1`, the last dummy the consumer may still dereference, to
      the last linked payload, the units form a list. */
  ghost predicate Chained(m: Memory, d: int, linked: int)
    requires m.Sound() && 0 <= d <= linked
  {
    && (forall k {:trigger Unit(m, k)} :: d - 1 <= k < linked - 1 ==> Unit(m, k).next == Slot(m.capacity, k + 1))
    && Unit(m, linked - 1).next == LIST_END
  }

  ghost predicate Filled(m: Memory, sent: seq<Payload>, d: int, linked: int)
    requires m.Sound() && 0 <= d <= linked <= |sent|
  {
    forall k {:trigger Unit(m, k)} :: d <= k < linked ==> Unit(m, k).data == sent[k]
  }

  /** The flagged units are those of payloads `cleared` to `flagged`; the rest of
      the cycle is free. */
  ghost predicate Flags(m: Memory, cleared: int, flagged: int)
    requires m.Sound() && 0 <= cleared && 0 <= flagged
  {
    && (forall k {:trigger Unit(m, k)} :: cleared <= k < flagged ==> Unit(m, k).useFlag)
    && (forall k {:trigger Unit(m, k)} :: flagged <= k < cleared + m.capacity + 1 ==> !Unit(m, k).useFlag)
  }

  ghost predicate Shape(m: Memory, sent: seq<Payload>, d: int, linked: int, cleared: int, flagged: int)
    requires m.Sound()
  {
    && 0 <= d <= cleared <= linked <= flagged <= |sent|
    && linked <= d + m.capacity
    && Chained(m, d, linked)
    && Filled(m, sent, d, linked)
    && Flags(m, cleared, flagged)
  }

  ghost predicate ProducerLocals(m: Memory, p: Producer, sent: seq<Payload>, d: int)
    requires m.Sound() && ProducerSound(m, p) && d >= 0
  {
    && (p.ReadWTail? || p.CasWTail? || p.HoldsSlot() || p.AddRLen? ==> |sent| > d && sent[|sent| - 1] == p.item)
    && (p.CasWLen? ==> p.seen < m.capacity)
    && (p.CasWTail? ==> p.seen == m.wTail)
    && (p.HoldsSlot() ==> p.slot == Slot(m.capacity, |sent| - 1))
    && (p.WriteUseFlag? || p.WriteData? || p.ReadPTail? || p.CasNext? ==> m.At(p.slot).next == LIST_END)
    && (p.WriteData? ==> m.At(p.slot).data[..p.k] == p.item[..p.k])
    && (p.ReadPTail? || p.CasNext? ==> m.At(p.slot).data == p.item)
    && (p.ReadPTail? ==> p.tries == 0)
    && !p.WalkTest? && !p.WalkMove?
    && (p.CasNext? ==> p.tail == m.pTail)
    && (p.CasNext? || p.CasPTail? ==> p.oldTail == m.pTail)
  }

  ghost predicate ConsumerLocals(capacity: nat, pHead: int, c: Consumer, sent: seq<Payload>, d: nat)
  {
    && (c.CasRLen? ==> c.seen > 0)
    && (c.ReadHeadNext? || c.CasPHead? ==> c.from == pHead)
    && (c.CasPHead? ==> c.next == Slot(capacity, d))
    && (c.ReadCopyNext? || c.CopyData? || c.ReadFlagNext? ==> c.from == Slot(capacity, d - 1))
    && (c.CopyData? ==> c.src == Slot(capacity, d) && d < |sent| && c.buf <= sent[d])
    && (c.ClearUseFlag? ==> c.slot == Slot(capacity, d))
    && (c.ReadFlagNext? || c.ClearUseFlag? || c.SubWLen? ==> d < |sent| && c.buf == sent[d])
  }

  ghost predicate Counters(m: Memory, n: int, d: int, alloc: int, tail: int, counted: int, claimed: int, headed: int)
  {
    && m.wLen == n - d <= m.capacity
    && m.rLen == counted - claimed
    && claimed <= counted
    && m.wTail == (if alloc == 0 then 0 else Slot(m.capacity, alloc - 1) + 1)
    && m.pHead == Slot(m.capacity, headed - 1)
    && m.pTail == Slot(m.capacity, tail - 1)
  }

  ghost predicate Inv(m: Memory, p: Producer, c: Consumer, sent: seq<Payload>, got: seq<Payload>)
  {
    var n, d := |sent|, |got|;
    && m.Sound() && ProducerSound(m, p) && ConsumerSound(m, c)
    && got <= sent
    && (forall k :: 0 <= k < n ==> |sent[k]| == m.unitSize)
    && Counters(m, n, d, Allocated(p, n), Tail(p, n), Counted(p, n), Claimed(c, d), Headed(c, d))
    && Shape(m, sent, d, Linked(p, n), Cleared(c, d), Flagged(p, n))
    && ProducerLocals(m, p, sent, d)
    && ConsumerLocals(m.capacity, m.pHead, c, sent, d)
  }

  // What Shape says of one payload.
  lemma LinkAt(m: Memory, sent: seq<Payload>, d: int, linked: int, cleared: int, flagged: int, k: int)
    requires m.Sound() && Shape(m, sent, d, linked, cleared, flagged) && d - 1 <= k < linked
    ensures m.Holds(Slot(m.capacity, k))
    ensures m.At(Slot(m.capacity, k)).next == if k == linked - 1 then LIST_END else Slot(m.capacity, k + 1)
  {
    hide Slot;
    SlotHeld(m.capacity, k);
    assert Unit(m, k) == m.At(Slot(m.capacity, k));
  }

  lemma DataAt(m: Memory, sent: seq<Payload>, d: int, linked: int, cleared: int, flagged: int, k: int)
    requires m.Sound() && Shape(m, sent, d, linked, cleared, flagged) && d <= k < linked
    ensures m.Holds(Slot(m.capacity, k)) && m.At(Slot(m.capacity, k)).data == sent[k]
  {
    hide Slot;
    SlotHeld(m.capacity, k);
    assert Unit(m, k) == m.At(Slot(m.capacity, k));
  }

  lemma FlagAt(m: Memory, sent: seq<Payload>, d: int, linked: int, cleared: int, flagged: int, k: int)
    requires m.Sound() && Shape(m, sent, d, linked, cleared, flagged) && cleared <= k < cleared + m.capacity + 1
    ensures m.Holds(Slot(m.capacity, k)) && (m.At(Slot(m.capacity, k)).useFlag <==> k < flagged)
  {
    hide Slot;
    SlotHeld(m.capacity, k);
    assert Unit(m, k) == m.At(Slot(m.capacity, k));
  }

  lemma ShapeKept(m: Memory, m': Memory, sent: seq<Payload>, sent': seq<Payload>, d: int, linked: int, cleared: int,
                  flagged: int)
    requires m.Sound() && m'.Sound() && m'.capacity == m.capacity && m'.units == m.units && sent <= sent'
    requires Shape(m, sent, d, linked, cleared, flagged)
    ensures Shape(m', sent', d, linked, cleared, flagged)
  {
    hide Slot;
    assert forall k {:trigger Unit(m', k)} :: -1 <= k ==> Unit(m', k) == Unit(m, k);
  }

  /** Writing the unit of payload `j` leaves every unit less than a cycle away alone. */
  lemma Elsewhere(m: Memory, m': Memory, j: int)
    requires m.Sound() && m'.Sound() && m'.capacity == m.capacity && j >= -1
    requires forall o {:trigger m'.At(o)} :: m.Holds(o) && o != Slot(m.capacity, j) ==> m'.At(o) == m.At(o)
    ensures forall k {:trigger Unit(m', k)} ::
              -1 <= k && j - m.capacity <= k <= j + m.capacity && k != j ==> Unit(m', k) == Unit(m, k)
  {
    SlotsApart(m.capacity);
  }

  /** The producer writes the unit it holds, which is not linked yet. */
  lemma UnlinkedWritten(m: Memory, m': Memory, u: Node, sent: seq<Payload>, d: int, cleared: int, flagged: int,
                        flagged': int)
    requires m.Sound() && m'.Sound() && 0 < |sent|
    requires Shape(m, sent, d, |sent| - 1, cleared, flagged)
    requires |sent| <= d + m.capacity && |sent| - 1 <= flagged' <= |sent|
    requires m.Holds(Slot(m.capacity, |sent| - 1)) && m' == m.Put(Slot(m.capacity, |sent| - 1), u)
    requires u.useFlag <==> flagged' == |sent|
    ensures Shape(m', sent, d, |sent| - 1, cleared, flagged')
  {
    hide Slot;
    Elsewhere(m, m', |sent| - 1);
    assert Unit(m', |sent| - 1) == u;
  }

  lemma UnitLinked(m: Memory, m': Memory, sent: seq<Payload>, d: int, cleared: int)
    requires m.Sound() && m'.Sound() && 0 < |sent| <= d + m.capacity
    requires Shape(m, sent, d, |sent| - 1, cleared, |sent|)
    requires Unit(m, |sent| - 1).next == LIST_END && Unit(m, |sent| - 1).data == sent[|sent| - 1]
    requires m.Holds(Slot(m.capacity, |sent| - 2)) && m.Holds(Slot(m.capacity, |sent| - 1))
    requires m' == m.Put(Slot(m.capacity, |sent| - 2), Unit(m, |sent| - 2).(next := Slot(m.capacity, |sent| - 1)))
    ensures Shape(m', sent, d, |sent|, cleared, |sent|)
  {
    hide Slot, Unit, Filled, Flags;
    LinkWritten(m, m', |sent| - 2, Slot(m.capacity, |sent| - 1));
    ContentsKept(m, m', sent, d, cleared);
  }

  lemma ContentsKept(m: Memory, m': Memory, sent: seq<Payload>, d: int, cleared: int)
    requires m.Sound() && m'.Sound() && m'.capacity == m.capacity && 0 <= d < |sent| && 0 <= cleared
    requires Filled(m, sent, d, |sent| - 1) && Unit(m, |sent| - 1).data == sent[|sent| - 1]
    requires Flags(m, cleared, |sent|)
    requires forall k {:trigger Unit(m', k)} :: -1 <= k ==>
               Unit(m', k).useFlag == Unit(m, k).useFlag && Unit(m', k).data == Unit(m, k).data
    ensures Filled(m', sent, d, |sent|) && Flags(m', cleared, |sent|)
  {
    hide Slot, Unit;
  }

  /** Writing the next of the unit of payload `j` changes the next of no other unit less
      than a cycle away, and nothing else of any. */
  lemma LinkWritten(m: Memory, m': Memory, j: int, next: int)
    requires m.Sound() && m'.Sound() && j >= -1
    requires m.Holds(Slot(m.capacity, j)) && m' == m.Put(Slot(m.capacity, j), Unit(m, j).(next := next))
    ensures Unit(m', j).next == next
    ensures forall k {:trigger Unit(m', k)} ::
              -1 <= k && j - m.capacity <= k <= j + m.capacity && k != j ==> Unit(m', k) == Unit(m, k)
    ensures forall k {:trigger Unit(m', k)} :: -1 <= k ==>
              Unit(m', k).useFlag == Unit(m, k).useFlag && Unit(m', k).data == Unit(m, k).data
  {
    hide Slot;
    Elsewhere(m, m', j);
    forall k {:trigger Unit(m', k)} | -1 <= k
      ensures Unit(m', k).useFlag == Unit(m, k).useFlag && Unit(m', k).data == Unit(m, k).data
    {
      SlotHeld(m.capacity, k);
    }
  }

  lemma FlagsCleared(m: Memory, m': Memory, d: int, flagged: int)
    requires m.Sound() && m'.Sound()
    requires 0 <= d < flagged <= d + m.capacity && Flags(m, d, flagged)
    requires m.Holds(Slot(m.capacity, d)) && m' == m.Put(Slot(m.capacity, d), Unit(m, d).(useFlag := false))
    ensures Flags(m', d + 1, flagged)
  {
    hide Slot;
    Elsewhere(m, m', d);
    SlotCycle(m.capacity, d);
    assert Unit(m', d + m.capacity + 1) == Unit(m', d);
  }

  lemma FlagCleared(m: Memory, m': Memory, sent: seq<Payload>, d: int, linked: int, flagged: int)
    requires m.Sound() && m'.Sound()
    requires Shape(m, sent, d, linked, d, flagged) && d < linked && flagged <= d + m.capacity
    requires m.Holds(Slot(m.capacity, d)) && m' == m.Put(Slot(m.capacity, d), Unit(m, d).(useFlag := false))
    ensures Shape(m', sent, d, linked, d + 1, flagged)
  {
    hide Slot, Flags;
    FlagsCleared(m, m', d, flagged);
    forall k {:trigger Unit(m', k)} | -1 <= k
      ensures Unit(m', k).next == Unit(m, k).next && Unit(m', k).data == Unit(m, k).data
    {
      SlotHeld(m.capacity, k);
    }
  }

  lemma PopReturned(m: Memory, m': Memory, sent: seq<Payload>, d: int, linked: int, flagged: int)
    requires m.Sound() && m'.Sound() && m'.capacity == m.capacity && m'.units == m.units
    requires Shape(m, sent, d, linked, d + 1, flagged)
    ensures Shape(m', sent, d + 1, linked, d + 1, flagged)
  {
    ShapeKept(m, m', sent, sent, d, linked, d + 1, flagged);
  }

  function Accepted(p: Producer, q: Producer, sent: seq<Payload>): seq<Payload> {
    if p.CasWLen? && q.ReadWTail? then sent + [p.item] else sent
  }

  function Returned(c: Consumer, got: seq<Payload>): seq<Payload> {
    if c.SubWLen? then got + [c.buf] else got
  }

  lemma ReadWLenKeeps(m: Memory, p: Producer, c: Consumer, sent: seq<Payload>, got: seq<Payload>)
    requires Inv(m, p, c, sent, got) && p.ReadWLen?
    ensures var (m', q) := ProducerStep(m, p); Inv(m', q, c, Accepted(p, q, sent), got)
  {
    hide Slot, Chained, Filled, Flags;
    var (m', q) := ProducerStep(m, p);
    var n, d := |sent|, |got|;
    ShapeKept(m, m', sent, Accepted(p, q, sent), d, Linked(p, n), Cleared(c, d), Flagged(p, n));
  }

  lemma CasWLenKeeps(m: Memory, p: Producer, c: Consumer, sent: seq<Payload>, got: seq<Payload>)
    requires Inv(m, p, c, sent, got) && p.CasWLen?
    ensures var (m', q) := ProducerStep(m, p); Inv(m', q, c, Accepted(p, q, sent), got)
  {
    hide Slot, Chained, Filled, Flags;
    var (m', q) := ProducerStep(m, p);
    var n, d := |sent|, |got|;
    ShapeKept(m, m', sent, Accepted(p, q, sent), d, Linked(p, n), Cleared(c, d), Flagged(p, n));
  }

  lemma ReadWTailKeeps(m: Memory, p: Producer, c: Consumer, sent: seq<Payload>, got: seq<Payload>)
    requires Inv(m, p, c, sent, got) && p.ReadWTail?
    ensures var (m', q) := ProducerStep(m, p); Inv(m', q, c, Accepted(p, q, sent), got)
  {
    hide Slot, Chained, Filled, Flags;
    var (m', q) := ProducerStep(m, p);
    var n, d := |sent|, |got|;
    ShapeKept(m, m', sent, Accepted(p, q, sent), d, Linked(p, n), Cleared(c, d), Flagged(p, n));
  }

  lemma CasWTailKeeps(m: Memory, p: Producer, c: Consumer, sent: seq<Payload>, got: seq<Payload>)
    requires Inv(m, p, c, sent, got) && p.CasWTail?
    ensures var (m', q) := ProducerStep(m, p); Inv(m', q, c, Accepted(p, q, sent), got)
  {
    hide Slot, Chained, Filled, Flags;
    var (m', q) := ProducerStep(m, p);
    var n, d := |sent|, |got|;
    ShapeKept(m, m', sent, Accepted(p, q, sent), d, Linked(p, n), Cleared(c, d), Flagged(p, n));
    NextSlot(m.capacity, n - 1);
    Wrapped(p.seen, m.capacity);
  }

  lemma ReadUseFlagKeeps(m: Memory, p: Producer, c: Consumer, sent: seq<Payload>, got: seq<Payload>)
    requires Inv(m, p, c, sent, got) && p.ReadUseFlag?
    ensures var (m', q) := ProducerStep(m, p); Inv(m', q, c, Accepted(p, q, sent), got)
  {
    hide Slot, Chained, Filled, Flags;
    var (m', q) := ProducerStep(m, p);
    var n, d := |sent|, |got|;
    ShapeKept(m, m', sent, Accepted(p, q, sent), d, Linked(p, n), Cleared(c, d), Flagged(p, n));
    FlagAt(m, sent, d, Linked(p, n), Cleared(c, d), Flagged(p, n), n - 1);
  }

  lemma WriteNextKeeps(m: Memory, p: Producer, c: Consumer, sent: seq<Payload>, got: seq<Payload>)
    requires Inv(m, p, c, sent, got) && p.WriteNext?
    ensures var (m', q) := ProducerStep(m, p); Inv(m', q, c, Accepted(p, q, sent), got)
  {
    hide Slot, Chained, Filled, Flags;
    var (m', q) := ProducerStep(m, p);
    var n, d := |sent|, |got|;
    FlagAt(m, sent, d, Linked(p, n), Cleared(c, d), Flagged(p, n), n - 1);
    UnlinkedWritten(m, m', m'.At(p.slot), sent, d, Cleared(c, d), Flagged(p, n), Flagged(q, n));
  }

  lemma WriteUseFlagKeeps(m: Memory, p: Producer, c: Consumer, sent: seq<Payload>, got: seq<Payload>)
    requires Inv(m, p, c, sent, got) && p.WriteUseFlag?
    ensures var (m', q) := ProducerStep(m, p); Inv(m', q, c, Accepted(p, q, sent), got)
  {
    hide Slot, Chained, Filled, Flags;
    var (m', q) := ProducerStep(m, p);
    var n, d := |sent|, |got|;
    FlagAt(m, sent, d, Linked(p, n), Cleared(c, d), Flagged(p, n), n - 1);
    UnlinkedWritten(m, m', m'.At(p.slot), sent, d, Cleared(c, d), Flagged(p, n), Flagged(q, n));
  }

  lemma WriteDataKeeps(m: Memory, p: Producer, c: Consumer, sent: seq<Payload>, got: seq<Payload>)
    requires Inv(m, p, c, sent, got) && p.WriteData?
    ensures var (m', q) := ProducerStep(m, p); Inv(m', q, c, Accepted(p, q, sent), got)
  {
    hide Slot, Chained, Filled, Flags;
    var (m', q) := ProducerStep(m, p);
    var n, d := |sent|, |got|;
    if p.k < m.unitSize {
      FlagAt(m, sent, d, Linked(p, n), Cleared(c, d), Flagged(p, n), n - 1);
      UnlinkedWritten(m, m', m'.At(p.slot), sent, d, Cleared(c, d), Flagged(p, n), Flagged(q, n));
    } else {
      ShapeKept(m, m', sent, Accepted(p, q, sent), d, Linked(p, n), Cleared(c, d), Flagged(p, n));
    }
  }

  lemma ReadPTailKeeps(m: Memory, p: Producer, c: Consumer, sent: seq<Payload>, got: seq<Payload>)
    requires Inv(m, p, c, sent, got) && p.ReadPTail?
    ensures var (m', q) := ProducerStep(m, p); Inv(m', q, c, Accepted(p, q, sent), got)
  {
    hide Slot, Chained, Filled, Flags;
    var (m', q) := ProducerStep(m, p);
    var n, d := |sent|, |got|;
    ShapeKept(m, m', sent, Accepted(p, q, sent), d, Linked(p, n), Cleared(c, d), Flagged(p, n));
  }

  lemma CasPTailKeeps(m: Memory, p: Producer, c: Consumer, sent: seq<Payload>, got: seq<Payload>)
    requires Inv(m, p, c, sent, got) && p.CasPTail?
    ensures var (m', q) := ProducerStep(m, p); Inv(m', q, c, Accepted(p, q, sent), got)
  {
    hide Slot, Chained, Filled, Flags;
    var (m', q) := ProducerStep(m, p);
    var n, d := |sent|, |got|;
    ShapeKept(m, m', sent, Accepted(p, q, sent), d, Linked(p, n), Cleared(c, d), Flagged(p, n));
  }

  lemma AddRLenKeeps(m: Memory, p: Producer, c: Consumer, sent: seq<Payload>, got: seq<Payload>)
    requires Inv(m, p, c, sent, got) && p.AddRLen?
    ensures var (m', q) := ProducerStep(m, p); Inv(m', q, c, Accepted(p, q, sent), got)
  {
    hide Slot, Chained, Filled, Flags;
    var (m', q) := ProducerStep(m, p);
    var n, d := |sent|, |got|;
    ShapeKept(m, m', sent, Accepted(p, q, sent), d, Linked(p, n), Cleared(c, d), Flagged(p, n));
  }

  lemma CasNextKeeps(m: Memory, p: Producer, c: Consumer, sent: seq<Payload>, got: seq<Payload>)
    requires Inv(m, p, c, sent, got) && p.CasNext?
    ensures var (m', q) := ProducerStep(m, p); Inv(m', q, c, Accepted(p, q, sent), got)
  {
    hide Slot, Chained, Filled, Flags;
    var (m', q) := ProducerStep(m, p);
    var n, d := |sent|, |got|;
    LinkAt(m, sent, d, Linked(p, n), Cleared(c, d), Flagged(p, n), n - 2);
    assert Unit(m, n - 2) == m.At(p.tail);
    UnitLinked(m, m', sent, d, Cleared(c, d));
  }

  lemma ReadRLenKeeps(m: Memory, p: Producer, c: Consumer, sent: seq<Payload>, got: seq<Payload>)
    requires Inv(m, p, c, sent, got) && c.ReadRLen?
    ensures var (m', d) := ConsumerStep(m, c); Inv(m', p, d, sent, Returned(c, got))
  {
    hide Slot, Chained, Filled, Flags;
    var (m', d) := ConsumerStep(m, c);
    var n := |sent|;
    ShapeKept(m, m', sent, sent, |got|, Linked(p, n), Cleared(c, |got|), Flagged(p, n));
  }

  lemma CasRLenKeeps(m: Memory, p: Producer, c: Consumer, sent: seq<Payload>, got: seq<Payload>)
    requires Inv(m, p, c, sent, got) && c.CasRLen?
    ensures var (m', d) := ConsumerStep(m, c); Inv(m', p, d, sent, Returned(c, got))
  {
    hide Slot, Chained, Filled, Flags;
    var (m', d) := ConsumerStep(m, c);
    var n := |sent|;
    ShapeKept(m, m', sent, sent, |got|, Linked(p, n), Cleared(c, |got|), Flagged(p, n));
  }

  lemma ReadPHeadKeeps(m: Memory, p: Producer, c: Consumer, sent: seq<Payload>, got: seq<Payload>)
    requires Inv(m, p, c, sent, got) && c.ReadPHead?
    ensures var (m', d) := ConsumerStep(m, c); Inv(m', p, d, sent, Returned(c, got))
  {
    hide Slot, Chained, Filled, Flags;
    var (m', d) := ConsumerStep(m, c);
    var n := |sent|;
    ShapeKept(m, m', sent, sent, |got|, Linked(p, n), Cleared(c, |got|), Flagged(p, n));
  }

  lemma ReadHeadNextKeeps(m: Memory, p: Producer, c: Consumer, sent: seq<Payload>, got: seq<Payload>)
    requires Inv(m, p, c, sent, got) && c.ReadHeadNext?
    ensures var (m', d) := ConsumerStep(m, c); Inv(m', p, d, sent, Returned(c, got))
  {
    hide Slot, Chained, Filled, Flags;
    var (m', d) := ConsumerStep(m, c);
    var n := |sent|;
    LinkAt(m, sent, |got|, Linked(p, n), Cleared(c, |got|), Flagged(p, n), |got| - 1);
    ShapeKept(m, m', sent, sent, |got|, Linked(p, n), Cleared(c, |got|), Flagged(p, n));
  }

  lemma CasPHeadKeeps(m: Memory, p: Producer, c: Consumer, sent: seq<Payload>, got: seq<Payload>)
    requires Inv(m, p, c, sent, got) && c.CasPHead?
    ensures var (m', d) := ConsumerStep(m, c); Inv(m', p, d, sent, Returned(c, got))
  {
    hide Slot, Chained, Filled, Flags;
    var (m', d) := ConsumerStep(m, c);
    var n := |sent|;
    ShapeKept(m, m', sent, sent, |got|, Linked(p, n), Cleared(c, |got|), Flagged(p, n));
  }

  lemma ReadCopyNextKeeps(m: Memory, p: Producer, c: Consumer, sent: seq<Payload>, got: seq<Payload>)
    requires Inv(m, p, c, sent, got) && c.ReadCopyNext?
    ensures var (m', d) := ConsumerStep(m, c); Inv(m', p, d, sent, Returned(c, got))
  {
    hide Slot, Chained, Filled, Flags;
    var (m', d) := ConsumerStep(m, c);
    var n := |sent|;
    LinkAt(m, sent, |got|, Linked(p, n), Cleared(c, |got|), Flagged(p, n), |got| - 1);
    ShapeKept(m, m', sent, sent, |got|, Linked(p, n), Cleared(c, |got|), Flagged(p, n));
  }

  lemma CopyDataKeeps(m: Memory, p: Producer, c: Consumer, sent: seq<Payload>, got: seq<Payload>)
    requires Inv(m, p, c, sent, got) && c.CopyData?
    ensures var (m', d) := ConsumerStep(m, c); Inv(m', p, d, sent, Returned(c, got))
  {
    hide Slot, Chained, Filled, Flags;
    var (m', d) := ConsumerStep(m, c);
    var n := |sent|;
    DataAt(m, sent, |got|, Linked(p, n), Cleared(c, |got|), Flagged(p, n), |got|);
    ShapeKept(m, m', sent, sent, |got|, Linked(p, n), Cleared(c, |got|), Flagged(p, n));
  }

  lemma ReadFlagNextKeeps(m: Memory, p: Producer, c: Consumer, sent: seq<Payload>, got: seq<Payload>)
    requires Inv(m, p, c, sent, got) && c.ReadFlagNext?
    ensures var (m', d) := ConsumerStep(m, c); Inv(m', p, d, sent, Returned(c, got))
  {
    hide Slot, Chained, Filled, Flags;
    var (m', d) := ConsumerStep(m, c);
    var n := |sent|;
    LinkAt(m, sent, |got|, Linked(p, n), Cleared(c, |got|), Flagged(p, n), |got| - 1);
    ShapeKept(m, m', sent, sent, |got|, Linked(p, n), Cleared(c, |got|), Flagged(p, n));
  }

  lemma SubWLenKeeps(m: Memory, p: Producer, c: Consumer, sent: seq<Payload>, got: seq<Payload>)
    requires Inv(m, p, c, sent, got) && c.SubWLen?
    ensures var (m', d) := ConsumerStep(m, c); Inv(m', p, d, sent, Returned(c, got))
  {
    hide Slot, Chained, Filled, Flags;
    var (m', d) := ConsumerStep(m, c);
    var n := |sent|;
    PopReturned(m, m', sent, |got|, Linked(p, n), Flagged(p, n));
  }

  /** What a push knows does not depend on the flags. */
  lemma FlagUnseen(m: Memory, m': Memory, p: Producer, sent: seq<Payload>, d: int, o: int)
    requires m.Sound() && ProducerSound(m, p) && d >= 0 && m.Holds(o)
    requires m' == m.Put(o, m.At(o).(useFlag := false)) && m'.Sound() && ProducerSound(m', p)
    requires ProducerLocals(m, p, sent, d)
    ensures ProducerLocals(m', p, sent, d)
  {
    hide Slot;
  }

  lemma ClearUseFlagKeeps(m: Memory, p: Producer, c: Consumer, sent: seq<Payload>, got: seq<Payload>)
    requires Inv(m, p, c, sent, got) && c.ClearUseFlag?
    ensures var (m', d) := ConsumerStep(m, c); Inv(m', p, d, sent, Returned(c, got))
  {
    hide Slot, Chained, Filled, Flags, ProducerLocals;
    var (m', d) := ConsumerStep(m, c);
    var n := |sent|;
    FlagUnseen(m, m', p, sent, |got|, c.slot);
    FlagCleared(m, m', sent, |got|, Linked(p, n), Flagged(p, n));
  }

}
