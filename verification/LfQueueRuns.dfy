/** What every run of the lock-free queue with one pushing and one popping thread
    guarantees. */
module LfQueueRuns {
  import opened LfQueue
  import opened LfQueueFifo

  ghost predicate Consistent(s: System) {
    && |s.producers| == 1 && |s.consumers| == 1
    && Inv(s.mem, s.producers[0], s.consumers[0], s.sent, s.got)
  }

  lemma StartConsistent(unitSize: nat, capacity: nat)
    requires capacity >= 1
    ensures Consistent(Start(unitSize, capacity, 1, 1))
  {
    var m := Fresh(unitSize, capacity);
    SlotsApart(capacity);
    hide Slot;
    assert Slot(capacity, -1) == LIST_END by { assert LIST_END == -1; NoSlot(capacity); }
    assert Unit(m, -1) == m.units[0];
    assert forall k {:trigger Unit(m, k)} :: 0 <= k ==> Unit(m, k) == m.At(Slot(capacity, k));
  }

  lemma NoSlot(capacity: nat)
    ensures Slot(capacity, -1) == LIST_END
  {
  }

  lemma ProducedKeeps(m: Memory, p: Producer, c: Consumer, sent: seq<Payload>, got: seq<Payload>)
    requires Inv(m, p, c, sent, got) && !p.PIdle?
    ensures var (m', q) := ProducerStep(m, p); Inv(m', q, c, Accepted(p, q, sent), got)
  {
    hide *;
    match p
    case ReadWLen(_) => ReadWLenKeeps(m, p, c, sent, got);
    case CasWLen(_, _) => CasWLenKeeps(m, p, c, sent, got);
    case ReadWTail(_) => ReadWTailKeeps(m, p, c, sent, got);
    case CasWTail(_, _) => CasWTailKeeps(m, p, c, sent, got);
    case ReadUseFlag(_, _) => ReadUseFlagKeeps(m, p, c, sent, got);
    case WriteNext(_, _) => WriteNextKeeps(m, p, c, sent, got);
    case WriteUseFlag(_, _) => WriteUseFlagKeeps(m, p, c, sent, got);
    case WriteData(_, _, _) => WriteDataKeeps(m, p, c, sent, got);
    case ReadPTail(_, _, _) => ReadPTailKeeps(m, p, c, sent, got);
    case CasNext(_, _, _, _, _) => CasNextKeeps(m, p, c, sent, got);
    case CasPTail(_, _, _) => CasPTailKeeps(m, p, c, sent, got);
    case AddRLen(_) => AddRLenKeeps(m, p, c, sent, got);
    case _ => NotWalking(m, p, c, sent, got);
  }

  lemma NotWalking(m: Memory, p: Producer, c: Consumer, sent: seq<Payload>, got: seq<Payload>)
    requires Inv(m, p, c, sent, got)
    ensures !p.WalkTest? && !p.WalkMove?
  {
  }

  lemma ConsumedKeeps(m: Memory, p: Producer, c: Consumer, sent: seq<Payload>, got: seq<Payload>)
    requires Inv(m, p, c, sent, got) && !c.CIdle?
    ensures var (m', d) := ConsumerStep(m, c); Inv(m', p, d, sent, Returned(c, got))
  {
    hide *;
    match c
    case ReadRLen => ReadRLenKeeps(m, p, c, sent, got);
    case CasRLen(_) => CasRLenKeeps(m, p, c, sent, got);
    case ReadPHead => ReadPHeadKeeps(m, p, c, sent, got);
    case ReadHeadNext(_) => ReadHeadNextKeeps(m, p, c, sent, got);
    case CasPHead(_, _) => CasPHeadKeeps(m, p, c, sent, got);
    case ReadCopyNext(_) => ReadCopyNextKeeps(m, p, c, sent, got);
    case CopyData(_, _, _) => CopyDataKeeps(m, p, c, sent, got);
    case ReadFlagNext(_, _) => ReadFlagNextKeeps(m, p, c, sent, got);
    case ClearUseFlag(_, _) => ClearUseFlagKeeps(m, p, c, sent, got);
    case SubWLen(_) => SubWLenKeeps(m, p, c, sent, got);
  }

  lemma StepKeeps(s: System, e: Event)
    requires Consistent(s) && Sound(s) && Enabled(s, e)
    ensures Consistent(Step(s, e))
  {
    hide Slot, Shape;
    var p, c := s.producers[0], s.consumers[0];
    match e
    case Push(i, item) =>
    case Produce(i) => hide ProducerStep; ProducedKeeps(s.mem, p, c, s.sent, s.got);
    case Pop(i) =>
    case Consume(i) => hide ConsumerStep; ConsumedKeeps(s.mem, p, c, s.sent, s.got);
  }

  lemma {:induction false} RunKeeps(s: System, run: seq<Event>, t: System)
    requires Sound(s) && Consistent(s) && Runs(s, run, t)
    ensures Sound(t) && Consistent(t)
    decreases |run|
  {
    hide Consistent, Step;
    if run != [] {
      StepKeeps(s, run[0]);
      RunKeeps(Step(s, run[0]), run[1..], t);
    }
  }

  /** `t` is a state of a queue used by one pushing and one popping thread. */
  ghost predicate Reachable(t: System) {
    exists unitSize: nat, capacity: nat, run ::
      capacity >= 1 && Runs(Start(unitSize, capacity, 1, 1), run, t)
  }

  lemma ReachableConsistent(t: System)
    requires Reachable(t)
    ensures Sound(t) && Consistent(t)
  {
    hide Consistent, Sound, Runs;
    var unitSize: nat, capacity: nat, run :|
      capacity >= 1 && Runs(Start(unitSize, capacity, 1, 1), run, t);
    StartConsistent(unitSize, capacity);
    RunKeeps(Start(unitSize, capacity, 1, 1), run, t);
  }

  /** First in, first out: what was popped is a prefix of what was pushed, and the
      counters stay in order. */
  lemma PopsArePrefixOfPushes(t: System)
    requires Reachable(t)
    ensures t.got <= t.sent
    ensures 0 <= t.mem.rLen <= t.mem.wLen == |t.sent| - |t.got| <= t.mem.capacity
  {
    hide Slot, Shape;
    ReachableConsistent(t);
  }

  /** The units after `o` on the list, in order. */
  ghost function After(m: Memory, o: int, n: nat): (w: seq<int>)
    requires m.Sound() && m.Holds(o)
    ensures |w| == n && forall i :: 0 <= i < n ==> m.Holds(w[i])
    decreases n
  {
    if n == 0 then [] else [m.At(o).next] + After(m, m.At(o).next, n - 1)
  }

  lemma {:induction false} AfterIsSlots(m: Memory, sent: seq<Payload>, d: int, linked: int, cleared: int,
                                        flagged: int, k: int, n: nat)
    requires m.Sound() && Shape(m, sent, d, linked, cleared, flagged)
    requires d - 1 <= k && k + n < linked
    requires m.Holds(Slot(m.capacity, k))
    ensures forall i :: 0 <= i < n ==> After(m, Slot(m.capacity, k), n)[i] == Slot(m.capacity, k + 1 + i)
    decreases n
  {
    hide Slot, Shape;
    if n > 0 {
      LinkAt(m, sent, d, linked, cleared, flagged, k);
      AfterIsSlots(m, sent, d, linked, cleared, flagged, k + 1, n - 1);
    }
  }

  /** A push is past the capacity check and has not returned. */
  predicate Pushing(p: Producer) { !p.PIdle? && !p.ReadWLen? && !p.CasWLen? }

  /** The consumer has taken the head unit off the list and not returned it. */
  predicate Holding(c: Consumer) {
    c.ReadCopyNext? || c.CopyData? || c.ReadFlagNext? || c.ClearUseFlag? || c.SubWLen?
  }

  /** The list from p_head holds exactly `items`, whole and in order. */
  ghost predicate ListHolds(m: Memory, items: seq<Payload>)
    requires m.Sound()
  {
    var list := [m.pHead] + After(m, m.pHead, |items|);
    && (forall i :: 0 <= i < |items| ==> m.At(list[i + 1]).data == items[i])
    && m.At(list[|items|]).next == LIST_END
  }

  lemma LinkedListed(m: Memory, sent: seq<Payload>, d: int, linked: int, cleared: int, flagged: int, taken: int)
    requires m.Sound() && Shape(m, sent, d, linked, cleared, flagged)
    requires d <= taken <= linked <= |sent| && m.pHead == Slot(m.capacity, taken - 1)
    ensures ListHolds(m, sent[taken..linked])
  {
    hide Slot, Shape;
    ShapeOrder(m, sent, d, linked, cleared, flagged);
    var items := sent[taken..linked];
    var list := [m.pHead] + After(m, m.pHead, |items|);
    AfterIsSlots(m, sent, d, linked, cleared, flagged, taken - 1, |items|);
    assert forall i :: 0 <= i <= |items| ==> list[i] == Slot(m.capacity, taken - 1 + i);
    forall i | 0 <= i < |items| ensures m.At(list[i + 1]).data == items[i] {
      DataAt(m, sent, d, linked, cleared, flagged, taken + i);
    }
    LinkAt(m, sent, d, linked, cleared, flagged, linked - 1);
  }

  /** Nothing is lost and nothing is half-written: the list holds every payload
      accepted and not yet taken, except perhaps the one whose push has not reached
      its linking CAS. */
  lemma ListHoldsBacklog(t: System)
    requires Reachable(t)
    ensures t.mem.Sound() && |t.producers| == 1 && |t.consumers| == 1
    ensures var taken := if Holding(t.consumers[0]) then |t.got| + 1 else |t.got|;
            && taken <= |t.sent|
            && (|| ListHolds(t.mem, t.sent[taken..])
                || (Pushing(t.producers[0]) && taken < |t.sent| && ListHolds(t.mem, t.sent[taken..|t.sent| - 1])))
  {
    hide Slot, Shape, ListHolds, ProducerLocals;
    ReachableConsistent(t);
    var m, p, c := t.mem, t.producers[0], t.consumers[0];
    var n, d := |t.sent|, |t.got|;
    var taken, linked := Headed(c, d), Linked(p, n);
    ShapeOrder(m, t.sent, d, linked, Cleared(c, d), Flagged(p, n));
    LinkedListed(m, t.sent, d, linked, Cleared(c, d), Flagged(p, n), taken);
    if linked == n {
      WholeSuffix(t.sent, taken);
    }
  }

  lemma WholeSuffix(s: seq<Payload>, i: nat)
    requires i <= |s|
    ensures s[i..|s|] == s[i..]
  {
  }

  lemma ShapeOrder(m: Memory, sent: seq<Payload>, d: int, linked: int, cleared: int, flagged: int)
    requires m.Sound() && Shape(m, sent, d, linked, cleared, flagged)
    ensures 0 <= d <= cleared <= linked <= flagged <= |sent|
  {
  }

  /** The unit of the newest payload lies apart from every unit the consumer can
      still reach: the old dummy, the dummy and the list. */
  lemma NewestApart(m: Memory, sent: seq<Payload>, d: int, linked: int, cleared: int, flagged: int, taken: int, k: nat)
    requires m.Sound() && Shape(m, sent, d, linked, cleared, flagged)
    requires d <= taken && taken + k <= linked < |sent| <= d + m.capacity && m.pHead == Slot(m.capacity, taken - 1)
    ensures Slot(m.capacity, |sent| - 1) != Slot(m.capacity, d - 1)
    ensures Slot(m.capacity, |sent| - 1) !in [m.pHead] + After(m, m.pHead, k)
  {
    hide Slot, Shape;
    ShapeOrder(m, sent, d, linked, cleared, flagged);
    SlotsApart(m.capacity);
    AfterIsSlots(m, sent, d, linked, cleared, flagged, taken - 1, k);
    var list := [m.pHead] + After(m, m.pHead, k);
    assert forall i :: 0 <= i <= k ==> list[i] == Slot(m.capacity, taken - 1 + i);
  }

  /** When a push is about to test use_flag, its unit is free, so the allocation
      loop ends on its first probe. */
  lemma FirstProbeSucceeds(t: System)
    requires Reachable(t) && |t.producers| == 1 && |t.consumers| == 1 && t.producers[0].ReadUseFlag?
    ensures t.mem.Sound() && ProducerSound(t.mem, t.producers[0])
    ensures ProducerStep(t.mem, t.producers[0]).1.WriteNext?
  {
    hide Slot, Shape, ConsumerLocals;
    ReachableConsistent(t);
    var m, p, c := t.mem, t.producers[0], t.consumers[0];
    var n, d := |t.sent|, |t.got|;
    FlagAt(m, t.sent, d, Linked(p, n), Cleared(c, d), Flagged(p, n), n - 1);
  }

  /** The linking CAS succeeds at once, so the retry walk along the list is never entered. */
  lemma NeverWalks(t: System)
    requires Reachable(t)
    ensures t.mem.Sound() && |t.producers| == 1 && ProducerSound(t.mem, t.producers[0])
    ensures var p := t.producers[0];
            && !p.WalkTest? && !p.WalkMove?
            && (p.ReadPTail? ==> p.tries == 0)
            && (p.CasNext? ==> ProducerStep(t.mem, p).1.CasPTail?)
  {
    hide Slot, Filled, Flags, ConsumerLocals;
    ReachableConsistent(t);
    var m, p, c := t.mem, t.producers[0], t.consumers[0];
    var n, d := |t.sent|, |t.got|;
    if p.CasNext? {
      LinkAt(m, t.sent, d, Linked(p, n), Cleared(c, d), Flagged(p, n), n - 2);
    }
  }

  /** From its allocation to its linking, the unit of a push is neither the dummy,
      nor on the list, nor the old dummy the consumer still dereferences after its
      CAS on p_head. */
  lemma AllocatedUnitIsFree(t: System)
    requires Reachable(t) && |t.producers| == 1 && |t.consumers| == 1
    requires t.producers[0].HoldsSlot() && !t.producers[0].CasPTail?
    ensures t.mem.Sound()
    ensures forall k: nat :: k <= t.mem.rLen ==> t.producers[0].slot !in [t.mem.pHead] + After(t.mem, t.mem.pHead, k)
    ensures t.consumers[0].ReadCopyNext? || t.consumers[0].CopyData? || t.consumers[0].ReadFlagNext? ==>
              t.producers[0].slot != t.consumers[0].from
  {
    hide Slot, Shape, After;
    ReachableConsistent(t);
    var m, p, c := t.mem, t.producers[0], t.consumers[0];
    var n, d := |t.sent|, |t.got|;
    NewestApart(m, t.sent, d, Linked(p, n), Cleared(c, d), Flagged(p, n), Headed(c, d), 0);
    forall k: nat | k <= m.rLen ensures p.slot !in [m.pHead] + After(m, m.pHead, k) {
      NewestApart(m, t.sent, d, Linked(p, n), Cleared(c, d), Flagged(p, n), Headed(c, d), k);
    }
  }

  /** A push is refused exactly when `capacity` payloads are accepted and not yet
      returned by a pop. */
  lemma RefusedIffFull(t: System)
    requires Reachable(t) && |t.producers| == 1 && t.producers[0].ReadWLen?
    ensures t.mem.Sound() && ProducerSound(t.mem, t.producers[0])
    ensures ProducerStep(t.mem, t.producers[0]).1.PIdle? <==> |t.sent| - |t.got| == t.mem.capacity
  {
    hide Slot, Shape;
    ReachableConsistent(t);
  }

  /** A pop finds the queue empty exactly when every push that returned has been
      popped; lf_queue_len reports how many have not. */
  lemma EmptyIffDrained(t: System)
    requires Reachable(t) && |t.producers| == 1 && |t.consumers| == 1 && t.consumers[0].ReadRLen?
    ensures t.mem.Sound() && ConsumerSound(t.mem, t.consumers[0])
    ensures var returned := |t.sent| - (if Pushing(t.producers[0]) then 1 else 0);
            && t.mem.rLen == returned - |t.got|
            && (ConsumerStep(t.mem, t.consumers[0]).1.CIdle? <==> returned == |t.got|)
  {
    hide Slot, Shape;
    ReachableConsistent(t);
  }
}
