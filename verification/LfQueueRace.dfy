/** Runs of the lock-free queue in which a unit is allocated that is not free. */
module LfQueueRace {
  import opened LfQueue

  ghost predicate Reaches(s: System, t: System) {
    Sound(s) && Sound(t) && exists run :: Runs(s, run, t)
  }

  lemma Here(s: System)
    requires Sound(s)
    ensures Reaches(s, s)
  {
    assert Runs(s, [], s);
  }

  lemma {:induction false} RunsOn(s: System, run: seq<Event>, u: System, e: Event)
    requires Sound(s) && Runs(s, run, u) && Sound(u) && Enabled(u, e)
    ensures Runs(s, run + [e], Step(u, e))
    decreases |run|
  {
    hide Step, Enabled, Sound;
    if run == [] {
      assert ([] + [e])[1..] == [];
      assert Runs(Step(u, e), [], Step(u, e));
    } else {
      assert (run + [e])[1..] == run[1..] + [e];
      RunsOn(Step(s, run[0]), run[1..], u, e);
    }
  }

  lemma After(s: System, u: System, e: Event)
    requires Reaches(s, u) && Enabled(u, e)
    ensures Reaches(s, Step(u, e))
  {
    hide Step, Enabled, Sound, Runs;
    var run :| Runs(s, run, u);
    RunsOn(s, run, u, e);
  }

  /** `u` with another memory and another state of producer `i`. */
  predicate ProducerAt(u: System, t: System, i: nat, m: Memory, p: Producer) {
    i < |u.producers| && t.mem == m && t.producers == u.producers[i := p] && t.consumers == u.consumers
  }

  predicate ConsumerAt(u: System, t: System, i: nat, m: Memory, c: Consumer) {
    i < |u.consumers| && t.mem == m && t.consumers == u.consumers[i := c] && t.producers == u.producers
  }

  /** The next access of producer `i`. */
  lemma Next(s: System, u: System, i: nat) returns (t: System)
    requires Reaches(s, u) && i < |u.producers| && !u.producers[i].PIdle?
    ensures Reaches(s, t)
    ensures u.mem.Sound() && ProducerSound(u.mem, u.producers[i])
    ensures var r := ProducerStep(u.mem, u.producers[i]); ProducerAt(u, t, i, r.0, r.1)
  {
    hide Runs, Reaches, ProducerStep;
    SoundOf(s, u);
    t := Step(u, Produce(i));
    After(s, u, Produce(i));
  }

  lemma NextC(s: System, u: System, i: nat) returns (t: System)
    requires Reaches(s, u) && i < |u.consumers| && !u.consumers[i].CIdle?
    ensures Reaches(s, t)
    ensures u.mem.Sound() && ConsumerSound(u.mem, u.consumers[i])
    ensures var r := ConsumerStep(u.mem, u.consumers[i]); ConsumerAt(u, t, i, r.0, r.1)
  {
    hide Runs, Reaches, ConsumerStep;
    SoundOf(s, u);
    t := Step(u, Consume(i));
    After(s, u, Consume(i));
  }

  lemma SoundOf(s: System, u: System)
    requires Reaches(s, u)
    ensures Sound(s) && Sound(u)
  {
  }

  // What a part of a push or a pop, undisturbed, does to the queue.

  function Filled(m: Memory, o: nat, item: Payload): (r: Memory)
    requires |m.units| > o + 1
    ensures r.unitSize == m.unitSize && r.capacity == m.capacity && |r.units| == |m.units|
  {
    m.(units := m.units[o + 1 := Node(LIST_END, true, item)])
  }

  function Linked(m: Memory, o: nat): (r: Memory)
    requires m.Holds(m.pTail) && |m.units| == m.capacity + 2
    ensures r.unitSize == m.unitSize && r.capacity == m.capacity && |r.units| == |m.units|
  {
    m.(pTail := o, rLen := m.rLen + 1, units := m.units[m.pTail + 1 := m.At(m.pTail).(next := o)])
  }

  function Cleared(m: Memory, o: int): (r: Memory)
    requires 0 <= o + 1 < |m.units|
    ensures r.unitSize == m.unitSize && r.capacity == m.capacity && |r.units| == |m.units|
  {
    m.(wLen := m.wLen - 1, units := m.units[o + 1 := m.units[o + 1].(useFlag := false)])
  }

  function Reserved(m: Memory, o: nat): Memory { m.(wLen := m.wLen + 1, wTail := o + 1) }

  function Taken(m: Memory, o: int): Memory { m.(rLen := m.rLen - 1, pHead := o) }

  /** The room check passes, and the first probe finds unit `o` in use or not. */
  predicate Probes(m: Memory, o: nat, used: bool) {
    && m.Sound() && m.wLen < m.capacity
    && o == m.wTail % (m.capacity + 1) <= m.capacity && m.At(o).useFlag == used
  }

  /** A later probe finds unit `o` free. */
  predicate Retries(m: Memory, o: nat) {
    m.Sound() && o == m.wTail % (m.capacity + 1) <= m.capacity && !m.At(o).useFlag
  }

  predicate Fills(m: Memory, item: Payload, o: nat) {
    m.Sound() && |item| == m.unitSize && o <= m.capacity
  }

  predicate Links(m: Memory) { m.Sound() && m.At(m.pTail).next == LIST_END }

  predicate Takes(m: Memory, from: int, o: int) {
    m.Sound() && m.rLen > 0 && from == m.pHead && o == m.At(from).next
  }

  predicate Finishes(m: Memory, from: int, o: int) {
    m.Sound() && m.Holds(from) && m.At(from).next == o && m.Holds(o)
  }

  // Pushing.

  /** Up to the first probe, which finds its unit in use or not. */
  lemma Reserve(s: System, u: System, i: nat, item: Payload, o: nat, used: bool) returns (t: System)
    requires Reaches(s, u) && i < |u.producers| && u.producers[i].PIdle? && |item| == u.mem.unitSize
    requires Probes(u.mem, o, used)
    ensures Reaches(s, t)
    ensures ProducerAt(u, t, i, Reserved(u.mem, o), if used then ReadWTail(item) else WriteNext(item, o))
  {
    hide Reaches, Sound;
    SoundOf(s, u);
    After(s, u, Push(i, item));
    t := Step(u, Push(i, item));
    t := Next(s, t, i);
    assert t.producers[i] == CasWLen(item, u.mem.wLen);
    t := Next(s, t, i);
    assert t.producers[i] == ReadWTail(item) && t.mem == u.mem.(wLen := u.mem.wLen + 1);
    t := Next(s, t, i);
    assert t.producers[i] == CasWTail(item, u.mem.wTail);
    t := Next(s, t, i);
    assert t.producers[i] == ReadUseFlag(item, o);
    t := Next(s, t, i);
  }

  /** The next probe, which finds its unit free. */
  lemma Again(s: System, u: System, i: nat, item: Payload, o: nat) returns (t: System)
    requires Reaches(s, u) && i < |u.producers| && u.producers[i] == ReadWTail(item)
    requires Retries(u.mem, o)
    ensures Reaches(s, t) && ProducerAt(u, t, i, u.mem.(wTail := o + 1), WriteNext(item, o))
  {
    hide Reaches, Sound;
    t := Next(s, u, i);
    assert t.producers[i] == CasWTail(item, u.mem.wTail);
    t := Next(s, t, i);
    assert t.producers[i] == ReadUseFlag(item, o);
    t := Next(s, t, i);
  }

  /** The rest of the memcpy, after `k` bytes. */
  lemma {:induction false} FillBytes(s: System, u: System, i: nat, item: Payload, o: nat, k: nat) returns (t: System)
    requires Reaches(s, u) && i < |u.producers| && u.producers[i] == WriteData(item, o, k)
    requires Fills(u.mem, item, o) && k <= |item| && u.mem.At(o).data[..k] == item[..k]
    ensures Reaches(s, t)
    ensures ProducerAt(u, t, i, u.mem.Put(o, u.mem.At(o).(data := item)), ReadPTail(item, o, 0))
    decreases |item| - k
  {
    hide Reaches, Sound;
    t := Next(s, u, i);
    if k < |item| {
      assert u.mem.At(o).data[k := item[k]][..k + 1] == item[..k + 1];
      t := FillBytes(s, t, i, item, o, k + 1);
    } else {
      assert u.mem.At(o).data == item;
    }
  }

  /** The unit is filled. */
  lemma Fill(s: System, u: System, i: nat, item: Payload, o: nat) returns (t: System)
    requires Reaches(s, u) && i < |u.producers| && u.producers[i] == WriteNext(item, o)
    requires Fills(u.mem, item, o)
    ensures Reaches(s, t) && ProducerAt(u, t, i, Filled(u.mem, o, item), ReadPTail(item, o, 0))
  {
    hide Reaches, Sound;
    t := Next(s, u, i);
    t := Next(s, t, i);
    t := FillBytes(s, t, i, item, o, 0);
    assert t.mem.units == Filled(u.mem, o, item).units;
  }

  /** The unit is linked and counted. */
  lemma Link(s: System, u: System, i: nat, item: Payload, o: nat) returns (t: System)
    requires Reaches(s, u) && i < |u.producers| && u.producers[i] == ReadPTail(item, o, 0)
    requires Links(u.mem)
    ensures Reaches(s, t) && ProducerAt(u, t, i, Linked(u.mem, o), PIdle)
  {
    hide Reaches, Sound;
    t := Next(s, u, i);
    t := Next(s, t, i);
    t := Next(s, t, i);
    t := Next(s, t, i);
  }

  function Pushed(m: Memory, item: Payload, o: nat): (r: Memory)
    requires m.Holds(m.pTail) && |m.units| == m.capacity + 2 && o <= m.capacity
    ensures r.unitSize == m.unitSize && r.capacity == m.capacity && |r.units| == |m.units|
  {
    Linked(Filled(Reserved(m, o), o, item), o)
  }

  predicate CanPush(m: Memory, item: Payload, o: nat) {
    Probes(m, o, false) && |item| == m.unitSize && (o == m.pTail || m.At(m.pTail).next == LIST_END)
  }

  /** A whole push. */
  lemma PushAlone(s: System, u: System, i: nat, item: Payload, o: nat) returns (t: System)
    requires Reaches(s, u) && i < |u.producers| && u.producers[i].PIdle? && CanPush(u.mem, item, o)
    ensures Reaches(s, t) && ProducerAt(u, t, i, Pushed(u.mem, item, o), PIdle)
  {
    hide Reaches;
    t := Reserve(s, u, i, item, o, false);
    t := Fill(s, t, i, item, o);
    t := Link(s, t, i, item, o);
  }

  // Popping.

  /** Up to the CAS on p_head. */
  lemma Take(s: System, u: System, i: nat, from: int, o: int) returns (t: System)
    requires Reaches(s, u) && i < |u.consumers| && u.consumers[i].CIdle? && Takes(u.mem, from, o)
    ensures Reaches(s, t) && ConsumerAt(u, t, i, Taken(u.mem, o), ReadCopyNext(from))
  {
    hide Reaches, Sound;
    SoundOf(s, u);
    After(s, u, Pop(i));
    t := Step(u, Pop(i));
    t := NextC(s, t, i);
    t := NextC(s, t, i);
    t := NextC(s, t, i);
    t := NextC(s, t, i);
    t := NextC(s, t, i);
  }

  lemma {:induction false} CopyBytes(s: System, u: System, i: nat, from: int) returns (t: System, buf: Payload)
    requires Reaches(s, u) && i < |u.consumers| && u.consumers[i].CopyData? && u.consumers[i].from == from
    requires |u.consumers[i].buf| <= u.mem.unitSize
    ensures Reaches(s, t) && ConsumerAt(u, t, i, u.mem, ReadFlagNext(from, buf))
    decreases u.mem.unitSize - |u.consumers[i].buf|
  {
    hide Reaches, Sound;
    t := NextC(s, u, i);
    buf := u.consumers[i].buf;
    if |buf| < u.mem.unitSize {
      t, buf := CopyBytes(s, t, i, from);
    }
  }

  /** From there to the return. */
  lemma Finish(s: System, u: System, i: nat, from: int, o: int) returns (t: System)
    requires Reaches(s, u) && i < |u.consumers| && u.consumers[i] == ReadCopyNext(from)
    requires Finishes(u.mem, from, o)
    ensures Reaches(s, t) && ConsumerAt(u, t, i, Cleared(u.mem, o), CIdle)
  {
    hide Reaches, Sound;
    var buf;
    t := NextC(s, u, i);
    t, buf := CopyBytes(s, t, i, from);
    t := NextC(s, t, i);
    t := NextC(s, t, i);
    t := NextC(s, t, i);
  }

  function Popped(m: Memory, o: int): (r: Memory)
    requires 0 <= o + 1 < |m.units|
    ensures r.unitSize == m.unitSize && r.capacity == m.capacity && |r.units| == |m.units|
  {
    Cleared(Taken(m, o), o)
  }

  /** A whole pop. */
  lemma PopAlone(s: System, u: System, i: nat, o: int) returns (t: System)
    requires Reaches(s, u) && i < |u.consumers| && u.consumers[i].CIdle? && Takes(u.mem, u.mem.pHead, o)
    ensures u.mem.Holds(o) && |u.mem.units| == u.mem.capacity + 2
    ensures Reaches(s, t) && ConsumerAt(u, t, i, Popped(u.mem, o), CIdle)
  {
    hide Reaches;
    t := Take(s, u, i, u.mem.pHead, o);
    t := Finish(s, t, i, u.mem.pHead, o);
  }

  // Sharing a unit.

  /** No unit is in use. */
  predicate Clear(m: Memory) { forall i :: 1 <= i < |m.units| ==> !m.units[i].useFlag }

  /** Units 0 to k - 1 were allocated; the push that holds unit 0 has not flagged it, and
      every other payload was popped. */
  ghost predicate Lapping(m: Memory, k: nat) {
    && m.Sound() && Clear(m) && 1 <= k <= m.capacity + 1
    && m.wTail == k && m.wLen == 1 && m.rLen == 0
    && m.pHead == m.pTail == (if k == 1 then LIST_END else k - 1) && m.At(m.pTail).next == LIST_END
  }

  lemma LapMemory(m: Memory, item: Payload, k: nat)
    requires Lapping(m, k) && 1 < m.capacity && k <= m.capacity && |item| == m.unitSize
    ensures CanPush(m, item, k) && Takes(Pushed(m, item, k), m.pHead, k)
    ensures Lapping(Popped(Pushed(m, item, k), k), k + 1)
  {
    Wrapped(k, m.capacity);
  }

  lemma SoundMem(s: System, u: System)
    requires Reaches(s, u)
    ensures u.mem.Sound()
  {
  }

  /** Thread 1 pushes and thread 0 pops, until every unit was allocated once. */
  lemma {:induction false} Laps(s: System, u: System, item: Payload, k: nat) returns (t: System)
    requires Reaches(s, u) && Lapping(u.mem, k) && 1 < u.mem.capacity && |item| == u.mem.unitSize
    requires |u.producers| > 1 && u.producers[1].PIdle? && |u.consumers| > 0 && u.consumers[0].CIdle?
    ensures Reaches(s, t) && Lapping(t.mem, t.mem.capacity + 1)
    ensures t.mem.capacity == u.mem.capacity && t.mem.unitSize == u.mem.unitSize
    ensures t.producers == u.producers && t.consumers == u.consumers
    decreases u.mem.capacity + 1 - k
  {
    hide Reaches, Lapping, CanPush, Takes, Linked, Filled, Cleared;
    t := u;
    LappingTo(u.mem, k);
    if k <= u.mem.capacity {
      LapMemory(u.mem, item, k);
      t := PushAlone(s, t, 1, item, k);
      t := PopAlone(s, t, 0, k);
      assert t.producers == u.producers && t.consumers == u.consumers;
      t := Laps(s, t, item, k + 1);
    }
  }

  lemma LappingTo(m: Memory, k: nat)
    requires Lapping(m, k)
    ensures 1 <= k <= m.capacity + 1
  {
  }

  /** A push past its probe owns its unit. */
  predicate Owns(p: Producer) { p.HoldsSlot() && !p.ReadUseFlag? }

  /** Two pushes own one unit. */
  ghost predicate SharesUnit(t: System) {
    exists i, j :: 0 <= i < j < |t.producers| && Owns(t.producers[i]) && Owns(t.producers[j])
                   && t.producers[i].slot == t.producers[j].slot
  }

  /** While one push has allocated unit 0 and not yet flagged it, another goes round the
      array and allocates unit 0 as well. */
  lemma BothAtUnit0(unitSize: nat, capacity: nat, producers: nat, consumers: nat) returns (t: System)
    requires capacity > 1 && producers > 1 && consumers > 0
    ensures Reaches(Start(unitSize, capacity, producers, consumers), t)
    ensures t.mem.Sound() && t.mem.unitSize == unitSize && t.mem.capacity == capacity && Clear(t.mem)
    ensures t.mem.wTail == 1 && t.mem.wLen == 2 && t.mem.rLen == 0 && t.mem.pHead == t.mem.pTail == capacity
    ensures t.mem.At(capacity).next == LIST_END
    ensures |t.producers| > 1 && t.producers[0] == t.producers[1] == WriteNext(Zeros(unitSize), 0)
    ensures |t.consumers| > 0 && t.consumers[0].CIdle?
  {
    hide Reaches;
    var s, z := Start(unitSize, capacity, producers, consumers), Zeros(unitSize);
    Here(s);
    FirstReserved(unitSize, capacity);
    hide Fresh, Lapping;
    t := Reserve(s, s, 0, z, 0, false);
    t := Laps(s, t, z, 1);
    AfterLaps(t.mem);
    t := Reserve(s, t, 1, z, 0, false);
    SoundMem(s, t);
  }

  lemma FirstReserved(unitSize: nat, capacity: nat)
    requires capacity > 1
    ensures var m := Fresh(unitSize, capacity); Probes(m, 0, false) && Lapping(Reserved(m, 0), 1)
  {
  }

  lemma AfterLaps(m: Memory)
    requires Lapping(m, m.capacity + 1) && 1 < m.capacity
    ensures Probes(m, 0, false) && Clear(m) && m.wLen == 1 && m.rLen == 0 && m.pHead == m.pTail == m.capacity
    ensures m.At(m.capacity).next == LIST_END
  {
    Wrapped(m.capacity + 1, m.capacity);
  }

  lemma TwoProducersShareUnit(unitSize: nat, capacity: nat, producers: nat, consumers: nat) returns (t: System)
    requires capacity > 1 && producers > 1 && consumers > 0
    ensures Reaches(Start(unitSize, capacity, producers, consumers), t) && SharesUnit(t)
  {
    hide Reaches, Start;
    t := BothAtUnit0(unitSize, capacity, producers, consumers);
  }

  // Allocating the dummy.

  /** A push is filling the unit p_head names. */
  ghost predicate FillsDummy(t: System) {
    exists i :: 0 <= i < |t.producers| && Owns(t.producers[i]) && !t.producers[i].CasPTail?
                && t.producers[i].slot == t.mem.pHead
  }

  /** A payload that was counted is linked behind it. */
  predicate Backlog(m: Memory) { m.Sound() && m.rLen > 0 && m.At(m.pHead).next != LIST_END }

  /** The second of two pushes that share unit 0 is popped while the first is stalled. */
  lemma TwoProducersFillDummy(unitSize: nat, capacity: nat, producers: nat, consumers: nat) returns (t: System)
    requires capacity > 1 && producers > 1 && consumers > 0
    ensures Reaches(Start(unitSize, capacity, producers, consumers), t) && FillsDummy(t) && Backlog(t.mem)
  {
    hide Reaches, Start;
    var s, z := Start(unitSize, capacity, producers, consumers), Zeros(unitSize);
    t := BothAtUnit0(unitSize, capacity, producers, consumers);
    var m := t.mem;
    DummyMemory(m, z);
    hide Filled, Linked, Cleared;
    t := Fill(s, t, 1, z, 0);
    t := Link(s, t, 1, z, 0);
    t := PopAlone(s, t, 0, 0);
    t := PushAlone(s, t, 1, z, 1);
    assert t.producers[0] == WriteNext(z, 0);
  }

  lemma DummyMemory(m: Memory, item: Payload)
    requires m.Sound() && Clear(m) && m.capacity > 1 && m.unitSize == |item|
    requires m.wTail == 1 && m.wLen == 2 && m.rLen == 0 && m.pHead == m.pTail == m.capacity
    requires m.At(m.capacity).next == LIST_END
    ensures Fills(m, item, 0)
    ensures var m1 := Filled(m, 0, item);
            Links(m1) && Takes(Linked(m1, 0), m.pHead, 0) && |m1.units| > 1
    ensures var m3 := Popped(Linked(Filled(m, 0, item), 0), 0);
            CanPush(m3, item, 1) && m3.pHead == 0 && Pushed(m3, item, 1).pHead == 0 && Backlog(Pushed(m3, item, 1))
  {
    Wrapped(1, m.capacity);
  }

  /** Units 0 to k - 1 are linked, in use and counted; nothing was popped. */
  ghost predicate Stacked(m: Memory, k: nat) {
    && m.Sound() && k <= m.capacity && m.wTail == m.wLen == m.rLen == k
    && m.pHead == LIST_END && m.pTail == k - 1
    && (forall i :: 0 <= i <= k ==> m.units[i].next == if i == k then LIST_END else i)
    && (forall i :: 1 <= i < |m.units| ==> m.units[i].useFlag == (i <= k))
  }

  lemma StackMemory(m: Memory, item: Payload, k: nat)
    requires Stacked(m, k) && k < m.capacity && |item| == m.unitSize
    ensures CanPush(m, item, k) && Stacked(Pushed(m, item, k), k + 1)
  {
    Wrapped(k, m.capacity);
  }

  lemma {:induction false} Stack(s: System, u: System, item: Payload, k: nat) returns (t: System)
    requires Reaches(s, u) && Stacked(u.mem, k) && |item| == u.mem.unitSize
    requires |u.producers| > 0 && u.producers[0].PIdle?
    ensures Reaches(s, t) && Stacked(t.mem, t.mem.capacity)
    ensures t.mem.capacity == u.mem.capacity && t.mem.unitSize == u.mem.unitSize
    ensures t.producers == u.producers && t.consumers == u.consumers
    decreases u.mem.capacity - k
  {
    hide Reaches, CanPush, Pushed;
    t := u;
    if k < u.mem.capacity {
      StackMemory(u.mem, item, k);
      t := PushAlone(s, t, 0, item, k);
      assert t.producers == u.producers;
      t := Stack(s, t, item, k + 1);
    }
  }

  /** The queue is full; the first popping thread takes unit 0 and stalls, the second
      pops units 1 and 2, and in between the last unit is filled. */
  lemma DrainMemory(m: Memory, item: Payload)
    requires Stacked(m, m.capacity) && m.capacity > 1 && |item| == m.unitSize
    ensures Takes(m, LIST_END, 0) && Takes(Taken(m, 0), 0, 1)
    ensures var m2 := Popped(Taken(m, 0), 1); CanPush(m2, item, m.capacity)
    ensures var m3 := Pushed(Popped(Taken(m, 0), 1), item, m.capacity); Takes(m3, 1, 2) && Drained(Popped(m3, 2))
  {
    Wrapped(m.capacity, m.capacity);
  }

  /** Unit 2 is the dummy, unit 0 is still in use, and unit 1 is free. */
  ghost predicate Drained(m: Memory) {
    && m.Sound() && 1 < m.capacity && m.wTail == m.capacity + 1
    && m.wLen == m.capacity - 1 && m.rLen == m.capacity - 2
    && m.pHead == 2 && m.pTail == m.capacity
    && m.units[0].next == 0 && m.At(m.capacity).next == LIST_END && (m.capacity > 2 ==> m.units[3].next == 3)
    && m.units[1].useFlag && !m.units[2].useFlag && !m.units[3].useFlag
  }

  /** A push skips unit 0 and fills unit 1, the stalled pop returns, and the next push
      comes to unit 2. */
  lemma RefillMemory(m: Memory, item: Payload)
    requires Drained(m) && |item| == m.unitSize
    ensures Probes(m, 0, true) && Retries(Reserved(m, 0), 1) && Fills(Reserved(m, 0).(wTail := 2), item, 1)
    ensures var m2 := Filled(Reserved(m, 0).(wTail := 2), 1, item);
            && Links(m2) && Finishes(Linked(m2, 1), LIST_END, 0)
            && Probes(Cleared(Linked(m2, 1), 0), 2, false)
            && var m3 := Reserved(Cleared(Linked(m2, 1), 0), 2); m3.pHead == 2 && Backlog(m3)
  {
    Wrapped(m.capacity + 1, m.capacity);
    Wrapped(1, m.capacity);
    Wrapped(2, m.capacity);
  }

  lemma Drain(unitSize: nat, capacity: nat, producers: nat, consumers: nat) returns (t: System)
    requires capacity > 1 && producers > 0 && consumers > 1
    ensures Reaches(Start(unitSize, capacity, producers, consumers), t)
    ensures Drained(t.mem) && t.mem.unitSize == unitSize && t.mem.capacity == capacity
    ensures |t.producers| > 0 && t.producers[0].PIdle?
    ensures |t.consumers| > 0 && t.consumers[0] == ReadCopyNext(LIST_END)
  {
    hide Reaches, Fresh, Stacked, Drained, Linked, Filled, Cleared;
    var s, z := Start(unitSize, capacity, producers, consumers), Zeros(unitSize);
    Here(s);
    FreshStacked(unitSize, capacity);
    t := Stack(s, s, z, 0);
    DrainMemory(t.mem, z);
    t := Take(s, t, 0, LIST_END, 0);
    t := PopAlone(s, t, 1, 1);
    t := PushAlone(s, t, 0, z, capacity);
    t := PopAlone(s, t, 1, 2);
  }

  /** While one popping thread holds the payload it took, another pops, so that units
      become free out of order and a push comes round to the dummy. */
  lemma TwoConsumersFillDummy(unitSize: nat, capacity: nat, producers: nat, consumers: nat) returns (t: System)
    requires capacity > 1 && producers > 0 && consumers > 1
    ensures Reaches(Start(unitSize, capacity, producers, consumers), t) && FillsDummy(t) && Backlog(t.mem)
  {
    hide Reaches, Start, Drained, Filled, Linked, Cleared, Backlog;
    var s, z := Start(unitSize, capacity, producers, consumers), Zeros(unitSize);
    t := Drain(unitSize, capacity, producers, consumers);
    RefillMemory(t.mem, z);
    t := Reserve(s, t, 0, z, 0, true);
    t := Again(s, t, 0, z, 1);
    t := Fill(s, t, 0, z, 1);
    t := Link(s, t, 0, z, 1);
    t := Finish(s, t, 0, LIST_END, 0);
    t := Reserve(s, t, 0, z, 2, false);
    assert t.producers[0] == WriteNext(z, 2);
  }

  lemma FreshStacked(unitSize: nat, capacity: nat)
    requires capacity > 1
    ensures Stacked(Fresh(unitSize, capacity), 0)
    ensures Fresh(unitSize, capacity).unitSize == unitSize && Fresh(unitSize, capacity).capacity == capacity
  {
  }
}
