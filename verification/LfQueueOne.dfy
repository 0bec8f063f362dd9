/** A queue of capacity 1: there is one place to reserve, so one thread at most pushes
    and one at most pops, however many there are, and all that holds of one pushing and
    one popping thread holds of them. */
module LfQueueOne {
  import opened LfQueue
  import opened LfQueueFifo
  import opened LfQueueRuns

  /** A push that has not passed the capacity check. */
  predicate Outside(p: Producer, capacity: nat) { p.PIdle? || p.ReadWLen? || (p.CasWLen? && p.seen < capacity) }

  /** A pop that has not claimed a payload. */
  predicate OutsideC(c: Consumer) { c.CIdle? || c.ReadRLen? || (c.CasRLen? && c.seen > 0) }

  predicate Popping(c: Consumer) { !c.CIdle? && !c.ReadRLen? && !c.CasRLen? }

  /** The thread at `i`; an idle one stands for none. */
  function Pusher(s: System, i: int): Producer
    requires -1 <= i < |s.producers|
  {
    if i == -1 then PIdle else s.producers[i]
  }

  function Popper(s: System, j: int): Consumer
    requires -1 <= j < |s.consumers|
  {
    if j == -1 then CIdle else s.consumers[j]
  }

  /** Thread `i` alone pushes and thread `j` alone pops. */
  ghost predicate One(s: System, i: int, j: int) {
    && s.mem.capacity == 1
    && -1 <= i < |s.producers| && -1 <= j < |s.consumers|
    && (forall k :: 0 <= k < |s.producers| && k != i ==> Outside(s.producers[k], 1))
    && (forall k :: 0 <= k < |s.consumers| && k != j ==> OutsideC(s.consumers[k]))
    && (i >= 0 ==> Pushing(s.producers[i])) && (j >= 0 ==> Popping(s.consumers[j]))
    && Inv(s.mem, Pusher(s, i), Popper(s, j), s.sent, s.got)
  }

  /** A push outside the queue changes nothing the invariant speaks of. */
  lemma StandsIn(m: Memory, p: Producer, c: Consumer, sent: seq<Payload>, got: seq<Payload>)
    requires Inv(m, PIdle, c, sent, got) && Outside(p, m.capacity) && ProducerSound(m, p)
    ensures Inv(m, p, c, sent, got)
  {
    hide Slot, Shape;
  }

  lemma StandsInC(m: Memory, p: Producer, c: Consumer, sent: seq<Payload>, got: seq<Payload>)
    requires Inv(m, p, CIdle, sent, got) && OutsideC(c)
    ensures Inv(m, p, c, sent, got)
  {
    hide Slot, Shape;
  }

  /** With one place, a push past the check leaves no room, and a claimed payload leaves
      none to claim. */
  lemma NoRoom(m: Memory, p: Producer, c: Consumer, sent: seq<Payload>, got: seq<Payload>)
    requires Inv(m, p, c, sent, got) && m.capacity == 1
    ensures Pushing(p) ==> m.wLen == 1
    ensures Popping(c) ==> m.rLen <= 0
  {
    hide Slot, Shape;
  }

  lemma ProduceOne(s: System, k: nat, i: int, j: int) returns (i': int)
    requires One(s, i, j) && Sound(s) && k < |s.producers| && !s.producers[k].PIdle?
    ensures One(Step(s, Produce(k)), i', j)
  {
    hide Inv, ProducerStep;
    var m, p, c := s.mem, s.producers[k], Popper(s, j);
    var (m', q) := ProducerStep(m, p);
    if k == i {
      ProducedKeeps(m, p, c, s.sent, s.got);
      PastStays(m, p);
      i' := if q.PIdle? then -1 else i;
    } else {
      OutsideSteps(m, p);
      i' := i;
      if m' != m {
        NoRoom(m, Pusher(s, i), c, s.sent, s.got);
        StandsIn(m, p, c, s.sent, s.got);
        ProducedKeeps(m, p, c, s.sent, s.got);
        i' := k;
      }
    }
  }

  /** Past the check a push stays past it until it returns. */
  lemma PastStays(m: Memory, p: Producer)
    requires m.Sound() && ProducerSound(m, p) && Pushing(p)
    ensures var (m', q) := ProducerStep(m, p); m'.capacity == m.capacity && (q.PIdle? || Pushing(q))
  {
  }

  lemma OutsideSteps(m: Memory, p: Producer)
    requires m.Sound() && ProducerSound(m, p) && Outside(p, m.capacity) && !p.PIdle?
    ensures var (m', q) := ProducerStep(m, p);
            && m'.capacity == m.capacity
            && (m' == m ==> Outside(q, m.capacity))
            && (m' != m ==> p.CasWLen? && m.wLen == p.seen && q == ReadWTail(p.item))
            && (p.CasWLen? && q.ReadWTail? ==> m' != m)
  {
  }

  lemma ConsumeOne(s: System, k: nat, i: int, j: int) returns (j': int)
    requires One(s, i, j) && Sound(s) && k < |s.consumers| && !s.consumers[k].CIdle?
    ensures One(Step(s, Consume(k)), i, j')
  {
    hide Inv, ConsumerStep;
    var m, c, p := s.mem, s.consumers[k], Pusher(s, i);
    var (m', d) := ConsumerStep(m, c);
    if k == j {
      ConsumedKeeps(m, p, c, s.sent, s.got);
      PastStaysC(m, c);
      j' := if d.CIdle? then -1 else j;
    } else {
      OutsideStepsC(m, c);
      j' := j;
      if m' != m {
        NoRoom(m, p, Popper(s, j), s.sent, s.got);
        StandsInC(m, p, c, s.sent, s.got);
        ConsumedKeeps(m, p, c, s.sent, s.got);
        j' := k;
      }
    }
  }

  lemma PastStaysC(m: Memory, c: Consumer)
    requires m.Sound() && ConsumerSound(m, c) && Popping(c)
    ensures var (m', d) := ConsumerStep(m, c); m'.capacity == m.capacity && (d.CIdle? || Popping(d))
  {
  }

  lemma OutsideStepsC(m: Memory, c: Consumer)
    requires m.Sound() && ConsumerSound(m, c) && OutsideC(c) && !c.CIdle?
    ensures var (m', d) := ConsumerStep(m, c);
            && m'.capacity == m.capacity
            && (m' == m ==> OutsideC(d))
            && (m' != m ==> c.CasRLen? && m.rLen == c.seen && d == ReadPHead)
  {
  }

  lemma StepOne(s: System, e: Event, i: int, j: int) returns (i': int, j': int)
    requires One(s, i, j) && Sound(s) && Enabled(s, e)
    ensures One(Step(s, e), i', j')
  {
    hide Inv, ProducerStep, ConsumerStep;
    i', j' := i, j;
    match e {
      case Push(k, item) =>
      case Produce(k) => i' := ProduceOne(s, k, i, j);
      case Pop(k) =>
      case Consume(k) => j' := ConsumeOne(s, k, i, j);
    }
  }

  lemma {:induction false} RunOne(s: System, run: seq<Event>, t: System, i: int, j: int) returns (i': int, j': int)
    requires Sound(s) && One(s, i, j) && Runs(s, run, t)
    ensures Sound(t) && One(t, i', j')
    decreases |run|
  {
    hide One, Step, Enabled, Sound;
    i', j' := i, j;
    if run != [] {
      i', j' := StepOne(s, run[0], i, j);
      i', j' := RunOne(Step(s, run[0]), run[1..], t, i', j');
    }
  }

  lemma StartOne(unitSize: nat, producers: nat, consumers: nat)
    ensures One(Start(unitSize, 1, producers, consumers), -1, -1)
  {
    hide Inv, Fresh;
    StartConsistent(unitSize, 1);
    assert Start(unitSize, 1, 1, 1).mem == Fresh(unitSize, 1);
    FreshSize(unitSize);
  }

  lemma FreshSize(unitSize: nat)
    ensures Fresh(unitSize, 1).capacity == 1
  {
  }

  /** What every run of a queue of capacity 1 guarantees: first in, first out, whatever
      the number of threads; at most one push is past the capacity check, and the unit it
      holds is not the dummy. */
  lemma AnyThreadsAtOne(unitSize: nat, producers: nat, consumers: nat, run: seq<Event>, t: System)
    requires Runs(Start(unitSize, 1, producers, consumers), run, t)
    ensures t.got <= t.sent && 0 <= t.mem.rLen <= t.mem.wLen == |t.sent| - |t.got| <= 1
    ensures forall i, k :: 0 <= i < k < |t.producers| ==> !Pushing(t.producers[i]) || !Pushing(t.producers[k])
    ensures forall k :: 0 <= k < |t.producers| && t.producers[k].HoldsSlot() && !t.producers[k].CasPTail? ==>
              t.producers[k].slot != t.mem.pHead
  {
    hide Runs, Start, Inv;
    StartOne(unitSize, producers, consumers);
    var i, j := RunOne(Start(unitSize, 1, producers, consumers), run, t, -1, -1);
    OneMeans(t.mem, Pusher(t, i), Popper(t, j), t.sent, t.got);
  }

  lemma OneMeans(m: Memory, p: Producer, c: Consumer, sent: seq<Payload>, got: seq<Payload>)
    requires Inv(m, p, c, sent, got)
    ensures got <= sent && 0 <= m.rLen <= m.wLen == |sent| - |got| <= m.capacity
    ensures p.HoldsSlot() && !p.CasPTail? ==> p.slot != m.pHead
  {
    hide Slot, Shape;
    ShapeOrder(m, sent, |got|, Linked(p, |sent|), Cleared(c, |got|), Flagged(p, |sent|));
    if p.HoldsSlot() && !p.CasPTail? {
      NewestApart(m, sent, |got|, Linked(p, |sent|), Cleared(c, |got|), Flagged(p, |sent|), Headed(c, |got|), 0);
    }
  }
}
