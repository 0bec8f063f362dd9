/** Exactly how many threads the lock-free queue can serve. */
module LfQueueThreads {
  import opened LfQueue
  import opened LfQueueRuns
  import opened LfQueueOne
  import opened LfQueueRace

  // Without a popping thread no unit is used twice.

  predicate Allocating(p: Producer) { p.ReadWTail? || p.CasWTail? }

  /** The pushes that have room and no unit yet. */
  function Allocations(ps: seq<Producer>): nat {
    if ps == [] then 0 else Allocations(ps[..|ps| - 1]) + if Allocating(ps[|ps| - 1]) then 1 else 0
  }

  lemma {:induction false} AllocationsUpdate(ps: seq<Producer>, i: nat, q: Producer)
    requires i < |ps|
    ensures Allocations(ps[i := q])
            == Allocations(ps) - (if Allocating(ps[i]) then 1 else 0) + (if Allocating(q) then 1 else 0)
    ensures Allocating(ps[i]) ==> Allocations(ps) > 0
    decreases |ps|
  {
    var last := |ps| - 1;
    if i < last {
      AllocationsUpdate(ps[..last], i, q);
      assert ps[i := q][..last] == ps[..last][i := q];
    } else {
      assert ps[i := q][..last] == ps[..last];
    }
  }

  /** The unit is not flagged yet. */
  predicate Early(p: Producer) { p.ReadUseFlag? || p.WriteNext? || p.WriteUseFlag? }

  ghost predicate Apart(ps: seq<Producer>, wTail: int) {
    && (forall i :: 0 <= i < |ps| && ps[i].HoldsSlot() ==> ps[i].slot < wTail)
    && (forall i, j :: 0 <= i < j < |ps| && ps[i].HoldsSlot() && ps[j].HoldsSlot() ==> ps[i].slot != ps[j].slot)
  }

  ghost predicate Unflagged(m: Memory, ps: seq<Producer>) {
    && (forall o :: 0 <= m.wTail < o < |m.units| ==> !m.units[o].useFlag)
    && (forall i :: 0 <= i < |ps| && Early(ps[i]) && 0 <= ps[i].slot < |m.units| - 1 ==>
          !m.units[ps[i].slot + 1].useFlag)
  }

  ghost predicate NoPops(s: System) {
    && s.consumers == [] && s.mem.pHead == LIST_END
    && s.mem.wTail + Allocations(s.producers) == s.mem.wLen <= s.mem.capacity
    && (forall i :: 0 <= i < |s.producers| && s.producers[i].CasWLen? ==> s.producers[i].seen < s.mem.capacity)
    && Apart(s.producers, s.mem.wTail) && Unflagged(s.mem, s.producers)
  }

  /** What one access of a push may do to what NoPops speaks of. */
  ghost predicate Effect(m: Memory, p: Producer, m': Memory, q: Producer) {
    && m'.pHead == m.pHead && m'.capacity == m.capacity && |m'.units| == |m.units|
    && m'.wLen - m.wLen == (if Allocating(q) then 1 else 0) - (if Allocating(p) then 1 else 0) + m'.wTail - m.wTail
    && (m'.wLen != m.wLen ==> p.CasWLen? && m'.wLen == p.seen + 1)
    && (q.CasWLen? ==> q.seen < m.capacity)
    && (q.HoldsSlot() ==> if p.HoldsSlot() then q.slot == p.slot && m'.wTail == m.wTail
                          else q.ReadUseFlag? && q.slot == m.wTail && m'.wTail == m.wTail + 1)
    && (!q.HoldsSlot() ==> m'.wTail == m.wTail)
    && (Early(q) && p.HoldsSlot() ==> Early(p))
    && (forall o :: 0 <= o < |m.units| && |m'.units| == |m.units| ==>
          m'.units[o].useFlag == m.units[o].useFlag || (p.WriteUseFlag? && o == p.slot + 1 && !Early(q)))
  }

  predicate Ready(m: Memory, p: Producer) {
    && m.Sound() && ProducerSound(m, p) && !p.PIdle?
    && (p.CasWLen? ==> p.seen < m.capacity) && (Allocating(p) ==> m.wTail < m.capacity)
    && (Early(p) ==> !m.At(p.slot).useFlag)
  }

  lemma ReserveEffect(m: Memory, p: Producer)
    requires Ready(m, p) && (p.ReadWLen? || p.CasWLen? || p.ReadWTail? || p.ReadUseFlag?)
    ensures var (m', q) := ProducerStep(m, p); Effect(m, p, m', q)
  {
    hide FillStep, LinkStep;
  }

  /** Units are allocated in order, without going round. */
  lemma AllocateEffect(m: Memory, p: Producer)
    requires Ready(m, p) && p.CasWTail?
    ensures var (m', q) := ProducerStep(m, p); Effect(m, p, m', q)
  {
    hide FillStep, LinkStep, Early;
    Wrapped(p.seen, m.capacity);
    assert ProducerStep(m, p) == ReserveStep(m, p);
  }

  lemma FillEffect(m: Memory, p: Producer)
    requires Ready(m, p) && (p.WriteNext? || p.WriteUseFlag? || p.WriteData?)
    ensures var (m', q) := ProducerStep(m, p); Effect(m, p, m', q)
  {
  }

  lemma LinkEffect(m: Memory, p: Producer)
    requires Ready(m, p) && (p.ReadPTail? || p.WalkTest? || p.WalkMove? || p.CasNext? || p.CasPTail? || p.AddRLen?)
    ensures var (m', q) := ProducerStep(m, p); Effect(m, p, m', q)
  {
    hide FillStep, ReserveStep;
  }

  lemma StepEffect(m: Memory, p: Producer)
    requires Ready(m, p)
    ensures var (m', q) := ProducerStep(m, p); Effect(m, p, m', q)
  {
    hide ProducerStep, Effect;
    if p.WriteNext? || p.WriteUseFlag? || p.WriteData? {
      FillEffect(m, p);
    } else if p.CasWTail? {
      AllocateEffect(m, p);
    } else if p.ReadWLen? || p.CasWLen? || p.ReadWTail? || p.ReadUseFlag? {
      ReserveEffect(m, p);
    } else {
      LinkEffect(m, p);
    }
  }

  lemma EffectKeeps(m: Memory, ps: seq<Producer>, i: nat, m': Memory, q: Producer)
    requires i < |ps| && Apart(ps, m.wTail) && Unflagged(m, ps) && Effect(m, ps[i], m', q)
    requires 0 <= m.wTail <= m'.wTail && (q.HoldsSlot() ==> 0 <= q.slot < |m.units| - 1)
    requires ps[i].HoldsSlot() ==> 0 <= ps[i].slot < |m.units| - 1
    ensures Apart(ps[i := q], m'.wTail) && Unflagged(m', ps[i := q])
  {
  }

  lemma IsReady(s: System, i: nat)
    requires NoPops(s) && Sound(s) && i < |s.producers| && !s.producers[i].PIdle?
    ensures Ready(s.mem, s.producers[i])
  {
    AllocationsUpdate(s.producers, i, PIdle);
  }

  lemma EffectMeans(m: Memory, p: Producer, m': Memory, q: Producer)
    requires Effect(m, p, m', q)
    ensures m'.pHead == m.pHead && m'.capacity == m.capacity && |m'.units| == |m.units| && m.wTail <= m'.wTail
    ensures m'.wLen - m.wLen == (if Allocating(q) then 1 else 0) - (if Allocating(p) then 1 else 0) + m'.wTail - m.wTail
    ensures (m'.wLen != m.wLen ==> p.CasWLen? && m'.wLen == p.seen + 1) && (q.CasWLen? ==> q.seen < m.capacity)
  {
  }

  lemma CallKeeps(m: Memory, ps: seq<Producer>, i: nat, item: Payload)
    requires i < |ps| && Apart(ps, m.wTail) && Unflagged(m, ps)
    ensures Apart(ps[i := ReadWLen(item)], m.wTail) && Unflagged(m, ps[i := ReadWLen(item)])
  {
  }

  lemma StepNoPops(s: System, e: Event)
    requires NoPops(s) && Sound(s) && Enabled(s, e)
    ensures NoPops(Step(s, e))
  {
    hide ProducerStep, Effect, Apart, Unflagged, Allocations;
    if e.Produce? {
      var p := s.producers[e.i];
      var (m', q) := ProducerStep(s.mem, p);
      AllocationsUpdate(s.producers, e.i, q);
      IsReady(s, e.i);
      StepEffect(s.mem, p);
      EffectMeans(s.mem, p, m', q);
      EffectKeeps(s.mem, s.producers, e.i, m', q);
    } else {
      AllocationsUpdate(s.producers, e.i, ReadWLen(e.item));
      CallKeeps(s.mem, s.producers, e.i, e.item);
    }
  }

  lemma {:induction false} RunNoPops(s: System, run: seq<Event>, t: System)
    requires Sound(s) && NoPops(s) && Runs(s, run, t)
    ensures Sound(t) && NoPops(t)
    decreases |run|
  {
    hide NoPops, Step, Enabled, Sound;
    if run != [] {
      StepNoPops(s, run[0]);
      RunNoPops(Step(s, run[0]), run[1..], t);
    }
  }

  lemma {:induction false} NoAllocations(n: nat)
    ensures Allocations(seq(n, _ => PIdle)) == 0
    decreases n
  {
    if n > 0 {
      NoAllocations(n - 1);
      assert seq(n, _ => PIdle)[..n - 1] == seq(n - 1, _ => PIdle);
    }
  }

  /** However many threads push, as long as none pops. */
  lemma UnpoppedApart(unitSize: nat, capacity: nat, producers: nat, run: seq<Event>, t: System)
    requires capacity >= 1 && Runs(Start(unitSize, capacity, producers, 0), run, t)
    ensures !SharesUnit(t) && !FillsDummy(t)
  {
    hide Runs, Allocations;
    NoAllocations(producers);
    RunNoPops(Start(unitSize, capacity, producers, 0), run, t);
  }

  // The number of threads never changes.

  lemma {:induction false} SameThreads(s: System, run: seq<Event>, t: System)
    requires Sound(s) && Runs(s, run, t)
    ensures |t.producers| == |s.producers| && |t.consumers| == |s.consumers|
    decreases |run|
  {
    hide Step, Enabled, Sound;
    if run != [] {
      SameThreads(Step(s, run[0]), run[1..], t);
    }
  }

  // The exact conditions.

  lemma AtOneApart(unitSize: nat, producers: nat, consumers: nat, run: seq<Event>, t: System)
    requires Runs(Start(unitSize, 1, producers, consumers), run, t)
    ensures !SharesUnit(t) && !FillsDummy(t)
  {
    hide Runs, Start;
    AnyThreadsAtOne(unitSize, producers, consumers, run, t);
  }

  lemma OneEachApart(unitSize: nat, capacity: nat, run: seq<Event>, t: System)
    requires capacity >= 1 && Runs(Start(unitSize, capacity, 1, 1), run, t)
    ensures !SharesUnit(t) && !FillsDummy(t)
  {
    hide Runs, Start;
    assert Reachable(t);
    OneEachFree(t);
  }

  lemma OneEachFree(t: System)
    requires Reachable(t)
    ensures !SharesUnit(t) && !FillsDummy(t)
  {
    hide Reachable;
    ReachableConsistent(t);
    if t.producers[0].HoldsSlot() && !t.producers[0].CasPTail? {
      AllocatedUnitIsFree(t);
      assert t.mem.pHead in [t.mem.pHead] + LfQueueRuns.After(t.mem, t.mem.pHead, 0);
    }
  }

  /** Two pushes can own one unit exactly when two threads push, one pops, and the queue
      has room for two payloads. */
  lemma SharesUnitIff(unitSize: nat, capacity: nat, producers: nat, consumers: nat)
    requires capacity >= 1
    ensures (exists t :: Reaches(Start(unitSize, capacity, producers, consumers), t) && SharesUnit(t))
            <==> producers >= 2 && consumers >= 1 && capacity >= 2
  {
    hide SharesUnit, Start, Runs;
    var s := Start(unitSize, capacity, producers, consumers);
    if producers >= 2 && consumers >= 1 && capacity >= 2 {
      var t := TwoProducersShareUnit(unitSize, capacity, producers, consumers);
    } else {
      forall t | Reaches(s, t) ensures !SharesUnit(t) {
        var run :| Runs(s, run, t);
        if consumers == 0 {
          UnpoppedApart(unitSize, capacity, producers, run, t);
        } else if capacity == 1 {
          AtOneApart(unitSize, producers, consumers, run, t);
        } else {
          StartThreads(unitSize, capacity, producers, consumers);
          SameThreads(s, run, t);
          LoneApart(t);
        }
      }
    }
  }

  lemma StartThreads(unitSize: nat, capacity: nat, producers: nat, consumers: nat)
    requires capacity >= 1
    ensures var s := Start(unitSize, capacity, producers, consumers);
            |s.producers| == producers && |s.consumers| == consumers
  {
  }

  lemma LoneApart(t: System)
    requires |t.producers| <= 1
    ensures !SharesUnit(t)
  {
  }

  /** A push can fill the unit p_head names exactly when there is more than one thread on
      one side, one on the other, and room for two payloads; and then it can do so with a
      counted payload linked behind that unit. */
  lemma FillsDummyIff(unitSize: nat, capacity: nat, producers: nat, consumers: nat)
    requires capacity >= 1
    ensures (exists t :: Reaches(Start(unitSize, capacity, producers, consumers), t) && FillsDummy(t))
            <==> producers >= 1 && consumers >= 1 && producers + consumers >= 3 && capacity >= 2
    ensures (exists t :: Reaches(Start(unitSize, capacity, producers, consumers), t) && FillsDummy(t) && Backlog(t.mem))
            <==> producers >= 1 && consumers >= 1 && producers + consumers >= 3 && capacity >= 2
  {
    hide FillsDummy, Backlog, Start, Runs;
    var s := Start(unitSize, capacity, producers, consumers);
    if producers >= 1 && consumers >= 1 && producers + consumers >= 3 && capacity >= 2 {
      var t;
      if producers >= 2 {
        t := TwoProducersFillDummy(unitSize, capacity, producers, consumers);
      } else {
        t := TwoConsumersFillDummy(unitSize, capacity, producers, consumers);
      }
    } else {
      forall t | Reaches(s, t) ensures !FillsDummy(t) {
        var run :| Runs(s, run, t);
        if consumers == 0 {
          UnpoppedApart(unitSize, capacity, producers, run, t);
        } else if capacity == 1 {
          AtOneApart(unitSize, producers, consumers, run, t);
        } else if producers == 0 {
          StartThreads(unitSize, capacity, producers, consumers);
          SameThreads(s, run, t);
          NoPusher(t);
        } else {
          OneEachApart(unitSize, capacity, run, t);
        }
      }
    }
  }

  lemma NoPusher(t: System)
    requires t.producers == []
    ensures !FillsDummy(t)
  {
  }
}
