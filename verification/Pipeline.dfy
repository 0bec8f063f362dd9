/** The buffers of app/ctrl.c on their way between threads: database messages from a
    pool of 32 through a ring of 32, alarm messages from a pool of 10 through an SMS
    ring and an e-mail ring of 5.  Any number of threads; one step is one pool or
    ring operation, each of which runs under its own mutex. */
module Pipeline {
  import opened MemPool
  import opened RingBuffer

  datatype Queue = Database | Sms | Email

  /** What a thread does next; the fields are its local pointers. */
  datatype Thread =
    | Idle
    // A database message; an alarm follows it in compare_values and record_com_fail
    // (app/rs232_thread.c) and alarm_data_record (app/di_thread.c).
    | AllocMsg(alarm: bool)
    | PushMsg(m: nat, alarm: bool)
    | FreeMsg(m: nat, alarm: bool)
    // An alarm for both rings: also send_alarm_msg (app/ctrl.c).
    | AllocFirst
    | AllocSecond(a: nat)
    | FreeFirst(a: nat)
    | PushSms(a: nat, b: nat)
    | FreeSms(a: nat, b: nat)
    | PushEmail(b: nat)
    | FreeEmail(b: nat)
    // The reading threads.
    | PopFrom(queue: Queue)
    | FreePopped(queue: Queue, p: nat)

  datatype Stock = Messages | Alarms

  datatype Shared = Shared(msgPool: Pool, alarmPool: Pool, database: Ring, sms: Ring, email: Ring) {
    function PoolOf(stock: Stock): Pool { if stock.Messages? then msgPool else alarmPool }

    function WithPool(stock: Stock, pool: Pool): Shared {
      if stock.Messages? then this.(msgPool := pool) else this.(alarmPool := pool)
    }

    function RingOf(queue: Queue): Ring {
      match queue
      case Database => database
      case Sms => sms
      case Email => email
    }

    function WithRing(queue: Queue, ring: Ring): Shared {
      match queue
      case Database => this.(database := ring)
      case Sms => this.(sms := ring)
      case Email => this.(email := ring)
    }
  }

  /** The calls of the pools and rings, and what they return. */
  datatype Operation = Alloc(stock: Stock) | Free(stock: Stock, p: nat) | Push(queue: Queue, p: nat) | Pop(queue: Queue)

  datatype Answer = Answer(ret: int, p: nat)

  function Perform(s: Shared, op: Operation): (Shared, Answer) {
    match op
    case Alloc(stock) =>
      var (p, pool) := s.PoolOf(stock).Alloc();
      (s.WithPool(stock, pool), Answer(0, p))
    case Free(stock, p) =>
      var (ret, pool) := s.PoolOf(stock).Release(p);
      (s.WithPool(stock, pool), Answer(ret, p))
    case Push(queue, p) =>
      var (ret, ring) := s.RingOf(queue).Push(p);
      (s.WithRing(queue, ring), Answer(ret, p))
    case Pop(queue) =>
      var (ret, p, ring) := s.RingOf(queue).Pop();
      (s.WithRing(queue, ring), Answer(ret, p))
  }

  function StockOf(queue: Queue): Stock { if queue.Database? then Messages else Alarms }

  /** The call a thread makes next. */
  function Next(t: Thread): Operation
    requires !t.Idle?
  {
    match t
    case AllocMsg(_) => Alloc(Messages)
    case PushMsg(m, _) => Push(Database, m)
    case FreeMsg(m, _) => Free(Messages, m)
    case AllocFirst => Alloc(Alarms)
    case AllocSecond(_) => Alloc(Alarms)
    case FreeFirst(a) => Free(Alarms, a)
    case PushSms(a, _) => Push(Sms, a)
    case FreeSms(a, _) => Free(Alarms, a)
    case PushEmail(b) => Push(Email, b)
    case FreeEmail(b) => Free(Alarms, b)
    case PopFrom(queue) => Pop(queue)
    case FreePopped(queue, p) => Free(StockOf(queue), p)
  }

  /** What follows the database message. */
  function AfterMsg(alarm: bool): Thread { if alarm then AllocFirst else Idle }

  /** Where the answer takes it. */
  function Continue(t: Thread, answer: Answer): Thread
    requires !t.Idle?
  {
    match t
    case AllocMsg(alarm) => if answer.p == MemPool.NULL then Idle else PushMsg(answer.p, alarm)
    case PushMsg(m, alarm) => if answer.ret == 0 then AfterMsg(alarm) else FreeMsg(m, alarm)
    case FreeMsg(_, alarm) => AfterMsg(alarm)
    case AllocFirst => if answer.p == MemPool.NULL then Idle else AllocSecond(answer.p)
    case AllocSecond(a) => if answer.p == MemPool.NULL then FreeFirst(a) else PushSms(a, answer.p)
    case FreeFirst(_) => Idle
    case PushSms(a, b) => if answer.ret == 0 then PushEmail(b) else FreeSms(a, b)
    case FreeSms(_, b) => PushEmail(b)
    case PushEmail(b) => if answer.ret == 0 then Idle else FreeEmail(b)
    case FreeEmail(_) => Idle
    case PopFrom(queue) => if answer.ret == 0 then FreePopped(queue, answer.p) else Idle
    case FreePopped(_, _) => Idle
  }

  // Counting.

  /** How often `b` is in `items`. */
  function In(items: seq<nat>, b: nat): nat { multiset(items)[b] }

  /** What to count in a thread's hand: one buffer of a pool, or all of the first. */
  datatype What = MsgBuffer(b: nat) | AlarmBuffer(b: nat) | AllMsg

  function One(p: nat, b: nat): nat { if p == b then 1 else 0 }

  function Hand(w: What, t: Thread): nat {
    match w
    case MsgBuffer(b) =>
      if t.PushMsg? || t.FreeMsg? then One(t.m, b)
      else if t.FreePopped? && t.queue.Database? then One(t.p, b)
      else 0
    case AlarmBuffer(b) =>
      if t.AllocSecond? || t.FreeFirst? then One(t.a, b)
      else if t.PushSms? || t.FreeSms? then One(t.a, b) + One(t.b, b)
      else if t.PushEmail? || t.FreeEmail? then One(t.b, b)
      else if t.FreePopped? && !t.queue.Database? then One(t.p, b)
      else 0
    case AllMsg =>
      if t.PushMsg? || t.FreeMsg? || (t.FreePopped? && t.queue.Database?) then 1 else 0
  }

  function Hands(w: What, threads: seq<Thread>): nat {
    if threads == [] then 0 else Hand(w, threads[0]) + Hands(w, threads[1..])
  }

  lemma {:induction false} HandsUpdate(w: What, threads: seq<Thread>, i: nat, t: Thread)
    requires i < |threads|
    ensures Hands(w, threads[i := t]) + Hand(w, threads[i]) == Hands(w, threads) + Hand(w, t)
    ensures Hand(w, threads[i]) <= Hands(w, threads)
    decreases |threads|
  {
    hide Hand;
    if i > 0 {
      HandsUpdate(w, threads[1..], i - 1, t);
      assert threads[i := t][1..] == threads[1..][i - 1 := t];
    } else {
      assert threads[0 := t][1..] == threads[1..];
    }
  }

  /** In how many places a buffer is: the free list, the rings, the hands. */
  function MsgPlaces(s: Shared, b: nat, hands: nat): nat {
    In(s.msgPool.free, b) + In(s.database.items, b) + hands
  }

  function AlarmPlaces(s: Shared, b: nat, hands: nat): nat {
    In(s.alarmPool.free, b) + In(s.sms.items, b) + In(s.email.items, b) + hands
  }

  // One operation.

  lemma AllocCounts(p: Pool, b: nat)
    requires p.Valid()
    ensures var (x, q) := p.Alloc();
            && q.Valid() && q.buffers == p.buffers
            && In(p.free, b) == In(q.free, b) + (if x != MemPool.NULL then One(x, b) else 0)
            && |p.free| == |q.free| + (if x != MemPool.NULL then 1 else 0)
  {
    AllocKeeps(p);
    if p.free != [] {
      assert p.free == [p.free[0]] + p.free[1..];
    }
  }

  lemma ReleaseCounts(p: Pool, x: nat, b: nat)
    requires p.Valid() && x in p.buffers && In(p.free, x) == 0
    ensures var (ret, q) := p.Release(x);
            && ret == 0 && q.Valid() && q.buffers == p.buffers
            && In(q.free, b) == In(p.free, b) + One(x, b)
            && |q.free| == |p.free| + 1
  {
  }

  lemma InFreeSet(p: Pool, x: nat)
    ensures x in p.FreeSet() <==> In(p.free, x) > 0
  {
  }

  lemma PushCounts(r: Ring, x: nat, b: nat)
    ensures var (ret, q) := r.Push(x);
            && q.capacity == r.capacity
            && In(q.items, b) == In(r.items, b) + (if ret == 0 then One(x, b) else 0)
            && |q.items| == |r.items| + (if ret == 0 then 1 else 0)
  {
  }

  lemma PopCounts(r: Ring, b: nat)
    ensures var (ret, x, q) := r.Pop();
            && q.capacity == r.capacity
            && In(r.items, b) == In(q.items, b) + (if ret == 0 then One(x, b) else 0)
            && |r.items| == |q.items| + (if ret == 0 then 1 else 0)
  {
    if r.items != [] {
      assert r.items == [r.items[0]] + r.items[1..];
    }
  }

  // One step of a thread.

  /** The buffer a thread is about to release is a buffer of the pool and not free;
      a database push finds room. */
  ghost predicate Ready(s: Shared, t: Thread) {
    && s.msgPool.Valid() && s.alarmPool.Valid()
    && (t.PushMsg? ==> t.m != RingBuffer.NULL && |s.database.items| < s.database.capacity)
    && (t.AllocSecond? ==> In(s.alarmPool.free, t.a) == 0)
    && (!t.Idle? && Next(t).Free? ==>
          Next(t).p in s.PoolOf(Next(t).stock).buffers && In(s.PoolOf(Next(t).stock).free, Next(t).p) == 0)
  }

  /** A step moves buffers without losing or copying any: `s` and `t` become `s'` and
      `t'`. */
  ghost predicate Moves(s: Shared, t: Thread, s': Shared, t': Thread, b: nat) {
    && s'.msgPool.Valid() && s'.alarmPool.Valid()
    && s'.msgPool.buffers == s.msgPool.buffers && s'.alarmPool.buffers == s.alarmPool.buffers
    && s'.database.capacity == s.database.capacity
    && MsgPlaces(s', b, Hand(MsgBuffer(b), t')) == MsgPlaces(s, b, Hand(MsgBuffer(b), t))
    && AlarmPlaces(s', b, Hand(AlarmBuffer(b), t')) == AlarmPlaces(s, b, Hand(AlarmBuffer(b), t))
    && |s'.msgPool.free| + |s'.database.items| + Hand(AllMsg, t')
        == |s.msgPool.free| + |s.database.items| + Hand(AllMsg, t)
  }

  /** No mpool_free is refused, nor a push on the database ring. */
  predicate NotRefused(op: Operation, answer: Answer) {
    op.Free? || (op.Push? && op.queue.Database?) ==> answer.ret == 0
  }

  lemma AllocMoves(s: Shared, t: Thread, b: nat)
    requires Ready(s, t) && (t.AllocMsg? || t.AllocFirst? || t.AllocSecond?)
    ensures var (s', answer) := Perform(s, Next(t));
            && Moves(s, t, s', Continue(t, answer), b) && NotRefused(Next(t), answer)
            && (t.AllocSecond? ==> answer.p != t.a || answer.p == MemPool.NULL)
  {
    hide In, Pool.Valid, Pool.Alloc, Pool.Release, Ring.Push, Ring.Pop;
    AllocCounts(s.PoolOf(Next(t).stock), b);
    if t.AllocSecond? {
      AllocCounts(s.alarmPool, t.a);
    }
  }

  lemma FreeMoves(s: Shared, t: Thread, b: nat)
    requires Ready(s, t) && !t.Idle? && Next(t).Free?
    ensures var (s', answer) := Perform(s, Next(t));
            Moves(s, t, s', Continue(t, answer), b) && NotRefused(Next(t), answer)
  {
    hide In, Pool.Valid, Pool.Alloc, Pool.Release, Ring.Push, Ring.Pop;
    ReleaseCounts(s.PoolOf(Next(t).stock), Next(t).p, b);
  }

  lemma PushMoves(s: Shared, t: Thread, b: nat)
    requires Ready(s, t) && (t.PushMsg? || t.PushSms? || t.PushEmail?)
    ensures var (s', answer) := Perform(s, Next(t));
            Moves(s, t, s', Continue(t, answer), b) && NotRefused(Next(t), answer)
  {
    hide In, Pool.Valid, Pool.Alloc, Pool.Release, Ring.Pop;
    PushCounts(s.RingOf(Next(t).queue), Next(t).p, b);
  }

  lemma PopMoves(s: Shared, t: Thread, b: nat)
    requires Ready(s, t) && t.PopFrom?
    ensures var (s', answer) := Perform(s, Next(t));
            Moves(s, t, s', Continue(t, answer), b) && NotRefused(Next(t), answer)
  {
    hide In, Pool.Valid, Pool.Alloc, Pool.Release, Ring.Push, Ring.Pop;
    PopCounts(s.RingOf(t.queue), b);
  }

  lemma ThreadStepMoves(s: Shared, t: Thread, b: nat)
    requires Ready(s, t) && !t.Idle?
    ensures var (s', answer) := Perform(s, Next(t));
            && Moves(s, t, s', Continue(t, answer), b) && NotRefused(Next(t), answer)
            && (t.AllocSecond? ==> answer.p != t.a || answer.p == MemPool.NULL)
  {
    hide Ready, Moves, Perform, Continue, NotRefused;
    match Next(t)
    case Alloc(_) => AllocMoves(s, t, b);
    case Free(_, _) => FreeMoves(s, t, b);
    case Push(_, _) => PushMoves(s, t, b);
    case Pop(_) => PopMoves(s, t, b);
  }

  // The whole system.

  datatype Deed = Deed(op: Operation, answer: Answer)

  /** What happened, in order: the calls threads began, and what they did. */
  datatype Record = Began(i: nat, call: Thread) | Did(i: nat, deed: Deed)

  datatype State = State(shared: Shared, threads: seq<Thread>, log: seq<Record>)

  datatype Event = Start(i: nat, call: Thread) | Step(i: nat)

  predicate Enabled(s: State, e: Event) {
    match e
    case Start(i, call) =>
      i < |s.threads| && s.threads[i].Idle? && (call.AllocMsg? || call.AllocFirst? || call.PopFrom?)
    case Step(i) => i < |s.threads| && !s.threads[i].Idle?
  }

  function Do(s: State, e: Event): State
    requires Enabled(s, e)
  {
    match e
    case Start(i, call) => s.(threads := s.threads[i := call], log := s.log + [Began(i, call)])
    case Step(i) =>
      var t := s.threads[i];
      var (s', answer) := Perform(s.shared, Next(t));
      State(s', s.threads[i := Continue(t, answer)], s.log + [Did(i, Deed(Next(t), answer))])
  }

  ghost predicate Runs(s: State, run: seq<Event>, t: State)
    decreases |run|
  {
    if run == [] then s == t else Enabled(s, run[0]) && Runs(Do(s, run[0]), run[1..], t)
  }

  /** Fresh pools and empty rings, the database ring as large as its pool, as in main:
      32 and 32 there, 10, 5 and 5 for the alarms. */
  ghost predicate Initial(s: State) {
    && s.shared.msgPool.Valid() && s.shared.msgPool.Used() == {}
    && s.shared.alarmPool.Valid() && s.shared.alarmPool.Used() == {}
    && |s.shared.msgPool.buffers| <= s.shared.database.capacity
    && s.shared.database.items == [] && s.shared.sms.items == [] && s.shared.email.items == []
    && s.log == []
    && forall i :: 0 <= i < |s.threads| ==> s.threads[i].Idle?
  }

  const MSG_SIZE: nat := 512        // sizeof(msg_t)
  const ALARM_MSG_SIZE: nat := 768  // sizeof(alarm_msg_t)

  /** The pools and rings main creates; any number of idle threads around them is an
      initial state. */
  method Setup(msgMemory: nat, alarmMemory: nat, ghost threads: nat)
    returns (msgPool: MemoryPool, alarmPool: MemoryPool, database: PointerRing, sms: PointerRing, email: PointerRing)
    requires msgMemory > 0 && alarmMemory > 0
    ensures msgPool.Valid() && alarmPool.Valid() && database.Valid() && sms.Valid() && email.Valid()
    ensures |msgPool.pool.buffers| == database.View().capacity == 32
    ensures |alarmPool.pool.buffers| == 10 && sms.View().capacity == email.View().capacity == 5
    ensures Initial(State(Shared(msgPool.pool, alarmPool.pool, database.View(), sms.View(), email.View()),
                          seq(threads, _ => Idle), []))
  {
    hide MemoryPool.NodesValid, MemoryPool.FreeValid, Pool.Used, Addresses;
    database := new PointerRing(32);
    var m := MemPoolCreate(MSG_SIZE, 32, msgMemory);
    sms := new PointerRing(5);
    email := new PointerRing(5);
    var a := MemPoolCreate(ALARM_MSG_SIZE, 10, alarmMemory);
    msgPool, alarmPool := m, a;
  }

  ghost predicate PlacedOnce(s: State, b: nat) {
    && MsgPlaces(s.shared, b, Hands(MsgBuffer(b), s.threads)) == (if b in s.shared.msgPool.buffers then 1 else 0)
    && AlarmPlaces(s.shared, b, Hands(AlarmBuffer(b), s.threads)) == (if b in s.shared.alarmPool.buffers then 1 else 0)
  }

  predicate NoneRefused(log: seq<Record>) {
    forall k :: 0 <= k < |log| && log[k].Did? ==> NotRefused(log[k].deed.op, log[k].deed.answer)
  }

  ghost predicate Inv(s: State) {
    && s.shared.msgPool.Valid() && s.shared.alarmPool.Valid()
    && (forall b {:trigger PlacedOnce(s, b)} :: PlacedOnce(s, b))
    && |s.shared.msgPool.free| + |s.shared.database.items| + Hands(AllMsg, s.threads) == |s.shared.msgPool.buffers|
    && |s.shared.msgPool.buffers| <= s.shared.database.capacity
    && NoneRefused(s.log)
  }

  /** What a thread holds is nowhere else, and leaves room in the database ring. */
  lemma InvReady(s: State, i: nat)
    requires Inv(s) && i < |s.threads|
    ensures Ready(s.shared, s.threads[i])
  {
    hide In, Pool.Valid, Hands;
    var t := s.threads[i];
    if t.PushMsg? {
      assert PlacedOnce(s, t.m);
      HandsUpdate(MsgBuffer(t.m), s.threads, i, t);
      HandsUpdate(AllMsg, s.threads, i, t);
      NullIsNoBuffer(s.shared.msgPool);
    } else if t.AllocSecond? {
      assert PlacedOnce(s, t.a);
      HandsUpdate(AlarmBuffer(t.a), s.threads, i, t);
    } else if !t.Idle? && Next(t).Free? {
      var p := Next(t).p;
      assert PlacedOnce(s, p);
      HandsUpdate(if Next(t).stock.Messages? then MsgBuffer(p) else AlarmBuffer(p), s.threads, i, t);
    }
  }

  lemma NullIsNoBuffer(p: Pool)
    requires p.Valid()
    ensures RingBuffer.NULL !in p.buffers
  {
  }

  lemma DoKeepsInv(s: State, e: Event)
    requires Inv(s) && Enabled(s, e)
    ensures Inv(Do(s, e))
  {
    hide In, Pool.Valid, Hands, Perform, Continue, Ready, NotRefused;
    var t := Do(s, e);
    var i := e.i;
    var u := t.threads[i];
    if e.Step? {
      InvReady(s, i);
      ThreadStepMoves(s.shared, s.threads[i], 0);
    }
    HandsUpdate(AllMsg, s.threads, i, u);
    forall b ensures PlacedOnce(t, b) {
      assert PlacedOnce(s, b);
      HandsUpdate(MsgBuffer(b), s.threads, i, u);
      HandsUpdate(AlarmBuffer(b), s.threads, i, u);
      if e.Step? {
        ThreadStepMoves(s.shared, s.threads[i], b);
      }
    }
  }

  lemma {:induction false} IdleHandsEmpty(w: What, threads: seq<Thread>)
    requires forall i :: 0 <= i < |threads| ==> threads[i].Idle?
    ensures Hands(w, threads) == 0
    decreases |threads|
  {
    if threads != [] {
      IdleHandsEmpty(w, threads[1..]);
    }
  }

  lemma FreeOnce(p: Pool, b: nat)
    requires p.Valid() && p.Used() == {}
    ensures In(p.free, b) == if b in p.buffers then 1 else 0
  {
    InFreeSet(p, b);
    assert b in p.FreeSet() <==> b in p.buffers by {
      assert b in p.Used() <==> b in p.buffers && b !in p.FreeSet();
      if b in p.FreeSet() { InBuffers(p, b); }
    }
    AtMostOnce(p.free, b);
  }

  lemma InBuffers(p: Pool, b: nat)
    requires p.Valid() && b in p.FreeSet()
    ensures b in p.buffers
  {
  }

  lemma {:induction false} AtMostOnce(items: seq<nat>, b: nat)
    requires forall i, j :: 0 <= i < j < |items| ==> items[i] != items[j]
    ensures In(items, b) <= 1
    decreases |items|
  {
    if items != [] {
      assert items == [items[0]] + items[1..];
      AtMostOnce(items[1..], b);
      if items[0] == b {
        assert b !in items[1..];
      }
    }
  }

  lemma InitialInv(s: State)
    requires Initial(s)
    ensures Inv(s)
  {
    IdleHandsEmpty(AllMsg, s.threads);
    FreeAndUsed(s.shared.msgPool);
    forall b ensures PlacedOnce(s, b) {
      IdleHandsEmpty(MsgBuffer(b), s.threads);
      IdleHandsEmpty(AlarmBuffer(b), s.threads);
      FreeOnce(s.shared.msgPool, b);
      FreeOnce(s.shared.alarmPool, b);
    }
  }

  lemma {:induction false} RunKeepsInv(s: State, run: seq<Event>, t: State)
    requires Inv(s) && Runs(s, run, t)
    ensures Inv(t)
    decreases |run|
  {
    hide Inv;
    if run != [] {
      DoKeepsInv(s, run[0]);
      RunKeepsInv(Do(s, run[0]), run[1..], t);
    }
  }

  // The main results.

  /** In every state of every run each buffer is in exactly one place, no mpool_free has
      been refused and no push on the database ring has failed. */
  lemma EveryBufferInOnePlace(s: State, run: seq<Event>, t: State, b: nat)
    requires Initial(s) && Runs(s, run, t)
    ensures MsgPlaces(t.shared, b, Hands(MsgBuffer(b), t.threads)) == if b in t.shared.msgPool.buffers then 1 else 0
    ensures AlarmPlaces(t.shared, b, Hands(AlarmBuffer(b), t.threads))
             == if b in t.shared.alarmPool.buffers then 1 else 0
    ensures forall k :: 0 <= k < |t.log| && t.log[k].Did? ==>
              var (op, ret) := (t.log[k].deed.op, t.log[k].deed.answer.ret);
              op.Free? || (op.Push? && op.queue == Database) ==> ret == 0
  {
    InitialInv(s);
    RunKeepsInv(s, run, t);
    assert PlacedOnce(t, b);
  }

  /** The next push on the database ring will not fail either. */
  lemma DatabasePushSucceeds(s: State, run: seq<Event>, t: State, i: nat)
    requires Initial(s) && Runs(s, run, t) && i < |t.threads| && t.threads[i].PushMsg?
    ensures t.shared.database.Push(t.threads[i].m).0 == 0
  {
    InitialInv(s);
    RunKeepsInv(s, run, t);
    InvReady(t, i);
  }

  lemma {:induction false} InItems(items: seq<nat>, b: nat)
    ensures In(items, b) > 0 <==> b in items
    decreases |items|
  {
    if items != [] {
      InItems(items[1..], b);
    }
  }

  /** Nothing leaks: whenever every thread is idle, the buffers that are not free are
      exactly those on the rings, each once. */
  lemma NothingLeaks(s: State, run: seq<Event>, t: State)
    requires Initial(s) && Runs(s, run, t)
    requires forall i :: 0 <= i < |t.threads| ==> t.threads[i].Idle?
    ensures t.shared.msgPool.Used() == set b | b in t.shared.database.items
    ensures t.shared.alarmPool.Used() == set b | b in t.shared.sms.items + t.shared.email.items
    ensures forall b :: In(t.shared.database.items, b) <= 1
    ensures forall b :: In(t.shared.sms.items, b) + In(t.shared.email.items, b) <= 1
  {
    hide Runs, In, Hands, Initial;
    forall b: nat
      ensures b in t.shared.msgPool.Used() <==> b in t.shared.database.items
      ensures b in t.shared.alarmPool.Used() <==> b in t.shared.sms.items + t.shared.email.items
      ensures In(t.shared.database.items, b) <= 1
      ensures In(t.shared.sms.items, b) + In(t.shared.email.items, b) <= 1
    {
      EveryBufferInOnePlace(s, run, t, b);
      IdleHandsEmpty(MsgBuffer(b), t.threads);
      IdleHandsEmpty(AlarmBuffer(b), t.threads);
      InFreeSet(t.shared.msgPool, b);
      InFreeSet(t.shared.alarmPool, b);
      InItems(t.shared.database.items, b);
      InItems(t.shared.sms.items, b);
      InItems(t.shared.email.items, b);
    }
  }
}
