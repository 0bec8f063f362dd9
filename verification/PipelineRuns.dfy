/** What the log of every run of the pipeline says: each alarm is offered once to each
    ring, and the rings and pools answer in order. */
module PipelineRuns {
  import MemPool
  import opened Pipeline

  /** What to collect from the deeds of a thread, or of all. */
  datatype Kind =
    | Tried(stock: Stock)
    | Got(stock: Stock)
    | Freed(stock: Stock)
    | Pushed(queue: Queue)
    | Accepted(queue: Queue)
    | Refused(queue: Queue)
    | Popped(queue: Queue)

  predicate Is(d: Deed, w: Kind) {
    match w
    case Tried(stock) => d.op == Alloc(stock)
    case Got(stock) => d.op == Alloc(stock) && d.answer.p != MemPool.NULL
    case Freed(stock) => d.op.Free? && d.op.stock == stock
    case Pushed(queue) => d.op.Push? && d.op.queue == queue
    case Accepted(queue) => d.op.Push? && d.op.queue == queue && d.answer.ret == 0
    case Refused(queue) => d.op.Push? && d.op.queue == queue && d.answer.ret != 0
    case Popped(queue) => d.op == Pop(queue) && d.answer.ret == 0
  }

  /** The buffer passed or returned. */
  function Pointer(d: Deed): nat { if d.op.Free? || d.op.Push? then d.op.p else d.answer.p }

  function Pointers(deeds: seq<Deed>, w: Kind): seq<nat> {
    if deeds == [] then []
    else
      var d := deeds[|deeds| - 1];
      Pointers(deeds[..|deeds| - 1], w) + if Is(d, w) then [Pointer(d)] else []
  }

  lemma PointersMore(deeds: seq<Deed>, d: Deed, w: Kind)
    ensures Pointers(deeds + [d], w) == Pointers(deeds, w) + if Is(d, w) then [Pointer(d)] else []
  {
    assert (deeds + [d])[..|deeds|] == deeds;
  }

  /** The deeds of all threads. */
  function Deeds(log: seq<Record>): seq<Deed> {
    if log == [] then []
    else
      var last := log[|log| - 1];
      Deeds(log[..|log| - 1]) + if last.Did? then [last.deed] else []
  }

  /** The last call thread `i` began, Idle when there is none, and its deeds since. */
  function LastCall(log: seq<Record>, i: nat): (Thread, seq<Deed>) {
    if log == [] then (Idle, [])
    else
      var last, before := log[|log| - 1], log[..|log| - 1];
      if last.i != i then LastCall(before, i)
      else if last.Began? then (last.call, [])
      else (LastCall(before, i).0, LastCall(before, i).1 + [last.deed])
  }

  // What one call does.

  ghost predicate None(deeds: seq<Deed>, kinds: set<Kind>) {
    forall w :: w in kinds ==> Pointers(deeds, w) == []
  }

  const MESSAGE_KINDS: set<Kind> := {Tried(Messages), Got(Messages), Pushed(Database), Accepted(Database),
                                     Refused(Database)}
  const ALARM_KINDS: set<Kind> := {Tried(Alarms), Got(Alarms), Pushed(Sms), Accepted(Sms), Refused(Sms),
                                   Pushed(Email), Accepted(Email), Refused(Email)}
  const POP_KINDS: set<Kind> := {Popped(Database), Popped(Sms), Popped(Email)}

  /** One message buffer is asked for; one that was obtained is offered once to the
      database ring, and freed if it is refused. */
  ghost predicate MessageDone(d: seq<Deed>) {
    && |Pointers(d, Tried(Messages))| == 1
    && |Pointers(d, Got(Messages))| <= 1
    && Pointers(d, Pushed(Database)) == Pointers(d, Got(Messages))
    && Pointers(d, Freed(Messages)) == Pointers(d, Refused(Database))
  }

  /** Two alarm buffers are asked for, the second only when there was a first.  With both,
      the first is offered once to the SMS ring and the second, another one, once to the
      e-mail ring, and those refused are freed; with one, it is freed. */
  ghost predicate AlarmDone(d: seq<Deed>) {
    var got := Pointers(d, Got(Alarms));
    && |got| <= 2
    && |Pointers(d, Tried(Alarms))| == (if got == [] then 1 else 2)
    && (if |got| == 2 then
          && got[0] != got[1]
          && Pointers(d, Pushed(Sms)) == [got[0]] && Pointers(d, Pushed(Email)) == [got[1]]
          && Pointers(d, Freed(Alarms)) == Pointers(d, Refused(Sms)) + Pointers(d, Refused(Email))
        else
          && Pointers(d, Pushed(Sms)) == [] && Pointers(d, Pushed(Email)) == []
          && Pointers(d, Freed(Alarms)) == got)
  }

  /** One pointer at most is popped, and what is popped is freed to the pool of that ring. */
  ghost predicate ReadDone(queue: Queue, d: seq<Deed>) {
    && |Pointers(d, Popped(queue))| <= 1
    && Pointers(d, Freed(StockOf(queue))) == Pointers(d, Popped(queue))
    && Pointers(d, Freed(if queue.Database? then Alarms else Messages)) == []
    && (forall q: Queue :: q != queue ==> Pointers(d, Popped(q)) == [])
  }

  /** All a finished call has done. */
  ghost predicate Done(call: Thread, d: seq<Deed>) {
    match call
    case AllocMsg(alarm) =>
      && MessageDone(d) && None(d, POP_KINDS)
      && (if alarm && Pointers(d, Got(Messages)) != [] then AlarmDone(d)
          else None(d, ALARM_KINDS + {Freed(Alarms)}))
    case AllocFirst => AlarmDone(d) && None(d, MESSAGE_KINDS + POP_KINDS + {Freed(Messages)})
    case PopFrom(queue) => ReadDone(queue, d) && None(d, MESSAGE_KINDS + ALARM_KINDS)
    case _ => d == []
  }

  // The same in the middle of a call.

  ghost predicate MessageSoFar(t: Thread, d: seq<Deed>) {
    match t
    case AllocMsg(_) => None(d, MESSAGE_KINDS + {Freed(Messages)})
    case PushMsg(m, _) =>
      && |Pointers(d, Tried(Messages))| == 1 && Pointers(d, Got(Messages)) == [m]
      && None(d, {Pushed(Database), Refused(Database), Freed(Messages)})
    case FreeMsg(m, _) =>
      && |Pointers(d, Tried(Messages))| == 1 && Pointers(d, Got(Messages)) == [m]
      && Pointers(d, Pushed(Database)) == [m] && Pointers(d, Refused(Database)) == [m]
      && None(d, {Freed(Messages)})
    case _ => MessageDone(d)
  }

  ghost predicate AlarmSoFar(t: Thread, d: seq<Deed>) {
    var tried, got := |Pointers(d, Tried(Alarms))|, Pointers(d, Got(Alarms));
    match t
    case AllocFirst => None(d, ALARM_KINDS + {Freed(Alarms)})
    case AllocSecond(a) =>
      tried == 1 && got == [a] && None(d, {Pushed(Sms), Refused(Sms), Pushed(Email), Refused(Email), Freed(Alarms)})
    case FreeFirst(a) =>
      tried == 2 && got == [a] && None(d, {Pushed(Sms), Refused(Sms), Pushed(Email), Refused(Email), Freed(Alarms)})
    case PushSms(a, b) =>
      && tried == 2 && got == [a, b] && a != b
      && None(d, {Pushed(Sms), Refused(Sms), Pushed(Email), Refused(Email), Freed(Alarms)})
    case FreeSms(a, b) =>
      && tried == 2 && got == [a, b] && a != b
      && Pointers(d, Pushed(Sms)) == [a] && Pointers(d, Refused(Sms)) == [a]
      && None(d, {Pushed(Email), Refused(Email), Freed(Alarms)})
    case PushEmail(b) =>
      && tried == 2 && |got| == 2 && got[1] == b && got[0] != b
      && Pointers(d, Pushed(Sms)) == [got[0]]
      && Pointers(d, Freed(Alarms)) == Pointers(d, Refused(Sms))
      && None(d, {Pushed(Email), Refused(Email)})
    case FreeEmail(b) =>
      && tried == 2 && |got| == 2 && got[1] == b && got[0] != b
      && Pointers(d, Pushed(Sms)) == [got[0]]
      && Pointers(d, Freed(Alarms)) == Pointers(d, Refused(Sms))
      && Pointers(d, Pushed(Email)) == [b] && Pointers(d, Refused(Email)) == [b]
    case _ => t.Idle? && AlarmDone(d)
  }

  ghost predicate ReadSoFar(queue: Queue, t: Thread, d: seq<Deed>) {
    match t
    case PopFrom(q) => q == queue && None(d, POP_KINDS + {Freed(Messages), Freed(Alarms)})
    case FreePopped(q, p) =>
      && q == queue && Pointers(d, Popped(q)) == [p]
      && None(d, POP_KINDS - {Popped(q)} + {Freed(Messages), Freed(Alarms)})
    case _ => t.Idle? && ReadDone(queue, d)
  }

  predicate InMessage(t: Thread) { t.AllocMsg? || t.PushMsg? || t.FreeMsg? }

  ghost predicate SoFar(call: Thread, t: Thread, d: seq<Deed>) {
    match call
    case AllocMsg(alarm) =>
      && None(d, POP_KINDS) && MessageSoFar(t, d) && (InMessage(t) ==> t.alarm == alarm)
      && (if !InMessage(t) && alarm && Pointers(d, Got(Messages)) != [] then AlarmSoFar(t, d)
          else (InMessage(t) || t.Idle?) && None(d, ALARM_KINDS + {Freed(Alarms)}))
    case AllocFirst => None(d, MESSAGE_KINDS + POP_KINDS + {Freed(Messages)}) && AlarmSoFar(t, d)
    case PopFrom(queue) => None(d, MESSAGE_KINDS + ALARM_KINDS) && ReadSoFar(queue, t, d)
    case _ => t.Idle? && d == []
  }

  // One deed more.

  ghost predicate Extends(d: seq<Deed>, deed: Deed, d': seq<Deed>) {
    forall w :: Pointers(d', w) == Pointers(d, w) + if Is(deed, w) then [Pointer(deed)] else []
  }

  lemma NoneStays(d: seq<Deed>, deed: Deed, d': seq<Deed>, kinds: set<Kind>)
    requires Extends(d, deed, d') && None(d, kinds) && forall w :: w in kinds ==> !Is(deed, w)
    ensures None(d', kinds)
  {
    hide Pointers, Is;
  }

  lemma MessageGoesOn(t: Thread, d: seq<Deed>, answer: Answer, d': seq<Deed>)
    requires InMessage(t) && MessageSoFar(t, d) && NotRefused(Next(t), answer)
    requires Extends(d, Deed(Next(t), answer), d')
    ensures MessageSoFar(Continue(t, answer), d')
  {
    hide Pointers;
  }

  lemma AllocGoesOn(t: Thread, d: seq<Deed>, answer: Answer, d': seq<Deed>)
    requires t.AllocFirst? || t.AllocSecond? || t.FreeFirst?
    requires AlarmSoFar(t, d) && Extends(d, Deed(Next(t), answer), d')
    requires t.AllocSecond? ==> answer.p != t.a || answer.p == MemPool.NULL
    ensures AlarmSoFar(Continue(t, answer), d')
  {
    hide Pointers;
  }

  lemma SmsGoesOn(t: Thread, d: seq<Deed>, answer: Answer, d': seq<Deed>)
    requires t.PushSms? || t.FreeSms?
    requires AlarmSoFar(t, d) && Extends(d, Deed(Next(t), answer), d')
    ensures AlarmSoFar(Continue(t, answer), d')
  {
    hide Pointers;
  }

  lemma EmailGoesOn(t: Thread, d: seq<Deed>, answer: Answer, d': seq<Deed>)
    requires t.PushEmail? || t.FreeEmail?
    requires AlarmSoFar(t, d) && Extends(d, Deed(Next(t), answer), d')
    ensures AlarmSoFar(Continue(t, answer), d')
  {
    hide Pointers;
  }

  lemma AlarmGoesOn(t: Thread, d: seq<Deed>, answer: Answer, d': seq<Deed>)
    requires InAlarm(t) && AlarmSoFar(t, d) && Extends(d, Deed(Next(t), answer), d')
    requires t.AllocSecond? ==> answer.p != t.a || answer.p == MemPool.NULL
    ensures AlarmSoFar(Continue(t, answer), d')
  {
    hide AlarmSoFar, Extends, Next, Continue;
    if t.PushSms? || t.FreeSms? {
      SmsGoesOn(t, d, answer, d');
    } else if t.PushEmail? || t.FreeEmail? {
      EmailGoesOn(t, d, answer, d');
    } else {
      AllocGoesOn(t, d, answer, d');
    }
  }

  lemma ReadGoesOn(queue: Queue, t: Thread, d: seq<Deed>, answer: Answer, d': seq<Deed>)
    requires !t.Idle? && ReadSoFar(queue, t, d) && Extends(d, Deed(Next(t), answer), d')
    ensures ReadSoFar(queue, Continue(t, answer), d')
  {
    hide Pointers;
  }

  predicate InAlarm(t: Thread) { !t.Idle? && !InMessage(t) && !InRead(t) }

  predicate InRead(t: Thread) { t.PopFrom? || t.FreePopped? }

  lemma WhereIn(queue: Queue, t: Thread, d: seq<Deed>)
    ensures AlarmSoFar(t, d) ==> t.Idle? || InAlarm(t)
    ensures ReadSoFar(queue, t, d) ==> t.Idle? || InRead(t)
  {
    hide Pointers;
  }

  /** A deed of one part of a call is none of the others. */
  lemma OtherDeeds(t: Thread, answer: Answer)
    requires !t.Idle?
    ensures var deed := Deed(Next(t), answer);
            && (!InMessage(t) ==> forall w :: w in MESSAGE_KINDS ==> !Is(deed, w))
            && (InAlarm(t) ==> !Is(deed, Freed(Messages)))
            && (!InAlarm(t) ==> forall w :: w in ALARM_KINDS ==> !Is(deed, w))
            && (InMessage(t) ==> !Is(deed, Freed(Alarms)))
            && (!InRead(t) ==> forall w :: w in POP_KINDS ==> !Is(deed, w))
  {
  }

  lemma MessageStays(t: Thread, d: seq<Deed>, answer: Answer, d': seq<Deed>)
    requires InAlarm(t) && MessageDone(d) && Extends(d, Deed(Next(t), answer), d')
    ensures MessageDone(d') && Pointers(d', Got(Messages)) == Pointers(d, Got(Messages))
  {
    hide Pointers;
  }

  lemma AfterMessage(t: Thread, d: seq<Deed>)
    requires !InMessage(t)
    ensures MessageSoFar(t, d) == MessageDone(d)
  {
  }

  /** Between the message and the alarm. */
  lemma AlarmNext(t: Thread, alarm: bool, d: seq<Deed>, answer: Answer, d': seq<Deed>)
    requires InMessage(t) && t.alarm == alarm && MessageSoFar(t, d) && NotRefused(Next(t), answer)
    requires Extends(d, Deed(Next(t), answer), d')
    ensures var t' := Continue(t, answer);
            if InMessage(t') then t'.alarm == alarm
            else if alarm && Pointers(d', Got(Messages)) != [] then t' == AllocFirst
            else t'.Idle?
  {
    hide Pointers;
  }

  lemma MessageCallGoesOn(alarm: bool, t: Thread, d: seq<Deed>, answer: Answer, d': seq<Deed>)
    requires !t.Idle? && SoFar(AllocMsg(alarm), t, d) && NotRefused(Next(t), answer)
    requires t.AllocSecond? ==> answer.p != t.a || answer.p == MemPool.NULL
    requires Extends(d, Deed(Next(t), answer), d')
    ensures SoFar(AllocMsg(alarm), Continue(t, answer), d')
  {
    hide Pointers, MessageSoFar, MessageDone, AlarmSoFar, None, Is, NotRefused, Extends, MESSAGE_KINDS, ALARM_KINDS,
         POP_KINDS;
    var deed, t' := Deed(Next(t), answer), Continue(t, answer);
    WhereIn(Database, t, d);
    OtherDeeds(t, answer);
    NoneStays(d, deed, d', POP_KINDS);
    if InMessage(t) {
      MessageGoesOn(t, d, answer, d');
      NoneStays(d, deed, d', ALARM_KINDS + {Freed(Alarms)});
      AlarmNext(t, alarm, d, answer, d');
      AlarmBegins(d');
    } else {
      AfterMessage(t, d);
      MessageStays(t, d, answer, d');
      AlarmGoesOn(t, d, answer, d');
      WhereIn(Database, t', d');
      AfterMessage(t', d');
    }
  }

  lemma AlarmBegins(d: seq<Deed>)
    ensures AlarmSoFar(AllocFirst, d) <==> None(d, ALARM_KINDS + {Freed(Alarms)})
  {
  }

  lemma GoesOn(call: Thread, t: Thread, d: seq<Deed>, answer: Answer, d': seq<Deed>)
    requires !t.Idle? && SoFar(call, t, d) && NotRefused(Next(t), answer)
    requires t.AllocSecond? ==> answer.p != t.a || answer.p == MemPool.NULL
    requires Extends(d, Deed(Next(t), answer), d')
    ensures SoFar(call, Continue(t, answer), d')
  {
    hide Pointers, MessageSoFar, AlarmSoFar, ReadSoFar, None, Is, NotRefused, Extends, MESSAGE_KINDS, ALARM_KINDS,
         POP_KINDS;
    var deed := Deed(Next(t), answer);
    OtherDeeds(t, answer);
    match call
    case AllocMsg(alarm) => MessageCallGoesOn(alarm, t, d, answer, d');
    case AllocFirst =>
      WhereIn(Database, t, d);
      NoneStays(d, deed, d', MESSAGE_KINDS + POP_KINDS + {Freed(Messages)});
      AlarmGoesOn(t, d, answer, d');
    case PopFrom(queue) =>
      WhereIn(queue, t, d);
      NoneStays(d, deed, d', MESSAGE_KINDS + ALARM_KINDS);
      ReadGoesOn(queue, t, d, answer, d');
    case _ =>
  }

  // Every run.

  ghost predicate AllSoFar(s: State) {
    && (forall k :: 0 <= k < |s.log| ==> s.log[k].i < |s.threads|)
    && forall i :: 0 <= i < |s.threads| ==> var (call, d) := LastCall(s.log, i); SoFar(call, s.threads[i], d)
  }

  lemma CallBegins(call: Thread)
    requires call.AllocMsg? || call.AllocFirst? || call.PopFrom?
    ensures SoFar(call, call, [])
  {
  }

  lemma LastCallIs(log: seq<Record>, r: Record, i: nat)
    ensures LastCall(log + [r], i) ==
            if r.i != i then LastCall(log, i)
            else if r.Began? then (r.call, [])
            else (LastCall(log, i).0, LastCall(log, i).1 + [r.deed])
  {
    assert (log + [r])[..|log|] == log;
  }

  lemma DoKeepsSoFar(s: State, e: Event)
    requires Inv(s) && AllSoFar(s) && Enabled(s, e)
    ensures AllSoFar(Do(s, e))
  {
    hide Inv, SoFar, LastCall, Pointers, Perform, Moves, Ready, Continue;
    var s' := Do(s, e);
    var i := e.i;
    var (call, d) := LastCall(s.log, i);
    forall k | 0 <= k < |s.threads| {
      LastCallIs(s.log, s'.log[|s.log|], k);
    }
    match e
    case Start(_, begun) => CallBegins(begun);
    case Step(_) =>
      var t := s.threads[i];
      var answer := Perform(s.shared, Next(t)).1;
      var deed := Deed(Next(t), answer);
      InvReady(s, i);
      ThreadStepMoves(s.shared, t, 0);
      forall w {
        PointersMore(d, deed, w);
      }
      GoesOn(call, t, d, answer, d + [deed]);
  }

  lemma {:induction false} RunKeepsSoFar(s: State, run: seq<Event>, t: State)
    requires Inv(s) && AllSoFar(s) && Runs(s, run, t)
    ensures AllSoFar(t)
    decreases |run|
  {
    hide Inv, AllSoFar;
    if run != [] {
      DoKeepsInv(s, run[0]);
      DoKeepsSoFar(s, run[0]);
      RunKeepsSoFar(Do(s, run[0]), run[1..], t);
    }
  }

  lemma SoFarDone(call: Thread, d: seq<Deed>)
    requires SoFar(call, Idle, d)
    ensures Done(call, d)
  {
    hide None, Pointers;
  }

  /** In every interleaving, whenever a thread is idle its last call has done all it
      should, once. */
  lemma CallsComplete(s: State, run: seq<Event>, t: State, i: nat)
    requires Initial(s) && Runs(s, run, t) && i < |t.threads| && t.threads[i].Idle?
    ensures var (call, d) := LastCall(t.log, i); Done(call, d)
  {
    hide Initial, Runs, Inv, SoFar, Done;
    InitialInv(s);
    InitialSoFar(s);
    RunKeepsSoFar(s, run, t);
    var (call, d) := LastCall(t.log, i);
    SoFarDone(call, d);
  }

  lemma InitialSoFar(s: State)
    requires Initial(s)
    ensures AllSoFar(s)
  {
  }

  // In what order.

  /** Each ring has given out what it accepted, in that order, but for what it holds; each
      pool what was free and then freed, but for what is free. */
  ghost predicate InOrder(first: Shared, s: Shared, d: seq<Deed>) {
    && (forall q: Queue :: Pointers(d, Accepted(q)) == Pointers(d, Popped(q)) + s.RingOf(q).items)
    && (forall k: Stock ::
          first.PoolOf(k).free + Pointers(d, Freed(k)) == Pointers(d, Got(k)) + s.PoolOf(k).free)
  }

  lemma RingInOrder(first: Shared, s: Shared, d: seq<Deed>, op: Operation, d': seq<Deed>, q: Queue)
    requires InOrder(first, s, d) && Extends(d, Deed(op, Perform(s, op).1), d')
    ensures Pointers(d', Accepted(q)) == Pointers(d', Popped(q)) + Perform(s, op).0.RingOf(q).items
  {
    hide Pointers;
    assert Pointers(d, Accepted(q)) == Pointers(d, Popped(q)) + s.RingOf(q).items;
  }

  lemma PoolInOrder(first: Shared, s: Shared, d: seq<Deed>, op: Operation, d': seq<Deed>, k: Stock)
    requires InOrder(first, s, d) && Extends(d, Deed(op, Perform(s, op).1), d')
    requires s.msgPool.Valid() && s.alarmPool.Valid() && NotRefused(op, Perform(s, op).1)
    ensures first.PoolOf(k).free + Pointers(d', Freed(k)) == Pointers(d', Got(k)) + Perform(s, op).0.PoolOf(k).free
  {
    hide Pointers;
    var was, got, freed := first.PoolOf(k).free, Pointers(d, Got(k)), Pointers(d, Freed(k));
    assert was + freed == got + s.PoolOf(k).free;
    assert got + [] == got && freed + [] == freed;
    match op
    case Alloc(_) => AllocInOrder(s.PoolOf(k), got);
    case Free(_, p) =>
      var free := s.PoolOf(k).free;
      assert was + (freed + [p]) == (was + freed) + [p];
      assert (got + free) + [p] == got + (free + [p]);
    case _ =>
  }

  lemma AllocInOrder(pool: MemPool.Pool, got: seq<nat>)
    requires pool.Valid()
    ensures var (p, pool') := pool.Alloc();
            got + pool.free == (got + if p != MemPool.NULL then [p] else []) + pool'.free
  {
    MemPool.AllocKeeps(pool);
    if pool.free != [] {
      assert got + pool.free == got + [pool.free[0]] + pool.free[1..];
    }
  }

  lemma DeedsMore(log: seq<Record>, r: Record)
    ensures Deeds(log + [r]) == Deeds(log) + if r.Did? then [r.deed] else []
  {
    assert (log + [r])[..|log|] == log;
  }

  lemma DoInOrder(first: Shared, s: State, e: Event)
    requires Inv(s) && InOrder(first, s.shared, Deeds(s.log)) && Enabled(s, e)
    ensures InOrder(first, Do(s, e).shared, Deeds(Do(s, e).log))
  {
    hide Inv, Pointers, Perform, Moves, Ready, Continue, Deeds;
    var s' := Do(s, e);
    DeedsMore(s.log, s'.log[|s.log|]);
    if e.Step? {
      var op := Next(s.threads[e.i]);
      var d, deed := Deeds(s.log), Deed(op, Perform(s.shared, op).1);
      InvReady(s, e.i);
      ThreadStepMoves(s.shared, s.threads[e.i], 0);
      PoolsValid(s);
      assert s'.shared == Perform(s.shared, op).0 && Deeds(s'.log) == d + [deed];
      forall w { PointersMore(d, deed, w); }
      assert Extends(d, deed, d + [deed]);
      forall q: Queue
        ensures Pointers(d + [deed], Accepted(q)) == Pointers(d + [deed], Popped(q)) + s'.shared.RingOf(q).items
      {
        RingInOrder(first, s.shared, d, op, d + [deed], q);
      }
      forall k: Stock
        ensures first.PoolOf(k).free + Pointers(d + [deed], Freed(k))
                == Pointers(d + [deed], Got(k)) + s'.shared.PoolOf(k).free
      {
        PoolInOrder(first, s.shared, d, op, d + [deed], k);
      }
    } else {
      assert Deeds(s'.log) == Deeds(s.log);
    }
  }

  lemma PoolsValid(s: State)
    requires Inv(s)
    ensures s.shared.msgPool.Valid() && s.shared.alarmPool.Valid()
  {
  }

  lemma {:induction false} RunInOrder(first: Shared, s: State, run: seq<Event>, t: State)
    requires Inv(s) && InOrder(first, s.shared, Deeds(s.log)) && Runs(s, run, t)
    ensures InOrder(first, t.shared, Deeds(t.log))
    decreases |run|
  {
    hide Inv, InOrder;
    if run != [] {
      DoKeepsInv(s, run[0]);
      DoInOrder(first, s, run[0]);
      RunInOrder(first, Do(s, run[0]), run[1..], t);
    }
  }

  lemma InitialInOrder(s: State)
    requires Initial(s)
    ensures InOrder(s.shared, s.shared, Deeds(s.log))
  {
  }

  /** In every interleaving, what the readers popped from a ring is, in order, what was
      accepted on that ring, but for what it still holds, which no other ring has given
      out; and the buffers of a pool were handed out in the order in which they became
      free. */
  lemma DeliveredInOrder(s: State, run: seq<Event>, t: State, q: Queue, k: Stock)
    requires Initial(s) && Runs(s, run, t)
    ensures Pointers(Deeds(t.log), Accepted(q)) == Pointers(Deeds(t.log), Popped(q)) + t.shared.RingOf(q).items
    ensures s.shared.PoolOf(k).free + Pointers(Deeds(t.log), Freed(k))
            == Pointers(Deeds(t.log), Got(k)) + t.shared.PoolOf(k).free
  {
    hide Initial, Runs, Inv, Pointers;
    InitialInv(s);
    InitialInOrder(s);
    RunInOrder(s.shared, s, run, t);
  }
}
