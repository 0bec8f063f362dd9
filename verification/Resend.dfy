/** The table of alarms to resend of app/email_alarm_thread.c, which
    app/sms_alarm_thread.c repeats. */
module Resend {
  import opened Alarm
  import opened MemPool
  import opened Options

  const MAX_QUEUE_NUMBER: nat := 16
  const UINT_RANGE: nat := 0x1_0000_0000

  type Uint = n: nat | n < 0x1_0000_0000

  datatype Time = Time(sec: int, usec: int)

  const ZERO_TIME: Time := Time(0, 0)

  /** An alarm_msg_t; `rest` stands for the members the table only copies. */
  datatype AlarmMsg = AlarmMsg(protocolId: nat, paramId: nat, kind: AlarmType, sendTimes: Uint, rest: string)
  {
    predicate SameKey(m: AlarmMsg) { protocolId == m.protocolId && paramId == m.paramId }
  }

  /** An occupied slot: its buffer, the message in it, and its last_send_timing. */
  datatype Entry = Entry(buf: nat, msg: AlarmMsg, timing: Time)

  datatype Table = Table(slots: seq<Option<Entry>>, pool: Pool)

  /** The C conversion of an int to unsigned. */
  function ToUnsigned(n: int): Uint {
    n % UINT_RANGE
  }

  // update_alarm_queue.

  predicate Holds(slots: seq<Option<Entry>>, i: nat, m: AlarmMsg) {
    i < |slots| && slots[i].Some? && slots[i].value.msg.SameKey(m)
  }

  /** The first slot from `i` on that holds the key of `m`, or |slots|. */
  function Find(slots: seq<Option<Entry>>, i: nat, m: AlarmMsg): (j: nat)
    requires i <= |slots|
    ensures i <= j <= |slots| && (j < |slots| ==> Holds(slots, j, m))
    ensures forall k :: i <= k < j ==> !Holds(slots, k, m)
    decreases |slots| - i
  {
    if i == |slots| || Holds(slots, i, m) then i else Find(slots, i + 1, m)
  }

  /** The first empty slot from `i` on, or |slots|. */
  function Empty(slots: seq<Option<Entry>>, i: nat): (j: nat)
    requires i <= |slots|
    ensures i <= j <= |slots| && (j < |slots| ==> slots[j].None?)
    ensures forall k :: i <= k < j ==> slots[k].Some?
    decreases |slots| - i
  {
    if i == |slots| || slots[i].None? then i else Empty(slots, i + 1)
  }

  /** insert_queue: without an empty slot the message is dropped on the floor. */
  function Insert(slots: seq<Option<Entry>>, buf: nat, m: AlarmMsg): seq<Option<Entry>> {
    var j := Empty(slots, 0);
    if j == |slots| then slots else slots[j := Some(Entry(buf, m, ZERO_TIME))]
  }

  function Refreshed(m: AlarmMsg): AlarmMsg {
    if m.kind.Discard? then m.(sendTimes := 1) else m
  }

  function Stored(m: AlarmMsg, sendTimes: int): AlarmMsg {
    m.(sendTimes := if m.kind.Discard? then 1 else ToUnsigned(sendTimes))
  }

  function Update(t: Table, m: AlarmMsg, sendTimes: int): Table {
    var j := Find(t.slots, 0, m);
    if j < |t.slots| then
      t.(slots := t.slots[j := Some(Entry(t.slots[j].value.buf, Refreshed(m), ZERO_TIME))])
    else
      var (buf, pool) := t.pool.Alloc();
      if buf == NULL then t
      else Table(Insert(t.slots, buf, Stored(m, sendTimes)), pool)
  }

  // check_alarm_email_queue.

  /** send_times is unsigned: taking one from 0 wraps around. */
  function Less(n: Uint): Uint { if n == 0 then UINT_RANGE - 1 else n - 1 }

  predicate Due(e: Entry, now: Time, interval: int) {
    e.timing == ZERO_TIME || now.sec - e.timing.sec >= interval * 5 * 60
  }

  /** What one visit leaves of an entry, and whether it sends. */
  function Visit(e: Entry, now: Time, interval: int): (Option<Entry>, bool) {
    var sends := Due(e, now, interval);
    var e' := if sends then Entry(e.buf, e.msg.(sendTimes := Less(e.msg.sendTimes)), now) else e;
    (if e'.msg.sendTimes == 0 then None else Some(e'), sends)
  }

  /** The table and the messages sent after the first `n` slots were visited. */
  function Check(t: Table, now: Time, interval: int, n: nat): (r: (Table, seq<AlarmMsg>))
    requires n <= |t.slots|
    ensures |r.0.slots| == |t.slots|
  {
    if n == 0 then (t, [])
    else
      var (u, sent) := Check(t, now, interval, n - 1);
      if u.slots[n - 1].None? then (u, sent)
      else
        var e := u.slots[n - 1].value;
        var (kept, sends) := Visit(e, now, interval);
        (Table(u.slots[n - 1 := kept], if kept.None? then u.pool.Release(e.buf).1 else u.pool),
         if sends then sent + [e.msg] else sent)
  }

  // The invariant.

  ghost predicate KeysDistinct(slots: seq<Option<Entry>>) {
    forall i, j :: 0 <= i < j < |slots| && slots[i].Some? && slots[j].Some? ==>
                     !slots[i].value.msg.SameKey(slots[j].value.msg)
  }

  ghost predicate BuffersDistinct(slots: seq<Option<Entry>>) {
    forall i, j :: 0 <= i < j < |slots| && slots[i].Some? && slots[j].Some? ==> slots[i].value.buf != slots[j].value.buf
  }

  function Buffers(slots: seq<Option<Entry>>): set<nat> {
    set i | 0 <= i < |slots| && slots[i].Some? :: slots[i].value.buf
  }

  /** Occupied slots have distinct keys, and are in bijection with the outstanding
      buffers of a pool as large as the table. */
  ghost predicate Consistent(t: Table) {
    && t.pool.Valid() && |t.pool.buffers| == |t.slots|
    && KeysDistinct(t.slots)
    && BuffersDistinct(t.slots)
    && Buffers(t.slots) == t.pool.Used()
  }

  /** Distinct buffers in every slot would use up the pool. */
  lemma {:induction false} FullMeansAll(slots: seq<Option<Entry>>, n: nat)
    requires n <= |slots| && BuffersDistinct(slots) && forall i :: 0 <= i < n ==> slots[i].Some?
    ensures |Buffers(slots[..n])| == n
    decreases n
  {
    if n == 0 {
      assert Buffers(slots[..0]) == {};
    } else {
      FullMeansAll(slots, n - 1);
      var b := slots[n - 1].value.buf;
      assert Buffers(slots[..n]) == Buffers(slots[..n - 1]) + {b} by {
        assert forall i :: 0 <= i < n - 1 ==> slots[..n][i] == slots[..n - 1][i];
        assert slots[..n][n - 1].value.buf == b;
      }
      assert b !in Buffers(slots[..n - 1]);
    }
  }

  lemma FullTable(slots: seq<Option<Entry>>)
    requires BuffersDistinct(slots)
    ensures Empty(slots, 0) == |slots| ==> |Buffers(slots)| == |slots|
  {
    if Empty(slots, 0) == |slots| {
      FullMeansAll(slots, |slots|);
      assert slots[..|slots|] == slots;
    }
  }

  lemma SameSize(a: set<nat>, b: set<nat>)
    requires a <= b
    ensures |a| == |b| ==> a == b
  {
    var rest := b - a;
    assert b == a + rest;
  }

  /** After a successful allocation there is an empty slot. */
  lemma AllocatedFindsSlot(t: Table)
    requires Consistent(t) && t.pool.Alloc().0 != NULL
    ensures Empty(t.slots, 0) < |t.slots|
  {
    AllocKeeps(t.pool);
    FullTable(t.slots);
    SameSize(t.pool.Used(), t.pool.buffers);
  }

  // Changing one slot.

  lemma SlotTaken(t: Table, j: nat, e: Entry)
    requires j < |t.slots| && t.slots[j].None?
    ensures Buffers(t.slots[j := Some(e)]) == Buffers(t.slots) + {e.buf}
  {
    var u := t.slots[j := Some(e)];
    forall b ensures b in Buffers(u) <==> b in Buffers(t.slots) || b == e.buf {
      if b in Buffers(t.slots) {
        var i :| 0 <= i < |t.slots| && t.slots[i].Some? && t.slots[i].value.buf == b;
        assert u[i].value.buf == b;
      }
      assert u[j].value.buf == e.buf;
    }
  }

  lemma SlotChanged(t: Table, j: nat, e: Entry)
    requires j < |t.slots| && t.slots[j].Some? && t.slots[j].value.buf == e.buf
    ensures Buffers(t.slots[j := Some(e)]) == Buffers(t.slots)
  {
    var u := t.slots[j := Some(e)];
    forall b ensures b in Buffers(u) <==> b in Buffers(t.slots) {
      if b in Buffers(t.slots) {
        var i :| 0 <= i < |t.slots| && t.slots[i].Some? && t.slots[i].value.buf == b;
        assert u[i].value.buf == b;
      }
      if b in Buffers(u) {
        var i :| 0 <= i < |u| && u[i].Some? && u[i].value.buf == b;
        assert t.slots[i].value.buf == b;
      }
    }
  }

  lemma SlotLeft(t: Table, j: nat)
    requires j < |t.slots| && t.slots[j].Some? && BuffersDistinct(t.slots)
    ensures Buffers(t.slots[j := None]) == Buffers(t.slots) - {t.slots[j].value.buf}
  {
    var u := t.slots[j := None];
    var gone := t.slots[j].value.buf;
    forall b ensures b in Buffers(u) <==> b in Buffers(t.slots) && b != gone {
      if b in Buffers(t.slots) && b != gone {
        var i :| 0 <= i < |t.slots| && t.slots[i].Some? && t.slots[i].value.buf == b;
        assert u[i].value.buf == b;
      }
    }
  }

  /** The key of a slot may be written over when no other slot has it. */
  lemma SlotKeyed(slots: seq<Option<Entry>>, j: nat, e: Entry)
    requires j < |slots| && KeysDistinct(slots)
    requires forall k :: 0 <= k < |slots| && k != j ==> !Holds(slots, k, e.msg)
    ensures KeysDistinct(slots[j := Some(e)])
  {
    var u := slots[j := Some(e)];
    forall i, k | 0 <= i < k < |u| && u[i].Some? && u[k].Some? ensures !u[i].value.msg.SameKey(u[k].value.msg) {
      if i == j {
        assert !Holds(slots, k, e.msg);
      } else if k == j {
        assert !Holds(slots, i, e.msg);
      }
    }
  }

  lemma OnlyHolder(slots: seq<Option<Entry>>, j: nat, m: AlarmMsg)
    requires KeysDistinct(slots) && Holds(slots, j, m)
    ensures forall k :: 0 <= k < |slots| && k != j ==> !Holds(slots, k, m)
  {
  }

  lemma RefreshKeeps(t: Table, m: AlarmMsg)
    requires Consistent(t) && Find(t.slots, 0, m) < |t.slots|
    ensures var j := Find(t.slots, 0, m);
            Consistent(t.(slots := t.slots[j := Some(Entry(t.slots[j].value.buf, Refreshed(m), ZERO_TIME))]))
  {
    var j := Find(t.slots, 0, m);
    var e := Entry(t.slots[j].value.buf, Refreshed(m), ZERO_TIME);
    SlotChanged(t, j, e);
    OnlyHolder(t.slots, j, m);
    SlotKeyed(t.slots, j, e);
  }

  lemma InsertKeeps(t: Table, e: Entry, pool: Pool)
    requires Consistent(t) && Find(t.slots, 0, e.msg) == |t.slots|
    requires t.pool.Alloc() == (e.buf, pool) && e.buf != NULL && e.timing == ZERO_TIME
    ensures Consistent(Table(Insert(t.slots, e.buf, e.msg), pool))
    ensures |Insert(t.slots, e.buf, e.msg)| == |t.slots|
  {
    AllocKeeps(t.pool);
    AllocatedFindsSlot(t);
    var j := Empty(t.slots, 0);
    SlotTaken(t, j, e);
    SlotKeyed(t.slots, j, e);
    assert forall i :: 0 <= i < |t.slots| && t.slots[i].Some? ==> t.slots[i].value.buf in Buffers(t.slots);
    hide Buffers, KeysDistinct, Pool.Used, Pool.Alloc, Pool.Valid, Empty;
  }

  lemma SameFind(slots: seq<Option<Entry>>, m: AlarmMsg, m': AlarmMsg)
    requires m.SameKey(m')
    ensures Find(slots, 0, m) == Find(slots, 0, m')
  {
    var i, j := Find(slots, 0, m), Find(slots, 0, m');
    assert i < |slots| ==> Holds(slots, i, m');
    assert j < |slots| ==> Holds(slots, j, m);
  }

  lemma UpdateKeeps(t: Table, m: AlarmMsg, sendTimes: int)
    requires Consistent(t)
    ensures Consistent(Update(t, m, sendTimes))
    ensures |Update(t, m, sendTimes).slots| == |t.slots|
  {
    var j := Find(t.slots, 0, m);
    var (buf, pool) := t.pool.Alloc();
    if j < |t.slots| {
      RefreshKeeps(t, m);
    } else if buf != NULL {
      SameFind(t.slots, m, Stored(m, sendTimes));
      hide Find, Insert, Consistent, Pool.Alloc;
      InsertKeeps(t, Entry(buf, Stored(m, sendTimes), ZERO_TIME), pool);
    }
  }

  lemma {:induction false} CheckKeeps(t: Table, now: Time, interval: int, n: nat)
    requires Consistent(t) && n <= |t.slots|
    ensures Consistent(Check(t, now, interval, n).0)
    ensures forall i :: 0 <= i < |t.slots| ==>
              Check(t, now, interval, n).0.slots[i] ==
              if i < n && t.slots[i].Some? then Visit(t.slots[i].value, now, interval).0 else t.slots[i]
    decreases n
  {
    if n > 0 {
      CheckKeeps(t, now, interval, n - 1);
      var (u, sent) := Check(t, now, interval, n - 1);
      if u.slots[n - 1].Some? {
        var e := u.slots[n - 1].value;
        var (kept, sends) := Visit(e, now, interval);
        if kept.Some? {
          SlotChanged(u, n - 1, kept.value);
          OnlyHolder(u.slots, n - 1, e.msg);
          SlotKeyed(u.slots, n - 1, kept.value);
        } else {
          assert e.buf in Buffers(u.slots);
          SlotLeft(u, n - 1);
          ReleaseKeeps(u.pool, e.buf);
        }
      }
    }
  }

  // Runs of the thread: messages arrive, and the table is checked, in any order.

  datatype Event = Arrive(msg: AlarmMsg, sendTimes: int) | Tick(now: Time, interval: int)

  function Apply(t: Table, ev: Event): (Table, seq<AlarmMsg>) {
    match ev
    case Arrive(m, sendTimes) => (Update(t, m, sendTimes), [])
    case Tick(now, interval) => Check(t, now, interval, |t.slots|)
  }

  /** The table after `events`, and everything sent. */
  function Run(t: Table, events: seq<Event>): (Table, seq<AlarmMsg>)
    decreases |events|
  {
    if events == [] then (t, [])
    else
      var (u, sent) := Run(t, events[..|events| - 1]);
      var (w, more) := Apply(u, events[|events| - 1]);
      (w, sent + more)
  }

  /** A discard is always on its only send, and an entry with no sends left is fresh. */
  predicate Pending(e: Entry) {
    && (e.msg.kind.Discard? ==> e.msg.sendTimes == 1 && e.timing == ZERO_TIME)
    && (e.msg.sendTimes == 0 ==> e.timing == ZERO_TIME)
  }

  ghost predicate AllPending(slots: seq<Option<Entry>>) {
    forall i :: 0 <= i < |slots| && slots[i].Some? ==> Pending(slots[i].value)
  }

  lemma VisitKeeps(e: Entry, now: Time, interval: int)
    requires Pending(e)
    ensures var kept := Visit(e, now, interval).0;
            kept.Some? ==> Pending(kept.value) && !kept.value.msg.kind.Discard? && kept.value.msg.sendTimes > 0
  {
  }

  lemma ApplyKeeps(t: Table, ev: Event)
    requires Consistent(t) && AllPending(t.slots)
    ensures Consistent(Apply(t, ev).0) && AllPending(Apply(t, ev).0.slots)
    ensures |Apply(t, ev).0.slots| == |t.slots|
  {
    hide Consistent;
    match ev
    case Arrive(m, sendTimes) => UpdateKeeps(t, m, sendTimes);
    case Tick(now, interval) =>
      CheckKeeps(t, now, interval, |t.slots|);
      forall i | 0 <= i < |t.slots| && t.slots[i].Some?
        ensures var kept := Visit(t.slots[i].value, now, interval).0; kept.Some? ==> Pending(kept.value)
      {
        VisitKeeps(t.slots[i].value, now, interval);
      }
      hide Visit;
  }

  lemma {:induction false} RunKeeps(t: Table, events: seq<Event>)
    requires Consistent(t) && AllPending(t.slots)
    ensures Consistent(Run(t, events).0) && AllPending(Run(t, events).0.slots)
    ensures |Run(t, events).0.slots| == |t.slots|
    decreases |events|
  {
    hide Consistent, AllPending, Apply;
    if events != [] {
      RunKeeps(t, events[..|events| - 1]);
      ApplyKeeps(Run(t, events[..|events| - 1]).0, events[|events| - 1]);
    }
  }

  /** The table when the thread starts. */
  ghost predicate Initial(t: Table) {
    && t.pool.Valid() && t.pool.Used() == {} && |t.pool.buffers| == |t.slots|
    && forall i :: 0 <= i < |t.slots| ==> t.slots[i].None?
  }

  lemma InitialConsistent(t: Table)
    requires Initial(t)
    ensures Consistent(t) && AllPending(t.slots)
  {
  }

  /** Whatever arrives, and however often the table is checked: the occupied slots
      have distinct keys and hold the outstanding buffers, each once. */
  lemma NothingLeaks(t: Table, events: seq<Event>)
    requires Initial(t)
    ensures var u := Run(t, events).0;
            && (forall i, j :: 0 <= i < j < |u.slots| && u.slots[i].Some? && u.slots[j].Some? ==>
                  var (e, e') := (u.slots[i].value, u.slots[j].value);
                  e.buf != e'.buf && (e.msg.protocolId != e'.msg.protocolId || e.msg.paramId != e'.msg.paramId))
            && Buffers(u.slots) == u.pool.Used()
            && |u.slots| == |t.slots| == |u.pool.buffers|
            && (u.pool.Alloc().0 != NULL ==> Empty(u.slots, 0) < |u.slots|)
  {
    InitialConsistent(t);
    RunKeeps(t, events);
    var u := Run(t, events).0;
    if u.pool.Alloc().0 != NULL {
      AllocatedFindsSlot(u);
    }
  }

  /** After a check no discard is left in the table. */
  lemma NoDiscardLeft(t: Table, events: seq<Event>, now: Time, interval: int)
    requires Initial(t)
    ensures var u := Run(t, events).0;
            var w := Check(u, now, interval, |u.slots|).0;
            forall i :: 0 <= i < |w.slots| && w.slots[i].Some? ==> !w.slots[i].value.msg.kind.Discard?
  {
    InitialConsistent(t);
    RunKeeps(t, events);
    var u := Run(t, events).0;
    CheckKeeps(u, now, interval, |t.slots|);
    hide Consistent, Check, Run;
    forall i | 0 <= i < |u.slots| && u.slots[i].Some?
      ensures var kept := Visit(u.slots[i].value, now, interval).0; kept.Some? ==> !kept.value.msg.kind.Discard?
    {
      VisitKeeps(u.slots[i].value, now, interval);
    }
    hide Visit;
  }

  // Counting the sends of one entry.

  function Sends(sent: seq<AlarmMsg>, m: AlarmMsg): nat {
    if sent == [] then 0
    else Sends(sent[..|sent| - 1], m) + if sent[|sent| - 1].SameKey(m) then 1 else 0
  }

  lemma {:induction false} SendsOfBoth(a: seq<AlarmMsg>, b: seq<AlarmMsg>, m: AlarmMsg)
    ensures Sends(a + b, m) == Sends(a, m) + Sends(b, m)
    decreases |b|
  {
    if b == [] {
      assert a + b == a;
    } else {
      assert (a + b)[..|a + b| - 1] == a + b[..|b| - 1];
      SendsOfBoth(a, b[..|b| - 1], m);
    }
  }

  /** One check sends for a key exactly once if its entry is due. */
  lemma {:induction false} CheckSends(t: Table, now: Time, interval: int, n: nat, m: AlarmMsg, j: nat)
    requires Consistent(t) && n <= |t.slots|
    requires forall k :: 0 <= k < |t.slots| && k != j ==> !Holds(t.slots, k, m)
    ensures Sends(Check(t, now, interval, n).1, m) ==
            if j < n && Holds(t.slots, j, m) && Due(t.slots[j].value, now, interval) then 1 else 0
    decreases n
  {
    hide Consistent, Due, Pool.Release;
    if n > 0 {
      CheckSends(t, now, interval, n - 1, m, j);
      CheckKeeps(t, now, interval, n - 1);
      assert n - 1 != j ==> !Holds(t.slots, n - 1, m);
    }
  }

  /** send_times is unsigned, so a stored 0 means 2^32 sends. */
  function Remaining(e: Entry): nat { if e.msg.sendTimes == 0 then UINT_RANGE else e.msg.sendTimes }

  predicate Concerns(ev: Event, m: AlarmMsg) {
    ev.Arrive? && ev.msg.protocolId == m.protocolId && ev.msg.paramId == m.paramId
  }

  /** The entry of key `m` in slot `j`, with `left` sends to go, 0 when it is gone. */
  ghost predicate Left(t: Table, j: nat, m: AlarmMsg, buf: nat, left: nat) {
    && j < |t.slots|
    && (forall k :: 0 <= k < |t.slots| && k != j ==> !Holds(t.slots, k, m))
    && (if left == 0 then !Holds(t.slots, j, m)
        else Holds(t.slots, j, m) && t.slots[j].value.buf == buf && Remaining(t.slots[j].value) == left)
  }

  lemma OtherArrives(t: Table, m': AlarmMsg, sendTimes: int, m: AlarmMsg, j: nat, buf: nat, left: nat)
    requires Consistent(t) && !m'.SameKey(m) && Left(t, j, m, buf, left)
    ensures Left(Update(t, m', sendTimes), j, m, buf, left)
    ensures left > 0 ==> Update(t, m', sendTimes).slots[j] == t.slots[j]
  {
    UpdateKeeps(t, m', sendTimes);
    var u := Update(t, m', sendTimes);
    forall k | 0 <= k < |t.slots|
      ensures Holds(u.slots, k, m) <==> Holds(t.slots, k, m)
      ensures Holds(t.slots, k, m) ==> u.slots[k] == t.slots[k]
    {
      hide Consistent, Remaining;
      var f := Find(t.slots, 0, m');
      assert f < |t.slots| ==> Holds(t.slots, f, m');
    }
    hide Update;
  }

  lemma TickCounts(t: Table, now: Time, interval: int, m: AlarmMsg, j: nat, buf: nat, left: nat)
    requires Consistent(t) && AllPending(t.slots) && Left(t, j, m, buf, left)
    ensures var (u, sent) := Check(t, now, interval, |t.slots|);
            Sends(sent, m) <= left && Left(u, j, m, buf, left - Sends(sent, m))
  {
    CheckKeeps(t, now, interval, |t.slots|);
    CheckSends(t, now, interval, |t.slots|, m, j);
    hide Consistent, Check, Sends;
    var (u, sent) := Check(t, now, interval, |t.slots|);
    forall k | 0 <= k < |t.slots| && k != j ensures !Holds(u.slots, k, m) {
      assert !Holds(t.slots, k, m);
    }
    assert t.slots[j].Some? ==> Pending(t.slots[j].value);
  }

  /** From the moment it is stored until a message of its own key arrives, an entry is
      sent as often as its remaining send_times goes down, is released when that
      reaches 0, and is never sent again. */
  lemma {:induction false} SendsPlusRemaining(t: Table, events: seq<Event>, m: AlarmMsg, j: nat, buf: nat, left: nat)
    requires Consistent(t) && AllPending(t.slots) && Left(t, j, m, buf, left)
    requires forall i :: 0 <= i < |events| ==> !Concerns(events[i], m)
    ensures var (u, sent) := Run(t, events);
            Sends(sent, m) <= left && Left(u, j, m, buf, left - Sends(sent, m))
    decreases |events|
  {
    hide Consistent, AllPending, Left, Sends, Check, Update;
    if events == [] {
      assert Sends([], m) == 0 by { NoSends(m); }
    } else {
      var before, ev := events[..|events| - 1], events[|events| - 1];
      var (u, sent) := Run(t, before);
      SendsPlusRemaining(t, before, m, j, buf, left);
      RunKeeps(t, before);
      assert !Concerns(ev, m);
      match ev {
        case Arrive(m', sendTimes) =>
          OtherArrives(u, m', sendTimes, m, j, buf, left - Sends(sent, m));
          assert sent + [] == sent;
        case Tick(now, interval) =>
          TickCounts(u, now, interval, m, j, buf, left - Sends(sent, m));
          SendsOfBoth(sent, Check(u, now, interval, |u.slots|).1, m);
      }
    }
  }

  lemma NoSends(m: AlarmMsg)
    ensures Sends([], m) == 0
  {
  }

  /** A slot and its buffer are given back together, in the check in which the last
      send is made. */
  lemma ReleasedTogether(t: Table, now: Time, interval: int, j: nat)
    requires Consistent(t) && AllPending(t.slots) && j < |t.slots| && t.slots[j].Some?
    ensures var e := t.slots[j].value;
            var u := Check(t, now, interval, |t.slots|).0;
            && (u.slots[j].None? <==> Due(e, now, interval) && e.msg.sendTimes == 1)
            && (u.slots[j].None? <==> e.buf !in u.pool.Used())
  {
    CheckKeeps(t, now, interval, |t.slots|);
    var e, u := t.slots[j].value, Check(t, now, interval, |t.slots|).0;
    hide Check, KeysDistinct, Pool.Used, Due;
    assert Pending(e);
    assert u.slots[j].Some? ==> u.slots[j].value.buf == e.buf;
    forall i | 0 <= i < |u.slots| && i != j && u.slots[i].Some? ensures u.slots[i].value.buf != e.buf {
      assert t.slots[i].value.buf == u.slots[i].value.buf;
    }
  }

  /** The sends a message asks for.  A refresh keeps what the message carries, except
      that a discard is sent once; a new entry takes the configured number. */
  function Asked(m: AlarmMsg, sendTimes: int, refresh: bool): nat {
    var n := if m.kind.Discard? then 1 else if refresh then m.sendTimes else sendTimes % 0x1_0000_0000;
    if n == 0 then 0x1_0000_0000 else n
  }

  /** A message that finds its key, or a free buffer, is stored with all its sends to go. */
  lemma StoredToSend(t: Table, m: AlarmMsg, sendTimes: int)
    requires Consistent(t)
    requires Find(t.slots, 0, m) < |t.slots| || t.pool.Alloc().0 != NULL
    ensures var u := Update(t, m, sendTimes);
            var j := Find(u.slots, 0, m);
            && j < |u.slots| && u.slots[j].value.timing == ZERO_TIME
            && Left(u, j, m, u.slots[j].value.buf, Asked(m, sendTimes, Find(t.slots, 0, m) < |t.slots|))
  {
    UpdateKeeps(t, m, sendTimes);
    var u := Update(t, m, sendTimes);
    var f := Find(t.slots, 0, m);
    if f == |t.slots| {
      AllocatedFindsSlot(t);
    }
    ghost var at := if f < |t.slots| then f else Empty(t.slots, 0);
    assert Holds(u.slots, at, m);
    var j := Find(u.slots, 0, m);
    OnlyHolder(u.slots, at, m);
    OnlyHolder(u.slots, j, m);
  }

  lemma {:induction false} AtMostOneEach(slots: seq<Option<Entry>>, n: nat)
    requires n <= |slots|
    ensures |Buffers(slots[..n])| <= n
    ensures (exists i :: 0 <= i < n && slots[i].None?) ==> |Buffers(slots[..n])| < n
    decreases n
  {
    if n == 0 {
      assert Buffers(slots[..0]) == {};
    } else {
      AtMostOneEach(slots, n - 1);
      var before := Buffers(slots[..n - 1]);
      assert forall i :: 0 <= i < n - 1 ==> slots[..n][i] == slots[..n - 1][i];
      if slots[n - 1].Some? {
        var b := slots[n - 1].value.buf;
        assert Buffers(slots[..n]) == before + {b} by { assert slots[..n][n - 1].value.buf == b; }
      } else {
        assert Buffers(slots[..n]) == before;
      }
    }
  }

  /** The pool has a buffer exactly as long as the table has an empty slot. */
  lemma BufferForEverySlot(t: Table)
    requires Consistent(t)
    ensures t.pool.Alloc().0 == NULL <==> forall i :: 0 <= i < |t.slots| ==> t.slots[i].Some?
  {
    AllocKeeps(t.pool);
    if t.pool.Alloc().0 == NULL {
      AtMostOneEach(t.slots, |t.slots|);
      assert t.slots[..|t.slots|] == t.slots;
    } else {
      AllocatedFindsSlot(t);
    }
  }

  /** A message is dropped, and nothing else changes, exactly when its key is not in the
      table and no slot is empty. */
  lemma DroppedExactly(t: Table, m: AlarmMsg, sendTimes: int)
    requires Consistent(t)
    ensures var u := Update(t, m, sendTimes);
            var dropped := forall i :: 0 <= i < |t.slots| ==> t.slots[i].Some? && !Holds(t.slots, i, m);
            && (dropped ==> u == t)
            && (dropped <==> forall i :: 0 <= i < |u.slots| ==> !Holds(u.slots, i, m))
  {
    BufferForEverySlot(t);
    var u := Update(t, m, sendTimes);
    var f := Find(t.slots, 0, m);
    if f < |t.slots| || t.pool.Alloc().0 != NULL {
      StoredToSend(t, m, sendTimes);
      hide Update, Find;
      assert Holds(u.slots, Find(u.slots, 0, m), m);
    }
  }

  // When an entry is sent.

  /** The time of the last check that sent a message for the key of `m`. */
  function LastSend(t: Table, events: seq<Event>, m: AlarmMsg): Option<Time>
    decreases |events|
  {
    if events == [] then None
    else
      var before, ev := events[..|events| - 1], events[|events| - 1];
      if Sends(Apply(Run(t, before).0, ev).1, m) > 0 then Some(ev.now) else LastSend(t, before, m)
  }

  lemma TickTimes(t: Table, now: Time, interval: int, m: AlarmMsg, j: nat, buf: nat, left: nat)
    requires Consistent(t) && Left(t, j, m, buf, left) && left > 0
    ensures var (u, sent) := Check(t, now, interval, |t.slots|);
            && (Sends(sent, m) > 0 <==> Due(t.slots[j].value, now, interval))
            && (j < |u.slots| && u.slots[j].Some? ==>
                  u.slots[j].value.timing == if Sends(sent, m) > 0 then now else t.slots[j].value.timing)
  {
    hide Consistent, Check, Sends, Due;
    CheckKeeps(t, now, interval, |t.slots|);
    CheckSends(t, now, interval, |t.slots|, m, j);
  }

  /** The time kept with an entry is that of its last send since it was stored. */
  lemma {:induction false} TimingIsLastSend(t: Table, events: seq<Event>, m: AlarmMsg, j: nat, buf: nat, left: nat)
    requires Consistent(t) && AllPending(t.slots) && Left(t, j, m, buf, left)
    requires left > 0 && t.slots[j].value.timing == ZERO_TIME
    requires forall i :: 0 <= i < |events| ==> !Concerns(events[i], m)
    ensures var u := Run(t, events).0;
            Holds(u.slots, j, m) ==>
              u.slots[j].value.timing == match LastSend(t, events, m) case None => ZERO_TIME case Some(x) => x
    decreases |events|
  {
    hide Consistent, AllPending, Left, Sends, Check, Update;
    if events != [] {
      var before, ev := events[..|events| - 1], events[|events| - 1];
      var (u, sent) := Run(t, before);
      TimingIsLastSend(t, before, m, j, buf, left);
      SendsPlusRemaining(t, before, m, j, buf, left);
      RunKeeps(t, before);
      assert !Concerns(ev, m);
      var rest := left - Sends(sent, m);
      match ev {
        case Arrive(m', sendTimes) =>
          OtherArrives(u, m', sendTimes, m, j, buf, rest);
          NoSends(m);
          Gone(u, j, m, buf, rest);
          Gone(Update(u, m', sendTimes), j, m, buf, rest);
        case Tick(now, interval) =>
          TickCounts(u, now, interval, m, j, buf, rest);
          Gone(u, j, m, buf, rest);
          if rest > 0 {
            TickTimes(u, now, interval, m, j, buf, rest);
          } else {
            Gone(Check(u, now, interval, |u.slots|).0, j, m, buf, 0);
          }
      }
    }
  }

  lemma Gone(t: Table, j: nat, m: AlarmMsg, buf: nat, left: nat)
    requires Left(t, j, m, buf, left)
    ensures left > 0 <==> Holds(t.slots, j, m)
  {
  }

  /** Until its key arrives again, an entry is sent in the first check after it was
      stored, and then exactly when send_interval times five minutes have passed since
      it was last sent. */
  lemma SentWhenDue(t: Table, events: seq<Event>, m: AlarmMsg, j: nat, buf: nat, left: nat, now: Time, interval: int)
    requires Consistent(t) && AllPending(t.slots) && Left(t, j, m, buf, left)
    requires left > 0 && t.slots[j].value.timing == ZERO_TIME
    requires forall i :: 0 <= i < |events| ==> !Concerns(events[i], m)
    ensures var (u, last) := (Run(t, events).0, LastSend(t, events, m));
            Holds(u.slots, j, m) ==>
              (Sends(Check(u, now, interval, |u.slots|).1, m) > 0 <==>
                last.None? || last.value == Time(0, 0) || now.sec - last.value.sec >= interval * 5 * 60)
  {
    hide Consistent, AllPending, Left, Sends, Check, Update;
    TimingIsLastSend(t, events, m, j, buf, left);
    SendsPlusRemaining(t, events, m, j, buf, left);
    RunKeeps(t, events);
    var (u, sent) := Run(t, events);
    var rest := left - Sends(sent, m);
    Gone(u, j, m, buf, rest);
    if rest > 0 {
      TickTimes(u, now, interval, m, j, buf, rest);
    }
  }

  // What is sent.

  /** The last message of the key of `m`. */
  function LastArrived(events: seq<Event>, m: AlarmMsg): Option<AlarmMsg>
    decreases |events|
  {
    if events == [] then None
    else if Concerns(events[|events| - 1], m) then Some(events[|events| - 1].msg)
    else LastArrived(events[..|events| - 1], m)
  }

  lemma LastArrivedMore(events: seq<Event>, ev: Event, m: AlarmMsg)
    ensures LastArrived(events + [ev], m) == if Concerns(ev, m) then Some(ev.msg) else LastArrived(events, m)
  {
    assert (events + [ev])[..|events|] == events;
  }

  /** `m` says what the last message of its key said; only its count of sends may differ. */
  predicate Says(events: seq<Event>, m: AlarmMsg) {
    var last := LastArrived(events, m);
    last.Some? && m == last.value.(sendTimes := m.sendTimes)
  }

  ghost predicate AllSay(events: seq<Event>, slots: seq<Option<Entry>>) {
    forall i :: 0 <= i < |slots| && slots[i].Some? ==> Says(events, slots[i].value.msg)
  }

  lemma SaysStill(events: seq<Event>, ev: Event, m: AlarmMsg, m': AlarmMsg)
    requires Says(events, m) && !Concerns(ev, m) && m' == m.(sendTimes := m'.sendTimes)
    ensures Says(events + [ev], m')
  {
    LastArrivedMore(events, ev, m');
    SameLast(events, m, m');
  }

  lemma {:induction false} SameLast(events: seq<Event>, m: AlarmMsg, m': AlarmMsg)
    requires m.SameKey(m')
    ensures LastArrived(events, m) == LastArrived(events, m')
    decreases |events|
  {
    if events != [] {
      SameLast(events[..|events| - 1], m, m');
    }
  }

  lemma SaysNow(events: seq<Event>, ev: Event, m: AlarmMsg)
    requires ev.Arrive? && m == ev.msg.(sendTimes := m.sendTimes)
    ensures Says(events + [ev], m)
  {
    LastArrivedMore(events, ev, m);
  }

  /** What a message leaves in a slot: what was there of another key, or itself. */
  lemma UpdateSlots(t: Table, m: AlarmMsg, sendTimes: int, i: nat)
    requires Consistent(t) && i < |t.slots| && Update(t, m, sendTimes).slots[i].Some?
    ensures var e := Update(t, m, sendTimes).slots[i].value;
            || (t.slots[i] == Some(e) && !m.SameKey(e.msg))
            || e.msg == m.(sendTimes := e.msg.sendTimes)
  {
    var j := Find(t.slots, 0, m);
    if j < |t.slots| && i != j {
      OnlyHolder(t.slots, j, m);
    }
    assert j == |t.slots| || i != j ==> !Holds(t.slots, i, m);
    hide Consistent;
  }

  lemma ArriveSays(t: Table, events: seq<Event>, m: AlarmMsg, sendTimes: int)
    requires Consistent(t) && AllSay(events, t.slots)
    ensures AllSay(events + [Arrive(m, sendTimes)], Update(t, m, sendTimes).slots)
  {
    hide Consistent, Update, Says;
    UpdateKeeps(t, m, sendTimes);
    var ev, u := Arrive(m, sendTimes), Update(t, m, sendTimes);
    forall i | 0 <= i < |u.slots| && u.slots[i].Some? ensures Says(events + [ev], u.slots[i].value.msg) {
      var e := u.slots[i].value;
      UpdateSlots(t, m, sendTimes, i);
      if t.slots[i] == Some(e) && !m.SameKey(e.msg) {
        SaysStill(events, ev, e.msg, e.msg);
      } else {
        SaysNow(events, ev, e.msg);
      }
    }
  }

  lemma VisitSays(e: Entry, now: Time, interval: int)
    ensures var kept := Visit(e, now, interval).0;
            kept.Some? ==> kept.value.msg == e.msg.(sendTimes := kept.value.msg.sendTimes)
  {
  }

  lemma TickSays(t: Table, events: seq<Event>, now: Time, interval: int)
    requires Consistent(t) && AllSay(events, t.slots)
    ensures AllSay(events + [Tick(now, interval)], Check(t, now, interval, |t.slots|).0.slots)
  {
    hide Consistent, Check, Says, Visit;
    CheckKeeps(t, now, interval, |t.slots|);
    var u := Check(t, now, interval, |t.slots|).0;
    forall i | 0 <= i < |u.slots| && u.slots[i].Some?
      ensures Says(events + [Tick(now, interval)], u.slots[i].value.msg)
    {
      VisitSays(t.slots[i].value, now, interval);
      SaysStill(events, Tick(now, interval), t.slots[i].value.msg, u.slots[i].value.msg);
    }
  }

  lemma {:induction false} RunSays(t: Table, events: seq<Event>)
    requires Initial(t)
    ensures AllSay(events, Run(t, events).0.slots)
    decreases |events|
  {
    hide Consistent, AllPending, AllSay, Update, Check;
    InitialConsistent(t);
    if events == [] {
      NothingSaid(t);
    } else {
      var before, ev := events[..|events| - 1], events[|events| - 1];
      var u := Run(t, before).0;
      RunSays(t, before);
      RunKeeps(t, before);
      assert before + [ev] == events;
      match ev {
        case Arrive(m, sendTimes) => ArriveSays(u, before, m, sendTimes);
        case Tick(now, interval) => TickSays(u, before, now, interval);
      }
    }
  }

  lemma NothingSaid(t: Table)
    requires Initial(t)
    ensures AllSay([], t.slots)
  {
  }

  /** A check sends the messages of the table, in the order of their slots. */
  lemma {:induction false} CheckSendsStored(t: Table, events: seq<Event>, now: Time, interval: int, n: nat)
    requires Consistent(t) && AllSay(events, t.slots) && n <= |t.slots|
    ensures forall k :: 0 <= k < |Check(t, now, interval, n).1| ==> Says(events, Check(t, now, interval, n).1[k])
    decreases n
  {
    hide Consistent, Says, Visit;
    if n > 0 {
      CheckSendsStored(t, events, now, interval, n - 1);
      CheckKeeps(t, now, interval, n - 1);
    }
  }

  /** Every message sent in any run says what the last message of its key said that had
      arrived before the check; only its count of sends may differ. */
  lemma SentIsLastArrived(t: Table, events: seq<Event>, now: Time, interval: int, k: nat)
    requires Initial(t) && k < |Apply(Run(t, events).0, Tick(now, interval)).1|
    ensures var m := Apply(Run(t, events).0, Tick(now, interval)).1[k];
            var last := LastArrived(events, m);
            && last.Some?
            && m.protocolId == last.value.protocolId && m.paramId == last.value.paramId
            && m.kind == last.value.kind && m.rest == last.value.rest
  {
    hide Consistent, AllPending, AllSay, Run, Check;
    InitialConsistent(t);
    RunKeeps(t, events);
    RunSays(t, events);
    CheckSendsStored(Run(t, events).0, events, now, interval, |t.slots|);
  }
}
