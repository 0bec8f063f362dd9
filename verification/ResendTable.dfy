/** The loops of app/email_alarm_thread.c (and app/sms_alarm_thread.c) over the table
    of alarms to resend. */
module ResendTable {
  import opened Alarm
  import opened MemPool
  import opened Options
  import opened Resend

  /** What a slot holds: an address, the message found there, and a time. */
  function Slot(addr: nat, memory: map<nat, AlarmMsg>, timing: Time): Option<Entry>
    requires addr != NULL ==> addr in memory
  {
    if addr == NULL then None else Some(Entry(addr, memory[addr], timing))
  }

  lemma PoolValid(p: MemoryPool)
    requires p.Valid()
    ensures p.pool.Valid()
  {
  }

  class AlarmTable {
    /** Buffer addresses, NULL when empty. */
    const alarmQueue: array<nat>
    const lastSendTiming: array<Time>
    const localPool: MemoryPool
    /** The contents of the buffers. */
    var memory: map<nat, AlarmMsg>

    ghost predicate Shape()
      reads this, alarmQueue, lastSendTiming
    {
      && alarmQueue.Length == lastSendTiming.Length
      && forall i :: 0 <= i < alarmQueue.Length && alarmQueue[i] != NULL ==> alarmQueue[i] in memory
    }

    ghost function Slots(): (s: seq<Option<Entry>>)
      requires Shape()
      reads this, alarmQueue, lastSendTiming
      ensures |s| == alarmQueue.Length
      ensures forall i :: 0 <= i < |s| ==> s[i] == Slot(alarmQueue[i], memory, lastSendTiming[i])
    {
      seq(alarmQueue.Length, i requires 0 <= i < alarmQueue.Length && Shape() reads this, alarmQueue, lastSendTiming =>
        Slot(alarmQueue[i], memory, lastSendTiming[i]))
    }

    ghost function View(): Table
      requires Shape()
      reads this, alarmQueue, lastSendTiming, localPool
    {
      Table(Slots(), localPool.pool)
    }

    ghost predicate Valid()
      reads this, alarmQueue, lastSendTiming, localPool, localPool.freeBuffer, localPool.freeBuffer.nodes,
            localPool.pNode
    {
      && localPool.Valid() && Shape() && Consistent(View())
    }

    constructor (bufferSize: nat, start: nat)
      requires 4 <= bufferSize <= MAX_MEMORY_POOL_SIZE && bufferSize % 8 == 0 && start > 0
      ensures Valid() && Initial(View()) && alarmQueue.Length == 16
    {
      hide MemoryPool.NodesValid, MemoryPool.FreeValid, Consistent, Pool.Used, Addresses;
      var queue := new nat[MAX_QUEUE_NUMBER](_ => NULL);
      var timing := new Time[MAX_QUEUE_NUMBER](_ => ZERO_TIME);
      var pool := MemPoolCreate(bufferSize, MAX_QUEUE_NUMBER, start);
      alarmQueue, lastSendTiming, localPool := queue, timing, pool;
      memory := map[];
      new;
      PoolValid(pool);
      assert Shape();
      InitialConsistent(View());
    }

    lemma Parts()
      requires Valid()
      ensures localPool.pool.Valid() && Consistent(View()) && BuffersDistinct(Slots())
               && Buffers(Slots()) == localPool.pool.Used()
    {
    }

    lemma QueuedOnce(i: nat)
      requires Shape() && BuffersDistinct(Slots()) && i < alarmQueue.Length && alarmQueue[i] != NULL
      ensures forall k :: 0 <= k < alarmQueue.Length && k != i ==> alarmQueue[k] != alarmQueue[i]
    {
    }

    lemma NotQueued(buf: nat)
      requires Shape() && buf != NULL && buf !in Buffers(Slots())
      ensures forall k :: 0 <= k < alarmQueue.Length ==> alarmQueue[k] != buf
    {
    }

    method InsertQueue(msg: nat)
      requires Shape() && msg != NULL && msg in memory
      modifies alarmQueue, lastSendTiming
      ensures Shape() && Slots() == Insert(old(Slots()), msg, memory[msg])
    {
      ghost var before := Slots();
      var i := 0;
      while i < alarmQueue.Length
        invariant 0 <= i <= Empty(before, 0)
        invariant Shape() && Slots() == before
      {
        if alarmQueue[i] == NULL {
          alarmQueue[i] := msg;
          lastSendTiming[i] := ZERO_TIME;
          assert Slots() == before[i := Some(Entry(msg, memory[msg], ZERO_TIME))];
          return;
        }
        i := i + 1;
      }
    }

    /** The memcpy into an occupied slot. */
    method Refresh(i: nat, alarmMsg: AlarmMsg)
      requires Shape() && BuffersDistinct(Slots()) && i < alarmQueue.Length && alarmQueue[i] != NULL
      modifies this`memory, lastSendTiming
      ensures Shape()
      ensures Slots() == old(Slots())[i := Some(Entry(alarmQueue[i], Refreshed(alarmMsg), ZERO_TIME))]
    {
      QueuedOnce(i);
      var msg := alarmQueue[i];
      memory := memory[msg := alarmMsg];
      if alarmMsg.kind.Discard? {
        memory := memory[msg := alarmMsg.(sendTimes := 1)];
      }
      lastSendTiming[i] := ZERO_TIME;
    }

    /** The search of update_alarm_queue for the key of a message. */
    method Search(alarmMsg: AlarmMsg) returns (i: nat)
      requires Shape()
      ensures i == Find(Slots(), 0, alarmMsg) <= alarmQueue.Length
      ensures i < alarmQueue.Length ==>
                alarmQueue[i] != NULL && Slots()[i] == Slot(alarmQueue[i], memory, lastSendTiming[i])
    {
      i := 0;
      while i < alarmQueue.Length
        invariant 0 <= i <= Find(Slots(), 0, alarmMsg)
        decreases alarmQueue.Length - i
      {
        var msg := alarmQueue[i];
        if msg != NULL && memory[msg].SameKey(alarmMsg) {
          assert Holds(Slots(), i, alarmMsg);
          return;
        }
        assert !Holds(Slots(), i, alarmMsg);
        i := i + 1;
      }
    }

    /** The memcpy into a new buffer, before it is queued. */
    method Fill(msg: nat, alarmMsg: AlarmMsg, sendTimes: int)
      requires Shape() && msg != NULL && msg !in Buffers(Slots())
      modifies this`memory
      ensures Shape() && Slots() == old(Slots())
      ensures msg in memory && memory[msg] == Stored(alarmMsg, sendTimes)
    {
      NotQueued(msg);
      memory := memory[msg := alarmMsg];
      if alarmMsg.kind.Discard? {
        memory := memory[msg := alarmMsg.(sendTimes := 1)];
      } else {
        memory := memory[msg := alarmMsg.(sendTimes := ToUnsigned(sendTimes))];
      }
    }

    /** The part of update_alarm_queue for a new key. */
    method StoreNew(alarmMsg: AlarmMsg, sendTimes: int)
      requires localPool.Valid() && localPool.pool.Valid()
      requires Shape() && Buffers(Slots()) == localPool.pool.Used()
      modifies this`memory, alarmQueue, lastSendTiming, localPool`pool, localPool.freeBuffer, localPool.pNode
      ensures localPool.Valid() && Shape()
      ensures var (buf, pool) := old(localPool.pool.Alloc());
              && localPool.pool == pool
              && Slots() == if buf == NULL then old(Slots()) else Insert(old(Slots()), buf, Stored(alarmMsg, sendTimes))
    {
      hide Buffers, Insert, Shape, Slots, MemoryPool.Valid;
      hide Stored, Pool.Valid, Pool.Used, Pool.Alloc;
      AllocKeeps(localPool.pool);
      var msg := localPool.Alloc();
      if msg != NULL {
        Fill(msg, alarmMsg, sendTimes);
        InsertQueue(msg);
      }
    }

    method UpdateAlarmQueue(alarmMsg: AlarmMsg, sendTimes: int)
      requires Valid()
      modifies this`memory, alarmQueue, lastSendTiming, localPool`pool, localPool.freeBuffer, localPool.pNode
      ensures Valid() && View() == Update(old(View()), alarmMsg, sendTimes)
    {
      Parts();
      hide Consistent, BuffersDistinct, Buffers, Insert, Find, Shape, Slots, MemoryPool.Valid;
      hide Stored, Refreshed, Pool.Valid, Pool.Used, Pool.Alloc;
      UpdateKeeps(View(), alarmMsg, sendTimes);
      AllocKeeps(localPool.pool);
      var i := Search(alarmMsg);
      if i < alarmQueue.Length {
        Refresh(i, alarmMsg);
      } else {
        StoreNew(alarmMsg, sendTimes);
      }
    }

    /** One turn of the loop of check_alarm_email_queue, at an occupied slot. */
    method VisitSlot(i: nat, currentTime: Time, interval: int) returns (sends: bool)
      requires Shape() && BuffersDistinct(Slots()) && i < alarmQueue.Length && alarmQueue[i] != NULL
      modifies this`memory, lastSendTiming
      ensures Shape()
      ensures var e, msg := old(Slots()[i].value), alarmQueue[i];
              && sends == Visit(e, currentTime, interval).1
              && Visit(e, currentTime, interval).0
                 == (if memory[msg].sendTimes == 0 then None else Some(Entry(msg, memory[msg], lastSendTiming[i])))
      ensures Slots() == old(Slots())[i := Some(Entry(alarmQueue[i], memory[alarmQueue[i]], lastSendTiming[i]))]
    {
      QueuedOnce(i);
      var msg := alarmQueue[i];
      sends := false;
      if lastSendTiming[i].sec == 0 && lastSendTiming[i].usec == 0 {
        sends := true;
        memory := memory[msg := memory[msg].(sendTimes := Less(memory[msg].sendTimes))];
        lastSendTiming[i] := currentTime;
      } else if currentTime.sec - lastSendTiming[i].sec >= interval * 5 * 60 {
        sends := true;
        lastSendTiming[i] := currentTime;
        memory := memory[msg := memory[msg].(sendTimes := Less(memory[msg].sendTimes))];
      }
    }

    /** The release at the end of the same turn. */
    method Drop(i: nat)
      requires localPool.Valid() && localPool.pool.Valid() && Shape()
      requires i < alarmQueue.Length && alarmQueue[i] in localPool.pool.Used()
      modifies alarmQueue, localPool`pool, localPool.freeBuffer, localPool.pNode
      ensures localPool.Valid() && localPool.pool == old(localPool.pool.Release(alarmQueue[i])).1
      ensures Shape() && Slots() == old(Slots())[i := None]
    {
      IsBuffer(localPool.startAddr, localPool.bufferSize, localPool.bufferCount, alarmQueue[i]);
      hide MemoryPool.Valid;
      var ret := localPool.Free(alarmQueue[i]);
      alarmQueue[i] := NULL;
    }

    method Turn(i: nat, currentTime: Time, interval: int, ghost before: Table, sent: seq<AlarmMsg>)
      returns (sent': seq<AlarmMsg>)
      requires Valid() && i < alarmQueue.Length == |before.slots|
               && (View(), sent) == Check(before, currentTime, interval, i)
      modifies this`memory, alarmQueue, lastSendTiming, localPool`pool, localPool.freeBuffer, localPool.pNode
      ensures localPool.Valid() && Shape() && (View(), sent') == Check(before, currentTime, interval, i + 1)
    {
      Parts();
      hide Consistent, BuffersDistinct, Buffers, Shape, MemoryPool.Valid, Visit, Pool.Valid, Pool.Used, Pool.Release;
      sent' := sent;
      ghost var slots := Slots();
      assert alarmQueue[i] != NULL ==>
               Slots()[i] == Some(Entry(alarmQueue[i], memory[alarmQueue[i]], lastSendTiming[i]));
      assert alarmQueue[i] == NULL ==> Slots()[i].None?;
      if alarmQueue[i] != NULL {
        var msg := memory[alarmQueue[i]];
        var sends := VisitSlot(i, currentTime, interval);
        if sends {
          sent' := sent + [msg];
        }
        if memory[alarmQueue[i]].sendTimes == 0 {
          ghost var e := Slots()[i];
          Drop(i);
          assert slots[i := e][i := None] == slots[i := None];
        }
      }
    }

    lemma AtFirst(currentTime: Time, interval: int)
      requires Valid()
      ensures Shape() && Consistent(View()) && |View().slots| == alarmQueue.Length
      ensures (View(), []) == Check(View(), currentTime, interval, 0)
    {
    }

    lemma Whole(before: Table, currentTime: Time, interval: int, n: nat, sent: seq<AlarmMsg>)
      requires localPool.Valid() && Shape() && Consistent(before) && n <= |before.slots|
      requires (View(), sent) == Check(before, currentTime, interval, n)
      ensures Valid()
    {
      CheckKeeps(before, currentTime, interval, n);
    }

    method CheckAlarmQueue(currentTime: Time, interval: int) returns (sent: seq<AlarmMsg>)
      requires Valid()
      modifies this`memory, alarmQueue, lastSendTiming, localPool`pool, localPool.freeBuffer, localPool.pNode
      ensures Valid() && (View(), sent) == Check(old(View()), currentTime, interval, alarmQueue.Length)
    {
      hide *;
      AtFirst(currentTime, interval);
      ghost var before := View();
      sent := [];
      for i := 0 to alarmQueue.Length
        invariant Valid() && Shape() && alarmQueue.Length == |before.slots|
        invariant localPool.freeBuffer == old(localPool.freeBuffer) && localPool.pNode == old(localPool.pNode)
        invariant (View(), sent) == Check(before, currentTime, interval, i)
      {
        sent := Turn(i, currentTime, interval, before, sent);
        Whole(before, currentTime, interval, i + 1, sent);
      }
    }
  }
}
