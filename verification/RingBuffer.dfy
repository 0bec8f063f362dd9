/** The ring of pointers of app/ring_buffer.c.  A pointer is its address; 0 is NULL. */
module RingBuffer {
  const NULL: nat := 0

  /** What a ring is to its users: a bounded queue. */
  datatype Ring = Ring(capacity: nat, items: seq<nat>) {
    function Push(data: nat): (r: (int, Ring)) {
      if data == NULL || |items| == capacity then (-1, this) else (0, this.(items := items + [data]))
    }

    /** The popped pointer; NULL and -1 when the ring is empty. */
    function Pop(): (r: (int, nat, Ring)) {
      if items == [] then (-1, NULL, this) else (0, items[0], this.(items := items[1..]))
    }
  }

  /** The elements from the read cursor up to the write cursor, around the end. */
  function Held(e: seq<nat>, read: nat, write: nat): seq<nat>
    requires read < |e| && write < |e|
  {
    if read <= write then e[read..write] else e[read..] + e[..write]
  }

  function Next(cursor: nat, size: nat): (c: nat)
    requires cursor < size
    ensures c == (cursor + 1) % size && c < size
  {
    if cursor + 1 == size then 0 else cursor + 1
  }

  lemma HeldPush(e: seq<nat>, read: nat, write: nat, data: nat)
    requires read < |e| && write < |e|
    ensures |Held(e, read, write)| <= |e| - 1
    ensures Next(write, |e|) == read <==> |Held(e, read, write)| == |e| - 1
    ensures Next(write, |e|) != read ==>
              Held(e[write := data], read, Next(write, |e|)) == Held(e, read, write) + [data]
  {
  }

  lemma HeldPop(e: seq<nat>, read: nat, write: nat)
    requires read < |e| && write < |e|
    ensures Held(e, read, write) == [] <==> read == write
    ensures read != write ==> Held(e, read, write) == [e[read]] + Held(e, Next(read, |e|), write)
  {
  }

  class PointerRing {
    var size: nat
    var readCursor: nat
    var writeCursor: nat
    var element: array<nat>

    ghost predicate Valid()
      reads this
    {
      && size == element.Length > 0
      && readCursor < size && writeCursor < size
    }

    ghost function View(): (ring: Ring)
      requires Valid()
      reads this, element
    {
      Ring(size - 1, Held(element[..], readCursor, writeCursor))
    }

    constructor (size: nat)
      ensures Valid() && View() == Ring(size, []) && fresh(element)
    {
      element := new nat[size + 1](_ => NULL);
      this.size := size + 1;
      readCursor, writeCursor := 0, 0;
    }

    method Push(data: nat) returns (ret: int)
      requires Valid()
      modifies this`writeCursor, element
      ensures Valid() && (ret, View()) == old(View().Push(data))
    {
      hide Held;
      HeldPush(element[..], readCursor, writeCursor, data);
      ret := -1;
      if data != NULL {
        assert Next(writeCursor, size) == (writeCursor + 1) % size;
        var next := (writeCursor + 1) % size;
        if next != readCursor {
          ghost var was := element[..];
          element[writeCursor] := data;
          assert element[..] == was[writeCursor := data];
          writeCursor := next;
          ret := 0;
        }
      }
    }

    method Pop() returns (ret: int, data: nat)
      requires Valid()
      modifies this`readCursor
      ensures Valid() && (ret, data, View()) == old(View().Pop())
    {
      hide Held;
      HeldPop(element[..], readCursor, writeCursor);
      assert Next(readCursor, size) == (readCursor + 1) % size;
      ret, data := -1, NULL;
      if readCursor != writeCursor {
        data := element[readCursor];
        readCursor := (readCursor + 1) % size;
        ret := 0;
      }
    }
  }

  /** The values pushed with success, in order, by a run that starts with `ring`. */
  datatype Op = PushOp(data: nat) | PopOp

  function After(ring: Ring, ops: seq<Op>): (r: (Ring, seq<nat>, seq<nat>))
    decreases |ops|
  {
    if ops == [] then (ring, [], [])
    else
      var (q, pushed, popped) := After(ring, ops[..|ops| - 1]);
      match ops[|ops| - 1]
      case PushOp(data) =>
        var (ret, q') := q.Push(data);
        (q', if ret == 0 then pushed + [data] else pushed, popped)
      case PopOp =>
        var (ret, data, q') := q.Pop();
        (q', pushed, if ret == 0 then popped + [data] else popped)
  }

  /** Over any operations: first in first out, nothing lost, never above capacity. */
  lemma {:induction false} FirstInFirstOut(capacity: nat, ops: seq<Op>)
    ensures var (q, pushed, popped) := After(Ring(capacity, []), ops);
            pushed == popped + q.items && q.capacity == capacity && |q.items| <= capacity
    decreases |ops|
  {
    if ops != [] {
      FirstInFirstOut(capacity, ops[..|ops| - 1]);
    }
  }

  /** After any operations, a pop is refused exactly when as many were popped as pushed,
      and otherwise returns the oldest pointer not popped; a push is refused exactly when
      it is of NULL or finds as many outstanding as the ring was created for. */
  lemma RefusedExactly(capacity: nat, ops: seq<Op>, data: nat)
    ensures var (q, pushed, popped) := After(Ring(capacity, []), ops);
            && |popped| <= |pushed| <= |popped| + capacity
            && (if |popped| == |pushed| then q.Pop().0 == -1
                else q.Pop().0 == 0 && q.Pop().1 == pushed[|popped|])
            && q.Push(data).0 == (if data == NULL || |pushed| - |popped| == capacity then -1 else 0)
  {
    hide After;
    FirstInFirstOut(capacity, ops);
  }
}
