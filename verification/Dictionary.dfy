/** The string dictionary of app/dictionary.c. */
module Dictionary {
  import opened Options

  const DICTMINSZ: nat := 128

  // Hashing, on 32-bit words.

  function AddChar(h: bv32, c: char): bv32 { h + c as int as bv32 }

  function SpreadUp(h: bv32, n: nat): bv32
    requires n < 32
  {
    h + (h << n)
  }

  function FoldDown(h: bv32, n: nat): bv32
    requires n < 32
  {
    h ^ (h >> n)
  }

  function HashChars(key: string): bv32 {
    if key == [] then 0
    else FoldDown(SpreadUp(AddChar(HashChars(key[..|key| - 1]), key[|key| - 1]), 10), 6)
  }

  /** The hash of a key. */
  function HashOf(key: string): bv32 {
    SpreadUp(FoldDown(SpreadUp(HashChars(key), 3), 11), 15)
  }

  /** The check value of the hash. */
  lemma HashOfLetter()
    ensures HashOf("") == 0 && HashOf("a") == 0xCA2E9442
  {
    assert "a"[..0] == "";
    assert HashChars("a") == FoldDown(SpreadUp(AddChar(0, 'a'), 10), 6);
    LetterCode();
  }

  lemma LetterCode()
    ensures 'a' as int as bv32 == 97
  {
  }

  method Hash(key: Option<string>) returns (hash: bv32)
    ensures hash == if key.None? then 0 else HashOf(key.value)
  {
    hide AddChar, SpreadUp, FoldDown;
    if key.None? {
      return 0;
    }
    hash := 0;
    for i := 0 to |key.value|
      invariant hash == HashChars(key.value[..i])
    {
      assert key.value[..i + 1][..i] == key.value[..i];
      hash := AddChar(hash, key.value[i]);
      hash := SpreadUp(hash, 10);
      hash := FoldDown(hash, 6);
    }
    assert key.value[..|key.value|] == key.value;
    hash := SpreadUp(hash, 3);
    hash := FoldDown(hash, 11);
    hash := SpreadUp(hash, 15);
  }

  // What the slots hold.

  datatype Item = Item(key: string, val: Option<string>)

  type Slots = seq<Option<Item>>

  predicate HasKey(s: Slots, i: nat, key: string) {
    i < |s| && s[i].Some? && s[i].value.key == key
  }

  /** The first slot from `i` on with this key, or |s|. */
  function Find(s: Slots, i: nat, key: string): (j: nat)
    requires i <= |s|
    ensures i <= j <= |s| && (j < |s| ==> HasKey(s, j, key))
    ensures forall k :: i <= k < j ==> !HasKey(s, k, key)
    decreases |s| - i
  {
    if i == |s| || HasKey(s, i, key) then i else Find(s, i + 1, key)
  }

  /** The first empty slot from `i` on, or |s|. */
  function Free(s: Slots, i: nat): (j: nat)
    requires i <= |s|
    ensures i <= j <= |s| && (j < |s| ==> s[j].None?)
    ensures forall k :: i <= k < j ==> s[k].Some?
    decreases |s| - i
  {
    if i == |s| || s[i].None? then i else Free(s, i + 1)
  }

  /** The number of occupied slots. */
  function Count(s: Slots): (n: nat)
    ensures n <= |s|
  {
    if s == [] then 0 else Count(s[..|s| - 1]) + if s[|s| - 1].Some? then 1 else 0
  }

  /** The slot for a new key: the first empty one from n on, wrapping around. */
  function Place(s: Slots): nat {
    var n := Count(s);
    if Free(s, n) < |s| then Free(s, n) else Free(s, 0)
  }

  function Empties(n: nat): Slots { seq(n, _ => None) }

  function Grown(s: Slots): Slots { s + Empties(|s|) }

  function SetIn(s: Slots, key: string, val: Option<string>): Slots {
    var j := Find(s, 0, key);
    if j < |s| then s[j := Some(Item(key, val))]
    else
      var g := if Count(s) == |s| then Grown(s) else s;
      if Place(g) < |g| then g[Place(g) := Some(Item(key, val))] else g
  }

  function UnsetIn(s: Slots, key: string): Slots {
    var j := Find(s, 0, key);
    if j < |s| then s[j := None] else s
  }

  /** The slots of the arrays key and val. */
  function Zip(key: seq<Option<string>>, val: seq<Option<string>>): (s: Slots)
    requires |key| == |val|
    ensures |s| == |key|
    ensures forall i :: 0 <= i < |s| ==> s[i] == if key[i].None? then None else Some(Item(key[i].value, val[i]))
  {
    if key == [] then []
    else
      var last := |key| - 1;
      Zip(key[..last], val[..last]) + [if key[last].None? then None else Some(Item(key[last].value, val[last]))]
  }

  lemma EmptyZip(key: seq<Option<string>>, val: seq<Option<string>>)
    requires |key| == |val| && forall i :: 0 <= i < |key| ==> key[i].None?
    ensures Zip(key, val) == Empties(|key|)
  {
    hide Zip;
  }

  lemma GrownZip(key: seq<Option<string>>, val: seq<Option<string>>,
                 key': seq<Option<string>>, val': seq<Option<string>>)
    requires |key| == |val| && |key'| == |val'| == 2 * |key|
    requires forall i :: 0 <= i < |key'| ==> key'[i] == if i < |key| then key[i] else None
    requires forall i :: 0 <= i < |key'| ==> val'[i] == if i < |key| then val[i] else None
    ensures Zip(key', val') == Grown(Zip(key, val))
  {
    hide Zip;
  }

  // The partial map the slots stand for.

  ghost predicate KeysDistinct(s: Slots) {
    forall i, j :: 0 <= i < j < |s| && s[i].Some? && s[j].Some? ==> s[i].value.key != s[j].value.key
  }

  function View(s: Slots): map<string, Option<string>> {
    if s == [] then map[]
    else
      var m := View(s[..|s| - 1]);
      var last := s[|s| - 1];
      if last.Some? then m[last.value.key := last.value.val] else m
  }

  lemma {:induction false} Holds(s: Slots, i: nat)
    requires KeysDistinct(s) && i < |s| && s[i].Some?
    ensures s[i].value.key in View(s) && View(s)[s[i].value.key] == s[i].value.val
    decreases |s|
  {
    var last := |s| - 1;
    if i < last {
      Holds(s[..last], i);
      assert s[last].Some? ==> s[i].value.key != s[last].value.key;
    }
  }

  lemma {:induction false} Found(s: Slots, key: string)
    ensures key in View(s) ==> Find(s, 0, key) < |s|
    decreases |s|
  {
    if s != [] {
      var p := s[..|s| - 1];
      Found(p, key);
      if key in View(p) {
        assert HasKey(s, Find(p, 0, key), key);
      }
      assert key in View(s) ==> key in View(p) || HasKey(s, |s| - 1, key);
    }
  }

  /** A search of the slots looks the key up in the map. */
  lemma Lookup(s: Slots, key: string)
    requires KeysDistinct(s)
    ensures key in View(s) <==> Find(s, 0, key) < |s|
    ensures key in View(s) ==> View(s)[key] == s[Find(s, 0, key)].value.val
  {
    Found(s, key);
    if Find(s, 0, key) < |s| {
      Holds(s, Find(s, 0, key));
    }
  }

  lemma OneHolder(s: Slots, key: string, i: nat)
    requires KeysDistinct(s) && HasKey(s, i, key)
    ensures Find(s, 0, key) == i
  {
  }

  /** Writing a key that no other slot has. */
  lemma Written(s: Slots, j: nat, key: string, val: Option<string>)
    requires KeysDistinct(s) && j < |s|
    requires forall i :: 0 <= i < |s| && i != j ==> !HasKey(s, i, key)
    requires s[j].Some? ==> s[j].value.key == key
    ensures var u := s[j := Some(Item(key, val))]; KeysDistinct(u) && View(u) == View(s)[key := val]
  {
    var u := s[j := Some(Item(key, val))];
    assert KeysDistinct(u) by {
      assert forall i :: 0 <= i < |s| && i != j ==> !HasKey(s, i, key) && u[i] == s[i];
    }
    forall k ensures k in View(u) <==> k in View(s)[key := val]
             ensures k in View(u) ==> View(u)[k] == View(s)[key := val][k]
    {
      Lookup(s, k);
      Lookup(u, k);
      hide View, KeysDistinct;
      if k == key {
        OneHolder(u, key, j);
      } else {
        SameElsewhere(s, u, j, k);
      }
    }
  }

  lemma Erased(s: Slots, j: nat)
    requires KeysDistinct(s) && j < |s| && s[j].Some?
    ensures var u := s[j := None]; KeysDistinct(u) && View(u) == View(s) - {s[j].value.key}
  {
    var u, key := s[j := None], s[j].value.key;
    forall k ensures k in View(u) <==> k in View(s) - {key}
             ensures k in View(u) ==> View(u)[k] == View(s)[k]
    {
      Lookup(s, k);
      Lookup(u, k);
      OneHolder(s, key, j);
      hide View;
      if k == key {
        forall i | 0 <= i < |u| ensures !HasKey(u, i, key) {
          if i != j && s[i].Some? {
            var a, b := if i < j then i else j, if i < j then j else i;
            assert s[a].value.key != s[b].value.key;
          }
        }
      } else {
        SameElsewhere(s, u, j, k);
      }
    }
  }

  /** Tables that differ in one slot, which has another key in both. */
  lemma SameElsewhere(s: Slots, u: Slots, j: nat, k: string)
    requires j < |s| == |u| && (forall i :: 0 <= i < |s| && i != j ==> s[i] == u[i])
    requires !HasKey(s, j, k) && !HasKey(u, j, k)
    ensures Find(s, 0, k) == Find(u, 0, k)
    ensures Find(s, 0, k) < |s| ==> Find(s, 0, k) != j
  {
    var a, b := Find(s, 0, k), Find(u, 0, k);
    assert a < |s| ==> HasKey(u, a, k);
    assert b < |u| ==> HasKey(s, b, k);
  }

  // Counting the keys.

  lemma {:induction false} CountChange(s: Slots, j: nat, x: Option<Item>)
    requires j < |s|
    ensures Count(s[j := x]) == Count(s) - (if s[j].Some? then 1 else 0) + (if x.Some? then 1 else 0)
    decreases |s|
  {
    var last := |s| - 1;
    if j < last {
      CountChange(s[..last], j, x);
      assert s[j := x][..last] == s[..last][j := x];
    } else {
      assert s[j := x][..last] == s[..last];
    }
  }

  lemma {:induction false} CountFull(s: Slots)
    ensures Count(s) == |s| <==> Free(s, 0) == |s|
    decreases |s|
  {
    if s != [] {
      var p := s[..|s| - 1];
      CountFull(p);
      assert Free(s, 0) < |p| ==> p[Free(s, 0)].None?;
      assert Free(p, 0) < |p| ==> s[Free(p, 0)].None?;
    }
  }

  /** n counts the keys of the map. */
  lemma {:induction false} CountKeys(s: Slots)
    requires KeysDistinct(s)
    ensures Count(s) == |View(s)|
    decreases |s|
  {
    if s != [] {
      var p := s[..|s| - 1];
      CountKeys(p);
      if s[|s| - 1].Some? {
        var key := s[|s| - 1].value.key;
        Found(p, key);
        assert key !in View(p);
      }
    }
  }

  lemma {:induction false} GrownBy(s: Slots, n: nat)
    requires KeysDistinct(s)
    ensures KeysDistinct(s + Empties(n)) && View(s + Empties(n)) == View(s) && Count(s + Empties(n)) == Count(s)
    decreases n
  {
    if n == 0 {
      assert s + Empties(n) == s;
    } else {
      GrownBy(s, n - 1);
      assert (s + Empties(n))[..|s| + n - 1] == s + Empties(n - 1);
    }
  }

  lemma EmptyTable(n: nat)
    ensures KeysDistinct(Empties(n)) && Count(Empties(n)) == 0 && View(Empties(n)) == map[]
  {
    GrownBy([], n);
    assert [] + Empties(n) == Empties(n);
  }

  /** Growing keeps the map, and makes room. */
  lemma GrowthPreserves(s: Slots)
    requires KeysDistinct(s) && s != []
    ensures KeysDistinct(Grown(s)) && View(Grown(s)) == View(s) && Count(Grown(s)) == Count(s) < |Grown(s)|
    ensures |Grown(s)| == 2 * |s|
  {
    GrownBy(s, |s|);
  }

  /** There is a place for a new key as long as n < size. */
  lemma PlaceIsFree(s: Slots)
    requires Count(s) < |s|
    ensures Place(s) < |s| && s[Place(s)].None?
  {
  }

  /** dictionary_set updates the map, and n counts its keys. */
  lemma SetUpdates(s: Slots, key: string, val: Option<string>)
    requires KeysDistinct(s) && s != []
    ensures var u := SetIn(s, key, val);
            && KeysDistinct(u) && View(u) == View(s)[key := val]
            && |u| >= |s| && (|u| == |s| || Count(s) == |s|)
            && Count(u) == Count(s) + if key in View(s) then 0 else 1
  {
    Lookup(s, key);
    var j := Find(s, 0, key);
    if j < |s| {
      forall i | 0 <= i < |s| && i != j ensures !HasKey(s, i, key) {
        var a, b := if i < j then i else j, if i < j then j else i;
        assert s[a].Some? && s[b].Some? ==> s[a].value.key != s[b].value.key;
      }
      Written(s, j, key, val);
      CountChange(s, j, Some(Item(key, val)));
    } else {
      GrowthPreserves(s);
      var g := if Count(s) == |s| then Grown(s) else s;
      Lookup(g, key);
      hide KeysDistinct, View, Grown, Place, Count;
      PlaceIsFree(g);
      Written(g, Place(g), key, val);
      CountChange(g, Place(g), Some(Item(key, val)));
    }
  }

  /** dictionary_unset removes the key from the map. */
  lemma UnsetRemoves(s: Slots, key: string)
    requires KeysDistinct(s)
    ensures var u := UnsetIn(s, key);
            && KeysDistinct(u) && View(u) == View(s) - {key} && |u| == |s|
            && Count(u) == Count(s) - if key in View(s) then 1 else 0
  {
    Lookup(s, key);
    var j := Find(s, 0, key);
    if j < |s| {
      Erased(s, j);
      CountChange(s, j, None);
    }
  }

  // Runs.

  datatype Op = SetOp(key: string, val: Option<string>) | UnsetOp(removed: string)

  function SlotsAfter(s: Slots, ops: seq<Op>): Slots
    decreases |ops|
  {
    if ops == [] then s
    else
      var u := SlotsAfter(s, ops[..|ops| - 1]);
      match ops[|ops| - 1]
      case SetOp(key, val) => SetIn(u, key, val)
      case UnsetOp(key) => UnsetIn(u, key)
  }

  function MapAfter(m: map<string, Option<string>>, ops: seq<Op>): map<string, Option<string>>
    decreases |ops|
  {
    if ops == [] then m
    else
      var w := MapAfter(m, ops[..|ops| - 1]);
      match ops[|ops| - 1]
      case SetOp(key, val) => w[key := val]
      case UnsetOp(key) => w - {key}
  }

  /** Over any sequence of operations the table is the partial map they build, and n
      counts its keys. */
  lemma {:induction false} BehavesAsMap(size: nat, ops: seq<Op>)
    requires size > 0
    ensures var s := SlotsAfter(Empties(size), ops);
            && KeysDistinct(s) && |s| >= size
            && View(s) == MapAfter(map[], ops)
            && Count(s) == |View(s)|
    decreases |ops|
  {
    if ops == [] {
      EmptyTable(size);
    } else {
      BehavesAsMap(size, ops[..|ops| - 1]);
      var u := SlotsAfter(Empties(size), ops[..|ops| - 1]);
      hide KeysDistinct, View, Count, SetIn, UnsetIn;
      match ops[|ops| - 1] {
        case SetOp(key, val) => SetUpdates(u, key, val);
        case UnsetOp(key) => UnsetRemoves(u, key);
      }
    }
    CountKeys(SlotsAfter(Empties(size), ops));
  }

  class Dict {
    var n: nat
    var size: nat
    var val: array<Option<string>>
    var key: array<Option<string>>
    var hash: array<bv32>

    ghost predicate Shape()
      reads `size, `val, `key, `hash
    {
      && val.Length == key.Length == hash.Length == size && size > 0
      && val != key && (hash as object) != key && (hash as object) != val
    }

    ghost predicate Hashed()
      requires Shape()
      reads `size, `val, `key, `hash, key, hash
    {
      forall i :: 0 <= i < size && key[i].Some? ==> hash[i] == HashOf(key[i].value)
    }

    ghost function Slots(): (s: Slots)
      requires Shape()
      reads `size, `val, `key, `hash, val, key
      ensures |s| == size > 0
    {
      Zip(key[..], val[..])
    }

    ghost function Map(): map<string, Option<string>>
      requires Shape()
      reads `size, `val, `key, `hash, val, key
    {
      View(Slots())
    }

    /** Keys are distinct, n counts them, and every key comes with its hash. */
    ghost predicate Valid()
      reads this, val, key, hash
    {
      Shape() && Hashed() && KeysDistinct(Slots()) && n == Count(Slots())
    }

    /** dictionary_new. */
    constructor (size: nat)
      ensures Valid() && fresh(val) && fresh(key) && fresh(hash)
      ensures Slots() == Empties(if size < 128 then 128 else size)
    {
      hide HashOf, Zip, Empties, KeysDistinct, Count, View;
      var sz := if size < DICTMINSZ then DICTMINSZ else size;
      var v := new Option<string>[sz];
      var k := new Option<string>[sz];
      var h := new bv32[sz];
      forall i | 0 <= i < sz { v[i] := None; }
      forall i | 0 <= i < sz { k[i] := None; }
      forall i | 0 <= i < sz { h[i] := 0; }
      n, this.size, val, key, hash := 0, sz, v, k, h;
      new;
      EmptyZip(k[..], v[..]);
      EmptyTable(sz);
    }

    /** What slot `i` holds. */
    method At(i: nat) returns (x: Option<Item>)
      requires Shape() && i < size
      ensures x == Slots()[i]
    {
      hide Zip;
      x := if key[i].None? then None else Some(Item(key[i].value, val[i]));
    }

    /** The search all operations share; comparing hashes first does not change what
        it finds. */
    method FindSlot(k: string, h: bv32) returns (i: nat)
      requires Valid() && h == HashOf(k)
      ensures i == Find(Slots(), 0, k)
    {
      hide HashOf, Zip;
      i := 0;
      while i < size
        invariant 0 <= i <= Find(Slots(), 0, k)
      {
        if key[i].Some? && h == hash[i] && k == key[i].value {
          assert HasKey(Slots(), i, k);
          return;
        }
        assert !HasKey(Slots(), i, k);
        i := i + 1;
      }
    }

    /** dictionary_get; None stands for the default the caller passed. */
    method Get(k: string) returns (v: Option<Option<string>>)
      requires Valid()
      ensures v == if k in Map() then Some(Map()[k]) else None
    {
      hide HashOf, HashChars, KeysDistinct, Count;
      Lookup(Slots(), k);
      var h := Hash(Some(k));
      var i := FindSlot(k, h);
      if i < size {
        return Some(val[i]);
      }
      return None;
    }

    method Grow()
      requires Shape() && Hashed()
      modifies this
      ensures Shape() && Hashed() && Slots() == Grown(old(Slots())) && n == old(n)
      ensures fresh(val) && fresh(key) && fresh(hash)
    {
      hide HashOf, Zip, Grown;
      ghost var keys, vals := key[..], val[..];
      var newVal := new Option<string>[size * 2];
      var newKey := new Option<string>[size * 2];
      var newHash := new bv32[size * 2];
      forall i | 0 <= i < size * 2 { newVal[i] := if i < size then val[i] else None; }
      forall i | 0 <= i < size * 2 { newKey[i] := if i < size then key[i] else None; }
      forall i | 0 <= i < size * 2 { newHash[i] := if i < size then hash[i] else 0; }
      ghost var newKeys, newVals := newKey[..], newVal[..];
      GrownZip(keys, vals, newKeys, newVals);
      size := size * 2;
      val, key, hash := newVal, newKey, newHash;
      assert key[..] == newKeys && val[..] == newVals;
    }

    method Put(i: nat, k: string, v: Option<string>, h: bv32)
      requires Shape() && Hashed() && i < size && h == HashOf(k)
      modifies val, key, hash
      ensures Shape() && Hashed() && Slots() == old(Slots())[i := Some(Item(k, v))]
    {
      hide HashOf, Zip;
      key[i] := Some(k);
      val[i] := v;
      hash[i] := h;
    }

    method Erase(i: nat)
      requires Shape() && Hashed() && i < size
      modifies val, key, hash
      ensures Shape() && Hashed() && Slots() == old(Slots())[i := None]
    {
      hide HashOf, Zip;
      key[i] := None;
      val[i] := None;
      hash[i] := 0;
    }

    /** The first empty slot from n on, wrapping around. */
    method FirstEmpty() returns (i: nat)
      requires Shape() && n == Count(Slots()) < size
      ensures i == Place(Slots()) < size && Slots()[i].None?
      ensures forall j :: (if i >= n then n <= j < i else n <= j < size || 0 <= j < i) ==> Slots()[j].Some?
    {
      PlaceIsFree(Slots());
      CountFull(Slots());
      hide Count;
      i := n;
      ghost var wrapped := false;
      while key[i].Some?
        invariant 0 <= i < size
        invariant !wrapped ==> n <= i <= Free(Slots(), n)
        invariant wrapped ==> Free(Slots(), n) == size && i <= Free(Slots(), 0)
        decreases !wrapped, size - i
      {
        assert Slots()[i].Some?;
        i := i + 1;
        if i == size {
          i, wrapped := 0, true;
        }
      }
      assert Slots()[i].None?;
    }

    method Replace(i: nat, v: Option<string>)
      requires Shape() && Hashed() && i < size && Slots()[i].Some?
      modifies val
      ensures Shape() && Hashed() && Slots() == old(Slots())[i := Some(Item(old(Slots())[i].value.key, v))]
    {
      hide HashOf, Zip;
      val[i] := v;
    }

    /** The part of dictionary_set for a new key. */
    method Insert(k: string, v: Option<string>, h: bv32)
      requires Shape() && Hashed() && n == Count(Slots()) && KeysDistinct(Slots()) && h == HashOf(k)
      modifies this, val, key, hash
      ensures Shape() && Hashed() && n == old(n) + 1
      ensures var g := if Count(old(Slots())) == old(size) then Grown(old(Slots())) else old(Slots());
              Place(g) < |g| && Slots() == g[Place(g) := Some(Item(k, v))]
      ensures (val == old(val) && key == old(key) && hash == old(hash)) || (fresh(val) && fresh(key) && fresh(hash))
    {
      hide HashOf, KeysDistinct, Count, Shape, Hashed, Slots, Place, Grown;
      GrowthPreserves(Slots());
      if n == size {
        Grow();
      }
      var i := FirstEmpty();
      Put(i, k, v, h);
      n := n + 1;
    }

    method Set(k: Option<string>, v: Option<string>) returns (ret: int)
      requires Valid()
      modifies this, val, key, hash
      ensures Valid()
      ensures k.None? ==> ret == -1 && Slots() == old(Slots())
      ensures k.Some? ==> ret == 0 && Slots() == SetIn(old(Slots()), k.value, v)
      ensures k.Some? ==> Map() == old(Map())[k.value := v]
      ensures (val == old(val) && key == old(key) && hash == old(hash)) || (fresh(val) && fresh(key) && fresh(hash))
    {
      hide HashOf, KeysDistinct, Count, Find, View, Shape, Hashed, Slots, Place, Grown;
      if k.None? {
        return -1;
      }
      SetUpdates(Slots(), k.value, v);
      CountKeys(Slots());
      Lookup(Slots(), k.value);
      var h := Hash(k);
      var i := size;
      if n > 0 {
        i := FindSlot(k.value, h);
      }
      if i < size {
        Replace(i, v);
      } else {
        Insert(k.value, v, h);
      }
      ret := 0;
    }

    method Unset(k: Option<string>)
      requires Valid()
      modifies this`n, val, key, hash
      ensures Valid()
      ensures k.None? ==> Slots() == old(Slots())
      ensures k.Some? ==> Slots() == UnsetIn(old(Slots()), k.value) && Map() == old(Map()) - {k.value}
    {
      hide HashOf, KeysDistinct, Count, Find, View, Shape, Hashed, Slots;
      if k.None? {
        return;
      }
      UnsetRemoves(Slots(), k.value);
      Lookup(Slots(), k.value);
      var h := Hash(k);
      var i := FindSlot(k.value, h);
      if i >= size {
        return;
      }
      Erase(i);
      n := n - 1;
    }
  }
}
