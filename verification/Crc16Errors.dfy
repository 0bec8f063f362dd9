/** What the Modbus CRC detects.  A message is also read as the sequence of its
    bits, each byte least significant bit first, the order in which the register
    takes them. */
module Crc16Errors {
  import opened Crc16

  function Bit(b: bool): bv16 { if b then 1 else 0 }

  predicate Odd(b: bv16) { b & 1 == 1 }

  function Half(b: bv16): bv16 { b >> 1 }

  /** Two to the power `n`. */
  function Limit(n: nat): bv16
    requires n <= 15
  {
    if n == 0 then 0x1 else if n == 1 then 0x2 else if n == 2 then 0x4 else if n == 3 then 0x8 else
    if n == 4 then 0x10 else if n == 5 then 0x20 else if n == 6 then 0x40 else if n == 7 then 0x80 else
    if n == 8 then 0x100 else if n == 9 then 0x200 else if n == 10 then 0x400 else if n == 11 then 0x800 else
    if n == 12 then 0x1000 else if n == 13 then 0x2000 else if n == 14 then 0x4000 else 0x8000
  }

  predicate Below(c: bv16, n: nat)
    requires n <= 15
  {
    c < Limit(n)
  }

  function FeedBits(c: bv16, w: seq<bool>): bv16
    decreases |w|
  {
    if w == [] then c else FeedBits(ShiftBit(Xor(c, Bit(w[0]))), w[1..])
  }

  /** The `n` lowest bits of `b`, lowest first. */
  function LowBits(b: bv16, n: nat): (w: seq<bool>)
    ensures |w| == n
    decreases n
  {
    if n == 0 then [] else [Odd(b)] + LowBits(Half(b), n - 1)
  }

  function MessageBits(bytes: seq<bv8>): (w: seq<bool>)
    ensures |w| == 8 * |bytes|
    decreases |bytes|
  {
    if bytes == [] then [] else LowBits(bytes[0] as bv16, 8) + MessageBits(bytes[1..])
  }

  // Arithmetic of one step.

  lemma XorRegroups(c: bv16, c': bv16, b: bv16, b': bv16)
    ensures Xor(Xor(c, b), Xor(c', b')) == Xor(Xor(c, c'), Xor(b, b'))
  {
    hide Xor;
    XorMoves(c, b, Xor(c', b'));
    XorMoves(c', b', b);
    XorMoves(c, c', Xor(b, b'));
  }

  lemma XorMoves(x: bv16, y: bv16, z: bv16)
    ensures Xor(Xor(x, y), z) == Xor(x, Xor(y, z))
    ensures Xor(Xor(x, y), z) == Xor(x, Xor(z, y))
    ensures Xor(x, y) == Xor(y, x)
  {
  }

  lemma XorCancels(c: bv16, c': bv16, b: bv16)
    ensures Xor(c, b) == Xor(c', b) ==> c == c'
    ensures Xor(c, c) == 0 && Xor(c, 0) == c && Xor(0, c) == c
  {
  }

  lemma XorBits(b: bool, b': bool)
    ensures Xor(Bit(b), Bit(b')) == Bit(b != b')
  {
  }

  lemma ShiftBitInjective(c: bv16, c': bv16)
    ensures ShiftBit(c) == ShiftBit(c') ==> c == c'
  {
  }

  lemma BelowZero(c: bv16)
    ensures Below(c, 0) <==> c == 0
  {
  }

  /** A register shifted below 2^(n-1) was even and below 2^n: an odd one would have
      gained its top bit. */
  lemma ShiftBack(z: bv16, n: nat)
    requires 1 <= n <= 16 && Below(ShiftBit(z), n - 1)
    ensures !Odd(z) && (n <= 15 ==> Below(z, n))
  {
  }

  lemma LowestClears(c: bv16, b: bool, n: nat)
    requires 1 <= n <= 15 && !Odd(Xor(c, Bit(b))) && Below(Xor(c, Bit(b)), n)
    ensures Below(c, n)
  {
  }

  /** Taking the lowest bit of `b` first leaves the rest for later. */
  lemma BitThenRest(c: bv16, b: bv16)
    ensures ShiftBit(Xor(c, b)) == Xor(ShiftBit(Xor(c, Bit(Odd(b)))), Half(b))
  {
    hide ShiftBit, Xor, Bit, Odd, Half;
    var even := b & 0xFFFE;
    EvenPart(b);
    XorMoves(c, Bit(Odd(b)), even);
    ShiftBitLinear(Xor(c, Bit(Odd(b))), even);
  }

  lemma EvenPart(b: bv16)
    ensures b == Xor(Bit(Odd(b)), b & 0xFFFE) && ShiftBit(b & 0xFFFE) == Half(b)
  {
  }

  lemma HalfBelow(b: bv16, n: nat)
    requires 1 <= n <= 15 && Below(b, n)
    ensures Below(Half(b), n - 1)
  {
  }

  lemma HalvesJoin(b: bv16, b': bv16)
    requires Odd(b) == Odd(b') && Half(b) == Half(b')
    ensures b == b'
  {
  }

  lemma ByteBelow(b: bv8, b': bv8)
    ensures Below(b as bv16, 8)
    ensures b as bv16 == b' as bv16 ==> b == b'
  {
  }

  // Runs of bits.

  lemma {:induction false} FeedBitsAppend(c: bv16, v: seq<bool>, w: seq<bool>)
    ensures FeedBits(c, v + w) == FeedBits(FeedBits(c, v), w)
    decreases |v|
  {
    hide ShiftBit, Xor, Bit;
    if v == [] {
      assert v + w == w;
    } else {
      assert (v + w)[1..] == v[1..] + w;
      FeedBitsAppend(ShiftBit(Xor(c, Bit(v[0]))), v[1..], w);
    }
  }

  lemma {:induction false} FeedBitsInjective(c: bv16, c': bv16, w: seq<bool>)
    requires FeedBits(c, w) == FeedBits(c', w)
    ensures c == c'
    decreases |w|
  {
    hide ShiftBit, Xor, Bit;
    if w != [] {
      var b := Bit(w[0]);
      FeedBitsInjective(ShiftBit(Xor(c, b)), ShiftBit(Xor(c', b)), w[1..]);
      ShiftBitInjective(Xor(c, b), Xor(c', b));
      XorCancels(c, c', b);
    }
  }

  /** If two runs of at most fifteen bits end in the same register, the registers
      they started from agreed above the lowest bits. */
  lemma {:induction false} SameEnd(c: bv16, c': bv16, v: seq<bool>, w: seq<bool>)
    requires |v| == |w| <= 15 && FeedBits(c, v) == FeedBits(c', w)
    ensures Below(Xor(c, c'), |v|)
    decreases |v|
  {
    hide ShiftBit, Xor, Bit, Below, Odd;
    if v == [] {
      XorCancels(c, c', 0);
      BelowZero(0);
    } else {
      var x, y := Xor(c, Bit(v[0])), Xor(c', Bit(w[0]));
      SameEnd(ShiftBit(x), ShiftBit(y), v[1..], w[1..]);
      ShiftBitLinear(x, y);
      ShiftBack(Xor(x, y), |v|);
      XorRegroups(c, c', Bit(v[0]), Bit(w[0]));
      XorBits(v[0], w[0]);
      LowestClears(Xor(c, c'), v[0] != w[0], |v|);
    }
  }

  /** Different runs of at most sixteen bits leave different registers. */
  lemma {:induction false} BurstChangesRegister(c: bv16, v: seq<bool>, w: seq<bool>)
    requires |v| == |w| <= 16 && FeedBits(c, v) == FeedBits(c, w)
    ensures v == w
    decreases |v|
  {
    hide ShiftBit, Xor, Bit, Below, Odd;
    if v != [] {
      var x, y := Xor(c, Bit(v[0])), Xor(c, Bit(w[0]));
      SameEnd(ShiftBit(x), ShiftBit(y), v[1..], w[1..]);
      ShiftBitLinear(x, y);
      ShiftBack(Xor(x, y), |v|);
      XorRegroups(c, c, Bit(v[0]), Bit(w[0]));
      XorCancels(c, c, 0);
      XorBits(v[0], w[0]);
      XorCancels(Bit(v[0] != w[0]), 0, 0);
      assert !Odd(Bit(v[0] != w[0]));
      OddBit(v[0] != w[0]);
      BurstChangesRegister(ShiftBit(x), v[1..], w[1..]);
    }
  }

  lemma OddBit(b: bool)
    ensures Odd(Bit(b)) <==> b
  {
  }

  // Bytes as bits.

  function ShiftTimes(n: nat, c: bv16): bv16 {
    if n == 0 then c else ShiftTimes(n - 1, ShiftBit(c))
  }

  lemma ShiftByteIsTimes(c: bv16)
    ensures ShiftByte(c) == ShiftTimes(8, c)
  {
    hide ShiftBit;
    var c4 := ShiftBit(ShiftBit(ShiftBit(ShiftBit(c))));
    ShiftTimesTwice(6, c);
    ShiftTimesTwice(4, ShiftBit(ShiftBit(c)));
    ShiftTimesTwice(2, c4);
    ShiftTimesTwice(0, ShiftBit(ShiftBit(c4)));
  }

  lemma ShiftTimesTwice(n: nat, c: bv16)
    ensures ShiftTimes(n + 2, c) == ShiftTimes(n, ShiftBit(ShiftBit(c)))
  {
  }

  lemma {:induction false} LowBitsFeed(c: bv16, b: bv16, n: nat)
    requires n <= 8 && Below(b, n)
    ensures FeedBits(c, LowBits(b, n)) == ShiftTimes(n, Xor(c, b))
    decreases n
  {
    hide ShiftBit, Xor, Bit, Below, Odd, Half;
    if n == 0 {
      BelowZero(b);
      XorCancels(c, c, 0);
    } else {
      BitThenRest(c, b);
      HalfBelow(b, n);
      LowBitsFeed(ShiftBit(Xor(c, Bit(Odd(b)))), Half(b), n - 1);
      assert LowBits(b, n)[1..] == LowBits(Half(b), n - 1);
    }
  }

  lemma {:induction false} LowBitsInjective(b: bv16, b': bv16, n: nat)
    requires n <= 8 && Below(b, n) && Below(b', n) && LowBits(b, n) == LowBits(b', n)
    ensures b == b'
    decreases n
  {
    hide Below, Odd, Half;
    if n == 0 {
      BelowZero(b);
      BelowZero(b');
    } else {
      HalfBelow(b, n);
      HalfBelow(b', n);
      assert LowBits(b, n)[0] == LowBits(b', n)[0];
      assert LowBits(b, n)[1..] == LowBits(Half(b), n - 1);
      assert LowBits(b', n)[1..] == LowBits(Half(b'), n - 1);
      LowBitsInjective(Half(b), Half(b'), n - 1);
      HalvesJoin(b, b');
    }
  }

  /** Byte by byte and bit by bit are the same code. */
  lemma {:induction false} FeedIsFeedBits(c: bv16, bytes: seq<bv8>)
    ensures Feed(c, bytes) == FeedBits(c, MessageBits(bytes))
    decreases |bytes|
  {
    hide ShiftByte, ShiftBit, Xor, LowBits, Below;
    if bytes != [] {
      var b := bytes[0] as bv16;
      ByteBelow(bytes[0], 0);
      LowBitsFeed(c, b, 8);
      ShiftByteIsTimes(Xor(c, b));
      FeedBitsAppend(c, LowBits(b, 8), MessageBits(bytes[1..]));
      FeedIsFeedBits(ShiftByte(Xor(c, b)), bytes[1..]);
    }
  }

  lemma {:induction false} MessageBitsInjective(a: seq<bv8>, b: seq<bv8>)
    requires |a| == |b| && MessageBits(a) == MessageBits(b)
    ensures a == b
    decreases |a|
  {
    hide LowBits, Below;
    if a != [] {
      ByteBelow(a[0], b[0]);
      ByteBelow(b[0], a[0]);
      var v, w := MessageBits(a), MessageBits(b);
      assert v[..8] == LowBits(a[0] as bv16, 8) && v[8..] == MessageBits(a[1..]);
      assert w[..8] == LowBits(b[0] as bv16, 8) && w[8..] == MessageBits(b[1..]);
      LowBitsInjective(a[0] as bv16, b[0] as bv16, 8);
      MessageBitsInjective(a[1..], b[1..]);
    }
  }

  lemma {:induction false} MessageBitsAppend(a: seq<bv8>, b: seq<bv8>)
    ensures MessageBits(a + b) == MessageBits(a) + MessageBits(b)
    decreases |a|
  {
    hide LowBits;
    if a == [] {
      assert a + b == b;
    } else {
      assert (a + b)[1..] == a[1..] + b;
      MessageBitsAppend(a[1..], b);
    }
  }

  // The main results.

  /** Every error confined to sixteen consecutive bits changes the code. */
  lemma BurstDetected(a: seq<bv8>, b: seq<bv8>, p: nat, n: nat)
    requires |a| == |b| && a != b
    requires n <= 16 && p + n <= 8 * |a|
    requires MessageBits(a)[..p] == MessageBits(b)[..p]
    requires MessageBits(a)[p + n..] == MessageBits(b)[p + n..]
    ensures Crc(a) != Crc(b)
  {
    hide MessageBits, Feed, FeedBits;
    var v, w := MessageBits(a), MessageBits(b);
    FeedIsFeedBits(0xFFFF, a);
    FeedIsFeedBits(0xFFFF, b);
    if Crc(a) == Crc(b) {
      var c := FeedBits(0xFFFF, v[..p]);
      var x, y, rest := v[p..p + n], w[p..p + n], v[p + n..];
      assert v == v[..p] + x + rest;
      assert w == v[..p] + y + rest;
      FeedBitsAppend(0xFFFF, v[..p] + x, rest);
      FeedBitsAppend(0xFFFF, v[..p] + y, rest);
      FeedBitsAppend(0xFFFF, v[..p], x);
      FeedBitsAppend(0xFFFF, v[..p], y);
      FeedBitsInjective(FeedBits(c, x), FeedBits(c, y), rest);
      BurstChangesRegister(c, x, y);
      MessageBitsInjective(a, b);
    }
  }

  /** In particular, every error within two adjacent bytes. */
  lemma AdjacentBytesDetected(a: seq<bv8>, b: seq<bv8>, i: nat)
    requires |a| == |b| && a != b && i + 2 <= |a|
    requires forall j :: 0 <= j < |a| && j != i && j != i + 1 ==> a[j] == b[j]
    ensures Crc(a) != Crc(b)
  {
    hide MessageBits, Crc;
    assert a == a[..i] + a[i..i + 2] + a[i + 2..];
    assert b == a[..i] + b[i..i + 2] + a[i + 2..];
    MessageBitsAppend(a[..i] + a[i..i + 2], a[i + 2..]);
    MessageBitsAppend(a[..i] + b[i..i + 2], a[i + 2..]);
    MessageBitsAppend(a[..i], a[i..i + 2]);
    MessageBitsAppend(a[..i], b[i..i + 2]);
    BurstDetected(a, b, 8 * i, 16);
  }

  lemma {:induction false} FeedAppend(c: bv16, a: seq<bv8>, b: seq<bv8>)
    ensures Feed(c, a + b) == Feed(Feed(c, a), b)
    decreases |a|
  {
    hide ShiftByte, Xor;
    if a == [] {
      assert a + b == b;
    } else {
      assert (a + b)[1..] == a[1..] + b;
      FeedAppend(ShiftByte(Xor(c, a[0] as bv16)), a[1..], b);
    }
  }

  lemma RegisterIsWord(c: bv16) returns (high: bv8, low: bv8)
    ensures c == Word(high, low)
  {
    high, low := (c >> 8) as bv8, (c & 0xFF) as bv8;
  }

  /** A byte alone in the register reaches the high byte, unless it is zero. */
  lemma ShiftLowByte(d: bv8)
    ensures ShiftByte(d as bv16) <= 0xFF ==> d == 0
    ensures ShiftByte(0) == 0
  {
  }

  lemma BytesCancel(high: bv8, s: bv16, y: bv8)
    ensures Xor(Xor(high as bv16, s), y as bv16) == 0 ==> s <= 0xFF
    ensures Xor(Xor(high as bv16, 0), y as bv16) == 0 <==> high == y
  {
  }

  lemma WordsEqual(high: bv8, low: bv8, x: bv8, y: bv8)
    ensures Word(high, low) == Word(y, x) <==> high == y && Xor8(low, x) == 0
  {
  }

  lemma TwoBytesToZero(high: bv8, low: bv8, x: bv8, y: bv8)
    ensures ShiftByte(Xor(ShiftByte(Xor(Word(high, low), x as bv16)), y as bv16)) == 0
            <==> Word(high, low) == Word(y, x)
  {
    hide ShiftByte, Xor, Word, Xor8;
    var d := Xor8(low, x);
    RegisterSplits(high, low, x);
    ShiftByteLinear((high as bv16) << 8, d as bv16);
    ShiftHighByte(high);
    ShiftByteZero(Xor(ShiftByte(Xor(Word(high, low), x as bv16)), y as bv16));
    ShiftLowByte(d);
    BytesCancel(high, ShiftByte(d as bv16), y);
    WordsEqual(high, low, x, y);
  }

  lemma ShiftByteZero(c: bv16)
    ensures ShiftByte(c) == 0 <==> c == 0
  {
  }

  /** A message followed by two bytes has code zero exactly when they are its code,
      low byte first. */
  lemma CodeChecksToZero(m: seq<bv8>, x: bv8, y: bv8)
    ensures Crc(m + [x, y]) == 0 <==> Crc(m) == Word(y, x)
  {
    hide ShiftByte, Xor, Word;
    var high, low := RegisterIsWord(Crc(m));
    FeedAppend(0xFFFF, m, [x, y]);
    TwoBytesToZero(high, low, x, y);
    var c := ShiftByte(Xor(Crc(m), x as bv16));
    assert [x, y][1..] == [y];
    assert Feed(Crc(m), [x, y]) == Feed(c, [y]);
    assert Feed(c, [y]) == Feed(ShiftByte(Xor(c, y as bv16)), []);
  }

  // The register starts at 0xFFFF, so that zero bytes in front of a message count.

  lemma ShiftByteInjective(c: bv16, c': bv16)
    requires ShiftByte(c) == ShiftByte(c')
    ensures c == c'
  {
    hide ShiftByte, Xor;
    ShiftByteLinear(c, c');
    XorIsZero(ShiftByte(c), ShiftByte(c'));
    ShiftByteZero(Xor(c, c'));
    XorIsZero(c, c');
  }

  lemma XorIsZero(x: bv16, y: bv16)
    ensures Xor(x, y) == 0 <==> x == y
  {
    hide Xor;
    XorCancels(x, y, y);
    XorCancels(y, y, y);
  }

  lemma {:induction false} FeedInjective(c: bv16, c': bv16, m: seq<bv8>)
    requires Feed(c, m) == Feed(c', m)
    ensures c == c'
    decreases |m|
  {
    hide ShiftByte, Xor;
    if m != [] {
      var b := m[0] as bv16;
      FeedInjective(ShiftByte(Xor(c, b)), ShiftByte(Xor(c', b)), m[1..]);
      ShiftByteInjective(Xor(c, b), Xor(c', b));
      XorCancels(c, c', b);
    }
  }

  lemma OneZeroByte()
    ensures ShiftByte(Xor(0xFFFF, 0)) != 0xFFFF
  {
  }

  lemma TwoFullBytes()
    ensures ShiftByte(Xor(ShiftByte(Xor(0xFFFF, 0xFF)), 0xFF)) == 0
  {
  }

  /** A zero byte in front of any message changes its code. */
  lemma LeadingZeroCounts(m: seq<bv8>)
    ensures Crc([0] + m) != Crc(m)
  {
    hide ShiftByte, Xor;
    assert ([0] + m)[1..] == m;
    OneZeroByte();
    if Crc([0] + m) == Crc(m) {
      FeedInjective(ShiftByte(Xor(0xFFFF, 0)), 0xFFFF, m);
    }
  }

  /** Two bytes 0xFF clear the register: behind them a message has the code it would have
      from a register of zero. */
  lemma FullBytesClear(m: seq<bv8>)
    ensures Crc([0xFF, 0xFF] + m) == Feed(0, m)
  {
    hide ShiftByte, Xor;
    var full: bv8 := 0xFF;
    assert ([full, full] + m)[1..] == [full] + m && ([full] + m)[1..] == m;
    assert Feed(0xFFFF, [full, full] + m) == Feed(ShiftByte(Xor(0xFFFF, full as bv16)), [full] + m);
    TwoFullBytes();
  }
}
