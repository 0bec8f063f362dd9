/** base64_encode of app/smtp.c, and the decoding of section 4 of RFC 4648. */
module Base64 {

  import opened Options

  const UPPER: string := "ABCDEFGHIJKLMNOPQRSTUVWXYZ"
  const LOWER: string := "abcdefghijklmnopqrstuvwxyz"
  const REST: string := "0123456789+/"
  const BASE64_TABLE: string := UPPER + LOWER + REST

  /** The alphabet of RFC 4648, table 1, read the other way. */
  function Value(c: char): (v: Option<int>)
    ensures v.Some? ==> 0 <= v.value < 64
  {
    if 'A' <= c <= 'Z' then Some(c as int - 'A' as int)
    else if 'a' <= c <= 'z' then Some(c as int - 'a' as int + 26)
    else if '0' <= c <= '9' then Some(c as int - '0' as int + 52)
    else if c == '+' then Some(62)
    else if c == '/' then Some(63)
    else None
  }

  /** The characters of `s` are consecutive up to position `i`. */
  predicate RunAt(s: string, i: int) {
    0 <= i < |s| && s[i] as int == s[0] as int + i
  }

  predicate Runs(s: string) {
    && |s| == 26
    && RunAt(s, 0) && RunAt(s, 1) && RunAt(s, 2) && RunAt(s, 3) && RunAt(s, 4) && RunAt(s, 5)
    && RunAt(s, 6) && RunAt(s, 7) && RunAt(s, 8) && RunAt(s, 9) && RunAt(s, 10) && RunAt(s, 11)
    && RunAt(s, 12) && RunAt(s, 13) && RunAt(s, 14) && RunAt(s, 15) && RunAt(s, 16) && RunAt(s, 17)
    && RunAt(s, 18) && RunAt(s, 19) && RunAt(s, 20) && RunAt(s, 21) && RunAt(s, 22) && RunAt(s, 23)
    && RunAt(s, 24) && RunAt(s, 25)
  }

  lemma LettersRun()
    ensures Runs(UPPER) && Runs(LOWER)
  {
  }

  lemma DigitsRun(i: int)
    requires 0 <= i < 12
    ensures |REST| == 12 && Value(REST[i]) == Some(i + 52)
  {
  }

  lemma ValueOfLetter(s: string, i: int)
    requires Runs(s) && 0 <= i < 26
    ensures s[0] == 'A' ==> Value(s[i]) == Some(i)
    ensures s[0] == 'a' ==> Value(s[i]) == Some(i + 26)
  {
  }

  lemma TableParts(upper: string, lower: string, rest: string, i: int)
    requires |upper| == 26 && |lower| == 26 && |rest| == 12 && 0 <= i < 64
    ensures (upper + lower + rest)[i] == if i < 26 then upper[i] else if i < 52 then lower[i - 26] else rest[i - 52]
  {
  }

  /** The table and the values invert each other. */
  lemma ValueOfTable(i: int)
    requires 0 <= i < 64
    ensures |BASE64_TABLE| == 64 && Value(BASE64_TABLE[i]) == Some(i)
  {
    hide Runs, Value;
    TableParts(UPPER, LOWER, REST, i);
    LettersRun();
    if i < 26 {
      ValueOfLetter(UPPER, i);
    } else if i < 52 {
      ValueOfLetter(LOWER, i - 26);
    } else {
      DigitsRun(i - 52);
    }
  }

  lemma ValueInjective(c: char, d: char)
    requires Value(c).Some? && Value(c) == Value(d)
    ensures c == d
  {
  }

  // Sextets.

  function Char(v: bv8): char
    requires v < 64
  {
    TableLength();
    BASE64_TABLE[v as int]
  }

  lemma TableLength()
    ensures |BASE64_TABLE| == 64
  {
  }

  function Sextet(c: char): (v: Option<bv8>)
    ensures v.Some? ==> v.value < 64
  {
    var i := Value(c);
    if i.Some? then Some(i.value as bv8) else None
  }

  lemma SextetOfChar(v: bv8)
    requires v < 64
    ensures Sextet(Char(v)) == Some(v)
  {
    ValueOfTable(v as int);
    hide Value;
  }

  lemma CharOfSextet(c: char)
    requires Sextet(c).Some?
    ensures Char(Sextet(c).value) == c
  {
    var i := Value(c).value;
    ValueOfTable(i);
    ValueInjective(c, BASE64_TABLE[i]);
    hide Value;
    SmallFits(i);
  }

  lemma SmallFits(i: int)
    requires 0 <= i < 64
    ensures (i as bv8) as int == i
  {
  }

  lemma PadIsNoSextet()
    ensures Sextet('=').None?
  {
  }

  // The sextets of three bytes, as base64_encode computes them.
  function First(a: bv8): (v: bv8) ensures v < 64 { a >> 2 }
  function Second(a: bv8, b: bv8): (v: bv8) ensures v < 64 { ((a & 0x3) << 4) | ((b & 0xF0) >> 4) }
  function Third(b: bv8, c: bv8): (v: bv8) ensures v < 64 { ((b & 0xF) << 2) | (c >> 6) }
  function Fourth(c: bv8): (v: bv8) ensures v < 64 { c & 0x3F }

  // The bytes of four sextets.
  function ByteA(v: bv8, w: bv8): bv8 { (v << 2) | (w >> 4) }
  function ByteB(w: bv8, x: bv8): bv8 { (w << 4) | (x >> 2) }
  function ByteC(x: bv8, y: bv8): bv8 { (x << 6) | y }

  lemma BytesOfSextets(a: bv8, b: bv8, c: bv8)
    ensures ByteA(First(a), Second(a, b)) == a
    ensures ByteB(Second(a, b), Third(b, c)) == b
    ensures ByteC(Third(b, c), Fourth(c)) == c
    ensures Second(a, 0) & 0xF == 0 && Third(b, 0) & 0x3 == 0
  {
  }

  lemma SextetsOfBytes(v: bv8, w: bv8, x: bv8, y: bv8)
    requires v < 64 && w < 64 && x < 64 && y < 64
    ensures First(ByteA(v, w)) == v
    ensures Second(ByteA(v, w), ByteB(w, x)) == w
    ensures Third(ByteB(w, x), ByteC(x, y)) == x
    ensures Fourth(ByteC(x, y)) == y
    ensures w & 0xF == 0 ==> Second(ByteA(v, w), 0) == w
    ensures x & 0x3 == 0 ==> Third(ByteB(w, x), 0) == x
  {
  }

  /** Four characters for every three bytes, padded at the end. */
  function Encode(x: seq<bv8>): (t: string)
    ensures |t| == 4 * ((|x| + 2) / 3)
    decreases |x|
  {
    if |x| == 0 then ""
    else if |x| == 1 then [Char(First(x[0])), Char(Second(x[0], 0)), '=', '=']
    else if |x| == 2 then [Char(First(x[0])), Char(Second(x[0], x[1])), Char(Third(x[1], 0)), '=']
    else [Char(First(x[0])), Char(Second(x[0], x[1])), Char(Third(x[1], x[2])), Char(Fourth(x[2]))] + Encode(x[3..])
  }

  /** Section 4 of RFC 4648, refusing what section 3.5 lets a decoder refuse: padding
      bits that are not zero. */
  function Decode(t: string): Option<seq<bv8>>
    decreases |t|
  {
    if t == "" then Some([])
    else if |t| < 4 then None
    else
      var v, w, x, y := Sextet(t[0]), Sextet(t[1]), Sextet(t[2]), Sextet(t[3]);
      if v.None? || w.None? then None
      else if t[2..] == "==" then
        if w.value & 0xF == 0 then Some([ByteA(v.value, w.value)]) else None
      else if x.None? then None
      else if t[3..] == "=" then
        if x.value & 0x3 == 0 then Some([ByteA(v.value, w.value), ByteB(w.value, x.value)]) else None
      else if y.None? then None
      else
        var rest := Decode(t[4..]);
        if rest.None? then None
        else Some([ByteA(v.value, w.value), ByteB(w.value, x.value), ByteC(x.value, y.value)] + rest.value)
  }

  /** The characters of a whole group are decoded as its bytes. */
  lemma GroupDecoded(a: bv8, b: bv8, c: bv8, t: string)
    ensures var u := [Char(First(a)), Char(Second(a, b)), Char(Third(b, c)), Char(Fourth(c))] + t;
            Decode(u) == if Decode(t).None? then None else Some([a, b, c] + Decode(t).value)
  {
    hide Sextet, Char, First, Second, Third, Fourth, ByteA, ByteB, ByteC;
    var u := [Char(First(a)), Char(Second(a, b)), Char(Third(b, c)), Char(Fourth(c))] + t;
    PadIsNoSextet();
    BytesOfSextets(a, b, c);
    SextetOfChar(First(a));
    SextetOfChar(Second(a, b));
    SextetOfChar(Third(b, c));
    SextetOfChar(Fourth(c));
    assert u[2..][0] != '=' && u[3..][0] != '=' && u[4..] == t;
  }

  /** What was encoded decodes to itself. */
  lemma {:induction false} DecodeOfEncode(x: seq<bv8>)
    ensures Decode(Encode(x)) == Some(x)
    decreases |x|
  {
    hide Sextet, Char, First, Second, Third, Fourth, ByteA, ByteB, ByteC;
    if |x| > 2 {
      DecodeOfEncode(x[3..]);
      GroupDecoded(x[0], x[1], x[2], Encode(x[3..]));
      assert x == [x[0], x[1], x[2]] + x[3..];
    } else if x != [] {
      var b := if |x| > 1 then x[1] else 0;
      PadIsNoSextet();
      BytesOfSextets(x[0], b, 0);
      SextetOfChar(First(x[0]));
      SextetOfChar(Second(x[0], b));
      SextetOfChar(Third(b, 0));
      assert |x| == 2 ==> Encode(x)[2..][0] == Char(Third(b, 0));
      assert x == if |x| == 2 then [x[0], x[1]] else [x[0]];
    }
  }

  /** The bytes of a whole group are encoded as the group. */
  lemma GroupEncoded(t: string, rest: seq<bv8>)
    requires |t| >= 4 && Sextet(t[0]).Some? && Sextet(t[1]).Some? && Sextet(t[2]).Some? && Sextet(t[3]).Some?
    ensures var v, w, x, y := Sextet(t[0]).value, Sextet(t[1]).value, Sextet(t[2]).value, Sextet(t[3]).value;
            Encode([ByteA(v, w), ByteB(w, x), ByteC(x, y)] + rest) == t[..4] + Encode(rest)
  {
    hide Sextet, Char, First, Second, Third, Fourth, ByteA, ByteB, ByteC;
    var v, w, x, y := Sextet(t[0]).value, Sextet(t[1]).value, Sextet(t[2]).value, Sextet(t[3]).value;
    CharOfSextet(t[0]);
    CharOfSextet(t[1]);
    CharOfSextet(t[2]);
    CharOfSextet(t[3]);
    SextetsOfBytes(v, w, x, y);
    assert ([ByteA(v, w), ByteB(w, x), ByteC(x, y)] + rest)[3..] == rest;
  }

  /** Nothing else decodes to it. */
  lemma {:induction false} EncodeOfDecode(t: string)
    requires Decode(t).Some?
    ensures Encode(Decode(t).value) == t
    decreases |t|
  {
    hide Sextet, Char, First, Second, Third, Fourth, ByteA, ByteB, ByteC;
    if t != "" {
      var v, w, x := Sextet(t[0]), Sextet(t[1]), Sextet(t[2]);
      CharOfSextet(t[0]);
      CharOfSextet(t[1]);
      if t[2..] == "==" {
        SextetsOfBytes(v.value, w.value, 0, 0);
        assert t == [t[0], t[1], '=', '='];
      } else if t[3..] == "=" {
        CharOfSextet(t[2]);
        SextetsOfBytes(v.value, w.value, x.value, 0);
        assert t == [t[0], t[1], t[2], '='];
      } else {
        EncodeOfDecode(t[4..]);
        GroupEncoded(t, Decode(t[4..]).value);
        assert t == t[..4] + t[4..];
      }
    }
  }

  /** The characters of the first group. */
  function Quad(x: seq<bv8>): (t: string)
    requires |x| > 0
    ensures |t| == 4
  {
    var b := if |x| > 1 then x[1] else 0;
    var c := if |x| > 2 then x[2] else 0;
    [Char(First(x[0])), Char(Second(x[0], b)),
     if |x| > 1 then Char(Third(b, c)) else '=', if |x| > 2 then Char(Fourth(c)) else '=']
  }

  /** What is left to encode from `i` on. */
  function Rest(data: seq<bv8>, i: nat): seq<bv8> {
    if i < |data| then data[i..] else []
  }

  lemma EncodeByQuads(data: seq<bv8>, i: nat, done: string)
    requires i < |data|
    ensures done + Encode(Rest(data, i)) == done + Quad(data[i..]) + Encode(Rest(data, i + 3))
  {
  }

  lemma EncodeBegins(data: seq<bv8>)
    ensures "" + Encode(Rest(data, 0)) == Encode(data)
  {
    hide Encode;
    assert Rest(data, 0) == data;
  }

  lemma EncodeEnds(data: seq<bv8>, i: nat, done: string)
    requires i >= |data|
    ensures done + Encode(Rest(data, i)) == done
  {
    hide Char, First, Second, Third, Fourth;
  }

  /** `was` with its first characters replaced by `done`. */
  function Over(was: string, done: string): string
    requires |done| <= |was|
  {
    done + was[|done|..]
  }

  /** The body of the loop: the four characters of the group at `i`, after what is
      `done`; the rest of the buffer stays as it was. */
  method PutQuad(data: seq<bv8>, i: nat, outBuf: array<char>, j: nat, ghost done: string, ghost was: string)
    requires i < |data| && j + 4 <= outBuf.Length == |was|
    requires |done| == j && outBuf[..] == Over(was, done)
    modifies outBuf
    ensures outBuf[..] == Over(was, done + Quad(data[i..]))
  {
    hide Char, First, Second, Third, Fourth;
    var n := |data|;
    outBuf[j] := Char(First(data[i]));
    outBuf[j + 1] := Char(Second(data[i], if i + 1 < n then data[i + 1] else 0));
    outBuf[j + 2] := if i + 1 < n then Char(Third(data[i + 1], if i + 2 < n then data[i + 2] else 0)) else '=';
    outBuf[j + 3] := if i + 2 < n then Char(Fourth(data[i + 2])) else '=';
  }

  lemma OverNothing(was: string)
    ensures Over(was, "") == was
  {
  }

  lemma Ended(was: string, done: string, c: char)
    requires |done| < |was|
    ensures Over(was, done)[|done| := c] == Over(was, done + [c])
  {
  }

  /** The loop: the whole text, in front of what was there. */
  method PutText(data: seq<bv8>, outBuf: array<char>, ghost groups: nat)
    requires |data| <= 3 * groups < |data| + 3 && 4 * groups < outBuf.Length
    modifies outBuf
    ensures |Encode(data)| == 4 * groups
    ensures outBuf[..] == Over(old(outBuf[..]), Encode(data))
  {
    hide Encode, Quad, Rest, Over;
    ghost var was, done, g := outBuf[..], "", 0;
    OverNothing(was);
    EncodeBegins(data);
    var i, j := 0, 0;
    while i < |data|
      invariant i == 3 * g && j == 4 * g && 0 <= g <= groups
      invariant |done| == j && outBuf[..] == Over(was, done)
      invariant done + Encode(Rest(data, i)) == Encode(data)
    {
      PutQuad(data, i, outBuf, j, done, was);
      EncodeByQuads(data, i, done);
      done, g := done + Quad(data[i..]), g + 1;
      i, j := i + 3, j + 4;
    }
    EncodeEnds(data, i, done);
  }

  method Terminate(outBuf: array<char>, ghost done: string, ghost was: string, j: nat)
    requires |done| == j < outBuf.Length == |was| && outBuf[..] == Over(was, done)
    modifies outBuf
    ensures outBuf[..] == Over(was, done + ['\0'])
  {
    hide Over;
    outBuf[j] := '\0';
    assert outBuf[..] == old(outBuf[..])[j := '\0'];
    Ended(was, done, '\0');
  }

  lemma Groups(n: nat)
    ensures n / 3 * 4 + (if n % 3 == 0 then 0 else 4) == (n + 2) / 3 * 4
  {
  }

  /** base64_encode: the text and a terminator when the buffer has room for both,
      nothing otherwise; the result is the room needed. */
  method Base64Encode(data: seq<bv8>, outBuf: array?<char>, bufSize: int) returns (r: int)
    requires outBuf != null ==> bufSize <= outBuf.Length
    modifies if outBuf == null then {} else {outBuf}
    ensures r == |Encode(data)| + 1
    ensures outBuf != null ==>
              outBuf[..] == if r <= bufSize then Encode(data) + ['\0'] + old(outBuf[..])[r..] else old(outBuf[..])
  {
    hide Encode;
    Groups(|data|);
    var n := |data|;
    var outStrLen := n / 3 * 4 + (if n % 3 == 0 then 0 else 4);
    if outBuf != null && outStrLen < bufSize {
      PutText(data, outBuf, (n + 2) / 3);
      Terminate(outBuf, Encode(data), old(outBuf[..]), outStrLen);
    }
    r := outStrLen + 1;
  }
}
