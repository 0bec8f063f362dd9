/** The Modbus CRC of protocol_frame/crc16.c. */
module Crc16 {
  // The two tables, sixteen bytes to a row.

  const HIGH_BYTE_TABLE: seq<seq<bv8>> := [
    [0x00, 0xC1, 0x81, 0x40, 0x01, 0xC0, 0x80, 0x41, 0x01, 0xC0, 0x80, 0x41, 0x00, 0xC1, 0x81, 0x40],
    [0x01, 0xC0, 0x80, 0x41, 0x00, 0xC1, 0x81, 0x40, 0x00, 0xC1, 0x81, 0x40, 0x01, 0xC0, 0x80, 0x41],
    [0x01, 0xC0, 0x80, 0x41, 0x00, 0xC1, 0x81, 0x40, 0x00, 0xC1, 0x81, 0x40, 0x01, 0xC0, 0x80, 0x41],
    [0x00, 0xC1, 0x81, 0x40, 0x01, 0xC0, 0x80, 0x41, 0x01, 0xC0, 0x80, 0x41, 0x00, 0xC1, 0x81, 0x40],
    [0x01, 0xC0, 0x80, 0x41, 0x00, 0xC1, 0x81, 0x40, 0x00, 0xC1, 0x81, 0x40, 0x01, 0xC0, 0x80, 0x41],
    [0x00, 0xC1, 0x81, 0x40, 0x01, 0xC0, 0x80, 0x41, 0x01, 0xC0, 0x80, 0x41, 0x00, 0xC1, 0x81, 0x40],
    [0x00, 0xC1, 0x81, 0x40, 0x01, 0xC0, 0x80, 0x41, 0x01, 0xC0, 0x80, 0x41, 0x00, 0xC1, 0x81, 0x40],
    [0x01, 0xC0, 0x80, 0x41, 0x00, 0xC1, 0x81, 0x40, 0x00, 0xC1, 0x81, 0x40, 0x01, 0xC0, 0x80, 0x41],
    [0x01, 0xC0, 0x80, 0x41, 0x00, 0xC1, 0x81, 0x40, 0x00, 0xC1, 0x81, 0x40, 0x01, 0xC0, 0x80, 0x41],
    [0x00, 0xC1, 0x81, 0x40, 0x01, 0xC0, 0x80, 0x41, 0x01, 0xC0, 0x80, 0x41, 0x00, 0xC1, 0x81, 0x40],
    [0x00, 0xC1, 0x81, 0x40, 0x01, 0xC0, 0x80, 0x41, 0x01, 0xC0, 0x80, 0x41, 0x00, 0xC1, 0x81, 0x40],
    [0x01, 0xC0, 0x80, 0x41, 0x00, 0xC1, 0x81, 0x40, 0x00, 0xC1, 0x81, 0x40, 0x01, 0xC0, 0x80, 0x41],
    [0x00, 0xC1, 0x81, 0x40, 0x01, 0xC0, 0x80, 0x41, 0x01, 0xC0, 0x80, 0x41, 0x00, 0xC1, 0x81, 0x40],
    [0x01, 0xC0, 0x80, 0x41, 0x00, 0xC1, 0x81, 0x40, 0x00, 0xC1, 0x81, 0x40, 0x01, 0xC0, 0x80, 0x41],
    [0x01, 0xC0, 0x80, 0x41, 0x00, 0xC1, 0x81, 0x40, 0x00, 0xC1, 0x81, 0x40, 0x01, 0xC0, 0x80, 0x41],
    [0x00, 0xC1, 0x81, 0x40, 0x01, 0xC0, 0x80, 0x41, 0x01, 0xC0, 0x80, 0x41, 0x00, 0xC1, 0x81, 0x40]
  ]

  const LOW_BYTE_TABLE: seq<seq<bv8>> := [
    [0x00, 0xC0, 0xC1, 0x01, 0xC3, 0x03, 0x02, 0xC2, 0xC6, 0x06, 0x07, 0xC7, 0x05, 0xC5, 0xC4, 0x04],
    [0xCC, 0x0C, 0x0D, 0xCD, 0x0F, 0xCF, 0xCE, 0x0E, 0x0A, 0xCA, 0xCB, 0x0B, 0xC9, 0x09, 0x08, 0xC8],
    [0xD8, 0x18, 0x19, 0xD9, 0x1B, 0xDB, 0xDA, 0x1A, 0x1E, 0xDE, 0xDF, 0x1F, 0xDD, 0x1D, 0x1C, 0xDC],
    [0x14, 0xD4, 0xD5, 0x15, 0xD7, 0x17, 0x16, 0xD6, 0xD2, 0x12, 0x13, 0xD3, 0x11, 0xD1, 0xD0, 0x10],
    [0xF0, 0x30, 0x31, 0xF1, 0x33, 0xF3, 0xF2, 0x32, 0x36, 0xF6, 0xF7, 0x37, 0xF5, 0x35, 0x34, 0xF4],
    [0x3C, 0xFC, 0xFD, 0x3D, 0xFF, 0x3F, 0x3E, 0xFE, 0xFA, 0x3A, 0x3B, 0xFB, 0x39, 0xF9, 0xF8, 0x38],
    [0x28, 0xE8, 0xE9, 0x29, 0xEB, 0x2B, 0x2A, 0xEA, 0xEE, 0x2E, 0x2F, 0xEF, 0x2D, 0xED, 0xEC, 0x2C],
    [0xE4, 0x24, 0x25, 0xE5, 0x27, 0xE7, 0xE6, 0x26, 0x22, 0xE2, 0xE3, 0x23, 0xE1, 0x21, 0x20, 0xE0],
    [0xA0, 0x60, 0x61, 0xA1, 0x63, 0xA3, 0xA2, 0x62, 0x66, 0xA6, 0xA7, 0x67, 0xA5, 0x65, 0x64, 0xA4],
    [0x6C, 0xAC, 0xAD, 0x6D, 0xAF, 0x6F, 0x6E, 0xAE, 0xAA, 0x6A, 0x6B, 0xAB, 0x69, 0xA9, 0xA8, 0x68],
    [0x78, 0xB8, 0xB9, 0x79, 0xBB, 0x7B, 0x7A, 0xBA, 0xBE, 0x7E, 0x7F, 0xBF, 0x7D, 0xBD, 0xBC, 0x7C],
    [0xB4, 0x74, 0x75, 0xB5, 0x77, 0xB7, 0xB6, 0x76, 0x72, 0xB2, 0xB3, 0x73, 0xB1, 0x71, 0x70, 0xB0],
    [0x50, 0x90, 0x91, 0x51, 0x93, 0x53, 0x52, 0x92, 0x96, 0x56, 0x57, 0x97, 0x55, 0x95, 0x94, 0x54],
    [0x9C, 0x5C, 0x5D, 0x9D, 0x5F, 0x9F, 0x9E, 0x5E, 0x5A, 0x9A, 0x9B, 0x5B, 0x99, 0x59, 0x58, 0x98],
    [0x88, 0x48, 0x49, 0x89, 0x4B, 0x8B, 0x8A, 0x4A, 0x4E, 0x8E, 0x8F, 0x4F, 0x8D, 0x4D, 0x4C, 0x8C],
    [0x44, 0x84, 0x85, 0x45, 0x87, 0x47, 0x46, 0x86, 0x82, 0x42, 0x43, 0x83, 0x41, 0x81, 0x80, 0x40]
  ]

  predicate Table(t: seq<seq<bv8>>) {
    |t| == 16 && forall r :: 0 <= r < 16 ==> |t[r]| == 16
  }

  /** high_byte_table[i] and low_byte_table[i]. */
  function Entry(t: seq<seq<bv8>>, i: bv8): bv8
    requires Table(t)
  {
    t[(i >> 4) as int][(i & 0xF) as int]
  }

  function Xor(x: bv16, y: bv16): bv16 { x ^ y }

  function Xor8(x: bv8, y: bv8): bv8 { x ^ y }

  function Word(high: bv8, low: bv8): bv16 { ((high as bv16) << 8) | (low as bv16) }

  // The bit-serial definition: section 6.2.2 of MODBUS over Serial Line
  // Specification and Implementation Guide V1.02.

  function ShiftBit(c: bv16): bv16 {
    if c & 1 == 1 then (c >> 1) ^ 0xA001 else c >> 1
  }

  function ShiftByte(c: bv16): bv16 {
    ShiftBit(ShiftBit(ShiftBit(ShiftBit(ShiftBit(ShiftBit(ShiftBit(ShiftBit(c))))))))
  }

  function Feed(c: bv16, bytes: seq<bv8>): bv16
    decreases |bytes|
  {
    if bytes == [] then c else Feed(ShiftByte(Xor(c, bytes[0] as bv16)), bytes[1..])
  }

  function Crc(bytes: seq<bv8>): bv16 { Feed(0xFFFF, bytes) }

  // Shifting is linear.

  lemma ShiftBitLinear(x: bv16, y: bv16)
    ensures ShiftBit(Xor(x, y)) == Xor(ShiftBit(x), ShiftBit(y))
  {
    if x & 1 == 1 && y & 1 == 1 {} else if x & 1 == 1 {} else if y & 1 == 1 {} else {}
  }

  lemma ShiftByteLinear(x: bv16, y: bv16)
    ensures ShiftByte(Xor(x, y)) == Xor(ShiftByte(x), ShiftByte(y))
  {
    hide ShiftBit, Xor;
    var x4, y4 := ShiftBit(ShiftBit(ShiftBit(ShiftBit(x)))), ShiftBit(ShiftBit(ShiftBit(ShiftBit(y))));
    ShiftNibbleLinear(x, y);
    ShiftNibbleLinear(x4, y4);
  }

  lemma ShiftNibbleLinear(x: bv16, y: bv16)
    ensures ShiftBit(ShiftBit(ShiftBit(ShiftBit(Xor(x, y))))) ==
            Xor(ShiftBit(ShiftBit(ShiftBit(ShiftBit(x)))), ShiftBit(ShiftBit(ShiftBit(ShiftBit(y)))))
  {
    hide ShiftBit, Xor;
    ShiftBitLinear(x, y);
    ShiftBitLinear(ShiftBit(x), ShiftBit(y));
    ShiftBitLinear(ShiftBit(ShiftBit(x)), ShiftBit(ShiftBit(y)));
    ShiftBitLinear(ShiftBit(ShiftBit(ShiftBit(x))), ShiftBit(ShiftBit(ShiftBit(y))));
  }

  // The tables: every entry is the exclusive or of its row's first entry and the
  // first row's entry, and those thirty-two are shifted bytes.

  predicate Splits(t: seq<seq<bv8>>, r: int, k: int)
    requires Table(t) && 0 <= r < 16 && 0 <= k < 16
  {
    t[r][k] == t[r][0] ^ t[0][k]
  }

  predicate RowSplits(t: seq<seq<bv8>>, r: int)
    requires Table(t) && 0 <= r < 16
  {
    && Splits(t, r, 0) && Splits(t, r, 1) && Splits(t, r, 2) && Splits(t, r, 3)
    && Splits(t, r, 4) && Splits(t, r, 5) && Splits(t, r, 6) && Splits(t, r, 7)
    && Splits(t, r, 8) && Splits(t, r, 9) && Splits(t, r, 10) && Splits(t, r, 11)
    && Splits(t, r, 12) && Splits(t, r, 13) && Splits(t, r, 14) && Splits(t, r, 15)
  }

  lemma EntrySplits(t: seq<seq<bv8>>, r: int, k: int)
    requires Table(t) && 0 <= r < 16 && 0 <= k < 16 && RowSplits(t, r)
    ensures Splits(t, r, k)
  {
    hide Splits;
  }

  lemma SplitIsXor(t: seq<seq<bv8>>, r: int, k: int)
    requires Table(t) && 0 <= r < 16 && 0 <= k < 16 && Splits(t, r, k)
    ensures t[r][k] == Xor8(t[r][0], t[0][k])
  {
  }

  // A row as the exclusive or of `b` and the first row.

  predicate HighRow(row: seq<bv8>, b: bv8)
    requires |row| == 16
  {
    && row[0] == b ^ 0x00 && row[1] == b ^ 0xC1 && row[2] == b ^ 0x81 && row[3] == b ^ 0x40
    && row[4] == b ^ 0x01 && row[5] == b ^ 0xC0 && row[6] == b ^ 0x80 && row[7] == b ^ 0x41
    && row[8] == b ^ 0x01 && row[9] == b ^ 0xC0 && row[10] == b ^ 0x80 && row[11] == b ^ 0x41
    && row[12] == b ^ 0x00 && row[13] == b ^ 0xC1 && row[14] == b ^ 0x81 && row[15] == b ^ 0x40
  }

  predicate LowRow(row: seq<bv8>, b: bv8)
    requires |row| == 16
  {
    && row[0] == b ^ 0x00 && row[1] == b ^ 0xC0 && row[2] == b ^ 0xC1 && row[3] == b ^ 0x01
    && row[4] == b ^ 0xC3 && row[5] == b ^ 0x03 && row[6] == b ^ 0x02 && row[7] == b ^ 0xC2
    && row[8] == b ^ 0xC6 && row[9] == b ^ 0x06 && row[10] == b ^ 0x07 && row[11] == b ^ 0xC7
    && row[12] == b ^ 0x05 && row[13] == b ^ 0xC5 && row[14] == b ^ 0xC4 && row[15] == b ^ 0x04
  }

  predicate HighRowsUpper(t: seq<seq<bv8>>)
    requires Table(t)
  {
    && HighRow(t[0], 0x00) && HighRow(t[1], 0x01) && HighRow(t[2], 0x01) && HighRow(t[3], 0x00)
    && HighRow(t[4], 0x01) && HighRow(t[5], 0x00) && HighRow(t[6], 0x00) && HighRow(t[7], 0x01)
  }

  predicate HighRowsLower(t: seq<seq<bv8>>)
    requires Table(t)
  {
    && HighRow(t[8], 0x01) && HighRow(t[9], 0x00) && HighRow(t[10], 0x00) && HighRow(t[11], 0x01)
    && HighRow(t[12], 0x00) && HighRow(t[13], 0x01) && HighRow(t[14], 0x01) && HighRow(t[15], 0x00)
  }

  lemma HighTableUpper()
    ensures HighRowsUpper(HIGH_BYTE_TABLE)
  {
    assert HighRow(HIGH_BYTE_TABLE[0], 0x00); assert HighRow(HIGH_BYTE_TABLE[1], 0x01);
    assert HighRow(HIGH_BYTE_TABLE[2], 0x01); assert HighRow(HIGH_BYTE_TABLE[3], 0x00);
    assert HighRow(HIGH_BYTE_TABLE[4], 0x01); assert HighRow(HIGH_BYTE_TABLE[5], 0x00);
    assert HighRow(HIGH_BYTE_TABLE[6], 0x00); assert HighRow(HIGH_BYTE_TABLE[7], 0x01);
    hide HighRow;
  }

  lemma HighTableLower()
    ensures HighRowsLower(HIGH_BYTE_TABLE)
  {
    assert HighRow(HIGH_BYTE_TABLE[8], 0x01); assert HighRow(HIGH_BYTE_TABLE[9], 0x00);
    assert HighRow(HIGH_BYTE_TABLE[10], 0x00); assert HighRow(HIGH_BYTE_TABLE[11], 0x01);
    assert HighRow(HIGH_BYTE_TABLE[12], 0x00); assert HighRow(HIGH_BYTE_TABLE[13], 0x01);
    assert HighRow(HIGH_BYTE_TABLE[14], 0x01); assert HighRow(HIGH_BYTE_TABLE[15], 0x00);
    hide HighRow;
  }

  lemma HighRowSplits(t: seq<seq<bv8>>, r: int, b: bv8)
    requires Table(t) && 0 <= r < 16 && HighRow(t[0], 0) && HighRow(t[r], b)
    ensures RowSplits(t, r)
  {
  }

  lemma HighSplits(t: seq<seq<bv8>>, r: int)
    requires Table(t) && HighRowsUpper(t) && HighRowsLower(t) && 0 <= r < 16
    ensures RowSplits(t, r)
  {
    hide HighRow, RowSplits;
    if r == 0 { HighRowSplits(t, 0, 0x00); }
    else if r == 1 { HighRowSplits(t, 1, 0x01); }
    else if r == 2 { HighRowSplits(t, 2, 0x01); }
    else if r == 3 { HighRowSplits(t, 3, 0x00); }
    else if r == 4 { HighRowSplits(t, 4, 0x01); }
    else if r == 5 { HighRowSplits(t, 5, 0x00); }
    else if r == 6 { HighRowSplits(t, 6, 0x00); }
    else if r == 7 { HighRowSplits(t, 7, 0x01); }
    else if r == 8 { HighRowSplits(t, 8, 0x01); }
    else if r == 9 { HighRowSplits(t, 9, 0x00); }
    else if r == 10 { HighRowSplits(t, 10, 0x00); }
    else if r == 11 { HighRowSplits(t, 11, 0x01); }
    else if r == 12 { HighRowSplits(t, 12, 0x00); }
    else if r == 13 { HighRowSplits(t, 13, 0x01); }
    else if r == 14 { HighRowSplits(t, 14, 0x01); }
    else { HighRowSplits(t, 15, 0x00); }
  }

  predicate LowRowsUpper(t: seq<seq<bv8>>)
    requires Table(t)
  {
    && LowRow(t[0], 0x00) && LowRow(t[1], 0xCC) && LowRow(t[2], 0xD8) && LowRow(t[3], 0x14)
    && LowRow(t[4], 0xF0) && LowRow(t[5], 0x3C) && LowRow(t[6], 0x28) && LowRow(t[7], 0xE4)
  }

  predicate LowRowsLower(t: seq<seq<bv8>>)
    requires Table(t)
  {
    && LowRow(t[8], 0xA0) && LowRow(t[9], 0x6C) && LowRow(t[10], 0x78) && LowRow(t[11], 0xB4)
    && LowRow(t[12], 0x50) && LowRow(t[13], 0x9C) && LowRow(t[14], 0x88) && LowRow(t[15], 0x44)
  }

  lemma LowTableUpper()
    ensures LowRowsUpper(LOW_BYTE_TABLE)
  {
    assert LowRow(LOW_BYTE_TABLE[0], 0x00); assert LowRow(LOW_BYTE_TABLE[1], 0xCC);
    assert LowRow(LOW_BYTE_TABLE[2], 0xD8); assert LowRow(LOW_BYTE_TABLE[3], 0x14);
    assert LowRow(LOW_BYTE_TABLE[4], 0xF0); assert LowRow(LOW_BYTE_TABLE[5], 0x3C);
    assert LowRow(LOW_BYTE_TABLE[6], 0x28); assert LowRow(LOW_BYTE_TABLE[7], 0xE4);
    hide LowRow;
  }

  lemma LowTableLower()
    ensures LowRowsLower(LOW_BYTE_TABLE)
  {
    assert LowRow(LOW_BYTE_TABLE[8], 0xA0); assert LowRow(LOW_BYTE_TABLE[9], 0x6C);
    assert LowRow(LOW_BYTE_TABLE[10], 0x78); assert LowRow(LOW_BYTE_TABLE[11], 0xB4);
    assert LowRow(LOW_BYTE_TABLE[12], 0x50); assert LowRow(LOW_BYTE_TABLE[13], 0x9C);
    assert LowRow(LOW_BYTE_TABLE[14], 0x88); assert LowRow(LOW_BYTE_TABLE[15], 0x44);
    hide LowRow;
  }

  lemma LowRowSplits(t: seq<seq<bv8>>, r: int, b: bv8)
    requires Table(t) && 0 <= r < 16 && LowRow(t[0], 0) && LowRow(t[r], b)
    ensures RowSplits(t, r)
  {
  }

  lemma LowSplits(t: seq<seq<bv8>>, r: int)
    requires Table(t) && LowRowsUpper(t) && LowRowsLower(t) && 0 <= r < 16
    ensures RowSplits(t, r)
  {
    hide LowRow, RowSplits;
    if r == 0 { LowRowSplits(t, 0, 0x00); }
    else if r == 1 { LowRowSplits(t, 1, 0xCC); }
    else if r == 2 { LowRowSplits(t, 2, 0xD8); }
    else if r == 3 { LowRowSplits(t, 3, 0x14); }
    else if r == 4 { LowRowSplits(t, 4, 0xF0); }
    else if r == 5 { LowRowSplits(t, 5, 0x3C); }
    else if r == 6 { LowRowSplits(t, 6, 0x28); }
    else if r == 7 { LowRowSplits(t, 7, 0xE4); }
    else if r == 8 { LowRowSplits(t, 8, 0xA0); }
    else if r == 9 { LowRowSplits(t, 9, 0x6C); }
    else if r == 10 { LowRowSplits(t, 10, 0x78); }
    else if r == 11 { LowRowSplits(t, 11, 0xB4); }
    else if r == 12 { LowRowSplits(t, 12, 0x50); }
    else if r == 13 { LowRowSplits(t, 13, 0x9C); }
    else if r == 14 { LowRowSplits(t, 14, 0x88); }
    else { LowRowSplits(t, 15, 0x44); }
  }

  lemma HighNibble(a: bv8)
    requires a < 16
    ensures Word(LOW_BYTE_TABLE[a as int][0], HIGH_BYTE_TABLE[a as int][0]) == ShiftByte((a as bv16) << 4)
  {
    if a == 0 {} else if a == 1 {} else if a == 2 {} else if a == 3 {} else if a == 4 {} else if a == 5 {}
    else if a == 6 {} else if a == 7 {} else if a == 8 {} else if a == 9 {} else if a == 10 {} else if a == 11 {}
    else if a == 12 {} else if a == 13 {} else if a == 14 {}
  }

  lemma LowNibble(a: bv8)
    requires a < 16
    ensures Word(LOW_BYTE_TABLE[0][a as int], HIGH_BYTE_TABLE[0][a as int]) == ShiftByte(a as bv16)
  {
    if a == 0 {} else if a == 1 {} else if a == 2 {} else if a == 3 {} else if a == 4 {} else if a == 5 {}
    else if a == 6 {} else if a == 7 {} else if a == 8 {} else if a == 9 {} else if a == 10 {} else if a == 11 {}
    else if a == 12 {} else if a == 13 {} else if a == 14 {}
  }

  lemma WordXor(h: bv8, l: bv8, h': bv8, l': bv8)
    ensures Word(Xor8(h, h'), Xor8(l, l')) == Xor(Word(h, l), Word(h', l'))
  {
  }

  lemma Nibbles(i: bv8)
    ensures i as bv16 == Xor(((i >> 4) as bv16) << 4, (i & 0xF) as bv16)
  {
  }

  lemma NibblesCombine(i: bv8, h0: bv8, l0: bv8, h1: bv8, l1: bv8)
    requires Word(l0, h0) == ShiftByte(((i >> 4) as bv16) << 4)
    requires Word(l1, h1) == ShiftByte((i & 0xF) as bv16)
    ensures Word(Xor8(l0, l1), Xor8(h0, h1)) == ShiftByte(i as bv16)
  {
    hide ShiftByte, Xor, Xor8, Word;
    WordXor(l0, h0, l1, h1);
    Nibbles(i);
    ShiftByteLinear(((i >> 4) as bv16) << 4, (i & 0xF) as bv16);
  }

  lemma EntryIsShift(high: seq<seq<bv8>>, low: seq<seq<bv8>>, i: bv8)
    requires Table(high) && HighRowsUpper(high) && HighRowsLower(high)
    requires Table(low) && LowRowsUpper(low) && LowRowsLower(low)
    requires Word(low[(i >> 4) as int][0], high[(i >> 4) as int][0]) == ShiftByte(((i >> 4) as bv16) << 4)
    requires Word(low[0][(i & 0xF) as int], high[0][(i & 0xF) as int]) == ShiftByte((i & 0xF) as bv16)
    ensures Word(Entry(low, i), Entry(high, i)) == ShiftByte(i as bv16)
  {
    hide ShiftByte, Word, Xor8, RowSplits, HighRowsUpper, HighRowsLower, LowRowsUpper, LowRowsLower;
    var r, k := (i >> 4) as int, (i & 0xF) as int;
    HighSplits(high, r);
    LowSplits(low, r);
    EntrySplits(high, r, k);
    EntrySplits(low, r, k);
    hide Splits;
    SplitIsXor(high, r, k);
    SplitIsXor(low, r, k);
    NibblesCombine(i, high[r][0], low[r][0], high[0][k], low[0][k]);
  }

  /** Each table entry is a byte shifted through the register. */
  lemma TablesAreShifts(i: bv8)
    ensures Word(LowByte(i), HighByte(i)) == ShiftByte(i as bv16)
  {
    hide ShiftByte, Word, Entry, HighRowsUpper, HighRowsLower, LowRowsUpper, LowRowsLower;
    HighNibble(i >> 4);
    LowNibble(i & 0xF);
    HighTableUpper();
    HighTableLower();
    LowTableUpper();
    LowTableLower();
    EntryIsShift(HIGH_BYTE_TABLE, LOW_BYTE_TABLE, i);
  }

  lemma ShiftHighByte(high: bv8)
    ensures ShiftByte((high as bv16) << 8) == high as bv16
  {
  }

  lemma RegisterSplits(high: bv8, low: bv8, b: bv8)
    ensures Xor(Word(high, low), b as bv16) == Xor((high as bv16) << 8, Xor8(low, b) as bv16)
  {
  }

  lemma RegisterJoins(high: bv8, h: bv8, l: bv8)
    ensures Xor(high as bv16, Word(h, l)) == Word(h, Xor8(high, l))
  {
  }

  /** high_byte_table[i] and low_byte_table[i], as the source indexes them. */
  function HighByte(i: bv8): bv8 { Entry(HIGH_BYTE_TABLE, i) }
  function LowByte(i: bv8): bv8 { Entry(LOW_BYTE_TABLE, i) }

  /** One turn of the loop takes one byte through the register. */
  lemma TurnIsShift(high: bv8, low: bv8, b: bv8)
    ensures var i := Xor8(low, b);
            Word(LowByte(i), Xor8(high, HighByte(i))) == ShiftByte(Xor(Word(high, low), b as bv16))
  {
    hide ShiftByte, Word, Xor, Xor8;
    var i := Xor8(low, b);
    TablesAreShifts(i);
    hide HighByte, LowByte;
    RegisterSplits(high, low, b);
    ShiftByteLinear((high as bv16) << 8, i as bv16);
    ShiftHighByte(high);
    RegisterJoins(high, LowByte(i), HighByte(i));
  }

  method CreateCrc16Code(buf: seq<bv8>) returns (code: bv16)
    ensures code == Crc(buf)
  {
    hide ShiftByte, Word, Xor, Xor8, HighByte, LowByte;
    var high, low: bv8 := 0xFF, 0xFF;
    assert Word(high, low) == 0xFFFF by { AllOnes(); }
    for i := 0 to |buf|
      invariant Feed(Word(high, low), buf[i..]) == Crc(buf)
    {
      var index := Xor8(low, buf[i]);
      TurnIsShift(high, low, buf[i]);
      assert buf[i..][1..] == buf[i + 1..];
      low := Xor8(high, HighByte(index));
      high := LowByte(index);
    }
    code := Word(high, low);
  }

  lemma AllOnes()
    ensures Word(0xFF, 0xFF) == 0xFFFF
  {
  }
}
