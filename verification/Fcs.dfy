/** The PPP frame check sequence (appendix C of RFC 1662): the table-driven
    computation of the source against a shift register fed one bit at a time. */
module Fcs {

  const INIT_FCS: bv16 := 0xffff
  const GOOD_FCS: bv16 := 0xf0b8

  /** The lookup table, sixteen entries to a row. */
  function FcsRow(h: nat): (r: seq<bv16>)
    requires h < 16
    ensures |r| == 16
  {
    match h
    case  0 => [0x0000, 0x1189, 0x2312, 0x329b, 0x4624, 0x57ad, 0x6536, 0x74bf,
               0x8c48, 0x9dc1, 0xaf5a, 0xbed3, 0xca6c, 0xdbe5, 0xe97e, 0xf8f7]
    case  1 => [0x1081, 0x0108, 0x3393, 0x221a, 0x56a5, 0x472c, 0x75b7, 0x643e,
               0x9cc9, 0x8d40, 0xbfdb, 0xae52, 0xdaed, 0xcb64, 0xf9ff, 0xe876]
    case  2 => [0x2102, 0x308b, 0x0210, 0x1399, 0x6726, 0x76af, 0x4434, 0x55bd,
               0xad4a, 0xbcc3, 0x8e58, 0x9fd1, 0xeb6e, 0xfae7, 0xc87c, 0xd9f5]
    case  3 => [0x3183, 0x200a, 0x1291, 0x0318, 0x77a7, 0x662e, 0x54b5, 0x453c,
               0xbdcb, 0xac42, 0x9ed9, 0x8f50, 0xfbef, 0xea66, 0xd8fd, 0xc974]
    case  4 => [0x4204, 0x538d, 0x6116, 0x709f, 0x0420, 0x15a9, 0x2732, 0x36bb,
               0xce4c, 0xdfc5, 0xed5e, 0xfcd7, 0x8868, 0x99e1, 0xab7a, 0xbaf3]
    case  5 => [0x5285, 0x430c, 0x7197, 0x601e, 0x14a1, 0x0528, 0x37b3, 0x263a,
               0xdecd, 0xcf44, 0xfddf, 0xec56, 0x98e9, 0x8960, 0xbbfb, 0xaa72]
    case  6 => [0x6306, 0x728f, 0x4014, 0x519d, 0x2522, 0x34ab, 0x0630, 0x17b9,
               0xef4e, 0xfec7, 0xcc5c, 0xddd5, 0xa96a, 0xb8e3, 0x8a78, 0x9bf1]
    case  7 => [0x7387, 0x620e, 0x5095, 0x411c, 0x35a3, 0x242a, 0x16b1, 0x0738,
               0xffcf, 0xee46, 0xdcdd, 0xcd54, 0xb9eb, 0xa862, 0x9af9, 0x8b70]
    case  8 => [0x8408, 0x9581, 0xa71a, 0xb693, 0xc22c, 0xd3a5, 0xe13e, 0xf0b7,
               0x0840, 0x19c9, 0x2b52, 0x3adb, 0x4e64, 0x5fed, 0x6d76, 0x7cff]
    case  9 => [0x9489, 0x8500, 0xb79b, 0xa612, 0xd2ad, 0xc324, 0xf1bf, 0xe036,
               0x18c1, 0x0948, 0x3bd3, 0x2a5a, 0x5ee5, 0x4f6c, 0x7df7, 0x6c7e]
    case 10 => [0xa50a, 0xb483, 0x8618, 0x9791, 0xe32e, 0xf2a7, 0xc03c, 0xd1b5,
               0x2942, 0x38cb, 0x0a50, 0x1bd9, 0x6f66, 0x7eef, 0x4c74, 0x5dfd]
    case 11 => [0xb58b, 0xa402, 0x9699, 0x8710, 0xf3af, 0xe226, 0xd0bd, 0xc134,
               0x39c3, 0x284a, 0x1ad1, 0x0b58, 0x7fe7, 0x6e6e, 0x5cf5, 0x4d7c]
    case 12 => [0xc60c, 0xd785, 0xe51e, 0xf497, 0x8028, 0x91a1, 0xa33a, 0xb2b3,
               0x4a44, 0x5bcd, 0x6956, 0x78df, 0x0c60, 0x1de9, 0x2f72, 0x3efb]
    case 13 => [0xd68d, 0xc704, 0xf59f, 0xe416, 0x90a9, 0x8120, 0xb3bb, 0xa232,
               0x5ac5, 0x4b4c, 0x79d7, 0x685e, 0x1ce1, 0x0d68, 0x3ff3, 0x2e7a]
    case 14 => [0xe70e, 0xf687, 0xc41c, 0xd595, 0xa12a, 0xb0a3, 0x8238, 0x93b1,
               0x6b46, 0x7acf, 0x4854, 0x59dd, 0x2d62, 0x3ceb, 0x0e70, 0x1ff9]
    case  _ => [0xf78f, 0xe606, 0xd49d, 0xc514, 0xb1ab, 0xa022, 0x92b9, 0x8330,
               0x7bc7, 0x6a4e, 0x58d5, 0x495c, 0x3de3, 0x2c6a, 0x1ef1, 0x0f78]
  }

  function FcsTable(i: nat): bv16
    requires i < 256
  {
    FcsRow(i / 16)[i % 16]
  }

  lemma LowByteIndex(x: bv16)
    ensures 0 <= (x & 0xff) as int < 256
  {
  }

  /** One byte through the table. */
  function TableFcs(fcs: bv16, c: bv8): bv16 {
    LowByteIndex(fcs ^ c as bv16);
    (fcs >> 8) ^ FcsTable(((fcs ^ c as bv16) & 0xff) as int)
  }

  /** One shift of the register, polynomial 0x8408. */
  function ShiftBit(x: bv16): bv16 {
    if x & 1 == 1 then (x >> 1) ^ 0x8408 else x >> 1
  }

  function Shift8(x: bv16): bv16 {
    ShiftBit(ShiftBit(ShiftBit(ShiftBit(ShiftBit(ShiftBit(ShiftBit(ShiftBit(x))))))))
  }

  function XorWord(x: bv16, y: bv16): bv16 {
    x ^ y
  }

  /** Feed one bit: add it, then shift. */
  function FeedBit(fcs: bv16, c: bv16): bv16 {
    ShiftBit(XorWord(fcs, c & 1))
  }

  /** Feed the low `n` bits of `c`, least significant first. */
  function FeedBits(fcs: bv16, c: bv16, n: nat): bv16
    decreases n
  {
    if n == 0 then fcs else FeedBits(FeedBit(fcs, c), c >> 1, n - 1)
  }

  function SerialFcs(fcs: bv16, c: bv8): bv16 {
    FeedBits(fcs, c as bv16, 8)
  }

  function RunTable(fcs: bv16, data: seq<bv8>): bv16 {
    if data == [] then fcs
    else TableFcs(RunTable(fcs, data[..|data| - 1]), data[|data| - 1])
  }

  function RunSerial(fcs: bv16, data: seq<bv8>): bv16 {
    if data == [] then fcs
    else SerialFcs(RunSerial(fcs, data[..|data| - 1]), data[|data| - 1])
  }

  // ----- the shift register is linear -----

  lemma XorFacts(x: bv16, y: bv16, z: bv16)
    ensures (x ^ z) ^ (y ^ z) == x ^ y
    ensures (x ^ z) ^ y == (x ^ y) ^ z
    ensures x ^ (y ^ z) == (x ^ y) ^ z
  {
  }

  lemma LowBitFacts(x: bv16, y: bv16)
    ensures (x ^ y) >> 1 == (x >> 1) ^ (y >> 1)
    ensures (x ^ y) & 1 == (x & 1) ^ (y & 1)
    ensures x & 1 == 0 || x & 1 == 1
    ensures y & 1 == 0 || y & 1 == 1
  {
  }

  lemma ShiftBitLinear(x: bv16, y: bv16)
    ensures ShiftBit(XorWord(x, y)) == XorWord(ShiftBit(x), ShiftBit(y))
  {
    LowBitFacts(x, y);
    XorFacts(x >> 1, y >> 1, 0x8408);
  }

  lemma Shift8Linear(x: bv16, y: bv16)
    ensures Shift8(XorWord(x, y)) == XorWord(Shift8(x), Shift8(y))
  {
    hide ShiftBit, XorWord;
    var a, b := x, y;
    ShiftBitLinear(a, b); a, b := ShiftBit(a), ShiftBit(b);
    ShiftBitLinear(a, b); a, b := ShiftBit(a), ShiftBit(b);
    ShiftBitLinear(a, b); a, b := ShiftBit(a), ShiftBit(b);
    ShiftBitLinear(a, b); a, b := ShiftBit(a), ShiftBit(b);
    ShiftBitLinear(a, b); a, b := ShiftBit(a), ShiftBit(b);
    ShiftBitLinear(a, b); a, b := ShiftBit(a), ShiftBit(b);
    ShiftBitLinear(a, b); a, b := ShiftBit(a), ShiftBit(b);
    ShiftBitLinear(a, b);
  }

  lemma Shift8HighByte(x: bv16)
    requires x & 0xff == 0
    ensures Shift8(x) == x >> 8
  {
  }

  /** Shifting with the whole value added is feeding its low bit and adding
      the remaining bits afterwards. */
  lemma PeelBit(fcs: bv16, c: bv16)
    ensures ShiftBit(XorWord(fcs, c)) == XorWord(FeedBit(fcs, c), c >> 1)
  {
    SplitLowBit(fcs, c);
    EvenShift(c);
    hide ShiftBit, XorWord;
    ShiftBitLinear(XorWord(fcs, c & 1), c & 0xfffe);
  }

  lemma SplitLowBit(fcs: bv16, c: bv16)
    ensures XorWord(fcs, c) == XorWord(XorWord(fcs, c & 1), c & 0xfffe)
  {
  }

  lemma EvenShift(c: bv16)
    ensures ShiftBit(c & 0xfffe) == c >> 1
  {
  }

  function DropBits(c: bv16, n: nat): bv16
    decreases n
  {
    if n == 0 then c else DropBits(c >> 1, n - 1)
  }

  function ShiftBits(x: bv16, n: nat): bv16
    decreases n
  {
    if n == 0 then x else ShiftBits(ShiftBit(x), n - 1)
  }

  lemma {:induction false} FeedIsShift(fcs: bv16, c: bv16, n: nat)
    requires DropBits(c, n) == 0
    ensures FeedBits(fcs, c, n) == ShiftBits(XorWord(fcs, c), n)
    decreases n
  {
    if n != 0 {
      hide ShiftBit, XorWord, FeedBit;
      PeelBit(fcs, c);
      FeedIsShift(FeedBit(fcs, c), c >> 1, n - 1);
    }
  }

  lemma {:induction false} ByteRunsOut(c: bv16)
    requires c < 0x100
    ensures DropBits(c, 8) == 0
  {
    assert (((c >> 1) >> 1) >> 1) >> 1 == c >> 4;
    assert ((((c >> 4) >> 1) >> 1) >> 1) >> 1 == 0;
  }

  lemma {:induction false} SerialIsShift8(fcs: bv16, c: bv8)
    ensures SerialFcs(fcs, c) == Shift8(XorWord(fcs, c as bv16))
  {
    hide ShiftBit, XorWord, FeedBit;
    ByteRunsOut(c as bv16);
    FeedIsShift(fcs, c as bv16, 8);
  }

  // ----- the table holds eight shifts of its index -----

  lemma TablePart0(x: bv16)
    requires 0x00 <= x <= 0x1f
    ensures FcsTable(x as int) == Shift8(x)
  {
  }

  lemma TablePart1(x: bv16)
    requires 0x20 <= x <= 0x3f
    ensures FcsTable(x as int) == Shift8(x)
  {
  }

  lemma TablePart2(x: bv16)
    requires 0x40 <= x <= 0x5f
    ensures FcsTable(x as int) == Shift8(x)
  {
  }

  lemma TablePart3(x: bv16)
    requires 0x60 <= x <= 0x7f
    ensures FcsTable(x as int) == Shift8(x)
  {
  }

  lemma TablePart4(x: bv16)
    requires 0x80 <= x <= 0x9f
    ensures FcsTable(x as int) == Shift8(x)
  {
  }

  lemma TablePart5(x: bv16)
    requires 0xa0 <= x <= 0xbf
    ensures FcsTable(x as int) == Shift8(x)
  {
  }

  lemma TablePart6(x: bv16)
    requires 0xc0 <= x <= 0xdf
    ensures FcsTable(x as int) == Shift8(x)
  {
  }

  lemma TablePart7(x: bv16)
    requires 0xe0 <= x <= 0xff
    ensures FcsTable(x as int) == Shift8(x)
  {
  }

  lemma TableCorrect(x: bv16)
    requires x < 0x100
    ensures 0 <= x as int < 256 && FcsTable(x as int) == Shift8(x)
  {
    hide FcsTable, Shift8;
    if x <= 0x1f { TablePart0(x); }
    else if x <= 0x3f { TablePart1(x); }
    else if x <= 0x5f { TablePart2(x); }
    else if x <= 0x7f { TablePart3(x); }
    else if x <= 0x9f { TablePart4(x); }
    else if x <= 0xbf { TablePart5(x); }
    else if x <= 0xdf { TablePart6(x); }
    else { TablePart7(x); }
  }

  lemma SplitBytes(fcs: bv16, c: bv16)
    requires c < 0x100
    ensures var x := fcs ^ c;
            && x == (x & 0xff00) ^ (x & 0xff) && (x & 0xff00) & 0xff == 0
            && (x & 0xff00) >> 8 == fcs >> 8 && x & 0xff < 0x100
  {
  }

  /** One table step equals eight serial steps, for every register and byte. */
  lemma TableStepIsSerial(fcs: bv16, c: bv8)
    ensures TableFcs(fcs, c) == SerialFcs(fcs, c)
  {
    hide Shift8, SerialFcs, FcsTable;
    var x := fcs ^ c as bv16;
    SplitBytes(fcs, c as bv16);
    Shift8Linear(x & 0xff00, x & 0xff);
    Shift8HighByte(x & 0xff00);
    TableCorrect(x & 0xff);
    SerialIsShift8(fcs, c);
  }

  /** The two computations agree on every byte string. */
  lemma {:induction false} TableIsSerial(fcs: bv16, data: seq<bv8>)
    ensures RunTable(fcs, data) == RunSerial(fcs, data)
  {
    hide TableFcs, SerialFcs;
    if data != [] {
      TableIsSerial(fcs, data[..|data| - 1]);
      TableStepIsSerial(RunSerial(fcs, data[..|data| - 1]), data[|data| - 1]);
    }
  }

  // ----- the trailer and the residue -----

  /** The complement of the register, low byte first. */
  function TrailerBytes(fcs: bv16): (t: seq<bv8>)
    ensures |t| == 2
  {
    [((fcs ^ 0xffff) & 0xff) as bv8, (((fcs ^ 0xffff) >> 8) & 0xff) as bv8]
  }

  /** The two bytes added to a frame. */
  function Trailer(data: seq<bv8>): (t: seq<bv8>)
    ensures |t| == 2
  {
    TrailerBytes(RunTable(INIT_FCS, data))
  }

  lemma ComplementLowByte(f: bv16, lo: bv16, hi: bv16)
    requires lo == (f ^ 0xffff) & 0xff && hi == ((f ^ 0xffff) >> 8) & 0xff
    ensures (f ^ lo) & 0xff == 0xff
    ensures var f1 := (f >> 8) ^ 0x0f78; (f1 ^ hi) & 0xff == 0x87 && (f1 >> 8) ^ 0xf0b7 == GOOD_FCS
  {
  }

  lemma ResidueEntries()
    ensures FcsTable(0xff) == 0x0f78 && FcsTable(0x87) == 0xf0b7
  {
  }

  /** Feeding the complement of the register leaves the good residue. */
  lemma ResidueStep(f: bv16)
    ensures TableFcs(TableFcs(f, TrailerBytes(f)[0]), TrailerBytes(f)[1]) == GOOD_FCS
  {
    hide FcsTable;
    var lo, hi := TrailerBytes(f)[0], TrailerBytes(f)[1];
    ComplementLowByte(f, lo as bv16, hi as bv16);
    ResidueEntries();
    assert TableFcs(f, lo) == (f >> 8) ^ 0x0f78;
  }

  /** Data followed by its trailer always leaves the good residue. */
  lemma ResidueIsGood(data: seq<bv8>)
    ensures RunTable(INIT_FCS, data + Trailer(data)) == GOOD_FCS
  {
    hide TableFcs, TrailerBytes;
    var t := Trailer(data);
    var all := data + t;
    assert all[..|all| - 1] == data + [t[0]];
    assert (data + [t[0]])[..|data|] == data;
    ResidueStep(RunTable(INIT_FCS, data));
  }

  function Flip(c: bv8): bv8 {
    c ^ 0xff
  }

  lemma PresetBits(a: bv8)
    ensures XorWord(INIT_FCS, a as bv16) == XorWord(0xff00, XorWord(0, Flip(a) as bv16))
    ensures (0xff00 as bv16) & 0xff == 0 && (0xff00 as bv16) >> 8 == 0xff
  {
  }

  lemma FlippedBits(f: bv16, b: bv8)
    ensures XorWord(XorWord(0xff, f), b as bv16) == XorWord(f, Flip(b) as bv16)
  {
  }

  /** One byte through the table is a shift by eight bits. */
  lemma TableIsShift8(fcs: bv16, c: bv8)
    ensures TableFcs(fcs, c) == Shift8(XorWord(fcs, c as bv16))
  {
    hide Shift8, SerialFcs, FcsTable, TableFcs;
    TableStepIsSerial(fcs, c);
    SerialIsShift8(fcs, c);
  }

  lemma FirstByte(a: bv8)
    ensures TableFcs(INIT_FCS, a) == XorWord(0xff, TableFcs(0, Flip(a)))
  {
    PresetBits(a);
    hide Shift8, TableFcs, Flip, XorWord;
    TableIsShift8(INIT_FCS, a);
    TableIsShift8(0, Flip(a));
    Shift8Linear(0xff00, XorWord(0, Flip(a) as bv16));
    Shift8HighByte(0xff00);
  }

  lemma SecondByte(f: bv16, b: bv8)
    ensures TableFcs(XorWord(0xff, f), b) == TableFcs(f, Flip(b))
  {
    FlippedBits(f, b);
    hide Shift8, TableFcs, Flip, XorWord;
    TableIsShift8(XorWord(0xff, f), b);
    TableIsShift8(f, Flip(b));
  }

  /** Data with its first two bytes complemented. */
  function Complemented(data: seq<bv8>): seq<bv8>
    requires |data| >= 2
  {
    [Flip(data[0]), Flip(data[1])] + data[2..]
  }

  /** What the preset means: the register is that of the data with its first two bytes
      complemented, started from zero. */
  lemma {:induction false} PresetComplements(data: seq<bv8>)
    requires |data| >= 2
    ensures RunTable(INIT_FCS, data) == RunTable(0, Complemented(data))
  {
    hide TableFcs, Flip, XorWord;
    var last := |data| - 1;
    if |data| == 2 {
      var d, none: seq<bv8> := Complemented(data), [];
      FirstByte(data[0]);
      SecondByte(TableFcs(0, d[0]), data[1]);
      assert data[..1][..0] == none && d[..1][..0] == none;
      assert RunTable(INIT_FCS, data[..1]) == TableFcs(INIT_FCS, data[0]);
      assert RunTable(0, d[..1]) == TableFcs(0, d[0]);
    } else {
      PresetComplements(data[..last]);
      assert Complemented(data)[..last] == Complemented(data[..last]);
    }
  }

  /** Append the trailer in place, after the `len` bytes at `start`. That there is room for
      it is not asked; a store behind the buffer is reported, and neither is done. */
  method AddFcs(buf: array<bv8>, start: nat, len: nat) returns (newLen: nat, inside: bool)
    requires start + len <= buf.Length
    modifies buf
    ensures newLen == len + 2 && (inside <==> start + newLen <= buf.Length)
    ensures !inside ==> buf[..] == old(buf[..])
    ensures inside ==>
              buf[start..start + newLen] == old(buf[start..start + len]) + Trailer(old(buf[start..start + len]))
    ensures inside ==> buf[..start] == old(buf[..start]) && buf[start + newLen..] == old(buf[start + newLen..])
    ensures inside ==> RunSerial(INIT_FCS, buf[start..start + newLen]) == GOOD_FCS
  {
    hide TableFcs, SerialFcs, TrailerBytes;
    var fcs := INIT_FCS;
    for x := 0 to len
      invariant fcs == RunTable(INIT_FCS, buf[start..start + x])
    {
      assert buf[start..start + x + 1][..x] == buf[start..start + x];
      fcs := TableFcs(fcs, buf[start + x]);
    }
    var t := TrailerBytes(fcs);
    ghost var data := buf[start..start + len];
    newLen, inside := len + 2, start + len + 2 <= buf.Length;
    if !inside {
      return;
    }
    buf[start + len] := t[0];
    buf[start + len + 1] := t[1];
    assert buf[start..start + newLen] == data + t;
    ResidueIsGood(data);
    TableIsSerial(INIT_FCS, data + t);
  }
}
