/** The CRC-32 of src/operational_schema.rs, against the table-driven one of section 8 of RFC 1952. */
module Crc32 {
  // ---------------------------------------------------- register operations

  function Xor(a: bv32, b: bv32): bv32 { a ^ b }

  function Halve(c: bv32): bv32 { c >> 1 }

  /** The polynomial when a one is about to fall out, else zero. */
  function Feedback(c: bv32): bv32 { 0xedb8_8320 & (0 - (c & 1)) }

  function Low(c: bv32): bv32 { c & 0xff }

  function High(c: bv32): bv32 { c & 0xffff_ff00 }

  function Drop(c: bv32): bv32 { c >> 8 }

  function Raise(c: bv32): bv32 { c << 8 }

  function Invert(c: bv32): bv32 { !c }

  function Widen(byte: bv8): bv32 { byte as bv32 }

  // -------------------------------------------------------- bit-by-bit form

  function Step(crc: bv32): bv32 {
    (crc >> 1) ^ (0xedb8_8320 & (0 - (crc & 1)))
  }

  function Steps(crc: bv32, n: nat): bv32
    decreases n, crc
  {
    if n == 0 then crc else Step(Steps(crc, n - 1))
  }

  function Byte(crc: bv32, byte: bv8): bv32 { Steps(Xor(crc, Widen(byte)), 8) }

  function Register(crc: bv32, bytes: seq<bv8>): bv32
    decreases |bytes|, crc
  {
    if bytes == [] then crc
    else Byte(Register(crc, bytes[..|bytes| - 1]), bytes[|bytes| - 1])
  }

  function Crc(bytes: seq<bv8>): bv32 { Invert(Register(0xffff_ffff, bytes)) }

  lemma StepsUnfold(c: bv32, n: nat)
    ensures Steps(c, 0) == c && Steps(c, n + 1) == Step(Steps(c, n))
  {
    hide Step;
  }

  /** One byte: the exclusive-or and the eight-step inner loop. */
  method FeedByte(crc: bv32, byte: bv8) returns (next: bv32)
    ensures next == Byte(crc, byte)
  {
    next := crc ^ (byte as bv32);
    ghost var start := next;
    assert start == Xor(crc, Widen(byte));
    hide Steps;
    StepsUnfold(start, 0);
    for bit := 0 to 8
      invariant next == Steps(start, bit)
    {
      StepsUnfold(start, bit);
      next := (next >> 1) ^ (0xedb8_8320 & (0 - (next & 1)));
    }
  }

  method Compute(bytes: seq<bv8>) returns (result: bv32)
    ensures result == Crc(bytes)
    ensures result == TableCrc(bytes)
  {
    var crc: bv32 := 0xffff_ffff;
    assert bytes[..0] == [];
    for i := 0 to |bytes|
      invariant crc == Register(0xffff_ffff, bytes[..i])
    {
      assert bytes[..i + 1][..i] == bytes[..i];
      crc := FeedByte(crc, bytes[i]);
    }
    assert bytes[..|bytes|] == bytes;
    result := Invert(crc);
    CrcMatchesTable(bytes);
  }

  // ------------------------------------------------------- table-driven form

  /** The table's inner loop: a conditional exclusive-or instead of a mask. */
  function TableStep(c: bv32): bv32 {
    if c & 1 == 1 then 0xedb8_8320 ^ (c >> 1) else c >> 1
  }

  function TableSteps(c: bv32, n: nat): bv32
    decreases n, c
  {
    if n == 0 then c else TableStep(TableSteps(c, n - 1))
  }

  function TableEntry(n: bv32): bv32 { TableSteps(n, 8) }

  /** One byte, one table lookup. */
  function Lookup(c: bv32, byte: bv8): bv32 {
    Xor(TableEntry(Low(Xor(c, Widen(byte)))), Drop(c))
  }

  function UpdateRegister(c: bv32, bytes: seq<bv8>): bv32
    decreases |bytes|, c
  {
    if bytes == [] then c
    else Lookup(UpdateRegister(c, bytes[..|bytes| - 1]), bytes[|bytes| - 1])
  }

  function UpdateCrc(crc: bv32, bytes: seq<bv8>): bv32 {
    Invert(UpdateRegister(Invert(crc), bytes))
  }

  function TableCrc(bytes: seq<bv8>): bv32 { UpdateCrc(0, bytes) }

  // -------------------------------------------------------- single-word facts

  lemma StepForm(c: bv32)
    ensures Step(c) == Xor(Halve(c), Feedback(c))
  {
    assert Halve(c) == c >> 1 && Feedback(c) == 0xedb8_8320 & (0 - (c & 1));
  }

  lemma HalveIsLinear(a: bv32, b: bv32)
    ensures Halve(Xor(a, b)) == Xor(Halve(a), Halve(b))
  {
  }

  lemma FeedbackIsLinear(a: bv32, b: bv32)
    ensures Feedback(Xor(a, b)) == Xor(Feedback(a), Feedback(b))
  {
  }

  lemma Exchange(a: bv32, b: bv32, c: bv32, d: bv32)
    ensures Xor(Xor(a, b), Xor(c, d)) == Xor(Xor(a, c), Xor(b, d))
  {
    Associate(a, b, Xor(c, d));
    Associate(b, c, d);
    Associate(c, b, d);
    Commute(b, c);
    Associate(a, c, Xor(b, d));
  }

  lemma Commute(a: bv32, b: bv32)
    ensures Xor(a, b) == Xor(b, a)
  {
  }

  lemma Associate(a: bv32, b: bv32, c: bv32)
    ensures Xor(Xor(a, b), c) == Xor(a, Xor(b, c))
  {
  }

  lemma Cancel(a: bv32, b: bv32)
    ensures Xor(Xor(a, b), b) == a
  {
  }

  lemma Halves(c: bv32)
    ensures c == Xor(Low(c), High(c))
    ensures Low(High(c)) == 0 && Drop(High(c)) == Drop(c)
  {
  }

  lemma BytesHaveNoHighPart(c: bv32, byte: bv8)
    ensures Drop(Xor(c, Widen(byte))) == Drop(c)
  {
  }

  lemma InvertTwice(c: bv32)
    ensures Invert(Invert(c)) == c
    ensures Invert(0) == 0xffff_ffff
  {
  }

  lemma EvenMatchesTable(c: bv32)
    requires c & 1 == 0
    ensures Step(c) == TableStep(c)
  {
  }

  lemma OddMatchesTable(c: bv32)
    requires c & 1 == 1
    ensures Step(c) == TableStep(c)
  {
  }

  lemma LowBit(c: bv32)
    ensures c & 1 == 0 || c & 1 == 1
  {
  }

  lemma StepOfEven(c: bv32)
    requires c & 1 == 0
    ensures Step(c) == Halve(c)
  {
  }

  lemma ClearByteShifts(c: bv32)
    requires Low(c) == 0
    ensures c & 1 == 0 && Halve(c) == c >> 1
    ensures (c >> 1) & 1 == 0 && Halve(c >> 1) == c >> 2
    ensures (c >> 2) & 1 == 0 && Halve(c >> 2) == c >> 3
    ensures (c >> 3) & 1 == 0 && Halve(c >> 3) == c >> 4
    ensures (c >> 4) & 1 == 0 && Halve(c >> 4) == c >> 5
    ensures (c >> 5) & 1 == 0 && Halve(c >> 5) == c >> 6
    ensures (c >> 6) & 1 == 0 && Halve(c >> 6) == c >> 7
    ensures (c >> 7) & 1 == 0 && Halve(c >> 7) == Drop(c)
  {
  }

  /** The polynomial's top bit is set, so what fell out of a step can be read back. */
  lemma StepIsInjective(a: bv32, b: bv32)
    requires Step(a) == Step(b)
    ensures a == b
  {
  }

  lemma Raised(later: bv32)
    requires later & 0xff00_0000 == 0
    ensures Low(Raise(later)) == 0 && Drop(Raise(later)) == later
  {
  }

  // ---------------------------------------------------------------- linearity

  lemma StepIsLinear(a: bv32, b: bv32)
    ensures Step(Xor(a, b)) == Xor(Step(a), Step(b))
  {
    StepForm(a);
    StepForm(b);
    StepForm(Xor(a, b));
    HalveIsLinear(a, b);
    FeedbackIsLinear(a, b);
    Exchange(Halve(a), Halve(b), Feedback(a), Feedback(b));
  }

  lemma {:induction false} StepsAreLinear(a: bv32, b: bv32, n: nat)
    ensures Steps(Xor(a, b), n) == Xor(Steps(a, n), Steps(b, n))
    decreases n
  {
    if n > 0 {
      StepsAreLinear(a, b, n - 1);
      StepIsLinear(Steps(a, n - 1), Steps(b, n - 1));
    }
  }

  lemma StepMatchesTable(c: bv32)
    ensures Step(c) == TableStep(c)
  {
    LowBit(c);
    if c & 1 == 1 { OddMatchesTable(c); } else { EvenMatchesTable(c); }
  }

  lemma {:induction false} StepsMatchTable(c: bv32, n: nat)
    ensures Steps(c, n) == TableSteps(c, n)
    decreases n
  {
    if n > 0 {
      StepsMatchTable(c, n - 1);
      StepMatchesTable(Steps(c, n - 1));
    }
  }

  lemma {:induction false} EightSteps(c: bv32)
    ensures Steps(c, 8) == Step(Step(Step(Step(Step(Step(Step(Step(c))))))))
  {
    assert Steps(c, 0) == c;
    assert Steps(c, 1) == Step(c);
    assert Steps(c, 2) == Step(Steps(c, 1));
    assert Steps(c, 4) == Step(Step(Steps(c, 2)));
    assert Steps(c, 6) == Step(Step(Steps(c, 4)));
  }

  /** A value whose low byte is clear only shifts. */
  lemma {:induction false} ClearByteDrops(c: bv32)
    requires Low(c) == 0
    ensures Steps(c, 8) == Drop(c)
  {
    EightSteps(c);
    ClearByteShifts(c);
    StepOfEven(c);
    StepOfEven(c >> 1);
    StepOfEven(c >> 2);
    StepOfEven(c >> 3);
    StepOfEven(c >> 4);
    StepOfEven(c >> 5);
    StepOfEven(c >> 6);
    StepOfEven(c >> 7);
  }

  /** Eight bit steps are one table lookup. */
  lemma {:induction false} EightStepsLookUp(c: bv32)
    ensures Steps(c, 8) == Xor(TableEntry(Low(c)), Drop(c))
  {
    Halves(c);
    StepsAreLinear(Low(c), High(c), 8);
    StepsMatchTable(Low(c), 8);
    ClearByteDrops(High(c));
  }

  lemma {:induction false} ByteLooksUp(c: bv32, byte: bv8)
    ensures Byte(c, byte) == Lookup(c, byte)
  {
    EightStepsLookUp(Xor(c, Widen(byte)));
    BytesHaveNoHighPart(c, byte);
  }

  lemma {:induction false} RegisterMatchesTable(c: bv32, bytes: seq<bv8>)
    ensures Register(c, bytes) == UpdateRegister(c, bytes)
    decreases |bytes|
  {
    if bytes != [] {
      RegisterMatchesTable(c, bytes[..|bytes| - 1]);
      ByteLooksUp(Register(c, bytes[..|bytes| - 1]), bytes[|bytes| - 1]);
    }
  }

  /** The bit-by-bit CRC is the one RFC 1952 defines. */
  lemma {:induction false} CrcMatchesTable(bytes: seq<bv8>)
    ensures Crc(bytes) == TableCrc(bytes)
  {
    RegisterMatchesTable(0xffff_ffff, bytes);
    InvertTwice(0);
  }

  lemma {:induction false} RegisterSplits(c: bv32, first: seq<bv8>, second: seq<bv8>)
    ensures Register(c, first + second) == Register(Register(c, first), second)
    decreases |second|
  {
    if second == [] {
      assert first + second == first;
    } else {
      var all := first + second;
      assert all[..|all| - 1] == first + second[..|second| - 1];
      RegisterSplits(c, first, second[..|second| - 1]);
    }
  }

  /** Checksums can be continued: what follows needs only the checksum so far. */
  lemma {:induction false} CrcContinues(first: seq<bv8>, second: seq<bv8>)
    ensures Crc(first + second) == UpdateCrc(Crc(first), second)
  {
    var r := Register(0xffff_ffff, first);
    RegisterSplits(0xffff_ffff, first, second);
    RegisterMatchesTable(r, second);
    InvertTwice(r);
  }

  // ---------------------------------------------------------- error detection

  lemma {:induction false} StepsAreInjective(a: bv32, b: bv32, n: nat)
    requires Steps(a, n) == Steps(b, n)
    ensures a == b
    decreases n
  {
    if n > 0 {
      StepIsInjective(Steps(a, n - 1), Steps(b, n - 1));
      StepsAreInjective(a, b, n - 1);
    }
  }

  lemma {:induction false} ByteIsInjective(a: bv32, b: bv32, byte: bv8)
    requires Byte(a, byte) == Byte(b, byte)
    ensures a == b
  {
    StepsAreInjective(Xor(a, Widen(byte)), Xor(b, Widen(byte)), 8);
    Cancel(a, Widen(byte));
    Cancel(b, Widen(byte));
  }

  lemma {:induction false} RegisterIsInjective(a: bv32, b: bv32, bytes: seq<bv8>)
    requires Register(a, bytes) == Register(b, bytes)
    ensures a == b
    decreases |bytes|
  {
    if bytes != [] {
      var front, last := bytes[..|bytes| - 1], bytes[|bytes| - 1];
      ByteIsInjective(Register(a, front), Register(b, front), last);
      RegisterIsInjective(a, b, front);
    }
  }

  /** Four bytes as one word, least significant byte first. */
  function Word(x: seq<bv8>): bv32
    requires |x| == 4
  {
    Xor(Widen(x[0]), Raise(Xor(Widen(x[1]), Raise(Xor(Widen(x[2]), Raise(Widen(x[3])))))))
  }

  lemma WordIsInjective(x0: bv8, x1: bv8, x2: bv8, x3: bv8, y0: bv8, y1: bv8, y2: bv8, y3: bv8)
    requires (x0 as bv32) ^ (((x1 as bv32) ^ (((x2 as bv32) ^ ((x3 as bv32) << 8)) << 8)) << 8)
             == (y0 as bv32) ^ (((y1 as bv32) ^ (((y2 as bv32) ^ ((y3 as bv32) << 8)) << 8)) << 8)
    ensures x0 == y0 && x1 == y1 && x2 == y2 && x3 == y3
  {
  }

  lemma WordForm(x0: bv8, x1: bv8, x2: bv8, x3: bv8)
    ensures Xor(Widen(x0), Raise(Xor(Widen(x1), Raise(Xor(Widen(x2), Raise(Widen(x3)))))))
            == (x0 as bv32) ^ (((x1 as bv32) ^ (((x2 as bv32) ^ ((x3 as bv32) << 8)) << 8)) << 8)
  {
  }

  lemma NoTopByte(x: bv8, y: bv8, z: bv8)
    ensures Widen(x) & 0xff00_0000 == 0
    ensures Xor(Widen(x), Raise(Widen(y))) & 0xff00_0000 == 0
    ensures Xor(Widen(x), Raise(Xor(Widen(y), Raise(Widen(z))))) & 0xff00_0000 == 0
  {
  }

  /** What is added after eight steps can be added before them, eight places higher. */
  lemma {:induction false} AddEarly(c: bv32, later: bv32)
    requires later & 0xff00_0000 == 0
    ensures Xor(Steps(c, 8), later) == Steps(Xor(c, Raise(later)), 8)
  {
    StepsAreLinear(c, Raise(later), 8);
    Raised(later);
    ClearByteDrops(Raise(later));
  }

  function FourTimes(c: bv32): bv32 { Steps(Steps(Steps(Steps(c, 8), 8), 8), 8) }

  /** Feeding four bytes is adding their word and then taking all 32 steps. */
  lemma {:induction false} FourBytesAreAWord(c: bv32, x: seq<bv8>)
    requires |x| == 4
    ensures Register(c, x) == FourTimes(Xor(c, Word(x)))
  {
    var w0, w1, w2, w3 := Widen(x[0]), Widen(x[1]), Widen(x[2]), Widen(x[3]);
    FourBytes(c, x);
    NoTopByte(x[3], x[2], x[1]);
    NoTopByte(x[2], x[3], x[1]);
    NoTopByte(x[1], x[2], x[3]);
    var c1 := Byte(c, x[0]);
    var c2 := Byte(c1, x[1]);
    AddEarly(Xor(c2, w2), w3);
    Associate(c2, w2, Raise(w3));
    var t2 := Xor(w2, Raise(w3));
    AddEarly(Xor(c1, w1), t2);
    Associate(c1, w1, Raise(t2));
    var t1 := Xor(w1, Raise(t2));
    AddEarly(Xor(c, w0), t1);
    Associate(c, w0, Raise(t1));
  }

  lemma {:induction false} FourBytes(c: bv32, x: seq<bv8>)
    requires |x| == 4
    ensures Register(c, x) == Byte(Byte(Byte(Byte(c, x[0]), x[1]), x[2]), x[3])
  {
    assert x[..3][..2] == x[..2] && x[..2][..1] == x[..1] && x[..1][..0] == [];
    assert Register(c, x[..1]) == Byte(c, x[0]);
    assert Register(c, x[..2]) == Byte(Byte(c, x[0]), x[1]);
    assert Register(c, x[..3]) == Byte(Byte(Byte(c, x[0]), x[1]), x[2]);
  }

  lemma {:induction false} WordsDiffer(c: bv32, x: seq<bv8>, y: seq<bv8>)
    requires |x| == |y| == 4 && Register(c, x) == Register(c, y)
    ensures x == y
  {
    FourBytesAreAWord(c, x);
    FourBytesAreAWord(c, y);
    FourTimesIsInjective(Xor(c, Word(x)), Xor(c, Word(y)));
    Apart(c, Word(x), Word(y));
    WordsApart(x, y);
  }

  lemma WordsApart(x: seq<bv8>, y: seq<bv8>)
    requires |x| == |y| == 4 && Word(x) == Word(y)
    ensures x == y
  {
    BytesApart(x[0], x[1], x[2], x[3], y[0], y[1], y[2], y[3]);
  }

  lemma BytesApart(x0: bv8, x1: bv8, x2: bv8, x3: bv8, y0: bv8, y1: bv8, y2: bv8, y3: bv8)
    requires Xor(Widen(x0), Raise(Xor(Widen(x1), Raise(Xor(Widen(x2), Raise(Widen(x3)))))))
             == Xor(Widen(y0), Raise(Xor(Widen(y1), Raise(Xor(Widen(y2), Raise(Widen(y3)))))))
    ensures x0 == y0 && x1 == y1 && x2 == y2 && x3 == y3
  {
    WordForm(x0, x1, x2, x3);
    WordForm(y0, y1, y2, y3);
    WordIsInjective(x0, x1, x2, x3, y0, y1, y2, y3);
  }

  lemma Apart(c: bv32, a: bv32, b: bv32)
    requires Xor(c, a) == Xor(c, b)
    ensures a == b
  {
  }

  lemma {:induction false} FourTimesIsInjective(a: bv32, b: bv32)
    requires FourTimes(a) == FourTimes(b)
    ensures a == b
  {
    StepsAreInjective(Steps(Steps(Steps(a, 8), 8), 8), Steps(Steps(Steps(b, 8), 8), 8), 8);
    StepsAreInjective(Steps(Steps(a, 8), 8), Steps(Steps(b, 8), 8), 8);
    StepsAreInjective(Steps(a, 8), Steps(b, 8), 8);
    StepsAreInjective(a, b, 8);
  }

  /** Texts of one length with the same checksum that differ only inside four adjacent bytes are equal. */
  lemma {:induction false} BurstsAreDetected(prefix: seq<bv8>, x: seq<bv8>, y: seq<bv8>, suffix: seq<bv8>)
    requires |x| == |y| == 4 && Crc(prefix + x + suffix) == Crc(prefix + y + suffix)
    ensures x == y
  {
    var p := Register(0xffff_ffff, prefix);
    RegisterSplits(0xffff_ffff, prefix + x, suffix);
    RegisterSplits(0xffff_ffff, prefix + y, suffix);
    RegisterSplits(0xffff_ffff, prefix, x);
    RegisterSplits(0xffff_ffff, prefix, y);
    InvertTwice(Register(0xffff_ffff, prefix + x + suffix));
    InvertTwice(Register(0xffff_ffff, prefix + y + suffix));
    RegisterIsInjective(Register(p, x), Register(p, y), suffix);
    WordsDiffer(p, x, y);
  }

  /** The checksum of the single letter "a". */
  lemma KnownValue()
    ensures Crc([0x61]) == 0xe8b7_be43
  {
    var bytes: seq<bv8> := [0x61];
    assert bytes[..0] == [];
    assert Xor(0xffff_ffff, Widen(0x61)) == 0xffff_ff9e;
    EightSteps(0xffff_ff9e);
    assert Step(0xffff_ff9e) == 0x7fff_ffcf && Step(0x7fff_ffcf) == 0xd247_7cc7;
    assert Step(0xd247_7cc7) == 0x849b_3d43 && Step(0x849b_3d43) == 0xaff5_1d81;
    assert Step(0xaff5_1d81) == 0xba42_0de0 && Step(0xba42_0de0) == 0x5d21_06f0;
    assert Step(0x5d21_06f0) == 0x2e90_8378 && Step(0x2e90_8378) == 0x1748_41bc;
    assert Invert(0x1748_41bc) == 0xe8b7_be43;
  }
}
