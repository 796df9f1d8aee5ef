/** The frame checksum of main.cpp (`CRC16_plc`) and what it detects.

    A message is read as the sequence of its bits, most significant bit of each byte first.  The checksum is the
    final state of a 16-bit shift register fed those bits, starting from all ones.  A register is written as its
    sixteen bits, the top one first; `Word` reads a machine word that way. */
module Crc16 {

  type Register = r: seq<bool> | |r| == 16
    witness [false, false, false, false, false, false, false, false, false, false, false, false, false, false, false, false]

  function Fill(bit: bool, n: nat): (bits: seq<bool>)
    ensures |bits| == n && forall k :: 0 <= k < n ==> bits[k] == bit
  {
    seq(n, _ => bit)
  }

  const ZERO: Register := Fill(false, 16)
  const ONES: Register := Fill(true, 16)

  function Xor(a: seq<bool>, b: seq<bool>): (d: seq<bool>)
    requires |a| == |b|
    ensures |d| == |a| && forall k :: 0 <= k < |a| ==> d[k] == (a[k] != b[k])
  {
    seq(|a|, k requires 0 <= k < |a| => a[k] != b[k])
  }

  /** The generator X^16 + X^12 + X^5 + 1 flips bits 12, 5 and 0 of a shifted register. */
  function Taps(): Register {
    seq(16, k => k == 3 || k == 10 || k == 15)
  }

  lemma TapBits()
    ensures Taps()[3] && Taps()[10] && Taps()[15]
    ensures !Taps()[0] && !Taps()[1] && !Taps()[2] && !Taps()[4] && !Taps()[5] && !Taps()[6] && !Taps()[7]
    ensures !Taps()[8] && !Taps()[9] && !Taps()[11] && !Taps()[12] && !Taps()[13] && !Taps()[14]
  {
  }

  /** The register after one data bit. */
  function Step(r: Register, bit: bool): Register {
    var shifted := r[1..] + [false];
    if r[0] != bit then Xor(shifted, Taps()) else shifted
  }

  function Feed(r: Register, bits: seq<bool>): Register
    decreases |bits|
  {
    if bits == [] then r else Feed(Step(r, bits[0]), bits[1..])
  }

  function ByteBits(b: bv8): (bits: seq<bool>)
    ensures |bits| == 8
  {
    [b & 0x80 != 0, b & 0x40 != 0, b & 0x20 != 0, b & 0x10 != 0,
     b & 0x08 != 0, b & 0x04 != 0, b & 0x02 != 0, b & 0x01 != 0]
  }

  function MessageBits(message: seq<bv8>): (bits: seq<bool>)
    ensures |bits| == 8 * |message|
  {
    if message == [] then [] else ByteBits(message[0]) + MessageBits(message[1..])
  }

  function Checksum(message: seq<bv8>): Register {
    Feed(ONES, MessageBits(message))
  }

  // ---------- The loops of the source ----------

  function High(w: bv16): (bits: seq<bool>)
    ensures |bits| == 8
  {
    [w & 0x8000 != 0, w & 0x4000 != 0, w & 0x2000 != 0, w & 0x1000 != 0,
     w & 0x0800 != 0, w & 0x0400 != 0, w & 0x0200 != 0, w & 0x0100 != 0]
  }

  function Low(w: bv16): (bits: seq<bool>)
    ensures |bits| == 8
  {
    [w & 0x0080 != 0, w & 0x0040 != 0, w & 0x0020 != 0, w & 0x0010 != 0,
     w & 0x0008 != 0, w & 0x0004 != 0, w & 0x0002 != 0, w & 0x0001 != 0]
  }

  function Word(w: bv16): Register {
    High(w) + Low(w)
  }

  lemma ShiftMasks(w: bv16)
    ensures ((w << 1) & 0x8000 != 0) == (w & 0x4000 != 0)
    ensures ((w << 1) & 0x4000 != 0) == (w & 0x2000 != 0)
    ensures ((w << 1) & 0x2000 != 0) == (w & 0x1000 != 0)
    ensures ((w << 1) & 0x1000 != 0) == (w & 0x0800 != 0)
    ensures ((w << 1) & 0x0800 != 0) == (w & 0x0400 != 0)
    ensures ((w << 1) & 0x0400 != 0) == (w & 0x0200 != 0)
    ensures ((w << 1) & 0x0200 != 0) == (w & 0x0100 != 0)
    ensures ((w << 1) & 0x0100 != 0) == (w & 0x0080 != 0)
    ensures ((w << 1) & 0x0080 != 0) == (w & 0x0040 != 0)
    ensures ((w << 1) & 0x0040 != 0) == (w & 0x0020 != 0)
    ensures ((w << 1) & 0x0020 != 0) == (w & 0x0010 != 0)
    ensures ((w << 1) & 0x0010 != 0) == (w & 0x0008 != 0)
    ensures ((w << 1) & 0x0008 != 0) == (w & 0x0004 != 0)
    ensures ((w << 1) & 0x0004 != 0) == (w & 0x0002 != 0)
    ensures ((w << 1) & 0x0002 != 0) == (w & 0x0001 != 0)
    ensures (w << 1) & 0x0001 == 0
  {
  }

  lemma FlipMasks(w: bv16)
    ensures ((w ^ 0x1021) & 0x8000 != 0) == (w & 0x8000 != 0)
    ensures ((w ^ 0x1021) & 0x4000 != 0) == (w & 0x4000 != 0)
    ensures ((w ^ 0x1021) & 0x2000 != 0) == (w & 0x2000 != 0)
    ensures ((w ^ 0x1021) & 0x1000 != 0) == (w & 0x1000 == 0)
    ensures ((w ^ 0x1021) & 0x0800 != 0) == (w & 0x0800 != 0)
    ensures ((w ^ 0x1021) & 0x0400 != 0) == (w & 0x0400 != 0)
    ensures ((w ^ 0x1021) & 0x0200 != 0) == (w & 0x0200 != 0)
    ensures ((w ^ 0x1021) & 0x0100 != 0) == (w & 0x0100 != 0)
    ensures ((w ^ 0x1021) & 0x0080 != 0) == (w & 0x0080 != 0)
    ensures ((w ^ 0x1021) & 0x0040 != 0) == (w & 0x0040 != 0)
    ensures ((w ^ 0x1021) & 0x0020 != 0) == (w & 0x0020 == 0)
    ensures ((w ^ 0x1021) & 0x0010 != 0) == (w & 0x0010 != 0)
    ensures ((w ^ 0x1021) & 0x0008 != 0) == (w & 0x0008 != 0)
    ensures ((w ^ 0x1021) & 0x0004 != 0) == (w & 0x0004 != 0)
    ensures ((w ^ 0x1021) & 0x0002 != 0) == (w & 0x0002 != 0)
    ensures ((w ^ 0x1021) & 0x0001 != 0) == (w & 0x0001 == 0)
  {
  }

  lemma ShiftHigh(w: bv16)
    ensures High(w << 1) == High(w)[1..] + Low(w)[..1]
  {
    ShiftMasks(w);
  }

  lemma ShiftLow(w: bv16)
    ensures Low(w << 1) == Low(w)[1..] + [false]
  {
    ShiftMasks(w);
  }

  /** A left shift of the word is a left shift of its bits. */
  lemma WordShift(w: bv16)
    ensures Word(w << 1) == Word(w)[1..] + [false]
  {
    ShiftHigh(w);
    ShiftLow(w);
    hide High, Low;
  }

  lemma FlipHigh(w: bv16)
    ensures High(w ^ 0x1021) == Xor(High(w), Taps()[..8])
  {
    FlipMasks(w);
    TapBits();
    hide Taps;
  }

  lemma FlipLow(w: bv16)
    ensures Low(w ^ 0x1021) == Xor(Low(w), Taps()[8..])
  {
    FlipMasks(w);
    TapBits();
    hide Taps;
  }

  /** The exclusive or with 0x1021 flips the taps. */
  lemma WordFlip(w: bv16)
    ensures Word(w ^ 0x1021) == Xor(Word(w), Taps())
  {
    FlipHigh(w);
    FlipLow(w);
    hide High, Low, Taps;
  }

  lemma ByteShift(b: bv8)
    ensures ByteBits(b << 1) == ByteBits(b)[1..] + [false]
  {
    var s := b << 1;
    assert (s & 0x80 != 0) == (b & 0x40 != 0);
    assert (s & 0x40 != 0) == (b & 0x20 != 0);
    assert (s & 0x20 != 0) == (b & 0x10 != 0);
    assert (s & 0x10 != 0) == (b & 0x08 != 0);
    assert (s & 0x08 != 0) == (b & 0x04 != 0);
    assert (s & 0x04 != 0) == (b & 0x02 != 0);
    assert (s & 0x02 != 0) == (b & 0x01 != 0);
    assert s & 0x01 == 0;
  }

  /** The inner loop: eight shifts of the register, one per bit of the byte. */
  method FeedByte(start: bv16, byte: bv8) returns (crc: bv16)
    ensures Word(crc) == Feed(Word(start), ByteBits(byte))
  {
    crc := start;
    var byte1 := byte;
    hide Word, Step, ByteBits;
    assert ByteBits(byte1)[..8] == ByteBits(byte1);
    for j := 0 to 8
      invariant Feed(Word(crc), ByteBits(byte1)[..8 - j]) == Feed(Word(start), ByteBits(byte))
    {
      ghost var bits := ByteBits(byte1)[..8 - j];
      ghost var next := crc << 1;
      TopOfWord(crc);
      TopOfByte(byte1);
      WordStep(crc, byte1 & 0x80 != 0);
      ByteShift(byte1);
      var crcbit := crc & 0x8000 != 0;
      var databit := byte1 & 0x80 != 0;
      crc := crc << 1;
      if crcbit != databit {
        crc := crc ^ 0x1021;
      }
      byte1 := byte1 << 1;
      assert bits[1..] == ByteBits(byte1)[..8 - j - 1];
    }
  }

  lemma TopOfWord(w: bv16)
    ensures Word(w)[0] == (w & 0x8000 != 0)
  {
  }

  lemma TopOfByte(b: bv8)
    ensures ByteBits(b)[0] == (b & 0x80 != 0)
  {
  }

  lemma WordStep(w: bv16, bit: bool)
    ensures Step(Word(w), bit) == if (w & 0x8000 != 0) != bit then Word((w << 1) ^ 0x1021) else Word(w << 1)
  {
    TopOfWord(w);
    WordShift(w);
    WordFlip(w << 1);
    hide Word;
  }

  method CRC16(buf: array<bv8>, sizeIn: nat) returns (crc: bv16)
    requires sizeIn <= buf.Length && sizeIn < 0x1_0000
    ensures Word(crc) == Checksum(buf[..sizeIn])
    ensures sizeIn == 0 ==> crc == 0xffff
  {
    crc := 0xffff;
    assert buf[..sizeIn] == buf[0..sizeIn];
    assert Word(crc) == ONES;
    hide Word, ByteBits;
    for i := 0 to sizeIn
      invariant Feed(Word(crc), MessageBits(buf[i..sizeIn])) == Checksum(buf[..sizeIn])
      invariant i == 0 ==> crc == 0xffff
    {
      assert buf[i..sizeIn][1..] == buf[i + 1..sizeIn];
      FeedAppend(Word(crc), ByteBits(buf[i]), MessageBits(buf[i + 1..sizeIn]));
      crc := FeedByte(crc, buf[i]);
    }
    assert buf[sizeIn..sizeIn] == [];
  }

  // ---------- Feeding in pieces ----------

  lemma {:induction false} FeedAppend(r: Register, a: seq<bool>, b: seq<bool>)
    ensures Feed(r, a + b) == Feed(Feed(r, a), b)
    decreases |a|
  {
    hide Step;
    if a == [] {
      assert a + b == b;
    } else {
      assert (a + b)[1..] == a[1..] + b;
      FeedAppend(Step(r, a[0]), a[1..], b);
    }
  }

  lemma {:induction false} MessageBitsAppend(a: seq<bv8>, b: seq<bv8>)
    ensures MessageBits(a + b) == MessageBits(a) + MessageBits(b)
    decreases |a|
  {
    hide ByteBits;
    if a == [] {
      assert a + b == b;
    } else {
      assert (a + b)[1..] == a[1..] + b;
      MessageBitsAppend(a[1..], b);
    }
  }

  // ---------- When the register reaches zero ----------

  /** At most sixteen bits written into the top of a register, zeros below. */
  function Pack(bits: seq<bool>): Register
    requires |bits| <= 16
  {
    bits + Fill(false, 16 - |bits|)
  }

  /** One step leads to a register with a clear last bit only by shifting the data bit out of the top. */
  lemma StepBackwards(r: Register, bit: bool, next: Register)
    requires !next[15]
    ensures Step(r, bit) == next <==> r == [bit] + next[..15]
  {
    if Step(r, bit) == next {
      assert !Step(r, bit)[15];
      assert r[0] == bit;
      forall k | 0 < k < 16 ensures r[k] == next[k - 1] {
        assert Step(r, bit)[k - 1] == r[k];
      }
    }
  }

  /** Sixteen or fewer bits bring the register to zero from exactly one state: the bits themselves. */
  lemma {:induction false} FeedToZero(r: Register, bits: seq<bool>)
    requires |bits| <= 16
    ensures Feed(r, bits) == ZERO <==> r == Pack(bits)
    decreases |bits|
  {
    hide Step;
    if bits == [] {
    } else {
      FeedToZero(Step(r, bits[0]), bits[1..]);
      StepBackwards(r, bits[0], Pack(bits[1..]));
      assert [bits[0]] + Pack(bits[1..])[..15] == Pack(bits);
    }
  }

  // ---------- A frame followed by its own checksum ----------

  /** Over a frame and two trailing bytes the checksum is zero exactly when the trailer is the frame's own
      checksum, high byte first. */
  lemma TrailerCheck(message: seq<bv8>, high: bv8, low: bv8)
    ensures Checksum(message + [high, low]) == ZERO <==> ByteBits(high) + ByteBits(low) == Checksum(message)
  {
    hide ByteBits, Step;
    var bits := ByteBits(high) + ByteBits(low);
    MessageBitsAppend(message, [high, low]);
    assert [high, low][1..] == [low] && [low][1..] == [];
    assert MessageBits([low]) == ByteBits(low) + [] == ByteBits(low);
    assert MessageBits([high, low]) == bits;
    FeedAppend(ONES, MessageBits(message), bits);
    FeedToZero(Checksum(message), bits);
    assert Pack(bits) == bits;
  }

  /** The two bytes the frame carries are the halves of the machine word. */
  lemma WordHalves(w: bv16)
    ensures Word(w) == ByteBits((w >> 8) as bv8) + ByteBits((w & 0xff) as bv8)
  {
    HighBits(w);
    LowBits(w);
    hide High, Low, ByteBits;
  }

  lemma HighBits(w: bv16)
    ensures ByteBits((w >> 8) as bv8) == High(w)
  {
    var h := (w >> 8) as bv8;
    assert (h & 0x80 != 0) == (w & 0x8000 != 0);
    assert (h & 0x40 != 0) == (w & 0x4000 != 0);
    assert (h & 0x20 != 0) == (w & 0x2000 != 0);
    assert (h & 0x10 != 0) == (w & 0x1000 != 0);
    assert (h & 0x08 != 0) == (w & 0x0800 != 0);
    assert (h & 0x04 != 0) == (w & 0x0400 != 0);
    assert (h & 0x02 != 0) == (w & 0x0200 != 0);
    assert (h & 0x01 != 0) == (w & 0x0100 != 0);
  }

  lemma LowBits(w: bv16)
    ensures ByteBits((w & 0xff) as bv8) == Low(w)
  {
    var l := (w & 0xff) as bv8;
    assert (l & 0x80 != 0) == (w & 0x0080 != 0);
    assert (l & 0x40 != 0) == (w & 0x0040 != 0);
    assert (l & 0x20 != 0) == (w & 0x0020 != 0);
    assert (l & 0x10 != 0) == (w & 0x0010 != 0);
    assert (l & 0x08 != 0) == (w & 0x0008 != 0);
    assert (l & 0x04 != 0) == (w & 0x0004 != 0);
    assert (l & 0x02 != 0) == (w & 0x0002 != 0);
    assert (l & 0x01 != 0) == (w & 0x0001 != 0);
  }

  lemma WordIsZero(w: bv16)
    ensures Word(w) == ZERO <==> w == 0
  {
    WordHalves(w);
    WordHalves(0);
    if Word(w) == ZERO {
      var high, low := (w >> 8) as bv8, (w & 0xff) as bv8;
      assert ByteBits(high) == Word(w)[..8] == ByteBits(0) && ByteBits(low) == Word(w)[8..] == ByteBits(0);
      SameBits(high, 0);
      SameBits(low, 0);
      HalvesAreZero(w);
    }
  }

  lemma HalvesAreZero(w: bv16)
    requires (w >> 8) as bv8 == 0 && (w & 0xff) as bv8 == 0
    ensures w == 0
  {
  }

  /** What the receiver relies on: the checksum over a frame with its trailer is the number zero exactly if the trailer
      is the checksum of the message, its high byte first. */
  lemma FrameCheck(message: seq<bv8>, high: bv8, low: bv8, crc: bv16, again: bv16)
    requires Word(crc) == Checksum(message) && Word(again) == Checksum(message + [high, low])
    ensures again == 0 <==> high == (crc >> 8) as bv8 && low == (crc & 0xff) as bv8
  {
    hide Word, ByteBits, Checksum;
    TrailerCheck(message, high, low);
    WordIsZero(again);
    WordHalves(crc);
    var h, l := (crc >> 8) as bv8, (crc & 0xff) as bv8;
    if again == 0 {
      var trailer := ByteBits(high) + ByteBits(low);
      assert trailer[..8] == ByteBits(high) == ByteBits(h) && trailer[8..] == ByteBits(low) == ByteBits(l);
      SameBits(high, h);
      SameBits(low, l);
    }
  }

  // ---------- Bursts of errors ----------

  lemma XorSame(a: seq<bool>, b: seq<bool>)
    requires |a| == |b|
    ensures a == b ==> Xor(a, b) == Fill(false, |a|)
  {
  }

  lemma StepXor(r1: Register, r2: Register, x: bool, y: bool)
    ensures Xor(Step(r1, x), Step(r2, y)) == Step(Xor(r1, r2), x != y)
  {
    var a, b, c := Step(r1, x), Step(r2, y), Step(Xor(r1, r2), x != y);
    forall k | 0 <= k < 16 ensures (a[k] != b[k]) == c[k] {
    }
  }

  /** The register is linear: two runs differ by a run over the differences. */
  lemma {:induction false} FeedXor(r1: Register, r2: Register, a: seq<bool>, b: seq<bool>)
    requires |a| == |b|
    ensures Xor(Feed(r1, a), Feed(r2, b)) == Feed(Xor(r1, r2), Xor(a, b))
    decreases |a|
  {
    hide Step;
    if a != [] {
      StepXor(r1, r2, a[0], b[0]);
      assert Xor(a, b)[1..] == Xor(a[1..], b[1..]);
      FeedXor(Step(r1, a[0]), Step(r2, b[0]), a[1..], b[1..]);
    }
  }

  /** Zero bits keep a zero register at zero and never bring another one there. */
  lemma {:induction false} FeedZeros(r: Register, bits: seq<bool>)
    requires forall k :: 0 <= k < |bits| ==> !bits[k]
    ensures Feed(r, bits) == ZERO <==> r == ZERO
    decreases |bits|
  {
    hide Step;
    if bits != [] {
      StepBackwards(r, false, ZERO);
      assert [false] + ZERO[..15] == ZERO;
      FeedZeros(Step(r, false), bits[1..]);
    }
  }

  lemma {:induction false} MessageBitsInjective(m1: seq<bv8>, m2: seq<bv8>)
    requires |m1| == |m2| && MessageBits(m1) == MessageBits(m2)
    ensures m1 == m2
    decreases |m1|
  {
    hide ByteBits;
    if m1 != [] {
      var b1, b2 := MessageBits(m1), MessageBits(m2);
      assert ByteBits(m1[0]) == b1[..8] == b2[..8] == ByteBits(m2[0]);
      SameBits(m1[0], m2[0]);
      assert MessageBits(m1[1..]) == b1[8..] == b2[8..] == MessageBits(m2[1..]);
      MessageBitsInjective(m1[1..], m2[1..]);
      assert m1 == [m1[0]] + m1[1..] && m2 == [m2[0]] + m2[1..];
    }
  }

  lemma SameBits(a: bv8, b: bv8)
    requires ByteBits(a) == ByteBits(b)
    ensures a == b
  {
    var x, y := ByteBits(a), ByteBits(b);
    assert x[0] == y[0] && x[1] == y[1] && x[2] == y[2] && x[3] == y[3];
    assert x[4] == y[4] && x[5] == y[5] && x[6] == y[6] && x[7] == y[7];
  }

  /** Differences confined to sixteen consecutive bits never cancel out. */
  lemma BurstNotZero(d: seq<bool>, p: nat, k: nat)
    requires k < |d| && d[k]
    requires forall j :: 0 <= j < |d| && d[j] ==> p <= j < p + 16
    ensures Feed(ZERO, d) != ZERO
  {
    hide Step, Fill;
    var last := if p + 16 <= |d| then p + 16 else |d|;
    var burst := d[p..last];
    assert d == d[..p] + (burst + d[last..]);
    FeedAppend(ZERO, d[..p], burst + d[last..]);
    FeedZeros(ZERO, d[..p]);
    FeedAppend(ZERO, burst, d[last..]);
    FeedZeros(Feed(ZERO, burst), d[last..]);
    FeedToZero(ZERO, burst);
    assert Pack(burst)[k - p];
  }

  /** Two messages of one length that differ, but only within sixteen consecutive bits starting at bit `p`,
      never have the same checksum. */
  lemma BurstDetected(m1: seq<bv8>, m2: seq<bv8>, p: nat)
    requires |m1| == |m2| && m1 != m2
    requires forall k :: 0 <= k < 8 * |m1| && !(p <= k < p + 16) ==> MessageBits(m1)[k] == MessageBits(m2)[k]
    ensures Checksum(m1) != Checksum(m2)
  {
    hide Step, ByteBits, Feed, Fill;
    var b1, b2 := MessageBits(m1), MessageBits(m2);
    if b1 == b2 { MessageBitsInjective(m1, m2); }
    var k :| 0 <= k < |b1| && b1[k] != b2[k];
    FeedXor(ONES, ONES, b1, b2);
    assert Xor(ONES, ONES) == ZERO;
    BurstNotZero(Xor(b1, b2), p, k);
    XorSame(Checksum(m1), Checksum(m2));
  }

  // ---------- Odd numbers of errors ----------

  /** Whether an odd number of bits is set. */
  predicate Odd(bits: seq<bool>) {
    bits != [] && bits[0] != Odd(bits[1..])
  }

  lemma {:induction false} OddAppend(a: seq<bool>, b: seq<bool>)
    ensures Odd(a + b) == (Odd(a) != Odd(b))
    decreases |a|
  {
    if a == [] {
      assert a + b == b;
    } else {
      assert (a + b)[1..] == a[1..] + b;
      OddAppend(a[1..], b);
    }
  }

  lemma {:induction false} OddXor(a: seq<bool>, b: seq<bool>)
    requires |a| == |b|
    ensures Odd(Xor(a, b)) == (Odd(a) != Odd(b))
    decreases |a|
  {
    if a != [] {
      assert Xor(a, b)[1..] == Xor(a[1..], b[1..]);
      OddXor(a[1..], b[1..]);
    }
  }

  lemma {:induction false} NoneIsEven(n: nat)
    ensures !Odd(Fill(false, n))
  {
    if n > 0 {
      assert Fill(false, n)[1..] == Fill(false, n - 1);
      NoneIsEven(n - 1);
    }
  }

  lemma OneIsOdd(n: nat)
    ensures Odd(Fill(false, n) + [true])
  {
    NoneIsEven(n);
    OddAppend(Fill(false, n), [true]);
  }

  /** Three taps. */
  lemma TapsAreOdd()
    ensures Odd(Taps())
  {
    var a, b, c := Fill(false, 3) + [true], Fill(false, 6) + [true], Fill(false, 4) + [true];
    OneIsOdd(3);
    OneIsOdd(6);
    OneIsOdd(4);
    OddAppend(a, b);
    OddAppend(a + b, c);
    TapBits();
    assert Taps() == a + b + c by { hide Odd; }
  }

  /** The generator is a multiple of X + 1, so that a step adds the data bit to the parity of the register. */
  lemma StepParity(r: Register, bit: bool)
    ensures Odd(Step(r, bit)) == (Odd(r) != bit)
  {
    var shifted := r[1..] + [false];
    OddAppend(r[1..], [false]);
    TapsAreOdd();
    OddXor(shifted, Taps());
    hide Taps, Xor;
  }

  lemma {:induction false} FeedParity(r: Register, bits: seq<bool>)
    ensures Odd(Feed(r, bits)) == (Odd(r) != Odd(bits))
    decreases |bits|
  {
    hide Step;
    if bits != [] {
      StepParity(r, bits[0]);
      FeedParity(Step(r, bits[0]), bits[1..]);
    }
  }

  lemma OnesAreEven()
    ensures !Odd(ONES)
  {
    var four := [true, true] + [true, true];
    OddAppend([true, true], [true, true]);
    OddAppend(four, four);
    OddAppend(four + four, four + four);
    assert !Odd([true, true]) by { assert [true, true][1..] == [true] && [true][1..] == []; }
    assert ONES == (four + four) + (four + four) by { hide Odd; }
  }

  /** The checksum has the parity of the message. */
  lemma ChecksumParity(message: seq<bv8>)
    ensures Odd(Checksum(message)) == Odd(MessageBits(message))
  {
    hide Odd, Step, Feed, MessageBits;
    FeedParity(ONES, MessageBits(message));
    OnesAreEven();
  }

  /** Messages of one length that differ in an odd number of bits, wherever these are, never have the same checksum. */
  lemma OddErrorsDetected(m1: seq<bv8>, m2: seq<bv8>)
    requires |m1| == |m2| && Odd(Xor(MessageBits(m1), MessageBits(m2)))
    ensures Checksum(m1) != Checksum(m2)
  {
    hide Odd, Checksum, MessageBits;
    ChecksumParity(m1);
    ChecksumParity(m2);
    OddXor(MessageBits(m1), MessageBits(m2));
  }
}
