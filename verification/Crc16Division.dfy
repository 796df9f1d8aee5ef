/** The frame checksum as polynomial division: what the shift register of main.cpp computes, in terms of the generator.

    A polynomial over two elements is the sequence of its coefficients, the highest first; addition is `Xor`. */
module Crc16Division {
  import opened Crc16

  // ---------- Division with remainder ----------

  /** X^16 + X^12 + X^5 + 1. */
  const GENERATOR: seq<bool> := [true, false, false, false, true, false, false, false,
                                 false, false, false, true, false, false, false, false, true]

  /** The generator, or nothing, in front of `n` places. */
  function Multiple(lead: bool, n: nat): (p: seq<bool>)
    ensures |p| == n + 17
  {
    if lead then GENERATOR + Fill(false, n) else Fill(false, n + 17)
  }

  /** The product with the generator. */
  function Times(q: seq<bool>): (p: seq<bool>)
    ensures |p| == |q| + 16
  {
    if q == [] then Fill(false, 16) else Xor(Multiple(q[0], |q| - 1), [false] + Times(q[1..]))
  }

  /** `p` is a multiple of the generator, `quotient` times, plus `r`, which is of lower degree. */
  predicate Divides(p: seq<bool>, quotient: seq<bool>, r: Register) {
    |quotient| + 16 == |p| && p == Xor(Times(quotient), Fill(false, |quotient|) + r)
  }

  ghost predicate IsRemainder(p: seq<bool>, r: Register) {
    exists quotient :: Divides(p, quotient, r)
  }

  lemma QuotientLeads(p: seq<bool>, q: seq<bool>, r: Register)
    requires Divides(p, q, r) && q != []
    ensures p[0] == q[0]
  {
  }

  lemma NoQuotient(p: seq<bool>, r: Register)
    requires Divides(p, [], r)
    ensures p == r
  {
  }

  /** Quotient and remainder are unique. */
  lemma {:induction false} RemainderIsUnique(p: seq<bool>, q1: seq<bool>, r1: Register, q2: seq<bool>, r2: Register)
    requires Divides(p, q1, r1) && Divides(p, q2, r2)
    ensures q1 == q2 && r1 == r2
    decreases |p|
  {
    hide Times;
    if q1 == [] {
      NoQuotient(p, r1);
      NoQuotient(p, r2);
    } else {
      QuotientLeads(p, q1, r1);
      QuotientLeads(p, q2, r2);
      hide Divides, Xor, Multiple;
      LessHead(p, q1, r1);
      LessHead(p, q2, r2);
      RemainderIsUnique(Xor(p, Multiple(p[0], |q1| - 1))[1..], q1[1..], r1, q2[1..], r2);
      assert q1 == [q1[0]] + q1[1..] && q2 == [q2[0]] + q2[1..];
    }
  }

  /** Adding the head again takes it away. */
  lemma HeadTwice(head: seq<bool>, x: seq<bool>, low: seq<bool>)
    requires |head| == |x| + 1 == |low| + 1
    ensures Xor(Xor(Xor(head, [false] + x), [false] + low), head)[1..] == Xor(x, low)
  {
    hide Xor;
    var p := Xor(Xor(head, [false] + x), [false] + low);
    var a, b := Xor(p, head)[1..], Xor(x, low);
    forall k | 0 <= k < |b|
      ensures a[k] == b[k]
    {
      assert ([false] + x)[k + 1] == x[k] && ([false] + low)[k + 1] == low[k];
    }
  }

  lemma LessHead(p: seq<bool>, q: seq<bool>, r: Register)
    requires Divides(p, q, r) && q != []
    ensures Divides(Xor(p, Multiple(q[0], |q| - 1))[1..], q[1..], r)
  {
    hide Xor, Multiple;
    var low := Fill(false, |q| - 1) + r;
    ZerosInFront(|q| - 1, r);
    HeadTwice(Multiple(q[0], |q| - 1), Times(q[1..]), low);
  }

  lemma ZerosInFront(n: nat, r: Register)
    ensures Fill(false, n + 1) + r == [false] + (Fill(false, n) + r)
  {
    hide Fill;
  }

  // ---------- What the register holds ----------

  /** Bits followed by sixteen zeros, with a register added to the first sixteen. */
  function Loaded(r: Register, bits: seq<bool>): (p: seq<bool>)
    ensures |p| == |bits| + 16
  {
    Xor(bits + Fill(false, 16), r + Fill(false, |bits|))
  }

  /** The taps are the generator without its leading coefficient. */
  lemma TapsOfGenerator()
    ensures GENERATOR == [true] + Taps()
  {
  }

  lemma OneTurn(r: Register, bit: bool, rest: seq<bool>)
    ensures var lead := r[0] != bit;
            Loaded(r, [bit] + rest) == Xor(Multiple(lead, |rest|), [false] + Loaded(Step(r, bit), rest))
  {
    TapsOfGenerator();
    hide Taps;
    var lead := r[0] != bit;
    var head := Multiple(lead, |rest|);
    var a, b := Loaded(r, [bit] + rest), Xor(head, [false] + Loaded(Step(r, bit), rest));
    forall k | 0 <= k < |a|
      ensures a[k] == b[k]
    {
      if k > 0 {
        assert ([bit] + rest + Fill(false, 16))[k] == (rest + Fill(false, 16))[k - 1];
        if k < 16 {
          assert (Step(r, bit) + Fill(false, |rest|))[k - 1] == (r[k] != (lead && GENERATOR[k]));
        } else if k == 16 {
          assert (Step(r, bit) + Fill(false, |rest|))[k - 1] == lead;
        }
      }
    }
  }

  /** Bits fed to a register leave the remainder of the loaded bits. */
  lemma {:induction false} FeedDivides(r: Register, bits: seq<bool>) returns (quotient: seq<bool>)
    ensures Divides(Loaded(r, bits), quotient, Feed(r, bits))
    decreases |bits|
  {
    hide Step, Loaded;
    if bits == [] {
      quotient := [];
      NothingFed(r);
    } else {
      var lead, rest := r[0] != bits[0], bits[1..];
      var q := FeedDivides(Step(r, bits[0]), rest);
      quotient := [lead] + q;
      OneTurn(r, bits[0], rest);
      assert bits == [bits[0]] + rest;
      MoreHead(Loaded(Step(r, bits[0]), rest), q, Feed(r, bits), lead);
    }
  }

  lemma NothingFed(r: Register)
    ensures Divides(Loaded(r, []), [], r)
  {
  }

  lemma MoreHead(p: seq<bool>, q: seq<bool>, r: Register, lead: bool)
    requires Divides(p, q, r)
    ensures Divides(Xor(Multiple(lead, |q|), [false] + p), [lead] + q, r)
  {
    hide Xor, Multiple;
    assert ([lead] + q)[1..] == q;
    var low := Fill(false, |q|) + r;
    ZerosInFront(|q|, r);
    XorInTurn(Multiple(lead, |q|), Times(q), low);
  }

  lemma XorInTurn(head: seq<bool>, x: seq<bool>, low: seq<bool>)
    requires |head| == |x| + 1 == |low| + 1
    ensures Xor(head, [false] + Xor(x, low)) == Xor(Xor(head, [false] + x), [false] + low)
  {
    hide Xor;
    var a, b := Xor(head, [false] + Xor(x, low)), Xor(Xor(head, [false] + x), [false] + low);
    forall k | 0 <= k < |a|
      ensures a[k] == b[k]
    {
      if k > 0 {
        assert ([false] + x)[k] == x[k - 1] && ([false] + low)[k] == low[k - 1];
        assert ([false] + Xor(x, low))[k] == Xor(x, low)[k - 1];
      }
    }
  }

  // ---------- The checksum ----------

  function Inverted(bits: seq<bool>): (r: seq<bool>)
    ensures |r| == |bits| && forall k :: 0 <= k < |bits| ==> r[k] == !bits[k]
  {
    seq(|bits|, k requires 0 <= k < |bits| => !bits[k])
  }

  lemma OnesInvert(bits: seq<bool>)
    requires |bits| >= 16
    ensures Loaded(ONES, bits) == Inverted(bits[..16]) + bits[16..] + Fill(false, 16)
  {
    var a, b := Loaded(ONES, bits), Inverted(bits[..16]) + bits[16..] + Fill(false, 16);
    forall k | 0 <= k < |a|
      ensures a[k] == b[k]
    {
      assert (bits + Fill(false, 16))[k] == if k < |bits| then bits[k] else false;
      assert (ONES + Fill(false, |bits|))[k] == (k < 16);
    }
  }

  /** The checksum of a message of at least two bytes is the remainder of its bits, the first sixteen of them inverted,
      times X^16. */
  lemma ChecksumIsRemainder(message: seq<bv8>)
    requires |message| >= 2
    ensures var bits := MessageBits(message);
            IsRemainder(Inverted(bits[..16]) + bits[16..] + Fill(false, 16), Checksum(message))
  {
    hide MessageBits, Feed, Times, Inverted, Loaded, Divides;
    OnesInvert(MessageBits(message));
    var quotient := FeedDivides(ONES, MessageBits(message));
  }

  /** Of every message, however short, the checksum is the remainder of its bits times X^16 with ones added in front. */
  lemma ShortChecksum(message: seq<bv8>)
    ensures var bits := MessageBits(message);
            IsRemainder(Xor(bits + Fill(false, 16), Fill(true, 16) + Fill(false, |bits|)), Checksum(message))
  {
    hide MessageBits, Feed, Times, Divides;
    var quotient := FeedDivides(ONES, MessageBits(message));
  }

  // ---------- Values ----------

  function Turn(w: bv16, bit: bool): bv16 {
    if (w & 0x8000 != 0) != bit then (w << 1) ^ 0x1021 else w << 1
  }

  /** Eight turns, the top bit of the byte first. */
  function Turns(w: bv16, b: bv8): bv16 {
    Turn(Turn(Turn(Turn(Turn(Turn(Turn(Turn(w, b & 0x80 != 0), b & 0x40 != 0), b & 0x20 != 0), b & 0x10 != 0),
                        b & 0x08 != 0), b & 0x04 != 0), b & 0x02 != 0), b & 0x01 != 0)
  }

  lemma {:induction false} BitsFed(w: bv16, bits: seq<bool>, v: bv16)
    requires bits != [] && Feed(Word(Turn(w, bits[0])), bits[1..]) == Word(v)
    ensures Feed(Word(w), bits) == Word(v)
  {
    hide Word, Step;
    WordStep(w, bits[0]);
  }

  lemma ByteFed(w: bv16, b: bv8)
    ensures Feed(Word(w), ByteBits(b)) == Word(Turns(w, b))
  {
    hide Word, Step, Turn;
    var x := ByteBits(b);
    var w1 := Turn(w, x[0]);
    var w2 := Turn(w1, x[1]);
    var w3 := Turn(w2, x[2]);
    var w4 := Turn(w3, x[3]);
    var w5 := Turn(w4, x[4]);
    var w6 := Turn(w5, x[5]);
    var w7 := Turn(w6, x[6]);
    var v := Turn(w7, x[7]);
    assert x[7..][1..] == [] && Feed(Word(v), []) == Word(v);
    BitsFed(w7, x[7..], v);
    assert x[6..][1..] == x[7..] && x[5..][1..] == x[6..] && x[4..][1..] == x[5..] && x[3..][1..] == x[4..];
    BitsFed(w6, x[6..], v);
    BitsFed(w5, x[5..], v);
    BitsFed(w4, x[4..], v);
    assert x[2..][1..] == x[3..] && x[1..][1..] == x[2..];
    BitsFed(w3, x[3..], v);
    BitsFed(w2, x[2..], v);
    BitsFed(w1, x[1..], v);
    BitsFed(w, x, v);
  }

  function TurnsAll(w: bv16, message: seq<bv8>): bv16
    decreases |message|
  {
    if message == [] then w else TurnsAll(Turns(w, message[0]), message[1..])
  }

  lemma {:induction false} BytesFed(w: bv16, message: seq<bv8>)
    ensures Feed(Word(w), MessageBits(message)) == Word(TurnsAll(w, message))
    decreases |message|
  {
    hide Word, Step, ByteBits, Turns;
    if message != [] {
      ByteFed(w, message[0]);
      FeedAppend(Word(w), ByteBits(message[0]), MessageBits(message[1..]));
      BytesFed(Turns(w, message[0]), message[1..]);
    }
  }

  lemma Different(v: bv16, w: bv16)
    requires v & 0x0001 != w & 0x0001
    ensures Word(v) != Word(w)
  {
    assert Word(v)[15] == (v & 0x0001 != 0) && Word(w)[15] == (w & 0x0001 != 0);
  }

  lemma ChecksumOf(message: seq<bv8>)
    ensures Checksum(message) == Word(TurnsAll(0xffff, message))
  {
    BytesFed(0xffff, message);
    assert Word(0xffff) == ONES;
    hide Word, Feed, MessageBits, TurnsAll;
  }

  /** A zero byte in front is noticed: without any byte the checksum is all ones, with one zero it is 0xe1f0. */
  lemma LeadingZeroIsNoticed()
    ensures Checksum([]) == Word(0xffff) && Checksum([0]) == Word(0xe1f0) && Checksum([0]) != Checksum([])
  {
    hide Word, Feed, MessageBits;
    ChecksumOf([]);
    ChecksumOf([0]);
    assert Turns(0xffff, 0) == 0xe1f0;
    Different(0xffff, 0xe1f0);
    assert [0][1..] == [];
  }

  /** The digits 1 to 9 in ASCII have the checksum 0x29b1. */
  lemma ChecksumOfDigits()
    ensures Checksum([0x31, 0x32, 0x33, 0x34, 0x35, 0x36, 0x37, 0x38, 0x39]) == Word(0x29b1)
  {
    hide Word, Feed, MessageBits;
    var s: seq<bv8> := [0x31, 0x32, 0x33, 0x34, 0x35, 0x36, 0x37, 0x38, 0x39];
    ChecksumOf(s);
    assert TurnsAll(0xffff, s[0..]) == TurnsAll(0xc782, s[1..]) by { One(s, 0, 0xffff, 0xc782); }
    assert TurnsAll(0xc782, s[1..]) == TurnsAll(0x3dba, s[2..]) by { One(s, 1, 0xc782, 0x3dba); }
    assert TurnsAll(0x3dba, s[2..]) == TurnsAll(0x5bce, s[3..]) by { One(s, 2, 0x3dba, 0x5bce); }
    assert TurnsAll(0x5bce, s[3..]) == TurnsAll(0x5349, s[4..]) by { One(s, 3, 0x5bce, 0x5349); }
    assert TurnsAll(0x5349, s[4..]) == TurnsAll(0x4560, s[5..]) by { One(s, 4, 0x5349, 0x4560); }
    assert TurnsAll(0x4560, s[5..]) == TurnsAll(0x2ef4, s[6..]) by { One(s, 5, 0x4560, 0x2ef4); }
    assert TurnsAll(0x2ef4, s[6..]) == TurnsAll(0x7718, s[7..]) by { One(s, 6, 0x2ef4, 0x7718); }
    assert TurnsAll(0x7718, s[7..]) == TurnsAll(0xa12b, s[8..]) by { One(s, 7, 0x7718, 0xa12b); }
    assert TurnsAll(0xa12b, s[8..]) == TurnsAll(0x29b1, s[9..]) by { One(s, 8, 0xa12b, 0x29b1); }
    assert s[0..] == s && s[9..] == [];
  }

  lemma One(s: seq<bv8>, k: nat, w: bv16, v: bv16)
    requires k < |s| && v == Turns(w, s[k])
    ensures TurnsAll(w, s[k..]) == TurnsAll(v, s[k + 1..])
  {
    hide Turns;
    assert s[k..][1..] == s[k + 1..];
  }
}
