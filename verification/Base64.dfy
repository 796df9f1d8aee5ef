/** The Base64 codec of Base64.c, the branch compiled without OpenSSL (RFC 4648, section 4).

    Bytes and text characters are integers below 256.  The masks and shifts of the source are quotients and
    remainders by powers of two; its bitwise "or" is `Or`, exact on overlapping bits too, so that malformed text
    decodes to what the source makes of it, as long as the source stays inside its table: it indexes the table with a
    `char`, which is negative above 127 where `char` is signed. */
module Base64 {
  import opened Wrappers
  import B = Bytes

  type byte = B.Byte

  /** Bitwise or. */
  function Or(a: nat, b: nat): nat
    decreases a + b
  {
    if a == 0 && b == 0 then 0 else Or(a / 2, b / 2) * 2 + if a % 2 == 1 || b % 2 == 1 then 1 else 0
  }

  /** `a` moved `k` bits up. */
  function Up(a: nat, k: nat): nat {
    if k == 0 then a else 2 * Up(a, k - 1)
  }

  /** Without common bits, "or" is addition. */
  lemma {:induction false} OrDisjoint(a: nat, b: nat, k: nat)
    requires b < Up(1, k)
    ensures Or(Up(a, k), b) == Up(a, k) + b
    decreases k, a
  {
    if k > 0 {
      assert Up(a, k) / 2 == Up(a, k - 1) && Up(a, k) % 2 == 0;
      OrDisjoint(a, b / 2, k - 1);
    } else if a > 0 {
      assert Or(a, 0) == Or(a / 2, 0) * 2 + a % 2;
      OrDisjoint(a / 2, 0, 0);
    }
  }

  lemma {:induction false} OrBound(a: nat, b: nat, k: nat)
    requires a < Up(1, k) && b < Up(1, k)
    ensures Or(a, b) < Up(1, k)
    decreases k
  {
    if k > 0 {
      OrBound(a / 2, b / 2, k - 1);
    }
  }

  function OrBytes(a: byte, b: byte): byte {
    assert Up(1, 4) == 16 && Up(1, 8) == 256;
    OrBound(a, b, 8);
    Or(a, b)
  }

  /** What `BASE64_DECODE_TABLE` holds for a character outside the alphabet. */
  const NV: byte := 64
  /** '=', at index 64 of `BASE64_ENCODE_TABLE`. */
  const PAD: byte := 61

  /** `BASE64_ENCODE_TABLE`. */
  function Char(c: byte): byte {
    if c < 26 then c + 65 else if c < 52 then c + 71 else if c < 62 then c - 4
    else if c == 62 then 43 else if c == 63 then 47 else PAD
  }

  /** `BASE64_DECODE_TABLE`. */
  function Index(ch: byte): byte {
    if 65 <= ch <= 90 then ch - 65 else if 97 <= ch <= 122 then ch - 71 else if 48 <= ch <= 57 then ch + 4
    else if ch == 43 then 62 else if ch == 47 then 63 else NV
  }

  /** The index the source uses for a character, converted from `char` to `int`. */
  function TableIndex(ch: byte, signed: bool): int {
    if signed && ch >= 128 then ch - 256 else ch
  }

  /** The table has 256 entries. */
  predicate InTable(index: int) {
    0 <= index < 256
  }

  // ---------- Encoding ----------

  function High6(b: byte): byte { b / 4 }
  function Low2(b: byte): byte { b % 4 * 16 }
  function High4(b: byte): byte { b / 16 }
  function Low4(b: byte): byte { b % 16 * 4 }
  function High2(b: byte): byte { b / 64 }
  function Low6(b: byte): byte { b % 64 }

  function Sextet0(a: byte): byte { High6(a) }
  function Sextet1(a: byte, b: byte): byte { OrBytes(Low2(a), High4(b)) }
  function Sextet2(b: byte, c: byte): byte { OrBytes(Low4(b), High2(c)) }
  function Sextet3(c: byte): byte { Low6(c) }

  /** The four characters for the next one, two or three bytes. */
  function Quad(data: seq<byte>): (text: seq<byte>)
    requires data != []
    ensures |text| == 4
  {
    if |data| == 1 then [Char(Sextet0(data[0])), Char(Sextet1(data[0], 0)), PAD, PAD]
    else if |data| == 2 then
      [Char(Sextet0(data[0])), Char(Sextet1(data[0], data[1])), Char(Sextet2(data[1], 0)), PAD]
    else
      [Char(Sextet0(data[0])), Char(Sextet1(data[0], data[1])), Char(Sextet2(data[1], data[2])), Char(Sextet3(data[2]))]
  }

  function Rest(data: seq<byte>): seq<byte>
    requires data != []
  {
    if |data| <= 3 then [] else data[3..]
  }

  function EncodeText(data: seq<byte>): (text: seq<byte>)
    decreases |data|
  {
    if data == [] then [] else Quad(data) + EncodeText(Rest(data))
  }

  lemma {:induction false} EncodedLength(data: seq<byte>)
    ensures |EncodeText(data)| == (|data| + 2) / 3 * 4
    decreases |data|
  {
    hide Quad;
    if data != [] {
      EncodedLength(Rest(data));
    }
  }

  // ---------- Decoding ----------

  function Shift2(c: byte): byte { c * 4 % 256 }
  function Shift4(c: byte): byte { c % 16 * 16 }
  function Shift6(c: byte): byte { c % 4 * 64 }
  function Down2(c: byte): byte { c / 4 }

  function Byte0(c0: byte, c1: byte): byte { OrBytes(Shift2(c0), High4(c1)) }
  function Byte1(c1: byte, c2: byte): byte { OrBytes(Shift4(c1), Down2(c2)) }
  function Byte2(c2: byte, c3: byte): byte { OrBytes(Shift6(c2), c3) }

  /** The bytes of one group of four table indices: fewer than three when the third or fourth is no digit. */
  function Bytes(c: seq<byte>): (data: seq<byte>)
    requires |c| == 4
    ensures 1 <= |data| <= 3
  {
    if c[2] >= NV then [Byte0(c[0], c[1])]
    else if c[3] >= NV then [Byte0(c[0], c[1]), Byte1(c[1], c[2])]
    else [Byte0(c[0], c[1]), Byte1(c[1], c[2]), Byte2(c[2], c[3])]
  }

  function Triple(text: seq<byte>): (data: seq<byte>)
    requires |text| >= 4
    ensures 1 <= |data| <= 3
  {
    Bytes([Index(text[0]), Index(text[1]), Index(text[2]), Index(text[3])])
  }

  /** Decoding stops after an incomplete group, and a rest shorter than four characters is ignored. */
  function DecodeText(text: seq<byte>): (data: seq<byte>)
    decreases |text|
  {
    if |text| < 4 then []
    else if |Triple(text)| < 3 then Triple(text)
    else Triple(text) + DecodeText(text[4..])
  }

  // ---------- Reads of the table ----------

  /** How many characters the loop looks up, given room for so many bytes. */
  function CharsRead(text: seq<byte>, room: nat): (n: nat)
    ensures n <= |text|
    decreases |text|
  {
    if |text| < 4 || room == 0 then 0
    else if |Triple(text)| < 3 then 4
    else 4 + CharsRead(text[4..], room - Min(3, room))
  }

  /** The first `n` characters index the table inside. */
  predicate Inside(text: seq<byte>, n: nat, signed: bool)
    requires n <= |text|
  {
    forall k :: 0 <= k < n ==> InTable(TableIndex(text[k], signed))
  }

  /** Every read of the table is inside it. */
  predicate ReadsInside(text: seq<byte>, room: nat, signed: bool) {
    Inside(text, CharsRead(text, room), signed)
  }

  /** Where `char` is signed, exactly if every character looked up is below 128; elsewhere always. */
  lemma ReadsInsideExactly(text: seq<byte>, room: nat, signed: bool)
    ensures ReadsInside(text, room, signed) <==> !signed || forall k :: 0 <= k < CharsRead(text, room) ==> text[k] < 128
  {
    hide CharsRead;
    if ReadsInside(text, room, signed) {
      forall k | signed && 0 <= k < CharsRead(text, room)
        ensures text[k] < 128
      {
        assert InTable(TableIndex(text[k], signed));
      }
    }
  }

  /** A text that makes the source read before the table. */
  lemma HighCharacterFails(room: nat)
    requires room > 0
    ensures !ReadsInside([200, 65, 65, 65], room, true) && TableIndex(200, true) == -56
  {
    var text: seq<byte> := [200, 65, 65, 65];
    assert CharsRead(text, room) == 4;
    assert !InTable(TableIndex(text[0], true));
  }

  lemma CharIsLow(c: byte)
    ensures Char(c) < 128
  {
  }

  lemma QuadIsLow(data: seq<byte>)
    requires data != []
    ensures forall k :: 0 <= k < 4 ==> Quad(data)[k] < 128
  {
    hide Char, Sextet0, Sextet1, Sextet2, Sextet3;
    var b := if |data| > 1 then data[1] else 0;
    var c := if |data| > 2 then data[2] else 0;
    CharIsLow(Sextet0(data[0]));
    CharIsLow(Sextet1(data[0], b));
    CharIsLow(Sextet2(b, c));
    CharIsLow(Sextet3(c));
  }

  lemma {:induction false} EncodingIsLow(data: seq<byte>)
    ensures forall k :: 0 <= k < |EncodeText(data)| ==> EncodeText(data)[k] < 128
    decreases |data|
  {
    hide Quad;
    if data != [] {
      QuadIsLow(data);
      EncodingIsLow(Rest(data));
    }
  }

  /** What was encoded is decoded without leaving the table, whatever the room and the kind of `char`. */
  lemma EncodingIsInside(data: seq<byte>, room: nat, signed: bool)
    ensures ReadsInside(EncodeText(data), room, signed)
  {
    hide EncodeText, CharsRead, ReadsInside;
    EncodingIsLow(data);
    ReadsInsideExactly(EncodeText(data), room, signed);
  }

  // ---------- Round trip ----------

  lemma IndexOfChar(c: byte)
    ensures c < 64 ==> Index(Char(c)) == c && Char(c) != PAD
    ensures Index(PAD) == NV
  {
  }

  lemma OrScaled(high: byte, low: byte)
    ensures high < 64 && low < 4 ==> OrBytes(high * 4, low) == high * 4 + low
    ensures high < 16 && low < 16 ==> OrBytes(high * 16, low) == high * 16 + low
    ensures high < 4 && low < 64 ==> OrBytes(high * 64, low) == high * 64 + low
  {
    hide Or;
    UpByTwos(high);
    UpByTwos(1);
    if low < 4 { OrDisjoint(high, low, 2); }
    if low < 16 { OrDisjoint(high, low, 4); }
    if low < 64 { OrDisjoint(high, low, 6); }
  }

  lemma UpByTwos(a: nat)
    ensures Up(a, 2) == 4 * a && Up(a, 4) == 16 * a && Up(a, 6) == 64 * a
  {
    assert Up(a, 1) == 2 * a;
    assert Up(a, 3) == 2 * Up(a, 2);
    assert Up(a, 5) == 2 * Up(a, 4);
  }

  /** The sextets are the digits to base 64 of the 24-bit number the bytes form. */
  lemma SextetValues(a: byte, b: byte, c: byte)
    ensures Sextet0(a) == a / 4 && Sextet1(a, b) == a % 4 * 16 + b / 16
    ensures Sextet2(b, c) == b % 16 * 4 + c / 64 && Sextet3(c) == c % 64
  {
    hide OrBytes;
    OrScaled(a % 4, b / 16);
    OrScaled(b % 16, c / 64);
  }

  lemma ByteValues(c0: byte, c1: byte, c2: byte, c3: byte)
    requires c0 < 64 && c1 < 64 && c2 < 64 && c3 < 64
    ensures Byte0(c0, c1) == c0 * 4 + c1 / 16 && Byte1(c1, c2) == c1 % 16 * 16 + c2 / 4
    ensures Byte2(c2, c3) == c2 % 4 * 64 + c3
  {
    hide OrBytes;
    OrScaled(c0, c1 / 16);
    OrScaled(c1 % 16, c2 / 4);
    OrScaled(c2 % 4, c3);
  }

  lemma SextetsAreDigits(a: byte, b: byte, c: byte)
    ensures Sextet0(a) < 64 && Sextet1(a, b) < 64 && Sextet2(b, c) < 64 && Sextet3(c) < 64
  {
    SextetValues(a, b, c);
  }

  lemma BytesOfSextets(a: byte, b: byte, c: byte)
    ensures Byte0(Sextet0(a), Sextet1(a, b)) == a
    ensures Byte1(Sextet1(a, b), Sextet2(b, c)) == b
    ensures Byte2(Sextet2(b, c), Sextet3(c)) == c
  {
    hide Sextet0, Sextet1, Sextet2, Sextet3, Byte0, Byte1, Byte2;
    SextetValues(a, b, c);
    ByteValues(Sextet0(a), Sextet1(a, b), Sextet2(b, c), Sextet3(c));
  }

  lemma IndicesOfQuad(data: seq<byte>)
    requires data != []
    ensures Triple(Quad(data)) == if |data| <= 3 then data else data[..3]
  {
    var a := data[0];
    var b := if |data| > 1 then data[1] else 0;
    var c := if |data| > 2 then data[2] else 0;
    SextetsAreDigits(a, b, c);
    BytesOfSextets(a, b, c);
    IndexOfChar(Sextet0(a));
    IndexOfChar(Sextet1(a, b));
    IndexOfChar(Sextet2(b, c));
    IndexOfChar(Sextet3(c));
    hide Index, Char, Sextet0, Sextet1, Sextet2, Sextet3, Byte0, Byte1, Byte2;
  }

  /** Decoding an encoding gives back the bytes. */
  lemma {:induction false} DecodeEncode(data: seq<byte>)
    ensures DecodeText(EncodeText(data)) == data
    decreases |data|
  {
    hide Index, Char, Sextet0, Sextet1, Sextet2, Sextet3, Byte0, Byte1, Byte2, Quad, Triple;
    if data != [] {
      var text := EncodeText(data);
      IndicesOfQuad(data);
      TripleOfPrefix(Quad(data), EncodeText(Rest(data)));
      assert text[4..] == EncodeText(Rest(data));
      DecodeEncode(Rest(data));
      assert |data| > 3 ==> data == data[..3] + data[3..];
    }
  }

  lemma TripleOfPrefix(group: seq<byte>, rest: seq<byte>)
    requires |group| == 4
    ensures Triple(group + rest) == Triple(group)
  {
    hide Index, Byte0, Byte1, Byte2;
  }

  // ---------- Lengths ----------

  /** `b64_size_t` is a 32-bit unsigned integer. */
  const U32: int := 0x1_0000_0000

  function EncodeLength(n: nat): nat
    requires n < U32
  {
    ((4 * n % U32) / 3 + 3) % U32 / 4 * 4
  }

  function DecodeLength(text: seq<byte>): nat
    requires |text| < U32
  {
    var pad := (if |text| > 1 && text[|text| - 2] == PAD then 1 else 0)
             + (if |text| > 0 && text[|text| - 1] == PAD then 1 else 0);
    (|text| / 4 * 3 - pad) % U32
  }

  /** The announced length is the encoder's exactly while the product with 4 fits in 32 bits. */
  lemma EncodeLengthIsExact(data: seq<byte>)
    requires |data| < U32
    ensures EncodeLength(|data|) == |EncodeText(data)| <==> |data| < 0x4000_0000
  {
    hide EncodeText;
    EncodedLength(data);
    RoundingUp(|data|);
  }

  lemma RoundingUp(n: nat)
    requires n < U32
    ensures EncodeLength(n) == (n + 2) / 3 * 4 <==> n < 0x4000_0000
  {
    if n < 0x4000_0000 {
      assert 4 * n % U32 == 4 * n;
      assert 4 * n / 3 + 3 < U32;
      assert (4 * n / 3 + 3) / 4 == (n + 2) / 3;
    } else {
      assert 4 * n % U32 <= 4 * n - U32;
    }
  }

  lemma PaddingOfQuad(data: seq<byte>)
    requires data != []
    ensures Quad(data)[3] == PAD <==> |data| < 3
    ensures Quad(data)[2] == PAD <==> |data| == 1
  {
    var b := if |data| > 1 then data[1] else 0;
    var c := if |data| > 2 then data[2] else 0;
    SextetsAreDigits(data[0], b, c);
    IndexOfChar(Sextet2(b, c));
    IndexOfChar(Sextet3(c));
    hide Index, Char, Sextet0, Sextet1, Sextet2, Sextet3;
  }

  lemma {:induction false} PaddingOfText(data: seq<byte>)
    requires data != []
    ensures |EncodeText(data)| >= 4
    ensures var text := EncodeText(data);
            && (text[|text| - 1] == PAD <==> |data| % 3 != 0)
            && (text[|text| - 2] == PAD <==> |data| % 3 == 1)
    decreases |data|
  {
    hide EncodeText, Quad;
    GroupOfText(data);
    var text := EncodeText(data);
    if |data| > 3 {
      PaddingOfText(data[3..]);
      SameEnd(text, EncodeText(data[3..]));
      LessThree(|data|);
    } else {
      PaddingOfQuad(data);
      NothingEncoded();
      assert text == text[..4] + text[4..] == Quad(data);
    }
  }

  lemma NothingEncoded()
    ensures EncodeText([]) == []
  {
  }

  lemma SameEnd(text: seq<byte>, rest: seq<byte>)
    requires |text| >= 4 && text[4..] == rest && |rest| >= 2
    ensures text[|text| - 1] == rest[|rest| - 1] && text[|text| - 2] == rest[|rest| - 2]
  {
  }

  lemma LessThree(n: nat)
    requires n > 3
    ensures (n - 3) % 3 == n % 3
  {
  }

  /** The length announced for an encoding is the number of bytes encoded. */
  lemma DecodeLengthIsExact(data: seq<byte>)
    requires |EncodeText(data)| < U32
    ensures DecodeLength(EncodeText(data)) == |data|
  {
    hide EncodeText, Quad, DecodeLength;
    var n, text := |data|, EncodeText(data);
    EncodedLength(data);
    if n > 0 {
      PaddingOfText(data);
    }
    PaddedLength(n);
    DecodeLengthOf(text, if n % 3 == 1 then 2 else if n % 3 == 2 then 1 else 0);
  }

  lemma DecodeLengthOf(text: seq<byte>, pad: nat)
    requires |text| < U32 && |text| != 1 && pad <= |text| / 4 * 3
    requires pad == 0 ==> |text| > 1 ==> text[|text| - 1] != PAD && text[|text| - 2] != PAD
    requires pad == 1 ==> |text| > 1 && text[|text| - 1] == PAD && text[|text| - 2] != PAD
    requires pad >= 2 ==> pad == 2 && |text| > 1 && text[|text| - 1] == PAD && text[|text| - 2] == PAD
    ensures DecodeLength(text) == |text| / 4 * 3 - pad
  {
  }

  lemma PaddedLength(n: nat)
    ensures (n + 2) / 3 * 4 / 4 * 3 - (if n % 3 == 1 then 2 else if n % 3 == 2 then 1 else 0) == n
  {
  }

  // ---------- The loops of the source ----------

  function Min(a: nat, b: nat): nat {
    if a <= b then a else b
  }

  function Chars(c: seq<byte>): (text: seq<byte>)
    ensures |text| == |c| && forall i :: 0 <= i < |c| ==> text[i] == Char(c[i])
  {
    seq(|c|, i requires 0 <= i < |c| => Char(c[i]))
  }

  /** The four table indices of a group. */
  function Indices(data: seq<byte>): (c: seq<byte>)
    requires data != []
    ensures |c| == 4
  {
    var c0 := High6(data[0]);
    if |data| == 1 then [c0, Low2(data[0]), 64, 64]
    else if |data| == 2 then [c0, OrBytes(Low2(data[0]), High4(data[1])), Low4(data[1]), 64]
    else [c0, OrBytes(Low2(data[0]), High4(data[1])), OrBytes(Low4(data[1]), High2(data[2])), Low6(data[2])]
  }

  lemma CharsOfIndices(data: seq<byte>)
    requires data != []
    ensures Chars(Indices(data)) == Quad(data)
  {
    hide Char, High6, Low2, High4, Low4, High2, Low6, OrBytes;
    CharOf64();
    Masks(data[0], if |data| > 1 then data[1] else 0);
  }

  /** The four table indices for the next bytes of the input. */
  method NextGroup(input: array<byte>, inLen: nat, start: nat, left: nat) returns (c: seq<byte>, at: nat, remaining: nat)
    requires 0 < left <= inLen <= input.Length && start == inLen - left
    ensures |c| == 4 && Chars(c) == Quad(input[start..inLen])
    ensures remaining == left - Min(3, left)
    ensures remaining > 0 ==> at == inLen - remaining
  {
    hide Char, Chars, Quad, High6, Low2, High4, Low4, High2, Low6;
    CharsOfIndices(input[start..inLen]);
    at, remaining := start, left;
    var c2, c3: byte := 64, 64;
    var i := input[at];
    var c0 := High6(i);
    var c1 := Low2(i);
    remaining := remaining - 1;
    if remaining > 0 {
      at := at + 1;
      i := input[at];
      c1 := OrBytes(c1, High4(i));
      c2 := Low4(i);
      remaining := remaining - 1;
      if remaining > 0 {
        at := at + 1;
        i := input[at];
        c2 := OrBytes(c2, High2(i));
        c3 := Low6(i);
        remaining := remaining - 1;
        at := at + 1;
      }
    }
    c := [c0, c1, c2, c3];
  }

  lemma CharOf64()
    ensures Char(64) == PAD
  {
  }

  lemma Masks(a: byte, b: byte)
    ensures Sextet1(a, 0) == Low2(a) && Sextet2(b, 0) == Low4(b)
  {
    SextetValues(a, 0, 0);
    SextetValues(0, b, 0);
  }

  /** None if the 32-bit counter of the source wraps around, which takes a text and room of more than 2^32 - 4; it then
      writes behind its room.  Otherwise the length of the text when there is room for it, and without room 0, unless
      `outLen` is a multiple of four: then the groups that fit are reported as if they were everything.  Whole groups
      are written, then a NUL if a cell is left after the text, and nothing else. */
  method Encode(out: array<byte>, outLen: nat, input: array<byte>, inLen: nat) returns (ret: Option<nat>)
    requires outLen <= out.Length && inLen <= input.Length && outLen < U32 && inLen < U32
    requires out != input
    modifies out
    ensures ret.None? <==> outLen > U32 - 4 && |EncodeText(input[..inLen])| > U32 - 4
    ensures var text := EncodeText(input[..inLen]);
            ret.Some? ==> ret.value == if |text| <= outLen then |text| else if outLen % 4 == 0 then outLen else 0
    ensures var text := EncodeText(input[..inLen]); var n := Min(|text|, outLen / 4 * 4);
            ret.Some? ==> out[..] == Written(text, old(out[..]), n, |text| < outLen)
    ensures var text := EncodeText(input[..inLen]); var n := Min(|text|, outLen / 4 * 4);
            ret.Some? ==> forall k :: 0 <= k < out.Length ==>
                            out[k] == if k < n then text[k] else if k == n && |text| < outLen then 0 else old(out[k])
  {
    hide Encoding, EncodeText, Written;
    ghost var before := out[..];
    ghost var text := EncodeText(input[..inLen]);
    var outCount: nat, remaining: nat, at: nat, to: nat := 0, inLen, 0, 0;
    EncodingStart(input[..inLen], before, outLen);
    while remaining > 0 && outCount < outLen
      invariant Encoding(out[..], text, before, input[..inLen], remaining, at, outCount, to, outLen) && outCount < U32
      decreases remaining
    {
      EncodeReady(out[..], text, before, input[..inLen], remaining, at, outCount, to, outLen);
      if outCount + 4 >= U32 {
        return None;
      }
      outCount, remaining, at, to := EncodeStep(out, outLen, input, inLen, outCount, remaining, at, to, before);
    }
    WroteAll(out[..], text, before, input[..inLen], remaining, at, outCount, to, outLen);
    var length := FinishEncoding(out, outLen, outCount, to, input[..inLen], remaining, at, before);
    CellByCell(text, before, Min(|text|, outLen / 4 * 4), |text| < outLen);
    ret := Some(length);
  }

  /** Short of the limit the loop does not end before the text. */
  lemma WroteAll(cells: seq<byte>, text: seq<byte>, before: seq<byte>, data: seq<byte>, remaining: nat, at: nat,
                 outCount: nat, to: nat, outLen: nat)
    requires Encoding(cells, text, before, data, remaining, at, outCount, to, outLen)
    requires (remaining == 0 || outCount >= outLen) && outCount < U32
    ensures outLen > U32 - 4 ==> |text| <= U32 - 4
  {
    hide EncodeText, Overlay;
    if remaining == 0 {
      assert data[|data|..] == [];
      NothingEncoded();
    }
  }

  /** The text so far is written, up to a group that did not fit, and the rest of the data gives the rest of it. */
  ghost predicate Encoding(cells: seq<byte>, text: seq<byte>, before: seq<byte>, data: seq<byte>, remaining: nat,
                           at: nat, outCount: nat, to: nat, outLen: nat)
  {
    && outLen <= |before| && text == EncodeText(data)
    && remaining <= |data| && (remaining > 0 ==> at == |data| - remaining)
    && outCount % 4 == 0 && outCount <= |text| && text[outCount..] == EncodeText(data[|data| - remaining..])
    && to == (if outCount <= outLen then outCount else outCount - 4)
    && to <= outLen && outCount < outLen + 4
    && cells == Overlay(text, before, to)
  }

  lemma EncodingStart(data: seq<byte>, before: seq<byte>, outLen: nat)
    requires outLen <= |before|
    ensures Encoding(before, EncodeText(data), before, data, |data|, 0, 0, 0, outLen)
  {
    hide EncodeText;
    OverlayEnds(EncodeText(data), before);
    assert data[0..] == data;
  }

  /** One turn of the loop. */
  method EncodeStep(out: array<byte>, outLen: nat, input: array<byte>, inLen: nat, outCount: nat, remaining: nat,
                    at: nat, to: nat, ghost before: seq<byte>)
    returns (outCount': nat, remaining': nat, at': nat, to': nat)
    requires outLen <= out.Length == |before| && inLen <= input.Length && out != input
    requires remaining > 0 && outCount < outLen
    requires Encoding(out[..], EncodeText(input[..inLen]), before, input[..inLen], remaining, at, outCount, to, outLen)
    modifies out
    ensures remaining' < remaining && outCount' == outCount + 4
    ensures Encoding(out[..], EncodeText(input[..inLen]), before, input[..inLen], remaining', at', outCount', to',
                     outLen)
  {
    hide Encoding, EncodeText, Char, Chars, Quad, Overlay;
    ghost var data, was := input[..inLen], out[..];
    ghost var text := EncodeText(data);
    EncodeReady(was, text, before, data, remaining, at, outCount, to, outLen);
    ghost var quad := Quad(data[at..]);
    assert data[at..] == input[at..inLen];
    var c;
    c, at', remaining' := NextGroup(input, inLen, at, remaining);
    assert forall i :: 0 <= i < 4 ==> text[to + i] == quad[i] == Char(c[i]);
    outCount' := outCount + 4;
    to' := WriteGroup(out, outLen, outCount', c, to, text, before);
    EncodeAdvance(was, out[..], text, before, data, remaining, at, outCount, to, outLen, at', to');
  }

  /** What the turn finds. */
  lemma EncodeReady(cells: seq<byte>, text: seq<byte>, before: seq<byte>, data: seq<byte>, remaining: nat, at: nat,
                    outCount: nat, to: nat, outLen: nat)
    requires Encoding(cells, text, before, data, remaining, at, outCount, to, outLen)
    requires remaining > 0 && outCount < outLen
    ensures to == outCount && outCount % 4 == 0 && outCount + 4 <= |text| == (|data| + 2) / 3 * 4
    ensures at == |data| - remaining && outLen <= |before| && cells == Overlay(text, before, to)
    ensures forall i :: 0 <= i < 4 ==> text[to + i] == Quad(data[at..])[i]
  {
    hide EncodeText, Quad, Overlay;
    EncodeTurn(data, text, remaining, outCount);
  }

  /** What it leaves. */
  lemma EncodeAdvance(cells: seq<byte>, cells': seq<byte>, text: seq<byte>, before: seq<byte>, data: seq<byte>,
                      remaining: nat, at: nat, outCount: nat, to: nat, outLen: nat, at': nat, to': nat)
    requires Encoding(cells, text, before, data, remaining, at, outCount, to, outLen)
    requires remaining > 0 && outCount < outLen && outCount + 4 <= |text|
    requires var left := remaining - Min(3, remaining); left > 0 ==> at' == |data| - left
    requires to' == (if outCount + 4 <= outLen then outCount + 4 else to) && to' <= |text| && to' <= |before|
    requires cells' == Overlay(text, before, to')
    ensures Encoding(cells', text, before, data, remaining - Min(3, remaining), at', outCount + 4, to', outLen)
  {
    hide EncodeText, Quad, Overlay;
    EncodeTurn(data, text, remaining, outCount);
  }

  method FinishEncoding(out: array<byte>, outLen: nat, outCount: nat, to: nat, ghost data: seq<byte>,
                        ghost remaining: nat, ghost at: nat, ghost before: seq<byte>) returns (ret: nat)
    requires outLen <= out.Length == |before| && (remaining == 0 || outCount >= outLen)
    requires Encoding(out[..], EncodeText(data), before, data, remaining, at, outCount, to, outLen)
    modifies out
    ensures var text := EncodeText(data);
            ret == if |text| <= outLen then |text| else if outLen % 4 == 0 then outLen else 0
    ensures var text := EncodeText(data); var n := Min(|text|, outLen / 4 * 4);
            out[..] == Written(text, before, n, |text| < outLen)
  {
    hide EncodeText, Overlay, Written;
    ghost var text := EncodeText(data);
    EncodedLength(data[|data| - remaining..]);
    assert |text| == outCount + |text[outCount..]|;
    RoomLeft(|text|, outCount, outLen, remaining, to);
    OverlayWritten(text, before, to);
    ret := 0;
    if outCount <= outLen {
      if outCount < outLen {
        out[to] := 0;
      }
      ret := outCount;
    }
  }

  /** One turn of the loop: the next four characters of the text, and what is left to it. */
  lemma EncodeTurn(data: seq<byte>, text: seq<byte>, remaining: nat, outCount: nat)
    requires 0 < remaining <= |data| && outCount <= |text| && text == EncodeText(data)
    requires text[outCount..] == EncodeText(data[|data| - remaining..])
    ensures var rest, left := data[|data| - remaining..], remaining - Min(3, remaining);
            && outCount + 4 <= |text| && (forall i :: 0 <= i < 4 ==> text[outCount + i] == Quad(rest)[i])
            && text[outCount + 4..] == EncodeText(data[|data| - left..])
    ensures |text| == (|data| + 2) / 3 * 4
  {
    hide Quad, EncodeText;
    var rest := data[|data| - remaining..];
    GroupOfText(rest);
    SplitSuffix(text, outCount, 4);
    assert Rest(rest) == data[|data| - (remaining - Min(3, remaining))..];
    EncodedLength(data);
  }

  /** The inner loop: a group that does not fit is not written at all. */
  method WriteGroup(out: array<byte>, outLen: nat, outCount: nat, c: seq<byte>, start: nat,
                    ghost text: seq<byte>, ghost before: seq<byte>) returns (to: nat)
    requires |c| == 4 && outLen <= out.Length && 4 <= outCount <= |text| && start == outCount - 4
    requires forall i :: 0 <= i < 4 ==> text[start + i] == Char(c[i])
    requires |before| == out.Length && start <= outLen && out[..] == Overlay(text, before, start)
    modifies out
    ensures to == if outCount <= outLen then outCount else start
    ensures out[..] == Overlay(text, before, to)
  {
    hide Char, Overlay;
    to := start;
    var i := 0;
    while i < 4 && outCount <= outLen
      invariant 0 <= i <= 4 && to == (if outCount <= outLen then start + i else start)
      invariant out[..] == Overlay(text, before, to)
    {
      OverlayStep(text, before, to);
      out[to] := Char(c[i]);
      i, to := i + 1, to + 1;
    }
  }

  lemma RoomLeft(length: nat, outCount: nat, outLen: nat, remaining: nat, to: nat)
    requires length == outCount + (remaining + 2) / 3 * 4 && outCount % 4 == 0
    requires remaining == 0 || outCount >= outLen
    requires outCount < outLen + 4
    requires to == if outCount <= outLen then outCount else outCount - 4
    ensures to == Min(length, outLen / 4 * 4)
    ensures outCount <= outLen ==> outCount == if length <= outLen then length else outLen
    ensures outCount > outLen ==> length > outLen && outLen % 4 != 0
    ensures length < outLen <==> outCount < outLen
  {
  }

  /** What a call leaves in the output: `n` cells written, then a NUL if `terminated`, the rest untouched. */
  function Written(text: seq<byte>, before: seq<byte>, n: nat, terminated: bool): seq<byte>
    requires n <= |text| && n <= |before| && (terminated ==> n < |before|)
  {
    text[..n] + if terminated then [0] + before[n + 1..] else before[n..]
  }

  lemma CellByCell(text: seq<byte>, before: seq<byte>, n: nat, terminated: bool)
    requires n <= |text| && n <= |before| && (terminated ==> n < |before|)
    ensures var cells := Written(text, before, n, terminated);
            && |cells| == |before|
            && forall k :: 0 <= k < |cells| ==>
                             cells[k] == if k < n then text[k] else if k == n && terminated then 0 else before[k]
  {
  }

  /** The first `n` cells hold the text, the others what they held before. */
  function Overlay(text: seq<byte>, before: seq<byte>, n: nat): (cells: seq<byte>)
    requires n <= |text| && n <= |before|
    ensures |cells| == |before|
  {
    text[..n] + before[n..]
  }

  lemma OverlayWritten(text: seq<byte>, before: seq<byte>, n: nat)
    requires n <= |text| && n <= |before|
    ensures Overlay(text, before, n) == Written(text, before, n, false)
    ensures n < |before| ==> Overlay(text, before, n)[n := 0] == Written(text, before, n, true)
  {
  }

  lemma OverlayEnds(text: seq<byte>, before: seq<byte>)
    ensures Overlay(text, before, 0) == before
  {
  }

  lemma OverlayStep(text: seq<byte>, before: seq<byte>, n: nat)
    requires n < |text| && n < |before|
    ensures Overlay(text, before, n)[n := text[n]] == Overlay(text, before, n + 1)
  {
  }

  lemma SplitSuffix(text: seq<byte>, from: nat, n: nat)
    requires from <= |text|
    ensures from + n <= |text| ==>
              text[from..][n..] == text[from + n..] && forall i :: 0 <= i < n ==> text[from + i] == text[from..][..n][i]
  {
  }

  /** None if the source reads outside its table, which leaves the result undefined; otherwise at most `outLen` bytes of
      the decoding, then a NUL if a cell is left, and nothing else. */
  method Decode(out: array<byte>, outLen: nat, input: array<byte>, inLen: nat, signed: bool)
    returns (ret: Option<nat>)
    requires outLen <= out.Length && inLen <= input.Length
    requires out != input
    modifies out
    ensures ret.Some? <==> ReadsInside(input[..inLen], outLen, signed)
    ensures ret.Some? ==> ret.value == Min(|DecodeText(input[..inLen])|, outLen)
    ensures ret.Some? ==>
              out[..] == Written(DecodeText(input[..inLen]), old(out[..]), ret.value, ret.value < outLen)
    ensures var data := DecodeText(input[..inLen]);
            ret.Some? ==> forall k :: 0 <= k < out.Length ==>
                            out[k] == if k < ret.value then data[k]
                                      else if k == ret.value && ret.value < outLen then 0 else old(out[k])
  {
    hide Decoding, DecodeText, Written, ReadsInside;
    ghost var before := out[..];
    var outCount: nat, remaining: nat, at: nat := 0, inLen, 0;
    DecodingStart(input[..inLen], before, outLen, signed);
    while remaining > 3 && outCount < outLen
      invariant Decoding(out[..], input[..inLen], before, at, remaining, outCount, outLen, signed)
      decreases remaining
    {
      var inside;
      inside, outCount, remaining, at :=
        DecodeStep(out, outLen, input, inLen, outCount, remaining, at, signed, before);
      if !inside {
        return None;
      }
    }
    DecodingEnd(out[..], input[..inLen], before, at, remaining, outCount, outLen, signed);
    ret := Some(outCount);
    if outCount < outLen {
      out[outCount] := 0;
    }
    CellByCell(DecodeText(input[..inLen]), before, outCount, outCount < outLen);
  }

  /** What the loop still has to read: nothing after a group that was not full. */
  function Left(text: seq<byte>, at: nat, remaining: nat): seq<byte>
    requires at <= |text|
  {
    if remaining == 0 then [] else text[at..]
  }

  lemma InsideMore(text: seq<byte>, n: nat, signed: bool)
    requires n + 4 <= |text| && Inside(text, n, signed)
    requires forall k :: n <= k < n + 4 ==> InTable(TableIndex(text[k], signed))
    ensures Inside(text, n + 4, signed)
  {
    hide InTable, TableIndex;
  }

  /** The data so far is written, perhaps with half a byte behind it, every read was inside the table, and the rest of
      the text gives the rest of the data and of the reads. */
  ghost predicate Decoding(cells: seq<byte>, text: seq<byte>, before: seq<byte>, at: nat, remaining: nat, outCount: nat,
                           outLen: nat, signed: bool)
  {
    var data := DecodeText(text);
    && at + remaining <= |text| && (remaining > 0 ==> at + remaining == |text|)
    && outCount <= outLen && outCount <= |data|
    && (outCount < outLen ==> data[outCount..] == DecodeText(Left(text, at, remaining)))
    && CharsRead(text, outLen) == at + CharsRead(Left(text, at, remaining), outLen - outCount)
    && Inside(text, at, signed)
    && Dirty(cells, data, before, outCount, outLen)
  }

  lemma DecodingStart(text: seq<byte>, before: seq<byte>, outLen: nat, signed: bool)
    requires outLen <= |before|
    ensures Decoding(before, text, before, 0, |text|, 0, outLen, signed)
  {
    hide DecodeText, CharsRead, Dirty;
    assert text[0..] == text;
    DirtyStart(DecodeText(text), before, outLen);
  }

  lemma DecodingEnd(cells: seq<byte>, text: seq<byte>, before: seq<byte>, at: nat, remaining: nat, outCount: nat,
                    outLen: nat, signed: bool)
    requires Decoding(cells, text, before, at, remaining, outCount, outLen, signed)
    requires remaining <= 3 || outCount >= outLen
    ensures ReadsInside(text, outLen, signed)
    ensures outCount == Min(|DecodeText(text)|, outLen) && outLen <= |before| == |cells|
    ensures outCount < outLen ==> cells[outCount := 0] == Written(DecodeText(text), before, outCount, true)
    ensures outCount == outLen ==> cells == Written(DecodeText(text), before, outCount, false)
  {
    hide DecodeText, CharsRead, Dirty, Written, InTable, TableIndex;
    var rest := Left(text, at, remaining);
    NothingRead(rest, outLen - outCount);
    if remaining <= 3 {
      ShortText(rest);
    }
    DirtyIsAsLong(cells, DecodeText(text), before, outCount, outLen);
    DirtyWritten(cells, DecodeText(text), before, outCount, outLen);
  }

  lemma DirtyIsAsLong(cells: seq<byte>, data: seq<byte>, before: seq<byte>, n: nat, outLen: nat)
    requires Dirty(cells, data, before, n, outLen)
    ensures |cells| == |before| && n <= |data| && n <= outLen <= |before|
  {
  }

  /** One turn of the loop. */
  method DecodeStep(out: array<byte>, outLen: nat, input: array<byte>, inLen: nat, outCount: nat, remaining: nat,
                    at: nat, signed: bool, ghost before: seq<byte>)
    returns (inside: bool, outCount': nat, remaining': nat, at': nat)
    requires outLen <= out.Length == |before| && inLen <= input.Length && out != input
    requires remaining > 3 && outCount < outLen
    requires Decoding(out[..], input[..inLen], before, at, remaining, outCount, outLen, signed)
    modifies out
    ensures !inside ==> !ReadsInside(input[..inLen], outLen, signed)
    ensures inside ==>
              && remaining' < remaining
              && Decoding(out[..], input[..inLen], before, at', remaining', outCount', outLen, signed)
  {
    hide Decoding, Index, Bytes, Triple, DecodeText, Dirty, CharsRead, InTable, TableIndex, ReadsInside;
    ghost var text, was := input[..inLen], out[..];
    DecodeReady(was, text, before, at, remaining, outCount, outLen, signed);
    ghost var data, rest := DecodeText(text), text[at..];
    var c;
    inside, c := LookUp(input, at, signed);
    outCount', remaining', at' := outCount, remaining, at;
    assert forall k :: at <= k < at + 4 ==> text[k] == input[k];
    if !inside {
      OutsideRead(text, outLen, signed, at);
      return;
    }
    TripleOf(rest, c);
    var stop;
    outCount', stop := DecodeGroup(out, outLen, outCount, c, data, before);
    at', remaining' := at + 4, if stop then 0 else remaining - 4;
    DecodeAdvance(was, out[..], text, before, at, remaining, outCount, outLen, signed, outCount', remaining');
  }

  lemma OutsideRead(text: seq<byte>, outLen: nat, signed: bool, at: nat)
    requires at + 4 <= CharsRead(text, outLen)
    requires !forall k :: at <= k < at + 4 ==> InTable(TableIndex(text[k], signed))
    ensures !ReadsInside(text, outLen, signed)
  {
    hide CharsRead, InTable, TableIndex;
  }

  /** What the turn finds. */
  lemma DecodeReady(cells: seq<byte>, text: seq<byte>, before: seq<byte>, at: nat, remaining: nat, outCount: nat,
                    outLen: nat, signed: bool)
    requires Decoding(cells, text, before, at, remaining, outCount, outLen, signed)
    requires remaining > 3 && outCount < outLen
    ensures at + remaining == |text| && at + 4 <= CharsRead(text, outLen)
    ensures var data, group := DecodeText(text), Triple(text[at..]);
            outCount + |group| <= |data| && forall i :: 0 <= i < |group| ==> data[outCount + i] == group[i]
    ensures Dirty(cells, DecodeText(text), before, outCount, outLen)
  {
    hide Triple, DecodeText, CharsRead, Inside, Dirty;
    var rest := text[at..];
    GroupOfData(rest);
    AtLeastFour(rest, outLen - outCount);
    SplitSuffix(DecodeText(text), outCount, |Triple(rest)|);
  }

  /** What it leaves. */
  lemma DecodeAdvance(cells: seq<byte>, cells': seq<byte>, text: seq<byte>, before: seq<byte>, at: nat, remaining: nat,
                      outCount: nat, outLen: nat, signed: bool, outCount': nat, remaining': nat)
    requires Decoding(cells, text, before, at, remaining, outCount, outLen, signed)
    requires remaining > 3 && outCount < outLen
    requires forall k :: at <= k < at + 4 ==> k < |text| && InTable(TableIndex(text[k], signed))
    requires at + 4 <= |text| && outCount' == Min(outCount + |Triple(text[at..])|, outLen)
    requires remaining' == remaining - 4 || remaining' == 0
    requires outCount' < outLen ==> remaining' == if |Triple(text[at..])| < 3 then 0 else remaining - 4
    requires Dirty(cells', DecodeText(text), before, outCount', outLen)
    ensures Decoding(cells', text, before, at + 4, remaining', outCount', outLen, signed)
  {
    hide Triple, DecodeText, CharsRead, InTable, TableIndex, Inside, Dirty;
    var data, rest, left := DecodeText(text), text[at..], Left(text, at + 4, remaining');
    assert left == if remaining' == 0 then [] else rest[4..];
    ShortText([]);
    DataLeft(data, rest, left, outCount, outCount', outLen);
    TurnRead(rest, outLen - outCount, left, outLen - outCount');
    InsideMore(text, at, signed);
    DirtyIsAsLong(cells', data, before, outCount', outLen);
  }

  /** The rest of the data comes from the rest of the text. */
  lemma DataLeft(data: seq<byte>, rest: seq<byte>, left: seq<byte>, outCount: nat, outCount': nat, outLen: nat)
    requires |rest| >= 4 && outCount < outLen && outCount <= |data| && data[outCount..] == DecodeText(rest)
    requires outCount' == Min(outCount + |Triple(rest)|, outLen)
    requires outCount' < outLen ==> left == if |Triple(rest)| < 3 then [] else rest[4..]
    ensures outCount' <= |data| && (outCount' < outLen ==> data[outCount'..] == DecodeText(left))
  {
    hide Triple, DecodeText;
    GroupOfData(rest);
    SplitSuffix(data, outCount, |Triple(rest)|);
    ShortText([]);
  }

  /** The four table entries of a group, unless a read is outside the table. */
  method LookUp(input: array<byte>, at: nat, signed: bool) returns (inside: bool, c: seq<byte>)
    requires at + 4 <= input.Length
    ensures inside <==> forall k :: at <= k < at + 4 ==> InTable(TableIndex(input[k], signed))
    ensures inside ==> c == [Index(input[at]), Index(input[at + 1]), Index(input[at + 2]), Index(input[at + 3])]
  {
    hide Index;
    c := [];
    for i := 0 to 4
      invariant |c| == i && forall k :: 0 <= k < i ==> c[k] == Index(input[at + k])
      invariant forall k :: at <= k < at + i ==> InTable(TableIndex(input[k], signed))
    {
      var index := TableIndex(input[at + i], signed);
      if !InTable(index) {
        return false, [];
      }
      c := c + [Index(index)];
    }
    inside := true;
  }

  /** What one turn of the loop reads, and what is left to it. */
  lemma TurnRead(text: seq<byte>, room: nat, left: seq<byte>, roomLeft: nat)
    requires |text| >= 4 && room > 0 && roomLeft == room - Min(|Triple(text)|, room)
    requires roomLeft > 0 ==> left == if |Triple(text)| < 3 then [] else text[4..]
    ensures CharsRead(text, room) == 4 + CharsRead(left, roomLeft)
  {
    hide Triple;
  }

  lemma AtLeastFour(text: seq<byte>, room: nat)
    requires |text| >= 4 && room > 0
    ensures CharsRead(text, room) >= 4
  {
    hide Triple;
  }

  lemma NothingRead(text: seq<byte>, room: nat)
    requires |text| <= 3 || room == 0
    ensures CharsRead(text, room) == 0
  {
  }

  /** The cells hold `n` bytes of the data, and perhaps a half-written byte after them. */
  ghost predicate Dirty(cells: seq<byte>, data: seq<byte>, before: seq<byte>, n: nat, outLen: nat) {
    && |cells| == |before| && n <= |data| && n <= outLen <= |before|
    && cells == if n < outLen then Overlay(data, before, n)[n := cells[n]] else Overlay(data, before, n)
  }

  lemma DirtyStart(data: seq<byte>, before: seq<byte>, outLen: nat)
    requires outLen <= |before|
    ensures Dirty(before, data, before, 0, outLen)
  {
  }

  lemma DirtyWritten(cells: seq<byte>, data: seq<byte>, before: seq<byte>, n: nat, outLen: nat)
    requires Dirty(cells, data, before, n, outLen)
    ensures n <= |data| && n <= |before|
    ensures n < outLen ==> n < |before| && |cells| == |before| && cells[n := 0] == Written(data, before, n, true)
    ensures n == outLen ==> cells == Written(data, before, n, false)
  {
    OverlayWritten(data, before, n);
  }

  lemma TripleOf(text: seq<byte>, c: seq<byte>)
    requires |text| >= 4 && c == [Index(text[0]), Index(text[1]), Index(text[2]), Index(text[3])]
    ensures Bytes(c) == Triple(text)
  {
    hide Index, Bytes;
  }

  lemma DirtyWrite(cells: seq<byte>, data: seq<byte>, before: seq<byte>, n: nat, outLen: nat, x: byte)
    requires Dirty(cells, data, before, n, outLen) && n < outLen
    ensures Dirty(cells[n := x], data, before, n, outLen)
    ensures n < |data| && x == data[n] ==> Dirty(cells[n := x], data, before, n + 1, outLen)
  {
    if n < |data| && x == data[n] {
      OverlayStep(data, before, n);
      assert cells[n := x] == Overlay(data, before, n + 1);
    }
  }

  /** The body of the loop, from the four table indices on. */
  method DecodeGroup(out: array<byte>, outLen: nat, start: nat, c: seq<byte>,
                     ghost data: seq<byte>, ghost before: seq<byte>) returns (outCount: nat, stop: bool)
    requires |c| == 4 && outLen <= out.Length && start < outLen
    requires start + |Bytes(c)| <= |data|
    requires forall i :: 0 <= i < |Bytes(c)| ==> data[start + i] == Bytes(c)[i]
    requires Dirty(out[..], data, before, start, outLen)
    modifies out
    ensures outCount == Min(start + |Bytes(c)|, outLen)
    ensures outCount < outLen ==> (stop <==> |Bytes(c)| < 3)
    ensures Dirty(out[..], data, before, outCount, outLen)
  {
    hide Shift2, Shift4, Shift6, Down2, High4, Dirty, Overlay;
    outCount, stop := start, false;
    assert data[start + 0] == Bytes(c)[0];
    assert |Bytes(c)| > 1 ==> data[start + 1] == Bytes(c)[1];
    assert |Bytes(c)| > 2 ==> data[start + 2] == Bytes(c)[2];
    Put(out, outLen, outCount, Shift2(c[0]), data, before);
    Put(out, outLen, outCount, OrBytes(out[outCount], High4(c[1])), data, before);
    outCount := outCount + 1;
    if outCount < outLen {
      Put(out, outLen, outCount, Shift4(c[1]), data, before);
      if c[2] < NV {
        Put(out, outLen, outCount, OrBytes(out[outCount], Down2(c[2])), data, before);
        outCount := outCount + 1;
        if outCount < outLen {
          Put(out, outLen, outCount, Shift6(c[2]), data, before);
          if c[3] < NV {
            Put(out, outLen, outCount, OrBytes(out[outCount], c[3]), data, before);
            outCount := outCount + 1;
          } else {
            stop := true;
          }
        }
      } else {
        stop := true;
      }
    }
  }

  /** Write one cell, in bounds; the byte counts once it is complete. */
  method Put(out: array<byte>, outLen: nat, n: nat, x: byte, ghost data: seq<byte>, ghost before: seq<byte>)
    requires n < outLen <= out.Length && Dirty(out[..], data, before, n, outLen)
    modifies out
    ensures out[n] == x && Dirty(out[..], data, before, n, outLen)
    ensures n < |data| && x == data[n] ==> Dirty(out[..], data, before, n + 1, outLen)
  {
    hide Dirty;
    DirtyWrite(out[..], data, before, n, outLen, x);
    out[n] := x;
  }

  lemma GroupOfText(data: seq<byte>)
    requires data != []
    ensures |EncodeText(data)| >= 4
    ensures EncodeText(data)[..4] == Quad(data) && EncodeText(data)[4..] == EncodeText(Rest(data))
  {
    hide Quad;
  }

  lemma GroupOfData(text: seq<byte>)
    requires |text| >= 4
    ensures var data, group := DecodeText(text), Triple(text);
            && |data| >= |group| && data[..|group|] == group
            && data[|group|..] == if |group| < 3 then [] else DecodeText(text[4..])
  {
    hide Triple;
  }

  lemma ShortText(text: seq<byte>)
    requires |text| <= 3
    ensures DecodeText(text) == []
  {
  }
}
