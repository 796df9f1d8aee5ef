/** The codec of Base64.c against RFC 4648, section 4: its alphabet and its groups of 24 bits. */
module Base64Standard {
  import opened Base64

  const CAPITALS := "ABCDEFGHIJKLMNOPQRSTUVWXYZ"
  const LETTERS := "abcdefghijklmnopqrstuvwxyz"
  const OTHERS := "0123456789+/"

  /** Table 1 of the standard: the character for a value. */
  function Letter(k: nat): byte
    requires k < 64
  {
    var c := if k < 26 then CAPITALS[k] else if k < 52 then LETTERS[k - 26] else OTHERS[k - 52];
    Code(c)
  }

  function Code(c: char): byte {
    c as nat % 256
  }

  lemma CapitalsAre(k: nat)
    requires k < 26
    ensures CAPITALS[k] as nat == 65 + k
  {
  }

  lemma LettersAre(k: nat)
    requires k < 26
    ensures LETTERS[k] as nat == 97 + k
  {
  }

  lemma LetterIs(k: nat)
    requires k < 64
    ensures Letter(k) == Char(k) && Index(Letter(k)) == k
  {
    if k < 26 {
      CapitalsAre(k);
    } else if k < 52 {
      LettersAre(k - 26);
    }
    hide CAPITALS, LETTERS;
  }

  /** Both tables hold the alphabet: the one the characters and '=' behind them, the other their places, and 64 for
      every other character. */
  lemma TablesHoldAlphabet(c: byte)
    ensures c < 64 ==> Char(c) == Letter(c)
    ensures Char(64) == PAD == Code('=')
    ensures if Index(c) < 64 then Letter(Index(c)) == c
            else Index(c) == 64 && forall k :: 0 <= k < 64 ==> Letter(k) != c
  {
    hide Letter;
    if c < 64 {
      LetterIs(c);
    }
    if Index(c) < 64 {
      LetterIs(Index(c));
    } else {
      forall k | 0 <= k < 64
        ensures Letter(k) != c
      {
        LetterIs(k);
      }
    }
  }

  // ---------- Encoding ----------

  /** The byte at `i`, or zero bits behind the end. */
  function ByteAt(data: seq<byte>, i: nat): byte {
    if i < |data| then data[i] else 0
  }

  /** The 24 bits of the group of bytes that begins at `i`, as a number. */
  function Group(data: seq<byte>, i: nat): nat {
    ByteAt(data, i) * 65536 + ByteAt(data, i + 1) * 256 + ByteAt(data, i + 2)
  }

  /** 64 to the power of three less `j`. */
  function Weight(j: nat): nat
    requires j < 4
  {
    if j == 0 then 262144 else if j == 1 then 4096 else if j == 2 then 64 else 1
  }

  /** The character of the encoding at `k`: six bits of its group of bytes, from the top, or '=' where the group has no
      byte for them. */
  function Encoded(data: seq<byte>, k: nat): byte {
    var i, j := k / 4 * 3, k % 4;
    if j == 0 || i + j <= |data| then Letter(Group(data, i) / Weight(j) % 64) else Code('=')
  }

  /** The text of any bytes, character by character. */
  lemma {:induction false} EncodesAs(data: seq<byte>, k: nat)
    requires k < |EncodeText(data)|
    ensures EncodeText(data)[k] == Encoded(data, k)
    decreases |data|
  {
    hide Quad, Encoded;
    if k < 4 {
      FirstGroup(data, k);
    } else {
      EncodesAs(Rest(data), k - 4);
      NextGroups(data, k);
    }
  }

  lemma FourDigits(d0: nat, d1: nat, d2: nat, d3: nat)
    requires d0 < 64 && d1 < 64 && d2 < 64 && d3 < 64
    ensures var n := ((d0 * 64 + d1) * 64 + d2) * 64 + d3;
            n / 262144 % 64 == d0 && n / 4096 % 64 == d1 && n / 64 % 64 == d2 && n % 64 == d3
  {
    var n := ((d0 * 64 + d1) * 64 + d2) * 64 + d3;
    assert n / 64 == (d0 * 64 + d1) * 64 + d2;
    assert n / 4096 == d0 * 64 + d1;
    assert n / 262144 == d0;
  }

  lemma SextetsOfGroup(a: byte, b: byte, c: byte)
    ensures var n: nat := a * 65536 + b * 256 + c;
            && n / 262144 % 64 == a / 4 && n / 4096 % 64 == a % 4 * 16 + b / 16
            && n / 64 % 64 == b % 16 * 4 + c / 64 && n % 64 == c % 64
  {
    FourDigits(a / 4, a % 4 * 16 + b / 16, b % 16 * 4 + c / 64, c % 64);
    assert a == a / 4 * 4 + a % 4 && b == b / 16 * 16 + b % 16 && c == c / 64 * 64 + c % 64;
  }

  lemma FirstGroup(data: seq<byte>, k: nat)
    requires data != [] && k < 4
    ensures Quad(data)[k] == Encoded(data, k)
  {
    hide Sextet0, Sextet1, Sextet2, Sextet3, Char, Letter;
    var a, b, c := data[0], ByteAt(data, 1), ByteAt(data, 2);
    SextetValues(a, b, c);
    SextetsOfGroup(a, b, c);
    TablesHoldAlphabet(Sextet0(a));
    TablesHoldAlphabet(Sextet1(a, b));
    TablesHoldAlphabet(Sextet2(b, c));
    TablesHoldAlphabet(Sextet3(c));
  }

  lemma NextGroups(data: seq<byte>, k: nat)
    requires data != [] && k >= 4 && (|data| <= 3 ==> k < 4)
    ensures Encoded(data, k) == Encoded(Rest(data), k - 4)
  {
    hide Letter;
    var i := k / 4 * 3;
    assert (k - 4) / 4 * 3 == i - 3 && (k - 4) % 4 == k % 4;
    assert forall x :: x >= 3 ==> ByteAt(data, x) == ByteAt(Rest(data), x - 3);
  }

  // ---------- Decoding ----------

  /** The value of a character of the alphabet, and 64 for every other one. */
  ghost function ValueOf(c: byte): (v: nat)
    ensures v <= 64 && (v < 64 ==> Letter(v) == c) && (v == 64 ==> forall k :: 0 <= k < 64 ==> Letter(k) != c)
  {
    TablesHoldAlphabet(c);
    Index(c)
  }

  /** The first byte of a group with the values `v0` and `v1`.  The source combines bits also where a character is
      outside the alphabet: as the second one it sets the third bit from below. */
  function FirstByte(v0: nat, v1: nat): nat {
    var high := if v0 < 64 then 4 * v0 else 0;
    if v1 < 64 then high + v1 / 16 else if v0 % 2 == 1 then high else high + 4
  }

  lemma OrFour(x: nat)
    requires x < 64
    ensures OrBytes(4 * x, 4) == if x % 2 == 1 then 4 * x else 4 * x + 4
  {
    assert Or(4 * x, 4) == Or(2 * x, 2) * 2;
    assert Or(2 * x, 2) == Or(x, 1) * 2;
    assert Or(x, 1) == Or(x / 2, 0) * 2 + 1;
    OrZero(x / 2);
  }

  lemma {:induction false} OrZero(x: nat)
    ensures Or(x, 0) == x
  {
    if x > 0 {
      OrZero(x / 2);
    }
  }

  lemma GroupBytes(c0: byte, c1: byte, c2: byte, c3: byte)
    requires c0 <= 64 && c1 <= 64 && c2 < 64
    ensures Byte0(c0, c1) == FirstByte(c0, c1)
    ensures Byte1(c1, c2) == (if c1 < 64 then c1 % 16 * 16 else 0) + c2 / 4
    ensures c3 < 64 ==> Byte2(c2, c3) == c2 % 4 * 64 + c3
  {
    hide OrBytes;
    var x := if c0 < 64 then c0 else 0;
    assert Shift2(c0) == 4 * x && (c1 == 64 ==> Shift4(c1) == 0 && High4(c1) == 4);
    if c1 < 64 {
      OrScaled(x, c1 / 16);
    } else {
      OrFour(x);
    }
    OrScaled(c1 % 16, c2 / 4);
    if c3 < 64 {
      OrScaled(c2 % 4, c3);
    }
  }

  /** The bytes of a group of four values; fewer than three in the last one. */
  function GroupOf(v0: nat, v1: nat, v2: nat, v3: nat): (bytes: seq<nat>)
    ensures |bytes| < 3 <==> v2 >= 64 || v3 >= 64
  {
    var middle := if v1 < 64 then v1 % 16 * 16 else 0;
    if v2 >= 64 then [FirstByte(v0, v1)]
    else if v3 >= 64 then [FirstByte(v0, v1), middle + v2 / 4]
    else [FirstByte(v0, v1), middle + v2 / 4, v2 % 4 * 64 + v3]
  }

  lemma BytesAre(c0: byte, c1: byte, c2: byte, c3: byte)
    requires c0 <= 64 && c1 <= 64
    ensures Bytes([c0, c1, c2, c3]) == GroupOf(c0, c1, c2, c3)
  {
    hide Byte0, Byte1, Byte2, FirstByte;
    GroupBytes(c0, c1, if c2 < 64 then c2 else 0, c3);
  }

  lemma IndexIsValue(c: byte)
    ensures ValueOf(c) == Index(c) <= 64
  {
  }

  /** One group of four characters: a group with a third or fourth character outside the alphabet is the last; otherwise
      its 24 bits are three bytes and the next group follows. */
  lemma DecodesAs(text: seq<byte>)
    requires |text| >= 4
    ensures var v0, v1, v2, v3 := ValueOf(text[0]), ValueOf(text[1]), ValueOf(text[2]), ValueOf(text[3]);
            DecodeText(text) == if v2 == 64 || v3 == 64 then GroupOf(v0, v1, v2, v3)
                                else GroupOf(v0, v1, v2, v3) + DecodeText(text[4..])
  {
    IndexIsValue(text[0]);
    IndexIsValue(text[1]);
    IndexIsValue(text[2]);
    IndexIsValue(text[3]);
    BytesAre(Index(text[0]), Index(text[1]), Index(text[2]), Index(text[3]));
    hide Index, Bytes, GroupOf, ValueOf;
  }

  /** A rest of fewer than four characters is ignored. */
  lemma ShortRestIsIgnored(text: seq<byte>)
    requires |text| < 4
    ensures DecodeText(text) == []
  {
  }
}
