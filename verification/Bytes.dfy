/** Bytes, and the integers and strings the Paho client keeps in them. */
module Bytes {
  import opened Wrappers

  type Byte = b: int | 0 <= b < 256

  /** A value read and what follows it. */
  type Taken<T> = Option<(T, seq<Byte>)>

  const TWO_31: int := 0x8000_0000
  const TWO_32: int := 0x1_0000_0000

  /** The range of a C `int`. */
  predicate IsInt(n: int) {
    -TWO_31 <= n < TWO_31
  }

  /** The eight low bits. */
  function Low(n: int): Byte {
    n % 256
  }

  /** The number four bytes spell, the highest first. */
  function FromBytes(d3: int, d2: int, d1: int, d0: int): int {
    0x100_0000 * d3 + 0x1_0000 * d2 + 0x100 * d1 + d0
  }

  // ---------- int as memory holds it, lowest byte first ----------

  function IntBytes(n: int): (s: seq<Byte>)
    requires IsInt(n)
    ensures |s| == 4
  {
    var u := n % TWO_32;
    [Low(u), Low(u / 0x100), Low(u / 0x1_0000), Low(u / 0x100_0000)]
  }

  function TakeInt(s: seq<Byte>): (r: Taken<int>)
    ensures r.Some? ==> IsInt(r.value.0)
  {
    if |s| < 4 then None
    else
      var u := FromBytes(s[3], s[2], s[1], s[0]);
      Some((if u < TWO_31 then u else u - TWO_32, s[4..]))
  }

  lemma IntDigits(u: nat)
    requires u < TWO_32
    ensures u == FromBytes(Low(u / 0x100_0000), Low(u / 0x1_0000), Low(u / 0x100), Low(u))
  {
    assert u / 0x1_0000 == u / 0x100 / 0x100;
    assert u / 0x100_0000 == u / 0x1_0000 / 0x100;
  }

  lemma TwosComplement(n: int)
    requires IsInt(n)
    ensures n % TWO_32 == if n < 0 then n + TWO_32 else n
  {
  }

  lemma IntTaken(n: int, rest: seq<Byte>)
    requires IsInt(n)
    ensures TakeInt(IntBytes(n) + rest) == Some((n, rest))
  {
    hide Low, FromBytes;
    TwosComplement(n);
    IntDigits(n % TWO_32);
    var s := IntBytes(n);
    assert FromBytes(s[3], s[2], s[1], s[0]) == n % TWO_32;
    hide IntBytes;
    assert (s + rest)[4..] == rest;
  }

  // ---------- C strings ----------

  predicate NoZero(s: seq<Byte>) {
    forall i :: 0 <= i < |s| ==> s[i] != 0
  }

  function TakeCString(s: seq<Byte>): Taken<seq<Byte>> {
    if s == [] then None
    else if s[0] == 0 then Some(([], s[1..]))
    else
      var r := TakeCString(s[1..]);
      if r.None? then None else Some(([s[0]] + r.value.0, r.value.1))
  }

  lemma {:induction false} CStringTaken(text: seq<Byte>, rest: seq<Byte>)
    requires NoZero(text)
    ensures TakeCString(text + [0] + rest) == Some((text, rest))
    decreases |text|
  {
    if text == [] {
      assert text + [0] + rest == [0] + rest && ([0] + rest)[1..] == rest;
    } else {
      assert (text + [0] + rest)[1..] == text[1..] + [0] + rest;
      CStringTaken(text[1..], rest);
      assert [text[0]] + text[1..] == text;
    }
  }

  /** A given number of bytes. */
  function TakeBytes(s: seq<Byte>, n: int): Taken<seq<Byte>> {
    if n < 0 || |s| < n then None else Some((s[..n], s[n..]))
  }

  lemma BytesTaken(text: seq<Byte>, rest: seq<Byte>)
    ensures TakeBytes(text + rest, |text|) == Some((text, rest))
  {
  }
}
