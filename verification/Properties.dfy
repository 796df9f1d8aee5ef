/** MQTT 5 properties as MQTTProperties.c writes and reads them (section 2.2.2 of MQTT 5.0). */
module Properties {
  import opened Bytes
  import opened Wrappers

  datatype Type = OneByte | TwoByte | FourByte | Variable | Binary | Text | TextPair | NoType

  datatype Value =
    | Small(byte: Byte)
    | Short(integer2: int)
    | Long(integer4: int)
    | Varying(integer: int)
    | Data(data: seq<Byte>)
    | Pair(name: seq<Byte>, text: seq<Byte>)
    | Nothing

  datatype Property = Property(identifier: Byte, value: Value)

  /** `MQTTProperty_getType`. */
  function TypeOf(identifier: Byte): Type {
    if identifier in {1, 23, 25, 36, 37, 40, 41, 42} then OneByte
    else if identifier in {19, 33, 34, 35} then TwoByte
    else if identifier in {2, 17, 24, 39} then FourByte
    else if identifier == 11 then Variable
    else if identifier in {9, 22} then Binary
    else if identifier in {3, 8, 18, 21, 26, 28, 31} then Text
    else if identifier == 38 then TextPair
    else NoType
  }

  const VBI_LIMIT: int := 0x1000_0000

  /** The property has a type, and its value is one the type can hold. */
  predicate WellTyped(p: Property) {
    match TypeOf(p.identifier)
    case OneByte => p.value.Small?
    case TwoByte => p.value.Short? && 0 <= p.value.integer2 < 0x1_0000
    case FourByte => p.value.Long? && 0 <= p.value.integer4 < TWO_32
    case Variable => p.value.Varying? && 0 <= p.value.integer < VBI_LIMIT
    case Binary => p.value.Data? && |p.value.data| < 0x1_0000
    case Text => p.value.Data? && |p.value.data| < 0x1_0000
    case TextPair => p.value.Pair? && |p.value.name| < 0x1_0000 && |p.value.text| < 0x1_0000
    case NoType => false
  }

  // ---------- Variable byte integers ----------

  /** `MQTTPacket_encode`. */
  function VbiBytes(n: nat): (s: seq<Byte>)
    ensures s != []
  {
    if n < 128 then [n] else [n % 128 + 128] + VbiBytes(n / 128)
  }

  /** `MQTTPacket_VBIlen`. */
  function VbiLen(n: int): nat {
    if n < 128 then 1 else if n < 16384 then 2 else if n < 2097152 then 3 else 4
  }

  /** The length computed in advance is right exactly for the integers four bytes can hold. */
  lemma VbiLenIsExact(n: nat)
    ensures |VbiBytes(n)| == VbiLen(n) <==> n < VBI_LIMIT
  {
    assert n >= 128 ==> |VbiBytes(n)| == 1 + |VbiBytes(n / 128)|;
    var n1 := n / 128;
    assert n1 >= 128 ==> |VbiBytes(n1)| == 1 + |VbiBytes(n1 / 128)|;
    var n2 := n1 / 128;
    assert n2 >= 128 ==> |VbiBytes(n2)| == 1 + |VbiBytes(n2 / 128)|;
    var n3 := n2 / 128;
    assert n3 >= 128 ==> |VbiBytes(n3)| == 1 + |VbiBytes(n3 / 128)|;
  }

  /** `MQTTPacket_VBIdecode`, `len` bytes having been read: after four bytes that all ask for more it counts a fifth one
      without reading it. */
  function TakeVbi(s: seq<Byte>, len: nat, multiplier: nat): Taken<nat>
    decreases 5 - len
  {
    if len >= 4 then (if s == [] then None else Some((0, s[1..])))
    else if s == [] then None
    else if s[0] < 128 then Some((s[0] * multiplier, s[1..]))
    else
      var r := TakeVbi(s[1..], len + 1, multiplier * 128);
      if r.None? then None else Some(((s[0] - 128) * multiplier + r.value.0, r.value.1))
  }

  lemma {:induction false} VbiTaken(n: nat, rest: seq<Byte>, len: nat, multiplier: nat)
    requires len < 4 && |VbiBytes(n)| <= 4 - len
    ensures TakeVbi(VbiBytes(n) + rest, len, multiplier) == Some((n * multiplier, rest))
    decreases n
  {
    var s := VbiBytes(n) + rest;
    if n < 128 {
      assert s[1..] == rest;
    } else {
      assert s[1..] == VbiBytes(n / 128) + rest;
      VbiTaken(n / 128, rest, len + 1, multiplier * 128);
      assert n % 128 * multiplier + n / 128 * (multiplier * 128) == n * multiplier by {
        Regroup(n / 128, n % 128, multiplier);
      }
    }
  }

  lemma Regroup(high: nat, low: nat, multiplier: nat)
    ensures low * multiplier + high * (multiplier * 128) == (128 * high + low) * multiplier
  {
  }

  // ---------- Four-byte integers ----------

  /** C division and remainder: towards zero. */
  function CDiv(a: int, b: int): int
    requires b > 0
  {
    if a >= 0 then a / b else -(-a / b)
  }

  function CRem(a: int, b: int): int
    requires b > 0
  {
    a - b * CDiv(a, b)
  }

  /** `writeInt4`, whose parameter is a signed `int`. */
  function Int4Bytes(n: int): (s: seq<Byte>)
    requires 0 <= n < TWO_32
    ensures |s| == 4
  {
    var a := if n < TWO_31 then n else n - TWO_32;
    var b := CRem(a, 0x100_0000);
    var c := CRem(b, 0x1_0000);
    [Low(CDiv(a, 0x100_0000)), Low(CDiv(b, 0x1_0000)), Low(CDiv(c, 0x100)), Low(CRem(c, 0x100))]
  }

  function TakeInt4(s: seq<Byte>): Taken<int> {
    if |s| < 4 then None
    else Some((FromBytes(s[0], s[1], s[2], s[3]), s[4..]))
  }

  /** The integers `writeInt4` does not spoil. */
  predicate Survives(n: int) {
    n < TWO_31 || n % 0x100_0000 == 0
  }

  /** `readInt4` undoes `writeInt4` exactly on those: above 2^31 division towards zero loses the borrows. */
  lemma Int4Taken(n: int, rest: seq<Byte>)
    requires 0 <= n < TWO_32
    ensures TakeInt4(Int4Bytes(n) + rest).Some? && TakeInt4(Int4Bytes(n) + rest).value.1 == rest
    ensures TakeInt4(Int4Bytes(n) + rest).value.0 == n <==> Survives(n)
  {
    hide Int4Bytes;
    var s := Int4Bytes(n);
    assert (s + rest)[4..] == rest;
    if n < TWO_31 {
      Int4Positive(n);
    } else {
      Int4Negative(TWO_32 - n);
    }
  }

  /** The largest integer comes back as 255. */
  lemma LargestIsSpoilt()
    ensures TakeInt4(Int4Bytes(0xFFFF_FFFF)) == Some((255, [])) && !Survives(0xFFFF_FFFF)
  {
    assert Int4Bytes(0xFFFF_FFFF) == [0, 0, 0, 255];
    assert [0, 0, 0, 255][4..] == [];
  }

  /** One digit off the top. */
  lemma Split(n: int, b: int)
    requires 0 < b && 0 <= n < 256 * b
    ensures CDiv(n, b) == n / b && CRem(n, b) == n % b && CDiv(-n, b) == -(n / b) && CRem(-n, b) == -(n % b)
    ensures 0 <= n / b < 256 && Low(n / b) == n / b && n == b * (n / b) + n % b
  {
    hide CDiv, CRem, Low;
    var q, r := n / b, n % b;
    Digit(n, b, q, r);
    LowOfDigit(q);
    Quotients(n, b);
    assert CRem(n, b) == n - b * q && CRem(-n, b) == -n - b * -q by { Remainders(n, b); }
  }

  lemma Digit(n: int, b: int, q: int, r: int)
    requires 0 <= r < b && n == b * q + r && 0 <= n < 256 * b
    ensures 0 <= q < 256 && n - b * q == r && -n - b * -q == -r
  {
    if q < 0 {
      Times(b, q, -1);
    }
    if q >= 256 {
      Times(b, 256, q);
    }
  }

  lemma Times(b: int, x: int, y: int)
    requires 0 <= b && x <= y
    ensures b * x <= b * y
  {
  }

  lemma LowOfDigit(d: int)
    requires 0 <= d < 256
    ensures Low(d) == d
  {
  }

  lemma Quotients(n: int, b: int)
    requires 0 < b && 0 <= n
    ensures CDiv(n, b) == n / b && CDiv(-n, b) == -(n / b)
  {
    if n == 0 {
      assert 0 / b == 0 by { Zero(b); }
    }
  }

  lemma Zero(b: int)
    requires 0 < b
    ensures 0 / b == 0
  {
  }

  lemma Remainders(n: int, b: int)
    requires 0 < b
    ensures CRem(n, b) == n - b * CDiv(n, b) && CRem(-n, b) == -n - b * CDiv(-n, b)
  {
    hide CDiv;
  }

  lemma Int4Positive(n: int)
    requires 0 <= n < TWO_31
    ensures var s := Int4Bytes(n); FromBytes(s[0], s[1], s[2], s[3]) == n
  {
    hide CDiv, CRem, Low;
    var b := n % 0x100_0000;
    var c := b % 0x1_0000;
    Split(n, 0x100_0000);
    Split(b, 0x1_0000);
    Split(c, 0x100);
    Split(c % 0x100, 1);
  }

  /** The same for the negative `int` with magnitude `m`. */
  lemma Int4Negative(m: int)
    requires 0 < m <= TWO_31
    ensures var s := Int4Bytes(TWO_32 - m);
            FromBytes(s[0], s[1], s[2], s[3]) == TWO_32 - m <==> Survives(TWO_32 - m)
  {
    hide CDiv, CRem, Low, FromBytes;
    var b := m % 0x100_0000;
    var c := b % 0x1_0000;
    Split(m, 0x100_0000);
    Split(b, 0x1_0000);
    Split(c, 0x100);
    var d3, d2, d1, d0 := m / 0x100_0000, b / 0x1_0000, c / 0x100, c % 0x100;
    Compose(m, b, c, d3, d2, d1, d0);
    Borrows(d3, d2, d1, d0);
    var s := Int4Bytes(TWO_32 - m);
    assert s == [Low(-d3), Low(-d2), Low(-d1), Low(-d0)];
  }

  lemma Compose(m: int, b: int, c: int, d3: int, d2: int, d1: int, d0: int)
    requires 0 < m <= TWO_31 && m == 0x100_0000 * d3 + b && b == 0x1_0000 * d2 + c && c == 0x100 * d1 + d0
    requires 0 <= d3 < 256 && 0 <= d2 < 256 && 0 <= d1 < 256 && 0 <= d0 < 256
    ensures FromBytes(d3, d2, d1, d0) == m && d3 <= 128
    ensures Survives(TWO_32 - m) <==> d2 == 0 && d1 == 0 && d0 == 0
  {
    LowDigits(b, c, d2, d1, d0);
    Remainder(TWO_32 - m, 256 - d3, b);
    SumOfDigits(d3, d2, d1, d0);
    TopDigit(m, d3, b);
    SurvivesHigh(TWO_32 - m);
    hide Survives, FromBytes;
  }

  lemma LowDigits(b: int, c: int, d2: int, d1: int, d0: int)
    requires b == 0x1_0000 * d2 + c && c == 0x100 * d1 + d0
    requires 0 <= d2 < 256 && 0 <= d1 < 256 && 0 <= d0 < 256
    ensures 0 <= b < 0x100_0000 && (b == 0 <==> d2 == 0 && d1 == 0 && d0 == 0)
  {
  }

  lemma Remainder(n: int, q: int, b: int)
    requires n == 0x100_0000 * q - b && 0 <= b < 0x100_0000
    ensures n % 0x100_0000 == 0 <==> b == 0
  {
  }

  lemma TopDigit(m: int, d3: int, b: int)
    requires 0 < m <= TWO_31 && m == 0x100_0000 * d3 + b && 0 <= b < 0x100_0000
    ensures d3 <= 128
  {
  }

  lemma SumOfDigits(d3: int, d2: int, d1: int, d0: int)
    ensures FromBytes(d3, d2, d1, d0) == 0x100_0000 * d3 + (0x1_0000 * d2 + (0x100 * d1 + d0))
  {
  }

  lemma SurvivesHigh(n: int)
    requires TWO_31 <= n < TWO_32
    ensures Survives(n) <==> n % 0x100_0000 == 0
  {
  }

  /** Negating the digits one by one negates the number only if no digit but the highest is there. */
  lemma Borrows(d3: int, d2: int, d1: int, d0: int)
    requires 0 <= d3 <= 128 && 0 <= d2 < 256 && 0 <= d1 < 256 && 0 <= d0 < 256
    requires 0 < FromBytes(d3, d2, d1, d0) <= TWO_31
    ensures FromBytes(Low(-d3), Low(-d2), Low(-d1), Low(-d0)) == TWO_32 - FromBytes(d3, d2, d1, d0)
       <==> d2 == 0 && d1 == 0 && d0 == 0
  {
    LowNegative(d3);
    LowNegative(d2);
    LowNegative(d1);
    LowNegative(d0);
    hide Low;
  }

  lemma LowNegative(d: int)
    requires 0 <= d < 256
    ensures Low(-d) == if d == 0 then 0 else 256 - d
  {
  }

  // ---------- One property ----------

  /** `writeMQTTLenString`. */
  function Counted(data: seq<Byte>): seq<Byte>
    requires |data| < 0x1_0000
  {
    [|data| / 0x100, |data| % 0x100] + data
  }

  /** `MQTTLenStringRead`, inside the buffer. */
  function TakeCounted(s: seq<Byte>): Taken<seq<Byte>> {
    if |s| < 2 then None else TakeBytes(s[2..], FromBytes(0, 0, s[0], s[1]))
  }

  lemma CountedTaken(data: seq<Byte>, rest: seq<Byte>)
    requires |data| < 0x1_0000
    ensures TakeCounted(Counted(data) + rest) == Some((data, rest))
  {
    assert (Counted(data) + rest)[2..] == data + rest;
    BytesTaken(data, rest);
  }

  function ValueBytes(v: Value): seq<Byte>
    requires exists id :: WellTyped(Property(id, v))
  {
    match v
    case Small(b) => [b]
    case Short(n) => [n / 0x100, n % 0x100]
    case Long(n) => Int4Bytes(n)
    case Varying(n) => VbiBytes(n)
    case Data(d) => Counted(d)
    case Pair(n, t) => Counted(n) + Counted(t)
    case Nothing => []
  }

  /** `MQTTProperty_write`. */
  function PropertyBytes(p: Property): (s: seq<Byte>)
    requires WellTyped(p)
    ensures s != []
  {
    [p.identifier] + ValueBytes(p.value)
  }

  /** What `MQTTProperties_add` adds to the length of the list. */
  function AddedLength(p: Property): nat
    requires WellTyped(p)
  {
    1 + match TypeOf(p.identifier)
        case OneByte => 1
        case TwoByte => 2
        case FourByte => 4
        case Variable => VbiLen(p.value.integer)
        case Binary => 2 + |p.value.data|
        case Text => 2 + |p.value.data|
        case TextPair => 2 + |p.value.name| + 2 + |p.value.text|
  }

  lemma AddedLengthIsExact(p: Property)
    requires WellTyped(p)
    ensures |PropertyBytes(p)| == AddedLength(p)
  {
    if p.value.Varying? {
      VbiLenIsExact(p.value.integer);
    }
  }

  /** The value part of `MQTTProperty_read`; an unknown identifier has none. */
  function TakeValue(t: Type, s: seq<Byte>): Taken<Value> {
    match t
    case OneByte => if s == [] then None else Some((Small(s[0]), s[1..]))
    case TwoByte => if |s| < 2 then None else Some((Short(FromBytes(0, 0, s[0], s[1])), s[2..]))
    case FourByte =>
      var r := TakeInt4(s);
      if r.None? then None else Some((Long(r.value.0), r.value.1))
    case Variable =>
      var r := TakeVbi(s, 0, 1);
      if r.None? then None else Some((Varying(r.value.0), r.value.1))
    case Binary => TakeData(s)
    case Text => TakeData(s)
    case TextPair =>
      var name := TakeCounted(s);
      if name.None? then None
      else
        var text := TakeCounted(name.value.1);
        if text.None? then None else Some((Pair(name.value.0, text.value.0), text.value.1))
    case NoType => Some((Nothing, s))
  }

  function TakeData(s: seq<Byte>): Taken<Value> {
    var r := TakeCounted(s);
    if r.None? then None else Some((Data(r.value.0), r.value.1))
  }

  /** `MQTTProperty_read`. */
  function TakeProperty(s: seq<Byte>): (r: Taken<Property>)
  {
    if s == [] then None
    else
      var v := TakeValue(TypeOf(s[0]), s[1..]);
      if v.None? then None else Some((Property(s[0], v.value.0), v.value.1))
  }

  /** A property as it comes back. */
  function Reread(p: Property): Property
    requires WellTyped(p)
  {
    if p.value.Long? then p.(value := Long(TakeInt4(Int4Bytes(p.value.integer4)).value.0)) else p
  }

  predicate PropertySurvives(p: Property) {
    p.value.Long? ==> Survives(p.value.integer4)
  }

  lemma PropertyTaken(p: Property, rest: seq<Byte>)
    requires WellTyped(p)
    ensures TakeProperty(PropertyBytes(p) + rest) == Some((Reread(p), rest))
    ensures Reread(p) == p <==> PropertySurvives(p)
  {
    hide Int4Bytes, TakeInt4, VbiBytes, TakeVbi, Counted, TakeCounted, FromBytes;
    var s := PropertyBytes(p) + rest;
    assert s[1..] == ValueBytes(p.value) + rest;
    match p.value
    case Small(b) => assert s[1..][1..] == rest;
    case Short(n) => ShortTaken(n, rest);
    case Long(n) => LongTaken(n, rest);
    case Varying(n) =>
      VbiLenIsExact(n);
      VbiTaken(n, rest, 0, 1);
    case Data(d) => CountedTaken(d, rest);
    case Pair(n, t) =>
      assert s[1..] == Counted(n) + (Counted(t) + rest);
      CountedTaken(n, Counted(t) + rest);
      CountedTaken(t, rest);
  }

  lemma ShortTaken(n: int, rest: seq<Byte>)
    requires 0 <= n < 0x1_0000
    ensures TakeValue(TwoByte, [n / 0x100, n % 0x100] + rest) == Some((Short(n), rest))
  {
    assert ([n / 0x100, n % 0x100] + rest)[2..] == rest;
  }

  lemma LongTaken(n: int, rest: seq<Byte>)
    requires 0 <= n < TWO_32
    ensures TakeInt4(Int4Bytes(n) + rest) == Some((TakeInt4(Int4Bytes(n)).value.0, rest))
    ensures TakeInt4(Int4Bytes(n)).value.0 == n <==> Survives(n)
  {
    hide Int4Bytes, FromBytes;
    Int4Taken(n, []);
    assert Int4Bytes(n) + [] == Int4Bytes(n);
    assert (Int4Bytes(n) + rest)[4..] == rest;
  }

  // ---------- Lists ----------

  predicate AllWellTyped(ps: seq<Property>) {
    forall i :: 0 <= i < |ps| ==> WellTyped(ps[i])
  }

  /** The bytes of the properties without the length in front. */
  function Body(ps: seq<Property>): seq<Byte>
    requires AllWellTyped(ps)
  {
    if ps == [] then [] else PropertyBytes(ps[0]) + Body(ps[1..])
  }

  /** The `length` field, as `MQTTProperties_add` keeps it. */
  function Length(ps: seq<Property>): nat
    requires AllWellTyped(ps)
  {
    if ps == [] then 0 else AddedLength(ps[0]) + Length(ps[1..])
  }

  lemma {:induction false} LengthIsExact(ps: seq<Property>)
    requires AllWellTyped(ps)
    ensures |Body(ps)| == Length(ps)
    decreases |ps|
  {
    hide PropertyBytes, AddedLength, WellTyped;
    if ps != [] {
      AddedLengthIsExact(ps[0]);
      LengthIsExact(ps[1..]);
    }
  }

  /** `MQTTProperties_write`. */
  function PropertiesBytes(ps: seq<Property>): seq<Byte>
    requires AllWellTyped(ps)
  {
    VbiBytes(Length(ps)) + Body(ps)
  }

  /** `MQTTProperties_len`. */
  function PropertiesLen(ps: seq<Property>): nat
    requires AllWellTyped(ps)
  {
    Length(ps) + VbiLen(Length(ps))
  }

  /** The length computed in advance is the length written, exactly if the list is short enough for its prefix. */
  lemma PropertiesLenIsExact(ps: seq<Property>)
    requires AllWellTyped(ps)
    ensures |PropertiesBytes(ps)| == PropertiesLen(ps) <==> Length(ps) < VBI_LIMIT
  {
    hide VbiBytes, VbiLen, Body, Length, WellTyped;
    LengthIsExact(ps);
    VbiLenIsExact(Length(ps));
  }

  /** The loop of `MQTTProperties_read`. */
  function TakeBody(s: seq<Byte>, remaining: nat, ps: seq<Property>): Taken<seq<Property>>
    decreases remaining
  {
    if remaining == 0 then Some((ps, s))
    else
      var p := TakeProperty(s);
      if p.None? then None
      else
        var used := |s| - |p.value.1|;
        if used <= 0 || used > remaining then None
        else TakeBody(p.value.1, remaining - used, ps + [p.value.0])
  }

  /** `MQTTProperties_read`. */
  function TakeProperties(s: seq<Byte>): Taken<seq<Property>> {
    var n := TakeVbi(s, 0, 1);
    if n.None? then None else TakeBody(n.value.1, n.value.0, [])
  }

  function RereadAll(ps: seq<Property>): (r: seq<Property>)
    requires AllWellTyped(ps)
    ensures |r| == |ps|
  {
    if ps == [] then [] else [Reread(ps[0])] + RereadAll(ps[1..])
  }

  lemma {:induction false} BodyTaken(ps: seq<Property>, before: seq<Property>, rest: seq<Byte>)
    requires AllWellTyped(ps)
    ensures TakeBody(Body(ps) + rest, Length(ps), before) == Some((before + RereadAll(ps), rest))
    decreases |ps|
  {
    hide PropertyBytes, AddedLength, WellTyped, TakeProperty, Reread;
    if ps == [] {
      assert Body(ps) + rest == rest && before + [] == before;
    } else {
      var tail := Body(ps[1..]) + rest;
      assert Body(ps) + rest == PropertyBytes(ps[0]) + tail;
      PropertyTaken(ps[0], tail);
      AddedLengthIsExact(ps[0]);
      BodyTaken(ps[1..], before + [Reread(ps[0])], rest);
      assert before + [Reread(ps[0])] + RereadAll(ps[1..]) == before + RereadAll(ps);
    }
  }

  lemma SameCons<T>(x: T, xs: seq<T>, y: T, ys: seq<T>)
    ensures [x] + xs == [y] + ys <==> x == y && xs == ys
  {
    if [x] + xs == [y] + ys {
      assert x == ([x] + xs)[0] && xs == ([x] + xs)[1..];
      assert y == ([y] + ys)[0] && ys == ([y] + ys)[1..];
    }
  }

  predicate AllSurvive(ps: seq<Property>) {
    forall i :: 0 <= i < |ps| ==> PropertySurvives(ps[i])
  }

  lemma AllSurviveCons(p: Property, ps: seq<Property>)
    ensures AllSurvive([p] + ps) <==> PropertySurvives(p) && AllSurvive(ps)
  {
    hide PropertySurvives;
    var all := [p] + ps;
    assert all[0] == p && forall i :: 0 <= i < |ps| ==> all[i + 1] == ps[i];
  }

  lemma PropertyIsSame(p: Property)
    requires WellTyped(p)
    ensures Reread(p) == p <==> PropertySurvives(p)
  {
    hide WellTyped, Reread, PropertySurvives;
    PropertyTaken(p, []);
  }

  lemma {:induction false} RereadIsSame(ps: seq<Property>)
    requires AllWellTyped(ps)
    ensures RereadAll(ps) == ps <==> AllSurvive(ps)
    decreases |ps|
  {
    hide WellTyped, Reread, PropertySurvives, AllSurvive;
    if ps == [] {
      NothingToSurvive();
    } else {
      PropertyIsSame(ps[0]);
      RereadIsSame(ps[1..]);
      assert ps == [ps[0]] + ps[1..];
      SameCons(Reread(ps[0]), RereadAll(ps[1..]), ps[0], ps[1..]);
      AllSurviveCons(ps[0], ps[1..]);
    }
  }

  lemma NothingToSurvive()
    ensures AllSurvive([])
  {
  }

  /** A property list comes back in full, and unchanged exactly if no four-byte integer is spoilt. */
  lemma PropertiesTaken(ps: seq<Property>, rest: seq<Byte>)
    requires AllWellTyped(ps) && Length(ps) < VBI_LIMIT
    ensures TakeProperties(PropertiesBytes(ps) + rest) == Some((RereadAll(ps), rest))
    ensures RereadAll(ps) == ps <==> AllSurvive(ps)
  {
    hide WellTyped, VbiBytes, Body, Length, RereadAll, PropertySurvives, TakeVbi, TakeBody;
    assert PropertiesBytes(ps) + rest == VbiBytes(Length(ps)) + (Body(ps) + rest);
    VbiLenIsExact(Length(ps));
    VbiTaken(Length(ps), Body(ps) + rest, 0, 1);
    BodyTaken(ps, [], rest);
    assert [] + RereadAll(ps) == RereadAll(ps);
    RereadIsSame(ps);
  }
}
