/** The bytes of stored commands and their keys, against the standard they follow (MQTT 5.0) and in examples. */
module StoredForm {
  import opened Bytes
  import opened CommandCodec
  import opened CommandKeys
  import opened CommandQueue
  import opened Properties
  import R = CommandRestore
  import T = Text

  // ---------- Integers ----------

  /** An `int` is kept lowest byte first, a negative one as its two's complement. */
  lemma IntIsLittleEndian(n: int)
    requires IsInt(n)
    ensures var a: int, b: int, c: int, d: int := IntBytes(n)[0], IntBytes(n)[1], IntBytes(n)[2], IntBytes(n)[3];
            a + 0x100 * b + 0x1_0000 * c + 0x100_0000 * d == if n < 0 then n + 0x1_0000_0000 else n
  {
    TwosComplement(n);
    IntDigits(n % TWO_32);
    hide Low;
  }

  /** What seven bits of each byte are worth, the first byte's least (section 1.5.5). */
  function Sevens(s: seq<Byte>): nat {
    if s == [] then 0 else s[0] % 128 + 128 * Sevens(s[1..])
  }

  /** A variable byte integer: every byte but the last has its top bit set, and there are no more bytes than needed. */
  lemma {:induction false} VbiIsStandard(n: nat)
    ensures var s := VbiBytes(n);
            && Sevens(s) == n && s[|s| - 1] < 128 && (forall k :: 0 <= k < |s| - 1 ==> s[k] >= 128)
            && (|s| > 1 ==> s[|s| - 1] != 0)
    decreases n
  {
    if n >= 128 {
      VbiIsStandard(n / 128);
      assert VbiBytes(n)[1..] == VbiBytes(n / 128);
    } else {
      assert VbiBytes(n)[1..] == [];
    }
  }

  // ---------- Properties ----------

  /** The types of the properties (table 2-4), by identifier. */
  lemma TypesAreStandard(id: Byte)
    ensures TypeOf(id).OneByte? <==> id in {0x01, 0x17, 0x19, 0x24, 0x25, 0x28, 0x29, 0x2a}
    ensures TypeOf(id).TwoByte? <==> id in {0x13, 0x21, 0x22, 0x23}
    ensures TypeOf(id).FourByte? <==> id in {0x02, 0x11, 0x18, 0x27}
    ensures TypeOf(id).Variable? <==> id == 0x0b
    ensures TypeOf(id).Binary? <==> id in {0x09, 0x16}
    ensures TypeOf(id).Text? <==> id in {0x03, 0x08, 0x12, 0x15, 0x1a, 0x1c, 0x1f}
    ensures TypeOf(id).TextPair? <==> id == 0x26
  {
  }

  /** Integers of two bytes and lengths go highest byte first. */
  function Big2(n: nat): seq<Byte>
    requires n < 0x1_0000
  {
    [n / 0x100, n % 0x100]
  }

  function Big4(n: nat): seq<Byte>
    requires n < 0x1_0000_0000
  {
    [n / 0x100_0000, n / 0x1_0000 % 0x100, n / 0x100 % 0x100, n % 0x100]
  }

  /** A property is its identifier and its value (sections 1.5.2 to 1.5.7), for four-byte integers below 2^31. */
  lemma PropertyIsStandard(p: Property)
    requires WellTyped(p)
    requires p.value.Long? ==> p.value.integer4 < TWO_31
    ensures var s := PropertyBytes(p);
            s == [p.identifier] + match p.value
                                  case Small(b) => [b]
                                  case Short(n) => Big2(n)
                                  case Long(n) => Big4(n)
                                  case Varying(n) => VbiBytes(n)
                                  case Data(data) => Big2(|data|) + data
                                  case Pair(name, text) => Big2(|name|) + name + Big2(|text|) + text
  {
    hide VbiBytes;
    if p.value.Long? {
      FourBytes(p.value.integer4);
    }
    hide Int4Bytes, Low;
  }

  lemma DigitsOf(a: int, b: int, c: int, d: int, n: nat)
    requires 0 <= a < 256 && 0 <= b < 256 && 0 <= c < 256 && 0 <= d < 256 && FromBytes(a, b, c, d) == n
    ensures n / 0x100_0000 == a && n / 0x1_0000 % 0x100 == b && n / 0x100 % 0x100 == c && n % 0x100 == d
  {
    assert n / 0x100 == a * 0x1_0000 + b * 0x100 + c;
    assert n / 0x1_0000 == a * 0x100 + b;
    assert n / 0x100_0000 == a;
  }

  lemma FourBytes(n: int)
    requires 0 <= n < TWO_31
    ensures Int4Bytes(n) == Big4(n)
  {
    hide Int4Bytes, FromBytes;
    Int4Positive(n);
    var s := Int4Bytes(n);
    DigitsOf(s[0], s[1], s[2], s[3], n);
    assert s == [s[0], s[1], s[2], s[3]];
  }

  // ---------- Keys ----------

  /** A key is "c-", or "c5-" in version 5, and the number in decimal. */
  lemma KeyIs(v5: bool, seqno: nat)
    ensures exists digits :: && Key(v5, seqno) == (if v5 then "c5-" else "c-") + digits
                             && T.AllDigits(digits) && T.WholeValue(digits) == seqno
                             && (seqno != 0 ==> digits != "" && digits[0] != '0') && (seqno == 0 ==> digits == "0")
  {
    T.DigitsAreDecimal(seqno);
    var digits := T.Digits(seqno);
    assert Key(v5, seqno) == (if v5 then "c5-" else "c-") + digits;
  }

  // ---------- Commands ----------

  lemma SmallInt(k: int)
    requires 0 <= k < 256
    ensures IntBytes(k) == [k, 0, 0, 0]
  {
  }

  /** Below version 5 a publication is its type, token, topic, payload with its length, QoS and retained flag. */
  lemma PublishExample()
    ensures Encode(Content(Publish([97], [1, 2], 1, 0), 7, []), false)
         == [3, 0, 0, 0, 7, 0, 0, 0, 97, 0, 2, 0, 0, 0, 1, 2, 1, 0, 0, 0, 0, 0, 0, 0]
  {
    hide IntBytes;
    SmallInt(0);
    SmallInt(1);
    SmallInt(2);
    SmallInt(3);
    SmallInt(7);
  }

  /** A subscription is the number of its topics and each with its QoS. */
  lemma SubscribeExample()
    ensures Encode(Content(Subscribe([[97], [98]], [1, 2], NO_OPTIONS, []), 7, []), false)
         == [8, 0, 0, 0, 7, 0, 0, 0, 2, 0, 0, 0, 97, 0, 1, 0, 0, 0, 98, 0, 2, 0, 0, 0]
  {
    hide IntBytes, TopicsBytes;
    SmallInt(1);
    SmallInt(2);
    SmallInt(7);
    SmallInt(8);
    TwoTopics();
  }

  lemma TwoTopics()
    ensures TopicsBytes(Subscribe([[97], [98]], [1, 2], NO_OPTIONS, []), false, 0)
         == [97, 0] + IntBytes(1) + ([98, 0] + IntBytes(2))
  {
    hide IntBytes, OptionsOf;
    var d := Subscribe([[97], [98]], [1, 2], NO_OPTIONS, []);
    assert TopicsBytes(d, false, 2) == [];
    assert TopicsBytes(d, false, 1) == [98, 0] + IntBytes(2);
  }

  /** In version 5 each topic has its options instead, and the properties follow. */
  lemma Subscribe5Example(o: Options)
    ensures Encode(Content(Subscribe([[97]], [1], o, []), 7, [Property(1, Small(5))]), true)
         == [8, 0, 0, 0, 7, 0, 0, 0, 1, 0, 0, 0, 97, 0] + o + [2, 1, 5]
  {
    hide IntBytes, TopicsBytes, PropertiesBytes;
    SmallInt(1);
    SmallInt(7);
    SmallInt(8);
    OneTopic(o);
    OneProperty();
  }

  lemma OneTopic(o: Options)
    ensures TopicsBytes(Subscribe([[97]], [1], o, []), true, 0) == [97, 0] + o
  {
    assert TopicsBytes(Subscribe([[97]], [1], o, []), true, 1) == [];
  }

  lemma OneProperty()
    ensures AllWellTyped([Property(1, Small(5))]) && Length([Property(1, Small(5))]) == 2
    ensures PropertiesBytes([Property(1, Small(5))]) == [2, 1, 5]
  {
    var p := [Property(1, Small(5))];
    assert p[1..] == [] && PropertyBytes(p[0]) == [1, 5];
    assert Length(p) == 2 && Body(p) == [1, 5] && VbiBytes(2) == [2];
  }

  /** An unsubscription is the number of its topics and their names. */
  lemma UnsubscribeExample()
    ensures Encode(Content(Unsubscribe([[97], [98]]), 7, []), false)
         == [10, 0, 0, 0, 7, 0, 0, 0, 2, 0, 0, 0, 97, 0, 98, 0]
  {
    hide IntBytes;
    SmallInt(2);
    SmallInt(7);
    SmallInt(10);
    var names: seq<seq<Byte>> := [[97], [98]];
    assert NamesBytes(names, 2) == [];
    assert NamesBytes(names, 1) == [98, 0];
    assert NamesBytes(names, 0) == [97, 0, 98, 0];
  }

  // ---------- What is compared when commands are restored ----------

  /** The lower half of the address, as a signed number. */
  lemma WordIsLowHalf(c: Command)
    ensures IsInt(R.Word(c)) && (c.calls.onSuccess - R.Word(c)) % 0x1_0000_0000 == 0
  {
  }
}
