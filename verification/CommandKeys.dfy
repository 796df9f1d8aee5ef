/** The keys under which commands are persisted: a tag and the sequence number. */
module CommandKeys {
  import opened Text

  /** `PERSISTENCE_MAX_KEY_LENGTH`: the buffer for a key has one byte more, for the NUL. */
  const MAX_KEY_LENGTH := 8

  function Tag(v5: bool): string {
    if v5 then "c5-" else "c-"
  }

  function Key(v5: bool, seqno: nat): string {
    Tag(v5) + Digits(seqno)
  }

  predicate HasTag(key: string, v5: bool) {
    Tag(v5) <= key
  }

  /** The numbers whose key the buffer holds. */
  function KeyLimit(v5: bool): nat {
    if v5 then 100000 else 1000000
  }

  /** The key buffer is large enough exactly for the numbers below the limit. */
  lemma KeyFits(v5: bool, seqno: nat)
    ensures |Key(v5, seqno)| <= MAX_KEY_LENGTH <==> seqno < KeyLimit(v5)
    ensures |Key(v5, seqno)| <= 8 <==> seqno < if v5 then 100000 else 1000000
  {
    assert Pow10(5) == 100000 && Pow10(6) == 10 * Pow10(5);
    DigitsLength(seqno, if v5 then 5 else 6);
  }

  /** What follows the first '-'. */
  function AfterDash(key: string): string {
    if key == [] then [] else if key[0] == '-' then key[1..] else AfterDash(key[1..])
  }

  /** `atoi(strchr(key, '-') + 1)`, for what is left of a key of ours. */
  function SeqnoOf(key: string): nat {
    if AllDigits(AfterDash(key)) then ReadDigits(AfterDash(key), 0) else 0
  }

  /** The number is read back from the key. */
  lemma SeqnoOfKey(v5: bool, seqno: nat)
    ensures SeqnoOf(Key(v5, seqno)) == seqno && HasTag(Key(v5, seqno), v5) && !HasTag(Key(v5, seqno), !v5)
  {
    hide Digits;
    var key, digits := Key(v5, seqno), Digits(seqno);
    if v5 {
      assert key[1..] == "5-" + digits && key[1..][1..] == "-" + digits && key[1..][1..][1..] == digits;
      assert AfterDash(key) == AfterDash(key[1..]) == AfterDash(key[1..][1..]) == digits;
      assert key[1] == '5';
    } else {
      assert key[1..] == "-" + digits && key[1..][1..] == digits;
      assert AfterDash(key) == AfterDash(key[1..]) == digits;
      assert key[1] == '-';
    }
    ReadOfDigits(seqno);
  }

  /** Different numbers have different keys. */
  lemma KeysDiffer(v5: bool, a: nat, b: nat)
    ensures Key(v5, a) == Key(v5, b) <==> a == b
  {
    hide Key, SeqnoOf;
    SeqnoOfKey(v5, a);
    SeqnoOfKey(v5, b);
  }
}
