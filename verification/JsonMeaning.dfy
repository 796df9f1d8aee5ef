/** What the meanings `cJSON_Compare` is measured by say: trees without objects mean themselves, an object means the map
    of its first members, and names are folded letter by letter. */
module JsonMeaning {
  import opened JsonCompare
  import opened JsonTree

  function Capital(k: int): char
    requires 0 <= k < 26
  {
    "ABCDEFGHIJKLMNOPQRSTUVWXYZ"[k]
  }

  function Small(k: int): char
    requires 0 <= k < 26
  {
    "abcdefghijklmnopqrstuvwxyz"[k]
  }

  /** One is a letter and the other the same letter in the other case. */
  predicate OtherCase(c: char, d: char) {
    exists k :: 0 <= k < 26 && ((c == Capital(k) && d == Small(k)) || (c == Small(k) && d == Capital(k)))
  }

  /** Names are the same without case sensitivity if they differ in the case of letters only. */
  lemma NamesFold(a: string, b: string)
    ensures Fold(a, true) == Fold(b, true) <==> a == b
    ensures Fold(a, false) == Fold(b, false) <==>
              |a| == |b| && forall i :: 0 <= i < |a| ==> a[i] == b[i] || OtherCase(a[i], b[i])
  {
    hide Lower, LowerAll, OtherCase;
    SameFolded(a, b);
    forall i | 0 <= i < |a| && |a| == |b|
      ensures Lower(a[i]) == Lower(b[i]) <==> a[i] == b[i] || OtherCase(a[i], b[i])
    {
      LettersFold(a[i], b[i]);
    }
  }

  lemma LettersFold(c: char, d: char)
    ensures Lower(c) == Lower(d) <==> c == d || OtherCase(c, d)
  {
    hide Capital, Small;
    forall k | 0 <= k < 26
      ensures Capital(k) as int == 'A' as int + k && Small(k) as int == 'a' as int + k
    {
      CapitalAt(k);
      SmallAt(k);
    }
    if Lower(c) == Lower(d) && c != d {
      var k := (if 'A' <= c <= 'Z' then c else d) as int - 'A' as int;
      assert (c == Capital(k) && d == Small(k)) || (c == Small(k) && d == Capital(k));
    }
  }

  lemma CapitalAt(k: int)
    requires 0 <= k < 26
    ensures Capital(k) as int == 'A' as int + k
  {
  }

  lemma SmallAt(k: int)
    requires 0 <= k < 26
    ensures Small(k) as int == 'a' as int + k
  {
  }

  // ---------- Trees without objects ----------

  predicate NoObject(v: JSON)
    decreases v, 1
  {
    match v
    case Array(items) => NoObjectIn(items)
    case Object(_) => false
    case _ => true
  }

  predicate NoObjectIn(items: seq<JSON>)
    decreases items, 0
  {
    items == [] || (NoObject(items[0]) && NoObjectIn(items[1..]))
  }

  /** They mean the same only if they are the same. */
  lemma {:induction false} MeansItself(a: JSON, b: JSON, caseSensitive: bool)
    requires NoObject(a) && NoObject(b)
    ensures Denote(a, caseSensitive) == Denote(b, caseSensitive) <==> a == b
    decreases a, 1
  {
    if a.Array? && b.Array? {
      MeanThemselves(a.items, b.items, caseSensitive);
      hide DenoteItems, NoObjectIn;
    }
  }

  lemma {:induction false} MeanThemselves(a: seq<JSON>, b: seq<JSON>, caseSensitive: bool)
    requires NoObjectIn(a) && NoObjectIn(b)
    ensures DenoteItems(a, caseSensitive) == DenoteItems(b, caseSensitive) <==> a == b
    decreases a, 0
  {
    hide Denote, NoObject;
    var x, y := DenoteItems(a, caseSensitive), DenoteItems(b, caseSensitive);
    if a == [] || b == [] {
      assert |x| == |a| && |y| == |b|;
    } else {
      MeansItself(a[0], b[0], caseSensitive);
      MeanThemselves(a[1..], b[1..], caseSensitive);
      assert x == y <==> x[0] == y[0] && x[1..] == y[1..] by {
        assert x == [x[0]] + x[1..] && y == [y[0]] + y[1..];
      }
      assert a == b <==> a[0] == b[0] && a[1..] == b[1..] by {
        assert a == [a[0]] + a[1..] && b == [b[0]] + b[1..];
      }
    }
  }

  lemma {:induction false} NoObjectIsCoherent(v: JSON, caseSensitive: bool)
    requires NoObject(v)
    ensures Coherent(v, caseSensitive)
    decreases v, 1
  {
    if v.Array? {
      NoObjectsAreCoherent(v.items, caseSensitive);
    }
  }

  lemma {:induction false} NoObjectsAreCoherent(items: seq<JSON>, caseSensitive: bool)
    requires NoObjectIn(items)
    ensures CoherentItems(items, caseSensitive)
    decreases items, 0
  {
    hide Coherent, NoObject;
    if items != [] {
      NoObjectIsCoherent(items[0], caseSensitive);
      NoObjectsAreCoherent(items[1..], caseSensitive);
    }
  }

  /** Trees without objects compare equal exactly if they are equal. */
  lemma ComparesAsEqual(a: JSON, b: JSON, caseSensitive: bool)
    requires NoObject(a) && NoObject(b)
    ensures Same(a, b, caseSensitive) <==> a == b
  {
    hide Same, Denote, NoObject, Coherent;
    SameIsMeaning(a, b, caseSensitive);
    NoObjectIsCoherent(a, caseSensitive);
    NoObjectIsCoherent(b, caseSensitive);
    MeansItself(a, b, caseSensitive);
  }

  // ---------- Objects ----------

  /** An object means what its first member of each name means, by that name. */
  lemma {:induction false} MeansFirst(members: seq<Member>, i: nat, caseSensitive: bool)
    requires i < |members|
    requires forall k :: 0 <= k < i ==> Fold(members[k].key, caseSensitive) != Fold(members[i].key, caseSensitive)
    ensures var m, name := DenoteMembers(members, caseSensitive), Fold(members[i].key, caseSensitive);
            name in m && m[name] == Denote(members[i].value, caseSensitive)
    decreases i
  {
    hide Fold, Denote;
    if i > 0 {
      assert members[1..][i - 1] == members[i];
      MeansFirst(members[1..], i - 1, caseSensitive);
    }
  }

  /** And nothing by other names. */
  lemma {:induction false} MeansNoMore(members: seq<Member>, name: string, caseSensitive: bool)
    ensures name in DenoteMembers(members, caseSensitive)
       <==> exists i :: 0 <= i < |members| && Fold(members[i].key, caseSensitive) == name
    decreases |members|
  {
    hide Fold, Denote;
    if members != [] {
      MeansNoMore(members[1..], name, caseSensitive);
      if i :| 0 <= i < |members| && Fold(members[i].key, caseSensitive) == name {
        assert i > 0 ==> members[1..][i - 1] == members[i];
      }
      if i :| 0 <= i < |members| - 1 && Fold(members[1..][i].key, caseSensitive) == name {
        assert members[i + 1] == members[1..][i];
      }
    }
  }
}
