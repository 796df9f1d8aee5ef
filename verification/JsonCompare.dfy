/** `cJSON_Compare`: deep comparison, against what a tree means.

    The meaning of an object is a map from names to meanings, so that the order of the members does not show; without
    case sensitivity the names are folded to lower case.  A tree is coherent if members of one name have one meaning,
    which unique names make sure of.  Two trees compare equal exactly if both are coherent and they mean the same. */
module JsonCompare {
  import opened JsonTree
  import opened Wrappers

  // ---------- Sizes ----------

  function Size(v: JSON): (n: nat)
    ensures n > 0
    decreases v, 1
  {
    match v
    case Array(items) => 1 + ItemsSize(items)
    case Object(members) => 1 + MembersSize(members)
    case _ => 1
  }

  function ItemsSize(items: seq<JSON>): nat
    decreases items, 0
  {
    if items == [] then 0 else Size(items[0]) + ItemsSize(items[1..])
  }

  function MembersSize(members: seq<Member>): nat
    decreases members, 0
  {
    if members == [] then 0 else Size(members[0].value) + MembersSize(members[1..])
  }

  // ---------- Names ----------

  /** `tolower` in the C locale. */
  function Lower(c: char): char {
    if 'A' <= c <= 'Z' then (c as int + 32) as char else c
  }

  function LowerAll(s: string): (r: string)
    ensures |r| == |s| && forall i :: 0 <= i < |s| ==> r[i] == Lower(s[i])
  {
    if s == [] then [] else [Lower(s[0])] + LowerAll(s[1..])
  }

  function Fold(name: string, caseSensitive: bool): string {
    if caseSensitive then name else LowerAll(name)
  }

  /** The character at `i` of a C string, its NUL included. */
  function CharAt(s: string, i: nat): char
    requires i <= |s|
  {
    if i < |s| then s[i] else NUL
  }

  lemma SameFolded(s: string, t: string)
    ensures LowerAll(s) == LowerAll(t) <==> |s| == |t| && forall i :: 0 <= i < |s| ==> Lower(s[i]) == Lower(t[i])
  {
    hide Lower;
    var l, r := LowerAll(s), LowerAll(t);
    if l == r {
      forall i | 0 <= i < |s| ensures Lower(s[i]) == Lower(t[i]) {
        assert l[i] == r[i];
      }
    }
  }

  lemma FoldedEnds(s: string, t: string, i: nat)
    requires NulFree(s) && NulFree(t) && i <= |s| && i <= |t| && Lower(CharAt(s, i)) == Lower(CharAt(t, i))
    ensures i == |s| <==> i == |t|
    ensures CharAt(s, i) == NUL <==> i == |s|
  {
  }

  /** `case_insensitive_strcmp`. */
  method CaseInsensitiveStrcmp(string1: string, string2: string) returns (order: int)
    requires NulFree(string1) && NulFree(string2)
    ensures order == 0 <==> LowerAll(string1) == LowerAll(string2)
  {
    hide LowerAll, NulFree, Lower;
    SameFolded(string1, string2);
    var i: nat := 0;
    while Lower(CharAt(string1, i)) == Lower(CharAt(string2, i))
      invariant i <= |string1| && i <= |string2|
      invariant forall k :: 0 <= k < i ==> Lower(string1[k]) == Lower(string2[k])
      decreases |string1| - i
    {
      FoldedEnds(string1, string2, i);
      if CharAt(string1, i) == NUL {
        return 0;
      }
      i := i + 1;
    }
    order := Lower(CharAt(string1, i)) as int - Lower(CharAt(string2, i)) as int;
  }

  /** The first member of that name. */
  function Find(members: seq<Member>, name: string, caseSensitive: bool): (i: Option<nat>)
    ensures i.Some? ==> i.value < |members| && Size(members[i.value].value) <= MembersSize(members)
                        && Fold(members[i.value].key, caseSensitive) == Fold(name, caseSensitive)
    ensures i.None? ==> forall k :: 0 <= k < |members| ==>
                                      Fold(members[k].key, caseSensitive) != Fold(name, caseSensitive)
  {
    if members == [] then None
    else if Fold(members[0].key, caseSensitive) == Fold(name, caseSensitive) then Some(0)
    else
      var rest := Find(members[1..], name, caseSensitive);
      if rest.None? then None else Some(rest.value + 1)
  }

  lemma {:induction false} FindFirst(members: seq<Member>, name: string, caseSensitive: bool, i: nat)
    requires i < |members| && Fold(members[i].key, caseSensitive) == Fold(name, caseSensitive)
    requires forall k :: 0 <= k < i ==> Fold(members[k].key, caseSensitive) != Fold(name, caseSensitive)
    ensures Find(members, name, caseSensitive) == Some(i)
    decreases i
  {
    hide Fold;
    if i > 0 {
      FindFirst(members[1..], name, caseSensitive, i - 1);
    }
  }

  /** `get_object_item`. */
  method GetObjectItem(members: seq<Member>, name: string, caseSensitive: bool) returns (found: Option<nat>)
    requires NulFree(name) && forall k :: 0 <= k < |members| ==> NulFree(members[k].key)
    ensures found == Find(members, name, caseSensitive)
  {
    hide Find, LowerAll, NulFree;
    var i := 0;
    while i < |members|
      invariant 0 <= i <= |members|
      invariant forall k :: 0 <= k < i ==> Fold(members[k].key, caseSensitive) != Fold(name, caseSensitive)
    {
      var order;
      if caseSensitive {
        order := if name == members[i].key then 0 else 1;
      } else {
        order := CaseInsensitiveStrcmp(name, members[i].key);
      }
      if order == 0 {
        FindFirst(members, name, caseSensitive, i);
        return Some(i);
      }
      i := i + 1;
    }
    found := None;
  }

  // ---------- The comparison ----------

  /** What `cJSON_Compare` answers for two different nodes. */
  predicate Same(a: JSON, b: JSON, caseSensitive: bool)
    decreases Size(a) + Size(b), 0, 0
  {
    match a
    case Null => b.Null?
    case False => b.False?
    case True => b.True?
    case Number(x) => b.Number? && x == b.value
    case String(s) => b.String? && s == b.text
    case Array(items) => b.Array? && SameItems(items, b.items, caseSensitive)
    case Object(members) =>
      b.Object? && SameMembers(members, b.members, caseSensitive) && SameMembers(b.members, members, caseSensitive)
  }

  predicate SameItems(left: seq<JSON>, right: seq<JSON>, caseSensitive: bool)
    decreases ItemsSize(left) + ItemsSize(right), 1, |left|
  {
    if left == [] || right == [] then left == right
    else Same(left[0], right[0], caseSensitive) && SameItems(left[1..], right[1..], caseSensitive)
  }

  /** Every member has a first counterpart of its name, and that one is the same. */
  predicate SameMembers(left: seq<Member>, right: seq<Member>, caseSensitive: bool)
    decreases MembersSize(left) + MembersSize(right), 1, |left|
  {
    if left == [] then true
    else
      var j := Find(right, left[0].key, caseSensitive);
      && j.Some?
      && Same(left[0].value, right[j.value].value, caseSensitive)
      && SameMembers(left[1..], right, caseSensitive)
  }

  /** `cJSON_Compare`; `identical` tells that the two are one node, which counts as equal without a look. */
  method Compare(a: JSON, b: JSON, identical: bool, caseSensitive: bool) returns (same: bool)
    requires Printable(a, false) && Printable(b, false) && (identical ==> a == b)
    ensures same <==> identical || Same(a, b, caseSensitive)
    decreases Size(a) + Size(b), 0, 0
  {
    hide SameItems, SameMembers;
    if identical {
      return true;
    }
    match a
    case Null => same := b.Null?;
    case False => same := b.False?;
    case True => same := b.True?;
    case Number(x) => same := b.Number? && x == b.value;
    case String(s) => same := b.String? && s == b.text;
    case Array(items) =>
      if !b.Array? {
        return false;
      }
      same := CompareItems(items, b.items, caseSensitive);
    case Object(members) =>
      if !b.Object? {
        return false;
      }
      same := CompareMembers(members, b.members, caseSensitive);
      if same {
        same := CompareMembers(b.members, members, caseSensitive);
      }
  }

  /** The loop over two arrays. */
  method CompareItems(left: seq<JSON>, right: seq<JSON>, caseSensitive: bool) returns (same: bool)
    requires PrintableItems(left, false) && PrintableItems(right, false)
    ensures same == SameItems(left, right, caseSensitive)
    decreases ItemsSize(left) + ItemsSize(right), 1, 0
  {
    hide Same, Printable;
    var l, r := left, right;
    while l != [] && r != []
      invariant SameItems(left, right, caseSensitive) == SameItems(l, r, caseSensitive)
      invariant PrintableItems(l, false) && PrintableItems(r, false)
      invariant ItemsSize(l) <= ItemsSize(left) && ItemsSize(r) <= ItemsSize(right)
      decreases |l|
    {
      var one := Compare(l[0], r[0], false, caseSensitive);
      if !one {
        return false;
      }
      l, r := l[1..], r[1..];
    }
    same := l == [] && r == [];
  }

  /** One of the two loops over the members. */
  method CompareMembers(left: seq<Member>, right: seq<Member>, caseSensitive: bool) returns (same: bool)
    requires PrintableMembers(left, false) && PrintableMembers(right, false)
    ensures same == SameMembers(left, right, caseSensitive)
    decreases MembersSize(left) + MembersSize(right), 1, 0
  {
    hide Same, Printable, NulFree, Find;
    NamesNulFree(right);
    var l := left;
    while l != []
      invariant SameMembers(left, right, caseSensitive) == SameMembers(l, right, caseSensitive)
      invariant PrintableMembers(l, false) && MembersSize(l) <= MembersSize(left)
      decreases |l|
    {
      var j := GetObjectItem(right, l[0].key, caseSensitive);
      if j.None? {
        return false;
      }
      PrintableMember(right, j.value);
      var one := Compare(l[0].value, right[j.value].value, false, caseSensitive);
      if !one {
        return false;
      }
      l := l[1..];
    }
    same := true;
  }

  lemma {:induction false} PrintableMember(members: seq<Member>, i: nat)
    requires PrintableMembers(members, false) && i < |members|
    ensures NulFree(members[i].key) && Printable(members[i].value, false)
    decreases i
  {
    hide NulFree, Printable;
    if i > 0 {
      PrintableMember(members[1..], i - 1);
    }
  }

  lemma NamesNulFree(members: seq<Member>)
    requires PrintableMembers(members, false)
    ensures forall k :: 0 <= k < |members| ==> NulFree(members[k].key)
  {
    hide NulFree;
    forall k | 0 <= k < |members| ensures NulFree(members[k].key) {
      PrintableMember(members, k);
    }
  }

  // ---------- What a tree means ----------

  datatype Meaning =
    | MeansNull
    | MeansFalse
    | MeansTrue
    | MeansNumber(value: real)
    | MeansString(text: string)
    | MeansArray(items: seq<Meaning>)
    | MeansObject(members: map<string, Meaning>)

  function Denote(v: JSON, caseSensitive: bool): Meaning
    decreases v, 1
  {
    match v
    case Null => MeansNull
    case False => MeansFalse
    case True => MeansTrue
    case Number(x) => MeansNumber(x)
    case String(s) => MeansString(s)
    case Array(items) => MeansArray(DenoteItems(items, caseSensitive))
    case Object(members) => MeansObject(DenoteMembers(members, caseSensitive))
  }

  function DenoteItems(items: seq<JSON>, caseSensitive: bool): (r: seq<Meaning>)
    ensures |r| == |items|
    decreases items, 0
  {
    if items == [] then [] else [Denote(items[0], caseSensitive)] + DenoteItems(items[1..], caseSensitive)
  }

  function DenoteMembers(members: seq<Member>, caseSensitive: bool): map<string, Meaning>
    decreases members, 0
  {
    if members == [] then map[]
    else DenoteMembers(members[1..], caseSensitive)
         [Fold(members[0].key, caseSensitive) := Denote(members[0].value, caseSensitive)]
  }

  /** No object has two members of one name. */
  predicate UniqueNames(v: JSON, caseSensitive: bool)
    decreases v, 1
  {
    match v
    case Array(items) => UniqueNamesItems(items, caseSensitive)
    case Object(members) => UniqueNamesMembers(members, caseSensitive)
    case _ => true
  }

  predicate UniqueNamesItems(items: seq<JSON>, caseSensitive: bool)
    decreases items, 0
  {
    items == [] || (UniqueNames(items[0], caseSensitive) && UniqueNamesItems(items[1..], caseSensitive))
  }

  predicate UniqueNamesMembers(members: seq<Member>, caseSensitive: bool)
    decreases members, 0
  {
    members == [] || (Find(members[1..], members[0].key, caseSensitive).None?
                      && UniqueNames(members[0].value, caseSensitive)
                      && UniqueNamesMembers(members[1..], caseSensitive))
  }

  /** Members of one name have one meaning, in every object of the tree. */
  predicate Coherent(v: JSON, caseSensitive: bool)
    decreases v, 1
  {
    match v
    case Array(items) => CoherentItems(items, caseSensitive)
    case Object(members) => CoherentMembers(members, caseSensitive) && NamesAgree(members, caseSensitive)
    case _ => true
  }

  predicate CoherentItems(items: seq<JSON>, caseSensitive: bool)
    decreases items, 0
  {
    items == [] || (Coherent(items[0], caseSensitive) && CoherentItems(items[1..], caseSensitive))
  }

  predicate CoherentMembers(members: seq<Member>, caseSensitive: bool)
    decreases members, 0
  {
    members == [] || (Coherent(members[0].value, caseSensitive) && CoherentMembers(members[1..], caseSensitive))
  }

  predicate NamesAgree(members: seq<Member>, caseSensitive: bool) {
    forall i, k :: 0 <= i < |members| && 0 <= k < |members|
                   && Fold(members[i].key, caseSensitive) == Fold(members[k].key, caseSensitive) ==>
                     Denote(members[i].value, caseSensitive) == Denote(members[k].value, caseSensitive)
  }

  lemma {:induction false} CoherentMember(members: seq<Member>, i: nat, caseSensitive: bool)
    requires CoherentMembers(members, caseSensitive) && i < |members|
    ensures Coherent(members[i].value, caseSensitive)
    decreases i
  {
    hide Coherent;
    if i > 0 {
      CoherentMember(members[1..], i - 1, caseSensitive);
    }
  }

  lemma {:induction false} AllCoherent(members: seq<Member>, caseSensitive: bool)
    requires forall i :: 0 <= i < |members| ==> Coherent(members[i].value, caseSensitive)
    ensures CoherentMembers(members, caseSensitive)
    decreases |members|
  {
    hide Coherent;
    if members != [] {
      assert forall i :: 0 <= i < |members| - 1 ==> members[1..][i] == members[i + 1];
      AllCoherent(members[1..], caseSensitive);
    }
  }

  /** The meaning of a name is that of the first member of that name. */
  lemma {:induction false} Meanings(members: seq<Member>, name: string, caseSensitive: bool)
    ensures var i := Find(members, name, caseSensitive); var all := DenoteMembers(members, caseSensitive);
            if i.None? then Fold(name, caseSensitive) !in all
            else Fold(name, caseSensitive) in all
                 && all[Fold(name, caseSensitive)] == Denote(members[i.value].value, caseSensitive)
    decreases |members|
  {
    hide Fold, Denote;
    if members != [] {
      Meanings(members[1..], name, caseSensitive);
    }
  }

  /** Every name that means something is a member's. */
  lemma {:induction false} MeaningIsNamed(members: seq<Member>, folded: string, caseSensitive: bool) returns (i: nat)
    requires folded in DenoteMembers(members, caseSensitive)
    ensures i < |members| && Fold(members[i].key, caseSensitive) == folded
    decreases |members|
  {
    hide Fold, Denote;
    if Fold(members[0].key, caseSensitive) == folded {
      i := 0;
    } else {
      i := MeaningIsNamed(members[1..], folded, caseSensitive);
      i := i + 1;
    }
  }

  // ---------- The comparison is equality of meanings ----------

  /** A counterpart for every one of the first members. */
  lemma {:induction false} Counterparts(left: seq<Member>, right: seq<Member>, i: nat, caseSensitive: bool)
    requires SameMembers(left, right, caseSensitive) && i < |left|
    ensures var j := Find(right, left[i].key, caseSensitive);
            j.Some? && Same(left[i].value, right[j.value].value, caseSensitive)
    decreases i
  {
    hide Same, Find;
    if i > 0 {
      Counterparts(left[1..], right, i - 1, caseSensitive);
    }
  }

  lemma {:induction false} MemberIsSmaller(members: seq<Member>, i: nat)
    requires i < |members|
    ensures Size(members[i].value) <= MembersSize(members)
    decreases i
  {
    hide Size;
    if i > 0 {
      MemberIsSmaller(members[1..], i - 1);
    }
  }

  /** On coherent trees the comparison is equality of meanings. */
  lemma {:induction false} CoherentIsMeaning(a: JSON, b: JSON, caseSensitive: bool)
    requires Coherent(a, caseSensitive) && Coherent(b, caseSensitive)
    ensures Same(a, b, caseSensitive) <==> Denote(a, caseSensitive) == Denote(b, caseSensitive)
    decreases Size(a) + Size(b), 0, 0
  {
    hide SameItems, SameMembers, DenoteItems, DenoteMembers, NamesAgree;
    if a.Array? && b.Array? {
      CoherentItemsMean(a.items, b.items, caseSensitive);
    } else if a.Object? && b.Object? {
      if Same(a, b, caseSensitive) {
        MeaningsAgree(a.members, b.members, caseSensitive);
        MeaningsAgree(b.members, a.members, caseSensitive);
        assert DenoteMembers(a.members, caseSensitive) == DenoteMembers(b.members, caseSensitive);
      }
      if DenoteMembers(a.members, caseSensitive) == DenoteMembers(b.members, caseSensitive) {
        MembersAgree(a.members, a.members, b.members, 0, caseSensitive);
        MembersAgree(b.members, b.members, a.members, 0, caseSensitive);
      }
    }
  }

  lemma {:induction false} CoherentItemsMean(left: seq<JSON>, right: seq<JSON>, caseSensitive: bool)
    requires CoherentItems(left, caseSensitive) && CoherentItems(right, caseSensitive)
    ensures SameItems(left, right, caseSensitive)
       <==> DenoteItems(left, caseSensitive) == DenoteItems(right, caseSensitive)
    decreases ItemsSize(left) + ItemsSize(right), 1, |left|
  {
    hide Same, Denote, Coherent;
    if left != [] && right != [] {
      CoherentIsMeaning(left[0], right[0], caseSensitive);
      CoherentItemsMean(left[1..], right[1..], caseSensitive);
      var l, r := DenoteItems(left, caseSensitive), DenoteItems(right, caseSensitive);
      assert l[1..] == DenoteItems(left[1..], caseSensitive) && r[1..] == DenoteItems(right[1..], caseSensitive);
      assert l == r <==> l[0] == r[0] && l[1..] == r[1..] by {
        assert l == [l[0]] + l[1..] && r == [r[0]] + r[1..];
      }
    }
  }

  /** What a member means is what its name means. */
  lemma MemberMeans(members: seq<Member>, i: nat, caseSensitive: bool)
    requires i < |members| && NamesAgree(members, caseSensitive)
    ensures var name := Fold(members[i].key, caseSensitive); var all := DenoteMembers(members, caseSensitive);
            name in all && all[name] == Denote(members[i].value, caseSensitive)
  {
    hide Denote, DenoteMembers, Find, Fold;
    Meanings(members, members[i].key, caseSensitive);
  }

  /** If every member has a counterpart, every meaning of the left is one of the right. */
  lemma {:induction false} MeaningsAgree(left: seq<Member>, right: seq<Member>, caseSensitive: bool)
    requires CoherentMembers(left, caseSensitive) && CoherentMembers(right, caseSensitive)
    requires NamesAgree(left, caseSensitive) && NamesAgree(right, caseSensitive)
    requires SameMembers(left, right, caseSensitive)
    ensures var l, r := DenoteMembers(left, caseSensitive), DenoteMembers(right, caseSensitive);
            forall name :: name in l ==> name in r && l[name] == r[name]
    decreases MembersSize(left) + MembersSize(right), 1, 0
  {
    hide Same, Denote, DenoteMembers, SameMembers, Find, Coherent, CoherentMembers, NamesAgree, Fold;
    var l, r := DenoteMembers(left, caseSensitive), DenoteMembers(right, caseSensitive);
    forall name | name in l
      ensures name in r && l[name] == r[name]
    {
      var i := MeaningIsNamed(left, name, caseSensitive);
      CoherentMember(left, i, caseSensitive);
      MemberMeans(left, i, caseSensitive);
      Counterparts(left, right, i, caseSensitive);
      var j := Find(right, left[i].key, caseSensitive).value;
      CoherentMember(right, j, caseSensitive);
      MemberMeans(right, j, caseSensitive);
      MemberIsSmaller(left, i);
      CoherentIsMeaning(left[i].value, right[j].value, caseSensitive);
    }
  }

  /** If the meanings are equal, every member from `i` on has a counterpart. */
  lemma {:induction false} MembersAgree(suffix: seq<Member>, left: seq<Member>, right: seq<Member>, i: nat,
                                        caseSensitive: bool)
    requires CoherentMembers(left, caseSensitive) && CoherentMembers(right, caseSensitive)
    requires NamesAgree(left, caseSensitive) && NamesAgree(right, caseSensitive)
    requires DenoteMembers(left, caseSensitive) == DenoteMembers(right, caseSensitive)
    requires i <= |left| && suffix == left[i..]
    ensures SameMembers(suffix, right, caseSensitive)
    decreases MembersSize(left) + MembersSize(right), 1, |suffix|
  {
    hide Same, Denote, DenoteMembers, Find, Coherent, CoherentMembers, NamesAgree, Fold;
    if suffix != [] {
      assert suffix[0] == left[i] && suffix[1..] == left[i + 1..];
      CoherentMember(left, i, caseSensitive);
      MemberMeans(left, i, caseSensitive);
      Meanings(right, left[i].key, caseSensitive);
      var j := Find(right, left[i].key, caseSensitive).value;
      CoherentMember(right, j, caseSensitive);
      MemberIsSmaller(left, i);
      CoherentIsMeaning(left[i].value, right[j].value, caseSensitive);
      MembersAgree(suffix[1..], left, right, i + 1, caseSensitive);
    }
  }

  // ---------- Only coherent trees compare equal ----------

  /** Trees that compare equal are coherent and mean the same. */
  lemma {:induction false} SameIsCoherent(a: JSON, b: JSON, caseSensitive: bool)
    requires Same(a, b, caseSensitive)
    ensures Coherent(a, caseSensitive) && Coherent(b, caseSensitive)
    ensures Denote(a, caseSensitive) == Denote(b, caseSensitive)
    decreases Size(a) + Size(b), 0, 0
  {
    hide SameItems, SameMembers, Denote, NamesAgree;
    if a.Array? {
      SameItemsAreCoherent(a.items, b.items, caseSensitive);
    } else if a.Object? {
      SameMembersAreCoherent(a.members, b.members, caseSensitive);
      SameMembersAreCoherent(b.members, a.members, caseSensitive);
    }
    CoherentIsMeaning(a, b, caseSensitive);
  }

  lemma {:induction false} SameItemsAreCoherent(left: seq<JSON>, right: seq<JSON>, caseSensitive: bool)
    requires SameItems(left, right, caseSensitive)
    ensures CoherentItems(left, caseSensitive) && CoherentItems(right, caseSensitive)
    decreases ItemsSize(left) + ItemsSize(right), 1, |left|
  {
    hide Same, Denote, Coherent;
    if left != [] && right != [] {
      SameIsCoherent(left[0], right[0], caseSensitive);
      SameItemsAreCoherent(left[1..], right[1..], caseSensitive);
    }
  }

  /** Members of one name have the same counterpart. */
  lemma {:induction false} OneCounterpart(members: seq<Member>, x: string, y: string, caseSensitive: bool)
    requires Fold(x, caseSensitive) == Fold(y, caseSensitive)
    ensures Find(members, x, caseSensitive) == Find(members, y, caseSensitive)
    decreases |members|
  {
    hide Fold;
    if members != [] {
      OneCounterpart(members[1..], x, y, caseSensitive);
    }
  }

  /** Each member means what its counterpart means. */
  lemma {:induction false} CounterpartMeans(left: seq<Member>, right: seq<Member>, i: nat, caseSensitive: bool)
    requires SameMembers(left, right, caseSensitive) && i < |left|
    ensures Coherent(left[i].value, caseSensitive)
    ensures var j := Find(right, left[i].key, caseSensitive);
            j.Some? && Denote(left[i].value, caseSensitive) == Denote(right[j.value].value, caseSensitive)
    decreases MembersSize(left) + MembersSize(right), 1, 0
  {
    hide Same, Denote, SameMembers, Find, Coherent, Fold;
    Counterparts(left, right, i, caseSensitive);
    var j := Find(right, left[i].key, caseSensitive).value;
    MemberIsSmaller(left, i);
    SameIsCoherent(left[i].value, right[j].value, caseSensitive);
  }

  lemma {:induction false} SameMembersAreCoherent(left: seq<Member>, right: seq<Member>, caseSensitive: bool)
    requires SameMembers(left, right, caseSensitive)
    ensures CoherentMembers(left, caseSensitive) && NamesAgree(left, caseSensitive)
    decreases MembersSize(left) + MembersSize(right), 1, 1
  {
    hide Same, Denote, SameMembers, Find, Coherent, CoherentMembers, Fold;
    forall i | 0 <= i < |left|
      ensures Coherent(left[i].value, caseSensitive)
    {
      CounterpartMeans(left, right, i, caseSensitive);
    }
    AllCoherent(left, caseSensitive);
    forall i, k | 0 <= i < |left| && 0 <= k < |left|
                  && Fold(left[i].key, caseSensitive) == Fold(left[k].key, caseSensitive)
      ensures Denote(left[i].value, caseSensitive) == Denote(left[k].value, caseSensitive)
    {
      CounterpartMeans(left, right, i, caseSensitive);
      CounterpartMeans(left, right, k, caseSensitive);
      OneCounterpart(right, left[i].key, left[k].key, caseSensitive);
    }
  }

  // ---------- Main results ----------

  /** Two trees compare equal exactly if both are coherent and they mean the same. */
  lemma SameIsMeaning(a: JSON, b: JSON, caseSensitive: bool)
    ensures Same(a, b, caseSensitive)
       <==> && Coherent(a, caseSensitive) && Coherent(b, caseSensitive)
            && Denote(a, caseSensitive) == Denote(b, caseSensitive)
  {
    hide Same, Denote, Coherent;
    if Same(a, b, caseSensitive) {
      SameIsCoherent(a, b, caseSensitive);
    } else if Coherent(a, caseSensitive) && Coherent(b, caseSensitive) {
      CoherentIsMeaning(a, b, caseSensitive);
    }
  }

  /** The comparison is symmetric and transitive on all trees, and a tree equals a copy of itself exactly if it is
      coherent. */
  lemma Equivalence(a: JSON, b: JSON, c: JSON, caseSensitive: bool)
    ensures Same(a, a, caseSensitive) <==> Coherent(a, caseSensitive)
    ensures Same(a, b, caseSensitive) <==> Same(b, a, caseSensitive)
    ensures Same(a, b, caseSensitive) && Same(b, c, caseSensitive) ==> Same(a, c, caseSensitive)
  {
    hide Same, Denote, Coherent;
    SameIsMeaning(a, a, caseSensitive);
    SameIsMeaning(a, b, caseSensitive);
    SameIsMeaning(b, a, caseSensitive);
    SameIsMeaning(b, c, caseSensitive);
    SameIsMeaning(a, c, caseSensitive);
  }

  lemma {:induction false} UniqueMember(members: seq<Member>, i: nat, caseSensitive: bool)
    requires UniqueNamesMembers(members, caseSensitive) && i < |members|
    ensures UniqueNames(members[i].value, caseSensitive)
    ensures forall k :: 0 <= k < i ==> Fold(members[k].key, caseSensitive) != Fold(members[i].key, caseSensitive)
    decreases i
  {
    hide UniqueNames, Fold;
    if i > 0 {
      UniqueMember(members[1..], i - 1, caseSensitive);
      assert members[1..][i - 1] == members[i];
      forall k | 0 <= k < i
        ensures Fold(members[k].key, caseSensitive) != Fold(members[i].key, caseSensitive)
      {
        if k > 0 {
          assert members[1..][k - 1] == members[k];
        }
      }
    }
  }

  /** Unique names are enough. */
  lemma {:induction false} UniqueIsCoherent(v: JSON, caseSensitive: bool)
    requires UniqueNames(v, caseSensitive)
    ensures Coherent(v, caseSensitive)
    decreases v, 1
  {
    hide Denote, Find, Fold;
    match v
    case Array(items) => UniqueItemsAreCoherent(items, caseSensitive);
    case Object(members) =>
      UniqueMembersAreCoherent(members, caseSensitive);
      UniqueNamesAgree(members, caseSensitive);
    case _ =>
  }

  lemma {:induction false} UniqueItemsAreCoherent(items: seq<JSON>, caseSensitive: bool)
    requires UniqueNamesItems(items, caseSensitive)
    ensures CoherentItems(items, caseSensitive)
    decreases items, 0
  {
    hide UniqueNames, Coherent;
    if items != [] {
      UniqueIsCoherent(items[0], caseSensitive);
      UniqueItemsAreCoherent(items[1..], caseSensitive);
    }
  }

  lemma {:induction false} UniqueMembersAreCoherent(members: seq<Member>, caseSensitive: bool)
    requires UniqueNamesMembers(members, caseSensitive)
    ensures CoherentMembers(members, caseSensitive)
    decreases members, 0
  {
    hide UniqueNames, Coherent, Find;
    if members != [] {
      UniqueIsCoherent(members[0].value, caseSensitive);
      UniqueMembersAreCoherent(members[1..], caseSensitive);
    }
  }

  lemma UniqueNamesAgree(members: seq<Member>, caseSensitive: bool)
    requires UniqueNamesMembers(members, caseSensitive)
    ensures NamesAgree(members, caseSensitive)
  {
    hide Denote, Fold, UniqueNamesMembers;
    forall i, k | 0 <= i < |members| && 0 <= k < |members|
                  && Fold(members[i].key, caseSensitive) == Fold(members[k].key, caseSensitive)
      ensures i == k
    {
      UniqueMember(members, i, caseSensitive);
      UniqueMember(members, k, caseSensitive);
    }
  }

  /** Two objects with the same members in any order compare equal, and alike with anything else, if members of one name
      have one meaning. */
  lemma OrderDoesNotMatter(left: seq<Member>, right: seq<Member>, other: JSON, caseSensitive: bool)
    requires multiset(left) == multiset(right) && Coherent(Object(left), caseSensitive)
    ensures Same(Object(left), Object(right), caseSensitive)
    ensures Same(Object(left), other, caseSensitive) <==> Same(Object(right), other, caseSensitive)
  {
    hide Same, Denote, Coherent;
    Reordered(left, right, caseSensitive);
    SameIsMeaning(Object(left), Object(right), caseSensitive);
    SameIsMeaning(Object(left), other, caseSensitive);
    SameIsMeaning(Object(right), other, caseSensitive);
  }

  lemma Reordered(left: seq<Member>, right: seq<Member>, caseSensitive: bool)
    requires multiset(left) == multiset(right) && Coherent(Object(left), caseSensitive)
    ensures Coherent(Object(right), caseSensitive)
    ensures Denote(Object(left), caseSensitive) == Denote(Object(right), caseSensitive)
  {
    hide Fold, CoherentMembers, DenoteMembers;
    forall i | 0 <= i < |right|
      ensures right[i] in left && Coherent(right[i].value, caseSensitive)
    {
      assert right[i] in multiset(left);
      var k :| 0 <= k < |left| && left[k] == right[i];
      CoherentMember(left, k, caseSensitive);
    }
    AllCoherent(right, caseSensitive);
    SameMeanings(left, right, caseSensitive);
  }

  lemma SameMeanings(left: seq<Member>, right: seq<Member>, caseSensitive: bool)
    requires multiset(left) == multiset(right) && NamesAgree(left, caseSensitive) && NamesAgree(right, caseSensitive)
    ensures DenoteMembers(left, caseSensitive) == DenoteMembers(right, caseSensitive)
  {
    hide DenoteMembers;
    MeaningsAreThere(left, right, caseSensitive);
    MeaningsAreThere(right, left, caseSensitive);
  }

  lemma MeaningsAreThere(left: seq<Member>, right: seq<Member>, caseSensitive: bool)
    requires multiset(left) == multiset(right) && NamesAgree(left, caseSensitive) && NamesAgree(right, caseSensitive)
    ensures var l, r := DenoteMembers(left, caseSensitive), DenoteMembers(right, caseSensitive);
            forall name :: name in l ==> name in r && l[name] == r[name]
  {
    hide Denote, DenoteMembers, NamesAgree, Fold;
    var l, r := DenoteMembers(left, caseSensitive), DenoteMembers(right, caseSensitive);
    forall name | name in l
      ensures name in r && l[name] == r[name]
    {
      var i := MeaningIsNamed(left, name, caseSensitive);
      MemberMeans(left, i, caseSensitive);
      assert left[i] in multiset(right);
      var j :| 0 <= j < |right| && right[j] == left[i];
      MemberMeans(right, j, caseSensitive);
    }
  }

  /** An object that has a name twice, with different numbers, differs even from its copy. */
  lemma RepeatedNameDiffersFromItself(name: string, x: real, y: real, caseSensitive: bool)
    requires x != y
    ensures var v := Object([Member(name, Number(x)), Member(name, Number(y))]); !Same(v, v, caseSensitive)
  {
    hide Fold;
    var members := [Member(name, Number(x)), Member(name, Number(y))];
    FindFirst(members, name, caseSensitive, 0);
    if Same(Object(members), Object(members), caseSensitive) {
      Counterparts(members, members, 1, caseSensitive);
    }
  }
}
