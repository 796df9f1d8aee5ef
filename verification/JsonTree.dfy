/** The trees of cJSON.c as values: what a chain of `cJSON` nodes means to its users.

    Text is a sequence of characters; bytes are characters below 256.  Numbers are exact: the rounding of `double` is
    not part of this model. */
module JsonTree {

  const NUL := '\0'
  const BACKSPACE := '\U{8}'
  const FORM_FEED := '\U{C}'

  /** `CJSON_NESTING_LIMIT`. */
  const NESTING_LIMIT := 1000
  /** Integers below this print as plain decimal digits under "%1.15g". */
  const PLAIN_LIMIT := 1_000_000_000_000_000

  datatype JSON =
    | Null
    | False
    | True
    | Number(value: real)
    | String(text: string)
    | Array(items: seq<JSON>)
    | Object(members: seq<Member>)

  datatype Member = Member(key: string, value: JSON)

  function Max(a: nat, b: nat): nat {
    if a >= b then a else b
  }

  /** How deeply containers are nested. */
  function Height(v: JSON): nat
    decreases v, 1
  {
    match v
    case Array(items) => 1 + ItemsHeight(items)
    case Object(members) => 1 + MembersHeight(members)
    case _ => 0
  }

  function ItemsHeight(items: seq<JSON>): nat
    decreases items, 0
  {
    if items == [] then 0 else Max(Height(items[0]), ItemsHeight(items[1..]))
  }

  function MembersHeight(members: seq<Member>): nat
    decreases members, 0
  {
    if members == [] then 0 else Max(Height(members[0].value), MembersHeight(members[1..]))
  }

  predicate NulFree(s: string) {
    forall i :: 0 <= i < |s| ==> s[i] != NUL
  }

  predicate PlainInteger(d: real) {
    d.Floor as real == d && -PLAIN_LIMIT < d.Floor < PLAIN_LIMIT
  }

  /** The trees whose text is modelled: strings hold no NUL and numbers are integers that print as plain digits.
      Without `plain` any number is allowed. */
  predicate Printable(v: JSON, plain: bool := true)
    decreases v, 1
  {
    match v
    case Number(d) => plain ==> PlainInteger(d)
    case String(s) => NulFree(s)
    case Array(items) => PrintableItems(items, plain)
    case Object(members) => PrintableMembers(members, plain)
    case _ => true
  }

  predicate PrintableItems(items: seq<JSON>, plain: bool := true)
    decreases items, 0
  {
    items == [] || (Printable(items[0], plain) && PrintableItems(items[1..], plain))
  }

  predicate PrintableMembers(members: seq<Member>, plain: bool := true)
    decreases members, 0
  {
    members == [] || (NulFree(members[0].key) && Printable(members[0].value, plain)
                      && PrintableMembers(members[1..], plain))
  }

  lemma {:induction false} ItemsSnoc(items: seq<JSON>, v: JSON, plain: bool)
    ensures ItemsHeight(items + [v]) == Max(ItemsHeight(items), Height(v))
    ensures PrintableItems(items + [v], plain) <==> PrintableItems(items, plain) && Printable(v, plain)
    decreases |items|
  {
    hide Height, Printable;
    if items == [] {
      assert items + [v] == [v];
    } else {
      assert (items + [v])[1..] == items[1..] + [v];
      ItemsSnoc(items[1..], v, plain);
    }
  }

  lemma {:induction false} MembersSnoc(members: seq<Member>, m: Member, plain: bool)
    ensures MembersHeight(members + [m]) == Max(MembersHeight(members), Height(m.value))
    ensures PrintableMembers(members + [m], plain) <==>
            PrintableMembers(members, plain) && NulFree(m.key) && Printable(m.value, plain)
    decreases |members|
  {
    hide Height, Printable, NulFree;
    if members == [] {
      assert members + [m] == [m];
    } else {
      assert (members + [m])[1..] == members[1..] + [m];
      MembersSnoc(members[1..], m, plain);
    }
  }
}
