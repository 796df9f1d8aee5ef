/** The text cJSON prints for a tree, as a function: what `print_value` and its helpers must leave in the buffer. */
module JsonRender {
  import opened JsonTree
  import opened Text
  import opened Wrappers

  function HexDigit(d: nat): char
    requires d < 16
  {
    "0123456789abcdef"[d]
  }

  /** The letter of a two-character escape. */
  function ShortEscape(c: char): Option<char> {
    match c
    case '"' => Some('"')
    case '\\' => Some('\\')
    case '\U{8}' => Some('b')
    case '\U{C}' => Some('f')
    case '\n' => Some('n')
    case '\r' => Some('r')
    case '\t' => Some('t')
    case _ => None
  }

  /** One character of a string literal. */
  function Escape(c: char): (s: string)
    ensures |s| == 1 || |s| == 2 || |s| == 6
  {
    var short := ShortEscape(c);
    if short.Some? then ['\\', short.value]
    else if c < ' ' then "\\u00" + [HexDigit(c as int / 16), HexDigit(c as int % 16)]
    else [c]
  }

  function EscapeAll(s: string): string {
    if s == [] then [] else Escape(s[0]) + EscapeAll(s[1..])
  }

  function Quote(s: string): string {
    "\"" + EscapeAll(s) + "\""
  }

  /** What is printed for a string that may be missing. */
  function QuoteOf(s: Option<string>): string {
    Quote(if s.Some? then s.value else [])
  }

  function IntegerText(n: int): string {
    if n < 0 then "-" + Digits(-n) else Digits(n)
  }

  function Tabs(n: nat): (s: string)
    ensures |s| == n && forall i :: 0 <= i < n ==> s[i] == '\t'
  {
    seq(n, _ => '\t')
  }

  // ---------- What stands around members ----------

  function Opening(format: bool): string {
    if format then "{\n" else "{"
  }

  function Closing(format: bool, depth: nat): string {
    if format then Tabs(depth) + "}" else "}"
  }

  function Lead(format: bool, depth: nat): string {
    if format then Tabs(depth) else []
  }

  function Colon(format: bool): string {
    if format then ":\t" else ":"
  }

  /** What follows the value of a member. */
  function MemberTail(more: bool, format: bool): string {
    (if more then "," else []) + (if format then "\n" else [])
  }

  /** The text of a value met at nesting depth `depth`. */
  function Render(v: JSON, format: bool, depth: nat): string
    decreases v, 1
  {
    match v
    case Null => "null"
    case False => "false"
    case True => "true"
    case Number(d) => IntegerText(d.Floor)
    case String(s) => Quote(s)
    case Array(items) => "[" + RenderItems(items, format, depth + 1) + "]"
    case Object(members) =>
      Opening(format) + RenderMembers(members, format, depth + 1) + Closing(format, depth)
  }

  function Separator(format: bool): string {
    if format then ", " else ","
  }

  function RenderItems(items: seq<JSON>, format: bool, depth: nat): string
    decreases items, 0
  {
    if items == [] then []
    else if |items| == 1 then Render(items[0], format, depth)
    else Render(items[0], format, depth) + Separator(format) + RenderItems(items[1..], format, depth)
  }

  /** What precedes the value of a member. */
  function MemberHead(key: string, format: bool, depth: nat): string {
    Lead(format, depth) + Quote(key) + Colon(format)
  }

  function RenderMembers(members: seq<Member>, format: bool, depth: nat): string
    decreases members, 0
  {
    if members == [] then []
    else MemberHead(members[0].key, format, depth)
         + Render(members[0].value, format, depth)
         + MemberTail(|members| > 1, format)
         + RenderMembers(members[1..], format, depth)
  }
}
