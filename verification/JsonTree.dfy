/** The typed tree that dispatchers receive, and its JSON text as the writer prints it: pretty or
    compact, a node whose keys are all empty as an array, the root always as an object. */
module JsonTree {
  import Decimal

  // A leaf value: text, an integer wider than eight bits, a truth value, or an 8-bit integer, which
  // the conversion to text turns into the character with that code.
  datatype Value = Text(text: string) | Number(n: int) | Truth(b: bool) | Byte(c: char)

  datatype Child = Child(key: string, tree: Tree)
  datatype Tree = Node(data: Value, children: seq<Child>)

  const NO_DATA := Text("")

  function PrintInt(n: int): string {
    if n < 0 then "-" + Decimal.Print(-n) else Decimal.Print(n)
  }

  function HexDigit(d: nat): char
    requires d < 16
  {
    if d < 10 then ('0' as int + d) as char else ('A' as int + (d - 10)) as char
  }

  /** A character of a string literal, escaped where section 7 of RFC 8259 demands it. */
  function EscapeChar(c: char): string {
    if c == '"' then "\\\""
    else if c == '\\' then "\\\\"
    else if c == '\U{0008}' then "\\b"
    else if c == '\U{000C}' then "\\f"
    else if c == '\n' then "\\n"
    else if c == '\r' then "\\r"
    else if c == '\t' then "\\t"
    else if c < ' ' then ['\\', 'u', '0', '0', HexDigit(c as int / 16), HexDigit(c as int % 16)]
    else [c]
  }

  function Escape(s: string): string {
    if s == "" then "" else EscapeChar(s[0]) + Escape(s[1..])
  }

  function Quoted(s: string): string {
    "\"" + Escape(s) + "\""
  }

  function Scalar(v: Value): string {
    match v
    case Text(s) => Quoted(s)
    case Number(n) => PrintInt(n)
    case Truth(b) => if b then "true" else "false"
    case Byte(c) => [c]
  }

  function Spaces(n: nat): (s: string)
    ensures |s| == n && forall i :: 0 <= i < n ==> s[i] == ' '
  {
    seq(n, _ => ' ')
  }

  function Pad(pretty: bool, depth: nat): string {
    if pretty then Spaces(4 * depth) else ""
  }

  function NewLine(pretty: bool): string {
    if pretty then "\n" else ""
  }

  predicate AllKeysEmpty(children: seq<Child>) {
    forall i :: 0 <= i < |children| ==> children[i].key == ""
  }

  predicate IsArray(t: Tree, indent: nat) {
    indent > 0 && AllKeysEmpty(t.children)
  }

  function Open(list: bool): char {
    if list then '[' else '{'
  }

  function Shut(list: bool): char {
    if list then ']' else '}'
  }

  function Label(key: string, pretty: bool, list: bool): string {
    if list then "" else Quoted(key) + ":" + (if pretty then " " else "")
  }

  function Comma(more: bool): string {
    if more then "," else ""
  }

  /** The text of a node at a nesting depth. */
  function Write(t: Tree, indent: nat, pretty: bool): string
    decreases t, 2
  {
    if indent > 0 && t.children == [] then Scalar(t.data)
    else
      var list := IsArray(t, indent);
      [Open(list)] + (NewLine(pretty) + (WriteItems(t.children, indent, pretty, list)
                                         + (Pad(pretty, indent) + [Shut(list)])))
  }

  /** A child, and a comma if another one follows. */
  function WriteItem(child: Child, indent: nat, pretty: bool, list: bool, more: bool): string
    decreases child, 0
  {
    Pad(pretty, indent + 1) + (Label(child.key, pretty, list)
                               + (Write(child.tree, indent + 1, pretty) + (Comma(more) + NewLine(pretty))))
  }

  function WriteItems(children: seq<Child>, indent: nat, pretty: bool, list: bool): string
    decreases children, 1
  {
    if children == [] then ""
    else
      WriteItem(children[0], indent, pretty, list, |children| > 1)
      + WriteItems(children[1..], indent, pretty, list)
  }
}
