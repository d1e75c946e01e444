/** A recursive-descent reader for sections 2 to 7 of RFC 8259, as far as the typed tree can hold
    what it reads: no null, and of the numbers the integers. It knows nothing of the writer. */
module JsonReader {
  import opened Wrappers
  import opened JsonTree
  import Decimal

  predicate IsSpace(c: char) {
    c == ' ' || c == '\t' || c == '\n' || c == '\r'
  }

  function SkipSpace(s: string): (r: string)
    ensures |r| <= |s|
    ensures r != "" ==> !IsSpace(r[0])
  {
    if s != "" && IsSpace(s[0]) then SkipSpace(s[1..]) else s
  }

  function HexValue(c: char): Option<nat> {
    if '0' <= c <= '9' then Some(c as int - '0' as int)
    else if 'A' <= c <= 'F' then Some(c as int - 'A' as int + 10)
    else if 'a' <= c <= 'f' then Some(c as int - 'a' as int + 10)
    else None
  }

  /** The character named by the four hexadecimal digits after `\u`; halves of a surrogate pair have
      no character of their own and are not read. */
  function HexChar(s: string): Option<char> {
    if |s| < 4 then None
    else
      var a :- HexValue(s[0]);
      var b :- HexValue(s[1]);
      var c :- HexValue(s[2]);
      var d :- HexValue(s[3]);
      var code := ((a * 16 + b) * 16 + c) * 16 + d;
      if code < 0xD800 || 0xE000 <= code < 0x10000 then Some(code as char) else None
  }

  /** What follows a backslash: the character meant and the text behind the escape. */
  function ReadEscape(s: string): (r: Option<(char, string)>)
    ensures r.Some? ==> |r.value.1| < |s|
  {
    if s == "" then None
    else if s[0] == 'u' then
      var c :- HexChar(s[1..]);
      Some((c, s[5..]))
    else if s[0] == '"' || s[0] == '\\' || s[0] == '/' then Some((s[0], s[1..]))
    else if s[0] == 'b' then Some(('\U{0008}', s[1..]))
    else if s[0] == 'f' then Some(('\U{000C}', s[1..]))
    else if s[0] == 'n' then Some(('\n', s[1..]))
    else if s[0] == 'r' then Some(('\r', s[1..]))
    else if s[0] == 't' then Some(('\t', s[1..]))
    else None
  }

  /** The rest of a string literal, up to and including its closing quotation mark. */
  function ReadChars(s: string): (r: Option<(string, string)>)
    ensures r.Some? ==> |r.value.1| < |s|
    decreases |s|
  {
    if s == "" || s[0] < ' ' then None
    else if s[0] == '"' then Some(("", s[1..]))
    else if s[0] == '\\' then
      var (c, s1) :- ReadEscape(s[1..]);
      var (more, s2) :- ReadChars(s1);
      Some(([c] + more, s2))
    else
      var (more, s2) :- ReadChars(s[1..]);
      Some(([s[0]] + more, s2))
  }

  function ReadDigits(s: string): (r: Option<(nat, string)>)
    ensures r.Some? ==> |r.value.1| < |s|
  {
    var k := Decimal.Span(s);
    if k == 0 || (k > 1 && s[0] == '0') || (k < |s| && (s[k] == '.' || s[k] == 'e' || s[k] == 'E')) then None
    else Some((Decimal.Value(s[..k]), s[k..]))
  }

  function ReadNumber(s: string): (r: Option<(int, string)>)
    ensures r.Some? ==> |r.value.1| < |s|
  {
    if s != "" && s[0] == '-' then
      var (n, rest) :- ReadDigits(s[1..]);
      var negative: int := 0 - n;
      Some((negative, rest))
    else
      var (n, rest) :- ReadDigits(s);
      Some((n, rest))
  }

  function ReadKey(s: string): (r: Option<(string, string)>)
    ensures r.Some? ==> |r.value.1| < |s|
  {
    var s0 := SkipSpace(s);
    if s0 == "" || s0[0] != '"' then None
    else
      var (key, s1) :- ReadChars(s0[1..]);
      var s2 := SkipSpace(s1);
      if s2 != "" && s2[0] == ':' then Some((key, s2[1..])) else None
  }

  function Leaf(v: Value): Tree {
    Node(v, [])
  }

  /** One of the three literal names the tree has a value for. */
  function ReadName(s: string): (r: Option<(Tree, string)>)
    ensures r.Some? ==> |r.value.1| < |s| && r.value.0.children == [] && r.value.0.data.Truth?
  {
    if |s| >= 4 && s[..4] == "true" then Some((Leaf(Truth(true)), s[4..]))
    else if |s| >= 5 && s[..5] == "false" then Some((Leaf(Truth(false)), s[5..]))
    else None
  }

  function ReadValue(s: string): (r: Option<(Tree, string)>)
    ensures r.Some? ==> |r.value.1| < |s|
    decreases |s|, 0
  {
    var s0 := SkipSpace(s);
    if s0 == "" then None
    else if s0[0] == '"' then
      var (text, rest) :- ReadChars(s0[1..]);
      Some((Leaf(Text(text)), rest))
    else if s0[0] == '{' || s0[0] == '[' then
      var list := s0[0] == '[';
      var s1 := SkipSpace(s0[1..]);
      if s1 != "" && s1[0] == Shut(list) then Some((Node(NO_DATA, []), s1[1..]))
      else
        var (children, rest) :- ReadItems(s0[1..], list);
        Some((Node(NO_DATA, children), rest))
    else if s0[0] == '-' || Decimal.IsDigit(s0[0]) then
      var (n, rest) :- ReadNumber(s0);
      Some((Leaf(Number(n)), rest))
    else ReadName(s0)
  }

  /** The members of an object or the elements of an array, with the bracket behind them. */
  function ReadItems(s: string, list: bool): (r: Option<(seq<Child>, string)>)
    ensures r.Some? ==> |r.value.1| < |s|
    decreases |s|, 1
  {
    var (key, s1) :- if list then Some(("", s)) else ReadKey(s);
    var (tree, s2) :- ReadValue(s1);
    var s3 := SkipSpace(s2);
    if s3 == "" then None
    else if s3[0] == Shut(list) then Some(([Child(key, tree)], s3[1..]))
    else if s3[0] == ',' then
      var (more, s4) :- ReadItems(s3[1..], list);
      Some(([Child(key, tree)] + more, s4))
    else None
  }

  /** A whole JSON text. */
  function Read(s: string): Option<Tree> {
    var (t, rest) :- ReadValue(s);
    if SkipSpace(rest) == "" then Some(t) else None
  }
}
