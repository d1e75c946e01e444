/** The layout of pretty text, said of the text alone: it is the compact text with a line feed and four
    spaces for each open bracket behind every opening bracket and comma and before every closing bracket,
    and a space behind every colon, literals left as they are. */
module JsonLayout {
  import opened JsonTree
  import opened JsonCompact
  import JsonRoundTrip
  import Decimal
  import Sequences

  predicate Opens(c: char) {
    c == '[' || c == '{'
  }

  predicate Closes(c: char) {
    c == ']' || c == '}'
  }

  // A new line inside `depth` brackets.
  function Line(depth: nat): string {
    "\n" + Spaces(4 * depth)
  }

  function OneLess(depth: nat): nat {
    if depth == 0 then 0 else depth - 1
  }

  // What stands in front of a character outside literals, and behind it if `rest` follows.
  function Before(c: char, depth: nat): string {
    if Closes(c) then Line(OneLess(depth)) else ""
  }

  function After(c: char, depth: nat, rest: string): string {
    if Opens(c) then (if rest != "" && Closes(rest[0]) then "" else Line(depth + 1))
    else if c == ',' then Line(depth)
    else if c == ':' then " "
    else ""
  }

  function Depth(c: char, depth: nat): nat {
    if Opens(c) then depth + 1 else if Closes(c) then OneLess(depth) else depth
  }

  /** Compact text laid out, character by character, from inside `depth` brackets. */
  function Format(s: string, m: Mode, depth: nat): string {
    if s == "" then ""
    else
      var c, rest := s[0], s[1..];
      if m == Outside
      then Before(c, depth) + [c] + After(c, depth, rest) + Format(rest, Next(m, c), Depth(c, depth))
      else [c] + Format(rest, Next(m, c), depth)
  }

  // Pieces of text that are left as they are ---------------------------------------------------------

  lemma FormatInside(c: char, s: string, m: Mode, depth: nat)
    requires m != Outside
    ensures Format([c] + s, m, depth) == [c] + Format(s, Next(m, c), depth)
  {
    assert ([c] + s)[1..] == s;
  }

  lemma {:induction false} FormatKept(e: string, s: string, depth: nat)
    requires forall i :: 0 <= i < |e| ==> e[i] != '"' && e[i] != '\\'
    ensures Format(e + s, Inside, depth) == e + Format(s, Inside, depth)
  {
    if e == "" {
      assert e + s == s;
    } else {
      assert e + s == [e[0]] + (e[1..] + s);
      FormatInside(e[0], e[1..] + s, Inside, depth);
      FormatKept(e[1..], s, depth);
      assert [e[0]] + (e[1..] + Format(s, Inside, depth)) == e + Format(s, Inside, depth);
    }
  }

  lemma FormatEscapedChar(c: char, s: string, depth: nat)
    ensures Format(EscapeChar(c) + s, Inside, depth) == EscapeChar(c) + Format(s, Inside, depth)
  {
    hide Format;
    var e := EscapeChar(c);
    if |e| == 1 {
      FormatKept(e, s, depth);
    } else {
      var more := e[2..];
      assert e == [e[0]] + ([e[1]] + more) && e[0] == '\\';
      assert e + s == [e[0]] + ([e[1]] + (more + s));
      FormatInside(e[0], [e[1]] + (more + s), Inside, depth);
      FormatInside(e[1], more + s, Escaped, depth);
      FormatKept(more, s, depth);
      assert [e[0]] + ([e[1]] + (more + Format(s, Inside, depth))) == e + Format(s, Inside, depth);
    }
  }

  lemma {:induction false} FormatEscaped(text: string, s: string, depth: nat)
    ensures Format(Escape(text) + s, Inside, depth) == Escape(text) + Format(s, Inside, depth)
  {
    hide Format, EscapeChar;
    if text == "" {
      assert Escape(text) + s == s;
      assert Escape(text) + Format(s, Inside, depth) == Format(s, Inside, depth);
    } else {
      var first, more := EscapeChar(text[0]), Escape(text[1..]);
      Sequences.Assoc(first, more, s);
      FormatEscapedChar(text[0], more + s, depth);
      FormatEscaped(text[1..], s, depth);
      Sequences.Assoc(first, more, Format(s, Inside, depth));
    }
  }

  // A character that neither opens nor closes anything nor divides.
  predicate Bare(c: char) {
    !Opens(c) && !Closes(c) && c != ',' && c != ':' && c != '"'
  }

  lemma FormatBareChar(c: char, s: string, depth: nat)
    requires Bare(c)
    ensures Format([c] + s, Outside, depth) == [c] + Format(s, Outside, depth)
  {
    assert ([c] + s)[1..] == s;
  }

  lemma {:induction false} FormatBare(b: string, s: string, depth: nat)
    requires forall i :: 0 <= i < |b| ==> Bare(b[i])
    ensures Format(b + s, Outside, depth) == b + Format(s, Outside, depth)
  {
    hide Format, Bare;
    if b == "" {
      assert b + s == s && b + Format(s, Outside, depth) == Format(s, Outside, depth);
    } else {
      assert b + s == [b[0]] + (b[1..] + s);
      FormatBareChar(b[0], b[1..] + s, depth);
      FormatBare(b[1..], s, depth);
      assert [b[0]] + (b[1..] + Format(s, Outside, depth)) == b + Format(s, Outside, depth);
    }
  }

  lemma FormatQuote(s: string, m: Mode, depth: nat)
    requires m != Escaped
    ensures Format(['"'] + s, m, depth) == ['"'] + Format(s, if m == Outside then Inside else Outside, depth)
  {
    assert (['"'] + s)[1..] == s;
  }

  lemma FormatQuoted(text: string, s: string, depth: nat)
    ensures Format(Quoted(text) + s, Outside, depth) == Quoted(text) + Format(s, Outside, depth)
  {
    hide Format, Escape;
    var e := Escape(text);
    assert Quoted(text) + s == ['"'] + (e + (['"'] + s));
    FormatQuote(e + (['"'] + s), Outside, depth);
    FormatEscaped(text, ['"'] + s, depth);
    FormatQuote(s, Inside, depth);
    assert ['"'] + (e + (['"'] + Format(s, Outside, depth))) == Quoted(text) + Format(s, Outside, depth);
  }

  // Brackets and dividers ----------------------------------------------------------------------------

  lemma FormatOutside(c: char, s: string, depth: nat)
    ensures Format([c] + s, Outside, depth)
            == Before(c, depth) + [c] + After(c, depth, s) + Format(s, Next(Outside, c), Depth(c, depth))
  {
    hide Before, After, Depth;
    assert ([c] + s)[1..] == s;
  }

  lemma Between(a: string, b: string, c: string, d: string)
    ensures a + b + c + d == a + (b + (c + d))
    ensures "" + (b + (c + d)) == b + (c + d) && c + ("" + d) == c + d
  {
  }

  lemma FormatOpen(c: char, s: string, depth: nat)
    requires Opens(c) && (s == "" || !Closes(s[0]))
    ensures Format([c] + s, Outside, depth) == [c] + (Line(depth + 1) + Format(s, Outside, depth + 1))
  {
    hide Format, Line;
    FormatOutside(c, s, depth);
    Between("", [c], Line(depth + 1), Format(s, Outside, depth + 1));
  }

  lemma FormatClose(c: char, s: string, depth: nat)
    requires Closes(c)
    ensures Format([c] + s, Outside, depth + 1) == Line(depth) + ([c] + Format(s, Outside, depth))
  {
    hide Format, Line;
    FormatOutside(c, s, depth + 1);
    Between(Line(depth), [c], "", Format(s, Outside, depth));
    Between("", "", [c], Format(s, Outside, depth));
  }

  lemma FormatComma(s: string, depth: nat)
    ensures Format([','] + s, Outside, depth) == [','] + (Line(depth) + Format(s, Outside, depth))
  {
    hide Format, Line;
    FormatOutside(',', s, depth);
    Between("", [','], Line(depth), Format(s, Outside, depth));
  }

  lemma FormatColon(s: string, depth: nat)
    ensures Format([':'] + s, Outside, depth) == [':'] + (" " + Format(s, Outside, depth))
  {
    hide Format, Line;
    FormatOutside(':', s, depth);
    Between("", [':'], " ", Format(s, Outside, depth));
  }

  lemma FormatLabel(key: string, list: bool, s: string, depth: nat)
    ensures Format(Label(key, false, list) + s, Outside, depth)
            == Label(key, true, list) + Format(s, Outside, depth)
  {
    hide Format, Quoted;
    if list {
      assert Label(key, false, list) + s == s;
      assert Label(key, true, list) + Format(s, Outside, depth) == Format(s, Outside, depth);
    } else {
      var q := Quoted(key);
      assert Label(key, false, list) + s == q + ([':'] + s);
      FormatQuoted(key, [':'] + s, depth);
      FormatColon(s, depth);
      assert q + ([':'] + (" " + Format(s, Outside, depth))) == Label(key, true, list) + Format(s, Outside, depth);
    }
  }

  // Trees ----------------------------------------------------------------------------------------

  /** No 8-bit leaf is printed as a bracket, a comma, a colon or a quotation mark. */
  predicate Orderly(t: Tree)
    decreases t, 1
  {
    if t.children == [] then t.data.Byte? ==> Bare(t.data.c) else AllOrderly(t.children)
  }

  predicate AllOrderly(children: seq<Child>)
    decreases children, 0
  {
    children != [] ==> Orderly(children[0].tree) && AllOrderly(children[1..])
  }

  lemma FormatScalar(v: Value, s: string, depth: nat)
    requires v.Byte? ==> Bare(v.c)
    ensures Format(Scalar(v) + s, Outside, depth) == Scalar(v) + Format(s, Outside, depth)
  {
    hide Format;
    match v {
      case Text(text) => FormatQuoted(text, s, depth);
      case Number(n) =>
        assert forall i :: 0 <= i < |PrintInt(n)| ==> PrintInt(n)[i] == '-' || Decimal.IsDigit(PrintInt(n)[i]);
        FormatBare(PrintInt(n), s, depth);
      case Truth(b) => FormatBare(Scalar(v), s, depth);
      case Byte(c) => FormatBare([c], s, depth);
    }
  }

  // No item starts with a closing bracket.
  lemma FirstOfNode(t: Tree, indent: nat)
    requires Orderly(t) && indent > 0
    ensures var s := Write(t, indent, false);
            s != "" && !Closes(s[0])
  {
    if t.children == [] && t.data.Number? {
      assert PrintInt(t.data.n)[0] == '-' || Decimal.IsDigit(PrintInt(t.data.n)[0]);
    }
  }

  lemma FirstOfChildren(children: seq<Child>, indent: nat, list: bool, d: string)
    requires children != [] && AllOrderly(children)
    ensures var s := WriteItems(children, indent, false, list) + d;
            s != "" && !Closes(s[0])
  {
    FirstOfNode(children[0].tree, indent + 1);
    CompactItems(children, indent, list, d);
    hide Write, WriteItems, Orderly;
  }

  // The text behind the children of a node, in front of `rest`.
  function Shutting(list: bool, rest: string): string {
    [Shut(list)] + rest
  }

  lemma {:induction false} FormatNode(t: Tree, indent: nat, rest: string)
    requires Orderly(t) || (indent == 0 && t.children == [])
    ensures Format(Write(t, indent, false) + rest, Outside, indent)
            == Write(t, indent, true) + Format(rest, Outside, indent)
    decreases t, 2
  {
    if indent > 0 && t.children == [] {
      FormatScalar(t.data, rest, indent);
    } else if t.children == [] {
      FormatEmptyRoot(t, rest);
    } else {
      FormatChildren(t.children, indent, IsArray(t, indent), rest);
      FirstOfChildren(t.children, indent, IsArray(t, indent), Shutting(IsArray(t, indent), rest));
      FormatBrackets(t, indent, rest);
    }
  }

  lemma FormatOpenAndClose(c: char, d: char, s: string)
    requires Opens(c) && Closes(d)
    ensures Format([c] + ([d] + s), Outside, 0) == [c] + Format([d] + s, Outside, 1)
  {
    var more := [d] + s;
    assert ([c] + more)[1..] == more && more[0] == d;
    assert Format([c] + more, Outside, 0) == "" + [c] + "" + Format(more, Outside, 1);
  }

  lemma EmptyRoot(t: Tree, pretty: bool)
    requires t.children == []
    ensures Write(t, 0, pretty) == if pretty then "{\n}" else "{}"
  {
    assert WriteItems([], 0, pretty, false) == "";
    assert Pad(pretty, 0) == "";
  }

  lemma FormatEmptyRoot(t: Tree, rest: string)
    requires t.children == []
    ensures Format(Write(t, 0, false) + rest, Outside, 0) == Write(t, 0, true) + Format(rest, Outside, 0)
  {
    hide Format, Write;
    EmptyRoot(t, false);
    EmptyRoot(t, true);
    assert "{}" + rest == ['{'] + (['}'] + rest);
    FormatOpenAndClose('{', '}', rest);
    FormatClose('}', rest, 0);
    assert Line(0) == "\n";
    assert "{\n}" + Format(rest, Outside, 0) == ['{'] + ("\n" + (['}'] + Format(rest, Outside, 0)));
  }

  lemma CompactNode(t: Tree, indent: nat, rest: string)
    requires t.children != []
    ensures var list := IsArray(t, indent);
            Write(t, indent, false) + rest
            == [Open(list)] + (WriteItems(t.children, indent, false, list) + Shutting(list, rest))
  {
    var list := IsArray(t, indent);
    JsonRoundTrip.NodeText(t, indent, false, rest);
    hide Write, WriteItems;
    var items := WriteItems(t.children, indent, false, list);
    NoText(items + Shutting(list, rest));
    NoText(Shutting(list, rest));
  }

  lemma FormatBrackets(t: Tree, indent: nat, rest: string)
    requires t.children != []
    requires var list := IsArray(t, indent);
             var items := WriteItems(t.children, indent, false, list) + Shutting(list, rest);
             && items != "" && !Closes(items[0])
             && Spaces(4 * (indent + 1)) + Format(items, Outside, indent + 1)
                == WriteItems(t.children, indent, true, list)
                   + (Spaces(4 * indent) + Shutting(list, Format(rest, Outside, indent)))
    ensures Format(Write(t, indent, false) + rest, Outside, indent)
            == Write(t, indent, true) + Format(rest, Outside, indent)
  {
    hide Format, WriteItems;
    var list := IsArray(t, indent);
    var items := WriteItems(t.children, indent, false, list) + Shutting(list, rest);
    CompactNode(t, indent, rest);
    FormatOpen(Open(list), items, indent);
    JsonRoundTrip.NodeText(t, indent, true, Format(rest, Outside, indent));
    hide Write;
    Sequences.Assoc("\n", Spaces(4 * (indent + 1)), Format(items, Outside, indent + 1));
  }

  /** Children from the first to the closing bracket. */
  lemma {:induction false} FormatChildren(children: seq<Child>, indent: nat, list: bool, rest: string)
    requires children != [] && AllOrderly(children)
    ensures Spaces(4 * (indent + 1))
            + Format(WriteItems(children, indent, false, list) + Shutting(list, rest), Outside, indent + 1)
            == WriteItems(children, indent, true, list)
               + (Spaces(4 * indent) + Shutting(list, Format(rest, Outside, indent)))
    decreases children, 1
  {
    hide Format, Write, WriteItems, Orderly, JsonRoundTrip.Behind;
    var child, others := children[0], children[1..];
    var d, e := Shutting(list, rest), Spaces(4 * indent) + Shutting(list, Format(rest, Outside, indent));
    var behind := JsonRoundTrip.Behind(others != [], false, WriteItems(others, indent, false, list), d);
    var laid := JsonRoundTrip.Behind(others != [], true, WriteItems(others, indent, true, list), e);
    if others == [] {
      NoItems(indent, list);
      LastLaid(indent, list, rest);
    } else {
      FormatChildren(others, indent, list, rest);
      MoreLaid(WriteItems(others, indent, false, list), WriteItems(others, indent, true, list), d, e, indent);
    }
    assert Format(behind, Outside, indent + 1) == laid;
    FormatNode(child.tree, indent + 1, behind);
    ChildLaid(children, indent, list, d, e);
  }

  lemma NoItems(indent: nat, list: bool)
    ensures WriteItems([], indent, false, list) == "" && WriteItems([], indent, true, list) == ""
  {
  }

  lemma LastLaid(indent: nat, list: bool, rest: string)
    ensures Format(JsonRoundTrip.Behind(false, false, "", Shutting(list, rest)), Outside, indent + 1)
            == JsonRoundTrip.Behind(false, true, "",
                                    Spaces(4 * indent) + Shutting(list, Format(rest, Outside, indent)))
  {
    hide Format;
    assert JsonRoundTrip.Behind(false, false, "", Shutting(list, rest)) == [Shut(list)] + rest;
    FormatClose(Shut(list), rest, indent);
    var e := Spaces(4 * indent) + Shutting(list, Format(rest, Outside, indent));
    assert JsonRoundTrip.Behind(false, true, "", e) == "\n" + e;
    Sequences.Assoc("\n", Spaces(4 * indent), Shutting(list, Format(rest, Outside, indent)));
  }

  lemma MoreLaid(items: string, pretty: string, d: string, e: string, indent: nat)
    requires Spaces(4 * (indent + 1)) + Format(items + d, Outside, indent + 1) == pretty + e
    ensures Format(JsonRoundTrip.Behind(true, false, items, d), Outside, indent + 1)
            == JsonRoundTrip.Behind(true, true, pretty, e)
  {
    hide Format;
    assert JsonRoundTrip.Behind(true, false, items, d) == [','] + (items + d);
    FormatComma(items + d, indent + 1);
    Sequences.Assoc("\n", Spaces(4 * (indent + 1)), Format(items + d, Outside, indent + 1));
    assert JsonRoundTrip.Behind(true, true, pretty, e) == [','] + ("\n" + (pretty + e));
  }

  lemma ChildLaid(children: seq<Child>, indent: nat, list: bool, d: string, e: string)
    requires children != []
    requires var child, others := children[0], children[1..];
             var behind := JsonRoundTrip.Behind(others != [], false, WriteItems(others, indent, false, list), d);
             var laid := JsonRoundTrip.Behind(others != [], true, WriteItems(others, indent, true, list), e);
             && Format(behind, Outside, indent + 1) == laid
             && Format(Write(child.tree, indent + 1, false) + behind, Outside, indent + 1)
                == Write(child.tree, indent + 1, true) + laid
    ensures Spaces(4 * (indent + 1)) + Format(WriteItems(children, indent, false, list) + d, Outside, indent + 1)
            == WriteItems(children, indent, true, list) + e
  {
    hide Format, Write, WriteItems, Label;
    var child, others := children[0], children[1..];
    var behind := JsonRoundTrip.Behind(others != [], false, WriteItems(others, indent, false, list), d);
    CompactItems(children, indent, list, d);
    FormatLabel(child.key, list, Write(child.tree, indent + 1, false) + behind, indent + 1);
    NoText(WriteItems(children, indent, true, list) + e);
    JsonRoundTrip.ItemText("", children, indent, true, list, e);
    NoText(Pad(true, indent + 1));
  }

  /** Pretty text is the compact text laid out, for every tree, whatever its strings contain. */
  lemma PrettyIsLaidOut(t: Tree)
    requires AllOrderly(t.children)
    ensures Write(t, 0, true) == Format(Write(t, 0, false), Outside, 0)
  {
    FormatNode(t, 0, "");
    assert Write(t, 0, false) + "" == Write(t, 0, false) && Write(t, 0, true) + "" == Write(t, 0, true);
  }

  // Brackets and literals ----------------------------------------------------------------------------

  /** The root is an object; below it a node is an array exactly if all its keys are empty. */
  lemma BracketRule(t: Tree, indent: nat, pretty: bool)
    requires indent > 0 ==> t.children != []
    ensures Write(t, indent, pretty) != ""
    ensures Write(t, indent, pretty)[0]
            == if indent > 0 && (forall i :: 0 <= i < |t.children| ==> t.children[i].key == "") then '[' else '{'
  {
  }

  /** Text without control characters, quotation marks and backslashes stands in its literal as it is. */
  lemma {:induction false} PlainLiteral(text: string)
    requires forall i :: 0 <= i < |text| ==> text[i] >= ' ' && text[i] != '"' && text[i] != '\\'
    ensures Quoted(text) == "\"" + text + "\""
  {
    PlainEscape(text);
  }

  lemma {:induction false} PlainEscape(text: string)
    requires forall i :: 0 <= i < |text| ==> text[i] >= ' ' && text[i] != '"' && text[i] != '\\'
    ensures Escape(text) == text
  {
    if text != "" {
      PlainEscape(text[1..]);
    }
  }

  lemma OneText(indent: nat, pretty: bool)
    requires indent > 0
    ensures Write(Node(Text("1"), []), indent, pretty) == "\"1\""
  {
    PlainLiteral("1");
    hide Quoted;
  }

  lemma OneKey(pretty: bool)
    ensures Label("a", pretty, false) == if pretty then "\"a\": " else "\"a\":"
  {
    PlainLiteral("a");
    hide Quoted;
  }

  lemma PrettyPieces()
    ensures "    " + ("\"a\": " + ("\"1\"" + "\n")) == "    \"a\": \"1\"\n"
  {
  }

  lemma CompactPieces()
    ensures "" + ("\"a\":" + ("\"1\"" + "")) == "\"a\":\"1\""
  {
  }

  lemma FirstPad(pretty: bool)
    ensures Pad(pretty, 1) == if pretty then "    " else ""
  {
  }

  lemma OneItemText(pretty: bool)
    ensures WriteItems([Child("a", Node(Text("1"), []))], 0, pretty, false)
            == if pretty then "    \"a\": \"1\"\n" else "\"a\":\"1\""
  {
    hide Write, Label, WriteItems, Pad;
    OneItem(Child("a", Node(Text("1"), [])), pretty);
    OneText(1, pretty);
    OneKey(pretty);
    FirstPad(pretty);
    PrettyPieces();
    CompactPieces();
  }

  lemma OneItem(child: Child, pretty: bool)
    ensures WriteItems([child], 0, pretty, false)
            == Pad(pretty, 1) + (Label(child.key, pretty, false) + (Write(child.tree, 1, pretty) + NewLine(pretty)))
  {
    hide Write, Label, Pad;
    assert [child][1..] == [];
    NoMoreItems(pretty);
    NoText(NewLine(pretty));
    var item := WriteItem(child, 0, pretty, false, false);
    assert item + "" == item;
  }

  lemma NoMoreItems(pretty: bool)
    ensures WriteItems([], 0, pretty, false) == ""
  {
  }

  /** The tree of one text, in full. */
  lemma OneTextExample()
    ensures var t := Node(Text(""), [Child("a", Node(Text("1"), []))]);
            && Write(t, 0, false) == "{\"a\":\"1\"}"
            && Write(t, 0, true) == "{\n    \"a\": \"1\"\n}"
  {
    OneItemText(false);
    OneItemText(true);
    hide WriteItems, WriteItem;
    assert Pad(true, 0) == "";
  }
}
