/** Pretty and compact output say the same: the pretty text without the whitespace outside string
    literals is the compact text. */
module JsonCompact {
  import opened JsonTree
  import JsonReader
  import JsonRoundTrip
  import Decimal
  import Sequences

  datatype Mode = Outside | Inside | Escaped

  /** Where a character leaves a reader that only tells string literals from the rest. */
  function Next(m: Mode, c: char): Mode {
    match m
    case Outside => if c == '"' then Inside else Outside
    case Inside => if c == '\\' then Escaped else if c == '"' then Outside else Inside
    case Escaped => Inside
  }

  function EndMode(s: string, m: Mode): Mode {
    if s == "" then m else EndMode(s[1..], Next(m, s[0]))
  }

  function Solid(c: char, m: Mode): string {
    if m == Outside && JsonReader.IsSpace(c) then "" else [c]
  }

  /** The text without whitespace outside string literals. */
  function Strip(s: string, m: Mode): string {
    if s == "" then "" else Solid(s[0], m) + Strip(s[1..], Next(m, s[0]))
  }

  lemma {:induction false} StripConcat(a: string, b: string, m: Mode)
    ensures Strip(a + b, m) == Strip(a, m) + Strip(b, EndMode(a, m))
    ensures EndMode(a + b, m) == EndMode(b, EndMode(a, m))
  {
    if a == "" {
      assert a + b == b;
    } else {
      assert (a + b)[1..] == a[1..] + b;
      StripConcat(a[1..], b, Next(m, a[0]));
      Sequences.Assoc(Solid(a[0], m), Strip(a[1..], Next(m, a[0])), Strip(b, EndMode(a, m)));
    }
  }

  /** `s` strips to `c` and leaves no string literal open. */
  predicate StripsTo(s: string, c: string) {
    Strip(s, Outside) == c && EndMode(s, Outside) == Outside
  }

  lemma StripBoth(a: string, c: string, b: string, d: string)
    requires StripsTo(a, c) && StripsTo(b, d)
    ensures StripsTo(a + b, c + d)
  {
    StripConcat(a, b, Outside);
  }

  lemma {:induction false} StripSpace(w: string)
    requires forall i :: 0 <= i < |w| ==> JsonReader.IsSpace(w[i])
    ensures StripsTo(w, "")
  {
    if w != "" {
      StripSpace(w[1..]);
    }
  }

  lemma {:induction false} StripBare(s: string)
    requires forall i :: 0 <= i < |s| ==> s[i] != '"' && !JsonReader.IsSpace(s[i])
    ensures StripsTo(s, s)
  {
    if s != "" {
      StripBare(s[1..]);
    }
  }

  lemma {:induction false} KeepPlain(s: string)
    requires forall i :: 0 <= i < |s| ==> s[i] != '"' && s[i] != '\\'
    ensures Strip(s, Inside) == s && EndMode(s, Inside) == Inside
  {
    if s != "" {
      KeepPlain(s[1..]);
    }
  }

  lemma KeepEscapedChar(c: char)
    ensures Strip(EscapeChar(c), Inside) == EscapeChar(c) && EndMode(EscapeChar(c), Inside) == Inside
  {
    var e := EscapeChar(c);
    if |e| == 1 {
      KeepPlain(e);
    } else {
      KeepPlain(e[2..]);
      assert e[1..][1..] == e[2..];
      assert Strip(e[1..], Escaped) == [e[1]] + Strip(e[2..], Inside);
      assert e == [e[0]] + ([e[1]] + e[2..]);
    }
  }

  lemma {:induction false} KeepEscaped(s: string)
    ensures Strip(Escape(s), Inside) == Escape(s) && EndMode(Escape(s), Inside) == Inside
  {
    if s != "" {
      KeepEscapedChar(s[0]);
      KeepEscaped(s[1..]);
      StripConcat(EscapeChar(s[0]), Escape(s[1..]), Inside);
    }
  }

  lemma KeepQuoted(s: string)
    ensures StripsTo(Quoted(s), Quoted(s))
  {
    KeepEscaped(s);
    StripConcat(Escape(s), "\"", Inside);
    assert Quoted(s)[1..] == Escape(s) + "\"";
  }

  /** No 8-bit leaf is printed as a space or a quotation mark. */
  predicate Quiet(t: Tree)
    decreases t, 1
  {
    if t.children == [] then t.data.Byte? ==> t.data.c != '"' && !JsonReader.IsSpace(t.data.c)
    else AllQuiet(t.children)
  }

  predicate AllQuiet(children: seq<Child>)
    decreases children, 0
  {
    children != [] ==> Quiet(children[0].tree) && AllQuiet(children[1..])
  }

  lemma KeepScalar(v: Value)
    requires v.Byte? ==> v.c != '"' && !JsonReader.IsSpace(v.c)
    ensures StripsTo(Scalar(v), Scalar(v))
  {
    match v {
      case Text(s) => KeepQuoted(s);
      case Number(n) =>
        assert forall i :: 0 <= i < |PrintInt(n)| ==> PrintInt(n)[i] == '-' || Decimal.IsDigit(PrintInt(n)[i]);
        StripBare(PrintInt(n));
      case Truth(b) => StripBare(Scalar(v));
      case Byte(c) => StripBare([c]);
    }
  }

  lemma StripLabel(key: string, list: bool)
    ensures StripsTo(Label(key, true, list), Label(key, false, list))
  {
    if !list {
      KeepQuoted(key);
      StripBare(":");
      StripSpace(" ");
      StripBoth(Quoted(key), Quoted(key), ":", ":");
      StripBoth(Quoted(key) + ":", Quoted(key) + ":", " ", "");
    }
  }

  lemma {:induction false} PrettyIsCompactNode(t: Tree, indent: nat)
    requires Quiet(t) || (indent == 0 && t.children == [])
    ensures StripsTo(Write(t, indent, true), Write(t, indent, false))
    decreases t, 2
  {
    if indent > 0 && t.children == [] {
      KeepScalar(t.data);
    } else {
      var list := IsArray(t, indent);
      StripBare([Open(list)]);
      StripBare([Shut(list)]);
      StripSpace(NewLine(true));
      StripSpace(Pad(true, indent));
      if t.children != [] {
        PrettyIsCompactItems(t.children, indent, list);
      }
      var items, bare := WriteItems(t.children, indent, true, list), WriteItems(t.children, indent, false, list);
      StripBoth(Pad(true, indent), "", [Shut(list)], [Shut(list)]);
      StripBoth(items, bare, Pad(true, indent) + [Shut(list)], "" + [Shut(list)]);
      StripBoth(NewLine(true), "", items + (Pad(true, indent) + [Shut(list)]), bare + ("" + [Shut(list)]));
      StripBoth([Open(list)], [Open(list)],
                NewLine(true) + (items + (Pad(true, indent) + [Shut(list)])), "" + (bare + ("" + [Shut(list)])));
    }
  }

  lemma {:induction false} PrettyIsCompactItem(child: Child, indent: nat, list: bool, more: bool)
    requires Quiet(child.tree)
    ensures StripsTo(WriteItem(child, indent, true, list, more), WriteItem(child, indent, false, list, more))
    decreases child, 0
  {
    var text, bare := Write(child.tree, indent + 1, true), Write(child.tree, indent + 1, false);
    var name, bareName := Label(child.key, true, list), Label(child.key, false, list);
    PrettyIsCompactNode(child.tree, indent + 1);
    StripLabel(child.key, list);
    StripSpace(Pad(true, indent + 1));
    StripSpace(NewLine(true));
    StripBare(Comma(more));
    StripBoth(Comma(more), Comma(more), NewLine(true), "");
    StripBoth(text, bare, Comma(more) + NewLine(true), Comma(more) + "");
    StripBoth(name, bareName, text + (Comma(more) + NewLine(true)), bare + (Comma(more) + ""));
    StripBoth(Pad(true, indent + 1), "",
              name + (text + (Comma(more) + NewLine(true))), bareName + (bare + (Comma(more) + "")));
  }

  lemma {:induction false} PrettyIsCompactItems(children: seq<Child>, indent: nat, list: bool)
    requires AllQuiet(children)
    ensures StripsTo(WriteItems(children, indent, true, list), WriteItems(children, indent, false, list))
    decreases children, 1
  {
    if children != [] {
      PrettyIsCompactItem(children[0], indent, list, |children| > 1);
      PrettyIsCompactItems(children[1..], indent, list);
      StripBoth(WriteItem(children[0], indent, true, list, |children| > 1),
                WriteItem(children[0], indent, false, list, |children| > 1),
                WriteItems(children[1..], indent, true, list), WriteItems(children[1..], indent, false, list));
    }
  }

  // A noisy leaf shows ------------------------------------------------------------------------------

  lemma {:induction false} StripStartsSolid(s: string)
    ensures Strip(s, Outside) != "" ==> !JsonReader.IsSpace(Strip(s, Outside)[0])
  {
    if s != "" && JsonReader.IsSpace(s[0]) {
      StripStartsSolid(s[1..]);
    }
  }

  lemma DifferBehind(a: string, c: string, b: string, d: string)
    requires StripsTo(a, c) && Strip(b, Outside) != d
    ensures Strip(a + b, Outside) != c + d
  {
    StripConcat(a, b, Outside);
    assert (c + Strip(b, Outside))[|c|..] == Strip(b, Outside) && (c + d)[|c|..] == d;
  }

  lemma NoisyLeaf(c: char, p: string, d: string)
    requires c == '"' || JsonReader.IsSpace(c)
    requires Strip(p, Inside) != d
    ensures Strip([c] + p, Outside) != [c] + d
  {
    assert ([c] + p)[1..] == p;
    StripStartsSolid(p);
    if c == '"' {
      assert ([c] + Strip(p, Inside))[1..] == Strip(p, Inside) && ([c] + d)[1..] == d;
    }
  }

  predicate StartsSolid(s: string) {
    s != "" && !JsonReader.IsSpace(s[0])
  }

  // One of the first two characters is no space.
  predicate SolidByTwo(s: string) {
    StartsSolid(s) || (|s| >= 2 && !JsonReader.IsSpace(s[1]))
  }

  lemma FirstOfCompact(t: Tree, indent: nat)
    requires !(indent > 0 && t.children == [] && t.data.Byte?)
    ensures StartsSolid(Write(t, indent, false))
  {
    if indent > 0 && t.children == [] && t.data.Number? {
      assert PrintInt(t.data.n)[0] == '-' || Decimal.IsDigit(PrintInt(t.data.n)[0]);
    }
  }

  lemma NoText(s: string)
    ensures "" + s == s
  {
  }

  lemma FirstOfSolid(name: string, text: string, behind: string)
    requires StartsSolid(name) || (name == "" && StartsSolid(text))
    ensures StartsSolid(name + (text + behind))
  {
  }

  lemma SecondOfLeaf(name: string, c: char, behind: string)
    requires StartsSolid(name) || (name == "" && StartsSolid(behind))
    ensures SolidByTwo(name + ([c] + behind))
  {
  }

  /** No compact children start with two spaces: the first character of a child is none, unless it is
      the whole child. */
  lemma FirstOfItems(children: seq<Child>, indent: nat, list: bool, d: string)
    requires children != [] && StartsSolid(d)
    ensures SolidByTwo(WriteItems(children, indent, false, list) + d)
  {
    var child := children[0];
    var behind := JsonRoundTrip.Behind(|children| > 1, false, WriteItems(children[1..], indent, false, list), d);
    CompactItems(children, indent, list, d);
    FirstOfBehind(|children| > 1, WriteItems(children[1..], indent, false, list), d);
    if child.tree.children == [] && child.tree.data.Byte? {
      SecondOfLeaf(Label(child.key, false, list), child.tree.data.c, behind);
    } else {
      FirstOfCompact(child.tree, indent + 1);
      FirstOfSolid(Label(child.key, false, list), Write(child.tree, indent + 1, false), behind);
    }
  }

  lemma FirstOfBehind(more: bool, items: string, d: string)
    requires StartsSolid(d) && (!more ==> items == "")
    ensures StartsSolid(JsonRoundTrip.Behind(more, false, items, d))
  {
  }

  lemma CompactItems(children: seq<Child>, indent: nat, list: bool, d: string)
    requires children != []
    ensures WriteItems(children, indent, false, list) + d
            == Label(children[0].key, false, list)
               + (Write(children[0].tree, indent + 1, false)
                  + JsonRoundTrip.Behind(|children| > 1, false, WriteItems(children[1..], indent, false, list), d))
  {
    NoText(WriteItems(children, indent, false, list) + d);
    JsonRoundTrip.ItemText("", children, indent, false, list, d);
    NoText("" + Pad(false, indent + 1));
  }

  lemma ItemsStartWithSpace(children: seq<Child>, indent: nat, list: bool)
    requires children != []
    ensures var s := WriteItems(children, indent, true, list);
            s != "" && s[0] == ' '
  {
    assert Pad(true, indent + 1)[0] == ' ';
    assert WriteItem(children[0], indent, true, list, |children| > 1)[0] == ' ';
  }

  lemma AfterComma(items: string, p: string)
    requires items != "" && items[0] == ' '
    ensures Strip("," + ("\n" + (items + p)), Inside) == ",\n " + Strip(items[1..] + p, Inside)
  {
    var text := "," + ("\n" + (items + p));
    assert text == ",\n " + (items[1..] + p);
    StripConcat(",\n ", items[1..] + p, Inside);
    KeepPlain(",\n ");
  }

  /** Inside a literal that a leaf has opened, the line feed behind the value is kept. */
  lemma KeptBehind(others: seq<Child>, indent: nat, list: bool, p: string, d: string)
    requires StartsSolid(d)
    ensures Strip(JsonRoundTrip.Behind(others != [], true, WriteItems(others, indent, true, list), p), Inside)
            != JsonRoundTrip.Behind(others != [], false, WriteItems(others, indent, false, list), d)
  {
    var items, bare := WriteItems(others, indent, true, list), WriteItems(others, indent, false, list);
    if others == [] {
      assert JsonRoundTrip.Behind(false, true, items, p)[0] == '\n';
      assert JsonRoundTrip.Behind(false, false, bare, d) == d;
    } else {
      ItemsStartWithSpace(others, indent, list);
      AfterComma(items, p);
      FirstOfItems(others, indent, list, d);
      CommaDiffers(Strip(items[1..] + p, Inside), bare + d);
      NoText(bare + d);
    }
  }

  lemma CommaDiffers(kept: string, s: string)
    requires SolidByTwo(s)
    ensures ",\n " + kept != "," + s
  {
    assert (",\n " + kept)[1] == '\n' && (",\n " + kept)[2] == ' ';
    assert ("," + s)[1..] == s;
  }

  lemma {:induction false} NoisyNode(t: Tree, indent: nat, p: string, d: string)
    requires !Quiet(t) && (t.children == [] ==> indent > 0 && Strip(p, Inside) != d)
    ensures Strip(Write(t, indent, true) + p, Outside) != Write(t, indent, false) + d
    decreases t, 2
  {
    if t.children == [] {
      NoisyLeaf(t.data.c, p, d);
    } else {
      var list := IsArray(t, indent);
      var tail, bareTail := JsonRoundTrip.Tail(indent, true, list, p), JsonRoundTrip.Tail(indent, false, list, d);
      NoisyItems(t.children, indent, list, tail, bareTail);
      JsonRoundTrip.NodeText(t, indent, true, p);
      JsonRoundTrip.NodeText(t, indent, false, d);
      StripSpace(NewLine(true));
      StripBare([Open(list)]);
      DifferBehind(NewLine(true), "", WriteItems(t.children, indent, true, list) + tail,
                   WriteItems(t.children, indent, false, list) + bareTail);
      DifferBehind([Open(list)], [Open(list)], NewLine(true) + (WriteItems(t.children, indent, true, list) + tail),
                   NewLine(false) + (WriteItems(t.children, indent, false, list) + bareTail));
    }
  }

  lemma {:induction false} NoisyItems(children: seq<Child>, indent: nat, list: bool, p: string, d: string)
    requires !AllQuiet(children) && StartsSolid(d)
    ensures Strip(WriteItems(children, indent, true, list) + p, Outside)
            != WriteItems(children, indent, false, list) + d
    decreases children, 1
  {
    if Quiet(children[0].tree) {
      NoisyItems(children[1..], indent, list, p, d);
      QuietThenNoisy(children, indent, list, p, d);
    } else {
      NoisyFirst(children, indent, list, p, d);
    }
  }

  lemma QuietThenNoisy(children: seq<Child>, indent: nat, list: bool, p: string, d: string)
    requires children != [] && Quiet(children[0].tree)
    requires Strip(WriteItems(children[1..], indent, true, list) + p, Outside)
             != WriteItems(children[1..], indent, false, list) + d
    ensures Strip(WriteItems(children, indent, true, list) + p, Outside)
            != WriteItems(children, indent, false, list) + d
  {
    var item, bare := WriteItem(children[0], indent, true, list, |children| > 1),
                      WriteItem(children[0], indent, false, list, |children| > 1);
    PrettyIsCompactItem(children[0], indent, list, |children| > 1);
    DifferBehind(item, bare, WriteItems(children[1..], indent, true, list) + p,
                 WriteItems(children[1..], indent, false, list) + d);
    Sequences.Assoc(item, WriteItems(children[1..], indent, true, list), p);
    Sequences.Assoc(bare, WriteItems(children[1..], indent, false, list), d);
  }

  lemma {:induction false} NoisyFirst(children: seq<Child>, indent: nat, list: bool, p: string, d: string)
    requires children != [] && !Quiet(children[0].tree) && StartsSolid(d)
    ensures Strip(WriteItems(children, indent, true, list) + p, Outside)
            != WriteItems(children, indent, false, list) + d
    decreases children, 0
  {
    var child, others := children[0], children[1..];
    var behind := JsonRoundTrip.Behind(others != [], true, WriteItems(others, indent, true, list), p);
    var bare := JsonRoundTrip.Behind(others != [], false, WriteItems(others, indent, false, list), d);
    KeptBehind(others, indent, list, p, d);
    NoisyNode(child.tree, indent + 1, behind, bare);
    NoText(WriteItems(children, indent, true, list) + p);
    NoText(WriteItems(children, indent, false, list) + d);
    JsonRoundTrip.ItemText("", children, indent, true, list, p);
    JsonRoundTrip.ItemText("", children, indent, false, list, d);
    StripLabel(child.key, list);
    StripSpace("" + Pad(true, indent + 1));
    DifferBehind(Label(child.key, true, list), Label(child.key, false, list),
                 Write(child.tree, indent + 1, true) + behind, Write(child.tree, indent + 1, false) + bare);
    DifferBehind("" + Pad(true, indent + 1), "" + Pad(false, indent + 1),
                 Label(child.key, true, list) + (Write(child.tree, indent + 1, true) + behind),
                 Label(child.key, false, list) + (Write(child.tree, indent + 1, false) + bare));
  }

  /** Whatever the strings of a tree contain, its pretty text without layout is its compact text,
      exactly when no 8-bit leaf is printed as whitespace or a quotation mark. */
  lemma PrettyIsCompactIff(t: Tree)
    ensures Strip(Write(t, 0, true), Outside) == Write(t, 0, false) <==> AllQuiet(t.children)
  {
    if AllQuiet(t.children) {
      PrettyIsCompactNode(t, 0);
    } else {
      NoisyNode(t, 0, "", "");
      assert Write(t, 0, true) + "" == Write(t, 0, true) && Write(t, 0, false) + "" == Write(t, 0, false);
    }
  }

  /** The same for every node at every depth below the root. */
  lemma PrettyIsCompact(t: Tree, indent: nat)
    requires Quiet(t)
    ensures Strip(Write(t, indent, true), Outside) == Write(t, indent, false)
  {
    PrettyIsCompactNode(t, indent);
  }

  /** An 8-bit leaf printed as a space is taken for layout. */
  lemma SpaceLeafExample()
    ensures var t := Node(NO_DATA, [Child("a", Node(Byte(' '), []))]);
            Strip(Write(t, 0, true), Outside) != Write(t, 0, false)
  {
    var t := Node(NO_DATA, [Child("a", Node(Byte(' '), []))]);
    assert !Quiet(t.children[0].tree);
    PrettyIsCompactIff(t);
  }
}
