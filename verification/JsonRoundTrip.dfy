/** What is written is read back. */
module JsonRoundTrip {
  import opened Wrappers
  import opened JsonTree
  import opened JsonReader
  import Decimal

  /** Trees whose text holds all there is to them: data only in the leaves, and there none of the
      8-bit integers that are printed as characters. */
  predicate Faithful(t: Tree)
    decreases t, 1
  {
    if t.children == [] then !t.data.Byte? else t.data == NO_DATA && AllFaithful(t.children)
  }

  predicate AllFaithful(children: seq<Child>)
    decreases children, 0
  {
    children != [] ==> Faithful(children[0].tree) && AllFaithful(children[1..])
  }

  // Strings and numbers ----------------------------------------------------------------------------

  lemma ReadEscapedChar(c: char, rest: string)
    ensures EscapeChar(c) != [c] ==>
              EscapeChar(c)[0] == '\\' && ReadEscape((EscapeChar(c) + rest)[1..]) == Some((c, rest))
    ensures EscapeChar(c) == [c] ==> c >= ' ' && c != '"' && c != '\\'
  {
    if c < ' ' && EscapeChar(c)[1] == 'u' {
      var s := (EscapeChar(c) + rest)[1..];
      assert s[1..][0] == '0' && s[1..][1] == '0';
      assert HexValue(HexDigit(c as int / 16)) == Some(c as int / 16);
      assert HexValue(HexDigit(c as int % 16)) == Some(c as int % 16);
      assert HexChar(s[1..]) == Some(c);
      assert s[5..] == rest;
    } else {
      assert (EscapeChar(c) + rest)[|EscapeChar(c)|..] == rest;
    }
  }

  lemma {:induction false} ReadEscaped(text: string, rest: string)
    ensures ReadChars(Escape(text) + "\"" + rest) == Some((text, rest))
  {
    var s := Escape(text) + "\"" + rest;
    if text != "" {
      var c := text[0];
      var more := Escape(text[1..]) + "\"" + rest;
      assert s == EscapeChar(c) + more;
      ReadEscapedChar(c, more);
      ReadEscaped(text[1..], rest);
      assert [c] + text[1..] == text;
      if EscapeChar(c) == [c] {
        assert s[1..] == more;
      }
    }
  }

  predicate EndsNumber(rest: string) {
    rest != "" ==> !Decimal.IsDigit(rest[0]) && rest[0] != '.' && rest[0] != 'e' && rest[0] != 'E'
  }

  lemma ReadPrintedDigits(n: nat, rest: string)
    requires EndsNumber(rest)
    ensures ReadDigits(Decimal.Print(n) + rest) == Some((n, rest))
  {
    var d := Decimal.Print(n);
    Decimal.SpanOfDigits(d, rest);
    Decimal.ValueOfPrint(n);
    if n == 0 {
      assert d == "0";
    }
  }

  lemma ReadPrintedInt(n: int, rest: string)
    requires EndsNumber(rest)
    ensures ReadNumber(PrintInt(n) + rest) == Some((n, rest))
  {
    hide ReadDigits, Decimal.Print;
    if n < 0 {
      var digits := Decimal.Print(-n);
      assert "-" + digits + rest == ['-'] + (digits + rest);
      ReadPrintedDigits(-n, rest);
    } else {
      ReadPrintedDigits(n, rest);
    }
  }

  predicate AllSpace(w: string) {
    forall i :: 0 <= i < |w| ==> IsSpace(w[i])
  }

  lemma {:induction false} SkipAll(w: string, rest: string)
    requires AllSpace(w) && (rest != "" ==> !IsSpace(rest[0]))
    ensures SkipSpace(w + rest) == rest
  {
    if w == "" {
      assert w + rest == rest;
    } else {
      assert (w + rest)[1..] == w[1..] + rest;
      SkipAll(w[1..], rest);
    }
  }

  // Leaves ---------------------------------------------------------------------------------------

  lemma QuotedText(text: string, tail: string)
    ensures Quoted(text) + tail == ['"'] + (Escape(text) + "\"" + tail)
  {
  }

  lemma ReadQuoted(text: string, w: string, rest: string)
    requires AllSpace(w)
    ensures ReadValue(w + (Quoted(text) + rest)) == Some((Leaf(Text(text)), rest))
  {
    QuotedText(text, rest);
    ReadEscaped(text, rest);
    SkipAll(w, Quoted(text) + rest);
  }

  lemma ReadIntLeaf(n: int, w: string, rest: string)
    requires AllSpace(w) && EndsNumber(rest)
    ensures ReadValue(w + (PrintInt(n) + rest)) == Some((Leaf(Number(n)), rest))
  {
    var s := PrintInt(n) + rest;
    assert s[0] == PrintInt(n)[0];
    ReadPrintedInt(n, rest);
    SkipAll(w, s);
  }

  lemma ReadTruth(b: bool, w: string, rest: string)
    requires AllSpace(w)
    ensures ReadValue(w + (Scalar(Truth(b)) + rest)) == Some((Leaf(Truth(b)), rest))
  {
    var s := Scalar(Truth(b)) + rest;
    SkipAll(w, s);
    if b {
      assert s[..4] == "true" && s[4..] == rest;
    } else {
      assert s[..5] == "false" && s[5..] == rest && s[0] == 'f';
    }
  }

  lemma ReadScalar(v: Value, w: string, rest: string)
    requires !v.Byte? && AllSpace(w) && EndsNumber(rest)
    ensures ReadValue(w + (Scalar(v) + rest)) == Some((Leaf(v), rest))
  {
    match v {
      case Text(text) => ReadQuoted(text, w, rest);
      case Number(n) => ReadIntLeaf(n, w, rest);
      case Truth(b) => ReadTruth(b, w, rest);
    }
  }

  // Nodes ----------------------------------------------------------------------------------------

  lemma SpacesAreSpace(pretty: bool, depth: nat)
    ensures AllSpace(Pad(pretty, depth)) && AllSpace(NewLine(pretty))
  {
  }

  function Gap(pretty: bool): string {
    if pretty then " " else ""
  }

  lemma LabelText(key: string, pretty: bool, rest: string)
    ensures Label(key, pretty, false) + rest
            == ['"'] + (Escape(key) + "\"" + ([':'] + (Gap(pretty) + rest)))
  {
    hide Escape;
    var tail := [':'] + (Gap(pretty) + rest);
    assert Label(key, pretty, false) + rest == Quoted(key) + tail;
    QuotedText(key, tail);
  }

  lemma ReadLabel(w: string, key: string, pretty: bool, rest: string)
    requires AllSpace(w)
    ensures ReadKey(w + (Label(key, pretty, false) + rest)) == Some((key, Gap(pretty) + rest))
  {
    var tail := [':'] + (Gap(pretty) + rest);
    LabelText(key, pretty, rest);
    ReadEscaped(key, tail);
    assert SkipSpace(tail) == tail;
    SkipAll(w, Label(key, pretty, false) + rest);
  }

  // The text behind the children of a node.
  function Tail(indent: nat, pretty: bool, list: bool, rest: string): string {
    Pad(pretty, indent) + ([Shut(list)] + rest)
  }

  lemma RegroupNode(a: string, b: string, c: string, d: string, e: string, rest: string)
    ensures a + (b + (c + (d + e))) + rest == a + (b + (c + (d + (e + rest))))
  {
  }

  lemma RegroupItem(w: string, p: string, l: string, v: string, c: string, n: string, r: string, tail: string)
    ensures w + (((p + (l + (v + (c + n)))) + r) + tail) == (w + p) + (l + (v + (c + (n + (r + tail)))))
  {
    RegroupNode(p, l, v, c, n, r);
    RegroupNode(p, l, v, c, n + r, tail);
    assert n + r + tail == n + (r + tail);
  }

  lemma NodeText(t: Tree, indent: nat, pretty: bool, rest: string)
    requires !(indent > 0 && t.children == [])
    ensures var list := IsArray(t, indent);
            Write(t, indent, pretty) + rest
            == [Open(list)] + (NewLine(pretty) + (WriteItems(t.children, indent, pretty, list)
                                                  + Tail(indent, pretty, list, rest)))
  {
    var list := IsArray(t, indent);
    RegroupNode([Open(list)], NewLine(pretty), WriteItems(t.children, indent, pretty, list),
                Pad(pretty, indent), [Shut(list)], rest);
  }

  /** No value starts with a space or a closing bracket. */
  lemma FirstOfValue(t: Tree, indent: nat, pretty: bool)
    requires Faithful(t)
    ensures var s := Write(t, indent, pretty);
            s != "" && !IsSpace(s[0]) && s[0] != ']' && s[0] != '}'
  {
    if indent > 0 && t.children == [] && t.data.Number? {
      assert PrintInt(t.data.n)[0] == '-' || Decimal.IsDigit(PrintInt(t.data.n)[0]);
    }
  }

  // What follows the value of a child.
  function Behind(more: bool, pretty: bool, items: string, tail: string): string {
    Comma(more) + (NewLine(pretty) + (items + tail))
  }

  lemma ItemText(w: string, children: seq<Child>, indent: nat, pretty: bool, list: bool, tail: string)
    requires children != []
    ensures w + (WriteItems(children, indent, pretty, list) + tail)
            == (w + Pad(pretty, indent + 1))
               + (Label(children[0].key, pretty, list)
                  + (Write(children[0].tree, indent + 1, pretty)
                     + Behind(|children| > 1, pretty, WriteItems(children[1..], indent, pretty, list), tail)))
  {
    RegroupItem(w, Pad(pretty, indent + 1), Label(children[0].key, pretty, list),
                Write(children[0].tree, indent + 1, pretty), Comma(|children| > 1), NewLine(pretty),
                WriteItems(children[1..], indent, pretty, list), tail);
  }

  lemma SkipTail(indent: nat, pretty: bool, list: bool, rest: string)
    ensures SkipSpace(NewLine(pretty) + ("" + Tail(indent, pretty, list, rest))) == [Shut(list)] + rest
    ensures EndsNumber(NewLine(pretty) + ("" + Tail(indent, pretty, list, rest)))
  {
    SpacesAreSpace(pretty, indent);
    var w := NewLine(pretty) + Pad(pretty, indent);
    assert AllSpace(w);
    assert NewLine(pretty) + ("" + Tail(indent, pretty, list, rest)) == w + ([Shut(list)] + rest);
    SkipAll(w, [Shut(list)] + rest);
  }

  // The text starts with the child, as an element or a member, and goes on with `behind`.
  predicate ReadsAs(s: string, list: bool, child: Child, behind: string) {
    var key := if list then Some(("", s)) else ReadKey(s);
    key.Some? && key.value.0 == child.key && ReadValue(key.value.1) == Some((child.tree, behind))
  }

  lemma ItemThenMore(s: string, list: bool, child: Child, behind: string, others: seq<Child>, rest: string)
    requires ReadsAs(s, list, child, behind)
    requires behind != "" && behind[0] == ',' && ReadItems(behind[1..], list) == Some((others, rest))
    ensures ReadItems(s, list) == Some(([child] + others, rest))
  {
    assert SkipSpace(behind) == behind;
    assert child == Child(child.key, child.tree);
  }

  lemma ItemThenEnd(s: string, list: bool, child: Child, behind: string, rest: string)
    requires ReadsAs(s, list, child, behind) && SkipSpace(behind) == [Shut(list)] + rest
    ensures ReadItems(s, list) == Some(([child], rest))
  {
    assert ([Shut(list)] + rest)[1..] == rest;
    assert child == Child(child.key, child.tree);
  }

  /** Key and value of a child, with spaces before, and what is left behind them. */
  lemma ReadChild(child: Child, indent: nat, pretty: bool, list: bool, w: string, behind: string)
    requires AllSpace(w) && (list ==> child.key == "")
    requires forall gap :: AllSpace(gap) ==>
               ReadValue(gap + (Write(child.tree, indent + 1, pretty) + behind)) == Some((child.tree, behind))
    ensures ReadsAs(w + (Label(child.key, pretty, list) + (Write(child.tree, indent + 1, pretty) + behind)),
                    list, child, behind)
  {
    var text := Write(child.tree, indent + 1, pretty) + behind;
    if list {
      assert w + (Label(child.key, pretty, list) + text) == w + text;
    } else {
      ReadLabel(w, child.key, pretty, text);
      assert AllSpace(Gap(pretty));
    }
  }

  lemma ReadNode(w: string, list: bool, inner: string, children: seq<Child>, rest: string)
    requires AllSpace(w) && ReadItems(inner, list) == Some((children, rest))
    requires SkipSpace(inner) != "" ==> SkipSpace(inner)[0] != Shut(list)
    ensures ReadValue(w + ([Open(list)] + inner)) == Some((Node(NO_DATA, children), rest))
  {
    SkipAll(w, [Open(list)] + inner);
    assert ([Open(list)] + inner)[1..] == inner;
  }

  lemma ReadEmptyNode(w: string, list: bool, inner: string, rest: string)
    requires AllSpace(w) && SkipSpace(inner) == [Shut(list)] + rest
    ensures ReadValue(w + ([Open(list)] + inner)) == Some((Node(NO_DATA, []), rest))
  {
    SkipAll(w, [Open(list)] + inner);
    assert ([Open(list)] + inner)[1..] == inner;
    assert ([Shut(list)] + rest)[1..] == rest;
  }

  /** Reading what was written of a node at depth `indent`, with space before and anything behind it
      that cannot belong to a number. */
  lemma {:induction false} ReadWritten(t: Tree, indent: nat, pretty: bool, w: string, rest: string)
    requires Faithful(t) && (indent == 0 ==> t.data == NO_DATA)
    requires AllSpace(w) && EndsNumber(rest)
    ensures ReadValue(w + (Write(t, indent, pretty) + rest)) == Some((t, rest))
    decreases t, 2
  {
    if indent > 0 && t.children == [] {
      ReadScalar(t.data, w, rest);
    } else {
      var list := IsArray(t, indent);
      var tail := Tail(indent, pretty, list, rest);
      var inner := NewLine(pretty) + (WriteItems(t.children, indent, pretty, list) + tail);
      NodeText(t, indent, pretty, rest);
      if t.children == [] {
        SkipTail(indent, pretty, list, rest);
        ReadEmptyNode(w, list, inner, rest);
        assert t == Node(NO_DATA, []);
      } else {
        SpacesAreSpace(pretty, indent);
        ReadWrittenItems(t.children, indent, pretty, list, NewLine(pretty), rest);
        NoBracketYet(t.children, indent, pretty, list, tail);
        ReadNode(w, list, inner, t.children, rest);
        assert t == Node(NO_DATA, t.children);
      }
    }
  }

  lemma NoBracketYet(children: seq<Child>, indent: nat, pretty: bool, list: bool, tail: string)
    requires children != [] && AllFaithful(children)
    ensures var s := SkipSpace(NewLine(pretty) + (WriteItems(children, indent, pretty, list) + tail));
            s == "" || s[0] != Shut(list)
  {
    var w := NewLine(pretty) + Pad(pretty, indent + 1);
    var text := Label(children[0].key, pretty, list)
                + (Write(children[0].tree, indent + 1, pretty)
                   + Behind(|children| > 1, pretty, WriteItems(children[1..], indent, pretty, list), tail));
    ItemText(NewLine(pretty), children, indent, pretty, list, tail);
    SpacesAreSpace(pretty, indent + 1);
    FirstOfValue(children[0].tree, indent + 1, pretty);
    assert text[0] == if list then Write(children[0].tree, indent + 1, pretty)[0] else '"';
    SkipAll(w, text);
  }

  lemma BehindMore(pretty: bool, items: string, tail: string)
    ensures Behind(true, pretty, items, tail) == [','] + (NewLine(pretty) + (items + tail))
    ensures Behind(true, pretty, items, tail)[1..] == NewLine(pretty) + (items + tail)
  {
  }

  lemma BehindLast(pretty: bool, tail: string)
    ensures Behind(false, pretty, "", tail) == NewLine(pretty) + ("" + tail)
  {
  }

  lemma {:induction false} FirstChildReads(children: seq<Child>, indent: nat, pretty: bool, list: bool,
                                           w: string, tail: string)
    requires children != [] && AllFaithful(children) && (list ==> AllKeysEmpty(children)) && AllSpace(w)
    requires EndsNumber(Behind(|children| > 1, pretty, WriteItems(children[1..], indent, pretty, list), tail))
    ensures ReadsAs(w + (WriteItems(children, indent, pretty, list) + tail), list, children[0],
                    Behind(|children| > 1, pretty, WriteItems(children[1..], indent, pretty, list), tail))
    decreases children, 0
  {
    hide ReadsAs, ReadValue;
    var child := children[0];
    var behind := Behind(|children| > 1, pretty, WriteItems(children[1..], indent, pretty, list), tail);
    ItemText(w, children, indent, pretty, list, tail);
    SpacesAreSpace(pretty, indent + 1);
    forall gap | AllSpace(gap)
      ensures ReadValue(gap + (Write(child.tree, indent + 1, pretty) + behind)) == Some((child.tree, behind))
    {
      ReadWritten(child.tree, indent + 1, pretty, gap, behind);
    }
    ReadChild(child, indent, pretty, list, w + Pad(pretty, indent + 1), behind);
  }

  lemma LastItemRead(s: string, children: seq<Child>, indent: nat, pretty: bool, list: bool, rest: string)
    requires |children| == 1
    requires ReadsAs(s, list, children[0], Behind(false, pretty, "", Tail(indent, pretty, list, rest)))
    ensures ReadItems(s, list) == Some((children, rest))
  {
    var tail := Tail(indent, pretty, list, rest);
    SkipTail(indent, pretty, list, rest);
    BehindLast(pretty, tail);
    ItemThenEnd(s, list, children[0], Behind(false, pretty, "", tail), rest);
    assert children == [children[0]];
  }

  lemma MoreItemsRead(s: string, children: seq<Child>, pretty: bool, list: bool,
                      items: string, tail: string, rest: string)
    requires |children| > 1 && ReadsAs(s, list, children[0], Behind(true, pretty, items, tail))
    requires ReadItems(NewLine(pretty) + (items + tail), list) == Some((children[1..], rest))
    ensures ReadItems(s, list) == Some((children, rest))
  {
    hide ReadItems, ReadsAs, ReadValue, ReadKey;
    BehindMore(pretty, items, tail);
    ItemThenMore(s, list, children[0], Behind(true, pretty, items, tail), children[1..], rest);
    assert [children[0]] + children[1..] == children;
  }

  lemma NumberEndsBehind(more: bool, indent: nat, pretty: bool, list: bool, items: string, rest: string)
    requires !more ==> items == ""
    ensures EndsNumber(Behind(more, pretty, items, Tail(indent, pretty, list, rest)))
  {
    if more {
      BehindMore(pretty, items, Tail(indent, pretty, list, rest));
    } else {
      BehindLast(pretty, Tail(indent, pretty, list, rest));
      SkipTail(indent, pretty, list, rest);
    }
  }

  lemma {:induction false} ReadWrittenItems(children: seq<Child>, indent: nat, pretty: bool, list: bool,
                                            w: string, rest: string)
    requires children != [] && AllFaithful(children) && (list ==> AllKeysEmpty(children))
    requires AllSpace(w)
    ensures ReadItems(w + (WriteItems(children, indent, pretty, list) + Tail(indent, pretty, list, rest)), list)
            == Some((children, rest))
    decreases children, 1
  {
    var tail, others := Tail(indent, pretty, list, rest), children[1..];
    var items := WriteItems(others, indent, pretty, list);
    var s := w + (WriteItems(children, indent, pretty, list) + tail);
    NumberEndsBehind(|children| > 1, indent, pretty, list, items, rest);
    FirstChildReads(children, indent, pretty, list, w, tail);
    if |children| > 1 {
      SpacesAreSpace(pretty, indent);
      ReadWrittenItems(others, indent, pretty, list, NewLine(pretty), rest);
      MoreItemsRead(s, children, pretty, list, items, tail, rest);
    } else {
      LastItemRead(s, children, indent, pretty, list, rest);
    }
  }

  // Whole texts ----------------------------------------------------------------------------------

  predicate FaithfulRoot(t: Tree) {
    t.data == NO_DATA && AllFaithful(t.children)
  }

  lemma {:induction false} ReadIsFaithful(s: string)
    ensures ReadValue(s).Some? ==> Faithful(ReadValue(s).value.0)
    decreases |s|, 0
  {
    var s0 := SkipSpace(s);
    if s0 != "" && (s0[0] == '{' || s0[0] == '[') {
      ReadItemsAreFaithful(s0[1..], s0[0] == '[');
    }
  }

  lemma {:induction false} ReadItemsAreFaithful(s: string, list: bool)
    ensures ReadItems(s, list).Some? ==> ReadItems(s, list).value.0 != [] && AllFaithful(ReadItems(s, list).value.0)
    decreases |s|, 1
  {
    var key := if list then Some(("", s)) else ReadKey(s);
    if key.Some? {
      ReadIsFaithful(key.value.1);
      var v := ReadValue(key.value.1);
      if v.Some? {
        var s3 := SkipSpace(v.value.1);
        if s3 != "" && s3[0] == ',' {
          ReadItemsAreFaithful(s3[1..], list);
        }
      }
    }
  }

  lemma RootIsRead(t: Tree, pretty: bool)
    requires Read(Write(t, 0, pretty)) == Some(t)
    ensures FaithfulRoot(t)
  {
    var s := Write(t, 0, pretty);
    assert s[0] == '{' && SkipSpace(s) == s;
    ReadIsFaithful(s);
    ReadItemsAreFaithful(s[1..], false);
  }

  /** Pretty or compact, reading a written tree gives back exactly that tree if and only if data
      sits in leaves only and none of it is an 8-bit integer. */
  lemma RoundTripIff(t: Tree, pretty: bool)
    ensures Read(Write(t, 0, pretty)) == Some(t) <==> FaithfulRoot(t)
  {
    if FaithfulRoot(t) {
      assert Faithful(t);
      ReadWritten(t, 0, pretty, "", "");
      assert "" + (Write(t, 0, pretty) + "") == Write(t, 0, pretty);
    }
    if Read(Write(t, 0, pretty)) == Some(t) {
      RootIsRead(t, pretty);
    }
  }

  /** An 8-bit leaf holding the code of a digit comes back as a number. */
  lemma ByteLeafExample()
    ensures !FaithfulRoot(Node(NO_DATA, [Child("a", Leaf(Byte('7')))]))
    ensures Read(Write(Node(NO_DATA, [Child("a", Leaf(Byte('7')))]), 0, false))
            == Some(Node(NO_DATA, [Child("a", Leaf(Number(7)))]))
  {
    var t, u := Node(NO_DATA, [Child("a", Leaf(Byte('7')))]), Node(NO_DATA, [Child("a", Leaf(Number(7)))]);
    assert Scalar(Byte('7')) == Scalar(Number(7));
    assert t.children[1..] == [] && u.children[1..] == [];
    assert Write(t, 0, false) == Write(u, 0, false);
    assert AllFaithful(u.children);
    RoundTripIff(u, false);
  }
}
