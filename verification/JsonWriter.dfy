/** The recursive printer as it runs, over a stream that every level of the recursion appends to. */
module JsonWriter {
  import opened JsonTree
  import Sequences

  class OutStream {
    var text: string

    constructor ()
      ensures text == ""
    {
      text := "";
    }

    method Put(s: string)
      modifies this
      ensures text == old(text) + s
    {
      text := text + s;
    }
  }

  /** How many children have the key. */
  function Count(children: seq<Child>, key: string): (k: nat)
    ensures k <= |children|
  {
    if children == [] then 0 else (if children[0].key == key then 1 else 0) + Count(children[1..], key)
  }

  lemma {:induction false} AllCountedIff(children: seq<Child>)
    ensures Count(children, "") == |children| <==> AllKeysEmpty(children)
  {
    if children != [] {
      AllCountedIff(children[1..]);
      assert forall i :: 0 <= i < |children| - 1 ==> children[1..][i] == children[i + 1];
    }
  }

  method WriteJsonHelper(stream: OutStream, pt: Tree, indent: nat, pretty: bool)
    modifies stream
    ensures stream.text == old(stream.text) + Write(pt, indent, pretty)
    decreases pt
  {
    if indent > 0 && |pt.children| == 0 {
      stream.Put(Scalar(pt.data));
      return;
    }
    AllCountedIff(pt.children);
    var list := indent > 0 && Count(pt.children, "") == |pt.children|;
    stream.Put([Open(list)]);
    stream.Put(NewLine(pretty));
    WriteChildren(stream, pt, indent, pretty, list);
    stream.Put(Pad(pretty, indent));
    stream.Put([Shut(list)]);
    Grouped(old(stream.text), [Open(list)], NewLine(pretty), WriteItems(pt.children, indent, pretty, list),
            Pad(pretty, indent), [Shut(list)]);
  }

  method WriteChildren(stream: OutStream, pt: Tree, indent: nat, pretty: bool, list: bool)
    modifies stream
    ensures stream.text == old(stream.text) + WriteItems(pt.children, indent, pretty, list)
    decreases pt, 0
  {
    var it := 0;
    assert pt.children[0..] == pt.children;
    while it < |pt.children|
      invariant 0 <= it <= |pt.children|
      invariant stream.text + WriteItems(pt.children[it..], indent, pretty, list)
             == old(stream.text) + WriteItems(pt.children, indent, pretty, list)
    {
      ItemByItem(stream.text, pt.children, it, indent, pretty, list);
      WriteChild(stream, pt.children[it], indent, pretty, list, it + 1 < |pt.children|);
      it := it + 1;
    }
  }

  lemma ItemByItem(text: string, children: seq<Child>, k: nat, indent: nat, pretty: bool, list: bool)
    requires k < |children|
    ensures text + WriteItem(children[k], indent, pretty, list, k + 1 < |children|)
            + WriteItems(children[k + 1..], indent, pretty, list)
            == text + WriteItems(children[k..], indent, pretty, list)
  {
    assert children[k..][1..] == children[k + 1..];
    Sequences.Assoc(text, WriteItem(children[k], indent, pretty, list, k + 1 < |children|),
                    WriteItems(children[k + 1..], indent, pretty, list));
  }

  method WriteChild(stream: OutStream, child: Child, indent: nat, pretty: bool, list: bool, more: bool)
    modifies stream
    ensures stream.text == old(stream.text) + WriteItem(child, indent, pretty, list, more)
    decreases child
  {
    stream.Put(Pad(pretty, indent + 1));
    stream.Put(Label(child.key, pretty, list));
    WriteJsonHelper(stream, child.tree, indent + 1, pretty);
    stream.Put(Comma(more));
    stream.Put(NewLine(pretty));
    Grouped(old(stream.text), Pad(pretty, indent + 1), Label(child.key, pretty, list),
            Write(child.tree, indent + 1, pretty), Comma(more), NewLine(pretty));
  }

  lemma Grouped(text: string, a: string, b: string, c: string, d: string, e: string)
    ensures text + a + b + c + d + e == text + (a + (b + (c + (d + e))))
  {
  }
}
