/** From a tracker's message to the subscriber of the Redis channel: the tree the parser stores is
    written as JSON and published, and nothing of it is lost on the way. */
module Delivery {
  import opened Wrappers
  import J = JsonTree
  import JsonReader
  import JsonRoundTrip
  import Resp
  import P = WialonParser
  import R = WialonReference
  import T = WialonTokens

  const CHANNEL := "foo"

  /** The property tree with one text leaf per field. */
  function PropertyTree(fields: P.Fields): J.Tree {
    J.Node(J.NO_DATA, seq(|fields|, i requires 0 <= i < |fields| =>
                                      J.Child(fields[i].0, JsonReader.Leaf(J.Text(fields[i].1)))))
  }

  /** What the Redis dispatcher publishes for a tree. */
  function Publication(fields: P.Fields, pretty: bool): Resp.Request {
    Resp.Publish(CHANNEL, J.Write(PropertyTree(fields), 0, pretty))
  }

  lemma {:induction false} TextLeavesAreFaithful(children: seq<J.Child>)
    requires forall i :: 0 <= i < |children| ==> children[i].tree.children == [] && children[i].tree.data.Text?
    ensures JsonRoundTrip.AllFaithful(children)
  {
    if children != [] {
      TextLeavesAreFaithful(children[1..]);
    }
  }

  /** Publications are told apart again from the bytes of a pipeline, and each of their messages
      reads back as the tree it was made from. */
  lemma PublishedTreesSurvive(trees: seq<P.Fields>, pretty: bool)
    requires forall i :: 0 <= i < |trees| ==> Resp.Fits(Publication(trees[i], pretty))
    ensures var requests := seq(|trees|, i requires 0 <= i < |trees| => Publication(trees[i], pretty));
            && Resp.Decode(Resp.EncodeAll(requests)) == Some(requests)
            && forall i :: 0 <= i < |trees| ==> JsonReader.Read(requests[i].message) == Some(PropertyTree(trees[i]))
  {
    var requests := seq(|trees|, i requires 0 <= i < |trees| => Publication(trees[i], pretty));
    Resp.PipelineDecodesUniquely(requests);
    forall i | 0 <= i < |trees|
      ensures JsonReader.Read(requests[i].message) == Some(PropertyTree(trees[i]))
    {
      TextLeavesAreFaithful(PropertyTree(trees[i]).children);
      JsonRoundTrip.RoundTripIff(PropertyTree(trees[i]), pretty);
    }
  }

  /** A data message of an authenticated session, rendered by a tracker, arrives with every value
      under its protocol name. */
  lemma MessageArrives(p: P.Parser, name: string, values: seq<string>, pretty: bool)
    requires p.state == P.INITIAL && p.authenticated && P.Lookup(name).Some?
    requires P.Lookup(name).value.1 in {P.Data, P.ShortData, P.Message}
    requires |values| == |P.Protocol(P.Lookup(name).value.1)| && R.Printable(values)
    requires Resp.Fits(Publication(R.Tree(P.Lookup(name).value.1, values), pretty))
    ensures var c := P.Lookup(name).value.1;
            var q := P.ConsumeEnd(P.Feed(p, T.Tokens("#" + name + "#" + T.Fields(values))));
            var request := Publication(R.Tree(c, values), pretty);
            && q.events == p.events + [P.Store(R.Tree(c, values))]
            && request.channel == "foo"
            && Resp.Decode(Resp.EncodeAll([request])) == Some([request])
            && JsonReader.Read(request.message).Some?
            && var children := JsonReader.Read(request.message).value.children;
               |children| == |values| &&
               forall i :: 0 <= i < |values| ==>
                 children[i] == J.Child(P.Protocol(c)[i], JsonReader.Leaf(J.Text(values[i])))
  {
    hide J.Write, P.Feed, T.Tokens, Resp.Decode;
    var c := P.Lookup(name).value.1;
    P.TableSizes(c);
    R.ParserInvertsPrinter(p, name, values);
    var tree := R.Tree(c, values);
    assert values[..|values|] == values;
    assert [Publication(tree, pretty)] == seq(1, i requires 0 <= i < 1 => Publication([tree][i], pretty));
    PublishedTreesSurvive([tree], pretty);
  }
}
