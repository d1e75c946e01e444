/** Blackbox messages: blocks of fields between bars. Every block leads to exactly one stored tree;
    which tree that is depends on whether an earlier block was filled up. */
module WialonBlackbox {
  import opened Wrappers
  import opened WialonParser
  import opened WialonTokens
  import opened WialonReference
  import Sequences

  const BLOCK_FIELDS := 16

  predicate BlockTokens(b: seq<string>) {
    NoEnd(b) && "|" !in b
  }

  // A tree kept from an earlier block, or a new one.
  type Held = Option<WialonParser.Fields>

  /** The tree a block stores: its own first fields, or the tree still held. */
  function BlockTree(held: Held, b: seq<string>): WialonParser.Fields {
    match held
    case None => Tree(Blackbox, b)
    case Some(t) => t
  }

  /** A filled block keeps its tree through the bar; only an empty block lets go of it. */
  function NextHeld(held: Held, b: seq<string>): Held {
    match held
    case None => if |b| >= BLOCK_FIELDS then Some(Tree(Blackbox, b)) else None
    case Some(t) => if b == [] then None else held
  }

  function StoredTrees(blocks: seq<seq<string>>, held: Held): (ts: seq<WialonParser.Fields>)
    ensures |ts| == |blocks|
  {
    if blocks == [] then []
    else [BlockTree(held, blocks[0])] + StoredTrees(blocks[1..], NextHeld(held, blocks[0]))
  }

  function Stores(ts: seq<WialonParser.Fields>): (es: seq<Event>)
    ensures |es| == |ts|
  {
    seq(|ts|, i requires 0 <= i < |ts| => Store(ts[i]))
  }

  // The machine on one block ---------------------------------------------------------------------

  /** The machine at the start of a block. */
  predicate AtBlock(p: Parser, held: Held) {
    && p.state == BODY && p.current == Blackbox
    && Lookup(p.cmd) == Some((BLOCK_FIELDS, Blackbox)) && p.count < SIZE_RANGE
    && match held
       case None => p.estimate == BLOCK_FIELDS && p.tree == []
       case Some(t) => p.estimate == 0 && p.tree == t
  }

  // How many tokens fill the block, and the extra one that makes the machine skip.
  function Room(held: Held): nat {
    if held.None? then BLOCK_FIELDS else 1
  }

  function AfterBlock(p: Parser, held: Held, b: seq<string>): Parser {
    var q := p.(tree := BlockTree(held, b),
                estimate := if held.None? then BLOCK_FIELDS - Min(|b|, BLOCK_FIELDS) else 0);
    if |b| < Room(held) then q
    else if |b| == Room(held) then q.(state := BAR)
    else StoreData(q.(state := SKIP_TO_BAR_OR_END, error := true))
  }

  lemma NewBlockField(p: Parser, front: seq<string>, tok: string)
    requires AtBlock(p, None) && tok != END_TOKEN && tok != "|" && |front| < BLOCK_FIELDS
    ensures Consume(AfterBlock(p, None, front), tok) == AfterBlock(p, None, front + [tok])
  {
    hide Consume, Put, Protocol, Lookup;
    TableSizes(Blackbox);
    TreeGrows(Blackbox, front, tok);
    FieldToken(AfterBlock(p, None, front), tok, BLOCK_FIELDS - |front|);
  }

  lemma FilledBlockToken(p: Parser, front: seq<string>, tok: string)
    requires AtBlock(p, None) && tok != END_TOKEN && tok != "|" && |front| >= BLOCK_FIELDS
    ensures Consume(AfterBlock(p, None, front), tok) == AfterBlock(p, None, front + [tok])
  {
    TableSizes(Blackbox);
    TreeStops(Blackbox, front, tok);
  }

  lemma HeldBlockStep(p: Parser, t: WialonParser.Fields, front: seq<string>, tok: string)
    requires AtBlock(p, Some(t)) && tok != END_TOKEN && tok != "|"
    ensures Consume(AfterBlock(p, Some(t), front), tok) == AfterBlock(p, Some(t), front + [tok])
  {
  }

  lemma BlockStep(p: Parser, held: Held, front: seq<string>, tok: string)
    requires AtBlock(p, held) && tok != END_TOKEN && tok != "|"
    ensures Consume(AfterBlock(p, held, front), tok) == AfterBlock(p, held, front + [tok])
  {
    match held {
      case None =>
        if |front| < BLOCK_FIELDS {
          NewBlockField(p, front, tok);
        } else {
          FilledBlockToken(p, front, tok);
        }
      case Some(t) => HeldBlockStep(p, t, front, tok);
    }
  }

  lemma {:induction false} BlockByBlock(p: Parser, held: Held, b: seq<string>)
    requires AtBlock(p, held) && BlockTokens(b)
    ensures Feed(p, b) == AfterBlock(p, held, b)
    decreases |b|
  {
    if b == [] {
      assert Tree(Blackbox, b) == [];
    } else {
      var front, tok := b[..|b| - 1], b[|b| - 1];
      assert b == front + [tok] && tok in b;
      BlockByBlock(p, held, front);
      BlockStep(p, held, front, tok);
    }
  }

  /** A bar stores the block's tree, once, and starts the next block. */
  lemma BarAfterBlock(p: Parser, held: Held, b: seq<string>)
    requires AtBlock(p, held)
    ensures var q := Consume(AfterBlock(p, held, b), "|");
            && AtBlock(q, NextHeld(held, b)) && q.authenticated == p.authenticated
            && q.cmd == p.cmd && q.count == p.count
            && q.events == p.events + [Store(BlockTree(held, b))]
  {
    TableSizes(Blackbox);
    var a := AfterBlock(p, held, b);
    if |b| < Room(held) {
      assert a.state == BODY;
      assert Consume(a, "|") == ConsumeBody(a, "|");
    } else if |b| == Room(held) {
      assert Consume(a, "|") == StoreData(a.(state := BODY));
    } else {
      assert Consume(a, "|") == a.(state := BODY);
    }
  }

  lemma CountIsAnswered(p: Parser)
    requires p.current == Blackbox && Lookup(p.cmd).Some? && p.count < SIZE_RANGE
    ensures Commit(p) == Emit(p, AnswerEvent(p.cmd, Decimal.Print(p.count)))
  {
    CommitFits(p);
  }

  /** The end of the message stores the block's tree, once, and answers with the counter. */
  lemma EndAfterBlock(p: Parser, held: Held, b: seq<string>)
    requires AtBlock(p, held)
    ensures var q := ConsumeEnd(AfterBlock(p, held, b));
            && q.state == INITIAL && q.authenticated == p.authenticated
            && q.events == p.events + [Store(BlockTree(held, b))] + [AnswerEvent(p.cmd, Decimal.Print(p.count))]
  {
    var q := AfterBlock(p, held, b);
    CountIsAnswered(if |b| <= Room(held) then StoreData(q) else q);
  }

  // A whole message ------------------------------------------------------------------------------

  predicate AllBlocks(blocks: seq<seq<string>>) {
    forall i :: 0 <= i < |blocks| ==> BlockTokens(blocks[i])
  }

  lemma FirstBlock(p: Parser, held: Held, blocks: seq<seq<string>>)
    requires AtBlock(p, held) && |blocks| > 1 && BlockTokens(blocks[0])
    ensures Feed(p, Barred(blocks)) == Feed(Consume(AfterBlock(p, held, blocks[0]), "|"), Barred(blocks[1..]))
  {
    var b := blocks[0];
    BlockByBlock(p, held, b);
    FeedConcat(p, b, ["|"] + Barred(blocks[1..]));
    FeedConcat(AfterBlock(p, held, b), ["|"], Barred(blocks[1..]));
    var q := AfterBlock(p, held, b);
    assert Feed(q, ["|"]) == Consume(Feed(q, []), "|");
  }

  lemma StoresOfMore(t: WialonParser.Fields, ts: seq<WialonParser.Fields>)
    ensures Stores([t] + ts) == [Store(t)] + Stores(ts)
  {
  }

  lemma FirstStore(blocks: seq<seq<string>>, held: Held, events: seq<Event>)
    requires blocks != []
    ensures events + [Store(BlockTree(held, blocks[0]))] + Stores(StoredTrees(blocks[1..], NextHeld(held, blocks[0])))
            == events + Stores(StoredTrees(blocks, held))
  {
    var t, ts := BlockTree(held, blocks[0]), StoredTrees(blocks[1..], NextHeld(held, blocks[0]));
    StoresOfMore(t, ts);
    Sequences.Assoc(events, [Store(t)], Stores(ts));
  }

  lemma {:induction false} BodyOfBlocks(p: Parser, held: Held, blocks: seq<seq<string>>)
    requires AtBlock(p, held) && blocks != [] && AllBlocks(blocks)
    ensures var q := ConsumeEnd(Feed(p, Barred(blocks)));
            && q.state == INITIAL && q.authenticated == p.authenticated
            && q.events == p.events + Stores(StoredTrees(blocks, held))
                           + [AnswerEvent(p.cmd, Decimal.Print(p.count))]
    decreases |blocks|
  {
    var b := blocks[0];
    FirstStore(blocks, held, p.events);
    if |blocks| == 1 {
      BlockByBlock(p, held, b);
      EndAfterBlock(p, held, b);
    } else {
      FirstBlock(p, held, blocks);
      BarAfterBlock(p, held, b);
      BodyOfBlocks(Consume(AfterBlock(p, held, b), "|"), NextHeld(held, b), blocks[1..]);
    }
  }

  lemma {:induction false} BarredHasNoEnd(blocks: seq<seq<string>>)
    requires AllBlocks(blocks)
    ensures NoEnd(Barred(blocks))
    decreases |blocks|
  {
    if |blocks| > 1 {
      BarredHasNoEnd(blocks[1..]);
    }
  }

  /** Exactly one tree is stored for each block, in the order of the blocks. */
  lemma BlackboxStores(p: Parser, blocks: seq<seq<string>>)
    requires p.state == INITIAL && p.authenticated && blocks != [] && AllBlocks(blocks)
    ensures var q := ConsumeEnd(Feed(p, Header("B") + Barred(blocks)));
            && q.state == INITIAL && q.authenticated
            && q.events == p.events + Stores(StoredTrees(blocks, None)) + [AnswerEvent("B", "0")]
  {
    var ts := Header("B") + Barred(blocks);
    BarredHasNoEnd(blocks);
    assert ts[4..] == Barred(blocks);
    TableSizes(Blackbox);
    FeedFour(p, ts);
    HeaderByHeader(p, ts);
    var q := Consume(Consume(Consume(Consume(p, ts[0]), ts[1]), ts[2]), ts[3]);
    BodyOfBlocks(q, None, blocks);
  }

  /** The same from the text of the message, whose blocks have at least one field each. */
  lemma PrintedBlackboxStores(p: Parser, blocks: seq<seq<string>>)
    requires p.state == INITIAL && p.authenticated && blocks != []
    requires forall i :: 0 <= i < |blocks| ==> blocks[i] != [] && Printable(blocks[i])
    ensures var q := ConsumeEnd(Feed(p, Tokens("#" + "B" + "#" + Blocks(blocks))));
            q.events == p.events + Stores(StoredTrees(blocks, None)) + [AnswerEvent("B", "0")]
  {
    PrintableBlocks(blocks);
    assert Plain("B");
    TokensOfBlockMessage("B", blocks);
    BlackboxStores(p, blocks);
  }

  lemma TokensOfBlockMessage(name: string, blocks: seq<seq<string>>)
    requires Plain(name) && blocks != []
    requires forall i :: 0 <= i < |blocks| ==> blocks[i] != [] && AllPlain(blocks[i])
    ensures Tokens("#" + name + "#" + Blocks(blocks)) == Header(name) + Barred(blocks)
  {
    PiecesOfBlocks(blocks);
    TokensOfMessage(name, Blocks(blocks), Barred(blocks));
  }

  lemma PrintableBlocks(blocks: seq<seq<string>>)
    requires forall i :: 0 <= i < |blocks| ==> Printable(blocks[i])
    ensures AllBlocks(blocks)
  {
    forall i | 0 <= i < |blocks|
      ensures BlockTokens(blocks[i])
    {
      assert Printable(blocks[i]);
      assert !Plain("|") by {
        assert IsDelimiter("|"[0]);
      }
    }
  }

  // When the stored trees are the right ones ---------------------------------------------------------

  function OwnTrees(blocks: seq<seq<string>>): (ts: seq<WialonParser.Fields>)
    ensures |ts| == |blocks|
  {
    seq(|blocks|, i requires 0 <= i < |blocks| => Tree(Blackbox, blocks[i]))
  }

  /** No block but the last is filled, unless the next one only repeats its fields. */
  predicate Aligned(blocks: seq<seq<string>>) {
    forall i :: 0 <= i < |blocks| - 1 && |blocks[i]| >= BLOCK_FIELDS ==> Repeats(blocks[i], blocks[i + 1])
  }

  predicate Repeats(b: seq<string>, next: seq<string>)
    requires |b| >= BLOCK_FIELDS
  {
    |next| >= BLOCK_FIELDS && next[..BLOCK_FIELDS] == b[..BLOCK_FIELDS]
  }

  lemma SameTreeIff(b: seq<string>, c: seq<string>)
    requires |b| >= BLOCK_FIELDS
    ensures Tree(Blackbox, c) == Tree(Blackbox, b) <==> Repeats(b, c)
  {
    TableSizes(Blackbox);
    var s, t := Tree(Blackbox, b), Tree(Blackbox, c);
    if s == t {
      forall i | 0 <= i < BLOCK_FIELDS
        ensures c[i] == b[i]
      {
        assert s[i].1 == b[..BLOCK_FIELDS][i] && t[i].1 == c[..BLOCK_FIELDS][i];
      }
    }
  }

  /** While a tree is held, the stored trees are right exactly if every block repeats it. */
  lemma {:induction false} HeldTreesRightIff(b: seq<string>, blocks: seq<seq<string>>)
    requires |b| >= BLOCK_FIELDS
    ensures StoredTrees(blocks, Some(Tree(Blackbox, b))) == OwnTrees(blocks)
            <==> Aligned([b] + blocks)
    decreases |blocks|
  {
    var all := [b] + blocks;
    if blocks != [] {
      var c := blocks[0];
      var held := Some(Tree(Blackbox, b));
      SameTreeIff(b, c);
      AlignedSplit(b, blocks);
      SplitTrees(blocks, held);
      if Repeats(b, c) {
        HeldTreesRightIff(c, blocks[1..]);
        assert [c] + blocks[1..] == blocks;
      }
    }
  }

  lemma AlignedSplit(b: seq<string>, blocks: seq<seq<string>>)
    requires blocks != []
    ensures Aligned([b] + blocks) <==> (|b| >= BLOCK_FIELDS ==> Repeats(b, blocks[0])) && Aligned(blocks)
  {
    var all := [b] + blocks;
    assert all[0] == b && all[1] == blocks[0];
    assert forall i :: 0 <= i < |blocks| ==> all[i + 1] == blocks[i];
    if Aligned(all) {
      forall i | 0 <= i < |blocks| - 1 && |blocks[i]| >= BLOCK_FIELDS
        ensures Repeats(blocks[i], blocks[i + 1])
      {
        assert Repeats(all[i + 1], all[i + 2]);
      }
    }
    if Aligned(blocks) && (|b| >= BLOCK_FIELDS ==> Repeats(b, blocks[0])) {
      forall i | 0 <= i < |all| - 1 && |all[i]| >= BLOCK_FIELDS
        ensures Repeats(all[i], all[i + 1])
      {
        if i > 0 {
          assert Repeats(blocks[i - 1], blocks[i]);
        }
      }
    }
  }

  lemma SplitTrees(blocks: seq<seq<string>>, held: Held)
    requires blocks != []
    ensures StoredTrees(blocks, held) == OwnTrees(blocks)
            <==> BlockTree(held, blocks[0]) == Tree(Blackbox, blocks[0])
                 && StoredTrees(blocks[1..], NextHeld(held, blocks[0])) == OwnTrees(blocks[1..])
  {
    var own, stored := OwnTrees(blocks), StoredTrees(blocks, held);
    assert own == [own[0]] + OwnTrees(blocks[1..]);
    assert stored[0] == BlockTree(held, blocks[0]);
    assert stored[1..] == StoredTrees(blocks[1..], NextHeld(held, blocks[0]));
    assert own[1..] == OwnTrees(blocks[1..]);
  }

  /** Every block is stored with its own first sixteen fields exactly when no block but the last
      reaches sixteen fields, repetitions of a filled block aside. */
  lemma {:induction false} TreesRightIff(blocks: seq<seq<string>>)
    ensures StoredTrees(blocks, None) == OwnTrees(blocks) <==> Aligned(blocks)
  {
    if blocks != [] {
      var b := blocks[0];
      SplitTrees(blocks, None);
      assert blocks == [b] + blocks[1..];
      if |b| >= BLOCK_FIELDS {
        HeldTreesRightIff(b, blocks[1..]);
      } else {
        TreesRightIff(blocks[1..]);
        if |blocks| > 1 {
          AlignedSplit(b, blocks[1..]);
        }
      }
    }
  }
}
