/** The translator object: the parser's fields, updated token by token, a tree on the heap that is
    shared with whoever processes the data, and the 32-byte answer buffer. */
module WialonPlugin {
  import opened Wrappers
  import P = WialonParser
  import R = WialonReference
  import opened WialonTokens
  import Decimal
  import Sequences

  // The tree under construction; `process_data` receives a pointer to it, not a copy.
  class DataTree {
    var fields: P.Fields

    constructor ()
      ensures fields == []
    {
      fields := [];
    }

    method Put(name: string, value: string)
      modifies this
      ensures fields == P.Put(old(fields), name, value)
    {
      var k := P.IndexOf(fields, name);
      fields := if k < |fields| then fields[k := (name, value)] else fields + [(name, value)];
    }
  }

  function StoredTrees(events: seq<P.Event>): seq<P.Fields> {
    if events == [] then []
    else
      var front, last := StoredTrees(events[..|events| - 1]), events[|events| - 1];
      if last.Store? then front + [last.tree] else front
  }

  class Plugin {
    var state: P.StateTag
    var estimate: nat
    var tree: DataTree?
    var cmd: string
    var current: P.Command
    var authenticated: bool
    var error: bool
    var count: nat
    const answerBuffer: array<char>

    var handed: seq<DataTree>            // the trees passed to process_data
    var events: seq<P.Event>             // every request made, with the tree as it was then

    ghost function View(): P.Parser
      reads this, tree
    {
      P.Parser(state, estimate, if tree == null then [] else tree.fields, cmd, current, authenticated,
               error, count, events)
    }

    /** A tree once handed on still is what it was then: the parser only ever puts fields into a tree
        that nobody else has seen. */
    ghost predicate Sharing()
      reads this, tree, handed
    {
      && answerBuffer.Length == P.BUFFER_SIZE
      && Frozen(handed, StoredTrees(events))
      && (state != P.INITIAL ==> tree != null)
      && (tree != null && tree in handed && state != P.INITIAL ==> estimate == 0 && !P.BeforeCommand(state))
    }

    ghost predicate Valid()
      reads this, tree, handed
    {
      Sharing() && P.TableInv(View()) && P.AuthInv(View())
    }

    constructor ()
      ensures Valid() && P.Fresh(View()) && fresh(answerBuffer)
    {
      authenticated := false;
      state := P.INITIAL;
      tree := null;
      count := 0;
      answerBuffer := new char[P.BUFFER_SIZE];
      handed, events := [], [];
    }

    /** The answer is printed into the buffer and sent from there. */
    method Answer(msg: string)
      requires answerBuffer.Length == P.BUFFER_SIZE && Frozen(handed, StoredTrees(events))
      modifies this`events, answerBuffer
      ensures Frozen(handed, StoredTrees(events))
      ensures View() == P.Answer(old(View()), msg)
      ensures Plain(cmd) && Plain(msg) && 5 + |cmd| + |msg| <= 32 ==>
                && |events| == |old(events)| + 1
                && events[|old(events)|].Reply? && R.SaysTo(events[|old(events)|].text, cmd, msg)
    {
      hide P.ReplyText, R.SaysTo, Plain, StoredTrees;
      ghost var p := View();
      if Plain(cmd) && Plain(msg) {
        R.AnswerIsRead(p, msg);
      }
      var e := SendFrom(P.ReplyText(cmd, msg));
      OtherEvent(events, e);
      events := events + [e];
    }

    // The text goes through the buffer, if there is room for it.
    method SendFrom(text: string) returns (e: P.Event)
      requires answerBuffer.Length == P.BUFFER_SIZE
      modifies answerBuffer
      ensures e == if |text| <= P.BUFFER_SIZE then P.Reply(text) else P.Overlong(|text|)
    {
      var size := |text|;
      var i := 0;
      while i < size && i < answerBuffer.Length
        invariant 0 <= i <= size && i <= answerBuffer.Length
        invariant answerBuffer[..i] == text[..i]
      {
        answerBuffer[i] := text[i];
        i := i + 1;
      }
      e := P.Overlong(size);
      if size <= answerBuffer.Length {
        assert text[..size] == text;
        e := P.Reply(answerBuffer[..size]);
      }
    }

    method StoreData()
      requires tree != null && Frozen(handed, StoredTrees(events))
      modifies this`handed, this`events
      ensures handed == old(handed) + [tree] && Frozen(handed, StoredTrees(events))
      ensures View() == P.StoreData(old(View()))
    {
      StoreEvent(events, tree.fields);
      handed := handed + [tree];
      events := events + [P.Store(tree.fields)];
    }

    method CommitCommand()
      requires tree != null && answerBuffer.Length == P.BUFFER_SIZE && Frozen(handed, StoredTrees(events))
      modifies this`handed, this`events, this`state, answerBuffer
      ensures Frozen(handed, StoredTrees(events)) && (handed == old(handed) || handed == old(handed) + [tree])
      ensures View() == P.Commit(old(View()))
    {
      match current {
        case Login =>
          if error {
            Answer("0");
          } else {
            var imei, password := P.Get(tree.fields, "imei"), P.Get(tree.fields, "password");
            var e := if imei.Some? && password.Some? then P.Authenticate(imei.value, password.value) else P.BadPath;
            OtherEvent(events, e);
            events := events + [e];
          }
        case Ping => Answer("");
        case Blackbox => Answer(Decimal.Print(count));
        case Image =>
          state := P.BINARY_DATA;
          OtherEvent(events, P.AwaitImage(tree.fields));
          events := events + [P.AwaitImage(tree.fields)];
        case _ => StoreData();
      }
    }

    method StoreAndCommit()
      requires tree != null && answerBuffer.Length == P.BUFFER_SIZE && Frozen(handed, StoredTrees(events))
      modifies this`handed, this`events, this`state, answerBuffer
      ensures Frozen(handed, StoredTrees(events)) && old(handed) <= handed
      ensures View() == P.Commit(P.StoreData(old(View())))
    {
      StoreData();
      CommitCommand();
    }

    // The end of the message in the middle of a body.
    method EndBody()
      requires tree != null && answerBuffer.Length == P.BUFFER_SIZE && Frozen(handed, StoredTrees(events))
      modifies this`handed, this`events, this`state, this`error, answerBuffer
      ensures Frozen(handed, StoredTrees(events)) && old(handed) <= handed
      ensures View() == if old(current) != P.Blackbox then P.Commit(old(View()).(error := true))
                        else P.Commit(P.StoreData(old(View())))
    {
      if current != P.Blackbox {
        error := true;
        CommitCommand();
      } else {
        StoreAndCommit();
      }
    }

    method ConsumeEnd()
      requires Sharing()
      modifies this`handed, this`events, this`state, this`error, answerBuffer
      ensures Sharing() && View() == P.ConsumeEnd(old(View()))
      ensures old(handed) <= handed
    {
      hide P.Commit, P.StoreData, Frozen, StoredTrees;
      match state {
        case BODY => EndBody();
        case BAR => StoreAndCommit();
        case SKIP_TO_BAR_OR_END => CommitCommand();
        case COMMAND => error := true;
        case HASH_FIRST => error := true;
        case HASH_SECOND => error := true;
        case END => CommitCommand();
        case _ =>
      }
      state := P.INITIAL;
    }

    // The block after a bar: the full countdown and a new tree.
    method NextBlock(fields: nat, command: P.Command)
      requires Frozen(handed, StoredTrees(events))
      modifies this`estimate, this`current, this`tree
      ensures Frozen(handed, StoredTrees(events)) && fresh(tree) && tree !in handed
      ensures View() == old(View()).(estimate := fields, current := command, tree := [])
    {
      estimate, current := fields, command;
      NewTree();
    }

    method NewTree()
      requires Frozen(handed, StoredTrees(events))
      modifies this`tree
      ensures fresh(tree) && tree.fields == [] && tree !in handed
      ensures Frozen(handed, StoredTrees(events))
    {
      tree := new DataTree();
    }

    method PutField(tok: string)
      requires Sharing() && state == P.BODY && 0 < estimate <= |P.Reversed(current)|
      modifies this`estimate, tree
      ensures Sharing() && estimate == old(estimate) - 1
      ensures View() == old(View()).(estimate := estimate,
                                     tree := P.Put(old(View()).tree, P.Reversed(current)[estimate], tok))
    {
      estimate := estimate - 1;
      tree.Put(P.Reversed(current)[estimate], tok);
    }

    // The state after a body token: the body goes on, or all its fields are read.
    method Advance()
      requires Sharing() && state == P.BODY
      modifies this`state
      ensures Sharing()
      ensures View() == if estimate > 0 then old(View())
                        else old(View()).(state := if current != P.Blackbox then P.END else P.BAR)
    {
      if estimate == 0 {
        state := if current != P.Blackbox then P.END else P.BAR;
      }
    }

    // A body token that is no bar between blocks.
    method ConsumeField(tok: string)
      requires Sharing() && state == P.BODY && estimate <= |P.Reversed(current)|
      requires !(current == P.Blackbox && tok == "|")
      modifies this`estimate, this`state, tree
      ensures Sharing() && View() == P.ConsumeBody(old(View()), tok)
    {
      hide P.Reversed, P.Put;
      if estimate > 0 {
        PutField(tok);
      }
      Advance();
    }

    method ConsumeBlockBar()
      requires Sharing() && state == P.BODY && current == P.Blackbox && P.Lookup(cmd).Some?
      modifies this`estimate, this`current, this`tree, this`handed, this`events
      ensures Sharing() && View() == P.ConsumeBody(old(View()), "|")
      ensures fresh(tree) && old(handed) <= handed
    {
      var found := P.Lookup(cmd).value;
      StoreData();
      NextBlock(found.0, found.1);
    }

    method ConsumeBody(tok: string)
      requires Sharing() && state == P.BODY && P.Lookup(cmd).Some? && estimate <= |P.Reversed(current)|
      modifies this, tree
      ensures Sharing() && View() == P.ConsumeBody(old(View()), tok)
      ensures (tree == old(tree) || fresh(tree)) && old(handed) <= handed
    {
      if current == P.Blackbox && tok == "|" {
        ConsumeBlockBar();
      } else {
        ConsumeField(tok);
      }
    }

    method BeginMessage()
      requires Sharing()
      modifies this
      ensures Sharing() && handed == old(handed) && fresh(tree)
      ensures View() == old(View()).(tree := [], error := false, count := 0, cmd := "<not initialized>",
                                     state := P.HASH_FIRST)
    {
      NewTree();
      error, count, cmd := false, 0, "<not initialized>";
      state := P.HASH_FIRST;
    }

    method ConsumeCommand(tok: string)
      requires Sharing() && state == P.COMMAND
      modifies this`cmd, this`estimate, this`current, this`state, this`error
      ensures Sharing() && View() == P.ConsumeCommand(old(View()), tok)
    {
      cmd := tok;
      var found := P.Lookup(tok);
      if found.None? {
        state, error := P.SKIP_TO_END, true;
      } else {
        estimate, current := found.value.0, found.value.1;
        state := if !authenticated && current != P.Login then P.SKIP_TO_END else P.HASH_SECOND;
      }
    }

    method LeaveBar(tok: string)
      modifies this`state, this`error
      ensures View() == if tok == "|" then old(View()).(state := P.BODY)
                        else old(View()).(state := P.SKIP_TO_BAR_OR_END, error := true)
    {
      state := P.BODY;
      if tok != "|" {
        state, error := P.SKIP_TO_BAR_OR_END, true;
      }
    }

    method ConsumeBar(tok: string)
      requires Sharing() && state == P.BAR && estimate == 0
      modifies this`state, this`error, this`handed, this`events
      ensures Sharing() && old(handed) <= handed
      ensures View() == P.StoreData(if tok == "|" then old(View()).(state := P.BODY)
                                    else old(View()).(state := P.SKIP_TO_BAR_OR_END, error := true))
    {
      hide Frozen, StoredTrees, P.StoreData;
      LeaveBar(tok);
      StoreData();
    }

    // The two places that want a hash sign.
    method ConsumeHash(tok: string)
      requires Sharing() && (state == P.HASH_FIRST || state == P.HASH_SECOND)
      requires tree !in handed
      modifies this`state, this`error
      ensures Sharing()
      ensures View() == if tok == "#"
                        then old(View()).(state := if old(state) == P.HASH_FIRST then P.COMMAND else P.BODY)
                        else old(View()).(state := P.SKIP_TO_END, error := true)
    {
      if tok == "#" {
        state := if state == P.HASH_FIRST then P.COMMAND else P.BODY;
      } else {
        state, error := P.SKIP_TO_END, true;
      }
    }

    method ConsumeToken(tok: string)
      requires Valid()
      modifies this, tree, answerBuffer
      ensures Valid() && View() == P.Consume(old(View()), tok)
      ensures tree == old(tree) || fresh(tree)
      ensures old(handed) <= handed
    {
      P.ActKeepsInv(View(), P.Token(tok));
      P.TableSizes(current);
      if tok == P.END_TOKEN {
        ConsumeEnd();
      } else {
        ConsumeInner(tok);
      }
    }

    method ConsumeInner(tok: string)
      requires Sharing() && tok != P.END_TOKEN
      requires P.BeforeCommand(state) || state == P.IMEI ==> tree !in handed
      requires state == P.BODY ==> P.Lookup(cmd).Some? && estimate <= |P.Reversed(current)|
      requires state == P.BAR || state == P.SKIP_TO_BAR_OR_END || state == P.END ==> estimate == 0
      modifies this, tree
      ensures Sharing() && View() == P.Consume(old(View()), tok)
      ensures tree == old(tree) || fresh(tree)
      ensures old(handed) <= handed
    {
      hide P.Consume;
      if state == P.BODY || state == P.BAR || state == P.SKIP_TO_BAR_OR_END || state == P.END {
        ConsumeContent(tok);
      } else {
        ConsumeHeader(tok);
      }
    }

    // Up to the body of a command, or past its end.
    method ConsumeHeader(tok: string)
      requires Sharing() && tok != P.END_TOKEN
      requires P.BeforeCommand(state) || state == P.IMEI ==> tree !in handed
      requires state != P.BODY && state != P.BAR && state != P.SKIP_TO_BAR_OR_END && state != P.END
      modifies this
      ensures Sharing() && View() == P.Consume(old(View()), tok)
      ensures tree == old(tree) || fresh(tree)
      ensures handed == old(handed)
    {
      hide P.ConsumeCommand, P.ConsumeBody, P.ConsumeEnd, Frozen, StoredTrees;
      match state {
        case INITIAL => BeginMessage();
        case IMEI => ConsumeImei();
        case COMMAND => ConsumeCommand(tok);
        case HASH_FIRST => ConsumeHash(tok);
        case HASH_SECOND => ConsumeHash(tok);
        case _ =>
      }
    }

    // The body of a command.
    method ConsumeContent(tok: string)
      requires Sharing() && tok != P.END_TOKEN
      requires state == P.BODY || state == P.BAR || state == P.SKIP_TO_BAR_OR_END || state == P.END
      requires state == P.BODY ==> P.Lookup(cmd).Some? && estimate <= |P.Reversed(current)|
      requires state != P.BODY ==> estimate == 0
      modifies this, tree
      ensures Sharing() && View() == P.Consume(old(View()), tok)
      ensures tree == old(tree) || fresh(tree)
      ensures old(handed) <= handed
    {
      hide P.ConsumeCommand, P.ConsumeBody, P.ConsumeEnd, Frozen, StoredTrees;
      match state {
        case BODY => ConsumeBody(tok);
        case BAR => ConsumeBar(tok);
        case SKIP_TO_BAR_OR_END => SkipToBar(tok);
        case END => ConsumeTooMany();
      }
    }

    method ConsumeImei()
      requires Sharing() && state == P.IMEI && tree !in handed
      modifies this`state
      ensures Sharing() && View() == old(View()).(state := P.HASH_FIRST)
    {
      state := P.HASH_FIRST;
    }

    // What follows a block with too many fields is passed over up to the next bar.
    method SkipToBar(tok: string)
      requires Sharing() && state == P.SKIP_TO_BAR_OR_END && estimate == 0
      modifies this`state
      ensures Sharing() && View() == if tok == "|" then old(View()).(state := P.BODY) else old(View())
    {
      if tok == "|" {
        state := P.BODY;
      }
    }

    // A token behind the last field.
    method ConsumeTooMany()
      requires Sharing() && state == P.END && estimate == 0
      modifies this`state, this`error
      ensures Sharing() && View() == old(View()).(state := P.SKIP_TO_END, error := true)
    {
      state, error := P.SKIP_TO_END, true;
    }

    /** One message: all its tokens, then the end. Trees passed on before stay where they are, and
        unless it is a blackbox command, a message asks for just what it means. */
    method ParseMessage(msg: string)
      requires Valid()
      modifies this, tree, answerBuffer
      ensures Valid() && View() == P.Consume(P.Feed(old(View()), Tokens(msg)), P.END_TOKEN)
      ensures old(handed) <= handed && state == P.INITIAL
      ensures old(state) == P.INITIAL && R.NoEnd(Tokens(msg)) && !R.IsBlackbox(old(authenticated), Tokens(msg)) ==>
                && authenticated == old(authenticated)
                && events == old(events) + R.Meaning(old(authenticated), Tokens(msg))
    {
      hide R.Meaning, R.IsBlackbox, R.NoEnd, Tokens, P.TableInv, P.AuthInv;
      if state == P.INITIAL && R.NoEnd(Tokens(msg)) && !R.IsBlackbox(authenticated, Tokens(msg)) {
        R.MachineRefinesMeaning(View(), Tokens(msg));
      }
      ghost var p := View();
      var ts := Tokens(msg);
      var i := 0;
      assert P.Feed(p, ts[..0]) == p;
      while i < |ts|
        invariant 0 <= i <= |ts| && Valid()
        invariant View() == P.Feed(p, ts[..i])
        invariant (tree == old(tree) || fresh(tree)) && old(handed) <= handed
      {
        ConsumeToken(ts[i]);
        P.FeedOneMore(p, ts[..i], ts[i]);
        Sequences.Unsnoc(ts, i);
        i := i + 1;
      }
      assert ts[..i] == ts;
      ConsumeToken(P.END_TOKEN);
    }

    // An answer in the course of the session.
    method Respond(msg: string)
      requires Sharing()
      modifies this`events, answerBuffer
      ensures Sharing() && View() == P.Answer(old(View()), msg)
    {
      Answer(msg);
    }

    method HandleAuthenticate(ok: bool)
      requires Valid()
      modifies this, answerBuffer
      ensures Valid() && View() == P.HandleAuthenticate(old(View()), ok)
    {
      hide P.TableInv, P.AuthInv;
      P.ActKeepsInv(View(), P.Authenticated(ok));
      state := P.INITIAL;
      if ok {
        authenticated := true;
        Respond("1");
      } else {
        Respond("01");
      }
    }

    method HandleProcessData(ok: bool)
      requires Valid()
      modifies this, answerBuffer
      ensures Valid() && View() == P.HandleProcessData(old(View()), ok)
    {
      hide P.TableInv, P.AuthInv;
      P.ActKeepsInv(View(), P.Processed(ok));
      ReportResult(ok);
    }

    method ReportResult(ok: bool)
      requires Sharing()
      modifies this`count, this`events, answerBuffer
      ensures Sharing() && View() == P.HandleProcessData(old(View()), ok)
    {
      if current == P.Blackbox {
        count := (count + 1) % P.SIZE_RANGE;
      } else if ok {
        Respond("1");
      } else if current == P.Data || current == P.ShortData {
        Respond("-1");
      } else {
        Respond("0");
      }
    }
  }

  ghost predicate Frozen(trees: seq<DataTree>, values: seq<P.Fields>)
    reads trees
  {
    |trees| == |values| && forall i :: 0 <= i < |trees| ==> trees[i].fields == values[i]
  }

  lemma StoreEvent(events: seq<P.Event>, t: P.Fields)
    ensures StoredTrees(events + [P.Store(t)]) == StoredTrees(events) + [t]
  {
    assert (events + [P.Store(t)])[..|events|] == events;
  }

  lemma OtherEvent(events: seq<P.Event>, e: P.Event)
    requires !e.Store?
    ensures StoredTrees(events + [e]) == StoredTrees(events)
  {
    assert (events + [e])[..|events|] == events;
  }
}
