/** What a Wialon message means, said without the state machine: a message is split once and its
    parts are looked up by position. The machine does the same, on every sequence of tokens. */
module WialonReference {
  import opened Wrappers
  import opened WialonParser
  import opened WialonTokens

  function Max(a: nat, b: nat): nat {
    if a < b then b else a
  }

  function Min(a: nat, b: nat): nat {
    if a < b then a else b
  }

  function Zip(names: seq<string>, values: seq<string>): (t: WialonParser.Fields)
    requires |values| <= |names|
    ensures |t| == |values|
  {
    seq(|values|, i requires 0 <= i < |values| => (names[i], values[i]))
  }

  /** The tree of the body tokens `values`: as many as there are names, in protocol order. */
  function Tree(c: Command, values: seq<string>): WialonParser.Fields {
    Zip(Protocol(c), values[..Min(|values|, |Protocol(c)|)])
  }

  predicate NoEnd(ts: seq<string>) {
    END_TOKEN !in ts
  }

  // One body -------------------------------------------------------------------------------------

  /** A parser at the start of the body of a command. */
  predicate AtBody(p: Parser) {
    && p.state == BODY && p.tree == [] && !p.error
    && p.estimate == |Protocol(p.current)|
    && Lookup(p.cmd) == Some((|Protocol(p.current)|, p.current))
  }

  // How many body tokens end the body: one even if the command has no fields.
  function Full(c: Command): nat {
    Max(1, |Protocol(c)|)
  }

  function AfterBody(p: Parser, body: seq<string>): Parser {
    var n := |Protocol(p.current)|;
    p.(tree := Tree(p.current, body), estimate := n - Min(|body|, n),
       state := if |body| < Full(p.current) then BODY else if |body| == Full(p.current) then END else SKIP_TO_END,
       error := |body| > Full(p.current))
  }

  lemma TreeGrows(c: Command, values: seq<string>, value: string)
    requires |values| < |Protocol(c)|
    ensures Named(Tree(c, values), c, |values|)
    ensures Put(Tree(c, values), Protocol(c)[|values|], value) == Tree(c, values + [value])
  {
    assert values[..|values|] == values;
    PutNext(Tree(c, values), c, |values|, value);
    assert (values + [value])[..|values| + 1] == values + [value];
  }

  lemma TreeStops(c: Command, values: seq<string>, value: string)
    requires |values| >= |Protocol(c)|
    ensures Tree(c, values + [value]) == Tree(c, values)
  {
    assert (values + [value])[..|Protocol(c)|] == values[..|Protocol(c)|];
  }

  lemma FieldToken(p: Parser, tok: string, e: nat)
    requires p.state == BODY && tok != END_TOKEN && p.estimate == e && 1 <= e <= |Protocol(p.current)|
    requires !(p.current == Blackbox && tok == "|")
    ensures Consume(p, tok)
            == p.(estimate := e - 1, tree := Put(p.tree, Protocol(p.current)[|Protocol(p.current)| - e], tok),
                  state := if e > 1 then BODY else if p.current != Blackbox then END else BAR)
  {
    TableSizes(p.current);
    CountdownWalksProtocol(p.current, e);
  }

  /** A body token more. */
  lemma BodyStep(p: Parser, front: seq<string>, tok: string)
    requires AtBody(p) && p.current != Blackbox && tok != END_TOKEN
    ensures Consume(AfterBody(p, front), tok) == AfterBody(p, front + [tok])
  {
    var k, n := |front|, |Protocol(p.current)|;
    if k < n {
      hide Consume, Put, Tree, Lookup;
      TreeGrows(p.current, front, tok);
      FieldToken(AfterBody(p, front), tok, n - k);
    } else {
      NoFieldStep(p, front, tok);
    }
  }

  lemma NoFieldStep(p: Parser, front: seq<string>, tok: string)
    requires AtBody(p) && p.current != Blackbox && tok != END_TOKEN && |front| >= |Protocol(p.current)|
    ensures Consume(AfterBody(p, front), tok) == AfterBody(p, front + [tok])
  {
    hide Put, Lookup, Tree;
    TreeStops(p.current, front, tok);
    assert AfterBody(p, front).estimate == 0;
  }

  lemma {:induction false} BodyByBody(p: Parser, body: seq<string>)
    requires AtBody(p) && p.current != Blackbox && NoEnd(body)
    ensures Feed(p, body) == AfterBody(p, body)
    decreases |body|
  {
    if body == [] {
      assert Tree(p.current, body) == [];
    } else {
      var front, tok := body[..|body| - 1], body[|body| - 1];
      assert body == front + [tok];
      BodyByBody(p, front);
      BodyStep(p, front, tok);
    }
  }

  // A whole message ------------------------------------------------------------------------------

  /** `[x, "#", cmd, "#"] + body` with a known command that the session may use. */
  predicate Addressed(authenticated: bool, ts: seq<string>) {
    && |ts| >= 4 && ts[1] == "#" && ts[3] == "#"
    && Lookup(ts[2]).Some? && (authenticated || Lookup(ts[2]).value.1 == Login)
  }

  predicate IsBlackbox(authenticated: bool, ts: seq<string>) {
    Addressed(authenticated, ts) && Lookup(ts[2]).value.1 == Blackbox
  }

  predicate Commits(authenticated: bool, ts: seq<string>) {
    && Addressed(authenticated, ts)
    && (Lookup(ts[2]).value.1 == Blackbox || |ts| - 4 <= Full(Lookup(ts[2]).value.1))
  }

  /** The text says `msg` in answer to `cmd`: without its line end it is cut like any other message. */
  predicate SaysTo(text: string, cmd: string, msg: string) {
    && |text| >= 2 && text[|text| - 2..] == "\r\n"
    && Tokens(text[..|text| - 2]) == ["", "#", "A" + cmd, "#", msg]
  }

  /** The tracker reads in every answer that fits what was answered to which command. */
  lemma AnswerIsRead(p: Parser, msg: string)
    requires Plain(p.cmd) && Plain(msg)
    ensures var q := Answer(p, msg);
            && |q.events| == |p.events| + 1
            && if 5 + |p.cmd| + |msg| <= 32
               then q.events[|p.events|].Reply? && SaysTo(q.events[|p.events|].text, p.cmd, msg)
               else q.events[|p.events|] == Overlong(5 + |p.cmd| + |msg|)
  {
    var text := ReplyText(p.cmd, msg);
    assert text[..|text| - 2] == "#" + ("A" + p.cmd) + "#" + msg && text[|text| - 2..] == "\r\n";
    assert Plain("A" + p.cmd);
    PiecesOfLast(msg);
    TokensOfMessage("A" + p.cmd, msg, [msg]);
  }

  function AnswerEvent(cmd: string, msg: string): Event {
    Reply(ReplyText(cmd, msg))
  }

  /** What a message makes the parser ask for, commands with blocks aside. */
  function Meaning(authenticated: bool, ts: seq<string>): seq<Event> {
    if !Commits(authenticated, ts) then []
    else
      var c, body := Lookup(ts[2]).value.1, ts[4..];
      match c
      case Login => if |body| == 2 then [Authenticate(body[0], body[1])] else [AnswerEvent(ts[2], "0")]
      case Ping => [AnswerEvent(ts[2], "")]
      case Image => [AwaitImage(Tree(c, body))]
      case _ => [Store(Tree(c, body))]
  }

  predicate AtBodyOf(q: Parser, p: Parser, ts: seq<string>)
    requires |ts| >= 4
  {
    && AtBody(q) && Lookup(ts[2]).Some? && q.current == Lookup(ts[2]).value.1 && q.cmd == ts[2]
    && q.events == p.events && q.authenticated == p.authenticated && q.count == 0
  }

  lemma FeedFour(p: Parser, ts: seq<string>)
    requires |ts| >= 4
    ensures Feed(p, ts)
            == Feed(Consume(Consume(Consume(Consume(p, ts[0]), ts[1]), ts[2]), ts[3]), ts[4..])
  {
    assert ts == ts[..4] + ts[4..];
    FeedConcat(p, ts[..4], ts[4..]);
    assert ts[..4][..3][..2][..1] == [ts[0]];
    assert Feed(p, [ts[0]]) == Consume(Feed(p, []), ts[0]);
    assert Feed(p, ts[..4][..3][..2]) == Consume(Consume(p, ts[0]), ts[1]);
  }

  lemma {:induction false} SkipsToEnd(p: Parser, ts: seq<string>)
    requires p.state == SKIP_TO_END && NoEnd(ts)
    ensures Feed(p, ts) == p
  {
    if ts != [] {
      SkipsToEnd(p, ts[..|ts| - 1]);
    }
  }

  lemma FirstTwo(p: Parser, a: string, b: string)
    requires p.state == INITIAL && a != END_TOKEN && b != END_TOKEN
    ensures var q := Consume(Consume(p, a), b);
            && q.events == p.events && q.authenticated == p.authenticated
            && q.state == (if b == "#" then COMMAND else SKIP_TO_END)
            && (b == "#" ==> q.tree == [] && !q.error && q.count == 0)
  {
  }

  lemma LastTwo(q: Parser, cmd: string, b: string)
    requires q.state == COMMAND && q.tree == [] && !q.error && q.count == 0 && cmd != END_TOKEN && b != END_TOKEN
    ensures var r := Consume(Consume(q, cmd), b);
            && r.events == q.events && r.authenticated == q.authenticated
            && if Lookup(cmd).Some? && (q.authenticated || Lookup(cmd).value.1 == Login) && b == "#"
               then AtBody(r) && r.current == Lookup(cmd).value.1 && r.cmd == cmd && r.count == 0
               else r.state == SKIP_TO_END
  {
    if Lookup(cmd).Some? {
      TablesAgree(cmd);
      TableSizes(Lookup(cmd).value.1);
    }
  }

  /** The first four tokens lead to the body of the command, or the rest of the message is skipped. */
  lemma HeaderByHeader(p: Parser, ts: seq<string>)
    requires p.state == INITIAL && |ts| >= 4 && NoEnd(ts)
    ensures var q := Consume(Consume(Consume(Consume(p, ts[0]), ts[1]), ts[2]), ts[3]);
            if Addressed(p.authenticated, ts) then AtBodyOf(q, p, ts)
            else q.state == SKIP_TO_END && q.events == p.events && q.authenticated == p.authenticated
  {
    assert forall i :: 0 <= i < |ts| ==> ts[i] != END_TOKEN;
    var q := Consume(Consume(p, ts[0]), ts[1]);
    FirstTwo(p, ts[0], ts[1]);
    if ts[1] == "#" {
      LastTwo(q, ts[2], ts[3]);
    } else {
      assert Consume(q, ts[2]) == q && Consume(q, ts[3]) == q;
    }
  }

  lemma {:induction false} EarlyTokens(p: Parser, ts: seq<string>)
    requires p.state == INITIAL && |ts| < 4 && NoEnd(ts)
    ensures var q := Feed(p, ts);
            && q.events == p.events && q.authenticated == p.authenticated
            && (q.state == (if |ts| == 0 then INITIAL else if |ts| == 1 then HASH_FIRST
                            else if |ts| == 2 then COMMAND else HASH_SECOND)
                || (|ts| >= 2 && q.state == SKIP_TO_END))
    decreases |ts|
  {
    if ts != [] {
      EarlyTokens(p, ts[..|ts| - 1]);
      assert ts[|ts| - 1] in ts;
    }
  }

  lemma ShortMessage(p: Parser, ts: seq<string>)
    requires p.state == INITIAL && |ts| < 4 && NoEnd(ts)
    ensures var q := ConsumeEnd(Feed(p, ts));
            q.state == INITIAL && q.events == p.events && q.authenticated == p.authenticated
  {
    EarlyTokens(p, ts);
  }

  lemma EndOfBody(q: Parser, body: seq<string>)
    requires AtBody(q) && q.current != Blackbox && q.count < SIZE_RANGE
    ensures var r := ConsumeEnd(AfterBody(q, body));
            var ts := ["", "#", q.cmd, "#"] + body;
            && r.state == INITIAL && r.authenticated == q.authenticated
            && (q.authenticated || q.current == Login ==> r.events == q.events + Meaning(q.authenticated, ts))
  {
    hide Lookup;
    var t := AfterBody(q, body);
    TableSizes(q.current);
    TablesAgree(q.cmd);
    var ts := ["", "#", q.cmd, "#"] + body;
    assert ts[4..] == body;
    if q.current == Login && |body| == 2 {
      assert body[..2] == body;
      assert Named(t.tree, Login, 2);
      GetNamed(t.tree, Login, 0);
      GetNamed(t.tree, Login, 1);
    }
    if |body| <= Full(q.current) {
      CommitFits(t);
    }
  }

  /** The machine does exactly what the message means, whatever its tokens; the outcome depends on
      nothing but the message and the authentication, and the machine is ready for the next one. */
  lemma MachineRefinesMeaning(p: Parser, ts: seq<string>)
    requires p.state == INITIAL && NoEnd(ts)
    requires !IsBlackbox(p.authenticated, ts)
    ensures var q := ConsumeEnd(Feed(p, ts));
            q.state == INITIAL && q.authenticated == p.authenticated
            && q.events == p.events + Meaning(p.authenticated, ts)
  {
    hide Feed, AfterBody, Lookup;
    if |ts| < 4 {
      ShortMessage(p, ts);
    } else {
      FeedFour(p, ts);
      HeaderByHeader(p, ts);
      var q := Consume(Consume(Consume(Consume(p, ts[0]), ts[1]), ts[2]), ts[3]);
      assert NoEnd(ts[4..]);
      if Addressed(p.authenticated, ts) {
        BodyByBody(q, ts[4..]);
        EndOfBody(q, ts[4..]);
        SameMeaning(p.authenticated, ts);
      } else {
        SkipsToEnd(q, ts[4..]);
      }
    }
  }

  /** The end token commits a command exactly if the tokens are some token, `#`, a known and permitted
      command, `#`, and no more body tokens than the command takes. */
  lemma CommitsIff(p: Parser, ts: seq<string>)
    requires p.state == INITIAL && NoEnd(ts)
    requires !IsBlackbox(p.authenticated, ts)
    ensures ConsumeEnd(Feed(p, ts)).events != p.events <==> Commits(p.authenticated, ts)
    ensures |ConsumeEnd(Feed(p, ts)).events| == |p.events| + if Commits(p.authenticated, ts) then 1 else 0
  {
    MachineRefinesMeaning(p, ts);
  }

  // The first token of a message plays no role.
  lemma SameMeaning(authenticated: bool, ts: seq<string>)
    requires Addressed(authenticated, ts)
    ensures Meaning(authenticated, ["", "#", ts[2], "#"] + ts[4..]) == Meaning(authenticated, ts)
  {
    var us := ["", "#", ts[2], "#"] + ts[4..];
    assert us[4..] == ts[4..];
  }

  // Printing a message ---------------------------------------------------------------------------

  predicate Printable(values: seq<string>) {
    AllPlain(values) && NoEnd(values)
  }

  lemma CommandNamesArePlain(name: string)
    requires Lookup(name).Some?
    ensures Plain(name) && name != END_TOKEN
  {
  }

  function Header(name: string): seq<string> {
    ["", "#", name, "#"]
  }

  lemma TokensOfCommand(name: string, values: seq<string>)
    requires Lookup(name).Some? && values != [] && Printable(values)
    ensures Tokens("#" + name + "#" + WialonTokens.Fields(values)) == Header(name) + values
    ensures NoEnd(Header(name) + values) && (Header(name) + values)[4..] == values
  {
    CommandNamesArePlain(name);
    PiecesOfFields(values, false, "");
    assert WialonTokens.Fields(values) + "" == WialonTokens.Fields(values);
    TokensOfMessage(name, WialonTokens.Fields(values), values);
  }

  /** Rendering a command with all its fields and parsing the text gives the fields back, each under
      its protocol name, without a parser error: login asks for authentication with the two values,
      the data commands store the tree. A ping carries one empty token. */
  lemma ParserInvertsPrinter(p: Parser, name: string, values: seq<string>)
    requires p.state == INITIAL && Lookup(name).Some?
    requires var c := Lookup(name).value.1; c != Blackbox && (p.authenticated || c == Login)
    requires |values| == Full(Lookup(name).value.1) && Printable(values)
    ensures var c := Lookup(name).value.1;
            var before := Feed(p, Tokens("#" + name + "#" + WialonTokens.Fields(values)));
            var fields := Zip(Protocol(c), values[..|Protocol(c)|]);
            && before.state == END && !before.error && before.tree == fields
            && ConsumeEnd(before).events == p.events + match c
                                                       case Login => [Authenticate(values[0], values[1])]
                                                       case Ping => [AnswerEvent(name, "")]
                                                       case Image => [AwaitImage(fields)]
                                                       case _ => [Store(fields)]
  {
    var ts := Header(name) + values;
    TokensOfCommand(name, values);
    MachineRefinesMeaning(p, ts);
    CompleteBody(p, ts);
    MeaningOfPrinted(p.authenticated, name, values);
  }

  lemma CompleteBody(p: Parser, ts: seq<string>)
    requires p.state == INITIAL && NoEnd(ts) && Addressed(p.authenticated, ts)
    requires var c := Lookup(ts[2]).value.1; c != Blackbox && |ts| - 4 == Full(c)
    ensures var c, values, q := Lookup(ts[2]).value.1, ts[4..], Feed(p, ts);
            && q.state == END && !q.error && |Protocol(c)| <= |values|
            && q.cmd == ts[2] && q.current == c && q.authenticated == p.authenticated
            && q.tree == Zip(Protocol(c), values[..|Protocol(c)|])
  {
    FeedFour(p, ts);
    HeaderByHeader(p, ts);
    BodyByBody(Consume(Consume(Consume(Consume(p, ts[0]), ts[1]), ts[2]), ts[3]), ts[4..]);
  }

  lemma MeaningOfPrinted(authenticated: bool, name: string, values: seq<string>)
    requires Lookup(name).Some? && |values| == Full(Lookup(name).value.1)
    requires var c := Lookup(name).value.1; c != Blackbox && (authenticated || c == Login)
    ensures var c := Lookup(name).value.1;
            Meaning(authenticated, Header(name) + values)
            == match c
               case Login => [Authenticate(values[0], values[1])]
               case Ping => [AnswerEvent(name, "")]
               case Image => [AwaitImage(Tree(c, values))]
               case _ => [Store(Tree(c, values))]
  {
    var c := Lookup(name).value.1;
    TableSizes(c);
    assert (Header(name) + values)[4..] == values;
  }
}
