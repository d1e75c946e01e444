/** The Wialon IPS parser as a function of its state and the next token, branch by branch, and what
    holds in every session, whatever messages and results arrive in whatever order. */
module WialonParser {
  import opened Wrappers
  import Decimal
  import Sequences

  const END_TOKEN := "\r\n"
  const BUFFER_SIZE := 32
  const SIZE_RANGE := 0x1_0000_0000_0000_0000

  datatype StateTag =
    | INITIAL | IMEI | COMMAND | BODY | HASH_FIRST | HASH_SECOND | BAR | END
    | SKIP_TO_BAR_OR_END | SKIP_TO_END | BINARY_DATA

  datatype Command = Login | Data | Ping | ShortData | Blackbox | Message | Image

  // The tables -----------------------------------------------------------------------------------

  /** `estimates_`: the command a name stands for and how many fields its body has. */
  function Lookup(name: string): Option<(nat, Command)> {
    if name == "L" then Some((2, Login))
    else if name == "D" then Some((16, Data))
    else if name == "P" then Some((0, Ping))
    else if name == "SD" then Some((10, ShortData))
    else if name == "B" then Some((16, Blackbox))
    else if name == "M" then Some((1, Message))
    else if name == "I" then Some((6, Image))
    else None
  }

  const DATA_REVERSED: seq<string> :=
    ["params", "ibutton", "adc", "outputs", "inputs",
     "hdop", "sats", "height", "course", "speed",
     "lon2", "lon1", "lat2", "lat1", "time", "date"]

  const SHORT_REVERSED: seq<string> :=
    ["sats", "height", "course", "speed",
     "lon2", "lon1", "lat2", "lat1", "time", "date"]

  /** `fields_`: the field names of a command, last one first. */
  function Reversed(c: Command): seq<string> {
    match c
    case Login => ["password", "imei"]
    case Data => DATA_REVERSED
    case Ping => []
    case ShortData => SHORT_REVERSED
    case Blackbox => DATA_REVERSED
    case Message => ["message"]
    case Image => ["name", "time", "date", "count", "ind", "sz"]
  }

  const DATA_FIELDS: seq<string> :=
    ["date", "time", "lat1", "lat2", "lon1", "lon2",
     "speed", "course", "height", "sats", "hdop",
     "inputs", "outputs", "adc", "ibutton", "params"]

  const SHORT_FIELDS: seq<string> :=
    ["date", "time", "lat1", "lat2", "lon1", "lon2",
     "speed", "course", "height", "sats"]

  /** The field names in the order of the protocol. */
  function Protocol(c: Command): seq<string> {
    match c
    case Login => ["imei", "password"]
    case Data => DATA_FIELDS
    case Ping => []
    case ShortData => SHORT_FIELDS
    case Blackbox => DATA_FIELDS
    case Message => ["message"]
    case Image => ["sz", "ind", "count", "date", "time", "name"]
  }

  lemma DataMirrored(i: nat)
    requires i < 16
    ensures |DATA_REVERSED| == |DATA_FIELDS| == 16 && DATA_REVERSED[i] == DATA_FIELDS[15 - i]
  {
  }

  lemma ShortMirrored(i: nat)
    requires i < 10
    ensures |SHORT_REVERSED| == |SHORT_FIELDS| == 10 && SHORT_REVERSED[i] == SHORT_FIELDS[9 - i]
  {
  }

  lemma SmallMirrored(c: Command, e: nat)
    requires c in {Login, Ping, Message, Image} && 1 <= e <= |Reversed(c)|
    ensures |Reversed(c)| == |Protocol(c)| && Reversed(c)[e - 1] == Protocol(c)[|Protocol(c)| - e]
  {
  }

  /** Counting down through the reversed table walks the protocol's fields in order. */
  lemma CountdownWalksProtocol(c: Command, e: nat)
    requires 1 <= e <= |Reversed(c)|
    ensures |Reversed(c)| == |Protocol(c)| && Reversed(c)[e - 1] == Protocol(c)[|Protocol(c)| - e]
  {
    if c == Data || c == Blackbox {
      DataMirrored(e - 1);
    } else if c == ShortData {
      ShortMirrored(e - 1);
    } else {
      SmallMirrored(c, e);
    }
  }

  lemma TableSizes(c: Command)
    ensures |Reversed(c)| == |Protocol(c)|
    ensures |Protocol(c)| == match c
                             case Login => 2
                             case Ping => 0
                             case ShortData => 10
                             case Message => 1
                             case Image => 6
                             case _ => 16
  {
  }

  lemma TablesAgree(name: string)
    ensures Lookup(name).Some? ==>
              Lookup(name).value.0 == |Reversed(Lookup(name).value.1)| && |name| <= 2
  {
  }

  lemma FieldNamesDiffer(c: Command, i: nat, j: nat)
    requires i < j < |Protocol(c)|
    ensures Protocol(c)[i] != Protocol(c)[j]
  {
  }

  // The tree of a message ------------------------------------------------------------------------

  type Fields = seq<(string, string)>

  function IndexOf(t: Fields, name: string): (k: nat)
    ensures k <= |t| && (k < |t| ==> t[k].0 == name)
    ensures forall i :: 0 <= i < k ==> t[i].0 != name
  {
    if t == [] || t[0].0 == name then 0 else 1 + IndexOf(t[1..], name)
  }

  /** `put`: give the first child of that name the value, or add such a child behind the others. */
  function Put(t: Fields, name: string, value: string): Fields {
    var k := IndexOf(t, name);
    if k < |t| then t[k := (name, value)] else t + [(name, value)]
  }

  function Get(t: Fields, name: string): Option<string> {
    var k := IndexOf(t, name);
    if k < |t| then Some(t[k].1) else None
  }

  // The parser -----------------------------------------------------------------------------------

  // What the parser asks of its surroundings: `process_data`, `authenticate`, `do_write`, the wait
  // for binary data. `Overlong` is an answer that does not fit the answer buffer, `BadPath` the
  // exception of a lookup in the tree.
  datatype Event =
    | Store(tree: Fields)
    | Authenticate(imei: string, password: string)
    | Reply(text: string)
    | AwaitImage(tree: Fields)
    | Overlong(size: nat)
    | BadPath

  datatype Parser = Parser(
    state: StateTag,
    estimate: nat,
    tree: Fields,
    cmd: string,
    current: Command,
    authenticated: bool,
    error: bool,
    count: nat,                // multicommand_
    events: seq<Event>)

  predicate Fresh(p: Parser) {
    p.state == INITIAL && !p.authenticated && p.events == []
  }

  function Emit(p: Parser, e: Event): Parser {
    p.(events := p.events + [e])
  }

  function ReplyText(cmd: string, msg: string): string {
    "#A" + cmd + "#" + msg + "\r\n"
  }

  function Answer(p: Parser, msg: string): Parser {
    var text := ReplyText(p.cmd, msg);
    Emit(p, if |text| <= BUFFER_SIZE then Reply(text) else Overlong(|text|))
  }

  function StoreData(p: Parser): Parser {
    Emit(p, Store(p.tree))
  }

  function Commit(p: Parser): Parser {
    match p.current
    case Login =>
      if p.error then Answer(p, "0")
      else
        var imei, password := Get(p.tree, "imei"), Get(p.tree, "password");
        Emit(p, if imei.Some? && password.Some? then Authenticate(imei.value, password.value) else BadPath)
    case ShortData => StoreData(p)
    case Data => StoreData(p)
    case Ping => Answer(p, "")
    case Message => StoreData(p)
    case Blackbox => Answer(p, Decimal.Print(p.count))
    case Image => Emit(p.(state := BINARY_DATA), AwaitImage(p.tree))
  }

  /** `consume_token` with the end of the message. */
  function ConsumeEnd(p: Parser): Parser {
    var q :=
      match p.state
      case BODY =>
        if p.current != Blackbox then Commit(p.(error := true)) else Commit(StoreData(p))
      case BAR => Commit(StoreData(p))
      case SKIP_TO_BAR_OR_END => Commit(p)
      case COMMAND => p.(error := true)
      case HASH_FIRST => p.(error := true)
      case HASH_SECOND => p.(error := true)
      case END => Commit(p)
      case _ => p;
    q.(state := INITIAL)
  }

  function ConsumeCommand(p: Parser, tok: string): Parser {
    match Lookup(tok)
    case None => p.(cmd := tok, state := SKIP_TO_END, error := true)
    case Some((n, c)) =>
      p.(cmd := tok, estimate := n, current := c,
         state := if !p.authenticated && c != Login then SKIP_TO_END else HASH_SECOND)
  }

  function ConsumeBody(p: Parser, tok: string): Parser {
    if p.current == Blackbox && tok == "|" then
      var q := StoreData(p);
      match Lookup(p.cmd)
      case Some((n, c)) => q.(estimate := n, current := c, tree := [])
      case None => Emit(q, BadPath)       // at() on a name that is not in the table
    else
      var q :=
        if 0 < p.estimate <= |Reversed(p.current)|
        then p.(estimate := p.estimate - 1, tree := Put(p.tree, Reversed(p.current)[p.estimate - 1], tok))
        else p;
      if q.estimate == 0 then q.(state := if p.current != Blackbox then END else BAR) else q
  }

  function Consume(p: Parser, tok: string): Parser {
    if tok == END_TOKEN then ConsumeEnd(p)
    else
      match p.state
      case INITIAL =>
        p.(tree := [], error := false, count := 0, cmd := "<not initialized>", state := HASH_FIRST)
      case IMEI => p.(state := HASH_FIRST)
      case COMMAND => ConsumeCommand(p, tok)
      case BODY => ConsumeBody(p, tok)
      case HASH_FIRST =>
        if tok == "#" then p.(state := COMMAND) else p.(state := SKIP_TO_END, error := true)
      case HASH_SECOND =>
        if tok == "#" then p.(state := BODY) else p.(state := SKIP_TO_END, error := true)
      case BAR =>
        StoreData(if tok == "|" then p.(state := BODY) else p.(state := SKIP_TO_BAR_OR_END, error := true))
      case SKIP_TO_BAR_OR_END => if tok == "|" then p.(state := BODY) else p
      case END => p.(state := SKIP_TO_END, error := true)
      case _ => p
  }

  function HandleAuthenticate(p: Parser, ok: bool): Parser {
    var q := p.(state := INITIAL);
    if ok then Answer(q.(authenticated := true), "1") else Answer(q, "01")
  }

  function HandleProcessData(p: Parser, ok: bool): Parser {
    if p.current == Blackbox then p.(count := (p.count + 1) % SIZE_RANGE)
    else if ok then Answer(p, "1")
    else if p.current == Data || p.current == ShortData then Answer(p, "-1")
    else Answer(p, "0")
  }

  /** Tokens fed one after the other. */
  function Feed(p: Parser, ts: seq<string>): Parser {
    if ts == [] then p else Consume(Feed(p, ts[..|ts| - 1]), ts[|ts| - 1])
  }

  lemma FeedOneMore(p: Parser, ts: seq<string>, tok: string)
    ensures Feed(p, ts + [tok]) == Consume(Feed(p, ts), tok)
  {
    assert (ts + [tok])[..|ts|] == ts;
  }

  lemma {:induction false} FeedConcat(p: Parser, a: seq<string>, b: seq<string>)
    ensures Feed(p, a + b) == Feed(Feed(p, a), b)
    decreases |b|
  {
    if b == [] {
      assert a + b == a;
    } else {
      var front, tok := b[..|b| - 1], b[|b| - 1];
      assert b == front + [tok];
      FeedConcat(p, a, front);
      FeedOneMore(Feed(p, a), front, tok);
      FeedOneMore(p, a + front, tok);
      Sequences.Assoc(a, front, [tok]);
    }
  }

  // Sessions -------------------------------------------------------------------------------------

  // Anything that can happen to a parser, in any order.
  datatype Action = Token(tok: string) | Authenticated(ok: bool) | Processed(ok: bool)

  function Act(p: Parser, a: Action): Parser {
    match a
    case Token(tok) => Consume(p, tok)
    case Authenticated(ok) => HandleAuthenticate(p, ok)
    case Processed(ok) => HandleProcessData(p, ok)
  }

  function Session(p: Parser, actions: seq<Action>): Parser
    decreases |actions|
  {
    if actions == [] then p else Session(Act(p, actions[0]), actions[1..])
  }

  predicate InCommand(s: StateTag) {
    s == HASH_SECOND || s == BODY || s == BAR || s == END || s == SKIP_TO_BAR_OR_END
  }

  predicate BeforeCommand(s: StateTag) {
    s == HASH_FIRST || s == COMMAND || s == HASH_SECOND
  }

  /** The fields read so far bear the protocol's first names, in order. */
  predicate Named(t: Fields, c: Command, k: nat) {
    k <= |Protocol(c)| && |t| == k && forall i :: 0 <= i < k ==> t[i].0 == Protocol(c)[i]
  }

  /** Once a command is recognised, its name is in the table, the countdown stays within its field
      names and the tree holds exactly the fields counted down; at the end it holds all of them. */
  predicate TableInv(p: Parser) {
    && p.state != IMEI && p.state != BINARY_DATA
    && (BeforeCommand(p.state) ==> p.tree == [] && !p.error)
    && (InCommand(p.state) ==>
          && Lookup(p.cmd) == Some((|Protocol(p.current)|, p.current))
          && p.estimate <= |Protocol(p.current)|
          && Named(p.tree, p.current, |Protocol(p.current)| - p.estimate))
    && (p.state == HASH_SECOND ==> p.estimate == |Protocol(p.current)|)
    && (p.state == BAR || p.state == SKIP_TO_BAR_OR_END ==> p.current == Blackbox && p.estimate == 0)
    && (p.state == END ==> p.current != Blackbox && p.estimate == 0 && !p.error)
    && (p.state == BODY && p.current != Blackbox ==> !p.error)
    && p.count < SIZE_RANGE
    && BadPath !in p.events
  }

  /** Without authentication only a login is ever parsed and nothing was passed on. */
  predicate AuthInv(p: Parser) {
    !p.authenticated ==>
      && (InCommand(p.state) ==> p.current == Login)
      && (forall e :: e in p.events ==> !e.Store?)
  }

  lemma PutNext(t: Fields, c: Command, k: nat, value: string)
    requires Named(t, c, k) && k < |Protocol(c)|
    ensures Put(t, Protocol(c)[k], value) == t + [(Protocol(c)[k], value)]
    ensures Named(Put(t, Protocol(c)[k], value), c, k + 1)
  {
    forall i | 0 <= i < k
      ensures t[i].0 != Protocol(c)[k]
    {
      FieldNamesDiffer(c, i, k);
    }
  }

  lemma GetNamed(t: Fields, c: Command, k: nat)
    requires Named(t, c, |Protocol(c)|) && k < |Protocol(c)|
    ensures Get(t, Protocol(c)[k]) == Some(t[k].1)
  {
    var i := IndexOf(t, Protocol(c)[k]);
    assert t[k].0 == Protocol(c)[k];
    if i < k {
      FieldNamesDiffer(c, i, k);
    }
  }

  lemma CounterDigits(n: nat)
    requires n < SIZE_RANGE
    ensures |Decimal.Print(n)| <= 20
  {
    assert Decimal.Pow10(5) == 100000;
    assert Decimal.Pow10(10) == 10000000000;
    assert Decimal.Pow10(15) == 1000000000000000;
    Decimal.DigitCount(n, 20);
  }

  /** Every answer of a commit fits the 32 bytes of the answer buffer. */
  lemma CommitFits(p: Parser)
    requires Lookup(p.cmd).Some? && p.count < SIZE_RANGE
    ensures |Commit(p).events| == |p.events| + 1
    ensures !Commit(p).events[|p.events|].Overlong?
  {
    TablesAgree(p.cmd);
    CounterDigits(p.count);
  }

  // Answers that do not fit ------------------------------------------------------------------------

  // Between the two states an answer was made that is too long.
  predicate NewOverlong(p: Parser, q: Parser) {
    exists i :: |p.events| <= i < |q.events| && q.events[i].Overlong?
  }

  lemma EndAlwaysFits(p: Parser)
    requires TableInv(p)
    ensures !NewOverlong(p, ConsumeEnd(p))
  {
    hide Get, Decimal.Print;
    if InCommand(p.state) {
      match p.state {
        case BODY => CommitFits(if p.current != Blackbox then p.(error := true) else StoreData(p));
        case BAR => CommitFits(StoreData(p));
        case _ => CommitFits(p);
      }
    }
  }

  /** No token ever leads to an answer that does not fit. */
  lemma TokensAlwaysFit(p: Parser, tok: string)
    requires TableInv(p)
    ensures !NewOverlong(p, Consume(p, tok))
  {
    hide Lookup, Put, Protocol, Reversed, ConsumeEnd;
    if tok == END_TOKEN {
      EndAlwaysFits(p);
    }
  }

  /** What a result from outside answers, if anything. */
  function ResultAnswer(p: Parser, a: Action): Option<string> {
    match a
    case Token(_) => None
    case Authenticated(ok) => Some(if ok then "1" else "01")
    case Processed(ok) =>
      if p.current == Blackbox then None
      else Some(if ok then "1" else if p.current == Data || p.current == ShortData then "-1" else "0")
  }

  /** The answer to a result is longer than the 32 bytes of the buffer. */
  predicate Overruns(p: Parser, a: Action) {
    ResultAnswer(p, a).Some? && 5 + |p.cmd| + |ResultAnswer(p, a).value| > 32
  }

  /** The answer to a result fits exactly if the command in hand when it arrives, which need not be the
      one it belongs to, leaves room for it. */
  lemma ResultFitsIff(p: Parser, a: Action)
    requires !a.Token?
    ensures NewOverlong(p, Act(p, a))
            <==> Overruns(p, a)
  {
    var q := Act(p, a);
    if ResultAnswer(p, a).Some? {
      assert |q.events| == |p.events| + 1;
      assert q.events[|p.events|].Overlong? <==> 5 + |p.cmd| + |ResultAnswer(p, a).value| > BUFFER_SIZE;
    }
  }

  lemma CommitKeeps(p: Parser)
    requires BadPath !in p.events
    requires p.current == Login && !p.error ==> Named(p.tree, Login, 2)
    ensures BadPath !in Commit(p).events
    ensures p.current == Login ==> forall e :: e in Commit(p).events ==> e in p.events || !e.Store?
  {
    if p.current == Login && !p.error {
      GetNamed(p.tree, Login, 0);
      GetNamed(p.tree, Login, 1);
    }
  }

  lemma FieldKeepsInv(p: Parser, tok: string)
    requires TableInv(p) && p.state == BODY && p.estimate > 0
    requires !(p.current == Blackbox && tok == "|")
    ensures TableInv(ConsumeBody(p, tok))
  {
    hide Put, Reversed, Protocol, Lookup;
    TableSizes(p.current);
    CountdownWalksProtocol(p.current, p.estimate);
    PutNext(p.tree, p.current, |Protocol(p.current)| - p.estimate, tok);
  }

  lemma EndKeepsInv(p: Parser)
    requires TableInv(p) && AuthInv(p)
    ensures TableInv(ConsumeEnd(p)) && AuthInv(ConsumeEnd(p))
  {
    match p.state {
      case BODY =>
        if p.current != Blackbox {
          CommitKeeps(p.(error := true));
        } else {
          CommitKeeps(StoreData(p));
        }
      case BAR => CommitKeeps(StoreData(p));
      case SKIP_TO_BAR_OR_END => CommitKeeps(p);
      case END => CommitKeeps(p);
      case _ =>
    }
  }

  lemma CommandKeepsInv(p: Parser, tok: string)
    requires TableInv(p) && AuthInv(p) && p.state == COMMAND
    ensures TableInv(ConsumeCommand(p, tok)) && AuthInv(ConsumeCommand(p, tok))
  {
    TablesAgree(tok);
    if Lookup(tok).Some? {
      TableSizes(Lookup(tok).value.1);
    }
  }

  lemma TokenKeepsTable(p: Parser, tok: string)
    requires TableInv(p) && tok != END_TOKEN && p.state != COMMAND
    ensures TableInv(Consume(p, tok))
  {
    if p.state == BODY && p.estimate > 0 && !(p.current == Blackbox && tok == "|") {
      FieldKeepsInv(p, tok);
    }
  }

  lemma TokenKeepsAuth(p: Parser, tok: string)
    requires AuthInv(p) && TableInv(p) && tok != END_TOKEN && p.state != COMMAND
    ensures AuthInv(Consume(p, tok))
  {
  }

  lemma AuthenticationKeepsInv(p: Parser, ok: bool)
    requires TableInv(p) && AuthInv(p)
    ensures TableInv(HandleAuthenticate(p, ok)) && AuthInv(HandleAuthenticate(p, ok))
  {
    hide Lookup;
  }

  lemma ResultKeepsInv(p: Parser, ok: bool)
    requires TableInv(p) && AuthInv(p)
    ensures TableInv(HandleProcessData(p, ok)) && AuthInv(HandleProcessData(p, ok))
  {
    hide Lookup, Protocol;
  }

  lemma ActKeepsInv(p: Parser, a: Action)
    requires TableInv(p) && AuthInv(p)
    ensures TableInv(Act(p, a)) && AuthInv(Act(p, a))
  {
    match a {
      case Token(tok) =>
        if tok == END_TOKEN {
          EndKeepsInv(p);
        } else if p.state == COMMAND {
          CommandKeepsInv(p, tok);
        } else {
          TokenKeepsTable(p, tok);
          TokenKeepsAuth(p, tok);
        }
      case Authenticated(ok) => AuthenticationKeepsInv(p, ok);
      case Processed(ok) => ResultKeepsInv(p, ok);
    }
  }

  /** In every session the lookups of the parser succeed and the tree mirrors the countdown. */
  lemma {:induction false} SessionKeepsInv(p: Parser, actions: seq<Action>)
    requires TableInv(p) && AuthInv(p)
    ensures TableInv(Session(p, actions)) && AuthInv(Session(p, actions))
    decreases |actions|
  {
    if actions != [] {
      ActKeepsInv(p, actions[0]);
      SessionKeepsInv(Act(p, actions[0]), actions[1..]);
    }
  }

  lemma ActAuthenticates(p: Parser, a: Action)
    ensures Act(p, a).authenticated <==> p.authenticated || a == Authenticated(true)
  {
    hide Lookup, Put, Get;
  }

  lemma {:induction false} AuthenticationIsForGood(p: Parser, actions: seq<Action>)
    ensures Session(p, actions).authenticated <==> p.authenticated || Authenticated(true) in actions
    decreases |actions|
  {
    if actions != [] {
      hide Act;
      var q := Act(p, actions[0]);
      ActAuthenticates(p, actions[0]);
      AuthenticationIsForGood(q, actions[1..]);
      assert Authenticated(true) in actions
          <==> actions[0] == Authenticated(true) || Authenticated(true) in actions[1..];
    }
  }

  /** Data is passed on only after a successful authentication. */
  lemma NoDataBeforeAuthentication(p: Parser, actions: seq<Action>)
    requires Fresh(p) && p.count < SIZE_RANGE && Authenticated(true) !in actions
    ensures forall e :: e in Session(p, actions).events ==> !e.Store?
  {
    SessionKeepsInv(p, actions);
    AuthenticationIsForGood(p, actions);
  }

  // Answers that do not fit, over a session -----------------------------------------------------------

  lemma CommitGrows(p: Parser)
    ensures p.events <= Commit(p).events
  {
    hide Get, Decimal.Print;
  }

  lemma EndGrows(p: Parser)
    ensures p.events <= ConsumeEnd(p).events
  {
    hide Commit;
    match p.state {
      case BODY => CommitGrows(if p.current != Blackbox then p.(error := true) else StoreData(p));
      case BAR => CommitGrows(StoreData(p));
      case _ => CommitGrows(p);
    }
  }

  lemma BodyGrows(p: Parser, tok: string)
    ensures p.events <= ConsumeBody(p, tok).events
  {
    hide Lookup, Put, Reversed;
  }

  lemma EventsGrow(p: Parser, a: Action)
    ensures p.events <= Act(p, a).events
  {
    hide Lookup, ConsumeEnd, ConsumeBody;
    match a {
      case Token(tok) =>
        EndGrows(p);
        BodyGrows(p, tok);
      case _ =>
    }
  }

  lemma {:induction false} SessionEventsGrow(p: Parser, actions: seq<Action>)
    ensures p.events <= Session(p, actions).events
    decreases |actions|
  {
    if actions != [] {
      EventsGrow(p, actions[0]);
      SessionEventsGrow(Act(p, actions[0]), actions[1..]);
    }
  }

  lemma ActFitsIff(p: Parser, a: Action)
    requires TableInv(p)
    ensures NewOverlong(p, Act(p, a)) <==> Overruns(p, a)
  {
    match a {
      case Token(tok) => TokensAlwaysFit(p, tok);
      case _ => ResultFitsIff(p, a);
    }
  }

  /** Some result arrives where its answer does not fit. */
  predicate SomeOverrun(p: Parser, actions: seq<Action>) {
    exists i :: 0 <= i < |actions| && OverrunsAt(p, actions, i)
  }

  predicate OverrunsAt(p: Parser, actions: seq<Action>, i: nat)
    requires i < |actions|
  {
    Overruns(Session(p, actions[..i]), actions[i])
  }

  lemma OverrunsLater(p: Parser, actions: seq<Action>, i: nat)
    requires 0 < i < |actions|
    ensures OverrunsAt(p, actions, i) <==> OverrunsAt(Act(p, actions[0]), actions[1..], i - 1)
  {
    hide Overruns, Act;
    assert actions[..i][1..] == actions[1..][..i - 1];
  }

  lemma FirstOverrun(p: Parser, actions: seq<Action>)
    requires actions != []
    ensures SomeOverrun(p, actions)
            <==> Overruns(p, actions[0]) || SomeOverrun(Act(p, actions[0]), actions[1..])
  {
    hide Overruns, Act;
    assert OverrunsAt(p, actions, 0) <==> Overruns(p, actions[0]) by {
      assert actions[..0] == [];
    }
    var q, rest := Act(p, actions[0]), actions[1..];
    if SomeOverrun(p, actions) && !Overruns(p, actions[0]) {
      var i :| 0 <= i < |actions| && OverrunsAt(p, actions, i);
      OverrunsLater(p, actions, i);
      assert OverrunsAt(q, rest, i - 1);
    }
    if SomeOverrun(q, rest) {
      var j :| 0 <= j < |rest| && OverrunsAt(q, rest, j);
      OverrunsLater(p, actions, j + 1);
      assert OverrunsAt(p, actions, j + 1);
    }
  }

  lemma OverlongSoFar(p: Parser, q: Parser, r: Parser)
    requires p.events <= q.events <= r.events
    ensures NewOverlong(p, r) <==> NewOverlong(p, q) || NewOverlong(q, r)
  {
    if NewOverlong(p, q) {
      var i :| |p.events| <= i < |q.events| && q.events[i].Overlong?;
      assert r.events[i].Overlong?;
    }
    if NewOverlong(p, r) && !NewOverlong(q, r) {
      var i :| |p.events| <= i < |r.events| && r.events[i].Overlong?;
      assert q.events[i] == r.events[i];
    }
  }

  /** A session makes an answer too long for the buffer exactly if in its course some result arrives at
      a command too long for it. */
  lemma {:induction false} SessionOverrunsIff(p: Parser, actions: seq<Action>)
    requires TableInv(p) && AuthInv(p)
    ensures NewOverlong(p, Session(p, actions)) <==> SomeOverrun(p, actions)
    decreases |actions|
  {
    hide NewOverlong, SomeOverrun, TableInv, AuthInv, Act;
    if actions == [] {
      NothingOverruns(p);
    } else {
      var q := Act(p, actions[0]);
      ActKeepsInv(p, actions[0]);
      ActFitsIff(p, actions[0]);
      SessionOverrunsIff(q, actions[1..]);
      EventsGrow(p, actions[0]);
      SessionEventsGrow(q, actions[1..]);
      OverlongSoFar(p, q, Session(p, actions));
      FirstOverrun(p, actions);
    }
  }

  lemma NothingOverruns(p: Parser)
    ensures !NewOverlong(p, Session(p, [])) && !SomeOverrun(p, [])
  {
  }

  lemma {:induction false} SessionConcat(p: Parser, a: seq<Action>, b: seq<Action>)
    ensures Session(p, a + b) == Session(Session(p, a), b)
    decreases |a|
  {
    hide Act;
    if a == [] {
      assert a + b == b;
    } else {
      assert (a + b)[1..] == a[1..] + b;
      SessionConcat(Act(p, a[0]), a[1..], b);
    }
  }

  // A session grown by one action at a time.
  lemma Extend(p: Parser, actions: seq<Action>, q: Parser, a: Action) returns (longer: seq<Action>, r: Parser)
    requires Session(p, actions) == q
    ensures longer == actions + [a] && Session(p, longer) == r == Act(q, a)
  {
    hide Act;
    longer, r := actions + [a], Act(q, a);
    SessionConcat(p, actions, [a]);
    assert Session(q, [a]) == Session(r, []);
  }

  lemma LoginStarted(p: Parser) returns (actions: seq<Action>, q: Parser)
    requires Fresh(p)
    ensures Session(p, actions) == q
    ensures q.state == BODY && q.current == Login && q.estimate == 2 && q.tree == [] && !q.error && q.events == []
  {
    hide Session;
    actions, q := LoginOpened(p);
    actions, q := Extend(p, actions, q, Token("L"));
    actions, q := Extend(p, actions, q, Token("#"));
  }

  lemma LoginOpened(p: Parser) returns (actions: seq<Action>, q: Parser)
    requires Fresh(p)
    ensures Session(p, actions) == q
    ensures q.state == COMMAND && q.tree == [] && !q.error && q.events == []
  {
    assert Session(p, []) == p;
    hide Session;
    actions, q := Extend(p, [], p, Token(""));
    actions, q := Extend(p, actions, q, Token("#"));
  }

  lemma TwoFieldLogin(q: Parser)
    requires q.tree == [("imei", "i"), ("password", "p")] && q.state == END && q.current == Login && !q.error
    requires q.events == []
    ensures Consume(q, END_TOKEN).events == [Authenticate("i", "p")]
    ensures Consume(q, END_TOKEN).state == INITIAL && Consume(q, END_TOKEN).current == Login
  {
    assert Named(q.tree, Login, 2);
    GetNamed(q.tree, Login, 0);
    GetNamed(q.tree, Login, 1);
    hide Get;
  }

  // A login up to the end of its message.
  lemma LoginPending(p: Parser) returns (actions: seq<Action>, q: Parser)
    requires Fresh(p)
    ensures Session(p, actions) == q
    ensures q.state == INITIAL && q.current == Login && q.events == [Authenticate("i", "p")]
  {
    hide Session;
    actions, q := LoginStarted(p);
    actions, q := Extend(p, actions, q, Token("i"));
    assert q.tree == [("imei", "i")];
    actions, q := Extend(p, actions, q, Token("p"));
    assert q.tree == [("imei", "i"), ("password", "p")] && q.state == END && q.current == Login && !q.error;
    assert q.events == [];
    TwoFieldLogin(q);
    actions, q := Extend(p, actions, q, Token(END_TOKEN));
  }

  /** A login is sent and behind it an unknown command of forty characters; then the authentication
      succeeds, and its answer does not fit. */
  lemma LateResultExample(p: Parser, name: string) returns (actions: seq<Action>)
    requires Fresh(p) && |name| == 40
    ensures NewOverlong(p, Session(p, actions))
    ensures |actions| > 0 && actions[|actions| - 1] == Authenticated(true)
    ensures Authenticate("i", "p") in Session(p, actions[..|actions| - 1]).events
  {
    var q;
    actions, q := LoginPending(p);
    actions, q := Extend(p, actions, q, Token(""));
    actions, q := Extend(p, actions, q, Token("#"));
    actions, q := Extend(p, actions, q, Token(name));
    assert q.cmd == name && q.events == [Authenticate("i", "p")];
    var before := actions;
    ResultFitsIff(q, Authenticated(true));
    actions, q := Extend(p, actions, q, Authenticated(true));
    assert actions[..|before|] == before;
  }
}
