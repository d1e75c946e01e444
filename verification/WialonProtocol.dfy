/** The Wialon IPS protocol in its own words: every command, field and answer written out, and what a
    tracker sends and hears. */
module WialonProtocol {
  import opened Wrappers
  import P = WialonParser
  import R = WialonReference
  import B = WialonBlackbox
  import T = WialonTokens
  import Decimal

  /** Values a tracker may send: none holds a separator or is the end of a line. */
  predicate Sendable(values: seq<string>) {
    forall v :: v in values ==> v != "\r\n" && forall i :: 0 <= i < |v| ==> v[i] != ';' && v[i] != '#' && v[i] != '|'
  }

  lemma SendableIsPrintable(values: seq<string>)
    requires Sendable(values)
    ensures R.Printable(values)
  {
    forall v | v in values
      ensures T.Plain(v)
    {
    }
  }

  /** The values with semicolons between them. */
  function Joined(values: seq<string>): string {
    if values == [] then "" else if |values| == 1 then values[0] else values[0] + (";" + Joined(values[1..]))
  }

  lemma {:induction false} JoinedIsFields(values: seq<string>)
    ensures Joined(values) == T.Fields(values)
  {
    if |values| > 1 {
      JoinedIsFields(values[1..]);
      assert values[0] + (";" + Joined(values[1..])) == values[0] + [';'] + T.Fields(values[1..]);
    }
  }

  /** The session after the message `#name#v1;...;vn` and the end of its line. */
  function Told(p: P.Parser, name: string, values: seq<string>): P.Parser {
    P.Consume(P.Feed(p, T.Tokens("#" + name + "#" + Joined(values))), "\r\n")
  }

  /** The tree of a data message. */
  function DataTree(values: seq<string>): P.Fields
    requires |values| == 16
  {
    [("date", values[0]), ("time", values[1]), ("lat1", values[2]), ("lat2", values[3]),
     ("lon1", values[4]), ("lon2", values[5]), ("speed", values[6]), ("course", values[7]),
     ("height", values[8]), ("sats", values[9]), ("hdop", values[10]), ("inputs", values[11]),
     ("outputs", values[12]), ("adc", values[13]), ("ibutton", values[14]), ("params", values[15])]
  }

  /** The tree of a short data message. */
  function ShortDataTree(values: seq<string>): P.Fields
    requires |values| == 10
  {
    [("date", values[0]), ("time", values[1]), ("lat1", values[2]), ("lat2", values[3]),
     ("lon1", values[4]), ("lon2", values[5]), ("speed", values[6]), ("course", values[7]),
     ("height", values[8]), ("sats", values[9])]
  }

  /** The tree of an image message. */
  function ImageTree(values: seq<string>): P.Fields
    requires |values| == 6
  {
    [("sz", values[0]), ("ind", values[1]), ("count", values[2]), ("date", values[3]),
     ("time", values[4]), ("name", values[5])]
  }

  // A command with its number of values.
  predicate Complete(p: P.Parser, name: string, values: seq<string>, c: P.Command) {
    && p.state == P.INITIAL && (p.authenticated || c == P.Login) && c != P.Blackbox
    && P.Lookup(name).Some? && P.Lookup(name).value.1 == c && |values| == R.Full(c)
  }

  // What a complete message leads to.
  function Asked(name: string, values: seq<string>, c: P.Command): P.Event
    requires |values| == R.Full(c)
  {
    match c
    case Login => P.Authenticate(values[0], values[1])
    case Ping => R.AnswerEvent(name, "")
    case Image => P.AwaitImage(R.Zip(P.Protocol(c), values[..|P.Protocol(c)|]))
    case _ => P.Store(R.Zip(P.Protocol(c), values[..|P.Protocol(c)|]))
  }

  lemma ToldEvents(p: P.Parser, name: string, values: seq<string>, c: P.Command)
    requires Complete(p, name, values, c) && Sendable(values)
    ensures Told(p, name, values).events == p.events + [Asked(name, values, c)]
  {
    hide P.Feed, T.Tokens, P.Lookup, P.ConsumeEnd, Sendable, R.Zip;
    SendableIsPrintable(values);
    JoinedIsFields(values);
    R.ParserInvertsPrinter(p, name, values);
  }

  lemma EndKeepsCommand(q: P.Parser)
    ensures var r := P.ConsumeEnd(q);
            r.state == P.INITIAL && r.cmd == q.cmd && r.current == q.current && r.authenticated == q.authenticated
  {
    hide P.Get, Decimal.Print;
  }

  lemma ToldState(p: P.Parser, name: string, values: seq<string>, c: P.Command)
    requires Complete(p, name, values, c) && Sendable(values)
    ensures var q := Told(p, name, values);
            Heard(q, name, c) && q.authenticated == p.authenticated
  {
    hide P.Feed, T.Tokens, P.Lookup, P.ConsumeEnd, Sendable, R.Zip;
    SendableIsPrintable(values);
    JoinedIsFields(values);
    R.TokensOfCommand(name, values);
    var ts := R.Header(name) + values;
    assert |values| + 4 == |ts|;
    R.CompleteBody(p, ts);
    EndKeepsCommand(P.Feed(p, ts));
  }

  lemma DataTreeIsZip(values: seq<string>)
    requires |values| == 16
    ensures DataTree(values) == R.Zip(P.DATA_FIELDS, values[..16])
  {
    var zip := R.Zip(P.DATA_FIELDS, values[..16]);
    assert values[..16] == values;
    forall i | 0 <= i < 16
      ensures DataTree(values)[i] == zip[i]
    {
      assert zip[i] == (P.DATA_FIELDS[i], values[i]);
    }
  }

  lemma ShortDataTreeIsZip(values: seq<string>)
    requires |values| == 10
    ensures ShortDataTree(values) == R.Zip(P.SHORT_FIELDS, values[..10])
  {
    assert values[..10] == values;
  }

  lemma ImageTreeIsZip(values: seq<string>)
    requires |values| == 6
    ensures ImageTree(values) == R.Zip(P.Protocol(P.Image), values[..6])
  {
    assert values[..6] == values;
  }

  /** `#D#` with sixteen values stores them under their sixteen names. */
  lemma DataMessage(p: P.Parser, values: seq<string>)
    requires p.state == P.INITIAL && p.authenticated && |values| == 16 && Sendable(values)
    ensures var q := Told(p, "D", values);
            q.events == p.events + [P.Store(DataTree(values))] && Heard(q, "D", P.Data)
  {
    hide Told, DataTree, R.Zip, Sendable;
    DataTreeIsZip(values);
    ToldEvents(p, "D", values, P.Data);
    ToldState(p, "D", values, P.Data);
  }

  /** `#SD#` with ten values stores them under their ten names. */
  lemma ShortDataMessage(p: P.Parser, values: seq<string>)
    requires p.state == P.INITIAL && p.authenticated && |values| == 10 && Sendable(values)
    ensures var q := Told(p, "SD", values);
            q.events == p.events + [P.Store(ShortDataTree(values))] && Heard(q, "SD", P.ShortData)
  {
    hide Told, ShortDataTree, R.Zip, Sendable;
    ShortDataTreeIsZip(values);
    ToldEvents(p, "SD", values, P.ShortData);
    ToldState(p, "SD", values, P.ShortData);
  }

  lemma TextTreeIsZip(text: string)
    ensures [("message", text)] == R.Zip(P.Protocol(P.Message), [text][..1])
  {
    assert [text][..1] == [text];
  }

  /** `#M#` with a text stores it as the message. */
  lemma TextMessage(p: P.Parser, text: string)
    requires p.state == P.INITIAL && p.authenticated && Sendable([text])
    ensures var q := Told(p, "M", [text]);
            q.events == p.events + [P.Store([("message", text)])] && Heard(q, "M", P.Message)
  {
    hide Told, R.Zip, Sendable;
    TextTreeIsZip(text);
    ToldEvents(p, "M", [text], P.Message);
    ToldState(p, "M", [text], P.Message);
  }

  /** `#L#` with an identifier and a password asks for authentication with the two. */
  lemma LoginMessage(p: P.Parser, imei: string, password: string)
    requires p.state == P.INITIAL && Sendable([imei, password])
    ensures var q := Told(p, "L", [imei, password]);
            && q.events == p.events + [P.Authenticate(imei, password)]
            && Heard(q, "L", P.Login) && q.authenticated == p.authenticated
  {
    hide Told, R.Zip, Sendable;
    ToldEvents(p, "L", [imei, password], P.Login);
    ToldState(p, "L", [imei, password], P.Login);
  }

  /** `#P#` is answered at once. */
  lemma PingMessage(p: P.Parser)
    requires p.state == P.INITIAL && p.authenticated
    ensures Told(p, "P", [""]).events == p.events + [P.Reply("#AP#\r\n")]
  {
    NothingIsSendable();
    PingText();
    hide Told, R.Zip, Sendable, P.ReplyText, Asked;
    ToldEvents(p, "P", [""], P.Ping);
    PingAsked();
  }

  lemma PingAsked()
    ensures Asked("P", [""], P.Ping) == P.Reply(P.ReplyText("P", ""))
  {
    hide R.Zip, P.ReplyText;
  }

  lemma NothingIsSendable()
    ensures Sendable([""])
  {
  }

  lemma PingText()
    ensures P.ReplyText("P", "") == "#AP#\r\n"
  {
  }

  /** `#I#` with six values waits for the image they announce. */
  lemma ImageMessage(p: P.Parser, values: seq<string>)
    requires p.state == P.INITIAL && p.authenticated && |values| == 6 && Sendable(values)
    ensures Told(p, "I", values).events == p.events + [P.AwaitImage(ImageTree(values))]
  {
    hide Told, ImageTree, R.Zip, Sendable;
    ImageTreeIsZip(values);
    ToldEvents(p, "I", values, P.Image);
  }

  /** A login without its password is answered with 0. */
  lemma ShortLoginMessage(p: P.Parser, imei: string)
    requires p.state == P.INITIAL && Sendable([imei])
    ensures Told(p, "L", [imei]).events == p.events + [P.Reply("#AL#0\r\n")]
  {
    hide P.Feed, P.ConsumeEnd, R.Zip, T.Tokens, P.ReplyText, R.Meaning, Sendable;
    SendableIsPrintable([imei]);
    JoinedIsFields([imei]);
    R.TokensOfCommand("L", [imei]);
    R.MachineRefinesMeaning(p, R.Header("L") + [imei]);
    ShortLoginMeaning(p.authenticated, imei);
  }

  lemma ShortLoginMeaning(authenticated: bool, imei: string)
    ensures R.Meaning(authenticated, R.Header("L") + [imei]) == [P.Reply("#AL#0\r\n")]
  {
    ShortLoginText();
    hide P.ReplyText, R.Zip;
    var ts := R.Header("L") + [imei];
    assert ts[2] == "L" && ts[4..] == [imei];
  }

  lemma ShortLoginText()
    ensures P.ReplyText("L", "0") == "#AL#0\r\n"
  {
  }

  lemma BlockTreeIsData(values: seq<string>)
    requires |values| == 16
    ensures R.Tree(P.Blackbox, values) == DataTree(values)
  {
    DataTreeIsZip(values);
    hide DataTree, R.Zip;
  }

  lemma OneStore(t: P.Fields)
    ensures B.Stores([t]) == [P.Store(t)]
  {
  }

  lemma OneBlock(values: seq<string>)
    requires |values| == 16
    ensures B.Stores(B.StoredTrees([values], None)) == [P.Store(DataTree(values))]
  {
    hide DataTree, R.Tree, B.Stores, B.StoredTrees;
    BlockTreeIsData(values);
    OneTree(values);
    OneStore(DataTree(values));
  }

  lemma OneTree(values: seq<string>)
    ensures B.StoredTrees([values], None) == [R.Tree(P.Blackbox, values)]
  {
    hide R.Tree;
    assert [values][1..] == [];
    assert B.StoredTrees([], B.NextHeld(None, values)) == [];
  }

  /** `#B#` with one block of sixteen values stores them like a data message. */
  lemma BlackboxMessage(p: P.Parser, values: seq<string>)
    requires p.state == P.INITIAL && p.authenticated && |values| == 16 && Sendable(values)
    ensures Told(p, "B", values).events == p.events + [P.Store(DataTree(values)), P.Reply("#AB#0\r\n")]
  {
    BlackboxText();
    hide P.Feed, P.ConsumeEnd, T.Tokens, T.Blocks, DataTree, B.Stores, B.StoredTrees, Sendable, P.ReplyText;
    SendableIsPrintable(values);
    JoinedIsFields(values);
    OneBlock(values);
    OneBlockText(values);
    B.PrintedBlackboxStores(p, [values]);
    BothEvents(p.events, P.Store(DataTree(values)), P.Reply("#AB#0\r\n"));
    assert "#" + "B" + "#" + Joined(values) == "#" + "B" + "#" + T.Blocks([values]);
  }

  lemma OneBlockText(values: seq<string>)
    ensures T.Blocks([values]) == T.Fields(values)
  {
  }

  lemma BlackboxText()
    ensures P.ReplyText("B", "0") == "#AB#0\r\n"
  {
  }

  lemma BothEvents(events: seq<P.Event>, a: P.Event, b: P.Event)
    ensures events + [a] + [b] == events + [a, b]
  {
  }

  /** Any other command, and before authentication any but a login, is passed over in silence. */
  lemma NothingAsked(p: P.Parser, name: string, values: seq<string>)
    requires p.state == P.INITIAL && Sendable([name]) && Sendable(values) && values != []
    requires name !in {"L", "D", "P", "SD", "B", "M", "I"} || (!p.authenticated && name != "L")
    ensures Told(p, name, values).events == p.events
  {
    SendableName(name);
    NothingMeant(p.authenticated, name, values);
    hide P.Feed, P.ConsumeEnd, T.Tokens, R.Zip, T.Fields, Sendable, R.Meaning, R.IsBlackbox, R.Header, P.Lookup;
    SendableIsPrintable(values);
    JoinedIsFields(values);
    TokensOfAny(name, values);
    R.MachineRefinesMeaning(p, R.Header(name) + values);
  }

  lemma SendableName(name: string)
    requires Sendable([name])
    ensures T.Plain(name) && name != "\r\n"
  {
    assert name in [name];
  }

  lemma NothingMeant(authenticated: bool, name: string, values: seq<string>)
    requires name !in {"L", "D", "P", "SD", "B", "M", "I"} || (!authenticated && name != "L")
    ensures R.Meaning(authenticated, R.Header(name) + values) == []
    ensures !R.IsBlackbox(authenticated, R.Header(name) + values)
  {
    var ts := R.Header(name) + values;
    assert ts[2] == name;
  }

  lemma TokensOfAny(name: string, values: seq<string>)
    requires T.Plain(name) && name != "\r\n" && values != [] && R.Printable(values)
    ensures T.Tokens("#" + name + "#" + T.Fields(values)) == R.Header(name) + values
    ensures R.NoEnd(R.Header(name) + values)
  {
    T.PiecesOfFields(values, false, "");
    assert T.Fields(values) + "" == T.Fields(values);
    T.TokensOfMessage(name, T.Fields(values), values);
  }

  // Results --------------------------------------------------------------------------------------

  /** The command was taken in and its result may come. */
  predicate Heard(q: P.Parser, name: string, c: P.Command) {
    q.state == P.INITIAL && q.cmd == name && q.current == c
  }

  function Reported(q: P.Parser, ok: bool): seq<P.Event> {
    P.Act(q, P.Processed(ok)).events
  }

  /** A data message is answered with 1 if it was processed, and with -1 if not. */
  lemma DataResult(q: P.Parser)
    requires Heard(q, "D", P.Data)
    ensures Reported(q, true) == q.events + [P.Reply("#AD#1\r\n")]
    ensures Reported(q, false) == q.events + [P.Reply("#AD#-1\r\n")]
  {
    assert P.ReplyText("D", "1") == "#AD#1\r\n";
    assert P.ReplyText("D", "-1") == "#AD#-1\r\n";
  }

  lemma ShortDataResult(q: P.Parser)
    requires Heard(q, "SD", P.ShortData)
    ensures Reported(q, true) == q.events + [P.Reply("#ASD#1\r\n")]
    ensures Reported(q, false) == q.events + [P.Reply("#ASD#-1\r\n")]
  {
    assert P.ReplyText("SD", "1") == "#ASD#1\r\n";
    assert P.ReplyText("SD", "-1") == "#ASD#-1\r\n";
  }

  /** A text message is answered with 1 or 0. */
  lemma TextResult(q: P.Parser)
    requires Heard(q, "M", P.Message)
    ensures Reported(q, true) == q.events + [P.Reply("#AM#1\r\n")]
    ensures Reported(q, false) == q.events + [P.Reply("#AM#0\r\n")]
  {
    assert P.ReplyText("M", "1") == "#AM#1\r\n";
    assert P.ReplyText("M", "0") == "#AM#0\r\n";
  }

  /** A login is answered with 1 if it was accepted, and with 01 if not. */
  lemma LoginResult(q: P.Parser)
    requires Heard(q, "L", P.Login)
    ensures P.Act(q, P.Authenticated(true)).events == q.events + [P.Reply("#AL#1\r\n")]
    ensures P.Act(q, P.Authenticated(false)).events == q.events + [P.Reply("#AL#01\r\n")]
    ensures P.Act(q, P.Authenticated(true)).authenticated
    ensures P.Act(q, P.Authenticated(false)).authenticated <==> q.authenticated
  {
    assert P.ReplyText("L", "1") == "#AL#1\r\n";
    assert P.ReplyText("L", "01") == "#AL#01\r\n";
  }

  // A size_t counts modulo 2^64.
  function Counted(count: nat, more: nat): nat {
    (count + more) % 0x1_0000_0000_0000_0000
  }

  lemma CountedOneMore(count: nat, more: nat)
    ensures Counted(Counted(count, 1), more) == Counted(count, more + 1)
  {
  }

  lemma NothingCounted(count: nat)
    requires count < 0x1_0000_0000_0000_0000
    ensures Counted(count, 0) == count
  {
  }

  function Results(oks: seq<bool>): seq<P.Action> {
    if oks == [] then [] else [P.Processed(oks[0])] + Results(oks[1..])
  }

  lemma OneResult(q: P.Parser, ok: bool)
    requires q.current == P.Blackbox
    ensures P.Act(q, P.Processed(ok)) == q.(count := Counted(q.count, 1))
  {
  }

  /** Every result of a blackbox counts one, whatever it is, and none is answered. */
  lemma {:induction false} BlackboxResults(q: P.Parser, oks: seq<bool>)
    requires q.current == P.Blackbox && q.count < 0x1_0000_0000_0000_0000
    ensures P.Session(q, Results(oks)) == q.(count := Counted(q.count, |oks|))
    decreases |oks|
  {
    hide P.Act, Counted;
    if oks == [] {
      NothingCounted(q.count);
    } else {
      var r := P.Act(q, P.Processed(oks[0]));
      OneResult(q, oks[0]);
      CountIsSmall(q.count, 1);
      BlackboxResults(r, oks[1..]);
      CountedOneMore(q.count, |oks| - 1);
      assert Results(oks)[0] == P.Processed(oks[0]) && Results(oks)[1..] == Results(oks[1..]);
    }
  }

  lemma CountIsSmall(count: nat, more: nat)
    ensures Counted(count, more) < 0x1_0000_0000_0000_0000
  {
  }

  /** A result that arrives when the next message has begun is answered to no command. */
  lemma ResultWithoutCommand(q: P.Parser, tok: string)
    requires Heard(q, "D", P.Data) && tok != "\r\n"
    ensures Reported(P.Consume(q, tok), true) == q.events + [P.Reply("#A<not initialized>#1\r\n")]
  {
    NoCommandText();
    hide P.ReplyText;
  }

  lemma NoCommandText()
    ensures P.ReplyText("<not initialized>", "1") == "#A<not initialized>#1\r\n"
  {
  }

  lemma LoggedIn(p: P.Parser, imei: string, password: string)
    requires P.Fresh(p) && Sendable([imei, password])
    ensures var q := P.Act(Told(p, "L", [imei, password]), P.Authenticated(true));
            && q.state == P.INITIAL && q.authenticated
            && q.events == [P.Authenticate(imei, password), P.Reply("#AL#1\r\n")]
  {
    hide Told, Sendable;
    LoginMessage(p, imei, password);
    LoginResult(Told(p, "L", [imei, password]));
  }

  /** A whole exchange: a login is sent and accepted, then a data message, and that is processed. */
  lemma Exchange(p: P.Parser, imei: string, password: string, values: seq<string>, ok: bool)
    requires P.Fresh(p) && Sendable([imei, password]) && |values| == 16 && Sendable(values)
    ensures var q := P.Act(Told(p, "L", [imei, password]), P.Authenticated(true));
            Reported(Told(q, "D", values), ok)
            == [P.Authenticate(imei, password), P.Reply("#AL#1\r\n"), P.Store(DataTree(values)),
                P.Reply(if ok then "#AD#1\r\n" else "#AD#-1\r\n")]
  {
    hide Told, DataTree, Reported, Sendable;
    LoggedIn(p, imei, password);
    var q := P.Act(Told(p, "L", [imei, password]), P.Authenticated(true));
    hide P.Act;
    DataMessage(q, values);
    DataResult(Told(q, "D", values));
  }
}
