/** The replies of a Redis server to the requests of the pipeline, and how the handler takes them: said of
    their bytes, without the handler's own notion of an answer. */
module RedisReplies {
  import opened ReplyReader
  import Decimal
  import RedisPipeline

  /** A PUBLISH is answered with the number of subscribers, a PING with its own line. */
  datatype Reply = Integer(n: nat) | Pong

  function Render(r: Reply): (s: string)
    ensures |s| >= 4
  {
    match r
    case Integer(n) => ":" + Decimal.Print(n) + "\r\n"
    case Pong => "+PONG\r\n"
  }

  function RenderAll(rs: seq<Reply>): string {
    if rs == [] then "" else Render(rs[0]) + RenderAll(rs[1..])
  }

  lemma {:induction false} LineBefore(line: string, rest: string)
    requires forall i :: 0 <= i < |line| ==> line[i] != '\n'
    ensures LineEnd(line + (['\n'] + rest)) == |line|
  {
    var s := line + (['\n'] + rest);
    if line != "" {
      assert s[1..] == line[1..] + (['\n'] + rest);
      LineBefore(line[1..], rest);
    }
  }

  lemma LineAndRest(line: string, rest: string)
    requires forall i :: 0 <= i < |line| ==> line[i] != '\n'
    ensures var s := line + (['\n'] + rest);
            HasLine(s) && FirstLine(s) == line && AfterLine(s) == rest
  {
    LineBefore(line, rest);
  }

  lemma RenderedLine(r: Reply, rest: string)
    ensures var s := Render(r) + rest;
            HasLine(s) && AfterLine(s) == rest && Answers(FirstLine(s))
  {
    var text := Render(r);
    var line := text[..|text| - 1];
    assert text + rest == line + (['\n'] + rest);
    assert forall i :: 0 <= i < |line| ==> line[i] != '\n' by {
      match r {
        case Integer(n) =>
          var digits := Decimal.Print(n);
          assert line == ":" + digits + "\r";
          assert forall i :: 0 <= i < |digits| ==> Decimal.IsDigit(digits[i]);
        case Pong => assert line == "+PONG\r";
      }
    }
    LineAndRest(line, rest);
    if r.Integer? {
      assert line[0] == ':' && line[|line| - 1] == '\r';
    } else {
      assert line == "+PONG\r";
    }
  }

  /** Whatever replies arrive, they are lines that are all answers. */
  lemma {:induction false} RepliesAreWellFormed(rs: seq<Reply>)
    ensures WellFormed(RenderAll(rs))
  {
    if rs != [] {
      RenderedLine(rs[0], RenderAll(rs[1..]));
      RepliesAreWellFormed(rs[1..]);
    }
  }

  function Min(a: nat, b: nat): nat {
    if a < b then a else b
  }

  lemma OneReplyAnswers(r: Reply, rest: string, waiting: nat)
    requires waiting > 0
    ensures Greedy(Render(r) + rest, waiting) == OneMore(Greedy(rest, waiting - 1))
  {
    hide Render;
    RenderedLine(r, rest);
  }

  lemma NothingAnswers(rs: seq<Reply>, waiting: nat)
    requires rs == [] || waiting == 0
    ensures Greedy(RenderAll(rs), waiting) == Reading(0, RenderAll(rs))
  {
    hide Render;
  }

  lemma {:induction false} RepliesAnswer(rs: seq<Reply>, waiting: nat)
    ensures var k := Min(|rs|, waiting);
            Greedy(RenderAll(rs), waiting) == Reading(k, RenderAll(rs[k..]))
    decreases |rs|
  {
    hide Greedy, Render;
    var k := Min(|rs|, waiting);
    if k == 0 {
      NothingAnswers(rs, waiting);
      assert rs[0..] == rs;
    } else {
      FirstRendered(rs);
      hide RenderAll;
      OneReplyAnswers(rs[0], RenderAll(rs[1..]), waiting);
      RepliesAnswer(rs[1..], waiting - 1);
      assert rs[1..][k - 1..] == rs[k..];
    }
  }

  lemma FirstRendered(rs: seq<Reply>)
    requires rs != []
    ensures RenderAll(rs) == Render(rs[0]) + RenderAll(rs[1..])
  {
  }

  /** Every reply answers one waiting request with true, and is used up: of all of them in one read
      nothing is kept, and of more than are waited for exactly the others. */
  lemma RepliesAreAnswers(rs: seq<Reply>, waiting: nat, leftover: string)
    requires |RenderAll(rs)| < SIZE_RANGE
    ensures var o, k := Run(RenderAll(rs), waiting), Min(|rs|, waiting);
            o.ending == Counted && o.fired == k && Kept(o, leftover) == RenderAll(rs[k..])
  {
    var k := Min(|rs|, waiting);
    RepliesAnswer(rs, waiting);
    if k == |rs| {
      assert RenderAll(rs[k..]) == "";
    }
    ReadIsExactIffClean(RenderAll(rs), waiting);
  }

  /** Replies may be cut anywhere but four bytes or more into one of them. */
  lemma CutRepliesAreAnswers(rs: seq<Reply>, waiting: nat, chunks: seq<string>, leftover: string)
    requires Join(chunks) == RenderAll(rs) && ShortTails("", chunks) && |RenderAll(rs)| < SIZE_RANGE
    requires chunks != []
    ensures var k := Min(|rs|, waiting);
            Reads("", waiting, chunks, leftover) == Reading(k, RenderAll(rs[k..]))
  {
    assert "" + Join(chunks) == RenderAll(rs);
    RepliesAreWellFormed(rs);
    AnswersCutAnywhere("", waiting, chunks, leftover);
    RepliesAreAnswers(rs, waiting, leftover);
  }

  /** What the first complete line does, by its text: an integer or `+PONG` is an answer, any other line
      that ends in CR is not handled, a line without CR ends the loop, and an empty one throws. */
  lemma FirstLineDecides(line: string, rest: string, waiting: nat)
    requires waiting > 0 && |line| + 1 + |rest| >= 4
    requires forall i :: 0 <= i < |line| ==> line[i] != '\n'
    ensures var o := Run(line + (['\n'] + rest), waiting);
            if line == "" then o.fired == 0 && o.ending == EmptyLine
            else if line[|line| - 1] != '\r' then o.fired == 0 && o.ending == NoReturn
            else if line[0] == ':' || line == "+PONG\r" then o.fired > 0
            else o.fired == 0 && o.ending == Unknown
  {
    var s := line + (['\n'] + rest);
    LineAndRest(line, rest);
    assert GetLine(Stream(s, true, "")) == Stream(rest, true, line);
  }

  /** An error reply closes the connection. */
  lemma ErrorReplyExample()
    ensures Run("-ERR\r\n", 1).ending == Unknown && Run("-ERR\r\n", 1).fired == 0
  {
    assert "-ERR\r" + (['\n'] + "") == "-ERR\r\n";
    FirstLineDecides("-ERR\r", "", 1);
  }

  /** Fewer than four bytes are left alone, even if they are a complete line. */
  lemma ThreeBytesWait(s: string, waiting: nat, leftover: string)
    requires |s| < 4
    ensures var o := Run(s, waiting);
            o.ending == Counted && o.fired == 0 && Kept(o, leftover) == s
  {
    ReadIsExactIffClean(s, waiting);
  }

  /** A reply that is not handled leads to the reconnect; what has arrived behind it stays in the buffer,
      where the next batch will find it. */
  lemma UnknownReplyLeavesRest(s: RedisPipeline.State, line: string, rest: string, leftover: string)
    requires s.work.reading > 0 && s.tmp.callbacks != [] && s.input == "" && |line| + 2 >= 4
    requires line[0] != ':' && line != "+PONG" && forall i :: 0 <= i < |line| ==> line[i] != '\n'
    ensures var t := RedisPipeline.Exec(s, RedisPipeline.ReadChunk(line + "\r\n" + rest, leftover));
            t.work.failing == s.work.failing + 1 && t.fired == s.fired && t.input == rest
  {
    hide Run;
    UnknownLine(line, rest, |s.tmp.callbacks|);
    assert "" + (line + "\r\n" + rest) == line + "\r\n" + rest;
    RedisPipeline.NothingFired(s.fired, s.tmp.callbacks);
  }

  lemma UnknownLine(line: string, rest: string, waiting: nat)
    requires waiting > 0 && |line| + 2 >= 4
    requires line[0] != ':' && line != "+PONG" && forall i :: 0 <= i < |line| ==> line[i] != '\n'
    ensures var o := Run(line + "\r\n" + rest, waiting);
            o.ending == Unknown && o.fired == 0 && o.stream.unread == rest
  {
    hide Run;
    var text := line + "\r";
    assert line + "\r\n" + rest == text + (['\n'] + rest);
    assert text[..|line|] == line && "+PONG\r"[..5] == "+PONG";
    FirstLineDecides(text, rest, waiting);
    UnknownStops(text, rest, waiting);
  }

  lemma UnknownStops(line: string, rest: string, waiting: nat)
    requires waiting > 0 && |line| + 1 + |rest| >= 4 && forall i :: 0 <= i < |line| ==> line[i] != '\n'
    requires Run(line + (['\n'] + rest), waiting).ending == Unknown
    requires Run(line + (['\n'] + rest), waiting).fired == 0
    ensures Run(line + (['\n'] + rest), waiting).stream.unread == rest
  {
    var s := line + (['\n'] + rest);
    LineAndRest(line, rest);
    assert GetLine(Stream(s, true, "")) == Stream(rest, true, line);
  }
}
