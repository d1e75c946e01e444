/** How `handle_read` cuts reply lines out of the input buffer: the loop as it runs, a plain
    description of what it ought to do, and when the two agree. */
module ReplyReader {

  // A size_t has 64 bits.
  const SIZE_RANGE := 0x1_0000_0000_0000_0000
  const MIN_LEFT := 4
  const PONG := "+PONG\r"

  /** Arithmetic of a size_t. */
  function Wrap(x: int): (r: nat)
    ensures r < SIZE_RANGE
    ensures 0 <= x < SIZE_RANGE ==> r == x
    ensures -SIZE_RANGE <= x < 0 ==> r == x + SIZE_RANGE
  {
    x % SIZE_RANGE
  }

  // The loop ---------------------------------------------------------------------------------------

  /** The stream put over the input buffer, with the string variable it reads lines into. */
  datatype Stream = Stream(unread: string, good: bool, line: string)

  /** Where the first line feed is, or the end of the text. */
  function LineEnd(s: string): (k: nat)
    ensures k <= |s|
  {
    if s == "" || s[0] == '\n' then 0 else 1 + LineEnd(s[1..])
  }

  lemma {:induction false} LineEndIsFirst(s: string)
    ensures LineEnd(s) < |s| ==> s[LineEnd(s)] == '\n'
    ensures forall i :: 0 <= i < LineEnd(s) ==> s[i] != '\n'
  {
    if s != "" && s[0] != '\n' {
      LineEndIsFirst(s[1..]);
    }
  }

  /** `std::getline`: a stream that has met the end of its input leaves the string as it was. */
  function GetLine(st: Stream): Stream {
    if !st.good then st
    else
      var k := LineEnd(st.unread);
      if k < |st.unread| then Stream(st.unread[k + 1..], true, st.unread[..k])
      else Stream("", false, st.unread)
  }

  predicate EndsInReturn(line: string) {
    line != "" && line[|line| - 1] == '\r'
  }

  /** The lines the handler takes for an answer: `+PONG` or an integer reply. */
  predicate Answers(line: string) {
    EndsInReturn(line) && (line[0] == ':' || line == PONG)
  }

  // Why the loop ended. `NoReturn` is its `break`, `Unknown` the reply it cannot handle, and
  // `EmptyLine` the exception of `at` on a line without characters.
  datatype Ending = Counted | NoReturn | Unknown | EmptyLine

  datatype Outcome = Outcome(fired: nat, waiting: nat, left: nat, stream: Stream, ending: Ending)

  function Loop(st: Stream, waiting: nat, left: nat): (o: Outcome)
    ensures o.fired + o.waiting == waiting
    decreases waiting
  {
    if waiting == 0 || left < MIN_LEFT then Outcome(0, waiting, left, st, Counted)
    else
      var next := GetLine(st);
      if next.line == "" then Outcome(0, waiting, left, next, EmptyLine)
      else if !EndsInReturn(next.line) then Outcome(0, waiting, left, next, NoReturn)
      else if !Answers(next.line) then Outcome(0, waiting, left, next, Unknown)
      else
        var o := Loop(next, waiting - 1, Wrap(left - (|next.line| + 1)));
        o.(fired := o.fired + 1)
  }

  function Run(buffer: string, waiting: nat): Outcome {
    Loop(Stream(buffer, true, ""), waiting, |buffer|)
  }

  /** The loop that ends in `whole` has given `done` answers and stands at `st`. */
  predicate Underway(whole: Outcome, done: nat, st: Stream, waiting: nat, left: nat) {
    var o := Loop(st, waiting, left);
    whole == o.(fired := o.fired + done)
  }

  lemma UnderwayFromStart(buffer: string, waiting: nat)
    ensures Underway(Run(buffer, waiting), 0, Stream(buffer, true, ""), waiting, |buffer|)
  {
  }

  lemma UnderwayAtEnd(whole: Outcome, done: nat, st: Stream, waiting: nat, left: nat)
    requires Underway(whole, done, st, waiting, left) && (waiting == 0 || left < MIN_LEFT)
    ensures whole == Outcome(done, waiting, left, st, Counted)
  {
  }

  /** One turn of the loop: the next line, and whether it ends the loop. */
  method Turn(ghost whole: Outcome, ghost done: nat, st: Stream, waiting: nat, left: nat)
    returns (next: Stream, ending: Ending)
    requires Underway(whole, done, st, waiting, left) && waiting > 0 && left >= MIN_LEFT
    ensures ending == Counted ==>
              Underway(whole, done + 1, next, waiting - 1, Wrap(left - (|next.line| + 1)))
    ensures ending != Counted ==> whole == Outcome(done, waiting, left, next, ending)
  {
    next := GetLine(st);
    var s := next.line;
    ending :=
      if |s| == 0 then EmptyLine
      else if s[|s| - 1] != '\r' then NoReturn
      else if s[0] != ':' && s != PONG then Unknown
      else Counted;
  }

  /** What `consume(size() - left)` is asked to remove. */
  function Surplus(o: Outcome): nat {
    Wrap(|o.stream.unread| - o.left)
  }

  predicate Overrun(o: Outcome) {
    Surplus(o) > |o.stream.unread|
  }

  /** The buffer after the final `consume`. Asked for more than the buffer holds, the library
      decides what stays: that is `leftover`. */
  function Kept(o: Outcome, leftover: string): string {
    if Overrun(o) then leftover else o.stream.unread[Surplus(o)..]
  }

  // What the loop is for ---------------------------------------------------------------------------

  predicate HasLine(s: string) {
    LineEnd(s) < |s|
  }

  function FirstLine(s: string): string {
    s[..LineEnd(s)]
  }

  function AfterLine(s: string): (r: string)
    requires HasLine(s)
    ensures |r| < |s|
  {
    s[LineEnd(s) + 1..]
  }

  /** The buffer starts with an answer the loop can take. */
  predicate CanAnswer(buffer: string, waiting: nat) {
    waiting > 0 && |buffer| >= MIN_LEFT && HasLine(buffer) && Answers(FirstLine(buffer))
  }

  datatype Reading = Reading(answered: nat, rest: string)

  /** Answer line by line while requests wait and four bytes are there: how many are answered, and
      the bytes behind the last answer. */
  function Greedy(buffer: string, waiting: nat): (r: Reading)
    ensures r.answered <= waiting && |r.rest| <= |buffer|
  {
    if CanAnswer(buffer, waiting) then OneMore(Greedy(AfterLine(buffer), waiting - 1))
    else Reading(0, buffer)
  }

  function OneMore(r: Reading): Reading {
    r.(answered := r.answered + 1)
  }

  function Answered(buffer: string, waiting: nat): nat {
    Greedy(buffer, waiting).answered
  }

  function Rest(buffer: string, waiting: nat): string {
    Greedy(buffer, waiting).rest
  }

  /** The buffer minus its first `k` lines. */
  function DropLines(s: string, k: nat): string {
    if k == 0 || !HasLine(s) then s else DropLines(AfterLine(s), k - 1)
  }

  lemma {:induction false} RestDropsAnsweredLines(buffer: string, waiting: nat)
    ensures Rest(buffer, waiting) == DropLines(buffer, Answered(buffer, waiting))
  {
    if CanAnswer(buffer, waiting) {
      RestDropsAnsweredLines(AfterLine(buffer), waiting - 1);
    }
  }

  /** The read ends well: nothing waits any more, or what is left is shorter than any guess. */
  predicate Clean(buffer: string, waiting: nat) {
    Answered(buffer, waiting) == waiting || |Rest(buffer, waiting)| < MIN_LEFT
  }

  /** The one answer that has its carriage return but not yet its line feed. */
  predicate CutBeforeLineFeed(rest: string) {
    !HasLine(rest) && Answers(rest)
  }

  /** What `waiting` answers of `step` bytes each take off `left`. */
  function Taken(waiting: nat, step: nat): nat {
    if waiting == 0 then 0 else step + Taken(waiting - 1, step)
  }

  /** Sizes that leave a size_t room for the whole buffer once more per waiting request. */
  predicate InMemory(waiting: nat, length: nat) {
    MIN_LEFT + Taken(waiting + 1, length + 1) < SIZE_RANGE
  }

  lemma {:induction false} TakenGrows(a: nat, b: nat, c: nat, d: nat)
    requires a <= c && b <= d
    ensures Taken(a, b) <= Taken(c, d)
  {
    if a > 0 {
      TakenGrows(a - 1, b, c - 1, d);
    }
  }

  lemma InLessMemory(waiting: nat, length: nat, fewer: nat, shorter: nat)
    requires InMemory(waiting, length) && fewer <= waiting && shorter <= length
    ensures InMemory(fewer, shorter)
  {
    TakenGrows(fewer + 1, shorter + 1, waiting + 1, length + 1);
  }

  // Once the stream is at its end, every further `getline` returns the same line again.
  lemma {:induction false} RepeatsLastLine(st: Stream, waiting: nat, left: nat)
    requires !st.good && Answers(st.line)
    requires left < SIZE_RANGE
    ensures Loop(st, waiting, left).stream == st && Loop(st, waiting, left).ending == Counted
    ensures Loop(st, waiting, left).left < SIZE_RANGE
    ensures MIN_LEFT + Taken(waiting, |st.line| + 1) <= left < SIZE_RANGE ==>
              Loop(st, waiting, left).waiting == 0 && Loop(st, waiting, left).left >= MIN_LEFT
    decreases waiting
  {
    if waiting > 0 && left >= MIN_LEFT {
      RepeatsLastLine(st, waiting - 1, Wrap(left - (|st.line| + 1)));
    }
  }

  /** The whole behaviour of the loop, for every buffer and every number of waiting requests. */
  ghost predicate Explains(buffer: string, waiting: nat, o: Outcome) {
    var k := Answered(buffer, waiting);
    var rest := Rest(buffer, waiting);
    if Clean(buffer, waiting) then
      o.ending == Counted && o.fired == k && o.left == |rest| && o.stream.unread == rest
    else if HasLine(rest) then
      && o.fired == k && o.left == |rest| && o.stream.unread == AfterLine(rest)
      && o.ending == (if FirstLine(rest) == "" then EmptyLine
                      else if EndsInReturn(FirstLine(rest)) then Unknown else NoReturn)
    else
      && o.stream.unread == ""
      && if CutBeforeLineFeed(rest) then
           && o.ending == Counted && o.fired > k && o.left < SIZE_RANGE
           && (InMemory(waiting, |buffer|) ==> o.fired == waiting && o.left >= MIN_LEFT)
         else o.fired == k && o.left == |rest| && o.ending == (if EndsInReturn(rest) then Unknown else NoReturn)
  }

  lemma LoopStopsAtLine(buffer: string, st: Stream, waiting: nat)
    requires st.good && st.unread == buffer && !CanAnswer(buffer, waiting)
    requires waiting == 0 || |buffer| < MIN_LEFT || HasLine(buffer)
    ensures Explains(buffer, waiting, Loop(st, waiting, |buffer|))
  {
    assert Rest(buffer, waiting) == buffer && Answered(buffer, waiting) == 0;
  }

  lemma LoopRepeatsUnfinished(buffer: string, st: Stream, waiting: nat)
    requires st.good && st.unread == buffer && waiting > 0 && |buffer| >= MIN_LEFT && !HasLine(buffer)
    requires Answers(buffer) && |buffer| < SIZE_RANGE
    ensures var o := Loop(st, waiting, |buffer|);
            && o.ending == Counted && o.fired > 0 && o.stream.unread == "" && o.left < SIZE_RANGE
            && (InMemory(waiting, |buffer|) ==> o.fired == waiting && o.left >= MIN_LEFT)
  {
    assert GetLine(st) == Stream("", false, buffer);
    TakenGrows(waiting - 1, |buffer| + 1, waiting + 1, |buffer| + 1);
    RepeatsLastLine(GetLine(st), waiting - 1, SIZE_RANGE - 1);
  }

  lemma LoopStopsUnfinished(buffer: string, st: Stream, waiting: nat)
    requires st.good && st.unread == buffer && waiting > 0 && |buffer| >= MIN_LEFT && !HasLine(buffer)
    requires |buffer| < SIZE_RANGE
    ensures Explains(buffer, waiting, Loop(st, waiting, |buffer|))
  {
    assert Rest(buffer, waiting) == buffer && Answered(buffer, waiting) == 0;
    if Answers(buffer) {
      LoopRepeatsUnfinished(buffer, st, waiting);
    } else {
      assert GetLine(st) == Stream("", false, buffer);
    }
  }

  lemma LoopTakesLine(buffer: string, st: Stream, waiting: nat)
    requires st.good && st.unread == buffer && CanAnswer(buffer, waiting)
    requires |buffer| < SIZE_RANGE
    ensures var tail := AfterLine(buffer);
            var o := Loop(Stream(tail, true, FirstLine(buffer)), waiting - 1, |tail|);
            Loop(st, waiting, |buffer|) == o.(fired := o.fired + 1)
  {
    assert GetLine(st) == Stream(AfterLine(buffer), true, FirstLine(buffer));
  }

  lemma ExplainsOneMore(buffer: string, waiting: nat, o: Outcome)
    requires CanAnswer(buffer, waiting) && Explains(AfterLine(buffer), waiting - 1, o)
    ensures Explains(buffer, waiting, o.(fired := o.fired + 1))
  {
    var tail := AfterLine(buffer);
    if InMemory(waiting, |buffer|) {
      InLessMemory(waiting, |buffer|, waiting - 1, |tail|);
    }
    assert Answered(buffer, waiting) == 1 + Answered(tail, waiting - 1);
    assert Rest(buffer, waiting) == Rest(tail, waiting - 1);
  }

  lemma {:induction false} LoopExplained(st: Stream, waiting: nat)
    requires st.good
    requires |st.unread| < SIZE_RANGE
    ensures Explains(st.unread, waiting, Loop(st, waiting, |st.unread|))
    decreases waiting
  {
    var buffer := st.unread;
    if CanAnswer(buffer, waiting) {
      var next := Stream(AfterLine(buffer), true, FirstLine(buffer));
      var o := Loop(next, waiting - 1, |next.unread|);
      LoopExplained(next, waiting - 1);
      assert Explains(buffer, waiting, o.(fired := o.fired + 1)) by {
        ExplainsOneMore(buffer, waiting, o);
      }
      LoopTakesLine(buffer, st, waiting);
    } else if waiting > 0 && |buffer| >= MIN_LEFT && !HasLine(buffer) {
      LoopStopsUnfinished(buffer, st, waiting);
    } else {
      LoopStopsAtLine(buffer, st, waiting);
    }
  }

  lemma RunExplained(buffer: string, waiting: nat)
    requires |buffer| < SIZE_RANGE
    ensures Explains(buffer, waiting, Run(buffer, waiting))
  {
    LoopExplained(Stream(buffer, true, ""), waiting);
  }

  /** A read answers just the complete lines at the front and keeps everything behind them exactly
      when it ends well; `left` is then the number of unread bytes and `consume` removes none. */
  lemma ReadIsExactIffClean(buffer: string, waiting: nat)
    requires |buffer| < SIZE_RANGE
    ensures var o := Run(buffer, waiting);
            (o.ending == Counted && o.fired == Answered(buffer, waiting)) <==> Clean(buffer, waiting)
    ensures var o := Run(buffer, waiting);
            Clean(buffer, waiting) ==>
              Surplus(o) == 0 && forall junk :: Kept(o, junk) == Rest(buffer, waiting)
  {
    RunExplained(buffer, waiting);
    if Clean(buffer, waiting) {
      assert Surplus(Run(buffer, waiting)) == 0;
    }
  }

  /** More requests are answered than complete lines have arrived exactly when the bytes stop between
      the two characters that end an answer; unless sizes are astronomical, all requests that wait are
      answered then. */
  lemma AnswersTooManyIff(buffer: string, waiting: nat)
    requires |buffer| < SIZE_RANGE
    ensures Run(buffer, waiting).fired > Answered(buffer, waiting)
            <==> !Clean(buffer, waiting) && CutBeforeLineFeed(Rest(buffer, waiting))
    ensures Run(buffer, waiting).fired > Answered(buffer, waiting) && InMemory(waiting, |buffer|) ==>
              Run(buffer, waiting).fired == waiting
  {
    RunExplained(buffer, waiting);
  }

  /** Two requests wait, four bytes of one answer have come, and both are reported delivered. */
  lemma AnswersTooManyExample()
    ensures Answered(":12\r", 2) == 0 && Run(":12\r", 2).fired == 2
  {
    var buffer := ":12\r";
    assert LineEnd(buffer) == 4;
    assert Answered(buffer, 2) == 0 && Rest(buffer, 2) == buffer;
    assert Taken(3, 5) == 15;
    AnswersTooManyIff(buffer, 2);
  }

  /** When the loop has ended by its count or its `break`, `consume` removes nothing if and only if
      the read ends well; otherwise `left` is more than there is, and it is asked for too much. */
  lemma ConsumesNothingIffClean(buffer: string, waiting: nat)
    requires InMemory(waiting, |buffer|)
    requires var o := Run(buffer, waiting); o.ending == Counted || o.ending == NoReturn
    ensures Surplus(Run(buffer, waiting)) == 0 <==> Clean(buffer, waiting)
    ensures Overrun(Run(buffer, waiting)) <==> !Clean(buffer, waiting)
  {
    RunExplained(buffer, waiting);
    SurplusOf(Run(buffer, waiting));
  }

  lemma SurplusOf(o: Outcome)
    requires |o.stream.unread| < SIZE_RANGE && o.left < SIZE_RANGE
    ensures Surplus(o) == 0 <==> o.left == |o.stream.unread|
    ensures o.left > |o.stream.unread| ==> Overrun(o)
  {
  }

  /** A complete line without a carriage return has the same effect as an unfinished one. */
  lemma OverrunExample()
    ensures !Clean("abc\n", 1) && Overrun(Run("abc\n", 1))
    ensures Surplus(Run("abc\n", 1)) == 0xFFFF_FFFF_FFFF_FFFC
  {
    var buffer := "abc\n";
    assert LineEnd(buffer) == 3;
    assert FirstLine(buffer) == "abc";
    assert Taken(2, 5) == 10;
    ConsumesNothingIffClean(buffer, 1);
    assert GetLine(Stream(buffer, true, "")) == Stream("", true, "abc");
  }

  // Cutting the stream -----------------------------------------------------------------------------

  lemma {:induction false} LineEndOfLonger(a: string, b: string)
    requires HasLine(a)
    ensures LineEnd(a + b) == LineEnd(a)
  {
    if a[0] != '\n' {
      assert (a + b)[1..] == a[1..] + b;
      LineEndOfLonger(a[1..], b);
    }
  }

  lemma LineOfLonger(a: string, b: string)
    requires HasLine(a)
    ensures HasLine(a + b)
    ensures FirstLine(a + b) == FirstLine(a) && AfterLine(a + b) == AfterLine(a) + b
  {
    LineEndOfLonger(a, b);
  }

  lemma CanAnswerLonger(a: string, b: string, waiting: nat)
    requires CanAnswer(a, waiting)
    ensures CanAnswer(a + b, waiting) && AfterLine(a + b) == AfterLine(a) + b
  {
    LineOfLonger(a, b);
  }

  lemma TakeLineOn(a: string, b: string, waiting: nat)
    requires CanAnswer(a, waiting)
    ensures Greedy(a, waiting) == OneMore(Greedy(AfterLine(a), waiting - 1))
    ensures Greedy(a + b, waiting) == OneMore(Greedy(AfterLine(a) + b, waiting - 1))
  {
    CanAnswerLonger(a, b, waiting);
  }

  /** The reading `all` of a buffer and more is the reading `first` of the buffer, read on. */
  predicate Continues(all: Reading, first: Reading, more: string, waiting: nat) {
    && first.answered <= all.answered <= waiting
    && Greedy(first.rest + more, waiting - first.answered)
       == Reading(all.answered - first.answered, all.rest)
  }

  lemma ContinuesOneMore(all: Reading, first: Reading, more: string, waiting: nat)
    requires waiting > 0 && Continues(all, first, more, waiting - 1)
    ensures Continues(OneMore(all), OneMore(first), more, waiting)
  {
  }

  /** Reading on after a first part comes to the same as reading both parts together. */
  lemma {:induction false} ReadOn(a: string, b: string, waiting: nat)
    ensures Continues(Greedy(a + b, waiting), Greedy(a, waiting), b, waiting)
  {
    if CanAnswer(a, waiting) {
      ReadOn(AfterLine(a), b, waiting - 1);
      ContinuesOneMore(Greedy(AfterLine(a) + b, waiting - 1), Greedy(AfterLine(a), waiting - 1), b, waiting);
      TakeLineOn(a, b, waiting);
    } else {
      assert Greedy(a, waiting) == Reading(0, a);
    }
  }

  function Join(chunks: seq<string>): string {
    if chunks == [] then "" else chunks[0] + Join(chunks[1..])
  }

  /** One read by the handler. */
  function ReadOnce(buffer: string, waiting: nat, leftover: string): (r: Reading)
    ensures r.answered <= waiting
  {
    var o := Run(buffer, waiting);
    Reading(o.fired, Kept(o, leftover))
  }

  lemma CleanReadIsGreedy(buffer: string, waiting: nat, leftover: string)
    requires Clean(buffer, waiting) && |buffer| < SIZE_RANGE
    ensures ReadOnce(buffer, waiting, leftover) == Greedy(buffer, waiting)
  {
    ReadIsExactIffClean(buffer, waiting);
  }

  function Then(first: Reading, next: Reading): Reading {
    Reading(first.answered + next.answered, next.rest)
  }

  /** A series of reads by the handler: how many requests are answered and what the buffer keeps. */
  function Reads(buffer: string, waiting: nat, chunks: seq<string>, leftover: string): (r: Reading)
    ensures r.answered <= waiting
    decreases |chunks|
  {
    if chunks == [] then Reading(0, buffer)
    else
      var g := ReadOnce(buffer + chunks[0], waiting, leftover);
      Then(g, Reads(g.rest, waiting - g.answered, chunks[1..], leftover))
  }

  predicate CleanCuts(buffer: string, waiting: nat, chunks: seq<string>)
    decreases |chunks|
  {
    chunks != [] ==>
      var b := buffer + chunks[0];
      Clean(b, waiting) && CleanCuts(Rest(b, waiting), waiting - Answered(b, waiting), chunks[1..])
  }

  lemma JoinFirst(buffer: string, chunks: seq<string>)
    requires chunks != []
    ensures buffer + Join(chunks) == (buffer + chunks[0]) + Join(chunks[1..])
  {
  }

  lemma CleanFirstRead(buffer: string, waiting: nat, chunks: seq<string>, leftover: string)
    requires chunks != []
    requires CleanCuts(buffer, waiting, chunks) && |buffer + Join(chunks)| < SIZE_RANGE
    ensures var g := Greedy(buffer + chunks[0], waiting);
            && ReadOnce(buffer + chunks[0], waiting, leftover) == g
            && CleanCuts(g.rest, waiting - g.answered, chunks[1..])
            && |g.rest + Join(chunks[1..])| < SIZE_RANGE
  {
    var b, more := buffer + chunks[0], Join(chunks[1..]);
    var g := Greedy(b, waiting);
    JoinFirst(buffer, chunks);
    CleanReadIsGreedy(b, waiting, leftover);
  }

  lemma ReadsFirst(buffer: string, waiting: nat, chunks: seq<string>, leftover: string, g: Reading)
    requires chunks != [] && ReadOnce(buffer + chunks[0], waiting, leftover) == g
    ensures Reads(buffer, waiting, chunks, leftover)
            == Then(g, Reads(g.rest, waiting - g.answered, chunks[1..], leftover))
  {
    hide ReadOnce;
  }

  lemma ReadingJoined(all: Reading, first: Reading, next: Reading, more: string, waiting: nat)
    requires Continues(all, first, more, waiting)
    requires next == Greedy(first.rest + more, waiting - first.answered)
    ensures all == Then(first, next)
  {
  }

  lemma ReadBoth(b: string, more: string, waiting: nat, g: Reading, next: Reading)
    requires g == Greedy(b, waiting) && next == Greedy(g.rest + more, waiting - g.answered)
    ensures Greedy(b + more, waiting) == Then(g, next)
    ensures Clean(g.rest + more, waiting - g.answered) ==> Clean(b + more, waiting)
  {
    ReadOn(b, more, waiting);
    ReadingJoined(Greedy(b + more, waiting), g, next, more, waiting);
  }

  lemma JoinOnly(buffer: string, chunks: seq<string>)
    requires |chunks| == 1
    ensures buffer + Join(chunks) == buffer + chunks[0]
  {
  }

  lemma NoMoreReads(g: Reading, waiting: nat, leftover: string)
    ensures Then(g, Reads(g.rest, waiting, [], leftover)) == g
  {
  }

  lemma {:induction false} CleanReadsJoin(buffer: string, waiting: nat, chunks: seq<string>, leftover: string)
    requires CleanCuts(buffer, waiting, chunks) && chunks != []
    requires |buffer + Join(chunks)| < SIZE_RANGE
    ensures Reads(buffer, waiting, chunks, leftover) == Greedy(buffer + Join(chunks), waiting)
    ensures Clean(buffer + Join(chunks), waiting)
    decreases |chunks|
  {
    hide Reads, Greedy, ReadOnce;
    var b, rest := buffer + chunks[0], chunks[1..];
    var g := Greedy(b, waiting);
    CleanFirstRead(buffer, waiting, chunks, leftover);
    ReadsFirst(buffer, waiting, chunks, leftover, g);
    if rest == [] {
      NoMoreReads(g, waiting - g.answered, leftover);
      JoinOnly(buffer, chunks);
    } else {
      JoinFirst(buffer, chunks);
      CleanReadsJoin(g.rest, waiting - g.answered, rest, leftover);
      ReadBoth(b, Join(rest), waiting, g, Greedy(g.rest + Join(rest), waiting - g.answered));
    }
  }

  /** However the reply stream is cut, as long as every read ends well, the same requests are answered
      and the same bytes kept as by one read of all of it. */
  lemma CutIndependence(buffer: string, waiting: nat, chunks: seq<string>, leftover: string)
    requires CleanCuts(buffer, waiting, chunks) && chunks != []
    requires |buffer + Join(chunks)| < SIZE_RANGE
    ensures var whole := Run(buffer + Join(chunks), waiting);
            Reads(buffer, waiting, chunks, leftover) == Reading(whole.fired, Kept(whole, leftover))
    ensures Clean(buffer + Join(chunks), waiting)
  {
    CleanReadsJoin(buffer, waiting, chunks, leftover);
    ReadIsExactIffClean(buffer + Join(chunks), waiting);
  }

  /** A stream of which every complete line is an answer. */
  predicate WellFormed(s: string) {
    HasLine(s) ==> Answers(FirstLine(s)) && WellFormed(AfterLine(s))
  }

  /** In such a stream only an unfinished line of four or more bytes spoils a read. */
  lemma {:induction false} WellFormedUnclean(s: string, waiting: nat)
    requires WellFormed(s)
    ensures !Clean(s, waiting) <==>
            Answered(s, waiting) < waiting && !HasLine(Rest(s, waiting)) && |Rest(s, waiting)| >= MIN_LEFT
  {
    if waiting > 0 && |s| >= MIN_LEFT && HasLine(s) {
      WellFormedUnclean(AfterLine(s), waiting - 1);
    }
  }

  // A stream of answers ----------------------------------------------------------------------------

  /** The unfinished line at the end of the text. */
  function Tail(s: string): string {
    if HasLine(s) then Tail(AfterLine(s)) else s
  }

  /** No read ends with an unfinished line of four bytes or more. */
  predicate ShortTails(buffer: string, chunks: seq<string>)
    decreases |chunks|
  {
    chunks != [] ==> |Tail(buffer + chunks[0])| < MIN_LEFT && ShortTails(buffer + chunks[0], chunks[1..])
  }

  lemma {:induction false} WellFormedFront(a: string, b: string)
    requires WellFormed(a + b)
    ensures WellFormed(a)
  {
    if HasLine(a) {
      LineOfLonger(a, b);
      WellFormedFront(AfterLine(a), b);
    }
  }

  /** Answering takes away whole lines only: what follows stays well-formed and ends the same way. */
  lemma {:induction false} AnsweringKeepsTail(a: string, b: string, waiting: nat)
    ensures Tail(Rest(a, waiting) + b) == Tail(a + b)
    ensures WellFormed(a + b) ==> WellFormed(Rest(a, waiting) + b)
  {
    if CanAnswer(a, waiting) {
      LineOfLonger(a, b);
      AnsweringKeepsTail(AfterLine(a), b, waiting - 1);
    }
  }

  lemma {:induction false} AnsweringKeepsShortTails(a: string, chunks: seq<string>, waiting: nat)
    requires ShortTails(a, chunks)
    ensures ShortTails(Rest(a, waiting), chunks)
    decreases waiting, |chunks|
  {
    if CanAnswer(a, waiting) {
      LineAwayKeepsShortTails(a, chunks);
      AnsweringKeepsShortTails(AfterLine(a), chunks, waiting - 1);
    }
  }

  lemma {:induction false} LineAwayKeepsShortTails(a: string, chunks: seq<string>)
    requires HasLine(a) && ShortTails(a, chunks)
    ensures ShortTails(AfterLine(a), chunks)
    decreases |chunks|
  {
    if chunks != [] {
      LineOfLonger(a, chunks[0]);
      LineAwayKeepsShortTails(a + chunks[0], chunks[1..]);
    }
  }

  lemma {:induction false} ShortTailIsClean(s: string, waiting: nat)
    requires WellFormed(s) && |Tail(s)| < MIN_LEFT
    ensures Clean(s, waiting)
  {
    if CanAnswer(s, waiting) {
      ShortTailIsClean(AfterLine(s), waiting - 1);
    }
  }

  lemma {:induction false} ShortTailsAreClean(buffer: string, waiting: nat, chunks: seq<string>)
    requires WellFormed(buffer + Join(chunks)) && ShortTails(buffer, chunks)
    ensures CleanCuts(buffer, waiting, chunks)
    decreases |chunks|
  {
    if chunks != [] {
      var b, more := buffer + chunks[0], Join(chunks[1..]);
      JoinFirst(buffer, chunks);
      WellFormedFront(b, more);
      ShortTailIsClean(b, waiting);
      AnsweringKeepsTail(b, more, waiting);
      AnsweringKeepsShortTails(b, chunks[1..], waiting);
      ShortTailsAreClean(Rest(b, waiting), waiting - Answered(b, waiting), chunks[1..]);
    }
  }

  /** A stream of answers may be cut anywhere but four bytes or more into a line: the requests
      answered and the bytes kept are those of one read of the whole. */
  lemma AnswersCutAnywhere(buffer: string, waiting: nat, chunks: seq<string>, leftover: string)
    requires WellFormed(buffer + Join(chunks)) && ShortTails(buffer, chunks) && chunks != []
    requires |buffer + Join(chunks)| < SIZE_RANGE
    ensures var whole := Run(buffer + Join(chunks), waiting);
            && Reads(buffer, waiting, chunks, leftover) == Reading(whole.fired, Kept(whole, leftover))
            && whole.fired == Answered(buffer + Join(chunks), waiting)
  {
    ShortTailsAreClean(buffer, waiting, chunks);
    CutIndependence(buffer, waiting, chunks, leftover);
    ReadIsExactIffClean(buffer + Join(chunks), waiting);
  }
}
