/** What failed writes leave behind: bytes of requests whose callbacks have heard false, in front of
    those that wait. The stream stays readable exactly while every failed write stops at the end of a
    request, and then the left-over requests are known by their callbacks. */
module RedisStale {
  import opened Wrappers
  import opened RedisPipeline
  import Resp
  import ReplyReader
  import Sequences

  /** For each of the two queues the callbacks of the left-over requests in front of its own. */
  datatype Stale = Stale(out: seq<Callback>, tmp: seq<Callback>)

  const NOTHING := Stale([], [])

  /** How many requests the first `sent` bytes touch. */
  function Touched(all: seq<Callback>, sent: nat): (k: nat)
    ensures k <= |all|
  {
    if all == [] || sent == 0 then 0
    else
      var first := |Resp.Encode(all[0].request)|;
      1 + Touched(all[1..], if sent < first then 0 else sent - first)
  }

  /** The left-over requests after a step: a swap exchanges them, a written batch leaves none, and a
      failed one those it has not touched. */
  function Next(l: Stale, s: State, step: Step): Stale {
    match step
    case WriteDone => l.(tmp := [])
    case WriteFailed(sent) =>
      var all := l.tmp + s.tmp.callbacks;
      l.(tmp := all[Touched(all, sent)..])
    case _ => if Swaps(s, step) then Stale(l.tmp, l.out) else l
  }

  function Track(l: Stale, s: State, run: seq<Step>): Stale
    requires Feasible(s, run)
    decreases |run|
  {
    if run == [] then l else Track(Next(l, s, run[0]), Exec(s, run[0]), run[1..])
  }

  // Boundaries -----------------------------------------------------------------------------------

  /** The first `sent` bytes are the first `k` requests. */
  predicate EndsAt(all: seq<Callback>, sent: nat, k: nat) {
    k <= |all| && sent == |Wire(all[..k])|
  }

  predicate AtBoundary(all: seq<Callback>, sent: nat) {
    exists k :: 0 <= k <= |all| && EndsAt(all, sent, k)
  }

  lemma WireConcat(a: seq<Callback>, b: seq<Callback>)
    ensures Wire(a + b) == Wire(a) + Wire(b)
  {
    hide Resp.EncodeAll;
    Resp.EncodeAllConcat(Requests(a), Requests(b));
    assert Requests(a + b) == Requests(a) + Requests(b);
  }

  lemma WireSplit(all: seq<Callback>, k: nat)
    requires k <= |all|
    ensures Wire(all) == Wire(all[..k]) + Wire(all[k..])
  {
    WireConcat(all[..k], all[k..]);
    assert all == all[..k] + all[k..];
  }

  lemma WireFirst(all: seq<Callback>)
    requires all != []
    ensures Wire(all) == Resp.Encode(all[0].request) + Wire(all[1..])
  {
    assert Requests(all)[0] == all[0].request;
    assert Requests(all)[1..] == Requests(all[1..]);
  }

  /** If there is a boundary after `sent` bytes it is where the touched requests end. */
  lemma {:induction false} BoundaryIsTouched(all: seq<Callback>, sent: nat, k: nat)
    requires EndsAt(all, sent, k)
    ensures EndsAt(all, sent, Touched(all, sent))
  {
    hide Wire;
    if k == 0 {
      assert all[..0] == [];
      WireOfNone();
      assert Touched(all, sent) == 0;
    } else {
      WireFirst(all[..k]);
      assert all[..k][0] == all[0] && all[..k][1..] == all[1..][..k - 1];
      var rest := sent - |Resp.Encode(all[0].request)|;
      BoundaryIsTouched(all[1..], rest, k - 1);
      var n := Touched(all[1..], rest);
      assert Touched(all, sent) == 1 + n;
      WireFirst(all[..1 + n]);
      assert all[..1 + n][0] == all[0] && all[..1 + n][1..] == all[1..][..n];
    }
  }

  /** The unsent bytes are the requests not touched if and only if the write stopped at a boundary. */
  lemma RestIsWholeIff(all: seq<Callback>, sent: nat)
    requires sent <= |Wire(all)|
    ensures Wire(all)[sent..] == Wire(all[Touched(all, sent)..]) <==> AtBoundary(all, sent)
  {
    hide Wire;
    var n := Touched(all, sent);
    WireSplit(all, n);
    if AtBoundary(all, sent) {
      var k :| 0 <= k <= |all| && EndsAt(all, sent, k);
      BoundaryIsTouched(all, sent, k);
      assert Wire(all)[sent..] == Wire(all[n..]);
    }
    if Wire(all)[sent..] == Wire(all[n..]) {
      assert EndsAt(all, sent, n);
    }
  }

  // The buffers ----------------------------------------------------------------------------------

  // The callbacks whose requests are still being written.
  function Unwritten(s: State): seq<Callback> {
    if s.work.writing > 0 then s.tmp.callbacks else []
  }

  /** Both buffers hold whole requests: the left-over ones and then those of the callbacks. */
  predicate Whole(s: State, l: Stale) {
    s.out.data == Wire(l.out + s.out.callbacks) && s.tmp.data == Wire(l.tmp + Unwritten(s))
  }

  /** A failed write stops between two requests. */
  predicate StopsBetween(s: State, l: Stale, step: Step) {
    step.WriteFailed? ==> AtBoundary(l.tmp + s.tmp.callbacks, step.sent)
  }

  predicate AlwaysWhole(s: State, l: Stale, run: seq<Step>)
    requires Feasible(s, run)
    decreases |run|
  {
    Whole(s, l) && (run != [] ==> AlwaysWhole(Exec(s, run[0]), Next(l, s, run[0]), run[1..]))
  }

  predicate AlwaysBetween(s: State, l: Stale, run: seq<Step>)
    requires Feasible(s, run)
    decreases |run|
  {
    run != [] ==>
      StopsBetween(s, l, run[0]) && AlwaysBetween(Exec(s, run[0]), Next(l, s, run[0]), run[1..])
  }

  lemma AppendWhole(q: Queue, stale: seq<Callback>, cb: Callback)
    requires q.data == Wire(stale + q.callbacks)
    ensures Append(q, cb).data == Wire(stale + Append(q, cb).callbacks)
  {
    hide Wire;
    WireAppend(stale + q.callbacks, cb);
    Sequences.Assoc(stale, q.callbacks, [cb]);
  }

  /** Most steps leave the two buffers alone or swap them. */
  lemma BuffersAfter(s: State, step: Step)
    requires Inv(s) && Enabled(s, step) && !step.Push? && !step.WriteDone? && !step.WriteFailed?
    ensures var t := Exec(s, step);
            if Swaps(s, step) then
              t.out == Queue(s.tmp.data, Unwritten(s)) && t.tmp.data == s.out.data && Unwritten(t) == s.out.callbacks
            else
              t.out == s.out && t.tmp.data == s.tmp.data && Unwritten(t) == Unwritten(s)
  {
    hide Wire, EndsWith, Callbacks;
  }

  lemma BuffersAfterWrite(s: State, step: Step)
    requires Inv(s) && Enabled(s, step) && (step.WriteDone? || step.WriteFailed?)
    ensures var t := Exec(s, step);
            && t.out == s.out && Unwritten(t) == [] && Unwritten(s) == s.tmp.callbacks
            && t.tmp.data == if step.WriteDone? then "" else s.tmp.data[step.sent..]
  {
    hide Wire, EndsWith, Callbacks;
  }

  lemma BuffersAfterPush(s: State, cb: Callback)
    requires Enabled(s, Push(cb))
    ensures var t := Exec(s, Push(cb));
            t.out == Append(s.out, cb) && t.tmp == s.tmp && Unwritten(t) == Unwritten(s)
  {
  }

  lemma StepWhole(s: State, l: Stale, step: Step)
    requires Inv(s) && Whole(s, l) && Enabled(s, step)
    ensures Whole(Exec(s, step), Next(l, s, step)) <==> StopsBetween(s, l, step)
  {
    if step.Push? {
      BuffersAfterPush(s, step.cb);
      AppendWhole(s.out, l.out, step.cb);
    } else if step.WriteDone? || step.WriteFailed? {
      StepWholeWrite(s, l, step);
    } else {
      StepWholeElse(s, l, step);
    }
  }

  lemma StepWholeWrite(s: State, l: Stale, step: Step)
    requires Inv(s) && Whole(s, l) && Enabled(s, step) && (step.WriteDone? || step.WriteFailed?)
    ensures Whole(Exec(s, step), Next(l, s, step)) <==> StopsBetween(s, l, step)
  {
    hide Wire, Exec;
    BuffersAfterWrite(s, step);
    var rest := Next(l, s, step).tmp;
    assert rest + [] == rest;
    if step.WriteDone? {
      WireOfNone();
    } else {
      RestIsWholeIff(l.tmp + s.tmp.callbacks, step.sent);
    }
  }

  lemma StepWholeElse(s: State, l: Stale, step: Step)
    requires Inv(s) && Whole(s, l) && Enabled(s, step) && !step.Push? && !step.WriteDone? && !step.WriteFailed?
    ensures Whole(Exec(s, step), Next(l, s, step))
  {
    hide Wire, Exec, Unwritten, Inv;
    BuffersAfter(s, step);
  }

  /** The buffers hold whole requests throughout a run, left-over ones in front, exactly when every
      failed write stops between two requests. */
  lemma {:induction false} WholeIffStopsBetween(s: State, l: Stale, run: seq<Step>)
    requires Inv(s) && Whole(s, l) && Feasible(s, run)
    ensures AlwaysWhole(s, l, run) <==> AlwaysBetween(s, l, run)
    decreases |run|
  {
    hide Whole, Inv, StopsBetween, Next;
    if run != [] {
      StepKeepsInv(s, run[0]);
      StepWhole(s, l, run[0]);
      if StopsBetween(s, l, run[0]) {
        WholeIffStopsBetween(Exec(s, run[0]), Next(l, s, run[0]), run[1..]);
      }
    }
  }

  lemma {:induction false} WholeAtEnd(s: State, l: Stale, run: seq<Step>)
    requires Feasible(s, run) && AlwaysWhole(s, l, run)
    ensures Whole(After(s, run), Track(l, s, run))
    decreases |run|
  {
    hide Whole;
    if run != [] {
      WholeAtEnd(Exec(s, run[0]), Next(l, s, run[0]), run[1..]);
    }
  }

  // Who the left-over requests belong to -------------------------------------------------------------

  /** The callbacks that have heard false, in order. */
  function Failed(f: seq<(Callback, bool)>): seq<Callback> {
    if f == [] then []
    else
      var front, last := Failed(f[..|f| - 1]), f[|f| - 1];
      if last.1 then front else front + [last.0]
  }

  /** The one can be had from the other by leaving callbacks out. */
  predicate Within(a: seq<Callback>, b: seq<Callback>)
    decreases |b|
  {
    || a == []
    || (b != []
        && (Within(a, b[..|b| - 1])
            || (a[|a| - 1] == b[|b| - 1] && Within(a[..|a| - 1], b[..|b| - 1]))))
  }

  lemma WithinOneMore(a: seq<Callback>, b: seq<Callback>, c: Callback)
    requires Within(a, b)
    ensures Within(a, b + [c]) && Within(a + [c], b + [c])
  {
    assert (b + [c])[..|b|] == b && (a + [c])[..|a|] == a;
  }

  lemma {:induction false} WithinMore(a: seq<Callback>, b: seq<Callback>, c: seq<Callback>)
    requires Within(a, b)
    ensures Within(a, b + c) && Within(a + c, b + c)
    decreases |c|
  {
    if c == [] {
      assert a + c == a && b + c == b;
    } else {
      var front, last := c[..|c| - 1], c[|c| - 1];
      assert c == front + [last];
      WithinMore(a, b, front);
      WithinOneMore(a, b + front, last);
      WithinOneMore(a + front, b + front, last);
      Sequences.Assoc(a, front, [last]);
      Sequences.Assoc(b, front, [last]);
    }
  }

  lemma {:induction false} WithinSuffix(a: seq<Callback>, b: seq<Callback>, k: nat)
    requires Within(a, b) && k <= |a|
    ensures Within(a[k..], b)
    decreases |b|
  {
    if k < |a| {
      var front := b[..|b| - 1];
      if Within(a, front) {
        WithinSuffix(a, front, k);
      } else {
        WithinSuffix(a[..|a| - 1], front, k);
        assert a[k..][..|a| - k - 1] == a[..|a| - 1][k..];
      }
    }
  }

  lemma {:induction false} WithinMembers(a: seq<Callback>, b: seq<Callback>, c: Callback)
    requires Within(a, b) && c in a
    ensures c in b
    decreases |b|
  {
    var front := b[..|b| - 1];
    if Within(a, front) {
      WithinMembers(a, front, c);
    } else if c != a[|a| - 1] {
      WithinMembers(a[..|a| - 1], front, c);
    }
  }

  lemma FailedOneMore(f: seq<(Callback, bool)>, c: Callback, ok: bool)
    ensures Failed(f + [(c, ok)]) == if ok then Failed(f) else Failed(f) + [c]
  {
    assert (f + [(c, ok)])[..|f|] == f;
  }

  lemma {:induction false} FailedAfterAnswers(f: seq<(Callback, bool)>, cbs: seq<Callback>)
    ensures Failed(f + Fire(cbs, true)) == Failed(f)
    decreases |cbs|
  {
    if cbs == [] {
      assert f + Fire(cbs, true) == f;
    } else {
      var front, last := cbs[..|cbs| - 1], cbs[|cbs| - 1];
      FailedAfterAnswers(f, front);
      FailedOneMore(f + Fire(front, true), last, true);
      assert f + Fire(cbs, true) == f + Fire(front, true) + [(last, true)];
    }
  }

  lemma {:induction false} FailedWereFired(f: seq<(Callback, bool)>, c: Callback)
    requires c in Failed(f)
    ensures c in Callbacks(f)
  {
    var front, last := f[..|f| - 1], f[|f| - 1];
    if c in Failed(front) {
      FailedWereFired(front, c);
      var i :| 0 <= i < |front| && Callbacks(front)[i] == c;
      assert Callbacks(f)[i] == c;
    } else {
      assert Callbacks(f)[|f| - 1] == c;
    }
  }

  // The callbacks of a failed batch that `drop` has still to call.
  function Doomed(s: State): seq<Callback> {
    if s.work.failing > 0 || s.work.dropping > 0 then s.tmp.callbacks else []
  }

  /** The left-over requests are, in order, ones whose callbacks have heard false, or in the batch
      being dropped are about to. */
  predicate HeardFalse(s: State, l: Stale) {
    Within(l.out, Failed(s.fired)) && Within(l.tmp, Failed(s.fired) + Doomed(s))
  }

  lemma HeardAfterFailure(s: State, l: Stale, sent: nat)
    requires Inv(s) && HeardFalse(s, l) && Enabled(s, WriteFailed(sent))
    ensures HeardFalse(Exec(s, WriteFailed(sent)), Next(l, s, WriteFailed(sent)))
  {
    hide Within, Failed, Wire, EndsWith, Callbacks;
    var t := Exec(s, WriteFailed(sent));
    var all := l.tmp + s.tmp.callbacks;
    assert Doomed(s) == [] && Doomed(t) == s.tmp.callbacks;
    assert Failed(s.fired) + [] == Failed(s.fired);
    WithinMore(l.tmp, Failed(s.fired), s.tmp.callbacks);
    WithinSuffix(all, Failed(s.fired) + s.tmp.callbacks, Touched(all, sent));
  }

  lemma HeardAfterDrop(s: State, l: Stale)
    requires Inv(s) && HeardFalse(s, l) && Enabled(s, DropOne)
    ensures HeardFalse(Exec(s, DropOne), l)
  {
    hide Within, Failed, Wire, EndsWith, Callbacks;
    var cbs := s.tmp.callbacks;
    FailedOneMore(s.fired, cbs[0], false);
    Sequences.Assoc(Failed(s.fired), [cbs[0]], cbs[1..]);
    assert [cbs[0]] + cbs[1..] == cbs;
    WithinMore(l.out, Failed(s.fired), [cbs[0]]);
  }

  lemma HeardAfterChunk(s: State, l: Stale, chunk: string, leftover: string)
    requires Inv(s) && HeardFalse(s, l) && Enabled(s, ReadChunk(chunk, leftover))
    ensures HeardFalse(Exec(s, ReadChunk(chunk, leftover)), l)
  {
    HeardAfterOutcome(s, l, chunk, leftover, ReplyReader.Run(s.input + chunk, |s.tmp.callbacks|));
  }

  lemma HeardAfterOutcome(s: State, l: Stale, chunk: string, leftover: string, o: ReplyReader.Outcome)
    requires Inv(s) && HeardFalse(s, l) && s.work.reading > 0 && o.fired + o.waiting == |s.tmp.callbacks|
    ensures HeardFalse(TakeOutcome(s, chunk, leftover, o), l)
  {
    hide Within, Failed, Wire, EndsWith, Callbacks;
    var t := TakeOutcome(s, chunk, leftover, o);
    assert Doomed(s) == [];
    assert Failed(s.fired) + [] == Failed(s.fired);
    FailedAfterAnswers(s.fired, s.tmp.callbacks[..o.fired]);
    WithinMore(l.tmp, Failed(s.fired), Doomed(t));
  }

  /** Every other step calls nobody back. */
  lemma QuietStep(s: State, step: Step)
    requires Inv(s) && Enabled(s, step) && !step.WriteFailed? && !step.DropOne? && !step.ReadChunk?
    ensures Exec(s, step).fired == s.fired
    ensures Doomed(Exec(s, step)) == Doomed(s) || Doomed(s) == []
    ensures Swaps(s, step) ==> Doomed(s) == []
  {
    hide Wire, EndsWith, Callbacks;
  }

  lemma HeardAfterQuiet(s: State, l: Stale, step: Step)
    requires Inv(s) && HeardFalse(s, l)
    requires Enabled(s, step) && !step.WriteFailed? && !step.DropOne? && !step.ReadChunk?
    ensures HeardFalse(Exec(s, step), Next(l, s, step))
  {
    hide Within, Failed, Inv, Exec, Swaps, Doomed;
    QuietStep(s, step);
    var heard, t := Failed(s.fired), Exec(s, step);
    if Doomed(s) == [] {
      assert heard + [] == heard;
      WithinMore(l.tmp, heard, Doomed(t));
      WithinMore(l.out, heard, Doomed(t));
    }
    NothingWithin(heard + Doomed(t));
  }

  lemma NothingWithin(b: seq<Callback>)
    ensures Within([], b)
  {
  }

  lemma StepHeard(s: State, l: Stale, step: Step)
    requires Inv(s) && HeardFalse(s, l) && Enabled(s, step)
    ensures HeardFalse(Exec(s, step), Next(l, s, step))
  {
    hide HeardFalse, Inv, Exec;
    match step {
      case WriteFailed(sent) => HeardAfterFailure(s, l, sent);
      case DropOne => HeardAfterDrop(s, l);
      case ReadChunk(chunk, leftover) => HeardAfterChunk(s, l, chunk, leftover);
      case _ => HeardAfterQuiet(s, l, step);
    }
  }

  /** In every run, wherever its writes fail, the left-over requests are ones whose callbacks heard
      false. */
  lemma {:induction false} StaleHeardFalse(s: State, l: Stale, run: seq<Step>)
    requires Inv(s) && HeardFalse(s, l) && Feasible(s, run)
    ensures HeardFalse(After(s, run), Track(l, s, run))
    decreases |run|
  {
    hide HeardFalse, Inv, Next;
    if run != [] {
      StepKeepsInv(s, run[0]);
      StepHeard(s, l, run[0]);
      StaleHeardFalse(Exec(s, run[0]), Next(l, s, run[0]), run[1..]);
    }
  }

  // What the server reads ----------------------------------------------------------------------------

  lemma StaleWereAccepted(s: State, stale: seq<Callback>)
    requires Ordered(s) && Within(stale, Failed(s.fired))
    ensures forall cb :: cb in stale ==> cb in s.accepted
  {
    forall cb | cb in stale
      ensures cb in s.accepted
    {
      WithinMembers(stale, Failed(s.fired), cb);
      FailedWereFired(s.fired, cb);
      assert cb in Callbacks(s.fired) + s.tmp.callbacks + s.out.callbacks;
    }
  }

  lemma WholeDecodes(s: State, l: Stale)
    requires Inv(s) && Whole(s, l) && HeardFalse(s, l)
    requires forall cb :: cb in s.accepted ==> Resp.Fits(cb.request)
    ensures Resp.Decode(s.out.data) == Some(Requests(l.out + s.out.callbacks))
    ensures s.work.writing > 0 ==>
              Within(l.tmp, Failed(s.fired)) && Resp.Decode(s.tmp.data) == Some(Requests(l.tmp + s.tmp.callbacks))
  {
    hide Resp.Decode, Wire, Failed, Within;
    WaitingWereAccepted(s);
    StaleWereAccepted(s, l.out);
    FittingDecodes(l.out + s.out.callbacks);
    if s.work.writing > 0 {
      assert Failed(s.fired) + Doomed(s) == Failed(s.fired);
      StaleWereAccepted(s, l.tmp);
      FittingDecodes(l.tmp + s.tmp.callbacks);
    }
  }

  /** When failed writes stop between requests, the open queue and the batch handed to the socket
      decode to requests of which those that wait are the last; before them come, in order, only
      requests whose callbacks have already heard false. */
  lemma BatchDecodesBehindStale(s: State, l: Stale, run: seq<Step>)
    requires Inv(s) && Whole(s, l) && HeardFalse(s, l) && Feasible(s, run) && AlwaysBetween(s, l, run)
    requires forall cb :: cb in After(s, run).accepted ==> Resp.Fits(cb.request)
    ensures var t, k := After(s, run), Track(l, s, run);
            && Resp.Decode(t.out.data) == Some(Requests(k.out + t.out.callbacks))
            && Within(k.out, Failed(t.fired))
            && (t.work.writing > 0 ==>
                  && Resp.Decode(t.tmp.data) == Some(Requests(k.tmp + t.tmp.callbacks))
                  && Within(k.tmp, Failed(t.fired)))
  {
    WholeIffStopsBetween(s, l, run);
    WholeAtEnd(s, l, run);
    StaleHeardFalse(s, l, run);
    RunKeepsInv(s, run);
    WholeDecodes(After(s, run), Track(l, s, run));
  }

  /** A new connection has nothing left over. */
  lemma StartWhole(s: State)
    requires s == INITIAL
    ensures Whole(s, NOTHING) && HeardFalse(s, NOTHING)
  {
    WireOfNone();
    assert NOTHING.out + s.out.callbacks == [] && NOTHING.tmp + Unwritten(s) == [];
  }

  /** A message may end in the bytes of a request: what is left unsent then reads as a request although
      the write stopped inside another one. */
  lemma LooksWholeExample(c: string, id: nat)
    requires |c| < Resp.UINT_RANGE
    ensures var m := "x\r\n" + Resp.Encode(Resp.Ping)[..|Resp.Encode(Resp.Ping)| - 2];
            var data := Resp.Encode(Resp.Publish(c, m));
            var sent := |data| - |Resp.Encode(Resp.Ping)|;
            && data[sent..] == Resp.Encode(Resp.Ping)
            && !AtBoundary([Callback(Resp.Publish(c, m), id)], sent)
  {
    var ping := Resp.Encode(Resp.Ping);
    var m := "x\r\n" + ping[..|ping| - 2];
    var all := [Callback(Resp.Publish(c, m), id)];
    var data := Resp.Encode(Resp.Publish(c, m));
    var sent := |data| - |ping|;
    assert data == "*3\r\n" + "$7\r\nPUBLISH\r\n" + Resp.Bulk(c) + Resp.Bulk(m);
    assert Resp.Bulk(m) == "$" + Resp.Length(|m|) + Resp.CRLF + m + Resp.CRLF;
    assert ping == ping[..|ping| - 2] + Resp.CRLF;
    forall k | 0 <= k <= |all|
      ensures !EndsAt(all, sent, k)
    {
      WireFirst(all);
      WireOfNone();
      assert all[1..] == [] && (k == 0 ==> all[..k] == []) && (k == 1 ==> all[..k] == all);
    }
  }
}
