/** The connection object itself: two heap-allocated queues that change roles, the input buffer and
    the flags, updated by the methods of the class. Every method is the same as a run of steps of
    the pipeline that nothing interrupts. */
module RedisConnection {
  import opened Wrappers
  import opened RedisPipeline
  import Resp
  import ReplyReader

  // Handlers as runs -----------------------------------------------------------------------------

  function Repeat(n: nat): seq<Step> {
    if n == 0 then [DropUnlock] else [DropOne] + Repeat(n - 1)
  }

  /** `drop`: every request of the batch is answered with false, then the mutex is released. */
  function Dropped(s: State): State
    requires s.work.dropping > 0
  {
    s.(fired := s.fired + Fire(s.tmp.callbacks, false), tmp := s.tmp.(callbacks := []),
       busy := false, work := s.work.(dropping := s.work.dropping - 1), restarting := s.restarting + 1)
  }

  /** `reconnect`: closed, the batch dropped, a connect under way. */
  function Reconnected(s: State): State
    requires s.work.failing > 0
  {
    Exec(Dropped(Exec(s, Close)), Restart)
  }

  function ReconnectRun(s: State): seq<Step> {
    [Close] + (Repeat(|s.tmp.callbacks|) + [Restart])
  }

  /** What `handle_read` does once its loop is over. */
  function Finished(t: State): State
    requires t.io.None?
  {
    if t.work.failing > 0 then Reconnected(t)
    else if t.work.settling > 0 then Exec(t, Settle)
    else t
  }

  /** `handle_read` from its first line to its last. */
  function AfterRead(s: State, chunk: string, leftover: string): State
    requires s.io.None? && s.work.reading > 0
  {
    Finished(HandleChunk(s, chunk, leftover))
  }

  function FinishRun(t: State): seq<Step> {
    if t.work.failing > 0 then ReconnectRun(t) else if t.work.settling > 0 then [Settle] else []
  }

  function ReadRun(s: State, chunk: string, leftover: string): seq<Step>
    requires s.work.reading > 0
  {
    [ReadChunk(chunk, leftover)] + FinishRun(HandleChunk(s, chunk, leftover))
  }

  function PublishRun(s: State, cb: Callback): seq<Step> {
    if s.connected then [Check(cb), Push(cb), TryWrite] else [Check(cb)]
  }

  lemma {:induction false} DropIsRun(s: State)
    requires s.work.dropping > 0
    ensures Feasible(s, Repeat(|s.tmp.callbacks|))
    ensures After(s, Repeat(|s.tmp.callbacks|)) == Dropped(s)
    decreases |s.tmp.callbacks|
  {
    var cbs := s.tmp.callbacks;
    if cbs == [] {
      StepThenRun(s, DropUnlock, []);
      assert Fire(cbs, false) == [];
    } else {
      var t := Exec(s, DropOne);
      DropIsRun(t);
      StepThenRun(s, DropOne, Repeat(|cbs| - 1));
      DroppedOneLater(s);
    }
  }

  lemma DroppedOneLater(s: State)
    requires s.work.dropping > 0 && s.tmp.callbacks != []
    ensures Dropped(Exec(s, DropOne)) == Dropped(s)
  {
    FireFirst(s.fired, s.tmp.callbacks, false);
  }

  lemma FireFirst(fired: seq<(Callback, bool)>, cbs: seq<Callback>, ok: bool)
    requires cbs != []
    ensures fired + [(cbs[0], ok)] + Fire(cbs[1..], ok) == fired + Fire(cbs, ok)
  {
  }

  lemma FireNext(fired: seq<(Callback, bool)>, cbs: seq<Callback>, done: nat, ok: bool)
    requires done < |cbs|
    ensures fired + Fire(cbs[..done], ok) + [(cbs[done..][0], ok)] == fired + Fire(cbs[..done + 1], ok)
    ensures cbs[done..][1..] == cbs[done + 1..]
  {
  }

  lemma ReconnectIsRun(s: State)
    requires s.work.failing > 0
    ensures Feasible(s, ReconnectRun(s)) && After(s, ReconnectRun(s)) == Reconnected(s)
  {
    var run := Repeat(|s.tmp.callbacks|);
    DropIsRun(Exec(s, Close));
    OneStepMore(Exec(s, Close), run, Restart);
    StepThenRun(s, Close, run + [Restart]);
  }

  lemma FinishIsRun(t: State)
    requires t.io.None?
    ensures Feasible(t, FinishRun(t)) && After(t, FinishRun(t)) == Finished(t)
  {
    if t.work.failing > 0 {
      ReconnectIsRun(t);
    } else if t.work.settling > 0 {
      StepThenRun(t, Settle, []);
      assert [Settle] + [] == [Settle];
    }
  }

  lemma ReadIsRun(s: State, chunk: string, leftover: string)
    requires s.work.reading > 0 && s.io.None?
    ensures Feasible(s, ReadRun(s, chunk, leftover))
    ensures After(s, ReadRun(s, chunk, leftover)) == AfterRead(s, chunk, leftover)
  {
    var t := HandleChunk(s, chunk, leftover);
    FinishIsRun(t);
    StepThenRun(s, ReadChunk(chunk, leftover), FinishRun(t));
  }

  lemma OutcomeWork(s: State, chunk: string, leftover: string, o: ReplyReader.Outcome)
    requires Inv(s) && s.work.reading > 0 && o.fired + o.waiting == |s.tmp.callbacks|
    ensures var t := TakeOutcome(s, chunk, leftover, o);
            && Inv(t) && (t.work.failing > 0 <==> o.ending == ReplyReader.Unknown)
            && (t.work.settling > 0
                <==> o.waiting == 0 && (o.ending == ReplyReader.Counted || o.ending == ReplyReader.NoReturn))
  {
    OutcomeKeepsInv(s, chunk, leftover, o);
  }

  // The object -----------------------------------------------------------------------------------

  class RequestQueue {
    var data: string
    var callbacks: seq<Callback>

    constructor ()
      ensures data == "" && callbacks == []
    {
      data, callbacks := "", [];
    }
  }

  class Connection {
    var isConnected: bool
    var outBuf: RequestQueue
    var outTmpBuf: RequestQueue
    var inBuf: string
    var busy: bool
    var fired: seq<(Callback, bool)>     // the calls of callbacks, in order
    var refused: seq<Callback>           // called with false at once, never queued

    ghost var work: Work
    ghost var restarting: nat
    ghost var connecting: nat
    ghost var accepted: seq<Callback>
    ghost var received: string

    ghost function View(): State
      reads this, outBuf, outTmpBuf
    {
      State(isConnected, Queue(outBuf.data, outBuf.callbacks), Queue(outTmpBuf.data, outTmpBuf.callbacks),
            inBuf, busy, work, restarting, connecting, None, multiset{}, accepted, fired, refused, received)
    }

    ghost predicate Valid()
      reads this, outBuf, outTmpBuf
    {
      outBuf != outTmpBuf && Inv(View())
    }

    constructor ()
      ensures Valid() && View() == INITIAL
      ensures fresh(outBuf) && fresh(outTmpBuf)
    {
      isConnected := false;
      outBuf := new RequestQueue();
      outTmpBuf := new RequestQueue();
      inBuf, busy, fired, refused := "", false, [], [];
      work, restarting, connecting, accepted, received := IDLE, 0, 0, [], "";
      new;
      StartInv(View());
    }

    method Write(alreadyLocked: bool)
      requires outBuf != outTmpBuf && (alreadyLocked ==> busy)
      modifies this`busy, this`outBuf, this`outTmpBuf, this`work
      ensures {outBuf, outTmpBuf} == old({outBuf, outTmpBuf}) && outBuf != outTmpBuf
      ensures View() == RedisPipeline.Write(old(View()), alreadyLocked)
    {
      if !alreadyLocked {
        if busy {
          return;
        }
        busy := true;
      }
      outBuf, outTmpBuf := outTmpBuf, outBuf;
      work := work.(writing := work.writing + 1);
    }

    // `publish` and `ping` differ in the request they append.
    method Send(request: Resp.Request, id: nat)
      requires Valid()
      modifies this, outBuf
      ensures Valid() && {outBuf, outTmpBuf} == old({outBuf, outTmpBuf})
      ensures var run := PublishRun(old(View()), Callback(request, id));
              Feasible(old(View()), run) && View() == After(old(View()), run)
    {
      ghost var s := View();
      var cb := Callback(request, id);
      if !isConnected {
        refused := refused + [cb];
        SendIsRun(s, cb);
        return;
      }
      var text := Resp.Encode(request);
      Resp.FitsReservation(request);
      assert |text| <= Resp.Reserved(request);
      outBuf.data := outBuf.data + text;
      outBuf.callbacks := outBuf.callbacks + [cb];
      accepted := accepted + [cb];
      Write(false);
      SendIsRun(s, cb);
    }

    method Publish(channel: string, message: string, id: nat)
      requires Valid()
      modifies this, outBuf
      ensures Valid() && {outBuf, outTmpBuf} == old({outBuf, outTmpBuf})
      ensures var run := PublishRun(old(View()), Callback(Resp.Publish(channel, message), id));
              Feasible(old(View()), run) && View() == After(old(View()), run)
    {
      Send(Resp.Publish(channel, message), id);
    }

    method Ping(id: nat)
      requires Valid()
      modifies this, outBuf
      ensures Valid() && {outBuf, outTmpBuf} == old({outBuf, outTmpBuf})
      ensures var run := PublishRun(old(View()), Callback(Resp.Ping, id));
              Feasible(old(View()), run) && View() == After(old(View()), run)
    {
      Send(Resp.Ping, id);
    }

    // Resolving and connecting are Asio's; the outcome is `HandleConnect` or nothing.
    method Connect()
      requires Valid()
      modifies this`connecting
      ensures Valid() && View() == Exec(old(View()), RedisPipeline.Connect)
    {
      connecting := connecting + 1;
    }

    method HandleConnect()
      requires Valid() && connecting > 0
      modifies this
      ensures Valid() && {outBuf, outTmpBuf} == old({outBuf, outTmpBuf})
      ensures View() == Exec(old(View()), Connected)
    {
      ghost var s := View();
      isConnected := true;
      connecting := connecting - 1;
      if outBuf.callbacks != [] {
        Write(false);
      }
      StepKeepsInv(s, Connected);
    }

    method HandleWrite(ok: bool, sent: nat)
      requires Valid() && work.writing > 0 && sent <= |outTmpBuf.data|
      modifies this, outTmpBuf
      ensures Valid() && {outBuf, outTmpBuf} == old({outBuf, outTmpBuf})
      ensures View() == if ok then Exec(old(View()), WriteDone)
                        else Reconnected(Exec(old(View()), WriteFailed(sent)))
    {
      if ok {
        EndWrite();
      } else {
        FailWrite(sent);
        Reconnect();
      }
    }

    // The whole batch is written, and the read of the answers starts.
    method EndWrite()
      requires Valid() && work.writing > 0
      modifies this`work, outTmpBuf`data
      ensures Valid() && View() == Exec(old(View()), WriteDone)
    {
      StepKeepsInv(View(), WriteDone);
      outTmpBuf.data := "";
      work := work.(writing := work.writing - 1, reading := work.reading + 1);
    }

    // Some bytes were sent; they are gone from the buffer.
    method FailWrite(sent: nat)
      requires Valid() && work.writing > 0 && sent <= |outTmpBuf.data|
      modifies this`work, outTmpBuf`data
      ensures Valid() && View() == Exec(old(View()), WriteFailed(sent))
    {
      StepKeepsInv(View(), WriteFailed(sent));
      outTmpBuf.data := outTmpBuf.data[sent..];
      work := work.(writing := work.writing - 1, failing := work.failing + 1);
    }

    method HandleRead(ok: bool, chunk: string, leftover: string)
      requires Valid() && work.reading > 0
      modifies this, outTmpBuf
      ensures Valid() && {outBuf, outTmpBuf} == old({outBuf, outTmpBuf})
      ensures View() == if ok then AfterRead(old(View()), chunk, leftover)
                        else Reconnected(Exec(old(View()), ReadFailed))
    {
      if ok {
        var ending, i := TakeAnswers(chunk, leftover);
        FinishRead(ending, i);
      } else {
        FailRead();
        Reconnect();
      }
    }

    ghost method FailRead()
      requires Valid() && work.reading > 0
      modifies this`work
      ensures Valid() && View() == Exec(old(View()), ReadFailed)
    {
      StepKeepsInv(View(), ReadFailed);
      work := work.(reading := work.reading - 1, failing := work.failing + 1);
    }

    // `handle_read` up to its last look at the queue.
    method TakeAnswers(chunk: string, leftover: string) returns (ending: ReplyReader.Ending, i: nat)
      requires Valid() && work.reading > 0
      modifies this`inBuf, this`work, this`received, this`fired, outTmpBuf`callbacks
      ensures Valid() && View() == HandleChunk(old(View()), chunk, leftover)
      ensures work.failing > 0 <==> ending == ReplyReader.Unknown
      ensures work.settling > 0 <==>
                i == 0 && (ending == ReplyReader.Counted || ending == ReplyReader.NoReturn)
    {
      ghost var s := View();
      var left, stream;
      ghost var done;
      ending, i, left, stream, done := Receive(chunk);
      ghost var o := ReplyReader.Outcome(done, i, left, stream, ending);
      EndLoop(ending, i, left, stream, leftover, s, chunk, done);
      OutcomeWork(s, chunk, leftover, o);
    }

    // The chunk is put behind what the buffer holds, and answers are cut from its front.
    method Receive(chunk: string)
      returns (ending: ReplyReader.Ending, i: nat, left: nat, stream: ReplyReader.Stream, ghost done: nat)
      requires outBuf != outTmpBuf
      modifies this`inBuf, this`received, this`fired, outTmpBuf`callbacks
      ensures done + i == |old(outTmpBuf.callbacks)|
      ensures ReplyReader.Run(old(inBuf) + chunk, |old(outTmpBuf.callbacks)|)
              == ReplyReader.Outcome(done, i, left, stream, ending)
      ensures Progress(old(fired), old(outTmpBuf.callbacks), done, true)
      ensures View() == old(View()).(fired := fired, tmp := old(View()).tmp.(callbacks := outTmpBuf.callbacks),
                                     input := old(inBuf) + chunk, received := old(received) + chunk)
    {
      received := received + chunk;
      inBuf := inBuf + chunk;
      ending, i, left, stream, done := AnswerLoop();
    }

    // Callbacks `was` and the first `done` of the batch have been called.
    ghost predicate Progress(was: seq<(Callback, bool)>, cbs: seq<Callback>, done: nat, ok: bool)
      reads this, outTmpBuf
    {
      && done <= |cbs| && outTmpBuf.callbacks == cbs[done..]
      && fired == was + Fire(cbs[..done], ok)
    }

    // One callback is called and taken off the batch.
    method FireFront(ghost was: seq<(Callback, bool)>, ghost cbs: seq<Callback>, ghost done: nat, ok: bool)
      requires Progress(was, cbs, done, ok) && done < |cbs|
      modifies this`fired, outTmpBuf`callbacks
      ensures Progress(was, cbs, done + 1, ok)
    {
      FireNext(was, cbs, done, ok);
      fired := fired + [(outTmpBuf.callbacks[0], ok)];
      outTmpBuf.callbacks := outTmpBuf.callbacks[1..];
    }

    /** The loop of `handle_read`, one line of the input buffer and one callback at a time. */
    method AnswerLoop()
      returns (ending: ReplyReader.Ending, i: nat, left: nat, stream: ReplyReader.Stream, ghost done: nat)
      modifies this`fired, outTmpBuf`callbacks
      ensures done + i == |old(outTmpBuf.callbacks)|
      ensures ReplyReader.Run(inBuf, done + i) == ReplyReader.Outcome(done, i, left, stream, ending)
      ensures Progress(old(fired), old(outTmpBuf.callbacks), done, true)
    {
      hide ReplyReader.Underway, ReplyReader.Loop;
      ghost var cbs, was := outTmpBuf.callbacks, fired;
      ghost var whole := ReplyReader.Run(inBuf, |cbs|);
      i, left, done := |outTmpBuf.callbacks|, |inBuf|, 0;
      stream := ReplyReader.Stream(inBuf, true, "");
      ending := ReplyReader.Counted;
      ReplyReader.UnderwayFromStart(inBuf, i);
      while i > 0 && left >= ReplyReader.MIN_LEFT
        invariant done + i == |cbs| && ending == ReplyReader.Counted
        invariant Progress(was, cbs, done, true)
        invariant ReplyReader.Underway(whole, done, stream, i, left)
        modifies this`fired, outTmpBuf`callbacks
      {
        stream, ending := AnswerOne(whole, was, cbs, done, stream, i, left);
        if ending != ReplyReader.Counted {
          return;
        }
        left := ReplyReader.Wrap(left - (|stream.line| + 1));
        i, done := i - 1, done + 1;
      }
      ReplyReader.UnderwayAtEnd(whole, done, stream, i, left);
    }

    // One turn of the loop, with the callback it calls.
    method AnswerOne(ghost whole: ReplyReader.Outcome, ghost was: seq<(Callback, bool)>, ghost cbs: seq<Callback>,
                     ghost done: nat, stream: ReplyReader.Stream, i: nat, left: nat)
      returns (next: ReplyReader.Stream, ending: ReplyReader.Ending)
      requires Progress(was, cbs, done, true) && done + i == |cbs| && i > 0 && left >= ReplyReader.MIN_LEFT
      requires ReplyReader.Underway(whole, done, stream, i, left)
      modifies this`fired, outTmpBuf`callbacks
      ensures ending == ReplyReader.Counted ==>
                && Progress(was, cbs, done + 1, true)
                && ReplyReader.Underway(whole, done + 1, next, i - 1,
                                        ReplyReader.Wrap(left - (|next.line| + 1)))
      ensures ending != ReplyReader.Counted ==>
                && Progress(was, cbs, done, true)
                && whole == ReplyReader.Outcome(done, i, left, next, ending)
    {
      next, ending := ReplyReader.Turn(whole, done, stream, i, left);
      if ending == ReplyReader.Counted {
        FireFront(was, cbs, done, true);
      }
    }

    // What becomes of the input buffer, and whether to read on, settle or reconnect.
    method EndLoop(ending: ReplyReader.Ending, i: nat, left: nat, stream: ReplyReader.Stream, leftover: string,
                   ghost s: State, ghost chunk: string, ghost done: nat)
      requires done + i == |s.tmp.callbacks| && Progress(s.fired, s.tmp.callbacks, done, true)
      requires work.reading > 0
      requires View() == s.(fired := fired, tmp := s.tmp.(callbacks := outTmpBuf.callbacks),
                            input := s.input + chunk, received := s.received + chunk)
      modifies this`inBuf, this`work
      ensures View() == TakeOutcome(s, chunk, leftover, ReplyReader.Outcome(done, i, left, stream, ending))
    {
      inBuf := stream.unread;
      ghost var w := work.(reading := work.reading - 1);
      if ending == ReplyReader.EmptyLine {
        work := w.(dead := w.dead + 1);
      } else if ending == ReplyReader.Unknown {
        work := w.(failing := w.failing + 1);
      } else {
        var surplus := ReplyReader.Wrap(|stream.unread| - left);
        inBuf := if surplus > |stream.unread| then leftover else stream.unread[surplus..];
        work := if i > 0 then work else w.(settling := w.settling + 1);
      }
    }

    method FinishRead(ending: ReplyReader.Ending, i: nat)
      requires Valid() && (work.failing > 0 <==> ending == ReplyReader.Unknown)
      requires work.settling > 0 <==> i == 0 && (ending == ReplyReader.Counted || ending == ReplyReader.NoReturn)
      modifies this, outTmpBuf
      ensures Valid() && {outBuf, outTmpBuf} == old({outBuf, outTmpBuf})
      ensures View() == Finished(old(View()))
    {
      ghost var s := View();
      if ending == ReplyReader.Unknown {
        Reconnect();
      } else if ending != ReplyReader.EmptyLine && i == 0 {
        StepKeepsInv(s, Settle);
        work := work.(settling := work.settling - 1);
        if outBuf.callbacks == [] {
          busy := false;
        } else {
          Write(true);
        }
      }
    }

    method Drop()
      requires outBuf != outTmpBuf && work.dropping > 0
      modifies this`fired, this`busy, this`work, this`restarting, outTmpBuf`callbacks
      ensures View() == Dropped(old(View()))
    {
      ghost var cbs, was := outTmpBuf.callbacks, fired;
      var len := |outTmpBuf.callbacks|;
      ghost var done: nat := 0;
      while len > 0
        invariant 0 <= len && done + len == |cbs|
        invariant Progress(was, cbs, done, false)
        modifies this`fired, outTmpBuf`callbacks
      {
        FireFront(was, cbs, done, false);
        len, done := len - 1, done + 1;
      }
      assert cbs[..done] == cbs;
      busy := false;
      work := work.(dropping := work.dropping - 1);
      restarting := restarting + 1;
    }

    // `close` from outside a handler.
    method Close()
      requires Valid()
      modifies this`isConnected
      ensures Valid() && View() == Exec(old(View()), CloseByUser)
    {
      isConnected := false;
    }

    method Reconnect()
      requires Valid() && work.failing > 0
      modifies this`isConnected, this`fired, this`busy, this`work, this`restarting, this`connecting,
               outTmpBuf`callbacks
      ensures Valid() && View() == Reconnected(old(View()))
    {
      ghost var s := View();
      CloseFailed();
      Drop();
      Restart();
      ReconnectIsRun(s);
      RunKeepsInv(s, ReconnectRun(s));
    }

    // `close` in the handler of an error.
    method CloseFailed()
      requires work.failing > 0
      modifies this`isConnected, this`work
      ensures View() == Exec(old(View()), RedisPipeline.Close)
    {
      isConnected := false;
      work := work.(failing := work.failing - 1, dropping := work.dropping + 1);
    }

    // The connect at the end of `reconnect`.
    ghost method Restart()
      requires restarting > 0
      modifies this`restarting, this`connecting
      ensures View() == Exec(old(View()), RedisPipeline.Restart)
    {
      restarting, connecting := restarting - 1, connecting + 1;
    }
  }

  lemma ThreeSteps(s: State, a: Step, b: Step, c: Step)
    requires Enabled(s, a) && Enabled(Exec(s, a), b) && Enabled(Exec(Exec(s, a), b), c)
    ensures Feasible(s, [a, b, c]) && After(s, [a, b, c]) == Exec(Exec(Exec(s, a), b), c)
  {
    StepThenRun(Exec(Exec(s, a), b), c, []);
    assert [c] + [] == [c];
    StepThenRun(Exec(s, a), b, [c]);
    assert [b] + [c] == [b, c];
    StepThenRun(s, a, [b, c]);
    assert [a] + [b, c] == [a, b, c];
  }

  // Looking and then pushing adds to the queue and leaves the publishers that have looked as they were.
  lemma LookAndPush(s: State, cb: Callback)
    requires s.connected && s.io.None?
    ensures Enabled(Exec(s, Check(cb)), Push(cb))
    ensures Exec(Exec(s, Check(cb)), Push(cb))
            == s.(out := Append(s.out, cb), accepted := s.accepted + [cb], io := Some(cb))
  {
    assert s.passed + multiset{cb} - multiset{cb} == s.passed;
  }

  /** A call of `publish` or `ping` that nothing interrupts is a run of its steps. */
  lemma SendIsRun(s: State, cb: Callback)
    requires Inv(s) && s.io.None?
    ensures var run := PublishRun(s, cb);
            && Feasible(s, run) && Inv(After(s, run))
            && After(s, run)
               == if s.connected
                  then RedisPipeline.Write(s.(out := Append(s.out, cb), accepted := s.accepted + [cb]), false)
                  else s.(refused := s.refused + [cb])
  {
    if s.connected {
      LookAndPush(s, cb);
      ThreeSteps(s, Check(cb), Push(cb), TryWrite);
    } else {
      StepThenRun(s, Check(cb), []);
      assert [Check(cb)] + [] == [Check(cb)];
    }
    RunKeepsInv(s, PublishRun(s, cb));
  }
}
