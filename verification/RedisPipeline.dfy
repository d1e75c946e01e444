/** The request pipeline of a Redis connection as a step system. Publishing threads, the handler of
    the outstanding socket operation and a completed connect interleave between any two steps; a
    step is what happens under one lock or between two looks at shared state. */
module RedisPipeline {
  import opened Wrappers
  import Resp
  import ReplyReader
  import Sequences

  /** A caller's callback, named by the request it was handed in with and a number. */
  datatype Callback = Callback(request: Resp.Request, id: nat)

  datatype Queue = Queue(data: string, callbacks: seq<Callback>)

  /** How many socket operations are outstanding and how many of their handlers run, by what they are
      at: a write, a read, the last look at the queue when a batch is answered (`settling`), an error
      on its way to `close` (`failing`) and to the end of `drop` (`dropping`). A handler that died of
      an exception (`dead`) never lets go of the mutex. */
  datatype Work = Work(writing: nat, reading: nat, settling: nat, failing: nat, dropping: nat, dead: nat)

  const IDLE := Work(0, 0, 0, 0, 0, 0)

  function Total(w: Work): nat {
    w.writing + w.reading + w.settling + w.failing + w.dropping + w.dead
  }

  datatype State = State(
    connected: bool,
    out: Queue,
    tmp: Queue,
    input: string,
    busy: bool,
    work: Work,
    restarting: nat,                     // handlers that have unlocked in `drop` and go on to `connect`
    connecting: nat,                     // connects under way
    io: Option<Callback>,                // the publisher inside its io_mutex_ section, if any
    passed: multiset<Callback>,          // publishers that saw is_connected_ but do not hold io_mutex_ yet
    accepted: seq<Callback>,
    fired: seq<(Callback, bool)>,
    refused: seq<Callback>,
    received: string)                    // every byte read so far

  const INITIAL := State(false, Queue("", []), Queue("", []), "", false, IDLE, 0, 0, None, multiset{}, [], [], [], "")

  datatype Step =
    | Check(cb: Callback)                       // publish, ping: look at is_connected_
    | Push(cb: Callback)                        // take io_mutex_, append bytes and callback
    | TryWrite                                  // write(), release io_mutex_
    | Connect                                   // connect, called from outside or by the timer
    | Connected                                 // handle_connect without error
    | ConnectGivesUp                            // handle_connect with an error and no endpoint left
    | WriteDone
    | WriteFailed(sent: nat)
    | ReadChunk(chunk: string, leftover: string)
    | ReadFailed
    | Settle                                    // the locked end of handle_read
    | Close
    | DropOne
    | DropUnlock
    | Restart                                   // the connect at the end of reconnect
    | CloseByUser

  // The steps ----------------------------------------------------------------------------------

  /** `write`: hand the filled queue to the socket if the busy mutex is ours. */
  function Write(s: State, alreadyLocked: bool): State {
    if !alreadyLocked && s.busy then s
    else s.(busy := true, out := s.tmp, tmp := s.out, work := s.work.(writing := s.work.writing + 1))
  }

  function Append(q: Queue, cb: Callback): Queue {
    Queue(q.data + Resp.Encode(cb.request), q.callbacks + [cb])
  }

  function Fire(cbs: seq<Callback>, ok: bool): (f: seq<(Callback, bool)>)
    ensures |f| == |cbs|
    ensures forall i :: 0 <= i < |f| ==> f[i] == (cbs[i], ok)
  {
    seq(|cbs|, i requires 0 <= i < |cbs| => (cbs[i], ok))
  }

  /** `handle_read` up to its last look at the queue, given how its loop went. */
  function TakeOutcome(s: State, chunk: string, leftover: string, o: ReplyReader.Outcome): State
    requires o.fired + o.waiting == |s.tmp.callbacks| && s.work.reading > 0
  {
    var w := s.work.(reading := s.work.reading - 1);
    var t := s.(fired := s.fired + Fire(s.tmp.callbacks[..o.fired], true),
                tmp := s.tmp.(callbacks := s.tmp.callbacks[o.fired..]),
                received := s.received + chunk);
    match o.ending
    case Unknown => t.(input := o.stream.unread, work := w.(failing := w.failing + 1))
    case EmptyLine => t.(input := o.stream.unread, work := w.(dead := w.dead + 1))
    case _ =>
      t.(input := ReplyReader.Kept(o, leftover),
         work := if o.waiting > 0 then s.work else w.(settling := w.settling + 1))
  }

  function HandleChunk(s: State, chunk: string, leftover: string): State
    requires s.work.reading > 0
  {
    TakeOutcome(s, chunk, leftover, ReplyReader.Run(s.input + chunk, |s.tmp.callbacks|))
  }

  predicate Enabled(s: State, step: Step) {
    match step
    case Check(_) => true
    case Push(cb) => s.io.None? && cb in s.passed
    case TryWrite => s.io.Some?
    case Connect => true
    case Connected => s.connecting > 0
    case ConnectGivesUp => s.connecting > 0
    case WriteDone => s.work.writing > 0
    case WriteFailed(sent) => s.work.writing > 0 && sent <= |s.tmp.data|
    case ReadChunk(_, _) => s.work.reading > 0
    case ReadFailed => s.work.reading > 0
    case Settle => s.work.settling > 0 && s.io.None?
    case Close => s.work.failing > 0
    case DropOne => s.work.dropping > 0 && s.tmp.callbacks != []
    case DropUnlock => s.work.dropping > 0 && s.tmp.callbacks == []
    case Restart => s.restarting > 0
    case CloseByUser => true
  }

  function Exec(s: State, step: Step): State
    requires Enabled(s, step)
  {
    match step
    case Check(cb) =>
      if s.connected then s.(passed := s.passed + multiset{cb}) else s.(refused := s.refused + [cb])
    case Push(cb) =>
      s.(out := Append(s.out, cb), io := Some(cb), passed := s.passed - multiset{cb},
         accepted := s.accepted + [cb])
    case TryWrite => Write(s, false).(io := None)
    case Connect => s.(connecting := s.connecting + 1)
    case Connected =>
      var t := s.(connected := true, connecting := s.connecting - 1);
      if t.out.callbacks != [] then Write(t, false) else t
    case ConnectGivesUp => s.(connecting := s.connecting - 1)
    case WriteDone =>
      s.(tmp := s.tmp.(data := ""),
         work := s.work.(writing := s.work.writing - 1, reading := s.work.reading + 1))
    case WriteFailed(sent) =>
      s.(tmp := s.tmp.(data := s.tmp.data[sent..]),
         work := s.work.(writing := s.work.writing - 1, failing := s.work.failing + 1))
    case ReadChunk(chunk, leftover) => HandleChunk(s, chunk, leftover)
    case ReadFailed => s.(work := s.work.(reading := s.work.reading - 1, failing := s.work.failing + 1))
    case Settle =>
      var t := s.(work := s.work.(settling := s.work.settling - 1));
      if t.out.callbacks == [] then t.(busy := false) else Write(t, true)
    case Close =>
      s.(connected := false, work := s.work.(failing := s.work.failing - 1, dropping := s.work.dropping + 1))
    case DropOne =>
      s.(fired := s.fired + [(s.tmp.callbacks[0], false)],
         tmp := s.tmp.(callbacks := s.tmp.callbacks[1..]))
    case DropUnlock =>
      s.(busy := false, work := s.work.(dropping := s.work.dropping - 1), restarting := s.restarting + 1)
    case Restart => s.(restarting := s.restarting - 1, connecting := s.connecting + 1)
    case CloseByUser => s.(connected := false)
  }

  predicate Feasible(s: State, run: seq<Step>)
    decreases |run|
  {
    run != [] ==> Enabled(s, run[0]) && Feasible(Exec(s, run[0]), run[1..])
  }

  function After(s: State, run: seq<Step>): State
    requires Feasible(s, run)
    decreases |run|
  {
    if run == [] then s else After(Exec(s, run[0]), run[1..])
  }

  /** A property of every state of a run. */
  predicate Always(p: State -> bool, s: State, run: seq<Step>)
    requires Feasible(s, run)
    decreases |run|
  {
    p(s) && (run != [] ==> Always(p, Exec(s, run[0]), run[1..]))
  }

  /** A property of every step of a run and the state it starts from. */
  predicate EveryStep(p: (State, Step) -> bool, s: State, run: seq<Step>)
    requires Feasible(s, run)
    decreases |run|
  {
    run != [] ==> p(s, run[0]) && EveryStep(p, Exec(s, run[0]), run[1..])
  }

  lemma StepThenRun(s: State, step: Step, rest: seq<Step>)
    requires Enabled(s, step) && Feasible(Exec(s, step), rest)
    ensures Feasible(s, [step] + rest) && After(s, [step] + rest) == After(Exec(s, step), rest)
  {
    assert ([step] + rest)[1..] == rest;
  }

  // What every step keeps ------------------------------------------------------------------------

  function Callbacks(f: seq<(Callback, bool)>): (r: seq<Callback>)
    ensures |r| == |f|
  {
    seq(|f|, i requires 0 <= i < |f| => f[i].0)
  }

  function Requests(cbs: seq<Callback>): (r: seq<Resp.Request>)
    ensures |r| == |cbs|
  {
    seq(|cbs|, i requires 0 <= i < |cbs| => cbs[i].request)
  }

  function Wire(cbs: seq<Callback>): string {
    Resp.EncodeAll(Requests(cbs))
  }

  predicate EndsWith(s: string, tail: string) {
    |tail| <= |s| && s[|s| - |tail|..] == tail
  }

  /** Fired callbacks, then those in flight, then those queued: all accepted ones, in order. */
  predicate Ordered(s: State) {
    Callbacks(s.fired) + s.tmp.callbacks + s.out.callbacks == s.accepted
  }

  /** One socket operation is outstanding or one handler runs if the busy mutex is held, none if it
      is free; nothing is in flight then, nor when a batch is settled. */
  predicate Owned(s: State) {
    && Total(s.work) <= 1 && (s.busy <==> Total(s.work) == 1)
    && (!s.busy || s.work.settling > 0 ==> s.tmp.callbacks == [])
  }

  predicate Inv(s: State) {
    Ordered(s) && Owned(s) && EndsWith(s.out.data, Wire(s.out.callbacks))
  }

  lemma WireAppend(cbs: seq<Callback>, cb: Callback)
    ensures Wire(cbs + [cb]) == Wire(cbs) + Resp.Encode(cb.request)
  {
    assert Requests(cbs + [cb]) == Requests(cbs) + [cb.request];
    Resp.EncodeAllConcat(Requests(cbs), [cb.request]);
    assert Resp.EncodeAll([cb.request]) == Resp.Encode(cb.request) + Resp.EncodeAll([]);
  }

  lemma WireOfNone()
    ensures Wire([]) == ""
  {
  }

  lemma FiringKeepsOrder(s: State, n: nat, ok: bool)
    requires Ordered(s) && n <= |s.tmp.callbacks|
    ensures Callbacks(s.fired + Fire(s.tmp.callbacks[..n], ok)) + s.tmp.callbacks[n..] + s.out.callbacks == s.accepted
  {
    var cbs := s.tmp.callbacks;
    assert Callbacks(s.fired + Fire(cbs[..n], ok)) == Callbacks(s.fired) + cbs[..n];
    assert cbs == cbs[..n] + cbs[n..];
  }

  lemma NothingFired(fired: seq<(Callback, bool)>, cbs: seq<Callback>)
    ensures fired + Fire(cbs[..0], true) == fired
  {
  }

  lemma OutcomeKeepsInv(s: State, chunk: string, leftover: string, o: ReplyReader.Outcome)
    requires Inv(s) && s.work.reading > 0 && o.fired + o.waiting == |s.tmp.callbacks|
    ensures Inv(TakeOutcome(s, chunk, leftover, o))
  {
    FiringKeepsOrder(s, o.fired, true);
  }

  lemma AppendKeepsEnd(s: string, tail: string, more: string)
    requires EndsWith(s, tail)
    ensures EndsWith(s + more, tail + more)
  {
  }

  lemma PushKeepsInv(s: State, cb: Callback)
    requires Inv(s) && Enabled(s, Push(cb))
    ensures Inv(Exec(s, Push(cb)))
  {
    WireAppend(s.out.callbacks, cb);
    AppendKeepsEnd(s.out.data, Wire(s.out.callbacks), Resp.Encode(cb.request));
    Sequences.Assoc(Callbacks(s.fired) + s.tmp.callbacks, s.out.callbacks, [cb]);
  }

  lemma DropKeepsInv(s: State)
    requires Inv(s) && Enabled(s, DropOne)
    ensures Inv(Exec(s, DropOne))
  {
    FiringKeepsOrder(s, 1, false);
    assert Fire(s.tmp.callbacks[..1], false) == [(s.tmp.callbacks[0], false)];
  }

  lemma NothingBetween(a: seq<Callback>, b: seq<Callback>)
    ensures a + b + [] == a + [] + b
  {
  }

  lemma SwapKeepsInv(s: State, alreadyLocked: bool)
    requires Ordered(s) && EndsWith(s.out.data, Wire(s.out.callbacks))
    requires if alreadyLocked then s.busy && Total(s.work) == 0 && s.tmp.callbacks == [] else Owned(s)
    ensures Inv(Write(s, alreadyLocked))
  {
    WireOfNone();
    if alreadyLocked || !s.busy {
      NothingBetween(Callbacks(s.fired), s.out.callbacks);
    }
  }

  lemma StepKeepsInv(s: State, step: Step)
    requires Inv(s) && Enabled(s, step)
    ensures Inv(Exec(s, step))
  {
    match step {
      case Push(cb) => PushKeepsInv(s, cb);
      case TryWrite => SwapKeepsInv(s, false);
      case Connected => SwapKeepsInv(s.(connected := true, connecting := s.connecting - 1), false);
      case ReadChunk(chunk, leftover) =>
        OutcomeKeepsInv(s, chunk, leftover, ReplyReader.Run(s.input + chunk, |s.tmp.callbacks|));
      case Settle => SwapKeepsInv(s.(work := s.work.(settling := s.work.settling - 1)), true);
      case DropOne => DropKeepsInv(s);
      case _ =>
    }
  }

  /** Main invariant: in every state of every run, under every interleaving of publishers,
      completions, errors, connects and closes. */
  lemma {:induction false} RunKeepsInv(s: State, run: seq<Step>)
    requires Inv(s) && Feasible(s, run)
    ensures Inv(After(s, run))
    decreases |run|
  {
    if run != [] {
      StepKeepsInv(s, run[0]);
      RunKeepsInv(Exec(s, run[0]), run[1..]);
    }
  }

  /** Callbacks are answered in the order of acceptance, none twice, and none is lost: what is not
      yet answered sits in the two queues; with both empty every accepted callback was answered. */
  lemma AnsweredInOrder(s: State, run: seq<Step>)
    requires Inv(s) && Feasible(s, run)
    ensures var t := After(s, run);
            && |t.fired| <= |t.accepted| && Callbacks(t.fired) == t.accepted[..|t.fired|]
            && t.tmp.callbacks + t.out.callbacks == t.accepted[|t.fired|..]
            && (!t.busy && t.out.callbacks == [] ==> Callbacks(t.fired) == t.accepted)
  {
    RunKeepsInv(s, run);
    var t := After(s, run);
    SplitOrder(Callbacks(t.fired), t.tmp.callbacks, t.out.callbacks, t.accepted);
  }

  lemma SplitOrder(a: seq<Callback>, b: seq<Callback>, c: seq<Callback>, all: seq<Callback>)
    requires a + b + c == all
    ensures |a| <= |all| && a == all[..|a|] && b + c == all[|a|..]
    ensures b == [] && c == [] ==> a == all
  {
    Sequences.Assoc(a, b, c);
  }

  // The wakeup -----------------------------------------------------------------------------------

  /** Requests are queued on a live connection, the busy mutex is free, and no publisher is about to
      try it. */
  predicate Unattended(s: State) {
    s.connected && s.out.callbacks != [] && !s.busy && s.io.None?
  }

  /** Wherever that is so, a connect is under way or about to be started that will send them. */
  predicate Attended(s: State) {
    Unattended(s) ==> s.connecting > 0 || s.restarting > 0
  }

  /** The last connect gives up while the connection is live and unattended. */
  predicate Strands(s: State, step: Step) {
    step.ConnectGivesUp? && s.connecting == 1 && s.restarting == 0 && Unattended(s)
  }

  lemma StepAttended(s: State, step: Step)
    requires Inv(s) && Attended(s) && Enabled(s, step)
    ensures Attended(Exec(s, step)) <==> !Strands(s, step)
  {
  }

  lemma {:induction false} AttendedIff(s: State, run: seq<Step>)
    requires Inv(s) && Attended(s) && Feasible(s, run)
    ensures Always(Attended, s, run) <==> EveryStep((t, step) => !Strands(t, step), s, run)
    decreases |run|
  {
    if run != [] {
      StepKeepsInv(s, run[0]);
      StepAttended(s, run[0]);
      if !Strands(s, run[0]) {
        AttendedIff(Exec(s, run[0]), run[1..]);
      }
    }
  }

  /** A run in which no connect gives up loses no wakeup. */
  lemma {:induction false} NoLostWakeup(s: State, run: seq<Step>)
    requires Inv(s) && Attended(s) && Feasible(s, run)
    requires forall i :: 0 <= i < |run| ==> !run[i].ConnectGivesUp?
    ensures Always(Attended, s, run)
    decreases |run|
  {
    if run != [] {
      StepKeepsInv(s, run[0]);
      StepAttended(s, run[0]);
      NoLostWakeup(Exec(s, run[0]), run[1..]);
    }
  }

  /** The connect that is under way sends the whole queue when it completes. */
  lemma ConnectAttends(s: State)
    requires Inv(s) && Unattended(s) && s.connecting > 0
    ensures Enabled(s, Connected)
    ensures var t := Exec(s, Connected);
            t.busy && t.work.writing == 1 && t.tmp == s.out && t.out == s.tmp && !Unattended(t)
  {
  }

  predicate Revives(step: Step) {
    step.Push? || step.Connect? || step.CloseByUser?
  }

  lemma StepStranded(s: State, step: Step)
    requires Inv(s) && !Attended(s) && Enabled(s, step)
    ensures Attended(Exec(s, step)) <==> Revives(step)
    ensures !Revives(step) ==> Exec(s, step).out == s.out && Exec(s, step).fired == s.fired
  {
  }

  /** A stranded connection neither sends nor answers anything, whatever else happens, until somebody
      publishes, connects or closes it. */
  lemma {:induction false} StrandedUntil(s: State, run: seq<Step>)
    requires Inv(s) && !Attended(s) && Feasible(s, run)
    requires forall i :: 0 <= i < |run| ==> !Revives(run[i])
    ensures var t := After(s, run);
            !Attended(t) && t.out == s.out && t.fired == s.fired
    decreases |run|
  {
    if run != [] {
      StepKeepsInv(s, run[0]);
      StepStranded(s, run[0]);
      StrandedUntil(Exec(s, run[0]), run[1..]);
    }
  }

  // Runs in which no connect completes between `close` and the unlock ------------------------------

  predicate ConnectsAfterDrop(s: State, step: Step) {
    step.Connected? ==> s.work.dropping == 0
  }

  predicate Awake(s: State) {
    !Unattended(s) && (s.work.dropping > 0 ==> !s.connected)
  }

  lemma StepAwake(s: State, step: Step)
    requires Inv(s) && Awake(s) && Enabled(s, step) && ConnectsAfterDrop(s, step)
    ensures Awake(Exec(s, step))
  {
  }

  /** In such a run the busy mutex is held, or a publisher is about to try it, whenever requests are
      queued on a live connection, whatever becomes of the connects. */
  lemma {:induction false} AwakeThroughout(s: State, run: seq<Step>)
    requires Inv(s) && Awake(s) && Feasible(s, run) && EveryStep(ConnectsAfterDrop, s, run)
    ensures Always(Awake, s, run)
    decreases |run|
  {
    if run != [] {
      StepKeepsInv(s, run[0]);
      StepAwake(s, run[0]);
      AwakeThroughout(Exec(s, run[0]), run[1..]);
    }
  }

  // Who asked --------------------------------------------------------------------------------------

  /** The callbacks handed in by the publishers of a run. */
  function Asked(run: seq<Step>): multiset<Callback> {
    if run == [] then multiset{}
    else (match run[0]
          case Check(cb) => multiset{cb}
          case _ => multiset{}) + Asked(run[1..])
  }

  /** Every callback handed in is refused at once, on its way to the lock, or accepted, and just one of
      the three. */
  lemma {:induction false} NobodyForgotten(s: State, run: seq<Step>)
    requires Feasible(s, run)
    ensures var t := After(s, run);
            multiset(t.refused) + t.passed + multiset(t.accepted)
            == multiset(s.refused) + s.passed + multiset(s.accepted) + Asked(run)
    decreases |run|
  {
    if run != [] {
      NobodyForgottenStep(s, run[0]);
      NobodyForgotten(Exec(s, run[0]), run[1..]);
    }
  }

  lemma NobodyForgottenStep(s: State, step: Step)
    requires Enabled(s, step)
    ensures var t := Exec(s, step);
            multiset(t.refused) + t.passed + multiset(t.accepted)
            == multiset(s.refused) + s.passed + multiset(s.accepted)
               + (if step.Check? then multiset{step.cb} else multiset{})
  {
    match step {
      case Check(cb) => assert multiset(s.refused + [cb]) == multiset(s.refused) + multiset{cb};
      case Push(cb) => assert multiset(s.accepted + [cb]) == multiset(s.accepted) + multiset{cb};
      case _ =>
    }
  }

  // A closed connection ----------------------------------------------------------------------------

  /** Until the next connect completes, a closed connection accepts nothing but the requests of
      publishers that had already looked, each once. */
  lemma {:induction false} ClosedAcceptsNothingNew(s: State, run: seq<Step>)
    requires !s.connected && Feasible(s, run)
    requires forall i :: 0 <= i < |run| ==> !run[i].Connected?
    ensures var t := After(s, run);
            !t.connected && multiset(t.accepted) + t.passed == multiset(s.accepted) + s.passed
    decreases |run|
  {
    if run != [] {
      ClosedStep(s, run[0]);
      ClosedAcceptsNothingNew(Exec(s, run[0]), run[1..]);
    }
  }

  lemma ClosedStep(s: State, step: Step)
    requires !s.connected && Enabled(s, step) && !step.Connected?
    ensures var t := Exec(s, step);
            !t.connected && multiset(t.accepted) + t.passed == multiset(s.accepted) + s.passed
  {
    match step {
      case Push(cb) => assert multiset(s.accepted + [cb]) == multiset(s.accepted) + multiset{cb};
      case _ =>
    }
  }

  // The swap -------------------------------------------------------------------------------------

  predicate Swaps(s: State, step: Step) {
    match step
    case TryWrite => !s.busy
    case Connected => !s.busy && s.out.callbacks != []
    case Settle => s.out.callbacks != []
    case _ => false
  }

  /** The two assertions after the swap in `write`. */
  predicate SwapAsserts(s: State) {
    |s.tmp.callbacks| > 0 && |s.tmp.data| > 0
  }

  /** They hold at every swap except the one where a publisher wins the busy mutex after somebody
      else has taken its request away; the queue that becomes the open one is always empty. */
  lemma SwapAssertsIff(s: State, step: Step)
    requires Inv(s) && Enabled(s, step) && Swaps(s, step)
    ensures SwapAsserts(Exec(s, step)) <==> !(step.TryWrite? && s.out.callbacks == [])
    ensures Exec(s, step).out.callbacks == []
  {
    if s.out.callbacks != [] {
      assert Wire(s.out.callbacks) != "" by {
        assert |Resp.Encode(Requests(s.out.callbacks)[0])| > 0;
      }
    }
  }

  // Runs in which no connect completes between a publisher's push and its `try_lock`.
  predicate ConnectsOutside(s: State, step: Step) {
    step.Connected? ==> s.io.None?
  }

  predicate Pushed(s: State) {
    s.io.Some? ==> s.out.callbacks != []
  }

  /** In such a run the assertions hold at every swap. */
  lemma {:induction false} SwapAssertsThroughout(s: State, run: seq<Step>)
    requires Inv(s) && Pushed(s) && Feasible(s, run) && EveryStep(ConnectsOutside, s, run)
    ensures EveryStep((t, step) => Swaps(t, step) && Enabled(t, step) ==> SwapAsserts(Exec(t, step)), s, run)
    decreases |run|
  {
    if run != [] {
      StepKeepsInv(s, run[0]);
      StepKeepsPushed(s, run[0]);
      if Swaps(s, run[0]) {
        SwapAssertsIff(s, run[0]);
      }
      SwapAssertsThroughout(Exec(s, run[0]), run[1..]);
    }
  }

  lemma StepKeepsPushed(s: State, step: Step)
    requires Inv(s) && Pushed(s) && Enabled(s, step) && ConnectsOutside(s, step)
    ensures Pushed(Exec(s, step))
  {
  }

  // Two runs that show the windows matter -----------------------------------------------------------

  lemma {:induction false} OneStepMore(s: State, run: seq<Step>, step: Step)
    requires Feasible(s, run) && Enabled(After(s, run), step)
    ensures Feasible(s, run + [step]) && After(s, run + [step]) == Exec(After(s, run), step)
    decreases |run|
  {
    if run == [] {
      assert run + [step] == [step];
    } else {
      assert (run + [step])[1..] == run[1..] + [step];
      OneStepMore(Exec(s, run[0]), run[1..], step);
    }
  }

  lemma Extend(run: seq<Step>, s: State, step: Step) returns (longer: seq<Step>, t: State)
    requires Feasible(INITIAL, run) && After(INITIAL, run) == s && Enabled(s, step)
    ensures Feasible(INITIAL, longer) && After(INITIAL, longer) == t == Exec(s, step)
  {
    OneStepMore(INITIAL, run, step);
    longer, t := run + [step], Exec(s, step);
  }

  /** A batch of one request fails to be written, and the connection is closed. */
  lemma FailAndClose(run: seq<Step>, s: State) returns (longer: seq<Step>, t: State)
    requires Feasible(INITIAL, run) && After(INITIAL, run) == s && s.work == IDLE.(writing := 1)
    ensures Feasible(INITIAL, longer) && After(INITIAL, longer) == t
    ensures t == s.(connected := false, work := IDLE.(dropping := 1))
  {
    longer, t := Extend(run, s, WriteFailed(0));
    longer, t := Extend(longer, t, Close);
    assert t.tmp == s.tmp;
  }

  /** The one callback is called with false, the mutex is released, and a connect is started. */
  lemma DropAndRestart(run: seq<Step>, s: State) returns (longer: seq<Step>, t: State)
    requires Feasible(INITIAL, run) && After(INITIAL, run) == s
    requires s.work == IDLE.(dropping := 1) && |s.tmp.callbacks| == 1
    ensures Feasible(INITIAL, longer) && After(INITIAL, longer) == t
    ensures t == s.(busy := false, work := IDLE, connecting := s.connecting + 1,
                    tmp := s.tmp.(callbacks := []), fired := s.fired + [(s.tmp.callbacks[0], false)])
  {
    longer, t := Extend(run, s, DropOne);
    longer, t := Extend(longer, t, DropUnlock);
    longer, t := Extend(longer, t, Restart);
  }

  lemma LateRequest(run: seq<Step>, s: State, b: Callback) returns (longer: seq<Step>, t: State)
    requires Feasible(INITIAL, run) && After(INITIAL, run) == s
    requires s.io.None? && b in s.passed
    ensures Feasible(INITIAL, longer) && After(INITIAL, longer) == t
    ensures t == Write(s.(out := Append(s.out, b), passed := s.passed - multiset{b},
                          accepted := s.accepted + [b], io := Some(b)), false).(io := None)
  {
    longer, t := Extend(run, s, Push(b));
    longer, t := Extend(longer, t, TryWrite);
  }

  lemma Opened() returns (run: seq<Step>, s: State)
    ensures Feasible(INITIAL, run) && After(INITIAL, run) == s
    ensures s == INITIAL.(connected := true)
  {
    run, s := Extend([], INITIAL, Connect);
    run, s := Extend(run, s, Connected);
  }

  lemma FirstRequest(a: Callback) returns (run: seq<Step>, s: State)
    ensures Feasible(INITIAL, run) && After(INITIAL, run) == s
    ensures s.connected && s.busy && s.work == IDLE.(writing := 1) && s.io.None? && s.passed == multiset{}
    ensures s.connecting == 0 && s.restarting == 0
    ensures s.tmp.callbacks == [a] && s.out == Queue("", [])
  {
    hide Feasible, After, Resp.Encode;
    run, s := Opened();
    run, s := Extend(run, s, Check(a));
    run, s := LateRequest(run, s, a);
  }

  /** The connection breaks under a first request while two more publishers have already looked at
      `is_connected_`; a connect is under way. */
  lemma BrokenConnection(a: Callback, b: Callback, c: Callback) returns (run: seq<Step>, s: State)
    ensures Feasible(INITIAL, run) && After(INITIAL, run) == s
    ensures !s.connected && !s.busy && s.work == IDLE && s.io.None?
    ensures s.connecting == 1 && s.restarting == 0
    ensures s.tmp.callbacks == [] && s.out == Queue("", [])
    ensures s.passed == multiset{b, c}
  {
    run, s := FirstRequest(a);
    run, s := Extend(run, s, Check(b));
    run, s := Extend(run, s, Check(c));
    assert s.passed == multiset{b, c};
    run, s := FailAndClose(run, s);
    run, s := DropAndRestart(run, s);
  }

  /** The late publishers' batch fails too; the connect completes before the second `drop` has
      unlocked and finds the mutex held; the connect that this `drop` is followed by gives up. The
      connection is live, nobody is at work, and the third request is queued. */
  lemma LostWakeupExample(a: Callback, b: Callback, c: Callback) returns (run: seq<Step>, s: State)
    ensures Feasible(INITIAL, run) && After(INITIAL, run) == s
    ensures s.out.callbacks == [c] && !Attended(s)
  {
    run, s := BrokenConnection(a, b, c);
    run, s := LateRequest(run, s, b);
    run, s := LateRequest(run, s, c);
    assert s.tmp.callbacks == [b] && s.out.callbacks == [c];
    run, s := FailAndClose(run, s);
    run, s := Extend(run, s, Connected);
    run, s := DropAndRestart(run, s);
    assert Unattended(s) && s.connecting == 1;
    run, s := Extend(run, s, ConnectGivesUp);
  }

  /** The reconnect flushes the request a publisher has just pushed, fails with it and drops it
      before the publisher gets to its `try_lock`: the publisher swaps in an empty queue. */
  lemma EmptySwapExample(a: Callback, b: Callback, c: Callback) returns (run: seq<Step>, s: State)
    ensures Feasible(INITIAL, run) && After(INITIAL, run) == s
    ensures Enabled(s, TryWrite) && Swaps(s, TryWrite) && !SwapAsserts(Exec(s, TryWrite))
  {
    run, s := BrokenConnection(a, b, c);
    run, s := Extend(run, s, Push(b));
    run, s := Extend(run, s, Connected);
    run, s := FailAndClose(run, s);
    run, s := DropAndRestart(run, s);
  }

  // The bytes on the wire ------------------------------------------------------------------------

  /** Unsent bytes are exactly the encodings of the requests they belong to. */
  predicate Synced(s: State) {
    && s.out.data == Wire(s.out.callbacks)
    && s.tmp.data == (if s.work.writing > 0 then Wire(s.tmp.callbacks) else "")
  }

  /** No write fails with bytes still unsent, not even with all of them unsent. */
  predicate WholeWrite(s: State, step: Step) {
    step.WriteFailed? ==> step.sent == |s.tmp.data|
  }

  lemma StepSync(s: State, step: Step)
    requires Inv(s) && Synced(s) && Enabled(s, step)
    ensures Synced(Exec(s, step)) <==> WholeWrite(s, step)
  {
    hide Wire, EndsWith, Callbacks;
    WireOfNone();
    match step {
      case Push(cb) => WireAppend(s.out.callbacks, cb);
      case _ =>
    }
  }

  /** Buffers and callback queues stay in step through a run exactly when no failed write leaves
      bytes behind. */
  lemma {:induction false} SyncedIffWholeWrites(s: State, run: seq<Step>)
    requires Inv(s) && Synced(s) && Feasible(s, run)
    ensures Always(Synced, s, run) <==> EveryStep(WholeWrite, s, run)
    decreases |run|
  {
    if run != [] {
      StepKeepsInv(s, run[0]);
      StepSync(s, run[0]);
      if WholeWrite(s, run[0]) {
        SyncedIffWholeWrites(Exec(s, run[0]), run[1..]);
      }
    }
  }

  lemma {:induction false} SyncedAtEnd(s: State, run: seq<Step>)
    requires Feasible(s, run) && Always(Synced, s, run)
    ensures Synced(After(s, run))
    decreases |run|
  {
    if run != [] {
      SyncedAtEnd(Exec(s, run[0]), run[1..]);
    }
  }

  /** What is handed to the socket decodes to the requests whose callbacks wait for the replies. */
  lemma BatchDecodes(s: State, run: seq<Step>)
    requires Inv(s) && Synced(s) && Feasible(s, run) && EveryStep(WholeWrite, s, run)
    requires forall cb :: cb in After(s, run).accepted ==> Resp.Fits(cb.request)
    ensures var t := After(s, run);
            && (t.work.writing > 0 ==> Resp.Decode(t.tmp.data) == Some(Requests(t.tmp.callbacks)))
            && Resp.Decode(t.out.data) == Some(Requests(t.out.callbacks))
  {
    SyncedIffWholeWrites(s, run);
    SyncedAtEnd(s, run);
    RunKeepsInv(s, run);
    SyncedDecodes(After(s, run));
  }

  lemma SyncedDecodes(t: State)
    requires Inv(t) && Synced(t)
    requires forall cb :: cb in t.accepted ==> Resp.Fits(cb.request)
    ensures t.work.writing > 0 ==> Resp.Decode(t.tmp.data) == Some(Requests(t.tmp.callbacks))
    ensures Resp.Decode(t.out.data) == Some(Requests(t.out.callbacks))
  {
    WaitingWereAccepted(t);
    FittingDecodes(t.tmp.callbacks);
    FittingDecodes(t.out.callbacks);
  }

  lemma WaitingWereAccepted(s: State)
    requires Ordered(s)
    ensures forall cb :: cb in s.tmp.callbacks || cb in s.out.callbacks ==> cb in s.accepted
  {
    assert forall cb :: cb in s.tmp.callbacks ==> cb in Callbacks(s.fired) + s.tmp.callbacks + s.out.callbacks;
    assert forall cb :: cb in s.out.callbacks ==> cb in Callbacks(s.fired) + s.tmp.callbacks + s.out.callbacks;
  }

  lemma FittingDecodes(cbs: seq<Callback>)
    requires forall cb :: cb in cbs ==> Resp.Fits(cb.request)
    ensures Resp.Decode(Wire(cbs)) == Some(Requests(cbs))
  {
    var rs := Requests(cbs);
    forall i | 0 <= i < |rs|
      ensures Resp.Fits(rs[i])
    {
      assert cbs[i] in cbs;
    }
    Resp.PipelineDecodesUniquely(rs);
  }

  // Replies and requests ---------------------------------------------------------------------------

  /** No operation fails and every read ends well. */
  predicate OrderlyStep(s: State, step: Step) {
    match step
    case WriteFailed(_) => false
    case ReadFailed => false
    case ReadChunk(chunk, _) =>
      && ReplyReader.Clean(s.input + chunk, |s.tmp.callbacks|)
      && |s.input + chunk| < ReplyReader.SIZE_RANGE
    case _ => true
  }

  /** The text starts with `k` lines, each of them an answer. */
  predicate AnswerLines(text: string, k: nat) {
    k > 0 ==>
      && ReplyReader.HasLine(text) && ReplyReader.Answers(ReplyReader.FirstLine(text))
      && AnswerLines(ReplyReader.AfterLine(text), k - 1)
  }

  /** One answer line received for every callback fired, and the input buffer holds the rest. */
  predicate Matched(s: State) {
    && s.work.failing == 0 && s.work.dropping == 0 && s.work.dead == 0
    && (forall i :: 0 <= i < |s.fired| ==> s.fired[i].1)
    && AnswerLines(s.received, |s.fired|)
    && s.input == ReplyReader.DropLines(s.received, |s.fired|)
  }

  lemma {:induction false} AnswerLinesOfLonger(a: string, b: string, k: nat)
    requires AnswerLines(a, k)
    ensures AnswerLines(a + b, k)
    ensures ReplyReader.DropLines(a + b, k) == ReplyReader.DropLines(a, k) + b
  {
    if k > 0 {
      ReplyReader.LineOfLonger(a, b);
      AnswerLinesOfLonger(ReplyReader.AfterLine(a), b, k - 1);
    }
  }

  lemma {:induction false} AnsweredAreLines(text: string, waiting: nat)
    ensures AnswerLines(text, ReplyReader.Answered(text, waiting))
  {
    if ReplyReader.CanAnswer(text, waiting) {
      AnsweredAreLines(ReplyReader.AfterLine(text), waiting - 1);
    }
  }

  lemma {:induction false} MoreAnswerLines(text: string, k: nat, waiting: nat)
    requires AnswerLines(text, k)
    ensures var rest := ReplyReader.DropLines(text, k);
            var n := ReplyReader.Answered(rest, waiting);
            AnswerLines(text, k + n) && ReplyReader.DropLines(text, k + n) == ReplyReader.Rest(rest, waiting)
  {
    if k > 0 {
      MoreAnswerLines(ReplyReader.AfterLine(text), k - 1, waiting);
    } else {
      AnsweredAreLines(text, waiting);
      ReplyReader.RestDropsAnsweredLines(text, waiting);
    }
  }

  lemma LinesAfterChunk(received: string, k: nat, chunk: string, waiting: nat)
    requires AnswerLines(received, k)
    ensures var buffer := ReplyReader.DropLines(received, k) + chunk;
            var n := k + ReplyReader.Answered(buffer, waiting);
            AnswerLines(received + chunk, n)
            && ReplyReader.DropLines(received + chunk, n) == ReplyReader.Rest(buffer, waiting)
  {
    AnswerLinesOfLonger(received, chunk, k);
    MoreAnswerLines(received + chunk, k, waiting);
  }

  lemma OutcomeKeepsMatched(s: State, chunk: string, leftover: string, o: ReplyReader.Outcome)
    requires Matched(s) && s.work.reading > 0
    requires o.fired + o.waiting == |s.tmp.callbacks| && o.ending == ReplyReader.Counted
    requires AnswerLines(s.received + chunk, |s.fired| + o.fired)
    requires ReplyReader.DropLines(s.received + chunk, |s.fired| + o.fired) == ReplyReader.Kept(o, leftover)
    ensures Matched(TakeOutcome(s, chunk, leftover, o))
  {
    assert |TakeOutcome(s, chunk, leftover, o).fired| == |s.fired| + o.fired;
  }

  lemma CleanOutcomeKeepsMatched(s: State, chunk: string, leftover: string, o: ReplyReader.Outcome)
    requires Matched(s) && s.work.reading > 0
    requires o.fired + o.waiting == |s.tmp.callbacks| && o.ending == ReplyReader.Counted
    requires o.fired == ReplyReader.Answered(s.input + chunk, |s.tmp.callbacks|)
    requires ReplyReader.Kept(o, leftover) == ReplyReader.Rest(s.input + chunk, |s.tmp.callbacks|)
    ensures Matched(TakeOutcome(s, chunk, leftover, o))
  {
    hide AnswerLines, ReplyReader.DropLines, ReplyReader.Answered, ReplyReader.Rest, TakeOutcome;
    LinesAfterChunk(s.received, |s.fired|, chunk, |s.tmp.callbacks|);
    OutcomeKeepsMatched(s, chunk, leftover, o);
  }

  lemma ChunkKeepsMatched(s: State, chunk: string, leftover: string)
    requires Matched(s) && s.work.reading > 0 && OrderlyStep(s, ReadChunk(chunk, leftover))
    ensures Matched(HandleChunk(s, chunk, leftover))
  {
    ReplyReader.ReadIsExactIffClean(s.input + chunk, |s.tmp.callbacks|);
    CleanOutcomeKeepsMatched(s, chunk, leftover, ReplyReader.Run(s.input + chunk, |s.tmp.callbacks|));
  }

  lemma StepKeepsMatched(s: State, step: Step)
    requires Matched(s) && Enabled(s, step) && OrderlyStep(s, step)
    ensures Matched(Exec(s, step))
  {
    match step {
      case ReadChunk(chunk, leftover) => ChunkKeepsMatched(s, chunk, leftover);
      case _ =>
    }
  }

  lemma {:induction false} OrderlyRunsMatch(s: State, run: seq<Step>)
    requires Matched(s) && Feasible(s, run) && EveryStep(OrderlyStep, s, run)
    ensures Matched(After(s, run))
    decreases |run|
  {
    if run != [] {
      StepKeepsMatched(s, run[0]);
      OrderlyRunsMatch(Exec(s, run[0]), run[1..]);
    }
  }

  /** Without failures the k-th accepted request is reported as delivered, and that because of the
      k-th line the server sent. */
  lemma RepliesMatchRequests(s: State, run: seq<Step>)
    requires Inv(s) && Matched(s) && Feasible(s, run) && EveryStep(OrderlyStep, s, run)
    ensures var t := After(s, run);
            && |t.fired| <= |t.accepted|
            && (forall i :: 0 <= i < |t.fired| ==> t.fired[i] == (t.accepted[i], true))
            && AnswerLines(t.received, |t.fired|)
            && t.input == ReplyReader.DropLines(t.received, |t.fired|)
  {
    OrderlyRunsMatch(s, run);
    AnsweredInOrder(s, run);
    var t := After(s, run);
    forall i | 0 <= i < |t.fired|
      ensures t.fired[i] == (t.accepted[i], true)
    {
      assert Callbacks(t.fired)[i] == t.accepted[i];
    }
  }

  // What the theorems about runs ask of their first state holds at the start of a connection.

  lemma StartInv(s: State)
    requires s == INITIAL
    ensures Inv(s) && Synced(s)
  {
    WireOfNone();
  }

  lemma StartAttended(s: State)
    requires s == INITIAL
    ensures Attended(s) && Awake(s) && Pushed(s)
  {
  }

  lemma StartMatched(s: State)
    requires s == INITIAL
    ensures Matched(s)
  {
  }
}
