/** The join of a dispatch to several targets: one shared object that combines their results and
    calls back when the last reference to it is gone, whoever holds that one. */
module Combiner {
  import opened Wrappers
  import Sequences

  // The shared object ----------------------------------------------------------------------------

  class Shared {
    var result: bool
    var refs: nat
    var fired: seq<bool>                 // the calls of the user's callback

    constructor ()
      ensures result && refs == 1 && fired == []
    {
      result, refs, fired := true, 1, [];
    }

    method AddRef()
      modifies this`refs
      ensures refs == old(refs) + 1
    {
      refs := refs + 1;
    }

    // Compare-exchange: only a result that still is true is replaced.
    method Combine(r: bool)
      modifies this`result
      ensures result == (old(result) && r)
    {
      var expected := true;
      if result == expected {
        result := r;
      }
    }

    // The destructor runs with the last reference.
    method Release()
      requires refs > 0
      modifies this`refs, this`fired
      ensures refs == old(refs) - 1
      ensures fired == if refs == 0 then old(fired) + [result] else old(fired)
    {
      refs := refs - 1;
      if refs == 0 {
        fired := fired + [result];
      }
    }
  }

  // Dispatching ----------------------------------------------------------------------------------

  datatype Callback = User | Combine

  datatype Task<T> = Process(target: T, callback: Callback) | Report(result: bool)

  class Router<T> {
    var posted: seq<Task<T>>
    var comb: Shared?

    constructor ()
      ensures posted == [] && comb == null
    {
      posted, comb := [], null;
    }

    /** One task per target, in their order, all with the combining callback if there are several;
        the object then has one reference for each task. A single target gets the user's own
        callback, and without targets the user is told false. */
    method ProcessData(targets: seq<T>)
      modifies this
      ensures var n := |targets|;
              n > 1 ==> posted == old(posted) + seq(n, i requires 0 <= i < n => Process(targets[i], Combine))
      ensures |targets| > 1 ==> fresh(comb) && Feasible(Start(|targets|), DispatchRun(|targets|))
      ensures |targets| > 1 ==>
                var s := After(Start(|targets|), DispatchRun(|targets|));
                comb.refs == s.refs == |targets| && comb.result == s.result && comb.fired == s.fired
      ensures |targets| == 1 ==> posted == old(posted) + [Process(targets[0], User)]
      ensures |targets| == 0 ==> posted == old(posted) + [Report(false)]
    {
      var n := |targets|;
      if n > 1 {
        comb := new Shared();
        comb.AddRef();                   // the copy bound into the callback
        var i := 0;
        while i < n
          invariant 0 <= i <= n && fresh(comb)
          invariant comb.refs == 2 + i && comb.result && comb.fired == []
          invariant posted == old(posted) + seq(i, k requires 0 <= k < i => Process(targets[k], Combine))
        {
          comb.AddRef();
          posted := posted + [Process(targets[i], Combine)];
          i := i + 1;
        }
        comb.Release();                  // the callback and the pointer go out of scope
        comb.Release();
        DispatchIsRun(n);
      } else if n > 0 {
        posted := posted + [Process(targets[0], User)];
      } else {
        posted := posted + [Report(false)];
      }
    }

    /** What a connection calls with its data: the targets of its route if there is one, and otherwise
        the user is told false. */
    method Submit(route: Option<seq<T>>)
      modifies this
      ensures var targets := if route.Some? then route.value else [];
              |targets| > 1 ==>
                posted == old(posted) + seq(|targets|, i requires 0 <= i < |targets| => Process(targets[i], Combine))
      ensures route.Some? && |route.value| == 1 ==> posted == old(posted) + [Process(route.value[0], User)]
      ensures route.None? || route.value == [] ==> posted == old(posted) + [Report(false)]
    {
      match route {
        case Some(targets) => ProcessData(targets);
        case None => posted := posted + [Report(false)];
      }
    }
  }

  // All interleavings ----------------------------------------------------------------------------

  /** The posting loop and the targets at work on one object; `held` counts each target's references. */
  datatype State = State(
    refs: int,
    result: bool,
    caller: nat,
    posted: nat,
    held: seq<nat>,
    fired: seq<bool>)

  datatype Step =
    | Post                               // the loop hands a reference to the next target
    | CallerRelease                      // the loop is over, the dispatcher's own references go
    | Copy(k: nat)                       // a target keeps another copy of the callback
    | CombineOne(k: nat, r: bool)
    | Release(k: nat)

  function Start(n: nat): State {
    State(2, true, 2, 0, seq(n, _ => 0), [])
  }

  predicate Enabled(s: State, step: Step) {
    match step
    case Post => s.posted < |s.held|
    case CallerRelease => s.posted == |s.held| && s.caller > 0
    case Copy(k) => k < |s.held| && s.held[k] > 0
    case CombineOne(k, r) => k < |s.held| && s.held[k] > 0
    case Release(k) => k < |s.held| && s.held[k] > 0
  }

  function Drop(s: State): State {
    s.(refs := s.refs - 1, fired := if s.refs == 1 then s.fired + [s.result] else s.fired)
  }

  function Exec(s: State, step: Step): State
    requires Enabled(s, step)
  {
    match step
    case Post => s.(refs := s.refs + 1, posted := s.posted + 1, held := s.held[s.posted := s.held[s.posted] + 1])
    case CallerRelease => Drop(s).(caller := s.caller - 1)
    case Copy(k) => s.(refs := s.refs + 1, held := s.held[k := s.held[k] + 1])
    case CombineOne(k, r) => s.(result := if s.result then r else s.result)
    case Release(k) => Drop(s).(held := s.held[k := s.held[k] - 1])
  }

  function Sum(h: seq<nat>): nat {
    if h == [] then 0 else h[0] + Sum(h[1..])
  }

  lemma {:induction false} SumUpdate(h: seq<nat>, k: nat, v: nat)
    requires k < |h|
    ensures Sum(h[k := v]) == Sum(h) - h[k] + v
    ensures Sum(h) >= h[k]
  {
    if k == 0 {
      assert h[0 := v][1..] == h[1..];
    } else {
      assert h[k := v][1..] == h[1..][k - 1 := v];
      SumUpdate(h[1..], k - 1, v);
    }
  }

  lemma {:induction false} SumZeroIff(h: seq<nat>)
    ensures Sum(h) == 0 <==> forall k :: 0 <= k < |h| ==> h[k] == 0
  {
    if h != [] {
      SumZeroIff(h[1..]);
      assert forall k :: 1 <= k < |h| ==> h[k] == h[1..][k - 1];
    }
  }

  predicate Released(s: State) {
    s.caller == 0 && forall k :: 0 <= k < |s.held| ==> s.held[k] == 0
  }

  function Conj(rs: seq<bool>): bool {
    forall i :: 0 <= i < |rs| ==> rs[i]
  }

  /** The count is right, the result is the conjunction of what was combined, and the callback was
      called exactly once if nothing holds the object any more and not at all before. */
  predicate Inv(s: State, combined: seq<bool>) {
    && s.refs == s.caller + Sum(s.held)
    && s.result == Conj(combined)
    && s.fired == (if s.refs == 0 then [s.result] else [])
    && s.posted <= |s.held|
    && (s.posted < |s.held| ==> s.caller == 2)
  }

  function Combined(step: Step): seq<bool> {
    if step.CombineOne? then [step.r] else []
  }

  lemma StepKeepsInv(s: State, combined: seq<bool>, step: Step)
    requires Inv(s, combined) && Enabled(s, step)
    ensures Inv(Exec(s, step), combined + Combined(step))
  {
    hide Sum;
    match step {
      case Post => SumUpdate(s.held, s.posted, s.held[s.posted] + 1);
      case CallerRelease =>
      case Copy(k) => SumUpdate(s.held, k, s.held[k] + 1);
      case CombineOne(k, r) =>
        SumUpdate(s.held, k, 0);
        assert Conj(combined + [r]) <==> Conj(combined) && r by {
          assert (combined + [r])[|combined|] == r;
          assert forall i :: 0 <= i < |combined| ==> (combined + [r])[i] == combined[i];
        }
      case Release(k) => SumUpdate(s.held, k, s.held[k] - 1);
    }
    if !step.CombineOne? {
      assert combined + [] == combined;
    }
  }

  predicate Feasible(s: State, run: seq<Step>)
    decreases |run|
  {
    run != [] ==> Enabled(s, run[0]) && Feasible(Exec(s, run[0]), run[1..])
  }

  function After(s: State, run: seq<Step>): State
    requires Feasible(s, run)
    decreases |run|
  {
    if run == [] then s else After(Exec(s, run[0]), run[1..])
  }

  function Results(run: seq<Step>): seq<bool> {
    if run == [] then [] else Combined(run[0]) + Results(run[1..])
  }

  lemma {:induction false} RunKeepsInv(s: State, combined: seq<bool>, run: seq<Step>)
    requires Inv(s, combined) && Feasible(s, run)
    ensures Inv(After(s, run), combined + Results(run))
    decreases |run|
  {
    if run == [] {
      assert combined + Results(run) == combined;
    } else {
      StepKeepsInv(s, combined, run[0]);
      RunKeepsInv(Exec(s, run[0]), combined + Combined(run[0]), run[1..]);
      Sequences.Assoc(combined, Combined(run[0]), Results(run[1..]));
    }
  }

  lemma {:induction false} StartSum(n: nat)
    ensures Sum(seq(n, _ => 0)) == 0
  {
    SumZeroIff(seq(n, _ => 0));
  }

  /** Under every interleaving of posting, copying, combining and releasing, also when targets finish
      while the loop still posts, the user hears exactly once, when every holder has let go, and
      then the conjunction of all results. */
  lemma JoinFiresOnce(n: nat, run: seq<Step>)
    requires Feasible(Start(n), run)
    ensures var s := After(Start(n), run);
            s.fired == if Released(s) then [Conj(Results(run))] else []
  {
    StartSum(n);
    RunKeepsInv(Start(n), [], run);
    assert [] + Results(run) == Results(run);
    SumZeroIff(After(Start(n), run).held);
  }

  // What the dispatcher itself does: post to every target, then let go of its two references.
  function DispatchRun(targets: nat): seq<Step> {
    if targets == 0 then [CallerRelease, CallerRelease] else [Post] + DispatchRun(targets - 1)
  }

  // The first `p` of `n` targets hold one reference each.
  function Given(n: nat, p: nat): seq<nat> {
    seq(n, i => if i < p then 1 else 0)
  }

  lemma {:induction false} DispatchFrom(n: nat, p: nat)
    requires 0 < n && p <= n
    ensures var s, run := State(2 + p, true, 2, p, Given(n, p), []), DispatchRun(n - p);
            Feasible(s, run) && After(s, run) == State(n, true, 0, n, Given(n, n), [])
    decreases n - p
  {
    var s, run := State(2 + p, true, 2, p, Given(n, p), []), DispatchRun(n - p);
    if p < n {
      assert Given(n, p)[p := 1] == Given(n, p + 1);
      assert run[1..] == DispatchRun(n - (p + 1));
      DispatchFrom(n, p + 1);
    } else {
      var t := Exec(s, CallerRelease);
      var u := Exec(t, CallerRelease);
      assert run[1..][1..] == [];
      assert After(u, []) == u;
      assert After(t, run[1..]) == u;
    }
  }

  /** A dispatch that nothing interrupts is a run of the steps, after which each target holds the one
      reference of its task. */
  lemma DispatchIsRun(n: nat)
    requires n > 0
    ensures Feasible(Start(n), DispatchRun(n))
    ensures After(Start(n), DispatchRun(n)) == State(n, true, 0, n, Given(n, n), [])
  {
    assert Given(n, 0) == seq(n, _ => 0);
    DispatchFrom(n, 0);
  }

  /** Until then somebody can always go on letting go. */
  lemma NeverStuck(s: State, combined: seq<bool>)
    requires Inv(s, combined) && s.fired == []
    ensures Enabled(s, Post) || Enabled(s, CallerRelease) || exists k :: 0 <= k < |s.held| && Enabled(s, Release(k))
  {
    SumZeroIff(s.held);
    if s.posted == |s.held| && s.caller == 0 {
      var k :| 0 <= k < |s.held| && s.held[k] != 0;
      assert Enabled(s, Release(k));
    }
  }
}
