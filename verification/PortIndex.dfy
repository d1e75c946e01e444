/** The port index of the translator manager: a multimap sorted by port in which later entries of a
    port stand behind earlier ones, and whose last entry of a port decides who serves it. */
module PortIndex {
  import Sequences

  datatype PluginType = Translator | Dispatcher

  datatype Mapping = Mapping(port: nat, uid: string)

  predicate Sorted(ms: seq<Mapping>) {
    forall i, j :: 0 <= i < j < |ms| ==> ms[i].port <= ms[j].port
  }

  function LowerBound(ms: seq<Mapping>, port: nat): (k: nat)
    ensures k <= |ms|
    ensures forall i :: 0 <= i < k ==> ms[i].port < port
    ensures k < |ms| ==> ms[k].port >= port
  {
    if ms == [] || ms[0].port >= port then 0 else 1 + LowerBound(ms[1..], port)
  }

  function UpperBound(ms: seq<Mapping>, port: nat): (k: nat)
    ensures k <= |ms|
    ensures forall i :: 0 <= i < k ==> ms[i].port <= port
    ensures k < |ms| ==> ms[k].port > port
  {
    if ms == [] || ms[0].port > port then 0 else 1 + UpperBound(ms[1..], port)
  }

  /** The uids mapped to a port, in the order of the entries. */
  function UidsOf(ms: seq<Mapping>, port: nat): seq<string> {
    if ms == [] then []
    else (if ms[0].port == port then [ms[0].uid] else []) + UidsOf(ms[1..], port)
  }

  lemma {:induction false} UidsConcat(a: seq<Mapping>, b: seq<Mapping>, port: nat)
    ensures UidsOf(a + b, port) == UidsOf(a, port) + UidsOf(b, port)
  {
    if a == [] {
      assert a + b == b;
    } else {
      assert (a + b)[1..] == a[1..] + b;
      UidsConcat(a[1..], b, port);
    }
  }

  lemma {:induction false} NoUids(ms: seq<Mapping>, port: nat)
    requires forall i :: 0 <= i < |ms| ==> ms[i].port != port
    ensures UidsOf(ms, port) == []
  {
    if ms != [] {
      NoUids(ms[1..], port);
    }
  }

  lemma {:induction false} AllUids(ms: seq<Mapping>, port: nat)
    requires forall i :: 0 <= i < |ms| ==> ms[i].port == port
    ensures |UidsOf(ms, port)| == |ms| && forall i :: 0 <= i < |ms| ==> UidsOf(ms, port)[i] == ms[i].uid
  {
    if ms != [] {
      AllUids(ms[1..], port);
    }
  }

  lemma UidsOfThree(a: seq<Mapping>, b: seq<Mapping>, c: seq<Mapping>, port: nat)
    requires forall i :: 0 <= i < |a| ==> a[i].port != port
    requires forall i :: 0 <= i < |c| ==> c[i].port != port
    ensures UidsOf(a + b + c, port) == UidsOf(b, port)
  {
    UidsConcat(a + b, c, port);
    UidsConcat(a, b, port);
    NoUids(a, port);
    NoUids(c, port);
  }

  lemma Bounds(ms: seq<Mapping>, port: nat)
    requires Sorted(ms)
    ensures var lo, hi := LowerBound(ms, port), UpperBound(ms, port);
            && lo <= hi && (forall i :: lo <= i < hi ==> ms[i].port == port)
            && (forall i :: hi <= i < |ms| ==> ms[i].port > port)
  {
  }

  lemma CutInThree(ms: seq<Mapping>, lo: nat, hi: nat)
    requires lo <= hi <= |ms|
    ensures ms == ms[..lo] + ms[lo..hi] + ms[hi..]
  {
  }

  /** The entries between the two bounds are just those of the port. */
  lemma RangeIsPort(ms: seq<Mapping>, port: nat)
    requires Sorted(ms)
    ensures LowerBound(ms, port) <= UpperBound(ms, port)
    ensures var range := ms[LowerBound(ms, port)..UpperBound(ms, port)];
            && |range| == |UidsOf(ms, port)|
            && forall i :: 0 <= i < |range| ==> range[i] == Mapping(port, UidsOf(ms, port)[i])
  {
    var lo, hi := LowerBound(ms, port), UpperBound(ms, port);
    Bounds(ms, port);
    var range := ms[lo..hi];
    CutInThree(ms, lo, hi);
    UidsOfThree(ms[..lo], range, ms[hi..], port);
    AllUids(range, port);
    forall i | 0 <= i < |range|
      ensures range[i] == Mapping(port, UidsOf(ms, port)[i])
    {
      assert range[i].port == port;
    }
  }

  /** `emplace`: behind the entries of the same port. */
  function Emplace(ms: seq<Mapping>, m: Mapping): seq<Mapping> {
    var k := UpperBound(ms, m.port);
    ms[..k] + [m] + ms[k..]
  }

  lemma EmplaceSorted(ms: seq<Mapping>, m: Mapping)
    requires Sorted(ms)
    ensures Sorted(Emplace(ms, m))
  {
    Bounds(ms, m.port);
  }

  lemma UidsOfOneMore(a: seq<Mapping>, m: Mapping, b: seq<Mapping>, port: nat)
    requires port == m.port ==> forall i :: 0 <= i < |b| ==> b[i].port != port
    ensures UidsOf(a + [m] + b, port) == UidsOf(a + b, port) + (if port == m.port then [m.uid] else [])
  {
    UidsConcat(a + [m], b, port);
    UidsConcat(a, [m], port);
    UidsConcat(a, b, port);
    assert UidsOf([m], port) == (if port == m.port then [m.uid] else []) + UidsOf([], port);
    if port == m.port {
      NoUids(b, port);
    }
  }

  lemma EmplaceKeepsOrder(ms: seq<Mapping>, m: Mapping, port: nat)
    requires Sorted(ms)
    ensures Sorted(Emplace(ms, m))
    ensures UidsOf(Emplace(ms, m), port) == UidsOf(ms, port) + (if port == m.port then [m.uid] else [])
  {
    var k := UpperBound(ms, m.port);
    EmplaceSorted(ms, m);
    Bounds(ms, m.port);
    UidsOfOneMore(ms[..k], m, ms[k..], port);
    assert ms == ms[..k] + ms[k..];
  }

  // Calls and what they amount to --------------------------------------------------------------------

  type Plugins = map<string, PluginType>

  datatype Call = Load(uid: string, kind: PluginType) | Map(port: nat, uid: string)

  /** A call is accepted if the plugin is a loaded translator and not the first one on that port. */
  predicate Accepts(loaded: Plugins, uids: seq<string>, uid: string) {
    uid in loaded && loaded[uid] == Translator && !(uids != [] && uids[0] == uid)
  }

  function WithPlugin(loaded: Plugins, uid: string, kind: PluginType): Plugins {
    if uid in loaded then loaded else loaded[uid := kind]
  }

  /** The plugins loaded after a series of calls. */
  function Loaded(start: Plugins, calls: seq<Call>): Plugins {
    if calls == [] then start
    else
      var before := Loaded(start, calls[..|calls| - 1]);
      match calls[|calls| - 1]
      case Load(uid, kind) => WithPlugin(before, uid, kind)
      case Map(_, _) => before
  }

  /** The uids a series of calls leaves on a port: those of the accepted calls, in call order. */
  function Accepted(start: Plugins, calls: seq<Call>, port: nat): seq<string> {
    if calls == [] then []
    else
      var front := calls[..|calls| - 1];
      MoreAccepted(Loaded(start, front), Accepted(start, front, port), calls[|calls| - 1], port)
  }

  function MoreAccepted(loaded: Plugins, uids: seq<string>, c: Call, port: nat): seq<string> {
    if c.Map? && c.port == port && Accepts(loaded, uids, c.uid) then uids + [c.uid] else uids
  }

  /** The call at `i` maps a port, and is accepted with what was loaded and mapped before it. */
  predicate IsAccepted(start: Plugins, calls: seq<Call>, i: nat)
    requires i < |calls|
  {
    && calls[i].Map?
    && Accepts(Loaded(start, calls[..i]), Accepted(start, calls[..i], calls[i].port), calls[i].uid)
  }

  class Manager {
    var loaded: Plugins
    var mapping: seq<Mapping>

    constructor ()
      ensures loaded == map[] && mapping == []
    {
      loaded, mapping := map[], [];
    }

    /** A plugin that is already loaded under the uid stays. */
    method Add(uid: string, kind: PluginType)
      modifies this`loaded
      ensures loaded == WithPlugin(old(loaded), uid, kind)
    {
      if uid !in loaded {
        loaded := loaded[uid := kind];
      }
    }

    method MapPort(port: nat, uid: string) returns (ok: bool)
      requires Sorted(mapping)
      modifies this`mapping
      ensures Sorted(mapping)
      ensures ok == Accepts(loaded, UidsOf(old(mapping), port), uid)
      ensures forall p :: UidsOf(mapping, p)
                == if ok && p == port then UidsOf(old(mapping), p) + [uid] else UidsOf(old(mapping), p)
      ensures !ok ==> mapping == old(mapping)
      ensures ok ==> multiset(mapping) == multiset(old(mapping)) + multiset{Mapping(port, uid)}
    {
      ok := false;
      if uid !in loaded {
        return;
      }
      if loaded[uid] != Translator {
        return;
      }
      FirstOfPort(mapping, port);
      var it := LowerBound(mapping, port);           // find: the first entry of the port
      if it < |mapping| && mapping[it].port == port && mapping[it].uid == uid {
        return;
      }
      EmplaceAll(mapping, Mapping(port, uid));
      mapping := Emplace(mapping, Mapping(port, uid));
      ok := true;
    }

    /** The entries of one port. */
    method ListPort(port: nat) returns (range: seq<Mapping>)
      requires Sorted(mapping)
      ensures |range| == |UidsOf(mapping, port)|
      ensures forall i :: 0 <= i < |range| ==> range[i] == Mapping(port, UidsOf(mapping, port)[i])
    {
      RangeIsPort(mapping, port);
      range := mapping[LowerBound(mapping, port)..UpperBound(mapping, port)];
    }

    method ListAll() returns (range: seq<Mapping>)
      ensures range == mapping
    {
      range := mapping;
    }

    /** A new connection goes through the entries of its port and keeps the last uid it sees. */
    method Choose(port: nat) returns (uid: string)
      requires Sorted(mapping)
      ensures var uids := UidsOf(mapping, port);
              uid == if uids == [] then "" else uids[|uids| - 1]
    {
      var range := ListPort(port);
      uid := "";
      var i := 0;
      while i < |range|
        invariant 0 <= i <= |range|
        invariant uid == if i == 0 then "" else range[i - 1].uid
      {
        uid := range[i].uid;
        i := i + 1;
      }
    }

    method Do(c: Call) returns (ok: bool)
      requires Sorted(mapping)
      modifies this
      ensures Sorted(mapping)
      ensures ok == (c.Map? && Accepts(old(loaded), UidsOf(old(mapping), c.port), c.uid))
      ensures loaded == if c.Load? then WithPlugin(old(loaded), c.uid, c.kind) else old(loaded)
      ensures forall p :: UidsOf(mapping, p) == MoreAccepted(old(loaded), UidsOf(old(mapping), p), c, p)
    {
      match c {
        case Load(uid, kind) =>
          Add(uid, kind);
          ok := false;
        case Map(port, uid) =>
          ok := MapPort(port, uid);
      }
    }

    /** Any series of calls that load plugins and map ports, from an empty index: every port ends up with
        the accepted ones, in call order, and every call has said whether it was accepted. */
    method DoAll(calls: seq<Call>) returns (oks: seq<bool>)
      requires mapping == []
      modifies this
      ensures Sorted(mapping) && loaded == Loaded(old(loaded), calls)
      ensures Tracks(mapping, old(loaded), calls)
      ensures Reported(oks, old(loaded), calls)
    {
      ghost var start := loaded;
      oks := [];
      var i := 0;
      while i < |calls|
        invariant 0 <= i <= |calls| && Sorted(mapping)
        invariant loaded == Loaded(start, calls[..i])
        invariant Tracks(mapping, start, calls[..i])
        invariant Reported(oks, start, calls[..i])
      {
        ghost var was := mapping;
        var ok := Do(calls[i]);
        Sequences.Unsnoc(calls, i);
        TracksOneMore(was, mapping, start, calls[..i], calls[i]);
        ReportedOneMore(oks, start, calls[..i], calls[i], ok);
        oks := oks + [ok];
        i := i + 1;
      }
      assert calls[..i] == calls;
    }
  }

  /** Every port holds the accepted calls for it. */
  ghost predicate Tracks(ms: seq<Mapping>, start: Plugins, calls: seq<Call>) {
    forall p :: UidsOf(ms, p) == Accepted(start, calls, p)
  }

  /** Every answer says whether its call was accepted. */
  predicate Reported(oks: seq<bool>, start: Plugins, calls: seq<Call>) {
    |oks| == |calls| && forall i :: 0 <= i < |calls| ==> oks[i] == IsAccepted(start, calls, i)
  }

  lemma AcceptedOneMore(start: Plugins, calls: seq<Call>, c: Call, port: nat)
    ensures Accepted(start, calls + [c], port)
            == MoreAccepted(Loaded(start, calls), Accepted(start, calls, port), c, port)
  {
    assert (calls + [c])[..|calls|] == calls;
  }

  lemma TracksOneMore(was: seq<Mapping>, ms: seq<Mapping>, start: Plugins, calls: seq<Call>, c: Call)
    requires Tracks(was, start, calls)
    requires forall p :: UidsOf(ms, p) == MoreAccepted(Loaded(start, calls), UidsOf(was, p), c, p)
    ensures Tracks(ms, start, calls + [c])
    ensures Loaded(start, calls + [c])
            == if c.Load? then WithPlugin(Loaded(start, calls), c.uid, c.kind) else Loaded(start, calls)
  {
    assert (calls + [c])[..|calls|] == calls;
    forall p
      ensures UidsOf(ms, p) == Accepted(start, calls + [c], p)
    {
      AcceptedOneMore(start, calls, c, p);
      assert UidsOf(was, p) == Accepted(start, calls, p);
    }
  }

  lemma ReportedOneMore(oks: seq<bool>, start: Plugins, calls: seq<Call>, c: Call, ok: bool)
    requires Reported(oks, start, calls)
    requires ok == (c.Map? && Accepts(Loaded(start, calls), Accepted(start, calls, c.port), c.uid))
    ensures Reported(oks + [ok], start, calls + [c])
  {
    hide Accepts, Loaded, Accepted;
    var all := calls + [c];
    forall i | 0 <= i < |all|
      ensures (oks + [ok])[i] == IsAccepted(start, all, i)
    {
      assert all[..i] == calls[..i];
      if i < |calls| {
        assert oks[i] == IsAccepted(start, calls, i);
      } else {
        assert calls[..i] == calls;
      }
    }
  }

  /** An accepted call adds its entry and nothing else. */
  lemma EmplaceAll(ms: seq<Mapping>, m: Mapping)
    requires Sorted(ms)
    ensures Sorted(Emplace(ms, m)) && multiset(Emplace(ms, m)) == multiset(ms) + multiset{m}
    ensures forall p :: UidsOf(Emplace(ms, m), p) == if p == m.port then UidsOf(ms, p) + [m.uid] else UidsOf(ms, p)
  {
    var k := UpperBound(ms, m.port);
    assert ms == ms[..k] + ms[k..];
    forall p
      ensures UidsOf(Emplace(ms, m), p) == if p == m.port then UidsOf(ms, p) + [m.uid] else UidsOf(ms, p)
    {
      EmplaceKeepsOrder(ms, m, p);
      assert p != m.port ==> UidsOf(ms, p) + [] == UidsOf(ms, p);
    }
    EmplaceSorted(ms, m);
  }

  lemma FirstOfPort(ms: seq<Mapping>, port: nat)
    requires Sorted(ms)
    ensures var k, uids := LowerBound(ms, port), UidsOf(ms, port);
            (k < |ms| && ms[k].port == port <==> uids != []) && (uids != [] ==> ms[k].uid == uids[0])
  {
    RangeIsPort(ms, port);
    var lo, hi := LowerBound(ms, port), UpperBound(ms, port);
    if lo < |ms| && ms[lo].port == port {
      assert lo < hi;
    }
    if UidsOf(ms, port) != [] {
      assert ms[lo..hi][0] == ms[lo];
    }
  }

  /** The last uid on a port is that of the latest call for it that returned true. */
  lemma {:induction false} LastAccepted(start: Plugins, calls: seq<Call>, port: nat, k: nat)
    requires k < |calls| && calls[k].Map? && calls[k].port == port && IsAccepted(start, calls, k)
    requires forall j :: k < j < |calls| && calls[j].Map? && calls[j].port == port ==> !IsAccepted(start, calls, j)
    ensures var uids := Accepted(start, calls, port);
            uids != [] && uids[|uids| - 1] == calls[k].uid
    decreases |calls|
  {
    var n := |calls| - 1;
    if k < n {
      var front := calls[..n];
      assert front[..k] == calls[..k];
      forall j | k < j < n && front[j].Map? && front[j].port == port
        ensures !IsAccepted(start, front, j)
      {
        assert front[..j] == calls[..j];
      }
      LastAccepted(start, front, port, k);
      assert calls[n].Map? && calls[n].port == port ==> !IsAccepted(start, calls, n);
    }
  }

  /** Only translators that are loaded are ever on a port, and the first uid is on it once. */
  lemma {:induction false} PortsHoldTranslators(start: Plugins, calls: seq<Call>, port: nat)
    ensures forall uid :: uid in Accepted(start, calls, port) ==>
              uid in Loaded(start, calls) && Loaded(start, calls)[uid] == Translator
    ensures OnceAtFront(Accepted(start, calls, port))
    decreases |calls|
  {
    if calls != [] {
      var front, c := calls[..|calls| - 1], calls[|calls| - 1];
      PortsHoldTranslators(start, front, port);
      FrontStaysOnce(Loaded(start, front), Accepted(start, front, port), c, port);
    }
  }

  predicate OnceAtFront(uids: seq<string>) {
    forall i :: 1 <= i < |uids| ==> uids[i] != uids[0]
  }

  lemma FrontStaysOnce(loaded: Plugins, uids: seq<string>, c: Call, port: nat)
    requires OnceAtFront(uids)
    ensures OnceAtFront(MoreAccepted(loaded, uids, c, port))
  {
    var more := MoreAccepted(loaded, uids, c, port);
    forall i | 1 <= i < |more|
      ensures more[i] != more[0]
    {
      if i < |uids| {
        assert more[i] == uids[i] && more[0] == uids[0];
      }
    }
  }

  lemma LoadedOneMore(start: Plugins, calls: seq<Call>, c: Call)
    ensures Loaded(start, calls + [c])
            == if c.Load? then WithPlugin(Loaded(start, calls), c.uid, c.kind) else Loaded(start, calls)
  {
    assert (calls + [c])[..|calls|] == calls;
  }

  // Two loads of one uid and two mappings, from nothing.
  lemma TwoAndTwo(start: Plugins, uid: string, kind: PluginType, again: PluginType, port: nat, two: string)
    requires start == map[]
    ensures var calls := [Load(uid, kind), Load(uid, again), Map(port, uid), Map(port, two)];
            Accepted(start, calls, port)
            == MoreAccepted(map[uid := kind], MoreAccepted(map[uid := kind], [], Map(port, uid), port),
                            Map(port, two), port)
  {
    hide MoreAccepted, Loaded, Accepted;
    NoCalls(start, port);
    var one := [Load(uid, kind)];
    var loads := [Load(uid, kind), Load(uid, again)];
    var three := [Load(uid, kind), Load(uid, again), Map(port, uid)];
    assert [] + one == one && one + [Load(uid, again)] == loads && loads + [Map(port, uid)] == three;
    assert three + [Map(port, two)] == [Load(uid, kind), Load(uid, again), Map(port, uid), Map(port, two)];
    LoadedOneMore(start, [], Load(uid, kind));
    LoadedOneMore(start, one, Load(uid, again));
    LoadedOneMore(start, loads, Map(port, uid));
    AcceptedOneMore(start, [], Load(uid, kind), port);
    AcceptedOneMore(start, one, Load(uid, again), port);
    AcceptedOneMore(start, loads, Map(port, uid), port);
    AcceptedOneMore(start, three, Map(port, two), port);
    LoadMapsNothing(start, uid, kind, port);
    LoadMapsNothing(Loaded(start, one), uid, again, port);
  }

  lemma NoCalls(start: Plugins, port: nat)
    ensures Loaded(start, []) == start && Accepted(start, [], port) == []
  {
  }

  lemma LoadMapsNothing(loaded: Plugins, uid: string, kind: PluginType, port: nat)
    ensures MoreAccepted(loaded, [], Load(uid, kind), port) == []
  {
  }

  /** A plugin that is not a translator maps nothing, nor does one that is not loaded. */
  lemma RefusedExample(uid: string, other: string, port: nat)
    requires uid != other
    ensures var calls := [Load(uid, Dispatcher), Load(uid, Translator), Map(port, uid), Map(port, other)];
            Accepted(map[], calls, port) == []
  {
    TwoAndTwo(map[], uid, Dispatcher, Translator, port, other);
    hide Accepted;
  }

  /** A plugin loaded again stays what it was, and is mapped once. */
  lemma LoadedTwiceExample(uid: string, port: nat)
    ensures var calls := [Load(uid, Translator), Load(uid, Dispatcher), Map(port, uid), Map(port, uid)];
            Accepted(map[], calls, port) == [uid]
  {
    TwoAndTwo(map[], uid, Translator, Dispatcher, port, uid);
    hide Accepted;
  }

  /** A uid that is first on its port is refused even when another one was mapped over it. */
  lemma RemapExample(start: Plugins, port: nat)
    requires "a" in start && start["a"] == Translator && "b" in start && start["b"] == Translator
    ensures Accepted(start, [Map(port, "a"), Map(port, "b"), Map(port, "a")], port) == ["a", "b"]
  {
    var one, two := [Map(port, "a")], [Map(port, "a"), Map(port, "b")];
    AcceptedOneMore(start, [], Map(port, "a"), port);
    AcceptedOneMore(start, one, Map(port, "b"), port);
    AcceptedOneMore(start, two, Map(port, "a"), port);
    assert [] + one == one && one + [Map(port, "b")] == two;
    assert two + [Map(port, "a")] == [Map(port, "a"), Map(port, "b"), Map(port, "a")];
    assert Loaded(start, one) == start by {
      assert one[..0] == [];
    }
    assert Loaded(start, two) == start by {
      assert two[..1] == one;
    }
  }
}
