/** The route table of the request router: a sorted table from (port, translator) to the dispatchers
    that listed the pair, built with an iterator that is kept from one entry to the next. */
module RouteTable {
  import opened Wrappers
  import Sequences

  datatype Key = Key(port: nat, translator: string)

  // A dispatcher instance: its plugin and its place in the configuration.
  datatype Dispatcher = Dispatcher(uid: string, place: nat)

  datatype Source = Source(translator: string, ports: seq<nat>)
  datatype Setting = Setting(uid: string, sources: seq<Source>)

  // Order of keys --------------------------------------------------------------------------------

  predicate TextLess(a: string, b: string) {
    if b == "" then false
    else if a == "" then true
    else if a[0] == b[0] then TextLess(a[1..], b[1..])
    else a[0] < b[0]
  }

  predicate Less(a: Key, b: Key) {
    a.port < b.port || (a.port == b.port && TextLess(a.translator, b.translator))
  }

  lemma {:induction false} TextTotal(a: string, b: string)
    ensures a == b <==> !TextLess(a, b) && !TextLess(b, a)
    ensures !(TextLess(a, b) && TextLess(b, a))
  {
    if a != "" && b != "" && a[0] == b[0] {
      TextTotal(a[1..], b[1..]);
      assert a == [a[0]] + a[1..] && b == [b[0]] + b[1..];
    }
  }

  lemma {:induction false} TextTransitive(a: string, b: string, c: string)
    requires TextLess(a, b) && TextLess(b, c)
    ensures TextLess(a, c)
  {
    if a != "" && a[0] == b[0] && b[0] == c[0] {
      TextTransitive(a[1..], b[1..], c[1..]);
    }
  }

  lemma KeyOrder(a: Key, b: Key, c: Key)
    ensures a == b <==> !Less(a, b) && !Less(b, a)
    ensures !(Less(a, b) && Less(b, a))
    ensures Less(a, b) && Less(b, c) ==> Less(a, c)
  {
    TextTotal(a.translator, b.translator);
    if TextLess(a.translator, b.translator) && TextLess(b.translator, c.translator) {
      TextTransitive(a.translator, b.translator, c.translator);
    }
  }

  // The table ------------------------------------------------------------------------------------

  datatype Entry = Entry(key: Key, targets: seq<Dispatcher>)

  predicate Sorted(es: seq<Entry>) {
    forall i, j :: 0 <= i < j < |es| ==> Less(es[i].key, es[j].key)
  }

  /** Where a key is, or would go. */
  function LowerBound(es: seq<Entry>, key: Key): (k: nat)
    ensures k <= |es|
    ensures forall i :: 0 <= i < k ==> Less(es[i].key, key)
    ensures k < |es| ==> !Less(es[k].key, key)
  {
    if es == [] || !Less(es[0].key, key) then 0 else 1 + LowerBound(es[1..], key)
  }

  /** `find`: the place of the key, or the end. */
  function Find(es: seq<Entry>, key: Key): (k: nat)
    ensures k <= |es| && (k < |es| ==> es[k].key == key)
  {
    var k := LowerBound(es, key);
    if k < |es| && es[k].key == key then k else |es|
  }

  function Lookup(es: seq<Entry>, key: Key): Option<seq<Dispatcher>> {
    var k := Find(es, key);
    if k < |es| then Some(es[k].targets) else None
  }

  lemma FindExact(es: seq<Entry>, k: nat)
    requires Sorted(es) && k < |es|
    ensures Find(es, es[k].key) == k
  {
    var j := LowerBound(es, es[k].key);
    KeyOrder(es[k].key, es[k].key, es[k].key);
  }

  lemma AbsentIff(es: seq<Entry>, key: Key)
    requires Sorted(es)
    ensures Find(es, key) == |es| <==> forall i :: 0 <= i < |es| ==> es[i].key != key
  {
    if Find(es, key) == |es| {
      forall i | 0 <= i < |es|
        ensures es[i].key != key
      {
        if es[i].key == key {
          FindExact(es, i);
        }
      }
    }
  }

  function Inserted(es: seq<Entry>, e: Entry): (all: seq<Entry>)
    ensures |all| == |es| + 1
    ensures var k := LowerBound(es, e.key);
            forall i :: 0 <= i < |all| ==> all[i] == if i < k then es[i] else if i == k then e else es[i - 1]
  {
    var k := LowerBound(es, e.key);
    es[..k] + [e] + es[k..]
  }

  /** An insertion at the lower bound keeps the order and moves later entries one place on. */
  lemma InsertKeepsOrder(es: seq<Entry>, e: Entry)
    requires Sorted(es) && Find(es, e.key) == |es|
    ensures Sorted(Inserted(es, e))
  {
    var k := LowerBound(es, e.key);
    AbsentIff(es, e.key);
    forall j | k <= j < |es|
      ensures Less(e.key, es[j].key)
    {
      KeyOrder(e.key, es[k].key, es[j].key);
    }
  }

  lemma LookupAfterInsert(es: seq<Entry>, e: Entry, key: Key)
    requires Sorted(es) && Find(es, e.key) == |es|
    ensures Lookup(Inserted(es, e), key) == if key == e.key then Some(e.targets) else Lookup(es, key)
  {
    var k := LowerBound(es, e.key);
    var all := Inserted(es, e);
    InsertKeepsOrder(es, e);
    if key == e.key {
      assert all[k] == e;
      FindExact(all, k);
    } else {
      var f := Find(es, key);
      if f < |es| {
        var g := if f < k then f else f + 1;
        assert all[g] == es[f];
        FindExact(all, g);
      } else {
        AbsentIff(es, key);
        AbsentIff(all, key);
      }
    }
  }

  lemma LookupAfterPush(es: seq<Entry>, k: nat, d: Dispatcher, key: Key)
    requires Sorted(es) && k < |es|
    ensures var all := es[k := Entry(es[k].key, es[k].targets + [d])];
            && Sorted(all)
            && Lookup(all, key) == if key == es[k].key then Some(es[k].targets + [d]) else Lookup(es, key)
  {
    var all := es[k := Entry(es[k].key, es[k].targets + [d])];
    assert forall i :: 0 <= i < |es| ==> all[i].key == es[i].key;
    assert Sorted(all);
    var f := Find(es, key);
    if f < |es| {
      FindExact(all, f);
      FindExact(es, f);
    } else {
      AbsentIff(es, key);
      AbsentIff(all, key);
    }
  }

  // Grouping -------------------------------------------------------------------------------------

  /** The (key, dispatcher) pairs a configuration lists, in its order. */
  function PortPairs(d: Dispatcher, translator: string, ports: seq<nat>): seq<(Key, Dispatcher)> {
    if ports == [] then [] else [(Key(ports[0], translator), d)] + PortPairs(d, translator, ports[1..])
  }

  function SourcePairs(d: Dispatcher, sources: seq<Source>): seq<(Key, Dispatcher)> {
    if sources == [] then []
    else PortPairs(d, sources[0].translator, sources[0].ports) + SourcePairs(d, sources[1..])
  }

  function Pairs(settings: seq<Setting>, place: nat): seq<(Key, Dispatcher)> {
    if settings == [] then []
    else SourcePairs(Dispatcher(settings[0].uid, place), settings[0].sources) + Pairs(settings[1..], place + 1)
  }

  /** The dispatchers paired with the key, in order and as often as they are listed. */
  function Group(pairs: seq<(Key, Dispatcher)>, key: Key): seq<Dispatcher> {
    if pairs == [] then []
    else (if pairs[0].0 == key then [pairs[0].1] else []) + Group(pairs[1..], key)
  }

  lemma {:induction false} GroupConcat(a: seq<(Key, Dispatcher)>, b: seq<(Key, Dispatcher)>, key: Key)
    ensures Group(a + b, key) == Group(a, key) + Group(b, key)
  {
    if a == [] {
      assert a + b == b;
    } else {
      assert (a + b)[1..] == a[1..] + b;
      GroupConcat(a[1..], b, key);
    }
  }

  /** The table groups the pairs: a key is in it exactly if some pair has it. */
  ghost predicate Groups(es: seq<Entry>, pairs: seq<(Key, Dispatcher)>) {
    && Sorted(es)
    && forall key :: Lookup(es, key) == if Group(pairs, key) == [] then None else Some(Group(pairs, key))
  }

  function FirstMissing(settings: seq<Setting>, loaded: set<string>): (k: nat)
    ensures k <= |settings|
    ensures forall i :: 0 <= i < k ==> settings[i].uid in loaded
    ensures k < |settings| ==> settings[k].uid !in loaded
  {
    if settings == [] || settings[0].uid !in loaded then 0 else 1 + FirstMissing(settings[1..], loaded)
  }

  // One dispatcher more for one key.
  function Extended(found: Option<seq<Dispatcher>>, d: Dispatcher): Option<seq<Dispatcher>> {
    Some((if found.None? then [] else found.value) + [d])
  }

  lemma GroupOfMore(pairs: seq<(Key, Dispatcher)>, key: Key, d: Dispatcher, k: Key)
    ensures Group(pairs + [(key, d)], k) == Group(pairs, k) + (if k == key then [d] else [])
  {
    GroupConcat(pairs, [(key, d)], k);
    assert Group([(key, d)], k) == (if k == key then [d] else []) + Group([], k);
  }

  lemma GroupsOneMore(es: seq<Entry>, pairs: seq<(Key, Dispatcher)>, after: seq<Entry>, key: Key, d: Dispatcher)
    requires Groups(es, pairs) && Sorted(after)
    requires forall k :: Lookup(after, k) == if k != key then Lookup(es, k) else Extended(Lookup(es, key), d)
    ensures Groups(after, pairs + [(key, d)])
  {
    var more := pairs + [(key, d)];
    forall k
      ensures Lookup(after, k) == if Group(more, k) == [] then None else Some(Group(more, k))
    {
      GroupOfMore(pairs, key, d, k);
      assert Lookup(es, k) == if Group(pairs, k) == [] then None else Some(Group(pairs, k));
      if k != key {
        assert Group(pairs, k) + [] == Group(pairs, k);
      }
    }
  }

  class Table {
    var entries: seq<Entry>

    constructor ()
      ensures entries == [] && Groups(entries, [])
    {
      entries := [];
    }

    /** One port of the configuration. Whatever entry the iterator was left at, the outcome is that
        of a fresh lookup; afterwards it stands at the entry of the key. */
    method AddRoute(it: nat, key: Key, d: Dispatcher, ghost pairs: seq<(Key, Dispatcher)>) returns (next: nat)
      requires it <= |entries| && Groups(entries, pairs)
      modifies this
      ensures next < |entries| && entries[next].key == key
      ensures Groups(entries, pairs + [(key, d)])
    {
      ghost var was := entries;
      next := it;
      if next == |entries| || entries[next].key != key {
        next := Find(entries, key);
      } else {
        FindExact(entries, next);
      }
      if next == |entries| {
        var e := Entry(key, [d]);
        next := LowerBound(entries, key);
        entries := entries[..next] + [e] + entries[next..];
        InsertKeepsOrder(was, e);
        forall k
          ensures Lookup(entries, k) == if k != key then Lookup(was, k) else Extended(Lookup(was, key), d)
        {
          LookupAfterInsert(was, e, k);
          assert [] + [d] == [d];
        }
      } else {
        entries := entries[next := Entry(key, entries[next].targets + [d])];
        forall k
          ensures Lookup(entries, k) == if k != key then Lookup(was, k) else Extended(Lookup(was, key), d)
        {
          LookupAfterPush(was, next, d, k);
        }
      }
      GroupsOneMore(was, pairs, entries, key, d);
    }

    // The ports of one translator under one dispatcher.
    method LoadPorts(it: nat, d: Dispatcher, source: Source, ghost pairs: seq<(Key, Dispatcher)>)
      returns (next: nat)
      requires it <= |entries| && Groups(entries, pairs)
      modifies this
      ensures next <= |entries|
      ensures Groups(entries, pairs + PortPairs(d, source.translator, source.ports))
    {
      next := it;
      ghost var done := pairs;
      var i := 0;
      assert source.ports[0..] == source.ports;
      while i < |source.ports|
        invariant 0 <= i <= |source.ports| && next <= |entries|
        invariant Groups(entries, done)
        invariant done + PortPairs(d, source.translator, source.ports[i..])
               == pairs + PortPairs(d, source.translator, source.ports)
      {
        var key := Key(source.ports[i], source.translator);
        next := AddRoute(next, key, d, done);
        assert source.ports[i..][1..] == source.ports[i + 1..];
        Sequences.Assoc(done, [(key, d)], PortPairs(d, source.translator, source.ports[i + 1..]));
        done := done + [(key, d)];
        i := i + 1;
      }
      assert done + [] == done;
    }

    method LoadSources(d: Dispatcher, sources: seq<Source>, ghost pairs: seq<(Key, Dispatcher)>)
      requires Groups(entries, pairs)
      modifies this
      ensures Groups(entries, pairs + SourcePairs(d, sources))
    {
      var it: nat := |entries|;               // every dispatcher starts at the end
      ghost var done := pairs;
      var i := 0;
      assert sources[0..] == sources;
      while i < |sources|
        invariant 0 <= i <= |sources| && it <= |entries|
        invariant Groups(entries, done)
        invariant done + SourcePairs(d, sources[i..]) == pairs + SourcePairs(d, sources)
      {
        it := LoadPorts(it, d, sources[i], done);
        assert sources[i..][1..] == sources[i + 1..];
        ghost var more := PortPairs(d, sources[i].translator, sources[i].ports);
        Sequences.Assoc(done, more, SourcePairs(d, sources[i + 1..]));
        done := done + more;
        i := i + 1;
      }
      assert done + [] == done;
    }

    /** The configuration, dispatcher by dispatcher, until one is not loaded. The table then maps every
        pair listed so far to exactly the dispatchers that list it, in order and multiplicity, and
        holds no other key. */
    method LoadSettings(settings: seq<Setting>, loaded: set<string>, ghost before: seq<(Key, Dispatcher)>)
      returns (ok: bool)
      requires Groups(entries, before)
      modifies this
      ensures ok <==> forall s :: s in settings ==> s.uid in loaded
      ensures Groups(entries, before + Pairs(settings[..FirstMissing(settings, loaded)], 0))
    {
      ghost var done := before;
      assert before + [] == before;
      var i := 0;
      while i < |settings|
        invariant 0 <= i <= FirstMissing(settings, loaded)
        invariant Groups(entries, done) && done == before + Pairs(settings[..i], 0)
      {
        if settings[i].uid !in loaded {
          assert settings[i] in settings;
          return false;
        }
        var d := Dispatcher(settings[i].uid, i);
        LoadSources(d, settings[i].sources, done);
        PairsOneMore(settings, i);
        Sequences.Assoc(before, Pairs(settings[..i], 0), SourcePairs(d, settings[i].sources));
        done := done + SourcePairs(d, settings[i].sources);
        i := i + 1;
      }
      ok := true;
    }

    /** The targets of a new connection: the dispatchers that list its port and translator, in the order
        they were loaded, if any does. */
    method Route(port: nat, translator: string, ghost pairs: seq<(Key, Dispatcher)>)
      returns (targets: Option<seq<Dispatcher>>)
      requires Groups(entries, pairs)
      ensures var group := Group(pairs, Key(port, translator));
              targets == if group == [] then None else Some(group)
    {
      var key := Key(port, translator);
      var k := Find(entries, key);
      targets := if k < |entries| then Some(entries[k].targets) else None;
      assert targets == Lookup(entries, key);
    }
  }

  lemma {:induction false} PairsSnoc(settings: seq<Setting>, last: Setting, place: nat)
    ensures Pairs(settings + [last], place)
            == Pairs(settings, place) + SourcePairs(Dispatcher(last.uid, place + |settings|), last.sources)
    decreases |settings|
  {
    if settings == [] {
      assert settings + [last] == [last];
      assert Pairs([last], place) == SourcePairs(Dispatcher(last.uid, place), last.sources) + Pairs([], place + 1);
    } else {
      var front := SourcePairs(Dispatcher(settings[0].uid, place), settings[0].sources);
      assert Pairs(settings + [last], place) == front + Pairs(settings[1..] + [last], place + 1) by {
        assert (settings + [last])[1..] == settings[1..] + [last];
      }
      PairsSnoc(settings[1..], last, place + 1);
      Sequences.Assoc(front, Pairs(settings[1..], place + 1),
                      SourcePairs(Dispatcher(last.uid, place + |settings|), last.sources));
    }
  }

  lemma PairsOneMore(settings: seq<Setting>, i: nat)
    requires i < |settings|
    ensures Pairs(settings[..i + 1], 0)
            == Pairs(settings[..i], 0) + SourcePairs(Dispatcher(settings[i].uid, i), settings[i].sources)
  {
    assert settings[..i + 1] == settings[..i] + [settings[i]];
    PairsSnoc(settings[..i], settings[i], 0);
  }
}
