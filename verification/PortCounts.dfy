/** How often parsePortBindings returns each mapping, counted on the request itself. */
module PortCounts {
  import opened Common
  import opened Ports

  /** The bindings, as positions in the request, that ask for port `k` on host port `h`. */
  function Slots(parse: Parser, bindings: map<string, seq<PortBinding>>, k: Key, h: string): set<(string, int)>
  {
    set spec, i | spec in bindings && 0 <= i < |bindings[spec]|
                  && parse(spec) == Some(k) && bindings[spec][i].hostPort == h :: (spec, i)
  }

  /** The bound specs for port `k` without any binding. */
  function BareSpecs(parse: Parser, bindings: map<string, seq<PortBinding>>, k: Key): set<string>
  {
    set spec | spec in bindings && bindings[spec] == [] && parse(spec) == Some(k)
  }

  /** The exposed specs for port `k`, unless a bound spec is for it. */
  function ExposedSpecs(parse: Parser, bindings: map<string, seq<PortBinding>>, exposed: map<string, ()>, k: Key):
    set<string>
  {
    set spec | spec in exposed && parse(spec) == Some(k) && forall b :: b in bindings ==> parse(b) != Some(k)
  }

  function Positions<T(==)>(spec: string, s: seq<T>, x: T): set<(string, int)>
  {
    set i | 0 <= i < |s| && s[i] == x :: (spec, i)
  }

  lemma {:induction false} PositionsCount<T>(spec: string, s: seq<T>, x: T)
    ensures multiset(s)[x] == |Positions(spec, s, x)|
  {
    if s == [] {
      assert Positions(spec, s, x) == {};
    } else {
      var init := s[..|s| - 1];
      PositionsCount(spec, init, x);
      assert s == init + [s[|s| - 1]];
      var last := if s[|s| - 1] == x then {(spec, |s| - 1)} else {};
      assert Positions(spec, s, x) == Positions(spec, init, x) + last;
    }
  }

  function Mapped(k: Key, h: string): PortMapping { PortMapping(h, k.port, k.proto) }

  lemma OneSpec(parse: Parser, spec: string, binds: seq<PortBinding>, k: Key, h: string)
    ensures BoundEntry(parse, spec, binds)[Mapped(k, h)] ==
      |Slots(parse, map[spec := binds], k, h)| + if h == "" then |BareSpecs(parse, map[spec := binds], k)| else 0
  {
    var m := map[spec := binds];
    if parse(spec) != Some(k) {
      assert Slots(parse, m, k, h) == {} && BareSpecs(parse, m, k) == {};
    } else if binds == [] {
      assert Slots(parse, m, k, h) == {} && BareSpecs(parse, m, k) == {spec};
    } else {
      PositionsCount(spec, EntriesOf(k, binds), Mapped(k, h));
      assert Slots(parse, m, k, h) == Positions(spec, EntriesOf(k, binds), Mapped(k, h));
      assert BareSpecs(parse, m, k) == {};
    }
  }

  lemma SlotsSplit(parse: Parser, bindings: map<string, seq<PortBinding>>, spec: string, k: Key, h: string)
    requires spec in bindings
    ensures var rest, one := bindings - {spec}, map[spec := bindings[spec]];
      && |Slots(parse, bindings, k, h)| == |Slots(parse, rest, k, h)| + |Slots(parse, one, k, h)|
      && |BareSpecs(parse, bindings, k)| == |BareSpecs(parse, rest, k)| + |BareSpecs(parse, one, k)|
  {
    var rest, one := bindings - {spec}, map[spec := bindings[spec]];
    assert Slots(parse, bindings, k, h) == Slots(parse, rest, k, h) + Slots(parse, one, k, h);
    assert Slots(parse, rest, k, h) !! Slots(parse, one, k, h);
    assert BareSpecs(parse, bindings, k) == BareSpecs(parse, rest, k) + BareSpecs(parse, one, k);
    assert BareSpecs(parse, rest, k) !! BareSpecs(parse, one, k);
  }

  lemma {:induction false} BoundCount(parse: Parser, bindings: map<string, seq<PortBinding>>, k: Key, h: string)
    ensures BoundEntries(parse, bindings)[Mapped(k, h)] ==
      |Slots(parse, bindings, k, h)| + if h == "" then |BareSpecs(parse, bindings, k)| else 0
    decreases bindings.Keys
  {
    if bindings == map[] {
      assert Slots(parse, bindings, k, h) == {} && BareSpecs(parse, bindings, k) == {};
    } else {
      var spec :| spec in bindings;
      var rest := bindings - {spec};
      TakeOne(bindings, (s, binds) => BoundEntry(parse, s, binds), spec);
      BoundCount(parse, rest, k, h);
      OneSpec(parse, spec, bindings[spec], k, h);
      SlotsSplit(parse, bindings, spec, k, h);
    }
  }

  function Unbound(parse: Parser, bound: set<Key>, exposed: map<string, ()>, k: Key): set<string>
  {
    set spec | spec in exposed && parse(spec) == Some(k) && k !in bound
  }

  lemma {:induction false} ExposedCount(parse: Parser, bound: set<Key>, exposed: map<string, ()>, k: Key, h: string)
    ensures ExposedEntries(parse, bound, exposed)[Mapped(k, h)] ==
      if h == "" then |Unbound(parse, bound, exposed, k)| else 0
    decreases exposed.Keys
  {
    if exposed == map[] {
      assert Unbound(parse, bound, exposed, k) == {};
    } else {
      var spec :| spec in exposed;
      var rest := exposed - {spec};
      TakeOne(exposed, (s, _) => ExposedEntry(parse, bound, s), spec);
      ExposedCount(parse, bound, rest, k, h);
      var one := if parse(spec) == Some(k) && k !in bound then {spec} else {};
      assert Unbound(parse, bound, exposed, k) == Unbound(parse, bound, rest, k) + one;
    }
  }

  lemma BoundSpecs(parse: Parser, bindings: map<string, seq<PortBinding>>, k: Key)
    ensures k in BoundKeys(parse, bindings) <==> exists b :: b in bindings && parse(b) == Some(k)
  {
  }

  /**
   * The result has each mapping as often as the request asks for it: once per binding of that port and host port, and
   * without a host port once more per bound spec that has no bindings, or per exposed spec of a port not bound at all.
   */
  lemma ParsedCounts(
      parse: Parser, bindings: map<string, seq<PortBinding>>, exposed: map<string, ()>, out: seq<PortMapping>,
      k: Key, h: string)
    requires IsParsed(parse, bindings, exposed, out)
    ensures multiset(out)[PortMapping(h, k.port, k.proto)] ==
      |Slots(parse, bindings, k, h)| +
      if h == "" then |BareSpecs(parse, bindings, k)| + |ExposedSpecs(parse, bindings, exposed, k)| else 0
  {
    BoundCount(parse, bindings, k, h);
    ExposedCount(parse, BoundKeys(parse, bindings), exposed, k, h);
    BoundSpecs(parse, bindings, k);
    assert Unbound(parse, BoundKeys(parse, bindings), exposed, k) == ExposedSpecs(parse, bindings, exposed, k);
  }
}
