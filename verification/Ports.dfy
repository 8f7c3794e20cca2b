/** internal/podspec/spec.go and internal/server/summary.go: port specs, port mappings and inspect bindings. */
module Ports {
  import opened Common

  datatype PortMapping = PortMapping(hostPort: string, containerPort: nat, protocol: string)

  datatype PortBinding = PortBinding(hostIP: string, hostPort: string)

  datatype Key = Key(port: nat, proto: string)

  function KeyOf(m: PortMapping): Key { Key(m.containerPort, m.protocol) }

  // ---- parsePortSpec ----

  predicate IsProtocol(s: string) { s == "tcp" || s == "udp" || s == "sctp" }

  predicate IsPort(n: nat) { 0 < n <= 65535 }

  function ParsePortSpec(s: string): Option<Key>
  {
    var i := IndexOf(s, '/');
    var proto := if i < |s| then s[i + 1..] else "tcp";
    if !IsProtocol(proto) then None
    else
      match ParseUint16(s[..i])
      case None => None
      case Some(n) => if n == 0 then None else Some(Key(n, proto))
  }

  /** `fmt.Sprintf("%d/%s", port, proto)`, the key inspect shows. */
  function FormatKey(k: Key): string { Decimal(k.port) + "/" + k.proto }

  lemma {:induction false} FirstSlash(digits: string, rest: string)
    requires forall i :: 0 <= i < |digits| ==> IsDigit(digits[i])
    ensures IndexOf(digits + "/" + rest, '/') == |digits|
  {
    var s := digits + "/" + rest;
    assert s[|digits|] == '/';
    assert forall i :: 0 <= i < |digits| ==> s[i] == digits[i];
  }

  /** Parsing what inspect prints gives back port and protocol. */
  lemma ParseFormatted(k: Key)
    requires IsPort(k.port) && IsProtocol(k.proto)
    ensures ParsePortSpec(FormatKey(k)) == Some(k)
  {
    var digits := Decimal(k.port);
    var s := FormatKey(k);
    assert s == digits + "/" + k.proto;
    FirstSlash(digits, k.proto);
    assert s[..|digits|] == digits && s[|digits| + 1..] == k.proto;
    ParseDecimal(k.port);
  }

  /** The port specs: a decimal in 1..65535, alone for TCP or with a slash and a known protocol. */
  predicate Spells(s: string, digits: string, k: Key)
  {
    && ParseUint16(digits) == Some(k.port) && 1 <= k.port <= 65535
    && (k.proto == "tcp" || k.proto == "udp" || k.proto == "sctp")
    && (s == digits + "/" + k.proto || (s == digits && k.proto == "tcp"))
  }

  lemma SpelledParses(s: string, digits: string, k: Key)
    requires Spells(s, digits, k)
    ensures ParsePortSpec(s) == Some(k)
  {
    if s == digits + "/" + k.proto {
      FirstSlash(digits, k.proto);
      assert s[..|digits|] == digits && s[|digits| + 1..] == k.proto;
    } else {
      assert IndexOf(s, '/') == |s|;
      assert s[..|s|] == digits;
    }
  }

  lemma ParsePortSpecIff(s: string, k: Key)
    ensures ParsePortSpec(s) == Some(k) <==> exists digits :: Spells(s, digits, k)
  {
    if ParsePortSpec(s) == Some(k) {
      var i := IndexOf(s, '/');
      assert i < |s| ==> s == s[..i] + "/" + s[i + 1..];
      assert i == |s| ==> s[..i] == s;
      assert Spells(s, s[..i], k);
    }
    if digits :| Spells(s, digits, k) {
      SpelledParses(s, digits, k);
    }
  }

  // ---- the order of the annotation ----

  predicate Less(a: PortMapping, b: PortMapping)
  {
    if a.containerPort != b.containerPort then a.containerPort < b.containerPort
    else if a.protocol != b.protocol then StringLess(a.protocol, b.protocol)
    else StringLess(a.hostPort, b.hostPort)
  }

  predicate Sorted(s: seq<PortMapping>)
  {
    forall i, j :: 0 <= i < j < |s| ==> !Less(s[j], s[i])
  }

  /** Sorted means by port, then by protocol name, then by host port as text. */
  lemma SortedMeans(s: seq<PortMapping>, i: nat, j: nat)
    requires Sorted(s) && i < j < |s|
    ensures s[i].containerPort <= s[j].containerPort
    ensures s[i].containerPort == s[j].containerPort ==>
      s[i].protocol == s[j].protocol || StringLess(s[i].protocol, s[j].protocol)
    ensures s[i].containerPort == s[j].containerPort && s[i].protocol == s[j].protocol ==>
      s[i].hostPort == s[j].hostPort || StringLess(s[i].hostPort, s[j].hostPort)
  {
    StringLessTotal(s[i].protocol, s[j].protocol);
    StringLessTotal(s[i].hostPort, s[j].hostPort);
  }

  lemma LessTotal(a: PortMapping, b: PortMapping)
    ensures Less(a, b) || a == b || Less(b, a)
    ensures !(Less(a, b) && Less(b, a)) && !Less(a, a)
  {
    StringLessTotal(a.protocol, b.protocol);
    StringLessTotal(a.hostPort, b.hostPort);
  }

  lemma NotLessTransitive(a: PortMapping, b: PortMapping, c: PortMapping)
    requires !Less(b, a) && !Less(c, b)
    ensures !Less(c, a)
  {
    LessTotal(a, b);
    LessTotal(b, c);
    LessTotal(a, c);
    if Less(c, a) && Less(a, b) && Less(b, c) {
      if a.containerPort == b.containerPort == c.containerPort {
        StringLessTotal(a.protocol, b.protocol);
        StringLessTotal(b.protocol, c.protocol);
        if a.protocol == b.protocol == c.protocol {
          StringLessTransitive(a.hostPort, b.hostPort, c.hostPort);
        } else if a.protocol != b.protocol && b.protocol != c.protocol {
          StringLessTransitive(a.protocol, b.protocol, c.protocol);
          StringLessTotal(a.protocol, c.protocol);
        }
      }
    }
  }

  /** What sort.Slice does with the less function above. */
  function Insert(m: PortMapping, s: seq<PortMapping>): (r: seq<PortMapping>)
    ensures multiset(r) == multiset(s) + multiset{m}
  {
    if s == [] || !Less(s[0], m) then [m] + s
    else
      assert s == [s[0]] + s[1..];
      [s[0]] + Insert(m, s[1..])
  }

  function Sort(s: seq<PortMapping>): (r: seq<PortMapping>)
    ensures multiset(r) == multiset(s)
  {
    if s == [] then []
    else
      assert s == [s[0]] + s[1..];
      Insert(s[0], Sort(s[1..]))
  }

  lemma {:induction false} InsertSorted(m: PortMapping, s: seq<PortMapping>)
    requires Sorted(s)
    ensures Sorted(Insert(m, s))
  {
    if s != [] && Less(s[0], m) {
      InsertSorted(m, s[1..]);
      var r := Insert(m, s[1..]);
      LessTotal(s[0], m);
      forall x | x in r ensures !Less(x, s[0]) {
        assert x in multiset(r);
        if x != m {
          assert x in s[1..];
          LessTotal(s[0], x);
        }
      }
    } else if s != [] {
      forall x | x in s ensures !Less(x, m) {
        LessTotal(s[0], x);
        NotLessTransitive(m, s[0], x);
      }
    }
  }

  lemma {:induction false} SortSorts(s: seq<PortMapping>)
    ensures Sorted(Sort(s))
  {
    if s != [] {
      SortSorts(s[1..]);
      InsertSorted(s[0], Sort(s[1..]));
    }
  }

  lemma SameHead(a: seq<PortMapping>, b: seq<PortMapping>)
    requires Sorted(a) && Sorted(b) && multiset(a) == multiset(b) && a != [] && b != []
    ensures a[0] == b[0]
  {
    assert a[0] in multiset(b) && b[0] in multiset(a);
    LessTotal(a[0], b[0]);
  }

  /** A multiset has one sorted sequence: so any sort gives the same result. */
  lemma {:induction false} SortedUnique(a: seq<PortMapping>, b: seq<PortMapping>)
    requires Sorted(a) && Sorted(b) && multiset(a) == multiset(b)
    ensures a == b
  {
    assert |multiset(a)| == |a| && |multiset(b)| == |b|;
    if a != [] {
      SameHead(a, b);
      assert a == [a[0]] + a[1..] && b == [b[0]] + b[1..];
      assert multiset(a[1..]) == multiset(a) - multiset{a[0]};
      assert multiset(b[1..]) == multiset(b) - multiset{b[0]};
      SortedUnique(a[1..], b[1..]);
    }
  }

  // ---- parsePortBindings ----

  function Entry(k: Key, hostPort: string): PortMapping { PortMapping(hostPort, k.port, k.proto) }

  /** One mapping per binding, or one without a host port when there are none. */
  function EntriesOf(k: Key, binds: seq<PortBinding>): seq<PortMapping>
  {
    if binds == [] then [Entry(k, "")] else seq(|binds|, i requires 0 <= i < |binds| => Entry(k, binds[i].hostPort))
  }

  /** What parsePortSpec is to the rest: some function from specs to keys. */
  type Parser = string -> Option<Key>

  function BoundEntry(parse: Parser, spec: string, binds: seq<PortBinding>): multiset<PortMapping>
  {
    match parse(spec)
    case Some(k) => multiset(EntriesOf(k, binds))
    case None => multiset{}
  }

  function ExposedEntry(parse: Parser, bound: set<Key>, spec: string): multiset<PortMapping>
  {
    match parse(spec)
    case Some(k) => if k in bound then multiset{} else multiset{Entry(k, "")}
    case None => multiset{}
  }

  /** The sum of `f` over the items of a map. */
  ghost function Total<V>(m: map<string, V>, f: (string, V) -> multiset<PortMapping>): multiset<PortMapping>
  {
    if m == map[] then multiset{} else var k :| k in m; f(k, m[k]) + Total(m - {k}, f)
  }

  /** The sum does not depend on which item is taken first. */
  lemma {:induction false} TakeOne<V>(m: map<string, V>, f: (string, V) -> multiset<PortMapping>, k: string)
    requires k in m
    ensures Total(m, f) == f(k, m[k]) + Total(m - {k}, f)
    decreases m.Keys
  {
    var first :| first in m && Total(m, f) == f(first, m[first]) + Total(m - {first}, f);
    if first != k {
      TakeOne(m - {first}, f, k);
      TakeOne(m - {k}, f, first);
      assert m - {first} - {k} == m - {k} - {first};
    }
  }

  ghost function BoundEntries(parse: Parser, bindings: map<string, seq<PortBinding>>): multiset<PortMapping>
  {
    Total(bindings, (spec, binds) => BoundEntry(parse, spec, binds))
  }

  ghost function ExposedEntries(parse: Parser, bound: set<Key>, exposed: map<string, ()>): multiset<PortMapping>
  {
    Total(exposed, (spec, _) => ExposedEntry(parse, bound, spec))
  }

  function KeysOf(parse: Parser, specs: set<string>): set<Key>
  {
    set spec | spec in specs && parse(spec).Some? :: parse(spec).value
  }

  function BoundKeys(parse: Parser, bindings: map<string, seq<PortBinding>>): set<Key>
  {
    KeysOf(parse, bindings.Keys)
  }

  predicate AllParse(parse: Parser, specs: set<string>) { forall spec :: spec in specs ==> parse(spec).Some? }

  lemma OneMoreKey(parse: Parser, specs: set<string>, spec: string)
    requires parse(spec).Some? && AllParse(parse, specs)
    ensures AllParse(parse, specs + {spec})
    ensures KeysOf(parse, specs + {spec}) == KeysOf(parse, specs) + {parse(spec).value}
  {
  }

  /** The mappings a request asks for, each as often as it does. */
  ghost function Specified(parse: Parser, bindings: map<string, seq<PortBinding>>, exposed: map<string, ()>):
    multiset<PortMapping>
  {
    BoundEntries(parse, bindings) + ExposedEntries(parse, BoundKeys(parse, bindings), exposed)
  }

  /** The result of parsePortBindings, without a word on how the maps are walked. */
  ghost predicate IsParsed(parse: Parser, bindings: map<string, seq<PortBinding>>, exposed: map<string, ()>,
                           out: seq<PortMapping>)
  {
    && AllParse(parse, bindings.Keys + exposed.Keys)
    && Sorted(out) && multiset(out) == Specified(parse, bindings, exposed)
  }

  /** At most one sequence is the result, so it cannot depend on the order in which Go walks either map. */
  lemma ParsedUnique(parse: Parser, bindings: map<string, seq<PortBinding>>, exposed: map<string, ()>,
                     a: seq<PortMapping>, b: seq<PortMapping>)
    requires IsParsed(parse, bindings, exposed, a) && IsParsed(parse, bindings, exposed, b)
    ensures a == b
  {
    SortedUnique(a, b);
  }

  lemma {:induction false} TotalMembers<V>(m: map<string, V>, f: (string, V) -> multiset<PortMapping>, x: PortMapping)
    ensures x in Total(m, f) <==> exists k :: k in m && x in f(k, m[k])
    decreases m.Keys
  {
    if m != map[] {
      var k :| k in m && Total(m, f) == f(k, m[k]) + Total(m - {k}, f);
      TotalMembers(m - {k}, f, x);
      assert forall j :: j in m && j != k ==> j in m - {k} && (m - {k})[j] == m[j];
    }
  }

  predicate AsksFor(binds: seq<PortBinding>, hostPort: string)
  {
    || (exists i :: 0 <= i < |binds| && binds[i].hostPort == hostPort)
    || (binds == [] && hostPort == "")
  }

  lemma BoundEntryMembers(parse: Parser, spec: string, binds: seq<PortBinding>, m: PortMapping)
    ensures m in BoundEntry(parse, spec, binds) <==> parse(spec) == Some(KeyOf(m)) && AsksFor(binds, m.hostPort)
  {
    if parse(spec).Some? {
      var k := parse(spec).value;
      var entries := EntriesOf(k, binds);
      assert forall x :: x in entries ==> KeyOf(x) == k;
      if i :| 0 <= i < |binds| && binds[i].hostPort == m.hostPort && KeyOf(m) == k {
        assert entries[i] == m;
      }
      if i :| 0 <= i < |entries| && entries[i] == m && binds != [] {
        assert binds[i].hostPort == m.hostPort;
      }
    }
  }

  /**
   * A mapping is in the result exactly when some bound spec asks for it, by one of its bindings or for want of
   * any, or some exposed spec does whose port and protocol no bound spec mentions.
   */
  lemma ParsedMembers(parse: Parser, bindings: map<string, seq<PortBinding>>, exposed: map<string, ()>,
                      out: seq<PortMapping>, m: PortMapping)
    requires IsParsed(parse, bindings, exposed, out)
    ensures m in out <==>
              || (exists spec, i :: spec in bindings && parse(spec) == Some(KeyOf(m))
                                    && 0 <= i < |bindings[spec]| && bindings[spec][i].hostPort == m.hostPort)
              || (m.hostPort == "" && exists spec :: spec in bindings && parse(spec) == Some(KeyOf(m))
                                                     && bindings[spec] == [])
              || (m.hostPort == "" && (exists spec :: spec in exposed && parse(spec) == Some(KeyOf(m)))
                  && forall spec :: spec in bindings ==> parse(spec) != Some(KeyOf(m)))
  {
    TotalMembers(bindings, (spec, binds) => BoundEntry(parse, spec, binds), m);
    TotalMembers(exposed, (spec, _) => ExposedEntry(parse, BoundKeys(parse, bindings), spec), m);
    assert m in out <==> m in multiset(out);
    forall spec | spec in bindings
      ensures m in BoundEntry(parse, spec, bindings[spec]) <==>
                parse(spec) == Some(KeyOf(m)) && AsksFor(bindings[spec], m.hostPort)
    {
      BoundEntryMembers(parse, spec, bindings[spec], m);
    }
  }

  /** What the walk over the bindings keeps, with `todo` still to come. */
  ghost predicate Walked(parse: Parser, bindings: map<string, seq<PortBinding>>, todo: map<string, seq<PortBinding>>,
                         bound: set<Key>, out: multiset<PortMapping>)
  {
    && todo.Keys <= bindings.Keys
    && AllParse(parse, bindings.Keys - todo.Keys)
    && bound == KeysOf(parse, bindings.Keys - todo.Keys)
    && out + BoundEntries(parse, todo) == BoundEntries(parse, bindings)
  }

  lemma WalkOne(parse: Parser, bindings: map<string, seq<PortBinding>>, todo: map<string, seq<PortBinding>>,
                bound: set<Key>, out: multiset<PortMapping>, spec: string)
    requires Walked(parse, bindings, todo, bound, out) && spec in todo && parse(spec).Some?
    ensures Walked(parse, bindings, todo - {spec}, bound + {parse(spec).value},
                   out + multiset(EntriesOf(parse(spec).value, todo[spec])))
  {
    TakeOne(todo, (s, binds) => BoundEntry(parse, s, binds), spec);
    OneMoreKey(parse, bindings.Keys - todo.Keys, spec);
    assert bindings.Keys - (todo - {spec}).Keys == bindings.Keys - todo.Keys + {spec};
  }

  lemma WalkEnds(parse: Parser, bindings: map<string, seq<PortBinding>>, bound: set<Key>, out: multiset<PortMapping>)
    requires Walked(parse, bindings, map[], bound, out)
    ensures AllParse(parse, bindings.Keys) && bound == BoundKeys(parse, bindings)
    ensures out == BoundEntries(parse, bindings)
  {
    assert bindings.Keys - {} == bindings.Keys;
  }

  /** The mappings of one bound spec: a spec without bindings still gets one. */
  method AppendEntries(before: seq<PortMapping>, k: Key, binds: seq<PortBinding>) returns (out: seq<PortMapping>)
    ensures multiset(out) == multiset(before) + multiset(EntriesOf(k, binds))
  {
    if binds == [] {
      return before + [Entry(k, "")];
    }
    out := before;
    for i := 0 to |binds|
      invariant out == before + EntriesOf(k, binds)[..i]
    {
      out := out + [Entry(k, binds[i].hostPort)];
    }
    assert EntriesOf(k, binds)[..|binds|] == EntriesOf(k, binds);
  }

  /** The loop over the bindings; `bad` is the first spec met that does not parse. */
  method WalkBindings(parse: Parser, bindings: map<string, seq<PortBinding>>)
    returns (bad: Option<string>, bound: set<Key>, out: seq<PortMapping>)
    ensures bad.Some? ==> bad.value in bindings && parse(bad.value).None?
    ensures bad.None? ==> AllParse(parse, bindings.Keys) && bound == BoundKeys(parse, bindings)
    ensures bad.None? ==> multiset(out) == BoundEntries(parse, bindings)
  {
    bound, out := {}, [];
    var todo := bindings;
    while todo != map[]
      invariant Walked(parse, bindings, todo, bound, multiset(out))
      decreases todo.Keys
    {
      var spec :| spec in todo;
      if parse(spec).None? {
        return Some(spec), bound, out;
      }
      WalkOne(parse, bindings, todo, bound, multiset(out), spec);
      bound := bound + {parse(spec).value};
      out := AppendEntries(out, parse(spec).value, todo[spec]);
      todo := todo - {spec};
    }
    WalkEnds(parse, bindings, bound, multiset(out));
    bad := None;
  }

  /** The loop over the exposed ports, which adds those that are not bound. */
  method WalkExposed(parse: Parser, bound: set<Key>, exposed: map<string, ()>, before: seq<PortMapping>)
    returns (bad: Option<string>, out: seq<PortMapping>)
    ensures bad.Some? ==> bad.value in exposed && parse(bad.value).None?
    ensures bad.None? ==> AllParse(parse, exposed.Keys)
    ensures bad.None? ==> multiset(out) == multiset(before) + ExposedEntries(parse, bound, exposed)
  {
    ghost var f := (spec, _: ()) => ExposedEntry(parse, bound, spec);
    out := before;
    var todo := exposed;
    while todo != map[]
      invariant forall spec :: spec in todo ==> spec in exposed
      invariant AllParse(parse, exposed.Keys - todo.Keys)
      invariant multiset(out) + Total(todo, f) == multiset(before) + Total(exposed, f)
      decreases todo.Keys
    {
      var spec :| spec in todo;
      if parse(spec).None? {
        return Some(spec), out;
      }
      TakeOne(todo, f, spec);
      if parse(spec).value !in bound {
        out := out + [Entry(parse(spec).value, "")];
      }
      todo := todo - {spec};
    }
    bad := None;
  }

  /** parsePortBindings, with parsePortSpec for `parse`. */
  method ParsePortBindings(parse: Parser, bindings: map<string, seq<PortBinding>>, exposed: map<string, ()>)
    returns (r: Result<seq<PortMapping>, string>)
    ensures r.Ok? <==> AllParse(parse, bindings.Keys + exposed.Keys)
    ensures r.Ok? ==> IsParsed(parse, bindings, exposed, r.value)
    ensures r.Err? ==> r.error in bindings.Keys + exposed.Keys && parse(r.error).None?
  {
    var bad, bound, out := WalkBindings(parse, bindings);
    if bad.Some? {
      return Err(bad.value);
    }
    bad, out := WalkExposed(parse, bound, exposed, out);
    if bad.Some? {
      return Err(bad.value);
    }
    SortSorts(out);
    r := Ok(Sort(out));
  }

  // ---- inspect and back ----

  predicate ValidMapping(m: PortMapping) { IsPort(m.containerPort) && IsProtocol(m.protocol) }

  predicate DistinctKeys(ms: seq<PortMapping>)
  {
    forall i, j :: 0 <= i < j < |ms| ==> KeyOf(ms[i]) != KeyOf(ms[j])
  }

  function InspectBindings(m: PortMapping): seq<PortBinding>
  {
    if m.hostPort != "" then [PortBinding("127.0.0.1", m.hostPort)] else []
  }

  /** portsBindings: a later mapping of the same port and protocol replaces an earlier one. */
  function PortsBindings(ms: seq<PortMapping>): map<string, seq<PortBinding>>
  {
    if ms == [] then map[]
    else
      var last := ms[|ms| - 1];
      PortsBindings(ms[..|ms| - 1])[FormatKey(KeyOf(last)) := InspectBindings(last)]
  }

  lemma {:induction false} BindingsKeys(ms: seq<PortMapping>, k: string)
    ensures k in PortsBindings(ms) <==> exists i :: 0 <= i < |ms| && FormatKey(KeyOf(ms[i])) == k
    ensures |PortsBindings(ms)| <= |ms|
  {
    if ms != [] {
      var init := ms[..|ms| - 1];
      BindingsKeys(init, k);
      assert forall i :: 0 <= i < |init| ==> init[i] == ms[i];
      if k in PortsBindings(init) {
        var i :| 0 <= i < |init| && FormatKey(KeyOf(init[i])) == k;
        assert FormatKey(KeyOf(ms[i])) == k;
      }
    }
  }

  /** No mapping after position `i` has its port and protocol. */
  predicate IsLast(ms: seq<PortMapping>, i: nat)
    requires i < |ms|
  {
    forall j :: i < j < |ms| ==> FormatKey(KeyOf(ms[j])) != FormatKey(KeyOf(ms[i]))
  }

  /** The bindings shown for the port and protocol of `m` are those of `m`. */
  predicate Shows(out: map<string, seq<PortBinding>>, m: PortMapping)
  {
    var key := Decimal(m.containerPort) + "/" + m.protocol;
    key in out && out[key] == if m.hostPort == "" then [] else [PortBinding("127.0.0.1", m.hostPort)]
  }

  /** Some mapping prints its port and protocol as `k`. */
  predicate Prints(ms: seq<PortMapping>, k: string) { exists i :: 0 <= i < |ms| && FormatKey(KeyOf(ms[i])) == k }

  lemma {:induction false} LastBinding(ms: seq<PortMapping>, i: nat)
    requires i < |ms| && IsLast(ms, i)
    ensures Shows(PortsBindings(ms), ms[i])
  {
    if i < |ms| - 1 {
      var init := ms[..|ms| - 1];
      assert forall j :: 0 <= j < |init| ==> init[j] == ms[j];
      assert FormatKey(KeyOf(ms[|ms| - 1])) != FormatKey(KeyOf(ms[i]));
      LastBinding(init, i);
    }
  }

  /** Inspect shows the ports of the mappings and no others, each with the host port of its last mapping. */
  method BuildPortsBindings(ms: seq<PortMapping>) returns (out: map<string, seq<PortBinding>>)
    ensures out == PortsBindings(ms)
    ensures forall k :: k in out <==> Prints(ms, k)
    ensures forall i :: 0 <= i < |ms| && IsLast(ms, i) ==> Shows(out, ms[i])
  {
    out := map[];
    for i := 0 to |ms|
      invariant out == PortsBindings(ms[..i])
    {
      assert ms[..i + 1][..i] == ms[..i];
      out := out[FormatKey(KeyOf(ms[i])) := InspectBindings(ms[i])];
    }
    assert ms[..|ms|] == ms;
    forall k ensures k in out <==> Prints(ms, k) {
      BindingsKeys(ms, k);
    }
    forall i | 0 <= i < |ms| && IsLast(ms, i) ensures Shows(out, ms[i]) {
      LastBinding(ms, i);
    }
  }

  /** `parse` undoes what inspect prints for the mappings of `ms`. */
  predicate Undoes(parse: Parser, ms: seq<PortMapping>)
  {
    forall i :: 0 <= i < |ms| ==> parse(FormatKey(KeyOf(ms[i]))) == Some(KeyOf(ms[i]))
  }

  lemma AddOne<V>(m: map<string, V>, f: (string, V) -> multiset<PortMapping>, k: string, v: V)
    requires k !in m
    ensures Total(m[k := v], f) == f(k, v) + Total(m, f)
  {
    TakeOne(m[k := v], f, k);
    assert m[k := v] - {k} == m;
  }

  lemma InspectedEntry(parse: Parser, m: PortMapping)
    requires parse(FormatKey(KeyOf(m))) == Some(KeyOf(m))
    ensures BoundEntry(parse, FormatKey(KeyOf(m)), InspectBindings(m)) == multiset{m}
  {
    assert EntriesOf(KeyOf(m), InspectBindings(m)) == [m];
  }

  lemma LastKeyIsNew(parse: Parser, init: seq<PortMapping>, last: PortMapping)
    requires Undoes(parse, init + [last]) && DistinctKeys(init + [last])
    ensures Undoes(parse, init) && DistinctKeys(init) && parse(FormatKey(KeyOf(last))) == Some(KeyOf(last))
    ensures FormatKey(KeyOf(last)) !in PortsBindings(init)
  {
    var ms := init + [last];
    assert ms[|init|] == last && forall i :: 0 <= i < |init| ==> ms[i] == init[i];
    BindingsKeys(init, FormatKey(KeyOf(last)));
  }

  lemma {:induction false} EntriesComeBack(parse: Parser, ms: seq<PortMapping>)
    requires Undoes(parse, ms) && DistinctKeys(ms)
    ensures BoundEntries(parse, PortsBindings(ms)) == multiset(ms)
  {
    if ms != [] {
      var init, last := ms[..|ms| - 1], ms[|ms| - 1];
      assert ms == init + [last];
      LastKeyIsNew(parse, init, last);
      EntriesComeBack(parse, init);
      InspectedEntry(parse, last);
      AddOne(PortsBindings(init), (spec, binds) => BoundEntry(parse, spec, binds),
             FormatKey(KeyOf(last)), InspectBindings(last));
    }
  }

  lemma {:induction false} BindingsParse(parse: Parser, ms: seq<PortMapping>)
    requires Undoes(parse, ms)
    ensures AllParse(parse, PortsBindings(ms).Keys)
    ensures forall k :: k in PortsBindings(ms) ==> |PortsBindings(ms)[k]| <= 1
  {
    if ms != [] {
      assert forall i :: 0 <= i < |ms| - 1 ==> ms[..|ms| - 1][i] == ms[i];
      BindingsParse(parse, ms[..|ms| - 1]);
    }
  }

  lemma {:induction false} OneEntryEach(parse: Parser, bindings: map<string, seq<PortBinding>>)
    requires AllParse(parse, bindings.Keys) && forall k :: k in bindings ==> |bindings[k]| <= 1
    ensures |BoundEntries(parse, bindings)| == |bindings|
    decreases bindings.Keys
  {
    if bindings != map[] {
      var k :| k in bindings;
      TakeOne(bindings, (spec, binds) => BoundEntry(parse, spec, binds), k);
      OneEntryEach(parse, bindings - {k});
      assert |bindings - {k}| == |bindings.Keys - {k}| == |bindings| - 1;
    }
  }

  lemma {:induction false} SharedKeysShrink(ms: seq<PortMapping>)
    requires !DistinctKeys(ms)
    ensures |PortsBindings(ms)| < |ms|
  {
    var init, last := ms[..|ms| - 1], ms[|ms| - 1];
    var key := FormatKey(KeyOf(last));
    assert forall i :: 0 <= i < |init| ==> init[i] == ms[i];
    BindingsKeys(init, key);
    if !DistinctKeys(init) {
      SharedKeysShrink(init);
    } else {
      var i, j :| 0 <= i < j < |ms| && KeyOf(ms[i]) == KeyOf(ms[j]);
      assert j == |init| && FormatKey(KeyOf(init[i])) == key;
    }
    assert PortsBindings(ms).Keys == PortsBindings(init).Keys + {key};
  }

  lemma RoundTrip(parse: Parser, ms: seq<PortMapping>)
    requires Undoes(parse, ms)
    ensures IsParsed(parse, PortsBindings(ms), map[], ms) <==> Sorted(ms) && DistinctKeys(ms)
  {
    BindingsParse(parse, ms);
    OneEntryEach(parse, PortsBindings(ms));
    assert |multiset(ms)| == |ms|;
    if DistinctKeys(ms) { EntriesComeBack(parse, ms); } else { SharedKeysShrink(ms); }
  }

  /**
   * Creating a container from the bindings inspect shows gives the same mappings back exactly when those are
   * sorted, as parsePortBindings leaves them, and no port and protocol is mapped twice.
   */
  lemma InspectRoundTrip(ms: seq<PortMapping>)
    requires forall m :: m in ms ==> ValidMapping(m)
    ensures IsParsed(ParsePortSpec, PortsBindings(ms), map[], ms) <==> Sorted(ms) && DistinctKeys(ms)
  {
    forall i | 0 <= i < |ms| ensures ParsePortSpec(FormatKey(KeyOf(ms[i]))) == Some(KeyOf(ms[i])) {
      assert ms[i] in ms;
      ParseFormatted(KeyOf(ms[i]));
    }
    RoundTrip(ParsePortSpec, ms);
  }

  lemma ParsedKeyIsValid(spec: string)
    requires ParsePortSpec(spec).Some?
    ensures IsPort(ParsePortSpec(spec).value.port) && IsProtocol(ParsePortSpec(spec).value.proto)
  {
  }

  /** Every mapping a request results in has a port in 1..65535 and a known protocol. */
  lemma ParsedAreValid(bindings: map<string, seq<PortBinding>>, exposed: map<string, ()>, out: seq<PortMapping>)
    requires IsParsed(ParsePortSpec, bindings, exposed, out)
    ensures forall m :: m in out ==> ValidMapping(m)
  {
    forall m | m in out ensures ValidMapping(m) {
      ParsedMembers(ParsePortSpec, bindings, exposed, out, m);
      var spec :| ParsePortSpec(spec) == Some(KeyOf(m));
      ParsedKeyIsValid(spec);
    }
  }

  // ---- dedupContainerPorts ----

  datatype Protocol = ProtocolTCP | ProtocolUDP | ProtocolSCTP

  datatype ContainerPort = ContainerPort(containerPort: nat, protocol: Protocol)

  function ProtocolFromString(s: string): Protocol
  {
    if s == "udp" then ProtocolUDP else if s == "sctp" then ProtocolSCTP else ProtocolTCP
  }

  function ToContainerPort(k: Key): ContainerPort { ContainerPort(k.port, ProtocolFromString(k.proto)) }

  predicate KeyLess(a: Key, b: Key)
  {
    a.port < b.port || (a.port == b.port && StringLess(a.proto, b.proto))
  }

  /** The distinct keys of `ms`, in order of first occurrence. */
  function FirstKeys(ms: seq<PortMapping>): (r: seq<Key>)
  {
    if ms == [] then []
    else
      var before, k := FirstKeys(ms[..|ms| - 1]), KeyOf(ms[|ms| - 1]);
      if k in before then before else before + [k]
  }

  method DedupContainerPorts(ports: seq<PortMapping>) returns (out: seq<ContainerPort>)
    ensures |out| == |FirstKeys(ports)|
    ensures forall i :: 0 <= i < |out| ==> out[i] == ToContainerPort(FirstKeys(ports)[i])
  {
    var seen: set<Key> := {};
    out := [];
    for i := 0 to |ports|
      invariant seen == set k | k in FirstKeys(ports[..i])
      invariant |out| == |FirstKeys(ports[..i])|
      invariant forall j :: 0 <= j < |out| ==> out[j] == ToContainerPort(FirstKeys(ports[..i])[j])
    {
      assert ports[..i + 1][..i] == ports[..i];
      var k := KeyOf(ports[i]);
      if k in seen {
        continue;
      }
      seen := seen + {k};
      out := out + [ToContainerPort(k)];
    }
    assert ports[..|ports|] == ports;
  }

  lemma {:induction false} FirstKeysCover(ms: seq<PortMapping>, k: Key)
    ensures k in FirstKeys(ms) <==> exists m :: m in ms && KeyOf(m) == k
  {
    if ms != [] {
      var init, last := ms[..|ms| - 1], ms[|ms| - 1];
      FirstKeysCover(init, k);
      assert ms == init + [last];
      assert last in ms && forall m :: m in init ==> m in ms;
    }
  }

  lemma {:induction false} FirstKeysIncrease(ms: seq<PortMapping>)
    requires Sorted(ms)
    ensures forall i, j :: 0 <= i < j < |FirstKeys(ms)| ==> KeyLess(FirstKeys(ms)[i], FirstKeys(ms)[j])
  {
    if ms != [] {
      var init, last := ms[..|ms| - 1], ms[|ms| - 1];
      FirstKeysIncrease(init);
      if KeyOf(last) !in FirstKeys(init) {
        forall i | 0 <= i < |FirstKeys(init)| ensures KeyLess(FirstKeys(init)[i], KeyOf(last)) {
          FirstKeysCover(init, FirstKeys(init)[i]);
          var m :| m in init && KeyOf(m) == FirstKeys(init)[i];
          StringLessTotal(m.protocol, last.protocol);
        }
      }
    }
  }

  /** The pod port of a mapping. */
  predicate IsPodPort(c: ContainerPort, m: PortMapping)
  {
    && c.containerPort == m.containerPort
    && (c.protocol == ProtocolUDP <==> m.protocol == "udp")
    && (c.protocol == ProtocolSCTP <==> m.protocol == "sctp")
  }

  predicate IsSomePodPort(c: ContainerPort, ms: seq<PortMapping>) { exists m :: m in ms && IsPodPort(c, m) }

  /** A pod port is there for a mapping, and only for mappings. */
  lemma PodPortsCover(ms: seq<PortMapping>, m: PortMapping, i: nat)
    ensures m in ms ==> exists k :: k in FirstKeys(ms) && IsPodPort(ToContainerPort(k), m)
    ensures i < |FirstKeys(ms)| ==> IsSomePodPort(ToContainerPort(FirstKeys(ms)[i]), ms)
  {
    var ks := FirstKeys(ms);
    if m in ms {
      FirstKeysCover(ms, KeyOf(m));
      assert IsPodPort(ToContainerPort(KeyOf(m)), m);
    }
    if i < |ks| {
      FirstKeysCover(ms, ks[i]);
      var x :| x in ms && KeyOf(x) == ks[i];
      assert IsPodPort(ToContainerPort(ks[i]), x);
    }
  }

  /**
   * On the sorted mappings of a request, the pod's container ports are those of the mappings, strictly
   * increasing by port and protocol name, and no two of them collide in the pod spec.
   */
  lemma ContainerPortsCanonical(ms: seq<PortMapping>)
    requires Sorted(ms) && forall m :: m in ms ==> ValidMapping(m)
    ensures var ks := FirstKeys(ms);
            && (forall k :: k in ks <==> exists m :: m in ms && KeyOf(m) == k)
            && (forall i, j :: 0 <= i < j < |ks| ==> KeyLess(ks[i], ks[j]))
            && (forall i, j :: 0 <= i < j < |ks| ==> ToContainerPort(ks[i]) != ToContainerPort(ks[j]))
  {
    var ks := FirstKeys(ms);
    forall k ensures k in ks <==> exists m :: m in ms && KeyOf(m) == k { FirstKeysCover(ms, k); }
    FirstKeysIncrease(ms);
    forall i, j | 0 <= i < j < |ks| ensures ToContainerPort(ks[i]) != ToContainerPort(ks[j]) {
      assert ks[i] in ks && ks[j] in ks;
      assert IsProtocol(ks[i].proto) && IsProtocol(ks[j].proto);
      StringLessTotal(ks[i].proto, ks[j].proto);
    }
  }
}
