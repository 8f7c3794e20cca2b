/** allocateHostPorts and toForwarderMappings of internal/server/containers.go. */
module HostPorts {
  import opened Common
  import opened Ports
  import Loopback
  import TcpForwarder

  /** Docker's two ways to ask for any free port. */
  predicate AsksForAny(m: PortMapping) { m.hostPort == "" || m.hostPort == "0" }

  /** Before position `n`, `now` is `before` with the ports of `given` for the mappings that asked for any. */
  predicate AllocatedUpTo(before: seq<PortMapping>, now: seq<PortMapping>, given: map<nat, nat>, n: nat)
    requires n <= |before|
  {
    && |now| == |before|
    && (forall i :: 0 <= i < |before| ==> (i in given <==> i < n && AsksForAny(before[i])))
    && (forall i :: 0 <= i < |before| ==>
          now[i] == if i in given then before[i].(hostPort := Decimal(given[i])) else before[i])
    && (forall i :: i in given ==> i < |before| && IsPort(given[i]))
    && (forall i, j :: i in given && j in given && i != j ==> given[i] != given[j])
  }

  predicate Allocated(before: seq<PortMapping>, after: seq<PortMapping>, given: map<nat, nat>)
  {
    AllocatedUpTo(before, after, given, |before|)
  }

  lemma AllocatedNext(before: seq<PortMapping>, now: seq<PortMapping>, given: map<nat, nat>, i: nat, port: nat)
    requires i < |before| && |now| == |before| && IsPort(port) && AsksForAny(before[i])
    requires AllocatedUpTo(before, now[i := before[i]], given, i)
    requires now[i] == before[i].(hostPort := Decimal(port))
    requires forall j :: j in given ==> given[j] != port
    ensures AllocatedUpTo(before, now, given[i := port], i + 1)
  {
    var undone := now[i := before[i]];
    assert forall j :: 0 <= j < |before| && j != i ==> undone[j] == now[j];
  }

  lemma AllocatedSame(before: seq<PortMapping>, now: seq<PortMapping>, given: map<nat, nat>, i: nat)
    requires i < |before| && AllocatedUpTo(before, now, given, i) && !AsksForAny(before[i])
    ensures AllocatedUpTo(before, now, given, i + 1)
  {
  }

  /** One more listener, on a port none of the others has. */
  method Hold(host: Loopback.Host, holders: seq<Loopback.Listener>) returns (r: Option<Loopback.Listener>)
    requires host.Valid() && TcpForwarder.Bound(host, holders)
    modifies host
    ensures host.Valid()
    ensures r.None? ==> host.open == old(host.open)
    ensures r.Some? ==>
      var l := r.value;
      && fresh(l) && IsPort(l.port) && l.port !in old(host.open) && l.port !in TcpForwarder.PortSet(holders)
      && TcpForwarder.Bound(host, holders + [l])
      && host.open - TcpForwarder.PortSet(holders + [l]) == old(host.open) - TcpForwarder.PortSet(holders)
  {
    r := host.ListenAny();
    if r.Some? {
      assert TcpForwarder.PortSet(holders + [r.value]) == TcpForwarder.PortSet(holders) + {r.value.port};
    }
  }

  /** The loop of allocateHostPorts, which stops at the first port the system refuses. */
  method AssignAll(host: Loopback.Host, mappings: array<PortMapping>)
    returns (ok: bool, given: map<nat, nat>, holders: seq<Loopback.Listener>)
    requires host.Valid()
    modifies host, mappings
    ensures host.Valid() && TcpForwarder.Bound(host, holders) && forall l :: l in holders ==> fresh(l)
    ensures host.open - TcpForwarder.PortSet(holders) == old(host.open)
    ensures forall j :: j in given ==> given[j] !in old(host.open)
    ensures ok ==> Allocated(old(mappings[..]), mappings[..], given)
    ensures !ok ==> exists n :: 0 <= n < mappings.Length && AsksForAny(old(mappings[..])[n])
                                && AllocatedUpTo(old(mappings[..]), mappings[..], given, n)
  {
    ghost var before := mappings[..];
    holders, given := [], map[];
    assert host.open - TcpForwarder.PortSet([]) == host.open;
    for i := 0 to mappings.Length
      invariant host.Valid() && TcpForwarder.Bound(host, holders) && forall l :: l in holders ==> fresh(l)
      invariant host.open - TcpForwarder.PortSet(holders) == old(host.open)
      invariant forall j :: j in given ==> given[j] in TcpForwarder.PortSet(holders) && given[j] !in old(host.open)
      invariant AllocatedUpTo(before, mappings[..], given, i)
    {
      if AsksForAny(mappings[i]) {
        var l := Hold(host, holders);
        if l.None? {
          return false, given, holders;
        }
        holders := holders + [l.value];
        mappings[i] := mappings[i].(hostPort := Decimal(l.value.port));
        AllocatedNext(before, mappings[..], given, i, l.value.port);
        given := given[i := l.value.port];
      } else {
        AllocatedSame(before, mappings[..], given, i);
      }
    }
    ok := true;
  }

  /** A mapping keeps everything but a host port of "" or "0", which becomes the decimal of the port it is given. */
  lemma AllocatedMeans(before: seq<PortMapping>, after: seq<PortMapping>, given: map<nat, nat>, i: nat)
    requires Allocated(before, after, given) && i < |before|
    ensures |after| == |before|
    ensures before[i].hostPort == "" || before[i].hostPort == "0" ==>
      && i in given && 1 <= given[i] <= 65535
      && after[i] == PortMapping(Decimal(given[i]), before[i].containerPort, before[i].protocol)
    ensures before[i].hostPort != "" && before[i].hostPort != "0" ==> i !in given && after[i] == before[i]
  {
  }

  /**
   * Assigns a free port to every mapping that asks for one. The listeners that reserve them are all held until
   * the end, so no two are the same, and all are closed again whatever happens.
   */
  method AllocateHostPorts(host: Loopback.Host, mappings: array<PortMapping>) returns (ok: bool, given: map<nat, nat>)
    requires host.Valid()
    modifies host, mappings
    ensures host.Valid() && host.open == old(host.open)
    ensures ok ==> Allocated(old(mappings[..]), mappings[..], given)
    ensures ok ==> forall i :: i in given ==> given[i] !in host.open
    ensures !ok ==> exists n :: 0 <= n < mappings.Length && AsksForAny(old(mappings[..])[n])
                                && AllocatedUpTo(old(mappings[..]), mappings[..], given, n)
  {
    var holders: seq<Loopback.Listener>;
    ok, given, holders := AssignAll(host, mappings);
    TcpForwarder.CloseAll(host, holders);
  }

  // ---- toForwarderMappings ----

  predicate Usable(m: PortMapping) { m.hostPort == "" || ParseUint16(m.hostPort).Some? }

  /** One forwarder mapping per mapping with a host port, in order. */
  function Forwarded(ports: seq<PortMapping>): seq<TcpForwarder.Mapping>
  {
    if ports == [] then []
    else
      var last := ports[|ports| - 1];
      Forwarded(ports[..|ports| - 1]) +
      if last.hostPort == "" then []
      else match ParseUint16(last.hostPort)
           case Some(n) => [TcpForwarder.Mapping(n, last.containerPort)]
           case None => []
  }

  /** Mapping by mapping: none for an empty host port, one with both numbers for a decimal one. */
  lemma {:induction false} ForwardedConcat(a: seq<PortMapping>, b: seq<PortMapping>)
    ensures Forwarded(a + b) == Forwarded(a) + Forwarded(b)
    decreases |b|
  {
    if b == [] {
      assert a + b == a;
    } else {
      ForwardedConcat(a, b[..|b| - 1]);
      assert (a + b)[..|a + b| - 1] == a + b[..|b| - 1];
    }
  }

  lemma ForwardedOne(m: PortMapping, n: nat)
    ensures m.hostPort == "" ==> Forwarded([m]) == []
    ensures m.hostPort != "" && ParseUint16(m.hostPort) == Some(n) ==>
      Forwarded([m]) == [TcpForwarder.Mapping(n, m.containerPort)]
  {
    assert [m][..0] == [];
  }

  method ToForwarderMappings(ports: seq<PortMapping>) returns (r: Result<seq<TcpForwarder.Mapping>, string>)
    ensures r.Ok? <==> forall m :: m in ports ==> Usable(m)
    ensures r.Ok? ==> r.value == Forwarded(ports)
    ensures r.Err? ==> exists m :: m in ports && m.hostPort == r.error && !Usable(m)
  {
    var out: seq<TcpForwarder.Mapping> := [];
    for i := 0 to |ports|
      invariant forall j :: 0 <= j < i ==> Usable(ports[j])
      invariant out == Forwarded(ports[..i])
    {
      assert ports[..i + 1][..i] == ports[..i];
      var m := ports[i];
      if m.hostPort == "" {
        continue;
      }
      var hp := ParseUint16(m.hostPort);
      if hp.None? {
        assert m in ports && !Usable(m);
        return Err(m.hostPort);
      }
      out := out + [TcpForwarder.Mapping(hp.value, m.containerPort)];
    }
    assert ports[..|ports|] == ports;
    return Ok(out);
  }

  /** The number a mapping's host port stands for once ports are allocated. */
  function HostPortAt(before: seq<PortMapping>, given: map<nat, nat>, i: nat): nat
    requires i < |before| && (i in given || ParseUint16(before[i].hostPort).Some?)
  {
    if i in given then given[i] else ParseUint16(before[i].hostPort).value
  }

  predicate UserPortsValid(before: seq<PortMapping>)
  {
    forall i :: 0 <= i < |before| && before[i].hostPort != "" && before[i].hostPort != "0" ==>
      ParseUint16(before[i].hostPort).Some? && 1 <= ParseUint16(before[i].hostPort).value <= 65535
  }

  lemma AllocatedParses(before: seq<PortMapping>, after: seq<PortMapping>, given: map<nat, nat>, i: nat)
    requires Allocated(before, after, given) && UserPortsValid(before) && i < |before|
    ensures after[i].hostPort != "" && ParseUint16(after[i].hostPort) == Some(HostPortAt(before, given, i))
    ensures IsPort(HostPortAt(before, given, i)) && after[i].containerPort == before[i].containerPort
  {
    if i in given { ParseDecimal(given[i]); }
  }

  lemma ForwardedLast(ports: seq<PortMapping>, n: nat)
    requires ports != [] && ports[|ports| - 1].hostPort != "" && ParseUint16(ports[|ports| - 1].hostPort) == Some(n)
    ensures Forwarded(ports) ==
      Forwarded(ports[..|ports| - 1]) + [TcpForwarder.Mapping(n, ports[|ports| - 1].containerPort)]
  {
  }

  lemma {:induction false} ForwardedAll(ports: seq<PortMapping>, numbers: seq<nat>)
    requires |numbers| == |ports|
    requires forall i :: 0 <= i < |ports| ==>
      ports[i].hostPort != "" && ParseUint16(ports[i].hostPort) == Some(numbers[i])
    ensures |Forwarded(ports)| == |ports|
    ensures forall i :: 0 <= i < |ports| ==>
      Forwarded(ports)[i] == TcpForwarder.Mapping(numbers[i], ports[i].containerPort)
  {
    if ports != [] {
      ForwardedAll(ports[..|ports| - 1], numbers[..|ports| - 1]);
      ForwardedLast(ports, numbers[|ports| - 1]);
    }
  }

  /**
   * Allocation followed by conversion loses nothing: when the host ports the user chose are decimals in
   * 1..65535, each port mapping becomes one forwarder mapping with the same ports, and none has host port 0.
   */
  lemma NoMappingLost(before: seq<PortMapping>, after: seq<PortMapping>, given: map<nat, nat>)
    requires Allocated(before, after, given) && UserPortsValid(before)
    ensures (forall m :: m in after ==> Usable(m)) && |Forwarded(after)| == |before|
    ensures forall i :: 0 <= i < |before| ==>
              && (i in given || ParseUint16(before[i].hostPort).Some?)
              && Forwarded(after)[i] == TcpForwarder.Mapping(HostPortAt(before, given, i), before[i].containerPort)
              && IsPort(Forwarded(after)[i].hostPort)
  {
    forall i | 0 <= i < |before|
      ensures after[i].hostPort != "" && ParseUint16(after[i].hostPort) == Some(HostPortAt(before, given, i))
      ensures IsPort(HostPortAt(before, given, i)) && after[i].containerPort == before[i].containerPort
    {
      AllocatedParses(before, after, given, i);
    }
    ForwardedAll(after, seq(|before|, i requires 0 <= i < |before| => HostPortAt(before, given, i)));
  }
}
