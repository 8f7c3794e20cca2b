/** The TCP ports of 127.0.0.1, as `net.Listen` and `Listener.Close` see them. */
module Loopback {
  import opened Common

  const MAX_PORT := 65535

  class Listener {
    const port: nat
    var closes: nat

    constructor (port: nat)
      ensures this.port == port && closes == 0
    {
      this.port, closes := port, 0;
    }
  }

  /** `open` maps each bound port to its open listener. */
  class Host {
    var open: map<nat, Listener>

    ghost predicate Valid()
      reads this, open.Values
    {
      forall p :: p in open ==> open[p].port == p && open[p].closes == 0
    }

    constructor ()
      ensures Valid() && open == map[]
    {
      open := map[];
    }

    /** Fails on a bound port, and whenever the operating system says so. */
    method Listen(port: nat) returns (r: Option<Listener>)
      requires Valid()
      modifies this
      ensures Valid()
      ensures r.None? ==> open == old(open)
      ensures r.Some? ==> port !in old(open) && fresh(r.value) && r.value.port == port && r.value.closes == 0
      ensures r.Some? ==> open == old(open)[port := r.value]
    {
      var refused: bool := *;
      if refused || port in open {
        return None;
      }
      var l := new Listener(port);
      open := open[port := l];
      return Some(l);
    }

    /** Listening on port 0: the operating system picks an unbound port, or fails. */
    method ListenAny() returns (r: Option<Listener>)
      requires Valid()
      modifies this
      ensures Valid()
      ensures r.None? ==> open == old(open)
      ensures r.Some? ==> fresh(r.value) && 0 < r.value.port <= MAX_PORT && r.value.closes == 0
      ensures r.Some? ==> r.value.port !in old(open) && open == old(open)[r.value.port := r.value]
    {
      var port: nat := *;
      if 0 < port <= MAX_PORT {
        r := Listen(port);
      } else {
        r := None;
      }
    }

    method Close(l: Listener)
      requires Valid() && l.port in open && open[l.port] == l
      modifies this, l
      ensures Valid() && open == old(open) - {l.port} && l.closes == 1
    {
      open := open - {l.port};
      l.closes := l.closes + 1;
    }
  }
}

/** internal/forwarder/tcp.go: Open binds all listeners or none, and a handle closes each of its own once. */
module TcpForwarder {
  import opened Common
  import opened Loopback

  datatype Mapping = Mapping(hostPort: nat, containerPort: nat)

  /** The host ports Open binds, in order: mappings without one are skipped. */
  function HostPorts(ms: seq<Mapping>): seq<nat>
  {
    if ms == [] then []
    else HostPorts(ms[..|ms| - 1]) + (if ms[|ms| - 1].hostPort == 0 then [] else [ms[|ms| - 1].hostPort])
  }

  lemma HostPortsStep(ms: seq<Mapping>, i: nat)
    requires i < |ms|
    ensures HostPorts(ms[..i + 1]) == HostPorts(ms[..i]) + if ms[i].hostPort == 0 then [] else [ms[i].hostPort]
  {
    assert ms[..i + 1][..i] == ms[..i];
  }

  lemma {:induction false} HostPortsConcat(a: seq<Mapping>, b: seq<Mapping>)
    ensures HostPorts(a + b) == HostPorts(a) + HostPorts(b)
    decreases |b|
  {
    if b == [] {
      assert a + b == a;
    } else {
      HostPortsConcat(a, b[..|b| - 1]);
      assert (a + b)[..|a + b| - 1] == a + b[..|b| - 1];
    }
  }

  lemma HostPortsOne(m: Mapping)
    ensures HostPorts([m]) == if m.hostPort == 0 then [] else [m.hostPort]
  {
    assert [m][..0] == [];
  }

  function PortsOf(ls: seq<Listener>): seq<nat> { seq(|ls|, i requires 0 <= i < |ls| => ls[i].port) }

  function PortSet(ls: seq<Listener>): set<nat> { set l | l in ls :: l.port }

  /** Every listener of `ls` is bound and open on `host`, each on its own port. */
  ghost predicate Bound(host: Host, ls: seq<Listener>)
    reads host
  {
    && (forall l :: l in ls ==> l.port in host.open && host.open[l.port] == l)
    && (forall i, j :: 0 <= i < j < |ls| ==> ls[i].port != ls[j].port)
  }

  /** The loop that closes a list of listeners, each once. */
  method CloseAll(host: Host, ls: seq<Listener>)
    requires host.Valid() && Bound(host, ls)
    modifies host, set l | l in ls
    ensures host.Valid() && host.open == old(host.open) - PortSet(ls)
    ensures forall l :: l in ls ==> l.closes == 1
  {
    for i := 0 to |ls|
      invariant host.Valid() && Bound(host, ls[i..])
      invariant host.open == old(host.open) - PortSet(ls[..i])
      invariant forall j :: 0 <= j < i ==> ls[j].closes == 1
    {
      host.Close(ls[i]);
      assert ls[..i + 1] == ls[..i] + [ls[i]];
    }
    assert ls[..|ls|] == ls;
  }

  class TcpHandle {
    const host: Host
    var listeners: seq<Listener>
    var isClosed: bool
    ghost var added: seq<Listener>

    /** Each listener ever added is open until Close and closed exactly once after it. */
    ghost predicate Valid()
      reads this, host, host.open.Values, added
    {
      && host.Valid()
      && listeners == (if isClosed then [] else added)
      && (if isClosed then forall l :: l in added ==> l.closes == 1 else Bound(host, added))
    }

    constructor (host: Host)
      requires host.Valid()
      ensures Valid() && !isClosed && added == [] && this.host == host
    {
      this.host, listeners, isClosed, added := host, [], false, [];
    }

    method Add(l: Listener)
      requires Valid() && !isClosed
      requires l.port in host.open && host.open[l.port] == l && l.port !in PortSet(added)
      modifies this
      ensures Valid() && !isClosed && added == old(added) + [l]
    {
      listeners := listeners + [l];
      added := added + [l];
    }

    /** Idempotent: only the first call closes the listeners. */
    method Close()
      requires Valid()
      modifies this, host, set l | l in added
      ensures Valid() && isClosed && added == old(added)
      ensures host.open == if old(isClosed) then old(host.open) else old(host.open) - PortSet(added)
    {
      if isClosed {
        return;
      }
      isClosed := true;
      var lns := listeners;
      listeners := [];
      CloseAll(host, lns);
    }
  }

  /** One round of Open's loop on a mapping with a host port. */
  method BindOne(h: TcpHandle, port: nat) returns (ok: bool)
    requires h.Valid() && !h.isClosed
    modifies h, h.host
    ensures h.Valid() && !h.isClosed
    ensures PortsOf(h.added) == PortsOf(old(h.added)) + if ok then [port] else []
    ensures forall l :: l in h.added ==> l in old(h.added) || fresh(l)
    ensures h.host.open - PortSet(h.added) == old(h.host.open - PortSet(h.added))
  {
    var ln := h.host.Listen(port);
    ok := ln.Some?;
    if ok {
      h.Add(ln.value);
      assert PortSet(h.added) == PortSet(old(h.added)) + {port};
    }
  }

  /**
   * All or nothing: on success the handle owns one open listener per mapping with a host port, in order; on
   * failure nothing is left bound. `resolved` is the pod IP, or None when looking it up failed.
   */
  method Open(host: Host, resolved: Option<string>, mappings: seq<Mapping>) returns (r: Option<TcpHandle>)
    requires host.Valid()
    modifies host
    ensures host.Valid()
    ensures r.None? ==> host.open == old(host.open)
    ensures resolved.None? || resolved.value == "" ==> r.None?
    ensures r.Some? ==> fresh(r.value) && r.value.Valid() && !r.value.isClosed && r.value.host == host
    ensures r.Some? ==> PortsOf(r.value.added) == HostPorts(mappings)
    ensures r.Some? ==> forall l :: l in r.value.added ==> fresh(l)
    ensures r.Some? ==> host.open - PortSet(r.value.added) == old(host.open)
  {
    if resolved.None? || resolved.value == "" {
      return None;
    }
    var h := new TcpHandle(host);
    assert host.open - PortSet([]) == host.open;
    for i := 0 to |mappings|
      invariant fresh(h) && h.Valid() && !h.isClosed && h.host == host
      invariant forall l :: l in h.added ==> fresh(l)
      invariant PortsOf(h.added) == HostPorts(mappings[..i])
      invariant host.open - PortSet(h.added) == old(host.open)
    {
      HostPortsStep(mappings, i);
      if mappings[i].hostPort == 0 {
        continue;
      }
      var ok := BindOne(h, mappings[i].hostPort);
      assert forall l :: l in h.added ==> fresh(l);
      if !ok {
        h.Close();
        return None;
      }
    }
    assert mappings[..|mappings|] == mappings;
    return Some(h);
  }
}
