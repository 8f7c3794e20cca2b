/**
 * Any number of goroutines writing through the framedWriters of one connection: taking and releasing the shared mutex
 * and every Write call on the connection are the steps.
 */
module FramedWriters {
  import opened Common
  import opened Framing
  import Multiplexer
  import Runs

  /** Where a call of framedWriter.Write is: the loop of writeMultiplexedChunk still has `chunks` to send. */
  datatype Pc =
    | Waiting(out: Output)
    | SendHeader(out: Output, chunks: Bytes)
    | SendBody(out: Output, chunks: Bytes)
    | Returned(out: Output, ok: bool)

  /** `log` lists the writes that got the mutex, in that order; `acked` those that returned without error. */
  datatype State = State(
    wire: Bytes, broken: bool, mu: Option<nat>, tasks: map<nat, Pc>, log: seq<Output>, acked: seq<Output>)

  datatype Action =
    | Arrive(task: nat, out: Output)
    | Lock(task: nat)
    | Send(task: nat, n: nat, wire: Bytes, broken: bool)
    | Return(task: nat)

  predicate Sending(pc: Pc) { pc.SendHeader? || pc.SendBody? }

  /** What the next Write call passes. */
  function Chunked(pc: Pc): Bytes
    requires Sending(pc)
  {
    if pc.SendHeader? then Header(pc.out.stream, Chunk(pc.chunks)) else pc.chunks[..Chunk(pc.chunks)]
  }

  /** The loop after a Write that took everything. */
  function Advance(pc: Pc): Pc
    requires Sending(pc)
  {
    if pc.SendHeader? then SendBody(pc.out, pc.chunks) else SendHeader(pc.out, pc.chunks[Chunk(pc.chunks)..])
  }

  function Goto(s: State, t: nat, pc: Pc): State { s.(tasks := s.tasks[t := pc]) }

  function Next(s: State, a: Action): Option<State>
  {
    match a
    case Arrive(t, o) =>
      if t in s.tasks then None else Some(Goto(s, t, Waiting(o)))
    case Lock(t) =>
      if t !in s.tasks || !s.tasks[t].Waiting? || s.mu.Some? then None
      else
        var o := s.tasks[t].out;
        Some(Goto(s, t, SendHeader(o, o.payload)).(mu := Some(t), log := s.log + [o]))
    case Send(t, n, wire, broken) =>
      if t !in s.tasks || !Sending(s.tasks[t]) || s.tasks[t].chunks == [] then None
      else
        var pc := s.tasks[t];
        if !Multiplexer.Accepts(s.wire, s.broken, Chunked(pc), n, wire, broken) then None
        else if n < |Chunked(pc)| then
          Some(Goto(s, t, Returned(pc.out, false)).(mu := None, wire := wire, broken := broken))
        else Some(Goto(s, t, Advance(pc)).(wire := wire, broken := broken))
    case Return(t) =>
      if t !in s.tasks || !s.tasks[t].SendHeader? || s.tasks[t].chunks != [] then None
      else
        var o := s.tasks[t].out;
        Some(Goto(s, t, Returned(o, true)).(mu := None, acked := s.acked + [o]))
  }

  predicate Init(s: State)
  {
    s == State([], false, None, map[], [], [])
  }

  ghost predicate IsRun(run: seq<State>, acts: seq<Action>) { Runs.IsRun(Init, Next, run, acts) }

  /** The bytes the caller holding the mutex has still to send. */
  function Left(pc: Pc): Bytes
  {
    match pc
    case SendHeader(o, chunks) => Frames(o.stream, chunks)
    case SendBody(o, chunks) => chunks[..Chunk(chunks)] + Frames(o.stream, chunks[Chunk(chunks)..])
    case _ => []
  }

  /** Only the task holding the mutex is inside writeMultiplexedChunk. */
  predicate Exclusive(s: State)
  {
    && (s.mu.Some? ==> s.mu.value in s.tasks)
    && forall t :: t in s.tasks ==> (Sending(s.tasks[t]) <==> s.mu == Some(t))
  }

  /**
   * On a working connection, wire and log differ by what the holder of the mutex has left to send; on a broken one, a
   * holder of the mutex has sent nothing.
   */
  predicate Balanced(wire: Bytes, broken: bool, log: seq<Output>, acked: seq<Output>, holder: Option<Pc>)
  {
    && WireOf(acked) <= wire <= WireOf(log)
    && match holder
       case None => broken || (acked == log && wire == WireOf(log))
       case Some(pc) =>
         if broken then pc == SendHeader(pc.out, pc.out.payload)
         else log == acked + [pc.out] && wire + Left(pc) == WireOf(log)
  }

  function Holder(s: State): Option<Pc>
  {
    if s.mu.Some? && s.mu.value in s.tasks then Some(s.tasks[s.mu.value]) else None
  }

  predicate Accounted(s: State) { Balanced(s.wire, s.broken, s.log, s.acked, Holder(s)) }

  predicate Acknowledged(s: State)
  {
    forall t :: t in s.tasks && s.tasks[t].Returned? ==> if s.tasks[t].ok then s.tasks[t].out in s.acked else s.broken
  }

  predicate Inv(s: State) { Exclusive(s) && Accounted(s) && Acknowledged(s) }

  lemma LockBalances(wire: Bytes, broken: bool, log: seq<Output>, acked: seq<Output>, o: Output)
    requires Balanced(wire, broken, log, acked, None)
    ensures Balanced(wire, broken, log + [o], acked, Some(SendHeader(o, o.payload)))
  {
    LastWrite(log, o, STDOUT);
  }

  lemma ReturnBalances(wire: Bytes, broken: bool, log: seq<Output>, acked: seq<Output>, o: Output)
    requires Balanced(wire, broken, log, acked, Some(SendHeader(o, [])))
    ensures Balanced(wire, broken, log, acked + [o], None)
  {
    LastWrite(acked, o, STDOUT);
  }

  /** The next Write call passes the first of the bytes that are left. */
  lemma SentWhole(pc: Pc, wire: Bytes)
    requires Sending(pc) && pc.chunks != []
    ensures (wire + Chunked(pc)) + Left(Advance(pc)) == wire + Left(pc)
    ensures Chunked(pc) != []
  {
    if pc.SendHeader? {
      var n := Chunk(pc.chunks);
      Multiplexer.Regroup(wire, Chunked(pc), pc.chunks[..n], Frames(pc.out.stream, pc.chunks[n..]));
    } else {
      Associative(wire, Chunked(pc), Left(Advance(pc)));
    }
  }

  /** A Write call of `p` when `p` and then `left` are missing from `total`. */
  lemma SendOnWire(
      wire: Bytes, broken: bool, p: Bytes, left: Bytes, total: Bytes, acked: Bytes, n: nat, wire': Bytes, broken': bool)
    requires Multiplexer.Accepts(wire, broken, p, n, wire', broken') && p != []
    requires acked <= wire <= total && (!broken ==> (wire + p) + left == total)
    ensures acked <= wire' <= total
    ensures broken' <==> n < |p|
    ensures !broken' ==> wire' + left == total
  {
    if !broken {
      assert wire' <= wire + p <= (wire + p) + left;
      if n == |p| {
        assert wire' == wire + p;
      }
    } else {
      assert wire' == wire;
    }
  }

  lemma SendBalances(
      wire: Bytes, broken: bool, log: seq<Output>, acked: seq<Output>, pc: Pc, n: nat, wire': Bytes, broken': bool)
    requires Sending(pc) && pc.chunks != []
    requires Balanced(wire, broken, log, acked, Some(pc))
    requires Multiplexer.Accepts(wire, broken, Chunked(pc), n, wire', broken')
    ensures Balanced(wire', broken', log, acked, if n < |Chunked(pc)| then None else Some(Advance(pc)))
  {
    SentWhole(pc, wire);
    SendOnWire(wire, broken, Chunked(pc), Left(Advance(pc)), WireOf(log), WireOf(acked), n, wire', broken');
  }

  lemma ExclusiveNext(s: State, a: Action)
    requires Exclusive(s) && Next(s, a).Some?
    ensures Exclusive(Next(s, a).value)
  {
  }

  lemma AcknowledgedNext(s: State, a: Action)
    requires Acknowledged(s) && Next(s, a).Some?
    ensures Acknowledged(Next(s, a).value)
  {
    var s' := Next(s, a).value;
    if a.Return? {
      assert s'.acked == s.acked + [s.tasks[a.task].out];
    } else {
      assert s'.acked == s.acked;
    }
  }

  lemma SendAccounted(s: State, a: Action)
    requires Exclusive(s) && Accounted(s) && a.Send? && Next(s, a).Some?
    ensures Accounted(Next(s, a).value)
  {
    var pc, s' := s.tasks[a.task], Next(s, a).value;
    assert Holder(s) == Some(pc);
    assert Holder(s') == if a.n < |Chunked(pc)| then None else Some(Advance(pc));
    SendBalances(s.wire, s.broken, s.log, s.acked, pc, a.n, s'.wire, s'.broken);
  }

  lemma LockAccounted(s: State, t: nat)
    requires Exclusive(s) && Accounted(s) && Next(s, Lock(t)).Some?
    ensures Accounted(Next(s, Lock(t)).value)
  {
    var o, s' := s.tasks[t].out, Next(s, Lock(t)).value;
    assert Holder(s) == None;
    assert Holder(s') == Some(SendHeader(o, o.payload));
    LockBalances(s.wire, s.broken, s.log, s.acked, o);
  }

  lemma ReturnAccounted(s: State, t: nat)
    requires Exclusive(s) && Accounted(s) && Next(s, Return(t)).Some?
    ensures Accounted(Next(s, Return(t)).value)
  {
    var o, s' := s.tasks[t].out, Next(s, Return(t)).value;
    assert Holder(s) == Some(SendHeader(o, []));
    assert Holder(s') == None;
    ReturnBalances(s.wire, s.broken, s.log, s.acked, o);
  }

  lemma AccountedNext(s: State, a: Action)
    requires Exclusive(s) && Accounted(s) && Next(s, a).Some?
    ensures Accounted(Next(s, a).value)
  {
    match a
    case Arrive(t, o) =>
      assert Holder(Next(s, a).value) == Holder(s);
    case Lock(t) => LockAccounted(s, t);
    case Send(_, _, _, _) => SendAccounted(s, a);
    case Return(t) => ReturnAccounted(s, t);
  }

  lemma InvNext(s: State, a: Action)
    requires Inv(s) && Next(s, a).Some?
    ensures Inv(Next(s, a).value)
  {
    ExclusiveNext(s, a);
    AccountedNext(s, a);
    AcknowledgedNext(s, a);
  }

  lemma RunInv(run: seq<State>, acts: seq<Action>, i: nat)
    requires IsRun(run, acts) && i < |run|
    ensures Inv(run[i])
  {
    forall s, a | Inv(s) && Next(s, a).Some? ensures Inv(Next(s, a).value) {
      InvNext(s, a);
    }
    Runs.Invariant(Init, Next, (s: State, a: Action) => true, Inv, run, acts, i);
  }

  /**
   * In every interleaving the bytes on the wire decode, per stream, to at least the writes that returned success and
   * at most those that got the mutex, in the order they got it.
   */
  lemma ReadersSeeLockOrder(run: seq<State>, acts: seq<Action>, i: nat, stream: byte)
    requires IsRun(run, acts) && i < |run|
    ensures var s := run[i]; Written(s.acked, stream) <= Demux(s.wire, stream) <= Written(s.log, stream)
  {
    RunInv(run, acts, i);
    var s := run[i];
    RoundTrip(s.acked, stream);
    DemuxMonotone(WireOf(s.acked), s.wire[|WireOf(s.acked)|..], stream);
    assert WireOf(s.acked) + s.wire[|WireOf(s.acked)|..] == s.wire;
    PrefixSafety(s.log, s.wire, stream);
  }

  /** While the connection works and the mutex is free, the wire is whole frames of exactly the writes so far. */
  lemma NothingLost(run: seq<State>, acts: seq<Action>, i: nat, stream: byte)
    requires IsRun(run, acts) && i < |run| && !run[i].broken && run[i].mu.None?
    ensures var s := run[i];
      WellFramed(s.wire) && Demux(s.wire, stream) == Written(s.log, stream) && s.acked == s.log
  {
    RunInv(run, acts, i);
    RoundTrip(run[i].log, stream);
  }

  /** A call only fails on a connection that breaks. */
  lemma ErrorsMeanBroken(run: seq<State>, acts: seq<Action>, i: nat, t: nat)
    requires IsRun(run, acts) && i < |run|
    requires t in run[i].tasks && run[i].tasks[t].Returned? && !run[i].tasks[t].ok
    ensures run[i].broken
  {
    RunInv(run, acts, i);
  }

  lemma {:induction false} LoggedIsWritten(log: seq<Output>, o: Output)
    requires o in log
    ensures exists before: Bytes :: before + o.payload <= Written(log, o.stream)
  {
    var init, last := log[..|log| - 1], log[|log| - 1];
    if o == last {
      assert Written(init, o.stream) + o.payload <= Written(log, o.stream);
    } else {
      LoggedIsWritten(init, o);
      var before: Bytes :| before + o.payload <= Written(init, o.stream);
      assert before + o.payload <= Written(log, o.stream);
    }
  }

  /** A call that returned success has its payload delivered in one piece. */
  lemma SuccessIsDelivered(run: seq<State>, acts: seq<Action>, i: nat, t: nat)
    requires IsRun(run, acts) && i < |run|
    requires t in run[i].tasks && run[i].tasks[t].Returned? && run[i].tasks[t].ok
    ensures var o := run[i].tasks[t].out;
      exists before: Bytes :: before + o.payload <= Demux(run[i].wire, o.stream)
  {
    var s, o := run[i], run[i].tasks[t].out;
    RunInv(run, acts, i);
    LoggedIsWritten(s.acked, o);
    ReadersSeeLockOrder(run, acts, i, o.stream);
    var before: Bytes :| before + o.payload <= Written(s.acked, o.stream);
    assert before + o.payload <= Demux(s.wire, o.stream);
  }
}
