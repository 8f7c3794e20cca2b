/** The writers of the multiplexed stream: writeMultiplexedChunk, framedWriter and the log loops of containers.go. */
module Multiplexer {
  import opened Common
  import opened Framing

  /**
   * One Write call on a connection that has sent `sent`: `n` bytes of `p` go out. Fewer than all is the error case,
   * after which the connection is broken and takes nothing more.
   */
  predicate Accepts(sent: Bytes, broken: bool, p: Bytes, n: nat, sent': Bytes, broken': bool)
  {
    && n <= |p|
    && (broken ==> n == 0)
    && sent' == sent + p[..n]
    && broken' == (broken || n < |p|)
  }

  class Conn {
    var sent: Bytes
    var broken: bool

    constructor ()
      ensures sent == [] && !broken
    {
      sent, broken := [], false;
    }

    method Write(p: Bytes) returns (n: nat, err: bool)
      modifies this
      ensures Accepts(old(sent), old(broken), p, n, sent, broken)
      ensures err <==> n < |p|
    {
      n :| n <= |p| && (broken ==> n == 0);
      err := n < |p|;
      sent, broken := sent + p[..n], broken || err;
    }
  }

  lemma Regroup(a: Bytes, b: Bytes, c: Bytes, d: Bytes)
    ensures a + (b + c + d) == (a + b) + (c + d) == ((a + b) + c) + d
  {
  }

  lemma CutShort(sent: Bytes, part: Bytes, whole: Bytes, left: Bytes)
    requires part <= whole && |part| < |whole|
    ensures sent <= sent + part <= sent + (whole + left) && sent + part != sent + (whole + left)
  {
  }

  /**
   * Puts the frames of `payload` on the connection, or a proper prefix of them when it fails midway.
   */
  method WriteMultiplexedChunk(w: Conn, stream: byte, payload: Bytes) returns (err: bool)
    modifies w
    ensures old(w.sent) <= w.sent <= old(w.sent) + Frames(stream, payload)
    ensures err <==> w.sent != old(w.sent) + Frames(stream, payload)
    ensures w.broken == (old(w.broken) || err)
  {
    var chunks := payload;
    while |chunks| > 0
      invariant old(w.sent) <= w.sent
      invariant w.sent + Frames(stream, chunks) == old(w.sent) + Frames(stream, payload)
      invariant w.broken == old(w.broken)
    {
      var n := |chunks|;
      if n > MAX_CHUNK {
        n := MAX_CHUNK;
      }
      var hdr := Header(stream, n);
      ghost var sent, left := w.sent, Frames(stream, chunks[n..]);
      Regroup(sent, hdr, chunks[..n], left);
      var m, failed := w.Write(hdr);
      if failed {
        CutShort(sent, hdr[..m], hdr, chunks[..n] + left);
        return true;
      }
      assert hdr[..m] == hdr;
      m, failed := w.Write(chunks[..n]);
      if failed {
        CutShort(sent + hdr, chunks[..n][..m], chunks[..n], left);
        return true;
      }
      assert chunks[..n][..m] == chunks[..n];
      chunks := chunks[n..];
    }
    return false;
  }

  /** sync.Mutex: Lock returns once nobody holds it. */
  class Mutex {
    var held: bool

    constructor ()
      ensures !held
    {
      held := false;
    }

    method Lock()
      requires !held
      modifies this
      ensures held
    {
      held := true;
    }

    method Unlock()
      requires held
      modifies this
      ensures !held
    {
      held := false;
    }
  }

  class FramedWriter {
    const mu: Mutex
    const w: Conn
    const stream: byte

    constructor (mu: Mutex, w: Conn, stream: byte)
      ensures this.mu == mu && this.w == w && this.stream == stream
    {
      this.mu, this.w, this.stream := mu, w, stream;
    }

    /** From the moment the mutex is free until it is released, on success and on failure. */
    method Write(p: Bytes) returns (n: nat, err: bool)
      requires !mu.held
      modifies mu, w
      ensures !mu.held
      ensures old(w.sent) <= w.sent <= old(w.sent) + Frames(stream, p)
      ensures n == if err then 0 else |p|
      ensures err <==> w.sent != old(w.sent) + Frames(stream, p)
    {
      mu.Lock();
      err := WriteMultiplexedChunk(w, stream, p);
      n := if err then 0 else |p|;
      mu.Unlock();
    }
  }

  /** Without a terminal, two writers that share the connection and one mutex; with one, the raw connection twice. */
  method MultiplexedStdoutStderr(w: Conn, tty: bool) returns (r: Option<(FramedWriter, FramedWriter)>)
    ensures r.None? <==> tty
    ensures r.Some? ==>
      var (stdout, stderr) := r.value;
      && stdout.w == stderr.w == w && stdout.mu == stderr.mu && fresh(stdout.mu) && !stdout.mu.held
      && stdout.stream == 1 && stderr.stream == 2
  {
    if tty {
      return None;
    }
    var mu := new Mutex();
    var stdout := new FramedWriter(mu, w, STDOUT);
    var stderr := new FramedWriter(mu, w, STDERR);
    return Some((stdout, stderr));
  }

  /** A pod's log stream behind a bufio.Reader; `rest` is what is still to come before it ends or fails. */
  class LogReader {
    var rest: Bytes

    constructor (data: Bytes)
      ensures rest == data
    {
      rest := data;
    }

    method ReadBytes() returns (line: Bytes, err: bool)
      modifies this
      ensures old(rest) == line + rest
      ensures line == old(rest)[..LineEnd(old(rest))]
      ensures err <==> 10 !in line
    {
      var n := LineEnd(rest);
      line, rest := rest[..n], rest[n..];
      err := line == [] || line[|line| - 1] != NEWLINE;
    }
  }

  lemma FirstLine(data: Bytes, sent: Bytes)
    requires data != []
    ensures var line := data[..LineEnd(data)];
      sent + WireOf(LineWrites(data)) == (sent + Frames(STDOUT, line)) + WireOf(LineWrites(data[LineEnd(data)..]))
  {
    var line, later := Output(STDOUT, data[..LineEnd(data)]), LineWrites(data[LineEnd(data)..]);
    FirstWrite(line, later, STDOUT);
    Associative(sent, Frames(STDOUT, line.payload), WireOf(later));
  }

  /** A line without newline can only be the last one. */
  lemma InnerLine(data: Bytes)
    requires LineEnd(data) < |data|
    ensures NEWLINE in data[..LineEnd(data)]
  {
    assert data[..LineEnd(data)][LineEnd(data) - 1] == NEWLINE;
  }

  /** The loop that attachLogs and logs share. */
  method CopyLines(w: Conn, br: LogReader)
    modifies w, br
    ensures old(w.sent) <= w.sent <= old(w.sent) + WireOf(LineWrites(old(br.rest)))
    ensures old(w.broken) ==> w.broken
    ensures !w.broken ==> w.sent == old(w.sent) + WireOf(LineWrites(old(br.rest)))
  {
    var more := true;
    ghost var total := old(w.sent) + WireOf(LineWrites(old(br.rest)));
    while more
      invariant old(w.sent) <= w.sent
      invariant w.sent + WireOf(LineWrites(br.rest)) == total
      invariant w.broken == old(w.broken)
      invariant !more ==> br.rest == []
      decreases |br.rest|, more
    {
      ghost var data, sent := br.rest, w.sent;
      var line, err := br.ReadBytes();
      if |line| > 0 {
        FirstLine(data, sent);
        var failed := WriteMultiplexedChunk(w, STDOUT, line);
        if failed {
          return;
        }
      }
      if err {
        if LineEnd(data) < |data| {
          InnerLine(data);
        }
        more := false;
      }
    }
  }

  lemma LogArrives(data: Bytes, delivered: Bytes)
    requires delivered <= WireOf(LineWrites(data))
    ensures forall stream :: Demux(delivered, stream) <= if stream == STDOUT then data else []
    ensures delivered == WireOf(LineWrites(data)) ==>
      forall stream :: Demux(delivered, stream) == if stream == STDOUT then data else []
  {
    forall stream
      ensures Demux(delivered, stream) <= if stream == STDOUT then data else []
      ensures delivered == WireOf(LineWrites(data)) ==>
        Demux(delivered, stream) == if stream == STDOUT then data else []
    {
      LinesRoundTrip(data, stream);
      RoundTrip(LineWrites(data), stream);
      PrefixSafety(LineWrites(data), delivered, stream);
    }
  }

  /**
   * The log of a pod reaches the client byte for byte: raw with a terminal, as stdout frames without one. A connection
   * that breaks leaves the client with a prefix, never with a wrong byte or one on another stream.
   */
  method AttachLogs(conn: Conn, rc: Option<LogReader>, tty: bool)
    modifies conn, match rc case Some(r) => {r} case None => {}
    ensures old(conn.sent) <= conn.sent
    ensures rc.None? ==> conn.sent == old(conn.sent)
    ensures rc.Some? && tty ==> conn.sent[|old(conn.sent)|..] <= old(rc.value.rest)
    ensures rc.Some? && tty && !conn.broken ==> conn.sent[|old(conn.sent)|..] == old(rc.value.rest)
    ensures rc.Some? && !tty ==> forall stream ::
      Demux(conn.sent[|old(conn.sent)|..], stream) <= if stream == 1 then old(rc.value.rest) else []
    ensures rc.Some? && !tty && !conn.broken ==> forall stream ::
      Demux(conn.sent[|old(conn.sent)|..], stream) == if stream == 1 then old(rc.value.rest) else []
  {
    if rc.None? {
      return;
    }
    if tty {
      var n, err := conn.Write(rc.value.rest);
      rc.value.rest := rc.value.rest[n..];
      return;
    }
    ghost var data, sent := rc.value.rest, conn.sent;
    CopyLines(conn, rc.value);
    LogArrives(data, conn.sent[|sent|..]);
  }
}
