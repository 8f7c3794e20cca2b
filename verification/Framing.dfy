/**
 * The multiplexed stdout/stderr stream ("Stream format" of ContainerAttach, Docker Engine API v1.43): the frames a
 * payload turns into, and the reader that takes them apart again.
 */
module Framing {

  newtype byte = x: int | 0 <= x < 256

  type Bytes = seq<byte>

  const MAX_CHUNK: nat := 65536
  const STDOUT: byte := 1
  const STDERR: byte := 2
  const NEWLINE: byte := 10

  /** The `width` low bytes of `v`, most significant first: `binary.BigEndian.PutUint32` is width 4. */
  function PutBigEndian(v: nat, width: nat): (b: Bytes)
    ensures |b| == width
  {
    if width == 0 then [] else PutBigEndian(v / 256, width - 1) + [(v % 256) as byte]
  }

  /** `binary.BigEndian.Uint32` on four bytes. */
  function BigEndian(b: Bytes): nat
  {
    if b == [] then 0 else BigEndian(b[..|b| - 1]) * 256 + b[|b| - 1] as nat
  }

  function Pow256(width: nat): nat
  {
    if width == 0 then 1 else 256 * Pow256(width - 1)
  }

  lemma {:induction false} BigEndianOfPut(v: nat, width: nat)
    requires v < Pow256(width)
    ensures BigEndian(PutBigEndian(v, width)) == v
  {
    if width > 0 {
      BigEndianOfPut(v / 256, width - 1);
      var b := PutBigEndian(v, width);
      assert b[..|b| - 1] == PutBigEndian(v / 256, width - 1);
    }
  }

  /** The eight bytes in front of a chunk of `n` payload bytes. */
  function Header(stream: byte, n: nat): (h: Bytes)
    requires n <= MAX_CHUNK
    ensures |h| == 8
  {
    [stream, 0, 0, 0] + PutBigEndian(n, 4)
  }

  function Chunk(payload: Bytes): (n: nat)
    ensures n <= |payload| && n <= MAX_CHUNK && (payload != [] ==> n > 0)
  {
    if |payload| > MAX_CHUNK then MAX_CHUNK else |payload|
  }

  function Frames(stream: byte, payload: Bytes): Bytes
    decreases |payload|
  {
    if payload == [] then []
    else
      var n := Chunk(payload);
      Header(stream, n) + payload[..n] + Frames(stream, payload[n..])
  }

  /** Size field of the frame at the start of `wire`. */
  function FrameSize(wire: Bytes): nat
    requires |wire| >= 8
  {
    BigEndian(wire[4..8])
  }

  /** As much of the payload of the first frame of `wire` as is there. */
  function FirstPayload(wire: Bytes): (p: Bytes)
    requires |wire| >= 8
    ensures |p| <= |wire| - 8
  {
    if FrameSize(wire) <= |wire| - 8 then wire[8..8 + FrameSize(wire)] else wire[8..]
  }

  function AfterFirst(wire: Bytes): (rest: Bytes)
    requires |wire| >= 8
    ensures |rest| < |wire|
  {
    wire[8 + |FirstPayload(wire)|..]
  }

  /** The part of the first frame of `wire` that goes to `stream`. */
  function Delivered(wire: Bytes, stream: byte): Bytes
    requires |wire| >= 8
  {
    if wire[0] == stream then FirstPayload(wire) else []
  }

  /**
   * What a reader of the stream delivers on `stream` once it has received `wire`: the payload of every whole frame of
   * that stream, and as much of an unfinished last frame as is there.
   */
  function Demux(wire: Bytes, stream: byte): Bytes
    decreases |wire|
  {
    if |wire| < 8 then []
    else Delivered(wire, stream) + Demux(AfterFirst(wire), stream)
  }

  /** Whole frames only, each with a zero padding and 1 to 65536 bytes. */
  predicate WellFramed(wire: Bytes)
    decreases |wire|
  {
    wire == [] ||
    (&& |wire| >= 8
     && wire[1..4] == [0, 0, 0]
     && 1 <= FrameSize(wire) <= MAX_CHUNK
     && FrameSize(wire) <= |wire| - 8
     && WellFramed(AfterFirst(wire)))
  }

  /** A Write on one of the two streams. */
  datatype Output = Output(stream: byte, payload: Bytes)

  function WireOf(log: seq<Output>): Bytes
  {
    if log == [] then []
    else WireOf(log[..|log| - 1]) + Frames(log[|log| - 1].stream, log[|log| - 1].payload)
  }

  /** The concatenation of the writes on `stream`, in order. */
  function Written(log: seq<Output>, stream: byte): Bytes
  {
    if log == [] then []
    else
      var last := log[|log| - 1];
      Written(log[..|log| - 1], stream) + if last.stream == stream then last.payload else []
  }

  function CeilDiv(n: nat, d: nat): nat
    requires d > 0
  {
    (n + d - 1) / d
  }

  lemma FirstFrame(stream: byte, chunk: Bytes, rest: Bytes)
    requires 1 <= |chunk| <= MAX_CHUNK
    ensures var wire := Header(stream, |chunk|) + chunk + rest;
      && |wire| == 8 + |chunk| + |rest| && wire[0] == stream && wire[1..4] == [0, 0, 0]
      && FrameSize(wire) == |chunk| && FirstPayload(wire) == chunk && AfterFirst(wire) == rest
  {
    var wire := Header(stream, |chunk|) + chunk + rest;
    assert wire[4..8] == PutBigEndian(|chunk|, 4);
    assert Pow256(4) == 0x1_0000_0000;
    BigEndianOfPut(|chunk|, 4);
    assert wire[8..8 + |chunk|] == chunk;
    assert wire[8 + |chunk|..] == rest;
  }

  lemma SameFirst(wire: Bytes, rest: Bytes)
    requires |wire| >= 8
    ensures (wire + rest)[0] == wire[0] && (wire + rest)[1..4] == wire[1..4]
    ensures FrameSize(wire + rest) == FrameSize(wire)
    ensures FirstPayload(wire) <= FirstPayload(wire + rest)
    ensures FrameSize(wire) <= |wire| - 8 ==>
      FirstPayload(wire + rest) == FirstPayload(wire) && AfterFirst(wire + rest) == AfterFirst(wire) + rest
    ensures FrameSize(wire) > |wire| - 8 ==> AfterFirst(wire) == []
  {
    assert (wire + rest)[4..8] == wire[4..8];
    assert (wire + rest)[1..4] == wire[1..4];
  }

  lemma PrependFrame(stream: byte, chunk: Bytes, rest: Bytes, s: byte)
    requires 1 <= |chunk| <= MAX_CHUNK
    ensures var wire := Header(stream, |chunk|) + chunk + rest;
      && (WellFramed(rest) ==> WellFramed(wire))
      && Demux(wire, s) == (if s == stream then chunk else []) + Demux(rest, s)
  {
    FirstFrame(stream, chunk, rest);
  }

  lemma FourBytes(n: nat)
    requires n <= 65536
    ensures PutBigEndian(n, 4) ==
      [(n / 16777216) as byte, (n / 65536) as byte, (n / 256 % 256) as byte, (n % 256) as byte]
  {
    assert PutBigEndian(n / 16777216, 1) == PutBigEndian(n / 16777216 / 256, 0) + [(n / 16777216 % 256) as byte];
    assert PutBigEndian(n / 65536, 2) == PutBigEndian(n / 65536 / 256, 1) + [(n / 65536 % 256) as byte];
    assert PutBigEndian(n / 256, 3) == PutBigEndian(n / 256 / 256, 2) + [(n / 256 % 256) as byte];
    assert n / 256 / 256 == n / 65536 && n / 65536 / 256 == n / 16777216;
  }

  /** The bytes of the first frame: stream, three zeros, the length from its highest byte down, and the chunk. */
  lemma FirstFrameBytes(stream: byte, payload: Bytes)
    requires payload != []
    ensures var n := if |payload| < 65536 then |payload| else 65536;
      Frames(stream, payload) ==
        [stream, 0, 0, 0, (n / 16777216) as byte, (n / 65536) as byte, (n / 256 % 256) as byte, (n % 256) as byte]
        + payload[..n] + Frames(stream, payload[n..])
  {
    var n := if |payload| < 65536 then |payload| else 65536;
    FourBytes(n);
    assert Header(stream, n) ==
      [stream, 0, 0, 0, (n / 16777216) as byte, (n / 65536) as byte, (n / 256 % 256) as byte, (n % 256) as byte];
  }

  lemma {:induction false} FramesWellFramed(stream: byte, payload: Bytes)
    ensures WellFramed(Frames(stream, payload))
    decreases |payload|
  {
    if payload != [] {
      var n := Chunk(payload);
      FramesWellFramed(stream, payload[n..]);
      PrependFrame(stream, payload[..n], Frames(stream, payload[n..]), stream);
    }
  }

  lemma OneMoreChunk(len: nat, n: nat)
    requires 0 < len && n == if len > MAX_CHUNK then MAX_CHUNK else len
    ensures CeilDiv(len, MAX_CHUNK) == 1 + CeilDiv(len - n, MAX_CHUNK)
  {
  }

  lemma {:induction false} FramesLength(stream: byte, payload: Bytes)
    ensures |Frames(stream, payload)| == |payload| + 8 * CeilDiv(|payload|, MAX_CHUNK)
    decreases |payload|
  {
    if payload != [] {
      FramesLength(stream, payload[Chunk(payload)..]);
      OneMoreChunk(|payload|, Chunk(payload));
    }
  }

  /** Each write is framed by 1 to 65536 bytes per frame, at eight bytes of header each. */
  lemma FramesShape(stream: byte, payload: Bytes)
    ensures WellFramed(Frames(stream, payload))
    ensures |Frames(stream, payload)| == |payload| + 8 * ((|payload| + 65535) / 65536)
  {
    FramesWellFramed(stream, payload);
    FramesLength(stream, payload);
  }

  lemma Associative(a: Bytes, b: Bytes, c: Bytes)
    ensures (a + b) + c == a + (b + c)
  {
  }

  /** A reader that is at a frame boundary after `wire` reads what follows from a clean state. */
  lemma {:induction false} DemuxConcat(wire: Bytes, rest: Bytes, stream: byte)
    requires WellFramed(wire)
    ensures Demux(wire + rest, stream) == Demux(wire, stream) + Demux(rest, stream)
    decreases |wire|
  {
    if wire == [] {
      assert wire + rest == rest;
    } else {
      var first := Delivered(wire, stream);
      SameFirst(wire, rest);
      DemuxConcat(AfterFirst(wire), rest, stream);
      Associative(first, Demux(AfterFirst(wire), stream), Demux(rest, stream));
    }
  }

  lemma {:induction false} WellFramedConcat(wire: Bytes, rest: Bytes)
    requires WellFramed(wire) && WellFramed(rest)
    ensures WellFramed(wire + rest)
    decreases |wire|
  {
    if wire == [] {
      assert wire + rest == rest;
    } else {
      SameFirst(wire, rest);
      WellFramedConcat(AfterFirst(wire), rest);
    }
  }

  lemma {:induction false} DemuxFrames(stream: byte, payload: Bytes, s: byte)
    ensures Demux(Frames(stream, payload), s) == if s == stream then payload else []
    decreases |payload|
  {
    if payload != [] {
      var n := Chunk(payload);
      DemuxFrames(stream, payload[n..], s);
      PrependFrame(stream, payload[..n], Frames(stream, payload[n..]), s);
      assert payload == payload[..n] + payload[n..];
    }
  }

  /** Reading back any sequence of writes gives, on each stream, exactly what was written to it, in order. */
  lemma {:induction false} RoundTrip(log: seq<Output>, stream: byte)
    ensures WellFramed(WireOf(log))
    ensures Demux(WireOf(log), stream) == Written(log, stream)
  {
    if log != [] {
      var init, last := log[..|log| - 1], log[|log| - 1];
      RoundTrip(init, stream);
      FramesShape(last.stream, last.payload);
      WellFramedConcat(WireOf(init), Frames(last.stream, last.payload));
      DemuxConcat(WireOf(init), Frames(last.stream, last.payload), stream);
      DemuxFrames(last.stream, last.payload, stream);
    }
  }

  lemma PrefixOfConcat(a: Bytes, b: Bytes, c: Bytes)
    requires b <= c
    ensures a + b <= a + c
  {
  }

  /** What has arrived of the payload of an unfinished frame is delivered. */
  lemma PartialFrame(stream: byte, chunk: Bytes, part: Bytes)
    requires 1 <= |chunk| <= 65536 && part <= chunk
    ensures Demux(Header(stream, |chunk|) + part, stream) == part
  {
    var wire := Header(stream, |chunk|) + part;
    assert wire[4..8] == PutBigEndian(|chunk|, 4);
    assert Pow256(4) == 0x1_0000_0000;
    BigEndianOfPut(|chunk|, 4);
    assert wire[8..] == part && FirstPayload(wire) == part;
    assert AfterFirst(wire) == [];
  }

  /** Receiving more bytes only ever extends what was delivered, whatever the bytes are. */
  lemma {:induction false} DemuxMonotone(wire: Bytes, rest: Bytes, stream: byte)
    ensures Demux(wire, stream) <= Demux(wire + rest, stream)
    decreases |wire|
  {
    if |wire| >= 8 {
      SameFirst(wire, rest);
      if FrameSize(wire) <= |wire| - 8 {
        DemuxMonotone(AfterFirst(wire), rest, stream);
        var before, after := Demux(AfterFirst(wire), stream), Demux(AfterFirst(wire + rest), stream);
        PrefixOfConcat(Delivered(wire, stream), before, after);
      } else {
        assert Demux(AfterFirst(wire), stream) == [];
      }
    }
  }

  /** No cut of the stream delivers a wrong or misattributed byte. */
  lemma PrefixSafety(log: seq<Output>, wire: Bytes, stream: byte)
    requires wire <= WireOf(log)
    ensures Demux(wire, stream) <= Written(log, stream)
  {
    RoundTrip(log, stream);
    DemuxMonotone(wire, WireOf(log)[|wire|..], stream);
    assert wire + WireOf(log)[|wire|..] == WireOf(log);
  }

  /** How much of non-empty data `ReadBytes('\n')` returns. */
  function LineEnd(data: Bytes): (n: nat)
    ensures n <= |data|
    ensures data != [] ==> n > 0
    ensures forall i :: 0 <= i < n - 1 ==> data[i] != NEWLINE
    ensures n < |data| ==> data[n - 1] == NEWLINE
  {
    if data == [] then 0 else if data[0] == NEWLINE then 1 else 1 + LineEnd(data[1..])
  }

  /** One write on stdout per line of a log, newline included, and one for what follows the last newline. */
  function LineWrites(data: Bytes): seq<Output>
    decreases |data|
  {
    if data == [] then []
    else var n := LineEnd(data); [Output(STDOUT, data[..n])] + LineWrites(data[n..])
  }

  lemma {:induction false} LogConcat(a: seq<Output>, b: seq<Output>, stream: byte)
    ensures WireOf(a + b) == WireOf(a) + WireOf(b)
    ensures Written(a + b, stream) == Written(a, stream) + Written(b, stream)
    decreases |b|
  {
    if b == [] {
      assert a + b == a;
    } else {
      var init, last := b[..|b| - 1], b[|b| - 1];
      LogConcat(a, init, stream);
      var frames := Frames(last.stream, last.payload);
      var payload := if last.stream == stream then last.payload else [];
      assert (a + b)[..|a + b| - 1] == a + init;
      Associative(WireOf(a), WireOf(init), frames);
      Associative(Written(a, stream), Written(init, stream), payload);
    }
  }

  lemma LastWrite(log: seq<Output>, o: Output, stream: byte)
    ensures WireOf(log + [o]) == WireOf(log) + Frames(o.stream, o.payload)
    ensures Written(log + [o], stream) == Written(log, stream) + if o.stream == stream then o.payload else []
  {
    assert (log + [o])[..|log|] == log;
  }

  lemma FirstWrite(o: Output, log: seq<Output>, stream: byte)
    ensures WireOf([o] + log) == Frames(o.stream, o.payload) + WireOf(log)
    ensures Written([o] + log, stream) == (if o.stream == stream then o.payload else []) + Written(log, stream)
  {
    LogConcat([o], log, stream);
    LastWrite([], o, stream);
    assert [] + [o] == [o];
  }

  lemma PrependLine(line: Bytes, log: seq<Output>, later: Bytes, stream: byte)
    requires Written(log, stream) == if stream == STDOUT then later else []
    ensures Written([Output(STDOUT, line)] + log, stream) == if stream == STDOUT then line + later else []
  {
    FirstWrite(Output(STDOUT, line), log, stream);
  }

  /** A log copied line by line is read back as exactly the log, newline at its end or not. */
  lemma {:induction false} LinesRoundTrip(data: Bytes, stream: byte)
    ensures Written(LineWrites(data), stream) == if stream == STDOUT then data else []
    decreases |data|
  {
    if data != [] {
      var n := LineEnd(data);
      LinesRoundTrip(data[n..], stream);
      PrependLine(data[..n], LineWrites(data[n..]), data[n..], stream);
      assert data[..n] + data[n..] == data;
    }
  }

  /** The writes are on stream 1, none is empty, and only the last may lack the newline that all the others end in. */
  lemma {:induction false} LinesAreLines(data: Bytes, i: nat)
    requires i < |LineWrites(data)|
    ensures var w := LineWrites(data)[i];
      && w.stream == 1 && w.payload != []
      && (forall j :: 0 <= j < |w.payload| - 1 ==> w.payload[j] != 10)
      && (i < |LineWrites(data)| - 1 ==> w.payload[|w.payload| - 1] == 10)
    decreases |data|
  {
    var n := LineEnd(data);
    if i > 0 {
      LinesAreLines(data[n..], i - 1);
      assert LineWrites(data)[i] == LineWrites(data[n..])[i - 1];
    }
  }
}
