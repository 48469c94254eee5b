/**
 * The LED device's receiver for the framed link: a byte-at-a-time parser
 * over a fixed 80-byte buffer that hunts for SOF, checks the header as soon
 * as it is complete, checks EOF and CRC once the whole frame is in, and on
 * any failure resynchronises on the next SOF already in the buffer.
 *
 * `Feed` is the pure reference for one byte; `SerialReceiver` is the buffer
 * updated in place, proved against it.
 */
module Decoder {
  import opened Bytes
  import opened Crc16
  import opened Framing

  /** A partial frame idle for longer than this many milliseconds is dropped. */
  const STALE_MS: nat := 10

  /** What one received byte leads to. */
  datatype Event =
    | Nothing
    | HeaderDrop
    | EofDrop
    | CrcDrop
    | Accepted(kind: byte, seqNo: byte, payload: seq<byte>)

  /** What the receiver may hold between two bytes: nothing, or a partial frame starting with SOF. */
  predicate Buffered(buf: seq<byte>)
  {
    |buf| <= LARGEST_FRAME && (|buf| > 0 ==> buf[0] == SOF)
  }

  function ResyncFrom(buf: seq<byte>, i: nat): (r: seq<byte>)
    requires 1 <= i <= |buf|
    ensures |r| <= |buf| - i
    ensures r == buf[|buf| - |r|..]
    ensures r == [] || r[0] == SOF
    decreases |buf| - i
  {
    if i == |buf| then []
    else if buf[i] == SOF then buf[i..]
    else ResyncFrom(buf, i + 1)
  }

  lemma {:induction false} ResyncFromSkipsNoSof(buf: seq<byte>, i: nat, k: nat)
    requires 1 <= i <= k < |buf|
    requires k < |buf| - |ResyncFrom(buf, i)|
    ensures buf[k] != SOF
    decreases |buf| - i
  {
    if buf[i] != SOF && i < k {
      ResyncFromSkipsNoSof(buf, i + 1, k);
    }
  }

  /**
   * `resyncFromBuffer`: the suffix that starts at the first SOF at index 1 or
   * later, or nothing: a proper suffix that is empty or starts with SOF
   * (and, by `ResyncSkipsNoSof`, with no SOF skipped on the way).
   */
  function Resync(buf: seq<byte>): (r: seq<byte>)
    ensures |r| <= |buf|
    ensures |buf| > 0 ==> |r| < |buf|
    ensures r == buf[|buf| - |r|..]
    ensures r == [] || r[0] == SOF
  {
    if |buf| == 0 then [] else ResyncFrom(buf, 1)
  }

  /** Resync never jumps over an SOF: every byte it drops after index 0 is not SOF. */
  lemma ResyncSkipsNoSof(buf: seq<byte>)
    ensures forall k :: 1 <= k < |buf| - |Resync(buf)| ==> buf[k] != SOF
  {
    forall k | 1 <= k < |buf| - |Resync(buf)|
      ensures buf[k] != SOF
    {
      ResyncFromSkipsNoSof(buf, 1, k);
    }
  }

  /** When the first SOF after index 0 is at `i`, resync keeps exactly `buf[i..]`. */
  lemma ResyncAtFirstSof(buf: seq<byte>, i: nat)
    requires 1 <= i < |buf| && buf[i] == SOF
    requires forall k :: 1 <= k < i ==> buf[k] != SOF
    ensures Resync(buf) == buf[i..]
  {
    ResyncSkipsNoSof(buf);
  }

  /** With no SOF after index 0, resync empties the buffer. */
  lemma ResyncWithoutSof(buf: seq<byte>)
    requires forall k :: 1 <= k < |buf| ==> buf[k] != SOF
    ensures Resync(buf) == []
  {
    ResyncSkipsNoSof(buf);
  }

  /** The total size the header in `buf[0..4)` announces. */
  function ExpectedSize(buf: seq<byte>): nat
    requires |buf| >= 4
  {
    4 + buf[3] as int + 3
  }

  /** The little-endian CRC field of a buffered frame of length `len`. */
  function CrcField(buf: seq<byte>, len: nat): int
    requires 6 + len <= |buf|
  {
    buf[4 + len] as int + 256 * buf[5 + len] as int
  }

  /**
   * The checks `processSerialData` runs on the buffer `nb` just after
   * appending a byte to a non-empty buffer: the header once four bytes are
   * in, then EOF and CRC once the announced size is reached.
   */
  function Inspect(nb: seq<byte>): (r: (seq<byte>, Event))
    ensures 0 < |nb| <= LARGEST_FRAME + 1 && nb[0] == SOF ==> Buffered(r.0)
    ensures r.1.Accepted? ==> r.0 == []
    ensures r.1.HeaderDrop? || r.1.EofDrop? || r.1.CrcDrop? ==> r.0 == Resync(nb)
    ensures r.1.Nothing? ==> r.0 == nb
  {
    if |nb| < 4 then (nb, Nothing)
    else
      var len := nb[3] as int;
      var expected := ExpectedSize(nb);
      if expected > MAX_FRAME_SIZE || !LengthOk(nb[1], len) then (Resync(nb), HeaderDrop)
      else if |nb| < expected then (nb, Nothing)
      else if nb[expected - 1] != EOF_BYTE then (Resync(nb), EofDrop)
      else if CrcField(nb, len) != CrcOf(nb[1..4 + len]) then (Resync(nb), CrcDrop)
      else ([], Accepted(nb[1], nb[2], nb[4..4 + len]))
  }

  /** The checks `Inspect` makes on a buffer holding a complete frame after a valid header. */
  lemma InspectComplete(nb: seq<byte>)
    requires |nb| >= 4 && LengthOk(nb[1], nb[3]) && |nb| >= ExpectedSize(nb)
    ensures var len := nb[3] as int;
      Inspect(nb) ==
        if nb[ExpectedSize(nb) - 1] != EOF_BYTE then (Resync(nb), EofDrop)
        else if CrcField(nb, len) != CrcOf(nb[1..4 + len]) then (Resync(nb), CrcDrop)
        else ([], Accepted(nb[1], nb[2], nb[4..4 + len]))
  {
  }

  /** The fields of a complete frame read the same from the buffer array and from its first n bytes. */
  lemma CompleteFrameFields(a: seq<byte>, n: nat, len: nat)
    requires len + OVERHEAD <= n <= |a|
    ensures a[..n][1..4 + len] == a[1..4 + len] && a[..n][4..4 + len] == a[4..4 + len]
    ensures a[..n][1] == a[1] && a[..n][2] == a[2] && a[..n][3] == a[3]
    ensures a[..n][len + OVERHEAD - 1] == a[len + OVERHEAD - 1]
    ensures CrcField(a[..n], len) == a[4 + len] as int + 256 * a[5 + len] as int
  {
  }

  /**
   * One iteration of the receive loop of `processSerialData`: the buffer
   * after byte `b` arrives, and what happened. An empty buffer keeps only SOF.
   */
  function Feed(buf: seq<byte>, b: byte): (r: (seq<byte>, Event))
    ensures Buffered(buf) ==> Buffered(r.0)
    ensures r.1.Nothing? ==> r.0 == buf + [b] || (buf == [] && b != SOF && r.0 == [])
  {
    if |buf| == 0 then
      (if b == SOF then [b] else [], Nothing)
    else
      Inspect(buf + [b])
  }

  /**
   * Only valid frames are delivered: an accepted event means the first
   * `len + 7` buffered bytes are a frame the acceptance predicate admits,
   * and they are exactly the encoding of the delivered fields.
   */
  lemma FeedAcceptsOnlyValidFrames(buf: seq<byte>, b: byte)
    requires Buffered(buf)
    ensures var r := Feed(buf, b);
      r.1.Accepted? ==>
        var n := |r.1.payload| + OVERHEAD;
        && |r.1.payload| < 256
        && n <= |buf| + 1
        && FrameValid((buf + [b])[..n])
        && (buf + [b])[..n] == Frame(r.1.kind, r.1.seqNo, r.1.payload)
  {
    var r := Feed(buf, b);
    if r.1.Accepted? {
      var nb := buf + [b];
      assert |buf| > 0 && r == Inspect(nb);
      var len := nb[3] as int;
      assert |nb| >= 4 && LengthOk(nb[1], len) && |nb| >= len + OVERHEAD;
      assert nb[len + OVERHEAD - 1] == EOF_BYTE;
      assert CrcField(nb, len) == CrcOf(nb[1..4 + len]);
      var w := nb[..len + OVERHEAD];
      assert w[1..4 + len] == nb[1..4 + len];
      assert FrameValid(w);
      ValidFrameIsEncoding(w);
      assert w[4..|w| - 3] == r.1.payload;
    }
  }

  /** Feeding the last byte of a valid frame whose other bytes are buffered delivers it. */
  lemma FeedCompletesValidFrame(f: seq<byte>)
    requires FrameValid(f)
    ensures Feed(f[..|f| - 1], f[|f| - 1]) == ([], Accepted(f[1], f[2], f[4..|f| - 3]))
  {
    var nb := f[..|f| - 1] + [f[|f| - 1]];
    assert nb == f;
  }

  /** Feeding any earlier byte of a valid frame just buffers it. */
  lemma FeedBuffersFramePrefix(f: seq<byte>, k: nat)
    requires FrameValid(f) && k < |f| - 1
    ensures Feed(f[..k], f[k]) == (f[..k + 1], Nothing)
  {
    var nb := f[..k] + [f[k]];
    assert nb == f[..k + 1];
    if k >= 3 {
      assert nb[1] == f[1] && nb[3] == f[3];
    }
  }

  /** What the receiver does with one byte: the new buffer, and what happened. */
  type Step = (seq<byte>, byte) -> (seq<byte>, Event)

  /** A receive loop over a sequence of bytes: the final buffer and one event per byte. */
  function RunWith(step: Step, buf: seq<byte>, input: seq<byte>): (r: (seq<byte>, seq<Event>))
    ensures |r.1| == |input|
    decreases |input|
  {
    if |input| == 0 then (buf, [])
    else
      var prev := RunWith(step, buf, input[..|input| - 1]);
      var next := step(prev.0, input[|input| - 1]);
      (next.0, prev.1 + [next.1])
  }

  /** One more byte extends a run by one step. */
  lemma RunWithSnoc(step: Step, buf: seq<byte>, input: seq<byte>, b: byte)
    ensures RunWith(step, buf, input + [b]) ==
      (step(RunWith(step, buf, input).0, b).0,
       RunWith(step, buf, input).1 + [step(RunWith(step, buf, input).0, b).1])
  {
    assert (input + [b])[..|input|] == input;
  }

  /** A run over a prefix extended by the next byte, whose step outcome is known. */
  lemma RunWithStep(step: Step, start: seq<byte>, input: seq<byte>, i: nat,
                    buf: seq<byte>, events: seq<Event>, nb: seq<byte>, ev: Event)
    requires i < |input|
    requires RunWith(step, start, input[..i]) == (buf, events)
    requires step(buf, input[i]) == (nb, ev)
    ensures RunWith(step, start, input[..i + 1]) == (nb, events + [ev])
  {
    RunWithSnoc(step, start, input[..i], input[i]);
    assert input[..i + 1] == input[..i] + [input[i]];
  }

  /** Running over two pieces of input is running over the first, then the second. */
  lemma {:induction false} RunWithAppend(step: Step, buf: seq<byte>, x: seq<byte>, y: seq<byte>)
    ensures RunWith(step, buf, x + y) ==
      (RunWith(step, RunWith(step, buf, x).0, y).0,
       RunWith(step, buf, x).1 + RunWith(step, RunWith(step, buf, x).0, y).1)
    decreases |y|
  {
    var mid := RunWith(step, buf, x);
    if |y| == 0 {
      assert x + y == x;
      assert mid.1 + [] == mid.1;
    } else {
      var y', b := y[..|y| - 1], y[|y| - 1];
      RunWithAppend(step, buf, x, y');
      var inner := RunWith(step, mid.0, y');
      var next := step(inner.0, b);
      assert x + y == (x + y') + [b];
      RunWithSnoc(step, buf, x + y', b);
      assert y == y' + [b];
      RunWithSnoc(step, mid.0, y', b);
      assert (mid.1 + inner.1) + [next.1] == mid.1 + (inner.1 + [next.1]);
    }
  }

  /** `processSerialData`'s receive loop over the bytes available. */
  function Run(buf: seq<byte>, input: seq<byte>): (r: (seq<byte>, seq<Event>))
    ensures |r.1| == |input|
  {
    RunWith(Feed, buf, input)
  }

  /** The receive loop keeps the buffer a partial frame within bounds. */
  lemma {:induction false} RunKeepsBuffered(buf: seq<byte>, input: seq<byte>)
    requires Buffered(buf)
    ensures Buffered(Run(buf, input).0)
    decreases |input|
  {
    if |input| > 0 {
      RunKeepsBuffered(buf, input[..|input| - 1]);
    }
  }

  /** One more byte extends a run by one `Feed`. */
  lemma RunSnoc(buf: seq<byte>, input: seq<byte>, b: byte)
    ensures Run(buf, input + [b]) ==
      (Feed(Run(buf, input).0, b).0, Run(buf, input).1 + [Feed(Run(buf, input).0, b).1])
  {
    RunWithSnoc(Feed, buf, input, b);
  }

  function Nothings(n: nat): (evs: seq<Event>)
    ensures |evs| == n && forall i :: 0 <= i < n ==> evs[i] == Nothing
  {
    seq(n, _ => Nothing)
  }

  /** Every proper prefix of a valid frame is simply buffered, one byte at a time. */
  lemma {:induction false} RunBuffersFramePrefix(f: seq<byte>, k: nat)
    requires FrameValid(f) && k < |f|
    ensures Run([], f[..k]) == (f[..k], Nothings(k))
  {
    if k > 0 {
      RunBuffersFramePrefix(f, k - 1);
      FeedBuffersFramePrefix(f, k - 1);
      RunWithStep(Feed, [], f, k - 1, f[..k - 1], Nothings(k - 1), f[..k], Nothing);
      assert Nothings(k - 1) + [Nothing] == Nothings(k);
    }
  }

  /**
   * Round trip with the encoder: an encoded frame of a registered type fed
   * into an empty receiver is delivered once, at its last byte, with exactly
   * the type, sequence number and payload it was encoded from.
   */
  lemma EncodedFrameDelivered(t: byte, s: byte, p: seq<byte>)
    requires |p| < 256 && LengthOk(t, |p|)
    ensures Run([], Frame(t, s, p)) == ([], Nothings(|p| + OVERHEAD - 1) + [Accepted(t, s, p)])
  {
    var f := Frame(t, s, p);
    EncodedFrameValid(t, s, p);
    FrameLayout(t, s, p);
    var n := |f| - 1;
    RunBuffersFramePrefix(f, n);
    assert f == f[..n] + [f[n]];
    RunSnoc([], f[..n], f[n]);
    FeedCompletesValidFrame(f);
    assert f[..|f| - 1] == f[..n];
  }

  /** Bytes other than SOF reaching an empty receiver are discarded one by one. */
  lemma {:induction false} NoiseDiscarded(noise: seq<byte>)
    requires forall i :: 0 <= i < |noise| ==> noise[i] != SOF
    ensures Run([], noise) == ([], Nothings(|noise|))
    decreases |noise|
  {
    if |noise| > 0 {
      var n := |noise| - 1;
      NoiseDiscarded(noise[..n]);
      assert Nothings(n) + [Nothing] == Nothings(n + 1);
    }
  }

  /** Line noise without SOF ahead of a frame does not stop the frame from being delivered. */
  lemma NoiseThenFrameDelivered(noise: seq<byte>, t: byte, s: byte, p: seq<byte>)
    requires forall i :: 0 <= i < |noise| ==> noise[i] != SOF
    requires |p| < 256 && LengthOk(t, |p|)
    ensures Run([], noise + Frame(t, s, p)) ==
      ([], Nothings(|noise| + |p| + OVERHEAD - 1) + [Accepted(t, s, p)])
  {
    NoiseDiscarded(noise);
    RunWithAppend(Feed, [], noise, Frame(t, s, p));
    EncodedFrameValid(t, s, p);
    EncodedFrameDelivered(t, s, p);
    assert Nothings(|noise|) + (Nothings(|p| + OVERHEAD - 1) + [Accepted(t, s, p)])
      == Nothings(|noise| + |p| + OVERHEAD - 1) + [Accepted(t, s, p)];
  }

  /** The number of CRC failures among some events. */
  function CrcDrops(evs: seq<Event>): (n: nat)
    ensures n <= |evs|
  {
    if |evs| == 0 then 0
    else CrcDrops(evs[..|evs| - 1]) + (if evs[|evs| - 1].CrcDrop? then 1 else 0)
  }

  /** The buffer left after the stale check at the start of `processSerialData`. */
  function AfterStaleCheck(buf: seq<byte>, lastByteMs: u32, nowMs: u32): seq<byte>
  {
    if |buf| > 0 && Elapsed(nowMs, lastByteMs) > STALE_MS then [] else buf
  }

  /**
   * A partial frame left over from an earlier burst does not block recovery:
   * once the link has been idle for more than 10 ms, the next encoded frame is
   * delivered whatever the buffer held.
   */
  lemma StaleBufferRecovers(buf: seq<byte>, lastByteMs: u32, nowMs: u32, t: byte, s: byte, p: seq<byte>)
    requires Elapsed(nowMs, lastByteMs) > STALE_MS
    requires |p| < 256 && LengthOk(t, |p|)
    ensures Run(AfterStaleCheck(buf, lastByteMs, nowMs), Frame(t, s, p)).1[|p| + OVERHEAD - 1]
      == Accepted(t, s, p)
  {
    EncodedFrameDelivered(t, s, p);
  }

  /** The search loop of `resyncFromBuffer`: the first SOF among `buf[1..n)`, or -1. */
  method FindSof(buf: array<byte>, n: nat) returns (sofIndex: int)
    requires n <= buf.Length
    ensures sofIndex == -1 || (1 <= sofIndex < n && buf[sofIndex] == SOF)
    ensures forall k :: 1 <= k < n && (sofIndex == -1 || k < sofIndex) ==> buf[k] != SOF
  {
    var i := 1;
    while i < n
      invariant 1 <= i && (n > 0 ==> i <= n)
      invariant forall k :: 1 <= k < i && k < n ==> buf[k] != SOF
    {
      if buf[i] == SOF {
        return i;
      }
      i := i + 1;
    }
    return -1;
  }

  /** `memmove(buf, buf + from, count)`: the `count` bytes from `from` moved to the front. */
  method MoveToFront(buf: array<byte>, from: nat, count: nat)
    requires from + count <= buf.Length
    modifies buf
    ensures buf[..count] == old(buf[from..from + count])
    ensures forall j :: count <= j < buf.Length ==> buf[j] == old(buf[j])
  {
    var k := 0;
    while k < count
      invariant 0 <= k <= count
      invariant forall j :: 0 <= j < k ==> buf[j] == old(buf[from + j])
      invariant forall j :: k <= j < buf.Length ==> buf[j] == old(buf[j])
    {
      buf[k] := buf[from + k];
      k := k + 1;
    }
  }

  /** A CRC failure appended to some events counts once more. */
  lemma CrcDropsSnoc(events: seq<Event>, ev: Event)
    ensures CrcDrops(events + [ev]) == CrcDrops(events) + (if ev.CrcDrop? then 1 else 0)
  {
    assert (events + [ev])[..|events|] == events;
  }

  /** `processSerialData`'s receive state: the buffer `rxBuffer[0..rxIndex)` and its statics. */
  class SerialReceiver {
    const rxBuffer: array<byte>
    var rxIndex: nat
    var crcErrors: nat
    var lastByteMs: u32

    /** The bytes currently buffered. */
    function Contents(): seq<byte>
      reads this, rxBuffer
      requires rxIndex <= rxBuffer.Length
    {
      rxBuffer[..rxIndex]
    }

    ghost predicate Valid()
      reads this, rxBuffer
    {
      && rxBuffer.Length == MAX_FRAME_SIZE
      && rxIndex <= LARGEST_FRAME
      && Buffered(Contents())
    }

    constructor ()
      ensures Valid() && fresh(rxBuffer)
      ensures Contents() == [] && crcErrors == 0 && lastByteMs == 0
    {
      rxBuffer := new byte[MAX_FRAME_SIZE](_ => 0);
      rxIndex := 0;
      crcErrors := 0;
      lastByteMs := 0;
    }

    /** `resyncFromBuffer`: find the next SOF after index 0 and move the tail from it to the front. */
    method ResyncFromBuffer()
      requires rxIndex <= rxBuffer.Length
      modifies this`rxIndex, rxBuffer
      ensures rxIndex <= rxBuffer.Length
      ensures Contents() == Resync(old(Contents()))
    {
      ghost var before := Contents();
      var sofIndex := FindSof(rxBuffer, rxIndex);
      if sofIndex >= 0 {
        ResyncAtFirstSof(before, sofIndex);
        var remaining := rxIndex - sofIndex;
        MoveToFront(rxBuffer, sofIndex, remaining);
        rxIndex := remaining;
      } else {
        ResyncWithoutSof(before);
        rxIndex := 0;
      }
    }

    /** The checks on the buffer right after a byte was appended to it, proved against `Inspect`. */
    method InspectBuffer() returns (ev: Event)
      requires rxBuffer.Length == MAX_FRAME_SIZE
      requires 0 < rxIndex <= LARGEST_FRAME + 1 && rxBuffer[0] == SOF
      modifies this`rxIndex, this`crcErrors, rxBuffer
      ensures Valid()
      ensures (Contents(), ev) == Inspect(old(Contents()))
      ensures crcErrors == old(crcErrors) + (if ev.CrcDrop? then 1 else 0)
    {
      ghost var nb := Contents();
      if rxIndex >= 4 {
        var payloadLen := rxBuffer[3] as int;
        var expectedFrameSize := 4 + payloadLen + 3;
        var frameType := rxBuffer[1];
        var lenOk := false;
        if frameType == TYPE_FFT || frameType == TYPE_CMD {
          lenOk := payloadLen == CMD_PAYLOAD_LEN as int;
        } else if frameType == TYPE_AUX {
          lenOk := payloadLen == AUX_PAYLOAD_LEN as int;
        }
        assert lenOk == LengthOk(nb[1], nb[3]);
        if expectedFrameSize > MAX_FRAME_SIZE || !lenOk {
          ResyncFromBuffer();
          return HeaderDrop;
        }
        if rxIndex >= expectedFrameSize {
          ev := CheckCompleteFrame(payloadLen);
          return;
        }
      }
      return Nothing;
    }

    /**
     * The EOF and CRC checks once the buffer holds at least the `len + 7`
     * bytes a valid header announced.
     */
    method CheckCompleteFrame(payloadLen: int) returns (ev: Event)
      requires rxBuffer.Length == MAX_FRAME_SIZE
      requires 4 <= rxIndex <= LARGEST_FRAME + 1 && rxBuffer[0] == SOF
      requires payloadLen == rxBuffer[3] as int && LengthOk(rxBuffer[1], payloadLen)
      requires rxIndex >= payloadLen + OVERHEAD
      modifies this`rxIndex, this`crcErrors, rxBuffer
      ensures Valid()
      ensures (Contents(), ev) == Inspect(old(Contents()))
      ensures crcErrors == old(crcErrors) + (if ev.CrcDrop? then 1 else 0)
    {
      ghost var nb := Contents();
      CompleteFrameFields(rxBuffer[..], rxIndex, payloadLen);
      InspectComplete(nb);
      var expectedFrameSize := 4 + payloadLen + 3;
      assert nb[3] as int == payloadLen && ExpectedSize(nb) == expectedFrameSize;
      if rxBuffer[expectedFrameSize - 1] != EOF_BYTE {
        ResyncFromBuffer();
        return EofDrop;
      }
      var rxCrc := rxBuffer[4 + payloadLen] as int + 256 * rxBuffer[5 + payloadLen] as int;
      var calcCrc := Crc16Ccitt(rxBuffer, 1, 3 + payloadLen);
      if rxCrc != calcCrc as int {
        crcErrors := crcErrors + 1;
        ResyncFromBuffer();
        return CrcDrop;
      }
      assert calcCrc as int == CrcOf(nb[1..4 + payloadLen]);
      ev := Accepted(rxBuffer[1], rxBuffer[2], rxBuffer[4..4 + payloadLen]);
      rxIndex := 0;
    }

    /** One iteration of the receive loop of `processSerialData`, proved against `Feed`. */
    method FeedByte(b: byte) returns (ev: Event)
      requires Valid()
      modifies this`rxIndex, this`crcErrors, rxBuffer
      ensures Valid()
      ensures (Contents(), ev) == Feed(old(Contents()), b)
      ensures crcErrors == old(crcErrors) + (if ev.CrcDrop? then 1 else 0)
    {
      ghost var before := Contents();
      if rxIndex == 0 {
        if b == SOF {
          rxBuffer[rxIndex] := b;
          rxIndex := rxIndex + 1;
          assert Contents() == [b];
        }
        return Nothing;
      }
      rxBuffer[rxIndex] := b;
      rxIndex := rxIndex + 1;
      assert Contents() == before + [b];
      ev := InspectBuffer();
    }

    /**
     * `processSerialData`'s receive part: the stale check, then every
     * available byte. `millis()` is sampled once per call as `nowMs`.
     */
    method ProcessSerialData(input: seq<byte>, nowMs: u32) returns (events: seq<Event>)
      requires Valid()
      modifies this, rxBuffer
      ensures Valid()
      ensures (Contents(), events) == Run(AfterStaleCheck(old(Contents()), old(lastByteMs), nowMs), input)
      ensures crcErrors == old(crcErrors) + CrcDrops(events)
      ensures lastByteMs == if |input| > 0 then nowMs else old(lastByteMs)
    {
      if rxIndex > 0 && Elapsed(nowMs, lastByteMs) > STALE_MS {
        rxIndex := 0;
      }
      ghost var start := Contents();
      assert start == AfterStaleCheck(old(Contents()), old(lastByteMs), nowMs);
      events := [];
      var i := 0;
      while i < |input|
        invariant Valid()
        invariant 0 <= i <= |input|
        invariant (Contents(), events) == Run(start, input[..i])
        invariant crcErrors == old(crcErrors) + CrcDrops(events)
        invariant lastByteMs == if i > 0 then nowMs else old(lastByteMs)
      {
        ghost var buf := Contents();
        var ev := FeedByte(input[i]);
        lastByteMs := nowMs;
        RunWithStep(Feed, start, input, i, buf, events, Contents(), ev);
        CrcDropsSnoc(events, ev);
        events := events + [ev];
        i := i + 1;
      }
      assert input[..i] == input;
    }
  }
}
