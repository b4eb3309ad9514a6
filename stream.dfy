/**
 * Length-prefixed framing over a byte stream. `send` writes each payload
 * behind a 4-byte unsigned length header; `LengthPrefixParser` reassembles
 * payloads from chunks whose boundaries are arbitrary. The header is read in
 * the host's native order, which is taken to be little-endian.
 */
module Stream {
  import opened Wrappers

  newtype byte = x: int | 0 <= x < 256

  type Bytes = seq<byte>

  const HEADER_LENGTH: nat := 4
  const BUFFER_INITIAL_SIZE: nat := 1024 * 1024
  const UINT32_MODULUS: nat := 0x1_0000_0000

  /** The 4-byte little-endian encoding of `n`. */
  function U32LE(n: nat): (b: Bytes)
    requires n < UINT32_MODULUS
    ensures |b| == 4
  {
    var q1 := n / 256;
    var q2 := q1 / 256;
    [(n % 256) as byte, (q1 % 256) as byte, (q2 % 256) as byte, (q2 / 256) as byte]
  }

  /** The unsigned 32-bit number held little-endian in the first four bytes of `b`. */
  function ReadU32LE(b: Bytes): (n: nat)
    requires |b| >= 4
    ensures n < UINT32_MODULUS
  {
    b[0] as nat + 256 * (b[1] as nat + 256 * (b[2] as nat + 256 * (b[3] as nat)))
  }

  lemma ReadU32LEOfU32LE(n: nat, rest: Bytes)
    requires n < UINT32_MODULUS
    ensures ReadU32LE(U32LE(n) + rest) == n
  {
    var q1 := n / 256;
    var q2 := q1 / 256;
    assert n == n % 256 + 256 * q1;
    assert q1 == q1 % 256 + 256 * q2;
    assert q2 == q2 % 256 + 256 * (q2 / 256);
  }

  lemma U32LEOfReadU32LE(b: Bytes)
    requires |b| >= 4
    ensures U32LE(ReadU32LE(b)) == b[..4]
  {
    var x0, x1, x2, x3 := b[0] as nat, b[1] as nat, b[2] as nat, b[3] as nat;
    var n := ReadU32LE(b);
    var q1 := n / 256;
    var q2 := q1 / 256;
    assert n == x0 + 256 * (x1 + 256 * (x2 + 256 * x3));
    assert n % 256 == x0 && q1 == x1 + 256 * (x2 + 256 * x3);
    assert q1 % 256 == x1 && q2 == x2 + 256 * x3;
    assert q2 % 256 == x2 && q2 / 256 == x3;
  }

  /**
   * What `StreamTransport.send` writes for one payload: `Uint32Array([len])`
   * (so a length of 2^32 or more wraps around) followed by the payload.
   */
  function SendFraming(data: Bytes): (w: Bytes)
    ensures |w| == HEADER_LENGTH + |data| && w[HEADER_LENGTH..] == data
    ensures ReadU32LE(w) == |data| % UINT32_MODULUS
    ensures |data| < UINT32_MODULUS ==> ReadU32LE(w) == |data|
  {
    ReadU32LEOfU32LE(|data| % UINT32_MODULUS, data);
    U32LE(|data| % UINT32_MODULUS) + data
  }

  /** The bytes that carry `frames`, each behind its length header. */
  function Join(frames: seq<Bytes>): Bytes {
    if frames == [] then [] else SendFraming(frames[0]) + Join(frames[1..])
  }

  lemma {:induction false} JoinAppend(a: seq<Bytes>, b: seq<Bytes>)
    ensures Join(a + b) == Join(a) + Join(b)
    decreases |a|
  {
    if a == [] {
      assert a + b == b;
    } else {
      assert (a + b)[0] == a[0];
      assert (a + b)[1..] == a[1..] + b;
      JoinAppend(a[1..], b);
    }
  }

  /**
   * The frames the parser's `check` emits from the buffered bytes `b`, and
   * the bytes it leaves buffered. A frame is cut only when more than a
   * header is buffered and the whole body has arrived.
   */
  function Split(b: Bytes): (r: (seq<Bytes>, Bytes))
    ensures |r.1| <= |b|
    decreases |b|
  {
    if |b| > HEADER_LENGTH && |b| >= HEADER_LENGTH + ReadU32LE(b) then
      var total := HEADER_LENGTH + ReadU32LE(b);
      var tail := Split(b[total..]);
      ([b[HEADER_LENGTH..total]] + tail.0, tail.1)
    else
      ([], b)
  }

  /** Nothing is lost or invented: the emitted frames, re-framed, followed by the leftover, are the input. */
  lemma {:induction false} SplitJoin(b: Bytes)
    ensures Join(Split(b).0) + Split(b).1 == b
    decreases |b|
  {
    if |b| > HEADER_LENGTH && |b| >= HEADER_LENGTH + ReadU32LE(b) {
      var len := ReadU32LE(b);
      var total := HEADER_LENGTH + len;
      var f := b[HEADER_LENGTH..total];
      SplitJoin(b[total..]);
      U32LEOfReadU32LE(b);
      assert SendFraming(f) == b[..total];
      var r := Split(b);
      assert r.0 == [f] + Split(b[total..]).0;
      assert Join(r.0) == SendFraming(f) + Join(Split(b[total..]).0);
      assert b == b[..total] + b[total..];
    }
  }

  /** A non-empty framed payload is cut out whole, and what follows is split on its own. */
  lemma SplitFramedThen(data: Bytes, rest: Bytes)
    requires 0 < |data| < UINT32_MODULUS
    ensures Split(SendFraming(data) + rest) == ([data] + Split(rest).0, Split(rest).1)
  {
    var b := SendFraming(data) + rest;
    ReadU32LEOfU32LE(|data|, data + rest);
    assert SendFraming(data) + rest == U32LE(|data|) + (data + rest);
    var total := HEADER_LENGTH + |data|;
    assert b[HEADER_LENGTH..total] == data;
    assert b[total..] == rest;
  }

  /** One sent payload yields exactly that payload and leaves nothing buffered. */
  lemma SendThenSplit(data: Bytes)
    requires 0 < |data| < UINT32_MODULUS
    ensures Split(SendFraming(data)) == ([data], [])
  {
    SplitFramedThen(data, []);
    assert SendFraming(data) + [] == SendFraming(data);
    assert Split([]) == ([], []);
    assert [data] + [] == [data];
  }

  /** Two payloads sent back to back in one chunk come out as two frames, in order. */
  lemma TwoFramesInOneChunk(a: Bytes, b: Bytes)
    requires 0 < |a| < UINT32_MODULUS && 0 < |b| < UINT32_MODULUS
    ensures Split(SendFraming(a) + SendFraming(b)) == ([a, b], [])
  {
    SplitFramedThen(a, SendFraming(b));
    SendThenSplit(b);
    assert [a] + [b] == [a, b];
  }

  /** A frame is not emitted until its last byte has arrived. */
  lemma PartialFrameWaits(data: Bytes, k: nat)
    requires |data| < UINT32_MODULUS && k < |SendFraming(data)|
    ensures Split(SendFraming(data)[..k]) == ([], SendFraming(data)[..k])
  {
    var w := SendFraming(data);
    if k > HEADER_LENGTH {
      assert w[..k][..4] == w[..4];
      ReadU32LEOfU32LE(|data|, data);
      assert ReadU32LE(w[..k]) == ReadU32LE(w);
    }
  }

  /**
   * A frame split across two chunks: the first chunk emits nothing, and the
   * second completes it.
   */
  lemma FrameAcrossTwoChunks(data: Bytes, k: nat)
    requires 0 < |data| < UINT32_MODULUS && k < |SendFraming(data)|
    ensures Split(SendFraming(data)[..k]).0 == []
    ensures Split(Split(SendFraming(data)[..k]).1 + SendFraming(data)[k..]) == ([data], [])
  {
    var w := SendFraming(data);
    PartialFrameWaits(data, k);
    assert w[..k] + w[k..] == w;
    SendThenSplit(data);
  }

  /**
   * Because the header test is strict, a payload of length zero is not
   * emitted while only its header is buffered; it comes out, empty, once a
   * further byte arrives.
   */
  lemma EmptyFrameWaitsForNextByte(rest: Bytes)
    requires rest != []
    ensures Split(SendFraming([])) == ([], SendFraming([]))
    ensures Split(SendFraming([]) + rest) == ([[]] + Split(rest).0, Split(rest).1)
  {
    var b := SendFraming([]) + rest;
    ReadU32LEOfU32LE(0, rest);
    assert b == U32LE(0) + rest;
    assert b[HEADER_LENGTH..HEADER_LENGTH] == [];
    assert b[HEADER_LENGTH..] == rest;
  }

  lemma SplitStep(b: Bytes)
    requires |b| > HEADER_LENGTH && |b| >= HEADER_LENGTH + ReadU32LE(b)
    ensures var total := HEADER_LENGTH + ReadU32LE(b);
      Split(b) == ([b[HEADER_LENGTH..total]] + Split(b[total..]).0, Split(b[total..]).1)
  {
  }

  /** One turn of the emit loop: cutting the front frame off `b` keeps the overall result. */
  lemma EmitStep(acc: seq<Bytes>, b: Bytes)
    requires |b| > HEADER_LENGTH && |b| >= HEADER_LENGTH + ReadU32LE(b)
    ensures var total := HEADER_LENGTH + ReadU32LE(b);
      && acc + Split(b).0 == (acc + [b[HEADER_LENGTH..total]]) + Split(b[total..]).0
      && Split(b).1 == Split(b[total..]).1
  {
    SplitStep(b);
  }

  /** Emitting what `Split` cuts from the buffer keeps the parser's accounting of what it was fed. */
  lemma EmitAll(frames: seq<Bytes>, mark: nat, buffered: Bytes, fed: Bytes)
    requires mark <= |frames| && Join(frames[mark..]) + buffered == fed
    ensures Join((frames + Split(buffered).0)[mark..]) + Split(buffered).1 == fed
  {
    var cut := Split(buffered);
    var earlier := frames[mark..];
    assert Join(cut.0) + cut.1 == buffered by {
      SplitJoin(buffered);
    }
    assert Join(earlier + cut.0) == Join(earlier) + Join(cut.0) by {
      JoinAppend(earlier, cut.0);
    }
    assert (frames + cut.0)[mark..] == earlier + cut.0;
  }

  /**
   * `check` leaves buffered a suffix of its input that holds no whole
   * frame: no more than a header, or fewer bytes than the header announces.
   */
  lemma {:induction false} SplitRemainder(b: Bytes)
    ensures var rest := Split(b).1;
      && rest == b[|b| - |rest|..]
      && !(|rest| > HEADER_LENGTH && |rest| >= HEADER_LENGTH + ReadU32LE(rest))
    decreases |b|
  {
    if |b| > HEADER_LENGTH && |b| >= HEADER_LENGTH + ReadU32LE(b) {
      var total := HEADER_LENGTH + ReadU32LE(b);
      SplitRemainder(b[total..]);
      var rest := Split(b).1;
      assert rest == Split(b[total..]).1;
      assert b[total..][|b[total..]| - |rest|..] == b[|b| - |rest|..];
    }
  }

  /** When no whole frame is buffered, `check` emits nothing and leaves the buffer as it is. */
  lemma SplitStop(b: Bytes)
    requires !(|b| > HEADER_LENGTH && |b| >= HEADER_LENGTH + ReadU32LE(b))
    ensures Split(b) == ([], b)
  {
  }

  /** The header read through a prefix of at least four bytes is the header. */
  lemma HeaderOfPrefix(b: Bytes, k: nat)
    requires HEADER_LENGTH <= k <= |b|
    ensures ReadU32LE(b[..k]) == ReadU32LE(b)
  {
  }

  /**
   * Frames sent back to back, none of them empty, are cut back into exactly
   * those frames, with nothing left buffered.
   */
  lemma {:induction false} SplitJoinedFrames(frames: seq<Bytes>)
    requires forall i :: 0 <= i < |frames| ==> 0 < |frames[i]| < UINT32_MODULUS
    ensures Split(Join(frames)) == (frames, [])
    decreases |frames|
  {
    if frames == [] {
      assert Split([]) == ([], []);
    } else {
      SplitJoinedFrames(frames[1..]);
      SplitFramedThen(frames[0], Join(frames[1..]));
      assert [frames[0]] + frames[1..] == frames;
    }
  }

  /** The growth step as written: `Buffer.alloc(byteLength * 1.5)`, which truncates. */
  function GrowAsWritten(n: nat): nat {
    n * 3 / 2
  }

  function GrowAsWrittenTimes(n: nat, k: nat): nat
    decreases k
  {
    if k == 0 then n else GrowAsWrittenTimes(GrowAsWritten(n), k - 1)
  }

  /**
   * With a capacity of 0 or 1 (reachable through `reset(0)` or a small
   * initial size) growing never changes the capacity, so the growth loop
   * in `parse` never ends for a chunk that does not already fit.
   */
  lemma {:induction false} GrowAsWrittenStalls(n: nat, k: nat)
    requires n < 2
    ensures GrowAsWrittenTimes(n, k) == n
    decreases k
  {
    if k > 0 {
      assert GrowAsWritten(n) == n;
      GrowAsWrittenStalls(n, k - 1);
    }
  }

  /** The growth step as intended: geometric by 1.5 from 2 on, and always at least one byte. */
  function Grow(n: nat): (m: nat)
    ensures m > n
    ensures n >= 2 ==> m == GrowAsWritten(n)
  {
    if n < 2 then n + 1 else n * 3 / 2
  }

  /** `src.copy(dst, at)`: writes `src` into `dst` at offset `at`. */
  method CopyInto(src: Bytes, dst: array<byte>, at: nat)
    requires at + |src| <= dst.Length
    modifies dst
    ensures dst[..] == old(dst[..at]) + src + old(dst[at + |src|..])
  {
    var i := 0;
    while i < |src|
      invariant 0 <= i <= |src|
      invariant dst[..at] == old(dst[..at])
      invariant dst[at..at + i] == src[..i]
      invariant dst[at + i..] == old(dst[at + i..])
    {
      dst[at + i] := src[i];
      i := i + 1;
    }
    assert dst[..] == dst[..at] + dst[at..at + |src|] + dst[at + |src|..];
  }

  /** `a.copy(a, 0, from, to)`: moves bytes `[from, to)` down to offset 0. */
  method ShiftLeft(a: array<byte>, from: nat, to: nat)
    requires from <= to <= a.Length
    modifies a
    ensures a[..to - from] == old(a[from..to])
    ensures a[to - from..] == old(a[to - from..])
  {
    var i := 0;
    while i < to - from
      invariant 0 <= i <= to - from
      invariant a[..i] == old(a[from..from + i])
      invariant a[i..] == old(a[i..])
    {
      a[i] := a[from + i];
      i := i + 1;
    }
  }

  class LengthPrefixParser {
    const initialSize: nat
    var buffer: array<byte>
    var pos: nat
    /** The payloads emitted as 'data' events, in order. */
    var frames: seq<Bytes>
    /** Every byte parsed since the last reset. */
    ghost var fed: Bytes
    /** How many frames had been emitted at the last reset. */
    ghost var mark: nat

    /** What was emitted since the last reset, re-framed, followed by what is buffered, is what was fed. */
    ghost predicate Valid()
      reads this, buffer
    {
      && pos <= buffer.Length
      && mark <= |frames|
      && Join(frames[mark..]) + buffer[..pos] == fed
    }

    function Buffered(): Bytes
      reads this, buffer
      requires pos <= buffer.Length
    {
      buffer[..pos]
    }

    constructor (initialSize: nat := BUFFER_INITIAL_SIZE)
      ensures Valid() && fresh(buffer)
      ensures this.initialSize == initialSize && buffer.Length == initialSize
      ensures buffer[..] == seq(initialSize, _ => 0)
      ensures pos == 0 && frames == [] && fed == []
    {
      this.initialSize := initialSize;
      buffer := new byte[initialSize](_ => 0);
      pos := 0;
      frames := [];
      fed := [];
      mark := 0;
    }

    /** `reset(size?)`: a fresh, zeroed buffer of `size` bytes (the initial size when absent) and nothing buffered. */
    method Reset(size: Option<nat>)
      modifies this
      ensures Valid() && fresh(buffer)
      ensures buffer.Length == (if size.Some? then size.value else initialSize)
      ensures buffer[..] == seq(buffer.Length, _ => 0)
      ensures pos == 0 && fed == [] && mark == |frames| && frames == old(frames)
    {
      var n := if size.Some? then size.value else initialSize;
      buffer := new byte[n](_ => 0);
      pos := 0;
      fed := [];
      mark := |frames|;
    }

    /**
     * `check()`, its recursion written as a loop: emits every complete
     * frame at the front of the buffer, compacting after each. Reading the
     * header through a 4-byte typed-array view throws a RangeError when the
     * buffer is shorter than 4 bytes; `ok` is false then and nothing changes.
     */
    method Check() returns (ok: bool)
      requires pos <= buffer.Length
      modifies this`pos, this`frames, buffer
      ensures pos <= buffer.Length
      ensures ok <==> buffer.Length >= HEADER_LENGTH
      ensures ok ==> frames == old(frames) + Split(old(Buffered())).0 && Buffered() == Split(old(Buffered())).1
      ensures !ok ==> frames == old(frames) && pos == old(pos) && buffer[..] == old(buffer[..])
    {
      if buffer.Length < HEADER_LENGTH {
        return false;
      }
      ghost var whole := buffer[..pos];
      var bodyLength := ReadU32LE(buffer[..HEADER_LENGTH]);
      while pos > HEADER_LENGTH && pos >= HEADER_LENGTH + bodyLength
        invariant pos <= buffer.Length
        invariant bodyLength == ReadU32LE(buffer[..HEADER_LENGTH])
        invariant old(frames) + Split(whole).0 == frames + Split(Buffered()).0
        invariant Split(whole).1 == Split(Buffered()).1
        decreases pos
      {
        bodyLength := CutFrame(bodyLength);
      }
      if pos > HEADER_LENGTH {
        HeaderOfPrefix(buffer[..], HEADER_LENGTH);
        HeaderOfPrefix(buffer[..], pos);
      }
      SplitStop(buffer[..pos]);
      ok := true;
    }

    /**
     * One turn of `check`: emits the front frame, whose body is
     * `bodyLength` bytes, moves the rest to the front, and reads the next
     * header; what `Split` makes of the buffered bytes is carried over.
     */
    method CutFrame(bodyLength: nat) returns (next: nat)
      requires HEADER_LENGTH < pos <= buffer.Length && pos >= HEADER_LENGTH + bodyLength
      requires bodyLength == ReadU32LE(buffer[..HEADER_LENGTH])
      modifies this`pos, this`frames, buffer
      ensures pos < old(pos) && next == ReadU32LE(buffer[..HEADER_LENGTH])
      ensures old(frames) + Split(old(Buffered())).0 == frames + Split(Buffered()).0
      ensures Split(old(Buffered())).1 == Split(Buffered()).1
    {
      ghost var b := buffer[..pos];
      var total := HEADER_LENGTH + bodyLength;
      assert ReadU32LE(b) == bodyLength by {
        HeaderOfPrefix(buffer[..], HEADER_LENGTH);
        HeaderOfPrefix(buffer[..], pos);
        assert buffer[..][..HEADER_LENGTH] == buffer[..HEADER_LENGTH];
        assert buffer[..][..pos] == b;
      }
      EmitStep(frames, b);
      var data := buffer[HEADER_LENGTH..total];
      assert data == b[HEADER_LENGTH..total] by {
        assert forall k :: 0 <= k < |data| ==> data[k] == b[HEADER_LENGTH + k];
      }
      frames := frames + [data];
      ShiftLeft(buffer, total, pos);
      pos := pos - total;
      assert buffer[..pos] == b[total..];
      next := ReadU32LE(buffer[..HEADER_LENGTH]);
    }

    /** The growth loop of `parse`: enlarges the buffer by the growth ratio until `extra` more bytes fit. */
    method Reserve(extra: nat)
      requires pos <= buffer.Length
      modifies this`buffer
      ensures buffer.Length >= old(buffer.Length) && buffer.Length >= pos + extra
      ensures buffer[..pos] == old(buffer[..pos])
      ensures buffer == old(buffer) || fresh(buffer)
    {
      while pos + extra > buffer.Length
        invariant pos <= buffer.Length
        invariant buffer[..pos] == old(buffer[..pos])
        invariant buffer.Length >= old(buffer.Length)
        invariant buffer == old(buffer) || fresh(buffer)
        decreases pos + extra - buffer.Length
      {
        var grown := new byte[Grow(buffer.Length)](_ => 0);
        CopyInto(buffer[..], grown, 0);
        assert grown[..pos] == buffer[..pos];
        buffer := grown;
      }
    }

    /** Copies the chunk into the buffer at `pos` and advances `pos`. */
    method Append(chunk: Bytes)
      requires pos + |chunk| <= buffer.Length
      modifies this`pos, buffer
      ensures pos == old(pos) + |chunk| && pos <= buffer.Length
      ensures Buffered() == old(Buffered()) + chunk
    {
      ghost var before := buffer[..pos];
      CopyInto(chunk, buffer, pos);
      assert buffer[..pos + |chunk|] == before + chunk;
      pos := pos + |chunk|;
    }

    /**
     * `parse(chunk)`: grows the buffer until the chunk fits, appends it at
     * `pos`, then emits every complete frame.
     */
    method Parse(chunk: Bytes) returns (ok: bool)
      requires Valid()
      modifies this, buffer
      ensures Valid()
      ensures buffer.Length >= old(buffer.Length) && buffer.Length >= old(pos) + |chunk|
      ensures fed == old(fed) + chunk && mark == old(mark)
      ensures ok <==> buffer.Length >= HEADER_LENGTH
      ensures ok ==> frames == old(frames) + Split(old(Buffered()) + chunk).0
      ensures ok ==> Buffered() == Split(old(Buffered()) + chunk).1
      ensures !ok ==> frames == old(frames) && Buffered() == old(Buffered()) + chunk
    {
      Reserve(|chunk|);
      Append(chunk);
      fed := fed + chunk;
      EmitAll(frames, mark, buffer[..pos], fed);
      ok := Check();
    }
  }

  /** A payload written by `send` and fed to a fresh parser in one chunk comes out whole, alone and unaltered. */
  method SendToFreshParser(data: Bytes, initialSize: nat) returns (received: seq<Bytes>, leftover: Bytes)
    requires 0 < |data| < UINT32_MODULUS
    ensures received == [data] && leftover == []
  {
    var parser := new LengthPrefixParser(initialSize);
    var ok := parser.Parse(SendFraming(data));
    SendThenSplit(data);
    assert [] + SendFraming(data) == SendFraming(data);
    received := parser.frames;
    leftover := parser.Buffered();
  }
}
