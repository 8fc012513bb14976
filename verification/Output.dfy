/**
 PHP output capture: the thread-local buffers and streaming cells that the SAPI callbacks update,
 the engagement of streaming, and the write loop underneath.
 */
module Output {
  import opened Util
  import opened Frames
  import Tar

  // ------------------------------------------------------------------ header buffer

  function Lower(b: byte): byte { if 65 <= b <= 90 then b + 32 else b }

  function LowerAll(s: Bytes): Bytes { seq(|s|, i requires 0 <= i < |s| => Lower(s[i])) }

  predicate SameName(a: Bytes, b: Bytes) { LowerAll(a) == LowerAll(b) }

  /** `retain` of the headers with another name. */
  function Without(hs: seq<Header>, name: Bytes): seq<Header> {
    if hs == [] then []
    else (if SameName(hs[0].0, name) then [] else [hs[0]]) + Without(hs[1..], name)
  }

  function Trimmed(s: Bytes): Bytes { Tar.Trim(s, Tar.IsSpace) }

  const CONTENT_TYPE: Bytes := [99, 111, 110, 116, 101, 110, 116, 45, 116, 121, 112, 101]            // "content-type"
  const EVENT_STREAM: Bytes := [116, 101, 120, 116, 47, 101, 118, 101, 110, 116, 45, 115, 116, 114, 101, 97, 109]
  const X_ACCEL: Bytes := [120, 45, 97, 99, 99, 101, 108, 45, 98, 117, 102, 102, 101, 114, 105, 110, 103]
  const NO: Bytes := [110, 111]

  /** Server-sent events, or an explicit request not to buffer. */
  predicate OptsIn(h: Header) {
    || (SameName(h.0, CONTENT_TYPE) && EVENT_STREAM <= LowerAll(Tar.TrimStart(h.1, Tar.IsSpace)))
    || (SameName(h.0, X_ACCEL) && SameName(Trimmed(h.1), NO))
  }

  predicate WantsStreaming(hs: seq<Header>) { exists i :: 0 <= i < |hs| && OptsIn(hs[i]) }

  // ------------------------------------------------------------------ state and events

  datatype Capture = Capture(buffer: Bytes, headers: seq<Header>, code: u16, fd: int, engaged: bool)

  datatype HeaderOp =
    | Replace(name: Bytes, value: Bytes)
    | Add(name: Bytes, value: Bytes)
    | Delete(name: Bytes)
    | DeleteAll
    | StatusLine(code: u16)
    | Ignored

  /** `sg` is the engine's own response code, None before the engine is initialized. */
  datatype Event = Write(slice: Bytes, sg: Option<nat>) | Flush(sg: Option<nat>) | HeaderCall(op: HeaderOp)

  function StatusOf(c: Capture, sg: Option<nat>): u16 {
    if c.code != 200 || sg.None? then c.code
    else if sg.value > 0 then sg.value % 65536 else c.code
  }

  function ChunkIf(b: Bytes): seq<Frame> { if b == [] then [] else [BodyChunk(b)] }

  /** New state and the frames written to the fd. */
  function Engage(c: Capture, sg: Option<nat>): (Capture, seq<Frame>) {
    if c.fd < 0 || c.engaged then (c, [])
    else (c.(engaged := true, headers := [], buffer := []), [Headers(StatusOf(c, sg), c.headers)] + ChunkIf(c.buffer))
  }

  function OnWrite(c: Capture, slice: Bytes, sg: Option<nat>): (Capture, seq<Frame>) {
    if slice == [] then (c, [])
    else if c.engaged then (c, [BodyChunk(slice)])
    else if c.fd >= 0 && WantsStreaming(c.headers) then
      var (c', fs) := Engage(c, sg);
      (c', fs + [BodyChunk(slice)])
    else (c.(buffer := c.buffer + slice), [])
  }

  function EditHeaders(hs: seq<Header>, op: HeaderOp): seq<Header> {
    match op
    case Replace(name, value) => Without(hs, name) + [(name, value)]
    case Add(name, value) => hs + [(name, value)]
    case Delete(name) => Without(hs, Trimmed(name))
    case DeleteAll => []
    case _ => hs
  }

  function OnHeader(c: Capture, op: HeaderOp): Capture {
    c.(headers := EditHeaders(c.headers, op), code := if op.StatusLine? then op.code else c.code)
  }

  function OnEvent(c: Capture, e: Event): (Capture, seq<Frame>) {
    match e
    case Write(slice, sg) => OnWrite(c, slice, sg)
    case Flush(sg) => Engage(c, sg)
    case HeaderCall(op) => (OnHeader(c, op), [])
  }

  // ------------------------------------------------------------------ the object

  /** What a `write(2)` does next: takes some bytes, is interrupted, or fails hard. */
  datatype OsWrite = Accept(n: nat) | Interrupted | Failed

  /** The separate writes of a frame. */
  function Pieces(f: Frame): seq<Bytes> {
    if f.BodyChunk? then [[0x11] + LittleEndian.Le(|f.chunk|, 4), f.chunk] else [Encode(f)]
  }

  /** What the frames give one after the other, whatever each gives. */
  function FlatMap<T>(fs: seq<Frame>, give: Frame -> seq<T>): seq<T> {
    if fs == [] then [] else give(fs[0]) + FlatMap(fs[1..], give)
  }

  lemma {:induction false} FlatMapJoin<T>(a: seq<Frame>, b: seq<Frame>, give: Frame -> seq<T>)
    ensures FlatMap(a + b, give) == FlatMap(a, give) + FlatMap(b, give)
    decreases |a|
  {
    if a == [] {
      assert a + b == b;
    } else {
      FlatMapJoin(a[1..], b, give);
      assert (a + b)[1..] == a[1..] + b;
    }
  }

  function Writes(fs: seq<Frame>): seq<Bytes> { FlatMap(fs, Pieces) }

  /** A wire that held `was` holds `now` after the writes `ps`: each has added, in order, some prefix of itself. */
  ghost predicate Sent(was: Bytes, ps: seq<Bytes>, now: Bytes)
    decreases |ps|
  {
    if ps == [] then now == was
    else exists k :: 0 <= k <= |ps[0]| && Sent(was + ps[0][..k], ps[1..], now)
  }

  /** The writes of the frames are their encoding. */
  lemma {:induction false} WritesEncode(fs: seq<Frame>)
    ensures Concat(Writes(fs)) == EncodeAll(fs)
    decreases |fs|
  {
    if fs != [] {
      PiecesEncode(fs[0], Writes(fs[1..]));
      WritesEncode(fs[1..]);
    }
  }

  lemma PiecesEncode(f: Frame, more: seq<Bytes>)
    ensures Concat(Pieces(f) + more) == Encode(f) + Concat(more)
  {
    var ps := Pieces(f) + more;
    if f.BodyChunk? {
      assert ps[1..] == [f.chunk] + more && ps[1..][1..] == more;
      Join3([0x11] + LittleEndian.Le(|f.chunk|, 4), f.chunk, Concat(more));
    } else {
      assert ps[1..] == more;
    }
  }

  lemma SentOne(was: Bytes, p: Bytes, now: Bytes, k: nat)
    requires k <= |p| && now == was + p[..k]
    ensures Sent(was, [p], now)
  {
    assert [p][1..] == [] && [p][0] == p;
    assert Sent(was + [p][0][..k], [p][1..], now);
  }

  lemma {:induction false} SentJoin(a: Bytes, ps: seq<Bytes>, b: Bytes, qs: seq<Bytes>, c: Bytes)
    requires Sent(a, ps, b) && Sent(b, qs, c)
    ensures Sent(a, ps + qs, c)
    decreases |ps|
  {
    if ps == [] {
      assert ps + qs == qs;
    } else {
      var k :| 0 <= k <= |ps[0]| && Sent(a + ps[0][..k], ps[1..], b);
      SentJoin(a + ps[0][..k], ps[1..], b, qs, c);
      assert (ps + qs)[0] == ps[0] && (ps + qs)[1..] == ps[1..] + qs;
      assert Sent(a + (ps + qs)[0][..k], (ps + qs)[1..], c);
    }
  }

  lemma WritesSingle(f: Frame)
    ensures Writes([f]) == Pieces(f)
  {
    assert [f][1..] == [] && FlatMap([f][1..], Pieces) == [];
  }

  class OutputCapture {
    var buffer: Bytes
    var headers: seq<Header>
    var code: u16
    var fd: int
    var engaged: bool
    var wire: Bytes          // what the armed fd has received
    var os: seq<OsWrite>     // the outcomes of the coming writes; once used up, writes take everything

    ghost function View(): Capture
      reads this
    {
      Capture(buffer, headers, code, fd, engaged)
    }

    constructor (os: seq<OsWrite>)
      ensures View() == Capture([], [], 200, -1, false) && wire == [] && this.os == os
    {
      buffer, headers, code, fd, engaged, wire := [], [], 200, -1, false, [];
      this.os := os;
    }

    /** Some prefix arrives; all of it unless a write fails hard. */
    method WriteAllFd(data: Bytes)
      modifies this`wire, this`os
      ensures Sent(old(wire), [data], wire)
      ensures Failed !in old(os) ==> wire == old(wire) + data && Failed !in os
    {
      var sent := 0;
      while sent < |data|
        invariant 0 <= sent <= |data|
        invariant wire == old(wire) + data[..sent]
        invariant Failed !in old(os) ==> Failed !in os
        decreases |os|, |data| - sent
      {
        if os == [] {
          wire := wire + data[sent..];
          sent := |data|;
        } else {
          var outcome := os[0];
          assert outcome in os;
          os := os[1..];
          match outcome {
            case Interrupted =>
            case Failed =>
              SentOne(old(wire), data, wire, sent);
              return;
            case Accept(n) =>
              var k := Min(n, |data| - sent);
              assert data[..sent + k] == data[..sent] + data[sent..sent + k];
              wire := wire + data[sent..sent + k];
              sent := sent + k;
          }
        }
      }
      assert data[..sent] == data;
      SentOne(old(wire), data, wire, sent);
    }

    method EmitHeadersFrame(sg: Option<nat>)
      modifies this`wire, this`os, this`headers
      ensures headers == []
      ensures var frame := Headers(StatusOf(old(View()), sg), old(headers));
              && Sent(old(wire), Pieces(frame), wire)
              && (Failed !in old(os) ==> wire == old(wire) + Encode(frame) && Failed !in os)
    {
      var status := if code != 200 || sg.None? then code else if sg.value > 0 then sg.value % 65536 else code;
      var hs := headers;
      headers := [];
      var out := [0x10] + LittleEndian.Le(status, 2) + LittleEndian.Le(|hs|, 4);
      ghost var start := out;
      var i := 0;
      assert hs[0..] == hs;
      while i < |hs|
        invariant 0 <= i <= |hs|
        invariant headers == [] && wire == old(wire) && os == old(os)
        invariant out + EncodeHeaders(hs[i..]) == start + EncodeHeaders(hs)
      {
        assert hs[i..][1..] == hs[i + 1..];
        Join3(out, EncodeHeader(hs[i]), EncodeHeaders(hs[i + 1..]));
        out := out + EncodeHeader(hs[i]);
        i := i + 1;
      }
      assert out == Encode(Headers(status, hs)) by { assert out + [] == out; }
      WriteAllFd(out);
    }

    /** The five-byte prefix and the payload go out in two writes. */
    method EmitBodyChunkFrame(chunk: Bytes)
      modifies this`wire, this`os
      ensures Sent(old(wire), Pieces(BodyChunk(chunk)), wire)
      ensures Failed !in old(os) ==> wire == old(wire) + Encode(BodyChunk(chunk)) && Failed !in os
    {
      var hdr := [0x11] + LittleEndian.Le(|chunk|, 4);
      WriteAllFd(hdr);
      ghost var half := wire;
      if chunk != [] { WriteAllFd(chunk); } else { SentOne(half, chunk, wire, 0); }
      assert Pieces(BodyChunk(chunk)) == [hdr] + [chunk];
      SentJoin(old(wire), [hdr], half, [chunk], wire);
      Join3(old(wire), hdr, chunk);
    }

    method EngageStreaming(sg: Option<nat>)
      modifies this
      ensures View() == Engage(old(View()), sg).0
      ensures Sent(old(wire), Writes(Engage(old(View()), sg).1), wire)
      ensures Failed !in old(os) ==> wire == old(wire) + EncodeAll(Engage(old(View()), sg).1) && Failed !in os
    {
      if fd < 0 || engaged {
        assert wire + [] == wire;
        return;
      }
      engaged := true;
      EmitHeadersFrame(sg);
      ghost var first := Headers(StatusOf(old(View()), sg), old(headers));
      ghost var half := wire;
      var pending := buffer;
      buffer := [];
      if pending != [] { EmitBodyChunkFrame(pending); }
      SentTwo(old(wire), first, half, pending, wire);
      EncodeTwo(first, pending);
      if Failed !in old(os) && pending != [] { Join3(old(wire), Encode(first), Encode(BodyChunk(pending))); }
    }

    method UbWrite(slice: Bytes, sg: Option<nat>)
      modifies this
      ensures View() == OnWrite(old(View()), slice, sg).0
      ensures Sent(old(wire), Writes(OnWrite(old(View()), slice, sg).1), wire)
      ensures Failed !in old(os) ==> wire == old(wire) + EncodeAll(OnWrite(old(View()), slice, sg).1) && Failed !in os
    {
      assert wire + [] == wire;
      if slice == [] { return; }
      EncodeSingle(BodyChunk(slice));
      WritesSingle(BodyChunk(slice));
      if engaged {
        EmitBodyChunkFrame(slice);
      } else if fd >= 0 && WantsStreaming(headers) {
        EngageStreaming(sg);
        ghost var fs, half := Engage(old(View()), sg).1, wire;
        EmitBodyChunkFrame(slice);
        SentJoin(old(wire), Writes(fs), half, Pieces(BodyChunk(slice)), wire);
        FlatMapJoin(fs, [BodyChunk(slice)], Pieces);
        EncodeJoin(fs, [BodyChunk(slice)]);
        Join3(old(wire), EncodeAll(fs), Encode(BodyChunk(slice)));
      } else {
        buffer := buffer + slice;
      }
    }

    method SapiFlush(sg: Option<nat>)
      modifies this
      ensures View() == Engage(old(View()), sg).0
      ensures Sent(old(wire), Writes(Engage(old(View()), sg).1), wire)
      ensures Failed !in old(os) ==> wire == old(wire) + EncodeAll(Engage(old(View()), sg).1) && Failed !in os
    {
      if fd < 0 {
        assert wire + [] == wire;
        return;
      }
      EngageStreaming(sg);
    }

    method HeaderHandler(op: HeaderOp)
      modifies this`headers, this`code
      ensures View() == OnHeader(old(View()), op)
    {
      match op
      case Replace(name, value) => headers := Without(headers, name) + [(name, value)];
      case Add(name, value) => headers := headers + [(name, value)];
      case Delete(name) => headers := Without(headers, Trimmed(name));
      case DeleteAll => headers := [];
      case StatusLine(c) => code := c;
      case Ignored =>
    }

    method ArmStreaming(newFd: int)
      modifies this`fd, this`engaged
      ensures View() == old(View()).(fd := newFd, engaged := false)
    {
      fd := newFd;
      engaged := false;
    }

    method FinishStreaming() returns (wasEngaged: bool, oldFd: int)
      modifies this`fd, this`engaged
      ensures wasEngaged == old(engaged) && oldFd == old(fd)
      ensures View() == old(View()).(fd := -1, engaged := false)
    {
      wasEngaged, oldFd := engaged, fd;
      fd, engaged := -1, false;
    }

    method ClearOutputBuffer()
      modifies this`buffer, this`headers, this`code
      ensures View() == old(View()).(buffer := [], headers := [], code := 200)
    {
      buffer, headers, code := [], [], 200;
    }

    method TakeOutput() returns (out: Bytes)
      modifies this`buffer
      ensures out == old(buffer) && View() == old(View()).(buffer := [])
    {
      out := buffer;
      buffer := [];
    }
  }

  lemma EncodeSingle(f: Frame)
    ensures EncodeAll([f]) == Encode(f)
  {
    assert [f][1..] == [] && Encode(f) + [] == Encode(f);
  }

  lemma EncodeTwo(f: Frame, b: Bytes)
    ensures EncodeAll([f] + ChunkIf(b)) == Encode(f) + if b == [] then [] else Encode(BodyChunk(b))
  {
    assert ([f] + ChunkIf(b))[1..] == ChunkIf(b);
    if b != [] { EncodeSingle(BodyChunk(b)); }
  }

  lemma SentTwo(was: Bytes, f: Frame, half: Bytes, b: Bytes, now: Bytes)
    requires Sent(was, Pieces(f), half)
    requires if b == [] then now == half else Sent(half, Pieces(BodyChunk(b)), now)
    ensures Sent(was, Writes([f] + ChunkIf(b)), now)
  {
    WritesSingle(f);
    if b != [] { WritesSingle(BodyChunk(b)); }
    SentJoin(was, Pieces(f), half, Writes(ChunkIf(b)), now);
    FlatMapJoin([f], ChunkIf(b), Pieces);
  }

  lemma {:induction false} EncodeAllIs(fs: seq<Frame>)
    ensures EncodeAll(fs) == FlatMap(fs, Encode)
    decreases |fs|
  {
    if fs != [] { EncodeAllIs(fs[1..]); }
  }

  lemma EncodeJoin(a: seq<Frame>, b: seq<Frame>)
    ensures EncodeAll(a + b) == EncodeAll(a) + EncodeAll(b)
  {
    FlatMapJoin(a, b, Encode);
    EncodeAllIs(a);
    EncodeAllIs(b);
    EncodeAllIs(a + b);
  }
}
