/**
 Whole requests: every byte PHP writes between arming and finishing reaches the reader once, in
 order, whether or not streaming engages, and the reader reassembles exactly that response.
 */
module OutputRuns {
  import opened Util
  import opened Frames
  import opened Output

  function RunEvents(c: Capture, es: seq<Event>): (Capture, seq<Frame>) {
    if es == [] then (c, [])
    else
      var (c1, f1) := RunEvents(c, es[..|es| - 1]);
      var (c2, f2) := OnEvent(c1, es[|es| - 1]);
      (c2, f1 + f2)
  }

  function Slice(e: Event): Bytes { if e.Write? then e.slice else [] }

  /** Everything PHP wrote. */
  function Written(es: seq<Event>): Bytes {
    if es == [] then [] else Written(es[..|es| - 1]) + Slice(es[|es| - 1])
  }

  /** The chunks among the frames, in order. */
  function ChunksOf(fs: seq<Frame>): seq<Bytes> {
    if fs == [] then [] else (if fs[0].BodyChunk? then [fs[0].chunk] else []) + ChunksOf(fs[1..])
  }

  lemma {:induction false} ChunksJoin(a: seq<Frame>, b: seq<Frame>)
    ensures ChunksOf(a + b) == ChunksOf(a) + ChunksOf(b)
    decreases |a|
  {
    if a == [] {
      assert a + b == b;
    } else {
      ChunksJoin(a[1..], b);
      assert (a + b)[1..] == a[1..] + b;
    }
  }

  lemma {:induction false} ConcatJoin(a: seq<Bytes>, b: seq<Bytes>)
    ensures Concat(a + b) == Concat(a) + Concat(b)
    decreases |a|
  {
    if a == [] {
      assert a + b == b;
    } else {
      ConcatJoin(a[1..], b);
      assert (a + b)[1..] == a[1..] + b;
    }
  }

  /** Not engaged: nothing has been sent.  Engaged: one headers frame, then only chunks, and nothing
      waits in the buffer. */
  ghost predicate Orderly(c: Capture, fs: seq<Frame>) {
    if c.engaged then
      && c.fd >= 0 && c.buffer == [] && fs != [] && fs[0].Headers?
      && forall i :: 1 <= i < |fs| ==> fs[i].BodyChunk?
    else fs == []
  }

  /** What a batch of frames and the buffer carry together. */
  function Carried(c: Capture, fs: seq<Frame>): Bytes { Concat(ChunksOf(fs)) + c.buffer }

  lemma CarriedAfter(c: Capture, fs: seq<Frame>, c': Capture, new': seq<Frame>)
    ensures Carried(c', fs + new') == Concat(ChunksOf(fs)) + (Concat(ChunksOf(new')) + c'.buffer)
  {
    ChunksJoin(fs, new');
    ConcatJoin(ChunksOf(fs), ChunksOf(new'));
  }

  lemma SingleChunk(b: Bytes)
    ensures ChunksOf([BodyChunk(b)]) == [b] && Concat([b]) == b
    ensures Concat(ChunksOf(ChunkIf(b))) == b
  {
    assert [BodyChunk(b)][1..] == [] && [b][1..] == [] && b + [] == b;
  }

  lemma EngageCarries(c: Capture, sg: Option<nat>)
    requires !c.engaged
    ensures var (c', new') := Engage(c, sg); Concat(ChunksOf(new')) + c'.buffer == c.buffer
  {
    if c.fd >= 0 {
      var new' := [Headers(StatusOf(c, sg), c.headers)] + ChunkIf(c.buffer);
      assert new'[1..] == ChunkIf(c.buffer);
      SingleChunk(c.buffer);
    }
  }

  lemma OrderlyStep(c: Capture, fs: seq<Frame>, e: Event)
    requires Orderly(c, fs)
    ensures var (c', new') := OnEvent(c, e); Orderly(c', fs + new') && c'.fd == c.fd
  {
  }

  lemma EventCarries(c: Capture, fs: seq<Frame>, e: Event)
    requires Orderly(c, fs)
    ensures var (c', new') := OnEvent(c, e);
            Concat(ChunksOf(new')) + c'.buffer == c.buffer + Slice(e)
  {
    match e {
      case HeaderCall(_) =>
      case Flush(sg) => if !c.engaged { EngageCarries(c, sg); }
      case Write(slice, sg) => WriteStep(c, fs, slice, sg);
    }
  }

  lemma EventStep(c: Capture, fs: seq<Frame>, e: Event)
    requires Orderly(c, fs)
    ensures var (c', new') := OnEvent(c, e);
            && Orderly(c', fs + new') && c'.fd == c.fd
            && Carried(c', fs + new') == Carried(c, fs) + Slice(e)
  {
    var (c', new') := OnEvent(c, e);
    OrderlyStep(c, fs, e);
    CarriedAfter(c, fs, c', new');
    EventCarries(c, fs, e);
    Join3(Concat(ChunksOf(fs)), c.buffer, Slice(e));
  }

  lemma WriteStep(c: Capture, fs: seq<Frame>, slice: Bytes, sg: Option<nat>)
    requires Orderly(c, fs)
    ensures var (c', new') := OnWrite(c, slice, sg);
            Concat(ChunksOf(new')) + c'.buffer == c.buffer + slice
  {
    SingleChunk(slice);
    if slice == [] {
      assert c.buffer + slice == c.buffer;
    } else if !c.engaged && c.fd >= 0 && WantsStreaming(c.headers) {
      var (c', new') := Engage(c, sg);
      EngageCarries(c, sg);
      ChunksJoin(new', [BodyChunk(slice)]);
      ConcatJoin(ChunksOf(new'), [slice]);
    }
  }

  const ARMED: int -> Capture := (fd: int) => Capture([], [], 200, fd, false)

  /** For every sequence of header, write and flush events after arming: the chunks emitted followed by the
      buffer are exactly what was written, one headers frame precedes all chunks if streaming engaged, and
      nothing is emitted if it did not (in particular without an fd). */
  lemma {:induction false} Lossless(fd: int, es: seq<Event>)
    ensures var (c, fs) := RunEvents(ARMED(fd), es);
            && Orderly(c, fs) && c.fd == fd
            && Carried(c, fs) == Written(es)
    decreases |es|
  {
    if es != [] {
      var k := |es| - 1;
      Lossless(fd, es[..k]);
      var (c, fs) := RunEvents(ARMED(fd), es[..k]);
      EventStep(c, fs, es[k]);
    }
  }

  // ------------------------------------------------------------------ the object driven by events

  lemma RunNext(c: Capture, es: seq<Event>, i: nat)
    requires i < |es|
    ensures var (m, fs) := RunEvents(c, es[..i]);
            RunEvents(c, es[..i + 1]) == (OnEvent(m, es[i]).0, fs + OnEvent(m, es[i]).1)
  {
    assert es[..i + 1][..i] == es[..i];
  }

  /** The writes of the frames have reached the wire, a prefix of each, all of it if the descriptor is sound. */
  ghost predicate Arrived(was: Bytes, fs: seq<Frame>, now: Bytes, sound: bool) {
    Sent(was, Writes(fs), now) && (sound ==> now == was + EncodeAll(fs))
  }

  lemma ArrivedJoin(was: Bytes, fs: seq<Frame>, half: Bytes, more: seq<Frame>, now: Bytes, sound: bool)
    requires Arrived(was, fs, half, sound) && Arrived(half, more, now, sound)
    ensures Arrived(was, fs + more, now, sound)
  {
    SentJoin(was, Writes(fs), half, Writes(more), now);
    FlatMapJoin(fs, more, Pieces);
    EncodeJoin(fs, more);
    Join3(was, EncodeAll(fs), EncodeAll(more));
  }

  lemma ArrivedNext(c: Capture, es: seq<Event>, i: nat, was: Bytes, half: Bytes, now: Bytes, sound: bool,
                    still: bool)
    requires i < |es| && Arrived(was, RunEvents(c, es[..i]).1, half, sound)
    requires sound ==> still
    requires Arrived(half, OnEvent(RunEvents(c, es[..i]).0, es[i]).1, now, still)
    ensures RunEvents(c, es[..i + 1]).0 == OnEvent(RunEvents(c, es[..i]).0, es[i]).0
    ensures Arrived(was, RunEvents(c, es[..i + 1]).1, now, sound)
  {
    RunNext(c, es, i);
    ArrivedJoin(was, RunEvents(c, es[..i]).1, half, OnEvent(RunEvents(c, es[..i]).0, es[i]).1, now, sound);
  }

  lemma ArrivedNone(c: Capture, es: seq<Event>, was: Bytes, sound: bool)
    ensures RunEvents(c, es[..0]).0 == c && Arrived(was, RunEvents(c, es[..0]).1, was, sound)
  {
    assert es[..0] == [] && was + [] == was;
  }

  /** One callback. */
  method Callback(cap: OutputCapture, e: Event)
    modifies cap
    ensures cap.View() == OnEvent(old(cap.View()), e).0
    ensures Arrived(old(cap.wire), OnEvent(old(cap.View()), e).1, cap.wire, Failed !in old(cap.os))
    ensures Failed !in old(cap.os) ==> Failed !in cap.os
  {
    match e
    case Write(slice, sg) => cap.UbWrite(slice, sg);
    case Flush(sg) => cap.SapiFlush(sg);
    case HeaderCall(op) =>
      cap.HeaderHandler(op);
      assert cap.wire + [] == cap.wire;
  }

  /** The callbacks of a request on the object, under any schedule of writes: the wire gets, in order, a prefix of each
      write of the frames of the run, and exactly those frames if no write fails hard. */
  method FeedEvents(cap: OutputCapture, es: seq<Event>)
    modifies cap
    ensures cap.View() == RunEvents(old(cap.View()), es).0
    ensures Arrived(old(cap.wire), RunEvents(old(cap.View()), es).1, cap.wire, Failed !in old(cap.os))
  {
    ghost var c, wire, sound := cap.View(), cap.wire, Failed !in cap.os;
    var i := 0;
    ArrivedNone(c, es, wire, sound);
    while i < |es|
      invariant 0 <= i <= |es|
      invariant cap.View() == RunEvents(c, es[..i]).0
      invariant Arrived(wire, RunEvents(c, es[..i]).1, cap.wire, sound)
      invariant sound ==> Failed !in cap.os
    {
      ghost var half, still := cap.wire, Failed !in cap.os;
      Callback(cap, es[i]);
      ArrivedNext(c, es, i, wire, half, cap.wire, sound, still);
      i := i + 1;
    }
    assert es[..i] == es;
  }

  /** A whole request on a fresh wire: what arrives is read back as exactly the frames emitted. */
  method ServeEvents(cap: OutputCapture, fd: int, es: seq<Event>)
    requires cap.wire == []
    modifies cap
    ensures cap.View() == RunEvents(ARMED(fd), es).0
    ensures Sent([], Writes(RunEvents(ARMED(fd), es).1), cap.wire)
    ensures Failed !in old(cap.os) ==> cap.wire == EncodeAll(RunEvents(ARMED(fd), es).1)
    ensures Failed !in old(cap.os) && (forall f :: f in RunEvents(ARMED(fd), es).1 ==> Fits(f)) ==>
              ReadAll(cap.wire) == Some(RunEvents(ARMED(fd), es).1)
  {
    cap.ClearOutputBuffer();
    cap.ArmStreaming(fd);
    FeedEvents(cap, es);
    ghost var fs := RunEvents(ARMED(fd), es).1;
    assert [] + EncodeAll(fs) == EncodeAll(fs);
    if forall f :: f in fs ==> Fits(f) { StreamRoundTrip(fs); }
  }

  // ------------------------------------------------------------------ the whole response

  /** The status the worker reports for a buffered response. */
  function TakeCode(c: Capture, sg: Option<nat>): u16 {
    if c.code != 200 || sg.None? then c.code
    else if sg.value > 0 && sg.value != 200 then sg.value % 65536 else c.code
  }

  /** Everything the worker puts on the pipe: what was streamed, then the tail it adds after `finish_streaming`. */
  function OnPipe(c: Capture, fs: seq<Frame>, ok: bool, sg: Option<nat>): seq<Frame> {
    (if c.engaged then fs else [Headers(TakeCode(c, sg), c.headers)]) + ChunkIf(c.buffer) + [End(ok)]
  }

  lemma {:induction false} AllChunks(fs: seq<Frame>)
    requires forall i :: 0 <= i < |fs| ==> fs[i].BodyChunk?
    ensures Chunks(ChunksOf(fs)) == fs
    decreases |fs|
  {
    if fs != [] {
      AllChunks(fs[1..]);
      assert ChunksOf(fs) == [fs[0].chunk] + ChunksOf(fs[1..]);
      assert ChunksOf(fs)[1..] == ChunksOf(fs[1..]);
      assert fs == [fs[0]] + fs[1..];
    }
  }

  /** The pipe carries a headers frame, chunks that concatenate to what was written, and the end frame. */
  lemma PipeShape(c: Capture, fs: seq<Frame>, ok: bool, sg: Option<nat>)
    requires Orderly(c, fs)
    ensures var all := OnPipe(c, fs, ok, sg);
            var mid := all[1..|all| - 1];
            && |all| >= 2 && all[0].Headers? && all == [all[0]] + Chunks(ChunksOf(mid)) + [End(ok)]
            && Concat(ChunksOf(mid)) == Carried(c, fs)
  {
    var all := OnPipe(c, fs, ok, sg);
    var mid := all[1..|all| - 1];
    if c.engaged {
      assert mid == fs[1..];
      assert fs == [fs[0]] + fs[1..];
      assert ChunksOf(fs) == [] + ChunksOf(fs[1..]) == ChunksOf(mid);
      assert Carried(c, fs) == Concat(ChunksOf(fs)) + [] == Concat(ChunksOf(fs));
    } else {
      assert mid == ChunkIf(c.buffer);
      SingleChunk(c.buffer);
      assert Carried(c, fs) == [] + c.buffer == c.buffer;
    }
    AllChunks(mid);
    assert all == [all[0]] + mid + [End(ok)];
  }

  lemma EncodeShape(h: Frame, cs: seq<Bytes>, ok: bool)
    ensures EncodeAll([h] + Chunks(cs) + [End(ok)]) == Encode(h) + (EncodeAll(Chunks(cs)) + Encode(End(ok)))
  {
    EncodeJoin([h] + Chunks(cs), [End(ok)]);
    EncodeJoin([h], Chunks(cs));
    EncodeSingle(h);
    EncodeSingle(End(ok));
    Join3(Encode(h), EncodeAll(Chunks(cs)), Encode(End(ok)));
  }

  lemma PipeBytes(h: Bytes, cs: Bytes, e: Bytes, tail: Bytes)
    ensures (h + (cs + e)) + tail == h + (cs + (e + tail))
  {
  }

  /** End to end: for every request, streamed or buffered, the reader decodes exactly the bytes PHP wrote,
      under the status and headers of the first frame, and leaves the rest of the pipe alone. */
  lemma ResponseReassembled(fd: int, es: seq<Event>, ok: bool, sg: Option<nat>, tail: Bytes)
    requires var (c, fs) := RunEvents(ARMED(fd), es); forall f :: f in OnPipe(c, fs, ok, sg) ==> Fits(f)
    ensures var (c, fs) := RunEvents(ARMED(fd), es);
            var all := OnPipe(c, fs, ok, sg);
            && all[0].Headers?
            && Decode(EncodeAll(all) + tail, None, []) ==
               if |all[0].headers| <= 1024
               then
                 var status := if !ok && 200 <= all[0].status < 400 then 500 else all[0].status;
                 Some((Response(status, all[0].headers, Written(es)), tail))
               else None
  {
    Lossless(fd, es);
    var (c, fs) := RunEvents(ARMED(fd), es);
    var all := OnPipe(c, fs, ok, sg);
    PipeShape(c, fs, ok, sg);
    var mid := all[1..|all| - 1];
    var cs := ChunksOf(mid);
    EncodeShape(all[0], cs, ok);
    PipeBytes(Encode(all[0]), EncodeAll(Chunks(cs)), Encode(End(ok)), tail);
    assert all[0] in all;
    ChunksFit(mid, all);
    ResponseRoundTrip(all[0].status, all[0].headers, cs, ok, tail);
  }

  lemma {:induction false} ChunksFit(fs: seq<Frame>, all: seq<Frame>)
    requires (forall f :: f in fs ==> f in all) && forall f :: f in all ==> Fits(f)
    ensures forall c :: c in ChunksOf(fs) ==> Fits(BodyChunk(c))
    decreases |fs|
  {
    if fs != [] {
      assert fs[0] in fs;
      ChunksFit(fs[1..], all);
    }
  }
}
