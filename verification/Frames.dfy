/**
 The framed response protocol between a worker and the server: the encoder with its truncating
 length casts, the frame reader, and the loop that reassembles a response from frames.
 */
module LittleEndian {
  import opened Util

  function Pow256(k: nat): nat { if k == 0 then 1 else 256 * Pow256(k - 1) }

  /** The `k` low bytes of `n`, least significant first: a cast to the width and `to_le_bytes`. */
  function Le(n: nat, k: nat): (r: seq<byte>)
    ensures |r| == k
    decreases k
  {
    if k == 0 then [] else [n % 256] + Le(n / 256, k - 1)
  }

  function FromLe(s: seq<byte>): nat {
    if s == [] then 0 else s[0] + 256 * FromLe(s[1..])
  }

  lemma {:induction false} FromLeBound(s: seq<byte>)
    ensures FromLe(s) < Pow256(|s|)
    decreases |s|
  {
    if s != [] { FromLeBound(s[1..]); }
  }

  lemma {:induction false} LeRoundTrip(n: nat, k: nat)
    requires n < Pow256(k)
    ensures FromLe(Le(n, k)) == n
    decreases k
  {
    if k > 0 {
      LeRoundTrip(n / 256, k - 1);
      assert Le(n, k)[1..] == Le(n / 256, k - 1);
    }
  }

  lemma {:induction false} FromLeRoundTrip(s: seq<byte>)
    ensures Le(FromLe(s), |s|) == s
    decreases |s|
  {
    if s != [] {
      FromLeRoundTrip(s[1..]);
      assert FromLe(s) / 256 == FromLe(s[1..]) && FromLe(s) % 256 == s[0];
    }
  }

  /** A byte after `k` others has weight 256^k: the least significant comes first. */
  lemma {:induction false} FromLeAppend(s: seq<byte>, b: byte)
    ensures FromLe(s + [b]) == FromLe(s) + b * Pow256(|s|)
    decreases |s|
  {
    if s == [] {
      assert s + [b] == [b] && [b][1..] == [];
    } else {
      FromLeAppend(s[1..], b);
      assert (s + [b])[1..] == s[1..] + [b];
      assert 256 * (b * Pow256(|s| - 1)) == b * Pow256(|s|);
    }
  }

  lemma Widths()
    ensures Pow256(1) == 256 && Pow256(2) == 65536 && Pow256(4) == 0x1_0000_0000
  {
    assert Pow256(3) == 16777216;
  }
}

module Frames {
  import opened Util
  import opened LittleEndian

  type Header = (Bytes, Bytes)

  datatype Frame =
    | Headers(status: u16, headers: seq<Header>)
    | BodyChunk(chunk: Bytes)
    | End(ok: bool)
    | Error(msg: Bytes)

  // ------------------------------------------------------------------ encoding

  function EncodeHeader(h: Header): Bytes { Le(|h.0|, 2) + h.0 + Le(|h.1|, 2) + h.1 }

  function EncodeHeaders(hs: seq<Header>): Bytes {
    if hs == [] then [] else EncodeHeader(hs[0]) + EncodeHeaders(hs[1..])
  }

  function Encode(f: Frame): Bytes {
    match f
    case Headers(status, headers) => [0x10] + Le(status, 2) + Le(|headers|, 4) + EncodeHeaders(headers)
    case BodyChunk(chunk) => [0x11] + Le(|chunk|, 4) + chunk
    case End(ok) => [0x12, if ok then 1 else 0]
    case Error(msg) => [0x13] + Le(|msg|, 4) + msg
  }

  function EncodeAll(fs: seq<Frame>): Bytes {
    if fs == [] then [] else Encode(fs[0]) + EncodeAll(fs[1..])
  }

  // ------------------------------------------------------------------ decoding

  /** `read_exact`. */
  function Take(data: Bytes, k: nat): Option<(Bytes, Bytes)> {
    if k <= |data| then Some((data[..k], data[k..])) else None
  }

  /** A length-prefixed byte string. */
  function TakeSized(data: Bytes, width: nat): Option<(Bytes, Bytes)> {
    match Take(data, width)
    case None => None
    case Some((len, rest)) => Take(rest, FromLe(len))
  }

  function TakeHeader(data: Bytes): Option<(Header, Bytes)> {
    match TakeSized(data, 2)
    case None => None
    case Some((name, rest)) =>
      match TakeSized(rest, 2)
      case None => None
      case Some((value, rest)) => Some(((name, value), rest))
  }

  function TakeHeaders(data: Bytes, count: nat): Option<(seq<Header>, Bytes)>
    decreases count
  {
    if count == 0 then Some(([], data))
    else
      match TakeHeader(data)
      case None => None
      case Some((h, rest)) =>
        match TakeHeaders(rest, count - 1)
        case None => None
        case Some((hs, rest)) => Some(([h] + hs, rest))
  }

  datatype Read = Eof | Got(frame: Frame, rest: Bytes) | Bad

  /** A headers frame past its discriminant. */
  function ReadHeaders(data: Bytes): Read {
    match Take(data, 2)
    case None => Bad
    case Some((status, rest)) =>
      FromLeBound(status); Widths();
      match Take(rest, 4)
      case None => Bad
      case Some((count, rest)) =>
        match TakeHeaders(rest, FromLe(count))
        case None => Bad
        case Some((hs, rest)) => Got(Headers(FromLe(status), hs), rest)
  }

  function ReadFrame(data: Bytes): Read {
    if data == [] then Eof
    else if data[0] == 0x10 then ReadHeaders(data[1..])
    else if data[0] == 0x11 then
      match TakeSized(data[1..], 4)
      case None => Bad
      case Some((chunk, rest)) => Got(BodyChunk(chunk), rest)
    else if data[0] == 0x12 then
      match Take(data[1..], 1)
      case None => Bad
      case Some((ok, rest)) => Got(End(ok[0] != 0), rest)
    else if data[0] == 0x13 then
      match TakeSized(data[1..], 4)
      case None => Bad
      case Some((msg, rest)) => Got(Error(msg), rest)
    else Bad
  }

  // ------------------------------------------------------------------ codec

  predicate HeaderFits(h: Header) { |h.0| < 65536 && |h.1| < 65536 }

  /** Every length survives its cast. */
  predicate Fits(f: Frame) {
    match f
    case Headers(_, hs) => |hs| < 0x1_0000_0000 && forall h :: h in hs ==> HeaderFits(h)
    case BodyChunk(chunk) => |chunk| < 0x1_0000_0000
    case End(_) => true
    case Error(msg) => |msg| < 0x1_0000_0000
  }

  lemma TakeJoin(a: Bytes, b: Bytes)
    ensures Take(a + b, |a|) == Some((a, b))
  {
  }

  lemma TakeSizedWith(len: Bytes, s: Bytes, rest: Bytes)
    requires FromLe(len) == |s|
    ensures TakeSized(len + s + rest, |len|) == Some((s, rest))
  {
    assert len + s + rest == len + (s + rest);
    TakeJoin(len, s + rest);
    TakeJoin(s, rest);
  }

  lemma TakeSizedJoin(s: Bytes, width: nat, rest: Bytes)
    requires |s| < Pow256(width)
    ensures TakeSized(Le(|s|, width) + s + rest, width) == Some((s, rest))
  {
    LeRoundTrip(|s|, width);
    TakeSizedWith(Le(|s|, width), s, rest);
  }

  lemma TakeHeaderJoin(h: Header, rest: Bytes)
    requires HeaderFits(h)
    ensures TakeHeader(EncodeHeader(h) + rest) == Some((h, rest))
  {
    Widths();
    var tail := Le(|h.1|, 2) + h.1 + rest;
    assert EncodeHeader(h) + rest == Le(|h.0|, 2) + h.0 + tail;
    TakeSizedJoin(h.0, 2, tail);
    TakeSizedJoin(h.1, 2, rest);
  }

  lemma TakeHeadersCons(first: Bytes, more: Bytes, h: Header, hs: seq<Header>, rest: Bytes)
    requires TakeHeader(first + (more + rest)) == Some((h, more + rest)) &&
             TakeHeaders(more + rest, |hs|) == Some((hs, rest))
    ensures TakeHeaders(first + more + rest, |hs| + 1) == Some(([h] + hs, rest))
  {
    Join3(first, more, rest);
  }

  lemma {:induction false} TakeHeadersJoin(hs: seq<Header>, rest: Bytes)
    requires forall h :: h in hs ==> HeaderFits(h)
    ensures TakeHeaders(EncodeHeaders(hs) + rest, |hs|) == Some((hs, rest))
    decreases |hs|
  {
    if hs == [] {
      assert EncodeHeaders(hs) + rest == rest;
    } else {
      TakeHeaderJoin(hs[0], EncodeHeaders(hs[1..]) + rest);
      TakeHeadersJoin(hs[1..], rest);
      TakeHeadersCons(EncodeHeader(hs[0]), EncodeHeaders(hs[1..]), hs[0], hs[1..], rest);
      assert hs == [hs[0]] + hs[1..];
    }
  }

  lemma ReadHeadersWith(a: Bytes, b: Bytes, c: Bytes, status: u16, hs: seq<Header>, rest: Bytes)
    requires |a| == 2 && FromLe(a) == status && |b| == 4 && FromLe(b) == |hs| &&
             TakeHeaders(c, |hs|) == Some((hs, rest))
    ensures ReadHeaders(a + (b + c)) == Got(Headers(status, hs), rest)
  {
    TakeJoin(a, b + c);
    TakeJoin(b, c);
  }

  lemma HeadersRoundTrip(status: u16, hs: seq<Header>, rest: Bytes)
    requires Fits(Headers(status, hs))
    ensures ReadFrame(Encode(Headers(status, hs)) + rest) == Got(Headers(status, hs), rest)
  {
    Widths();
    LeRoundTrip(status, 2);
    LeRoundTrip(|hs|, 4);
    TakeHeadersJoin(hs, rest);
    ReadHeadersWith(Le(status, 2), Le(|hs|, 4), EncodeHeaders(hs) + rest, status, hs, rest);
    HeadersBytes(Le(status, 2), Le(|hs|, 4), EncodeHeaders(hs), rest);
  }

  lemma HeadersBytes(a: Bytes, b: Bytes, c: Bytes, rest: Bytes)
    ensures ([0x10] + a + b + c + rest)[1..] == a + (b + (c + rest))
  {
  }

  lemma ReadSizedWith(tag: byte, len: Bytes, s: Bytes, rest: Bytes)
    requires |len| == 4 && FromLe(len) == |s| && (tag == 0x11 || tag == 0x13)
    ensures ReadFrame([tag] + len + s + rest) == Got(if tag == 0x11 then BodyChunk(s) else Error(s), rest)
  {
    var data := [tag] + len + s + rest;
    assert data[1..] == len + s + rest;
    TakeSizedWith(len, s, rest);
  }

  lemma FrameRoundTrip(f: Frame, rest: Bytes)
    requires Fits(f)
    ensures ReadFrame(Encode(f) + rest) == Got(f, rest)
  {
    match f {
      case Headers(status, hs) => HeadersRoundTrip(status, hs, rest);
      case BodyChunk(chunk) =>
        Widths();
        LeRoundTrip(|chunk|, 4);
        ReadSizedWith(0x11, Le(|chunk|, 4), chunk, rest);
      case End(ok) =>
        var data := Encode(f) + rest;
        assert data[1..] == [if ok then 1 else 0] + rest;
        TakeJoin([if ok then 1 else 0], rest);
      case Error(msg) =>
        Widths();
        LeRoundTrip(|msg|, 4);
        ReadSizedWith(0x13, Le(|msg|, 4), msg, rest);
    }
  }

  lemma TakeSizedFits(data: Bytes, width: nat)
    ensures TakeSized(data, width).Some? ==> |TakeSized(data, width).value.0| < Pow256(width)
  {
    if width <= |data| { FromLeBound(data[..width]); }
  }

  lemma {:induction false} TakeHeadersFit(data: Bytes, count: nat)
    ensures TakeHeaders(data, count).Some? ==>
              && |TakeHeaders(data, count).value.0| == count
              && forall h :: h in TakeHeaders(data, count).value.0 ==> HeaderFits(h)
    decreases count
  {
    if count > 0 && TakeHeader(data).Some? {
      Widths();
      TakeSizedFits(data, 2);
      TakeSizedFits(TakeSized(data, 2).value.1, 2);
      TakeHeadersFit(TakeHeader(data).value.1, count - 1);
    }
  }

  /** Whatever the reader accepts fits the wire format. */
  lemma ReadFits(data: Bytes)
    ensures ReadFrame(data).Got? ==> Fits(ReadFrame(data).frame)
  {
    Widths();
    if data != [] {
      TakeSizedFits(data[1..], 4);
      if data[0] == 0x10 && |data| >= 7 {
        var rest := data[1..][2..];
        FromLeBound(rest[..4]);
        TakeHeadersFit(rest[4..], FromLe(rest[..4]));
      }
    }
  }

  lemma TakeSizedBack(data: Bytes, width: nat)
    ensures TakeSized(data, width).Some? ==>
              var (s, rest) := TakeSized(data, width).value; data == Le(|s|, width) + (s + rest)
  {
    if TakeSized(data, width).Some? {
      FromLeRoundTrip(data[..width]);
      var (s, rest) := TakeSized(data, width).value;
      assert data[width..] == s + rest;
    }
  }

  lemma Join4<T>(a: seq<T>, b: seq<T>, c: seq<T>, d: seq<T>)
    ensures a + (b + (c + d)) == (a + b + c) + d
  {
  }

  lemma Join5<T>(a: seq<T>, b: seq<T>, c: seq<T>, d: seq<T>, e: seq<T>)
    ensures a + (b + (c + (d + e))) == (a + b + c + d) + e
  {
    Join4(a, b, c, d + e);
    Join3(a + b + c, d, e);
  }

  lemma HeaderBack(data: Bytes, name: Bytes, more: Bytes, value: Bytes, rest: Bytes)
    requires TakeSized(data, 2) == Some((name, more)) && TakeSized(more, 2) == Some((value, rest))
    ensures data == EncodeHeader((name, value)) + rest
  {
    TakeSizedBack(data, 2);
    TakeSizedBack(more, 2);
    Join5(Le(|name|, 2), name, Le(|value|, 2), value, rest);
  }

  lemma TakeHeaderBack(data: Bytes)
    requires TakeHeader(data).Some?
    ensures var (h, rest) := TakeHeader(data).value; data == EncodeHeader(h) + rest
  {
    var (name, more) := TakeSized(data, 2).value;
    var (value, rest) := TakeSized(more, 2).value;
    HeaderBack(data, name, more, value, rest);
  }

  ghost predicate StartsWith(data: Bytes, hs: seq<Header>, rest: Bytes) { data == EncodeHeaders(hs) + rest }

  lemma StartsCons(data: Bytes, first: Bytes, h: Header, more: Bytes, hs: seq<Header>, rest: Bytes)
    requires first == EncodeHeader(h) && data == first + more && StartsWith(more, hs, rest)
    ensures StartsWith(data, [h] + hs, rest)
  {
    assert ([h] + hs)[1..] == hs;
    Join3(first, EncodeHeaders(hs), rest);
  }

  /** One more header in front. */
  lemma TakenCons(data: Bytes, count: nat, h: Header, more: Bytes, hs: seq<Header>, rest: Bytes)
    requires count > 0 && TakeHeader(data) == Some((h, more)) && TakeHeaders(more, count - 1) == Some((hs, rest))
    requires |hs| == count - 1 && StartsWith(more, hs, rest)
    ensures TakeHeaders(data, count) == Some(([h] + hs, rest)) && StartsWith(data, [h] + hs, rest)
  {
    TakeHeaderBack(data);
    StartsCons(data, EncodeHeader(h), h, more, hs, rest);
  }

  ghost predicate TakenBack(data: Bytes, count: nat) {
    match TakeHeaders(data, count)
    case None => true
    case Some((hs, rest)) => |hs| == count && StartsWith(data, hs, rest)
  }

  lemma {:induction false} TakeHeadersBack(data: Bytes, count: nat)
    ensures TakenBack(data, count)
    decreases count
  {
    if count == 0 {
      assert EncodeHeaders([]) + data == data;
    } else {
      match TakeHeader(data)
      case None =>
      case Some((h, more)) =>
        TakeHeadersBack(more, count - 1);
        match TakeHeaders(more, count - 1)
        case None =>
        case Some((hs, rest)) => TakenCons(data, count, h, more, hs, rest);
    }
  }

  lemma FrameOfHeaders(status: Bytes, count: Bytes, hs: seq<Header>, rest: Bytes)
    requires |status| == 2 && |count| == 4 && FromLe(status) < 65536 && FromLe(count) == |hs|
    ensures [0x10] + (status + (count + (EncodeHeaders(hs) + rest))) == Encode(Headers(FromLe(status), hs)) + rest
  {
    FromLeRoundTrip(status);
    FromLeRoundTrip(count);
    Join5([0x10], status, count, EncodeHeaders(hs), rest);
  }

  lemma ReadHeadersBack(data: Bytes)
    ensures ReadHeaders(data).Got? ==>
              var Got(f, rest) := ReadHeaders(data); f.Headers? && [0x10] + data == Encode(f) + rest
  {
    if ReadHeaders(data).Got? {
      var status, count, tail := data[..2], data[2..][..4], data[2..][4..];
      FromLeBound(status);
      Widths();
      var (hs, rest) := TakeHeaders(tail, FromLe(count)).value;
      TakeHeadersBack(tail, FromLe(count));
      assert data == status + (count + tail);
      FrameOfHeaders(status, count, hs, rest);
    }
  }

  lemma ReadSizedBack(tag: Bytes, data: Bytes)
    requires TakeSized(data, 4).Some?
    ensures var (s, rest) := TakeSized(data, 4).value; tag + data == (tag + Le(|s|, 4) + s) + rest
  {
    TakeSizedBack(data, 4);
    var (s, rest) := TakeSized(data, 4).value;
    Join4(tag, Le(|s|, 4), s, rest);
  }

  /** What was read is the encoding of the frame, but for the byte that says how a response ended. */
  lemma ReadBack(data: Bytes)
    requires ReadFrame(data).Got?
    ensures var Got(f, rest) := ReadFrame(data);
            data == Encode(f) + rest ||
            (f == End(true) && |data| >= 2 && data[0] == 0x12 && data[1] != 0 && data[2..] == rest)
  {
    var f, tail := ReadFrame(data).frame, data[1..];
    assert data == [data[0]] + tail;
    if f.Headers? {
      ReadHeadersBack(tail);
    } else if f.End? {
      assert data == [0x12, data[1]] + data[2..];
    } else {
      ReadSizedBack([data[0]], tail);
    }
  }

  /** The reader accepts encodings of fitting frames and nothing else, except that any non-zero byte ends a response
      well; it is at the end exactly with no bytes left. */
  lemma ReadFrameIff(data: Bytes, f: Frame, rest: Bytes)
    ensures ReadFrame(data) == Got(f, rest) <==>
            Fits(f) && (data == Encode(f) + rest || (f == End(true) && |data| >= 2 && data[0] == 0x12 && data[1] != 0 &&
                                                     data[2..] == rest))
    ensures ReadFrame(data).Eof? <==> data == []
  {
    ReadFits(data);
    if Fits(f) && data == Encode(f) + rest { FrameRoundTrip(f, rest); }
    if ReadFrame(data).Got? { ReadBack(data); }
  }

  /** A frame is read back as itself, leaving the rest, if and only if its lengths survive their casts. */
  lemma FrameCodecIff(f: Frame, rest: Bytes)
    ensures ReadFrame(Encode(f) + rest) == Got(f, rest) <==> Fits(f)
  {
    ReadFits(Encode(f) + rest);
    if Fits(f) { FrameRoundTrip(f, rest); }
  }

  // ------------------------------------------------------------------ responses

  datatype Response = Response(status: u16, headers: seq<Header>, body: Bytes)

  function Or500(ok: bool, status: u16): u16 { if !ok && 200 <= status < 400 then 500 else status }

  lemma {:induction false} TakeHeadersShrinks(data: Bytes, count: nat)
    ensures TakeHeaders(data, count).Some? ==> |TakeHeaders(data, count).value.1| <= |data|
    decreases count
  {
    if count > 0 && TakeHeader(data).Some? {
      TakeHeadersShrinks(TakeHeader(data).value.1, count - 1);
    }
  }

  lemma ReadShrinks(data: Bytes)
    ensures ReadFrame(data).Got? ==> |ReadFrame(data).rest| < |data|
  {
    if data != [] && data[0] == 0x10 && |data| >= 7 {
      var rest := data[1..][2..];
      TakeHeadersShrinks(rest[4..], FromLe(rest[..4]));
    }
  }

  /** The reassembly loop: headers seen so far, body so far; None is a decode error. */
  function Decode(data: Bytes, head: Option<(u16, seq<Header>)>, body: Bytes): Option<(Response, Bytes)>
    decreases |data|
  {
    ReadShrinks(data);
    match ReadFrame(data)
    case Eof => None
    case Bad => None
    case Got(Headers(status, hs), rest) =>
      if head.Some? || |hs| > 1024 then None else Decode(rest, Some((status, hs)), body)
    case Got(BodyChunk(chunk), rest) => if head.None? then None else Decode(rest, head, body + chunk)
    case Got(End(ok), rest) =>
      if head.None? then None else Some((Response(Or500(ok, head.value.0), head.value.1, body), rest))
    case Got(Error(msg), rest) => Some((Response(500, [], msg), rest))
  }

  function Chunks(cs: seq<Bytes>): seq<Frame> { if cs == [] then [] else [BodyChunk(cs[0])] + Chunks(cs[1..]) }

  lemma DecodeChunk(c: Bytes, rest: Bytes, head: (u16, seq<Header>), body: Bytes)
    requires Fits(BodyChunk(c))
    ensures Decode(Encode(BodyChunk(c)) + rest, Some(head), body) == Decode(rest, Some(head), body + c)
  {
    FrameRoundTrip(BodyChunk(c), rest);
  }

  lemma EncodeChunksCons(cs: seq<Bytes>)
    requires cs != []
    ensures EncodeAll(Chunks(cs)) == Encode(BodyChunk(cs[0])) + EncodeAll(Chunks(cs[1..]))
  {
    assert Chunks(cs)[1..] == Chunks(cs[1..]);
  }

  lemma {:induction false} DecodeChunks(cs: seq<Bytes>, tail: Bytes, head: (u16, seq<Header>), body: Bytes)
    requires forall c :: c in cs ==> Fits(BodyChunk(c))
    ensures Decode(EncodeAll(Chunks(cs)) + tail, Some(head), body) == Decode(tail, Some(head), body + Concat(cs))
    decreases |cs|
  {
    if cs == [] {
      assert EncodeAll(Chunks(cs)) + tail == tail && body + Concat(cs) == body;
    } else {
      var rest := EncodeAll(Chunks(cs[1..])) + tail;
      EncodeChunksCons(cs);
      Join3(Encode(BodyChunk(cs[0])), EncodeAll(Chunks(cs[1..])), tail);
      DecodeChunk(cs[0], rest, head, body);
      DecodeChunks(cs[1..], tail, head, body + cs[0]);
      Join3(body, cs[0], Concat(cs[1..]));
    }
  }

  /** A headers frame, any chunks and an end frame reassemble to that status, those headers and the
      chunks' concatenation, and nothing of what follows is consumed; with more than 1024 headers the
      reader refuses. */
  lemma ResponseRoundTrip(status: u16, hs: seq<Header>, cs: seq<Bytes>, ok: bool, tail: Bytes)
    requires Fits(Headers(status, hs)) && forall c :: c in cs ==> Fits(BodyChunk(c))
    ensures Decode(Encode(Headers(status, hs)) + (EncodeAll(Chunks(cs)) + (Encode(End(ok)) + tail)), None, []) ==
            if |hs| <= 1024
            then Some((Response(if !ok && 200 <= status < 400 then 500 else status, hs, Concat(cs)), tail))
            else None
  {
    var rest := EncodeAll(Chunks(cs)) + (Encode(End(ok)) + tail);
    FrameRoundTrip(Headers(status, hs), rest);
    if |hs| <= 1024 {
      DecodeChunks(cs, Encode(End(ok)) + tail, (status, hs), []);
      FrameRoundTrip(End(ok), tail);
      assert [] + Concat(cs) == Concat(cs);
    }
  }

  /** An error frame ends the response wherever it comes: status 500 with its message for a body, and whatever was
      read before it is dropped. */
  lemma ErrorRoundTrip(msg: Bytes, tail: Bytes, head: Option<(u16, seq<Header>)>, body: Bytes)
    requires Fits(Error(msg))
    ensures Decode(Encode(Error(msg)) + tail, head, body) == Some((Response(500, [], msg), tail))
  {
    FrameRoundTrip(Error(msg), tail);
  }

  /** Reading frame after frame takes the bytes to `rest`. */
  ghost predicate Reads(data: Bytes, fs: seq<Frame>, rest: Bytes)
    decreases |fs|
  {
    if fs == [] then data == rest
    else ReadFrame(data).Got? && ReadFrame(data).frame == fs[0] && Reads(ReadFrame(data).rest, fs[1..], rest)
  }

  /** What the frames after a headers frame make of it: chunks up to an end frame, or up to an error frame. */
  ghost predicate Closes(status: u16, hs: seq<Header>, body: Bytes, cs: seq<Bytes>, last: Frame, r: Response) {
    match last
    case End(ok) => r == Response(if !ok && 200 <= status < 400 then 500 else status, hs, body + Concat(cs))
    case Error(msg) => r == Response(500, [], msg)
    case _ => false
  }

  lemma {:induction false} DecodedTail(data: Bytes, status: u16, hs: seq<Header>, body: Bytes)
    returns (cs: seq<Bytes>, last: Frame)
    requires Decode(data, Some((status, hs)), body).Some?
    ensures var (r, rest) := Decode(data, Some((status, hs)), body).value;
            Reads(data, Chunks(cs) + [last], rest) && Closes(status, hs, body, cs, last, r)
    decreases |data|
  {
    ReadShrinks(data);
    var got := ReadFrame(data);
    if got.frame.BodyChunk? {
      var more;
      more, last := DecodedTail(got.rest, status, hs, body + got.frame.chunk);
      cs := [got.frame.chunk] + more;
      assert cs[1..] == more && Chunks(cs) == [got.frame] + Chunks(more);
      assert (Chunks(cs) + [last])[1..] == Chunks(more) + [last];
      Join3(body, got.frame.chunk, Concat(more));
    } else {
      cs, last := [], got.frame;
      assert Chunks(cs) + [last] == [last] && [last][1..] == [];
      assert body + Concat(cs) == body;
    }
  }

  /** Nothing else is a response: what the reader accepts is an error frame, or a headers frame with at most 1024
      headers, chunks, and an end or error frame, and it consumes exactly those. */
  lemma DecodedShape(data: Bytes) returns (cs: seq<Bytes>, last: Frame)
    requires Decode(data, None, []).Some?
    ensures var (r, rest) := Decode(data, None, []).value;
            || (exists msg :: Reads(data, [Error(msg)], rest) && r == Response(500, [], msg))
            || (exists status, hs :: |hs| <= 1024 && Reads(data, [Headers(status, hs)] + (Chunks(cs) + [last]), rest) &&
                                     Closes(status, hs, [], cs, last, r))
  {
    var got := ReadFrame(data);
    if got.frame.Error? {
      cs, last := [], got.frame;
      assert [got.frame][1..] == [];
      assert Reads(data, [Error(got.frame.msg)], got.rest);
    } else {
      cs, last := DecodedTail(got.rest, got.frame.status, got.frame.headers, []);
      var tail := Chunks(cs) + [last];
      assert ([got.frame] + tail)[1..] == tail;
      assert Reads(data, [Headers(got.frame.status, got.frame.headers)] + tail, Decode(data, None, []).value.1);
    }
  }

  /** All frames of a byte string, None when it is not a sequence of frames. */
  function ReadAll(data: Bytes): Option<seq<Frame>>
    decreases |data|
  {
    ReadShrinks(data);
    match ReadFrame(data)
    case Eof => Some([])
    case Bad => None
    case Got(f, rest) =>
      match ReadAll(rest)
      case None => None
      case Some(fs) => Some([f] + fs)
  }

  lemma ReadAllCons(f: Frame, data: Bytes, fs: seq<Frame>)
    requires Fits(f) && ReadAll(data) == Some(fs)
    ensures ReadAll(Encode(f) + data) == Some([f] + fs)
  {
    FrameRoundTrip(f, data);
  }

  /** A sequence of frames is determined by its bytes. */
  lemma {:induction false} StreamRoundTrip(fs: seq<Frame>)
    requires forall f :: f in fs ==> Fits(f)
    ensures ReadAll(EncodeAll(fs)) == Some(fs)
    decreases |fs|
  {
    if fs != [] {
      StreamRoundTrip(fs[1..]);
      ReadAllCons(fs[0], EncodeAll(fs[1..]), fs[1..]);
      assert fs == [fs[0]] + fs[1..];
    }
  }
}
