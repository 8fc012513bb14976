/**
 Which status and headers a response goes out with: streaming engages exactly at the first flush, or
 the first write once a header asks for it, and the headers frame holds what was in force then.
 */
module OutputHeaders {
  import opened Util
  import opened Frames
  import opened Output
  import opened OutputRuns
  import Tar

  /** The header buffer after the events' header calls. */
  function Buffered(es: seq<Event>): seq<Header> {
    if es == [] then []
    else
      var e := es[|es| - 1];
      if e.HeaderCall? then EditHeaders(Buffered(es[..|es| - 1]), e.op) else Buffered(es[..|es| - 1])
  }

  /** The last status line's code, 200 without one. */
  function LastCode(es: seq<Event>): u16 {
    if es == [] then 200
    else
      var e := es[|es| - 1];
      if e.HeaderCall? && e.op.StatusLine? then e.op.code else LastCode(es[..|es| - 1])
  }

  predicate SetsStatus(e: Event) { e.HeaderCall? && e.op.StatusLine? }

  lemma {:induction false} LastCodeMeaning(es: seq<Event>)
    ensures (forall j :: 0 <= j < |es| ==> !SetsStatus(es[j])) ==> LastCode(es) == 200
    ensures forall j :: 0 <= j < |es| && SetsStatus(es[j]) && (forall k :: j < k < |es| ==> !SetsStatus(es[k])) ==>
              LastCode(es) == es[j].op.code
    decreases |es|
  {
    if es != [] {
      var rest := es[..|es| - 1];
      LastCodeMeaning(rest);
      assert forall j :: 0 <= j < |rest| ==> rest[j] == es[j];
    }
  }

  // ------------------------------------------------------------------ one name at a time

  /** The values buffered under a name, in order. */
  function ValuesOf(hs: seq<Header>, name: Bytes): seq<Bytes> {
    if hs == [] then [] else (if SameName(hs[0].0, name) then [hs[0].1] else []) + ValuesOf(hs[1..], name)
  }

  /** What one call says about one name: replace starts over, add appends, delete clears. */
  function EditValues(values: seq<Bytes>, op: HeaderOp, name: Bytes): seq<Bytes> {
    match op
    case Replace(n, v) => if SameName(n, name) then [v] else values
    case Add(n, v) => if SameName(n, name) then values + [v] else values
    case Delete(n) => if SameName(Trimmed(n), name) then [] else values
    case DeleteAll => []
    case StatusLine(_) => values
    case Ignored => values
  }

  function Replay(es: seq<Event>, name: Bytes): seq<Bytes> {
    if es == [] then []
    else
      var e := es[|es| - 1];
      if e.HeaderCall? then EditValues(Replay(es[..|es| - 1], name), e.op, name) else Replay(es[..|es| - 1], name)
  }

  lemma {:induction false} ValuesJoin(a: seq<Header>, b: seq<Header>, name: Bytes)
    ensures ValuesOf(a + b, name) == ValuesOf(a, name) + ValuesOf(b, name)
    decreases |a|
  {
    if a == [] {
      assert a + b == b;
    } else {
      ValuesJoin(a[1..], b, name);
      assert (a + b)[1..] == a[1..] + b;
      Join3(if SameName(a[0].0, name) then [a[0].1] else [], ValuesOf(a[1..], name), ValuesOf(b, name));
    }
  }

  lemma ValuesSingle(h: Header, name: Bytes)
    ensures ValuesOf([h], name) == if SameName(h.0, name) then [h.1] else []
  {
    assert ValuesOf([h][1..], name) == [];
  }

  lemma {:induction false} ValuesWithout(hs: seq<Header>, n: Bytes, name: Bytes)
    ensures ValuesOf(Without(hs, n), name) == if SameName(n, name) then [] else ValuesOf(hs, name)
    decreases |hs|
  {
    if hs != [] {
      ValuesWithout(hs[1..], n, name);
      if !SameName(hs[0].0, n) {
        ValuesJoin([hs[0]], Without(hs[1..], n), name);
        ValuesSingle(hs[0], name);
      } else {
        assert [] + Without(hs[1..], n) == Without(hs[1..], n);
      }
    }
  }

  lemma EditHeadersMeaning(hs: seq<Header>, op: HeaderOp, name: Bytes)
    ensures ValuesOf(EditHeaders(hs, op), name) == EditValues(ValuesOf(hs, name), op, name)
  {
    match op
    case Replace(n, v) =>
      ValuesJoin(Without(hs, n), [(n, v)], name);
      ValuesSingle((n, v), name);
      ValuesWithout(hs, n, name);
    case Add(n, v) =>
      ValuesJoin(hs, [(n, v)], name);
      ValuesSingle((n, v), name);
    case Delete(n) => ValuesWithout(hs, Trimmed(n), name);
    case _ =>
  }

  /** After any events, the values of every name, compared without case, are those its own calls say. */
  lemma {:induction false} HeadersPerName(es: seq<Event>, name: Bytes)
    ensures ValuesOf(Buffered(es), name) == Replay(es, name)
    decreases |es|
  {
    if es != [] {
      var rest, e := es[..|es| - 1], es[|es| - 1];
      HeadersPerName(rest, name);
      if e.HeaderCall? { EditHeadersMeaning(Buffered(rest), e.op, name); }
    }
  }

  // ------------------------------------------------------------------ which headers ask for streaming

  predicate Letter(b: byte) { 65 <= b <= 90 || 97 <= b <= 122 }

  /** The same byte, or the same letter in the other case. */
  predicate SameLetter(a: byte, b: byte) { a == b || (Letter(a) && Letter(b) && (a == b + 32 || b == a + 32)) }

  /** Equal up to the case of ASCII letters. */
  predicate EqualFold(a: Bytes, b: Bytes) { |a| == |b| && forall i :: 0 <= i < |a| ==> SameLetter(a[i], b[i]) }

  lemma SameNameIff(a: Bytes, b: Bytes)
    ensures SameName(a, b) <==> EqualFold(a, b)
  {
    if |a| == |b| {
      assert forall i :: 0 <= i < |a| ==> (LowerAll(a)[i] == LowerAll(b)[i] <==> SameLetter(a[i], b[i]));
      if EqualFold(a, b) { assert LowerAll(a) == LowerAll(b); }
    } else {
      assert |LowerAll(a)| == |a| && |LowerAll(b)| == |b|;
    }
  }

  lemma LowerPrefix(s: Bytes, m: Bytes)
    requires LowerAll(m) == m
    ensures m <= LowerAll(s) <==> |m| <= |s| && EqualFold(s[..|m|], m)
  {
    if |m| <= |s| {
      SameNameIff(s[..|m|], m);
      assert LowerAll(s)[..|m|] == LowerAll(s[..|m|]);
    }
  }

  lemma Spelled()
    ensures CONTENT_TYPE == Ascii("content-type") && EVENT_STREAM == Ascii("text/event-stream")
    ensures X_ACCEL == Ascii("x-accel-buffering") && NO == Ascii("no")
    ensures LowerAll(EVENT_STREAM) == EVENT_STREAM
  {
  }

  /** After some blanks the text begins with the word, in any case. */
  ghost predicate BeginsWith(s: Bytes, word: Bytes) {
    exists a: Bytes, w: Bytes, rest: Bytes :: s == a + (w + rest) && Tar.All(a, Tar.IsSpace) && EqualFold(w, word)
  }

  /** Between blanks the text is the word, in any case. */
  ghost predicate Says(s: Bytes, word: Bytes) {
    exists a: Bytes, w: Bytes, c: Bytes ::
      s == a + (w + c) && Tar.All(a, Tar.IsSpace) && Tar.All(c, Tar.IsSpace) && EqualFold(w, word)
  }

  /** A header asks for streaming if it is a content type beginning, after blanks, with text/event-stream, or turns
      proxy buffering off; names and values are compared without case. */
  ghost predicate Asks(h: Header) {
    || (EqualFold(h.0, Ascii("content-type")) && BeginsWith(h.1, Ascii("text/event-stream")))
    || (EqualFold(h.0, Ascii("x-accel-buffering")) && Says(h.1, Ascii("no")))
  }

  /** Texts equal to a word of visible characters have none but such. */
  lemma FoldSolid(w: Bytes, word: Bytes)
    requires EqualFold(w, word) && forall i :: 0 <= i < |word| ==> word[i] > 32
    ensures forall i :: 0 <= i < |w| ==> !Tar.IsSpace(w[i])
  {
  }

  lemma WordFound(s: Bytes, b: Bytes, w: Bytes, rest: Bytes, word: Bytes)
    requires word != [] && forall i :: 0 <= i < |word| ==> word[i] > 32
    requires s == b + (w + rest) && Tar.All(b, Tar.IsSpace) && EqualFold(w, word)
    ensures var t := Tar.TrimStart(s, Tar.IsSpace); |word| <= |t| && t[..|word|] == w
  {
    FoldSolid(w, word);
    assert (w + rest)[0] == w[0];
    Tar.TrimStartBack(b, w + rest, Tar.IsSpace);
  }

  lemma WordBegins(s: Bytes, a: Bytes, t: Bytes, word: Bytes)
    requires s == a + t && Tar.All(a, Tar.IsSpace) && |word| <= |t| && EqualFold(t[..|word|], word)
    ensures BeginsWith(s, word)
  {
    var w, rest := t[..|word|], t[|word|..];
    assert t == w + rest;
  }

  lemma BeginsWithIff(s: Bytes, word: Bytes)
    requires word != [] && LowerAll(word) == word && forall i :: 0 <= i < |word| ==> word[i] > 32
    ensures word <= LowerAll(Tar.TrimStart(s, Tar.IsSpace)) <==> BeginsWith(s, word)
  {
    var a := Tar.TrimStartSplit(s, Tar.IsSpace);
    var t := Tar.TrimStart(s, Tar.IsSpace);
    LowerPrefix(t, word);
    if word <= LowerAll(t) {
      WordBegins(s, a, t, word);
    }
    if BeginsWith(s, word) {
      var b: Bytes, w: Bytes, rest: Bytes :| s == b + (w + rest) && Tar.All(b, Tar.IsSpace) && EqualFold(w, word);
      WordFound(s, b, w, rest, word);
    }
  }

  lemma SaysIff(s: Bytes, word: Bytes)
    requires word != [] && forall i :: 0 <= i < |word| ==> word[i] > 32
    ensures SameName(Trimmed(s), word) <==> Says(s, word)
  {
    var a, c := Tar.TrimExact(s, Tar.IsSpace);
    SameNameIff(Trimmed(s), word);
    if b: Bytes, w: Bytes, d: Bytes :|
      s == b + (w + d) && Tar.All(b, Tar.IsSpace) && Tar.All(d, Tar.IsSpace) && EqualFold(w, word)
    {
      FoldSolid(w, word);
      Tar.TrimBack(b, w, d, Tar.IsSpace);
    }
  }

  lemma OptsInIff(h: Header)
    ensures OptsIn(h) <==> Asks(h)
  {
    Spelled();
    SameNameIff(h.0, CONTENT_TYPE);
    SameNameIff(h.0, X_ACCEL);
    BeginsWithIff(h.1, EVENT_STREAM);
    SaysIff(h.1, NO);
  }

  lemma WantsStreamingIff(hs: seq<Header>)
    ensures WantsStreaming(hs) <==> exists h :: h in hs && Asks(h)
  {
    forall h ensures OptsIn(h) <==> Asks(h) { OptsInIff(h); }
    if h :| h in hs && Asks(h) {
      var i :| 0 <= i < |hs| && hs[i] == h;
      assert OptsIn(hs[i]);
    }
  }

  // ------------------------------------------------------------------ when streaming engages

  /** The event makes a request with a descriptor stream, given the events before it. */
  ghost predicate Opens(e: Event, before: seq<Event>) {
    e.Flush? || (e.Write? && e.slice != [] && exists h :: h in Buffered(before) && Asks(h))
  }

  /** Nothing opened the stream so far. */
  ghost predicate Quiet(es: seq<Event>) {
    forall k :: 0 <= k < |es| ==> !Opens(es[k], es[..k])
  }

  lemma QuietStep(es: seq<Event>)
    requires es != []
    ensures Quiet(es) <==> Quiet(es[..|es| - 1]) && !Opens(es[|es| - 1], es[..|es| - 1])
  {
    var rest := es[..|es| - 1];
    assert forall k :: 0 <= k < |rest| ==> rest[k] == es[k] && rest[..k] == es[..k];
  }

  /** Until something opens the stream, status and headers are buffered as the calls say. */
  lemma {:induction false} QuietRun(fd: int, es: seq<Event>)
    requires fd < 0 || Quiet(es)
    ensures var (c, fs) := RunEvents(ARMED(fd), es);
            !c.engaged && fs == [] && c.fd == fd && c.headers == Buffered(es) && c.code == LastCode(es)
    decreases |es|
  {
    if es != [] {
      QuietStep(es);
      QuietRun(fd, es[..|es| - 1]);
      WantsStreamingIff(Buffered(es[..|es| - 1]));
    }
  }

  lemma EventOpens(c: Capture, e: Event)
    requires c.fd >= 0 && !c.engaged
    requires e.Flush? || (e.Write? && e.slice != [] && WantsStreaming(c.headers))
    ensures var (c', fs) := OnEvent(c, e); c'.engaged && fs != [] && fs[0] == Headers(StatusOf(c, e.sg), c.headers)
  {
  }

  /** The status a response goes out with: the code PHP set last unless that is 200, else the code the engine has,
      else 200.  Streamed and buffered responses agree on it. */
  lemma EffectiveStatus(c: Capture, sg: Option<nat>)
    ensures StatusOf(c, sg) == TakeCode(c, sg) ==
            if c.code != 200 then c.code else if sg.Some? && sg.value > 0 then sg.value % 65536 else 200
  {
  }

  lemma EventKeeps(c: Capture, e: Event)
    requires c.engaged
    ensures OnEvent(c, e).0.engaged
  {
  }

  lemma RunStep(c: Capture, es: seq<Event>)
    requires es != []
    ensures var (m, fs) := RunEvents(c, es[..|es| - 1]);
            RunEvents(c, es).0 == OnEvent(m, es[|es| - 1]).0 && RunEvents(c, es).1 == fs + OnEvent(m, es[|es| - 1]).1
  {
  }

  /** The headers frame of a response whose status and headers are settled after the events `before`. */
  function Opening(before: seq<Event>, sg: Option<nat>): Frame {
    var code := LastCode(before);
    Headers(if code != 200 then code else if sg.Some? && sg.value > 0 then sg.value % 65536 else 200, Buffered(before))
  }

  /** The status line last seen is in force, streaming or not. */
  lemma {:induction false} CodeIsLast(fd: int, es: seq<Event>)
    ensures RunEvents(ARMED(fd), es).0.code == LastCode(es)
    decreases |es|
  {
    if es != [] { CodeIsLast(fd, es[..|es| - 1]); }
  }

  lemma BufferedNext(es: seq<Event>, k: nat)
    requires k + 1 < |es|
    ensures var e, before := es[|es| - 1], Buffered(es[..|es| - 1][k + 1..]);
            Buffered(es[k + 1..]) == if e.HeaderCall? then EditHeaders(before, e.op) else before
  {
    var late := es[k + 1..];
    assert late[..|late| - 1] == es[..|es| - 1][k + 1..] && late[|late| - 1] == es[|es| - 1];
  }

  lemma EngagedHeaders(c: Capture, e: Event)
    requires c.engaged
    ensures OnEvent(c, e).0.headers == if e.HeaderCall? then EditHeaders(c.headers, e.op) else c.headers
  {
  }

  lemma OpenedHeaders(c: Capture, e: Event)
    requires c.fd >= 0 && !c.engaged && (e.Flush? || (e.Write? && e.slice != [] && WantsStreaming(c.headers)))
    ensures OnEvent(c, e).0.engaged && OnEvent(c, e).0.headers == []
  {
  }

  /** The header buffer starts over with the opening event. */
  lemma {:induction false} HeadersSince(fd: int, es: seq<Event>, k: nat)
    requires fd >= 0 && k < |es| && Quiet(es[..k]) && Opens(es[k], es[..k])
    ensures RunEvents(ARMED(fd), es).0.engaged && RunEvents(ARMED(fd), es).0.headers == Buffered(es[k + 1..])
    decreases |es|
  {
    var n := |es| - 1;
    var rest := es[..n];
    RunStep(ARMED(fd), es);
    if k == n {
      QuietRun(fd, rest);
      WantsStreamingIff(Buffered(rest));
      OpenedHeaders(RunEvents(ARMED(fd), rest).0, es[n]);
    } else {
      assert rest[k] == es[k] && rest[..k] == es[..k];
      HeadersSince(fd, rest, k);
      EventKeeps(RunEvents(ARMED(fd), rest).0, es[n]);
      EngagedHeaders(RunEvents(ARMED(fd), rest).0, es[n]);
      BufferedNext(es, k);
    }
  }

  /** The opening event sends the headers frame. */
  lemma OpenStep(fd: int, es: seq<Event>)
    requires fd >= 0 && es != [] && Opens(es[|es| - 1], es[..|es| - 1])
    requires var (m, f) := RunEvents(ARMED(fd), es[..|es| - 1]);
             !m.engaged && f == [] && m.fd == fd && m.headers == Buffered(es[..|es| - 1]) &&
               m.code == LastCode(es[..|es| - 1])
    ensures var (c, fs) := RunEvents(ARMED(fd), es);
            c.engaged && fs != [] && fs[0] == Opening(es[..|es| - 1], es[|es| - 1].sg)
  {
    RunStep(ARMED(fd), es);
    WantsStreamingIff(Buffered(es[..|es| - 1]));
    EventOpens(RunEvents(ARMED(fd), es[..|es| - 1]).0, es[|es| - 1]);
    EffectiveStatus(RunEvents(ARMED(fd), es[..|es| - 1]).0, es[|es| - 1].sg);
  }

  lemma StaysOpen(fd: int, es: seq<Event>)
    requires es != [] && RunEvents(ARMED(fd), es[..|es| - 1]).0.engaged && RunEvents(ARMED(fd), es[..|es| - 1]).1 != []
    ensures var (c, fs) := RunEvents(ARMED(fd), es);
            c.engaged && fs != [] && fs[0] == RunEvents(ARMED(fd), es[..|es| - 1]).1[0]
  {
    RunStep(ARMED(fd), es);
    EventKeeps(RunEvents(ARMED(fd), es[..|es| - 1]).0, es[|es| - 1]);
  }

  /** A request with a descriptor is streaming after any events if and only if one of them opened the stream;
      then its first frame holds the status and headers in force before the first that did. */
  lemma {:induction false} EngagesAtFirstOpening(fd: int, es: seq<Event>) returns (k: nat)
    requires fd >= 0
    ensures RunEvents(ARMED(fd), es).0.engaged <==> !Quiet(es)
    ensures !Quiet(es) ==>
              var fs := RunEvents(ARMED(fd), es).1;
              && k < |es| && Quiet(es[..k]) && Opens(es[k], es[..k])
              && fs != []
              && var code, engine := LastCode(es[..k]), es[k].sg;
                 var status :=
                   if code != 200 then code else if engine.Some? && engine.value > 0 then engine.value % 65536 else 200;
                 fs[0] == Headers(status, Buffered(es[..k]))
    decreases |es|
  {
    k := 0;
    if Quiet(es) {
      QuietRun(fd, es);
    } else {
      var n := |es| - 1;
      var rest := es[..n];
      QuietStep(es);
      if Quiet(rest) {
        k := n;
        QuietRun(fd, rest);
        OpenStep(fd, es);
      } else {
        k := EngagesAtFirstOpening(fd, rest);
        assert rest[k] == es[k] && rest[..k] == es[..k];
        StaysOpen(fd, es);
      }
    }
  }

  /** A request nothing opened goes out whole at the end: its last status, its headers, all it wrote as one chunk. */
  lemma BufferedResponse(fd: int, es: seq<Event>, ok: bool, sg: Option<nat>)
    requires fd < 0 || Quiet(es)
    ensures var (c, fs) := RunEvents(ARMED(fd), es);
            var code := LastCode(es);
            var status := if code != 200 then code else if sg.Some? && sg.value > 0 then sg.value % 65536 else 200;
            OnPipe(c, fs, ok, sg) == [Headers(status, Buffered(es))] + ChunkIf(Written(es)) + [End(ok)]
  {
    QuietRun(fd, es);
    EffectiveStatus(RunEvents(ARMED(fd), es).0, sg);
    Lossless(fd, es);
    BufferIsWritten(RunEvents(ARMED(fd), es).0);
  }

  lemma BufferIsWritten(c: Capture)
    ensures Carried(c, []) == c.buffer
  {
  }

  /** The first frame on the pipe, streamed or buffered, settled before event `k`: the first that opens the stream, or
      the end of the request when none does. */
  lemma FirstFrame(fd: int, es: seq<Event>, ok: bool, sg: Option<nat>) returns (k: nat)
    ensures k <= |es| && (k < |es| <==> fd >= 0 && !Quiet(es))
    ensures k < |es| ==> Quiet(es[..k]) && Opens(es[k], es[..k])
    ensures var (c, fs) := RunEvents(ARMED(fd), es);
            var all := OnPipe(c, fs, ok, sg);
            all != [] && all[0] == Opening(es[..k], if k < |es| then es[k].sg else sg)
  {
    if fd >= 0 && !Quiet(es) {
      k := EngagesAtFirstOpening(fd, es);
    } else {
      k := |es|;
      assert es[..k] == es;
      BufferedResponse(fd, es, ok, sg);
    }
  }

  /** End to end, for every request: the reader decodes exactly the bytes PHP wrote, with the headers in force when the
      response was settled and with the last status line's code, or if that is 200 the engine's code, or 200; a failed
      request with a status from 200 to 399 becomes 500. */
  lemma ResponseDelivered(fd: int, es: seq<Event>, ok: bool, sg: Option<nat>, tail: Bytes) returns (k: nat)
    requires var (c, fs) := RunEvents(ARMED(fd), es); forall f :: f in OnPipe(c, fs, ok, sg) ==> Fits(f)
    ensures k <= |es| && (k < |es| <==> fd >= 0 && !Quiet(es))
    ensures k < |es| ==> Quiet(es[..k]) && Opens(es[k], es[..k])
    ensures var (c, fs) := RunEvents(ARMED(fd), es);
            var code, engine, hs := LastCode(es[..k]), if k < |es| then es[k].sg else sg, Buffered(es[..k]);
            var sent :=
              if code != 200 then code else if engine.Some? && engine.value > 0 then engine.value % 65536 else 200;
            var status := if !ok && 200 <= sent < 400 then 500 else sent;
            Decode(EncodeAll(OnPipe(c, fs, ok, sg)) + tail, None, []) ==
            if |hs| <= 1024 then Some((Response(status, hs, Written(es)), tail)) else None
  {
    k := FirstFrame(fd, es, ok, sg);
    ResponseReassembled(fd, es, ok, sg, tail);
  }
}
