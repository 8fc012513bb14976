/**
 The `__TURBINE_*__` response envelope: the documented emission and the parser that finds it in a
 worker's output, possibly after noise.
 */
module Envelope {
  import opened Util
  import opened Numerals
  import Tar

  type Header = (Bytes, Bytes)

  const TAB: byte := '\t' as int
  const LF: byte := '\n' as int
  const CR: byte := '\r' as int

  // "__TURBINE_STATUS__\t", "__TURBINE_HEADER__\t", "__TURBINE_BODY__\n"
  const STATUS: Bytes := [95, 95, 84, 85, 82, 66, 73, 78, 69, 95, 83, 84, 65, 84, 85, 83, 95, 95, 9]
  const HEADER: Bytes := [95, 95, 84, 85, 82, 66, 73, 78, 69, 95, 72, 69, 65, 68, 69, 82, 95, 95, 9]
  const BODY: Bytes := [95, 95, 84, 85, 82, 66, 73, 78, 69, 95, 66, 79, 68, 89, 95, 95, 10]

  // ------------------------------------------------------------------ searching

  predicate At(s: Bytes, m: Bytes, i: int) { 0 <= i && i + |m| <= |s| && s[i..i + |m|] == m }

  predicate Lacks(s: Bytes, m: Bytes) { forall i :: 0 <= i <= |s| ==> !At(s, m, i) }

  /** `windows(..).position(..)` from index `i` on. */
  function FindFrom(s: Bytes, m: Bytes, i: nat): (r: Option<nat>)
    ensures r.Some? ==> r.value + |m| <= |s|
    decreases |s| - i
  {
    if i + |m| > |s| then None else if At(s, m, i) then Some(i) else FindFrom(s, m, i + 1)
  }

  /** The first occurrence. */
  method Find(s: Bytes, m: Bytes) returns (r: Option<nat>)
    ensures r == FindFrom(s, m, 0)
  {
    var i := 0;
    while i + |m| <= |s|
      invariant FindFrom(s, m, i) == FindFrom(s, m, 0)
      decreases |s| - i
    {
      if s[i..i + |m|] == m { return Some(i); }
      i := i + 1;
    }
    r := None;
  }

  lemma {:induction false} FindFirst(s: Bytes, m: Bytes, i: nat)
    ensures match FindFrom(s, m, i)
            case Some(k) => k >= i && At(s, m, k) && forall j :: i <= j < k ==> !At(s, m, j)
            case None => forall j :: i <= j ==> !At(s, m, j)
    decreases |s| - i
  {
    if i + |m| <= |s| && !At(s, m, i) { FindFirst(s, m, i + 1); }
  }

  /** The last byte of the marker occurs nowhere else in it, so it cannot overlap itself. */
  predicate Borderless(m: Bytes) { m != [] && forall i :: 0 <= i < |m| - 1 ==> m[i] != m[|m| - 1] }

  lemma MarkersBorderless()
    ensures Borderless(STATUS) && Borderless(BODY)
  {
  }

  lemma MarkersSpelled()
    ensures STATUS == Ascii("__TURBINE_STATUS__\t") && HEADER == Ascii("__TURBINE_HEADER__\t")
    ensures BODY == Ascii("__TURBINE_BODY__\n")
  {
  }

  /** A marker placed after text that lacks it is first found where it was placed, and only then. */
  lemma FindPlaced(a: Bytes, m: Bytes, b: Bytes)
    requires Borderless(m)
    ensures FindFrom(a + m + b, m, 0) == Some(|a|) <==> Lacks(a, m)
  {
    var s := a + m + b;
    FindFirst(s, m, 0);
    assert At(s, m, |a|);
    if Lacks(a, m) {
      forall j | 0 <= j < |a| ensures !At(s, m, j) {
        if j + |m| <= |a| {
          assert s[j..j + |m|] == a[j..j + |m|];
          assert !At(a, m, j);
        } else {
          assert s[j..j + |m|][|m| - 1] == s[j + |m| - 1] == m[j + |m| - 1 - |a|] != m[|m| - 1];
        }
      }
    } else {
      var i :| 0 <= i <= |a| && At(a, m, i);
      assert s[i..i + |m|] == a[i..i + |m|];
      assert At(s, m, i) && i < |a|;
    }
  }

  // ------------------------------------------------------------------ lines, fields, numbers

  function StripCr(s: Bytes): Bytes { if s != [] && s[|s| - 1] == CR then s[..|s| - 1] else s }

  /** `str::lines`. */
  function Lines(s: Bytes): seq<Bytes>
    decreases |s|
  {
    if s == [] then []
    else
      var k := IndexOf(s, LF);
      if k == |s| then [s] else [StripCr(s[..k])] + Lines(s[k + 1..])
  }

  function Trim(s: Bytes): Bytes { Tar.Trim(s, Tar.IsSpace) }

  /** `parse::<u16>()`. */
  function ParseU16(s: Bytes): Option<u16> {
    match Numerals.Parse(s, Decimal)
    case Some(n) => if n < 65536 then Some(n) else None
    case None => None
  }

  /** `parse::<u16>().unwrap_or(200)`. */
  function ParseStatus(s: Bytes): u16 {
    match ParseU16(s)
    case Some(n) => n
    case None => 200
  }

  /** Exactly the texts of 16-bit numbers parse. */
  lemma ParseU16Iff(s: Bytes, n: u16)
    ensures ParseU16(s) == Some(n) <==> Denotes(s, n, Decimal)
  {
    ParseIff(s, n, Decimal);
  }

  // ------------------------------------------------------------------ parser

  datatype Meta = Meta(status: u16, headers: seq<Header>)

  /** One metadata line. */
  function OnLine(m: Meta, line: Bytes): Meta {
    if STATUS <= line then m.(status := ParseStatus(Trim(line[|STATUS|..])))
    else if HEADER <= line then
      var rest := line[|HEADER|..];
      var k := IndexOf(rest, TAB);
      if k == |rest| then m else m.(headers := m.headers + [(Trim(rest[..k]), Trim(rest[k + 1..]))])
    else m
  }

  /** A status line sets the number it holds, between any white space, and 200 when it holds none; the headers stay. */
  lemma StatusLineIff(m: Meta, s: Bytes, n: u16)
    ensures var read := OnLine(m, STATUS + s);
            && read == m.(status := read.status)
            && (read.status == n <==>
                || Denotes(Trim(s), n, Decimal)
                || (n == 200 && forall v: u16 :: !Denotes(Trim(s), v, Decimal)))
  {
    assert (STATUS + s)[|STATUS|..] == s;
    forall v: u16 ensures ParseU16(Trim(s)) == Some(v) <==> Denotes(Trim(s), v, Decimal) { ParseU16Iff(Trim(s), v); }
  }

  lemma SplitAtTab(name: Bytes, value: Bytes)
    requires TAB !in name
    ensures var rest := name + [TAB] + value;
            IndexOf(rest, TAB) == |name| && rest[..|name|] == name && rest[|name| + 1..] == value
  {
    var rest := name + [TAB] + value;
    assert forall i :: 0 <= i < |name| ==> rest[i] in name;
    assert rest[|name|] == TAB;
  }

  /** A header line adds its two halves around the first tab, trimmed; without a tab, as any line without a marker, it
      is ignored. */
  lemma HeaderLineIff(m: Meta, name: Bytes, value: Bytes)
    requires TAB !in name
    ensures OnLine(m, HEADER + (name + [TAB] + value)) == m.(headers := m.headers + [(Trim(name), Trim(value))])
    ensures OnLine(m, HEADER + name) == m
  {
    var rest := name + [TAB] + value;
    var line := HEADER + rest;
    assert line[10] == (HEADER + name)[10] == HEADER[10] != STATUS[10];
    assert line[|HEADER|..] == rest && (HEADER + name)[|HEADER|..] == name;
    SplitAtTab(name, value);
  }

  lemma TrimCr(s: Bytes)
    ensures Trim(s + [CR]) == Trim(s)
  {
    var a, c := Tar.TrimExact(s, Tar.IsSpace);
    assert s + [CR] == a + (Trim(s) + (c + [CR]));
    Tar.TrimBack(a, Trim(s), c + [CR], Tar.IsSpace);
  }

  lemma MarkerCr(m: Bytes, line: Bytes)
    requires m != [] && m[|m| - 1] != CR
    ensures m <= line + [CR] <==> m <= line
  {
    if |m| <= |line| {
      assert (line + [CR])[..|m|] == line[..|m|];
    } else if |m| == |line| + 1 {
      assert (line + [CR])[|m| - 1] == CR;
    }
  }

  lemma TabCr(rest: Bytes)
    ensures TAB in rest ==> IndexOf(rest + [CR], TAB) == IndexOf(rest, TAB) < |rest|
    ensures TAB !in rest ==> IndexOf(rest + [CR], TAB) == |rest| + 1
  {
    var s := rest + [CR];
    assert forall i :: 0 <= i < |rest| ==> s[i] == rest[i];
    if TAB !in rest { assert TAB !in s; }
  }

  /** A carriage return before the line break changes nothing. */
  lemma CrIgnored(m: Meta, line: Bytes)
    ensures OnLine(m, line + [CR]) == OnLine(m, line)
  {
    MarkerCr(STATUS, line);
    MarkerCr(HEADER, line);
    if STATUS <= line {
      assert (line + [CR])[|STATUS|..] == line[|STATUS|..] + [CR];
      TrimCr(line[|STATUS|..]);
    } else if HEADER <= line {
      var rest := line[|HEADER|..];
      assert (line + [CR])[|HEADER|..] == rest + [CR];
      TabCr(rest);
      if TAB in rest {
        var k := IndexOf(rest, TAB);
        assert (rest + [CR])[..k] == rest[..k] && (rest + [CR])[k + 1..] == rest[k + 1..] + [CR];
        TrimCr(rest[k + 1..]);
      }
    }
  }

  lemma OtherLine(m: Meta, line: Bytes)
    requires !(STATUS <= line) && !(HEADER <= line)
    ensures OnLine(m, line) == m
  {
  }

  function OnLines(m: Meta, lines: seq<Bytes>): Meta
    decreases |lines|
  {
    if lines == [] then m else OnLines(OnLine(m, lines[0]), lines[1..])
  }

  datatype Parsed = Parsed(status: u16, headers: seq<Header>, body: Bytes)

  /** `utf8` tells whether a byte string is valid UTF-8. */
  function Parse(wire: Bytes, utf8: Bytes -> bool): Option<Parsed> {
    match FindFrom(wire, STATUS, 0)
    case None => None
    case Some(start) =>
      var envelope := wire[start..];
      match FindFrom(envelope, BODY, 0)
      case None => None
      case Some(k) =>
        if !utf8(envelope[..k]) then None
        else
          var m := OnLines(Meta(200, []), Lines(envelope[..k]));
          Some(Parsed(m.status, m.headers, envelope[k + |BODY|..]))
  }

  method ReadLines(lines: seq<Bytes>) returns (m: Meta)
    ensures m == OnLines(Meta(200, []), lines)
  {
    m := Meta(200, []);
    var i := 0;
    while i < |lines|
      invariant 0 <= i <= |lines|
      invariant OnLines(m, lines[i..]) == OnLines(Meta(200, []), lines)
    {
      assert lines[i..][1..] == lines[i + 1..];
      m := OnLine(m, lines[i]);
      i := i + 1;
    }
  }

  method ParseEnvelope(wire: Bytes, utf8: Bytes -> bool) returns (r: Option<Parsed>)
    ensures r == Parse(wire, utf8)
  {
    var start := Find(wire, STATUS);
    if start.None? { return None; }
    var envelope := wire[start.value..];
    var k := Find(envelope, BODY);
    if k.None? { return None; }
    if !utf8(envelope[..k.value]) { return None; }
    var m := ReadLines(Lines(envelope[..k.value]));
    r := Some(Parsed(m.status, m.headers, envelope[k.value + |BODY|..]));
  }

  // ------------------------------------------------------------------ emission and round trip

  function StatusLine(status: u16): Bytes { STATUS + Shortest(status, Decimal) }

  function HeaderLine(h: Header): Bytes { HEADER + h.0 + [TAB] + h.1 }

  function EmitLines(lines: seq<Bytes>): Bytes {
    if lines == [] then [] else lines[0] + [LF] + EmitLines(lines[1..])
  }

  function HeaderLines(hs: seq<Header>): seq<Bytes> {
    if hs == [] then [] else [HeaderLine(hs[0])] + HeaderLines(hs[1..])
  }

  /** The metadata a worker emits. */
  function EmitMeta(status: u16, hs: seq<Header>): Bytes { EmitLines([StatusLine(status)] + HeaderLines(hs)) }

  function Emit(status: u16, hs: seq<Header>, body: Bytes): Bytes { EmitMeta(status, hs) + BODY + body }

  /** Names and values that survive: trimmed, on one line, and no tab in the name. */
  predicate Safe(h: Header) {
    Trim(h.0) == h.0 && Trim(h.1) == h.1 && LF !in h.0 && LF !in h.1 && TAB !in h.0
  }

  /** Trimming takes exactly the tabs, line breaks and blanks off both ends. */
  lemma TrimExact(s: Bytes) returns (a: Bytes, c: Bytes)
    ensures s == a + (Trim(s) + c)
    ensures forall b :: b in a + c ==> b in {9, 10, 11, 12, 13, 32}
    ensures Trim(s) != [] ==> Trim(s)[0] !in {9, 10, 11, 12, 13, 32}
    ensures Trim(s) != [] ==> Trim(s)[|Trim(s)| - 1] !in {9, 10, 11, 12, 13, 32}
  {
    a, c := Tar.TrimExact(s, Tar.IsSpace);
  }

  /** Trimming takes only from the ends, and twice is once. */
  lemma TrimMeaning(s: Bytes)
    ensures forall b :: b in Trim(s) ==> b in s
    ensures Trim(Trim(s)) == Trim(s)
    ensures Trim(s) == s <==> s == [] || (!Tar.IsSpace(s[0]) && !Tar.IsSpace(s[|s| - 1]))
  {
    var a, c := Tar.TrimExact(s, Tar.IsSpace);
    if Trim(s) != [] { Tar.TrimNone(Trim(s), Tar.IsSpace); }
    if s != [] && !Tar.IsSpace(s[0]) && !Tar.IsSpace(s[|s| - 1]) { Tar.TrimNone(s, Tar.IsSpace); }
  }

  lemma FirstLine(l: Bytes, rest: Bytes)
    requires LF !in l && StripCr(l) == l
    ensures Lines(l + [LF] + rest) == [l] + Lines(rest)
  {
    var s := l + [LF] + rest;
    assert s[|l|] == LF && forall i :: 0 <= i < |l| ==> s[i] in l;
    assert IndexOf(s, LF) == |l|;
    assert s[..|l|] == l && s[|l| + 1..] == rest;
  }

  lemma {:induction false} LinesEmitted(lines: seq<Bytes>)
    requires forall l :: l in lines ==> LF !in l && StripCr(l) == l
    ensures Lines(EmitLines(lines)) == lines
    decreases |lines|
  {
    if lines != [] {
      FirstLine(lines[0], EmitLines(lines[1..]));
      LinesEmitted(lines[1..]);
      assert lines == [lines[0]] + lines[1..];
    }
  }

  lemma StatusLineRead(m: Meta, status: u16)
    ensures OnLine(m, StatusLine(status)) == m.(status := status)
  {
    var d := Shortest(status, Decimal);
    TrimMeaning(d);
    assert ZeroDigits(0) + d == d;
    StatusLineIff(m, d, status);
  }

  lemma StatusLineClean(status: u16)
    ensures LF !in StatusLine(status) && StripCr(StatusLine(status)) == StatusLine(status)
  {
    var d := Shortest(status, Decimal);
    assert LF !in STATUS && LF !in d;
    assert StatusLine(status)[|StatusLine(status)| - 1] == d[|d| - 1];
  }

  lemma HeaderLineClean(h: Header)
    requires Safe(h)
    ensures LF !in HeaderLine(h) && StripCr(HeaderLine(h)) == HeaderLine(h)
  {
    var line := HeaderLine(h);
    TrimMeaning(h.1);
    if h.1 == [] { assert line[|line| - 1] == TAB; } else { assert line[|line| - 1] == h.1[|h.1| - 1]; }
  }

  lemma HeaderLineRead(m: Meta, h: Header)
    requires Safe(h)
    ensures OnLine(m, HeaderLine(h)) == m.(headers := m.headers + [h])
  {
    assert HeaderLine(h) == HEADER + (h.0 + [TAB] + h.1);
    HeaderLineIff(m, h.0, h.1);
  }

  lemma ReadOn(m: Meta, line: Bytes, lines: seq<Bytes>, h: Header, hs: seq<Header>)
    requires OnLine(m, line) == m.(headers := m.headers + [h])
    requires OnLines(OnLine(m, line), lines) == OnLine(m, line).(headers := OnLine(m, line).headers + hs)
    ensures OnLines(m, [line] + lines) == m.(headers := m.headers + ([h] + hs))
  {
    assert ([line] + lines)[1..] == lines;
    assert m.headers + [h] + hs == m.headers + ([h] + hs);
  }

  lemma {:induction false} HeaderLinesRead(m: Meta, hs: seq<Header>)
    requires forall h :: h in hs ==> Safe(h)
    ensures OnLines(m, HeaderLines(hs)) == m.(headers := m.headers + hs)
    decreases |hs|
  {
    if hs == [] {
      assert m.headers + hs == m.headers;
    } else {
      var line := HeaderLine(hs[0]);
      HeaderLineRead(m, hs[0]);
      HeaderLinesRead(OnLine(m, line), hs[1..]);
      ReadOn(m, line, HeaderLines(hs[1..]), hs[0], hs[1..]);
      assert [hs[0]] + hs[1..] == hs;
    }
  }

  /** No emitted line breaks or ends in a carriage return. */
  lemma {:induction false} HeaderLinesClean(hs: seq<Header>)
    requires forall h :: h in hs ==> Safe(h)
    ensures forall l :: l in HeaderLines(hs) ==> LF !in l && StripCr(l) == l
    decreases |hs|
  {
    if hs != [] {
      HeaderLineClean(hs[0]);
      HeaderLinesClean(hs[1..]);
    }
  }

  lemma MetaRead(status: u16, hs: seq<Header>)
    requires forall h :: h in hs ==> Safe(h)
    ensures OnLines(Meta(200, []), Lines(EmitMeta(status, hs))) == Meta(status, hs)
  {
    var lines := [StatusLine(status)] + HeaderLines(hs);
    StatusLineRead(Meta(200, []), status);
    StatusLineClean(status);
    HeaderLinesClean(hs);
    LinesEmitted(lines);
    assert lines[1..] == HeaderLines(hs);
    HeaderLinesRead(Meta(status, []), hs);
    assert [] + hs == hs;
  }

  lemma NoBreakBefore(s: Bytes, k: nat)
    requires k <= |s| && forall i :: 0 <= i < k ==> s[i] != LF
    ensures LF !in s[..k] && LF !in StripCr(s[..k])
  {
  }

  lemma {:induction false} LinesLfFree(s: Bytes)
    ensures forall l :: l in Lines(s) ==> LF !in l
    decreases |s|
  {
    if s != [] {
      var k := IndexOf(s, LF);
      NoBreakBefore(s, k);
      if k < |s| {
        LinesLfFree(s[k + 1..]);
      } else {
        assert s[..k] == s;
      }
    }
  }

  /** Whatever the parser reports is safe. */
  lemma {:induction false} ParsedSafe(m: Meta, lines: seq<Bytes>)
    requires (forall h :: h in m.headers ==> Safe(h)) && forall l :: l in lines ==> LF !in l
    ensures forall h :: h in OnLines(m, lines).headers ==> Safe(h)
    decreases |lines|
  {
    if lines != [] {
      LineSafe(m, lines[0]);
      ParsedSafe(OnLine(m, lines[0]), lines[1..]);
    }
  }

  lemma LineSafe(m: Meta, line: Bytes)
    requires (forall h :: h in m.headers ==> Safe(h)) && LF !in line
    ensures forall h :: h in OnLine(m, line).headers ==> Safe(h)
  {
    if !(STATUS <= line) && HEADER <= line {
      var rest := line[|HEADER|..];
      var j := IndexOf(rest, TAB);
      TrimMeaning(rest[..j]);
      if j < |rest| { TrimMeaning(rest[j + 1..]); }
    }
  }

  lemma EmitStarts(status: u16, hs: seq<Header>)
    ensures STATUS <= EmitMeta(status, hs)
  {
  }

  /** The parser finds the envelope right after the noise. */
  lemma EnvelopeFound(noise: Bytes, e: Bytes)
    requires Lacks(noise, STATUS) && STATUS <= e
    ensures FindFrom(noise + e, STATUS, 0) == Some(|noise|)
    ensures (noise + e)[|noise|..] == e
  {
    MarkersBorderless();
    assert noise + e == noise + STATUS + e[|STATUS|..];
    FindPlaced(noise, STATUS, e[|STATUS|..]);
  }

  /** For every status, header list, body (markers inside it included) and noise that lacks the status marker:
      parsing the emission gives back exactly that status, those headers and that body if and only if every
      header is safe, the metadata lacks the body marker, and the metadata is valid UTF-8. */
  lemma EnvelopeIff(noise: Bytes, status: u16, hs: seq<Header>, body: Bytes, utf8: Bytes -> bool)
    requires Lacks(noise, STATUS)
    ensures Parse(noise + Emit(status, hs, body), utf8) == Some(Parsed(status, hs, body)) <==>
            (forall h :: h in hs ==> Safe(h)) && Lacks(EmitMeta(status, hs), BODY) && utf8(EmitMeta(status, hs))
  {
    MarkersBorderless();
    var meta := EmitMeta(status, hs);
    var e := Emit(status, hs, body);
    EmitStarts(status, hs);
    assert meta <= e;
    EnvelopeFound(noise, e);
    FindPlaced(meta, BODY, body);
    FindFirst(e, BODY, 0);
    assert At(e, BODY, |meta|);
    var k := FindFrom(e, BODY, 0).value;
    if k == |meta| {
      assert e[..k] == meta && e[k + |BODY|..] == body;
      LinesLfFree(meta);
      ParsedSafe(Meta(200, []), Lines(meta));
      if forall h :: h in hs ==> Safe(h) { MetaRead(status, hs); }
    } else {
      assert |e[k + |BODY|..]| != |body|;
    }
  }
}
