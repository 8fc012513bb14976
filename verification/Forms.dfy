/**
 Form decoding and PHP literal escaping: percent/plus decoding, the key-value split, and the
 escaping of strings placed between PHP single quotes.
 */
module Forms {
  import opened Util

  const PLUS: byte := '+' as int
  const PERCENT: byte := '%' as int
  const AMP: byte := '&' as int
  const EQ: byte := '=' as int
  const SPACE: byte := ' ' as int
  const QUOTE: byte := '\'' as int
  const BACKSLASH: byte := '\\' as int

  // ------------------------------------------------------------------ percent decoding

  function HexDigit(b: byte): (r: Option<nat>)
    ensures r.Some? ==> r.value < 16
  {
    if 48 <= b <= 57 then Some(b - 48)
    else if 97 <= b <= 102 then Some(b - 97 + 10)
    else if 65 <= b <= 70 then Some(b - 65 + 10)
    else None
  }

  predicate IsTriplet(s: Bytes) { |s| >= 3 && s[0] == PERCENT && HexDigit(s[1]).Some? && HexDigit(s[2]).Some? }

  function HexValue(hi: byte, lo: byte): byte
    requires HexDigit(hi).Some? && HexDigit(lo).Some?
  {
    HexDigit(hi).value * 16 + HexDigit(lo).value
  }

  function UrlDecode(s: Bytes): Bytes {
    if s == [] then []
    else if s[0] == PLUS then [SPACE] + UrlDecode(s[1..])
    else if IsTriplet(s) then [HexValue(s[1], s[2])] + UrlDecode(s[3..])
    else [s[0]] + UrlDecode(s[1..])
  }

  /** The next output byte and how much input it takes. */
  lemma DecodeNext(bytes: Bytes, i: nat, out: Bytes)
    requires i < |bytes|
    ensures bytes[i] == PLUS ==>
              out + UrlDecode(bytes[i..]) == (out + [SPACE]) + UrlDecode(bytes[i + 1..])
    ensures bytes[i] != PLUS && IsTriplet(bytes[i..]) ==>
              out + UrlDecode(bytes[i..]) == (out + [HexValue(bytes[i + 1], bytes[i + 2])]) + UrlDecode(bytes[i + 3..])
    ensures bytes[i] != PLUS && !IsTriplet(bytes[i..]) ==>
              out + UrlDecode(bytes[i..]) == (out + [bytes[i]]) + UrlDecode(bytes[i + 1..])
  {
    var ahead := bytes[i..];
    assert ahead[1..] == bytes[i + 1..];
    if |ahead| >= 3 { assert ahead[3..] == bytes[i + 3..]; }
  }

  method DecodeUrl(bytes: Bytes) returns (out: Bytes)
    ensures out == UrlDecode(bytes)
  {
    out := [];
    var i := 0;
    ghost var all := UrlDecode(bytes);
    assert bytes[0..] == bytes;
    while i < |bytes|
      invariant 0 <= i <= |bytes|
      invariant out + UrlDecode(bytes[i..]) == all
    {
      DecodeNext(bytes, i, out);
      if bytes[i] == PLUS {
        out, i := out + [SPACE], i + 1;
      } else if bytes[i] == PERCENT && i + 2 < |bytes| {
        var hi, lo := HexDigit(bytes[i + 1]), HexDigit(bytes[i + 2]);
        if hi.Some? && lo.Some? {
          out, i := out + [hi.value * 16 + lo.value], i + 3;
        } else {
          out, i := out + [PERCENT], i + 1;
        }
      } else {
        out, i := out + [bytes[i]], i + 1;
      }
    }
  }

  // ------------------------------------------------------------------ the encodings there are

  type Nibble = n: int | 0 <= n < 16

  /** The hexadecimal digits of section 2.1 of RFC 3986, 0-9 a-f and 0-9 A-F. */
  const LOWER: Bytes := [48, 49, 50, 51, 52, 53, 54, 55, 56, 57, 97, 98, 99, 100, 101, 102]
  const UPPER: Bytes := [48, 49, 50, 51, 52, 53, 54, 55, 56, 57, 65, 66, 67, 68, 69, 70]

  /** The decoder knows exactly those digits, by their values. */
  lemma HexDigitIff(b: byte, n: Nibble)
    ensures HexDigit(b) == Some(n) <==> b == LOWER[n] || b == UPPER[n]
    ensures HexDigit(b).None? <==> b !in LOWER && b !in UPPER
  {
    if 48 <= b <= 57 {
      assert LOWER[b - 48] == b;
    } else if 97 <= b <= 102 {
      assert LOWER[b - 87] == b;
    } else if 65 <= b <= 70 {
      assert UPPER[b - 55] == b;
    }
  }

  /** One encoded byte, in any of the ways an encoder may choose: as itself, as a plus, or as a triplet of two digits,
      each in either case. */
  datatype Piece = Literal(b: byte) | Blank | Hex(hi: Nibble, hiUpper: bool, lo: Nibble, loUpper: bool)

  function Digit(n: Nibble, upper: bool): byte { if upper then UPPER[n] else LOWER[n] }

  predicate ValidPiece(p: Piece) { p.Literal? ==> p.b != PLUS && p.b != PERCENT && p.b != AMP }

  function TextOf(p: Piece): Bytes {
    match p
    case Literal(b) => [b]
    case Blank => [PLUS]
    case Hex(hi, hiUpper, lo, loUpper) => [PERCENT, Digit(hi, hiUpper), Digit(lo, loUpper)]
  }

  function ByteOf(p: Piece): byte {
    match p
    case Literal(b) => b
    case Blank => SPACE
    case Hex(hi, _, lo, _) => 16 * hi + lo
  }

  predicate ValidPieces(ps: seq<Piece>) { forall i :: 0 <= i < |ps| ==> ValidPiece(ps[i]) }

  function Text(ps: seq<Piece>): Bytes { if ps == [] then [] else TextOf(ps[0]) + Text(ps[1..]) }

  function Meaning(ps: seq<Piece>): Bytes { if ps == [] then [] else [ByteOf(ps[0])] + Meaning(ps[1..]) }

  predicate StartsTriplet(s: Bytes) {
    |s| >= 3 && s[0] == PERCENT && (s[1] in LOWER || s[1] in UPPER) && (s[2] in LOWER || s[2] in UPPER)
  }

  lemma TripletIff(s: Bytes)
    ensures IsTriplet(s) <==> StartsTriplet(s)
  {
    if |s| >= 3 {
      HexDigitIff(s[1], 0);
      HexDigitIff(s[2], 0);
    }
  }

  /** Every pair of digits is a triplet of their value, and every triplet is such a pair. */
  lemma DigitsRead(hi: Nibble, hiUpper: bool, lo: Nibble, loUpper: bool)
    ensures HexDigit(Digit(hi, hiUpper)) == Some(hi) && HexDigit(Digit(lo, loUpper)) == Some(lo)
  {
    HexDigitIff(Digit(hi, hiUpper), hi);
    HexDigitIff(Digit(lo, loUpper), lo);
  }

  lemma DigitOf(b: byte) returns (n: Nibble, upper: bool)
    requires HexDigit(b).Some?
    ensures Digit(n, upper) == b
  {
    n := HexDigit(b).value;
    HexDigitIff(b, n);
    upper := b == UPPER[n];
  }

  /** What the decoder tolerates: any literal but a plus, a percent sign only where no triplet starts. */
  predicate Tolerated(ps: seq<Piece>) {
    ps == [] || (Tolerated(ps[1..]) && (ps[0].Literal? ==> ps[0].b != PLUS && !StartsTriplet(Text(ps))))
  }

  /** Every byte string is tolerated text: decoding is described on all inputs. */
  lemma {:induction false} EveryTextTolerated(s: Bytes) returns (ps: seq<Piece>)
    ensures Tolerated(ps) && Text(ps) == s
    decreases |s|
  {
    if s == [] {
      ps := [];
    } else {
      var p := if s[0] == PLUS then Blank else Literal(s[0]);
      TripletIff(s);
      if s[0] != PLUS && IsTriplet(s) {
        var hi, hiUpper := DigitOf(s[1]);
        var lo, loUpper := DigitOf(s[2]);
        p := Hex(hi, hiUpper, lo, loUpper);
      }
      var rest := EveryTextTolerated(s[|TextOf(p)|..]);
      ps := [p] + rest;
      assert ps[1..] == rest;
      assert Text(ps) == TextOf(p) + s[|TextOf(p)|..] == s;
    }
  }

  lemma DecodesPiece(p: Piece, rest: Bytes)
    requires p.Literal? ==> p.b != PLUS && !StartsTriplet(TextOf(p) + rest)
    ensures UrlDecode(TextOf(p) + rest) == [ByteOf(p)] + UrlDecode(rest)
  {
    var s := TextOf(p) + rest;
    match p {
      case Literal(b) =>
        TripletIff(s);
        assert s[1..] == rest;
      case Blank => assert s[1..] == rest;
      case Hex(hi, hiUpper, lo, loUpper) =>
        DigitsRead(hi, hiUpper, lo, loUpper);
        assert s[3..] == rest;
    }
  }

  /** Tolerated text decodes piece by piece, stray percent signs to themselves. */
  lemma {:induction false} DecodesTolerated(ps: seq<Piece>)
    requires Tolerated(ps)
    ensures UrlDecode(Text(ps)) == Meaning(ps)
    decreases |ps|
  {
    if ps != [] {
      DecodesTolerated(ps[1..]);
      DecodesPiece(ps[0], Text(ps[1..]));
    }
  }

  lemma {:induction false} ValidTolerated(ps: seq<Piece>)
    requires ValidPieces(ps)
    ensures Tolerated(ps)
    decreases |ps|
  {
    if ps != [] { ValidTolerated(ps[1..]); }
  }

  /** Every valid encoding decodes to what it encodes. */
  lemma DecodesToMeaning(ps: seq<Piece>)
    requires ValidPieces(ps)
    ensures UrlDecode(Text(ps)) == Meaning(ps)
  {
    ValidTolerated(ps);
    DecodesTolerated(ps);
  }

  /** Every byte string has an encoding without ampersands or equals signs. */
  lemma {:induction false} EncodingExists(raw: Bytes) returns (ps: seq<Piece>)
    ensures ValidPieces(ps) && Meaning(ps) == raw && |ps| == |raw| && forall i :: 0 <= i < |ps| ==> ps[i].Hex?
    decreases |raw|
  {
    if raw == [] {
      ps := [];
    } else {
      var rest := EncodingExists(raw[1..]);
      ps := [Hex(raw[0] / 16, true, raw[0] % 16, true)] + rest;
      assert ps[1..] == rest;
      assert raw == [raw[0]] + raw[1..];
    }
  }

  // ------------------------------------------------------------------ key-value pairs

  /** `split`: always at least one part. */
  function Split(s: Bytes, b: byte): seq<Bytes>
    decreases |s|
  {
    var k := IndexOf(s, b);
    if k == |s| then [s] else [s[..k]] + Split(s[k + 1..], b)
  }

  /** One `key=value` part; None when the key is empty. */
  function ParsePair(part: Bytes): Option<(Bytes, Bytes)> {
    var k := IndexOf(part, EQ);
    if k == 0 then None
    else Some((UrlDecode(part[..k]), if k == |part| then [] else UrlDecode(part[k + 1..])))
  }

  function Collect(parts: seq<Bytes>): seq<(Bytes, Bytes)> {
    if parts == [] then []
    else (match ParsePair(parts[0]) case Some(p) => [p] case None => []) + Collect(parts[1..])
  }

  function ParseUrlencoded(s: Bytes): seq<(Bytes, Bytes)> { if s == [] then [] else Collect(Split(s, AMP)) }

  /** A field as a client may send it: a bare key stands for an empty value. */
  datatype Field = Pair(key: seq<Piece>, value: seq<Piece>) | Bare(key: seq<Piece>)

  predicate ValidField(f: Field) {
    && ValidPieces(f.key) && (forall i :: 0 <= i < |f.key| ==> f.key[i] != Literal(EQ))
    && (f.Pair? ==> ValidPieces(f.value))
  }

  function FieldText(f: Field): Bytes {
    match f
    case Pair(key, value) => Text(key) + [EQ] + Text(value)
    case Bare(key) => Text(key)
  }

  function FieldMeaning(f: Field): (Bytes, Bytes)
    requires ValidField(f)
  {
    (Meaning(f.key), if f.Pair? then Meaning(f.value) else [])
  }

  function Join(parts: seq<Bytes>): Bytes {
    if parts == [] then [] else if |parts| == 1 then parts[0] else parts[0] + [AMP] + Join(parts[1..])
  }

  lemma {:induction false} SplitJoin(parts: seq<Bytes>)
    requires parts != [] && forall p :: p in parts ==> AMP !in p
    ensures Split(Join(parts), AMP) == parts
    decreases |parts|
  {
    var p := parts[0];
    assert p in parts;
    if |parts| == 1 {
      assert IndexOf(p, AMP) == |p|;
    } else {
      var s := Join(parts);
      assert forall i :: 0 <= i < |p| ==> s[i] in p;
      assert s[|p|] == AMP;
      assert IndexOf(s, AMP) == |p|;
      assert s[..|p|] == p && s[|p| + 1..] == Join(parts[1..]);
      SplitJoin(parts[1..]);
      assert parts == [p] + parts[1..];
    }
  }

  lemma PieceAvoids(p: Piece)
    requires ValidPiece(p)
    ensures AMP !in TextOf(p) && (p != Literal(EQ) ==> EQ !in TextOf(p)) && TextOf(p) != []
  {
    if p.Hex? {
      assert AMP !in LOWER && AMP !in UPPER && EQ !in LOWER && EQ !in UPPER;
      assert Digit(p.hi, p.hiUpper) != AMP && Digit(p.lo, p.loUpper) != AMP;
    }
  }

  lemma {:induction false} TextAvoids(ps: seq<Piece>)
    requires ValidPieces(ps)
    ensures AMP !in Text(ps)
    ensures (forall i :: 0 <= i < |ps| ==> ps[i] != Literal(EQ)) ==> EQ !in Text(ps)
    ensures Text(ps) == [] <==> ps == []
    decreases |ps|
  {
    if ps != [] {
      PieceAvoids(ps[0]);
      TextAvoids(ps[1..]);
    }
  }

  /** A field parses to its meaning, and is dropped exactly when its key is empty. */
  lemma FieldParses(f: Field)
    requires ValidField(f)
    ensures ParsePair(FieldText(f)) == (if f.key == [] then None else Some(FieldMeaning(f)))
    ensures AMP !in FieldText(f)
  {
    TextAvoids(f.key);
    var k, s := Text(f.key), FieldText(f);
    assert forall i :: 0 <= i < |k| ==> s[i] in k;
    if f.Pair? {
      TextAvoids(f.value);
      assert s[|k|] == EQ;
      assert s[..|k|] == k && s[|k| + 1..] == Text(f.value);
      DecodesToMeaning(f.value);
    } else {
      assert s[..|k|] == k;
    }
    assert IndexOf(s, EQ) == |k|;
    DecodesToMeaning(f.key);
  }

  predicate ValidFields(fs: seq<Field>) { forall i :: 0 <= i < |fs| ==> ValidField(fs[i]) }

  function Texts(fs: seq<Field>): seq<Bytes> { seq(|fs|, i requires 0 <= i < |fs| => FieldText(fs[i])) }

  /** The pairs with a non-empty key, in order. */
  function Named(fs: seq<Field>): seq<(Bytes, Bytes)>
    requires ValidFields(fs)
  {
    if fs == [] then [] else (if fs[0].key == [] then [] else [FieldMeaning(fs[0])]) + Named(fs[1..])
  }

  lemma {:induction false} CollectFields(fs: seq<Field>)
    requires ValidFields(fs)
    ensures Collect(Texts(fs)) == Named(fs)
    decreases |fs|
  {
    if fs != [] {
      FieldParses(fs[0]);
      assert Texts(fs)[1..] == Texts(fs[1..]);
      CollectFields(fs[1..]);
    }
  }

  /** For every valid encoding of every list of fields, parsing returns exactly the pairs with non-empty keys,
      decoded and in order. */
  lemma FormRoundTrip(fs: seq<Field>)
    requires ValidFields(fs)
    ensures ParseUrlencoded(Join(Texts(fs))) == Named(fs)
  {
    CollectFields(fs);
    if fs != [] {
      forall p | p in Texts(fs) ensures AMP !in p {
        var i :| 0 <= i < |fs| && p == FieldText(fs[i]);
        FieldParses(fs[i]);
      }
      SplitJoin(Texts(fs));
      if Join(Texts(fs)) == [] {
        JoinEmpty(Texts(fs));
        FieldParses(fs[0]);
        assert Split([], AMP) == [[]];
      }
    }
  }

  lemma JoinEmpty(parts: seq<Bytes>)
    requires parts != [] && Join(parts) == []
    ensures parts == [[]]
  {
  }

  // ------------------------------------------------------------------ PHP single-quoted literals

  /** `str::replace` of one byte. */
  function Replace(s: Bytes, b: byte, with: Bytes): Bytes {
    if s == [] then [] else (if s[0] == b then with else [s[0]]) + Replace(s[1..], b, with)
  }

  function EscapePhp(s: Bytes): Bytes {
    Replace(Replace(s, BACKSLASH, [BACKSLASH, BACKSLASH]), QUOTE, [BACKSLASH, QUOTE])
  }

  /** PHP's reading of a single-quoted string past its opening quote: the string and what follows the
      closing quote; None when it is not closed. */
  function Lex(s: Bytes): Option<(Bytes, Bytes)>
    decreases |s|
  {
    if s == [] then None
    else if s[0] == QUOTE then Some(([], s[1..]))
    else
      var escaped := s[0] == BACKSLASH && |s| >= 2 && (s[1] == BACKSLASH || s[1] == QUOTE);
      match Lex(if escaped then s[2..] else s[1..])
      case None => None
      case Some((v, rest)) => Some(([if escaped then s[1] else s[0]] + v, rest))
  }

  function EscapeByte(b: byte): Bytes { if b == BACKSLASH || b == QUOTE then [BACKSLASH, b] else [b] }

  lemma {:induction false} ReplaceJoin(a: Bytes, t: Bytes, b: byte, with: Bytes)
    ensures Replace(a + t, b, with) == Replace(a, b, with) + Replace(t, b, with)
    decreases |a|
  {
    if a == [] {
      assert a + t == t;
    } else {
      ReplaceJoin(a[1..], t, b, with);
      assert (a + t)[1..] == a[1..] + t;
    }
  }

  /** The two passes of replacement escape byte by byte. */
  lemma EscapeCons(s: Bytes)
    requires s != []
    ensures EscapePhp(s) == EscapeByte(s[0]) + EscapePhp(s[1..])
  {
    var first := if s[0] == BACKSLASH then [BACKSLASH, BACKSLASH] else [s[0]];
    ReplaceJoin(first, Replace(s[1..], BACKSLASH, [BACKSLASH, BACKSLASH]), QUOTE, [BACKSLASH, QUOTE]);
    assert first[1..] == if s[0] == BACKSLASH then [BACKSLASH] else [];
    assert Replace([BACKSLASH], QUOTE, [BACKSLASH, QUOTE]) == [BACKSLASH] by { assert [BACKSLASH][1..] == []; }
    assert Replace(first, QUOTE, [BACKSLASH, QUOTE]) == EscapeByte(s[0]);
  }

  lemma LexEscaped(b: byte, tail: Bytes)
    ensures Lex(EscapeByte(b) + tail) ==
            match Lex(tail) { case None => None case Some((v, rest)) => Some(([b] + v, rest)) }
  {
    var s := EscapeByte(b) + tail;
    if b == BACKSLASH || b == QUOTE {
      assert s[2..] == tail;
    } else {
      assert s[1..] == tail;
    }
  }

  /** For every string, PHP reads the escaped string and its closing quote back as the string, and stops
      exactly there. */
  lemma {:induction false} EscapeRoundTrip(s: Bytes, after: Bytes)
    ensures Lex(EscapePhp(s) + [QUOTE] + after) == Some((s, after))
    decreases |s|
  {
    if s == [] {
      assert (EscapePhp(s) + [QUOTE] + after)[1..] == after;
    } else {
      EscapeRoundTrip(s[1..], after);
      EscapeCons(s);
      var tail := EscapePhp(s[1..]) + [QUOTE] + after;
      assert EscapePhp(s) + [QUOTE] + after == EscapeByte(s[0]) + tail;
      LexEscaped(s[0], tail);
      assert s == [s[0]] + s[1..];
    }
  }
}
