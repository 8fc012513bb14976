/**
 The embedded-application archive: the packer of the build script and the block-walking reader
 that unpacks it.  Names and contents are byte strings; gzip is the identity.
 */
module Tar {
  import opened Util
  import Numerals

  // ------------------------------------------------------------------ octal fields

  function Pow8(n: nat): nat { if n == 0 then 1 else 8 * Pow8(n - 1) }

  /** `n` in octal, zero-padded to `width` digits; it fits when `n < Pow8(width)`. */
  function Octal(n: nat, width: nat): (r: Bytes)
    requires n < Pow8(width)
    ensures |r| == width
    ensures forall i :: 0 <= i < |r| ==> 48 <= r[i] < 56
  {
    if width == 0 then [] else Octal(n / 8, width - 1) + [48 + n % 8]
  }

  /** `usize::from_str_radix(_, 8)`. */
  function FromStrRadix8(s: Bytes): Option<nat> { Numerals.Parse(s, Numerals.Octal) }

  lemma {:induction false} OctalDigits(n: nat, width: nat)
    requires n < Pow8(width)
    ensures Numerals.Digits(Octal(n, width), Numerals.Octal) == Some(n)
    decreases width
  {
    if width > 0 {
      OctalDigits(n / 8, width - 1);
      assert Octal(n, width)[..width - 1] == Octal(n / 8, width - 1);
    }
  }

  // ------------------------------------------------------------------ trimming

  predicate IsSpace(b: byte) { 9 <= b <= 13 || b == 32 }

  predicate IsNul(b: byte) { b == 0 }

  function TrimStart(s: Bytes, p: byte -> bool): Bytes {
    if s != [] && p(s[0]) then TrimStart(s[1..], p) else s
  }

  function TrimEnd(s: Bytes, p: byte -> bool): Bytes {
    if s != [] && p(s[|s| - 1]) then TrimEnd(s[..|s| - 1], p) else s
  }

  function Trim(s: Bytes, p: byte -> bool): Bytes { TrimEnd(TrimStart(s, p), p) }

  predicate All(s: Bytes, p: byte -> bool) { forall i :: 0 <= i < |s| ==> p(s[i]) }

  /** Neither end satisfies the property. */
  predicate Solid(s: Bytes, p: byte -> bool) { s == [] || (!p(s[0]) && !p(s[|s| - 1])) }

  lemma {:induction false} TrimStartSplit(s: Bytes, p: byte -> bool) returns (a: Bytes)
    ensures var r := TrimStart(s, p); s == a + r && All(a, p) && (r == [] || !p(r[0]))
    decreases |s|
  {
    a := [];
    if s != [] && p(s[0]) {
      a := TrimStartSplit(s[1..], p);
      a := [s[0]] + a;
    }
  }

  lemma {:induction false} TrimEndSplit(s: Bytes, p: byte -> bool) returns (c: Bytes)
    ensures var r := TrimEnd(s, p); s == r + c && All(c, p) && (r == [] || !p(r[|r| - 1]))
    decreases |s|
  {
    c := [];
    if s != [] && p(s[|s| - 1]) {
      c := TrimEndSplit(s[..|s| - 1], p);
      assert s == s[..|s| - 1] + [s[|s| - 1]];
      c := c + [s[|s| - 1]];
    }
  }

  /** Trimming takes exactly the bytes with the property off both ends. */
  lemma TrimExact(s: Bytes, p: byte -> bool) returns (a: Bytes, c: Bytes)
    ensures s == a + (Trim(s, p) + c) && All(a, p) && All(c, p) && Solid(Trim(s, p), p)
  {
    a := TrimStartSplit(s, p);
    c := TrimEndSplit(TrimStart(s, p), p);
    if Trim(s, p) != [] { assert Trim(s, p)[0] == TrimStart(s, p)[0]; }
  }

  lemma {:induction false} TrimStartBack(a: Bytes, t: Bytes, p: byte -> bool)
    requires All(a, p) && (t == [] || !p(t[0]))
    ensures TrimStart(a + t, p) == t
    decreases |a|
  {
    if a == [] {
      assert a + t == t;
    } else {
      TrimStartBack(a[1..], t, p);
      assert (a + t)[0] == a[0] && (a + t)[1..] == a[1..] + t;
    }
  }

  lemma {:induction false} TrimEndBack(t: Bytes, c: Bytes, p: byte -> bool)
    requires All(c, p) && (t == [] || !p(t[|t| - 1]))
    ensures TrimEnd(t + c, p) == t
    decreases |c|
  {
    if c == [] {
      assert t + c == t;
    } else {
      var k := |c| - 1;
      TrimEndBack(t, c[..k], p);
      assert (t + c)[|t + c| - 1] == c[k] && (t + c)[..|t + c| - 1] == t + c[..k];
    }
  }

  /** And nothing else: what is between such ends comes back. */
  lemma TrimBack(a: Bytes, t: Bytes, c: Bytes, p: byte -> bool)
    requires All(a, p) && All(c, p) && Solid(t, p)
    ensures Trim(a + (t + c), p) == t
  {
    if t == [] {
      assert a + (t + c) == (a + c) + [] && All(a + c, p);
      TrimStartBack(a + c, [], p);
    } else {
      assert (t + c)[0] == t[0];
      TrimStartBack(a, t + c, p);
      TrimEndBack(t, c, p);
    }
  }

  /** The size field of a header, 0 when it does not parse. */
  function ParseSize(field: Bytes): nat {
    match FromStrRadix8(Trim(Trim(field, IsSpace), IsNul))
    case Some(n) => n
    case None => 0
  }

  lemma TrimNone(s: Bytes, p: byte -> bool)
    requires s != [] && !p(s[0]) && !p(s[|s| - 1])
    ensures Trim(s, p) == s
  {
  }

  /** The reader's lenient parse inverts the writer's size field. */
  lemma SizeFieldRoundTrip(n: nat)
    requires n < Pow8(11)
    ensures ParseSize(Octal(n, 11) + [0]) == n
  {
    var digits := Octal(n, 11);
    TrimNone(digits + [0], IsSpace);
    assert TrimStart(digits + [0], IsNul) == digits + [0];
    assert (digits + [0])[..11] == digits;
    assert TrimEnd(digits + [0], IsNul) == TrimEnd(digits, IsNul) == digits;
    OctalDigits(n, 11);
  }

  /** The size of any field: what is left between blanks and then between NULs is an octal number, with an optional
      plus and leading zeros, or else the size is 0. */
  lemma SizeFieldIff(a: Bytes, z: Bytes, t: Bytes, y: Bytes, c: Bytes, n: nat)
    requires All(a, IsSpace) && All(c, IsSpace) && All(z, IsNul) && All(y, IsNul)
    requires Solid(z + (t + y), IsSpace) && Solid(t, IsNul)
    ensures ParseSize(a + ((z + (t + y)) + c)) == n <==>
            || Numerals.Denotes(t, n, Numerals.Octal)
            || (n == 0 && forall v: nat :: !Numerals.Denotes(t, v, Numerals.Octal))
  {
    TrimBack(a, z + (t + y), c, IsSpace);
    TrimBack(z, t, y, IsNul);
    forall v: nat ensures FromStrRadix8(t) == Some(v) <==> Numerals.Denotes(t, v, Numerals.Octal) {
      Numerals.ParseIff(t, v, Numerals.Octal);
    }
  }

  // ------------------------------------------------------------------ headers

  function Zeros(n: nat): Bytes { seq(n, i => 0) }

  /** `field` copied into `s` at offset `at`. */
  function Overlay(s: Bytes, at: nat, field: Bytes): (r: Bytes)
    requires at + |field| <= |s|
    ensures |r| == |s|
  {
    s[..at] + field + s[at + |field|..]
  }

  lemma OverlaySame(s: Bytes, at: nat, field: Bytes)
    requires at + |field| <= |s|
    ensures Overlay(s, at, field)[at..at + |field|] == field
  {
  }

  const FILE: byte := 48
  const DIR: byte := 53
  const MODE_DIR: Bytes := [48, 48, 48, 48, 55, 53, 53, 0]      // "0000755\0"
  const MODE_FILE: Bytes := [48, 48, 48, 48, 54, 52, 52, 0]     // "0000644\0"
  const OWNER: Bytes := [48, 48, 48, 49, 48, 48, 48, 0]         // "0001000\0"
  const MAGIC: Bytes := [117, 115, 116, 97, 114, 0]             // "ustar\0"
  const VERSION: Bytes := [48, 48]                              // "00"
  const SPACES: Bytes := [32, 32, 32, 32, 32, 32, 32, 32]

  function SumBytes(s: Bytes): nat { if s == [] then 0 else SumBytes(s[..|s| - 1]) + s[|s| - 1] }

  lemma {:induction false} SumBound(s: Bytes)
    ensures SumBytes(s) <= 255 * |s|
    decreases |s|
  {
    if s != [] { SumBound(s[..|s| - 1]); }
  }

  /** The sum of the bytes, whatever their order. */
  lemma {:induction false} SumJoin(a: Bytes, b: Bytes)
    ensures SumBytes(a + b) == SumBytes(a) + SumBytes(b)
    ensures forall x: byte :: SumBytes([x]) == x
    decreases |b|
  {
    forall x: byte ensures SumBytes([x]) == x { assert [x][..0] == []; }
    if b == [] {
      assert a + b == a;
    } else {
      SumJoin(a, b[..|b| - 1]);
      assert (a + b)[..|a + b| - 1] == a + b[..|b| - 1];
    }
  }

  function NameField(name: Bytes): Bytes { name[..Min(|name|, 100)] }

  /** The header while the checksum field still holds spaces. */
  function Unsummed(name: Bytes, size: nat, flag: byte, mtime: nat): (h: Bytes)
    requires size < Pow8(11) && mtime < Pow8(11)
    ensures |h| == 512
  {
    var h := Overlay(Zeros(512), 0, NameField(name));
    var h := Overlay(h, 100, if flag == DIR then MODE_DIR else MODE_FILE);
    var h := Overlay(h, 108, OWNER);
    var h := Overlay(h, 116, OWNER);
    var h := Overlay(h, 124, Octal(size, 11) + [0]);
    var h := Overlay(h, 136, Octal(mtime, 11) + [0]);
    var h := Overlay(h, 156, [flag]);
    var h := Overlay(h, 257, MAGIC);
    var h := Overlay(h, 263, VERSION);
    Overlay(h, 148, SPACES)
  }

  lemma ChecksumFits(h: Bytes)
    requires |h| == 512
    ensures SumBytes(h) < Pow8(6)
  {
    SumBound(h);
    assert Pow8(6) == 262144;
  }

  function Header(name: Bytes, size: nat, flag: byte, mtime: nat): (h: Bytes)
    requires size < Pow8(11) && mtime < Pow8(11)
    ensures |h| == 512
  {
    var u := Unsummed(name, size, flag, mtime);
    ChecksumFits(u);
    Overlay(u, 148, Octal(SumBytes(u), 6) + [0, 32])
  }

  /** The stored checksum is the sum of the header's bytes with the checksum field read as spaces. */
  lemma ChecksumVerifies(name: Bytes, size: nat, flag: byte, mtime: nat)
    requires size < Pow8(11) && mtime < Pow8(11)
    ensures var h := Header(name, size, flag, mtime);
            && Numerals.Digits(h[148..154], Numerals.Octal) == Some(SumBytes(Overlay(h, 148, SPACES)))
            && h[154] == 0 && h[155] == 32
  {
    var u := Unsummed(name, size, flag, mtime);
    var h := Header(name, size, flag, mtime);
    ChecksumFits(u);
    var field := Octal(SumBytes(u), 6) + [0, 32];
    OverlaySame(u, 148, field);
    assert h[148..156] == field;
    assert h[148..154] == field[..6] == Octal(SumBytes(u), 6);
    OctalDigits(SumBytes(u), 6);
    assert u[148..156] == SPACES by { UnsummedSpaces(name, size, flag, mtime); }
    assert Overlay(h, 148, SPACES) == u;
  }

  lemma UnsummedSpaces(name: Bytes, size: nat, flag: byte, mtime: nat)
    requires size < Pow8(11) && mtime < Pow8(11)
    ensures Unsummed(name, size, flag, mtime)[148..156] == SPACES
  {
  }

  /** Writing a field right after what is filled already. */
  lemma FieldAfter(filled: Bytes, k: nat, field: Bytes)
    requires |field| <= k
    ensures Overlay(filled + Zeros(k), |filled|, field) == (filled + field) + Zeros(k - |field|)
  {
  }

  /** Leaving a gap. */
  lemma GapAfter(filled: Bytes, k: nat, gap: nat)
    requires gap <= k
    ensures filled + Zeros(k) == (filled + Zeros(gap)) + Zeros(k - gap)
  {
  }

  lemma FieldBetween(before: Bytes, was: Bytes, after: Bytes, field: Bytes)
    requires |was| == |field|
    ensures Overlay(before + (was + after), |before|, field) == before + (field + after)
  {
  }

  function PaddedName(name: Bytes): (r: Bytes)
    ensures |r| == 100
  {
    NameField(name) + Zeros(100 - |NameField(name)|)
  }

  /** The first 148 bytes: name, mode, owner and group, size and time. */
  function FrontOf(name: Bytes, mode: Bytes, size: Bytes, mtime: Bytes): Bytes {
    ((((PaddedName(name) + mode) + OWNER) + OWNER) + size) + mtime
  }

  lemma FrontStage(name: Bytes, mode: Bytes, size: Bytes, mtime: Bytes)
    requires |mode| == 8 && |size| == 12 && |mtime| == 12
    ensures var named := Overlay(Zeros(512), 0, NameField(name));
            var h := Overlay(Overlay(Overlay(named, 100, mode), 108, OWNER), 116, OWNER);
            Overlay(Overlay(h, 124, size), 136, mtime) == FrontOf(name, mode, size, mtime) + Zeros(364)
    ensures |FrontOf(name, mode, size, mtime)| == 148
  {
    var p := PaddedName(name);
    FieldAfter([], 512, NameField(name));
    assert [] + Zeros(512) == Zeros(512) && [] + NameField(name) == NameField(name);
    GapAfter(NameField(name), 512 - |NameField(name)|, 100 - |NameField(name)|);
    FieldAfter(p, 412, mode);
    FieldAfter(p + mode, 404, OWNER);
    FieldAfter((p + mode) + OWNER, 396, OWNER);
    FieldAfter(((p + mode) + OWNER) + OWNER, 388, size);
    FieldAfter((((p + mode) + OWNER) + OWNER) + size, 376, mtime);
  }

  /** The bytes after the checksum: type, empty link name, magic, version and nothing else. */
  function BackOf(flag: byte): Bytes { (((([flag] + Zeros(100)) + MAGIC) + VERSION) + Zeros(247)) }

  lemma BackStage(front: Bytes, flag: byte)
    requires |front| == 148
    ensures var h := front + Zeros(364);
            Overlay(Overlay(Overlay(Overlay(h, 156, [flag]), 257, MAGIC), 263, VERSION), 148, SPACES) ==
            front + (SPACES + BackOf(flag))
  {
    var p := front + Zeros(8);
    GapAfter(front, 364, 8);
    FieldAfter(p, 356, [flag]);
    GapAfter(p + [flag], 355, 100);
    FieldAfter((p + [flag]) + Zeros(100), 255, MAGIC);
    FieldAfter(((p + [flag]) + Zeros(100)) + MAGIC, 249, VERSION);
    assert ((((p + [flag]) + Zeros(100)) + MAGIC) + VERSION) + Zeros(247) == front + (Zeros(8) + BackOf(flag));
    FieldBetween(front, Zeros(8), BackOf(flag), SPACES);
  }

  lemma FieldsSpelled()
    ensures MODE_DIR == Ascii("0000755\0") && MODE_FILE == Ascii("0000644\0") && OWNER == Ascii("0001000\0")
    ensures MAGIC == Ascii("ustar\0") && VERSION == Ascii("00") && SPACES == Ascii("        ")
    ensures [DIR] == Ascii("5") && [FILE] == Ascii("0")
  {
  }

  /** The whole ustar header, byte for byte: the name cut or padded to 100, the mode for directories or files, owner and
      group, size and time in eleven octal digits, the checksum of the header with a blank checksum field in six, the
      type, an empty link name, magic, version, and zeros. */
  lemma HeaderLayout(name: Bytes, size: nat, flag: byte, mtime: nat)
    requires size < Pow8(11) && mtime < Pow8(11)
    ensures var front := PaddedName(name) + Ascii(if flag == DIR then "0000755\0" else "0000644\0")
                         + Ascii("0001000\0") + Ascii("0001000\0") + (Octal(size, 11) + [0]) + (Octal(mtime, 11) + [0]);
            var back := [flag] + Zeros(100) + Ascii("ustar\0") + Ascii("00") + Zeros(247);
            var sum := SumBytes(front + (Ascii("        ") + back));
            sum < Pow8(6) && Header(name, size, flag, mtime) == front + ((Octal(sum, 6) + [0, 32]) + back)
  {
    FieldsSpelled();
    var mode := if flag == DIR then MODE_DIR else MODE_FILE;
    var front := FrontOf(name, mode, Octal(size, 11) + [0], Octal(mtime, 11) + [0]);
    FrontStage(name, mode, Octal(size, 11) + [0], Octal(mtime, 11) + [0]);
    BackStage(front, flag);
    var u := Unsummed(name, size, flag, mtime);
    assert u == front + (SPACES + BackOf(flag));
    ChecksumFits(u);
    FieldBetween(front, SPACES, BackOf(flag), Octal(SumBytes(u), 6) + [0, 32]);
  }

  /** What the reader looks at. */
  lemma HeaderFields(name: Bytes, size: nat, flag: byte, mtime: nat)
    requires size < Pow8(11) && mtime < Pow8(11)
    ensures var h := Header(name, size, flag, mtime);
            && h[..100] == NameField(name) + Zeros(100 - |NameField(name)|)
            && h[124..136] == Octal(size, 11) + [0]
            && h[156] == flag
  {
    HeaderLayout(name, size, flag, mtime);
    var h, p, len := Header(name, size, flag, mtime), PaddedName(name), Octal(size, 11) + [0];
    assert h[..100] == p;
    assert h[124..136] == len;
  }

  // ------------------------------------------------------------------ packing

  /** A directory (its name ends with a slash in the archive) or a file, by relative name. */
  datatype Entry = Dir(name: Bytes) | File(name: Bytes, content: Bytes)

  predicate Packable(e: Entry) { e.File? ==> |e.content| < Pow8(11) }

  function Padding(n: nat): nat { (512 - n % 512) % 512 }

  /** The size of `n` bytes rounded up to whole blocks. */
  function Blocks(n: nat): nat { (n + 511) / 512 * 512 }

  lemma PaddedLength(n: nat)
    ensures n + Padding(n) == Blocks(n)
  {
    var q, r := n / 512, n % 512;
    assert n == 512 * q + r;
    if r == 0 {
      assert (n + 511) / 512 == q;
    } else {
      assert (n + 511) / 512 == q + 1;
    }
  }

  function PackEntry(e: Entry, mtime: nat): Bytes
    requires Packable(e) && mtime < Pow8(11)
  {
    match e
    case Dir(name) => assert Pow8(11) > 0; Header(name, 0, DIR, mtime)
    case File(name, content) => Header(name, |content|, FILE, mtime) + content + Zeros(Padding(|content|))
  }

  lemma {:induction false} ConcatAppend(parts: seq<Bytes>, last: Bytes)
    ensures Concat(parts + [last]) == Concat(parts) + last
    decreases |parts|
  {
    if parts == [] {
      assert (parts + [last])[1..] == [];
    } else {
      ConcatAppend(parts[1..], last);
      assert (parts + [last])[1..] == parts[1..] + [last];
    }
  }

  /** Every number fits its field; each header has its own reading of the clock. */
  predicate CanPack(entries: seq<Entry>, times: seq<nat>) {
    |times| == |entries| && forall i :: 0 <= i < |entries| ==> Packable(entries[i]) && times[i] < Pow8(11)
  }

  function Parts(entries: seq<Entry>, times: seq<nat>): seq<Bytes>
    requires CanPack(entries, times)
  {
    seq(|entries|, i requires 0 <= i < |entries| => PackEntry(entries[i], times[i]))
  }

  /** The archive: the entries and two zero blocks. */
  function Pack(entries: seq<Entry>, times: seq<nat>): Bytes
    requires CanPack(entries, times)
  {
    Concat(Parts(entries, times)) + Zeros(1024)
  }

  // ------------------------------------------------------------------ unpacking

  /** `name_end`: the bytes before the first NUL. */
  function CString(s: Bytes): Bytes {
    if s == [] || s[0] == 0 then [] else [s[0]] + CString(s[1..])
  }

  const DOT: Bytes := [46]

  /** One block's worth of reading: `inside` tells whether a target stays under the destination. */
  function ReadEntry(header: Bytes, rest: Bytes, inside: Bytes -> bool): seq<Entry>
    requires |header| == 512
  {
    var name := CString(header[..100]);
    var size := ParseSize(header[124..136]);
    var flag := header[156];
    if name == [] || name == DOT || !inside(name) then []
    else if flag == 53 || flag == 47 then [Dir(name)]
    else if (flag == 48 || flag == 0) && size <= |rest| then [File(name, rest[..size])]
    else []
  }

  /** The type flags: 5 and slash make directories, 0 and NUL files whose bytes are all there, anything else nothing;
      an empty name, a dot and a target outside make nothing either. */
  lemma TypeFlags(header: Bytes, rest: Bytes, inside: Bytes -> bool)
    requires |header| == 512
    ensures var made, flag := ReadEntry(header, rest, inside), header[156];
            var name, size := CString(header[..100]), ParseSize(header[124..136]);
            var named := name != [] && name != Ascii(".") && inside(name);
            && (made == [Dir(name)] <==> named && (flag == '5' as int || flag == '/' as int))
            && (size <= |rest| ==> (made == [File(name, rest[..size])] <==> named && (flag == '0' as int || flag == 0)))
            && (made == [] <==> !named || (flag !in [53, 47, 48, 0]) || ((flag == 48 || flag == 0) && size > |rest|))
  {
    assert Ascii(".") == DOT;
  }

  predicate AllZero(s: Bytes) { forall i :: 0 <= i < |s| ==> s[i] == 0 }

  /** What the reader creates, in order, from the bytes still ahead of it. */
  function Extract(data: Bytes, inside: Bytes -> bool): seq<Entry>
    decreases |data|
  {
    if |data| < 512 || AllZero(data[..512]) then []
    else
      var header, rest := data[..512], data[512..];
      var skip := Blocks(ParseSize(header[124..136]));
      ReadEntry(header, rest, inside) + if skip <= |rest| then Extract(rest[skip..], inside) else []
  }

  // ------------------------------------------------------------------ round trip

  /** The name the archive can give back. */
  function StoredName(name: Bytes): Bytes { CString(NameField(name)) }

  function Renamed(e: Entry, name: Bytes): Entry {
    match e
    case Dir(_) => Dir(name)
    case File(_, content) => File(name, content)
  }

  /** The entry as it is read back, if it is. */
  function ReadBack(e: Entry, inside: Bytes -> bool): seq<Entry> {
    var name := StoredName(e.name);
    if name == [] || name == DOT || !inside(name) then [] else [Renamed(e, name)]
  }

  predicate NulFree(s: Bytes) { forall i :: 0 <= i < |s| ==> s[i] != 0 }

  /** The names the archive carries unharmed. */
  predicate Carried(e: Entry, inside: Bytes -> bool) {
    0 < |e.name| <= 100 && NulFree(e.name) && e.name != DOT && inside(e.name)
  }

  lemma {:induction false} CStringPadded(s: Bytes, n: nat)
    ensures CString(s + Zeros(n)) == CString(s)
    decreases |s|
  {
    if s == [] {
      assert s + Zeros(n) == Zeros(n);
    } else {
      CStringPadded(s[1..], n);
      assert (s + Zeros(n))[1..] == s[1..] + Zeros(n);
    }
  }

  lemma {:induction false} CStringWhole(s: Bytes)
    ensures |CString(s)| <= |s|
    ensures CString(s) == s <==> NulFree(s)
    decreases |s|
  {
    if s != [] {
      CStringWhole(s[1..]);
      assert s == [s[0]] + s[1..];
      if NulFree(s) {
      } else if s[0] != 0 {
        assert !NulFree(s[1..]) by { var i :| 0 <= i < |s| && s[i] == 0; assert s[1..][i - 1] == 0; }
        assert CString(s)[1..] == CString(s[1..]);
      }
    }
  }

  /** An entry comes back as itself exactly when its name is carried. */
  lemma ReadBackIff(e: Entry, inside: Bytes -> bool)
    ensures ReadBack(e, inside) == [e] <==> Carried(e, inside)
  {
    CStringWhole(NameField(e.name));
    if |e.name| > 100 {
      assert |StoredName(e.name)| <= 100;
    } else {
      assert NameField(e.name) == e.name;
    }
  }

  /** The reader takes one entry and continues after its last block. */
  lemma ExtractBlock(header: Bytes, body: Bytes, tail: Bytes, inside: Bytes -> bool)
    requires |header| == 512 && header != Zeros(512) && |body| == Blocks(ParseSize(header[124..136]))
    ensures Extract(header + (body + tail), inside) == ReadEntry(header, body + tail, inside) + Extract(tail, inside)
  {
    var data := header + (body + tail);
    assert data[..512] == header && data[512..] == body + tail;
    assert (body + tail)[|body|..] == tail;
  }

  lemma ReadPacked(e: Entry, mtime: nat, body: Bytes, inside: Bytes -> bool)
    requires Packable(e) && mtime < Pow8(11) && (e.File? ==> e.content <= body)
    ensures var size := if e.File? then |e.content| else 0;
            var h := Header(e.name, size, if e.File? then FILE else DIR, mtime);
            && h[156] != 0 && ParseSize(h[124..136]) == size
            && ReadEntry(h, body, inside) == ReadBack(e, inside)
  {
    var size := if e.File? then |e.content| else 0;
    HeaderFields(e.name, size, if e.File? then FILE else DIR, mtime);
    SizeFieldRoundTrip(size);
    CStringPadded(NameField(e.name), 100 - |NameField(e.name)|);
    var h := Header(e.name, size, if e.File? then FILE else DIR, mtime);
    assert CString(h[..100]) == StoredName(e.name) && ParseSize(h[124..136]) == size;
    if e.File? {
      assert body[..size] == e.content;
    }
  }

  /** A packed entry is a header the reader understands, and a body of whole blocks. */
  lemma PackedParts(e: Entry, mtime: nat, tail: Bytes, inside: Bytes -> bool) returns (header: Bytes, body: Bytes)
    requires Packable(e) && mtime < Pow8(11)
    ensures |header| == 512 && header[156] != 0 && |body| == Blocks(ParseSize(header[124..136]))
    ensures PackEntry(e, mtime) == header + body
    ensures ReadEntry(header, body + tail, inside) == ReadBack(e, inside)
  {
    var size := if e.File? then |e.content| else 0;
    header := Header(e.name, size, if e.File? then FILE else DIR, mtime);
    body := if e.File? then e.content + Zeros(Padding(|e.content|)) else [];
    if e.File? {
      Join3(header, e.content, Zeros(Padding(|e.content|)));
      Join3(e.content, Zeros(Padding(|e.content|)), tail);
    } else {
      assert header + body == header;
    }
    ReadPacked(e, mtime, body + tail, inside);
    PaddedLength(size);
  }

  /** Reading one packed entry and continuing after it. */
  lemma ExtractOne(e: Entry, mtime: nat, tail: Bytes, inside: Bytes -> bool)
    requires Packable(e) && mtime < Pow8(11)
    ensures Extract(PackEntry(e, mtime) + tail, inside) == ReadBack(e, inside) + Extract(tail, inside)
  {
    var header, body := PackedParts(e, mtime, tail, inside);
    Join3(header, body, tail);
    ExtractBlock(header, body, tail, inside);
  }

  function ReadBackAll(entries: seq<Entry>, inside: Bytes -> bool): seq<Entry> {
    if entries == [] then [] else ReadBack(entries[0], inside) + ReadBackAll(entries[1..], inside)
  }

  lemma ZerosEnd(inside: Bytes -> bool)
    ensures Extract(Zeros(1024), inside) == []
  {
    assert AllZero(Zeros(1024)[..512]);
  }

  lemma PackCons(entries: seq<Entry>, times: seq<nat>)
    requires CanPack(entries, times) && entries != []
    ensures CanPack(entries[1..], times[1..])
    ensures Pack(entries, times) == PackEntry(entries[0], times[0]) + Pack(entries[1..], times[1..])
  {
    assert Parts(entries, times)[1..] == Parts(entries[1..], times[1..]);
    Join3(PackEntry(entries[0], times[0]), Concat(Parts(entries[1..], times[1..])), Zeros(1024));
  }

  lemma {:induction false} ExtractPacked(entries: seq<Entry>, times: seq<nat>, inside: Bytes -> bool)
    requires CanPack(entries, times)
    ensures Extract(Pack(entries, times), inside) == ReadBackAll(entries, inside)
    decreases |entries|
  {
    if entries == [] {
      assert Pack(entries, times) == Zeros(1024);
      ZerosEnd(inside);
    } else {
      PackCons(entries, times);
      ExtractOne(entries[0], times[0], Pack(entries[1..], times[1..]), inside);
      ExtractPacked(entries[1..], times[1..], inside);
    }
  }

  lemma {:induction false} ReadBackAllIff(entries: seq<Entry>, inside: Bytes -> bool)
    ensures |ReadBackAll(entries, inside)| <= |entries|
    ensures ReadBackAll(entries, inside) == entries <==> forall e :: e in entries ==> Carried(e, inside)
    decreases |entries|
  {
    if entries != [] {
      var e, rest := entries[0], entries[1..];
      ReadBackAllIff(rest, inside);
      ReadBackIff(e, inside);
      assert entries == [e] + rest;
      var a, b := ReadBack(e, inside), ReadBackAll(rest, inside);
      if a + b == entries {
        assert a == [e] by { assert |a| == 1; assert (a + b)[0] == a[0]; }
        assert b == rest by { assert b == (a + b)[1..]; }
      }
      assert (forall x :: x in entries ==> Carried(x, inside)) <==>
             Carried(e, inside) && forall x :: x in rest ==> Carried(x, inside);
    }
  }

  /** Unpacking a packed archive gives exactly the packed entries, in order and with their contents, if and
      only if every name is non-empty, NUL-free, at most 100 bytes, not ".", and inside the destination. */
  lemma RoundTripIff(entries: seq<Entry>, times: seq<nat>, inside: Bytes -> bool)
    requires CanPack(entries, times)
    ensures Extract(Pack(entries, times), inside) == entries <==> forall e :: e in entries ==> Carried(e, inside)
  {
    ExtractPacked(entries, times, inside);
    ReadBackAllIff(entries, inside);
  }
}
