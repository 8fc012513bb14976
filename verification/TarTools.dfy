/**
 The packer and the unpacker as the loops they are: a 512-byte header array filled in place, a
 growing byte vector, a directory walk that prunes hidden entries, and a reader that advances
 `pos` over an archive of arbitrary bytes.
 */
module TarTools {
  import opened Util
  import opened Tar

  /** `copy_from_slice` into the header. */
  method PutField(header: array<byte>, at: nat, field: Bytes)
    requires at + |field| <= header.Length
    modifies header
    ensures header[..] == Overlay(old(header[..]), at, field)
  {
    ghost var was := header[..];
    var i := 0;
    while i < |field|
      invariant 0 <= i <= |field|
      invariant header[..] == Overlay(was, at, field[..i])
    {
      header[at + i] := field[i];
      i := i + 1;
    }
    assert field[..i] == field;
  }

  method Checksum(header: array<byte>) returns (sum: nat)
    ensures sum == SumBytes(header[..])
  {
    sum := 0;
    var i := 0;
    while i < header.Length
      invariant 0 <= i <= header.Length
      invariant sum == SumBytes(header[..i])
    {
      assert header[..i + 1][..i] == header[..i];
      sum := sum + header[i];
      i := i + 1;
    }
    assert header[..i] == header[..];
  }

  /** Appends one header; `ok` is false when a number does not fit its field and the copy panics. */
  method WriteTarHeader(tarData: Bytes, name: Bytes, size: nat, flag: byte, mtime: nat) returns (ok: bool, out: Bytes)
    ensures ok <==> size < Pow8(11) && mtime < Pow8(11)
    ensures ok ==> out == tarData + Header(name, size, flag, mtime)
  {
    if size >= Pow8(11) || mtime >= Pow8(11) { return false, tarData; }
    var header := new byte[512](i => 0);
    assert header[..] == Zeros(512);
    PutField(header, 0, name[..Min(|name|, 100)]);
    PutField(header, 100, if flag == DIR then MODE_DIR else MODE_FILE);
    PutField(header, 108, OWNER);
    PutField(header, 116, OWNER);
    PutField(header, 124, Octal(size, 11) + [0]);
    PutField(header, 136, Octal(mtime, 11) + [0]);
    PutField(header, 156, [flag]);
    PutField(header, 257, MAGIC);
    PutField(header, 263, VERSION);
    PutField(header, 148, SPACES);
    assert header[..] == Unsummed(name, size, flag, mtime);
    var sum := Checksum(header);
    ChecksumFits(header[..]);
    PutField(header, 148, Octal(sum, 6) + [0, 32]);
    ok, out := true, tarData + header[..];
  }

  lemma CanPackAppend(a: seq<Entry>, times: seq<nat>, e: Entry, time: nat)
    requires CanPack(a, times)
    ensures CanPack(a + [e], times + [time]) <==> Packable(e) && time < Pow8(11)
  {
    var b, u := a + [e], times + [time];
    assert b[|a|] == e && u[|a|] == time;
    forall i | 0 <= i < |a| ensures Packable(b[i]) && u[i] < Pow8(11) {
      assert b[i] == a[i] && u[i] == times[i];
    }
  }

  method PackOne(tarData: Bytes, e: Entry, mtime: nat) returns (ok: bool, out: Bytes)
    ensures ok <==> mtime < Pow8(11) && Packable(e)
    ensures ok ==> out == tarData + PackEntry(e, mtime)
  {
    match e
    case Dir(name) =>
      ok, out := WriteTarHeader(tarData, name, 0, DIR, mtime);
    case File(name, content) =>
      ok, out := WriteTarHeader(tarData, name, |content|, FILE, mtime);
      if ok {
        out := out + content;
        out := out + Zeros(Padding(|content|));
      }
  }

  lemma PackedPrefix(entries: seq<Entry>, times: seq<nat>, i: nat)
    requires i < |entries| == |times| && CanPack(entries[..i], times[..i]) && Packable(entries[i]) &&
             times[i] < Pow8(11)
    ensures CanPack(entries[..i + 1], times[..i + 1])
    ensures Concat(Parts(entries[..i + 1], times[..i + 1])) ==
            Concat(Parts(entries[..i], times[..i])) + PackEntry(entries[i], times[i])
  {
    assert entries[..i + 1] == entries[..i] + [entries[i]] && times[..i + 1] == times[..i] + [times[i]];
    CanPackAppend(entries[..i], times[..i], entries[i], times[i]);
    assert Parts(entries[..i + 1], times[..i + 1]) ==
           Parts(entries[..i], times[..i]) + [PackEntry(entries[i], times[i])];
    ConcatAppend(Parts(entries[..i], times[..i]), PackEntry(entries[i], times[i]));
  }

  /** Packs the entries the directory walk meets, each header with the clock read for it; `ok` is false when a number
      does not fit its field. */
  method PackArchive(entries: seq<Entry>, times: seq<nat>) returns (ok: bool, tarData: Bytes)
    requires |times| == |entries|
    ensures ok <==> CanPack(entries, times)
    ensures ok ==> tarData == Pack(entries, times)
  {
    tarData := [];
    var i := 0;
    while i < |entries|
      invariant 0 <= i <= |entries|
      invariant CanPack(entries[..i], times[..i])
      invariant tarData == Concat(Parts(entries[..i], times[..i]))
    {
      ok, tarData := PackOne(tarData, entries[i], times[i]);
      if !ok { return; }
      PackedPrefix(entries, times, i);
      i := i + 1;
    }
    assert entries[..i] == entries && times[..i] == times;
    tarData := tarData + Zeros(1024);
    ok := true;
  }

  // ------------------------------------------------------------------ the directory walk

  datatype Node = Directory(name: Bytes, children: seq<Node>) | Regular(name: Bytes, content: Bytes)

  const SLASH: byte := '/' as int
  const NODE_MODULES: Bytes := [110, 111, 100, 101, 95, 109, 111, 100, 117, 108, 101, 115]

  /** Hidden anywhere on the path, or under the top-level `node_modules`. */
  predicate Skipped(rel: Bytes) {
    || (rel != [] && rel[0] == 46)
    || (exists i :: 0 <= i < |rel| - 1 && rel[i] == SLASH && rel[i + 1] == 46)
    || rel == NODE_MODULES || NODE_MODULES + [SLASH] <= rel
  }

  /** A file name: not empty, no slash. */
  predicate FileName(p: Bytes) { p != [] && SLASH !in p }

  function PathOf(parts: seq<Bytes>): Bytes
    requires parts != []
  {
    if |parts| == 1 then parts[0] else parts[0] + ([SLASH] + PathOf(parts[1..]))
  }

  predicate Hidden(rel: Bytes) {
    (rel != [] && rel[0] == 46) || exists i :: 0 <= i < |rel| - 1 && rel[i] == SLASH && rel[i + 1] == 46
  }

  lemma HiddenCons(p: Bytes, r: Bytes)
    requires FileName(p) && r != []
    ensures Hidden(p + ([SLASH] + r)) <==> p[0] == 46 || Hidden(r)
  {
    var s := p + ([SLASH] + r);
    assert s[0] == p[0] && s[|p|] == SLASH && forall i :: 0 <= i < |r| ==> s[|p| + 1 + i] == r[i];
    assert forall i :: 0 <= i < |p| ==> s[i] in p;
    if i :| 0 <= i < |s| - 1 && s[i] == SLASH && s[i + 1] == 46 {
      assert i >= |p|;
      if i > |p| { assert r[i - |p| - 1] == SLASH && r[i - |p|] == 46; }
    }
    if r[0] == 46 { assert s[|p| + 1] == 46; }
    if i :| 0 <= i < |r| - 1 && r[i] == SLASH && r[i + 1] == 46 {
      assert s[|p| + 1 + i] == SLASH && s[|p| + 2 + i] == 46;
    }
  }

  lemma {:induction false} HiddenIff(parts: seq<Bytes>)
    requires parts != [] && forall p :: p in parts ==> FileName(p)
    ensures PathOf(parts) != []
    ensures Hidden(PathOf(parts)) <==> exists p :: p in parts && [46] <= p
    decreases |parts|
  {
    assert parts[0] in parts;
    if |parts| > 1 {
      HiddenIff(parts[1..]);
      HiddenCons(parts[0], PathOf(parts[1..]));
      assert forall p :: p in parts <==> p == parts[0] || p in parts[1..];
      assert [46] <= parts[0] <==> parts[0][0] == 46;
    } else {
      assert parts == [parts[0]];
      assert forall i :: 0 <= i < |parts[0]| ==> parts[0][i] in parts[0];
    }
  }

  /** The first name of a path is what comes before its first slash. */
  lemma FirstName(p: Bytes, q: Bytes, r: Bytes)
    requires SLASH !in p && SLASH !in q
    ensures q + [SLASH] <= p + ([SLASH] + r) <==> p == q
  {
    var s := p + ([SLASH] + r);
    assert s[|p|] == SLASH && forall i :: 0 <= i < |p| ==> s[i] in p;
    if q + [SLASH] <= s {
      assert s[|q|] == SLASH && forall i :: 0 <= i < |q| ==> s[i] == q[i] && q[i] in q;
      assert |p| == |q|;
      assert s[..|p|] == p && s[..|q|] == q;
    }
  }

  lemma HasSlash(p: Bytes, q: Bytes)
    ensures q + [SLASH] <= p ==> SLASH in p
  {
    if q + [SLASH] <= p { assert p[|q|] == SLASH; }
  }

  /** A path is skipped if and only if one of its names begins with a dot or its first is `node_modules`. */
  lemma SkippedIff(parts: seq<Bytes>)
    requires parts != [] && forall p :: p in parts ==> FileName(p)
    ensures Skipped(PathOf(parts)) <==> (exists p :: p in parts && [46] <= p) || parts[0] == Ascii("node_modules")
  {
    var rel := PathOf(parts);
    HiddenIff(parts);
    assert NODE_MODULES == Ascii("node_modules") && SLASH !in NODE_MODULES && parts[0] in parts;
    if |parts| == 1 {
      HasSlash(rel, NODE_MODULES);
    } else {
      FirstName(parts[0], NODE_MODULES, PathOf(parts[1..]));
      assert rel[|parts[0]|] == SLASH && SLASH in rel;
    }
  }

  /** `pack_directory`: a skipped directory is not entered. */
  function Walk(nodes: seq<Node>, prefix: Bytes): seq<Entry> {
    if nodes == [] then []
    else
      var rel := prefix + nodes[0].name;
      (if Skipped(rel) then []
       else match nodes[0]
            case Directory(_, children) => [Dir(rel + [SLASH])] + Walk(children, rel + [SLASH])
            case Regular(_, content) => [File(rel, content)])
      + Walk(nodes[1..], prefix)
  }

  /** Everything under the tree, nothing skipped. */
  function ListAll(nodes: seq<Node>, prefix: Bytes): seq<Entry> {
    if nodes == [] then []
    else
      var rel := prefix + nodes[0].name;
      (match nodes[0]
       case Directory(_, children) => [Dir(rel + [SLASH])] + ListAll(children, rel + [SLASH])
       case Regular(_, content) => [File(rel, content)])
      + ListAll(nodes[1..], prefix)
  }

  /** The path that the skip rules look at. */
  function Rel(e: Entry): Bytes {
    match e
    case Dir(name) => if name == [] then name else name[..|name| - 1]
    case File(name, _) => name
  }

  function KeepIf(e: Entry): seq<Entry> { if Skipped(Rel(e)) then [] else [e] }

  function Keep(entries: seq<Entry>): seq<Entry> {
    if entries == [] then []
    else KeepIf(entries[0]) + Keep(entries[1..])
  }

  lemma KeepCons(e: Entry, rest: seq<Entry>)
    ensures Keep([e] + rest) == KeepIf(e) + Keep(rest)
  {
    assert ([e] + rest)[1..] == rest;
  }

  lemma {:induction false} KeepJoin(a: seq<Entry>, b: seq<Entry>)
    ensures Keep(a + b) == Keep(a) + Keep(b)
    decreases |a|
  {
    if a == [] {
      assert a + b == b;
    } else {
      var rest := a[1..];
      KeepJoin(rest, b);
      assert a == [a[0]] + rest;
      Join3([a[0]], rest, b);
      KeepCons(a[0], rest + b);
      KeepCons(a[0], rest);
      Join3(KeepIf(a[0]), Keep(rest), Keep(b));
    }
  }

  /** Everything below a skipped directory is skipped by its own path. */
  lemma SkippedBelow(rel: Bytes, r: Bytes)
    requires Skipped(rel) && rel + [SLASH] <= r
    ensures Skipped(r)
  {
    assert forall i :: 0 <= i < |rel| ==> r[i] == (rel + [SLASH])[i] == rel[i];
    if i :| 0 <= i < |rel| - 1 && rel[i] == SLASH && rel[i + 1] == 46 {
      assert r[i] == SLASH && r[i + 1] == 46;
    } else if NODE_MODULES + [SLASH] <= rel {
      assert NODE_MODULES + [SLASH] <= r;
    }
  }

  lemma {:induction false} NoneKept(nodes: seq<Node>, prefix: Bytes, rel: Bytes)
    requires Skipped(rel) && rel + [SLASH] <= prefix
    ensures Keep(ListAll(nodes, prefix)) == []
    decreases nodes
  {
    if nodes != [] {
      var path := prefix + nodes[0].name;
      SkippedBelow(rel, path);
      NoneKept(nodes[1..], prefix, rel);
      match nodes[0] {
        case Directory(_, children) =>
          NoneKept(children, path + [SLASH], rel);
          KeepOne(Dir(path + [SLASH]), ListAll(children, path + [SLASH]));
          KeepJoin([Dir(path + [SLASH])] + ListAll(children, path + [SLASH]), ListAll(nodes[1..], prefix));
        case Regular(_, content) =>
          KeepOne(File(path, content), ListAll(nodes[1..], prefix));
      }
    }
  }

  lemma KeepOne(e: Entry, rest: seq<Entry>)
    ensures Keep([e] + rest) == KeepIf(e) + Keep(rest)
    ensures forall name: Bytes :: Rel(Dir(name + [SLASH])) == name
  {
    KeepCons(e, rest);
    forall name: Bytes ensures Rel(Dir(name + [SLASH])) == name {
      assert (name + [SLASH])[..|name|] == name;
    }
  }

  /** Not entering skipped directories packs the same entries as listing the whole tree and dropping
      every entry whose own path is skipped. */
  lemma {:induction false} PruningIsFiltering(nodes: seq<Node>, prefix: Bytes)
    ensures Walk(nodes, prefix) == Keep(ListAll(nodes, prefix))
    decreases nodes
  {
    if nodes != [] {
      var path := prefix + nodes[0].name;
      PruningIsFiltering(nodes[1..], prefix);
      match nodes[0] {
        case Directory(_, children) =>
          var dir := Dir(path + [SLASH]);
          if Skipped(path) {
            NoneKept(children, path + [SLASH], path);
          } else {
            PruningIsFiltering(children, path + [SLASH]);
          }
          KeepOne(dir, ListAll(children, path + [SLASH]));
          KeepJoin([dir] + ListAll(children, path + [SLASH]), ListAll(nodes[1..], prefix));
        case Regular(_, content) =>
          KeepOne(File(path, content), ListAll(nodes[1..], prefix));
      }
    }
  }

  /** Packing the walk of a tree and extracting it gives exactly the tree's entries that are not skipped, in walking
      order and with their contents, if and only if each of those names is carried. */
  lemma PackedTree(nodes: seq<Node>, times: seq<nat>, inside: Bytes -> bool)
    requires CanPack(Walk(nodes, []), times)
    ensures Extract(Pack(Walk(nodes, []), times), inside) == Keep(ListAll(nodes, [])) <==>
            forall e :: e in Keep(ListAll(nodes, [])) ==> Carried(e, inside)
  {
    PruningIsFiltering(nodes, []);
    RoundTripIff(Walk(nodes, []), times, inside);
  }

  // ------------------------------------------------------------------ the reader

  /** Files among what was created whose write succeeds. */
  function Files(entries: seq<Entry>, writable: Bytes -> bool): nat {
    if entries == [] then 0
    else Files(entries[..|entries| - 1], writable) +
         var e := entries[|entries| - 1]; if e.File? && writable(e.name) then 1 else 0
  }

  /** Position of the first NUL in the name field, 100 when there is none. */
  method NameOf(header: Bytes) returns (name: Bytes)
    requires |header| == 512
    ensures name == CString(header[..100])
  {
    var k := 0;
    while k < 100 && header[k] != 0
      invariant 0 <= k <= 100
      invariant CString(header[..100]) == header[..k] + CString(header[k..100])
    {
      assert header[k..100][1..] == header[k + 1..100];
      assert header[..k + 1] == header[..k] + [header[k]];
      k := k + 1;
    }
    assert CString(header[k..100]) == [];
    name := header[..k];
  }

  /** One entry at `pos`, which is past its header. */
  method ReadOne(archive: Bytes, pos: nat, header: Bytes, inside: Bytes -> bool) returns (made: seq<Entry>)
    requires |header| == 512 && pos <= |archive|
    ensures |made| <= 1 && made == ReadEntry(header, archive[pos..], inside)
  {
    var name := NameOf(header);
    var size := ParseSize(header[124..136]);
    var flag := header[156];
    if name == [] || name == DOT || !inside(name) { return []; }
    if flag == 53 || flag == 47 { return [Dir(name)]; }
    if (flag == 48 || flag == 0) && pos + size <= |archive| {
      assert archive[pos..pos + size] == archive[pos..][..size];
      return [File(name, archive[pos..pos + size])];
    }
    made := [];
  }

  /** What is left for the reader at `pos`, which may be past the end. */
  function Ahead(archive: Bytes, pos: nat, inside: Bytes -> bool): seq<Entry> {
    if pos <= |archive| then Extract(archive[pos..], inside) else []
  }

  lemma AheadStep(archive: Bytes, pos: nat, inside: Bytes -> bool)
    requires pos + 512 <= |archive|
    ensures var header := archive[pos..pos + 512];
            Ahead(archive, pos, inside) ==
            if AllZero(header) then []
            else ReadEntry(header, archive[pos + 512..], inside) +
                 Ahead(archive, pos + 512 + Blocks(ParseSize(header[124..136])), inside)
  {
    var data := archive[pos..];
    assert data[..512] == archive[pos..pos + 512] && data[512..] == archive[pos + 512..];
    var skip := Blocks(ParseSize(archive[pos..pos + 512][124..136]));
    if pos + 512 + skip <= |archive| { assert data[512..][skip..] == archive[pos + 512 + skip..]; }
  }

  /** The reader's step: None at the end marker, else what it made and where it goes on. */
  method NextEntry(archive: Bytes, pos: nat, inside: Bytes -> bool) returns (done: bool, made: seq<Entry>, next: nat)
    requires pos + 512 <= |archive|
    ensures |made| <= 1 && next > pos
    ensures done ==> Ahead(archive, pos, inside) == []
    ensures !done ==> Ahead(archive, pos, inside) == made + Ahead(archive, next, inside)
  {
    AheadStep(archive, pos, inside);
    var header := archive[pos..pos + 512];
    if AllZero(header) {
      return true, [], pos + 512;
    }
    done := false;
    made := ReadOne(archive, pos + 512, header, inside);
    next := pos + 512 + Blocks(ParseSize(header[124..136]));
  }

  /** Walks any byte string to its end, creating what Extract says and counting the files written. */
  method ExtractTar(archive: Bytes, inside: Bytes -> bool, writable: Bytes -> bool)
    returns (created: seq<Entry>, count: nat)
    ensures created == Extract(archive, inside)
    ensures count == Files(created, writable)
  {
    var pos := 0;
    created, count := [], 0;
    ghost var all := Extract(archive, inside);
    ghost var left := all;
    AheadWhole(archive, inside);
    while pos + 512 <= |archive|
      invariant created + left == all && left == Ahead(archive, pos, inside)
      invariant count == Files(created, writable)
      decreases |archive| - pos
    {
      var done, made, next := NextEntry(archive, pos, inside);
      if done { return; }
      ghost var left' := Ahead(archive, next, inside);
      Join3(created, made, left');
      var n := CountMade(created, made, writable);
      count := count + n;
      created, left, pos := created + made, left', next;
    }
    AheadEnd(archive, pos, inside);
  }

  lemma AheadWhole(archive: Bytes, inside: Bytes -> bool)
    ensures Ahead(archive, 0, inside) == Extract(archive, inside)
  {
    assert archive[0..] == archive;
  }

  lemma AheadEnd(archive: Bytes, pos: nat, inside: Bytes -> bool)
    requires pos + 512 > |archive|
    ensures Ahead(archive, pos, inside) == []
  {
  }

  /** The successful writes among one step's work. */
  method CountMade(ghost created: seq<Entry>, made: seq<Entry>, writable: Bytes -> bool) returns (n: nat)
    requires |made| <= 1
    ensures Files(created + made, writable) == Files(created, writable) + n
  {
    if made == [] {
      assert created + made == created;
      n := 0;
    } else {
      assert (created + made)[..|created|] == created;
      n := if made[0].File? && writable(made[0].name) then 1 else 0;
    }
  }

  /** On the reader's own archives the count is the number of files. */
  lemma RoundTripCount(entries: seq<Entry>, times: seq<nat>, inside: Bytes -> bool, writable: Bytes -> bool)
    requires CanPack(entries, times) && forall e :: e in entries ==> Carried(e, inside) && writable(e.name)
    ensures Files(Extract(Pack(entries, times), inside), writable) == |FilesAt(entries)|
  {
    RoundTripIff(entries, times, inside);
    CountFiles(entries, writable);
  }

  function FilesAt(entries: seq<Entry>): set<int> { set i | 0 <= i < |entries| && entries[i].File? }

  lemma FilesAtStep(entries: seq<Entry>)
    requires entries != []
    ensures var k := |entries| - 1;
            |FilesAt(entries)| == |FilesAt(entries[..k])| + if entries[k].File? then 1 else 0
  {
    var k := |entries| - 1;
    assert FilesAt(entries) == if entries[k].File? then FilesAt(entries[..k]) + {k} else FilesAt(entries[..k]);
  }

  lemma {:induction false} CountFiles(entries: seq<Entry>, writable: Bytes -> bool)
    requires forall e :: e in entries ==> writable(e.name)
    ensures Files(entries, writable) == |FilesAt(entries)|
    decreases |entries|
  {
    if entries == [] {
      assert FilesAt(entries) == {};
    } else {
      CountFiles(entries[..|entries| - 1], writable);
      FilesAtStep(entries);
      assert entries[|entries| - 1] in entries;
    }
  }
}
