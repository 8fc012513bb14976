/**
 The raw header lines PHP hands to the header handler: status lines, `name: value` lines and bare
 names, and the header calls they stand for.
 */
module HeaderLines {
  import opened Util
  import opened Numerals
  import opened Output
  import Envelope
  import Tar

  datatype SapiOp = OpReplace | OpAdd | OpDelete | OpDeleteAll | OpSetStatus | OpOther

  const COLON: byte := ':' as int
  const HTTP: Bytes := [72, 84, 84, 80, 47]     // "HTTP/"

  predicate Blanks(s: Bytes) { Tar.All(s, Tar.IsSpace) }

  function TakeWord(s: Bytes): Bytes { if s == [] || Tar.IsSpace(s[0]) then [] else [s[0]] + TakeWord(s[1..]) }

  function DropWord(s: Bytes): Bytes { if s == [] || Tar.IsSpace(s[0]) then s else DropWord(s[1..]) }

  /** `split_whitespace().nth(1)`. */
  function SecondWord(s: Bytes): Option<Bytes> {
    var rest := Tar.TrimStart(DropWord(Tar.TrimStart(s, Tar.IsSpace)), Tar.IsSpace);
    if rest == [] then None else Some(TakeWord(rest))
  }

  /** The header call a line stands for; an empty line is a null or empty header. */
  function LineOp(op: SapiOp, line: Bytes, utf8: Bytes -> bool): HeaderOp {
    if op.OpDeleteAll? then DeleteAll
    else if op.OpSetStatus? || op.OpOther? || line == [] || !utf8(line) then Ignored
    else if op.OpDelete? then Delete(line)
    else if HTTP <= line then
      match SecondWord(line)
      case None => Ignored
      case Some(w) =>
        match Envelope.ParseU16(w)
        case None => Ignored
        case Some(code) => StatusLine(code)
    else
      var k := IndexOf(line, COLON);
      if k == |line| then Ignored
      else if op.OpReplace? then Replace(Trimmed(line[..k]), Trimmed(line[k + 1..]))
      else Add(Trimmed(line[..k]), Trimmed(line[k + 1..]))
  }

  method HandleLine(cap: OutputCapture, op: SapiOp, line: Bytes, utf8: Bytes -> bool)
    modifies cap`headers, cap`code
    ensures cap.View() == OnHeader(old(cap.View()), LineOp(op, line, utf8))
  {
    match op
    case OpDeleteAll => cap.HeaderHandler(DeleteAll);
    case OpSetStatus => cap.HeaderHandler(Ignored);
    case OpOther => cap.HeaderHandler(Ignored);
    case OpDelete =>
      if line != [] && utf8(line) { cap.HeaderHandler(Delete(line)); } else { cap.HeaderHandler(Ignored); }
    case _ =>
      if line == [] || !utf8(line) {
        cap.HeaderHandler(Ignored);
      } else if HTTP <= line {
        var w := SecondWord(line);
        var code := if w.Some? then Envelope.ParseU16(w.value) else None;
        if code.Some? { cap.HeaderHandler(StatusLine(code.value)); } else { cap.HeaderHandler(Ignored); }
      } else {
        var k := IndexOf(line, COLON);
        if k == |line| {
          cap.HeaderHandler(Ignored);
        } else {
          var name, value := Trimmed(line[..k]), Trimmed(line[k + 1..]);
          cap.HeaderHandler(if op.OpReplace? then Replace(name, value) else Add(name, value));
        }
      }
  }

  /** A `name: value` line is split at its first colon, and the blanks around name and value are dropped. */
  lemma NameValueLine(a: Bytes, name: Bytes, b: Bytes, c: Bytes, value: Bytes, d: Bytes, utf8: Bytes -> bool)
    requires Blanks(a) && Blanks(b) && Blanks(c) && Blanks(d)
    requires Tar.Solid(name, Tar.IsSpace) && Tar.Solid(value, Tar.IsSpace) && COLON !in name
    requires var line := (a + (name + b)) + [COLON] + (c + (value + d)); !(Ascii("HTTP/") <= line) && utf8(line)
    ensures var line := (a + (name + b)) + [COLON] + (c + (value + d));
            LineOp(OpReplace, line, utf8) == Replace(name, value) && LineOp(OpAdd, line, utf8) == Add(name, value)
  {
    Tar.TrimBack(a, name, b, Tar.IsSpace);
    Tar.TrimBack(c, value, d, Tar.IsSpace);
    BlanksNoColon(a);
    BlanksNoColon(b);
    NameValueSplit(a + (name + b), c + (value + d), utf8);
  }

  lemma BlanksNoColon(s: Bytes)
    requires Blanks(s)
    ensures COLON !in s
  {
  }

  lemma NameValueSplit(name: Bytes, value: Bytes, utf8: Bytes -> bool)
    requires COLON !in name && !(Ascii("HTTP/") <= name + [COLON] + value) && utf8(name + [COLON] + value)
    ensures LineOp(OpReplace, name + [COLON] + value, utf8) == Replace(Trimmed(name), Trimmed(value))
    ensures LineOp(OpAdd, name + [COLON] + value, utf8) == Add(Trimmed(name), Trimmed(value))
  {
    var line := name + [COLON] + value;
    assert HTTP == Ascii("HTTP/");
    assert forall i :: 0 <= i < |name| ==> line[i] in name;
    assert line[|name|] == COLON;
    assert line[..|name|] == name && line[|name| + 1..] == value;
  }

  lemma {:induction false} WordSplit(word: Bytes, rest: Bytes)
    requires (forall b :: b in word ==> !Tar.IsSpace(b)) && (rest == [] || Tar.IsSpace(rest[0]))
    ensures TakeWord(word + rest) == word && DropWord(word + rest) == rest
    decreases |word|
  {
    if word == [] {
      assert word + rest == rest;
    } else {
      assert word[0] in word;
      WordSplit(word[1..], rest);
      assert (word + rest)[1..] == word[1..] + rest;
      assert word == [word[0]] + word[1..];
    }
  }

  predicate Word(s: Bytes) { s != [] && forall i :: 0 <= i < |s| ==> !Tar.IsSpace(s[i]) }

  lemma SecondOf(first: Bytes, gap: Bytes, second: Bytes, rest: Bytes)
    requires Word(first) && gap != [] && Blanks(gap) && Word(second) && (rest == [] || Tar.IsSpace(rest[0]))
    ensures SecondWord(first + (gap + (second + rest))) == Some(second)
  {
    var tail := second + rest;
    var s := first + (gap + tail);
    assert s[0] == first[0] && tail[0] == second[0] && (gap + tail)[0] == gap[0];
    assert Tar.TrimStart(s, Tar.IsSpace) == s;
    WordSplit(first, gap + tail);
    Tar.TrimStartBack(gap, tail, Tar.IsSpace);
    WordSplit(second, rest);
  }

  lemma NoSecond(first: Bytes, gap: Bytes)
    requires Word(first) && Blanks(gap)
    ensures SecondWord(first + gap) == None
  {
    assert (first + gap)[0] == first[0];
    assert Tar.TrimStart(first + gap, Tar.IsSpace) == first + gap;
    WordSplit(first, gap);
    Tar.TrimStartBack(gap, [], Tar.IsSpace);
    assert gap + [] == gap;
  }

  predicate Sets(op: SapiOp) { op.OpReplace? || op.OpAdd? }

  /** A status line sets the number its second word denotes, whatever the reason phrase; it is ignored when that word
      is no 16-bit number or when there is none. */
  lemma StatusLineMeaning(op: SapiOp, version: Bytes, gap: Bytes, word: Bytes, reason: Bytes, utf8: Bytes -> bool)
    requires Sets(op) && Ascii("HTTP/") <= version && Word(version) && gap != [] && Blanks(gap)
    requires Word(word) && (reason == [] || Tar.IsSpace(reason[0]))
    requires utf8(version + (gap + (word + reason)))
    ensures var r := LineOp(op, version + (gap + (word + reason)), utf8);
            && (forall code: u16 :: r == StatusLine(code) <==> Denotes(word, code, Decimal))
            && ((forall code: u16 :: !Denotes(word, code, Decimal)) ==> r == Ignored)
    ensures utf8(version + gap) ==> LineOp(op, version + gap, utf8) == Ignored
  {
    var line := version + (gap + (word + reason));
    assert HTTP == Ascii("HTTP/");
    assert HTTP <= line && HTTP <= version + gap;
    SecondOf(version, gap, word, reason);
    NoSecond(version, gap);
    forall code: u16 ensures Envelope.ParseU16(word) == Some(code) <==> Denotes(word, code, Decimal) {
      Envelope.ParseU16Iff(word, code);
    }
  }

  /** The lines without effect of their own: a delete takes the line as the name, deleting all takes no line, and null
      headers, invalid UTF-8, lines without a colon and other operations are ignored. */
  lemma OtherLines(op: SapiOp, line: Bytes, utf8: Bytes -> bool)
    ensures op.OpDeleteAll? ==> LineOp(op, line, utf8) == DeleteAll
    ensures op.OpDelete? ==> LineOp(op, line, utf8) == if line != [] && utf8(line) then Delete(line) else Ignored
    ensures op.OpSetStatus? || op.OpOther? ==> LineOp(op, line, utf8) == Ignored
    ensures Sets(op) && (line == [] || !utf8(line)) ==> LineOp(op, line, utf8) == Ignored
    ensures Sets(op) && COLON !in line && !(Ascii("HTTP/") <= line) ==> LineOp(op, line, utf8) == Ignored
  {
    assert HTTP == Ascii("HTTP/");
    assert IndexOf(line, COLON) < |line| ==> line[IndexOf(line, COLON)] in line;
  }
}
