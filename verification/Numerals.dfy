/** Numbers written in octal or decimal digits, and `from_str_radix`. */
module Numerals {
  import opened Util

  datatype Base = Octal | Decimal

  function Radix(b: Base): nat { if b.Octal? then 8 else 10 }

  /** The number with one more digit. */
  function Shift(v: nat, d: nat, b: Base): nat { if b.Octal? then 8 * v + d else 10 * v + d }

  /** The value of a string of digits, None when one is not. */
  function Digits(s: Bytes, b: Base): Option<nat> {
    if s == [] then Some(0)
    else
      var d := s[|s| - 1];
      match Digits(s[..|s| - 1], b)
      case Some(v) => if 48 <= d < 48 + Radix(b) then Some(Shift(v, d - 48, b)) else None
      case None => None
  }

  /** An optional plus sign and at least one digit. */
  function Parse(s: Bytes, b: Base): Option<nat> {
    var digits := if s != [] && s[0] == 43 then s[1..] else s;
    if digits == [] then None else Digits(digits, b)
  }

  // ------------------------------------------------------------------ the texts of a number

  /** Its shortest text. */
  function Shortest(n: nat, b: Base): (r: Bytes)
    ensures r != [] && forall i :: 0 <= i < |r| ==> 48 <= r[i] < 48 + Radix(b)
  {
    if b.Octal? then (if n < 8 then [48 + n] else Shortest(n / 8, b) + [48 + n % 8])
    else (if n < 10 then [48 + n] else Shortest(n / 10, b) + [48 + n % 10])
  }

  function ZeroDigits(k: nat): Bytes { seq(k, _ => 48) }

  /** The text is the number's shortest one after at most one plus and any zeros. */
  ghost predicate Denotes(s: Bytes, n: nat, b: Base) {
    exists k: nat :: s == ZeroDigits(k) + Shortest(n, b) || s == [43] + (ZeroDigits(k) + Shortest(n, b))
  }

  lemma {:induction false} ShortestDigits(n: nat, b: Base)
    ensures Digits(Shortest(n, b), b) == Some(n)
    decreases n
  {
    var s := Shortest(n, b);
    if n < Radix(b) {
      assert s[..0] == [];
    } else if b.Octal? {
      ShortestDigits(n / 8, b);
      assert s[..|s| - 1] == Shortest(n / 8, b);
    } else {
      ShortestDigits(n / 10, b);
      assert s[..|s| - 1] == Shortest(n / 10, b);
    }
  }

  lemma {:induction false} DigitsPadded(k: nat, t: Bytes, b: Base)
    ensures Digits(ZeroDigits(k) + t, b) == Digits(t, b)
    decreases |t|, k
  {
    var s := ZeroDigits(k) + t;
    if t != [] {
      assert s[..|s| - 1] == ZeroDigits(k) + t[..|t| - 1] && s[|s| - 1] == t[|t| - 1];
      DigitsPadded(k, t[..|t| - 1], b);
    } else if k > 0 {
      assert s[..|s| - 1] == ZeroDigits(k - 1) + [] && s[|s| - 1] == 48;
      DigitsPadded(k - 1, [], b);
    }
  }

  /** One more digit after a text with leading zeros is again one. */
  lemma PaddedNext(rest: Bytes, k: nat, v: nat, d: nat, b: Base) returns (j: nat)
    requires d < Radix(b) && rest == ZeroDigits(k) + Shortest(v, b)
    ensures rest + [48 + d] == ZeroDigits(j) + Shortest(Shift(v, d, b), b)
  {
    var n := Shift(v, d, b);
    if v == 0 {
      j := k + 1;
      assert Shortest(0, b) == [48] && ZeroDigits(k) + [48] == ZeroDigits(j) && Shortest(n, b) == [48 + d];
    } else {
      j := k;
      assert b.Octal? ==> n / 8 == v && n % 8 == d;
      assert b.Decimal? ==> n / 10 == v && n % 10 == d;
      assert Shortest(n, b) == Shortest(v, b) + [48 + d];
    }
  }

  lemma {:induction false} DigitsText(s: Bytes, b: Base) returns (k: nat)
    requires s != [] && Digits(s, b).Some?
    ensures s == ZeroDigits(k) + Shortest(Digits(s, b).value, b)
    decreases |s|
  {
    var rest, d := s[..|s| - 1], s[|s| - 1];
    assert s == rest + [d];
    if rest == [] {
      k := 0;
      assert Shortest(d - 48, b) == [d];
    } else {
      k := DigitsText(rest, b);
      k := PaddedNext(rest, k, Digits(rest, b).value, d - 48, b);
    }
  }

  lemma NumberParses(t: Bytes, k: nat, n: nat, b: Base)
    requires t == ZeroDigits(k) + Shortest(n, b)
    ensures t != [] && t[0] != 43 && Digits(t, b) == Some(n)
  {
    DigitsPadded(k, Shortest(n, b), b);
    ShortestDigits(n, b);
  }

  lemma TextParses(s: Bytes, t: Bytes, n: nat, b: Base)
    requires t != [] && t[0] != 43 && Digits(t, b) == Some(n) && (s == t || s == [43] + t)
    ensures Parse(s, b) == Some(n)
  {
    if s != t { assert s[1..] == t; }
  }

  lemma ParsedDenotes(s: Bytes, n: nat, b: Base)
    requires Parse(s, b) == Some(n)
    ensures Denotes(s, n, b)
  {
    var digits := if s != [] && s[0] == 43 then s[1..] else s;
    var k := DigitsText(digits, b);
    assert s == digits || s == [43] + digits;
  }

  /** A text parses to a number if and only if it is a text of that number. */
  lemma ParseIff(s: Bytes, n: nat, b: Base)
    ensures Parse(s, b) == Some(n) <==> Denotes(s, n, b)
  {
    if Parse(s, b) == Some(n) { ParsedDenotes(s, n, b); }
    if k: nat :| s == ZeroDigits(k) + Shortest(n, b) || s == [43] + (ZeroDigits(k) + Shortest(n, b)) {
      NumberParses(ZeroDigits(k) + Shortest(n, b), k, n, b);
      TextParses(s, ZeroDigits(k) + Shortest(n, b), n, b);
    }
  }
}
