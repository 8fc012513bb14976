/** Small shared vocabulary: optional values, bytes, duplicate-free sequences, sums over maps. */
module Util {

  datatype Option<+T> = None | Some(value: T)

  type byte = b: int | 0 <= b < 256

  type Bytes = seq<byte>

  /** The bytes of an ASCII text. */
  function Ascii(s: string): Bytes { seq(|s|, i requires 0 <= i < |s| => s[i] as int % 256) }

  type u16 = n: int | 0 <= n < 65536

  /** No value occurs at two positions. */
  ghost predicate NoDup<T>(s: seq<T>) {
    forall i, j :: 0 <= i < j < |s| ==> s[i] != s[j]
  }

  function Max(a: int, b: int): int { if a < b then b else a }

  function Min(a: int, b: int): int { if a < b then a else b }

  lemma NoDupAppend<T>(s: seq<T>, x: T)
    requires NoDup(s) && x !in s
    ensures NoDup(s + [x])
  {
  }

  lemma NoDupPop<T>(s: seq<T>)
    requires NoDup(s) && s != []
    ensures NoDup(s[..|s| - 1])
    ensures forall x :: x in s[..|s| - 1] <==> x in s && x != s[|s| - 1]
  {
    var k := |s| - 1;
    assert s == s[..k] + [s[k]];
    forall x ensures x in s[..k] <==> x in s && x != s[k] {
      if x in s && x != s[k] {
        var i :| 0 <= i < |s| && s[i] == x;
        assert s[..k][i] == x;
      }
    }
  }

  /** The numbers below `n`. */
  function Below(n: nat): (r: set<nat>)
    ensures |r| == n && forall x: nat :: x in r <==> x < n
  {
    if n == 0 then {} else Below(n - 1) + {n - 1}
  }

  ghost function Members<T(!new)>(s: seq<T>): set<T> { set x | x in s }

  lemma {:induction false} NoDupSet<T(!new)>(s: seq<T>)
    requires NoDup(s)
    ensures |Members(s)| == |s|
    decreases |s|
  {
    if s != [] {
      var rest := s[..|s| - 1];
      NoDupPop(s);
      NoDupSet(rest);
      assert Members(s) == Members(rest) + {s[|s| - 1]};
    }
  }

  /** A duplicate-free sequence of numbers below `n` has at most `n` of them. */
  lemma NoDupBelow(s: seq<nat>, n: nat)
    requires NoDup(s) && forall x :: x in s ==> x < n
    ensures |s| <= n
  {
    var members := Members(s);
    NoDupSet(s);
    assert Below(n) == members + (Below(n) - members) && members !! (Below(n) - members);
  }

  lemma NoDupJoin<T>(a: seq<T>, b: seq<T>)
    ensures NoDup(a + b) <==> NoDup(a) && NoDup(b) && forall x :: x in b ==> x !in a
  {
    if NoDup(a + b) {
      forall i, j | 0 <= i < j < |a| ensures a[i] != a[j] { assert (a + b)[i] == a[i] && (a + b)[j] == a[j]; }
      forall i, j | 0 <= i < j < |b| ensures b[i] != b[j] {
        assert (a + b)[|a| + i] == b[i] && (a + b)[|a| + j] == b[j];
      }
      forall x | x in b ensures x !in a {
        var j :| 0 <= j < |b| && b[j] == x;
        assert (a + b)[|a| + j] == x;
        forall i | 0 <= i < |a| ensures a[i] != x { assert (a + b)[i] == a[i]; }
      }
    } else {
      var i, j :| 0 <= i < j < |a + b| && (a + b)[i] == (a + b)[j];
      if NoDup(a) && NoDup(b) {
        assert i < |a| <= j;
        assert b[j - |a|] in b && a[i] in a;
      }
    }
  }

  // ------------------------------------------------------------------ sums over maps

  /** The sum of the values of `m`. */
  ghost function Sum<K(!new)>(m: map<K, int>): int
    decreases |m|
  {
    if m == map[] then 0
    else
      var k :| k in m;
      assert |m - {k}| < |m| by { assert (m - {k}).Keys == m.Keys - {k}; }
      m[k] + Sum(m - {k})
  }

  lemma {:induction false} SumRemove<K(!new)>(m: map<K, int>, k: K)
    requires k in m
    ensures Sum(m) == m[k] + Sum(m - {k})
    decreases |m|
  {
    var j :| j in m && Sum(m) == m[j] + Sum(m - {j});
    if j != k {
      assert (m - {j}).Keys == m.Keys - {j} && (m - {k}).Keys == m.Keys - {k};
      SumRemove(m - {j}, k);
      SumRemove(m - {k}, j);
      assert m - {j} - {k} == m - {k} - {j};
    }
  }

  lemma SumUpdate<K(!new)>(m: map<K, int>, k: K, v: int)
    ensures Sum(m[k := v]) == Sum(m) + v - if k in m then m[k] else 0
  {
    SumRemove(m[k := v], k);
    assert m[k := v] - {k} == m - {k};
    if k in m { SumRemove(m, k); } else { assert m - {k} == m; }
  }

  lemma Join3<T>(a: seq<T>, b: seq<T>, c: seq<T>)
    ensures (a + b) + c == a + (b + c)
  {
  }

  function One(b: bool): nat { if b then 1 else 0 }

  function Concat(parts: seq<Bytes>): Bytes {
    if parts == [] then [] else parts[0] + Concat(parts[1..])
  }

  /** The first position of a byte, the length when it does not occur. */
  function IndexOf(s: Bytes, b: byte): (k: nat)
    ensures k <= |s| && (k < |s| ==> s[k] == b) && forall i :: 0 <= i < k ==> s[i] != b
  {
    if s == [] || s[0] == b then 0 else 1 + IndexOf(s[1..], b)
  }
}
