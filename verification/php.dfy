/**
 * The parts of the PHP runtime that the vulnerability manager relies on:
 * the C-locale `ctype_*` classes, `ord`, string offsets, `strpos`, the
 * loose `<` / `>` between two strings, and ordered arrays keyed by package id.
 * A `char` stands for one byte of a PHP string.
 */
module Php {

  datatype Option<T> = None | Some(value: T)

  // ---------------------------------------------------------------------------
  // Character classes (ctype_digit, ctype_alpha, ctype_alnum in the C locale)
  // ---------------------------------------------------------------------------

  predicate IsDigit(c: char) { '0' <= c <= '9' }

  predicate IsAlpha(c: char) { 'a' <= c <= 'z' || 'A' <= c <= 'Z' }

  predicate IsAlnum(c: char) { IsDigit(c) || IsAlpha(c) }

  /** `ctype_digit($s)` on a string: non-empty and made of digits only. */
  predicate CtypeDigit(s: string) {
    |s| > 0 && forall q | 0 <= q < |s| :: IsDigit(s[q])
  }

  /** `ctype_alpha($s)` on a string: non-empty and made of letters only. */
  predicate CtypeAlpha(s: string) {
    |s| > 0 && forall q | 0 <= q < |s| :: IsAlpha(s[q])
  }

  /** `ord($s)`: the code of the first byte, 0 for the empty string. */
  function Ord(s: string): int {
    if s == [] then 0 else s[0] as int
  }

  /**
   * `$s[$i]` for an index that is never negative: a one-character string,
   * or "" when the index is past the end (PHP warns and yields "").
   */
  function CharAt(s: string, i: nat): (r: string)
    ensures |r| <= 1
    ensures |r| == 1 <==> i < |s|
  {
    if i < |s| then [s[i]] else ""
  }

  /** `ctype_digit($s[$i])`: false past the end, since "" is not a digit string. */
  predicate DigitAt(s: string, i: nat) {
    i < |s| && IsDigit(s[i])
  }

  // ---------------------------------------------------------------------------
  // strpos
  // ---------------------------------------------------------------------------

  /** `strpos($s, $c)`: the first index of `c` in `s`, or None for PHP's `false`. */
  function StrPos(s: string, c: char): (r: Option<nat>)
    ensures r.None? <==> c !in s
    ensures r.Some? ==> r.value < |s| && s[r.value] == c
    ensures r.Some? ==> forall q | 0 <= q < r.value :: s[q] != c
  {
    StrPosFrom(s, c, 0)
  }

  function StrPosFrom(s: string, c: char, i: nat): (r: Option<nat>)
    requires i <= |s|
    requires forall q | 0 <= q < i :: s[q] != c
    ensures r.None? <==> c !in s
    ensures r.Some? ==> i <= r.value < |s| && s[r.value] == c
    ensures r.Some? ==> forall q | 0 <= q < r.value :: s[q] != c
    decreases |s| - i
  {
    if i == |s| then None
    else if s[i] == c then Some(i)
    else StrPosFrom(s, c, i + 1)
  }

  // ---------------------------------------------------------------------------
  // Comparison of two strings with PHP's `<` and `>`
  // ---------------------------------------------------------------------------

  function DigitValue(c: char): nat
    requires IsDigit(c)
  {
    (c as int - '0' as int) as nat
  }

  /** The decimal value of a digit string (unbounded: no float fallback). */
  function NumValue(s: string): nat
    requires forall q | 0 <= q < |s| :: IsDigit(s[q])
  {
    if s == [] then 0 else 10 * NumValue(s[..|s| - 1]) + DigitValue(s[|s| - 1])
  }

  /** The sign of `m - n`. */
  function IntCompare(m: int, n: int): int {
    if m < n then -1 else if m > n then 1 else 0
  }

  /**
   * Byte-wise comparison of two strings (`strcmp`, reduced to its sign):
   * the first differing byte decides, and a proper prefix is smaller.
   */
  function LexCompare(x: string, y: string): (r: int)
    ensures -1 <= r <= 1
    ensures r == 0 <==> x == y
  {
    if x == [] then (if y == [] then 0 else -1)
    else if y == [] then 1
    else if x[0] < y[0] then -1
    else if x[0] > y[0] then 1
    else
      var r := LexCompare(x[1..], y[1..]);
      assert x == [x[0]] + x[1..] && y == [y[0]] + y[1..];
      r
  }

  /**
   * PHP's `<` / `>` between two strings, as a sign: two numeric strings are
   * compared by value, any other pair byte-wise. Only digit runs are
   * recognised as numeric here.
   */
  function LooseCompare(x: string, y: string): (r: int)
    ensures -1 <= r <= 1
  {
    if CtypeDigit(x) && CtypeDigit(y) then IntCompare(NumValue(x), NumValue(y))
    else LexCompare(x, y)
  }

  lemma {:induction false} LexCompareAntisymmetric(x: string, y: string)
    ensures LexCompare(x, y) == -LexCompare(y, x)
    decreases |x|
  {
    if x != [] && y != [] && x[0] == y[0] {
      LexCompareAntisymmetric(x[1..], y[1..]);
    }
  }

  /** Swapping the operands of the loose comparison negates it. */
  lemma LooseCompareAntisymmetric(x: string, y: string)
    ensures LooseCompare(x, y) == -LooseCompare(y, x)
  {
    LexCompareAntisymmetric(x, y);
  }

  /**
   * `x` is below `y` at position `p`: they agree before `p`, and there either
   * `x` ends while `y` goes on or `x` holds the smaller byte.
   */
  predicate LexBelowAt(x: string, y: string, p: nat) {
    p <= |x| && p <= |y| && x[..p] == y[..p] &&
    (p == |x| < |y| || (p < |x| && p < |y| && x[p] < y[p]))
  }

  /**
   * The byte-wise comparison without its recursion: `x` is smaller exactly
   * when, after a common prefix, `x` ends first or holds the smaller byte.
   */
  lemma {:induction false} LexCompareBelow(x: string, y: string)
    ensures LexCompare(x, y) == -1 <==> exists p: nat :: LexBelowAt(x, y, p)
    decreases |x|
  {
    if x != [] && y != [] && x[0] == y[0] {
      LexCompareBelow(x[1..], y[1..]);
      if exists p: nat :: LexBelowAt(x[1..], y[1..], p) {
        var p: nat :| LexBelowAt(x[1..], y[1..], p);
        assert x[..p + 1] == [x[0]] + x[1..][..p];
        assert y[..p + 1] == [y[0]] + y[1..][..p];
        assert LexBelowAt(x, y, p + 1);
      }
      if exists p: nat :: LexBelowAt(x, y, p) {
        var p: nat :| LexBelowAt(x, y, p);
        assert p > 0;
        assert x[1..][..p - 1] == x[..p][1..];
        assert y[1..][..p - 1] == y[..p][1..];
        assert LexBelowAt(x[1..], y[1..], p - 1);
      }
    } else if LexCompare(x, y) == -1 {
      assert LexBelowAt(x, y, 0);
    }
  }

  /** A leading zero does not change the value of a digit string: "09" == "9". */
  lemma {:induction false} NumValueLeadingZero(s: string)
    requires forall q | 0 <= q < |s| :: IsDigit(s[q])
    ensures NumValue("0" + s) == NumValue(s)
    decreases |s|
  {
    if s != [] {
      var t := "0" + s;
      assert t[..|t| - 1] == "0" + s[..|s| - 1];
      NumValueLeadingZero(s[..|s| - 1]);
    }
  }

  // ---------------------------------------------------------------------------
  // Ordered arrays keyed by an integer (PHP `array` with int keys)
  // ---------------------------------------------------------------------------

  datatype Entry<V> = Entry(key: int, value: V)

  /** The keys of an ordered array, in insertion order. */
  function Keys<V>(m: seq<Entry<V>>): (ks: seq<int>)
    ensures |ks| == |m|
    ensures forall q | 0 <= q < |m| :: ks[q] == m[q].key
  {
    if m == [] then [] else Keys(m[..|m| - 1]) + [m[|m| - 1].key]
  }

  /** A PHP array never holds the same key twice. */
  predicate DistinctKeys<V>(m: seq<Entry<V>>) {
    forall p, q | 0 <= p < q < |m| :: m[p].key != m[q].key
  }

  /** In an array with distinct keys, no entry's key occurs before it. */
  lemma KeyNotInPrefix<V>(m: seq<Entry<V>>, n: nat)
    requires DistinctKeys(m) && n < |m|
    ensures m[n].key !in Keys(m[..n])
  {
    assert forall q | 0 <= q < n :: Keys(m[..n])[q] != m[n].key;
  }

  /** `$m[$k]` guarded by `array_key_exists($k, $m)`. */
  function Lookup<V>(m: seq<Entry<V>>, k: int): (r: Option<V>)
    ensures r.None? <==> k !in Keys(m)
    ensures r.Some? ==> exists q | 0 <= q < |m| :: m[q] == Entry(k, r.value)
    ensures DistinctKeys(m) ==> forall q | 0 <= q < |m| && m[q].key == k :: r == Some(m[q].value)
  {
    if m == [] then None
    else if m[|m| - 1].key == k then Some(m[|m| - 1].value)
    else Lookup(m[..|m| - 1], k)
  }

  /** Overwriting the entry of an existing key. */
  lemma {:induction false} PutExisting<V>(m: seq<Entry<V>>, q: nat, k: int, v: V)
    requires DistinctKeys(m) && q < |m| && m[q].key == k
    ensures DistinctKeys(m[q := Entry(k, v)])
    ensures Keys(m[q := Entry(k, v)]) == Keys(m)
    ensures Lookup(m[q := Entry(k, v)], k) == Some(v)
    ensures forall k' | k' != k :: Lookup(m[q := Entry(k, v)], k') == Lookup(m, k')
  {
    var r := m[q := Entry(k, v)];
    assert Keys(r) == Keys(m);
    forall k' | k' != k
      ensures Lookup(r, k') == Lookup(m, k')
    {
      if k' in Keys(m) {
        var p :| 0 <= p < |m| && m[p].key == k';
        assert r[p] == m[p];
      }
    }
  }

  /** Appending the entry of a new key. */
  lemma {:induction false} PutNew<V>(m: seq<Entry<V>>, k: int, v: V)
    requires DistinctKeys(m) && k !in Keys(m)
    ensures DistinctKeys(m + [Entry(k, v)])
    ensures Lookup(m + [Entry(k, v)], k) == Some(v)
    ensures forall k' | k' != k :: Lookup(m + [Entry(k, v)], k') == Lookup(m, k')
  {
    var r := m + [Entry(k, v)];
    assert r[..|r| - 1] == m;
    forall p | 0 <= p < |m|
      ensures m[p].key != k
    {
      assert Keys(m)[p] == m[p].key;
    }
  }

  /**
   * `$m[$k] = $v`: an existing key keeps its position and gets the new value,
   * a new key is appended at the end.
   */
  function Put<V>(m: seq<Entry<V>>, k: int, v: V): (r: seq<Entry<V>>)
    requires DistinctKeys(m)
    ensures DistinctKeys(r)
    ensures Lookup(r, k) == Some(v)
    ensures forall k' | k' != k :: Lookup(r, k') == Lookup(m, k')
    ensures k in Keys(m) ==> Keys(r) == Keys(m)
    ensures k !in Keys(m) ==> r == m + [Entry(k, v)]
    ensures forall e | e in r :: e in m || e == Entry(k, v)
  {
    if k in Keys(m) then
      var q :| 0 <= q < |m| && m[q].key == k;
      PutExisting(m, q, k, v);
      m[q := Entry(k, v)]
    else
      PutNew(m, k, v);
      m + [Entry(k, v)]
  }
}
