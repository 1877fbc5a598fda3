/**
 * Debian-style version ordering (`order`, `dpkgvercmp_in` and `dpkgvercmp`
 * of the vulnerability manager). It loosely follows the "Version" rules of
 * the Debian Policy Manual (section 5.6.12): epoch, then upstream version,
 * then revision; non-digit parts compare through a collation in which `~`
 * sorts first, digit parts compare by value. The manager's own loop has
 * bounds and return values of its own, which this module keeps.
 */
module DpkgVersion {
  import opened Php

  // ---------------------------------------------------------------------------
  // Collation of non-digit characters
  // ---------------------------------------------------------------------------

  /**
   * `order($val)`: `~` sorts before everything, the empty string, digits and
   * NUL count as 0, letters as their code, any other byte as code + 256.
   */
  function Order(v: string): (r: int)
    ensures r == -1 <==> v == "~"
    ensures r == 0 <==> v == "" || CtypeDigit(v) || Ord(v) == 0
    ensures CtypeAlpha(v) ==> r < 256
    ensures r >= 256 <==> v != "~" && !CtypeDigit(v) && !CtypeAlpha(v) && Ord(v) != 0
  {
    if v == "" then 0
    else if v == "~" then
      assert !IsDigit(v[0]);
      -1
    else if CtypeDigit(v) then 0
    else if Ord(v) == 0 then 0
    else if CtypeAlpha(v) then Ord(v)
    else Ord(v) + 256
  }

  /** The rank `order` gives to one character, and to a read past the end. */
  lemma OrderOfChar(c: char)
    ensures Order("") == 0
    ensures Order([c]) == -1 <==> c == '~'
    ensures IsDigit(c) || c == '\0' ==> Order([c]) == 0
    ensures IsAlpha(c) ==> Order([c]) == c as int
    ensures !IsAlnum(c) && c != '~' && c != '\0' ==> Order([c]) == c as int + 256
  {
  }

  /**
   * `~` ranks below every other character and below the end of a string;
   * every character that is neither a letter nor a digit (nor `~` or NUL)
   * ranks above every letter.
   */
  lemma OrderRanks(c: char, letter: char, other: char)
    requires IsAlpha(letter)
    requires !IsAlnum(other) && other != '~' && other != '\0'
    ensures c != '~' ==> Order("~") < Order([c])
    ensures Order("~") < Order("")
    ensures Order([letter]) < Order([other])
  {
    OrderOfChar(c);
    OrderOfChar(letter);
    OrderOfChar(other);
  }

  // ---------------------------------------------------------------------------
  // dpkgvercmp_in as a state machine over the two cursors i and j
  // ---------------------------------------------------------------------------

  /** How far cursor `i` still is below the loop bound `l`. */
  function Slack(l: int, i: nat): nat {
    if i < l then (l - i) as nat else 0
  }

  /** The termination measure of every loop of `dpkgvercmp_in`. */
  function Measure(a: string, b: string, i: nat, j: nat): nat {
    Slack(|a| - 1, i) + Slack(|b| - 1, j)
  }

  /** How the first inner loop ends: an early return at cursors `i`, `j`, or the loop's exit there. */
  datatype Step = Return(value: int, i: nat, j: nat) | Continue(i: nat, j: nat)

  datatype Cursor = Cursor(i: nat, j: nat, firstDiff: int)

  /** The guard of the first inner loop: either side sits on a non-digit before its bound. */
  predicate InNonDigitRun(a: string, b: string, i: nat, j: nat) {
    (i < |a| - 1 && !DigitAt(a, i)) || (j < |b| - 1 && !DigitAt(b, j))
  }

  /** The first inner loop: compare non-digits by `order`, both cursors together. */
  function NonDigitRun(a: string, b: string, i: nat, j: nat): (s: Step)
    ensures s.Continue? ==> !InNonDigitRun(a, b, s.i, s.j)
    ensures s.Continue? ==> i <= s.i && s.j - j == s.i - i
    ensures s.Continue? ==> s.i == i || Measure(a, b, s.i, s.j) < Measure(a, b, i, j)
    decreases Measure(a, b, i, j)
  {
    if InNonDigitRun(a, b, i, j) then
      var vc := Order(CharAt(a, i));
      var rc := Order(CharAt(b, j));
      if vc != rc then Return(vc - rc, i, j) else NonDigitRun(a, b, i + 1, j + 1)
    else
      Continue(i, j)
  }

  /** The loops that skip leading zeros, bounded like the others by `strlen - 1`. */
  function SkipZeros(s: string, i: nat): (e: nat)
    ensures i <= e
    ensures forall q | i <= q < e :: q < |s| - 1 && s[q] == '0'
    ensures !(e < |s| - 1 && s[e] == '0')
    ensures e == i || Slack(|s| - 1, e) < Slack(|s| - 1, i)
    ensures Slack(|s| - 1, e) <= Slack(|s| - 1, i)
    decreases |s| - i
  {
    if i < |s| - 1 && s[i] == '0' then SkipZeros(s, i + 1) else i
  }

  /** The digit loop: walk both digit runs, remembering the first differing digit. */
  function DigitRun(a: string, b: string, i: nat, j: nat, firstDiff: int): (c: Cursor)
    ensures !(c.i < |a| - 1 && DigitAt(a, c.i) && c.j < |b| - 1 && DigitAt(b, c.j))
    ensures i <= c.i && c.j - j == c.i - i
    ensures c.i == i || Measure(a, b, c.i, c.j) < Measure(a, b, i, j)
    decreases Measure(a, b, i, j)
  {
    if i < |a| - 1 && DigitAt(a, i) && j < |b| - 1 && DigitAt(b, j) then
      DigitRun(a, b, i + 1, j + 1, if firstDiff == 0 then a[i] as int - b[j] as int else firstDiff)
    else
      Cursor(i, j, firstDiff)
  }

  /** Positions `i` to `q - 1` of `a` hold what the positions from `j` of `b` hold. */
  predicate SameFrom(a: string, b: string, i: nat, j: nat, q: nat) {
    forall p | i <= p < q :: CharAt(a, p) == CharAt(b, p - i + j)
  }

  /** The difference `ord($a[$i]) - ord($b[$j])` the digit loop records. */
  function DigitDiff(a: string, b: string, i: nat, j: nat): (d: int)
    ensures i < |a| && j < |b| ==> d == a[i] as int - b[j] as int && (d == 0 <==> a[i] == b[j])
  {
    Ord(CharAt(a, i)) - Ord(CharAt(b, j))
  }

  /** Every position the digit loop stepped over held a digit below the bound on both sides. */
  lemma {:induction false} DigitRunPassed(a: string, b: string, i: nat, j: nat, firstDiff: int, c: Cursor)
    requires c == DigitRun(a, b, i, j, firstDiff)
    ensures forall q | i <= q < c.i ::
              q < |a| - 1 && DigitAt(a, q) && q - i + j < |b| - 1 && DigitAt(b, q - i + j)
    decreases Measure(a, b, i, j)
  {
    if i < |a| - 1 && DigitAt(a, i) && j < |b| - 1 && DigitAt(b, j) {
      DigitRunPassed(a, b, i + 1, j + 1, if firstDiff == 0 then DigitDiff(a, b, i, j) else firstDiff, c);
      forall q | i <= q < c.i
        ensures q < |a| - 1 && DigitAt(a, q) && q - i + j < |b| - 1 && DigitAt(b, q - i + j)
      {
        if q == i {
          assert q - i + j == j;
        } else {
          assert i + 1 <= q < c.i;
          assert q - (i + 1) + (j + 1) == q - i + j;
        }
      }
    }
  }

  /** A `first_diff` already set survives the digit loop. */
  lemma {:induction false} DigitRunKeepsFirstDiff(a: string, b: string, i: nat, j: nat, firstDiff: int)
    requires firstDiff != 0
    ensures DigitRun(a, b, i, j, firstDiff).firstDiff == firstDiff
    decreases Measure(a, b, i, j)
  {
    if i < |a| - 1 && DigitAt(a, i) && j < |b| - 1 && DigitAt(b, j) {
      DigitRunKeepsFirstDiff(a, b, i + 1, j + 1, firstDiff);
    }
  }

  /**
   * Started with `first_diff` 0, the digit loop ends with the first non-zero
   * difference of the digits it read, or with 0 when all of them were equal.
   */
  lemma {:induction false} DigitRunFirstDiff(a: string, b: string, i: nat, j: nat, c: Cursor)
    requires c == DigitRun(a, b, i, j, 0)
    ensures c.firstDiff == 0 <==> SameFrom(a, b, i, j, c.i)
    ensures c.firstDiff != 0 ==>
              exists q | i <= q < c.i :: c.firstDiff == DigitDiff(a, b, q, q - i + j) && SameFrom(a, b, i, j, q)
    decreases Measure(a, b, i, j), 1
  {
    if i < |a| - 1 && DigitAt(a, i) && j < |b| - 1 && DigitAt(b, j) {
      var d := DigitDiff(a, b, i, j);
      assert SameFrom(a, b, i, j, i);
      if d != 0 {
        DigitRunKeepsFirstDiff(a, b, i + 1, j + 1, d);
        assert !SameFrom(a, b, i, j, c.i) by { assert CharAt(a, i) != CharAt(b, i - i + j); }
      } else {
        DigitRunFirstDiffEqualDigit(a, b, i, j, c);
      }
    }
  }

  /** The step of `DigitRunFirstDiff` where the first two digits read are equal. */
  lemma {:induction false} DigitRunFirstDiffEqualDigit(a: string, b: string, i: nat, j: nat, c: Cursor)
    requires i < |a| - 1 && DigitAt(a, i) && j < |b| - 1 && DigitAt(b, j) && a[i] == b[j]
    requires c == DigitRun(a, b, i, j, 0)
    ensures c.firstDiff == 0 <==> SameFrom(a, b, i, j, c.i)
    ensures c.firstDiff != 0 ==>
              exists q | i <= q < c.i :: c.firstDiff == DigitDiff(a, b, q, q - i + j) && SameFrom(a, b, i, j, q)
    decreases Measure(a, b, i, j), 0
  {
    assert c == DigitRun(a, b, i + 1, j + 1, 0);
    DigitRunFirstDiff(a, b, i + 1, j + 1, c);
    assert CharAt(a, i) == CharAt(b, j);
    assert c.firstDiff == 0 <==> SameFrom(a, b, i, j, c.i) by {
      SameFromShift(a, b, i, j, c.i);
    }
    if c.firstDiff != 0 {
      var q :| i + 1 <= q < c.i && c.firstDiff == DigitDiff(a, b, q, q - (i + 1) + (j + 1)) &&
               SameFrom(a, b, i + 1, j + 1, q);
      assert SameFrom(a, b, i, j, q) by {
        SameFromShift(a, b, i, j, q);
      }
      assert q - (i + 1) + (j + 1) == q - i + j;
    }
  }

  /** Agreement from `i` splits into the first position and agreement from `i + 1`. */
  lemma SameFromShift(a: string, b: string, i: nat, j: nat, q: nat)
    requires i < q
    ensures SameFrom(a, b, i, j, q) <==> CharAt(a, i) == CharAt(b, j) && SameFrom(a, b, i + 1, j + 1, q)
  {
    if SameFrom(a, b, i, j, q) {
      assert CharAt(a, i) == CharAt(b, i - i + j);
      forall p | i + 1 <= p < q
        ensures CharAt(a, p) == CharAt(b, p - (i + 1) + (j + 1))
      {
        assert p - (i + 1) + (j + 1) == p - i + j;
      }
    }
    if CharAt(a, i) == CharAt(b, j) && SameFrom(a, b, i + 1, j + 1, q) {
      forall p | i <= p < q
        ensures CharAt(a, p) == CharAt(b, p - i + j)
      {
        if p > i {
          assert p - (i + 1) + (j + 1) == p - i + j;
        }
      }
    }
  }

  /** The outer loop of `dpkgvercmp_in`, from cursors `i` and `j` on. */
  function Outer(a: string, b: string, i: nat, j: nat): int
    decreases Measure(a, b, i, j)
  {
    if !(i < |a| - 1 || j < |b| - 1) then 0
    else
      match NonDigitRun(a, b, i, j)
      case Return(v, _, _) => v
      case Continue(i1, j1) =>
        var i2 := SkipZeros(a, i1);
        var j2 := SkipZeros(b, j1);
        var c := DigitRun(a, b, i2, j2, 0);
        if c.i == c.j && DigitAt(a, c.i) && DigitAt(b, c.j) then a[c.i] as int - b[c.j] as int
        else if DigitAt(a, c.i) then 1
        else if DigitAt(b, c.j) then -1
        else if c.firstDiff != 0 then c.firstDiff
        else Outer(a, b, c.i, c.j)
  }

  /** What `dpkgvercmp_in($a, $b)` returns; only its sign is meaningful. */
  function FragmentCompare(a: string, b: string): (r: int)
    ensures a == b ==> r == 0
  {
    if a == b then
      OuterSame(a, 0);
      Outer(a, b, 0, 0)
    else
      Outer(a, b, 0, 0)
  }

  /** The checks after the digit loop, given the cursors one round of the outer loop reaches. */
  function RoundEnd(a: string, b: string, c: Cursor): int
    decreases Measure(a, b, c.i, c.j), 0
  {
    if c.i == c.j && DigitAt(a, c.i) && DigitAt(b, c.j) then a[c.i] as int - b[c.j] as int
    else if DigitAt(a, c.i) then 1
    else if DigitAt(b, c.j) then -1
    else if c.firstDiff != 0 then c.firstDiff
    else Outer(a, b, c.i, c.j)
  }

  /** One round of the outer loop, unfolded for the method below. */
  lemma OuterRound(a: string, b: string, i0: nat, j0: nat, c: Cursor)
    requires i0 < |a| - 1 || j0 < |b| - 1
    requires NonDigitRun(a, b, i0, j0).Continue?
    requires c == DigitRun(a, b, SkipZeros(a, NonDigitRun(a, b, i0, j0).i),
                                 SkipZeros(b, NonDigitRun(a, b, i0, j0).j), 0)
    ensures Outer(a, b, i0, j0) == RoundEnd(a, b, c)
    ensures !DigitAt(a, c.i) && !DigitAt(b, c.j) ==> Measure(a, b, c.i, c.j) < Measure(a, b, i0, j0)
  {
  }

  /** The first inner loop of `dpkgvercmp_in`, with its early return. */
  method CompareNonDigits(a: string, b: string, i0: nat, j0: nat) returns (s: Step)
    ensures s == NonDigitRun(a, b, i0, j0)
  {
    var i: nat, j: nat := i0, j0;
    var l, k := |a| - 1, |b| - 1;
    while (i < l && !DigitAt(a, i)) || (j < k && !DigitAt(b, j))
      invariant NonDigitRun(a, b, i, j) == NonDigitRun(a, b, i0, j0)
      decreases Measure(a, b, i, j)
    {
      var vc := Order(CharAt(a, i));
      var rc := Order(CharAt(b, j));
      NonDigitRunStep(a, b, i, j);
      if vc != rc {
        return Return(vc - rc, i, j);
      }
      i, j := i + 1, j + 1;
    }
    return Continue(i, j);
  }

  /** One pass of the first inner loop: return on differing `order` values, otherwise step on. */
  lemma NonDigitRunStep(a: string, b: string, i: nat, j: nat)
    requires InNonDigitRun(a, b, i, j)
    ensures var vc, rc := Order(CharAt(a, i)), Order(CharAt(b, j));
            NonDigitRun(a, b, i, j) == if vc != rc then Return(vc - rc, i, j) else NonDigitRun(a, b, i + 1, j + 1)
    ensures Measure(a, b, i + 1, j + 1) < Measure(a, b, i, j)
  {
  }

  /**
   * An early return of the first inner loop happens where a side still sits
   * on a non-digit below its bound, both cursors having moved together, and
   * returns the non-zero difference of the `order` values read there.
   */
  lemma {:induction false} NonDigitRunReturn(a: string, b: string, i: nat, j: nat)
    ensures var s := NonDigitRun(a, b, i, j);
            s.Return? ==> i <= s.i && s.j - j == s.i - i && InNonDigitRun(a, b, s.i, s.j) &&
                          s.value == Order(CharAt(a, s.i)) - Order(CharAt(b, s.j)) != 0
    decreases Measure(a, b, i, j)
  {
    if InNonDigitRun(a, b, i, j) && Order(CharAt(a, i)) == Order(CharAt(b, j)) {
      NonDigitRunReturn(a, b, i + 1, j + 1);
    }
  }

  /** One of the two loops that skip zeros. */
  method SkipZeroDigits(s: string, i0: nat) returns (i: nat)
    ensures i == SkipZeros(s, i0)
  {
    i := i0;
    var l := |s| - 1;
    while i < l && s[i] == '0'
      invariant SkipZeros(s, i) == SkipZeros(s, i0)
      decreases |s| - i
    {
      i := i + 1;
    }
  }

  /** The digit loop of `dpkgvercmp_in`. */
  method CompareDigits(a: string, b: string, i0: nat, j0: nat) returns (c: Cursor)
    ensures c == DigitRun(a, b, i0, j0, 0)
  {
    var i: nat, j: nat := i0, j0;
    var l, k := |a| - 1, |b| - 1;
    var firstDiff := 0;
    while i < l && DigitAt(a, i) && j < k && DigitAt(b, j)
      invariant DigitRun(a, b, i, j, firstDiff) == DigitRun(a, b, i0, j0, 0)
      decreases Measure(a, b, i, j)
    {
      if firstDiff == 0 {
        firstDiff := a[i] as int - b[j] as int;
      }
      i, j := i + 1, j + 1;
    }
    return Cursor(i, j, firstDiff);
  }

  /**
   * `dpkgvercmp_in`: the outer loop over both cursors; each inner loop is
   * one of the three methods above.
   */
  method DpkgVerCmpIn(a: string, b: string) returns (r: int)
    ensures r == FragmentCompare(a, b)
  {
    var i: nat, j: nat := 0, 0;
    var l, k := |a| - 1, |b| - 1;
    ghost var start := i;
    assert FragmentCompare(a, b) == Outer(a, b, start, start);
    while i < l || j < k
      invariant Outer(a, b, i, j) == Outer(a, b, start, start)
      decreases Measure(a, b, i, j)
    {
      var step := CompareNonDigits(a, b, i, j);
      if step.Return? {
        return step.value;
      }
      var i2 := SkipZeroDigits(a, step.i);
      var j2 := SkipZeroDigits(b, step.j);
      var c := CompareDigits(a, b, i2, j2);
      OuterRound(a, b, i, j, c);
      i, j := c.i, c.j;
      if i == j && DigitAt(a, i) && DigitAt(b, j) {
        return a[i] as int - b[j] as int;
      }
      if DigitAt(a, i) {
        return 1;
      }
      if DigitAt(b, j) {
        return -1;
      }
      if c.firstDiff != 0 {
        return c.firstDiff;
      }
    }
    return 0;
  }

  // ---------------------------------------------------------------------------
  // Properties of dpkgvercmp_in
  // ---------------------------------------------------------------------------

  lemma {:induction false} NonDigitRunSame(a: string, i: nat)
    ensures NonDigitRun(a, a, i, i).Continue?
    ensures NonDigitRun(a, a, i, i).i == NonDigitRun(a, a, i, i).j
    decreases Measure(a, a, i, i)
  {
    if InNonDigitRun(a, a, i, i) {
      NonDigitRunSame(a, i + 1);
    }
  }

  lemma {:induction false} DigitRunSame(a: string, i: nat)
    ensures DigitRun(a, a, i, i, 0).i == DigitRun(a, a, i, i, 0).j
    ensures DigitRun(a, a, i, i, 0).firstDiff == 0
    decreases Measure(a, a, i, i)
  {
    if i < |a| - 1 && DigitAt(a, i) {
      DigitRunSame(a, i + 1);
    }
  }

  lemma {:induction false} OuterSame(a: string, i: nat)
    ensures Outer(a, a, i, i) == 0
    decreases Measure(a, a, i, i)
  {
    if i < |a| - 1 {
      NonDigitRunSame(a, i);
      var i1 := NonDigitRun(a, a, i, i).i;
      var i2 := SkipZeros(a, i1);
      DigitRunSame(a, i2);
      var c := DigitRun(a, a, i2, i2, 0);
      if !DigitAt(a, c.i) {
        OuterSame(a, c.i);
      }
    }
  }

  /** Only the last character bounds the loops: strings of at most one character all compare equal. */
  lemma FragmentCompareShortStrings(a: string, b: string)
    requires |a| <= 1 && |b| <= 1
    ensures FragmentCompare(a, b) == 0
  {
  }

  /** The comparison at line 305 discards the first differing digit: "12" and "22" compare equal. */
  lemma FragmentCompareDiscardsFirstDiff()
    ensures FragmentCompare("12", "22") == 0
  {
    assert NonDigitRun("12", "22", 0, 0) == Continue(0, 0);
    assert DigitRun("12", "22", 0, 0, 0) == Cursor(1, 1, -1);
  }

  /** A longer digit run need not win: "1" and "12" compare equal. */
  lemma FragmentCompareIgnoresLongerRun()
    ensures FragmentCompare("1", "12") == 0
  {
    assert NonDigitRun("1", "12", 0, 0) == Continue(0, 0);
    assert DigitRun("1", "12", 0, 0, 0) == Cursor(0, 0, 0);
  }

  /**
   * Swapping the arguments need not negate the result: "05" and "15" are each
   * greater than the other, because only one side's zeros are skipped.
   */
  lemma FragmentCompareNotAntisymmetric()
    ensures FragmentCompare("05", "15") == 1
    ensures FragmentCompare("15", "05") == 1
  {
    assert NonDigitRun("05", "15", 0, 0) == Continue(0, 0);
    assert SkipZeros("05", 0) == 1;
    assert DigitRun("05", "15", 1, 0, 0) == Cursor(1, 0, 0);
    assert NonDigitRun("15", "05", 0, 0) == Continue(0, 0);
    assert SkipZeros("05", 0) == 1;
    assert DigitRun("15", "05", 0, 1, 0) == Cursor(0, 1, 0);
  }

  /** The result is a raw difference of `order` values, not only -1, 0 or 1. */
  lemma FragmentCompareRawDifference()
    ensures FragmentCompare("a.", "c.") == -2
  {
    assert NonDigitRun("a.", "c.", 0, 0) == Return(-2, 0, 0);
  }

  /**
   * "1.0~beta" is older than "1.0", but not because of the `~`: in the second
   * round the '0' of "1.0" stands at its bound `strlen - 1`, so it is not
   * skipped as a zero and line 307 returns -1 on it before the `~` is read.
   */
  lemma FragmentCompareTilde()
    ensures FragmentCompare("1.0~beta", "1.0") < 0
  {
    var a, b := "1.0~beta", "1.0";
    assert NonDigitRun(a, b, 0, 0) == Continue(0, 0);
    assert DigitRun(a, b, 0, 0, 0) == Cursor(1, 1, 0);
    assert NonDigitRun(a, b, 1, 1) == Continue(2, 2);
    assert SkipZeros(a, 2) == 3;
    assert SkipZeros(b, 2) == 2;
    assert DigitRun(a, b, 3, 2, 0) == Cursor(3, 2, 0);
    assert Outer(a, b, 1, 1) == -1;
  }

  /** A `~` at the end of a string is never read: "1~" and "1" compare equal. */
  lemma FragmentCompareTildeAtEnd()
    ensures FragmentCompare("1~", "1") == 0
  {
    assert NonDigitRun("1~", "1", 0, 0) == Continue(0, 0);
    assert DigitRun("1~", "1", 0, 0, 0) == Cursor(0, 0, 0);
  }

  /**
   * "10" is older than "9": with `strlen("9") - 1 == 0` the digit loop never
   * runs, and line 305 compares the first digits '1' and '9'.
   */
  lemma FragmentCompareTenBelowNine()
    ensures FragmentCompare("10", "9") == -8
  {
    assert NonDigitRun("10", "9", 0, 0) == Continue(0, 0);
    assert DigitRun("10", "9", 0, 0, 0) == Cursor(0, 0, 0);
  }

  /**
   * "1.0" is newer than "1.0.1": in the second round the '0' of "1.0" stands
   * at its bound and is not skipped, while the '0' of "1.0.1" is; line 306
   * then returns 1 on the unskipped '0'.
   */
  lemma FragmentCompareShorterNewer()
    ensures FragmentCompare("1.0", "1.0.1") == 1
  {
    var a, b := "1.0", "1.0.1";
    assert NonDigitRun(a, b, 0, 0) == Continue(0, 0);
    assert SkipZeros(a, 0) == 0 && SkipZeros(b, 0) == 0;
    assert DigitRun(a, b, 0, 0, 0) == DigitRun(a, b, 1, 1, 0) by { }
    assert DigitRun(a, b, 1, 1, 0) == Cursor(1, 1, 0) by { }
    ShorterNewerSecondRound();
  }

  /** The second round of that comparison, from the '.' on both sides. */
  lemma ShorterNewerSecondRound()
    ensures Outer("1.0", "1.0.1", 1, 1) == 1
  {
    var a, b := "1.0", "1.0.1";
    assert NonDigitRun(a, b, 2, 2) == Continue(2, 2);
    assert NonDigitRun(a, b, 1, 1) == Continue(2, 2);
    assert SkipZeros(a, 2) == 2;
    assert SkipZeros(b, 3) == 3;
    assert SkipZeros(b, 2) == 3;
    assert DigitRun(a, b, 2, 3, 0) == Cursor(2, 3, 0);
  }

  // ---------------------------------------------------------------------------
  // dpkgvercmp: epoch, then version, then release
  // ---------------------------------------------------------------------------

  /**
   * The epoch of a version: the text before its first ':', or "0" when there
   * is no ':' or it stands at index 0 (`substr` then yields "").
   */
  function Epoch(v: string): (e: string)
    ensures (exists p | 0 < p < |v| :: v[p] == ':' && ':' !in v[..p]) ==> ':' !in e && e + ":" <= v
    ensures ':' !in v || v[0] == ':' ==> e == "0"
  {
    var p := StrPos(v, ':');
    var prefix := if p.Some? then v[..p.value] else "";
    if prefix == "" then "0" else prefix
  }

  /**
   * `dpkgvercmp`: differing epochs decide; otherwise the versions, still
   * carrying their "N:" prefix, and only when those compare 0 the releases.
   */
  function DpkgVerCmp(vera: string, rela: string, verb: string, relb: string): (r: int)
    ensures vera == verb && rela == relb ==> r == 0
  {
    var e := LooseCompare(Epoch(vera), Epoch(verb));
    if e != 0 then e
    else
      var r := FragmentCompare(vera, verb);
      if r != 0 then r else FragmentCompare(rela, relb)
  }

  /**
   * Differing epochs decide the result outright; equal epochs leave it to
   * the versions, and the releases matter only when the versions compare 0.
   */
  lemma DpkgVerCmpOrdering(vera: string, rela: string, verb: string, relb: string, rela': string, relb': string)
    ensures LooseCompare(Epoch(vera), Epoch(verb)) != 0 ==>
              DpkgVerCmp(vera, rela, verb, relb) == LooseCompare(Epoch(vera), Epoch(verb))
    ensures LooseCompare(Epoch(vera), Epoch(verb)) == 0 && FragmentCompare(vera, verb) != 0 ==>
              DpkgVerCmp(vera, rela, verb, relb) == FragmentCompare(vera, verb)
    ensures LooseCompare(Epoch(vera), Epoch(verb)) != 0 || FragmentCompare(vera, verb) != 0 ==>
              DpkgVerCmp(vera, rela, verb, relb) == DpkgVerCmp(vera, rela', verb, relb')
    ensures LooseCompare(Epoch(vera), Epoch(verb)) == 0 && FragmentCompare(vera, verb) == 0 ==>
              DpkgVerCmp(vera, rela, verb, relb) == FragmentCompare(rela, relb)
  {
  }

  /** Epoch 1 is older than epoch 2, whatever follows. */
  lemma DpkgVerCmpEpochExample()
    ensures DpkgVerCmp("1:2.0", "0", "2:1.0", "0") == -1
  {
    assert StrPos("1:2.0", ':') == Some(1);
    assert StrPos("2:1.0", ':') == Some(1);
    assert Epoch("1:2.0") == "1" && Epoch("2:1.0") == "2";
  }
}
