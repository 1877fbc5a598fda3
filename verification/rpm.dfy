/**
 * RPM-style version ordering (`rpm_split` and `rpmvercmp` of the
 * vulnerability manager): a version is cut into maximal runs of digits and
 * maximal runs of letters, every other character only separates runs, and
 * the runs are compared position by position.
 */
module RpmVersion {
  import opened Php

  // ---------------------------------------------------------------------------
  // Tokenisation
  // ---------------------------------------------------------------------------

  predicate InClass(c: char, digits: bool) {
    if digits then IsDigit(c) else IsAlpha(c)
  }

  /** The index just past the maximal run of the class `digits` that starts at `i`. */
  function RunEnd(s: string, i: nat, digits: bool): (e: nat)
    requires i <= |s|
    ensures i <= e <= |s|
    ensures forall q | i <= q < e :: InClass(s[q], digits)
    ensures e < |s| ==> !InClass(s[e], digits)
    decreases |s| - i
  {
    if i < |s| && InClass(s[i], digits) then RunEnd(s, i + 1, digits) else i
  }

  /** The tokens of `s[i..]`, as `rpm_split` collects them from cursor `i` on. */
  function TokensFrom(s: string, i: nat): seq<string>
    requires i <= |s|
    decreases |s| - i
  {
    if i == |s| then []
    else if !IsAlnum(s[i]) then TokensFrom(s, i + 1)
    else
      var e := RunEnd(s, i, IsDigit(s[i]));
      [s[i..e]] + TokensFrom(s, e)
  }

  function Tokens(s: string): seq<string> {
    TokensFrom(s, 0)
  }

  /** `rpm_split`: the digit and letter runs of `a`, in order. */
  method RpmSplit(a: string) returns (arr: seq<string>)
    ensures arr == Tokens(a)
  {
    arr := [];
    var i := 0;
    var l := |a|;
    while i < l
      invariant 0 <= i <= l
      invariant arr + TokensFrom(a, i) == Tokens(a)
    {
      while i < l && !IsAlnum(a[i])
        invariant 0 <= i <= l
        invariant arr + TokensFrom(a, i) == Tokens(a)
      {
        i := i + 1;
      }
      if i == l {
        break;
      }
      var start := i;
      if IsDigit(a[i]) {
        while i < l && IsDigit(a[i])
          invariant start <= i <= l
          invariant RunEnd(a, i, true) == RunEnd(a, start, true)
        {
          i := i + 1;
        }
      } else {
        while i < l && IsAlpha(a[i])
          invariant start <= i <= l
          invariant RunEnd(a, i, false) == RunEnd(a, start, false)
        {
          i := i + 1;
        }
      }
      arr := arr + [a[start..i]];
    }
  }

  /** Every token is a non-empty run of digits only or of letters only. */
  lemma {:induction false} TokensFromWellFormed(s: string, i: nat)
    requires i <= |s|
    ensures forall t | t in TokensFrom(s, i) :: CtypeDigit(t) || CtypeAlpha(t)
    decreases |s| - i
  {
    if i < |s| {
      if !IsAlnum(s[i]) {
        TokensFromWellFormed(s, i + 1);
      } else {
        var e := RunEnd(s, i, IsDigit(s[i]));
        TokensFromWellFormed(s, e);
        var t := s[i..e];
        assert forall q | 0 <= q < |t| :: InClass(t[q], IsDigit(s[i]));
      }
    }
  }

  lemma TokensWellFormed(s: string)
    ensures forall t | t in Tokens(s) :: CtypeDigit(t) || CtypeAlpha(t)
  {
    TokensFromWellFormed(s, 0);
  }

  /** The letters and digits of `s`, in order; every other character dropped. */
  function AlnumChars(s: string): (r: string)
    ensures forall q | 0 <= q < |r| :: IsAlnum(r[q])
  {
    if s == [] then []
    else (if IsAlnum(s[0]) then [s[0]] else []) + AlnumChars(s[1..])
  }

  function Flatten(ts: seq<string>): string {
    if ts == [] then [] else ts[0] + Flatten(ts[1..])
  }

  lemma {:induction false} AlnumCharsOfRun(s: string, i: nat, e: nat)
    requires i <= e <= |s|
    requires forall q | i <= q < e :: IsAlnum(s[q])
    ensures AlnumChars(s[i..]) == s[i..e] + AlnumChars(s[e..])
    decreases e - i
  {
    if i < e {
      assert s[i..][1..] == s[i + 1..];
      AlnumCharsOfRun(s, i + 1, e);
    }
  }

  lemma {:induction false} TokensFromConcat(s: string, i: nat)
    requires i <= |s|
    ensures Flatten(TokensFrom(s, i)) == AlnumChars(s[i..])
    decreases |s| - i
  {
    if i < |s| {
      assert s[i..][1..] == s[i + 1..];
      if !IsAlnum(s[i]) {
        TokensFromConcat(s, i + 1);
      } else {
        var e := RunEnd(s, i, IsDigit(s[i]));
        TokensFromConcat(s, e);
        AlnumCharsOfRun(s, i, e);
        assert TokensFrom(s, i)[1..] == TokensFrom(s, e);
      }
    }
  }

  /** Concatenating the tokens gives back `s` without its separators. */
  lemma TokensConcat(s: string)
    ensures Flatten(Tokens(s)) == AlnumChars(s)
  {
    TokensFromConcat(s, 0);
    assert s[0..] == s;
  }

  // ---------------------------------------------------------------------------
  // Comparison
  // ---------------------------------------------------------------------------

  /**
   * One position of `rpmvercmp`'s loop: a digit run beats a letter run; two
   * digit runs compare by value and two letter runs byte-wise, because PHP's
   * `>` and `<` compare two numeric strings as numbers.
   */
  function TokenCompare(x: string, y: string): (r: int)
    ensures -1 <= r <= 1
    ensures CtypeDigit(x) && CtypeAlpha(y) ==> r == 1
    ensures CtypeAlpha(x) && CtypeDigit(y) ==> r == -1
    ensures CtypeDigit(x) && CtypeDigit(y) ==> r == IntCompare(NumValue(x), NumValue(y))
    ensures CtypeAlpha(x) && CtypeAlpha(y) ==> r == LexCompare(x, y) && (r == 0 <==> x == y)
  {
    assert CtypeDigit(x) ==> IsDigit(x[0]);
    assert CtypeDigit(y) ==> IsDigit(y[0]);
    if CtypeDigit(x) && CtypeAlpha(y) then 1
    else if CtypeAlpha(x) && CtypeDigit(y) then -1
    else LooseCompare(x, y)
  }

  /** The loop of `rpmvercmp` over the two token lists. */
  function CompareTokenSeqs(xs: seq<string>, ys: seq<string>): (r: int)
    ensures -1 <= r <= 1
    decreases |xs|
  {
    if xs == [] then (if ys == [] then 0 else -1)
    else if ys == [] then 1
    else
      var c := TokenCompare(xs[0], ys[0]);
      if c != 0 then c else CompareTokenSeqs(xs[1..], ys[1..])
  }

  /** `rpmvercmp`: identical strings are equal, otherwise their tokens decide. */
  function RpmVerCmp(a: string, b: string): (r: int)
    ensures -1 <= r <= 1
    ensures a == b ==> r == 0
  {
    if a == b then 0 else CompareTokenSeqs(Tokens(a), Tokens(b))
  }

  lemma TokenCompareAntisymmetric(x: string, y: string)
    ensures TokenCompare(x, y) == -TokenCompare(y, x)
  {
    LooseCompareAntisymmetric(x, y);
  }

  lemma {:induction false} CompareTokenSeqsAntisymmetric(xs: seq<string>, ys: seq<string>)
    ensures CompareTokenSeqs(xs, ys) == -CompareTokenSeqs(ys, xs)
    decreases |xs|
  {
    if xs != [] && ys != [] {
      TokenCompareAntisymmetric(xs[0], ys[0]);
      CompareTokenSeqsAntisymmetric(xs[1..], ys[1..]);
    }
  }

  /** Swapping the arguments of `rpmvercmp` negates the result. */
  lemma RpmVerCmpAntisymmetric(a: string, b: string)
    ensures RpmVerCmp(a, b) == -RpmVerCmp(b, a)
  {
    CompareTokenSeqsAntisymmetric(Tokens(a), Tokens(b));
  }

  /**
   * The first position where the token lists compare unequal decides; when
   * every shared position compares equal, the longer list is the greater.
   */
  lemma {:induction false} CompareTokenSeqsFirstDifference(xs: seq<string>, ys: seq<string>, p: nat)
    requires p <= |xs| && p <= |ys|
    requires forall q | 0 <= q < p :: TokenCompare(xs[q], ys[q]) == 0
    ensures p < |xs| && p < |ys| && TokenCompare(xs[p], ys[p]) != 0 ==>
              CompareTokenSeqs(xs, ys) == TokenCompare(xs[p], ys[p])
    ensures p == |xs| || p == |ys| ==> CompareTokenSeqs(xs, ys) == IntCompare(|xs|, |ys|)
    decreases p
  {
    if p > 0 {
      assert TokenCompare(xs[0], ys[0]) == 0;
      CompareTokenSeqsFirstDifference(xs[1..], ys[1..], p - 1);
    }
  }

  /** `rpmvercmp` stated without its loop: the first differing token position decides. */
  lemma RpmVerCmpFirstDifference(a: string, b: string, p: nat)
    requires a != b
    requires p <= |Tokens(a)| && p <= |Tokens(b)|
    requires forall q | 0 <= q < p :: TokenCompare(Tokens(a)[q], Tokens(b)[q]) == 0
    ensures p < |Tokens(a)| && p < |Tokens(b)| && TokenCompare(Tokens(a)[p], Tokens(b)[p]) != 0 ==>
              RpmVerCmp(a, b) == TokenCompare(Tokens(a)[p], Tokens(b)[p])
    ensures p == |Tokens(a)| || p == |Tokens(b)| ==> RpmVerCmp(a, b) == IntCompare(|Tokens(a)|, |Tokens(b)|)
  {
    CompareTokenSeqsFirstDifference(Tokens(a), Tokens(b), p);
  }

  // ---------------------------------------------------------------------------
  // Worked examples, including the outcomes of numeric token comparison
  // ---------------------------------------------------------------------------

  /** The tokens of a three-character version "d.x" with alphanumeric ends. */
  lemma TokensOfDotted(s: string)
    requires |s| == 3 && IsAlnum(s[0]) && !IsAlnum(s[1]) && IsAlnum(s[2])
    ensures Tokens(s) == [[s[0]], [s[2]]]
  {
    assert RunEnd(s, 0, IsDigit(s[0])) == 1;
    assert RunEnd(s, 2, IsDigit(s[2])) == 3;
    assert s[0..1] == [s[0]] && s[2..3] == [s[2]];
    assert TokensFrom(s, 3) == [];
    assert TokensFrom(s, 2) == [[s[2]]];
    assert TokensFrom(s, 1) == [[s[2]]];
  }

  lemma RpmVerCmpNewerMinor()
    ensures RpmVerCmp("1.1", "1.0") == 1
  {
    TokensOfDotted("1.1");
    TokensOfDotted("1.0");
  }

  /** Digit runs compare by value, so "10" is newer than "9". */
  lemma RpmVerCmpNumericRuns()
    ensures RpmVerCmp("10", "9") == 1
  {
    assert RunEnd("10", 0, true) == 2;
    assert "10"[0..2] == "10";
    assert TokensFrom("10", 2) == [];
    assert Tokens("10") == ["10"];
    assert RunEnd("9", 0, true) == 1;
    assert "9"[0..1] == "9";
    assert TokensFrom("9", 1) == [];
    assert Tokens("9") == ["9"];
    assert NumValue("10") == 10 by {
      assert "10"[..1] == "1";
    }
  }

  /** A letter run loses to a digit run at the same position. */
  lemma RpmVerCmpLetterBelowDigit()
    ensures RpmVerCmp("1.a", "1.1") == -1
  {
    TokensOfDotted("1.a");
    TokensOfDotted("1.1");
  }

  /** A leading zero in a digit run is not significant: "1.09" equals "1.9". */
  lemma RpmVerCmpLeadingZero()
    ensures RpmVerCmp("1.09", "1.9") == 0
  {
    var s := "1.09";
    assert RunEnd(s, 0, true) == 1;
    assert RunEnd(s, 2, true) == 4;
    assert s[0..1] == "1" && s[2..4] == "09";
    assert TokensFrom(s, 4) == [];
    assert TokensFrom(s, 2) == ["09"];
    assert TokensFrom(s, 1) == ["09"];
    assert Tokens(s) == ["1", "09"];
    TokensOfDotted("1.9");
    assert NumValue("09") == 9 by {
      assert "09"[..1] == "0";
    }
  }

  /** Separators are not compared: "1.0" equals "1-0". */
  lemma RpmVerCmpSeparatorsIgnored()
    ensures RpmVerCmp("1.0", "1-0") == 0
  {
    TokensOfDotted("1.0");
    TokensOfDotted("1-0");
  }
}
