/**
 * `vercmp` of the vulnerability manager: pick the ordering by the host's
 * package type ("dpkg", "rpm", or anything else) and compare an installed
 * version and release with a vulnerable one.
 */
module VersionCompare {
  import opened Php
  import opened RpmVersion
  import opened DpkgVersion

  /**
   * Whether the first '-' of `ver` stands at an index above 0: `strpos`
   * yields `false` or 0 otherwise, and both fail the test `if (strpos(...))`.
   */
  predicate HasInnerDash(ver: string) {
    '-' in ver && ver[0] != '-'
  }

  /**
   * The dpkg branch's split: when the first '-' is at an index above 0 it
   * cuts the version, and the part after it replaces the release; otherwise the
   * version and the supplied release are kept.
   */
  function DpkgSplit(ver: string, rel: string): (vr: (string, string))
    ensures HasInnerDash(ver) ==> 0 < |vr.0| && '-' !in vr.0 && vr.0 + "-" + vr.1 == ver
    ensures !HasInnerDash(ver) ==> vr == (ver, rel)
  {
    match StrPos(ver, '-')
    case Some(p) =>
      if p > 0 then
        assert ver == ver[..p] + "-" + ver[p + 1..];
        (ver[..p], ver[p + 1..])
      else
        (ver, rel)
    case None => (ver, rel)
  }

  /** `vercmp($os, $ver_a, $rel_a, $ver_b, $rel_b)`. */
  function VerCmp(os: string, verA: string, relA: string, verB: string, relB: string): (r: int)
    ensures verA == verB && relA == relB ==> r == 0
    ensures os != "dpkg" ==> -1 <= r <= 1
  {
    if verA == verB && relA == relB then 0
    else if os == "dpkg" then
      var (va, ra) := DpkgSplit(verA, relA);
      var (vb, rb) := DpkgSplit(verB, relB);
      DpkgVerCmp(va, ra, vb, rb)
    else if os == "rpm" then
      var c := RpmVerCmp(verA, verB);
      if c == 0 then RpmVerCmp(relA, relB) else c
    else
      RpmVerCmp(verA + "-" + relA, verB + "-" + relB)
  }

  /**
   * With "rpm" the versions decide whenever they differ under `rpmvercmp`,
   * and the releases are consulted only when the versions compare 0.
   */
  lemma VerCmpRpm(verA: string, relA: string, verB: string, relB: string, relA': string, relB': string)
    ensures RpmVerCmp(verA, verB) != 0 ==>
              VerCmp("rpm", verA, relA, verB, relB) == RpmVerCmp(verA, verB) &&
              VerCmp("rpm", verA, relA, verB, relB) == VerCmp("rpm", verA, relA', verB, relB')
    ensures RpmVerCmp(verA, verB) == 0 ==> VerCmp("rpm", verA, relA, verB, relB) == RpmVerCmp(relA, relB)
  {
  }

  /** Any tag other than "dpkg" and "rpm" compares `ver-rel` on each side with `rpmvercmp`. */
  lemma VerCmpFallback(os: string, verA: string, relA: string, verB: string, relB: string)
    requires os != "dpkg" && os != "rpm"
    ensures VerCmp(os, verA, relA, verB, relB) == RpmVerCmp(verA + "-" + relA, verB + "-" + relB)
  {
  }

  /**
   * With "dpkg", a version without an inner '-' is compared together with
   * the supplied release, and the supplied releases are never read once both
   * versions carry their own.
   */
  lemma VerCmpDpkg(verA: string, relA: string, verB: string, relB: string, relA': string, relB': string)
    ensures !HasInnerDash(verA) && !HasInnerDash(verB) ==>
              VerCmp("dpkg", verA, relA, verB, relB) == DpkgVerCmp(verA, relA, verB, relB)
    ensures HasInnerDash(verA) && HasInnerDash(verB) ==>
              VerCmp("dpkg", verA, relA, verB, relB) == VerCmp("dpkg", verA, relA', verB, relB')
  {
  }

  /** Outside "dpkg", swapping the installed and the vulnerable side negates the result. */
  lemma VerCmpAntisymmetric(os: string, verA: string, relA: string, verB: string, relB: string)
    requires os != "dpkg"
    ensures VerCmp(os, verA, relA, verB, relB) == -VerCmp(os, verB, relB, verA, relA)
  {
    RpmVerCmpAntisymmetric(verA, verB);
    RpmVerCmpAntisymmetric(relA, relB);
    RpmVerCmpAntisymmetric(verA + "-" + relA, verB + "-" + relB);
  }

  /**
   * A leading '-' prevents any split: "-1-2" keeps the supplied release,
   * while "1-2" is cut into "1" and "2" and "1.0-rc1-2" at its first '-'.
   */
  lemma DpkgSplitExamples()
    ensures DpkgSplit("-1-2", "5") == ("-1-2", "5")
    ensures DpkgSplit("1-2", "5") == ("1", "2")
    ensures DpkgSplit("1.0-rc1-2", "") == ("1.0", "rc1-2")
  {
    assert StrPos("-1-2", '-') == Some(0);
    assert StrPos("1-2", '-') == Some(1);
    assert "1-2"[..1] == "1" && "1-2"[2..] == "2";
    assert StrPos("1.0-rc1-2", '-') == Some(3);
    assert "1.0-rc1-2"[..3] == "1.0" && "1.0-rc1-2"[4..] == "rc1-2";
  }
}
