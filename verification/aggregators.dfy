/**
 * The three views built on `getVulnerablePkgs`: the CVE names of every
 * vulnerable package (`getCvesForPkgs`), the number of CVEs on a host
 * (`getHostCvesCount`) and the CVE lists of one package (`getCvesForPkg`).
 */
module CveAggregators {
  import opened Php
  import opened VulnerabilityMatcher

  // ---------------------------------------------------------------------------
  // Specification functions
  // ---------------------------------------------------------------------------

  /** The names of a list of CVEs, in order. */
  function CveNamesOf(cves: seq<Cve>): (names: seq<string>)
    ensures |names| == |cves|
    ensures forall q | 0 <= q < |cves| :: names[q] == cves[q].name
  {
    if cves == [] then [] else CveNamesOf(cves[..|cves| - 1]) + [cves[|cves| - 1].name]
  }

  /** The names of the CVEs of each definition, one definition after the other. */
  function CveNames(defs: seq<CveDef>): seq<string> {
    if defs == [] then [] else CveNames(defs[..|defs| - 1]) + CveNamesOf(defs[|defs| - 1].cves)
  }

  /** How many CVEs the definitions hold together, duplicates included. */
  function CveCount(defs: seq<CveDef>): nat {
    if defs == [] then 0 else CveCount(defs[..|defs| - 1]) + |defs[|defs| - 1].cves|
  }

  /** The CVE list of each definition, in order. */
  function CveLists(defs: seq<CveDef>): (lists: seq<seq<Cve>>)
    ensures |lists| == |defs|
    ensures forall q | 0 <= q < |defs| :: lists[q] == defs[q].cves
  {
    if defs == [] then [] else CveLists(defs[..|defs| - 1]) + [defs[|defs| - 1].cves]
  }

  /**
   * The result of `getCvesForPkgs` for a given result of `getVulnerablePkgs`:
   * the same package ids, in the same order.
   */
  function CvesPerPkg(m: MatchResult): (r: seq<Entry<seq<string>>>)
    ensures Keys(r) == Keys(m)
  {
    if m == [] then []
    else CvesPerPkg(m[..|m| - 1]) + [Entry(m[|m| - 1].key, CveNames(m[|m| - 1].value))]
  }

  /** The sum of the lengths of the values of an array of name lists. */
  function TotalNames(m: seq<Entry<seq<string>>>): nat {
    if m == [] then 0 else TotalNames(m[..|m| - 1]) + |m[|m| - 1].value|
  }

  /**
   * The result of `getHostCvesCount` for a given result of `getVulnerablePkgs`:
   * the number of names `getCvesForPkgs` lists, duplicates included, so a CVE
   * shared by two definitions or two packages counts once per occurrence.
   */
  function CountCves(m: MatchResult): (count: nat)
    ensures count == TotalNames(CvesPerPkg(m))
  {
    if m == [] then 0
    else
      var init, last := m[..|m| - 1], m[|m| - 1];
      CveNamesLength(last.value);
      var r := CvesPerPkg(init) + [Entry(last.key, CveNames(last.value))];
      assert r[..|r| - 1] == CvesPerPkg(init);
      CountCves(init) + CveCount(last.value)
  }

  /**
   * The result of `getCvesForPkg` for a given result of `getVulnerablePkgs`:
   * nothing for an absent id, otherwise the CVE list of each definition
   * stored under the id.
   */
  function CvesOfPkg(m: MatchResult, pkgId: int): (lists: seq<seq<Cve>>)
    ensures pkgId !in Keys(m) ==> lists == []
    ensures DistinctKeys(m) ==>
              forall q | 0 <= q < |m| && m[q].key == pkgId :: lists == CveLists(m[q].value)
  {
    match Lookup(m, pkgId)
    case None => []
    case Some(defs) => CveLists(defs)
  }

  // ---------------------------------------------------------------------------
  // The methods
  // ---------------------------------------------------------------------------

  /** The two inner loops of `getCvesForPkgs`: every CVE name of every definition. */
  method CollectCveNames(vulnerablePkg: seq<CveDef>) returns (cves: seq<string>)
    ensures cves == CveNames(vulnerablePkg)
  {
    cves := [];
    for d := 0 to |vulnerablePkg|
      invariant cves == CveNames(vulnerablePkg[..d])
    {
      assert vulnerablePkg[..d + 1][..d] == vulnerablePkg[..d];
      var cveDef := vulnerablePkg[d];
      for c := 0 to |cveDef.cves|
        invariant cves == CveNames(vulnerablePkg[..d]) + CveNamesOf(cveDef.cves[..c])
      {
        assert cveDef.cves[..c + 1][..c] == cveDef.cves[..c];
        cves := cves + [cveDef.cves[c].name];
      }
      assert cveDef.cves[..|cveDef.cves|] == cveDef.cves;
    }
    assert vulnerablePkg[..|vulnerablePkg|] == vulnerablePkg;
  }

  /** The outer loop of `getCvesForPkgs`, over the result of `getVulnerablePkgs`. */
  method CvesForPkgs(vulnerablePkgs: MatchResult) returns (pkgsCves: seq<Entry<seq<string>>>)
    requires DistinctKeys(vulnerablePkgs)
    ensures pkgsCves == CvesPerPkg(vulnerablePkgs)
  {
    pkgsCves := [];
    for n := 0 to |vulnerablePkgs|
      invariant pkgsCves == CvesPerPkg(vulnerablePkgs[..n])
    {
      var packageId, vulnerablePkg := vulnerablePkgs[n].key, vulnerablePkgs[n].value;
      var cves := CollectCveNames(vulnerablePkg);
      KeyNotInPrefix(vulnerablePkgs, n);
      assert vulnerablePkgs[..n + 1][..n] == vulnerablePkgs[..n];
      pkgsCves := Put(pkgsCves, packageId, cves);
    }
    assert vulnerablePkgs[..|vulnerablePkgs|] == vulnerablePkgs;
  }

  /** `getCvesForPkgs($host)`. */
  method GetCvesForPkgs(h: Host) returns (pkgsCves: seq<Entry<seq<string>>>)
    ensures pkgsCves == CvesPerPkg(VulnerablePkgs(h))
  {
    var vulnerablePkgs := GetVulnerablePkgs(h);
    pkgsCves := CvesForPkgs(vulnerablePkgs);
  }

  /** The inner loop of `getHostCvesCount`: the CVEs of the definitions of one package. */
  method CountDefCves(vulnerablePkg: seq<CveDef>) returns (count: int)
    ensures count == CveCount(vulnerablePkg)
  {
    count := 0;
    for d := 0 to |vulnerablePkg|
      invariant count == CveCount(vulnerablePkg[..d])
    {
      assert vulnerablePkg[..d + 1][..d] == vulnerablePkg[..d];
      count := count + |vulnerablePkg[d].cves|;
    }
    assert vulnerablePkg[..|vulnerablePkg|] == vulnerablePkg;
  }

  /** The outer loop of `getHostCvesCount`, over the result of `getVulnerablePkgs`. */
  method CountHostCves(vulnerablePkgs: MatchResult) returns (count: int)
    ensures count == CountCves(vulnerablePkgs)
  {
    count := 0;
    for n := 0 to |vulnerablePkgs|
      invariant count == CountCves(vulnerablePkgs[..n])
    {
      CountCvesStep(vulnerablePkgs, n);
      var pkgCount := CountDefCves(vulnerablePkgs[n].value);
      count := count + pkgCount;
    }
    assert vulnerablePkgs[..|vulnerablePkgs|] == vulnerablePkgs;
  }

  /** One more package adds the CVE count of its definitions. */
  lemma CountCvesStep(m: MatchResult, n: nat)
    requires n < |m|
    ensures CountCves(m[..n + 1]) == CountCves(m[..n]) + CveCount(m[n].value)
  {
    assert m[..n + 1][..n] == m[..n];
  }

  /** `getHostCvesCount($host)`. */
  method GetHostCvesCount(h: Host) returns (count: int)
    ensures count == CountCves(VulnerablePkgs(h))
  {
    var vulnerablePkgs := GetVulnerablePkgs(h);
    count := CountHostCves(vulnerablePkgs);
  }

  /** `getCvesForPkg($host, $pkg)`, for the package id `pkgId`. */
  method GetCvesForPkg(h: Host, pkgId: int) returns (cves: seq<seq<Cve>>)
    ensures cves == CvesOfPkg(VulnerablePkgs(h), pkgId)
  {
    cves := [];
    var vulnerablePkgs := GetVulnerablePkgs(h);
    var found := Lookup(vulnerablePkgs, pkgId);
    if found.Some? {
      var defs: seq<CveDef> := found.value;
      for d := 0 to |defs|
        invariant cves == CveLists(defs[..d])
      {
        assert defs[..d + 1][..d] == defs[..d];
        cves := cves + [defs[d].cves];
      }
      assert defs[..|defs|] == defs;
    }
  }

  // ---------------------------------------------------------------------------
  // Properties
  // ---------------------------------------------------------------------------

  /** The number of names of a list of definitions is its number of CVEs. */
  lemma {:induction false} CveNamesLength(defs: seq<CveDef>)
    ensures |CveNames(defs)| == CveCount(defs)
  {
    if defs != [] {
      CveNamesLength(defs[..|defs| - 1]);
    }
  }

  /** The names of the CVE lists of some definitions, concatenated. */
  function NamesOfLists(lists: seq<seq<Cve>>): seq<string> {
    if lists == [] then [] else NamesOfLists(lists[..|lists| - 1]) + CveNamesOf(lists[|lists| - 1])
  }

  lemma {:induction false} NamesOfCveLists(defs: seq<CveDef>)
    ensures NamesOfLists(CveLists(defs)) == CveNames(defs)
  {
    if defs != [] {
      NamesOfCveLists(defs[..|defs| - 1]);
      var ls := CveLists(defs);
      assert ls[..|ls| - 1] == CveLists(defs[..|defs| - 1]);
    }
  }

  /**
   * `getCvesForPkg` and `getCvesForPkgs` agree: a package id listed by the
   * latter gets from the former its CVE lists, whose names are the listed
   * names; any other id gets the empty list.
   */
  lemma {:induction false} CvesOfPkgAgrees(m: MatchResult, pkgId: int)
    requires DistinctKeys(m)
    ensures pkgId !in Keys(CvesPerPkg(m)) ==> CvesOfPkg(m, pkgId) == []
    ensures pkgId in Keys(CvesPerPkg(m)) ==>
              Lookup(CvesPerPkg(m), pkgId) == Some(NamesOfLists(CvesOfPkg(m, pkgId)))
  {
    if m != [] {
      var init := m[..|m| - 1];
      var last := m[|m| - 1];
      assert DistinctKeys(init);
      CvesOfPkgAgrees(init, pkgId);
      NamesOfCveLists(last.value);
      if pkgId != last.key {
        var r := CvesPerPkg(init) + [Entry(last.key, CveNames(last.value))];
        assert Lookup(r, pkgId) == Lookup(CvesPerPkg(init), pkgId);
        assert Keys(m) == Keys(init) + [last.key];
      }
    }
  }

  /**
   * For a host: `getCvesForPkg` is empty exactly for the ids that are not
   * vulnerable, and for a vulnerable id the names of its CVE lists are what
   * `getCvesForPkgs` lists for that id.
   */
  lemma CvesForPkgOfHost(h: Host, pkgId: int)
    ensures CvesOfPkg(VulnerablePkgs(h), pkgId) == [] <==> pkgId !in Keys(VulnerablePkgs(h))
    ensures pkgId in Keys(VulnerablePkgs(h)) ==>
              Lookup(CvesPerPkg(VulnerablePkgs(h)), pkgId) ==
                Some(NamesOfLists(CvesOfPkg(VulnerablePkgs(h), pkgId)))
  {
    var m := VulnerablePkgs(h);
    CvesOfPkgAgrees(m, pkgId);
    match Lookup(m, pkgId)
    case None =>
    case Some(defs) =>
      var q :| 0 <= q < |m| && m[q] == Entry(pkgId, defs);
      assert m[q] in m;
  }
}
