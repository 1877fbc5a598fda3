/**
 * `getVulnerablePkgs` of the vulnerability manager: for every package
 * installed on a host, fetch the vulnerability records with the package's
 * name, the host's OS group and a matching architecture, keep those whose
 * operator is "<" and whose threshold lies above the installed version, and
 * map the package id to the CVE definitions of the kept records.
 */
module VulnerabilityMatcher {
  import opened Php
  import opened RpmVersion
  import opened VersionCompare

  datatype Pkg = Pkg(id: int, name: string, version: string, release: string, arch: string)

  datatype Cve = Cve(id: int, name: string)

  datatype CveDef = CveDef(id: int, definitionId: string, cves: seq<Cve>)

  datatype Vulnerability = Vulnerability(
    id: int, name: string, version: string, release: string,
    arch: string, osGroupId: int, operator: string, cveDefId: int)

  /**
   * Everything `getVulnerablePkgs` reads about one host: its package type,
   * the id of its OS group, its installed packages (in inventory order), the
   * rows of the Vulnerability table (in row order), and the loader that
   * gives the CVE definition, CVEs included, with a given `cveDefId`.
   */
  datatype Host = Host(
    hostType: string,
    osGroupId: int,
    installed: seq<Pkg>,
    vulnerabilities: seq<Vulnerability>,
    loadCveDef: int -> CveDef)

  /** The PHP array returned: package id to CVE definitions, in insertion order. */
  type MatchResult = seq<Entry<seq<CveDef>>>

  // ---------------------------------------------------------------------------
  // The query of getVulnerabilitiesByPkgNameOsGroupIDArch
  // ---------------------------------------------------------------------------

  /** The WHERE clause: same name, same OS group, and arch "all" or equal. */
  predicate IsCandidate(v: Vulnerability, name: string, osGroupId: int, arch: string) {
    v.name == name && v.osGroupId == osGroupId && (v.arch == "all" || v.arch == arch)
  }

  /** The rows that pass the WHERE clause, in table order. */
  function CandidatesIn(rows: seq<Vulnerability>, name: string, osGroupId: int, arch: string): (r: seq<Vulnerability>)
    ensures forall v :: v in r <==> v in rows && IsCandidate(v, name, osGroupId, arch)
  {
    if rows == [] then []
    else
      var last := rows[|rows| - 1];
      assert rows == rows[..|rows| - 1] + [last];
      CandidatesIn(rows[..|rows| - 1], name, osGroupId, arch) +
        (if IsCandidate(last, name, osGroupId, arch) then [last] else [])
  }

  /** The records the query returns for package `p`. */
  function Candidates(h: Host, p: Pkg): seq<Vulnerability> {
    CandidatesIn(h.vulnerabilities, p.name, h.osGroupId, p.arch)
  }

  // ---------------------------------------------------------------------------
  // Confirmation and the result map
  // ---------------------------------------------------------------------------

  /** The `switch` on the operator: only "<" is defined, and it asks `vercmp(...) < 0`. */
  predicate Confirms(h: Host, p: Pkg, v: Vulnerability) {
    v.operator == "<" && VerCmp(h.hostType, p.version, p.release, v.version, v.release) < 0
  }

  /** The candidates that `Confirms` keeps, in their order. */
  function ConfirmAll(h: Host, p: Pkg, cands: seq<Vulnerability>): (r: seq<Vulnerability>)
    ensures forall v :: v in r <==> v in cands && Confirms(h, p, v)
  {
    if cands == [] then []
    else
      var last := cands[|cands| - 1];
      assert cands == cands[..|cands| - 1] + [last];
      ConfirmAll(h, p, cands[..|cands| - 1]) + (if Confirms(h, p, last) then [last] else [])
  }

  function Confirmed(h: Host, p: Pkg): seq<Vulnerability> {
    ConfirmAll(h, p, Candidates(h, p))
  }

  /** One CVE definition per record, in the records' order. */
  function LoadCveDefs(h: Host, recs: seq<Vulnerability>): (defs: seq<CveDef>)
    ensures |defs| == |recs|
    ensures forall q | 0 <= q < |recs| :: defs[q] == h.loadCveDef(recs[q].cveDefId)
  {
    if recs == [] then []
    else LoadCveDefs(h, recs[..|recs| - 1]) + [h.loadCveDef(recs[|recs| - 1].cveDefId)]
  }

  /** One round of the loop: package `p` enters the result only with confirmed records. */
  function MatchPkg(h: Host, m: MatchResult, p: Pkg): MatchResult
    requires DistinctKeys(m)
  {
    var confirmed := Confirmed(h, p);
    if confirmed == [] then m else Put(m, p.id, LoadCveDefs(h, confirmed))
  }

  /** The result after the packages `pkgs` have been processed in order. */
  function VulnerablePkgsOf(h: Host, pkgs: seq<Pkg>): (m: MatchResult)
    ensures DistinctKeys(m)
    ensures forall e | e in m :: e.value != []
  {
    if pkgs == [] then []
    else MatchPkg(h, VulnerablePkgsOf(h, pkgs[..|pkgs| - 1]), pkgs[|pkgs| - 1])
  }

  /** The result of `getVulnerablePkgs`: no package twice, none with an empty list. */
  function VulnerablePkgs(h: Host): (m: MatchResult)
    ensures DistinctKeys(m)
    ensures forall e | e in m :: e.value != []
  {
    VulnerablePkgsOf(h, h.installed)
  }

  /** The `switch` over the candidates of one installed package. */
  method ConfirmVulnerabilities(h: Host, installedPkg: Pkg, potential: seq<Vulnerability>)
    returns (confirmed: seq<Vulnerability>)
    ensures confirmed == ConfirmAll(h, installedPkg, potential)
  {
    confirmed := [];
    for c := 0 to |potential|
      invariant confirmed == ConfirmAll(h, installedPkg, potential[..c])
    {
      assert potential[..c + 1][..c] == potential[..c];
      var v := potential[c];
      if v.operator == "<" {
        if VerCmp(h.hostType, installedPkg.version, installedPkg.release, v.version, v.release) < 0 {
          confirmed := confirmed + [v];
        }
      }
    }
    assert potential[..|potential|] == potential;
  }

  /** The loop that fetches the CVE definition of each confirmed record. */
  method CollectCveDefs(h: Host, confirmed: seq<Vulnerability>) returns (cveDefs: seq<CveDef>)
    ensures cveDefs == LoadCveDefs(h, confirmed)
  {
    cveDefs := [];
    for d := 0 to |confirmed|
      invariant cveDefs == LoadCveDefs(h, confirmed[..d])
    {
      assert confirmed[..d + 1][..d] == confirmed[..d];
      cveDefs := cveDefs + [h.loadCveDef(confirmed[d].cveDefId)];
    }
    assert confirmed[..|confirmed|] == confirmed;
  }

  /** The body of the loop over the installed packages. */
  method CheckPkg(h: Host, vulnerablePkgs: MatchResult, installedPkg: Pkg) returns (r: MatchResult)
    requires DistinctKeys(vulnerablePkgs)
    ensures r == MatchPkg(h, vulnerablePkgs, installedPkg)
  {
    r := vulnerablePkgs;
    var potential := Candidates(h, installedPkg);
    if potential != [] {
      var confirmed := ConfirmVulnerabilities(h, installedPkg, potential);
      if confirmed != [] {
        var cveDefs := CollectCveDefs(h, confirmed);
        r := Put(r, installedPkg.id, cveDefs);
      }
    }
  }

  /** `getVulnerablePkgs($host)`. */
  method GetVulnerablePkgs(h: Host) returns (vulnerablePkgs: MatchResult)
    ensures vulnerablePkgs == VulnerablePkgs(h)
  {
    vulnerablePkgs := [];
    for n := 0 to |h.installed|
      invariant vulnerablePkgs == VulnerablePkgsOf(h, h.installed[..n])
    {
      assert h.installed[..n + 1][..n] == h.installed[..n];
      vulnerablePkgs := CheckPkg(h, vulnerablePkgs, h.installed[n]);
    }
    assert h.installed[..|h.installed|] == h.installed;
  }

  // ---------------------------------------------------------------------------
  // Properties
  // ---------------------------------------------------------------------------

  /**
   * A record is confirmed for a package exactly when it passes the query's
   * filter, its operator is "<" and the installed version is below it; a
   * record with any other operator is never confirmed.
   */
  lemma ConfirmedIff(h: Host, p: Pkg, v: Vulnerability)
    ensures v in Confirmed(h, p) <==>
              v in h.vulnerabilities && IsCandidate(v, p.name, h.osGroupId, p.arch) &&
              v.operator == "<" && VerCmp(h.hostType, p.version, p.release, v.version, v.release) < 0
    ensures v.operator != "<" ==> v !in Confirmed(h, p)
  {
  }

  /** The rows that pass both the query and the operator test, in one pass. */
  function MatchingRows(h: Host, p: Pkg, rows: seq<Vulnerability>): seq<Vulnerability> {
    if rows == [] then []
    else
      var last := rows[|rows| - 1];
      MatchingRows(h, p, rows[..|rows| - 1]) +
        (if IsCandidate(last, p.name, h.osGroupId, p.arch) && Confirms(h, p, last) then [last] else [])
  }

  lemma {:induction false} ConfirmAllOfCandidates(h: Host, p: Pkg, rows: seq<Vulnerability>)
    ensures ConfirmAll(h, p, CandidatesIn(rows, p.name, h.osGroupId, p.arch)) == MatchingRows(h, p, rows)
  {
    if rows != [] {
      var init := rows[..|rows| - 1];
      var last := rows[|rows| - 1];
      ConfirmAllOfCandidates(h, p, init);
      var ci := CandidatesIn(init, p.name, h.osGroupId, p.arch);
      if IsCandidate(last, p.name, h.osGroupId, p.arch) {
        var cs := ci + [last];
        assert cs[..|cs| - 1] == ci;
      } else {
        assert CandidatesIn(rows, p.name, h.osGroupId, p.arch) == ci;
      }
    }
  }

  /** The confirmed records keep the order of the Vulnerability table. */
  lemma ConfirmedInTableOrder(h: Host, p: Pkg)
    ensures Confirmed(h, p) == MatchingRows(h, p, h.vulnerabilities)
  {
    ConfirmAllOfCandidates(h, p, h.vulnerabilities);
  }

  /**
   * A package id is a key of the result exactly when some installed package
   * with that id has a confirmed record: packages with none are left out.
   */
  lemma {:induction false} VulnerablePkgsOfKeys(h: Host, pkgs: seq<Pkg>, k: int)
    ensures k in Keys(VulnerablePkgsOf(h, pkgs)) <==>
              exists n | 0 <= n < |pkgs| :: pkgs[n].id == k && Confirmed(h, pkgs[n]) != []
  {
    if pkgs != [] {
      var init := pkgs[..|pkgs| - 1];
      VulnerablePkgsOfKeys(h, init, k);
      var m := VulnerablePkgsOf(h, init);
      var p := pkgs[|pkgs| - 1];
      if Confirmed(h, p) != [] {
        var m' := Put(m, p.id, LoadCveDefs(h, Confirmed(h, p)));
        if p.id !in Keys(m) {
          assert Keys(m') == Keys(m) + [p.id];
        }
      }
      if exists n | 0 <= n < |pkgs| :: pkgs[n].id == k && Confirmed(h, pkgs[n]) != [] {
        var n :| 0 <= n < |pkgs| && pkgs[n].id == k && Confirmed(h, pkgs[n]) != [];
        if n < |pkgs| - 1 {
          assert init[n] == pkgs[n];
        }
      }
    }
  }

  lemma VulnerablePkgsKeys(h: Host, k: int)
    ensures k in Keys(VulnerablePkgs(h)) <==>
              exists n | 0 <= n < |h.installed| :: h.installed[n].id == k && Confirmed(h, h.installed[n]) != []
  {
    VulnerablePkgsOfKeys(h, h.installed, k);
  }

  /**
   * The entry of an installed package that has confirmed records holds one
   * CVE definition per confirmed record, in their order, unless a later
   * package with the same id and confirmed records overwrote it.
   */
  lemma {:induction false} VulnerablePkgsOfEntry(h: Host, pkgs: seq<Pkg>, n: nat)
    requires n < |pkgs| && Confirmed(h, pkgs[n]) != []
    requires forall m | n < m < |pkgs| && pkgs[m].id == pkgs[n].id :: Confirmed(h, pkgs[m]) == []
    ensures Lookup(VulnerablePkgsOf(h, pkgs), pkgs[n].id) == Some(LoadCveDefs(h, Confirmed(h, pkgs[n])))
  {
    var init := pkgs[..|pkgs| - 1];
    if n < |pkgs| - 1 {
      VulnerablePkgsOfEntry(h, init, n);
    }
  }

  lemma VulnerablePkgsEntry(h: Host, n: nat)
    requires n < |h.installed| && Confirmed(h, h.installed[n]) != []
    requires forall m | n < m < |h.installed| && h.installed[m].id == h.installed[n].id ::
               Confirmed(h, h.installed[m]) == []
    ensures Lookup(VulnerablePkgs(h), h.installed[n].id) == Some(LoadCveDefs(h, Confirmed(h, h.installed[n])))
    ensures |LoadCveDefs(h, Confirmed(h, h.installed[n]))| == |Confirmed(h, h.installed[n])|
  {
    VulnerablePkgsOfEntry(h, h.installed, n);
  }

  /**
   * On an "rpm" host, openssl 1.0.1-4 is below a "<" record for 1.0.1-5 with
   * arch "all": the package is reported with that record's CVE definition.
   */
  lemma OpensslScenario(load: int -> CveDef)
    ensures var pkg := Pkg(1, "openssl", "1.0.1", "4", "x86_64");
            var rec := Vulnerability(7, "openssl", "1.0.1", "5", "all", 3, "<", 9);
            VulnerablePkgs(Host("rpm", 3, [pkg], [rec], load)) == [Entry(1, [load(9)])]
  {
    var pkg := Pkg(1, "openssl", "1.0.1", "4", "x86_64");
    var rec := Vulnerability(7, "openssl", "1.0.1", "5", "all", 3, "<", 9);
    var h := Host("rpm", 3, [pkg], [rec], load);
    OpensslScenarioConfirmed(h);
    assert [pkg][..0] == [];
    assert VulnerablePkgsOf(h, [pkg][..0]) == [];
    assert LoadCveDefs(h, [rec]) == [load(9)];
  }

  /** In that scenario, release "4" is older than release "5" under rpm rules. */
  lemma OpensslScenarioReleases()
    ensures VerCmp("rpm", "1.0.1", "4", "1.0.1", "5") == -1
  {
    assert RunEnd("4", 0, true) == 1 && "4"[0..1] == "4" && TokensFrom("4", 1) == [];
    assert Tokens("4") == ["4"];
    assert RunEnd("5", 0, true) == 1 && "5"[0..1] == "5" && TokensFrom("5", 1) == [];
    assert Tokens("5") == ["5"];
    assert RpmVerCmp("4", "5") == -1;
  }

  /** In that scenario, the one record is both a candidate and confirmed. */
  lemma OpensslScenarioConfirmed(h: Host)
    requires h.installed == [Pkg(1, "openssl", "1.0.1", "4", "x86_64")]
    requires h.vulnerabilities == [Vulnerability(7, "openssl", "1.0.1", "5", "all", 3, "<", 9)]
    requires h.osGroupId == 3 && h.hostType == "rpm"
    ensures Confirmed(h, h.installed[0]) == h.vulnerabilities
  {
    var pkg, rec := h.installed[0], h.vulnerabilities[0];
    OpensslScenarioReleases();
    assert IsCandidate(rec, pkg.name, h.osGroupId, pkg.arch);
    assert [rec][..0] == [];
    assert CandidatesIn([rec][..0], pkg.name, h.osGroupId, pkg.arch) == [];
    assert Candidates(h, pkg) == [rec];
    assert Confirms(h, pkg, rec);
    assert ConfirmAll(h, pkg, [rec][..0]) == [];
  }

  /** A record for arch "x86" is not a candidate for a package built for "x86_64"; "all" is. */
  lemma ArchFilterExamples(v: Vulnerability, name: string, osGroupId: int)
    requires v.name == name && v.osGroupId == osGroupId
    ensures v.arch == "x86" ==> !IsCandidate(v, name, osGroupId, "x86_64")
    ensures v.arch == "all" ==> forall arch :: IsCandidate(v, name, osGroupId, arch)
  {
    assert "x86" != "x86_64" by { assert |"x86"| != |"x86_64"|; }
  }
}
