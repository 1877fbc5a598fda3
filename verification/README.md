# Pakiti vulnerability matching, modelled in Dafny

Pakiti collects the installed packages of each host. Its `VulnerabilitiesManager` decides which packages are vulnerable. For every installed package:

- It fetches the vulnerability records that share the package's name, the host's OS group and its architecture (or "all").
- It keeps the records whose operator is "<" and whose version-release lies above the installed one.
- It maps the package id to the CVE definitions of the kept records.

Three views are built on that map:
- the CVE names of each vulnerable package;
- the number of CVEs on the host;
- the CVE lists of one package.

Deciding "lies above" uses the manager's own version orderings, which depend on the host's package type:
- an imitation of RPM's `rpmvercmp`;
- a loose imitation of the Debian comparison (epoch, then upstream version, then revision);
- for any other type, RPM's ordering on `version-release`.

The project models these operations as they are written, quirks included. It proves what they guarantee, and exhibits where they depart from the orderings they imitate.

Modules:

- `Php` (`php.dfy`): the PHP behaviour the code relies on.
  - `ctype_digit`, `ctype_alpha` and `ctype_alnum` in the C locale, and `ord`.
  - A string offset past the end yields "".
  - `strpos`.
  - The loose `<` and `>` between two strings: two digit strings compare by value, anything else byte-wise.
  - Arrays with integer keys, as ordered sequences of entries. Assigning to a key keeps its position, and a new key goes at the end.
- `RpmVersion` (`rpm.dfy`): `rpm_split` and `rpmvercmp`.
  - `RpmSplit` is the source's cursor loop, proved equal to the tokenisation function `Tokens`.
  - `rpmvercmp` is a recursive comparison of the two token lists.
- `DpkgVersion` (`dpkg.dfy`): `order`, `dpkgvercmp_in` and `dpkgvercmp`.
  - `dpkgvercmp_in` is defined as a state machine over its two cursors (`Outer` and the three inner runs).
  - The method `DpkgVerCmpIn` runs the source's loops and is proved equal to it.
- `VersionCompare` (`vercmp.dfy`): `vercmp`, with the dpkg branch's version/release split.
- `VulnerabilityMatcher` (`matcher.dfy`): the candidate query as a filter over the Vulnerability table, and `getVulnerablePkgs` as a method proved equal to a fold over the installed packages.
- `CveAggregators` (`aggregators.dfy`): `getCvesForPkgs`, `getHostCvesCount` and `getCvesForPkg`. Each is a method over the result of `getVulnerablePkgs`, proved equal to a specification function.

Behaviour of the code worth knowing, all of it modelled as written:

- **Digit tokens in `rpmvercmp` compare by value.** Lines 334-337 use PHP's `>` and `<` on two strings, and for two digit strings PHP compares the numbers. So "10" is newer than "9", and "1.09" equals "1.9".
- **The doc comments of `rpmvercmp` and `dpkgvercmp` promise -1, 0 or 1.** `rpmvercmp` keeps that promise. `dpkgvercmp_in` returns raw differences of `order` values and bytes, so only the sign of `dpkgvercmp` is meaningful.
- **`dpkgvercmp_in` is not antisymmetric.** "05" and "15" each compare greater than the other.
- **`dpkgvercmp_in` orders some versions the wrong way round.** "10" is older than "9", because with `strlen("9") - 1 == 0` the digit loop never runs and line 305 compares only the first digits. So on a dpkg host an installed "10" is reported as vulnerable to a "<" record for "9".
- **A shorter version can come out newer.** "1.0" is newer than "1.0.1", because the final '0' of "1.0" is never skipped as a zero and line 306 returns 1 on it. So an installed "1.0" is not matched by a "<" record for "1.0.1".
- **`getCvesForPkg` returns one CVE list per CVE definition of the package**, not the definitions themselves.

## Model

| member | source | states |
|---|---|---|
| Php.CharAt | lib/managers/VulnerabilitiesManager.php:291-307 | a string offset yields one character inside the string and "" past its end |
| Php.StrPos | lib/managers/VulnerabilitiesManager.php:213-222 | `strpos` gives the first index of the character, or nothing exactly when it does not occur |
| Php.LooseCompare | lib/managers/VulnerabilitiesManager.php:334-337 | PHP's string `<`/`>` yields a sign in -1..1 |
| Php.LexCompare | lib/managers/VulnerabilitiesManager.php:322 | byte-wise comparison is 0 exactly for equal strings |
| Php.LexCompareBelow | lib/managers/VulnerabilitiesManager.php:322 | byte-wise comparison gives -1 exactly when the strings agree up to some position where the first ends while the second goes on, or the first holds the smaller byte |
| Php.LooseCompareAntisymmetric | lib/managers/VulnerabilitiesManager.php:334-337 | swapping the operands of the loose comparison negates it |
| Php.NumValueLeadingZero | lib/managers/VulnerabilitiesManager.php:334-337 | a leading zero does not change the value of a digit string, so "09" and "9" compare equal |
| Php.Put | lib/managers/VulnerabilitiesManager.php:108 | assigning `$m[$k]` keeps keys distinct, makes `$k` map to the new value, leaves every other key alone, keeps the key order when `$k` existed and appends it otherwise |
| Php.KeyNotInPrefix | lib/managers/VulnerabilitiesManager.php:121-128 | in an array with distinct keys, the key at position n does not occur before it, so each pass of a `foreach` over the array appends a new key |
| Php.Lookup | lib/managers/VulnerabilitiesManager.php:147-148 | `array_key_exists` fails exactly for absent keys; otherwise the value stored under the key is returned |
| RpmVersion.RunEnd | lib/managers/VulnerabilitiesManager.php:253-259 | the inner loop stops at the end of the maximal digit or letter run |
| RpmVersion.RpmSplit | lib/managers/VulnerabilitiesManager.php:240-265 | `rpm_split` returns exactly the digit and letter runs of the input, in order, skipping every other character |
| RpmVersion.TokensWellFormed | lib/managers/VulnerabilitiesManager.php:240-265 | every token is non-empty and all digits or all letters |
| RpmVersion.TokensConcat | lib/managers/VulnerabilitiesManager.php:240-265 | the tokens concatenated give the input with its non-alphanumeric characters removed |
| RpmVersion.TokenCompare | lib/managers/VulnerabilitiesManager.php:330-337 | a digit token beats a letter token; two digit tokens compare by numeric value; two letter tokens compare byte-wise (`LexCompare`), equal only when identical |
| RpmVersion.CompareTokenSeqs | lib/managers/VulnerabilitiesManager.php:325-341 | the token loop returns -1, 0 or 1 |
| RpmVersion.RpmVerCmp | lib/managers/VulnerabilitiesManager.php:320-342 | `rpmvercmp` returns 0 on identical strings and otherwise only -1, 0 or 1 |
| RpmVersion.CompareTokenSeqsAntisymmetric | lib/managers/VulnerabilitiesManager.php:325-341 | swapping the token lists negates the loop's result |
| RpmVersion.RpmVerCmpAntisymmetric | lib/managers/VulnerabilitiesManager.php:320-342 | swapping the arguments of `rpmvercmp` negates the result |
| RpmVersion.CompareTokenSeqsFirstDifference | lib/managers/VulnerabilitiesManager.php:327-341 | the first position whose tokens differ decides; when one list runs out first, the longer list is greater |
| RpmVersion.RpmVerCmpFirstDifference | lib/managers/VulnerabilitiesManager.php:320-342 | the same rule stated for `rpmvercmp` on two different strings |
| RpmVersion.RpmVerCmpNewerMinor | lib/managers/VulnerabilitiesManager.php:320-342 | "1.1" is newer than "1.0" |
| RpmVersion.RpmVerCmpNumericRuns | lib/managers/VulnerabilitiesManager.php:334-335 | "10" is newer than "9": digit runs compare by value |
| RpmVersion.RpmVerCmpLetterBelowDigit | lib/managers/VulnerabilitiesManager.php:332-333 | "1.a" is older than "1.1": a letter run loses to a digit run |
| RpmVersion.RpmVerCmpLeadingZero | lib/managers/VulnerabilitiesManager.php:334-337 | "1.09" and "1.9" compare 0 although they differ |
| RpmVersion.RpmVerCmpSeparatorsIgnored | lib/managers/VulnerabilitiesManager.php:247-248 | "1.0" and "1-0" compare 0: separators only split runs |
| DpkgVersion.Order | lib/managers/VulnerabilitiesManager.php:270-278 | `order` gives -1 exactly to '~'; 0 exactly to "", a digit string or NUL; a value below 256 to a letter string; 256 or more exactly to anything else |
| DpkgVersion.OrderOfChar | lib/managers/VulnerabilitiesManager.php:270-278 | `order` gives -1 exactly to '~'; 0 to "", digits and NUL; a letter its code; any other byte its code plus 256 |
| DpkgVersion.OrderRanks | lib/managers/VulnerabilitiesManager.php:270-278 | '~' ranks below every other character and below the end of a string; every non-alphanumeric byte other than '~' and NUL ranks above every letter |
| DpkgVersion.NonDigitRun | lib/managers/VulnerabilitiesManager.php:291-297 | when the non-digit loop runs to its end, it stops where neither side is on a non-digit below its bound, both cursors having moved together and the measure having dropped whenever they moved |
| DpkgVersion.SkipZeros | lib/managers/VulnerabilitiesManager.php:298-299 | the zero-skipping loop passes only '0's below the bound `strlen - 1` and stops at the first non-'0' or at that bound |
| DpkgVersion.DigitRun | lib/managers/VulnerabilitiesManager.php:300-304 | the digit loop exits where the two sides no longer both sit on a digit below their bounds, both cursors having moved together and the measure having dropped whenever they moved |
| DpkgVersion.DigitRunPassed | lib/managers/VulnerabilitiesManager.php:300-304 | every position the digit loop stepped over held a digit below the bound on both sides, so it stops at the first position where either side leaves its digit run or reaches its bound |
| DpkgVersion.DigitRunKeepsFirstDiff | lib/managers/VulnerabilitiesManager.php:301 | once `first_diff` is non-zero, the digit loop leaves it unchanged |
| DpkgVersion.DigitRunFirstDiff | lib/managers/VulnerabilitiesManager.php:300-304 | started from 0, `first_diff` ends as the first non-zero `ord` difference of the digits read, and is 0 exactly when all the digits read were equal |
| DpkgVersion.CompareNonDigits | lib/managers/VulnerabilitiesManager.php:291-297 | the first inner loop computes `NonDigitRun`, early return included |
| DpkgVersion.NonDigitRunStep | lib/managers/VulnerabilitiesManager.php:291-297 | one pass of the non-digit loop returns the `order` difference when it is non-zero and otherwise moves both cursors on, lowering the measure |
| DpkgVersion.NonDigitRunReturn | lib/managers/VulnerabilitiesManager.php:291-295 | an early return of the non-digit loop happens at cursors that moved together and still satisfy the loop guard, and returns the non-zero difference of the `order` values read there |
| DpkgVersion.SkipZeroDigits | lib/managers/VulnerabilitiesManager.php:298-299 | each zero-skipping loop computes `SkipZeros` |
| DpkgVersion.CompareDigits | lib/managers/VulnerabilitiesManager.php:300-304 | the digit loop computes `DigitRun`; `DigitRunFirstDiff` states what `first_diff` then holds |
| DpkgVersion.FragmentCompare | lib/managers/VulnerabilitiesManager.php:283-311 | `dpkgvercmp_in` compares a string with itself as 0 |
| DpkgVersion.OuterSame | lib/managers/VulnerabilitiesManager.php:289-309 | from equal cursors on the same string, every round of the outer loop falls through its checks, so the loop ends with 0 |
| DpkgVersion.OuterRound | lib/managers/VulnerabilitiesManager.php:289-309 | one round of the outer loop ends in the checks of lines 305-308, and a round that falls through makes progress |
| DpkgVersion.DpkgVerCmpIn | lib/managers/VulnerabilitiesManager.php:283-311 | `dpkgvercmp_in` terminates and returns exactly `FragmentCompare(a, b)` |
| DpkgVersion.FragmentCompareShortStrings | lib/managers/VulnerabilitiesManager.php:287-289 | strings of at most one character always compare 0, because the loops stop at `strlen - 1` |
| DpkgVersion.FragmentCompareDiscardsFirstDiff | lib/managers/VulnerabilitiesManager.php:305 | "12" and "22" compare 0: the check on the last digit discards the first difference |
| DpkgVersion.FragmentCompareIgnoresLongerRun | lib/managers/VulnerabilitiesManager.php:305-308 | "1" and "12" compare 0 |
| DpkgVersion.FragmentCompareNotAntisymmetric | lib/managers/VulnerabilitiesManager.php:298-306 | "05" vs "15" and "15" vs "05" are both 1 |
| DpkgVersion.FragmentCompareRawDifference | lib/managers/VulnerabilitiesManager.php:294 | "a." vs "c." returns -2, not -1 |
| DpkgVersion.FragmentCompareTilde | lib/managers/VulnerabilitiesManager.php:298-307 | "1.0~beta" is older than "1.0", but only because the last '0' of "1.0" is not skipped (its bound is `strlen - 1`) and line 307 returns -1 on it; the `~` is never read |
| DpkgVersion.FragmentCompareTildeAtEnd | lib/managers/VulnerabilitiesManager.php:289-309 | "1~" and "1" compare 0: a `~` in the last position is never read |
| DpkgVersion.FragmentCompareTenBelowNine | lib/managers/VulnerabilitiesManager.php:287-305 | "10" compares -8 against "9": the digit loop never runs and line 305 compares '1' with '9' |
| DpkgVersion.FragmentCompareShorterNewer | lib/managers/VulnerabilitiesManager.php:289-306 | "1.0" compares 1 against "1.0.1": the final '0' of "1.0" is not skipped and line 306 returns 1 |
| DpkgVersion.Epoch | lib/managers/VulnerabilitiesManager.php:353-357 | the epoch is the text before the first ':', or "0" when there is no ':' or it stands first |
| DpkgVersion.DpkgVerCmp | lib/managers/VulnerabilitiesManager.php:350-367 | `dpkgvercmp` compares an identical version and release as 0; `DpkgVerCmpOrdering` states how epoch, version and release decide |
| DpkgVersion.DpkgVerCmpOrdering | lib/managers/VulnerabilitiesManager.php:350-367 | differing epochs decide outright; otherwise the versions, still carrying their epoch prefix, decide; the releases count only when the versions compare 0 |
| DpkgVersion.DpkgVerCmpEpochExample | lib/managers/VulnerabilitiesManager.php:353-359 | "1:2.0" is older than "2:1.0": the epoch dominates |
| VersionCompare.DpkgSplit | lib/managers/VulnerabilitiesManager.php:213-226 | a version whose first '-' is at an index above 0 is cut there, the rest replacing the release; any other version keeps the supplied release |
| VersionCompare.VerCmp | lib/managers/VulnerabilitiesManager.php:207-238 | identical version and release give 0 for every tag; outside "dpkg" the result is -1, 0 or 1 |
| VersionCompare.VerCmpRpm | lib/managers/VulnerabilitiesManager.php:229-234 | with "rpm", differing versions decide and the releases are ignored; versions comparing 0 leave it to the releases |
| VersionCompare.VerCmpFallback | lib/managers/VulnerabilitiesManager.php:235-236 | any other tag compares `ver-rel` on each side with `rpmvercmp` |
| VersionCompare.VerCmpDpkg | lib/managers/VulnerabilitiesManager.php:211-227 | with "dpkg", versions without an inner '-' go to `dpkgvercmp` with their releases; when both carry one, the supplied releases are never read |
| VersionCompare.VerCmpAntisymmetric | lib/managers/VulnerabilitiesManager.php:229-236 | outside "dpkg", swapping the two sides negates the result |
| VersionCompare.DpkgSplitExamples | lib/managers/VulnerabilitiesManager.php:213-218 | "-1-2" is not split; "1-2" becomes "1" and "2"; "1.0-rc1-2" becomes "1.0" and "rc1-2" |
| VulnerabilityMatcher.CandidatesIn | lib/managers/VulnerabilitiesManager.php:174-195 | the query returns exactly the rows with the package's name, the host's OS group and arch "all" or the package's arch |
| VulnerabilityMatcher.ArchFilterExamples | lib/managers/VulnerabilitiesManager.php:175 | a row for "x86" is not a candidate for an "x86_64" package; a row for "all" is a candidate for every arch |
| VulnerabilityMatcher.LoadCveDefs | lib/managers/VulnerabilitiesManager.php:104-106 | one CVE definition per confirmed record, the one its `cveDefId` names, in order |
| VulnerabilityMatcher.ConfirmAll | lib/managers/VulnerabilitiesManager.php:95-100 | a candidate is kept exactly when its operator is "<" and `vercmp` puts the installed version below it; other operators never match |
| VulnerabilityMatcher.ConfirmVulnerabilities | lib/managers/VulnerabilitiesManager.php:94-102 | the `switch` loop keeps exactly `ConfirmAll` of the candidates |
| VulnerabilityMatcher.CollectCveDefs | lib/managers/VulnerabilitiesManager.php:103-107 | the loop fetches exactly `LoadCveDefs` of the confirmed records |
| VulnerabilityMatcher.VulnerablePkgsOf | lib/managers/VulnerabilitiesManager.php:90-112 | after any prefix of the packages, no package id occurs twice and no entry holds an empty list of definitions |
| VulnerabilityMatcher.VulnerablePkgs | lib/managers/VulnerabilitiesManager.php:81-115 | the result of `getVulnerablePkgs` never holds a package id twice, and every package in it has at least one CVE definition |
| VulnerabilityMatcher.CheckPkg | lib/managers/VulnerabilitiesManager.php:91-110 | the body of the package loop computes exactly `MatchPkg` |
| VulnerabilityMatcher.GetVulnerablePkgs | lib/managers/VulnerabilitiesManager.php:81-115 | `getVulnerablePkgs` returns exactly the fold `VulnerablePkgs(h)` |
| VulnerabilityMatcher.ConfirmedIff | lib/managers/VulnerabilitiesManager.php:90-102 | a record is confirmed exactly when it passes the query, its operator is "<" and `vercmp(hostType, installed, record) < 0`; other operators never match |
| VulnerabilityMatcher.ConfirmAllOfCandidates | lib/managers/VulnerabilitiesManager.php:92-102 | querying and then confirming equals one pass over the table with both tests |
| VulnerabilityMatcher.ConfirmedInTableOrder | lib/managers/VulnerabilitiesManager.php:92-102 | confirmed records keep the order of the Vulnerability table |
| VulnerabilityMatcher.VulnerablePkgsOfKeys | lib/managers/VulnerabilitiesManager.php:90-112 | after any prefix of the packages, an id is a key exactly when some package of the prefix with that id has a confirmed record |
| VulnerabilityMatcher.VulnerablePkgsKeys | lib/managers/VulnerabilitiesManager.php:81-115 | an id is in the result exactly when some installed package with that id has a confirmed record; packages without one are left out |
| VulnerabilityMatcher.VulnerablePkgsOfEntry | lib/managers/VulnerabilitiesManager.php:103-108 | a package's entry holds one CVE definition per confirmed record, in order, unless a later package with the same id and confirmed records overwrote it |
| VulnerabilityMatcher.VulnerablePkgsEntry | lib/managers/VulnerabilitiesManager.php:81-115 | the same for the host's full package list, with as many definitions as confirmed records |
| VulnerabilityMatcher.OpensslScenario | lib/managers/VulnerabilitiesManager.php:81-115 | on an "rpm" host, openssl 1.0.1-4 against a "<" record for 1.0.1-5 with arch "all" is reported with exactly that record's CVE definition |
| CveAggregators.CveNamesOf | lib/managers/VulnerabilitiesManager.php:123-125 | the names of a CVE list, one per CVE, in order |
| CveAggregators.CveLists | lib/managers/VulnerabilitiesManager.php:148-150 | one CVE list per definition, in order |
| CveAggregators.CvesPerPkg | lib/managers/VulnerabilitiesManager.php:117-131 | `getCvesForPkgs` keeps the package ids of the match result, in order |
| CveAggregators.CountCves | lib/managers/VulnerabilitiesManager.php:134-142 | the host's CVE count equals the total length of the name lists of `getCvesForPkgs`, duplicates kept |
| CveAggregators.CvesOfPkg | lib/managers/VulnerabilitiesManager.php:144-153 | `getCvesForPkg` returns nothing for an id that is not vulnerable, and for a vulnerable id one CVE list per definition stored under it |
| CveAggregators.CollectCveNames | lib/managers/VulnerabilitiesManager.php:121-127 | the two inner loops collect exactly `CveNames` of the definitions |
| CveAggregators.CvesForPkgs | lib/managers/VulnerabilitiesManager.php:121-129 | the outer loop over distinct package ids builds exactly `CvesPerPkg` |
| CveAggregators.GetCvesForPkgs | lib/managers/VulnerabilitiesManager.php:117-131 | `getCvesForPkgs` returns `CvesPerPkg` of the match result |
| CveAggregators.CountDefCves | lib/managers/VulnerabilitiesManager.php:137-139 | the inner loop adds up exactly the number of CVEs of the definitions |
| CveAggregators.CountHostCves | lib/managers/VulnerabilitiesManager.php:136-140 | the outer loop adds up exactly `CountCves` |
| CveAggregators.GetHostCvesCount | lib/managers/VulnerabilitiesManager.php:134-142 | `getHostCvesCount` returns `CountCves` of the match result |
| CveAggregators.GetCvesForPkg | lib/managers/VulnerabilitiesManager.php:144-153 | `getCvesForPkg` returns `CvesOfPkg` of the match result: empty for an absent id, otherwise one CVE list per definition |
| CveAggregators.CveNamesLength | lib/managers/VulnerabilitiesManager.php:121-127 | the names collected for some definitions number their CVEs |
| CveAggregators.NamesOfCveLists | lib/managers/VulnerabilitiesManager.php:117-153 | the names of the CVE lists of some definitions are the names `getCvesForPkgs` collects for them |
| CveAggregators.CvesOfPkgAgrees | lib/managers/VulnerabilitiesManager.php:117-153 | `getCvesForPkg` and `getCvesForPkgs` agree: a listed id gets CVE lists whose names are the listed names, any other id gets nothing |
| CveAggregators.CvesForPkgOfHost | lib/managers/VulnerabilitiesManager.php:81-153 | for a host, `getCvesForPkg` is empty exactly for the ids that are not vulnerable, and otherwise agrees with `getCvesForPkgs` |

## Left out

- Database access is left out: the query strings, `escape`, `queryToMultiRow`, `queryObject`, `getManager` and `FillCves`.
  - The host's OS group, its installed packages, the Vulnerability table and a loader from `cveDefId` to a CVE definition with its CVEs are plain inputs of `Host`.
  - The loader is total: a record whose CVE definition row is missing, which makes the code call `FillCves` on nothing, is not modelled.
  - `getVulnerabilityById` and `storeVulnerabilities` are not part of this model.
- VulnerabilityMatcher.CandidatesIn compares name and arch with exact string equality. The database's collation may compare them case-insensitively or ignore trailing spaces, and that is not modelled.
- The query returns rows in table order here. SQL without `ORDER BY` guarantees no order, so "in order" statements are relative to that choice.
- Php.LooseCompare treats only plain digit runs as numeric strings. Epochs such as "1.5", " 1" or "1e3", which PHP compares as floats or with leading whitespace, compare byte-wise here. The numbers are unbounded, whereas PHP falls back to floats above its integer range and loses precision there.
- `ctype_*` follows the C locale (ASCII letters and digits), and a `char` stands for one byte. Other locales and multi-byte encodings are not modelled.
- Reading a string offset past its end also raises a PHP warning. Only the "" it yields is modelled.
- At lines 292-293 `order` is called as a free function although it is defined as a method at line 270. The model calls the method.
- DpkgVersion.DpkgVerCmpIn models `strcmp` at line 305 as the difference of the two bytes. Newer PHP versions return only its sign, and the sign is all that the callers use.
- DpkgVersion.DpkgVerCmpIn runs each inner loop of `dpkgvercmp_in` as a separate method (`CompareNonDigits`, `SkipZeroDigits`, `CompareDigits`) called from the outer loop. The control flow and cursor updates are the source's.
- `Host`, `Pkg`, `Vulnerability`, `CveDef` and `Cve` keep only the fields the operations read. `getCvesForPkg` takes the package's id rather than the whole `Pkg` object, since it reads only the id.
