/** The Python Slither service: the compiler version read from a pragma,
    the choice among installed compilers, the reading of Slither's output,
    and the response of `/analyze` with its findings and summary. */
module SlitherService {
  import opened Wrappers
  import opened Strings
  import opened Json

  const DEFAULT_SOLC := "0.8.28"

  /** Python's `str.isspace`, which is also what `\s` matches in a `str`
      pattern and what `str.strip` removes. */
  predicate PySpace(c: char) {
    ('\t' <= c <= '\r') || ('\U{1C}' <= c <= '\U{1F}') || c == ' ' || c == '\U{85}' || c == '\U{A0}'
    || c == '\U{1680}' || ('\U{2000}' <= c <= '\U{200A}') || c == '\U{2028}' || c == '\U{2029}'
    || c == '\U{202F}' || c == '\U{205F}' || c == '\U{3000}'
  }

  /** `\s*` from `i`: the end of the run of white space. */
  function PySpaceEnd(s: string, i: nat): (e: nat)
    requires i <= |s|
    ensures i <= e <= |s|
    ensures forall k :: i <= k < e ==> PySpace(s[k])
    ensures e < |s| ==> !PySpace(s[e])
    decreases |s| - i
  {
    if i < |s| && PySpace(s[i]) then PySpaceEnd(s, i + 1) else i
  }

  /** `str.strip()`. */
  function PyStrip(s: string): (r: string)
    ensures |r| <= |s|
    ensures r != [] ==> !PySpace(r[0]) && !PySpace(r[|r| - 1])
    decreases |s|
  {
    if s != [] && PySpace(s[0]) then PyStrip(s[1..])
    else if s != [] && PySpace(s[|s| - 1]) then PyStrip(s[..|s| - 1])
    else s
  }

  // ---------------------------------------------------------------- detect_solc_version

  /** A version `x.y.z`: three non-empty runs of digits separated by dots. */
  predicate VersionShape(v: string) {
    var parts := Split(v, '.');
    |parts| == 3 && forall k :: 0 <= k < 3 ==> parts[k] != [] && forall m :: 0 <= m < |parts[k]| ==> IsDigit(parts[k][m])
  }

  /** `(\d+\.\d+\.\d+)` at `i`: where the version ends, if one starts there. */
  function VersionEnd(s: string, i: nat): (e: Option<nat>)
    requires i <= |s|
    ensures e.Some? ==> i < e.value <= |s|
    ensures e.Some? ==> e.value == |s| || !IsDigit(s[e.value])
  {
    var a := DigitEnd(s, i);
    if a == i || a == |s| || s[a] != '.' then None
    else
      var b := DigitEnd(s, a + 1);
      if b == a + 1 || b == |s| || s[b] != '.' then None
      else
        var c := DigitEnd(s, b + 1);
        if c == b + 1 then None else Some(c)
  }

  /** What `VersionEnd` accepts has the shape of a version. */
  lemma VersionEndShape(s: string, i: nat)
    requires i <= |s| && VersionEnd(s, i).Some?
    ensures VersionShape(s[i..VersionEnd(s, i).value])
  {
    var a := DigitEnd(s, i);
    var b := DigitEnd(s, a + 1);
    var c := DigitEnd(s, b + 1);
    assert s[i..c] == s[i..a] + "." + s[a + 1..b] + "." + s[b + 1..c];
    ShapeOf(s[i..a], s[a + 1..b], s[b + 1..c]);
  }

  /** Three runs of digits joined by dots have the shape of a version. */
  lemma ShapeOf(x: string, y: string, z: string)
    requires Digits(x) && Digits(y) && Digits(z)
    ensures VersionShape(x + "." + y + "." + z)
  {
    assert '.' !in x && '.' !in y && '.' !in z;
    SplitDots(x, y, z);
  }

  /** Splitting `x.y.z` at the dots gives the three parts. */
  lemma SplitDots(x: string, y: string, z: string)
    requires '.' !in x && '.' !in y && '.' !in z
    ensures Split(x + "." + y + "." + z, '.') == [x, y, z]
  {
    var yz := y + "." + z;
    assert yz == y + ['.'] + z;
    assert x + "." + y + "." + z == x + ['.'] + yz;
    SplitCons(x, yz, '.');
    SplitCons(y, z, '.');
    SplitNone(z, '.');
  }

  /** `pragma\s+solidity` at `i`: where it ends. */
  function AfterSolidity(s: string, i: nat): (k: Option<nat>)
    requires i <= |s|
    ensures k.Some? ==> i + 15 <= k.value <= |s|
  {
    if i + 6 <= |s| && s[i..i + 6] == "pragma" then
      var j := PySpaceEnd(s, i + 6);
      if j > i + 6 && j + 8 <= |s| && s[j..j + 8] == "solidity" then Some(j + 8) else None
    else None
  }

  /** The three patterns, in the order they are tried:
      `\s*\^?\s*`, `\s*>=?\s*` and `\s+` between `solidity` and the version. */
  datatype Pattern = Caret | AtLeast | Exact

  /** Where the version starts under `p`, after `pragma solidity` ending at `k`. */
  function VersionStart(s: string, k: nat, p: Pattern): (st: Option<nat>)
    requires k <= |s|
    ensures st.Some? ==> k <= st.value <= |s|
  {
    var k1 := PySpaceEnd(s, k);
    match p
    case Caret => Some(if k1 < |s| && s[k1] == '^' then PySpaceEnd(s, k1 + 1) else k1)
    case AtLeast =>
      if k1 < |s| && s[k1] == '>' then
        Some(PySpaceEnd(s, if k1 + 1 < |s| && s[k1 + 1] == '=' then k1 + 2 else k1 + 1))
      else None
    case Exact => if k1 > k then Some(k1) else None
  }

  /** The version `p` captures when it matches at `i`. */
  function MatchAt(s: string, i: nat, p: Pattern): Option<string>
    requires i <= |s|
  {
    var k := AfterSolidity(s, i);
    if k.None? then None
    else
      var st := VersionStart(s, k.value, p);
      if st.None? then None
      else
        var e := VersionEnd(s, st.value);
        if e.None? then None
        else Some(s[st.value..e.value])
  }

  /** Every pattern captures a version `x.y.z`. */
  lemma MatchAtShape(s: string, i: nat, p: Pattern)
    requires i <= |s| && MatchAt(s, i, p).Some?
    ensures VersionShape(MatchAt(s, i, p).value)
  {
    var st := VersionStart(s, AfterSolidity(s, i).value, p).value;
    VersionEndShape(s, st);
  }

  /** The scan of `re.search`: the first of `found(i)`, …, `found(n)`
      that is present. */
  function FirstFound(found: nat -> Option<string>, i: nat, n: nat): (r: Option<string>)
    ensures r.Some? ==> exists j :: i <= j <= n && found(j) == r
    decreases n + 1 - i
  {
    if i > n then None
    else if found(i).Some? then found(i)
    else FirstFound(found, i + 1, n)
  }

  /** The scan finds nothing exactly when nothing is present. */
  lemma {:induction false} FirstFoundNone(found: nat -> Option<string>, i: nat, n: nat)
    ensures FirstFound(found, i, n).None? <==> forall j :: i <= j <= n ==> found(j).None?
    decreases n + 1 - i
  {
    if i <= n && found(i).None? {
      FirstFoundNone(found, i + 1, n);
    }
  }

  /** The scan finds the first present value. */
  lemma {:induction false} FirstFoundAt(found: nat -> Option<string>, i: nat, n: nat, j: nat)
    requires i <= j <= n && found(j).Some?
    requires forall m :: i <= m < j ==> found(m).None?
    ensures FirstFound(found, i, n) == found(j)
    decreases j - i
  {
    if i < j {
      FirstFoundAt(found, i + 1, n, j);
    }
  }

  /** `re.search`: the version of the leftmost match. */
  function Search(s: string, p: Pattern): Option<string> {
    FirstFound(Matches(s, p), 0, |s|)
  }

  /** What `p` captures at each position of `s`. */
  function Matches(s: string, p: Pattern): (found: nat -> Option<string>)
    ensures forall j: nat :: j <= |s| ==> found(j) == MatchAt(s, j, p)
  {
    (j: nat) => if j <= |s| then MatchAt(s, j, p) else None
  }

  /** What the search finds is a version `x.y.z`. */
  lemma SearchShape(s: string, p: Pattern)
    requires Search(s, p).Some?
    ensures VersionShape(Search(s, p).value)
  {
    var j :| 0 <= j <= |s| && Matches(s, p)(j) == Search(s, p);
    MatchAtShape(s, j, p);
  }

  /** The search finds nothing exactly when the pattern matches nowhere. */
  lemma SearchNone(s: string, p: Pattern)
    ensures Search(s, p).None? <==> forall j :: 0 <= j <= |s| ==> MatchAt(s, j, p).None?
  {
    FirstFoundNone(Matches(s, p), 0, |s|);
  }

  /** The search finds the match that starts first. */
  lemma SearchFirst(s: string, p: Pattern, j: nat)
    requires j <= |s| && MatchAt(s, j, p).Some?
    requires forall m :: 0 <= m < j ==> MatchAt(s, m, p).None?
    ensures Search(s, p) == MatchAt(s, j, p)
  {
    FirstFoundAt(Matches(s, p), 0, |s|, j);
  }

  /** `detect_solc_version`: the version of the first pattern that matches
      anywhere, else the default. */
  function DetectSolcVersion(source: string): (r: string)
    ensures r == DEFAULT_SOLC || VersionShape(r)
    ensures Search(source, Caret).Some? ==> r == Search(source, Caret).value
    ensures Search(source, Caret).None? && Search(source, AtLeast).None? && Search(source, Exact).None? ==> r == DEFAULT_SOLC
  {
    var c, a, e := Search(source, Caret), Search(source, AtLeast), Search(source, Exact);
    if c.Some? then SearchShape(source, Caret); c.value
    else if a.Some? then SearchShape(source, AtLeast); a.value
    else if e.Some? then SearchShape(source, Exact); e.value
    else DEFAULT_SOLC
  }

  /** Whatever the third pattern matches, the first matches too, with the
      same version. */
  lemma ExactIsCaret(s: string, i: nat)
    requires i <= |s| && MatchAt(s, i, Exact).Some?
    ensures MatchAt(s, i, Caret) == MatchAt(s, i, Exact)
  {
    var k := AfterSolidity(s, i).value;
    var k1 := PySpaceEnd(s, k);
    assert VersionEnd(s, k1).Some?;
    assert IsDigit(s[k1]);
  }

  /** The third pattern never decides: the version comes from the first
      pattern, else the second, else it is the default. */
  lemma ThirdPatternNeverDecides(source: string)
    ensures DetectSolcVersion(source) ==
      if Search(source, Caret).Some? then Search(source, Caret).value
      else if Search(source, AtLeast).Some? then Search(source, AtLeast).value
      else DEFAULT_SOLC
  {
    if Search(source, Caret).None? && Search(source, Exact).Some? {
      SearchNone(source, Caret);
      SearchNone(source, Exact);
      var j :| 0 <= j <= |source| && MatchAt(source, j, Exact).Some?;
      ExactIsCaret(source, j);
      assert false;
    }
  }

  /** A run of digits followed by a non-digit ends where the run ends. */
  lemma {:induction false} DigitRun(s: string, i: nat, n: nat)
    requires i + n <= |s|
    requires forall k :: i <= k < i + n ==> IsDigit(s[k])
    requires i + n == |s| || !IsDigit(s[i + n])
    ensures DigitEnd(s, i) == i + n
    decreases n
  {
    if n > 0 {
      DigitRun(s, i + 1, n - 1);
    }
  }

  predicate Digits(d: string) {
    d != [] && forall k :: 0 <= k < |d| ==> IsDigit(d[k])
  }

  /** A run of digits written at `i` and not followed by one ends there. */
  lemma DigitsAt(s: string, i: nat, d: string)
    requires Digits(d) && i + |d| <= |s| && s[i..i + |d|] == d
    requires i + |d| == |s| || !IsDigit(s[i + |d|])
    ensures DigitEnd(s, i) == i + |d|
  {
    assert forall k :: i <= k < i + |d| ==> s[k] == d[k - i];
    DigitRun(s, i, |d|);
  }

  /** `x.y.z` written at `i` and not followed by a digit is read whole. */
  lemma VersionAt(s: string, i: nat, x: string, y: string, z: string)
    requires Digits(x) && Digits(y) && Digits(z)
    requires i + |x| + |y| + |z| + 2 <= |s|
    requires s[i..i + |x|] == x && s[i + |x|] == '.'
    requires s[i + |x| + 1..i + |x| + 1 + |y|] == y && s[i + |x| + 1 + |y|] == '.'
    requires s[i + |x| + |y| + 2..i + |x| + |y| + 2 + |z|] == z
    requires i + |x| + |y| + |z| + 2 == |s| || !IsDigit(s[i + |x| + |y| + |z| + 2])
    ensures VersionEnd(s, i) == Some(i + |x| + |y| + |z| + 2)
  {
    DigitsAt(s, i, x);
    DigitsAt(s, i + |x| + 1, y);
    DigitsAt(s, i + |x| + |y| + 2, z);
  }

  /** A version written after any text is read whole when no digit follows. */
  lemma VersionWritten(pre: string, x: string, y: string, z: string, rest: string)
    requires Digits(x) && Digits(y) && Digits(z)
    requires rest == [] || !IsDigit(rest[0])
    ensures VersionEnd(pre + (x + "." + y + "." + z) + rest, |pre|) == Some(|pre| + |x + "." + y + "." + z|)
  {
    var s := pre + (x + "." + y + "." + z) + rest;
    var i := |pre|;
    assert s == pre + x + ['.'] + y + ['.'] + z + rest;
    assert s[i..i + |x|] == x;
    assert s[i + |x| + 1..i + |x| + 1 + |y|] == y;
    assert s[i + |x| + |y| + 2..i + |x| + |y| + 2 + |z|] == z;
    VersionAt(s, i, x, y, z);
  }

  /** `pragma solidity ^` at the start: the version is read after the caret. */
  lemma CaretPragmaHead(s: string)
    requires |s| >= 17 && s[..17] == "pragma solidity ^"
    ensures AfterSolidity(s, 0) == Some(15)
    ensures VersionStart(s, 15, Caret) == Some(PySpaceEnd(s, 17))
  {
    var h := "pragma solidity ^";
    assert s[..6] == h[..6] == "pragma";
    assert s[6] == h[6] == ' ' && s[7] == h[7] == 's';
    assert PySpaceEnd(s, 7) == 7;
    assert PySpaceEnd(s, 6) == 7;
    assert s[7..15] == h[7..15] == "solidity";
    assert s[15] == h[15] == ' ' && s[16] == h[16] == '^';
    assert PySpaceEnd(s, 16) == 16;
    assert PySpaceEnd(s, 15) == 16;
  }

  /** `pragma solidity ^x.y.z` at the very start decides the version. */
  lemma CaretPragmaFirst(x: string, y: string, z: string, rest: string)
    requires Digits(x) && Digits(y) && Digits(z)
    requires rest == [] || !IsDigit(rest[0])
    ensures DetectSolcVersion("pragma solidity ^" + (x + "." + y + "." + z) + rest) == x + "." + y + "." + z
  {
    var v := x + "." + y + "." + z;
    var s := "pragma solidity ^" + v + rest;
    assert s[..17] == "pragma solidity ^";
    CaretPragmaHead(s);
    assert s[17] == x[0];
    assert PySpaceEnd(s, 17) == 17;
    VersionWritten("pragma solidity ^", x, y, z, rest);
    assert MatchAt(s, 0, Caret) == Some(v);
    SearchFirst(s, Caret, 0);
  }

  // ---------------------------------------------------------------- install_solc_if_needed

  /** `".".join(version.split(".")[:2])`. */
  function MajorMinor(version: string): string {
    var parts := Split(version, '.');
    Join(parts[..if |parts| < 2 then |parts| else 2], ".")
  }

  /** The versions tried when the requested one cannot be installed. */
  function Fallbacks(version: string): (r: seq<string>)
    ensures |r| == 6
  {
    var mm := MajorMinor(version);
    [mm + ".28", mm + ".26", mm + ".24", mm + ".20", mm + ".19", mm + ".0"]
  }

  /** How a listing is searched for a version. */
  type ListTest = (string, string) -> bool

  /** The first of `cands` the listing shows, by `listed`. */
  function FirstListed(cands: seq<string>, listing: string, listed: ListTest): (r: Option<string>)
    ensures r.None? <==> forall i :: 0 <= i < |cands| ==> !listed(listing, cands[i])
    ensures r.Some? ==> r.value in cands && listed(listing, r.value)
    ensures r.Some? ==> exists i :: 0 <= i < |cands| && cands[i] == r.value
                                    && forall k :: 0 <= k < i ==> !listed(listing, cands[k])
  {
    if cands == [] then None
    else if listed(listing, cands[0]) then Some(cands[0])
    else
      var r := FirstListed(cands[1..], listing, listed);
      if r.Some? then
        var i :| 0 <= i < |cands[1..]| && cands[1..][i] == r.value
                 && forall k :: 0 <= k < i ==> !listed(listing, cands[1..][k]);
        assert cands[i + 1] == r.value;
        r
      else r
  }

  /** The loop over the fallback versions. */
  method FirstInstalledFallback(cands: seq<string>, listing: string, listed: ListTest) returns (r: Option<string>)
    ensures r == FirstListed(cands, listing, listed)
  {
    var i := 0;
    while i < |cands|
      invariant i <= |cands|
      invariant FirstListed(cands, listing, listed) == FirstListed(cands[i..], listing, listed)
    {
      if listed(listing, cands[i]) {
        return Some(cands[i]);
      }
      assert cands[i..][1..] == cands[i + 1..];
      i := i + 1;
    }
    return None;
  }

  /** The `solc-select` tool as the service sees it: the text of
      `solc-select versions` (`None` when running it raises), the exit code
      of `solc-select install` (`None` when it raises), and the versions for
      which `solc-select use` raises. */
  datatype SolcTools = SolcTools(listing: Option<string>, installCode: Option<int>, useRaises: set<string>)

  /** `install_solc_if_needed` with the listing searched by `listed`: the
      version to use, after switching to it. */
  function ChooseSolc(version: string, tools: SolcTools, listed: ListTest): (r: string)
    ensures tools.listing.None? ==> r == DEFAULT_SOLC
    ensures r == version || r in Fallbacks(version) || r == DEFAULT_SOLC
    ensures r == version && r != DEFAULT_SOLC ==> tools.listing.Some? && (listed(tools.listing.value, version) || tools.installCode == Some(0))
    ensures r != version && r != DEFAULT_SOLC ==>
      (tools.listing.Some? && listed(tools.listing.value, r)
       && FirstListed(Fallbacks(version), tools.listing.value, listed) == Some(r))
    // A listed version, or one that installs, is switched to and used.
    ensures (tools.listing.Some? && (listed(tools.listing.value, version) || tools.installCode == Some(0))
             && version !in tools.useRaises) ==> r == version
    // Otherwise a raising install gives the default, and a failing one the
    // first listed fallback, or the default when none is listed.
    ensures tools.listing.Some? && !listed(tools.listing.value, version) && tools.installCode.None? ==> r == DEFAULT_SOLC
    ensures tools.listing.Some? && !listed(tools.listing.value, version)
            && tools.installCode.Some? && tools.installCode.value != 0 ==>
      var fb := FirstListed(Fallbacks(version), tools.listing.value, listed);
      (fb.None? ==> r == DEFAULT_SOLC) && (fb.Some? && fb.value !in tools.useRaises ==> r == fb.value)
    // A `use` that raises falls to the default.
    ensures r != DEFAULT_SOLC ==> r !in tools.useRaises
  {
    if tools.listing.None? then DEFAULT_SOLC
    else
      var listing := tools.listing.value;
      if listed(listing, version) then Use(version, tools)
      else if tools.installCode.None? then DEFAULT_SOLC
      else if tools.installCode.value == 0 then Use(version, tools)
      else
        var fb := FirstListed(Fallbacks(version), listing, listed);
        if fb.Some? then Use(fb.value, tools) else DEFAULT_SOLC
  }

  /** `solc-select use v` and return `v`; a raise falls to the default. */
  function Use(v: string, tools: SolcTools): (r: string)
    ensures r == v || r == DEFAULT_SOLC
    ensures v !in tools.useRaises ==> r == v
  {
    if v in tools.useRaises then DEFAULT_SOLC else v
  }

  /** The listing test as written: a substring of the whole listing. */
  predicate InText(listing: string, v: string) {
    Contains(listing, v)
  }

  /** `install_solc_if_needed` as written. */
  function InstallSolcAsWritten(version: string, tools: SolcTools): (r: string)
    ensures tools.listing.None? ==> r == DEFAULT_SOLC
    ensures r == version || r in Fallbacks(version) || r == DEFAULT_SOLC
    ensures r != DEFAULT_SOLC ==> r !in tools.useRaises
    ensures r == version && r != DEFAULT_SOLC ==> tools.listing.Some? && (Contains(tools.listing.value, version) || tools.installCode == Some(0))
    ensures (tools.listing.Some? && (Contains(tools.listing.value, version) || tools.installCode == Some(0))
             && version !in tools.useRaises) ==> r == version
    ensures tools.listing.Some? && !Contains(tools.listing.value, version) && tools.installCode.None? ==> r == DEFAULT_SOLC
    ensures tools.listing.Some? && !Contains(tools.listing.value, version)
            && tools.installCode.Some? && tools.installCode.value != 0 ==>
      var fb := FirstListed(Fallbacks(version), tools.listing.value, InText);
      (fb.None? ==> r == DEFAULT_SOLC) && (fb.Some? && fb.value !in tools.useRaises ==> r == fb.value)
  {
    ChooseSolc(version, tools, InText)
  }

  /** The first word of a line of the listing: the version it names. */
  function FirstWord(line: string): string {
    var a := PySpaceEnd(line, 0);
    line[a..NonSpaceEnd(line, a)]
  }

  function NonSpaceEnd(s: string, i: nat): (e: nat)
    requires i <= |s|
    ensures i <= e <= |s|
    decreases |s| - i
  {
    if i < |s| && !PySpace(s[i]) then NonSpaceEnd(s, i + 1) else i
  }

  /** The versions the listing names, one per line. */
  function InstalledVersions(listing: string): (r: seq<string>)
    ensures |r| == |Split(listing, '\n')|
  {
    var lines := Split(listing, '\n');
    seq(|lines|, i requires 0 <= i < |lines| => FirstWord(lines[i]))
  }

  /** The listing test as intended: one of the listed versions. */
  predicate Listed(listing: string, v: string) {
    v in InstalledVersions(listing)
  }

  /** `install_solc_if_needed` with the intended test: a version is used
      without installing it only when it is exactly one of the listed ones. */
  function InstallSolc(version: string, tools: SolcTools): (r: string)
    ensures tools.listing.None? ==> r == DEFAULT_SOLC
    ensures r != DEFAULT_SOLC ==> r !in tools.useRaises
    ensures r == version && r != DEFAULT_SOLC ==> tools.listing.Some? && (version in InstalledVersions(tools.listing.value) || tools.installCode == Some(0))
    ensures r != version && r != DEFAULT_SOLC ==> tools.listing.Some? && r in InstalledVersions(tools.listing.value) && r in Fallbacks(version)
    ensures (tools.listing.Some? && (version in InstalledVersions(tools.listing.value) || tools.installCode == Some(0))
             && version !in tools.useRaises) ==> r == version
    ensures tools.listing.Some? && version !in InstalledVersions(tools.listing.value) && tools.installCode.None? ==> r == DEFAULT_SOLC
    ensures tools.listing.Some? && version !in InstalledVersions(tools.listing.value)
            && tools.installCode.Some? && tools.installCode.value != 0 ==>
      var fb := FirstListed(Fallbacks(version), tools.listing.value, Listed);
      (fb.None? ==> r == DEFAULT_SOLC) && (fb.Some? && fb.value !in tools.useRaises ==> r == fb.value)
  {
    ChooseSolc(version, tools, Listed)
  }

  /** With `0.8.28` installed and the install failing, `0.8.2` passes the
      substring test and is reported as the compiler in use, though it is
      not one of the installed versions. */
  lemma PrefixVersionAccepted()
    ensures InstallSolcAsWritten("0.8.2", SolcTools(Some("0.8.28\n"), Some(1), {})) == "0.8.2"
    ensures "0.8.2" !in InstalledVersions("0.8.28\n")
  {
    var listing := "0.8.28\n";
    assert OccursAt(listing, "0.8.2", 0);
    assert InText(listing, "0.8.2");
    ListingVersions();
    assert "0.8.2" != "0.8.28";
  }

  /** In the same situation the intended test falls back to `0.8.28`. */
  lemma PrefixVersionFallsBack()
    ensures InstallSolc("0.8.2", SolcTools(Some("0.8.28\n"), Some(1), {})) == "0.8.28"
  {
    var listing := "0.8.28\n";
    ListingVersions();
    assert !Listed(listing, "0.8.2") by {
      assert "0.8.2" != "0.8.28";
    }
    FirstFallbackOf082();
    assert Listed(listing, "0.8.28");
  }

  /** The first fallback for `0.8.2` is `0.8.28`. */
  lemma FirstFallbackOf082()
    ensures Fallbacks("0.8.2")[0] == "0.8.28"
  {
    var x, y, z := "0", "8", "2";
    assert "0.8.2" == x + "." + y + "." + z;
    MajorMinorOf(x, y, z);
    assert x + "." + y + ".28" == "0.8.28";
  }

  lemma ListingVersions()
    ensures InstalledVersions("0.8.28\n") == ["0.8.28", ""]
  {
    ListingLines();
    FirstWordOfVersion();
    var r := InstalledVersions("0.8.28\n");
    assert FirstWord("") == "";
    PairOf(r, "0.8.28", "");
  }

  /** The listing holds one line and the empty text after its newline. */
  lemma ListingLines()
    ensures Split("0.8.28\n", '\n') == ["0.8.28", ""]
  {
    var w := "0.8.28";
    assert "0.8.28\n" == w + ['\n'] + "";
    SplitCons(w, "", '\n');
    SplitNone("", '\n');
  }

  lemma PairOf(r: seq<string>, a: string, b: string)
    requires |r| == 2 && r[0] == a && r[1] == b
    ensures r == [a, b]
  {
  }

  /** A version on its own is its first word. */
  lemma FirstWordOfVersion()
    ensures FirstWord("0.8.28") == "0.8.28"
  {
    var w := "0.8.28";
    assert w[0] == '0' && w[1] == '.' && w[2] == '8' && w[3] == '.' && w[4] == '2' && w[5] == '8';
    forall k | 0 <= k < |w|
      ensures !PySpace(w[k])
    {
      assert w[k] == '.' || '0' <= w[k] <= '9';
    }
    assert PySpaceEnd(w, 0) == 0;
    NonSpaceAll(w, 0);
  }

  /** The fallbacks keep the first two parts of the version. */
  lemma MajorMinorOf(x: string, y: string, z: string)
    requires '.' !in x && '.' !in y && '.' !in z
    ensures MajorMinor(x + "." + y + "." + z) == x + "." + y
  {
    SplitDots(x, y, z);
    assert [x, y, z][..2] == [x, y];
    assert Join([x, y], ".") == x + "." + Join([y], ".");
  }

  lemma {:induction false} NonSpaceAll(s: string, i: nat)
    requires i <= |s|
    requires forall k :: i <= k < |s| ==> !PySpace(s[k])
    ensures NonSpaceEnd(s, i) == |s|
    decreases |s| - i
  {
    if i < |s| {
      NonSpaceAll(s, i + 1);
    }
  }

  // ---------------------------------------------------------------- run_slither

  /** How the Slither process ended. */
  datatype SlitherRun = Finished(stdout: string, stderr: string) | TimedOut | Crashed(message: string)

  /** The dictionary returned when no JSON could be read. */
  function FailureDict(error: string): JsonValue {
    Obj(map["success" := Bool(false), "error" := Str(error), "results" := Obj(map["detectors" := Arr([])])])
  }

  /** The first line that, stripped, starts with `{` and parses. `loads` is
      `json.loads`, `None` where it raises. */
  function FirstJsonLine(lines: seq<string>, loads: string -> Option<JsonValue>): (r: Option<JsonValue>)
    ensures r.None? <==> forall i :: 0 <= i < |lines| ==> !JsonLine(lines[i], loads)
    ensures r.Some? ==> exists i :: (0 <= i < |lines| && JsonLine(lines[i], loads)
      && r == loads(PyStrip(lines[i])) && forall k :: 0 <= k < i ==> !JsonLine(lines[k], loads))
  {
    if lines == [] then None
    else if JsonLine(lines[0], loads) then loads(PyStrip(lines[0]))
    else
      var r := FirstJsonLine(lines[1..], loads);
      if r.Some? then
        var i :| 0 <= i < |lines[1..]| && JsonLine(lines[1..][i], loads)
                 && r == loads(PyStrip(lines[1..][i])) && forall k :: 0 <= k < i ==> !JsonLine(lines[1..][k], loads);
        assert lines[i + 1] == lines[1..][i];
        r
      else r
  }

  /** A line the fallback accepts. */
  predicate JsonLine(line: string, loads: string -> Option<JsonValue>) {
    StartsWith(PyStrip(line), "{") && loads(PyStrip(line)).Some?
  }

  /** The `for line in stdout.split("\n")` loop. */
  method ScanLines(lines: seq<string>, loads: string -> Option<JsonValue>) returns (r: Option<JsonValue>)
    ensures r == FirstJsonLine(lines, loads)
  {
    var i := 0;
    while i < |lines|
      invariant i <= |lines|
      invariant FirstJsonLine(lines, loads) == FirstJsonLine(lines[i..], loads)
    {
      var line := PyStrip(lines[i]);
      if StartsWith(line, "{") {
        var parsed := loads(line);
        if parsed.Some? {
          return parsed;
        }
      }
      assert lines[i..][1..] == lines[i + 1..];
      i := i + 1;
    }
    return None;
  }

  /** `run_slither`: the whole output if it parses, else the first line
      that does, else the failure dictionary with at most 2000 characters
      of the error output. */
  function RunSlither(run: SlitherRun, timeout: int, loads: string -> Option<JsonValue>): (r: JsonValue)
    ensures run.TimedOut? ==> r == FailureDict("Slither analysis timed out after " + IntToString(timeout) + "s")
    ensures run.Crashed? ==> r == FailureDict(run.message)
    ensures run.Finished? && PyStrip(run.stdout) != "" && loads(PyStrip(run.stdout)).Some? ==> r == loads(PyStrip(run.stdout)).value
    ensures run.Finished? && PyStrip(run.stdout) != "" && loads(PyStrip(run.stdout)).None?
            && FirstJsonLine(Split(PyStrip(run.stdout), '\n'), loads).Some? ==>
            r == FirstJsonLine(Split(PyStrip(run.stdout), '\n'), loads).value
    ensures run.Finished? && (PyStrip(run.stdout) == "" || (loads(PyStrip(run.stdout)).None?
            && FirstJsonLine(Split(PyStrip(run.stdout), '\n'), loads).None?)) ==>
            r == FailureDict(if run.stderr != "" then Prefix(run.stderr, 2000) else "No output from Slither")
  {
    match run
    case TimedOut => FailureDict("Slither analysis timed out after " + IntToString(timeout) + "s")
    case Crashed(m) => FailureDict(m)
    case Finished(stdout, stderr) =>
      var out := PyStrip(stdout);
      var whole := if out != "" then loads(out) else None;
      if whole.Some? then whole.value
      else
        var line := if out != "" then FirstJsonLine(Split(out, '\n'), loads) else None;
        if line.Some? then line.value
        else FailureDict(if stderr != "" then Prefix(stderr, 2000) else "No output from Slither")
  }

  /** A failure dictionary built from the error output carries at most
      2000 of its characters, taken from its start. */
  lemma FailureErrorBounded(stdout: string, stderr: string, loads: string -> Option<JsonValue>)
    requires PyStrip(stdout) == "" || (loads(PyStrip(stdout)).None? && FirstJsonLine(Split(PyStrip(stdout), '\n'), loads).None?)
    requires stderr != ""
    ensures var e := RunSlither(Finished(stdout, stderr), 120, loads).fields["error"].s;
      |e| <= 2000 && e == stderr[..|e|] && (|stderr| >= 2000 ==> |e| == 2000)
  {
  }

  // ---------------------------------------------------------------- analyze_contract

  datatype ContractFile = ContractFile(path: string, content: string)

  datatype AnalyzeRequest = AnalyzeRequest(files: seq<ContractFile>, mainFile: Option<string>, solcVersion: Option<string>)

  /** One finding as the response carries it. */
  datatype Finding = Finding(check: string, impact: string, confidence: string, description: string,
                             markdown: Option<string>, firstMarkdownElement: Option<string>,
                             elements: seq<JsonValue>, id: Option<string>)

  datatype Summary = Summary(total: nat, high: nat, medium: nat, low: nat, informational: nat, optimization: nat)

  /** `AnalyzeResponse`; `summary` is `None` for the empty dictionary. */
  datatype AnalyzeResponse = AnalyzeResponse(success: bool, findings: seq<Finding>, summary: Option<Summary>,
                                             error: Option<string>, durationMs: int,
                                             solcVersion: Option<string>, slitherVersion: Option<string>)

  datatype Reply = HttpError(status: int, detail: string) | Analyzed(response: AnalyzeResponse)

  /** Everything the handler gets from outside: whether writing the files
      raises, the compiler tools, how Slither ended, what `slither
      --version` printed (`None` when it raised), the text of any other
      exception, and the measured duration. */
  datatype Env = Env(writeFails: bool, tools: SolcTools, run: SlitherRun, slitherVersion: Option<string>,
                     crashMessage: string, durationMs: int)

  /** `d.get(key, default)` for a `str` field: `None` when validation fails. */
  function StrField(d: JsonValue, key: string, default: string): (r: Option<string>)
    ensures OptField(d, key).Missing? ==> r == Some(default)
    ensures OptField(d, key).Str? ==> r == Some(OptField(d, key).s)
    ensures r.None? <==> !OptField(d, key).Missing? && !OptField(d, key).Str?
  {
    var v := OptField(d, key);
    if v.Missing? then Some(default) else if v.Str? then Some(v.s) else None
  }

  /** The same for an `Optional[str]` field, where `null` is allowed. */
  function OptStrField(d: JsonValue, key: string, default: string): (r: Option<Option<string>>)
    ensures OptField(d, key).Null? ==> r == Some(None)
  {
    var v := OptField(d, key);
    if v.Missing? then Some(Some(default))
    else if v.Null? then Some(None)
    else if v.Str? then Some(Some(v.s))
    else None
  }

  /** `SlitherFinding(...)` from one detector result; `None` when the
      result is not a dictionary or a field fails validation. */
  function FindingOf(d: JsonValue): (r: Option<Finding>)
    ensures r.Some? ==> d.Obj?
    ensures r.Some? && OptField(d, "check").Missing? ==> r.value.check == "unknown"
    ensures r.Some? && OptField(d, "impact").Missing? ==> r.value.impact == "Unknown"
    ensures r.Some? && OptField(d, "confidence").Missing? ==> r.value.confidence == "Unknown"
    ensures r.Some? && OptField(d, "description").Missing? ==> r.value.description == ""
    ensures r.Some? && !OptField(d, "impact").Missing? ==> OptField(d, "impact") == Str(r.value.impact)
    ensures r.Some? ==> forall i :: 0 <= i < |r.value.elements| ==> r.value.elements[i].Obj?
  {
    if !d.Obj? then None
    else
      var check, impact, confidence, description :=
        StrField(d, "check", "unknown"), StrField(d, "impact", "Unknown"),
        StrField(d, "confidence", "Unknown"), StrField(d, "description", "");
      var markdown, first, id := OptStrField(d, "markdown", ""), OptStrField(d, "first_markdown_element", ""), OptStrField(d, "id", "");
      var elements := OptField(d, "elements");
      var els := if elements.Missing? then Some([]) else if elements.Arr? then Some(elements.items) else None;
      if check.None? || impact.None? || confidence.None? || description.None?
         || markdown.None? || first.None? || id.None? || els.None? then None
      else if exists i :: 0 <= i < |els.value| && !els.value[i].Obj? then None
      else Some(Finding(check.value, impact.value, confidence.value, description.value,
                        markdown.value, first.value, els.value, id.value))
  }

  /** The findings of all detector results, in order; `None` when one fails. */
  function FindingsOf(ds: seq<JsonValue>): (r: Option<seq<Finding>>)
    ensures r.Some? ==> |r.value| == |ds|
    ensures r.Some? ==> forall i :: 0 <= i < |ds| ==> FindingOf(ds[i]) == Some(r.value[i])
    ensures r.None? ==> exists i :: 0 <= i < |ds| && FindingOf(ds[i]).None?
  {
    if ds == [] then Some([])
    else
      var init := FindingsOf(ds[..|ds| - 1]);
      var last := FindingOf(ds[|ds| - 1]);
      if init.None? then
        var i :| 0 <= i < |ds[..|ds| - 1]| && FindingOf(ds[..|ds| - 1][i]).None?;
        assert ds[i] == ds[..|ds| - 1][i];
        None
      else if last.None? then None
      else
        var r := init.value + [last.value];
        assert forall i :: 0 <= i < |ds| - 1 ==> ds[i] == ds[..|ds| - 1][i];
        Some(r)
  }

  /** The `for d in detectors` loop that builds the findings. */
  method BuildFindings(ds: seq<JsonValue>) returns (r: Option<seq<Finding>>)
    ensures r == FindingsOf(ds)
  {
    var fs: seq<Finding> := [];
    var i := 0;
    while i < |ds|
      invariant i <= |ds|
      invariant FindingsOf(ds[..i]) == Some(fs)
    {
      var f := FindingOf(ds[i]);
      assert ds[..i + 1][..i] == ds[..i];
      if f.None? {
        assert FindingsOf(ds[..i + 1]).None?;
        FailurePropagates(ds, i + 1);
        return None;
      }
      fs := fs + [f.value];
      i := i + 1;
    }
    assert ds[..|ds|] == ds;
    return Some(fs);
  }

  /** A failing prefix makes the whole list fail. */
  lemma {:induction false} FailurePropagates(ds: seq<JsonValue>, n: nat)
    requires n <= |ds| && FindingsOf(ds[..n]).None?
    ensures FindingsOf(ds).None?
    decreases |ds| - n
  {
    if n < |ds| {
      assert ds[..n + 1][..n] == ds[..n];
      FailurePropagates(ds, n + 1);
    } else {
      assert ds[..n] == ds;
    }
  }

  /** The items `for d in v` visits: a list's items; an empty dictionary or
      string visits nothing; `None` where the loop or the first `d.get`
      raises. */
  function Iterated(v: JsonValue): (r: Option<seq<JsonValue>>)
    ensures v.Arr? ==> r == Some(v.items)
  {
    match v
    case Arr(items) => Some(items)
    case Obj(m) => if |m| == 0 then Some([]) else None
    case Str(s) => if s == "" then Some([]) else None
    case _ => None
  }

  /** `raw_result.get("results", {}).get("detectors", [])`, iterated. */
  function Detectors(raw: JsonValue): (r: Option<seq<JsonValue>>)
    ensures r.Some? ==> raw.Obj?
  {
    if !raw.Obj? then None
    else
      var results := OptField(raw, "results");
      var res := if results.Missing? then Obj(map[]) else results;
      if !res.Obj? then None
      else
        var ds := OptField(res, "detectors");
        Iterated(if ds.Missing? then Arr([]) else ds)
  }

  /** `sum(1 for f in findings if f.impact == name)`. */
  function CountImpact(fs: seq<Finding>, name: string): (n: nat)
    ensures n <= |fs|
  {
    if fs == [] then 0
    else CountImpact(fs[..|fs| - 1], name) + (if fs[|fs| - 1].impact == name then 1 else 0)
  }

  /** The summary: the number of findings and, per impact, the number of
      findings whose impact is exactly that word. */
  function SummaryOf(fs: seq<Finding>): (s: Summary)
    ensures s.total == |fs|
    ensures s.high == CountImpact(fs, "High") && s.medium == CountImpact(fs, "Medium")
    ensures s.low == CountImpact(fs, "Low") && s.informational == CountImpact(fs, "Informational")
    ensures s.optimization == CountImpact(fs, "Optimization")
  {
    Summary(|fs|, CountImpact(fs, "High"), CountImpact(fs, "Medium"), CountImpact(fs, "Low"),
            CountImpact(fs, "Informational"), CountImpact(fs, "Optimization"))
  }

  const IMPACTS: seq<string> := ["High", "Medium", "Low", "Informational", "Optimization"]

  /** The five counters never exceed the total, and reach it exactly when
      every impact is one of the five words (so `high` is not `High`). */
  lemma {:induction false} CountersBounded(fs: seq<Finding>)
    ensures var s := SummaryOf(fs);
      s.high + s.medium + s.low + s.informational + s.optimization <= s.total
    ensures var s := SummaryOf(fs);
      ((s.high + s.medium + s.low + s.informational + s.optimization == s.total)
        <==> (forall i :: 0 <= i < |fs| ==> fs[i].impact in IMPACTS))
  {
    if fs != [] {
      var init := fs[..|fs| - 1];
      CountersBounded(init);
      assert forall i :: 0 <= i < |init| ==> init[i] == fs[i];
    }
  }

  /** `raw_result.get("success", True)` and `raw_result.get("error")`,
      validated; `None` when validation fails. */
  function RawStatus(raw: JsonValue): (r: Option<(bool, Option<string>)>)
    requires raw.Obj?
    ensures OptField(raw, "success").Missing? && r.Some? ==> r.value.0
  {
    var s, e := OptField(raw, "success"), OptField(raw, "error");
    var success := if s.Missing? then Some(true) else if s.Bool? then Some(s.b) else None;
    var error := if e.Missing? || e.Null? then Some(None) else if e.Str? then Some(Some(e.s)) else None;
    if success.None? || error.None? then None else Some((success.value, error.value))
  }

  /** The first `.sol` path, if any. */
  function FirstSol(files: seq<ContractFile>): (r: Option<string>)
    ensures r.None? <==> forall i :: 0 <= i < |files| ==> !EndsWith(files[i].path, ".sol")
    ensures r.Some? ==> exists i :: 0 <= i < |files| && files[i].path == r.value && EndsWith(r.value, ".sol")
                                    && forall k :: 0 <= k < i ==> !EndsWith(files[k].path, ".sol")
  {
    if files == [] then None
    else if EndsWith(files[0].path, ".sol") then Some(files[0].path)
    else
      var r := FirstSol(files[1..]);
      if r.Some? then
        var i :| 0 <= i < |files[1..]| && files[1..][i].path == r.value && EndsWith(r.value, ".sol")
                 && forall k :: 0 <= k < i ==> !EndsWith(files[1..][k].path, ".sol");
        assert files[i + 1] == files[1..][i];
        r
      else r
  }

  /** The content of the first file at `path`, or the empty text. */
  function ContentAt(files: seq<ContractFile>, path: string): (r: string)
    ensures (forall i :: 0 <= i < |files| ==> files[i].path != path) ==> r == ""
  {
    if files == [] then ""
    else if files[0].path == path then files[0].content
    else ContentAt(files[1..], path)
  }

  /** The main file: the requested one when it is non-empty, else the
      first `.sol` path. */
  function MainFile(req: AnalyzeRequest): (r: Option<string>)
    ensures req.mainFile.Some? && req.mainFile.value != "" ==> r == req.mainFile
    ensures (req.mainFile.None? || req.mainFile.value == "") ==> r == FirstSol(req.files)
  {
    if req.mainFile.Some? && req.mainFile.value != "" then req.mainFile else FirstSol(req.files)
  }

  /** The compiler version asked for: the requested one when non-empty,
      else the one the main file's pragma names. */
  function RequestedSolc(req: AnalyzeRequest, mainFile: string): (r: string)
    ensures req.solcVersion.Some? && req.solcVersion.value != "" ==> r == req.solcVersion.value
    ensures (req.solcVersion.None? || req.solcVersion.value == "") ==> r == DetectSolcVersion(ContentAt(req.files, mainFile))
  {
    if req.solcVersion.Some? && req.solcVersion.value != "" then req.solcVersion.value
    else DetectSolcVersion(ContentAt(req.files, mainFile))
  }

  /** The response when something raises inside the handler. */
  function Crash(env: Env): AnalyzeResponse {
    AnalyzeResponse(false, [], None, Some(env.crashMessage), env.durationMs, None, None)
  }

  /** The request gets past the checks that answer 400 and the writing of
      the files. */
  predicate Admitted(req: AnalyzeRequest, env: Env) {
    req.files != [] && !env.writeFails && MainFile(req).Some?
  }

  /** Slither's dictionary cannot be turned into a response: its detector
      list cannot be iterated, a detector result fails validation, or its
      `success` or `error` does. */
  predicate Unreadable(raw: JsonValue) {
    Detectors(raw).None? || FindingsOf(Detectors(raw).value).None? || RawStatus(raw).None?
  }

  /** `analyze_contract`, with the compiler chosen through the listing test
      `listed`. */
  function Handle(req: AnalyzeRequest, env: Env, loads: string -> Option<JsonValue>, listed: ListTest): (r: Reply)
    ensures req.files == [] ==> r == HttpError(400, "No contract files provided")
    ensures req.files != [] && env.writeFails ==> r == Analyzed(Crash(env))
    ensures req.files != [] && !env.writeFails && MainFile(req).None? ==> r == HttpError(400, "No .sol files found")
    ensures r.HttpError? <==> !Admitted(req, env) && !(req.files != [] && env.writeFails)
    ensures r.HttpError? ==> r.status == 400
    ensures r.Analyzed? && r.response.summary.Some? ==> r.response.summary.value == SummaryOf(r.response.findings)
    ensures r.Analyzed? && r.response.success ==> r.response.error.None? || r.response.summary.Some?
    ensures Admitted(req, env) && Unreadable(RunSlither(env.run, 120, loads)) ==> r == Analyzed(Crash(env))
    ensures Admitted(req, env) && !Unreadable(RunSlither(env.run, 120, loads)) ==>
      (var raw := RunSlither(env.run, 120, loads);
       r.Analyzed? && r.response.summary.Some?
       && r.response.findings == FindingsOf(Detectors(raw).value).value
       && r.response.success == RawStatus(raw).value.0 && r.response.error == RawStatus(raw).value.1
       && r.response.durationMs == env.durationMs && r.response.slitherVersion == env.slitherVersion
       && r.response.solcVersion == Some(ChooseSolc(RequestedSolc(req, MainFile(req).value), env.tools, listed)))
  {
    if req.files == [] then HttpError(400, "No contract files provided")
    else if env.writeFails then Analyzed(Crash(env))
    else
      var main := MainFile(req);
      if main.None? then HttpError(400, "No .sol files found")
      else
        var actual := ChooseSolc(RequestedSolc(req, main.value), env.tools, listed);
        var raw := RunSlither(env.run, 120, loads);
        var ds := Detectors(raw);
        if ds.None? then Analyzed(Crash(env))
        else
          var fs := FindingsOf(ds.value);
          if fs.None? then Analyzed(Crash(env))
          else
            var status := RawStatus(raw);
            if status.None? then Analyzed(Crash(env))
            else Analyzed(AnalyzeResponse(status.value.0, fs.value, Some(SummaryOf(fs.value)), status.value.1,
                                          env.durationMs, Some(actual), env.slitherVersion))
  }

  /** `analyze_contract` as written: the compiler is chosen by the substring
      test of `install_solc_if_needed`. */
  function Analyze(req: AnalyzeRequest, env: Env, loads: string -> Option<JsonValue>): (r: Reply)
    ensures r == Handle(req, env, loads, InText)
    ensures r.Analyzed? && r.response.summary.Some? ==>
      r.response.solcVersion == Some(InstallSolcAsWritten(RequestedSolc(req, MainFile(req).value), env.tools))
  {
    Handle(req, env, loads, InText)
  }

  /** `analyze_contract` with the intended listing test. */
  function AnalyzeIntended(req: AnalyzeRequest, env: Env, loads: string -> Option<JsonValue>): (r: Reply)
    ensures r == Handle(req, env, loads, Listed)
    ensures r.Analyzed? && r.response.summary.Some? ==>
      r.response.solcVersion == Some(InstallSolc(RequestedSolc(req, MainFile(req).value), env.tools))
  {
    Handle(req, env, loads, Listed)
  }

  /** The two handlers differ only in the compiler they report. */
  lemma HandlersAgreeButSolc(req: AnalyzeRequest, env: Env, loads: string -> Option<JsonValue>)
    ensures Analyze(req, env, loads).HttpError? <==> AnalyzeIntended(req, env, loads).HttpError?
    ensures Analyze(req, env, loads).Analyzed? ==>
      Analyze(req, env, loads).response.(solcVersion := None)
        == AnalyzeIntended(req, env, loads).response.(solcVersion := None)
  {
  }

  /** With `0.8.28` installed and the install of `0.8.2` failing, a request
      for `0.8.2` is answered as compiled with `0.8.2`; the intended
      handler reports `0.8.28`. */
  lemma PrefixVersionReported(req: AnalyzeRequest, env: Env, loads: string -> Option<JsonValue>)
    requires Admitted(req, env) && req.solcVersion == Some("0.8.2")
    requires env.tools == SolcTools(Some("0.8.28\n"), Some(1), {})
    requires !Unreadable(RunSlither(env.run, 120, loads))
    ensures Analyze(req, env, loads).Analyzed? && Analyze(req, env, loads).response.solcVersion == Some("0.8.2")
    ensures AnalyzeIntended(req, env, loads).Analyzed?
    ensures AnalyzeIntended(req, env, loads).response.solcVersion == Some("0.8.28")
  {
    var v := RequestedSolc(req, MainFile(req).value);
    assert v == "0.8.2";
    PrefixVersionAccepted();
    PrefixVersionFallsBack();
    var a, b := Analyze(req, env, loads), AnalyzeIntended(req, env, loads);
    assert a.Analyzed? && a.response.summary.Some?;
    assert b.Analyzed? && b.response.summary.Some?;
  }

  /** When Slither prints nothing usable, the response fails with the error
      text and carries no findings. */
  lemma SilentSlitherFails(req: AnalyzeRequest, env: Env, loads: string -> Option<JsonValue>)
    requires req.files != [] && !env.writeFails && MainFile(req).Some?
    requires env.run.Finished? && PyStrip(env.run.stdout) == "" && env.run.stderr == ""
    ensures Analyze(req, env, loads).Analyzed?
    ensures var resp := Analyze(req, env, loads).response;
      !resp.success && resp.findings == [] && resp.error == Some("No output from Slither")
      && resp.summary == Some(Summary(0, 0, 0, 0, 0, 0))
  {
    var raw := RunSlither(env.run, 120, loads);
    assert raw == FailureDict("No output from Slither");
    assert Detectors(raw) == Some([]);
  }
}
