/** The client side of the Slither service: preparing the request (path
    cleaning, choice of the main contract, the early answer when there is
    no Solidity file) and the Markdown rendering of a raw result. */
module SlitherAnalyzer {
  import opened Wrappers
  import opened Strings
  import opened SlitherTypes

  /** A source file of the contract, as the explorer returns it. */
  datatype ContractFile = ContractFile(path: string, content: string)

  // ---------------------------------------------------------------- paths

  function Unbackslash(c: char): char {
    if c == '\\' then '/' else c
  }

  function DropPrefix(s: string, p: string): (r: string)
    ensures StartsWith(s, p) ==> r == s[|p|..]
    ensures !StartsWith(s, p) ==> r == s
  {
    if StartsWith(s, p) then s[|p|..] else s
  }

  /** `cleanFilePath`: drops one leading `proxy/`, then one leading
      `implementation/`, then turns every backslash into a slash. */
  function CleanFilePath(path: string): (r: string)
    ensures '\\' !in r
    ensures |r| <= |path|
    ensures forall i :: 0 <= i < |r| ==> r[i] == Unbackslash(path[|path| - |r| + i])
    ensures |path| - |r| in {0, 6, 15, 21}
    ensures |path| - |r| >= 6 <==> StartsWith(path, "proxy/") || StartsWith(path, "implementation/")
  {
    var t := DropPrefix(DropPrefix(path, "proxy/"), "implementation/");
    seq(|t|, i requires 0 <= i < |t| => Unbackslash(t[i]))
  }

  /** A path with neither prefix nor backslash is kept as it is. */
  lemma CleanPathUnchanged(path: string)
    requires !StartsWith(path, "proxy/") && !StartsWith(path, "implementation/") && '\\' !in path
    ensures CleanFilePath(path) == path
  {
  }

  /** Cleaning is not idempotent: a nested prefix is dropped only by a second pass. */
  lemma CleanPathTwice()
    ensures CleanFilePath("proxy/proxy/A.sol") == "proxy/A.sol"
    ensures CleanFilePath(CleanFilePath("proxy/proxy/A.sol")) == "A.sol"
  {
    assert StartsWith("proxy/proxy/A.sol", "proxy/");
    assert "proxy/proxy/A.sol"[6..] == "proxy/A.sol";
    assert !StartsWith("proxy/A.sol", "implementation/");
    assert StartsWith("proxy/A.sol", "proxy/");
    assert "proxy/A.sol"[6..] == "A.sol";
    assert !StartsWith("A.sol", "implementation/");
  }

  predicate IsSolidity(f: ContractFile) {
    EndsWith(f.path, ".sol")
  }

  /** The Solidity files, in order (`filter` on the `.sol` suffix). */
  function SolFiles(fs: seq<ContractFile>): (r: seq<ContractFile>)
    ensures |r| <= |fs|
    ensures forall x :: x in r <==> x in fs && IsSolidity(x)
  {
    if fs == [] then []
    else SolFiles(fs[..|fs| - 1]) + (if IsSolidity(fs[|fs| - 1]) then [fs[|fs| - 1]] else [])
  }

  /** Paths of well-known libraries, interfaces and vendored code. */
  predicate IsLibraryPath(p: string) {
    Contains(p, "@openzeppelin") || Contains(p, "solmate") || Contains(p, "solady")
    || Contains(p, "/interfaces/") || Contains(p, "/libraries/") || Contains(p, "/lib/")
  }

  function NonLibrary(fs: seq<ContractFile>): (r: seq<ContractFile>)
    ensures |r| <= |fs|
    ensures forall x :: x in r <==> x in fs && !IsLibraryPath(x.path)
  {
    if fs == [] then []
    else NonLibrary(fs[..|fs| - 1]) + (if !IsLibraryPath(fs[|fs| - 1].path) then [fs[|fs| - 1]] else [])
  }

  /** The index of the first of the shortest paths among the first `n`
      files: what a stable sort by length puts first. */
  function ShortestIndex(cs: seq<ContractFile>, n: nat): (r: nat)
    requires 0 < n <= |cs|
    ensures r < n
    ensures forall k :: 0 <= k < n ==> |cs[r].path| <= |cs[k].path|
    ensures forall k :: 0 <= k < r ==> |cs[k].path| > |cs[r].path|
  {
    if n == 1 then 0
    else
      var j := ShortestIndex(cs, n - 1);
      if |cs[n - 1].path| < |cs[j].path| then n - 1 else j
  }

  /** The files the main contract is chosen among: the non-library ones,
      or every one when all are library paths. */
  function Candidates(sol: seq<ContractFile>): (r: seq<ContractFile>)
    ensures sol != [] ==> r != []
    ensures (exists f :: f in sol && !IsLibraryPath(f.path)) ==> forall f :: f in r ==> !IsLibraryPath(f.path)
  {
    var nonLib := NonLibrary(sol);
    if nonLib != [] then nonLib
    else
      assert sol != [] ==> sol[0] in sol;
      sol
  }

  /** `p` is the path of the first of the shortest files of `cs`. */
  predicate FirstShortest(cs: seq<ContractFile>, p: string) {
    exists i :: 0 <= i < |cs| && cs[i].path == p
      && (forall k :: 0 <= k < |cs| ==> |p| <= |cs[k].path|)
      && (forall k :: 0 <= k < i ==> |cs[k].path| > |p|)
  }

  /** `findMainContract`: the file analysed as the entry point. */
  function FindMainContract(files: seq<ContractFile>): (r: string)
    ensures SolFiles(files) == [] ==> r == (if files == [] then "" else files[0].path)
    ensures |SolFiles(files)| == 1 ==> r == SolFiles(files)[0].path
  {
    var sol := SolFiles(files);
    if sol == [] then (if files == [] then "" else files[0].path)
    else if |sol| == 1 then sol[0].path
    else
      var cands := Candidates(sol);
      cands[ShortestIndex(cands, |cands|)].path
  }

  /** The index `ShortestIndex` finds is the first of the shortest. */
  lemma ShortestIsFirst(cs: seq<ContractFile>)
    requires cs != []
    ensures FirstShortest(cs, cs[ShortestIndex(cs, |cs|)].path)
  {
    var i := ShortestIndex(cs, |cs|);
    assert cs[i].path == cs[i].path;
  }

  /** With several Solidity files the choice is the first of the shortest
      candidates. */
  lemma MainContractShortest(files: seq<ContractFile>)
    requires |SolFiles(files)| >= 2
    ensures FirstShortest(Candidates(SolFiles(files)), FindMainContract(files))
  {
    ShortestIsFirst(Candidates(SolFiles(files)));
  }

  /** A library path is chosen only when every Solidity file is one. */
  lemma MainContractNotLibrary(files: seq<ContractFile>)
    requires |SolFiles(files)| >= 2
    requires exists f :: f in files && IsSolidity(f) && !IsLibraryPath(f.path)
    ensures !IsLibraryPath(FindMainContract(files))
  {
    var cands := Candidates(SolFiles(files));
    var i := ShortestIndex(cands, |cands|);
    assert cands[i] in cands;
  }

  // ---------------------------------------------------------------- request

  /** `emptySummary`: every counter zero. */
  function EmptySummary(): (s: SlitherSummary)
    ensures s.total == s.high == s.medium == s.low == s.informational == s.optimization == 0
  {
    SlitherSummary(0, 0, 0, 0, 0, 0)
  }

  /** What `analyzeWithSlither` does before any request: answer at once, or
      send the cleaned Solidity files with a main file and a compiler version. */
  datatype Prepared =
    | Answer(result: SlitherAnalysisResult)
    | Request(files: seq<ContractFile>, mainFile: string, solcVersion: Option<string>)

  function CleanFiles(fs: seq<ContractFile>): (r: seq<ContractFile>)
    ensures |r| == |fs|
    ensures forall i :: 0 <= i < |fs| ==> r[i] == ContractFile(CleanFilePath(fs[i].path), fs[i].content)
  {
    seq(|fs|, i requires 0 <= i < |fs| => ContractFile(CleanFilePath(fs[i].path), fs[i].content))
  }

  const NO_SOLIDITY := "No Solidity files found for analysis"

  /** The request preparation of `analyzeWithSlither`. */
  function PrepareAnalysis(files: seq<ContractFile>, mainFile: Option<string>, solcVersion: Option<string>): (r: Prepared)
    ensures r.Answer? <==> forall f :: f in files ==> !IsSolidity(f)
    ensures r.Answer? ==> (!r.result.success && r.result.findings == [] && r.result.summary == EmptySummary()
                           && r.result.durationMs == 0 && r.result.error == Some(NO_SOLIDITY))
    ensures r.Request? ==> |r.files| == |SolFiles(files)| > 0
    ensures r.Request? ==> forall i :: 0 <= i < |r.files| ==>
      r.files[i].content == SolFiles(files)[i].content && '\\' !in r.files[i].path
    ensures r.Request? ==> r.files == CleanFiles(SolFiles(files))
    ensures r.Request? && mainFile.Some? && mainFile.value != "" ==> r.mainFile == CleanFilePath(mainFile.value)
    ensures r.Request? && (mainFile.None? || mainFile.value == "") ==> r.mainFile == FindMainContract(r.files)
    ensures r.Request? ==> r.solcVersion == NonEmpty(solcVersion.GetOr(""))
  {
    var req := CleanFiles(SolFiles(files));
    if req == [] then
      assert SolFiles(files) == [];
      Answer(SlitherAnalysisResult(false, [], EmptySummary(), Some(NO_SOLIDITY), 0, None, None))
    else
      assert SolFiles(files)[0] in SolFiles(files);
      var main := if mainFile.Some? && mainFile.value != "" then CleanFilePath(mainFile.value) else FindMainContract(req);
      Request(req, main, NonEmpty(solcVersion.GetOr("")))
  }

  // ---------------------------------------------------------------- markdown

  const TOOL_HEADING := "## Slither 静态分析"

  /** `x || "unknown"`. */
  function OrUnknown(v: Option<string>): string {
    Or(v, "unknown")
  }

  function Footnote(r: SlitherAnalysisResult): string {
    "分析耗时: " + IntToString(r.durationMs) + "ms | Slither " + OrUnknown(r.slitherVersion)
    + " | solc " + OrUnknown(r.solcVersion) + "*\n"
  }

  function FailureText(error: string): string {
    TOOL_HEADING + "\n\n> ⚠️ 分析失败: " + error + "\n"
  }

  function CleanText(r: SlitherAnalysisResult): string {
    TOOL_HEADING + "\n\n✅ 未检测到已知漏洞模式。\n\n*" + Footnote(r)
  }

  /** The colour mark of an impact (one character each). */
  function Emoji(i: SlitherImpact): char {
    match i
    case High => '🔴'
    case Medium => '🟠'
    case Low => '🟡'
    case Informational => '🔵'
    case Optimization => '⚪'
  }

  function Counter(s: SlitherSummary, i: SlitherImpact): int {
    match i
    case High => s.high
    case Medium => s.medium
    case Low => s.low
    case Informational => s.informational
    case Optimization => s.optimization
  }

  function RowHead(i: SlitherImpact): string {
    "| " + [Emoji(i)] + " " + ImpactName(i) + " | "
  }

  /** `| <mark> <impact> | <count> |`. */
  function SummaryRow(i: SlitherImpact, n: int): string {
    RowHead(i) + (IntToString(n) + " |")
  }

  /** `acc` with the summary rows of the first `k` impacts whose counter is positive. */
  function PushSummaryRows(acc: seq<string>, s: SlitherSummary, k: nat): seq<string>
    requires k <= |AllImpacts|
  {
    if k == 0 then acc
    else
      var i := AllImpacts[k - 1];
      var before := PushSummaryRows(acc, s, k - 1);
      if Counter(s, i) > 0 then before + [SummaryRow(i, Counter(s, i))] else before
  }

  /** The location line of an element that has one: its file and its first and last line. */
  function LocationLine(e: SlitherElement): string
    requires HasLocation(e)
  {
    var m := e.sourceMapping.value;
    "- `" + m.filenameRelative.value + "` (lines " + NatToString(m.lines[0]) + "-"
    + NatToString(m.lines[|m.lines| - 1]) + ")"
  }

  /** The location lines of a finding, one per element with a location, in order. */
  function LocationLines(es: seq<SlitherElement>): (r: seq<string>)
    ensures |r| == |Located(es)|
    ensures forall k :: 0 <= k < |r| ==> r[k] == LocationLine(Located(es)[k])
  {
    var ls := Located(es);
    seq(|ls|, k requires 0 <= k < |ls| => LocationLine(ls[k]))
  }

  /** `acc` with the block of one finding: detector heading, trimmed
      description, and the locations when there are any. */
  function PushFinding(acc: seq<string>, f: SlitherFinding): seq<string> {
    var head := acc + ["#### " + f.check + "\n", Trim(f.description), ""];
    var locs := LocationLines(f.elements);
    if locs == [] then head else head + ["**位置:**"] + locs + [""]
  }

  /** `acc` with the blocks of the findings `fs`. */
  function PushFindings(acc: seq<string>, fs: seq<SlitherFinding>): seq<string> {
    if fs == [] then acc else PushFinding(PushFindings(acc, fs[..|fs| - 1]), fs[|fs| - 1])
  }

  /** The findings whose impact is exactly the name of `i`, in order. */
  function ImpactGroup(fs: seq<SlitherFinding>, i: SlitherImpact): (r: seq<SlitherFinding>)
    ensures |r| <= |fs|
    ensures forall x :: x in r <==> x in fs && x.impact == ImpactName(i)
  {
    if fs == [] then []
    else ImpactGroup(fs[..|fs| - 1], i) + (if fs[|fs| - 1].impact == ImpactName(i) then [fs[|fs| - 1]] else [])
  }

  function GroupTitle(i: SlitherImpact): string {
    "### " + [Emoji(i)] + " " + ImpactName(i) + " Severity\n"
  }

  /** `acc` with the groups of the first `k` impacts, empty groups skipped. */
  function PushImpactGroups(acc: seq<string>, fs: seq<SlitherFinding>, k: nat): seq<string>
    requires k <= |AllImpacts|
  {
    if k == 0 then acc
    else
      var before := PushImpactGroups(acc, fs, k - 1);
      var i := AllImpacts[k - 1];
      var g := ImpactGroup(fs, i);
      if g == [] then before else PushFindings(before + [GroupTitle(i)], g)
  }

  /** The lines of the full rendering. */
  function MarkdownLines(r: SlitherAnalysisResult): seq<string> {
    var top := ["## Slither 静态分析结果\n",
                "*检测到 **" + IntToString(r.summary.total) + "** 个发现 | " + Footnote(r),
                "### 摘要\n", "| 严重度 | 数量 |", "|--------|------|"];
    var table := PushSummaryRows(top, r.summary, |AllImpacts|) + [""];
    PushImpactGroups(table, r.findings, |AllImpacts|)
  }

  /** The text `formatSlitherResultsAsMarkdown` returns. */
  function SlitherMarkdown(r: SlitherAnalysisResult): string {
    if !r.success && r.error.Some? && r.error.value != "" then FailureText(r.error.value)
    else if r.findings == [] then CleanText(r)
    else Join(MarkdownLines(r), "\n")
  }

  /** `formatSlitherResultsAsMarkdown`. */
  method FormatSlitherResultsAsMarkdown(r: SlitherAnalysisResult) returns (md: string)
    ensures md == SlitherMarkdown(r)
  {
    if !r.success && r.error.Some? && r.error.value != "" {
      return FailureText(r.error.value);
    }
    if |r.findings| == 0 {
      return CleanText(r);
    }
    var lines := ["## Slither 静态分析结果\n",
                  "*检测到 **" + IntToString(r.summary.total) + "** 个发现 | " + Footnote(r),
                  "### 摘要\n", "| 严重度 | 数量 |", "|--------|------|"];
    lines := PushAllSummaryRows(lines, r.summary);
    lines := lines + [""];
    lines := PushAllImpactGroups(lines, r.findings);
    md := Join(lines, "\n");
  }

  /** The five guarded pushes of the summary table. */
  method PushAllSummaryRows(lines: seq<string>, s: SlitherSummary) returns (out: seq<string>)
    ensures out == PushSummaryRows(lines, s, |AllImpacts|)
  {
    out := lines;
    var k := 0;
    while k < |AllImpacts|
      invariant k <= |AllImpacts|
      invariant out == PushSummaryRows(lines, s, k)
    {
      var i := AllImpacts[k];
      if Counter(s, i) > 0 {
        out := out + [SummaryRow(i, Counter(s, i))];
      }
      k := k + 1;
    }
  }

  /** The loop over the impact order, with the inner loop over one group. */
  method PushAllImpactGroups(lines: seq<string>, fs: seq<SlitherFinding>) returns (out: seq<string>)
    ensures out == PushImpactGroups(lines, fs, |AllImpacts|)
  {
    out := lines;
    var k := 0;
    while k < |AllImpacts|
      invariant k <= |AllImpacts|
      invariant out == PushImpactGroups(lines, fs, k)
    {
      var i := AllImpacts[k];
      var g := ImpactGroup(fs, i);
      if g != [] {
        out := out + [GroupTitle(i)];
        out := PushAllFindings(out, g);
      }
      k := k + 1;
    }
  }

  /** The loop over the findings of one group. */
  method PushAllFindings(lines: seq<string>, fs: seq<SlitherFinding>) returns (out: seq<string>)
    ensures out == PushFindings(lines, fs)
  {
    out := lines;
    var j := 0;
    while j < |fs|
      invariant j <= |fs|
      invariant out == PushFindings(lines, fs[..j])
    {
      assert fs[..j + 1][..j] == fs[..j];
      var f := fs[j];
      out := out + ["#### " + f.check + "\n", Trim(f.description), ""];
      var locs := LocationLines(f.elements);
      if |locs| > 0 {
        out := out + ["**位置:**"] + locs + [""];
      }
      j := j + 1;
    }
    assert fs[..|fs|] == fs;
  }

  // ---------------------------------------------------------------- properties

  /** The third character of a summary row is its colour mark. */
  lemma RowEmoji(i: SlitherImpact, n: int)
    ensures |SummaryRow(i, n)| > 2 && SummaryRow(i, n)[2] == Emoji(i)
  {
    var h := "| " + [Emoji(i)];
    assert RowHead(i) == h + (" " + ImpactName(i) + " | ");
    assert SummaryRow(i, n) == h + ((" " + ImpactName(i) + " | ") + (IntToString(n) + " |"));
  }

  /** Rows of different impacts differ. */
  lemma SummaryRowsDiffer(i: SlitherImpact, n: int, j: SlitherImpact, m: int)
    requires SummaryRow(i, n) == SummaryRow(j, m)
    ensures i == j
  {
    RowEmoji(i, n);
    RowEmoji(j, m);
  }

  /** Every row of the summary table shows a positive counter of its impact. */
  lemma {:induction false} SummaryRowsPositive(s: SlitherSummary, k: nat)
    requires k <= |AllImpacts|
    ensures forall i, n :: SummaryRow(i, n) in PushSummaryRows([], s, k) ==> Counter(s, i) > 0 && n == Counter(s, i)
  {
    if k > 0 {
      SummaryRowsPositive(s, k - 1);
      var t := AllImpacts[k - 1];
      forall i, n | SummaryRow(i, n) == SummaryRow(t, Counter(s, t))
        ensures i == t && n == Counter(s, t)
      {
        SummaryRowsDiffer(i, n, t, Counter(s, t));
        RowCount(i, n, Counter(s, t));
      }
    }
  }

  /** The position of an impact in the rendering order. */
  function ImpactIndex(i: SlitherImpact): (r: nat)
    ensures r < |AllImpacts| && AllImpacts[r] == i
  {
    match i
    case High => 0
    case Medium => 1
    case Low => 2
    case Informational => 3
    case Optimization => 4
  }

  /** Impacts appear once in the rendering order. */
  lemma ImpactIndexOf(k: nat)
    requires k < |AllImpacts|
    ensures ImpactIndex(AllImpacts[k]) == k
  {
  }

  /** After the first `k` impacts, each of them with a positive counter has its row. */
  lemma {:induction false} SummaryRowsPresent(s: SlitherSummary, k: nat)
    requires k <= |AllImpacts|
    ensures forall i :: ImpactIndex(i) < k && Counter(s, i) > 0 ==> SummaryRow(i, Counter(s, i)) in PushSummaryRows([], s, k)
  {
    if k > 0 {
      SummaryRowsPresent(s, k - 1);
      ImpactIndexOf(k - 1);
    }
  }

  /** The summary table has a row for an impact exactly when its counter is
      positive, and that row shows the counter. */
  lemma SummaryRowsShown(s: SlitherSummary)
    ensures forall i, n :: SummaryRow(i, n) in PushSummaryRows([], s, |AllImpacts|) <==> Counter(s, i) > 0 && n == Counter(s, i)
  {
    SummaryRowsPositive(s, |AllImpacts|);
    SummaryRowsPresent(s, |AllImpacts|);
  }

  /** A row determines its count. */
  lemma RowCount(i: SlitherImpact, n: int, m: int)
    requires SummaryRow(i, n) == SummaryRow(i, m)
    ensures n == m
  {
    PrefixCancel(RowHead(i), IntToString(n) + " |", IntToString(m) + " |");
    SuffixCancel(IntToString(n), IntToString(m), " |");
    IntToStringInjective(n, m);
  }

  /** A failed analysis with an error message renders as the failure block
      alone; a result without findings as the clean block alone. */
  lemma MarkdownShortCases(r: SlitherAnalysisResult)
    ensures !r.success && r.error.Some? && r.error.value != "" ==> SlitherMarkdown(r) == FailureText(r.error.value)
    ensures (r.success || r.error.None? || r.error.value == "") && r.findings == [] ==> SlitherMarkdown(r) == CleanText(r)
  {
  }

  /** Every finding whose impact is one of the five names is rendered in
      exactly one group; findings with any other impact string are not rendered. */
  lemma {:induction false} GroupsCover(fs: seq<SlitherFinding>)
    ensures |ImpactGroup(fs, High)| + |ImpactGroup(fs, Medium)| + |ImpactGroup(fs, Low)|
      + |ImpactGroup(fs, Informational)| + |ImpactGroup(fs, Optimization)| + |Unrendered(fs)| == |fs|
  {
    if fs != [] {
      GroupsCover(fs[..|fs| - 1]);
      var x := fs[|fs| - 1];
      if ParseImpact(x.impact).Some? {
        ParseImpactName(ParseImpact(x.impact).value);
      }
    }
  }

  /** The findings no group shows. */
  function Unrendered(fs: seq<SlitherFinding>): (r: seq<SlitherFinding>)
    ensures forall x :: x in r <==> x in fs && ParseImpact(x.impact).None?
  {
    if fs == [] then []
    else Unrendered(fs[..|fs| - 1]) + (if ParseImpact(fs[|fs| - 1].impact).None? then [fs[|fs| - 1]] else [])
  }
}
