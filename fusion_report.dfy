/** `formatFusionReport` and `fmtF`: the Markdown audit report built from a
    fusion result, as a list of lines joined with line feeds. */
module FusionReport {
  import opened Wrappers
  import opened Strings
  import opened FusionModel
  import opened Fusion
  import ST = SlitherTypes

  // ---------------------------------------------------------------- one finding

  /** The source label; `fmtF` tests the same conditions as the counter of
      the summary, so the label names the counter the finding is counted in. */
  function KindLabel(k: SourceKind): string {
    match k
    case Both => "**[Slither + AI]**"
    case SlitherOnly => "**[Slither]**"
    case AiOnly => "**[AI]**"
  }

  function ConfidenceWord(c: Confidence): string {
    match c
    case HighConfidence => "High"
    case MediumConfidence => "Medium"
    case LowConfidence => "Low"
  }

  /** A line for an optional field, present only when the field is set and not empty. */
  function OptLine(tag: string, v: Option<string>, suffix: string): (r: seq<string>)
    ensures |r| <= 1
    ensures r != [] <==> v.Some? && v.value != ""
  {
    if v.Some? && v.value != "" then [tag + v.value + suffix] else []
  }

  const DESCRIPTION_LABEL := "- **Description:** "

  /** The lines of one finding's block. */
  function FindingLines(f: UnifiedFinding): (r: seq<string>)
    ensures 3 <= |r| <= 8
    ensures r[0] == "#### " + f.title
    ensures r[2] == "- **Source:** " + KindLabel(KindOf(f)) + " | " + ConfidenceWord(f.confidence) + " Confidence"
    ensures f.description != "" <==> DESCRIPTION_LABEL + Prefix(f.description, 500) in r[3..]
  {
    var swc := if f.swcId.Some? && f.swcId.value != ""
      then ["- **SWC:** [" + f.swcId.value + "](https://swcregistry.io/docs/" + f.swcId.value + ")"]
      else [];
    var desc := if f.description != "" then [DESCRIPTION_LABEL + Prefix(f.description, 500)] else [];
    var rest := OptLine("- **Impact:** ", f.impact, "")
      + OptLine("- **Location:** `", f.location, "`")
      + OptLine("- **Recommendation:** ", f.recommendation, "");
    var head := ["#### " + f.title,
                 "- **Severity:** " + SeverityName(f.severity),
                 "- **Source:** " + KindLabel(KindOf(f)) + " | " + ConfidenceWord(f.confidence) + " Confidence"];
    LabelledLinesDiffer(swc, rest);
    HeadThenLines(head, swc + desc + rest);
    head + (swc + desc + rest)
  }

  /** The three fixed lines stay in front of the optional ones. */
  lemma HeadThenLines(head: seq<string>, tail: seq<string>)
    requires |head| == 3
    ensures |head + tail| == 3 + |tail|
    ensures (head + tail)[0] == head[0] && (head + tail)[2] == head[2]
    ensures (head + tail)[3..] == tail
  {
  }

  /** No line but the description line carries the description label: the
      other labels differ from it in their fifth character. */
  lemma LabelledLinesDiffer(swc: seq<string>, rest: seq<string>)
    requires forall l :: l in swc ==> StartsWith(l, "- **SWC:** [")
    requires forall l :: l in rest ==>
      StartsWith(l, "- **Impact:** ") || StartsWith(l, "- **Location:** `") || StartsWith(l, "- **Recommendation:** ")
    ensures forall x :: DESCRIPTION_LABEL + x !in swc + rest
  {
    forall l | l in swc + rest
      ensures |l| > 4 && l[4] != 'D'
    {
      if l in swc {
        assert l[4] == l[..12][4];
      } else {
        assert l[4] == l[..14][4];
      }
    }
    forall x
      ensures DESCRIPTION_LABEL + x !in swc + rest
    {
      assert (DESCRIPTION_LABEL + x)[4] == 'D';
    }
  }

  /** `fmtF`: the block of one finding. */
  function FmtF(f: UnifiedFinding): string {
    Join(FindingLines(f), "\n")
  }

  // ---------------------------------------------------------------- sections

  const HEADER_TITLE := "# Smart Contract Security Audit Report\n"
  const TOOL_LINE := "**Tool**: ChainVine - Dual-Engine Vulnerability Scanner\n"
  const RULE := "---\n"
  const FOOTER := "> *Generated by ChainVine. Cross-validated findings have higher confidence. Manual review recommended.*"

  /** The engine list joined with ` + `, or `None` when that is empty. */
  function EngineList(engines: seq<string>): string {
    var j := Join(engines, " + ");
    if j != "" then j else "None"
  }

  /** The header; `now` stands for the ISO time of the clock. */
  function Header(name: string, engines: seq<string>, now: string): seq<string> {
    [HEADER_TITLE,
     "**Contract**: " + name + "  ",
     "**Engines**: " + EngineList(engines) + "  ",
     "**Time**: " + now + "  ",
     TOOL_LINE,
     RULE]
  }

  /** A missing confidence counter is rendered as `undefined`. */
  function CounterText(m: map<Confidence, nat>, c: Confidence): string {
    if c in m then NatToString(m[c]) else "undefined"
  }

  function Overview(su: FusionSummary, m: FusionMetadata): seq<string> {
    ["## Dual-Engine Overview\n",
     "| Metric | Count |",
     "|--------|-------|",
     "| Total | **" + NatToString(su.total) + "** |",
     "| Cross-Validated | **" + NatToString(su.bySource.both) + "** |",
     "| Slither Only | " + NatToString(su.bySource.slitherOnly) + " |",
     "| AI Only | " + NatToString(su.bySource.aiOnly) + " |",
     "| High Confidence | " + CounterText(su.byConfidence, HighConfidence) + " |",
     "| Deduplicated | " + NatToString(m.deduplicatedCount) + " |\n"]
  }

  /** `acc` with one line pushed per element of `xs`, as `render` gives it. */
  function Pushed<T>(acc: seq<string>, xs: seq<T>, render: T -> string): (r: seq<string>)
    ensures |r| == |acc| + |xs|
  {
    if xs == [] then acc else Pushed(acc, xs[..|xs| - 1], render) + [render(xs[|xs| - 1])]
  }

  /** One row of the severity table. */
  function SeverityRow(s: Severity, n: nat): string {
    "| " + SeverityName(s) + " | " + NatToString(n) + " |"
  }

  /** `acc` with the rows of the first `k` severities of the scale whose count is positive. */
  function PushSeverityRows(acc: seq<string>, m: map<Severity, nat>, k: nat): seq<string>
    requires k <= |SeverityOrder|
  {
    if k == 0 then acc
    else
      var s := SeverityOrder[k - 1];
      var before := PushSeverityRows(acc, m, k - 1);
      if s in m && m[s] > 0 then before + [SeverityRow(s, m[s])] else before
  }

  /** The rows of the severity table on their own. */
  function SeverityRows(m: map<Severity, nat>): seq<string> {
    PushSeverityRows([], m, |SeverityOrder|)
  }

  /** A finding's block followed by an empty line. */
  function Block(f: UnifiedFinding): string {
    FmtF(f) + "\n"
  }

  /** The findings both engines reported, in order (`filter` on two sources). */
  function CrossOf(fs: seq<UnifiedFinding>): (r: seq<UnifiedFinding>)
    ensures |r| <= |fs|
    ensures forall x :: x in r <==> x in fs && |x.sources| == 2
  {
    if fs == [] then []
    else CrossOf(fs[..|fs| - 1]) + (if |fs[|fs| - 1].sources| == 2 then [fs[|fs| - 1]] else [])
  }

  /** `acc` with the cross-validated section: nothing when no finding has both sources. */
  function PushCross(acc: seq<string>, fs: seq<UnifiedFinding>): seq<string> {
    var cv := CrossOf(fs);
    if cv == [] then acc
    else Pushed(acc + [RULE, "## Cross-Validated (High Confidence)\n", "> Detected by **both** engines.\n"], cv, Block)
  }

  /** The findings of one severity, in order (`filter` on the severity). */
  function GroupOf(fs: seq<UnifiedFinding>, sev: Severity): (r: seq<UnifiedFinding>)
    ensures |r| <= |fs|
    ensures forall x :: x in r <==> x in fs && x.severity == sev
  {
    if fs == [] then []
    else GroupOf(fs[..|fs| - 1], sev) + (if fs[|fs| - 1].severity == sev then [fs[|fs| - 1]] else [])
  }

  function GroupHeading(sev: Severity, n: nat): string {
    "### " + SeverityName(sev) + " (" + NatToString(n) + ")\n"
  }

  /** `acc` with the heading and blocks of one severity; nothing for an empty group. */
  function PushGroup(acc: seq<string>, fs: seq<UnifiedFinding>, sev: Severity): seq<string> {
    var g := GroupOf(fs, sev);
    if g == [] then acc else Pushed(acc + [GroupHeading(sev, |g|)], g, Block)
  }

  /** `acc` with the groups of the first `k` severities of the scale. */
  function PushGroups(acc: seq<string>, fs: seq<UnifiedFinding>, k: nat): seq<string>
    requires k <= |SeverityOrder|
  {
    if k == 0 then acc else PushGroup(PushGroups(acc, fs, k - 1), fs, SeverityOrder[k - 1])
  }

  // ---------------------------------------------------------------- AI appendix

  /** A multi-line `^` holds at `i`. */
  predicate AtLineStart(s: string, i: nat) {
    i == 0 || (i <= |s| && IsLineTerminator(s[i - 1]))
  }

  const BANNER_WORDS: seq<string> := ["Security", "Audit", "Report", "Analysis", "Generated"]

  /** One of the banner words, in any case, starts at `j`. */
  predicate BannerWordAt(s: string, j: nat) {
    exists w | w in BANNER_WORDS :: MatchesAtIgnoreCase(s, j, w)
  }

  /** Where `^#\s+.*?(Security|Audit|Report|Analysis|Generated).*$` (case
      insensitive, multi-line) matches from `p`, the end of the match. The
      greedy `\s+` may cross line ends; the lazy `.*?` then searches the
      rest of that line for a word, and `.*$` runs to its end. Shorter
      choices of `\s+` cannot succeed where the longest fails. */
  function BannerEnd(s: string, p: nat): (r: Option<nat>)
    requires p <= |s|
    ensures r.Some? ==> p + 2 < r.value <= |s|
  {
    if p + 1 < |s| && s[p] == '#' && IsSpace(s[p + 1]) then
      var q := SpaceEnd(s, p + 1);
      var e := LineEnd(s, q);
      if exists j | q <= j < e :: BannerWordAt(s, j) then Some(e) else None
    else None
  }

  /** `s.replace(banner, "")` on the text from `i` on. */
  function ReplaceBannersFrom(s: string, i: nat): (r: string)
    requires i <= |s|
    ensures |r| <= |s| - i
    decreases |s| - i
  {
    if i == |s| then ""
    else if AtLineStart(s, i) && BannerEnd(s, i).Some? then ReplaceBannersFrom(s, BannerEnd(s, i).value)
    else [s[i]] + ReplaceBannersFrom(s, i + 1)
  }

  /** The last line terminator in `s[lo..hi]`. */
  function LastTerminator(s: string, lo: nat, hi: nat): (r: Option<nat>)
    requires lo <= hi <= |s|
    ensures r.Some? ==> lo <= r.value < hi && IsLineTerminator(s[r.value])
    ensures r.None? ==> forall k :: lo <= k < hi ==> !IsLineTerminator(s[k])
    decreases hi
  {
    if hi == lo then None
    else if IsLineTerminator(s[hi - 1]) then Some(hi - 1)
    else LastTerminator(s, lo, hi - 1)
  }

  /** Where `^\s*---\s*$` (multi-line) matches from `p`, the end of the
      match: the leading `\s*` may swallow preceding empty lines, the
      trailing one backs off to the last line end it crossed. */
  function RuleEnd(s: string, p: nat): (r: Option<nat>)
    requires p <= |s|
    ensures r.Some? ==> p + 3 <= r.value <= |s|
  {
    var q := SpaceEnd(s, p);
    if OccursAt(s, "---", q) then
      var t := SpaceEnd(s, q + 3);
      if t == |s| then Some(t) else LastTerminator(s, q + 3, t)
    else None
  }

  /** `s.replace(rule, "")` on the text from `i` on. */
  function ReplaceRulesFrom(s: string, i: nat): (r: string)
    requires i <= |s|
    ensures |r| <= |s| - i
    decreases |s| - i
  {
    if i == |s| then ""
    else if AtLineStart(s, i) && RuleEnd(s, i).Some? then ReplaceRulesFrom(s, RuleEnd(s, i).value)
    else [s[i]] + ReplaceRulesFrom(s, i + 1)
  }

  /** The AI report with banner headings and horizontal rules removed, trimmed. */
  function CleanAiReport(ai: string): (r: string)
    ensures |r| <= |ai|
  {
    Trim(ReplaceRulesFrom(ReplaceBannersFrom(ai, 0), 0))
  }

  /** A text without `#` has no banner heading to remove. */
  lemma {:induction false} NoBannerUnchanged(s: string, i: nat)
    requires i <= |s| && '#' !in s
    ensures ReplaceBannersFrom(s, i) == s[i..]
    decreases |s| - i
  {
    if i < |s| {
      assert BannerEnd(s, i).None? by {
        assert s[i] in s;
      }
      NoBannerUnchanged(s, i + 1);
      assert s[i..] == [s[i]] + s[i + 1..];
    }
  }

  /** A text without `-` has no rule to remove. */
  lemma {:induction false} NoRuleUnchanged(s: string, i: nat)
    requires i <= |s| && '-' !in s
    ensures ReplaceRulesFrom(s, i) == s[i..]
    decreases |s| - i
  {
    if i < |s| {
      assert RuleEnd(s, i).None? by {
        var q := SpaceEnd(s, i);
        if q < |s| {
          assert s[q] in s;
        }
      }
      NoRuleUnchanged(s, i + 1);
      assert s[i..] == [s[i]] + s[i + 1..];
    }
  }

  /** `acc` with the AI appendix, when there is a non-empty AI report. */
  function PushAi(acc: seq<string>, ai: Option<string>): seq<string> {
    if ai.Some? && ai.value != "" then acc + [RULE, "## Appendix: AI Report\n"] + [CleanAiReport(ai.value) + "\n"] else acc
  }

  // ---------------------------------------------------------------- Slither appendix

  /** One raw Slither line: impact, detector and at most 200 characters of
      the trimmed description. */
  function RawLine(f: ST.SlitherFinding): (r: string)
    ensures var head := "- **[" + f.impact + "]** `" + f.check + "`: ";
      StartsWith(r, head) && |r| <= |head| + 200 && StartsWith(Trim(f.description), r[|head|..])
  {
    var head := "- **[" + f.impact + "]** `" + f.check + "`: ";
    var d := Prefix(Trim(f.description), 200);
    assert (head + d)[|head|..] == d;
    head + d
  }

  function RawTotals(sr: ST.SlitherAnalysisResult): string {
    "*" + IntToString(sr.summary.total) + " findings | " + IntToString(sr.durationMs) + "ms*\n"
  }

  /** `acc` with the raw Slither appendix, when the analysis succeeded with findings. */
  function PushSlither(acc: seq<string>, slither: Option<ST.SlitherAnalysisResult>): seq<string> {
    if slither.Some? && slither.value.success && |slither.value.findings| > 0 then
      Pushed(acc + [RULE, "## Appendix: Slither Raw\n", RawTotals(slither.value)], slither.value.findings, RawLine) + [""]
    else acc
  }

  // ---------------------------------------------------------------- report

  /** The lines of the report, in the order they are pushed. */
  function ReportLines(fusion: FusionResult, name: string, engines: seq<string>,
                       slither: Option<ST.SlitherAnalysisResult>, ai: Option<string>, now: string): seq<string>
  {
    var fs, su := fusion.findings, fusion.summary;
    var top := Header(name, engines, now) + Overview(su, fusion.metadata)
      + ["### Severity\n", "| Level | Count |", "|-------|-------|"];
    var table := PushSeverityRows(top, su.bySeverity, |SeverityOrder|) + [""];
    var all := PushGroups(PushCross(table, fs) + [RULE, "## All Findings\n"], fs, |SeverityOrder|);
    PushSlither(PushAi(all, ai), slither) + [RULE, FOOTER]
  }

  /** `formatFusionReport`: pushes the lines section by section and joins them. */
  method FormatFusionReport(fusion: FusionResult, name: string, engines: seq<string>,
                            slither: Option<ST.SlitherAnalysisResult>, ai: Option<string>, now: string)
    returns (report: string)
    ensures report == Join(ReportLines(fusion, name, engines, slither, ai, now), "\n")
  {
    var fs, su, m := fusion.findings, fusion.summary, fusion.metadata;
    var lines := Header(name, engines, now) + Overview(su, m)
      + ["### Severity\n", "| Level | Count |", "|-------|-------|"];
    lines := PushAllSeverityRows(lines, su.bySeverity);
    lines := lines + [""];

    ghost var table := lines;
    var cv := CrossOf(fs);
    if cv != [] {
      lines := lines + [RULE, "## Cross-Validated (High Confidence)\n", "> Detected by **both** engines.\n"];
      lines := PushAll(lines, cv, Block);
    }
    assert lines == PushCross(table, fs);

    lines := lines + [RULE, "## All Findings\n"];
    lines := PushAllGroups(lines, fs);

    if ai.Some? && ai.value != "" {
      lines := lines + [RULE, "## Appendix: AI Report\n"];
      var c := CleanAiReport(ai.value);
      lines := lines + [c + "\n"];
    }

    if slither.Some? && slither.value.success && |slither.value.findings| > 0 {
      lines := lines + [RULE, "## Appendix: Slither Raw\n", RawTotals(slither.value)];
      lines := PushAll(lines, slither.value.findings, RawLine);
      lines := lines + [""];
    }

    lines := lines + [RULE, FOOTER];
    report := Join(lines, "\n");
  }

  /** The loop over the entries of the severity counters. */
  method PushAllSeverityRows(lines: seq<string>, m: map<Severity, nat>) returns (out: seq<string>)
    ensures out == PushSeverityRows(lines, m, |SeverityOrder|)
  {
    out := lines;
    var k := 0;
    while k < |SeverityOrder|
      invariant k <= |SeverityOrder|
      invariant out == PushSeverityRows(lines, m, k)
    {
      var s := SeverityOrder[k];
      if s in m && m[s] > 0 {
        out := out + [SeverityRow(s, m[s])];
      }
      k := k + 1;
    }
  }

  /** A `for ... of` loop pushing one rendered line per element. */
  method PushAll<T>(lines: seq<string>, xs: seq<T>, render: T -> string) returns (out: seq<string>)
    ensures out == Pushed(lines, xs, render)
  {
    out := lines;
    var i := 0;
    while i < |xs|
      invariant i <= |xs|
      invariant out == Pushed(lines, xs[..i], render)
    {
      assert xs[..i + 1][..i] == xs[..i];
      out := out + [render(xs[i])];
      i := i + 1;
    }
    assert xs[..|xs|] == xs;
  }

  /** The loop over the severity scale, with the inner loop over one group. */
  method PushAllGroups(lines: seq<string>, fs: seq<UnifiedFinding>) returns (out: seq<string>)
    ensures out == PushGroups(lines, fs, |SeverityOrder|)
  {
    out := lines;
    var k := 0;
    while k < |SeverityOrder|
      invariant k <= |SeverityOrder|
      invariant out == PushGroups(lines, fs, k)
    {
      var sev := SeverityOrder[k];
      var g := GroupOf(fs, sev);
      if g != [] {
        out := out + [GroupHeading(sev, |g|)];
        out := PushAll(out, g, Block);
      }
      k := k + 1;
    }
  }

  // ---------------------------------------------------------------- properties

  /** Rows of the severity table for different severities or counts differ:
      the severity names start with six different letters. */
  lemma SeverityRowInjective(s1: Severity, n1: nat, s2: Severity, n2: nat)
    requires SeverityRow(s1, n1) == SeverityRow(s2, n2)
    ensures s1 == s2 && n1 == n2
  {
    var r := SeverityRow(s1, n1);
    assert r[2] == SeverityName(s1)[0];
    assert r[2] == SeverityName(s2)[0];
    var p := "| " + SeverityName(s1) + " | ";
    assert r == p + NatToString(n1) + " |";
    assert r == p + NatToString(n2) + " |";
    assert NatToString(n1) == r[|p|..|r| - 2];
    assert NatToString(n2) == r[|p|..|r| - 2];
    NatToStringInjective(n1, n2);
  }

  /** The table shows the row `| s | n |` exactly when the counter of `s`
      is present and equal to a positive `n`. */
  lemma {:induction false} SeverityRowsShown(m: map<Severity, nat>, k: nat)
    requires k <= |SeverityOrder|
    ensures forall s, n ::
      (SeverityRow(s, n) in PushSeverityRows([], m, k) <==> Rank(s) < k && s in m && m[s] == n && n > 0)
  {
    if k > 0 {
      SeverityRowsShown(m, k - 1);
      var t := SeverityOrder[k - 1];
      assert Rank(t) == k - 1 by {
        RankInjective(SeverityOrder[Rank(t)], t);
      }
      forall s, n
        ensures SeverityRow(s, n) in PushSeverityRows([], m, k) <==> Rank(s) < k && s in m && m[s] == n && n > 0
      {
        if t in m && m[t] > 0 && SeverityRow(s, n) == SeverityRow(t, m[t]) {
          SeverityRowInjective(s, n, t, m[t]);
        }
        if Rank(s) == k - 1 {
          assert s == t;
        }
      }
    }
  }

  /** The cross-validated section lists as many findings as the summary
      counts under both engines. */
  lemma {:induction false} CrossOfCount(fs: seq<UnifiedFinding>)
    ensures |CrossOf(fs)| == Count(fs, KindOf, Both)
  {
    if fs != [] {
      CrossOfCount(fs[..|fs| - 1]);
    }
  }

  /** Each severity group holds as many findings as the summary counts at that severity. */
  lemma {:induction false} GroupOfCount(fs: seq<UnifiedFinding>, sev: Severity)
    ensures |GroupOf(fs, sev)| == Count(fs, SeverityOf, sev)
  {
    if fs != [] {
      GroupOfCount(fs[..|fs| - 1], sev);
    }
  }

  /** The six severity groups together hold every finding exactly once. */
  lemma GroupsPartition(fs: seq<UnifiedFinding>)
    ensures multiset(GroupOf(fs, Critical)) + multiset(GroupOf(fs, High)) + multiset(GroupOf(fs, Medium))
      + multiset(GroupOf(fs, Low)) + multiset(GroupOf(fs, Informational)) + multiset(GroupOf(fs, Gas))
      == multiset(fs)
  {
    var all := multiset(GroupOf(fs, Critical)) + multiset(GroupOf(fs, High)) + multiset(GroupOf(fs, Medium))
      + multiset(GroupOf(fs, Low)) + multiset(GroupOf(fs, Informational)) + multiset(GroupOf(fs, Gas));
    forall x
      ensures all[x] == multiset(fs)[x]
    {
      GroupMultiplicity(fs, Critical, x);
      GroupMultiplicity(fs, High, x);
      GroupMultiplicity(fs, Medium, x);
      GroupMultiplicity(fs, Low, x);
      GroupMultiplicity(fs, Informational, x);
      GroupMultiplicity(fs, Gas, x);
    }
    assert all == multiset(fs);
  }

  /** A group holds every finding of its severity as often as the list does, and no other. */
  lemma {:induction false} GroupMultiplicity(fs: seq<UnifiedFinding>, sev: Severity, x: UnifiedFinding)
    ensures multiset(GroupOf(fs, sev))[x] == if x.severity == sev then multiset(fs)[x] else 0
  {
    if fs != [] {
      var pre := fs[..|fs| - 1];
      GroupMultiplicity(pre, sev, x);
      assert fs == pre + [fs[|fs| - 1]];
    }
  }

  /** The cross-validated section appears exactly when some finding has both
      sources, with its three heading lines and one block per such finding. */
  lemma CrossSectionSize(acc: seq<string>, fs: seq<UnifiedFinding>)
    ensures PushCross(acc, fs) == acc <==> Count(fs, KindOf, Both) == 0
    ensures Count(fs, KindOf, Both) > 0 ==> |PushCross(acc, fs)| == |acc| + 3 + Count(fs, KindOf, Both)
  {
    CrossOfCount(fs);
  }

  /** The report agrees with the summary it is given when that summary
      was computed from its findings: the cross-validated section lists as
      many findings as counted under both engines, each severity group holds
      the number in the severity table, the table has a row for a severity
      exactly when its group is not empty, and the high-confidence counter
      is present. */
  lemma SectionsAgreeWithSummary(fs: seq<UnifiedFinding>)
    ensures |CrossOf(fs)| == SummaryOf(fs).bySource.both
    ensures forall s :: s in SummaryOf(fs).bySeverity && |GroupOf(fs, s)| == SummaryOf(fs).bySeverity[s]
    ensures forall s, n ::
      (SeverityRow(s, n) in SeverityRows(SummaryOf(fs).bySeverity) <==> n == |GroupOf(fs, s)| > 0)
    ensures CounterText(SummaryOf(fs).byConfidence, HighConfidence) == NatToString(Count(fs, ConfidenceOf, HighConfidence))
  {
    var su := SummaryOf(fs);
    CrossOfCount(fs);
    forall s
      ensures s in su.bySeverity && |GroupOf(fs, s)| == su.bySeverity[s]
    {
      assert SeverityOrder[Rank(s)] == s;
      GroupOfCount(fs, s);
    }
    SeverityRowsShown(su.bySeverity, |SeverityOrder|);
    assert Confidences[0] == HighConfidence;
  }

  /** On a fusion result the cross-validated section lists exactly the
      merged pairs, and the summary is the one computed from the findings. */
  lemma FusionReportSections(slither: Option<ST.SlitherAnalysisResult>, ai: Option<string>)
    ensures var r := FusionOf(slither, ai);
      r.summary == SummaryOf(r.findings) && |CrossOf(r.findings)| == r.metadata.crossValidatedCount
  {
    var r := FusionOf(slither, ai);
    FusionSummaryCounts(slither, ai);
    SectionsAgreeWithSummary(r.findings);
  }

  /** A horizontal rule after an empty line is removed together with the
      line end before it, so the two neighbouring lines end up separated by
      one empty line instead of two. */
  lemma RuleTakesPrecedingLineEnd()
    ensures ReplaceRulesFrom("a\n\n---\nb", 0) == "a\n\nb"
  {
    var s := "a\n\n---\nb";
    RulesOfSample();
    assert ReplaceRulesFrom(s, 7) == "b";
    assert ReplaceRulesFrom(s, 6) == "\nb";
    assert ReplaceRulesFrom(s, 2) == "\nb";
    assert ReplaceRulesFrom(s, 1) == "\n\nb";
  }

  /** Where rules start in the example text: only after the empty line. */
  lemma RulesOfSample()
    ensures RuleEnd("a\n\n---\nb", 0).None?
    ensures RuleEnd("a\n\n---\nb", 2) == Some(6)
    ensures RuleEnd("a\n\n---\nb", 7).None?
  {
    var s := "a\n\n---\nb";
    assert s[0] == 'a' && s[2] == '\n' && s[3] == '-' && s[6] == '\n' && s[7] == 'b';
    assert SpaceEnd(s, 0) == 0;
    assert !OccursAt(s, "---", 0);
    assert SpaceEnd(s, 2) == 3 by {
      assert SpaceEnd(s, 3) == 3;
    }
    assert s[3..6] == "---";
    assert SpaceEnd(s, 6) == 7 by {
      assert SpaceEnd(s, 7) == 7;
    }
    assert LastTerminator(s, 6, 7) == Some(6);
  }
}
