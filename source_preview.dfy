/** The source preview's report handling: removing repeated markdown
    headers, the file-tree listing, the proxy test, the report title, and
    the replacement of an earlier report by the new one. */
module SourcePreview {
  import opened Wrappers
  import opened Strings
  import AiConfig

  // ---------------------------------------------------------------- removeDuplicateHeaders

  /** The end of the run of `#` from `i`. */
  function HashEnd(line: string, i: nat): (e: nat)
    requires i <= |line|
    ensures i <= e <= |line|
    ensures forall k :: i <= k < e ==> line[k] == '#'
    ensures e < |line| ==> line[e] != '#'
    decreases |line| - i
  {
    if i < |line| && line[i] == '#' then HashEnd(line, i + 1) else i
  }

  /** The first `n` characters of `line` are `#`. */
  predicate Hashes(line: string, n: nat)
    requires n <= |line|
  {
    forall k :: 0 <= k < n ==> line[k] == '#'
  }

  /** `/^#{1,6}\s+/`: where the header marker ends, when `line` starts with
      one to six `#` followed by white space. */
  function MarkerEnd(line: string): (e: Option<nat>)
    ensures e.Some? <==> exists n :: 1 <= n <= 6 && n < |line| && IsSpace(line[n]) && Hashes(line, n)
    ensures e.Some? ==> e.value <= |line| && line[0] == '#'
  {
    var h := HashEnd(line, 0);
    MarkerIsHashRun(line);
    if 1 <= h <= 6 && h < |line| && IsSpace(line[h]) then
      Some(SpaceEnd(line, h))
    else
      None
  }

  /** A run of `#` followed by white space is the run `HashEnd` measures. */
  lemma MarkerIsHashRun(line: string)
    ensures forall n :: 1 <= n <= 6 && n < |line| && IsSpace(line[n]) && Hashes(line, n) ==> HashEnd(line, 0) == n
  {
    forall n | 1 <= n <= 6 && n < |line| && IsSpace(line[n]) && Hashes(line, n)
      ensures HashEnd(line, 0) == n
    {
      HashRunAtLeast(line, n);
    }
  }

  lemma HashRunAtLeast(line: string, n: nat)
    requires n < |line| && line[n] != '#'
    requires forall k :: 0 <= k < n ==> line[k] == '#'
    ensures HashEnd(line, 0) == n
  {
    HashRunFrom(line, 0, n);
  }

  lemma {:induction false} HashRunFrom(line: string, i: nat, n: nat)
    requires i <= n < |line| && line[n] != '#'
    requires forall k :: i <= k < n ==> line[k] == '#'
    ensures HashEnd(line, i) == n
    decreases n - i
  {
    if i < n {
      HashRunFrom(line, i + 1, n);
    }
  }

  /** The text of a header line: what follows the marker, trimmed; `None`
      for a line that is not a header. */
  function HeaderText(line: string): (h: Option<string>)
    ensures h.Some? <==> MarkerEnd(line).Some?
    ensures h.Some? ==> h.value == Trim(line[MarkerEnd(line).value..])
  {
    var e := MarkerEnd(line);
    if e.None? then None else Some(Trim(line[e.value..]))
  }

  /** How a line is read: its header text, `None` when it is no header. */
  type HeaderOf = string -> Option<string>

  /** The loop over the lines: the lines kept and the header texts seen. */
  function Dedup(lines: seq<string>, header: HeaderOf): (r: (seq<string>, set<string>))
    ensures |r.0| <= |lines|
    ensures |lines| > 0 ==> |r.0| > 0
    ensures forall i :: 0 <= i < |r.0| ==> r.0[i] in lines
    ensures forall i :: 0 <= i < |r.0| && header(r.0[i]).Some? ==> header(r.0[i]).value in r.1
  {
    if lines == [] then ([], {})
    else
      var init := lines[..|lines| - 1];
      var line := lines[|lines| - 1];
      var (out, seen) := Dedup(init, header);
      assert forall x :: x in init ==> x in lines;
      var h := header(line);
      if h.None? then (out + [line], seen)
      else if h.value in seen then (out, seen)
      else (out + [line], seen + {h.value})
  }

  /** The lines kept. */
  function DedupLines(lines: seq<string>, header: HeaderOf): (r: seq<string>)
    ensures |r| <= |lines|
  {
    Dedup(lines, header).0
  }

  /** `removeDuplicateHeaders` on the whole text. */
  function Deduplicated(content: string): string {
    Join(DedupLines(Split(content, '\n'), HeaderText), "\n")
  }

  /** `removeDuplicateHeaders`: the loop with its set of seen header texts. */
  method RemoveDuplicateHeaders(content: string) returns (r: string)
    ensures r == Deduplicated(content)
  {
    var lines := Split(content, '\n');
    var seen: set<string> := {};
    var result: seq<string> := [];
    var i := 0;
    while i < |lines|
      invariant i <= |lines|
      invariant (result, seen) == Dedup(lines[..i], HeaderText)
    {
      var line := lines[i];
      DedupStep(lines, i, HeaderText);
      var header := HeaderText(line);
      if header.Some? {
        if header.value !in seen {
          seen := seen + {header.value};
          result := result + [line];
        }
      } else {
        result := result + [line];
      }
      i := i + 1;
    }
    assert lines[..i] == lines;
    return Join(result, "\n");
  }

  /** One more line read by the loop. */
  lemma DedupStep(lines: seq<string>, i: nat, header: HeaderOf)
    requires i < |lines|
    ensures header(lines[i]).None? ==>
      Dedup(lines[..i + 1], header) == (Dedup(lines[..i], header).0 + [lines[i]], Dedup(lines[..i], header).1)
    ensures header(lines[i]).Some? && header(lines[i]).value in Dedup(lines[..i], header).1 ==>
      Dedup(lines[..i + 1], header) == Dedup(lines[..i], header)
    ensures header(lines[i]).Some? && header(lines[i]).value !in Dedup(lines[..i], header).1 ==>
      Dedup(lines[..i + 1], header)
        == (Dedup(lines[..i], header).0 + [lines[i]], Dedup(lines[..i], header).1 + {header(lines[i]).value})
  {
    assert lines[..i + 1][..i] == lines[..i];
  }

  /** Line `i` is not a header, or is the first with its header text. */
  predicate FirstOfItsHeader(lines: seq<string>, i: nat, header: HeaderOf)
    requires i < |lines|
  {
    header(lines[i]).None? || forall j :: 0 <= j < i ==> header(lines[j]) != header(lines[i])
  }

  /** The reference definition: the lines that come first with their header text. */
  function FirstOccurrences(lines: seq<string>, header: HeaderOf): seq<string> {
    if lines == [] then []
    else FirstOccurrences(lines[..|lines| - 1], header)
         + (if FirstOfItsHeader(lines, |lines| - 1, header) then [lines[|lines| - 1]] else [])
  }

  /** The header texts of the lines. */
  function HeaderTexts(lines: seq<string>, header: HeaderOf): set<string> {
    set i | 0 <= i < |lines| && header(lines[i]).Some? :: header(lines[i]).value
  }

  /** The loop ends having seen every header text of the input. */
  lemma {:induction false} DedupSeesAll(lines: seq<string>, header: HeaderOf)
    ensures Dedup(lines, header).1 == HeaderTexts(lines, header)
  {
    if lines != [] {
      var init := lines[..|lines| - 1];
      DedupSeesAll(init, header);
      HeaderTextsSnoc(lines, header);
      var h := header(lines[|lines| - 1]);
      var seen := Dedup(init, header).1;
      if h.Some? && h.value in seen {
        assert seen + {h.value} == seen;
      } else if h.None? {
        assert seen + {} == seen;
      }
    }
  }

  /** A header text was seen before the last line exactly when the last
      line is not the first with it. */
  lemma SeenBefore(lines: seq<string>, header: HeaderOf)
    requires lines != [] && header(lines[|lines| - 1]).Some?
    ensures header(lines[|lines| - 1]).value in HeaderTexts(lines[..|lines| - 1], header)
            <==> !FirstOfItsHeader(lines, |lines| - 1, header)
  {
    var n := |lines|;
    var init := lines[..n - 1];
    var h := header(lines[n - 1]);
    if h.value in HeaderTexts(init, header) {
      var j :| 0 <= j < n - 1 && header(init[j]).Some? && header(init[j]).value == h.value;
      assert header(lines[j]) == h;
    }
    if !FirstOfItsHeader(lines, n - 1, header) {
      var j :| 0 <= j < n - 1 && header(lines[j]) == h;
      assert init[j] == lines[j];
    }
  }

  /** The loop keeps exactly the lines that come first with their header
      text, whatever their number of `#`. */
  lemma {:induction false} DedupIsFirstOccurrences(lines: seq<string>, header: HeaderOf)
    ensures DedupLines(lines, header) == FirstOccurrences(lines, header)
  {
    if lines != [] {
      var init := lines[..|lines| - 1];
      DedupIsFirstOccurrences(init, header);
      DedupSeesAll(init, header);
      if header(lines[|lines| - 1]).Some? {
        SeenBefore(lines, header);
      }
    }
  }

  lemma HeaderTextsSnoc(lines: seq<string>, header: HeaderOf)
    requires lines != []
    ensures var h := header(lines[|lines| - 1]);
      HeaderTexts(lines, header) == HeaderTexts(lines[..|lines| - 1], header) + (if h.Some? then {h.value} else {})
  {
    var n := |lines|;
    var init := lines[..n - 1];
    var h := header(lines[n - 1]);
    assert forall j :: 0 <= j < n - 1 ==> init[j] == lines[j];
    forall x | x in HeaderTexts(lines, header)
      ensures x in HeaderTexts(init, header) + (if h.Some? then {h.value} else {})
    {
      var j :| 0 <= j < n && header(lines[j]).Some? && header(lines[j]).value == x;
      if j < n - 1 {
        assert header(init[j]).Some? && header(init[j]).value == x;
      }
    }
  }

  /** The lines that are not headers. */
  function NonHeaders(lines: seq<string>, header: HeaderOf): seq<string> {
    if lines == [] then []
    else NonHeaders(lines[..|lines| - 1], header) + (if header(lines[|lines| - 1]).None? then [lines[|lines| - 1]] else [])
  }

  /** Every line that is not a header is kept, in its order. */
  lemma {:induction false} NonHeadersKept(lines: seq<string>, header: HeaderOf)
    ensures NonHeaders(DedupLines(lines, header), header) == NonHeaders(lines, header)
  {
    if lines != [] {
      var init := lines[..|lines| - 1];
      var line := lines[|lines| - 1];
      NonHeadersKept(init, header);
      var out := DedupLines(init, header);
      assert (out + [line])[..|out|] == out;
    }
  }

  /** No two lines have the same header text. */
  predicate DistinctHeaders(lines: seq<string>, header: HeaderOf) {
    forall i, j :: 0 <= i < j < |lines| && header(lines[i]).Some? ==> header(lines[i]) != header(lines[j])
  }

  /** What is kept has distinct header texts. */
  lemma {:induction false} DedupDistinct(lines: seq<string>, header: HeaderOf)
    ensures DistinctHeaders(DedupLines(lines, header), header)
  {
    if lines != [] {
      var init := lines[..|lines| - 1];
      DedupDistinct(init, header);
      var out := DedupLines(init, header);
      var line := lines[|lines| - 1];
      if header(line).Some? && header(line).value !in Dedup(init, header).1 {
        assert forall i :: 0 <= i < |out| && header(out[i]).Some? ==> header(out[i]) != header(line);
        assert (out + [line])[..|out|] == out;
      }
    }
  }

  /** Lines with distinct header texts are kept as they are. */
  lemma {:induction false} DistinctKept(lines: seq<string>, header: HeaderOf)
    requires DistinctHeaders(lines, header)
    ensures DedupLines(lines, header) == lines
  {
    if lines != [] {
      var n := |lines|;
      var init := lines[..n - 1];
      DistinctInit(lines, header);
      DistinctKept(init, header);
      DedupSeesAll(init, header);
      var h := header(lines[n - 1]);
      if h.Some? {
        SeenBefore(lines, header);
      }
      assert init + [lines[n - 1]] == lines;
    }
  }

  lemma DistinctInit(lines: seq<string>, header: HeaderOf)
    requires lines != [] && DistinctHeaders(lines, header)
    ensures DistinctHeaders(lines[..|lines| - 1], header)
  {
    var init := lines[..|lines| - 1];
    assert forall j :: 0 <= j < |init| ==> init[j] == lines[j];
  }

  /** Removing repeated headers twice is removing them once. */
  lemma DedupLinesIdempotent(lines: seq<string>, header: HeaderOf)
    ensures DedupLines(DedupLines(lines, header), header) == DedupLines(lines, header)
  {
    DedupDistinct(lines, header);
    DistinctKept(DedupLines(lines, header), header);
  }

  /** The same on the text: the kept lines are lines of the input, so
      joining and splitting them again gives them back. */
  lemma DeduplicatedIdempotent(content: string)
    ensures Deduplicated(Deduplicated(content)) == Deduplicated(content)
  {
    var lines := Split(content, '\n');
    var out := DedupLines(lines, HeaderText);
    assert forall i :: 0 <= i < |out| ==> '\n' !in out[i];
    SplitJoin(out, '\n');
    DedupLinesIdempotent(lines, HeaderText);
  }

  /** The first line is always kept. */
  lemma FirstLineKept(lines: seq<string>, header: HeaderOf)
    requires |lines| > 0
    ensures DedupLines(lines, header)[0] == lines[0]
  {
    DedupIsFirstOccurrences(lines, header);
    FirstOccurrencesStart(lines, header);
  }

  lemma {:induction false} FirstOccurrencesStart(lines: seq<string>, header: HeaderOf)
    requires |lines| > 0
    ensures |FirstOccurrences(lines, header)| > 0 && FirstOccurrences(lines, header)[0] == lines[0]
  {
    if |lines| > 1 {
      var init := lines[..|lines| - 1];
      FirstOccurrencesStart(init, header);
    } else {
      assert FirstOfItsHeader(lines, 0, header);
    }
  }

  // ---------------------------------------------------------------- report title

  const TITLE := "# Smart Contract Security Analysis Report"

  /** The characters after which `^` matches in a multi-line pattern. */
  predicate LineTerminator(c: char) {
    c == '\n' || c == '\r' || c == '\U{2028}' || c == '\U{2029}'
  }

  /** `/^#\s+/m` matches at `p`. */
  predicate TitleAt(s: string, p: int) {
    0 <= p && p + 1 < |s| && (p == 0 || LineTerminator(s[p - 1])) && s[p] == '#' && IsSpace(s[p + 1])
  }

  predicate HasTitle(s: string) {
    exists p | 0 <= p < |s| :: TitleAt(s, p)
  }

  /** The report with a title line in front when it has none. */
  function WithTitle(s: string): (r: string)
    ensures HasTitle(r)
    ensures HasTitle(s) ==> r == s
    ensures !HasTitle(s) ==> r == TITLE + "\n\n" + s
  {
    if HasTitle(s) then s
    else
      var r := TITLE + "\n\n" + s;
      assert r[0] == '#' && r[1] == ' ';
      assert TitleAt(r, 0);
      r
  }

  /** A text put in front of the report, on a line of its own, stays its
      first line through the removal of repeated headers. */
  lemma FirstLineStays(head: string, s: string)
    requires '\n' !in head
    ensures Split(Deduplicated(head + "\n\n" + s), '\n')[0] == head
  {
    var rest := "\n" + s;
    assert head + "\n\n" + s == head + ['\n'] + rest;
    SplitCons(head, rest, '\n');
    var lines := Split(head + "\n\n" + s, '\n');
    FirstLineKept(lines, HeaderText);
    var out := DedupLines(lines, HeaderText);
    assert forall i :: 0 <= i < |out| ==> '\n' !in out[i];
    SplitJoin(out, '\n');
  }

  /** A report without a title ends up with the title as its first line. */
  lemma TitleFirst(s: string)
    requires !HasTitle(s)
    ensures Split(Deduplicated(WithTitle(s)), '\n')[0] == TITLE
  {
    assert '\n' !in TITLE;
    FirstLineStays(TITLE, s);
  }

  // ---------------------------------------------------------------- proxy test and report file

  datatype ContractFile = ContractFile(name: string, path: string, content: string)

  /** `files.some(f => f.path.startsWith(prefix))`. */
  function AnyStartsWith(files: seq<ContractFile>, prefix: string): (b: bool)
    ensures b <==> exists i :: 0 <= i < |files| && StartsWith(files[i].path, prefix)
  {
    if files == [] then false
    else if StartsWith(files[0].path, prefix) then true
    else
      var b := AnyStartsWith(files[1..], prefix);
      assert b ==> exists i :: 1 <= i < |files| && StartsWith(files[i].path, prefix) by {
        if b {
          var i :| 0 <= i < |files[1..]| && StartsWith(files[1..][i].path, prefix);
          assert files[i + 1] == files[1..][i];
        }
      }
      b
  }

  /** The sources are a proxy's when some path is under `proxy/` and some
      under `implementation/`. */
  function IsProxy(files: seq<ContractFile>): (b: bool)
    ensures b <==> (exists i :: 0 <= i < |files| && StartsWith(files[i].path, "proxy/"))
                   && (exists i :: 0 <= i < |files| && StartsWith(files[i].path, "implementation/"))
  {
    AnyStartsWith(files, "proxy/") && AnyStartsWith(files, "implementation/")
  }

  /** The name the report is filed under: for a proxy, the token name, else
      the implementation's name, else the contract name (an empty name counts
      as absent). */
  function ReportContractName(files: seq<ContractFile>, tokenName: Option<string>,
                              implementationName: Option<string>, contractName: string): (r: string)
    ensures !IsProxy(files) ==> r == contractName
    ensures IsProxy(files) && tokenName.Some? && tokenName.value != "" ==> r == tokenName.value
    ensures IsProxy(files) && (tokenName.None? || tokenName.value == "") && implementationName.Some? && implementationName.value != "" ==>
      r == implementationName.value
    ensures r == contractName || Some(r) == tokenName || Some(r) == implementationName
  {
    if !IsProxy(files) then contractName
    else if tokenName.Some? && tokenName.value != "" then tokenName.value
    else if implementationName.Some? && implementationName.value != "" then implementationName.value
    else contractName
  }

  /** `report-<name>-<model>[-<language>][-SuperPrompt][-dual].md`; the
      language is left out when it is English. */
  function ReportFileName(contractName: string, config: AiConfig.AIConfig, dual: bool): (r: string)
    ensures StartsWith(r, "report-") && EndsWith(r, ".md")
  {
    var language := if config.language == "english" then "" else "-" + config.language;
    var super := if config.superPrompt then "-SuperPrompt" else "";
    var engine := if dual then "-dual" else "";
    var middle := ToLower(contractName) + "-" + AiConfig.GetModelName(config) + language + super + engine;
    Framed("report-", middle, ".md");
    "report-" + middle + ".md"
  }

  lemma Framed(a: string, m: string, b: string)
    ensures StartsWith(a + m + b, a) && EndsWith(a + m + b, b)
  {
    assert (a + m + b)[..|a|] == a;
    assert (a + m + b)[|a + m + b| - |b|..] == b;
  }

  /** The files whose path is not `path`, in their order. */
  function WithoutPath(files: seq<ContractFile>, path: string): (r: seq<ContractFile>)
    ensures |r| <= |files|
    ensures forall f :: f in r <==> f in files && f.path != path
  {
    if files == [] then []
    else
      var init := WithoutPath(files[..|files| - 1], path);
      var last := files[|files| - 1];
      assert files == files[..|files| - 1] + [last];
      init + (if last.path != path then [last] else [])
  }

  /** Where each file of `WithoutPath(files, path)` stands in `files`. */
  function Positions(files: seq<ContractFile>, path: string): seq<nat> {
    if files == [] then []
    else
      var pick0 := Positions(files[..|files| - 1], path);
      if files[|files| - 1].path != path then pick0 + [|files| - 1] else pick0
  }

  lemma {:induction false} PositionsBelow(files: seq<ContractFile>, path: string)
    ensures forall i :: 0 <= i < |Positions(files, path)| ==> Positions(files, path)[i] < |files|
    ensures forall i, j :: 0 <= i < j < |Positions(files, path)| ==> Positions(files, path)[i] < Positions(files, path)[j]
  {
    if files != [] {
      var init := files[..|files| - 1];
      PositionsBelow(init, path);
      var pick0 := Positions(init, path);
      assert Positions(files, path) == pick0 + (if files[|files| - 1].path != path then [|files| - 1] else []);
    }
  }

  lemma {:induction false} PositionsLength(files: seq<ContractFile>, path: string)
    ensures |Positions(files, path)| == |WithoutPath(files, path)|
  {
    if files != [] {
      var init := files[..|files| - 1];
      var last := files[|files| - 1];
      PositionsLength(init, path);
      assert WithoutPath(files, path) == WithoutPath(init, path) + (if last.path != path then [last] else []);
    }
  }

  /** The files kept stand at increasing positions of `files`: removing a
      path keeps the others in their order. */
  lemma {:induction false} PositionsSpec(files: seq<ContractFile>, path: string)
    ensures |Positions(files, path)| == |WithoutPath(files, path)|
    ensures forall i :: 0 <= i < |Positions(files, path)| ==>
      Positions(files, path)[i] < |files| && files[Positions(files, path)[i]] == WithoutPath(files, path)[i]
    ensures forall i, j :: 0 <= i < j < |Positions(files, path)| ==> Positions(files, path)[i] < Positions(files, path)[j]
  {
    PositionsBelow(files, path);
    PositionsLength(files, path);
    if files != [] {
      var init := files[..|files| - 1];
      var last := files[|files| - 1];
      PositionsSpec(init, path);
      var pick0, w0 := Positions(init, path), WithoutPath(init, path);
      var pick, w := Positions(files, path), WithoutPath(files, path);
      assert w == w0 + (if last.path != path then [last] else []);
      assert pick == pick0 + (if last.path != path then [|files| - 1] else []);
      forall i | 0 <= i < |pick|
        ensures files[pick[i]] == w[i]
      {
        if i < |pick0| {
          assert pick[i] == pick0[i] && w[i] == w0[i];
          assert files[pick0[i]] == init[pick0[i]];
        }
      }
    }
  }

  /** The new report replaces any file at its path and comes last. */
  function ReplaceReport(files: seq<ContractFile>, report: ContractFile): (r: seq<ContractFile>)
    ensures |r| >= 1 && r[|r| - 1] == report
    ensures r[..|r| - 1] == WithoutPath(files, report.path)
    ensures forall i :: 0 <= i < |r| ==> (r[i].path == report.path <==> i == |r| - 1)
  {
    var r := WithoutPath(files, report.path) + [report];
    assert forall i :: 0 <= i < |r| - 1 ==> r[i] in WithoutPath(files, report.path);
    r
  }

  /** Filing the same report again changes nothing. */
  lemma ReplaceReportTwice(files: seq<ContractFile>, report: ContractFile)
    ensures ReplaceReport(ReplaceReport(files, report), report) == ReplaceReport(files, report)
  {
    var once := ReplaceReport(files, report);
    var kept := WithoutPath(files, report.path);
    WithoutPathNone(kept, report.path);
    assert once == kept + [report];
    assert once[..|once| - 1] == kept;
    assert WithoutPath(once, report.path) == WithoutPath(kept, report.path);
  }

  lemma {:induction false} WithoutPathNone(files: seq<ContractFile>, path: string)
    requires forall i :: 0 <= i < |files| ==> files[i].path != path
    ensures WithoutPath(files, path) == files
  {
    if files != [] {
      var init := files[..|files| - 1];
      WithoutPathNone(init, path);
      assert WithoutPath(files, path) == init + [files[|files| - 1]];
    }
  }

  /** The end of a successful analysis: the report text gets a title when
      it has none and loses its repeated headers, is filed under its name in
      place of any earlier report with that name, and is selected. */
  function FinishAnalysis(files: seq<ContractFile>, analysis: string, reportContractName: string,
                          config: AiConfig.AIConfig, slitherAvailable: bool): (r: (seq<ContractFile>, ContractFile))
    ensures r.1.content == Deduplicated(WithTitle(analysis))
    ensures r.1.path == r.1.name == ReportFileName(reportContractName, config, slitherAvailable)
    ensures r.0 == ReplaceReport(files, r.1)
  {
    var name := ReportFileName(reportContractName, config, slitherAvailable);
    var report := ContractFile(name, name, Deduplicated(WithTitle(analysis)));
    (ReplaceReport(files, report), report)
  }

  // ---------------------------------------------------------------- formatFileTree

  /** The nested object the paths are collected in: its entries in
      insertion order, a file's value being `null` (`None`). */
  datatype Tree = Tree(entries: seq<Entry>)
  datatype Entry = Entry(key: string, sub: Option<Tree>)

  /** The position of `key` among the entries. */
  function Find(es: seq<Entry>, key: string): (r: Option<nat>)
    ensures r.None? <==> forall i :: 0 <= i < |es| ==> es[i].key != key
    ensures r.Some? ==> r.value < |es| && es[r.value].key == key
  {
    if es == [] then None
    else if es[0].key == key then Some(0)
    else
      var r := Find(es[1..], key);
      if r.Some? then Some(r.value + 1)
      else
        assert forall i :: 1 <= i < |es| ==> es[i].key == es[1..][i - 1].key;
        None
  }

  /** `node[key] = value`: an existing key keeps its place, a new one goes last. */
  function Put(t: Tree, key: string, value: Option<Tree>): (r: Tree)
    ensures Find(r.entries, key).Some? && r.entries[Find(r.entries, key).value] == Entry(key, value)
    ensures forall k :: k != key ==> Find(r.entries, k) == Find(t.entries, k)
    ensures forall i :: 0 <= i < |t.entries| && t.entries[i].key != key ==> i < |r.entries| && r.entries[i] == t.entries[i]
  {
    var i := Find(t.entries, key);
    if i.Some? then
      var es := t.entries[i.value := Entry(key, value)];
      FindUpdate(t.entries, i.value, Entry(key, value));
      Tree(es)
    else
      FindAppend(t.entries, Entry(key, value));
      Tree(t.entries + [Entry(key, value)])
  }

  lemma FindUpdate(es: seq<Entry>, i: nat, e: Entry)
    requires i < |es| && es[i].key == e.key
    ensures forall k :: Find(es[i := e], k) == Find(es, k)
  {
    forall k
      ensures Find(es[i := e], k) == Find(es, k)
    {
      FindSameKeys(es, es[i := e], k);
    }
  }

  lemma {:induction false} FindSameKeys(a: seq<Entry>, b: seq<Entry>, k: string)
    requires |a| == |b| && forall j :: 0 <= j < |a| ==> a[j].key == b[j].key
    ensures Find(a, k) == Find(b, k)
  {
    if a != [] && a[0].key != k {
      FindSameKeys(a[1..], b[1..], k);
    }
  }

  lemma {:induction false} FindAppend(es: seq<Entry>, e: Entry)
    requires Find(es, e.key).None?
    ensures Find(es + [e], e.key) == Some(|es|)
    ensures forall k :: k != e.key ==> Find(es + [e], k) == Find(es, k)
  {
    if es != [] {
      var rest := es[1..];
      assert (es + [e])[0] == es[0];
      assert (es + [e])[1..] == rest + [e];
      assert Find(rest, e.key).None? by {
        assert forall i :: 0 <= i < |rest| ==> rest[i].key == es[i + 1].key;
      }
      FindAppend(rest, e);
    }
  }

  /** The inner `forEach`: walk down `parts`, creating directories where
      needed (a file in the way becomes a directory), and set the last part
      to a file. */
  function Insert(t: Tree, parts: seq<string>): Tree
    requires |parts| >= 1
    decreases |parts|
  {
    if |parts| == 1 then Put(t, parts[0], None)
    else
      var i := Find(t.entries, parts[0]);
      var child := if i.Some? && t.entries[i.value].sub.Some? then t.entries[i.value].sub.value else Tree([]);
      Put(t, parts[0], Some(Insert(child, parts[1..])))
  }

  /** `t` holds a file at `parts`. */
  predicate Has(t: Tree, parts: seq<string>)
    decreases |parts|
  {
    |parts| >= 1 &&
    var i := Find(t.entries, parts[0]);
    i.Some? &&
    var sub := t.entries[i.value].sub;
    if |parts| == 1 then sub.None? else sub.Some? && Has(sub.value, parts[1..])
  }

  /** One of the two paths continues the other. */
  predicate ProperPrefix(p: seq<string>, q: seq<string>) {
    |p| < |q| && q[..|p|] == p
  }

  /** The inserted path is there afterwards. */
  lemma {:induction false} InsertHas(t: Tree, parts: seq<string>)
    requires |parts| >= 1
    ensures Has(Insert(t, parts), parts)
    decreases |parts|
  {
    if |parts| > 1 {
      var i := Find(t.entries, parts[0]);
      var child := if i.Some? && t.entries[i.value].sub.Some? then t.entries[i.value].sub.value else Tree([]);
      InsertHas(child, parts[1..]);
    }
  }

  /** Inserting a path keeps every file already there, unless one of the two
      paths continues the other. */
  lemma {:induction false} InsertKeeps(t: Tree, parts: seq<string>, q: seq<string>)
    requires |parts| >= 1 && Has(t, q)
    requires !ProperPrefix(parts, q) && !ProperPrefix(q, parts)
    ensures Has(Insert(t, parts), q)
    decreases |parts|
  {
    if q[0] != parts[0] {
      OtherKeyKept(t, parts, q);
    } else {
      SameHead(parts, q);
      if |parts| > 1 {
        var i := Find(t.entries, parts[0]);
        var child := t.entries[i.value].sub.value;
        InsertKeeps(child, parts[1..], q[1..]);
      }
    }
  }

  /** Two paths with the same first part that do not continue each other
      are both files there or both go on below it. */
  lemma SameHead(p: seq<string>, q: seq<string>)
    requires |p| >= 1 && |q| >= 1 && p[0] == q[0]
    requires !ProperPrefix(p, q) && !ProperPrefix(q, p)
    ensures |p| == 1 <==> |q| == 1
    ensures |p| > 1 ==> !ProperPrefix(p[1..], q[1..]) && !ProperPrefix(q[1..], p[1..])
  {
  }

  /** Inserting under another first part leaves a path alone. */
  lemma OtherKeyKept(t: Tree, parts: seq<string>, q: seq<string>)
    requires |parts| >= 1 && Has(t, q) && q[0] != parts[0]
    ensures Has(Insert(t, parts), q)
  {
    var r := Insert(t, parts);
    assert Find(r.entries, q[0]) == Find(t.entries, q[0]);
    var i := Find(t.entries, q[0]).value;
    assert t.entries[i].key != parts[0];
    assert r.entries[i] == t.entries[i];
  }

  /** The outer `forEach`: the tree of all the paths. */
  function BuildTree(paths: seq<string>): Tree {
    if paths == [] then Tree([])
    else Insert(BuildTree(paths[..|paths| - 1]), Split(paths[|paths| - 1], '/'))
  }

  /** The same, as the loop over the files. */
  method CollectPaths(paths: seq<string>) returns (tree: Tree)
    ensures tree == BuildTree(paths)
  {
    tree := Tree([]);
    var i := 0;
    while i < |paths|
      invariant i <= |paths|
      invariant tree == BuildTree(paths[..i])
    {
      assert paths[..i + 1][..i] == paths[..i];
      tree := Insert(tree, Split(paths[i], '/'));
      i := i + 1;
    }
    assert paths[..i] == paths;
  }

  /** No path continues another. */
  predicate PrefixFree(paths: seq<string>) {
    forall i, j :: 0 <= i < |paths| && 0 <= j < |paths| ==> !ProperPrefix(Split(paths[i], '/'), Split(paths[j], '/'))
  }

  /** When no path continues another, every path ends in a file of the tree. */
  lemma {:induction false} EveryPathListed(paths: seq<string>)
    requires PrefixFree(paths)
    ensures forall i :: 0 <= i < |paths| ==> Has(BuildTree(paths), Split(paths[i], '/'))
  {
    if paths != [] {
      var n := |paths|;
      var init := paths[..n - 1];
      assert PrefixFree(init) by {
        assert forall i :: 0 <= i < n - 1 ==> init[i] == paths[i];
      }
      EveryPathListed(init);
      var last := Split(paths[n - 1], '/');
      forall i | 0 <= i < n
        ensures Has(BuildTree(paths), Split(paths[i], '/'))
      {
        if i == n - 1 {
          InsertHas(BuildTree(init), last);
        } else {
          assert init[i] == paths[i];
          InsertKeeps(BuildTree(init), last, Split(paths[i], '/'));
        }
      }
    }
  }

  const TEE := "\U{251C}\U{2500}\U{2500} "
  const ELBOW := "\U{2514}\U{2500}\U{2500} "
  const BAR := "\U{2502}   "
  const BLANK := "    "

  /** `printTree` as written, from entry `i` on: every entry's connector
      and its children's indent follow the flag passed for its parent. */
  function PrintAsWritten(t: Tree, i: nat, prefix: string, isLast: bool): (lines: seq<string>)
    requires i <= |t.entries|
    ensures forall k :: 0 <= k < |lines| ==> StartsWith(lines[k], prefix)
    decreases t, |t.entries| - i
  {
    if i == |t.entries| then []
    else
      var e := t.entries[i];
      var isLastEntry := i == |t.entries| - 1;
      var line := prefix + (if isLast then ELBOW else TEE) + e.key;
      var below := if e.sub.Some? then PrintAsWritten(e.sub.value, 0, prefix + (if isLast then BLANK else BAR), isLastEntry) else [];
      assert forall k :: 0 <= k < |below| ==> StartsWith(below[k], prefix) by {
        forall k | 0 <= k < |below|
          ensures StartsWith(below[k], prefix)
        {
          var p2 := prefix + (if isLast then BLANK else BAR);
          assert StartsWith(below[k], p2);
          assert below[k][..|prefix|] == p2[..|prefix|];
        }
      }
      [line] + below + PrintAsWritten(t, i + 1, prefix, isLast)
  }

  /** `printTree` as intended: an entry's connector and its children's
      indent follow whether the entry itself is the last of its node. */
  function Print(t: Tree, i: nat, prefix: string): (lines: seq<string>)
    requires i <= |t.entries|
    ensures forall k :: 0 <= k < |lines| ==> StartsWith(lines[k], prefix)
    decreases t, |t.entries| - i
  {
    if i == |t.entries| then []
    else
      var e := t.entries[i];
      var isLastEntry := i == |t.entries| - 1;
      var line := prefix + (if isLastEntry then ELBOW else TEE) + e.key;
      var below := if e.sub.Some? then Print(e.sub.value, 0, prefix + (if isLastEntry then BLANK else BAR)) else [];
      assert forall k :: 0 <= k < |below| ==> StartsWith(below[k], prefix) by {
        forall k | 0 <= k < |below|
          ensures StartsWith(below[k], prefix)
        {
          var p2 := prefix + (if isLastEntry then BLANK else BAR);
          assert StartsWith(below[k], p2);
          assert below[k][..|prefix|] == p2[..|prefix|];
        }
      }
      [line] + below + Print(t, i + 1, prefix)
  }

  /** The number of entries in the tree, at every depth. */
  function Size(t: Tree, i: nat): nat
    requires i <= |t.entries|
    decreases t, |t.entries| - i
  {
    if i == |t.entries| then 0
    else (if t.entries[i].sub.Some? then 1 + Size(t.entries[i].sub.value, 0) else 1) + Size(t, i + 1)
  }

  /** One line per entry, at every depth. */
  lemma {:induction false} OneLinePerEntry(t: Tree, i: nat, prefix: string)
    requires i <= |t.entries|
    ensures |Print(t, i, prefix)| == Size(t, i)
    decreases t, |t.entries| - i
  {
    if i < |t.entries| {
      var e := t.entries[i];
      var isLastEntry := i == |t.entries| - 1;
      if e.sub.Some? {
        OneLinePerEntry(e.sub.value, 0, prefix + (if isLastEntry then BLANK else BAR));
      }
      OneLinePerEntry(t, i + 1, prefix);
    }
  }

  /** The as-written printer also prints one line per entry. */
  lemma {:induction false} OneLinePerEntryAsWritten(t: Tree, i: nat, prefix: string, isLast: bool)
    requires i <= |t.entries|
    ensures |PrintAsWritten(t, i, prefix, isLast)| == Size(t, i)
    decreases t, |t.entries| - i
  {
    if i < |t.entries| {
      var e := t.entries[i];
      if e.sub.Some? {
        OneLinePerEntryAsWritten(e.sub.value, 0, prefix + (if isLast then BLANK else BAR), i == |t.entries| - 1);
      }
      OneLinePerEntryAsWritten(t, i + 1, prefix, isLast);
    }
  }

  /** How many of the lines start with `p`. */
  function CountStarting(lines: seq<string>, p: string): nat {
    if lines == [] then 0
    else (if StartsWith(lines[0], p) then 1 else 0) + CountStarting(lines[1..], p)
  }

  lemma {:induction false} CountStartingAppend(a: seq<string>, b: seq<string>, p: string)
    ensures CountStarting(a + b, p) == CountStarting(a, p) + CountStarting(b, p)
  {
    if a != [] {
      assert (a + b)[0] == a[0];
      assert (a + b)[1..] == a[1..] + b;
      CountStartingAppend(a[1..], b, p);
    } else {
      assert a + b == b;
    }
  }

  lemma {:induction false} CountStartingNone(lines: seq<string>, p: string)
    requires forall k :: 0 <= k < |lines| ==> !StartsWith(lines[k], p)
    ensures CountStarting(lines, p) == 0
  {
    if lines != [] {
      CountStartingNone(lines[1..], p);
    }
  }

  /** Among the lines printed for a non-empty node, exactly one carries the
      closing connector at that depth: the last entry's. */
  lemma {:induction false} OneClosingLine(t: Tree, i: nat, prefix: string)
    requires i <= |t.entries|
    ensures CountStarting(Print(t, i, prefix), prefix + ELBOW) == if i < |t.entries| then 1 else 0
    decreases |t.entries| - i
  {
    if i < |t.entries| {
      var e := t.entries[i];
      var isLastEntry := i == |t.entries| - 1;
      var p2 := prefix + (if isLastEntry then BLANK else BAR);
      var line := prefix + (if isLastEntry then ELBOW else TEE) + e.key;
      var below := if e.sub.Some? then Print(e.sub.value, 0, p2) else [];
      assert forall k :: 0 <= k < |below| ==> !StartsWith(below[k], prefix + ELBOW) by {
        forall k | 0 <= k < |below|
          ensures !StartsWith(below[k], prefix + ELBOW)
        {
          assert StartsWith(below[k], p2);
          assert below[k][|prefix|] == p2[|prefix|];
          assert (prefix + ELBOW)[|prefix|] == ELBOW[0];
        }
      }
      CountStartingNone(below, prefix + ELBOW);
      OneClosingLine(t, i + 1, prefix);
      CountStartingAppend([line] + below, Print(t, i + 1, prefix), prefix + ELBOW);
      CountStartingAppend([line], below, prefix + ELBOW);
      assert StartsWith(line, prefix + ELBOW) <==> isLastEntry by {
        assert line[..|prefix + ELBOW|][|prefix|] == line[|prefix|];
      }
      if !isLastEntry {
        assert Print(t, i + 1, prefix) != [];
      }
    }
  }

  /** The text of the lines, each ended by a line break. */
  function Render(lines: seq<string>): (r: string)
    ensures r == "" <==> lines == []
    ensures lines != [] ==> StartsWith(r, lines[0] + "\n")
  {
    if lines == [] then "" else lines[0] + "\n" + Render(lines[1..])
  }

  /** Every entry printed at the top depth, as written, carries the closing
      connector: the top call passes `isLast` as true to all of them. */
  lemma {:induction false} EveryLineClosedAsWritten(t: Tree, i: nat, prefix: string)
    requires i <= |t.entries|
    ensures CountStarting(PrintAsWritten(t, i, prefix, true), prefix + ELBOW) == |t.entries| - i
    decreases |t.entries| - i
  {
    if i < |t.entries| {
      var e := t.entries[i];
      var p2 := prefix + BLANK;
      var line := prefix + ELBOW + e.key;
      var below := if e.sub.Some? then PrintAsWritten(e.sub.value, 0, p2, i == |t.entries| - 1) else [];
      assert forall k :: 0 <= k < |below| ==> !StartsWith(below[k], prefix + ELBOW) by {
        forall k | 0 <= k < |below|
          ensures !StartsWith(below[k], prefix + ELBOW)
        {
          assert StartsWith(below[k], p2);
          assert below[k][|prefix|] == p2[|prefix|];
          assert (prefix + ELBOW)[|prefix|] == ELBOW[0];
        }
      }
      CountStartingNone(below, prefix + ELBOW);
      EveryLineClosedAsWritten(t, i + 1, prefix);
      CountStartingAppend([line] + below, PrintAsWritten(t, i + 1, prefix, true), prefix + ELBOW);
      CountStartingAppend([line], below, prefix + ELBOW);
      assert StartsWith(line, prefix + ELBOW) by {
        assert line[..|prefix + ELBOW|] == prefix + ELBOW;
      }
    }
  }

  /** `formatFileTree` as written: the text is empty exactly when there are
      no paths to show, and it opens with the first entry behind `└──`. */
  function FormatFileTreeAsWritten(paths: seq<string>): (r: string)
    ensures r == "" <==> BuildTree(paths).entries == []
    ensures r != "" ==> StartsWith(r, ELBOW + BuildTree(paths).entries[0].key + "\n")
  {
    var t := BuildTree(paths);
    var lines := PrintAsWritten(t, 0, "", true);
    assert lines != [] ==> lines[0] == ELBOW + t.entries[0].key by {
      if lines != [] {
        assert lines[0] == "" + ELBOW + t.entries[0].key;
        assert "" + ELBOW == ELBOW;
      }
    }
    Render(lines)
  }

  /** `formatFileTree` with each entry's own position deciding its connector:
      the first entry opens with `├──` unless it is the only one. */
  function FormatFileTree(paths: seq<string>): (r: string)
    ensures r == "" <==> BuildTree(paths).entries == []
    ensures r != "" ==>
      StartsWith(r, (if |BuildTree(paths).entries| == 1 then ELBOW else TEE) + BuildTree(paths).entries[0].key + "\n")
  {
    var t := BuildTree(paths);
    var lines := Print(t, 0, "");
    assert lines != [] ==> lines[0] == (if |t.entries| == 1 then ELBOW else TEE) + t.entries[0].key by {
      if lines != [] {
        assert lines[0] == "" + (if |t.entries| == 1 then ELBOW else TEE) + t.entries[0].key;
        assert "" + ELBOW == ELBOW;
        assert "" + TEE == TEE;
      }
    }
    Render(lines)
  }

  /** Two files named without a slash make a node with two file entries. */
  lemma TwoFiles(a: string, b: string)
    requires '/' !in a && '/' !in b && a != b
    ensures BuildTree([a, b]) == Tree([Entry(a, None), Entry(b, None)])
  {
    SplitNone(a, '/');
    SplitNone(b, '/');
    assert [a, b][..1] == [a];
    assert BuildTree([a]) == Tree([Entry(a, None)]);
    assert Find([Entry(a, None)], b) == None;
  }

  /** Two files at the top level, as written, both get the closing
      connector; as intended only the second does. */
  lemma TwoFilesBothClosed(a: string, b: string)
    requires '/' !in a && '/' !in b && a != b
    ensures PrintAsWritten(BuildTree([a, b]), 0, "", true) == [ELBOW + a, ELBOW + b]
    ensures Print(BuildTree([a, b]), 0, "") == [TEE + a, ELBOW + b]
  {
    TwoFiles(a, b);
    var t := Tree([Entry(a, None), Entry(b, None)]);
    assert PrintAsWritten(t, 1, "", true) == [ELBOW + b] by {
      assert PrintAsWritten(t, 2, "", true) == [];
      assert "" + ELBOW + b == ELBOW + b;
    }
    assert "" + ELBOW + a == ELBOW + a;
    assert Print(t, 1, "") == [ELBOW + b] by {
      assert Print(t, 2, "") == [];
      assert "" + ELBOW + b == ELBOW + b;
    }
    assert "" + TEE + a == TEE + a;
  }
}
