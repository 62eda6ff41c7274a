# Dual-engine smart-contract audit: a Dafny model

The system audits Solidity contracts with two engines and reports on the
result. The first engine is **static**: Slither's detectors, run by a small
Python service. The second is **semantic**: a large-language-model review
that returns a markdown report.

At the centre is the **finding-fusion pipeline**. It works in four stages:

- The static adapter turns Slither's detector hits into unified finding
  records.
- The semantic adapter cuts the model's markdown report into `### `
  sections and turns each real finding into a unified record.
- The matcher pairs each static finding greedily and one-to-one with the
  best-scoring unused semantic finding, if that score is strictly above
  0.5. It merges each pair, sorts the combined list by severity (then
  cross-validated first) and counts by severity, source and confidence.
- The renderer writes the fused result as a markdown report.

Around the core, the model covers:

- the Slither type tables: impact → severity and detector → SWC registry
  identifier;
- the request preparation and markdown rendering of raw Slither results;
- the AI configuration: default models, validity of a model, the
  file-name form of a model name, restoring the saved configuration, and the
  configuration dialog;
- the reader of the server-sent event stream and the route that re-frames
  model output into that stream;
- the source preview: removal of duplicate markdown headers, the file tree,
  proxy detection, report naming and replacement;
- the API routes: contract information with its explorer V1→V2 retry,
  AI analysis, agent audit, and the Slither proxy;
- the Python Slither service: compiler-version detection and fallback
  choice, recovery of JSON from Slither's output, the main-file choice,
  detector defaults and summary counting.

## How the model is organised

Each source file is one Dafny module:

| Module | Source |
|---|---|
| `FusionModel`, `MatchScoring`, `StaticAdapter`, `SemanticAdapter`, `Fusion`, `FusionReport` | `findingFusion.ts` |
| `SlitherTypes` | `types/slither.ts` |
| `SlitherAnalyzer` | `slitherAnalyzer.ts` |
| `AiConfig` | `utils/ai.ts`, without the stream reader |
| `SseStream` | the stream reader of `utils/ai.ts` |
| `DashScopeModels` | `dashscope-models.ts` |
| `AiConfigModal` | `AIConfigModal.tsx` |
| `SourcePreview` | `SourcePreview.tsx` |
| `ContractInfoRoute`, `AiAnalyzeRoute`, `AgentAuditRoute`, `SlitherRoute` | the four API routes |
| `SlitherService` | `slither-service/app.py` |

`Strings`, `Json` and `Wrappers` hold shared helpers:

- ASCII case mapping, trimming, splitting and joining;
- JSON values, including JavaScript truthiness and `||`;
- `JSON.stringify` of a string, with its decoder and the round trip between
  them;
- `Option` and `Result`.

The source's own form decides the Dafny form:

- **Pure code** becomes functions.
- **Loops** that build a list, fill a counter map or scan lines become
  methods. Each method is proved equal to a specification function, and the
  properties are proved as lemmas about that function. Examples:
  `Fusion.FuseResults` and its helper methods, `SemanticAdapter.ParseAIFindings`,
  `SseStream.ParseSseStream`, `SourcePreview.RemoveDuplicateHeaders`,
  `SourcePreview.CollectPaths`, `FusionReport.FormatFusionReport`,
  `SlitherAnalyzer.FormatSlitherResultsAsMarkdown`, `SlitherRoute.CheckFiles`,
  `AiAnalyzeRoute.Reframe`, and `SlitherService.BuildFindings` / `ScanLines`.
- **The matching score** is a parameter of the fusion functions (`Scorer`).
  The greedy matcher's properties therefore hold for any score, and
  `Fusion.FusionOf` plugs in `MatchScoring.MatchScore`.
- **Everything outside the program** becomes a function parameter:
  - the network (`fetch` of the explorers and services);
  - `JSON.parse` and Python's `json.loads`;
  - the clock;
  - the installed compiler listing and the Slither run;
  - the browser's saved configuration.

## Model

| member | source | states |
|---|---|---|
| FusionModel.Rank | src/services/audit/findingFusion.ts:259-261 | The rank of a severity is its position in the severity order (Critical first). |
| FusionModel.RankInjective | src/services/audit/findingFusion.ts:259-261 | Distinct severities have distinct ranks, so the sort order is total. |
| FusionModel.HigherSev | src/services/audit/findingFusion.ts:128-131 | The result is one of the two severities. Its rank is ≤ both ranks, so it is at least as severe as each. On a tie the first wins. |
| FusionModel.NormSev | src/services/audit/findingFusion.ts:109-118 | The result is Critical exactly when the lower-cased trimmed text contains "critical". Otherwise it is a severity the text names, or Medium. |
| FusionModel.FirstNamed | src/services/audit/findingFusion.ts:110-117 | The chain of tests: Critical exactly when "critical" occurs; otherwise a severity the text names, or Medium. |
| FusionModel.NormSevFirst | src/services/audit/findingFusion.ts:109-118 | No severity ranked above the result is named in the text, and the result is named unless the text names no severity at all (then it is Medium). |
| FusionModel.FirstNamedFirst | src/services/audit/findingFusion.ts:110-117 | The same priority for the chain of tests on the lower-cased trimmed text. |
| FusionModel.ImpactToSev | src/services/audit/findingFusion.ts:120-126 | Never Critical. An impact outside Slither's five gives Medium; Optimization gives Gas; High, Medium, Low and Informational keep their names. |
| FusionModel.ImpactMappingsDiffer | src/services/audit/findingFusion.ts:120-126 | The fusion table and the Slither types' table disagree: High→High versus High→Critical, and Optimization→Gas versus "Gas Optimization". The other three impacts map the same way in both. |
| FusionModel.CapitalizeAll | src/services/audit/findingFusion.ts:134 | Each word is capitalised in place and the word count is unchanged. |
| FusionModel.FmtCheckStep | src/services/audit/findingFusion.ts:133-135 | Up to the first dash, a detector name is rendered as that word capitalised, then a space, then the rendering of the rest. |
| FusionModel.FmtCheckSpec | src/services/audit/findingFusion.ts:133-135 | The title keeps the detector name's length. Each dash becomes a space, and each character at the start or right after a dash is upper-cased. |
| FusionModel.FirstCategorySpec | src/services/audit/findingFusion.ts:82-87 | Returns the first table entry whose keywords the text mentions, or none exactly when no entry's keywords are mentioned. |
| FusionModel.ClassifySpec | src/services/audit/findingFusion.ts:80-88 | `classify` is that first match over VULN_CAT, applied to the lower-cased text. |
| FusionModel.CheckCatKeyHasSwc | src/services/audit/findingFusion.ts:57-78 | Every detector in CHECK_CAT has an SWC identifier in SLITHER_TO_SWC. |
| FusionModel.CheckCatValueIsCategory | src/services/audit/findingFusion.ts:57-78 | Every category CHECK_CAT assigns is one of VULN_CAT's categories. |
| MatchScoring.LastSolEnd | src/services/audit/findingFusion.ts:138 | Finds the last `.sol` end in a run with at least one character before it, or reports that there is none. |
| MatchScoring.FilesFrom | src/services/audit/findingFusion.ts:138 | Every file name found has at least 5 characters, ends in `.sol` and contains only path characters. |
| MatchScoring.GetFiles | src/services/audit/findingFusion.ts:137-139 | Every name in a location string has at least 5 characters, ends in `.sol` and contains only path characters. |
| MatchScoring.WordsFrom | src/services/audit/findingFusion.ts:142 | Every word is longer than 2 characters and lower-case alphanumeric. |
| MatchScoring.Tokenize | src/services/audit/findingFusion.ts:141-143 | Every token is longer than 2 characters and lower-case alphanumeric. |
| MatchScoring.Shared | src/services/audit/findingFusion.ts:157 | The intersection (repetitions kept) is no longer than the first list, and each of its words occurs in both lists. |
| MatchScoring.TextWeight | src/services/audit/findingFusion.ts:155-158 | The text term is never negative. |
| MatchScoring.MatchScore | src/services/audit/findingFusion.ts:145-160 | The score lies in [0, 1]. It is the sum of the category, location and text weights when that sum is below 1, and exactly 1 otherwise. |
| MatchScoring.BareCategoryMatch | src/services/audit/findingFusion.ts:145-160 | Same category, no shared location and no shared word scores exactly 0.5. That is not above the threshold, so the pair never merges. |
| MatchScoring.RepeatedWordsAlone | src/services/audit/findingFusion.ts:155-158 | Repeated tokens count once per repetition, so the text term alone can reach 0.6, beyond its nominal 0.2. |
| MatchScoring.RepeatedShared | src/services/audit/findingFusion.ts:157-158 | Three copies of a word shared with one copy count 3 shared words over a union of 1. |
| StaticAdapter.LocationsOf | src/services/audit/findingFusion.ts:194-205 | One rendered `file:first-last` location per located element, in order. |
| StaticAdapter.FindingLocation | src/services/audit/findingFusion.ts:194-205 | A finding has a location exactly when one of its elements has a file name and source lines. |
| StaticAdapter.StaticFinding | src/services/audit/findingFusion.ts:193-211 | The record of the i-th detector hit (RecordOf): id `slither-(i+1)`; title formatted from the detector name; location the elements' locations joined by ", ", absent when none has one; severity from the impact table; confidence low exactly when Slither's is "Low", otherwise medium, never high; sources [slither]; the detector's SWC id; category from CHECK_CAT, falling back to classification. |
| StaticAdapter.NormSlither | src/services/audit/findingFusion.ts:191-213 | Returns [] when the analysis failed or found nothing. Otherwise it returns one record per detector hit, in order, each related to its hit as RecordOf states. |
| StaticAdapter.SlitherIdInjective | src/services/audit/findingFusion.ts:201 | Different positions get different `slither-` ids. |
| SemanticAdapter.Collapse | src/services/audit/findingFusion.ts:96 | Every run of white space becomes one space, and no two white-space characters stay adjacent. The non-space characters and their order are kept. |
| SemanticAdapter.Normalize | src/services/audit/findingFusion.ts:96 | The result is clean: trimmed, with no newline and no double white space. It keeps every non-space character of the input. |
| SemanticAdapter.ValueEnd | src/services/audit/findingFusion.ts:92 | The value runs to the first blank line, next list label or next heading. |
| SemanticAdapter.LabelEnd | src/services/audit/findingFusion.ts:92 | A label match ends after the bullet, the `**`-wrapped field name and its closing marks. |
| SemanticAdapter.FirstCapture | src/services/audit/findingFusion.ts:95 | Returns the capture at the first label position that has one, or none when no position does. |
| SemanticAdapter.ExtractField | src/services/audit/findingFusion.ts:90-97 | An extracted value is clean: trimmed, with no newline and no two adjacent white-space characters. |
| SemanticAdapter.ExtractFieldFound | src/services/audit/findingFusion.ts:90-97 | A value is extracted exactly when some position of the text carries the labelled field. |
| SemanticAdapter.NextCut | src/services/audit/findingFusion.ts:165 | Finds the next position where a line starts with `###` and white space, with no such position before it. |
| SemanticAdapter.SectionsFrom | src/services/audit/findingFusion.ts:165 | The sections from a position concatenate back to the rest of the text. Each piece is non-empty; every piece but the last ends in a line terminator; every piece after the first opens with `###` and white space; and no cut position lies inside a piece. |
| SemanticAdapter.Sections | src/services/audit/findingFusion.ts:165 | The sections concatenate back to the whole report, and they are cut exactly at the line starts that open with `###` and white space. |
| SemanticAdapter.SectionsFromUnique | src/services/audit/findingFusion.ts:165 | Any pieces that concatenate to the rest of the text and are cut as stated are the sections from that position. |
| SemanticAdapter.SectionsUnique | src/services/audit/findingFusion.ts:165 | The split is the only one: any pieces that concatenate to the report and are cut at exactly those positions are its sections. |
| SemanticAdapter.Heading | src/services/audit/findingFusion.ts:168 | A heading is non-empty and has no line terminator. |
| SemanticAdapter.RemoveBrackets | src/services/audit/findingFusion.ts:170 | The title has no square brackets. |
| SemanticAdapter.AiRecord | src/services/audit/findingFusion.ts:175-186 | The record has the adapter's shape: sources [ai], medium confidence, clean optional fields, no detector and no SWC id. It keeps the given title, and its severity is normSev of the Severity field. |
| SemanticAdapter.FindingOf | src/services/audit/findingFusion.ts:172-186 | A section yields a record exactly when its title (the Title field, else the heading) is non-empty and it has a non-empty Severity field. The record has the adapter's shape, that title, and normSev of the Severity field. |
| SemanticAdapter.SectionFinding | src/services/audit/findingFusion.ts:166-186 | A record from a section has the adapter's shape and no id yet. |
| SemanticAdapter.SectionFindingSpec | src/services/audit/findingFusion.ts:166-186 | A section yields a record exactly when, trimmed, it has a `###` heading whose title has no denylist word, a non-empty title, and a non-empty Severity field. The record's title and severity come from those fields. |
| SemanticAdapter.Kept | src/services/audit/findingFusion.ts:165-187 | There are no more records than sections. Each record is what some section yields, and every section's record is kept. |
| SemanticAdapter.KeptAppend | src/services/audit/findingFusion.ts:165-187 | The records of two runs of sections are those of the first run, then those of the second. |
| SemanticAdapter.KeptIsYielded | src/services/audit/findingFusion.ts:165-187 | The records are exactly the Some values of the sections, in section order (Yielded is that reference definition). |
| SemanticAdapter.KeptPosition | src/services/audit/findingFusion.ts:165-187 | A section's record sits in the position given by the number of records of the sections before it. |
| SemanticAdapter.NumberedStep | src/services/audit/findingFusion.ts:175-176 | One more section adds its record, numbered next, or nothing. |
| SemanticAdapter.Numbered | src/services/audit/findingFusion.ts:176 | The k-th record gets id `ai-(k+1)` and is otherwise unchanged. |
| SemanticAdapter.NumberFindings | src/services/audit/findingFusion.ts:165-187 | The loop over the sections returns the kept records numbered in order. |
| SemanticAdapter.ParseAIFindings | src/services/audit/findingFusion.ts:162-189 | `parseAIFindings` returns the specification's findings of the report. |
| SemanticAdapter.AiIdInjective | src/services/audit/findingFusion.ts:176 | Different positions get different `ai-` ids. |
| SemanticAdapter.AIFindingsOfSpec | src/services/audit/findingFusion.ts:162-189 | An empty report gives no findings. Otherwise the ids run `ai-1..n` in order. Each record has the adapter's shape and is what some section yields. All ids are distinct. Every section that yields a record appears, numbered by the records before it. |
| SemanticAdapter.AIFindingsSound | src/services/audit/findingFusion.ts:162-189 | Each finding is numbered by its position, has the adapter's shape and is what some section yields. |
| SemanticAdapter.AIFindingsComplete | src/services/audit/findingFusion.ts:162-189 | The record of every section that yields one is among the findings, numbered by the records of the sections before it. |
| Fusion.Scores | src/services/audit/findingFusion.ts:226-230 | There is one score per semantic finding, the score against it. |
| Fusion.BestUpTo | src/services/audit/findingFusion.ts:226-231 | A chosen partner is unused and its score is strictly above 0.5. |
| Fusion.BestSpec | src/services/audit/findingFusion.ts:226-231 | There is no partner exactly when every unused score is ≤ 0.5. Otherwise the partner has the highest unused score, strictly above every earlier unused score, so the earliest best wins. |
| Fusion.Merge | src/services/audit/findingFusion.ts:235-249 | A merged record: id `fused-(i+1)`; sources [slither, ai]; confidence high; severity one of the two, at least as severe as both; the description starts with the semantic one and ends with the static one; title from the semantic side, falling back to the static one; detector and SWC from the static side; impact and recommendation from the semantic side; location and category prefer the static side. |
| Fusion.Step | src/services/audit/findingFusion.ts:225-253 | Handling one static finding appends exactly one record, keeps the earlier ones, and only adds to the used set. |
| Fusion.GreedyUpTo | src/services/audit/findingFusion.ts:225-253 | After k static findings there are k records. The used set holds exactly the cross-validated count of indices, all inside the semantic list, so each semantic finding is consumed at most once. |
| Fusion.GreedyPrefix | src/services/audit/findingFusion.ts:236 | Later static findings never change earlier records. |
| Fusion.GreedyUsedGrows | src/services/audit/findingFusion.ts:233 | Once used, a semantic finding stays used. |
| Fusion.StepAppends | src/services/audit/findingFusion.ts:232-252 | The appended record is the static finding unchanged, or its merge with a used semantic finding. |
| Fusion.GreedyPositions | src/services/audit/findingFusion.ts:225-253 | Each position holds the static finding unchanged or its merge with a consumed semantic finding. |
| Fusion.Leftover | src/services/audit/findingFusion.ts:255-257 | Every leftover record is an unconsumed semantic finding, unchanged. |
| Fusion.LeftoverSize | src/services/audit/findingFusion.ts:255-257 | Leftover and consumed findings together account for every semantic finding. |
| Fusion.CrossCount | src/services/audit/findingFusion.ts:234 | There are no more cross-validated pairs than static findings. |
| Fusion.Conservation | src/services/audit/findingFusion.ts:225-257 | The combined list has \|static\| + \|semantic\| − cross-validated records, and the cross-validated count is at most \|semantic\|. |
| Fusion.Insert | src/services/audit/findingFusion.ts:262-264 | Inserting adds exactly that record. |
| Fusion.SortFindings | src/services/audit/findingFusion.ts:262-264 | The sort is a permutation of its input. |
| Fusion.InsertSorted | src/services/audit/findingFusion.ts:262-264 | Insertion keeps a list sorted. |
| Fusion.SortFindingsSorted | src/services/audit/findingFusion.ts:259-264 | The output is ordered by severity rank, and within a rank two-source records come first. It is a permutation of the input. |
| Fusion.InsertStable | src/services/audit/findingFusion.ts:262-264 | Insertion keeps the relative order of records with equal keys and puts the new one after them. |
| Fusion.SortFindingsStable | src/services/audit/findingFusion.ts:262-264 | The sort is stable: records with equal keys keep their input order. |
| Fusion.Count | src/services/audit/findingFusion.ts:271-277 | A counter never exceeds the number of findings. |
| Fusion.CountAppend | src/services/audit/findingFusion.ts:271-277 | Counts add up over concatenation. |
| Fusion.CountPermutation | src/services/audit/findingFusion.ts:262-277 | Sorting does not change any counter. |
| Fusion.CountsAddUp | src/services/audit/findingFusion.ts:271-277 | The severity counters, the source counters and the confidence counters each sum to the number of findings. |
| Fusion.CombinedCorroborated | src/services/audit/findingFusion.ts:236-256 | Every combined record has high confidence exactly when it has two sources. |
| Fusion.StepKinds | src/services/audit/findingFusion.ts:232-252 | One step keeps the source split: the two-source records number xc and the others are static-only. |
| Fusion.GreedyKinds | src/services/audit/findingFusion.ts:225-253 | After matching, xc records have two sources and the rest are static-only. |
| Fusion.LeftoverKinds | src/services/audit/findingFusion.ts:255-257 | Leftover records are all semantic-only. |
| Fusion.SourceCountsOfCombined | src/services/audit/findingFusion.ts:270-284 | Two-source = xc, static-only = \|static\| − xc, semantic-only = \|semantic\| − xc. |
| Fusion.FusedIdInjective | src/services/audit/findingFusion.ts:237 | Different positions get different `fused-` ids. |
| Fusion.IdFamiliesDiffer | src/services/audit/findingFusion.ts:237 | No `slither-`, `fused-` or `ai-` id equals an id of another family. |
| Fusion.GreedyId | src/services/audit/findingFusion.ts:237 | The record at position p has id `slither-(p+1)` or `fused-(p+1)`. |
| Fusion.GreedyDistinct | src/services/audit/findingFusion.ts:225-253 | The matched records have distinct ids. |
| Fusion.LeftoverIds | src/services/audit/findingFusion.ts:255-257 | Leftover records keep `ai-` ids. |
| Fusion.LeftoverDistinct | src/services/audit/findingFusion.ts:255-257 | Leftover records have distinct `ai-` ids. |
| Fusion.CombinedDistinct | src/services/audit/findingFusion.ts:215-257 | All ids of the combined list are distinct. |
| Fusion.InsertDistinct | src/services/audit/findingFusion.ts:262-264 | Insertion keeps ids distinct. |
| Fusion.SortDistinct | src/services/audit/findingFusion.ts:262-264 | Sorting keeps ids distinct. |
| Fusion.NoSemanticFindings | src/services/audit/findingFusion.ts:225-253 | With no semantic findings, matching leaves the static findings as they are and uses nothing. |
| Fusion.NoStaticFindings | src/services/audit/findingFusion.ts:255-257 | With nothing used, every semantic finding is left over, unchanged and in order. |
| Fusion.OneEngine | src/services/audit/findingFusion.ts:219-257 | When either engine found nothing, the combined list is the other engine's list, with nothing cross-validated. |
| Fusion.InputsWellFormed | src/services/audit/findingFusion.ts:219-220 | The adapters' outputs are single-source with their own id families. |
| Fusion.FusionFindings | src/services/audit/findingFusion.ts:215-294 | The fused findings are sorted, with distinct ids and all corroborated. Their number is the two engines' counts minus the deduplicated count, which exceeds neither engine's count. |
| Fusion.FusionSummaryCounts | src/services/audit/findingFusion.ts:266-293 | total = \|findings\|, both = cross-validated, slitherOnly = static count − both, aiOnly = semantic count − both. The three source counters sum to total. |
| Fusion.SummaryAddsUp | src/services/audit/findingFusion.ts:266-277 | The severity map has all six keys and they sum to the number of findings. The confidence counters sum to the same number. |
| Fusion.BestMatch | src/services/audit/findingFusion.ts:226-231 | The inner loop finds the partner the specification picks. |
| Fusion.MatchAll | src/services/audit/findingFusion.ts:225-253 | The loop over the static findings produces the greedy specification's records, used set and count. |
| Fusion.AppendLeftover | src/services/audit/findingFusion.ts:255-257 | Appends exactly the unconsumed semantic findings, in order. |
| Fusion.Summarize | src/services/audit/findingFusion.ts:266-277 | The counting loop produces the specification's summary. |
| Fusion.FuseResults | src/services/audit/findingFusion.ts:215-294 | `fuseResults` returns the specification's result, which the lemmas above characterise. |
| FusionReport.OptLine | src/services/audit/findingFusion.ts:306-310 | An optional line is printed exactly when its value is present and non-empty. |
| FusionReport.FindingLines | src/services/audit/findingFusion.ts:296-311 | A finding renders as 3 to 8 lines: the title heading first, then the source and confidence line. The description, cut to 500 characters, appears exactly when it is non-empty. |
| FusionReport.LabelledLinesDiffer | src/services/audit/findingFusion.ts:303-310 | No other labelled line can be mistaken for the description line. |
| FusionReport.Pushed | src/services/audit/findingFusion.ts:381-383 | One line is pushed per item. |
| FusionReport.CrossOf | src/services/audit/findingFusion.ts:349 | Picks exactly the findings with two sources. |
| FusionReport.GroupOf | src/services/audit/findingFusion.ts:361 | Picks exactly the findings of one severity. |
| FusionReport.BannerEnd | src/services/audit/findingFusion.ts:371 | A banner match covers at least its `#` marks and the word. |
| FusionReport.ReplaceBannersFrom | src/services/audit/findingFusion.ts:370-371 | Removing banners never lengthens the text. |
| FusionReport.LastTerminator | src/services/audit/findingFusion.ts:372 | Finds the last line terminator in a range, or reports that there is none. |
| FusionReport.RuleEnd | src/services/audit/findingFusion.ts:372 | A rule match covers at least `---`. |
| FusionReport.ReplaceRulesFrom | src/services/audit/findingFusion.ts:372 | Removing rules never lengthens the text. |
| FusionReport.CleanAiReport | src/services/audit/findingFusion.ts:370-373 | The cleaned appendix is never longer than the report. |
| FusionReport.NoBannerUnchanged | src/services/audit/findingFusion.ts:371 | Text without `#` is not changed by the banner removal. |
| FusionReport.NoRuleUnchanged | src/services/audit/findingFusion.ts:372 | Text without `-` is not changed by the rule removal. |
| FusionReport.RuleTakesPrecedingLineEnd | src/services/audit/findingFusion.ts:372 | The rule pattern also consumes the line end before the rule: "a\n\n---\nb" becomes "a\n\nb". |
| FusionReport.RulesOfSample | src/services/audit/findingFusion.ts:372 | In that sample a rule match starts only after the empty line. |
| FusionReport.RawLine | src/services/audit/findingFusion.ts:382 | A raw Slither line is its impact and detector head, followed by at most 200 characters taken from the start of the trimmed description. |
| FusionReport.FormatFusionReport | src/services/audit/findingFusion.ts:314-390 | The report is the specification's lines joined with newlines. |
| FusionReport.PushAllSeverityRows | src/services/audit/findingFusion.ts:344-346 | The loop pushes the specification's severity rows. |
| FusionReport.PushAll | src/services/audit/findingFusion.ts:381-383 | The loop pushes one rendered line per item. |
| FusionReport.PushAllGroups | src/services/audit/findingFusion.ts:359-365 | The loop pushes the specification's severity groups. |
| FusionReport.SeverityRowInjective | src/services/audit/findingFusion.ts:345 | A severity table row determines its severity and count. |
| FusionReport.SeverityRowsShown | src/services/audit/findingFusion.ts:344-346 | A severity row appears exactly when that severity's count is positive. |
| FusionReport.CrossOfCount | src/services/audit/findingFusion.ts:349-355 | The cross-validated section lists as many findings as the two-source counter says. |
| FusionReport.GroupOfCount | src/services/audit/findingFusion.ts:361-363 | Each severity group lists as many findings as its counter says. |
| FusionReport.GroupsPartition | src/services/audit/findingFusion.ts:359-365 | The six severity groups together hold every finding exactly once. |
| FusionReport.GroupMultiplicity | src/services/audit/findingFusion.ts:361 | A group holds each finding of its severity as often as the list does, and no other finding. |
| FusionReport.CrossSectionSize | src/services/audit/findingFusion.ts:349-355 | The cross-validated section is omitted exactly when nothing is cross-validated. Otherwise it has 3 lines plus one per finding. |
| FusionReport.SectionsAgreeWithSummary | src/services/audit/findingFusion.ts:334-365 | The report's sections agree with the summary: the cross section's size is `both`, each group's size is its severity counter, a table row appears exactly for non-empty groups, and the confidence line shows the high-confidence count. |
| FusionReport.FusionReportSections | src/services/audit/findingFusion.ts:349-355 | The fused result's summary is the summary of its findings, and the cross section lists as many as were cross-validated. |
| SlitherTypes.Located | src/services/audit/slitherAnalyzer.ts:250-254 | Keeps exactly the located elements; the result is empty exactly when no element has a location. |
| SlitherTypes.ParseImpact | src/types/slither.ts:68 | Reads back exactly the five impact names. |
| SlitherTypes.EnumerationsComplete | src/types/slither.ts:68-71 | There are five impacts and three confidences, and their names are distinct. |
| SlitherTypes.ParseImpactName | src/types/slither.ts:68 | Reading an impact's name gives the impact back. |
| SlitherTypes.MapSlitherImpactToSeverity | src/types/slither.ts:87-96 | "Unknown" exactly for a value outside the five impacts. High → Critical and Optimization → "Gas Optimization"; Medium, Low and Informational keep their names. |
| SlitherTypes.MapSlitherImpactInjective | src/types/slither.ts:87-96 | Distinct impacts map to distinct severity labels. |
| SlitherTypes.SwcOfSpec | src/types/slither.ts:102-124 | A detector has an SWC id exactly when the table lists it, and the id is one the table pairs with it. |
| SlitherTypes.ReentrancySwc | src/types/slither.ts:103-106 | The four reentrancy detectors map to SWC-107. |
| SlitherTypes.UncheckedCallSwc | src/types/slither.ts:107-108 | The unchecked low-level call and send detectors map to SWC-104. |
| SlitherAnalyzer.DropPrefix | src/services/audit/slitherAnalyzer.ts:143-144 | Removes the prefix when the path starts with it, and otherwise leaves the path as it is. |
| SlitherAnalyzer.CleanFilePath | src/services/audit/slitherAnalyzer.ts:141-146 | The result has no backslash, each character is the corresponding input character with `\` made `/`, and the part removed is 0, 6, 15 or 21 characters. Something is removed exactly when the path starts with `proxy/` or `implementation/`. |
| SlitherAnalyzer.CleanPathUnchanged | src/services/audit/slitherAnalyzer.ts:141-146 | A path without those prefixes and backslashes is unchanged. |
| SlitherAnalyzer.CleanPathTwice | src/services/audit/slitherAnalyzer.ts:143 | Cleaning is not idempotent: "proxy/proxy/A.sol" loses one prefix per application. |
| SlitherAnalyzer.SolFiles | src/services/audit/slitherAnalyzer.ts:155 | Keeps exactly the `.sol` files. |
| SlitherAnalyzer.NonLibrary | src/services/audit/slitherAnalyzer.ts:161-169 | Keeps exactly the files outside the library directories. |
| SlitherAnalyzer.ShortestIndex | src/services/audit/slitherAnalyzer.ts:174 | The index of the first file with the shortest path. |
| SlitherAnalyzer.Candidates | src/services/audit/slitherAnalyzer.ts:171 | Non-empty when there are Solidity files. The candidates are all non-library files whenever one exists. |
| SlitherAnalyzer.FindMainContract | src/services/audit/slitherAnalyzer.ts:152-175 | With no Solidity file: the first file's path, or "" when there are no files. With one: that file's path. |
| SlitherAnalyzer.ShortestIsFirst | src/services/audit/slitherAnalyzer.ts:174 | The chosen candidate is the first of the shortest. |
| SlitherAnalyzer.MainContractShortest | src/services/audit/slitherAnalyzer.ts:171-174 | With several Solidity files, the main contract is the first candidate with the shortest path. |
| SlitherAnalyzer.MainContractNotLibrary | src/services/audit/slitherAnalyzer.ts:161-171 | With several Solidity files and some outside the libraries, the main contract is not a library file. |
| SlitherAnalyzer.EmptySummary | src/services/audit/slitherAnalyzer.ts:180-189 | All six counters are zero. |
| SlitherAnalyzer.CleanFiles | src/services/audit/slitherAnalyzer.ts:64-66 | Each file keeps its content and gets its cleaned path. |
| SlitherAnalyzer.PrepareAnalysis | src/services/audit/slitherAnalyzer.ts:61-94 | Answers at once, unsuccessfully, with no findings, an empty summary and the no-Solidity error, exactly when no file is Solidity. Otherwise it sends exactly the Solidity files with cleaned paths; the main file is the cleaned given one, or, when none is given, the main contract found among the files sent. |
| SlitherAnalyzer.LocationLines | src/services/audit/slitherAnalyzer.ts:249-262 | One location line per located element, in order. |
| SlitherAnalyzer.ImpactGroup | src/services/audit/slitherAnalyzer.ts:232 | Picks exactly the findings of one impact. |
| SlitherAnalyzer.FormatSlitherResultsAsMarkdown | src/services/audit/slitherAnalyzer.ts:195-270 | The markdown is the specification's text. |
| SlitherAnalyzer.PushAllSummaryRows | src/services/audit/slitherAnalyzer.ts:216-225 | The loop pushes the specification's summary rows. |
| SlitherAnalyzer.PushAllImpactGroups | src/services/audit/slitherAnalyzer.ts:229-267 | The loop pushes the specification's impact groups. |
| SlitherAnalyzer.PushAllFindings | src/services/audit/slitherAnalyzer.ts:243-266 | The loop pushes the specification's finding blocks. |
| SlitherAnalyzer.RowEmoji | src/services/audit/slitherAnalyzer.ts:216-225 | Each summary row carries its impact's emoji. |
| SlitherAnalyzer.SummaryRowsDiffer | src/services/audit/slitherAnalyzer.ts:216-225 | A summary row determines its impact. |
| SlitherAnalyzer.SummaryRowsPositive | src/services/audit/slitherAnalyzer.ts:216-225 | Every row shown has a positive count equal to its counter. |
| SlitherAnalyzer.ImpactIndex | src/services/audit/slitherAnalyzer.ts:229 | The position of an impact in the rendering order. |
| SlitherAnalyzer.SummaryRowsPresent | src/services/audit/slitherAnalyzer.ts:216-225 | Every impact with a positive counter has its row. |
| SlitherAnalyzer.SummaryRowsShown | src/services/audit/slitherAnalyzer.ts:216-225 | A summary row appears exactly when its counter is positive. |
| SlitherAnalyzer.RowCount | src/services/audit/slitherAnalyzer.ts:217 | A row determines its count. |
| SlitherAnalyzer.MarkdownShortCases | src/services/audit/slitherAnalyzer.ts:198-204 | A failure with a message renders as the failure text. A result without findings renders as the clean text. |
| SlitherAnalyzer.GroupsCover | src/services/audit/slitherAnalyzer.ts:229-233 | The five impact groups plus the findings of unknown impact account for every finding. |
| SlitherAnalyzer.Unrendered | src/services/audit/slitherAnalyzer.ts:232 | Exactly the findings whose impact is none of the five, which no group renders. |
| AiConfig.DashScopeIds | src/utils/ai.ts:26 | The DashScope model ids, in table order. |
| AiConfig.DefaultModelForProvider | src/utils/ai.ts:23-33 | The first model of the provider's list; for DashScope, qwen3-coder-plus. |
| AiConfig.IsValidModel | src/utils/ai.ts:36-46 | A model is valid exactly when it is in the provider's list. |
| AiConfig.DefaultModelValid | src/utils/ai.ts:23-46 | The default model is always valid. |
| AiConfig.Dashify | src/utils/ai.ts:64 | Every character of the result is a file-name character. |
| AiConfig.CollapseDashes | src/utils/ai.ts:65 | No two dashes stay adjacent. |
| AiConfig.StripDashEnds | src/utils/ai.ts:66 | No leading or trailing dash remains. |
| AiConfig.FileNameForm | src/utils/ai.ts:62-66 | The result is a clean file name. |
| AiConfig.GetModelName | src/utils/ai.ts:61-67 | The model name is a clean file name, and an empty model gives "model". |
| AiConfig.CleanNameUnchanged | src/utils/ai.ts:61-67 | A name that is already clean is unchanged. |
| AiConfig.ModelNameIdempotent | src/utils/ai.ts:61-67 | Sanitising is idempotent. |
| AiConfig.DefaultConfig | src/utils/ai.ts:75-81 | The default configuration uses Neversight with a valid model. |
| AiConfig.SavedProvider | src/utils/ai.ts:92-95 | "dashscope" and "openai" select those providers; anything else selects Neversight. |
| AiConfig.StringField | src/utils/ai.ts:99-104 | A string field is used when present, and the fallback otherwise. |
| AiConfig.SavedObject | src/utils/ai.ts:85-89 | A restored value is an object, not null. |
| AiConfig.RestoreConfig | src/utils/ai.ts:74-118 | The restored model is always valid for the provider. Outside a browser, or when nothing parseable is saved, the default is restored. Otherwise the fields come from the saved object, with the stated fallbacks. The saved model is kept exactly when it is a string valid for the provider; otherwise the provider's default model is restored. |
| AiConfigModal.RestoreModalConfig | src/components/audit/AIConfigModal.tsx:75-117 | The restored model is always valid and superPrompt is always on. The default is restored when nothing parseable is saved; otherwise the fields come from the saved object. |
| AiConfigModal.ChangeProvider | src/components/audit/AIConfigModal.tsx:120-126 | Changing provider selects that provider's first model and keeps the other settings. |
| AiConfigModal.StartAnalysis | src/components/audit/AIConfigModal.tsx:131-140 | Refuses to start exactly when the provider is Neversight and the trimmed key is empty. Otherwise it saves the configuration as it is. |
| AiConfigModal.BlankKeyRefused | src/components/audit/AIConfigModal.tsx:133 | A key of only white space is refused for Neversight. |
| AiConfigModal.ServerProvidersStart | src/components/audit/AIConfigModal.tsx:131-140 | After switching to a server-side provider, the analysis starts without a key. |
| AiConfigModal.Reset | src/components/audit/AIConfigModal.tsx:142-151 | Reset restores Neversight, no key, its first model, English and superPrompt, so starting then asks for a key. |
| DashScopeModels.FindById | src/utils/dashscope-models.ts:45-46 | Finds the first entry with that id, or none exactly when no entry has it. |
| DashScopeModels.GetDashScopeModelById | src/utils/dashscope-models.ts:45-46 | The same search over the DashScope table. |
| DashScopeModels.TableShape | src/utils/dashscope-models.ts:17-43 | Five models, qwen3-coder-plus first, all ids distinct. |
| DashScopeModels.LookupEntry | src/utils/dashscope-models.ts:45-46 | Looking up any table entry's id finds that entry. |
| SseStream.PayloadEffect | src/utils/ai.ts:302-325 | `[DONE]` finishes the stream, and nothing else does. A piece comes only from a payload that parses. |
| SseStream.LineEffectOf | src/utils/ai.ts:297-325 | Only `data:` lines have an effect. Finishing needs the `[DONE]` payload, and a piece needs a payload that parses. |
| SseStream.DataLine | src/utils/ai.ts:300-302 | A `data: ` line acts on its payload. |
| SseStream.StringPayload | src/utils/ai.ts:311-315 | A JSON string payload becomes that string as a piece. |
| SseStream.QuotedDataLine | src/utils/ai.ts:307-315 | `data: ` followed by a quoted string yields exactly that string. |
| SseStream.DoneLine | src/utils/ai.ts:303-305 | `data: [DONE]` finishes the stream. |
| SseStream.EmptyLineIgnored | src/utils/ai.ts:299 | An empty line has no effect. |
| SseStream.EventAndEmptyLines | src/utils/ai.ts:299 | `event:` lines and empty lines have no effect. |
| SseStream.ParseQuoted | src/utils/ai.ts:308 | A string-faithful parser reads a quoted string back. |
| SseStream.HandleLines | src/utils/ai.ts:297-326 | Handling lines only appends pieces. |
| SseStream.ReadAllStep | src/utils/ai.ts:289-296 | Reading one more chunk feeds it to the reader's state. |
| SseStream.ParseSseStream | src/utils/ai.ts:278-330 | The emitted pieces are the reader's pieces, and the full text is their concatenation. |
| SseStream.ReadLines | src/utils/ai.ts:289-327 | The chunk loop computes the reader specification for any line effect. |
| SseStream.FinishedStays | src/utils/ai.ts:303-305 | After `[DONE]`, further chunks change nothing. |
| SseStream.FinishedRead | src/utils/ai.ts:303-305 | A finishing line inside a chunk ends the reading with the pieces before it. |
| SseStream.FinishInLines | src/utils/ai.ts:303-305 | A finishing line stops the handling of the remaining lines of a chunk. |
| SseStream.HandleLinesAppend | src/utils/ai.ts:297-326 | Handling two line lists is handling one and then the other, unless the first finished. |
| SseStream.SplitAppend | src/utils/ai.ts:294-295 | Splitting the buffer plus a chunk equals re-splitting the last buffered line with the chunk. |
| SseStream.ReadAllByText | src/utils/ai.ts:293-295 | The result depends only on the complete lines of the concatenated text, and the buffer is its last, unterminated line. |
| SseStream.SameTextSamePieces | src/utils/ai.ts:293-295 | How the text is split into chunks does not matter. |
| SseStream.UnterminatedLineIgnored | src/utils/ai.ts:295 | A final line without a newline is never handled. |
| SseStream.LineBreakEndsSplit | src/utils/ai.ts:294-295 | Text ending in a newline leaves an empty buffer. |
| Json.Field | src/app/api/agent/audit/route.ts:112-115 | Reading a property fails exactly on null and undefined. |
| Json.OptField | src/app/api/slither/route.ts:91-94 | `v?.key`: the member when present, undefined otherwise. |
| Json.Index | src/app/api/contract-info/route.ts:134 | Indexing fails exactly on null and undefined, and gives the element when present. |
| Json.OrJs | src/app/api/slither/route.ts:93-94 | `a \|\| b`: a when a is truthy, b otherwise. |
| Json.JsString | src/app/api/contract-info/route.ts:25 | `String(v)` of a string is that string. |
| Json.Quote | src/app/api/ai-analyze/route.ts:78 | `JSON.stringify` of a string starts and ends with a quote and has no newline. |
| Json.UnescapeEscape | src/app/api/ai-analyze/route.ts:78 | Decoding the escaped characters gives the original string back. |
| Json.QuoteRoundTrip | src/app/api/ai-analyze/route.ts:78 | Decoding `JSON.stringify(s)` gives s back. |
| AiAnalyzeRoute.Validate | src/app/api/ai-analyze/route.ts:32-59 | Invalid JSON gives 400. A chat request is made exactly when the prompt and model are truthy and the provider is dashscope or openai; its messages are [system, user prompt] at temperature 0.5. Every other reply is a 400. |
| AiAnalyzeRoute.ErrorStatus | src/app/api/ai-analyze/route.ts:118-124 | A message containing 401 or 403 gives 401; otherwise 402 gives 402; otherwise 404 gives 404; anything else gives 500. |
| AiAnalyzeRoute.FailureReply | src/app/api/ai-analyze/route.ts:114-126 | The reply carries the message, or "Unknown error", with one of the four statuses. |
| AiAnalyzeRoute.Frames | src/app/api/ai-analyze/route.ts:77-79 | One frame per value. |
| AiAnalyzeRoute.FramesAt | src/app/api/ai-analyze/route.ts:78 | The i-th frame is the frame of the i-th value. |
| AiAnalyzeRoute.Reframe | src/app/api/ai-analyze/route.ts:73-89 | The events are one frame per chunk, then the closing frame. |
| AiAnalyzeRoute.FrameRead | src/app/api/ai-analyze/route.ts:78 | The browser reader turns one frame back into its value. |
| AiAnalyzeRoute.QuotedFrameLine | src/app/api/ai-analyze/route.ts:78 | A frame's data line is one line, and it yields the value. |
| AiAnalyzeRoute.FramesRead | src/app/api/ai-analyze/route.ts:74-81 | Reading all frames recovers the values, with an empty buffer and not finished. |
| AiAnalyzeRoute.FinishingLineRead | src/app/api/ai-analyze/route.ts:81 | A finishing event ends the reading. |
| AiAnalyzeRoute.DoneRead | src/app/api/ai-analyze/route.ts:81 | The `[DONE]` frame ends the reading. |
| AiAnalyzeRoute.ErrorLineIgnored | src/app/api/ai-analyze/route.ts:86 | The `event: error` line has no effect on the reader. |
| AiAnalyzeRoute.SkippedThenQuotedRead | src/app/api/ai-analyze/route.ts:86 | An ignored line followed by a quoted data line yields the quoted value. |
| AiAnalyzeRoute.ErrorRead | src/app/api/ai-analyze/route.ts:84-86 | The error frame yields its message as an ordinary piece. |
| AiAnalyzeRoute.StreamDelivered | src/app/api/ai-analyze/route.ts:70-91 | However the stream is chunked, the browser recovers exactly the streamed values and finishes. |
| AiAnalyzeRoute.StreamErrorBecomesText | src/app/api/ai-analyze/route.ts:83-89 | After an error, the browser sees the message as one more piece of text and does not finish. |
| AgentAuditRoute.TrimmedField | src/app/api/agent/audit/route.ts:112-115 | `v?.trim()`: a string gives its trimmed value, null and undefined give undefined, and anything else throws. |
| AgentAuditRoute.SourceFiles | src/app/api/agent/audit/route.ts:60-84 | Sources are returned only from an ok reply with at least one file. The failure messages say why. |
| AgentAuditRoute.ReadBody | src/app/api/agent/audit/route.ts:112-123 | The trims of address, chain and model run first: a body whose field of these is neither a string nor absent throws. Otherwise a blank address, chain or model or a falsy provider gives 400; then a truthy non-string language throws; everything else is accepted. An accepted request has the trimmed fields, the language defaulting to chinese-simplified, superPrompt on unless explicitly false, and stream on only when explicitly true. |
| AgentAuditRoute.ModelThrowsFirst | src/app/api/agent/audit/route.ts:115-117 | A body with an empty address and a numeric model throws before the 400 check is reached. |
| AgentAuditRoute.Post | src/app/api/agent/audit/route.ts:90-134 | In order: 500 without a configured key, 401 for a wrong key, 400 for invalid JSON, then ReadBody's failure is passed on as it is. A 502 carries the source fetch's error. The analysis runs exactly when the key is admitted, the body is JSON, ReadBody accepts it and the sources are fetched, and it gets the checked fields and those sources. |
| AgentAuditRoute.DefaultLanguageTrimmed | src/app/api/agent/audit/route.ts:121 | The default language has nothing to trim. |
| AgentAuditRoute.PaddedHeaderAccepted | src/app/api/agent/audit/route.ts:92-102 | A key surrounded by white space is still accepted. |
| SlitherRoute.FileVerdict | src/app/api/slither/route.ts:78-85 | A null or undefined file throws, and a file passes exactly when its path and content are truthy. |
| SlitherRoute.FilesVerdict | src/app/api/slither/route.ts:78-85 | The files pass exactly when each passes. Otherwise the first failing file decides. |
| SlitherRoute.CheckFiles | src/app/api/slither/route.ts:78-85 | The loop gives the specification's verdict. |
| SlitherRoute.EmptyContentRejected | src/app/api/slither/route.ts:79-84 | A file with empty content is rejected. |
| SlitherRoute.Forwarded | src/app/api/slither/route.ts:91-95 | The forwarded body has exactly files, main_file and solc_version. A falsy main file or version is sent as null. |
| SlitherRoute.Caught | src/app/api/slither/route.ts:112-129 | 504 exactly for a TimeoutError. Otherwise 500 with the error's message, or "Internal server error" for a non-Error. |
| SlitherRoute.Post | src/app/api/slither/route.ts:65-131 | A null body throws a TypeError and goes through Caught. A body without files gets 400, a file that throws goes through Caught, and a rejected file gets 400. A request is forwarded exactly when it is JSON with files that all pass, and then with the forwarded body. An upstream failure passes its status and text on, a success passes its JSON on, and unreadable JSON goes through Caught. |
| SlitherRoute.OnlyCheckedRequestsForwarded | src/app/api/slither/route.ts:78-97 | Every forwarded file has a path and content. |
| SlitherRoute.Health | src/app/api/slither/route.ts:18-53 | Returns 200 only for an ok JSON reply, and then passes the versions on. Anything else is 503. |
| SlitherRoute.Unhealthy | src/app/api/slither/route.ts:41-52 | Always 503, carrying the error's message or the connection message. |
| ContractInfoRoute.ToV2BaseUrl | src/app/api/contract-info/route.ts:19-22 | The URL is unchanged exactly when it already contains /v2/ or does not end in /api or /api/. Otherwise `/api` is replaced by `/v2/api`. |
| ContractInfoRoute.V2Of | src/app/api/contract-info/route.ts:21 | The result ends in /v2/api. |
| ContractInfoRoute.ToV2Idempotent | src/app/api/contract-info/route.ts:19-22 | Converting twice is converting once. |
| ContractInfoRoute.ToV2Etherscan | src/app/api/contract-info/route.ts:21 | `host/api` becomes `host/v2/api`. |
| ContractInfoRoute.IsDeprecatedV1Error | src/app/api/contract-info/route.ts:24-30 | The lower-cased result and message mention "deprecated" and "v1", or "missing/invalid api key". |
| ContractInfoRoute.RejectedKeyIsDeprecation | src/app/api/contract-info/route.ts:24-30 | A rejected key in the result counts as a deprecation. |
| ContractInfoRoute.DeprecationIgnoresCase | src/app/api/contract-info/route.ts:25 | The test ignores case. |
| ContractInfoRoute.Without | src/app/api/contract-info/route.ts:92-95 | Removes every pair with that key and keeps the others. |
| ContractInfoRoute.WithoutTwice | src/app/api/contract-info/route.ts:94 | Removing twice is removing once. |
| ContractInfoRoute.ReplaceFirstIs | src/app/api/contract-info/route.ts:94 | Overwriting an existing key sets its value and leaves the other pairs alone. |
| ContractInfoRoute.SetParam | src/app/api/contract-info/route.ts:94 | `URLSearchParams.set`: afterwards the key occurs once with the new value, and the other pairs are unchanged. |
| ContractInfoRoute.LookupAppended | src/app/api/contract-info/route.ts:94 | An appended new key is found. |
| ContractInfoRoute.Attempt | src/app/api/contract-info/route.ts:91-99 | A V2 attempt with a chain id sets chainid and changes nothing else. Any other attempt sends the parameters as given. |
| ContractInfoRoute.FetchExplorer | src/app/api/contract-info/route.ts:90-110 | One or two requests. The second is sent exactly when the V1 reply has status "0" and a deprecation message, and it goes to the V2 URL with the chain id. The answer is the last reply. |
| ContractInfoRoute.FirstAttemptPlain | src/app/api/contract-info/route.ts:101-102 | The first attempt adds no chain id. |
| ContractInfoRoute.HexEnd | src/app/api/contract-info/route.ts:164 | The end of the run of hex digits. |
| ContractInfoRoute.DigitsOfNat | src/app/api/contract-info/route.ts:164 | Reading a number's digits gives the number back. |
| ContractInfoRoute.ParseIntOfNat | src/app/api/contract-info/route.ts:164 | `parseInt` of a number's decimal form gives the number. |
| ContractInfoRoute.Runs | src/app/api/contract-info/route.ts:164 | Never 0: an unparseable value or 0 gives 200, and any other number is used as it is. |
| ContractInfoRoute.RunsReported | src/app/api/contract-info/route.ts:164 | A positive run count is reported as it is; "0" and a missing value report 200. |
| ContractInfoRoute.ExplorerInfo | src/app/api/contract-info/route.ts:131-171 | Fails exactly when a reply is missing. Otherwise every field comes from the source result with its fallback: optimisation is true exactly for "1", runs is as Runs states, the deployed bytecode is the result string or "", and the creation fields come from the first creation record when there is one, else "". |
| ContractInfoRoute.AuroraInfo | src/app/api/contract-info/route.ts:48-78 | Fails exactly when a reply is missing or a proxy has no implementations list. Otherwise every field comes from the contract data with its fallback (runs default to 200); the implementation is null for a non-proxy and the first listed one for a proxy; creator and transaction hash come from the first creation record when there is one, else "". |
| ContractInfoRoute.Get | src/app/api/contract-info/route.ts:34-179 | 400 exactly when the address or chain is missing or empty. Every other refusal is a 500 carrying the fetch-failure message. For aurora the answer is Aurora's contract information, and otherwise the explorer's, exactly when it can be built. |
| ContractInfoRoute.PlaceholderKey | src/app/api/contract-info/route.ts:84 | Without a configured key, the placeholder key is sent. |
| SourcePreview.HashEnd | src/components/audit/SourcePreview.tsx:76 | The end of the run of `#`. |
| SourcePreview.MarkerEnd | src/components/audit/SourcePreview.tsx:76 | A header marker exists exactly when the line starts with 1 to 6 `#` followed by white space. |
| SourcePreview.MarkerIsHashRun | src/components/audit/SourcePreview.tsx:76-78 | The marker is the whole leading run of `#`. |
| SourcePreview.HashRunAtLeast | src/components/audit/SourcePreview.tsx:76 | A run of n `#` ends at n. |
| SourcePreview.HeaderText | src/components/audit/SourcePreview.tsx:78 | A line has header text exactly when it has a marker. The text is the trimmed rest of the line. |
| SourcePreview.Dedup | src/components/audit/SourcePreview.tsx:69-89 | Keeps lines of the input only, keeps at least one line, and records every kept header. |
| SourcePreview.DedupLines | src/components/audit/SourcePreview.tsx:69-89 | Never adds lines. |
| SourcePreview.RemoveDuplicateHeaders | src/components/audit/SourcePreview.tsx:69-89 | The loop computes the specification's deduplicated text. |
| SourcePreview.DedupStep | src/components/audit/SourcePreview.tsx:79-85 | A non-header line is kept, a header already seen is dropped, and a new header is kept and recorded. |
| SourcePreview.DedupSeesAll | src/components/audit/SourcePreview.tsx:71-82 | The recorded set is the set of all header texts. |
| SourcePreview.SeenBefore | src/components/audit/SourcePreview.tsx:79 | A header was seen before exactly when the line is not the first with its text. |
| SourcePreview.DedupIsFirstOccurrences | src/components/audit/SourcePreview.tsx:76-82 | The result is the non-header lines plus the first line of each header text, in order. |
| SourcePreview.NonHeadersKept | src/components/audit/SourcePreview.tsx:83-85 | Every non-header line is kept, in order. |
| SourcePreview.DedupDistinct | src/components/audit/SourcePreview.tsx:79-82 | No header text repeats in the result. |
| SourcePreview.DistinctKept | src/components/audit/SourcePreview.tsx:69-89 | Text without repeated headers is unchanged. |
| SourcePreview.DedupLinesIdempotent | src/components/audit/SourcePreview.tsx:69-89 | Deduplicating twice is deduplicating once. |
| SourcePreview.DeduplicatedIdempotent | src/components/audit/SourcePreview.tsx:69-89 | The same holds on whole texts. |
| SourcePreview.FirstLineKept | src/components/audit/SourcePreview.tsx:74-85 | The first line always survives. |
| SourcePreview.FirstOccurrencesStart | src/components/audit/SourcePreview.tsx:74-85 | The first occurrences start with the first line. |
| SourcePreview.WithTitle | src/components/audit/SourcePreview.tsx:458-460 | The result has the title. A text that already has it is unchanged; otherwise the title and a blank line are put in front. |
| SourcePreview.FirstLineStays | src/components/audit/SourcePreview.tsx:457-463 | Deduplication keeps a prepended head line first. |
| SourcePreview.TitleFirst | src/components/audit/SourcePreview.tsx:457-463 | The saved report starts with the title. |
| SourcePreview.AnyStartsWith | src/components/audit/SourcePreview.tsx:403-405 | True exactly when some path starts with the prefix. |
| SourcePreview.IsProxy | src/components/audit/SourcePreview.tsx:403-405 | A proxy exactly when some path starts with `proxy/` and some with `implementation/`. |
| SourcePreview.ReportContractName | src/components/audit/SourcePreview.tsx:408-410 | A non-proxy uses the contract name. A proxy uses the token name, else the implementation name; otherwise the contract name. |
| SourcePreview.ReportFileName | src/components/audit/SourcePreview.tsx:466-481 | Report names start with `report-` and end with `.md`. |
| SourcePreview.WithoutPath | src/components/audit/SourcePreview.tsx:490-492 | Keeps exactly the files with other paths. |
| SourcePreview.PositionsSpec | src/components/audit/SourcePreview.tsx:490-492 | The kept files appear in their original order. |
| SourcePreview.ReplaceReport | src/components/audit/SourcePreview.tsx:488-496 | The report is last and is the only file with its path. The files before it are the other files, in order. |
| SourcePreview.ReplaceReportTwice | src/components/audit/SourcePreview.tsx:488-496 | Replacing the report again changes nothing. |
| SourcePreview.WithoutPathNone | src/components/audit/SourcePreview.tsx:490-492 | Removing an absent path changes nothing. |
| SourcePreview.FinishAnalysis | src/components/audit/SourcePreview.tsx:457-499 | The saved report is the deduplicated, titled analysis under the report name, and it replaces any earlier report. |
| SourcePreview.Find | src/components/audit/SourcePreview.tsx:249-251 | Finds the entry with the key, or none exactly when no entry has it. |
| SourcePreview.Put | src/components/audit/SourcePreview.tsx:249-251 | Setting a key stores the entry and leaves the other keys where they were. |
| SourcePreview.FindUpdate | src/components/audit/SourcePreview.tsx:251 | Overwriting an entry in place keeps every lookup. |
| SourcePreview.FindAppend | src/components/audit/SourcePreview.tsx:249 | A new key is appended at the end. |
| SourcePreview.InsertHas | src/components/audit/SourcePreview.tsx:244-255 | An inserted path is in the tree. |
| SourcePreview.InsertKeeps | src/components/audit/SourcePreview.tsx:244-255 | Inserting keeps every path that is not a prefix of the new one, nor the new one a prefix of it. |
| SourcePreview.OtherKeyKept | src/components/audit/SourcePreview.tsx:251-252 | Paths under another top-level name survive an insertion. |
| SourcePreview.CollectPaths | src/components/audit/SourcePreview.tsx:244-255 | The loop builds the specification's tree. |
| SourcePreview.EveryPathListed | src/components/audit/SourcePreview.tsx:244-255 | Every path of a prefix-free set is in the tree. |
| SourcePreview.Print | src/components/audit/SourcePreview.tsx:258-275 | Every printed line starts with the prefix. |
| SourcePreview.OneLinePerEntry | src/components/audit/SourcePreview.tsx:262-272 | One line per file and directory. |
| SourcePreview.OneLinePerEntryAsWritten | src/components/audit/SourcePreview.tsx:262-272 | The printer as written also prints one line per file and directory. |
| SourcePreview.CountStartingAppend | src/components/audit/SourcePreview.tsx:267 | Line counts add up over concatenation. |
| SourcePreview.OneClosingLine | src/components/audit/SourcePreview.tsx:262-267 | In the corrected printer, each non-empty level has exactly one closing `└──` line. |
| SourcePreview.TwoFiles | src/components/audit/SourcePreview.tsx:244-255 | Two top-level files give a tree of two leaves. |
| SourcePreview.TwoFilesBothClosed | src/components/audit/SourcePreview.tsx:258-277 | As written, two top-level files both get `└──`. The corrected printer gives `├──` then `└──`. |
| SourcePreview.PrintAsWritten | src/components/audit/SourcePreview.tsx:258-275 | `printTree` as written: every printed line starts with the prefix. |
| SourcePreview.EveryLineClosedAsWritten | src/components/audit/SourcePreview.tsx:258-267 | As written, when the parent flag is true every entry of the node gets the closing `└──` line at that depth, one per entry. |
| SourcePreview.Render | src/components/audit/SourcePreview.tsx:267-271 | The text is empty exactly when there are no lines, and it opens with the first line and its line break. |
| SourcePreview.FormatFileTreeAsWritten | src/components/audit/SourcePreview.tsx:240-277 | `formatFileTree` as written: empty exactly when the tree has no entries, otherwise it opens with `└──` and the first entry's name. |
| SourcePreview.FormatFileTree | src/components/audit/SourcePreview.tsx:240-277 | Corrected: empty exactly when the tree has no entries, otherwise it opens with the first entry's name behind `├──`, or `└──` when it is the only entry. |
| SlitherService.PySpaceEnd | slither-service/app.py:197 | The end of the run of Python white space. |
| SlitherService.PyStrip | slither-service/app.py:197 | A stripped string does not start or end with white space. |
| SlitherService.VersionEnd | slither-service/app.py:94-96 | A version match ends after three dot-separated digit runs. |
| SlitherService.VersionEndShape | slither-service/app.py:94-96 | The matched text has the `x.y.z` shape. |
| SlitherService.ShapeOf | slither-service/app.py:94 | Three digit runs joined by dots have the shape. |
| SlitherService.SplitDots | slither-service/app.py:139 | Splitting such a version at dots gives its three parts. |
| SlitherService.AfterSolidity | slither-service/app.py:94-96 | The `pragma solidity` prefix is at least 15 characters. |
| SlitherService.VersionStart | slither-service/app.py:94-96 | The version starts after the prefix and its operator. |
| SlitherService.MatchAtShape | slither-service/app.py:94-96 | Every match of a pattern has the version shape. |
| SlitherService.FirstFound | slither-service/app.py:99-103 | A found value comes from some position. |
| SlitherService.FirstFoundNone | slither-service/app.py:99-103 | Nothing is found exactly when no position matches. |
| SlitherService.FirstFoundAt | slither-service/app.py:99-103 | The first matching position decides. |
| SlitherService.Matches | slither-service/app.py:100 | The matches at every position. |
| SlitherService.SearchShape | slither-service/app.py:100-102 | `re.search` results have the version shape. |
| SlitherService.SearchNone | slither-service/app.py:100 | A search fails exactly when no position matches. |
| SlitherService.SearchFirst | slither-service/app.py:100 | A search returns the first match. |
| SlitherService.DetectSolcVersion | slither-service/app.py:85-105 | The result is the default or has the version shape. A caret (or bare) pragma decides first. Without any match the default is used. |
| SlitherService.ExactIsCaret | slither-service/app.py:94-96 | Every exact-pattern match is also a match of the first pattern. |
| SlitherService.ThirdPatternNeverDecides | slither-service/app.py:93-103 | The detected version is the first pattern's match, else the second's, else the default. The third pattern never decides. |
| SlitherService.DigitRun | slither-service/app.py:94 | A run of digits ends at its first non-digit. |
| SlitherService.DigitsAt | slither-service/app.py:94 | Digits placed at a position end where they stop. |
| SlitherService.VersionAt | slither-service/app.py:94 | A written `x.y.z` is matched to its end. |
| SlitherService.VersionWritten | slither-service/app.py:94 | The same, for a version between any prefix and a non-digit. |
| SlitherService.CaretPragmaHead | slither-service/app.py:94 | `pragma solidity ^` is recognised, and the version starts after the caret and white space. |
| SlitherService.CaretPragmaFirst | slither-service/app.py:94-103 | `pragma solidity ^x.y.z` detects x.y.z. |
| SlitherService.Fallbacks | slither-service/app.py:139-143 | There are six fallback candidates. |
| SlitherService.FirstListed | slither-service/app.py:145-151 | The first candidate that is installed, or none exactly when none is. |
| SlitherService.FirstInstalledFallback | slither-service/app.py:145-151 | The loop finds that first installed candidate. |
| SlitherService.ChooseSolc | slither-service/app.py:108-162 | Without a listing, the default. A version that passes the listing test or installs, and whose `use` does not raise, is used. A raising install gives the default. A failed install gives the first listed fallback when its `use` does not raise, or the default when no fallback is listed. Any other result is the requested version or a listed fallback, and is never one whose `use` raises. |
| SlitherService.Use | slither-service/app.py:119-123 | A version that can be selected is used; otherwise the default. |
| SlitherService.InstallSolcAsWritten | slither-service/app.py:108-162 | As written, with the test at line 118 a substring search of the listing text. A version found in the text or that installs, and whose `use` does not raise, is used. A raising install gives the default. A failed install gives the first fallback found in the text when its `use` does not raise, or the default when none is found. Without a listing, the default. |
| SlitherService.NonSpaceEnd | slither-service/app.py:118 | The end of a word. |
| SlitherService.InstalledVersions | slither-service/app.py:116-118 | One entry per line of the listing. |
| SlitherService.InstallSolc | slither-service/app.py:108-162 | Corrected: the listing test is membership in the listed versions. A listed version, or one that installs, whose `use` does not raise is used. A raising install gives the default. A failed install gives the first listed fallback when its `use` does not raise, or the default when none is listed. Any other result is a listed fallback. |
| SlitherService.PrefixVersionAccepted | slither-service/app.py:118 | As written, 0.8.2 is accepted because "0.8.28" contains it, although it is not installed. |
| SlitherService.PrefixVersionFallsBack | slither-service/app.py:118-151 | Corrected, 0.8.2 falls back to the installed 0.8.28. |
| SlitherService.FirstFallbackOf082 | slither-service/app.py:139-143 | 0.8.28 is the first fallback of 0.8.2. |
| SlitherService.ListingVersions | slither-service/app.py:116 | The listing "0.8.28\n" gives the versions ["0.8.28", ""]. |
| SlitherService.ListingLines | slither-service/app.py:116 | That listing has two lines. |
| SlitherService.FirstWordOfVersion | slither-service/app.py:116 | A version line's first word is the version. |
| SlitherService.MajorMinorOf | slither-service/app.py:139 | The major.minor part of x.y.z is x.y. |
| SlitherService.FirstJsonLine | slither-service/app.py:204-210 | The first line that starts with `{` and parses, or none exactly when no line does. |
| SlitherService.ScanLines | slither-service/app.py:204-210 | The loop finds that first JSON line. |
| SlitherService.RunSlither | slither-service/app.py:165-230 | A timeout and a crash become failure dictionaries. Output that parses is returned; otherwise the first JSON line is; otherwise a failure with the error output. |
| SlitherService.FailureErrorBounded | slither-service/app.py:213-217 | The reported error is the first 2000 characters of the error output. |
| SlitherService.StrField | slither-service/app.py:331-334 | A missing field takes the default, and a string field is used. Anything else is rejected. |
| SlitherService.OptStrField | slither-service/app.py:335-338 | A null optional field is accepted as none. |
| SlitherService.FindingOf | slither-service/app.py:330-339 | Defaults are "unknown", "Unknown", "Unknown" and "". A present impact is kept as given, and elements are objects. |
| SlitherService.FindingsOf | slither-service/app.py:329-340 | One finding per detector, or a failure when some detector is malformed. |
| SlitherService.BuildFindings | slither-service/app.py:328-340 | The loop builds those findings. |
| SlitherService.FailurePropagates | slither-service/app.py:329-340 | A malformed detector fails the whole list. |
| SlitherService.Iterated | slither-service/app.py:329 | Iterating a list gives its items. |
| SlitherService.CountImpact | slither-service/app.py:345-353 | A counter never exceeds the number of findings. |
| SlitherService.SummaryOf | slither-service/app.py:343-354 | total is the number of findings, and each counter counts its impact. |
| SlitherService.CountersBounded | slither-service/app.py:343-354 | The counters sum to at most total, with equality exactly when every impact is one of the five. |
| SlitherService.RawStatus | slither-service/app.py:359-362 | A missing success flag counts as success. |
| SlitherService.Detectors | slither-service/app.py:326 | The detector list is found only inside a dictionary. |
| SlitherService.FirstSol | slither-service/app.py:294-297 | The first `.sol` path, or none exactly when there is none. |
| SlitherService.ContentAt | slither-service/app.py:304-306 | An absent path has empty content. |
| SlitherService.MainFile | slither-service/app.py:291-297 | The requested main file, or else the first `.sol` file. |
| SlitherService.RequestedSolc | slither-service/app.py:300-307 | The requested version, or else the one detected in the main file. |
| SlitherService.Analyze | slither-service/app.py:266-376 | The handler as written, whose reported compiler is the one chosen by the substring test. |
| SlitherService.Handle | slither-service/app.py:266-376 | No files gives 400. A failed write gives the crash response. No `.sol` file gives 400, and only these are errors. When Slither's dictionary cannot be read or validated, the answer is the crash response. Otherwise the findings are those of the detector list, success and error come from the dictionary, the summary is that of the findings, and the compiler is the one chosen for the requested version. |
| SlitherService.AnalyzeIntended | slither-service/app.py:266-376 | The same handler with the intended listing test; its reported compiler is the corrected choice. |
| SlitherService.HandlersAgreeButSolc | slither-service/app.py:309 | The two handlers give the same answer apart from the reported compiler. |
| SlitherService.PrefixVersionReported | slither-service/app.py:309 | A request for 0.8.2 with only 0.8.28 installed is reported as compiled with 0.8.2; the intended handler reports 0.8.28. |
| SlitherService.SilentSlitherFails | slither-service/app.py:199-217 | A run with no output at all is reported as a failure with "No output from Slither" and an empty summary. |

## Left out

- The network. The explorer, model-provider and Slither-service requests are parameters. `analyzeWithSlither`'s fetch and `checkSlitherHealth` are not part of this model.
- The dual-engine orchestrators, the LLM client and `analyzeWithAI` / `analyzeWithNeversight` / `analyzeWithServerProvider`. They only sequence network calls; `src/services/llm/client.ts` is not part of this model.
- The clock. Timestamps and durations are parameters (`now`) or left out.
- The user interface: JSX rendering, toasts, zip and image downloads.
- `getAIConfig` (src/utils/ai.ts:52-58). It returns the raw `JSON.parse` of browser storage with no checks, so nothing can be stated about it.
- Browser storage itself is a parameter (the saved string).
- Subprocesses, temporary directories, file writes, the `/health` and `/detectors` endpoints of the Python service, and `slither --version`. The compiler listing, the install result and the Slither run are inputs.
- `JSON.parse`, `json.loads` and `TextDecoder`. They are function parameters, constrained only where a lemma needs it (a parser that reads quoted strings back).
- UTF-16 surrogate pairs in `JSON.stringify`.
- Strings.ToLower: `toLowerCase` (and `toUpperCase`, `Strings.Upper`) map ASCII letters only. JavaScript also maps non-ASCII letters, and some land in a-z: `İ` becomes `i` followed by a combining dot, and the KELVIN SIGN becomes `k`. On such text `MatchScoring.Tokenize` and `FusionModel.NormSev` would see other words than the model does.
- SlitherService.VersionEnd: Python's `\d` is taken as the ASCII digits; on `str` patterns Python also matches other Unicode decimal digits. White space is not narrowed: `Strings.IsSpace` is JavaScript's full WhiteSpace and LineTerminator set, and `SlitherService.PySpace` is the full set of Python's `str.isspace`.
- The Neversight and OpenAI model tables. `src/utils/ai.ts` imports them from src/utils/neversight-models.ts and src/utils/openai-models.ts, which are not part of this model: the `Catalog` parameter stands for them. Only the DashScope table is modelled literally.
- MatchScoring.MatchScore: the score is a Dafny `real`, not an IEEE double. The rounding of the division in the text term is not modelled.
- Regular expressions. They are modelled as scanners that compute the leftmost match each pattern describes. Backtracking details beyond that are not modelled.
- URL parsing and encoding. A request is a base URL plus an ordered list of query parameters.
- JSON numbers. They are integers only.
- Pydantic coercions other than "string or missing" and "null".
- JavaScript object key order and special keys such as `__proto__`.
- The streaming response's headers.
- Duplicate tokens in matchScore's text term. `MatchScoring.RepeatedWordsAlone` shows the term can exceed its nominal 0.2. This is kept as written, because the fused result depends on it.

## Findings

| source | as written | input that shows it | evidently intended | confidence | as-written member | corrected member |
|---|---|---|---|---|---|---|
| slither-service/app.py:118 | `version in installed` tests for a substring of the listing text | version "0.8.2", listing "0.8.28\n", install fails: 0.8.2 is reported as in use | accept only a version listed as installed | not executed | SlitherService.InstallSolcAsWritten, used by SlitherService.Analyze (shown by SlitherService.PrefixVersionAccepted and SlitherService.PrefixVersionReported) | SlitherService.InstallSolc, used by SlitherService.AnalyzeIntended (SlitherService.PrefixVersionFallsBack) |
| src/components/audit/SourcePreview.tsx:264-270 | the connector is chosen by the parent's `isLast`, not by the entry's own position | paths ["a", "b"]: both lines get `└──` | `├── a` then `└── b` | not executed | SourcePreview.PrintAsWritten, used by SourcePreview.FormatFileTreeAsWritten (shown by SourcePreview.TwoFilesBothClosed and SourcePreview.EveryLineClosedAsWritten) | SourcePreview.Print, used by SourcePreview.FormatFileTree (SourcePreview.OneClosingLine) |
