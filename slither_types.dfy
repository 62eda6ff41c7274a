/** The shape of Slither's JSON output as the analysis service returns it,
    the impact-to-severity mapping offered for display, and the table from
    Slither detector names to SWC Registry identifiers. */
module SlitherTypes {
  import opened Wrappers

  /** Where an element sits in the source: the relative file name (absent or
      empty when Slither gave none) and the source lines it spans. */
  datatype SourceMapping = SourceMapping(filenameRelative: Option<string>, lines: seq<nat>)

  /** A code element a detector points at. */
  datatype SlitherElement = SlitherElement(kind: string, name: string, sourceMapping: Option<SourceMapping>)

  /** One detector hit. `impact` and `confidence` are kept as the strings the
      service sent: the service itself fills in `"Unknown"` when they are missing. */
  datatype SlitherFinding = SlitherFinding(
    check: string,
    impact: string,
    confidence: string,
    description: string,
    elements: seq<SlitherElement>)

  datatype SlitherSummary = SlitherSummary(
    total: int, high: int, medium: int, low: int, informational: int, optimization: int)

  datatype SlitherAnalysisResult = SlitherAnalysisResult(
    success: bool,
    findings: seq<SlitherFinding>,
    summary: SlitherSummary,
    error: Option<string>,
    durationMs: int,
    solcVersion: Option<string>,
    slitherVersion: Option<string>)

  /** The element has a non-empty file name and at least one line: the
      elements whose location is rendered. */
  predicate HasLocation(e: SlitherElement) {
    e.sourceMapping.Some? && e.sourceMapping.value.filenameRelative.Some?
    && e.sourceMapping.value.filenameRelative.value != "" && |e.sourceMapping.value.lines| > 0
  }

  /** The elements of a finding that have a location, in order. */
  function Located(es: seq<SlitherElement>): (r: seq<SlitherElement>)
    ensures |r| <= |es|
    ensures forall k :: 0 <= k < |r| ==> HasLocation(r[k]) && r[k] in es
    ensures (exists k :: 0 <= k < |es| && HasLocation(es[k])) <==> r != []
  {
    if es == [] then []
    else (if HasLocation(es[0]) then [es[0]] else []) + Located(es[1..])
  }

  /** The impact levels Slither reports. */
  datatype SlitherImpact = High | Medium | Low | Informational | Optimization

  /** The confidence levels Slither reports. */
  datatype SlitherConfidence = HighConfidence | MediumConfidence | LowConfidence

  const AllImpacts: seq<SlitherImpact> := [High, Medium, Low, Informational, Optimization]
  const AllConfidences: seq<SlitherConfidence> := [HighConfidence, MediumConfidence, LowConfidence]

  function ImpactName(i: SlitherImpact): string {
    match i
    case High => "High"
    case Medium => "Medium"
    case Low => "Low"
    case Informational => "Informational"
    case Optimization => "Optimization"
  }

  function ConfidenceName(c: SlitherConfidence): string {
    match c
    case HighConfidence => "High"
    case MediumConfidence => "Medium"
    case LowConfidence => "Low"
  }

  /** Reads an impact string back; `None` for anything but the five names. */
  function ParseImpact(s: string): (r: Option<SlitherImpact>)
    ensures r.Some? ==> ImpactName(r.value) == s
    ensures r.None? ==> forall i :: ImpactName(i) != s
  {
    if s == "High" then Some(High)
    else if s == "Medium" then Some(Medium)
    else if s == "Low" then Some(Low)
    else if s == "Informational" then Some(Informational)
    else if s == "Optimization" then Some(Optimization)
    else None
  }

  /** There are exactly five impacts and three confidences, each with its own name. */
  lemma EnumerationsComplete()
    ensures |AllImpacts| == 5 && forall i :: i in AllImpacts
    ensures forall a, b :: ImpactName(a) == ImpactName(b) ==> a == b
    ensures |AllConfidences| == 3 && forall c :: c in AllConfidences
    ensures forall a, b :: ConfidenceName(a) == ConfidenceName(b) ==> a == b
  {
    forall i ensures i in AllImpacts {
      match i
      case High => assert AllImpacts[0] == i;
      case Medium => assert AllImpacts[1] == i;
      case Low => assert AllImpacts[2] == i;
      case Informational => assert AllImpacts[3] == i;
      case Optimization => assert AllImpacts[4] == i;
    }
    forall c ensures c in AllConfidences {
      match c
      case HighConfidence => assert AllConfidences[0] == c;
      case MediumConfidence => assert AllConfidences[1] == c;
      case LowConfidence => assert AllConfidences[2] == c;
    }
  }

  /** Parsing the name of an impact gives the impact back. */
  lemma ParseImpactName(i: SlitherImpact)
    ensures ParseImpact(ImpactName(i)) == Some(i)
  {
  }

  /** `mapSlitherImpactToSeverity`: the display severity of an impact. */
  function MapSlitherImpactToSeverity(impact: string): (r: string)
    ensures r == "Unknown" <==> ParseImpact(impact).None?
    ensures impact == "High" ==> r == "Critical"
    ensures impact == "Optimization" ==> r == "Gas Optimization"
    ensures impact in {"Medium", "Low", "Informational"} ==> r == impact
  {
    match ParseImpact(impact)
    case Some(High) => "Critical"
    case Some(Medium) => "Medium"
    case Some(Low) => "Low"
    case Some(Informational) => "Informational"
    case Some(Optimization) => "Gas Optimization"
    case None => "Unknown"
  }

  /** The display severities of the five impacts are pairwise different. */
  lemma MapSlitherImpactInjective(a: string, b: string)
    requires ParseImpact(a).Some? && ParseImpact(b).Some?
    requires MapSlitherImpactToSeverity(a) == MapSlitherImpactToSeverity(b)
    ensures a == b
  {
  }

  /** `SLITHER_TO_SWC`: detector name to SWC Registry identifier. */
  const SLITHER_TO_SWC: seq<(string, string)> := [
    ("reentrancy-eth", "SWC-107"),
    ("reentrancy-no-eth", "SWC-107"),
    ("reentrancy-benign", "SWC-107"),
    ("reentrancy-events", "SWC-107"),
    ("unchecked-lowlevel", "SWC-104"),
    ("unchecked-send", "SWC-104"),
    ("unprotected-upgrade", "SWC-105"),
    ("suicidal", "SWC-106"),
    ("tx-origin", "SWC-115"),
    ("uninitialized-storage", "SWC-109"),
    ("uninitialized-state", "SWC-109"),
    ("uninitialized-local", "SWC-109"),
    ("timestamp", "SWC-116"),
    ("shadowing-state", "SWC-119"),
    ("shadowing-local", "SWC-119"),
    ("controlled-delegatecall", "SWC-112"),
    ("arbitrary-send-erc20", "SWC-105"),
    ("arbitrary-send-eth", "SWC-105"),
    ("locked-ether", "SWC-132"),
    ("incorrect-equality", "SWC-132"),
    ("write-after-write", "SWC-110")
  ]

  /** The SWC identifier of a detector, absent for detectors not in the table. */
  function SwcOf(check: string): Option<string> {
    Lookup(SLITHER_TO_SWC, check)
  }

  /** A detector has an SWC identifier exactly when the table names it,
      and the identifier is one the table pairs with it. */
  lemma SwcOfSpec(check: string)
    ensures SwcOf(check).Some? <==> exists i :: 0 <= i < |SLITHER_TO_SWC| && SLITHER_TO_SWC[i].0 == check
    ensures SwcOf(check).Some? ==> (check, SwcOf(check).value) in SLITHER_TO_SWC
  {
  }

  /** All four reentrancy detectors map to SWC-107. */
  lemma ReentrancySwc(check: string)
    requires check in ["reentrancy-eth", "reentrancy-no-eth", "reentrancy-benign", "reentrancy-events"]
    ensures SwcOf(check) == Some("SWC-107")
  {
    var t := SLITHER_TO_SWC;
    if check == "reentrancy-eth" { assert t[0] == (check, "SWC-107"); LookupAt(t, 0); }
    else if check == "reentrancy-no-eth" { assert t[1] == (check, "SWC-107"); LookupAt(t, 1); }
    else if check == "reentrancy-benign" { assert t[2] == (check, "SWC-107"); LookupAt(t, 2); }
    else { assert t[3] == (check, "SWC-107"); LookupAt(t, 3); }
  }

  /** Both unchecked-call detectors map to SWC-104. */
  lemma UncheckedCallSwc(check: string)
    requires check in ["unchecked-lowlevel", "unchecked-send"]
    ensures SwcOf(check) == Some("SWC-104")
  {
    var t := SLITHER_TO_SWC;
    if check == "unchecked-lowlevel" { assert t[4] == (check, "SWC-104"); LookupAt(t, 4); }
    else { assert t[5] == (check, "SWC-104"); LookupAt(t, 5); }
  }
}
