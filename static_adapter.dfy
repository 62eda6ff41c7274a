/** The static adapter: `normSlither` turns Slither's detector results into
    unified findings. */
module StaticAdapter {
  import opened Wrappers
  import opened Strings
  import opened FusionModel
  import ST = SlitherTypes

  /** `file:first-last` for an element with a location. */
  function LocationOf(e: ST.SlitherElement): string
    requires ST.HasLocation(e)
  {
    var sm := e.sourceMapping.value;
    sm.filenameRelative.value + ":" + NatToString(sm.lines[0]) + "-" + NatToString(sm.lines[|sm.lines| - 1])
  }

  function LocationsOf(es: seq<ST.SlitherElement>): (r: seq<string>)
    requires forall k :: 0 <= k < |es| ==> ST.HasLocation(es[k])
    ensures |r| == |es| && forall k :: 0 <= k < |es| ==> r[k] == LocationOf(es[k])
  {
    seq(|es|, k requires 0 <= k < |es| => LocationOf(es[k]))
  }

  /** The location of a finding: the rendered locations joined by `", "`,
      absent when no element has one. */
  function FindingLocation(f: ST.SlitherFinding): (r: Option<string>)
    ensures r.Some? <==> exists k :: 0 <= k < |f.elements| && ST.HasLocation(f.elements[k])
  {
    var locs := LocationsOf(ST.Located(f.elements));
    if |locs| > 0 then Some(Join(locs, ", ")) else None
  }

  /** The id of the static finding in position `i`. */
  function SlitherId(i: nat): string {
    "slither-" + NatToString(i + 1)
  }

  /** What every finding of the static adapter looks like. */
  predicate SlitherShaped(u: UnifiedFinding) {
    u.sources == [Slither] && u.confidence != HighConfidence && u.severity != Critical
    && u.impact.None? && u.recommendation.None? && u.slitherCheck.Some?
  }

  /** How the record of the `i`-th detector hit `f` relates to it: the id
      `slither-(i+1)`, the title formatted from the detector name, the
      elements' locations joined, the severity from the impact table,
      confidence low exactly when Slither's is `"Low"` and medium otherwise, the description
      and detector kept, the detector's SWC identifier, and its category from
      `CHECK_CAT`, falling back to keyword classification of the description. */
  predicate RecordOf(f: ST.SlitherFinding, i: nat, u: UnifiedFinding) {
    && SlitherShaped(u)
    && u.id == SlitherId(i)
    && u.title == FmtCheck(f.check)
    && u.location == FindingLocation(f)
    && u.severity == ImpactToSev(f.impact)
    && (u.confidence == LowConfidence <==> f.confidence == "Low")
    && u.description == f.description
    && u.slitherCheck == Some(f.check)
    && u.swcId == ST.SwcOf(f.check)
    && u.category == StaticCategory(f.check, f.description)
  }

  /** `CHECK_CAT[check] || classify(description)`. */
  function StaticCategory(check: string, description: string): Option<string> {
    OrElse(Lookup(CHECK_CAT, check), Classify(description))
  }

  /** The unified record of the `i`-th detector hit. */
  function StaticFinding(f: ST.SlitherFinding, i: nat): (u: UnifiedFinding)
    ensures RecordOf(f, i, u)
    ensures u.location.Some? <==> exists k :: 0 <= k < |f.elements| && ST.HasLocation(f.elements[k])
  {
    UnifiedFinding(
      SlitherId(i),
      FmtCheck(f.check),
      ImpactToSev(f.impact),
      f.description,
      None,
      FindingLocation(f),
      None,
      [Slither],
      if f.confidence == "Low" then LowConfidence else MediumConfidence,
      Some(f.check),
      ST.SwcOf(f.check),
      StaticCategory(f.check, f.description))
  }

  /** `normSlither`: nothing for a failed run or one without findings;
      otherwise one record per detector hit, in order. */
  function NormSlither(result: ST.SlitherAnalysisResult): (r: seq<UnifiedFinding>)
    ensures !result.success || |result.findings| == 0 ==> r == []
    ensures result.success ==> |r| == |result.findings|
    ensures forall i :: 0 <= i < |r| ==> RecordOf(result.findings[i], i, r[i])
  {
    if !result.success || |result.findings| == 0 then []
    else seq(|result.findings|, i requires 0 <= i < |result.findings| => StaticFinding(result.findings[i], i))
  }

  /** Different positions get different ids. */
  lemma SlitherIdInjective(a: nat, b: nat)
    requires SlitherId(a) == SlitherId(b)
    ensures a == b
  {
    assert SlitherId(a)[8..] == NatToString(a + 1);
    assert SlitherId(b)[8..] == NatToString(b + 1);
    NatToStringInjective(a + 1, b + 1);
  }
}
