/** The unified finding record both engines are brought to, the severity
    scale with its rank, and the lookups and keyword classification the two
    adapters share. */
module FusionModel {
  import opened Wrappers
  import opened Strings
  import SlitherTypes

  /** The unified severity scale, most severe first. */
  datatype Severity = Critical | High | Medium | Low | Informational | Gas

  const SeverityOrder: seq<Severity> := [Critical, High, Medium, Low, Informational, Gas]

  /** Position on the scale: 0 for Critical up to 5 for Gas. */
  function Rank(s: Severity): (r: nat)
    ensures r < |SeverityOrder| && SeverityOrder[r] == s
  {
    match s
    case Critical => 0
    case High => 1
    case Medium => 2
    case Low => 3
    case Informational => 4
    case Gas => 5
  }

  lemma RankInjective(a: Severity, b: Severity)
    requires Rank(a) == Rank(b)
    ensures a == b
  {
  }

  function SeverityName(s: Severity): string {
    match s
    case Critical => "Critical"
    case High => "High"
    case Medium => "Medium"
    case Low => "Low"
    case Informational => "Informational"
    case Gas => "Gas"
  }

  /** The engine a finding came from. */
  datatype Source = Slither | Ai

  datatype Confidence = HighConfidence | MediumConfidence | LowConfidence

  /** The record both engines' findings are normalised to. */
  datatype UnifiedFinding = UnifiedFinding(
    id: string,
    title: string,
    severity: Severity,
    description: string,
    impact: Option<string>,
    location: Option<string>,
    recommendation: Option<string>,
    sources: seq<Source>,
    confidence: Confidence,
    slitherCheck: Option<string>,
    swcId: Option<string>,
    category: Option<string>)

  /** `higherSev`: the more severe of two severities, the first on a tie. */
  function HigherSev(a: Severity, b: Severity): (r: Severity)
    ensures r == a || r == b
    ensures Rank(r) <= Rank(a) && Rank(r) <= Rank(b)
    ensures Rank(a) == Rank(b) ==> r == a
  {
    if Rank(a) <= Rank(b) then a else b
  }

  /** `normSev`: the first of the words critical, high, medium, low, info,
      gas/optim found in the lower-cased text; Medium when none is. */
  function NormSev(raw: string): (r: Severity)
    ensures var l := Trim(ToLower(raw));
      (r == Critical <==> Names(l, Critical)) && (Names(l, r) || r == Medium)
  {
    FirstNamed(Trim(ToLower(raw)))
  }

  /** The chain of tests of `normSev` on the lower-cased, trimmed text. */
  function FirstNamed(l: string): (r: Severity)
    ensures (r == Critical <==> Names(l, Critical)) && (Names(l, r) || r == Medium)
  {
    if Contains(l, "critical") then Critical
    else if Contains(l, "high") then High
    else if Contains(l, "medium") then Medium
    else if Contains(l, "low") then Low
    else if Contains(l, "info") then Informational
    else if Contains(l, "gas") || Contains(l, "optim") then Gas
    else Medium
  }

  /** The lower-cased text names severity `s`: it contains the severity's
      word, or "optim" for Gas. */
  predicate Names(l: string, s: Severity) {
    Contains(l, SevWord(s)) || (s == Gas && Contains(l, "optim"))
  }

  /** `normSev` picks the most severe severity the text names: none ranked
      above the result is named, and text naming none is read as Medium. */
  lemma NormSevFirst(raw: string)
    ensures var l, r := Trim(ToLower(raw)), NormSev(raw);
      (forall s :: Rank(s) < Rank(r) ==> !Names(l, s))
      && (Names(l, r) || forall s :: !Names(l, s))
  {
    FirstNamedFirst(Trim(ToLower(raw)));
  }

  lemma FirstNamedFirst(l: string)
    ensures var r := FirstNamed(l);
      (forall s :: Rank(s) < Rank(r) ==> !Names(l, s))
      && (Names(l, r) || forall s :: !Names(l, s))
  {
    var r := FirstNamed(l);
    forall s | Rank(s) < Rank(r) ensures !Names(l, s) {
      match s
      case Critical =>
      case High =>
      case Medium =>
      case Low =>
      case Informational =>
      case Gas =>
    }
    if !Names(l, r) {
      forall s ensures !Names(l, s) {
        match s
        case Critical =>
        case High =>
        case Medium =>
        case Low =>
        case Informational =>
        case Gas =>
      }
    }
  }

  /** The word `normSev` looks for to choose each severity. */
  function SevWord(s: Severity): string {
    match s
    case Critical => "critical"
    case High => "high"
    case Medium => "medium"
    case Low => "low"
    case Informational => "info"
    case Gas => "gas"
  }

  const IMPACT_SEV: seq<(string, Severity)> := [
    ("High", High), ("Medium", Medium), ("Low", Low),
    ("Informational", Informational), ("Optimization", Gas)
  ]

  /** `impactToSev`: Slither's impact on the unified scale, Medium for any
      value outside the table. */
  function ImpactToSev(impact: string): (r: Severity)
    ensures r != Critical
    ensures SlitherTypes.ParseImpact(impact).None? ==> r == Medium
    ensures impact == "Optimization" ==> r == Gas
    ensures impact in {"High", "Medium", "Low", "Informational"} ==> SeverityName(r) == impact
  {
    Lookup(IMPACT_SEV, impact).GetOr(Medium)
  }

  /** The severity the fusion gives a High-impact detector is High, while the
      display mapping of the Slither types calls it Critical, and the two
      spell the optimization level differently. */
  lemma ImpactMappingsDiffer()
    ensures SeverityName(ImpactToSev("High")) == "High"
    ensures SlitherTypes.MapSlitherImpactToSeverity("High") == "Critical"
    ensures SeverityName(ImpactToSev("Optimization")) == "Gas"
    ensures SlitherTypes.MapSlitherImpactToSeverity("Optimization") == "Gas Optimization"
    ensures forall i :: i in {"Medium", "Low", "Informational"} ==>
      SeverityName(ImpactToSev(i)) == SlitherTypes.MapSlitherImpactToSeverity(i)
  {
  }

  /** `w.charAt(0).toUpperCase() + w.slice(1)` (ASCII letters only). */
  function Capitalize(w: string): string {
    if w == [] then [] else [Upper(w[0])] + w[1..]
  }

  function CapitalizeAll(ws: seq<string>): (r: seq<string>)
    ensures |r| == |ws| && forall i :: 0 <= i < |ws| ==> r[i] == Capitalize(ws[i])
  {
    seq(|ws|, i requires 0 <= i < |ws| => Capitalize(ws[i]))
  }

  /** `fmtCheck`: a detector name as a title, `reentrancy-eth` to `Reentrancy Eth`. */
  function FmtCheck(check: string): string {
    Join(CapitalizeAll(Split(check, '-')), " ")
  }

  /** Each character of `fmtCheck`'s result, read off the detector name. */
  function TitleChar(check: string, i: nat): char
    requires i < |check|
  {
    if check[i] == '-' then ' '
    else if i == 0 || check[i - 1] == '-' then Upper(check[i])
    else check[i]
  }

  /** The first dash splits the title into the first word, a space and the
      title of the rest. */
  lemma FmtCheckStep(check: string, k: nat)
    requires k < |check| && check[k] == '-' && '-' !in check[..k]
    ensures FmtCheck(check) == Capitalize(check[..k]) + " " + FmtCheck(check[k + 1..])
  {
    IndexOfIs(check, '-', k);
    var restParts := Split(check[k + 1..], '-');
    var parts := Split(check, '-');
    assert parts == [check[..k]] + restParts;
    var caps := CapitalizeAll(parts);
    assert |caps| >= 2;
    assert caps[0] == Capitalize(check[..k]);
    assert caps[1..] == CapitalizeAll(restParts);
  }

  /** `fmtCheck` keeps the length, turns every dash into a space, upper-cases
      the first letter of every word and leaves every other character alone. */
  lemma {:induction false} FmtCheckSpec(check: string)
    ensures |FmtCheck(check)| == |check|
    ensures forall i :: 0 <= i < |check| ==> FmtCheck(check)[i] == TitleChar(check, i)
    decreases |check|
  {
    if '-' !in check {
      assert Split(check, '-') == [check];
      assert CapitalizeAll([check]) == [Capitalize(check)];
      assert FmtCheck(check) == Capitalize(check);
      forall i | 0 <= i < |check|
        ensures FmtCheck(check)[i] == TitleChar(check, i)
      {
        assert check[i] in check;
        if i > 0 {
          assert check[i - 1] in check;
        }
      }
    } else {
      var k := IndexOf(check, '-');
      var rest := check[k + 1..];
      FmtCheckStep(check, k);
      FmtCheckSpec(rest);
      FmtCheckJoin(check, k, rest);
    }
  }

  lemma FmtCheckJoin(check: string, k: nat, rest: string)
    requires k < |check| && check[k] == '-' && '-' !in check[..k] && rest == check[k + 1..]
    requires |FmtCheck(rest)| == |rest|
    requires forall i :: 0 <= i < |rest| ==> FmtCheck(rest)[i] == TitleChar(rest, i)
    requires FmtCheck(check) == Capitalize(check[..k]) + " " + FmtCheck(rest)
    ensures |FmtCheck(check)| == |check|
    ensures forall i :: 0 <= i < |check| ==> FmtCheck(check)[i] == TitleChar(check, i)
  {
    var r := FmtCheck(check);
    var a := Capitalize(check[..k]);
    assert |a| == k;
    forall i | 0 <= i < |check|
      ensures r[i] == TitleChar(check, i)
    {
      SpacedIndex(a, FmtCheck(rest), i);
      if i > k {
        assert rest[i - k - 1] == check[i];
        if i - k - 1 > 0 {
          assert rest[i - k - 2] == check[i - 1];
        }
      } else if i < k {
        assert check[i] == check[..k][i];
        if i > 0 {
          assert check[i - 1] == check[..k][i - 1];
        }
      }
    }
  }

  /** Reading one character of two words joined by a space. */
  lemma SpacedIndex(a: string, b: string, i: nat)
    requires i < |a| + 1 + |b|
    ensures i < |a| ==> (a + " " + b)[i] == a[i]
    ensures i == |a| ==> (a + " " + b)[i] == ' '
    ensures i > |a| ==> (a + " " + b)[i] == b[i - |a| - 1]
  {
  }

  /** `VULN_CAT`: vulnerability categories with their keywords, in the order
      the object literal lists them. */
  const VULN_CAT: seq<(string, seq<string>)> := [
    ("reentrancy", ["reentrancy", "reentrant", "re-entrant", "recursive call", "CEI"]),
    ("access-control", ["access control", "authorization", "permission", "onlyowner", "privileged", "unprotected", "tx.origin"]),
    ("integer-overflow", ["overflow", "underflow", "integer", "arithmetic", "SafeMath"]),
    ("unchecked-call", ["unchecked return", "unchecked call", "unchecked send", "low-level call", "return value"]),
    ("oracle-manipulation", ["oracle", "price manipulation", "flash loan", "sandwich", "frontrun", "MEV"]),
    ("timestamp", ["timestamp", "block.timestamp", "time dependence"]),
    ("delegatecall", ["delegatecall", "proxy", "storage collision"]),
    ("dos", ["denial of service", "DoS", "gas limit", "unbounded loop"]),
    ("token-issue", ["ERC20", "ERC721", "approve", "allowance", "fee-on-transfer", "rebasing"]),
    ("initialization", ["uninitiali", "constructor", "initializ"]),
    ("shadowing", ["shadow", "shadowing"]),
    ("gas", ["gas", "optimization", "optimize", "immutable", "constant"])
  ]

  /** Some keyword of the list occurs, case-insensitively, in the lower-cased text. */
  predicate Mentions(lower: string, kws: seq<string>) {
    exists j | 0 <= j < |kws| :: Contains(lower, ToLower(kws[j]))
  }

  /** The first category of the table whose keywords the text mentions. */
  function FirstCategory(lower: string, cats: seq<(string, seq<string>)>): Option<string> {
    if cats == [] then None
    else if Mentions(lower, cats[0].1) then Some(cats[0].0)
    else FirstCategory(lower, cats[1..])
  }

  /** The category found is the first whose keywords are mentioned; none is
      found exactly when no category's keywords are. */
  lemma {:induction false} FirstCategorySpec(lower: string, cats: seq<(string, seq<string>)>)
    ensures var r := FirstCategory(lower, cats);
      r.None? <==> forall k :: 0 <= k < |cats| ==> !Mentions(lower, cats[k].1)
    ensures var r := FirstCategory(lower, cats);
      r.Some? ==> exists k :: (0 <= k < |cats| && cats[k].0 == r.value && Mentions(lower, cats[k].1)
              && forall k' :: 0 <= k' < k ==> !Mentions(lower, cats[k'].1))
  {
    if cats != [] && !Mentions(lower, cats[0].1) {
      FirstCategorySpec(lower, cats[1..]);
      assert forall k :: 1 <= k < |cats| ==> cats[k] == cats[1..][k - 1];
      if FirstCategory(lower, cats).Some? {
        var k :| 0 <= k < |cats[1..]| && cats[1..][k].0 == FirstCategory(lower, cats).value
                 && Mentions(lower, cats[1..][k].1)
                 && forall k' :: 0 <= k' < k ==> !Mentions(lower, cats[1..][k'].1);
        assert cats[k + 1] == cats[1..][k];
      }
    }
  }

  /** `classify`: the first category of `VULN_CAT` one of whose keywords the
      text contains, ignoring case; absent when none does. */
  function Classify(text: string): Option<string> {
    FirstCategory(ToLower(text), VULN_CAT)
  }

  /** What `classify` promises: the category of the earliest table entry
      whose keywords occur in the text, or none when no entry's do. */
  lemma ClassifySpec(text: string)
    ensures var r := Classify(text);
      r.None? <==> forall k :: 0 <= k < |VULN_CAT| ==> !Mentions(ToLower(text), VULN_CAT[k].1)
    ensures var r := Classify(text);
      r.Some? ==> exists k :: (0 <= k < |VULN_CAT| && VULN_CAT[k].0 == r.value
              && Mentions(ToLower(text), VULN_CAT[k].1)
              && forall k' :: 0 <= k' < k ==> !Mentions(ToLower(text), VULN_CAT[k'].1))
  {
    FirstCategorySpec(ToLower(text), VULN_CAT);
  }

  /** `CHECK_CAT`: the category of well-known Slither detectors. */
  const CHECK_CAT: seq<(string, string)> := [
    ("reentrancy-eth", "reentrancy"),
    ("reentrancy-no-eth", "reentrancy"),
    ("reentrancy-benign", "reentrancy"),
    ("reentrancy-events", "reentrancy"),
    ("unchecked-lowlevel", "unchecked-call"),
    ("unchecked-send", "unchecked-call"),
    ("unprotected-upgrade", "access-control"),
    ("suicidal", "access-control"),
    ("tx-origin", "access-control"),
    ("uninitialized-storage", "initialization"),
    ("uninitialized-state", "initialization"),
    ("uninitialized-local", "initialization"),
    ("timestamp", "timestamp"),
    ("shadowing-state", "shadowing"),
    ("shadowing-local", "shadowing"),
    ("controlled-delegatecall", "delegatecall"),
    ("arbitrary-send-erc20", "access-control"),
    ("arbitrary-send-eth", "access-control"),
    ("locked-ether", "dos"),
    ("write-after-write", "gas")
  ]

  /** Every detector `CHECK_CAT` names also has an SWC identifier. */
  lemma CheckCatKeyHasSwc(i: nat)
    requires i < |CHECK_CAT|
    ensures SlitherTypes.SwcOf(CHECK_CAT[i].0).Some?
  {
    if i < 10 {
      CheckCatHeadHasSwc(i);
    } else {
      CheckCatTailHasSwc(i);
    }
  }

  lemma CheckCatHeadHasSwc(i: nat)
    requires i < 10 && i < |CHECK_CAT|
    ensures SlitherTypes.SwcOf(CHECK_CAT[i].0).Some?
  {
    if i == 0 { assert SlitherTypes.SLITHER_TO_SWC[0].0 == CHECK_CAT[i].0; }
    else if i == 1 { assert SlitherTypes.SLITHER_TO_SWC[1].0 == CHECK_CAT[i].0; }
    else if i == 2 { assert SlitherTypes.SLITHER_TO_SWC[2].0 == CHECK_CAT[i].0; }
    else if i == 3 { assert SlitherTypes.SLITHER_TO_SWC[3].0 == CHECK_CAT[i].0; }
    else if i == 4 { assert SlitherTypes.SLITHER_TO_SWC[4].0 == CHECK_CAT[i].0; }
    else if i == 5 { assert SlitherTypes.SLITHER_TO_SWC[5].0 == CHECK_CAT[i].0; }
    else if i == 6 { assert SlitherTypes.SLITHER_TO_SWC[6].0 == CHECK_CAT[i].0; }
    else if i == 7 { assert SlitherTypes.SLITHER_TO_SWC[7].0 == CHECK_CAT[i].0; }
    else if i == 8 { assert SlitherTypes.SLITHER_TO_SWC[8].0 == CHECK_CAT[i].0; }
    else { assert SlitherTypes.SLITHER_TO_SWC[9].0 == CHECK_CAT[i].0; }
  }

  lemma CheckCatTailHasSwc(i: nat)
    requires 10 <= i < |CHECK_CAT|
    ensures SlitherTypes.SwcOf(CHECK_CAT[i].0).Some?
  {
    if i == 10 { assert SlitherTypes.SLITHER_TO_SWC[10].0 == CHECK_CAT[i].0; }
    else if i == 11 { assert SlitherTypes.SLITHER_TO_SWC[11].0 == CHECK_CAT[i].0; }
    else if i == 12 { assert SlitherTypes.SLITHER_TO_SWC[12].0 == CHECK_CAT[i].0; }
    else if i == 13 { assert SlitherTypes.SLITHER_TO_SWC[13].0 == CHECK_CAT[i].0; }
    else if i == 14 { assert SlitherTypes.SLITHER_TO_SWC[14].0 == CHECK_CAT[i].0; }
    else if i == 15 { assert SlitherTypes.SLITHER_TO_SWC[15].0 == CHECK_CAT[i].0; }
    else if i == 16 { assert SlitherTypes.SLITHER_TO_SWC[16].0 == CHECK_CAT[i].0; }
    else if i == 17 { assert SlitherTypes.SLITHER_TO_SWC[17].0 == CHECK_CAT[i].0; }
    else if i == 18 { assert SlitherTypes.SLITHER_TO_SWC[18].0 == CHECK_CAT[i].0; }
    else { assert SlitherTypes.SLITHER_TO_SWC[20].0 == CHECK_CAT[i].0; }
  }

  /** Every category `CHECK_CAT` assigns is a category of `VULN_CAT`. */
  lemma CheckCatValueIsCategory(i: nat)
    requires i < |CHECK_CAT|
    ensures exists k :: 0 <= k < |VULN_CAT| && VULN_CAT[k].0 == CHECK_CAT[i].1
  {
    {
      if i == 0 { assert VULN_CAT[0].0 == CHECK_CAT[i].1; }
      else if i == 1 { assert VULN_CAT[0].0 == CHECK_CAT[i].1; }
      else if i == 2 { assert VULN_CAT[0].0 == CHECK_CAT[i].1; }
      else if i == 3 { assert VULN_CAT[0].0 == CHECK_CAT[i].1; }
      else if i == 4 { assert VULN_CAT[3].0 == CHECK_CAT[i].1; }
      else if i == 5 { assert VULN_CAT[3].0 == CHECK_CAT[i].1; }
      else if i == 6 { assert VULN_CAT[1].0 == CHECK_CAT[i].1; }
      else if i == 7 { assert VULN_CAT[1].0 == CHECK_CAT[i].1; }
      else if i == 8 { assert VULN_CAT[1].0 == CHECK_CAT[i].1; }
      else if i == 9 { assert VULN_CAT[9].0 == CHECK_CAT[i].1; }
      else if i == 10 { assert VULN_CAT[9].0 == CHECK_CAT[i].1; }
      else if i == 11 { assert VULN_CAT[9].0 == CHECK_CAT[i].1; }
      else if i == 12 { assert VULN_CAT[5].0 == CHECK_CAT[i].1; }
      else if i == 13 { assert VULN_CAT[10].0 == CHECK_CAT[i].1; }
      else if i == 14 { assert VULN_CAT[10].0 == CHECK_CAT[i].1; }
      else if i == 15 { assert VULN_CAT[6].0 == CHECK_CAT[i].1; }
      else if i == 16 { assert VULN_CAT[1].0 == CHECK_CAT[i].1; }
      else if i == 17 { assert VULN_CAT[1].0 == CHECK_CAT[i].1; }
      else if i == 18 { assert VULN_CAT[7].0 == CHECK_CAT[i].1; }
      else { assert VULN_CAT[11].0 == CHECK_CAT[i].1; }
    }
  }
}
