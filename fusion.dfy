/** `fuseResults`: greedy one-to-one matching of the static findings against
    the semantic ones, merging of matched pairs, a stable sort by severity
    and corroboration, and the summary counters. */
module Fusion {
  import opened Wrappers
  import opened Strings
  import opened FusionModel
  import opened MatchScoring
  import ST = SlitherTypes
  import SemanticAdapter
  import StaticAdapter

  // ---------------------------------------------------------------- matching

  /** A candidate partner: its index among the semantic findings and its score. */
  datatype Match = Match(index: nat, score: real)

  /** A similarity measure; the fusion uses `MatchScore`, and everything
      proved about the matching holds for any measure. */
  type Scorer = (UnifiedFinding, UnifiedFinding) -> real

  /** The scores of `s` against each semantic finding. */
  function Scores(score: Scorer, s: UnifiedFinding, af: seq<UnifiedFinding>): (r: seq<real>)
    ensures |r| == |af|
    ensures forall i :: 0 <= i < |af| ==> r[i] == score(s, af[i])
  {
    seq(|af|, i requires 0 <= i < |af| => score(s, af[i]))
  }

  /** The partner the inner loop has chosen after looking at the first `n`
      scores: an index not yet used, scoring strictly above 0.5, replaced
      only by a strictly higher score. */
  function BestUpTo(scores: seq<real>, used: set<nat>, n: nat): (r: Option<Match>)
    requires n <= |scores|
    ensures r.Some? ==> r.value.index < n && r.value.index !in used
    ensures r.Some? ==> r.value.score == scores[r.value.index] && r.value.score > 0.5
  {
    if n == 0 then None
    else
      var b := BestUpTo(scores, used, n - 1);
      if n - 1 in used then b
      else
        var sc := scores[n - 1];
        if sc > 0.5 && (b.None? || sc > b.value.score) then Some(Match(n - 1, sc)) else b
  }

  /** The chosen partner is the earliest unused index of the highest score
      above 0.5, and there is none exactly when no unused index scores above 0.5. */
  lemma {:induction false} BestSpec(scores: seq<real>, used: set<nat>, n: nat)
    requires n <= |scores|
    ensures BestUpTo(scores, used, n).None? <==>
      forall i :: 0 <= i < n && i !in used ==> scores[i] <= 0.5
    ensures var r := BestUpTo(scores, used, n);
      r.Some? ==> forall i :: 0 <= i < n && i !in used ==> scores[i] <= r.value.score
    ensures var r := BestUpTo(scores, used, n);
      r.Some? ==> forall i :: 0 <= i < r.value.index && i !in used ==> scores[i] < r.value.score
  {
    if n > 0 {
      BestSpec(scores, used, n - 1);
    }
  }

  /** The id of the record built in position `pos` of the merged list. */
  function FusedId(pos: nat): string {
    "fused-" + NatToString(pos + 1)
  }

  const SLITHER_NOTE: string := "\n\n**Slither:** "

  /** The record of a matched pair `s` (static) and `a` (semantic), built as
      the `pos`-th entry of the merged list. */
  function Merge(s: UnifiedFinding, a: UnifiedFinding, pos: nat): (f: UnifiedFinding)
    ensures f.id == FusedId(pos)
    ensures f.sources == [Slither, Ai] && f.confidence == HighConfidence
    ensures f.severity == s.severity || f.severity == a.severity
    ensures Rank(f.severity) <= Rank(s.severity) && Rank(f.severity) <= Rank(a.severity)
    ensures StartsWith(f.description, a.description) && EndsWith(f.description, s.description)
    ensures f.title == (if a.title != "" then a.title else s.title)
    ensures f.slitherCheck == s.slitherCheck && f.swcId == s.swcId
    ensures f.impact == a.impact && f.recommendation == a.recommendation
    ensures f.location == OrElse(s.location, a.location) && f.category == OrElse(s.category, a.category)
  {
    var d := a.description + SLITHER_NOTE + s.description;
    assert d[..|a.description|] == a.description;
    assert d[|d| - |s.description|..] == s.description;
    UnifiedFinding(
      id := FusedId(pos),
      title := if a.title != "" then a.title else s.title,
      severity := HigherSev(s.severity, a.severity),
      description := d,
      impact := a.impact,
      location := OrElse(s.location, a.location),
      recommendation := a.recommendation,
      sources := [Slither, Ai],
      confidence := HighConfidence,
      slitherCheck := s.slitherCheck,
      swcId := s.swcId,
      category := OrElse(s.category, a.category))
  }

  /** The state of the outer loop: the merged list so far, the indices of
      semantic findings already absorbed, and the number of merges. */
  datatype Greedy = Greedy(merged: seq<UnifiedFinding>, used: set<nat>, xc: nat)

  /** One iteration of the outer loop, for the static finding `s`. */
  function Step(score: Scorer, g: Greedy, s: UnifiedFinding, af: seq<UnifiedFinding>): (r: Greedy)
    ensures |r.merged| == |g.merged| + 1 && r.merged[..|g.merged|] == g.merged
    ensures g.used <= r.used
  {
    match BestUpTo(Scores(score, s, af), g.used, |af|)
    case Some(m) => Greedy(g.merged + [Merge(s, af[m.index], |g.merged|)], g.used + {m.index}, g.xc + 1)
    case None => Greedy(g.merged + [s], g.used, g.xc)
  }

  /** The state after the first `k` static findings. */
  function GreedyUpTo(score: Scorer, sf: seq<UnifiedFinding>, af: seq<UnifiedFinding>, k: nat): (g: Greedy)
    requires k <= |sf|
    ensures |g.merged| == k && g.xc <= k
    ensures |g.used| == g.xc
    ensures forall i :: i in g.used ==> i < |af|
  {
    if k == 0 then Greedy([], {}, 0)
    else Step(score, GreedyUpTo(score, sf, af, k - 1), sf[k - 1], af)
  }

  /** The outer loop only appends: an earlier merged list is a prefix of a later one. */
  lemma {:induction false} GreedyPrefix(score: Scorer, sf: seq<UnifiedFinding>, af: seq<UnifiedFinding>, p: nat, k: nat)
    requires p <= k <= |sf|
    ensures GreedyUpTo(score, sf, af, k).merged[..p] == GreedyUpTo(score, sf, af, p).merged
  {
    if p < k {
      GreedyPrefix(score, sf, af, p, k - 1);
      var m0 := GreedyUpTo(score, sf, af, k - 1).merged;
      var m := GreedyUpTo(score, sf, af, k).merged;
      assert m[..k - 1] == m0;
      assert m[..p] == m0[..p];
    }
  }

  /** An absorbed semantic finding stays absorbed. */
  lemma {:induction false} GreedyUsedGrows(score: Scorer, sf: seq<UnifiedFinding>, af: seq<UnifiedFinding>, p: nat, k: nat)
    requires p <= k <= |sf|
    ensures GreedyUpTo(score, sf, af, p).used <= GreedyUpTo(score, sf, af, k).used
  {
    if p < k {
      GreedyUsedGrows(score, sf, af, p, k - 1);
    }
  }

  /** One step appends its static finding, unchanged or merged with a
      semantic finding it marks as absorbed. */
  lemma StepAppends(score: Scorer, g: Greedy, s: UnifiedFinding, af: seq<UnifiedFinding>)
    ensures var r := Step(score, g, s, af);
      r.merged[|g.merged|] == s
      || exists i :: i in r.used && i < |af| && r.merged[|g.merged|] == Merge(s, af[i], |g.merged|)
  {
    var r := Step(score, g, s, af);
    match BestUpTo(Scores(score, s, af), g.used, |af|)
    case Some(m) =>
      assert r.merged[|g.merged|] == Merge(s, af[m.index], |g.merged|) && m.index in r.used;
    case None =>
  }

  /** Every entry of the merged list is its static finding, unchanged, or
      that finding merged with one absorbed semantic finding. */
  lemma GreedyPositions(score: Scorer, sf: seq<UnifiedFinding>, af: seq<UnifiedFinding>, p: nat)
    requires p < |sf|
    ensures var g := GreedyUpTo(score, sf, af, |sf|);
      g.merged[p] == sf[p] || exists i :: i in g.used && i < |af| && g.merged[p] == Merge(sf[p], af[i], p)
  {
    var g := GreedyUpTo(score, sf, af, |sf|);
    var g0 := GreedyUpTo(score, sf, af, p);
    var g1 := GreedyUpTo(score, sf, af, p + 1);
    GreedyPrefix(score, sf, af, p + 1, |sf|);
    GreedyUsedGrows(score, sf, af, p + 1, |sf|);
    assert g.merged[p] == g1.merged[p] by {
      assert g.merged[p] == g.merged[..p + 1][p];
    }
    StepAppends(score, g0, sf[p], af);
  }

  /** The semantic findings among `af[..n]` that were not absorbed, in order. */
  function Leftover(af: seq<UnifiedFinding>, used: set<nat>, n: nat): (r: seq<UnifiedFinding>)
    requires n <= |af|
    ensures |r| <= n
    ensures forall x :: x in r ==> exists i :: 0 <= i < n && i !in used && af[i] == x
  {
    if n == 0 then []
    else Leftover(af, used, n - 1) + (if n - 1 in used then [] else [af[n - 1]])
  }

  /** The indices below `n` that are in `used`. */
  function UsedBelow(used: set<nat>, n: nat): set<nat> {
    set i | i in used && i < n
  }

  /** Each semantic finding is either absorbed or left over. */
  lemma {:induction false} LeftoverSize(af: seq<UnifiedFinding>, used: set<nat>, n: nat)
    requires n <= |af|
    ensures |Leftover(af, used, n)| + |UsedBelow(used, n)| == n
  {
    if n > 0 {
      LeftoverSize(af, used, n - 1);
      if n - 1 in used {
        assert UsedBelow(used, n) == UsedBelow(used, n - 1) + {n - 1};
      } else {
        assert UsedBelow(used, n) == UsedBelow(used, n - 1);
      }
    }
  }

  /** The merged list before sorting: the outer loop's output followed by
      the semantic findings nobody absorbed. */
  function Combined(score: Scorer, sf: seq<UnifiedFinding>, af: seq<UnifiedFinding>): seq<UnifiedFinding> {
    var g := GreedyUpTo(score, sf, af, |sf|);
    g.merged + Leftover(af, g.used, |af|)
  }

  /** The number of merges. */
  function CrossCount(score: Scorer, sf: seq<UnifiedFinding>, af: seq<UnifiedFinding>): (xc: nat)
    ensures xc <= |sf|
  {
    GreedyUpTo(score, sf, af, |sf|).xc
  }

  /** Every finding is accounted for: each merge turns two findings into
      one, so the list is as long as both inputs less the merges, and no
      semantic finding is absorbed twice. */
  lemma Conservation(score: Scorer, sf: seq<UnifiedFinding>, af: seq<UnifiedFinding>)
    ensures CrossCount(score, sf, af) <= |af|
    ensures |Combined(score, sf, af)| == |sf| + |af| - CrossCount(score, sf, af)
  {
    var g := GreedyUpTo(score, sf, af, |sf|);
    LeftoverSize(af, g.used, |af|);
    assert UsedBelow(g.used, |af|) == g.used;
  }

  // ---------------------------------------------------------------- sorting

  /** The sort key: severity rank, then more sources first. */
  function Key(f: UnifiedFinding): (nat, nat) {
    (Rank(f.severity), |f.sources|)
  }

  /** The comparator `ord[a] - ord[b] || b.sources.length - a.sources.length`
      is negative exactly when the first key comes first. */
  predicate KeyBefore(a: (nat, nat), b: (nat, nat)) {
    a.0 < b.0 || (a.0 == b.0 && a.1 > b.1)
  }

  predicate Before(a: UnifiedFinding, b: UnifiedFinding) {
    KeyBefore(Key(a), Key(b))
  }

  predicate Sorted(fs: seq<UnifiedFinding>) {
    forall i, j :: 0 <= i < j < |fs| ==> !Before(fs[j], fs[i])
  }

  /** Inserts `x` after every entry that does not come strictly after it. */
  function Insert(x: UnifiedFinding, t: seq<UnifiedFinding>): (r: seq<UnifiedFinding>)
    ensures multiset(r) == multiset(t) + multiset{x}
    ensures |r| == |t| + 1
  {
    if t == [] then [x]
    else if Before(x, t[0]) then [x] + t
    else
      assert t == [t[0]] + t[1..];
      [t[0]] + Insert(x, t[1..])
  }

  /** `merged.sort(...)`: the sort is stable, so its result is the stable
      insertion sort of the list. */
  function SortFindings(fs: seq<UnifiedFinding>): (r: seq<UnifiedFinding>)
    ensures multiset(r) == multiset(fs)
  {
    if fs == [] then []
    else
      assert fs == fs[..|fs| - 1] + [fs[|fs| - 1]];
      Insert(fs[|fs| - 1], SortFindings(fs[..|fs| - 1]))
  }

  lemma {:induction false} InsertSorted(x: UnifiedFinding, t: seq<UnifiedFinding>)
    requires Sorted(t)
    ensures Sorted(Insert(x, t))
  {
    if t == [] {
    } else if Before(x, t[0]) {
      ConsSorted(x, t);
    } else {
      InsertSorted(x, t[1..]);
      InsertAfterHead(x, t);
    }
  }

  /** A sorted list stays sorted under a new head that no entry comes before. */
  lemma ConsHead(h: UnifiedFinding, u: seq<UnifiedFinding>)
    requires Sorted(u)
    requires forall e :: e in u ==> !Before(e, h)
    ensures Sorted([h] + u)
  {
    var r := [h] + u;
    forall i, j | 0 <= i < j < |r|
      ensures !Before(r[j], r[i])
    {
      assert r[j] == u[j - 1];
      if i > 0 {
        assert r[i] == u[i - 1];
      }
    }
  }

  /** No entry of a sorted list comes before its head. */
  lemma HeadFirst(t: seq<UnifiedFinding>)
    requires Sorted(t) && t != []
    ensures forall e :: e in t ==> !Before(e, t[0])
  {
    forall e | e in t
      ensures !Before(e, t[0])
    {
      var m :| 0 <= m < |t| && t[m] == e;
      assert m == 0 || !Before(t[m], t[0]);
    }
  }

  /** An entry strictly before the head of a sorted list may go in front of it. */
  lemma ConsSorted(x: UnifiedFinding, t: seq<UnifiedFinding>)
    requires Sorted(t) && t != [] && Before(x, t[0])
    ensures Sorted([x] + t)
  {
    HeadFirst(t);
    ConsHead(x, t);
  }

  /** The head of a sorted list that `x` does not precede stays in front. */
  lemma InsertAfterHead(x: UnifiedFinding, t: seq<UnifiedFinding>)
    requires Sorted(t) && t != [] && !Before(x, t[0]) && Sorted(Insert(x, t[1..]))
    ensures Sorted(Insert(x, t))
  {
    var r' := Insert(x, t[1..]);
    assert Insert(x, t) == [t[0]] + r';
    HeadFirst(t);
    InsertedFrom(x, t[1..]);
    forall e | e in r'
      ensures !Before(e, t[0])
    {
      if e != x {
        var i :| 0 <= i < |t[1..]| && t[1..][i] == e;
        assert t[i + 1] == e;
      }
    }
    ConsHead(t[0], r');
  }

  /** Inserting adds `x` and nothing else. */
  lemma InsertedFrom(x: UnifiedFinding, u: seq<UnifiedFinding>)
    ensures forall e :: e in Insert(x, u) ==> e == x || e in u
  {
    forall e | e in Insert(x, u)
      ensures e == x || e in u
    {
      assert e in multiset(Insert(x, u));
    }
  }

  /** The sorted list is ordered by severity, then by number of sources,
      and holds the same findings as often as the input. */
  lemma {:induction false} SortFindingsSorted(fs: seq<UnifiedFinding>)
    ensures Sorted(SortFindings(fs))
    ensures multiset(SortFindings(fs)) == multiset(fs)
  {
    if fs != [] {
      SortFindingsSorted(fs[..|fs| - 1]);
      InsertSorted(fs[|fs| - 1], SortFindings(fs[..|fs| - 1]));
    }
  }

  /** The findings of one sort key, in order. */
  function WithKey(fs: seq<UnifiedFinding>, k: (nat, nat)): seq<UnifiedFinding> {
    if fs == [] then []
    else (if Key(fs[0]) == k then [fs[0]] else []) + WithKey(fs[1..], k)
  }

  lemma {:induction false} WithKeyAppend(a: seq<UnifiedFinding>, b: seq<UnifiedFinding>, k: (nat, nat))
    ensures WithKey(a + b, k) == WithKey(a, k) + WithKey(b, k)
  {
    if a != [] {
      assert (a + b)[1..] == a[1..] + b;
      WithKeyAppend(a[1..], b, k);
    } else {
      assert a + b == b;
    }
  }

  lemma {:induction false} WithKeyNone(t: seq<UnifiedFinding>, k: (nat, nat))
    requires forall m :: 0 <= m < |t| ==> Key(t[m]) != k
    ensures WithKey(t, k) == []
  {
    if t != [] {
      WithKeyNone(t[1..], k);
    }
  }

  lemma {:induction false} InsertStable(x: UnifiedFinding, t: seq<UnifiedFinding>, k: (nat, nat))
    requires Sorted(t)
    ensures WithKey(Insert(x, t), k) == WithKey(t, k) + (if Key(x) == k then [x] else [])
  {
    if t == [] {
    } else if Before(x, t[0]) {
      InsertFrontStable(x, t, k);
    } else {
      var r' := Insert(x, t[1..]);
      assert Sorted(t[1..]);
      InsertStable(x, t[1..], k);
      assert Insert(x, t) == [t[0]] + r';
      WithKeyCons(t[0], r', k);
      assert t == [t[0]] + t[1..];
      WithKeyCons(t[0], t[1..], k);
      Assoc(if Key(t[0]) == k then [t[0]] else [], WithKey(t[1..], k), if Key(x) == k then [x] else []);
    }
  }

  /** A finding that goes in front keeps its place among the findings of
      its key: no finding of the list has that key. */
  lemma InsertFrontStable(x: UnifiedFinding, t: seq<UnifiedFinding>, k: (nat, nat))
    requires Sorted(t) && t != [] && Before(x, t[0])
    ensures WithKey(Insert(x, t), k) == WithKey(t, k) + (if Key(x) == k then [x] else [])
  {
    if Key(x) == k {
      forall m | 0 <= m < |t|
        ensures Key(t[m]) != k
      {
        assert m == 0 || !Before(t[m], t[0]);
      }
      WithKeyNone(t, k);
    }
    assert Insert(x, t) == [x] + t;
    WithKeyCons(x, t, k);
  }

  lemma WithKeyCons(y: UnifiedFinding, rest: seq<UnifiedFinding>, k: (nat, nat))
    ensures WithKey([y] + rest, k) == (if Key(y) == k then [y] else []) + WithKey(rest, k)
  {
    assert ([y] + rest)[1..] == rest;
  }

  lemma SortSnoc(pre: seq<UnifiedFinding>, x: UnifiedFinding)
    ensures SortFindings(pre + [x]) == Insert(x, SortFindings(pre))
  {
    assert (pre + [x])[..|pre|] == pre;
  }

  lemma WithKeySnoc(pre: seq<UnifiedFinding>, x: UnifiedFinding, k: (nat, nat))
    ensures WithKey(pre + [x], k) == WithKey(pre, k) + (if Key(x) == k then [x] else [])
  {
    WithKeyAppend(pre, [x], k);
    assert [x][1..] == [];
  }

  /** The sort is stable: the findings of any one key keep their relative order. */
  lemma {:induction false} SortFindingsStable(fs: seq<UnifiedFinding>, k: (nat, nat))
    ensures WithKey(SortFindings(fs), k) == WithKey(fs, k)
  {
    if fs != [] {
      var pre, x := fs[..|fs| - 1], fs[|fs| - 1];
      assert fs == pre + [x];
      SortFindingsStable(pre, k);
      SortFindingsSorted(pre);
      SortSnoc(pre, x);
      InsertStable(x, SortFindings(pre), k);
      WithKeySnoc(pre, x, k);
    }
  }

  // ---------------------------------------------------------------- counting

  /** How many findings have key `k` under `key`. */
  function Count<K(==)>(fs: seq<UnifiedFinding>, key: UnifiedFinding -> K, k: K): (n: nat)
    ensures n <= |fs|
  {
    if fs == [] then 0
    else Count(fs[..|fs| - 1], key, k) + (if key(fs[|fs| - 1]) == k then 1 else 0)
  }

  lemma {:induction false} CountAppend<K>(a: seq<UnifiedFinding>, b: seq<UnifiedFinding>, key: UnifiedFinding -> K, k: K)
    ensures Count(a + b, key, k) == Count(a, key, k) + Count(b, key, k)
  {
    if b == [] {
      assert a + b == a;
    } else {
      assert (a + b)[..|a + b| - 1] == a + b[..|b| - 1];
      CountAppend(a, b[..|b| - 1], key, k);
    }
  }

  /** Removing the entry at `j` removes one occurrence of it. */
  lemma RemoveAt(gs: seq<UnifiedFinding>, j: nat)
    requires j < |gs|
    ensures multiset(gs[..j] + gs[j + 1..]) == multiset(gs) - multiset{gs[j]}
  {
    assert gs == gs[..j] + [gs[j]] + gs[j + 1..];
  }

  /** Counting does not depend on the order of the findings. */
  lemma {:induction false} CountPermutation<K>(fs: seq<UnifiedFinding>, gs: seq<UnifiedFinding>, key: UnifiedFinding -> K, k: K)
    requires multiset(fs) == multiset(gs)
    ensures Count(fs, key, k) == Count(gs, key, k)
  {
    if fs == [] {
      assert |gs| == |multiset(gs)| == 0;
    } else {
      var n := |fs| - 1;
      var x := fs[n];
      assert fs == fs[..n] + [x];
      assert x in multiset(gs);
      var j :| 0 <= j < |gs| && gs[j] == x;
      RemoveAt(gs, j);
      var rest := gs[..j] + gs[j + 1..];
      assert multiset(rest) == multiset(fs[..n]);
      CountPermutation(fs[..n], rest, key, k);
      CountSplit(gs, j, key, k);
    }
  }

  lemma CountSplit<K>(gs: seq<UnifiedFinding>, j: nat, key: UnifiedFinding -> K, k: K)
    requires j < |gs|
    ensures Count(gs, key, k) == Count(gs[..j] + gs[j + 1..], key, k) + (if key(gs[j]) == k then 1 else 0)
  {
    var a, x, b := gs[..j], gs[j], gs[j + 1..];
    TakeSnoc(gs, j);
    TakeDrop(gs, j + 1);
    CountAppend(a + [x], b, key, k);
    CountSnoc(a, x, key, k);
    CountAppend(a, b, key, k);
  }

  lemma CountSnoc<K>(a: seq<UnifiedFinding>, x: UnifiedFinding, key: UnifiedFinding -> K, k: K)
    ensures Count(a + [x], key, k) == Count(a, key, k) + (if key(x) == k then 1 else 0)
  {
    assert (a + [x])[..|a|] == a;
  }

  /** Where a finding came from, as the counting loop tells it apart. */
  datatype SourceKind = SlitherOnly | AiOnly | Both

  function KindOf(f: UnifiedFinding): SourceKind {
    if |f.sources| == 2 then Both else if Slither in f.sources then SlitherOnly else AiOnly
  }

  function SeverityOf(f: UnifiedFinding): Severity {
    f.severity
  }

  function ConfidenceOf(f: UnifiedFinding): Confidence {
    f.confidence
  }

  const Confidences: seq<Confidence> := [HighConfidence, MediumConfidence, LowConfidence]

  datatype SourceCounts = SourceCounts(slitherOnly: nat, aiOnly: nat, both: nat)

  datatype FusionSummary = FusionSummary(
    total: nat,
    bySeverity: map<Severity, nat>,
    bySource: SourceCounts,
    byConfidence: map<Confidence, nat>)

  datatype FusionMetadata = FusionMetadata(
    slitherFindingsCount: nat,
    aiFindingsCount: nat,
    deduplicatedCount: nat,
    crossValidatedCount: nat)

  datatype FusionResult = FusionResult(
    findings: seq<UnifiedFinding>,
    summary: FusionSummary,
    metadata: FusionMetadata)

  /** The counters of a list of findings. */
  function SummaryOf(fs: seq<UnifiedFinding>): FusionSummary {
    FusionSummary(
      |fs|,
      map s | s in SeverityOrder :: Count(fs, SeverityOf, s),
      SourceCounts(Count(fs, KindOf, SlitherOnly), Count(fs, KindOf, AiOnly), Count(fs, KindOf, Both)),
      map c | c in Confidences :: Count(fs, ConfidenceOf, c))
  }

  /** Every finding is counted once per counter family. */
  lemma {:induction false} CountsAddUp(fs: seq<UnifiedFinding>)
    ensures Count(fs, SeverityOf, Critical) + Count(fs, SeverityOf, High) + Count(fs, SeverityOf, Medium)
      + Count(fs, SeverityOf, Low) + Count(fs, SeverityOf, Informational) + Count(fs, SeverityOf, Gas) == |fs|
    ensures Count(fs, KindOf, SlitherOnly) + Count(fs, KindOf, AiOnly) + Count(fs, KindOf, Both) == |fs|
    ensures Count(fs, ConfidenceOf, HighConfidence) + Count(fs, ConfidenceOf, MediumConfidence)
      + Count(fs, ConfidenceOf, LowConfidence) == |fs|
  {
    if fs != [] {
      var pre, x := fs[..|fs| - 1], fs[|fs| - 1];
      CountsAddUp(pre);
      assert SeverityOf(x) == x.severity && KindOf(x) == KindOf(x) && ConfidenceOf(x) == x.confidence;
    }
  }

  // ---------------------------------------------------------------- fusion

  /** The static findings: none when there is no analysis result. */
  function StaticInput(slither: Option<ST.SlitherAnalysisResult>): seq<UnifiedFinding> {
    if slither.Some? then StaticAdapter.NormSlither(slither.value) else []
  }

  /** The semantic findings: none when there is no report or it is empty. */
  function SemanticInput(aiReport: Option<string>): seq<UnifiedFinding> {
    if aiReport.Some? && aiReport.value != "" then SemanticAdapter.AIFindingsOf(aiReport.value) else []
  }

  /** What `fuseResults` returns. */
  function FusionOf(slither: Option<ST.SlitherAnalysisResult>, aiReport: Option<string>): FusionResult {
    var sf := StaticInput(slither);
    var af := SemanticInput(aiReport);
    var fs := SortFindings(Combined(MatchScore, sf, af));
    var xc := CrossCount(MatchScore, sf, af);
    FusionResult(fs, SummaryOf(fs), FusionMetadata(|sf|, |af|, xc, xc))
  }

  // ---------------------------------------------------------------- properties

  /** Every finding of the list came from engine `src` alone and is not
      marked high confidence, as each adapter's output is. */
  predicate SingleSource(fs: seq<UnifiedFinding>, src: Source) {
    forall f :: f in fs ==> f.sources == [src] && f.confidence != HighConfidence
  }

  /** Only merged records carry both sources, and exactly they are high confidence. */
  predicate Corroborated(f: UnifiedFinding) {
    (f.sources == [Slither, Ai] || f.sources == [Slither] || f.sources == [Ai])
    && (f.confidence == HighConfidence <==> f.sources == [Slither, Ai])
  }

  lemma CombinedCorroborated(score: Scorer, sf: seq<UnifiedFinding>, af: seq<UnifiedFinding>)
    requires SingleSource(sf, Slither) && SingleSource(af, Ai)
    ensures forall f :: f in Combined(score, sf, af) ==> Corroborated(f)
  {
    var g := GreedyUpTo(score, sf, af, |sf|);
    var l := Leftover(af, g.used, |af|);
    forall f | f in Combined(score, sf, af)
      ensures Corroborated(f)
    {
      if f in g.merged {
        var p :| 0 <= p < |g.merged| && g.merged[p] == f;
        GreedyPositions(score, sf, af, p);
        assert sf[p] in sf;
      } else {
        assert f in l;
        var i :| 0 <= i < |af| && i !in g.used && af[i] == f;
        assert af[i] in af;
      }
    }
  }

  /** The records of `g` split by origin as `k` outer steps leave them:
      one merged record per merge, every other one a static finding. */
  predicate KindsSplit(g: Greedy, k: nat) {
    Count(g.merged, KindOf, Both) == g.xc
    && Count(g.merged, KindOf, SlitherOnly) == k - g.xc
    && Count(g.merged, KindOf, AiOnly) == 0
  }

  /** One outer step adds one record: a merged one when it absorbs a
      semantic finding, the static finding itself otherwise. */
  lemma StepKinds(score: Scorer, g: Greedy, s: UnifiedFinding, af: seq<UnifiedFinding>, k: nat)
    requires s.sources == [Slither] && g.xc <= k && KindsSplit(g, k)
    ensures Step(score, g, s, af).xc <= k + 1
    ensures KindsSplit(Step(score, g, s, af), k + 1)
  {
    match BestUpTo(Scores(score, s, af), g.used, |af|)
    case Some(m) =>
      var f := Merge(s, af[m.index], |g.merged|);
      CountSnoc(g.merged, f, KindOf, Both);
      CountSnoc(g.merged, f, KindOf, SlitherOnly);
      CountSnoc(g.merged, f, KindOf, AiOnly);
    case None =>
      CountSnoc(g.merged, s, KindOf, Both);
      CountSnoc(g.merged, s, KindOf, SlitherOnly);
      CountSnoc(g.merged, s, KindOf, AiOnly);
  }

  /** How the outer loop's output splits by origin. */
  lemma {:induction false} GreedyKinds(score: Scorer, sf: seq<UnifiedFinding>, af: seq<UnifiedFinding>, k: nat)
    requires k <= |sf| && SingleSource(sf, Slither)
    ensures KindsSplit(GreedyUpTo(score, sf, af, k), k)
  {
    if k > 0 {
      GreedyKinds(score, sf, af, k - 1);
      var s := sf[k - 1];
      assert s in sf;
      StepKinds(score, GreedyUpTo(score, sf, af, k - 1), s, af, k - 1);
    }
  }

  /** The leftover semantic findings are all counted as semantic-only. */
  lemma {:induction false} LeftoverKinds(af: seq<UnifiedFinding>, used: set<nat>, n: nat)
    requires n <= |af| && SingleSource(af, Ai)
    ensures var l := Leftover(af, used, n);
      Count(l, KindOf, AiOnly) == |l| && Count(l, KindOf, Both) == 0 && Count(l, KindOf, SlitherOnly) == 0
  {
    if n > 0 {
      LeftoverKinds(af, used, n - 1);
      var l0 := Leftover(af, used, n - 1);
      var x := af[n - 1];
      if n - 1 !in used {
        assert x in af;
        assert KindOf(x) == AiOnly;
        assert Leftover(af, used, n) == l0 + [x];
        CountSnoc(l0, x, KindOf, AiOnly);
        CountSnoc(l0, x, KindOf, Both);
        CountSnoc(l0, x, KindOf, SlitherOnly);
      } else {
        assert Leftover(af, used, n) == l0 + [];
        assert l0 + [] == l0;
      }
    }
  }

  /** The source counters of the fused list: `both` is the number of
      merges, and the rest of each side is counted as single-source. */
  lemma SourceCountsOfCombined(score: Scorer, sf: seq<UnifiedFinding>, af: seq<UnifiedFinding>)
    requires SingleSource(sf, Slither) && SingleSource(af, Ai)
    ensures var c, xc := Combined(score, sf, af), CrossCount(score, sf, af);
      Count(c, KindOf, Both) == xc
      && Count(c, KindOf, SlitherOnly) == |sf| - xc
      && Count(c, KindOf, AiOnly) == |af| - xc
  {
    var g := GreedyUpTo(score, sf, af, |sf|);
    var l := Leftover(af, g.used, |af|);
    GreedyKinds(score, sf, af, |sf|);
    LeftoverKinds(af, g.used, |af|);
    Conservation(score, sf, af);
    CountAppend(g.merged, l, KindOf, Both);
    CountAppend(g.merged, l, KindOf, SlitherOnly);
    CountAppend(g.merged, l, KindOf, AiOnly);
  }

  predicate DistinctIds(fs: seq<UnifiedFinding>) {
    forall i, j :: 0 <= i < j < |fs| ==> fs[i].id != fs[j].id
  }

  /** `fused-` ids of different positions differ. */
  lemma FusedIdInjective(a: nat, b: nat)
    requires FusedId(a) == FusedId(b)
    ensures a == b
  {
    assert FusedId(a)[6..] == NatToString(a + 1);
    assert FusedId(b)[6..] == NatToString(b + 1);
    NatToStringInjective(a + 1, b + 1);
  }

  /** The three id families start with different letters. */
  lemma IdFamiliesDiffer(a: nat, b: nat)
    ensures StaticAdapter.SlitherId(a) != FusedId(b)
    ensures StaticAdapter.SlitherId(a) != SemanticAdapter.AiId(b)
    ensures FusedId(a) != SemanticAdapter.AiId(b)
  {
    assert StaticAdapter.SlitherId(a)[0] == 's';
    assert FusedId(a)[0] == 'f';
    assert SemanticAdapter.AiId(b)[0] == 'a';
    assert FusedId(b)[0] == 'f';
  }

  /** The static findings are numbered `slither-1`, `slither-2`, ... */
  predicate StaticIds(sf: seq<UnifiedFinding>) {
    forall k :: 0 <= k < |sf| ==> sf[k].id == StaticAdapter.SlitherId(k)
  }

  /** The semantic findings are numbered `ai-1`, `ai-2`, ... */
  predicate SemanticIds(af: seq<UnifiedFinding>) {
    forall i :: 0 <= i < |af| ==> af[i].id == SemanticAdapter.AiId(i)
  }

  /** The id of the entry in position `p` of the outer loop's output. */
  lemma GreedyId(score: Scorer, sf: seq<UnifiedFinding>, af: seq<UnifiedFinding>, p: nat)
    requires p < |sf| && StaticIds(sf)
    ensures var g := GreedyUpTo(score, sf, af, |sf|);
      g.merged[p].id == StaticAdapter.SlitherId(p) || g.merged[p].id == FusedId(p)
  {
    GreedyPositions(score, sf, af, p);
  }

  lemma GreedyDistinct(score: Scorer, sf: seq<UnifiedFinding>, af: seq<UnifiedFinding>)
    requires StaticIds(sf)
    ensures DistinctIds(GreedyUpTo(score, sf, af, |sf|).merged)
  {
    var m := GreedyUpTo(score, sf, af, |sf|).merged;
    forall i, j | 0 <= i < j < |m|
      ensures m[i].id != m[j].id
    {
      GreedyId(score, sf, af, i);
      GreedyId(score, sf, af, j);
      IdFamiliesDiffer(i, j);
      IdFamiliesDiffer(j, i);
      if m[i].id == m[j].id {
        if m[i].id == FusedId(i) && m[j].id == FusedId(j) {
          FusedIdInjective(i, j);
        } else {
          StaticAdapter.SlitherIdInjective(i, j);
        }
      }
    }
  }

  /** The leftover findings among the first `n` carry the ids of positions below `n`. */
  lemma {:induction false} LeftoverIds(af: seq<UnifiedFinding>, used: set<nat>, n: nat)
    requires n <= |af| && SemanticIds(af)
    ensures forall f :: f in Leftover(af, used, n) ==> exists i: nat :: i < n && f.id == SemanticAdapter.AiId(i)
  {
    if n > 0 {
      LeftoverIds(af, used, n - 1);
      var l0 := Leftover(af, used, n - 1);
      if n - 1 !in used {
        assert Leftover(af, used, n) == l0 + [af[n - 1]];
      } else {
        assert Leftover(af, used, n) == l0 + [];
        assert l0 + [] == l0;
      }
    }
  }

  /** The leftover findings keep their `ai-` ids, all different. */
  lemma {:induction false} LeftoverDistinct(af: seq<UnifiedFinding>, used: set<nat>, n: nat)
    requires n <= |af| && SemanticIds(af)
    ensures DistinctIds(Leftover(af, used, n))
    ensures forall f :: f in Leftover(af, used, n) ==> exists i: nat :: i < n && f.id == SemanticAdapter.AiId(i)
  {
    LeftoverIds(af, used, n);
    if n > 0 {
      LeftoverDistinct(af, used, n - 1);
      var l0 := Leftover(af, used, n - 1);
      if n - 1 !in used {
        forall i | 0 <= i < |l0|
          ensures l0[i].id != af[n - 1].id
        {
          assert l0[i] in l0;
          var q: nat :| q < n - 1 && l0[i].id == SemanticAdapter.AiId(q);
          if l0[i].id == af[n - 1].id {
            SemanticAdapter.AiIdInjective(q, n - 1);
          }
        }
        assert Leftover(af, used, n) == l0 + [af[n - 1]];
        DistinctAppend(l0, af[n - 1]);
      } else {
        assert Leftover(af, used, n) == l0 + [];
        assert l0 + [] == l0;
      }
    }
  }

  /** A finding whose id no earlier one has keeps the ids distinct. */
  lemma DistinctAppend(l: seq<UnifiedFinding>, x: UnifiedFinding)
    requires DistinctIds(l)
    requires forall i :: 0 <= i < |l| ==> l[i].id != x.id
    ensures DistinctIds(l + [x])
  {
    var t := l + [x];
    forall i, j | 0 <= i < j < |t|
      ensures t[i].id != t[j].id
    {
      assert t[i] == l[i];
      if j < |l| { assert t[j] == l[j]; } else { assert t[j] == x; }
    }
  }

  /** No `slither-` or `fused-` id is an `ai-` id. */
  lemma CrossDistinct(m: seq<UnifiedFinding>, l: seq<UnifiedFinding>)
    requires forall i :: 0 <= i < |m| ==> m[i].id == StaticAdapter.SlitherId(i) || m[i].id == FusedId(i)
    requires forall e :: e in l ==> exists q: nat :: e.id == SemanticAdapter.AiId(q)
    ensures forall i, j :: 0 <= i < |m| && 0 <= j < |l| ==> m[i].id != l[j].id
  {
    forall i, j | 0 <= i < |m| && 0 <= j < |l|
      ensures m[i].id != l[j].id
    {
      assert l[j] in l;
      var q: nat :| l[j].id == SemanticAdapter.AiId(q);
      IdFamiliesDiffer(i, q);
    }
  }

  lemma AppendDistinct(a: seq<UnifiedFinding>, b: seq<UnifiedFinding>)
    requires DistinctIds(a) && DistinctIds(b)
    requires forall i, j :: 0 <= i < |a| && 0 <= j < |b| ==> a[i].id != b[j].id
    ensures DistinctIds(a + b)
  {
    var c := a + b;
    forall i, j | 0 <= i < j < |c|
      ensures c[i].id != c[j].id
    {
      if j < |a| {
        assert c[i] == a[i] && c[j] == a[j];
      } else if i >= |a| {
        assert c[i] == b[i - |a|] && c[j] == b[j - |a|];
      } else {
        assert c[i] == a[i] && c[j] == b[j - |a|];
      }
    }
  }

  /** Ids stay unique across the fused list. */
  lemma CombinedDistinct(score: Scorer, sf: seq<UnifiedFinding>, af: seq<UnifiedFinding>)
    requires StaticIds(sf) && SemanticIds(af)
    ensures DistinctIds(Combined(score, sf, af))
  {
    var g := GreedyUpTo(score, sf, af, |sf|);
    var l := Leftover(af, g.used, |af|);
    GreedyDistinct(score, sf, af);
    LeftoverDistinct(af, g.used, |af|);
    forall i | 0 <= i < |g.merged|
      ensures g.merged[i].id == StaticAdapter.SlitherId(i) || g.merged[i].id == FusedId(i)
    {
      GreedyId(score, sf, af, i);
    }
    CrossDistinct(g.merged, l);
    AppendDistinct(g.merged, l);
  }

  lemma ConsDistinct(h: UnifiedFinding, u: seq<UnifiedFinding>)
    requires DistinctIds(u) && forall e :: e in u ==> e.id != h.id
    ensures DistinctIds([h] + u)
  {
    var r := [h] + u;
    forall i, j | 0 <= i < j < |r|
      ensures r[i].id != r[j].id
    {
      assert r[j] == u[j - 1] && r[j] in u;
      if i > 0 {
        assert r[i] == u[i - 1];
      }
    }
  }

  lemma {:induction false} InsertDistinct(x: UnifiedFinding, t: seq<UnifiedFinding>)
    requires DistinctIds(t) && forall e :: e in t ==> e.id != x.id
    ensures DistinctIds(Insert(x, t))
  {
    if t == [] {
    } else if Before(x, t[0]) {
      ConsDistinct(x, t);
    } else {
      assert t[1..] == t[1..];
      forall e | e in t[1..]
        ensures e.id != x.id
      {
        assert e in t;
      }
      InsertDistinct(x, t[1..]);
      var r' := Insert(x, t[1..]);
      forall e | e in r'
        ensures e.id != t[0].id
      {
        assert e in multiset(r');
        if e != x {
          assert e in multiset(t[1..]);
          var m :| 0 <= m < |t[1..]| && t[1..][m] == e;
          assert t[m + 1] == e;
        } else {
          assert t[0] in t;
        }
      }
      ConsDistinct(t[0], r');
    }
  }

  /** A rearrangement holds the same entries. */
  lemma SameEntries(a: seq<UnifiedFinding>, b: seq<UnifiedFinding>, e: UnifiedFinding)
    requires multiset(a) == multiset(b) && e in a
    ensures e in b
  {
    assert e in multiset(a);
  }

  lemma DistinctSnoc(pre: seq<UnifiedFinding>, x: UnifiedFinding)
    requires DistinctIds(pre + [x])
    ensures DistinctIds(pre) && forall e :: e in pre ==> e.id != x.id
  {
    var fs := pre + [x];
    forall i, j | 0 <= i < j < |pre|
      ensures pre[i].id != pre[j].id
    {
      assert fs[i] == pre[i] && fs[j] == pre[j];
    }
    forall e | e in pre
      ensures e.id != x.id
    {
      var m :| 0 <= m < |pre| && pre[m] == e;
      assert fs[m] == e && fs[|pre|] == x;
    }
  }

  /** Sorting keeps ids unique. */
  lemma {:induction false} SortDistinct(fs: seq<UnifiedFinding>)
    requires DistinctIds(fs)
    ensures DistinctIds(SortFindings(fs))
  {
    if fs != [] {
      var pre, x := fs[..|fs| - 1], fs[|fs| - 1];
      var sp := SortFindings(pre);
      assert fs == pre + [x];
      DistinctSnoc(pre, x);
      SortDistinct(pre);
      SortSnoc(pre, x);
      forall e | e in sp
        ensures e.id != x.id
      {
        SameEntries(sp, pre, e);
      }
      InsertDistinct(x, sp);
    }
  }

  /** With no semantic findings nothing is merged and the static findings
      pass through in order. */
  lemma {:induction false} NoSemanticFindings(score: Scorer, sf: seq<UnifiedFinding>, k: nat)
    requires k <= |sf|
    ensures GreedyUpTo(score, sf, [], k) == Greedy(sf[..k], {}, 0)
  {
    if k > 0 {
      NoSemanticFindings(score, sf, k - 1);
      assert sf[..k] == sf[..k - 1] + [sf[k - 1]];
    }
  }

  /** With no static findings the semantic ones pass through in order. */
  lemma {:induction false} NoStaticFindings(af: seq<UnifiedFinding>, n: nat)
    requires n <= |af|
    ensures Leftover(af, {}, n) == af[..n]
  {
    if n > 0 {
      NoStaticFindings(af, n - 1);
      assert af[..n] == af[..n - 1] + [af[n - 1]];
    }
  }

  /** When only one engine produced findings, the fusion is the stable sort
      of that engine's findings, with nothing merged. */
  lemma OneEngine(score: Scorer, sf: seq<UnifiedFinding>, af: seq<UnifiedFinding>)
    requires sf == [] || af == []
    ensures Combined(score, sf, af) == sf + af
    ensures CrossCount(score, sf, af) == 0
  {
    if af == [] {
      NoSemanticFindings(score, sf, |sf|);
      assert sf[..|sf|] == sf;
    } else {
      NoStaticFindings(af, |af|);
      assert af[..|af|] == af;
    }
  }

  // ---------------------------------------------------------------- the result

  /** What the two adapters produce satisfies the assumptions above. */
  lemma InputsWellFormed(slither: Option<ST.SlitherAnalysisResult>, aiReport: Option<string>)
    ensures SingleSource(StaticInput(slither), Slither) && StaticIds(StaticInput(slither))
    ensures SingleSource(SemanticInput(aiReport), Ai) && SemanticIds(SemanticInput(aiReport))
  {
    var sf := StaticInput(slither);
    forall f | f in sf
      ensures f.sources == [Slither] && f.confidence != HighConfidence
    {
      var i :| 0 <= i < |sf| && sf[i] == f;
    }
    var af := SemanticInput(aiReport);
    if aiReport.Some? && aiReport.value != "" {
      SemanticAdapter.AIFindingsOfSpec(aiReport.value);
      forall f | f in af
        ensures f.sources == [Ai] && f.confidence != HighConfidence
      {
        var i :| 0 <= i < |af| && af[i] == f;
      }
    }
  }

  /** The fused findings are sorted by severity and then by number of
      sources, hold every finding of the two engines once (each merge
      replacing a pair by one record), have unique ids, and are high
      confidence exactly when both engines reported them. */
  lemma FusionFindings(slither: Option<ST.SlitherAnalysisResult>, aiReport: Option<string>)
    ensures var r := FusionOf(slither, aiReport);
      Sorted(r.findings) && DistinctIds(r.findings)
      && |r.findings| == r.metadata.slitherFindingsCount + r.metadata.aiFindingsCount - r.metadata.deduplicatedCount
      && r.metadata.deduplicatedCount <= r.metadata.aiFindingsCount
      && r.metadata.deduplicatedCount <= r.metadata.slitherFindingsCount
      && forall f :: f in r.findings ==> Corroborated(f)
  {
    var sf, af := StaticInput(slither), SemanticInput(aiReport);
    var c := Combined(MatchScore, sf, af);
    InputsWellFormed(slither, aiReport);
    SortFindingsSorted(c);
    Conservation(MatchScore, sf, af);
    CombinedDistinct(MatchScore, sf, af);
    SortDistinct(c);
    CombinedCorroborated(MatchScore, sf, af);
    forall f | f in SortFindings(c)
      ensures Corroborated(f)
    {
      assert f in multiset(SortFindings(c));
    }
  }

  /** The summary counts every fused finding once per family, and the
      `both` counter equals the number of merges. */
  lemma FusionSummaryCounts(slither: Option<ST.SlitherAnalysisResult>, aiReport: Option<string>)
    ensures var r := FusionOf(slither, aiReport);
      var xc := r.metadata.crossValidatedCount;
      r.summary.total == |r.findings|
      && r.summary.bySource.both == xc
      && r.summary.bySource.slitherOnly == r.metadata.slitherFindingsCount - xc
      && r.summary.bySource.aiOnly == r.metadata.aiFindingsCount - xc
      && r.summary.bySource.slitherOnly + r.summary.bySource.aiOnly + r.summary.bySource.both == r.summary.total
  {
    var sf, af := StaticInput(slither), SemanticInput(aiReport);
    var c := Combined(MatchScore, sf, af);
    var fs := SortFindings(c);
    InputsWellFormed(slither, aiReport);
    SourceCountsOfCombined(MatchScore, sf, af);
    CountPermutation(fs, c, KindOf, Both);
    CountPermutation(fs, c, KindOf, SlitherOnly);
    CountPermutation(fs, c, KindOf, AiOnly);
    CountsAddUp(fs);
  }

  /** The severity and confidence counters each add up to the total. */
  lemma SummaryAddsUp(fs: seq<UnifiedFinding>)
    ensures var m := SummaryOf(fs).bySeverity;
      m.Keys == set s | s in SeverityOrder
      && m[Critical] + m[High] + m[Medium] + m[Low] + m[Informational] + m[Gas] == |fs|
    ensures var m := SummaryOf(fs).byConfidence;
      m[HighConfidence] + m[MediumConfidence] + m[LowConfidence] == |fs|
  {
    CountsAddUp(fs);
  }

  // ---------------------------------------------------------------- methods

  /** The inner loop of `fuseResults`: the best unused partner of `s`. */
  method BestMatch(score: Scorer, s: UnifiedFinding, af: seq<UnifiedFinding>, used: set<nat>) returns (best: Option<Match>)
    ensures best == BestUpTo(Scores(score, s, af), used, |af|)
  {
    best := None;
    for i := 0 to |af|
      invariant best == BestUpTo(Scores(score, s, af), used, i)
    {
      if i !in used {
        var sc := score(s, af[i]);
        if sc > 0.5 && (best.None? || sc > best.value.score) {
          best := Some(Match(i, sc));
        }
      }
    }
  }

  /** The outer loop of `fuseResults`: each static finding in turn takes
      its best partner, if any, out of the semantic findings. */
  method MatchAll(score: Scorer, sf: seq<UnifiedFinding>, af: seq<UnifiedFinding>)
    returns (merged: seq<UnifiedFinding>, used: set<nat>, xc: nat)
    ensures Greedy(merged, used, xc) == GreedyUpTo(score, sf, af, |sf|)
  {
    used := {};
    merged := [];
    xc := 0;
    for k := 0 to |sf|
      invariant Greedy(merged, used, xc) == GreedyUpTo(score, sf, af, k)
    {
      var s := sf[k];
      var best := BestMatch(score, s, af, used);
      if best.Some? {
        var a := af[best.value.index];
        used := used + {best.value.index};
        xc := xc + 1;
        merged := merged + [Merge(s, a, |merged|)];
      } else {
        merged := merged + [s];
      }
    }
  }

  /** The loop that appends the semantic findings nobody absorbed. */
  method AppendLeftover(merged: seq<UnifiedFinding>, af: seq<UnifiedFinding>, used: set<nat>)
    returns (out: seq<UnifiedFinding>)
    ensures out == merged + Leftover(af, used, |af|)
  {
    out := merged;
    for i := 0 to |af|
      invariant out == merged + Leftover(af, used, i)
    {
      if i !in used {
        out := out + [af[i]];
      }
    }
  }

  /** The counting loop of `fuseResults`. */
  method Summarize(fs: seq<UnifiedFinding>) returns (summary: FusionSummary)
    ensures summary == SummaryOf(fs)
  {
    var bySev: map<Severity, nat> := map[Critical := 0, High := 0, Medium := 0, Low := 0, Informational := 0, Gas := 0];
    var byCon: map<Confidence, nat> := map[HighConfidence := 0, MediumConfidence := 0, LowConfidence := 0];
    var so, ao, bo := 0, 0, 0;
    forall s: Severity
      ensures s in bySev && s in SeverityOrder
    {
      var r := Rank(s);
    }
    forall c: Confidence
      ensures c in byCon && c in Confidences
    {
      assert c == HighConfidence || c == MediumConfidence || c == LowConfidence;
    }
    assert fs[..0] == [];
    for i := 0 to |fs|
      invariant forall s :: s in bySev && bySev[s] == Count(fs[..i], SeverityOf, s)
      invariant forall c :: c in byCon && byCon[c] == Count(fs[..i], ConfidenceOf, c)
      invariant so == Count(fs[..i], KindOf, SlitherOnly)
      invariant ao == Count(fs[..i], KindOf, AiOnly)
      invariant bo == Count(fs[..i], KindOf, Both)
    {
      var f := fs[i];
      assert fs[..i + 1] == fs[..i] + [f];
      forall s
        ensures Count(fs[..i + 1], SeverityOf, s) == Count(fs[..i], SeverityOf, s) + (if f.severity == s then 1 else 0)
      {
        CountSnoc(fs[..i], f, SeverityOf, s);
      }
      forall c
        ensures Count(fs[..i + 1], ConfidenceOf, c) == Count(fs[..i], ConfidenceOf, c) + (if f.confidence == c then 1 else 0)
      {
        CountSnoc(fs[..i], f, ConfidenceOf, c);
      }
      CountSnoc(fs[..i], f, KindOf, SlitherOnly);
      CountSnoc(fs[..i], f, KindOf, AiOnly);
      CountSnoc(fs[..i], f, KindOf, Both);
      bySev := bySev[f.severity := bySev[f.severity] + 1];
      byCon := byCon[f.confidence := byCon[f.confidence] + 1];
      if |f.sources| == 2 {
        bo := bo + 1;
      } else if Slither in f.sources {
        so := so + 1;
      } else {
        ao := ao + 1;
      }
    }
    assert fs[..|fs|] == fs;
    summary := FusionSummary(|fs|, bySev, SourceCounts(so, ao, bo), byCon);
  }

  /** `fuseResults`. The static findings come from `normSlither` when an
      analysis result is given; the semantic ones from `parseAIFindings`
      when a non-empty report is given. */
  method FuseResults(slither: Option<ST.SlitherAnalysisResult>, aiReport: Option<string>) returns (r: FusionResult)
    ensures r == FusionOf(slither, aiReport)
  {
    var sf := StaticInput(slither);
    var af: seq<UnifiedFinding> := [];
    if aiReport.Some? && aiReport.value != "" {
      af := SemanticAdapter.ParseAIFindings(aiReport.value);
    }
    assert af == SemanticInput(aiReport);
    var merged, used, xc := MatchAll(MatchScore, sf, af);
    merged := AppendLeftover(merged, af, used);
    merged := SortFindings(merged);
    var summary := Summarize(merged);
    r := FusionResult(merged, summary, FusionMetadata(|sf|, |af|, xc, xc));
  }
}
