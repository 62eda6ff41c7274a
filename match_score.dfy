/** The similarity of a static and a semantic finding (`matchScore`): a
    category match weighs 0.5, a shared source file 0.3 and the overlap of
    the words of title and description 0.2; the sum is capped at 1. */
module MatchScoring {
  import opened Wrappers
  import opened Strings
  import opened FusionModel

  /** The characters of `[\w/.-]`. */
  predicate IsPathChar(c: char) {
    ('a' <= c <= 'z') || ('A' <= c <= 'Z') || ('0' <= c <= '9') || c == '_' || c == '/' || c == '.' || c == '-'
  }

  function PathRunEnd(s: string, i: nat): (e: nat)
    requires i <= |s|
    ensures i <= e <= |s|
    ensures forall k :: i <= k < e ==> IsPathChar(s[k])
    ensures e < |s| ==> !IsPathChar(s[e])
    decreases |s| - i
  {
    if i < |s| && IsPathChar(s[i]) then PathRunEnd(s, i + 1) else i
  }

  /** `run` holds `.sol` just before index `k`. */
  predicate SolEndsAt(run: string, k: nat) {
    4 <= k <= |run| && run[k - 4..k] == ".sol"
  }

  /** The end of the last `.sol` in `run[..e]` with at least one character
      before it: how far the greedy `[\w/.-]+\.sol` reaches inside a run. */
  function LastSolEnd(run: string, e: nat): (r: Option<nat>)
    requires e <= |run|
    ensures r.Some? ==> 5 <= r.value <= e && SolEndsAt(run, r.value)
    ensures r.None? ==> forall k :: 5 <= k <= e ==> !SolEndsAt(run, k)
    decreases e
  {
    if e < 5 then None
    else if SolEndsAt(run, e) then Some(e)
    else LastSolEnd(run, e - 1)
  }

  /** The file names found from index `i` on, one per run of path characters
      that holds a `.sol` with something before it. */
  function FilesFrom(s: string, i: nat): (r: seq<string>)
    requires i <= |s|
    ensures forall k :: 0 <= k < |r| ==> |r[k]| >= 5 && EndsWith(r[k], ".sol")
    ensures forall k :: 0 <= k < |r| ==> forall c :: c in r[k] ==> IsPathChar(c)
    decreases |s| - i
  {
    if i == |s| then []
    else if !IsPathChar(s[i]) then FilesFrom(s, i + 1)
    else
      var e := PathRunEnd(s, i);
      var run := s[i..e];
      match LastSolEnd(run, |run|)
      case Some(k) =>
        assert forall c :: c in run[..k] ==> c in run;
        [run[..k]] + FilesFrom(s, e)
      case None => FilesFrom(s, e)
  }

  /** `getFiles`: the `.sol` file names mentioned in a location. */
  function GetFiles(loc: string): (r: seq<string>)
    ensures forall k :: 0 <= k < |r| ==> |r[k]| >= 5 && EndsWith(r[k], ".sol")
    ensures forall k :: 0 <= k < |r| ==> forall c :: c in r[k] ==> IsPathChar(c)
  {
    FilesFrom(loc, 0)
  }

  function AlnumEnd(s: string, i: nat): (e: nat)
    requires i <= |s|
    ensures i <= e <= |s|
    ensures forall k :: i <= k < e ==> IsLowerAlnum(s[k])
    ensures e < |s| ==> !IsLowerAlnum(s[e])
    decreases |s| - i
  {
    if i < |s| && IsLowerAlnum(s[i]) then AlnumEnd(s, i + 1) else i
  }

  /** The maximal runs of `[a-z0-9]` from index `i` on that are longer than two. */
  function WordsFrom(l: string, i: nat): (r: seq<string>)
    requires i <= |l|
    ensures forall k :: 0 <= k < |r| ==> |r[k]| > 2 && forall c :: c in r[k] ==> IsLowerAlnum(c)
    decreases |l| - i
  {
    if i == |l| then []
    else if !IsLowerAlnum(l[i]) then WordsFrom(l, i + 1)
    else
      var e := AlnumEnd(l, i);
      assert forall c :: c in l[i..e] ==> IsLowerAlnum(c);
      (if e - i > 2 then [l[i..e]] else []) + WordsFrom(l, e)
  }

  /** `tokenize`: the lower-cased words of more than two letters or digits,
      in order and with repetitions. */
  function Tokenize(t: string): (r: seq<string>)
    ensures forall k :: 0 <= k < |r| ==> |r[k]| > 2 && forall c :: c in r[k] ==> IsLowerAlnum(c)
  {
    WordsFrom(ToLower(t), 0)
  }

  /** Two lists of file names share a file: equal names, or one inside the other. */
  predicate FilesOverlap(af: seq<string>, bf: seq<string>) {
    exists x, y | x in af && y in bf :: x == y || Contains(x, y) || Contains(y, x)
  }

  /** The words of `aw` that also occur in `bw`, repetitions included. */
  function Shared(aw: seq<string>, bw: seq<string>): (r: seq<string>)
    ensures |r| <= |aw|
    ensures forall w :: w in r ==> w in aw && w in bw
  {
    if aw == [] then []
    else (if aw[0] in bw then [aw[0]] else []) + Shared(aw[1..], bw)
  }

  /** The number of distinct words of both lists. */
  function UnionSize(aw: seq<string>, bw: seq<string>): nat {
    |(set w | w in aw) + (set w | w in bw)|
  }

  function CategoryWeight(a: UnifiedFinding, b: UnifiedFinding): real {
    if a.category.Some? && a.category.value != "" && b.category.Some? && b.category.value != ""
       && a.category == b.category
    then 0.5 else 0.0
  }

  function LocationWeight(a: UnifiedFinding, b: UnifiedFinding): real {
    if a.location.Some? && a.location.value != "" && b.location.Some? && b.location.value != ""
       && FilesOverlap(GetFiles(a.location.value), GetFiles(b.location.value))
    then 0.3 else 0.0
  }

  /** The word overlap term: shared words over distinct words (or 1), times 0.2. */
  function TextWeight(a: UnifiedFinding, b: UnifiedFinding): (r: real)
    ensures r >= 0.0
  {
    var aw := Tokenize(a.title + " " + a.description);
    var bw := Tokenize(b.title + " " + b.description);
    var u := UnionSize(aw, bw);
    (|Shared(aw, bw)| as real / (if u == 0 then 1 else u) as real) * 0.2
  }

  /** `matchScore`: the weighted similarity, capped at 1. */
  function MatchScore(a: UnifiedFinding, b: UnifiedFinding): (r: real)
    ensures 0.0 <= r <= 1.0
    ensures CategoryWeight(a, b) + LocationWeight(a, b) + TextWeight(a, b) < 1.0 ==>
      r == CategoryWeight(a, b) + LocationWeight(a, b) + TextWeight(a, b)
    ensures CategoryWeight(a, b) + LocationWeight(a, b) + TextWeight(a, b) >= 1.0 ==> r == 1.0
  {
    var s := CategoryWeight(a, b) + LocationWeight(a, b) + TextWeight(a, b);
    if s < 1.0 then s else 1.0
  }

  /** A category match on its own scores exactly 0.5: with no shared file
      and no shared word the pair stays below the strict merge threshold. */
  lemma BareCategoryMatch(a: UnifiedFinding, b: UnifiedFinding)
    requires a.category.Some? && a.category.value != "" && a.category == b.category
    requires a.location.None? || b.location.None?
    requires Shared(Tokenize(a.title + " " + a.description), Tokenize(b.title + " " + b.description)) == []
    ensures MatchScore(a, b) == 0.5
    ensures !(MatchScore(a, b) > 0.5)
  {
    NoSharedWords(a, b);
    assert CategoryWeight(a, b) + LocationWeight(a, b) + TextWeight(a, b) == 0.5;
  }

  /** Without a shared word the word term is 0. */
  lemma NoSharedWords(a: UnifiedFinding, b: UnifiedFinding)
    requires Shared(Tokenize(a.title + " " + a.description), Tokenize(b.title + " " + b.description)) == []
    ensures TextWeight(a, b) == 0.0
  {
  }

  /** Shared words are counted with their repetitions while distinct words
      are counted once, so the word term alone can pass the merge
      threshold: three repetitions of a word against one occurrence give 0.6. */
  lemma RepeatedWordsAlone(a: UnifiedFinding, b: UnifiedFinding, w: string)
    requires a.category.None? && a.location.None?
    requires Tokenize(a.title + " " + a.description) == [w, w, w]
    requires Tokenize(b.title + " " + b.description) == [w]
    ensures MatchScore(a, b) == 0.6
  {
    RepeatedShared(w);
    var aw := Tokenize(a.title + " " + a.description);
    var bw := Tokenize(b.title + " " + b.description);
    assert |Shared(aw, bw)| == 3 && UnionSize(aw, bw) == 1;
    WordTermOfThree();
    assert TextWeight(a, b) == 0.6;
  }

  lemma WordTermOfThree()
    ensures (3 as real / 1 as real) * 0.2 == 0.6
  {
  }

  lemma RepeatedShared(w: string)
    ensures |Shared([w, w, w], [w])| == 3
    ensures UnionSize([w, w, w], [w]) == 1
  {
    assert [w, w, w][1..] == [w, w] && [w, w][1..] == [w] && [w][1..] == [];
    assert Shared([w], [w]) == [w];
    assert Shared([w, w], [w]) == [w, w];
    assert (set x | x in [w, w, w]) + (set x | x in [w]) == {w};
  }
}
