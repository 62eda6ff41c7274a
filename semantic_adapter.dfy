/** The semantic adapter: `parseAIFindings` reads the findings out of the
    markdown report an LLM wrote. The report is cut before every `### `
    heading line; each section with a `**Severity**` field and a heading
    outside the narrative denylist becomes one finding. */
module SemanticAdapter {
  import opened Wrappers
  import opened Strings
  import opened FusionModel

  /** The characters of `s` that are not white space, in order. */
  function NonSpace(s: string): (r: string)
    ensures |r| <= |s|
  {
    if s == [] then [] else (if IsSpace(s[0]) then [] else [s[0]]) + NonSpace(s[1..])
  }

  lemma {:induction false} NonSpaceAppend(a: string, b: string)
    ensures NonSpace(a + b) == NonSpace(a) + NonSpace(b)
  {
    if a == [] {
      assert a + b == b;
    } else {
      assert (a + b)[1..] == a[1..] + b;
      NonSpaceAppend(a[1..], b);
    }
  }

  lemma {:induction false} NonSpaceOfSpaces(a: string)
    requires forall k :: 0 <= k < |a| ==> IsSpace(a[k])
    ensures NonSpace(a) == []
  {
    if a != [] {
      NonSpaceOfSpaces(a[1..]);
    }
  }

  /** Dropping a leading run of white space keeps the other characters. */
  lemma {:induction false} NonSpaceSkip(s: string, e: nat)
    requires e <= |s| && forall k :: 0 <= k < e ==> IsSpace(s[k])
    ensures NonSpace(s) == NonSpace(s[e..])
  {
    assert s == s[..e] + s[e..];
    NonSpaceAppend(s[..e], s[e..]);
    NonSpaceOfSpaces(s[..e]);
  }

  /** `.replace(/\n/g, " ").replace(/\s+/g, " ")`: every run of white space
      becomes a single space. */
  function Collapse(s: string): (r: string)
    ensures |r| <= |s| && (r == [] <==> s == [])
    ensures r != [] ==> (IsSpace(r[0]) <==> IsSpace(s[0]))
    ensures forall i :: 0 <= i < |r| && IsSpace(r[i]) ==> r[i] == ' '
    ensures forall i :: 0 <= i < |r| - 1 ==> !(IsSpace(r[i]) && IsSpace(r[i + 1]))
    ensures NonSpace(r) == NonSpace(s)
    decreases |s|
  {
    if s == [] then []
    else if IsSpace(s[0]) then
      var e := SpaceEnd(s, 0);
      var c := Collapse(s[e..]);
      NonSpaceSkip(s, e);
      assert ([' '] + c)[1..] == c;
      [' '] + c
    else
      var c := Collapse(s[1..]);
      assert ([s[0]] + c)[1..] == c;
      [s[0]] + c
  }

  /** Trimmed, free of newlines and of two white-space characters in a row:
      the shape of every extracted field. */
  predicate Clean(s: string) {
    '\n' !in s
    && (forall i :: 0 <= i < |s| && IsSpace(s[i]) ==> s[i] == ' ')
    && (forall i :: 0 <= i < |s| - 1 ==> !(IsSpace(s[i]) && IsSpace(s[i + 1])))
    && (s != [] ==> !IsSpace(s[0]) && !IsSpace(s[|s| - 1]))
  }

  /** `Trim(c)` is the slice of `c` between two runs of white space. */
  lemma {:induction false} TrimSlice(c: string) returns (a: nat)
    ensures a + |Trim(c)| <= |c| && Trim(c) == c[a..a + |Trim(c)|]
    ensures forall k :: 0 <= k < a ==> IsSpace(c[k])
    ensures forall k :: a + |Trim(c)| <= k < |c| ==> IsSpace(c[k])
  {
    var t := TrimStart(c);
    a := |c| - |t|;
    var r := TrimEnd(t);
    assert Trim(c) == r;
    SliceOfSlice(c, a, t, r);
  }

  /** A prefix of a suffix is a slice, and the suffix's tail lies in the
      original after the slice. */
  lemma SliceOfSlice(c: string, a: nat, t: string, r: string)
    requires a <= |c| && t == c[a..] && |r| <= |t| && r == t[..|r|]
    requires forall i :: |r| <= i < |t| ==> IsSpace(t[i])
    ensures a + |r| <= |c| && r == c[a..a + |r|]
    ensures forall k :: a + |r| <= k < |c| ==> IsSpace(c[k])
  {
    forall k | a + |r| <= k < |c|
      ensures IsSpace(c[k])
    {
      assert c[k] == t[k - a];
    }
  }

  /** A slice of a string with single spaces as its only white space has the same property. */
  lemma SliceKeepsSpacing(c: string, a: nat, r: string)
    requires a + |r| <= |c| && r == c[a..a + |r|]
    requires forall i :: 0 <= i < |c| && IsSpace(c[i]) ==> c[i] == ' '
    requires forall i :: 0 <= i < |c| - 1 ==> !(IsSpace(c[i]) && IsSpace(c[i + 1]))
    ensures '\n' !in r
    ensures forall i :: 0 <= i < |r| && IsSpace(r[i]) ==> r[i] == ' '
    ensures forall i :: 0 <= i < |r| - 1 ==> !(IsSpace(r[i]) && IsSpace(r[i + 1]))
  {
    assert forall i :: 0 <= i < |r| ==> r[i] == c[a + i];
  }

  lemma SliceSplit(c: string, a: nat, b: nat)
    requires a <= b <= |c|
    ensures c[a..] == c[a..b] + c[b..]
  {
  }

  /** Dropping a trailing run of white space keeps the other characters. */
  lemma {:induction false} NonSpaceDropTail(s: string, b: nat)
    requires b <= |s| && forall k :: b <= k < |s| ==> IsSpace(s[k])
    ensures NonSpace(s[..b]) == NonSpace(s)
  {
    var pre, post := s[..b], s[b..];
    assert s == pre + post;
    assert forall k :: 0 <= k < |post| ==> post[k] == s[b + k];
    NonSpaceOfSpaces(post);
    NonSpaceAppend(pre, post);
  }

  /** White space around a slice adds nothing to its other characters. */
  lemma {:induction false} NonSpaceSliced(c: string, a: nat, b: nat)
    requires a <= b <= |c|
    requires forall k :: 0 <= k < a ==> IsSpace(c[k])
    requires forall k :: b <= k < |c| ==> IsSpace(c[k])
    ensures NonSpace(c[a..b]) == NonSpace(c)
  {
    NonSpaceSkip(c, a);
    var d := c[a..];
    assert forall k :: b - a <= k < |d| ==> d[k] == c[a + k];
    NonSpaceDropTail(d, b - a);
    assert d[..b - a] == c[a..b];
  }

  /** Trimming removes white space only. */
  lemma TrimNonSpace(c: string)
    ensures NonSpace(Trim(c)) == NonSpace(c)
  {
    var r := Trim(c);
    var a := TrimSlice(c);
    NonSpaceSliced(c, a, a + |r|);
  }

  lemma TrimKeepsClean(c: string)
    requires forall i :: 0 <= i < |c| && IsSpace(c[i]) ==> c[i] == ' '
    requires forall i :: 0 <= i < |c| - 1 ==> !(IsSpace(c[i]) && IsSpace(c[i + 1]))
    ensures Clean(Trim(c))
  {
    var a := TrimSlice(c);
    SliceKeepsSpacing(c, a, Trim(c));
  }

  /** The clean-up applied to a captured value: the same non-space
      characters, in a clean shape. */
  function Normalize(s: string): (r: string)
    ensures Clean(r)
    ensures NonSpace(r) == NonSpace(s)
  {
    var c := Collapse(s);
    TrimKeepsClean(c);
    TrimNonSpace(c);
    Trim(c)
  }

  predicate IsDashOrStar(c: char) { c == '-' || c == '*' }

  function DashStarEnd(t: string, i: nat): (e: nat)
    requires i <= |t|
    ensures i <= e <= |t|
    ensures forall k :: i <= k < e ==> IsDashOrStar(t[k])
    ensures e < |t| ==> !IsDashOrStar(t[e])
    decreases |t| - i
  {
    if i < |t| && IsDashOrStar(t[i]) then DashStarEnd(t, i + 1) else i
  }

  /** The line starting at `i` opens another field (`[-*]*\s*\*\*`). */
  predicate FieldLineAt(t: string, i: nat)
    requires i <= |t|
  {
    var a := DashStarEnd(t, i);
    Contains(t[i..a], "**") || StartsWith(t[SpaceEnd(t, a)..], "**")
  }

  /** A field's value may end just before index `e`: at the end of the text,
      or at a newline that starts another field, a `###` heading or a `---` rule. */
  predicate StopAt(t: string, e: nat)
    requires e <= |t|
  {
    e == |t|
    || (t[e] == '\n'
        && (FieldLineAt(t, e + 1) || StartsWith(t[e + 1..], "###") || StartsWith(t[e + 1..], "---")))
  }

  /** The first place at or after `e` where a value may end (the lazy `(.+?)`). */
  function ValueEnd(t: string, e: nat): (r: nat)
    requires 0 < e <= |t|
    ensures e <= r <= |t| && StopAt(t, r)
    ensures forall k :: e <= k < r ==> !StopAt(t, k)
    decreases |t| - e
  {
    if StopAt(t, e) then e else ValueEnd(t, e + 1)
  }

  /** A label `**Field**` or `**Field:**` (the name in any case) starts at
      `q`; the result is the index after its closing `**`. */
  function LabelEnd(t: string, field: string, q: nat): (r: Option<nat>)
    ensures r.Some? ==> q + 4 + |field| <= r.value <= |t|
  {
    if q + 2 + |field| <= |t| && t[q..q + 2] == "**" && MatchesAtIgnoreCase(t, q + 2, field) then
      var j := q + 2 + |field|;
      var k := if j < |t| && t[j] == ':' then j + 1 else j;
      if k + 2 <= |t| && t[k..k + 2] == "**" then Some(k + 2) else None
    else None
  }

  /** The value captured after a label that ends at `m`: past an optional
      colon and white space it runs to the first place a value may end. When
      nothing is left there, the pattern gives back one white-space character,
      or else the colon. */
  function CaptureAfter(t: string, m: nat): (r: Option<string>)
    requires m <= |t|
    ensures r.Some? ==> r.value != []
  {
    var c := if m < |t| && t[m] == ':' then m + 1 else m;
    var v := SpaceEnd(t, c);
    if v < |t| then Some(t[v..ValueEnd(t, v + 1)])
    else if v > c then Some(t[v - 1..v])
    else if c > m then Some(":")
    else None
  }

  function CaptureAt(t: string, field: string, q: nat): Option<string> {
    match LabelEnd(t, field, q)
    case Some(m) => CaptureAfter(t, m)
    case None => None
  }

  /** The capture at the first label from `q` on that yields one. */
  function FirstCapture(t: string, field: string, q: nat): (r: Option<string>)
    ensures r.None? ==> forall p :: q <= p <= |t| ==> CaptureAt(t, field, p).None?
    ensures r.Some? ==> exists p :: q <= p <= |t| && CaptureAt(t, field, p) == r
    decreases |t| + 1 - q
  {
    if q > |t| then None
    else
      match CaptureAt(t, field, q)
      case Some(v) => Some(v)
      case None => FirstCapture(t, field, q + 1)
  }

  /** `extractField(text, field)`: the value of the first `**Field**` label,
      with its white space folded and trimmed; absent when no label has one. */
  function ExtractField(text: string, field: string): (r: Option<string>)
    ensures r.Some? ==> Clean(r.value)
  {
    match FirstCapture(text, field, 0)
    case Some(v) => Some(Normalize(v))
    case None => None
  }

  /** A field is found exactly when some label in the text yields a capture. */
  lemma ExtractFieldFound(text: string, field: string)
    ensures ExtractField(text, field).Some? <==> exists p :: 0 <= p <= |text| && CaptureAt(text, field, p).Some?
  {
    if FirstCapture(text, field, 0).Some? {
      var p :| 0 <= p <= |text| && CaptureAt(text, field, p) == FirstCapture(text, field, 0);
    }
  }

  /** The report is cut before every line that starts with `###` and white
      space (the split on `(?=^###\s)` in multi-line mode). */
  predicate CutAt(s: string, p: nat) {
    0 < p && p + 3 < |s| && IsLineTerminator(s[p - 1]) && s[p..p + 3] == "###" && IsSpace(s[p + 3])
  }

  function NextCut(s: string, p: nat): (r: nat)
    requires p <= |s|
    ensures p <= r <= |s|
    ensures r < |s| ==> CutAt(s, r)
    ensures forall k :: p <= k < r ==> !CutAt(s, k)
    decreases |s| - p
  {
    if p == |s| || CutAt(s, p) then p else NextCut(s, p + 1)
  }

  /** A section that opens at a cut: `###` followed by white space. */
  predicate Opens(t: string) {
    |t| > 3 && t[..3] == "###" && IsSpace(t[3])
  }

  /** How `split(/(?=^###\s)/m)` cuts a text: no piece is empty, every piece
      after the first opens with `###` and white space right after a line
      terminator, and no piece holds a cut of its own. */
  predicate CutSections(r: seq<string>) {
    (forall k :: 0 <= k < |r| ==> r[k] != [])
    && (forall k :: 0 <= k < |r| - 1 ==> r[k] != [] && IsLineTerminator(r[k][|r[k]| - 1]))
    && (forall k :: 0 < k < |r| ==> Opens(r[k]))
    && (forall k, p :: 0 <= k < |r| && 0 < p < |r[k]| ==> !CutAt(r[k], p))
  }

  /** A cut inside a slice is a cut of the whole text. */
  lemma CutInSlice(s: string, start: nat, e: nat, p: nat)
    requires start <= e <= |s|
    ensures CutAt(s[start..e], p) ==> CutAt(s, start + p)
  {
    var t := s[start..e];
    if CutAt(t, p) {
      assert t[p - 1] == s[start + p - 1] && t[p + 3] == s[start + p + 3];
      assert t[p..p + 3] == s[start + p..start + p + 3] by {
        assert t[p] == s[start + p] && t[p + 1] == s[start + p + 1] && t[p + 2] == s[start + p + 2];
      }
    }
  }

  /** A slice of the text between two cuts holds no cut of its own. */
  lemma NoCutInside(s: string, start: nat, e: nat)
    requires start < e <= |s|
    requires forall k :: start < k < e ==> !CutAt(s, k)
    ensures forall p :: 0 < p < e - start ==> !CutAt(s[start..e], p)
  {
    forall p | 0 < p < e - start
      ensures !CutAt(s[start..e], p)
    {
      CutInSlice(s, start, e, p);
    }
  }

  /** The piece that starts at a cut runs past its `###` and white space. */
  lemma OpensAtCut(s: string, start: nat)
    requires start < |s|
    ensures CutAt(s, start) ==> Opens(s[start..NextCut(s, start + 1)])
  {
    if CutAt(s, start) {
      var e := NextCut(s, start + 1);
      assert s[start..e][..3] == s[start..start + 3];
    }
  }

  lemma CutSectionsCons(h: string, rest: seq<string>)
    requires h != [] && CutSections(rest)
    requires forall p :: 0 < p < |h| ==> !CutAt(h, p)
    requires rest != [] ==> Opens(rest[0]) && IsLineTerminator(h[|h| - 1])
    ensures CutSections([h] + rest)
  {
    var r := [h] + rest;
    assert forall k :: 0 < k < |r| ==> r[k] == rest[k - 1];
  }

  /** The facts about one piece, cut at `e`, before the pieces that follow. */
  lemma HeadPiece(s: string, start: nat, e: nat, rest: seq<string>)
    requires start < e <= |s| && e == NextCut(s, start + 1)
    requires CutSections(rest) && (e < |s| <==> rest != [])
    requires rest != [] ==> Opens(rest[0])
    ensures CutSections([s[start..e]] + rest)
    ensures CutAt(s, start) ==> Opens(s[start..e])
  {
    NoCutInside(s, start, e);
    OpensAtCut(s, start);
    var h := s[start..e];
    assert h[|h| - 1] == s[e - 1];
    CutSectionsCons(h, rest);
  }

  /** The sections from index `start` on. */
  function SectionsFrom(s: string, start: nat): (r: seq<string>)
    requires start < |s|
    ensures |r| >= 1
    ensures Concat(r) == s[start..]
    ensures CutSections(r)
    ensures CutAt(s, start) ==> Opens(r[0])
    decreases |s| - start
  {
    var e := NextCut(s, start + 1);
    if e == |s| then
      assert s[start..e] == s[start..];
      ConcatOne(s[start..e]);
      HeadPiece(s, start, e, []);
      [s[start..e]] + []
    else
      var rest := SectionsFrom(s, e);
      ConcatAppend([s[start..e]], rest);
      ConcatOne(s[start..e]);
      SliceSplit(s, start, e);
      HeadPiece(s, start, e, rest);
      [s[start..e]] + rest
  }

  /** The sections of a report: put back together they are the report, and
      the cuts fall exactly before the lines that start with `###` and white
      space. */
  function Sections(report: string): (r: seq<string>)
    ensures Concat(r) == report
    ensures CutSections(r)
  {
    if report == [] then [] else SectionsFrom(report, 0)
  }

  lemma NextCutIs(s: string, p: nat, e: nat)
    requires p <= e <= |s|
    requires forall k :: p <= k < e ==> !CutAt(s, k)
    requires e == |s| || CutAt(s, e)
    ensures NextCut(s, p) == e
    decreases e - p
  {
    if p < e {
      NextCutIs(s, p + 1, e);
    }
  }

  /** A cut of the whole text that lies inside a slice is a cut of the slice. */
  lemma CutOfSlice(s: string, start: nat, e: nat, q: nat)
    requires start < q && q + 3 < e <= |s|
    ensures CutAt(s, q) ==> CutAt(s[start..e], q - start)
  {
    var t, p := s[start..e], q - start;
    assert t[p - 1] == s[q - 1] && t[p + 3] == s[q + 3];
    assert t[p..p + 3] == s[q..q + 3] by {
      assert t[p] == s[q] && t[p + 1] == s[q + 1] && t[p + 2] == s[q + 2];
    }
  }

  lemma SplitAt(s: string, start: nat, h: string, x: string)
    requires start <= |s| && s[start..] == h + x
    ensures start + |h| <= |s| && s[start..start + |h|] == h && s[start + |h|..] == x
  {
    assert s[start..][..|h|] == h;
    assert s[start..][|h|..] == x;
  }

  lemma ConcatCons(r: seq<string>)
    requires r != []
    ensures Concat(r) == r[0] + Concat(r[1..])
  {
    assert r == [r[0]] + r[1..];
    ConcatAppend([r[0]], r[1..]);
    ConcatOne(r[0]);
  }

  lemma CutSectionsTail(r: seq<string>)
    requires r != [] && CutSections(r)
    ensures CutSections(r[1..])
  {
    assert forall k :: 0 <= k < |r| - 1 ==> r[1..][k] == r[k + 1];
  }

  lemma HashAt(s: string, q: nat, i: nat)
    requires q <= i < q + 3 <= |s|
    ensures s[q..q + 3] == "###" ==> s[i] == '#'
  {
    assert s[i] == s[q..q + 3][i - q];
  }

  lemma OpensAt(s: string, e: nat, t: string)
    requires e + |t| <= |s| && s[e..e + |t|] == t && Opens(t)
    ensures CutAt(s, e) <==> 0 < e && IsLineTerminator(s[e - 1])
  {
    assert s[e..e + 3] == t[..3];
    assert s[e + 3] == t[3];
  }

  /** No cut of the whole text falls inside the first piece of a cutting. */
  lemma NoCutInFirst(s: string, start: nat, r: seq<string>, q: nat)
    requires r != [] && CutSections(r)
    requires start + |r[0]| <= |s| && s[start..start + |r[0]|] == r[0]
    requires |r| == 1 ==> start + |r[0]| == |s|
    requires start < q < start + |r[0]|
    ensures !CutAt(s, q)
  {
    var h, e := r[0], start + |r[0]|;
    if q + 3 < e {
      CutOfSlice(s, start, e, q);
    } else if q + 3 <= |s| {
      HashAt(s, q, e - 1);
      assert |r| > 1 ==> s[e - 1] == h[|h| - 1];
    }
  }

  /** The first piece of a cutting ends where the adapter cuts. */
  lemma FirstPieceEnd(s: string, start: nat, r: seq<string>)
    requires r != [] && CutSections(r)
    requires start + |r[0]| <= |s| && s[start..start + |r[0]|] == r[0]
    requires Concat(r[1..]) == s[start + |r[0]|..]
    ensures NextCut(s, start + 1) == start + |r[0]|
  {
    var h, e := r[0], start + |r[0]|;
    if |r| == 1 {
      assert r[1..] == [];
    } else {
      ConcatCons(r[1..]);
      SplitAt(s, e, r[1], Concat(r[2..]));
      assert s[e - 1] == h[|h| - 1];
      OpensAt(s, e, r[1]);
    }
    forall q | start + 1 <= q < e
      ensures !CutAt(s, q)
    {
      NoCutInFirst(s, start, r, q);
    }
    NextCutIs(s, start + 1, e);
  }

  lemma SectionsFromStep(s: string, start: nat, e: nat)
    requires start < e < |s| && e == NextCut(s, start + 1)
    ensures SectionsFrom(s, start) == [s[start..e]] + SectionsFrom(s, e)
  {
  }

  lemma SectionsFromLast(s: string, start: nat)
    requires start < |s| && NextCut(s, start + 1) == |s|
    ensures SectionsFrom(s, start) == [s[start..]]
  {
    assert s[start..|s|] == s[start..];
  }

  /** Any cutting of the text from `start` with the properties of
      `CutSections` is the one `SectionsFrom` computes. */
  lemma {:induction false} SectionsFromUnique(s: string, start: nat, r: seq<string>)
    requires start < |s| && r != []
    requires Concat(r) == s[start..] && CutSections(r)
    ensures r == SectionsFrom(s, start)
    decreases |r|
  {
    ConcatCons(r);
    SplitAt(s, start, r[0], Concat(r[1..]));
    var e := start + |r[0]|;
    FirstPieceEnd(s, start, r);
    if |r| == 1 {
      assert s[e..] == Concat([]);
      SectionsFromLast(s, start);
      Cons(r);
    } else {
      ConcatCons(r[1..]);
      assert |s[e..]| == |r[1]| + |Concat(r[2..])|;
      CutSectionsTail(r);
      SectionsFromUnique(s, e, r[1..]);
      SectionsFromStep(s, start, e);
      Cons(r);
    }
  }

  /** The sections of a report are the only cutting with those properties:
      `Sections` is exactly the split before every `###` heading line. */
  lemma SectionsUnique(report: string, r: seq<string>)
    requires Concat(r) == report && CutSections(r)
    ensures r == Sections(report)
  {
    if r != [] {
      if report == [] {
        ConcatCons(r);
      } else {
        assert report[0..] == report;
        SectionsFromUnique(report, 0, r);
      }
    }
  }

  /** The heading text of a trimmed section (`/^###\s+(.+?)$/m`): after `###`
      and white space, the rest of that line. Later lines of a section never
      start with `###` and white space, because the report was cut there. */
  function Heading(t: string): (r: Option<string>)
    ensures r.Some? ==> r.value != [] && forall k :: 0 <= k < |r.value| ==> !IsLineTerminator(r.value[k])
  {
    if |t| > 3 && t[..3] == "###" && IsSpace(t[3]) then
      var j := SpaceEnd(t, 3);
      if j < |t| then Some(t[j..LineEnd(t, j)]) else None
    else None
  }

  /** The heading without `[` and `]`. */
  function RemoveBrackets(h: string): (r: string)
    ensures '[' !in r && ']' !in r
  {
    if h == [] then []
    else (if h[0] == '[' || h[0] == ']' then [] else [h[0]]) + RemoveBrackets(h[1..])
  }

  /** The heading without a leading `12.` and the white space after it. */
  function StripNumber(h: string): string {
    var d := DigitEnd(h, 0);
    if 0 < d < |h| && h[d] == '.' then h[SpaceEnd(h, d + 1)..] else h
  }

  /** The raw title of a section. */
  function RawTitle(h: string): string {
    Trim(StripNumber(RemoveBrackets(h)))
  }

  /** The words that mark a narrative section rather than a finding. */
  const NON_FINDING_WORDS: seq<string> := [
    "about", "overview", "summary", "introduction", "detailed analysis",
    "architecture", "code quality", "final recommendation", "improved code",
    "conclusion", "centralization", "systemic", "testing", "severity breakdown"
  ]

  /** `isNonFinding`: the lower-cased title contains a denylist word anywhere. */
  predicate IsNonFinding(title: string) {
    exists j | 0 <= j < |NON_FINDING_WORDS| :: Contains(ToLower(title), NON_FINDING_WORDS[j])
  }

  /** An extracted optional field: absent, or present, non-empty and clean. */
  predicate CleanField(f: Option<string>) {
    f.Some? ==> f.value != "" && Clean(f.value)
  }

  /** What every finding of the semantic adapter looks like. */
  predicate AiShaped(f: UnifiedFinding) {
    f.sources == [Ai] && f.confidence == MediumConfidence && f.title != ""
    && CleanField(f.impact) && CleanField(f.location) && CleanField(f.recommendation)
    && f.slitherCheck.None? && f.swcId.None?
  }

  /** The record built from a section `t` with a non-empty title and a
      severity field. */
  function AiRecord(t: string, title: string, sev: string): (f: UnifiedFinding)
    requires title != ""
    ensures AiShaped(f) && f.id == "" && f.title == title && f.severity == NormSev(sev)
  {
    var desc := ExtractField(t, "Description");
    UnifiedFinding(
      "",
      title,
      NormSev(sev),
      Or(desc, t),
      OrElse(ExtractField(t, "Impact"), None),
      OrElse(ExtractField(t, "Location"), None),
      OrElse(ExtractField(t, "Recommendation"), None),
      [Ai],
      MediumConfidence,
      None,
      None,
      Classify(title + " " + Or(desc, "")))
  }

  /** The finding of a trimmed section whose heading gave the raw title `raw`:
      present exactly when the title (the Title field, or else `raw`) and the
      Severity field are both non-empty. */
  function FindingOf(t: string, raw: string): (r: Option<UnifiedFinding>)
    ensures r.Some? <==>
      (Or(ExtractField(t, "Title"), raw) != ""
       && ExtractField(t, "Severity").Some? && ExtractField(t, "Severity").value != "")
    ensures r.Some? ==>
      (AiShaped(r.value) && r.value.id == ""
       && r.value.title == Or(ExtractField(t, "Title"), raw)
       && r.value.severity == NormSev(ExtractField(t, "Severity").value))
  {
    var sev := ExtractField(t, "Severity");
    var title := Or(ExtractField(t, "Title"), raw);
    if title == "" || sev.None? || sev.value == "" then None
    else Some(AiRecord(t, title, sev.value))
  }

  /** The finding one section yields, still without its id; `None` for a
      section that is skipped. */
  function SectionFinding(sec: string): (r: Option<UnifiedFinding>)
    ensures r.Some? ==> AiShaped(r.value) && r.value.id == ""
  {
    var t := Trim(sec);
    if t == [] || !StartsWith(t, "###") then None
    else
      match Heading(t)
      case None => None
      case Some(h) => if IsNonFinding(RawTitle(h)) then None else FindingOf(t, RawTitle(h))
  }

  /** A section yields a finding exactly when, trimmed, it has a `###`
      heading whose title is outside the denylist, a non-empty title (the
      Title field, or else the heading's) and a non-empty Severity field; the
      finding carries that title and the severity read from that field. */
  lemma SectionFindingSpec(sec: string)
    ensures var t, r := Trim(sec), SectionFinding(sec);
      r.Some? <==>
        (Heading(t).Some? && !IsNonFinding(RawTitle(Heading(t).value))
         && Or(ExtractField(t, "Title"), RawTitle(Heading(t).value)) != ""
         && ExtractField(t, "Severity").Some? && ExtractField(t, "Severity").value != "")
    ensures var t, r := Trim(sec), SectionFinding(sec);
      r.Some? ==>
        r.value.title == Or(ExtractField(t, "Title"), RawTitle(Heading(t).value))
        && r.value.severity == NormSev(ExtractField(t, "Severity").value)
  {
  }

  /** What one section yields; `SectionFinding` in the adapter. */
  type Finder = string -> Option<UnifiedFinding>

  /** The findings of the sections in order, not yet numbered: every one
      comes from a section, and every section that yields one contributes it. */
  function Kept(secs: seq<string>, find: Finder): (r: seq<UnifiedFinding>)
    ensures |r| <= |secs|
    ensures forall k :: 0 <= k < |r| ==> exists j :: 0 <= j < |secs| && find(secs[j]) == Some(r[k])
    ensures forall j :: 0 <= j < |secs| && find(secs[j]).Some? ==> find(secs[j]).value in r
  {
    if secs == [] then []
    else
      var prev := Kept(secs[..|secs| - 1], find);
      assert forall j :: 0 <= j < |secs| - 1 ==> secs[..|secs| - 1][j] == secs[j];
      match find(secs[|secs| - 1])
      case Some(f) => prev + [f]
      case None => prev
  }

  /** What one section contributes. */
  function Yield(o: Option<UnifiedFinding>): seq<UnifiedFinding> {
    match o
    case Some(f) => [f]
    case None => []
  }

  /** The reference reading of "the findings of the sections, in order":
      the first section's contribution, then the rest's. */
  function Yielded(secs: seq<string>, find: Finder): seq<UnifiedFinding> {
    if secs == [] then [] else Yield(find(secs[0])) + Yielded(secs[1..], find)
  }

  lemma KeptSnoc(secs: seq<string>, i: nat, find: Finder)
    requires i < |secs|
    ensures Kept(secs[..i + 1], find) == Kept(secs[..i], find) + Yield(find(secs[i]))
  {
    assert secs[..i + 1][..i] == secs[..i];
  }

  /** The findings of two runs of sections are those of the first, then
      those of the second. */
  lemma {:induction false} KeptAppend(a: seq<string>, b: seq<string>, find: Finder)
    ensures Kept(a + b, find) == Kept(a, find) + Kept(b, find)
    decreases |b|
  {
    if b == [] {
      assert a + b == a;
    } else {
      var c := b[..|b| - 1];
      assert (a + b)[..|a + b| - 1] == a + c;
      KeptAppend(a, c, find);
      KeptSnoc(a + b, |a + b| - 1, find);
      KeptSnoc(b, |b| - 1, find);
      assert (a + b)[..|a + b|] == a + b && b[..|b|] == b;
      Assoc(Kept(a, find), Kept(c, find), Yield(find(b[|b| - 1])));
    }
  }

  /** `Kept` agrees with the reference reading. */
  lemma {:induction false} KeptIsYielded(secs: seq<string>, find: Finder)
    ensures Kept(secs, find) == Yielded(secs, find)
    decreases |secs|
  {
    if secs != [] {
      var head, rest := [secs[0]], secs[1..];
      Cons(secs);
      KeptAppend(head, rest, find);
      KeptOne(secs[0], find);
      KeptIsYielded(rest, find);
      assert Kept(secs, find) == Yield(find(secs[0])) + Yielded(rest, find);
    }
  }

  lemma KeptOne(x: string, find: Finder)
    ensures Kept([x], find) == Yield(find(x))
  {
    KeptSnoc([x], 0, find);
    assert [x][..1] == [x] && [x][..0] == [];
  }

  /** The finding of section `j` sits right after those of the sections
      before it: in order, and none skipped. */
  lemma KeptPosition(secs: seq<string>, j: nat, find: Finder)
    requires j < |secs| && find(secs[j]).Some?
    ensures |Kept(secs[..j], find)| < |Kept(secs, find)|
    ensures Kept(secs, find)[|Kept(secs[..j], find)|] == find(secs[j]).value
  {
    KeptSnoc(secs, j, find);
    TakeDrop(secs, j + 1);
    KeptAppend(secs[..j + 1], secs[j + 1..], find);
  }

  /** The id of the finding in position `k`. */
  function AiId(k: nat): string {
    "ai-" + NatToString(k + 1)
  }

  function Numbered(ds: seq<UnifiedFinding>): (r: seq<UnifiedFinding>)
    ensures |r| == |ds|
    ensures forall k :: 0 <= k < |ds| ==> r[k] == ds[k].(id := AiId(k))
  {
    seq(|ds|, k requires 0 <= k < |ds| => ds[k].(id := AiId(k)))
  }

  lemma NumberedSnoc(ds: seq<UnifiedFinding>, d: UnifiedFinding)
    ensures Numbered(ds + [d]) == Numbered(ds) + [d.(id := AiId(|ds|))]
  {
  }

  /** One more section read: its finding, if any, joins the numbered list
      under the next id. */
  lemma NumberedStep(secs: seq<string>, i: nat, out: seq<UnifiedFinding>, find: Finder)
    requires i < |secs| && out == Numbered(Kept(secs[..i], find))
    ensures find(secs[i]).None? ==> Numbered(Kept(secs[..i + 1], find)) == out
    ensures find(secs[i]).Some? ==>
      Numbered(Kept(secs[..i + 1], find)) == out + [find(secs[i]).value.(id := AiId(|out|))]
  {
    KeptSnoc(secs, i, find);
    if find(secs[i]).Some? {
      NumberedSnoc(Kept(secs[..i], find), find(secs[i]).value);
    }
  }

  /** What `parseAIFindings` returns for a report. */
  function AIFindingsOf(report: string): seq<UnifiedFinding> {
    if report == "" then [] else Numbered(Kept(Sections(report), SectionFinding))
  }

  /** `parseAIFindings`: walks the sections, pushing one numbered finding per
      section that yields one. */
  method ParseAIFindings(report: string) returns (out: seq<UnifiedFinding>)
    ensures out == AIFindingsOf(report)
  {
    if report == "" {
      return [];
    }
    out := NumberFindings(Sections(report), SectionFinding);
  }

  /** The loop of `parseAIFindings` over the sections, with the reading of
      one section as `find`. */
  method NumberFindings(secs: seq<string>, find: Finder) returns (out: seq<UnifiedFinding>)
    ensures out == Numbered(Kept(secs, find))
  {
    out := [];
    var i := 0;
    while i < |secs|
      invariant 0 <= i <= |secs|
      invariant out == Numbered(Kept(secs[..i], find))
    {
      NumberedStep(secs, i, out, find);
      var f := find(secs[i]);
      if f.Some? {
        out := out + [f.value.(id := AiId(|out|))];
      }
      i := i + 1;
    }
    assert secs[..i] == secs;
  }

  /** Different positions get different ids. */
  lemma AiIdInjective(a: nat, b: nat)
    requires AiId(a) == AiId(b)
    ensures a == b
  {
    assert AiId(a)[3..] == NatToString(a + 1);
    assert AiId(b)[3..] == NatToString(b + 1);
    NatToStringInjective(a + 1, b + 1);
  }

  /** Every section that yields a finding is reported, in section order:
      when `k` findings come from the sections before section `j`, the
      finding of section `j` is number `k + 1`. */
  lemma AIFindingsComplete(report: string, j: nat)
    requires j < |Sections(report)| && SectionFinding(Sections(report)[j]).Some?
    ensures var k := |Kept(Sections(report)[..j], SectionFinding)|;
      k < |AIFindingsOf(report)|
      && AIFindingsOf(report)[k] == SectionFinding(Sections(report)[j]).value.(id := AiId(k))
  {
    KeptPosition(Sections(report), j, SectionFinding);
  }

  /** Each finding is numbered by its position, has the adapter's shape and
      is what some section yields. */
  lemma AIFindingsSound(report: string)
    ensures report == "" ==> AIFindingsOf(report) == []
    ensures var out := AIFindingsOf(report);
      forall k :: 0 <= k < |out| ==>
        out[k].id == AiId(k) && AiShaped(out[k])
        && exists j :: 0 <= j < |Sections(report)| && SectionFinding(Sections(report)[j]) == Some(out[k].(id := ""))
  {
    var out := AIFindingsOf(report);
    if report != "" {
      var ds := Kept(Sections(report), SectionFinding);
      forall k | 0 <= k < |out|
        ensures out[k].(id := "") == ds[k]
      {
        assert ds[k].id == "" by {
          var j :| 0 <= j < |Sections(report)| && SectionFinding(Sections(report)[j]) == Some(ds[k]);
        }
      }
    }
  }

  /** The findings of a report: none for an empty report; otherwise each is
      numbered `ai-1`, `ai-2`, ... in order, has the adapter's shape, and is
      what some section of the report yields; and every section that yields
      a finding (a heading outside the denylist, a title and a Severity
      field) is reported, after the findings of the sections before it. */
  lemma AIFindingsOfSpec(report: string)
    ensures report == "" ==> AIFindingsOf(report) == []
    ensures var out := AIFindingsOf(report);
      forall k :: 0 <= k < |out| ==>
        out[k].id == AiId(k) && AiShaped(out[k])
        && exists j :: 0 <= j < |Sections(report)| && SectionFinding(Sections(report)[j]) == Some(out[k].(id := ""))
    ensures var out := AIFindingsOf(report);
      forall k, l :: 0 <= k < l < |out| ==> out[k].id != out[l].id
    ensures var out, secs := AIFindingsOf(report), Sections(report);
      forall j :: 0 <= j < |secs| && SectionFinding(secs[j]).Some? ==>
        |Kept(secs[..j], SectionFinding)| < |out|
        && out[|Kept(secs[..j], SectionFinding)|] == SectionFinding(secs[j]).value.(id := AiId(|Kept(secs[..j], SectionFinding)|))
  {
    AIFindingsSound(report);
    var out := AIFindingsOf(report);
    forall k, l | 0 <= k < l < |out|
      ensures out[k].id != out[l].id
    {
      if out[k].id == out[l].id {
        AiIdInjective(k, l);
      }
    }
    forall j | 0 <= j < |Sections(report)| && SectionFinding(Sections(report)[j]).Some?
      ensures |Kept(Sections(report)[..j], SectionFinding)| < |out|
      ensures out[|Kept(Sections(report)[..j], SectionFinding)|]
        == SectionFinding(Sections(report)[j]).value.(id := AiId(|Kept(Sections(report)[..j], SectionFinding)|))
    {
      AIFindingsComplete(report, j);
    }
  }
}
