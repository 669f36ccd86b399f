/** Cutting the accepted tool calls out of a message (tool_call_recovery.py). */
module SpanRemoval {

  /** A half-open range of positions. */
  datatype Span = Span(start: nat, end: nat)

  predicate InRange(spans: seq<Span>, n: nat) {
    forall s <- spans :: s.start < s.end <= n
  }

  /** No span twice, and no two spans overlap. */
  ghost predicate Disjoint(spans: seq<Span>) {
    && (forall s <- spans :: multiset(spans)[s] == 1)
    && (forall s <- spans, t <- spans :: s == t || s.end <= t.start || t.end <= s.start)
  }

  predicate Covered(spans: seq<Span>, k: nat) {
    exists s <- spans :: s.start <= k < s.end
  }

  /** What should remain: the characters from position `k` on that no span covers. */
  function Outside(text: string, spans: seq<Span>, k: nat): string
    requires k <= |text|
    decreases |text| - k
  {
    if k == |text| then ""
    else (if Covered(spans, k) then "" else [text[k]]) + Outside(text, spans, k + 1)
  }

  // ----- the order of the cuts ----------------------------------------------------------------

  ghost predicate Descending(spans: seq<Span>) {
    forall i, j :: 0 <= i < j < |spans| ==> spans[i].start >= spans[j].start
  }

  lemma Inserted(r: seq<Span>, k: nat, s: Span)
    requires Descending(r) && k <= |r|
    requires forall j :: 0 <= j < k ==> r[j].start >= s.start
    requires k < |r| ==> r[k].start < s.start
    ensures Descending(r[..k] + [s] + r[k..])
    ensures multiset(r[..k] + [s] + r[k..]) == multiset(r) + multiset{s}
  {
    assert r == r[..k] + r[k..];
    var b := r[..k] + [s] + r[k..];
    forall i, j | 0 <= i < j < |b|
      ensures b[i].start >= b[j].start
    {
      if j > k {
        assert b[j] == r[j - 1];
      }
    }
  }

  method PlaceFor(r: seq<Span>, s: Span) returns (k: nat)
    requires Descending(r)
    ensures k <= |r| && (forall j :: 0 <= j < k ==> r[j].start >= s.start) && (k < |r| ==> r[k].start < s.start)
  {
    k := 0;
    while k < |r| && r[k].start >= s.start
      invariant k <= |r| && forall j :: 0 <= j < k ==> r[j].start >= s.start
    {
      k := k + 1;
    }
  }

  /** `sorted(..., reverse=True)` by start. */
  method SortedDescending(spans: seq<Span>) returns (r: seq<Span>)
    ensures Descending(r) && multiset(r) == multiset(spans)
  {
    r := [];
    for i := 0 to |spans|
      invariant Descending(r) && multiset(r) == multiset(spans[..i])
    {
      var k := PlaceFor(r, spans[i]);
      Inserted(r, k, spans[i]);
      assert spans[..i + 1] == spans[..i] + [spans[i]];
      r := r[..k] + [spans[i]] + r[k..];
    }
    assert spans[..|spans|] == spans;
  }

  lemma SameCoverage(a: seq<Span>, b: seq<Span>, k: nat)
    requires multiset(a) == multiset(b)
    ensures Covered(a, k) <==> Covered(b, k)
  {
    forall s: Span
      ensures s in a <==> s in b
    {
      assert s in a <==> s in multiset(a);
    }
  }

  lemma OutsideStep(text: string, spans: seq<Span>, k: nat)
    requires k < |text|
    ensures Outside(text, spans, k) == (if Covered(spans, k) then "" else [text[k]]) + Outside(text, spans, k + 1)
  {
  }

  lemma {:induction false} SameOutside(text: string, a: seq<Span>, b: seq<Span>, k: nat)
    requires multiset(a) == multiset(b) && k <= |text|
    ensures Outside(text, a, k) == Outside(text, b, k)
    decreases |text| - k
  {
    if k < |text| {
      SameOutside(text, a, b, k + 1);
      SameCoverage(a, b, k);
      OutsideStep(text, a, k);
      OutsideStep(text, b, k);
    }
  }

  lemma TwiceCounts(s: seq<Span>, i: nat, j: nat)
    requires i < j < |s| && s[i] == s[j]
    ensures multiset(s)[s[i]] >= 2
  {
    assert s == s[..j] + s[j..];
    assert s[..j][i] in s[..j] && s[j..][0] in s[j..];
  }

  // ----- cutting -----------------------------------------------------------------------------------

  predicate Free(spans: seq<Span>, lo: nat, hi: nat) {
    forall k: nat :: lo <= k < hi ==> !Covered(spans, k)
  }

  predicate Full(spans: seq<Span>, lo: nat, hi: nat) {
    forall k: nat :: lo <= k < hi ==> Covered(spans, k)
  }

  /** Nothing is covered between `lo` and `hi`: it all remains. */
  lemma {:induction false} OutsideCopies(text: string, spans: seq<Span>, lo: nat, hi: nat)
    requires lo <= hi <= |text| && Free(spans, lo, hi)
    ensures Outside(text, spans, lo) == text[lo..hi] + Outside(text, spans, hi)
    decreases hi - lo
  {
    if lo < hi {
      OutsideCopies(text, spans, lo + 1, hi);
      assert !Covered(spans, lo);
      CopyOne(text, lo, hi, Outside(text, spans, hi));
    }
  }

  lemma CopyOne(text: string, lo: nat, hi: nat, rest: string)
    requires lo < hi <= |text|
    ensures [text[lo]] + (text[lo + 1..hi] + rest) == text[lo..hi] + rest
  {
    assert text[lo..hi] == [text[lo]] + text[lo + 1..hi];
  }

  /** Everything is covered between `lo` and `hi`: none of it remains. */
  lemma {:induction false} OutsideSkips(text: string, spans: seq<Span>, lo: nat, hi: nat)
    requires lo <= hi <= |text| && Full(spans, lo, hi)
    ensures Outside(text, spans, lo) == Outside(text, spans, hi)
    decreases hi - lo
  {
    if lo < hi {
      assert Covered(spans, lo);
      OutsideSkips(text, spans, lo + 1, hi);
    }
  }

  lemma OutsideFrom(text: string, a: seq<Span>, b: seq<Span>, k: nat)
    requires k <= |text| && forall m: nat :: k <= m < |text| ==> (Covered(a, m) <==> Covered(b, m))
    ensures Outside(text, a, k) == Outside(text, b, k)
    decreases |text| - k
  {
    if k < |text| {
      OutsideFrom(text, a, b, k + 1);
      OutsideStep(text, a, k);
      OutsideStep(text, b, k);
    }
  }

  /** Nothing remains from `k` on exactly when everything there is covered. */
  lemma {:induction false} EmptyExactly(text: string, spans: seq<Span>, k: nat)
    requires k <= |text|
    ensures Outside(text, spans, k) == "" <==> Full(spans, k, |text|)
    decreases |text| - k
  {
    if k < |text| {
      EmptyExactly(text, spans, k + 1);
      OutsideStep(text, spans, k);
    }
  }

  /** Between two positions no more remains than there is. */
  lemma {:induction false} OutsideBetween(text: string, spans: seq<Span>, lo: nat, hi: nat)
    requires lo <= hi <= |text|
    ensures |Outside(text, spans, lo)| <= |Outside(text, spans, hi)| + (hi - lo)
    decreases hi - lo
  {
    if lo < hi {
      OutsideBetween(text, spans, lo + 1, hi);
      OutsideStep(text, spans, lo);
    }
  }

  function Least(a: nat, b: nat): nat {
    if a <= b then a else b
  }

  /** `text[:start] + text[end:]`, slices clamped to the text. */
  function Clip(text: string, s: Span): string {
    text[..Least(s.start, |text|)] + text[Least(s.end, |text|)..]
  }

  /** What the loop leaves after cutting `b` in that order. */
  function CutAll(text: string, b: seq<Span>): string {
    if b == [] then text else Clip(CutAll(text, b[..|b| - 1]), b[|b| - 1])
  }

  /** How far down the cuts of `b` have come. */
  function Low(b: seq<Span>, n: nat): nat {
    if b == [] then n else b[|b| - 1].start
  }

  lemma LowIsLow(b: seq<Span>, n: nat)
    requires InRange(b, n) && Descending(b)
    ensures Low(b, n) <= n && forall s <- b :: Low(b, n) <= s.start
  {
    if b != [] {
      assert b[|b| - 1] in b;
    }
  }

  // ----- when the cuts are exact --------------------------------------------------------------

  /** No cut overlaps an earlier one, or nothing was to remain from its start on. */
  ghost predicate Clean(b: seq<Span>, n: nat) {
    forall i, j :: 0 <= i < j < |b| && b[i].start < b[j].end ==> Full(b, b[j].start, n)
  }

  lemma CoveredByMore(p: seq<Span>, s: Span, k: nat)
    ensures Covered(p + [s], k) <==> Covered(p, k) || s.start <= k < s.end
  {
    var b := p + [s];
    if Covered(p, k) {
      var x :| x in p && x.start <= k < x.end;
      assert x in b;
    }
    assert s in b;
  }

  lemma FullAbove(p: seq<Span>, s: Span, k: nat, n: nat)
    requires s.end <= k
    ensures Full(p + [s], k, n) <==> Full(p, k, n)
  {
    forall m: nat | k <= m < n
      ensures Covered(p + [s], m) <==> Covered(p, m)
    {
      CoveredByMore(p, s, m);
    }
    if Full(p + [s], k, n) {
      assert forall m: nat :: k <= m < n ==> Covered(p + [s], m);
    }
  }

  lemma CleanApart(p: seq<Span>, s: Span, n: nat)
    requires InRange(p, n) && Descending(p) && s.end <= Low(p, n)
    ensures Clean(p + [s], n) <==> Clean(p, n)
  {
    var b := p + [s];
    LowIsLow(p, n);
    forall j | 0 <= j < |p|
      ensures Full(b, p[j].start, n) <==> Full(p, p[j].start, n)
    {
      assert p[j] in p;
      FullAbove(p, s, p[j].start, n);
    }
    assert forall i :: 0 <= i < |p| ==> p[i] in p && b[i] == p[i];
    if Clean(b, n) {
      assert forall i, j :: 0 <= i < j < |p| ==> b[i] == p[i] && b[j] == p[j];
    }
  }

  lemma CleanOverlap(p: seq<Span>, s: Span, n: nat)
    requires p != [] && InRange(p, n) && Descending(p + [s]) && Low(p, n) < s.end
    ensures Clean(p + [s], n) <==> Full(p + [s], s.start, n)
  {
    var b := p + [s];
    assert b[|p| - 1].start < b[|p|].end;
    assert b[|p|] == s;
    assert forall j :: 0 <= j < |p| ==> b[j].start >= b[|p|].start;
  }

  // ----- one more cut -------------------------------------------------------------------------

  /** `t`, what the cuts have left above their lowest start, is what should remain there
      when they were clean, and shorter when they were not. */
  ghost predicate Tracks(text: string, b: seq<Span>, t: string)
    requires Low(b, |text|) <= |text|
  {
    var o := Outside(text, b, Low(b, |text|));
    && |t| <= |o|
    && (|t| == |o| ==> t == o)
    && (|t| == |o| <==> Clean(b, |text|))
  }

  lemma OutsideApart(text: string, p: seq<Span>, s: Span)
    requires InRange(p, |text|) && Descending(p) && s.start < s.end <= Low(p, |text|) <= |text|
    ensures Outside(text, p + [s], s.start)
            == text[s.end..Low(p, |text|)] + Outside(text, p, Low(p, |text|))
  {
    var b, lo := p + [s], Low(p, |text|);
    LowIsLow(p, |text|);
    forall k: nat
      ensures Covered(b, k) <==> Covered(p, k) || s.start <= k < s.end
    {
      CoveredByMore(p, s, k);
    }
    OutsideSkips(text, b, s.start, s.end);
    OutsideCopies(text, b, s.end, lo);
    OutsideFrom(text, b, p, lo);
  }

  lemma TracksApart(text: string, p: seq<Span>, s: Span, t: string)
    requires InRange(p, |text|) && Descending(p) && s.start < s.end <= Low(p, |text|) <= |text| && Tracks(text, p, t)
    ensures Low(p + [s], |text|) == s.start && Tracks(text, p + [s], text[s.end..Low(p, |text|)] + t)
  {
    OutsideApart(text, p, s);
    CleanApart(p, s, |text|);
  }

  lemma OutsideOverlap(text: string, p: seq<Span>, s: Span)
    requires p != [] && InRange(p, |text|) && s.start <= Low(p, |text|) < s.end <= |text|
    ensures var o, o' := Outside(text, p, Low(p, |text|)), Outside(text, p + [s], s.start);
            |o| < |o'| + (s.end - Low(p, |text|))
  {
    var b, lo := p + [s], Low(p, |text|);
    forall k: nat
      ensures Covered(b, k) <==> Covered(p, k) || s.start <= k < s.end
    {
      CoveredByMore(p, s, k);
    }
    OutsideSkips(text, b, s.start, s.end);
    OutsideFrom(text, b, p, s.end);
    assert p[|p| - 1] in p && Covered(p, lo);
    OutsideStep(text, p, lo);
    OutsideBetween(text, p, lo + 1, s.end);
  }

  lemma TracksOverlap(text: string, p: seq<Span>, s: Span, t: string)
    requires p != [] && InRange(p, |text|) && Descending(p + [s]) && s.start <= Low(p, |text|) < s.end <= |text|
    requires Tracks(text, p, t)
    ensures Low(p + [s], |text|) == s.start && Tracks(text, p + [s], t[Least(s.end - Low(p, |text|), |t|)..])
  {
    OutsideOverlap(text, p, s);
    CleanOverlap(p, s, |text|);
    EmptyExactly(text, p + [s], s.start);
  }

  /** The text after a cut, in its two parts. */
  lemma ClipParts(text: string, lo: nat, t: string, s: Span)
    requires s.start <= lo <= |text| && s.start < s.end <= |text|
    ensures Clip(text[..lo] + t, s)
            == text[..s.start] + if s.end <= lo then text[s.end..lo] + t else t[Least(s.end - lo, |t|)..]
  {
    var u := text[..lo] + t;
    assert u[..s.start] == text[..s.start];
    if s.end <= lo {
      assert u[s.end..] == text[s.end..lo] + t;
    } else {
      assert u[Least(s.end, |u|)..] == t[Least(s.end - lo, |t|)..];
    }
  }

  lemma TrackedOn(text: string, p: seq<Span>, s: Span, t0: string) returns (t: string)
    requires InRange(p + [s], |text|) && Descending(p + [s])
    requires InRange(p, |text|) && Descending(p) && Low(p, |text|) <= |text| && Tracks(text, p, t0)
    ensures s.start < s.end <= |text| && Low(p + [s], |text|) == s.start
    ensures Clip(text[..Low(p, |text|)] + t0, s) == text[..s.start] + t && Tracks(text, p + [s], t)
  {
    var lo := Low(p, |text|);
    assert s in p + [s];
    assert s.start <= lo by {
      if p != [] {
        assert (p + [s])[|p| - 1] == p[|p| - 1] && (p + [s])[|p|] == s;
      }
    }
    ClipParts(text, lo, t0, s);
    if s.end <= lo {
      t := text[s.end..lo] + t0;
      TracksApart(text, p, s, t0);
    } else {
      t := t0[Least(s.end - lo, |t0|)..];
      TracksOverlap(text, p, s, t0);
    }
  }

  lemma NothingCut(text: string)
    ensures CutAll(text, []) == text[..Low([], |text|)] + "" && Tracks(text, [], "")
  {
  }

  lemma {:induction false} Tracked(text: string, b: seq<Span>) returns (t: string)
    requires InRange(b, |text|) && Descending(b)
    ensures Low(b, |text|) <= |text| && CutAll(text, b) == text[..Low(b, |text|)] + t && Tracks(text, b, t)
    decreases |b|
  {
    if b == [] {
      t := "";
      NothingCut(text);
    } else {
      var p, s := b[..|b| - 1], b[|b| - 1];
      assert b == p + [s] && forall x <- p :: x in b;
      var t0 := Tracked(text, p);
      t := TrackedOn(text, p, s, t0);
    }
  }

  lemma OutsideBelow(text: string, b: seq<Span>)
    requires InRange(b, |text|) && Descending(b)
    ensures Low(b, |text|) <= |text|
    ensures Outside(text, b, 0) == text[..Low(b, |text|)] + Outside(text, b, Low(b, |text|))
  {
    LowIsLow(b, |text|);
    OutsideCopies(text, b, 0, Low(b, |text|));
  }

  /** Cutting in descending order never leaves too much, and leaves exactly the text outside
      the spans exactly when the cuts are clean. */
  lemma CutsExactWhenClean(text: string, b: seq<Span>)
    requires InRange(b, |text|) && Descending(b)
    ensures CutAll(text, b) == Outside(text, b, 0) <==> Clean(b, |text|)
    ensures |CutAll(text, b)| <= |Outside(text, b, 0)|
    ensures !Clean(b, |text|) ==> |CutAll(text, b)| < |Outside(text, b, 0)|
  {
    var t := Tracked(text, b);
    OutsideBelow(text, b);
  }

  // ----- the same for the list as it was accepted ---------------------------------------------

  /** Two accepted spans overlap, `t` starting no later; a span accepted twice overlaps itself. */
  ghost predicate Overlap(a: seq<Span>, s: Span, t: Span) {
    t.start <= s.start < t.end && (s != t || multiset(a)[s] >= 2)
  }

  /** No two spans overlap, or nothing uncovered is left from the earlier start of the two on. */
  ghost predicate Harmless(a: seq<Span>, n: nat) {
    forall s <- a, t <- a :: Overlap(a, s, t) ==> Full(a, t.start, n)
  }

  lemma SameFull(a: seq<Span>, b: seq<Span>, lo: nat, hi: nat)
    requires multiset(a) == multiset(b)
    ensures Full(a, lo, hi) <==> Full(b, lo, hi)
  {
    forall k: nat
      ensures Covered(a, k) <==> Covered(b, k)
    {
      SameCoverage(a, b, k);
    }
  }

  lemma SameMembers(a: seq<Span>, b: seq<Span>)
    requires multiset(a) == multiset(b)
    ensures forall s :: s in a <==> s in b
  {
    forall s
      ensures s in a <==> s in b
    {
      assert s in a <==> s in multiset(a);
    }
  }

  lemma SameHarm(a: seq<Span>, b: seq<Span>, n: nat)
    requires multiset(a) == multiset(b) && Harmless(a, n)
    ensures Harmless(b, n)
  {
    SameMembers(a, b);
    forall s <- b, t <- b | Overlap(b, s, t)
      ensures Full(b, t.start, n)
    {
      assert Overlap(a, s, t);
      SameFull(a, b, t.start, n);
    }
  }

  lemma CleanWhenHarmless(b: seq<Span>, n: nat)
    requires InRange(b, n) && Descending(b) && Harmless(b, n)
    ensures Clean(b, n)
  {
    forall i, j | 0 <= i < j < |b| && b[i].start < b[j].end
      ensures Full(b, b[j].start, n)
    {
      if b[i] == b[j] {
        TwiceCounts(b, i, j);
      }
      assert b[i] in b && b[j] in b && Overlap(b, b[i], b[j]);
    }
  }

  lemma TwoPlaces(b: seq<Span>, s: Span) returns (i: nat, j: nat)
    requires multiset(b)[s] >= 2
    ensures i < j < |b| && b[i] == s && b[j] == s
  {
    assert s in multiset(b) && s in b;
    i :| 0 <= i < |b| && b[i] == s;
    var rest := b[..i] + b[i + 1..];
    assert b == b[..i] + [s] + b[i + 1..];
    assert multiset(b) == multiset(rest) + multiset{s};
    assert s in multiset(rest);
    var k :| 0 <= k < |rest| && rest[k] == s;
    j := if k < i then k else k + 1;
    if j < i {
      i, j := j, i;
    }
  }

  lemma HarmlessWhenClean(b: seq<Span>, n: nat)
    requires InRange(b, n) && Descending(b) && Clean(b, n)
    ensures Harmless(b, n)
  {
    forall s <- b, t <- b | Overlap(b, s, t)
      ensures Full(b, t.start, n)
    {
      if s == t {
        var i, j := TwoPlaces(b, s);
        assert b[i].start < b[j].end;
      } else {
        var i :| 0 <= i < |b| && b[i] == s;
        var j :| 0 <= j < |b| && b[j] == t;
        if i < j {
          assert b[i].start < b[j].end;
        } else {
          assert b[j].start >= b[i].start && b[j].start < b[i].end;
        }
      }
    }
  }

  /** Pairwise disjoint spans do no harm. */
  lemma DisjointIsHarmless(a: seq<Span>, n: nat)
    requires InRange(a, n) && Disjoint(a)
    ensures Harmless(a, n)
  {
  }

  /** The deletion loop, for every list of in-range spans in any order: what remains is exactly
      the text outside the spans, in order, exactly when no two overlap or nothing uncovered
      follows; otherwise text outside the spans is lost. */
  method StripSpans(text: string, accepted: seq<Span>) returns (rest: string)
    requires InRange(accepted, |text|)
    ensures rest == Outside(text, accepted, 0) <==> Harmless(accepted, |text|)
    ensures !Harmless(accepted, |text|) ==> |rest| < |Outside(text, accepted, 0)|
    ensures Disjoint(accepted) ==> rest == Outside(text, accepted, 0)
  {
    var order := SortedDescending(accepted);
    rest := text;
    for i := 0 to |order|
      invariant rest == CutAll(text, order[..i])
    {
      assert order[..i + 1][..i] == order[..i] && order[..i + 1][i] == order[i];
      rest := Clip(rest, order[i]);
    }
    assert order[..|order|] == order;
    StripIs(text, accepted, order);
  }

  lemma StripIs(text: string, a: seq<Span>, b: seq<Span>)
    requires InRange(a, |text|) && multiset(a) == multiset(b) && Descending(b)
    ensures CutAll(text, b) == Outside(text, a, 0) <==> Harmless(a, |text|)
    ensures !Harmless(a, |text|) ==> |CutAll(text, b)| < |Outside(text, a, 0)|
    ensures Disjoint(a) ==> Harmless(a, |text|)
  {
    SameMembers(a, b);
    CutsExactWhenClean(text, b);
    SameOutside(text, a, b, 0);
    if Harmless(a, |text|) {
      SameHarm(a, b, |text|);
      CleanWhenHarmless(b, |text|);
    }
    if Clean(b, |text|) {
      HarmlessWhenClean(b, |text|);
      SameHarm(b, a, |text|);
    }
    if Disjoint(a) {
      DisjointIsHarmless(a, |text|);
    }
  }
}
