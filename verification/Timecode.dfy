/** timecode.py: reading a burned-in number back out of lossy video. */
module Timecode {
  import opened Decimal

  /** The thresholded pixels of one normalised glyph. */
  type Signature = seq<bool>

  datatype Option<T> = None | Some(value: T)

  // ---- distance --------------------------------------------------------------

  /** `sum(1 for a, b in zip(s, r) if a != b)`. */
  function Distance(s: Signature, r: Signature): nat {
    var n := if |s| < |r| then |s| else |r|;
    DistanceUpTo(s, r, n)
  }

  function DistanceUpTo(s: Signature, r: Signature, n: nat): nat
    requires n <= |s| && n <= |r|
  {
    if n == 0 then 0 else DistanceUpTo(s, r, n - 1) + (if s[n - 1] != r[n - 1] then 1 else 0)
  }

  function Differing(s: Signature, r: Signature, n: nat): set<nat>
    requires n <= |s| && n <= |r|
  {
    if n == 0 then {} else Differing(s, r, n - 1) + (if s[n - 1] != r[n - 1] then {n - 1} else {})
  }

  lemma {:induction false} DifferingAre(s: Signature, r: Signature, n: nat)
    requires n <= |s| && n <= |r|
    ensures forall i: nat :: i in Differing(s, r, n) <==> i < n && s[i] != r[i]
    ensures DistanceUpTo(s, r, n) == |Differing(s, r, n)|
  {
    if n > 0 {
      DifferingAre(s, r, n - 1);
    }
  }

  /** The distance is the number of positions at which two signatures of one length differ. */
  lemma {:induction false} DistanceCounts(s: Signature, r: Signature) returns (at: set<nat>)
    requires |s| == |r|
    ensures Distance(s, r) == |at| && forall i: nat :: i in at <==> i < |s| && s[i] != r[i]
  {
    DifferingAre(s, r, |s|);
    at := Differing(s, r, |s|);
  }

  lemma {:induction false} Triangle(a: Signature, b: Signature, c: Signature, n: nat)
    requires n <= |a| && n <= |b| && n <= |c|
    ensures DistanceUpTo(a, c, n) <= DistanceUpTo(b, a, n) + DistanceUpTo(b, c, n)
  {
    if n > 0 {
      Triangle(a, b, c, n - 1);
    }
  }

  // ---- one digit ----------------------------------------------------------------

  /** The first reference at the least distance; none without references. */
  function Nearest(sig: Signature, refs: seq<Signature>): (best: Option<nat>)
    ensures best.None? <==> refs == []
    ensures best.Some? ==> best.value < |refs|
  {
    if refs == [] then None
    else
      var last := |refs| - 1;
      match Nearest(sig, refs[..last])
      case None => Some(last)
      case Some(b) => if Distance(sig, refs[last]) < Distance(sig, refs[b]) then Some(last) else Some(b)
  }

  lemma {:induction false} NearestIsNearest(sig: Signature, refs: seq<Signature>, v: nat)
    requires v < |refs|
    ensures Distance(sig, refs[Nearest(sig, refs).value]) <= Distance(sig, refs[v])
    ensures v < Nearest(sig, refs).value ==> Distance(sig, refs[Nearest(sig, refs).value]) < Distance(sig, refs[v])
  {
    var last := |refs| - 1;
    if last > 0 {
      if v < last {
        NearestIsNearest(sig, refs[..last], v);
      } else {
        assert Nearest(sig, refs[..last]).Some?;
      }
    }
  }

  /** Any two references differ in more than 2t positions. */
  ghost predicate WellSeparated(refs: seq<Signature>, t: nat) {
    && (forall u, v :: 0 <= u < |refs| && 0 <= v < |refs| ==> |refs[u]| == |refs[v]|)
    && (forall u, v :: 0 <= u < |refs| && 0 <= v < |refs| && u != v ==> Distance(refs[u], refs[v]) > 2 * t)
  }

  /** Within t of its own reference, a glyph is nearer to it than to any other. */
  lemma {:induction false} NearestIsTrue(sig: Signature, refs: seq<Signature>, t: nat, digit: nat)
    requires WellSeparated(refs, t) && digit < |refs|
    requires |sig| == |refs[digit]| && Distance(sig, refs[digit]) <= t
    ensures Nearest(sig, refs) == Some(digit)
  {
    var b := Nearest(sig, refs).value;
    NearestIsNearest(sig, refs, digit);
    Triangle(refs[digit], sig, refs[b], |sig|);
    assert Distance(refs[digit], refs[b]) <= 2 * t;
  }

  // ---- the number --------------------------------------------------------------------

  /** `str(best)`, which Python renders as the word when there is no best. */
  function TextOf(best: Option<nat>): string {
    match best case None => "None" case Some(v) => Render(v)
  }

  function Text(sigs: seq<Signature>, refs: seq<Signature>): string {
    if sigs == [] then [] else Text(sigs[..|sigs| - 1], refs) + TextOf(Nearest(sigs[|sigs| - 1], refs))
  }

  function Decoded(sigs: seq<Signature>, refs: seq<Signature>): Option<nat> {
    var out := Text(sigs, refs);
    if AllDigits(out) && |out| >= 9 then Some(Parse(out)) else None
  }

  /** The observed glyphs are those of the digits, each within t of its reference. */
  ghost predicate Observes(sigs: seq<Signature>, digits: string, refs: seq<Signature>, t: nat)
    requires AllDigits(digits) && |refs| == 10
  {
    |sigs| == |digits| && forall k :: 0 <= k < |sigs| ==> Shows(sigs[k], digits[k], refs, t)
  }

  ghost predicate Shows(sig: Signature, digit: char, refs: seq<Signature>, t: nat)
    requires IsDigit(digit) && |refs| == 10
  {
    var ref := refs[DigitValue(digit)];
    |sig| == |ref| && Distance(sig, ref) <= t
  }

  lemma {:induction false} DigitText(c: char)
    requires IsDigit(c)
    ensures TextOf(Some(DigitValue(c))) == [c]
  {
  }

  lemma {:induction false} ShownIsRead(sig: Signature, digit: char, refs: seq<Signature>, t: nat)
    requires IsDigit(digit) && |refs| == 10 && WellSeparated(refs, t) && Shows(sig, digit, refs, t)
    ensures TextOf(Nearest(sig, refs)) == [digit]
  {
    NearestIsTrue(sig, refs, t, DigitValue(digit));
    DigitText(digit);
  }

  lemma {:induction false} ObservesFront(sigs: seq<Signature>, digits: string, refs: seq<Signature>, t: nat)
    requires |refs| == 10 && sigs != [] && AllDigits(digits) && Observes(sigs, digits, refs, t)
    ensures var last := |sigs| - 1;
            && AllDigits(digits[..last]) && Observes(sigs[..last], digits[..last], refs, t)
            && IsDigit(digits[last]) && Shows(sigs[last], digits[last], refs, t)
            && digits == digits[..last] + [digits[last]]
  {
    hide Shows;
  }

  lemma {:induction false} TextIsDigits(sigs: seq<Signature>, digits: string, refs: seq<Signature>, t: nat)
    requires |refs| == 10 && WellSeparated(refs, t)
    requires AllDigits(digits) && Observes(sigs, digits, refs, t)
    ensures Text(sigs, refs) == digits
  {
    if sigs != [] {
      var last := |sigs| - 1;
      ObservesFront(sigs, digits, refs, t);
      hide Observes, Shows, WellSeparated, Nearest;
      TextIsDigits(sigs[..last], digits[..last], refs, t);
      ShownIsRead(sigs[last], digits[last], refs, t);
    }
  }

  /** Minimum-distance decoding is exact: the number comes back when it has at
      least nine digits, and nothing does when it has fewer. */
  lemma {:induction false} DecodingIsUnique(number: nat, sigs: seq<Signature>, refs: seq<Signature>, t: nat)
    requires |refs| == 10 && WellSeparated(refs, t)
    requires AllDigits(Render(number)) && Observes(sigs, Render(number), refs, t)
    ensures Decoded(sigs, refs) == if number >= 100_000_000 then Some(number) else None
  {
    TextIsDigits(sigs, Render(number), refs, t);
    ParseInvertsRender(number);
    RenderedLength(number, 8);
    EightZeros();
  }

  lemma {:induction false} EightZeros()
    ensures Power10(8) == 100_000_000
  {
    assert Power10(2) == 100;
    assert Power10(4) == 10_000;
    assert Power10(6) == 1_000_000;
  }

  /** The inner loop of `_decode`. */
  method FindNearest(sig: Signature, refs: seq<Signature>) returns (best: Option<nat>)
    ensures best == Nearest(sig, refs)
    ensures best.Some? ==> forall v :: 0 <= v < |refs| ==> Distance(sig, refs[best.value]) <= Distance(sig, refs[v])
  {
    best := None;
    var bestDistance := 0;
    var value := 0;
    while value < |refs|
      invariant value <= |refs| && best == Nearest(sig, refs[..value])
      invariant best.Some? ==> bestDistance == Distance(sig, refs[best.value])
    {
      assert refs[..value + 1][..value] == refs[..value];
      var d := Distance(sig, refs[value]);
      if best.None? || d < bestDistance {
        best, bestDistance := Some(value), d;
      }
      value := value + 1;
    }
    assert refs[..value] == refs;
    forall v | 0 <= v < |refs|
      ensures best.Some? ==> Distance(sig, refs[best.value]) <= Distance(sig, refs[v])
    {
      NearestIsNearest(sig, refs, v);
    }
  }

  /** `_decode`, over the glyph signatures of one frame. */
  method Decode(sigs: seq<Signature>, refs: seq<Signature>) returns (r: Option<nat>)
    ensures r == Decoded(sigs, refs)
  {
    var out := "";
    var k := 0;
    while k < |sigs|
      invariant k <= |sigs| && out == Text(sigs[..k], refs)
    {
      assert sigs[..k + 1][..k] == sigs[..k];
      var best := FindNearest(sigs[k], refs);
      out := out + TextOf(best);
      k := k + 1;
    }
    assert sigs[..k] == sigs;
    r := if AllDigits(out) && |out| >= 9 then Some(Parse(out)) else None;
  }

  // ---- column segmentation --------------------------------------------------------------

  datatype Span = Span(start: nat, end: nat)

  /** No `gap` neighbouring columns of [from, to) are all dark. */
  ghost predicate Unbroken(lit: seq<bool>, from: nat, to: nat, gap: nat)
    requires to <= |lit|
  {
    forall c: nat :: from <= c && c + gap <= to ==> AnyLit(lit, c, gap)
  }

  ghost predicate AnyLit(lit: seq<bool>, from: nat, width: nat)
    requires from + width <= |lit|
  {
    exists x :: from <= x < from + width && lit[x]
  }

  ghost predicate Covered(runs: seq<Span>, x: int) {
    exists i :: 0 <= i < |runs| && runs[i].start <= x < runs[i].end
  }

  /** A run starts lit, holds no full gap, and ends at a lit column followed by
      a full gap unless the right edge cuts it off. */
  ghost predicate Run(lit: seq<bool>, r: Span, gap: nat) {
    && r.start < r.end <= |lit| && lit[r.start]
    && (r.end < |lit| ==> lit[r.end - 1] && r.end + gap <= |lit|)
    && Unbroken(lit, r.start, r.end, gap)
  }

  ghost predicate Separate(runs: seq<Span>, gap: nat) {
    forall i, j :: 0 <= i < j < |runs| ==> runs[i].end + gap <= runs[j].start
  }

  /** The runs are the maximal stretches of lit columns that no full gap interrupts:
      each is one, neighbours are a full gap apart, and no lit column is lost. */
  ghost predicate Segments(lit: seq<bool>, runs: seq<Span>, gap: nat) {
    && (forall i :: 0 <= i < |runs| ==> Run(lit, runs[i], gap))
    && Separate(runs, gap)
    && (forall x :: 0 <= x < |lit| && lit[x] ==> Covered(runs, x))
  }

  /** The loop state of `_glyph_columns` before column x: the closed runs, and the
      open one with the number of dark columns since its last lit one. */
  ghost predicate Scanned(lit: seq<bool>, runs: seq<Span>, start: Option<nat>, dark: nat, x: nat, gap: nat)
    requires x <= |lit|
  {
    && (forall i :: 0 <= i < |runs| ==> Run(lit, runs[i], gap))
    && Separate(runs, gap)
    && (runs != [] ==> runs[|runs| - 1].end + gap <= (if start.Some? then start.value else x))
    && NoneLost(lit, runs, start, x)
    && (start.Some? ==> Open(lit, start.value, dark, x, gap))
  }

  ghost predicate NoneLost(lit: seq<bool>, runs: seq<Span>, start: Option<nat>, x: nat)
    requires x <= |lit|
  {
    forall c :: 0 <= c < x && lit[c] ==> Covered(runs, c) || (start.Some? && start.value <= c)
  }

  ghost predicate Open(lit: seq<bool>, start: nat, dark: nat, x: nat, gap: nat)
    requires x <= |lit|
  {
    && lit[..x] != [] && start + dark < x && lit[start] && dark < gap
    && lit[x - dark - 1] && (forall c :: x - dark <= c < x ==> !lit[c])
    && Unbroken(lit, start, x, gap)
  }

  lemma {:induction false} LitColumn(lit: seq<bool>, start: nat, dark: nat, x: nat, gap: nat)
    requires x < |lit| && lit[x] && gap >= 1
    requires start == x || Open(lit, start, dark, x, gap)
    ensures Open(lit, start, 0, x + 1, gap)
  {
    forall c: nat | start <= c && c + gap <= x + 1
      ensures AnyLit(lit, c, gap)
    {
      if c + gap == x + 1 {
        assert lit[x];
      }
    }
  }

  lemma {:induction false} DarkColumn(lit: seq<bool>, start: nat, dark: nat, x: nat, gap: nat)
    requires x < |lit| && !lit[x] && dark + 1 < gap && Open(lit, start, dark, x, gap)
    ensures Open(lit, start, dark + 1, x + 1, gap)
  {
    forall c: nat | start <= c && c + gap <= x + 1
      ensures AnyLit(lit, c, gap)
    {
      if c + gap == x + 1 {
        assert lit[x - dark - 1];
      }
    }
  }

  /** The dark column that completes a gap closes the run at its last lit column. */
  lemma {:induction false} ClosingColumn(lit: seq<bool>, start: nat, dark: nat, x: nat, gap: nat)
    requires x < |lit| && !lit[x] && dark + 1 == gap && Open(lit, start, dark, x, gap)
    ensures Run(lit, Span(start, x - dark), gap)
  {
  }

  lemma {:induction false} OneMoreRun(runs: seq<Span>, r: Span, gap: nat)
    requires Separate(runs, gap) && (runs != [] ==> runs[|runs| - 1].end + gap <= r.start)
    requires forall i :: 0 <= i < |runs| ==> runs[i].start < runs[i].end
    ensures Separate(runs + [r], gap)
    ensures forall x {:trigger Covered(runs + [r], x)} ::
              Covered(runs, x) || r.start <= x < r.end ==> Covered(runs + [r], x)
  {
    var more := runs + [r];
    forall x | Covered(runs, x) || r.start <= x < r.end
      ensures Covered(more, x)
    {
      if Covered(runs, x) {
        var i :| 0 <= i < |runs| && runs[i].start <= x < runs[i].end;
        assert more[i] == runs[i];
      } else {
        assert more[|runs|] == r;
      }
    }
    forall i | 0 <= i < |runs|
      ensures runs[i].end + gap <= r.start
    {
      if i < |runs| - 1 {
        assert runs[i].end + gap <= runs[|runs| - 1].start;
      }
    }
  }

  lemma {:induction false} ScanLit(lit: seq<bool>, runs: seq<Span>, start: Option<nat>, dark: nat, x: nat, gap: nat)
    requires x < |lit| && lit[x] && gap >= 1 && Scanned(lit, runs, start, dark, x, gap)
    ensures Scanned(lit, runs, if start.Some? then start else Some(x), 0, x + 1, gap)
  {
    LitColumn(lit, if start.Some? then start.value else x, dark, x, gap);
  }

  lemma {:induction false} ScanDark(lit: seq<bool>, runs: seq<Span>, start: Option<nat>, dark: nat, x: nat, gap: nat)
    requires x < |lit| && !lit[x] && Scanned(lit, runs, start, dark, x, gap)
    requires start.Some? ==> dark + 1 < gap
    ensures Scanned(lit, runs, start, if start.Some? then dark + 1 else dark, x + 1, gap)
  {
    if start.Some? {
      DarkColumn(lit, start.value, dark, x, gap);
    }
  }

  lemma {:induction false} CloseLosesNone(lit: seq<bool>, runs: seq<Span>, start: nat, dark: nat, x: nat, gap: nat)
    requires x < |lit| && !lit[x] && Open(lit, start, dark, x, gap)
    requires NoneLost(lit, runs, Some(start), x)
    ensures NoneLost(lit, runs + [Span(start, x - dark)], None, x + 1)
  {
    var r := Span(start, x - dark);
    forall c | 0 <= c < x + 1 && lit[c]
      ensures Covered(runs + [r], c)
    {
      if Covered(runs, c) {
        var i :| 0 <= i < |runs| && runs[i].start <= c < runs[i].end;
        assert (runs + [r])[i] == runs[i];
      } else {
        assert (runs + [r])[|runs|] == r;
      }
    }
  }

  lemma {:induction false} ScanClose(lit: seq<bool>, runs: seq<Span>, start: nat, dark: nat, x: nat, gap: nat)
    requires x < |lit| && !lit[x] && dark + 1 == gap && Scanned(lit, runs, Some(start), dark, x, gap)
    ensures Scanned(lit, runs + [Span(start, x - dark)], None, 0, x + 1, gap)
  {
    ClosingColumn(lit, start, dark, x, gap);
    OneMoreRun(runs, Span(start, x - dark), gap);
    CloseLosesNone(lit, runs, start, dark, x, gap);
  }

  lemma {:induction false} OpenIsShort(lit: seq<bool>, runs: seq<Span>, start: nat, dark: nat, x: nat, gap: nat)
    requires x <= |lit| && Scanned(lit, runs, Some(start), dark, x, gap)
    ensures dark < gap && start + dark < x
  {
  }

  /** One column of the loop of `_glyph_columns`. */
  method ScanColumn(lit: seq<bool>, runs: seq<Span>, start: Option<nat>, dark: nat, x: nat, minGap: int, ghost gap: nat)
      returns (runs': seq<Span>, start': Option<nat>, dark': nat)
    requires x < |lit| && gap == (if minGap < 1 then 1 else minGap) && Scanned(lit, runs, start, dark, x, gap)
    ensures Scanned(lit, runs', start', dark', x + 1, gap)
  {
    if lit[x] {
      ScanLit(lit, runs, start, dark, x, gap);
      return runs, if start.Some? then start else Some(x), 0;
    }
    if start.Some? {
      OpenIsShort(lit, runs, start.value, dark, x, gap);
      if dark + 1 >= minGap {
        ScanClose(lit, runs, start.value, dark, x, gap);
        return runs + [Span(start.value, x - dark)], None, 0;
      }
    }
    ScanDark(lit, runs, start, dark, x, gap);
    return runs, start, if start.Some? then dark + 1 else dark;
  }

  /** `_glyph_columns`, over which columns hold any lit pixel. A gap width below
      one acts as one, because a dark column is counted before the comparison. */
  method GlyphColumns(lit: seq<bool>, minGap: int) returns (runs: seq<Span>)
    ensures Segments(lit, runs, if minGap < 1 then 1 else minGap)
  {
    ghost var gap := if minGap < 1 then 1 else minGap;
    runs := [];
    var start: Option<nat>, dark := None, 0;
    var x := 0;
    while x < |lit|
      invariant x <= |lit|
      invariant Scanned(lit, runs, start, dark, x, gap)
    {
      runs, start, dark := ScanColumn(lit, runs, start, dark, x, minGap, gap);
      x := x + 1;
    }
    if start.Some? {
      OneMoreRun(runs, Span(start.value, |lit|), gap);
      runs := runs + [Span(start.value, |lit|)];
    }
  }
}
