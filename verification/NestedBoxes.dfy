/** nested_boxes.py: one object, one box. Detections of one frame that lie inside
    a larger detection of the same domain are dropped. */
module NestedBoxes {
  import opened MergeBoxes
  import opened Sorting

  /** `score` and `nbytes` stand for the pixels under the box: the score
      `score_crop` gives that region and the size of the region in bytes. */
  datatype Detection = Detection(domain: string, box: Box, confidence: real, score: real, nbytes: nat)

  function Area(b: Box): int {
    (b.x2 - b.x1) * (b.y2 - b.y1)
  }

  /** Intersection over the smaller area. */
  function Containment(a: Box, b: Box): real {
    var w, h := Min(a.x2, b.x2) - Max(a.x1, b.x1), Min(a.y2, b.y2) - Max(a.y1, b.y1);
    if w <= 0 || h <= 0 then 0.0
    else (w * h) as real / Min(Max(1, Area(a)), Max(1, Area(b))) as real
  }

  lemma {:induction false} ContainmentIsSymmetric(a: Box, b: Box)
    ensures Containment(a, b) == Containment(b, a)
  {
  }

  /** A box with some width and some height. */
  predicate Proper(b: Box) {
    b.x1 < b.x2 && b.y1 < b.y2
  }

  lemma {:induction false} ProductGrows(w: int, h: int, w': int, h': int)
    requires 0 < w <= w' && 0 < h <= h'
    ensures 0 < w * h <= w' * h'
  {
    assert w' * h' - w * h == (w' - w) * h' + w * (h' - h);
  }

  lemma {:induction false} ShareOf(part: int, whole: int)
    requires 0 < part <= whole
    ensures 0.0 < part as real / whole as real <= 1.0
    ensures part as real / whole as real * whole as real == part as real
    ensures part == whole ==> part as real / whole as real == 1.0
  {
  }

  /** The width and height of what two boxes share. */
  function SharedWidth(a: Box, b: Box): int { Min(a.x2, b.x2) - Max(a.x1, b.x1) }

  function SharedHeight(a: Box, b: Box): int { Min(a.y2, b.y2) - Max(a.y1, b.y1) }

  function Smaller(a: Box, b: Box): int {
    Min((a.x2 - a.x1) * (a.y2 - a.y1), (b.x2 - b.x1) * (b.y2 - b.y1))
  }

  lemma {:induction false} SharedIsPart(a: Box, b: Box)
    requires Proper(a) && Proper(b) && SharedWidth(a, b) > 0 && SharedHeight(a, b) > 0
    ensures 0 < SharedWidth(a, b) * SharedHeight(a, b) <= Smaller(a, b)
  {
    ProductGrows(SharedWidth(a, b), SharedHeight(a, b), a.x2 - a.x1, a.y2 - a.y1);
    ProductGrows(SharedWidth(a, b), SharedHeight(a, b), b.x2 - b.x1, b.y2 - b.y1);
  }

  lemma {:induction false} ContainmentIs(a: Box, b: Box)
    requires Proper(a) && Proper(b)
    ensures Smaller(a, b) >= 1
    ensures Containment(a, b)
         == if SharedWidth(a, b) <= 0 || SharedHeight(a, b) <= 0 then 0.0
            else (SharedWidth(a, b) * SharedHeight(a, b)) as real / Smaller(a, b) as real
  {
    ProductGrows(1, 1, a.x2 - a.x1, a.y2 - a.y1);
    ProductGrows(1, 1, b.x2 - b.x1, b.y2 - b.y1);
  }

  lemma {:induction false} InsideIsShared(a: Box, b: Box)
    requires Proper(a) && Proper(b) && Inside(a, b)
    ensures SharedWidth(a, b) > 0 && SharedHeight(a, b) > 0
    ensures SharedWidth(a, b) * SharedHeight(a, b) == Smaller(a, b)
  {
    ProductGrows(a.x2 - a.x1, a.y2 - a.y1, b.x2 - b.x1, b.y2 - b.y1);
    assert SharedWidth(a, b) == a.x2 - a.x1 && SharedHeight(a, b) == a.y2 - a.y1;
  }

  /** Two proper boxes share the rectangle between the larger of their left and upper edges and
      the smaller of their right and lower ones. Their containment is its share of the smaller
      of the two: none when there is no such rectangle, all when one box lies inside the other,
      and between the two otherwise. */
  lemma {:induction false} ContainmentIsShare(a: Box, b: Box)
    requires Proper(a) && Proper(b)
    ensures Smaller(a, b) >= 1 && 0.0 <= Containment(a, b) <= 1.0
    ensures SharedWidth(a, b) <= 0 || SharedHeight(a, b) <= 0 ==> Containment(a, b) == 0.0
    ensures SharedWidth(a, b) > 0 && SharedHeight(a, b) > 0 ==>
              0.0 < Containment(a, b)
              && Containment(a, b) * Smaller(a, b) as real == (SharedWidth(a, b) * SharedHeight(a, b)) as real
    ensures Inside(a, b) || Inside(b, a) ==> Containment(a, b) == 1.0
  {
    ContainmentIs(a, b);
    if SharedWidth(a, b) > 0 && SharedHeight(a, b) > 0 {
      SharedIsPart(a, b);
      ShareOf(SharedWidth(a, b) * SharedHeight(a, b), Smaller(a, b));
    }
    if Inside(a, b) {
      InsideIsShared(a, b);
    } else if Inside(b, a) {
      InsideIsShared(b, a);
      assert Smaller(a, b) == Smaller(b, a);
      assert SharedWidth(a, b) == SharedWidth(b, a) && SharedHeight(a, b) == SharedHeight(b, a);
    }
    hide Containment, Smaller, SharedWidth, SharedHeight;
  }

  /** Same domain and nested to the threshold, whichever of the two is larger. */
  predicate Nested(a: Detection, b: Detection, threshold: real) {
    a.domain == b.domain && Containment(a.box, b.box) >= threshold
  }

  lemma {:induction false} NestedIsSymmetric(a: Detection, b: Detection, threshold: real)
    ensures Nested(a, b, threshold) == Nested(b, a, threshold)
  {
    ContainmentIsSymmetric(a.box, b.box);
  }

  // ---- the survivors, stated without any order of visits ------------------------

  /** j is looked at before i: larger, or equally large and earlier in the input. */
  predicate Before(ds: seq<Detection>, j: nat, i: nat)
    requires j < |ds| && i < |ds|
  {
    Area(ds[j].box) > Area(ds[i].box) || (Area(ds[j].box) == Area(ds[i].box) && j < i)
  }

  ghost function LargestArea(ds: seq<Detection>): (m: int)
    ensures forall i :: 0 <= i < |ds| ==> Area(ds[i].box) <= m
  {
    if ds == [] then 0 else Max(LargestArea(ds[..|ds| - 1]), Area(ds[|ds| - 1].box))
  }

  /** A detection survives when no survivor before it nests with it. */
  ghost predicate Survives(ds: seq<Detection>, i: nat, threshold: real)
    requires i < |ds|
    decreases LargestArea(ds) - Area(ds[i].box), i
  {
    !exists j: nat :: j < |ds| && Before(ds, j, i) && Nested(ds[i], ds[j], threshold) && Survives(ds, j, threshold)
  }

  /** The survivors among the first n, in input order. */
  ghost function Kept(ds: seq<Detection>, n: nat, threshold: real): seq<Detection>
    requires n <= |ds|
  {
    if n == 0 then []
    else Kept(ds, n - 1, threshold) + (if Survives(ds, n - 1, threshold) then [ds[n - 1]] else [])
  }

  /** What `suppress_nested` returns. */
  ghost function Suppressed(ds: seq<Detection>, threshold: real): seq<Detection> {
    if threshold <= 0.0 || |ds| < 2 then ds else Kept(ds, |ds|, threshold)
  }

  /** The positions of the survivors among the first n. */
  ghost function KeptAt(ds: seq<Detection>, n: nat, threshold: real): seq<nat>
    requires n <= |ds|
  {
    if n == 0 then []
    else KeptAt(ds, n - 1, threshold) + (if Survives(ds, n - 1, threshold) then [n - 1] else [])
  }

  ghost predicate Increasing(at: seq<nat>) {
    forall a, b :: 0 <= a < b < |at| ==> at[a] < at[b]
  }

  /** sub is the subsequence of ds at the given positions. */
  ghost predicate PickedAt(sub: seq<Detection>, ds: seq<Detection>, at: seq<nat>) {
    && |sub| == |at| && Increasing(at)
    && (forall a :: 0 <= a < |at| ==> at[a] < |ds| && sub[a] == ds[at[a]])
  }

  lemma {:induction false} KeptAtIsBelow(ds: seq<Detection>, n: nat, threshold: real)
    requires n <= |ds|
    ensures forall a :: 0 <= a < |KeptAt(ds, n, threshold)| ==> KeptAt(ds, n, threshold)[a] < n
  {
    hide Survives;
    if n > 0 {
      KeptAtIsBelow(ds, n - 1, threshold);
    }
  }

  /** The result is the input with some elements left out, order unchanged, and
      the positions left out are exactly those that do not survive. */
  lemma {:induction false} KeptIsSubsequence(ds: seq<Detection>, n: nat, threshold: real)
    requires n <= |ds|
    ensures PickedAt(Kept(ds, n, threshold), ds, KeptAt(ds, n, threshold))
    ensures forall a :: 0 <= a < |KeptAt(ds, n, threshold)| ==> KeptAt(ds, n, threshold)[a] < n
  {
    KeptAtIsBelow(ds, n, threshold);
    if n > 0 {
      hide Survives, PickedAt;
      KeptIsSubsequence(ds, n - 1, threshold);
      if Survives(ds, n - 1, threshold) {
        PickOneMore(Kept(ds, n - 1, threshold), ds, KeptAt(ds, n - 1, threshold), n - 1);
      } else {
        assert Kept(ds, n, threshold) == Kept(ds, n - 1, threshold);
        assert KeptAt(ds, n, threshold) == KeptAt(ds, n - 1, threshold);
      }
    }
  }

  lemma {:induction false} PickOneMore(sub: seq<Detection>, ds: seq<Detection>, at: seq<nat>, i: nat)
    requires PickedAt(sub, ds, at) && i < |ds| && forall a :: 0 <= a < |at| ==> at[a] < i
    ensures PickedAt(sub + [ds[i]], ds, at + [i])
  {
  }

  lemma {:induction false} KeptAreSurvivors(ds: seq<Detection>, n: nat, threshold: real)
    requires n <= |ds|
    ensures forall i :: i in KeptAt(ds, n, threshold) <==> 0 <= i < n && Survives(ds, i, threshold)
  {
    if n > 0 {
      KeptAreSurvivors(ds, n - 1, threshold);
    }
  }

  /** No two survivors of one domain are nested. */
  lemma {:induction false} SurvivorsAreApart(ds: seq<Detection>, i: nat, j: nat, threshold: real)
    requires i < |ds| && j < |ds| && i != j
    requires Survives(ds, i, threshold) && Survives(ds, j, threshold)
    ensures !Nested(ds[i], ds[j], threshold)
  {
    NestedIsSymmetric(ds[i], ds[j], threshold);
    assert Before(ds, i, j) || Before(ds, j, i);
  }

  /** Everything dropped lies inside a survivor of its own domain that is at least as large. */
  lemma {:induction false} DroppedIsCovered(ds: seq<Detection>, i: nat, threshold: real) returns (j: nat)
    requires i < |ds| && !Survives(ds, i, threshold)
    ensures j < |ds| && Survives(ds, j, threshold) && ds[j].domain == ds[i].domain
    ensures Containment(ds[i].box, ds[j].box) >= threshold && Area(ds[j].box) >= Area(ds[i].box)
  {
    j :| j < |ds| && Before(ds, j, i) && Nested(ds[i], ds[j], threshold) && Survives(ds, j, threshold);
  }

  ghost predicate PairwiseApart(ds: seq<Detection>, threshold: real) {
    forall a, b :: 0 <= a < b < |ds| ==> !Nested(ds[a], ds[b], threshold)
  }

  lemma {:induction false} KeptIsApart(ds: seq<Detection>, n: nat, threshold: real)
    requires n <= |ds|
    ensures PairwiseApart(Kept(ds, n, threshold), threshold)
  {
    KeptIsSubsequence(ds, n, threshold);
    KeptAreSurvivors(ds, n, threshold);
    var sub, at := Kept(ds, n, threshold), KeptAt(ds, n, threshold);
    forall a, b | 0 <= a < b < |sub|
      ensures !Nested(sub[a], sub[b], threshold)
    {
      assert at[a] in at && at[b] in at;
      assert at[a] != at[b];
      SurvivorsAreApart(ds, at[a], at[b], threshold);
    }
  }

  lemma {:induction false} ApartSurvives(ds: seq<Detection>, i: nat, threshold: real)
    requires i < |ds| && PairwiseApart(ds, threshold)
    ensures Survives(ds, i, threshold)
  {
    forall j: nat | j < |ds| && Before(ds, j, i)
      ensures !Nested(ds[i], ds[j], threshold)
    {
      NestedIsSymmetric(ds[i], ds[j], threshold);
    }
  }

  lemma {:induction false} ApartIsKept(ds: seq<Detection>, n: nat, threshold: real)
    requires n <= |ds| && PairwiseApart(ds, threshold)
    ensures Kept(ds, n, threshold) == ds[..n]
  {
    if n > 0 {
      ApartIsKept(ds, n - 1, threshold);
      ApartSurvives(ds, n - 1, threshold);
    }
  }

  /** With the rule switched on, the result has no nested pair of one domain. */
  lemma {:induction false} SuppressedIsApart(ds: seq<Detection>, threshold: real)
    requires threshold > 0.0
    ensures PairwiseApart(Suppressed(ds, threshold), threshold)
  {
    KeptIsApart(ds, |ds|, threshold);
  }

  /** A threshold of zero or less switches suppression off. */
  lemma {:induction false} OffKeepsAll(ds: seq<Detection>, threshold: real)
    requires threshold <= 0.0
    ensures Suppressed(ds, threshold) == ds
  {
  }

  /** Suppressing twice is suppressing once. */
  lemma {:induction false} SuppressedIsIdempotent(ds: seq<Detection>, threshold: real)
    ensures Suppressed(Suppressed(ds, threshold), threshold) == Suppressed(ds, threshold)
  {
    var once := Suppressed(ds, threshold);
    if threshold > 0.0 {
      SuppressedIsApart(ds, threshold);
      ApartIsKept(once, |once|, threshold);
      assert once[..|once|] == once;
    }
  }

  // ---- suppression and the domain filter commute ----------------------------------

  function OfDomains(ds: seq<Detection>, domains: set<string>): seq<Detection> {
    if ds == [] then []
    else
      OfDomains(ds[..|ds| - 1], domains)
        + (if ds[|ds| - 1].domain in domains then [ds[|ds| - 1]] else [])
  }

  /** Where the detections of the wanted domains are among the first n. */
  ghost function DomainAt(ds: seq<Detection>, n: nat, domains: set<string>): seq<nat>
    requires n <= |ds|
  {
    if n == 0 then []
    else DomainAt(ds, n - 1, domains) + (if ds[n - 1].domain in domains then [n - 1] else [])
  }

  lemma {:induction false} DomainAtIs(ds: seq<Detection>, n: nat, domains: set<string>)
    requires n <= |ds|
    ensures forall i: nat :: i in DomainAt(ds, n, domains) <==> i < n && ds[i].domain in domains
  {
    if n > 0 {
      DomainAtIs(ds, n - 1, domains);
    }
  }

  lemma {:induction false} FilterIsPicked(ds: seq<Detection>, n: nat, domains: set<string>)
    requires n <= |ds|
    ensures PickedAt(OfDomains(ds[..n], domains), ds, DomainAt(ds, n, domains))
    ensures forall a :: 0 <= a < |DomainAt(ds, n, domains)| ==> DomainAt(ds, n, domains)[a] < n
    ensures forall i :: 0 <= i < n && ds[i].domain in domains ==> i in DomainAt(ds, n, domains)
  {
    DomainAtIs(ds, n, domains);
    if n > 0 {
      hide PickedAt, Increasing;
      FilterIsPicked(ds, n - 1, domains);
      assert ds[..n][..n - 1] == ds[..n - 1];
      var sub, at := OfDomains(ds[..n - 1], domains), DomainAt(ds, n - 1, domains);
      if ds[n - 1].domain in domains {
        PickOneMore(sub, ds, at, n - 1);
      } else {
        assert OfDomains(ds[..n], domains) == sub && DomainAt(ds, n, domains) == at;
      }
    }
  }

  lemma {:induction false} DomainAtIsPrefix(ds: seq<Detection>, n: nat, m: nat, domains: set<string>)
    requires n <= m <= |ds|
    ensures DomainAt(ds, n, domains) <= DomainAt(ds, m, domains)
    decreases m
  {
    if n < m {
      DomainAtIsPrefix(ds, n, m - 1, domains);
    }
  }

  /** sub picks from ds every detection that could nest with one it picks. */
  ghost predicate DomainClosed(sub: seq<Detection>, ds: seq<Detection>, at: seq<nat>) {
    PickedAt(sub, ds, at)
    && forall a, i :: 0 <= a < |at| && 0 <= i < |ds| && ds[i].domain == ds[at[a]].domain ==> i in at
  }

  /** Being looked at earlier is the same in the picked list as in the whole. */
  lemma {:induction false} BeforeIsLocal(sub: seq<Detection>, ds: seq<Detection>, at: seq<nat>, j: nat, k: nat)
    requires PickedAt(sub, ds, at) && j < |sub| && k < |sub|
    ensures Before(sub, j, k) <==> Before(ds, at[j], at[k])
  {
    assert j < k ==> at[j] < at[k];
    assert k < j ==> at[k] < at[j];
  }

  /** Survival depends on the detections of one's own domain only. */
  lemma {:induction false} SurvivalIsLocal(
    sub: seq<Detection>, ds: seq<Detection>, at: seq<nat>, k: nat, threshold: real)
    requires DomainClosed(sub, ds, at) && k < |sub|
    ensures Survives(sub, k, threshold) <==> Survives(ds, at[k], threshold)
    decreases LargestArea(ds) - Area(ds[at[k]].box), at[k]
  {
    if !Survives(sub, k, threshold) {
      var j: nat :| j < |sub| && Before(sub, j, k) && Nested(sub[k], sub[j], threshold) && Survives(sub, j, threshold);
      BeforeIsLocal(sub, ds, at, j, k);
      SurvivalIsLocal(sub, ds, at, j, threshold);
      SurvivorBefore(ds, at[j], at[k], threshold);
    } else if !Survives(ds, at[k], threshold) {
      var i: nat :| i < |ds| && Before(ds, i, at[k]) && Nested(ds[at[k]], ds[i], threshold)
                        && Survives(ds, i, threshold);
      assert ds[i].domain == ds[at[k]].domain;
      var j: nat :| j < |at| && at[j] == i;
      BeforeIsLocal(sub, ds, at, j, k);
      SurvivalIsLocal(sub, ds, at, j, threshold);
      SurvivorBefore(sub, j, k, threshold);
    }
  }

  lemma {:induction false} SurvivorBefore(ds: seq<Detection>, j: nat, i: nat, threshold: real)
    requires j < |ds| && i < |ds| && Before(ds, j, i)
    requires Nested(ds[i], ds[j], threshold) && Survives(ds, j, threshold)
    ensures !Survives(ds, i, threshold)
  {
  }

  lemma {:induction false} FilterOfAppend(ds: seq<Detection>, more: seq<Detection>, domains: set<string>)
    requires |more| <= 1
    ensures OfDomains(ds + more, domains) == OfDomains(ds, domains) + OfDomains(more, domains)
  {
    if more == [] {
      assert ds + more == ds;
    } else {
      assert (ds + more)[..|ds|] == ds && more[..0] == [];
    }
  }

  lemma {:induction false} KeptCommutes(ds: seq<Detection>, n: nat, domains: set<string>, threshold: real)
    requires n <= |ds|
    requires DomainClosed(OfDomains(ds, domains), ds, DomainAt(ds, |ds|, domains))
    requires |DomainAt(ds, n, domains)| <= |OfDomains(ds, domains)|
    ensures OfDomains(Kept(ds, n, threshold), domains)
         == Kept(OfDomains(ds, domains), |DomainAt(ds, n, domains)|, threshold)
  {
    if n > 0 {
      var sub, at, m := OfDomains(ds, domains), DomainAt(ds, |ds|, domains), |DomainAt(ds, n - 1, domains)|;
      var last := if Survives(ds, n - 1, threshold) then [ds[n - 1]] else [];
      KeptCommutes(ds, n - 1, domains, threshold);
      FilterOfAppend(Kept(ds, n - 1, threshold), last, domains);
      if ds[n - 1].domain in domains {
        DomainAtIsPrefix(ds, n, |ds|, domains);
        assert DomainAt(ds, n, domains)[m] == n - 1 == at[m];
        SurvivalIsLocal(sub, ds, at, m, threshold);
        assert OfDomains(last, domains) == last by {
          assert last == [] || last[..0] == [];
        }
      } else {
        assert OfDomains(last, domains) == [] by {
          assert last == [] || last[..0] == [];
        }
      }
    }
  }

  /** Filtering by domain before or after suppression gives the same detections:
      the two pipelines, which do it in opposite orders, agree. */
  lemma {:induction false} SuppressionCommutesWithFilter(ds: seq<Detection>, domains: set<string>, threshold: real)
    ensures OfDomains(Suppressed(ds, threshold), domains) == Suppressed(OfDomains(ds, domains), threshold)
  {
    var sub, at := OfDomains(ds, domains), DomainAt(ds, |ds|, domains);
    FilterIsPicked(ds, |ds|, domains);
    assert ds[..|ds|] == ds;
    if threshold > 0.0 {
      FilterDomains(ds, domains);
      KeptCommutes(ds, |ds|, domains, threshold);
      FewAreKept(ds, threshold);
      FewAreKept(sub, threshold);
    }
  }

  lemma {:induction false} FilterDomains(ds: seq<Detection>, domains: set<string>)
    ensures forall d :: d in OfDomains(ds, domains) ==> d.domain in domains
  {
    if ds != [] {
      FilterDomains(ds[..|ds| - 1], domains);
    }
  }

  lemma {:induction false} FewAreKept(ds: seq<Detection>, threshold: real)
    ensures |ds| < 2 ==> Kept(ds, |ds|, threshold) == ds
  {
    if |ds| < 2 {
      ApartIsKept(ds, |ds|, threshold);
      assert ds[..|ds|] == ds;
    }
  }

  // ---- the one-pass loop --------------------------------------------------------------

  function BySize(ds: seq<Detection>): (r: seq<Keyed<int>>)
    ensures |r| == |ds|
    ensures forall i :: 0 <= i < |ds| ==> r[i] == Keyed(-Area(ds[i].box) as real, i)
  {
    seq(|ds|, i requires 0 <= i < |ds| => Keyed(-Area(ds[i].box) as real, i))
  }

  function Positions(ks: seq<Keyed<int>>): (r: seq<int>)
    ensures |r| == |ks|
    ensures forall i :: 0 <= i < |ks| ==> r[i] == ks[i].val
  {
    seq(|ks|, i requires 0 <= i < |ks| => ks[i].val)
  }

  ghost predicate Within(ds: seq<Detection>, order: seq<int>) {
    forall a :: 0 <= a < |order| ==> 0 <= order[a] < |ds|
  }

  /** The order of visits reaches every position, each after all those before it. */
  ghost predicate VisitsInOrder(ds: seq<Detection>, order: seq<int>) {
    && Within(ds, order)
    && (forall a, b :: 0 <= a < b < |order| ==> Before(ds, order[a], order[b]))
    && (forall i :: 0 <= i < |ds| ==> i in order)
  }

  lemma {:induction false} LargestFirst(ds: seq<Detection>)
    ensures VisitsInOrder(ds, Positions(Sort(BySize(ds))))
  {
    var ks := BySize(ds);
    var sorted := Sort(ks);
    var order := Positions(sorted);
    SortIsStable(ks);
    SortMembers(ks);
    forall a | 0 <= a < |order|
      ensures 0 <= order[a] < |ds| && sorted[a].key == -Area(ds[order[a]].box) as real
    {
      assert sorted[a] in ks;
    }
    forall i | 0 <= i < |ds|
      ensures i in order
    {
      assert ks[i] in sorted;
      var a :| 0 <= a < |sorted| && sorted[a] == ks[i];
      assert order[a] == i;
    }
    forall a, b | 0 <= a < b < |order|
      ensures Before(ds, order[a], order[b])
    {
      assert sorted[a].key <= sorted[b].key;
    }
  }

  /** kept holds exactly the survivors among the first n visited, dropped the others. */
  ghost predicate Decided(
    ds: seq<Detection>, order: seq<int>, n: nat, kept: seq<int>, dropped: set<int>, threshold: real)
    requires n <= |order| && Within(ds, order)
  {
    && (forall x :: x in kept ==> x in order[..n])
    && (forall x :: x in dropped ==> x in order[..n])
    && (forall a :: 0 <= a < n ==> (order[a] in kept <==> Survives(ds, order[a], threshold)))
    && (forall a :: 0 <= a < n ==> (order[a] in dropped <==> !Survives(ds, order[a], threshold)))
  }

  lemma {:induction false} VisitedEarlier(ds: seq<Detection>, order: seq<int>, n: nat, j: int)
    requires VisitsInOrder(ds, order) && n < |order| && 0 <= j < |ds|
    requires Before(ds, j, order[n])
    ensures exists a :: 0 <= a < n && order[a] == j
  {
    assert j in order;
    var a :| 0 <= a < |order| && order[a] == j;
    assert order[a] == j;
  }

  /** Once everything before i has been decided, one scan of the kept decides i. */
  lemma {:induction false} OnePassIsEnough(
    ds: seq<Detection>, order: seq<int>, n: nat, kept: seq<int>, dropped: set<int>, threshold: real)
    requires VisitsInOrder(ds, order) && n < |order| && Decided(ds, order, n, kept, dropped, threshold)
    ensures Survives(ds, order[n], threshold) <==> !CoveredBy(ds, order[n], kept, threshold)
  {
    var i := order[n];
    if !Survives(ds, i, threshold) {
      var j: nat :| j < |ds| && Before(ds, j, i) && Nested(ds[i], ds[j], threshold) && Survives(ds, j, threshold);
      VisitedEarlier(ds, order, n, j);
      assert j in kept;
    }
    if CoveredBy(ds, i, kept, threshold) {
      var x :| x in kept && 0 <= x < |ds| && Nested(ds[i], ds[x], threshold);
      assert x in order[..n];
      var a :| 0 <= a < n && order[..n][a] == x;
      assert order[a] == x;
      assert Before(ds, x, i) && Survives(ds, x, threshold);
    }
  }

  ghost predicate CoveredBy(ds: seq<Detection>, i: int, kept: seq<int>, threshold: real)
    requires 0 <= i < |ds|
  {
    exists x :: x in kept && 0 <= x < |ds| && Nested(ds[i], ds[x], threshold)
  }

  lemma {:induction false} DecideNext(
    ds: seq<Detection>, order: seq<int>, n: nat, kept: seq<int>, dropped: set<int>, threshold: real)
    requires VisitsInOrder(ds, order) && n < |order| && Decided(ds, order, n, kept, dropped, threshold)
    ensures Survives(ds, order[n], threshold) ==> Decided(ds, order, n + 1, kept + [order[n]], dropped, threshold)
    ensures !Survives(ds, order[n], threshold) ==> Decided(ds, order, n + 1, kept, dropped + {order[n]}, threshold)
  {
    assert order[..n + 1] == order[..n] + [order[n]];
    assert forall a :: 0 <= a < n ==> order[a] != order[n] by {
      forall a | 0 <= a < n
        ensures order[a] != order[n]
      {
        assert Before(ds, order[a], order[n]);
      }
    }
  }

  /** The inner loop: is detection i nested with one already kept? */
  method FindCover(ds: seq<Detection>, i: int, kept: seq<int>, threshold: real) returns (covered: bool)
    requires 0 <= i < |ds| && Within(ds, kept)
    ensures covered == CoveredBy(ds, i, kept, threshold)
  {
    covered := false;
    var m := 0;
    while m < |kept| && !covered
      invariant m <= |kept|
      invariant !covered ==> forall a :: 0 <= a < m ==> !Nested(ds[i], ds[kept[a]], threshold)
      invariant covered ==> CoveredBy(ds, i, kept, threshold)
    {
      var other := ds[kept[m]];
      if other.domain == ds[i].domain && Containment(ds[i].box, other.box) >= threshold {
        assert kept[m] in kept && Nested(ds[i], ds[kept[m]], threshold);
        covered := true;
      }
      m := m + 1;
    }
  }

  /** `suppress_nested(detections, threshold)`. */
  method SuppressNested(ds: seq<Detection>, threshold: real) returns (r: seq<Detection>)
    ensures r == Suppressed(ds, threshold)
  {
    if threshold <= 0.0 || |ds| < 2 {
      return ds;
    }
    var order := Positions(Sort(BySize(ds)));
    LargestFirst(ds);
    var kept: seq<int>, dropped: set<int> := [], {};
    var n := 0;
    while n < |order|
      invariant n <= |order| && Within(ds, kept)
      invariant Decided(ds, order, n, kept, dropped, threshold)
    {
      OnePassIsEnough(ds, order, n, kept, dropped, threshold);
      DecideNext(ds, order, n, kept, dropped, threshold);
      var covered := FindCover(ds, order[n], kept, threshold);
      if covered {
        dropped := dropped + {order[n]};
      } else {
        kept := kept + [order[n]];
      }
      n := n + 1;
    }
    r := LeaveOut(ds, order, kept, dropped, threshold);
  }

  /** `[d for i, d in enumerate(detections) if i not in dropped]`. */
  method LeaveOut(ds: seq<Detection>, ghost order: seq<int>, ghost kept: seq<int>, dropped: set<int>, threshold: real)
      returns (r: seq<Detection>)
    requires VisitsInOrder(ds, order) && Decided(ds, order, |order|, kept, dropped, threshold)
    ensures r == Kept(ds, |ds|, threshold)
  {
    r := [];
    var k := 0;
    while k < |ds|
      invariant k <= |ds| && r == Kept(ds, k, threshold)
    {
      assert k in order;
      if k !in dropped {
        r := r + [ds[k]];
      }
      k := k + 1;
    }
  }
}
