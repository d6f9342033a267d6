/** motion.py, `merge_boxes`: the bounded-pass union of touching boxes. */
module MergeBoxes {

  datatype Box = Box(x1: int, y1: int, x2: int, y2: int)

  function Min(a: int, b: int): int { if a <= b then a else b }
  function Max(a: int, b: int): int { if a >= b then a else b }

  predicate Touch(b: Box, m: Box) {
    b.x1 <= m.x2 && m.x1 <= b.x2 && b.y1 <= m.y2 && m.y1 <= b.y2
  }

  function Union(m: Box, b: Box): Box {
    Box(Min(m.x1, b.x1), Min(m.y1, b.y1), Max(m.x2, b.x2), Max(m.y2, b.y2))
  }

  /** The point lies in the box, its edges included. */
  predicate Holds(b: Box, x: int, y: int) {
    b.x1 <= x <= b.x2 && b.y1 <= y <= b.y2
  }

  /** Two boxes touch exactly when some point lies in both. */
  lemma {:induction false} TouchIsSharedPoint(b: Box, m: Box)
    requires b.x1 <= b.x2 && b.y1 <= b.y2 && m.x1 <= m.x2 && m.y1 <= m.y2
    ensures Touch(b, m) <==> exists x, y :: Holds(b, x, y) && Holds(m, x, y)
  {
    if Touch(b, m) {
      var x, y := Max(b.x1, m.x1), Max(b.y1, m.y1);
      assert Holds(b, x, y) && Holds(m, x, y);
    }
  }

  ghost predicate Apart(boxes: seq<Box>) {
    forall i, j :: 0 <= i < j < |boxes| ==> !Touch(boxes[j], boxes[i])
  }

  // ---- one pass, and the bounded iteration ---------------------------------

  /** The first merged box that b touches, or the length when it touches none. */
  function FirstTouching(merged: seq<Box>, b: Box): (i: nat)
    ensures i <= |merged|
    ensures i < |merged| ==> Touch(b, merged[i])
    ensures forall k :: 0 <= k < i ==> !Touch(b, merged[k])
  {
    if merged == [] then 0
    else
      var i := FirstTouching(merged[..|merged| - 1], b);
      if i < |merged| - 1 || Touch(b, merged[i]) then i else i + 1
  }

  function Absorb(merged: seq<Box>, b: Box): seq<Box> {
    var i := FirstTouching(merged, b);
    if i < |merged| then merged[i := Union(merged[i], b)] else merged + [b]
  }

  function Pass(boxes: seq<Box>): seq<Box> {
    if boxes == [] then [] else Absorb(Pass(boxes[..|boxes| - 1]), boxes[|boxes| - 1])
  }

  function Merge(boxes: seq<Box>, passes: int): seq<Box>
    decreases passes
  {
    if passes <= 0 then boxes
    else
      var merged := Pass(boxes);
      if |merged| == |boxes| then merged else Merge(merged, passes - 1)
  }

  // ---- every result box is the exact bounding box of a group ----------------

  ghost predicate Inside(b: Box, r: Box) {
    r.x1 <= b.x1 && r.y1 <= b.y1 && b.x2 <= r.x2 && b.y2 <= r.y2
  }

  datatype Side = Left | Top | Right | Bottom

  function Edge(b: Box, side: Side): int {
    match side case Left => b.x1 case Top => b.y1 case Right => b.x2 case Bottom => b.y2
  }

  ghost predicate EdgeAttained(boxes: seq<Box>, g: seq<nat>, k: nat, side: Side, at: int)
    requires |g| == |boxes|
  {
    exists i :: 0 <= i < |g| && g[i] == k && Edge(boxes[i], side) == at
  }

  /** Each edge of r is the edge of some box that g puts in group k. */
  ghost predicate Attained(boxes: seq<Box>, g: seq<nat>, k: nat, r: Box)
    requires |g| == |boxes|
  {
    forall side :: EdgeAttained(boxes, g, k, side, Edge(r, side))
  }

  /** g assigns every input box to one result box, and every result box is the
      least box around those assigned to it. */
  ghost predicate Grouped(boxes: seq<Box>, result: seq<Box>, g: seq<nat>) {
    && |g| == |boxes|
    && (forall i :: 0 <= i < |g| ==> g[i] < |result| && Inside(boxes[i], result[g[i]]))
    && (forall k :: 0 <= k < |result| ==> Attained(boxes, g, k, result[k]))
  }

  lemma {:induction false} EdgeStays(boxes: seq<Box>, g: seq<nat>, k: nat, side: Side, at: int, b: Box, j: nat)
    requires |g| == |boxes| && EdgeAttained(boxes, g, k, side, at)
    ensures EdgeAttained(boxes + [b], g + [j], k, side, at)
  {
    var i :| 0 <= i < |g| && g[i] == k && Edge(boxes[i], side) == at;
    assert (g + [j])[i] == k && (boxes + [b])[i] == boxes[i];
  }

  lemma {:induction false} AttainedMore(boxes: seq<Box>, g: seq<nat>, k: nat, r: Box, b: Box, j: nat)
    requires |g| == |boxes| && Attained(boxes, g, k, r)
    ensures Attained(boxes + [b], g + [j], k, if j == k then Union(r, b) else r)
  {
    var grown := if j == k then Union(r, b) else r;
    forall side
      ensures EdgeAttained(boxes + [b], g + [j], k, side, Edge(grown, side))
    {
      EdgeStays(boxes, g, k, side, Edge(r, side), b, j);
      assert (g + [j])[|g|] == j && (boxes + [b])[|g|] == b;
    }
  }

  lemma {:induction false} AbsorbGroups(boxes: seq<Box>, merged: seq<Box>, g: seq<nat>, b: Box) returns (h: seq<nat>)
    requires Grouped(boxes, merged, g)
    ensures Grouped(boxes + [b], Absorb(merged, b), h)
  {
    var j := FirstTouching(merged, b);
    var result := Absorb(merged, b);
    h := g + [j];
    forall k | 0 <= k < |result|
      ensures Attained(boxes + [b], h, k, result[k])
    {
      if k < |merged| {
        AttainedMore(boxes, g, k, merged[k], b, j);
      } else {
        assert h[|g|] == k && (boxes + [b])[|g|] == b;
      }
    }
  }

  lemma {:induction false} PassGroups(boxes: seq<Box>) returns (g: seq<nat>)
    ensures Grouped(boxes, Pass(boxes), g)
  {
    if boxes == [] {
      g := [];
    } else {
      var init, b := boxes[..|boxes| - 1], boxes[|boxes| - 1];
      var before := PassGroups(init);
      g := AbsorbGroups(init, Pass(init), before, b);
      assert Pass(boxes) == Absorb(Pass(init), b) && init + [b] == boxes;
    }
  }

  /** Following g and then h. */
  ghost function Through(g: seq<nat>, h: seq<nat>): (r: seq<nat>)
    requires forall i :: 0 <= i < |g| ==> g[i] < |h|
    ensures |r| == |g| && forall i :: 0 <= i < |g| ==> r[i] == h[g[i]]
  {
    seq(|g|, i requires 0 <= i < |g| => h[g[i]])
  }

  lemma {:induction false} AttainedThrough(boxes: seq<Box>, middle: seq<Box>, g: seq<nat>, h: seq<nat>, k: nat, r: Box)
    requires Grouped(boxes, middle, g) && |h| == |middle| && Attained(middle, h, k, r)
    ensures Attained(boxes, Through(g, h), k, r)
  {
    forall side
      ensures EdgeAttained(boxes, Through(g, h), k, side, Edge(r, side))
    {
      assert EdgeAttained(middle, h, k, side, Edge(r, side));
      var j :| 0 <= j < |h| && h[j] == k && Edge(middle[j], side) == Edge(r, side);
      assert Attained(boxes, g, j, middle[j]);
      assert EdgeAttained(boxes, g, j, side, Edge(middle[j], side));
      var i :| 0 <= i < |g| && g[i] == j && Edge(boxes[i], side) == Edge(middle[j], side);
      assert Through(g, h)[i] == k;
    }
  }

  /** Grouping the groups is a grouping of the original boxes. */
  lemma {:induction false} GroupsCompose(boxes: seq<Box>, middle: seq<Box>, result: seq<Box>, g: seq<nat>, h: seq<nat>)
    requires Grouped(boxes, middle, g) && Grouped(middle, result, h)
    ensures Grouped(boxes, result, Through(g, h))
  {
    forall k | 0 <= k < |result|
      ensures Attained(boxes, Through(g, h), k, result[k])
    {
      AttainedThrough(boxes, middle, g, h, k, result[k]);
    }
    forall i | 0 <= i < |g|
      ensures Inside(boxes[i], result[h[g[i]]])
    {
      assert Inside(boxes[i], middle[g[i]]) && Inside(middle[g[i]], result[h[g[i]]]);
    }
  }

  lemma {:induction false} GroupsOfOne(boxes: seq<Box>) returns (g: seq<nat>)
    ensures Grouped(boxes, boxes, g)
  {
    g := seq(|boxes|, i => i);
    forall k | 0 <= k < |boxes|
      ensures Attained(boxes, g, k, boxes[k])
    {
      assert g[k] == k;
    }
  }

  /** Whatever the number of passes, the result partitions the input into groups
      and each result box is exactly the bounding box of its group. */
  lemma {:induction false} MergeGroups(boxes: seq<Box>, passes: int) returns (g: seq<nat>)
    ensures Grouped(boxes, Merge(boxes, passes), g)
    decreases passes
  {
    if passes <= 0 {
      g := GroupsOfOne(boxes);
    } else {
      var once := PassGroups(boxes);
      var merged := Pass(boxes);
      if |merged| == |boxes| {
        g := once;
      } else {
        var rest := MergeGroups(merged, passes - 1);
        assert Merge(boxes, passes) == Merge(merged, passes - 1);
        GroupsCompose(boxes, merged, Merge(boxes, passes), once, rest);
        g := Through(once, rest);
      }
    }
  }

  // ---- when the result is pairwise apart ---------------------------------------

  lemma {:induction false} PassNeverGrows(boxes: seq<Box>)
    ensures |Pass(boxes)| <= |boxes|
  {
    if boxes != [] {
      PassNeverGrows(boxes[..|boxes| - 1]);
    }
  }

  /** A pass keeps the count exactly when no two boxes touch, and then it is the identity. */
  lemma {:induction false} StillPass(boxes: seq<Box>)
    ensures |Pass(boxes)| == |boxes| <==> Apart(boxes)
    ensures Apart(boxes) ==> Pass(boxes) == boxes
  {
    if boxes != [] {
      var init, b := boxes[..|boxes| - 1], boxes[|boxes| - 1];
      assert boxes == init + [b];
      StillPass(init);
      PassNeverGrows(init);
      if Apart(boxes) {
        assert Apart(init);
        assert forall k :: 0 <= k < |init| ==> !Touch(b, boxes[k]);
      }
    }
  }

  /** Some pass among the first `passes` finds nothing to merge. */
  ghost predicate StopsEarly(boxes: seq<Box>, passes: int)
    decreases passes
  {
    passes > 0 && (|Pass(boxes)| == |boxes| || StopsEarly(Pass(boxes), passes - 1))
  }

  lemma {:induction false} MergeNeverGrows(boxes: seq<Box>, passes: int)
    ensures |Merge(boxes, passes)| <= |boxes|
    decreases passes
  {
    if passes > 0 {
      PassNeverGrows(boxes);
      if |Pass(boxes)| != |boxes| {
        MergeNeverGrows(Pass(boxes), passes - 1);
      }
    }
  }

  /** Stopping early, or having at most `passes + 1` boxes, leaves nothing touching. */
  lemma {:induction false} MergeSeparates(boxes: seq<Box>, passes: int)
    requires StopsEarly(boxes, passes) || |boxes| <= passes + 1
    ensures Apart(Merge(boxes, passes))
    decreases passes
  {
    if passes > 0 {
      PassNeverGrows(boxes);
      StillPass(boxes);
      if |Pass(boxes)| != |boxes| {
        MergeSeparates(Pass(boxes), passes - 1);
      }
    }
  }

  /** For any input at all: the result is pairwise apart exactly when some pass among
      the first `passes + 1` would find nothing to merge. */
  lemma {:induction false} MergeSeparatesExactly(boxes: seq<Box>, passes: int)
    ensures Apart(Merge(boxes, passes)) <==> StopsEarly(boxes, Max(passes, 0) + 1)
    decreases passes
  {
    StillPass(boxes);
    hide Apart, Pass;
    if passes > 0 && |Pass(boxes)| != |boxes| {
      MergeSeparatesExactly(Pass(boxes), passes - 1);
    }
  }

  // ---- the bound is tight ---------------------------------------------------------

  /** The k-th step of a staircase: a thin upright box at x = k - 1 on height k - 1. */
  function Stair(k: nat): Box
    requires k >= 1
  {
    Box(k - 1, k - 1, k - 1, k)
  }

  /** The steps m, m - 1, ..., k + 1. */
  function Stairs(k: nat, m: nat): (s: seq<Box>)
    ensures |s| == if k < m then m - k else 0
    ensures forall i :: 0 <= i < |s| ==> s[i] == Stair(m - i)
    decreases m - k
  {
    if k >= m then [] else Stairs(k + 1, m) + [Stair(k + 1)]
  }

  /** A floor grown to height k, then the steps above it, the highest first. */
  function Climbed(k: nat, m: nat): seq<Box> {
    [Box(0, 0, m, k)] + Stairs(k, m)
  }

  /** Only the last step touches the floor, and no step touches another. */
  lemma {:induction false} OnlyLastTouches(k: nat, m: nat)
    requires k < m
    ensures Apart([Box(0, 0, m, k)] + Stairs(k + 1, m)) && Touch(Stair(k + 1), Box(0, 0, m, k))
  {
  }

  lemma {:induction false} PassThenLast(below: seq<Box>, b: Box)
    requires Apart(below) && below != [] && Touch(b, below[0])
    ensures Pass(below + [b]) == below[0 := Union(below[0], b)]
  {
    StillPass(below);
    assert (below + [b])[..|below|] == below;
    FirstIsUnique(below, b, 0);
  }

  lemma {:induction false} ClimbOne(k: nat, m: nat)
    requires k < m
    ensures Pass(Climbed(k, m)) == Climbed(k + 1, m)
  {
    hide Pass, Apart, Touch;
    var floor := Box(0, 0, m, k);
    var below := [floor] + Stairs(k + 1, m);
    OnlyLastTouches(k, m);
    PassThenLast(below, Stair(k + 1));
    assert Climbed(k, m) == below + [Stair(k + 1)];
    assert below[0 := Box(0, 0, m, k + 1)] == Climbed(k + 1, m);
  }

  lemma {:induction false} ClimbAll(k: nat, m: nat, passes: nat)
    requires k + passes < m
    ensures Merge(Climbed(k, m), passes) == Climbed(k + passes, m)
    decreases passes
  {
    if passes > 0 {
      ClimbOne(k, m);
      ClimbAll(k + 1, m, passes - 1);
    }
  }

  /** For every number of passes there are passes + 2 boxes that end still touching:
      the bound above cannot be raised for any of them. */
  lemma {:induction false} OneMoreBoxCanStillTouch(passes: nat)
    ensures |Climbed(0, passes + 1)| == passes + 2 && !Apart(Merge(Climbed(0, passes + 1), passes))
  {
    var m := passes + 1;
    ClimbAll(0, m, passes);
    var last := Climbed(passes, m);
    assert last[0] == Box(0, 0, m, passes) && last[1] == Stair(m);
    assert Touch(last[1], last[0]);
  }

  // ---- the loops ---------------------------------------------------------------

  /** The body of one pass: every box into the first merged box it touches. */
  method OnePass(boxes: seq<Box>) returns (merged: seq<Box>)
    ensures merged == Pass(boxes)
  {
    merged := [];
    var n := 0;
    while n < |boxes|
      invariant n <= |boxes| && merged == Pass(boxes[..n])
    {
      var b := boxes[n];
      var i := 0;
      while i < |merged| && !Touch(b, merged[i])
        invariant i <= |merged| && forall k :: 0 <= k < i ==> !Touch(b, merged[k])
      {
        i := i + 1;
      }
      FirstIsUnique(merged, b, i);
      assert boxes[..n + 1][..n] == boxes[..n];
      if i < |merged| {
        merged := merged[i := Union(merged[i], b)];
      } else {
        merged := merged + [b];
      }
      n := n + 1;
    }
    assert boxes[..n] == boxes;
  }

  /** `merge_boxes(boxes, passes)`. */
  method UnionTouching(boxes: seq<Box>, passes: int) returns (r: seq<Box>)
    ensures r == Merge(boxes, passes)
    ensures |r| <= |boxes|
    ensures |boxes| <= passes + 1 ==> Apart(r)
    ensures exists g :: Grouped(boxes, r, g)
  {
    MergeNeverGrows(boxes, passes);
    if |boxes| <= passes + 1 {
      MergeSeparates(boxes, passes);
    }
    ghost var g := MergeGroups(boxes, passes);
    r := boxes;
    var left := passes;
    while left > 0
      invariant Merge(boxes, passes) == Merge(r, left)
      decreases left
    {
      var merged := OnePass(r);
      if |merged| == |r| {
        return merged;
      }
      r, left := merged, left - 1;
    }
  }

  lemma {:induction false} FirstIsUnique(merged: seq<Box>, b: Box, i: nat)
    requires i <= |merged| && (i < |merged| ==> Touch(b, merged[i]))
    requires forall k :: 0 <= k < i ==> !Touch(b, merged[k])
    ensures FirstTouching(merged, b) == i
  {
  }
}
