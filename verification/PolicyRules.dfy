/** indexing_policy.py: what each rule says of the boxes, times and confidences of a track's
    last record and of the observation now, and what the policy counts. */
module PolicyRules {
  import opened Association
  import opened NestedBoxes
  import opened Policy
  import Reals

  /** The policy remembers of the track a record of this detection at this time. */
  ghost predicate Anchored(p: Policy, id: string, d: Detection, ts: real) {
    p.cfg.suppression && id in p.anchors && p.anchors[id] == AnchorFor(d, ts)
  }

  /** The height of a detection's box in pixels, at least one. */
  function Height(d: Detection): int {
    if d.box.y2 > d.box.y1 then d.box.y2 - d.box.y1 else 1
  }

  function Width(d: Detection): int {
    d.box.x2 - d.box.x1
  }

  predicate InInterval(p: Policy, since: real, ts: real) {
    p.cfg.interval > 0.0 && ts - since < p.cfg.interval
  }

  lemma {:induction false} HeightsAgree(d: Detection)
    ensures HeightOf(d) == Height(d) as real
  {
  }

  /** The settings are kept as given, but the ratio above one, the persistence at least one
      and the interval not negative. */
  lemma {:induction false} SettingsAreBounded(s: Settings)
    ensures var b := Start(s).cfg;
            && b.ratio > 1.0 && (s.ratio >= b.ratio || b.ratio == 1.000001)
            && (s.ratio > 1.000001 ==> b.ratio == s.ratio)
            && b.persist >= 1 && (s.persist >= 1 ==> b.persist == s.persist) && (s.persist < 1 ==> b.persist == 1)
            && b.interval >= 0.0 && (s.interval >= 0.0 ==> b.interval == s.interval)
            && b.suppression == s.suppression && b.displacement == s.displacement
            && b.heartbeat == s.heartbeat && b.gain == s.gain
  {
  }

  /** With suppression off every observation is recorded, for that reason; with it on, every one
      of a track with no record is, as first sight, and no other. */
  lemma {:induction false} AlwaysRecorded(p: Policy, id: string, d: Detection, ts: real)
    ensures !p.cfg.suppression <==> Decision(p, id, d, ts) == Some(SuppressionOff)
    ensures p.cfg.suppression && id !in p.anchors <==> Decision(p, id, d, ts) == Some(FirstSight)
  {
    hide MovedFar, ScaleDiffers, AreaOf, HeightOf;
  }

  // ---- displacement ---------------------------------------------------------------------------------

  lemma {:induction false} Far(dx: real, dy: real, least: real)
    requires least > 0.0
    ensures dx >= least || dx <= -least || dy >= least || dy <= -least ==> Square(dx) + Square(dy) >= least * least
    ensures -least < 2.0 * dx < least && -least < 2.0 * dy < least ==> Square(dx) + Square(dy) < least * least
  {
    Reals.AtLeast(dx, least);
    Reals.AtLeast(dy, least);
    Reals.LessThanHalf(dx, least);
    Reals.LessThanHalf(dy, least);
    Reals.PositiveProduct(least, least, least * least);
    assert Square(dx) == dx * dx && Square(dy) == dy * dy;
  }

  /** How far the bottom centre is off, across and down. */
  function Across(d0: Detection, d: Detection): real {
    (d.box.x1 + d.box.x2 - d0.box.x1 - d0.box.x2) as real / 2.0
  }

  function Down(d0: Detection, d: Detection): real {
    (d.box.y2 - d0.box.y2) as real
  }

  /** The displacement setting in pixels: so many times the mean of the two heights. */
  function Least(cfg: Settings, d0: Detection, d: Detection): real {
    cfg.displacement * ((Height(d) + Height(d0)) as real / 2.0)
  }

  /** Off by that much in one direction at least. */
  predicate FarOff(cfg: Settings, d0: Detection, d: Detection) {
    var dx, dy, least := Across(d0, d), Down(d0, d), Least(cfg, d0, d);
    dx >= least || dx <= -least || dy >= least || dy <= -least
  }

  /** Off by less than half of it in both. */
  predicate NearBy(cfg: Settings, d0: Detection, d: Detection) {
    var dx, dy, least := Across(d0, d), Down(d0, d), Least(cfg, d0, d);
    -least < 2.0 * dx < least && -least < 2.0 * dy < least
  }

  /** The same bottom centre. */
  predicate SameFoot(d0: Detection, d: Detection) {
    d.box.x1 + d.box.x2 == d0.box.x1 + d0.box.x2 && d.box.y2 == d0.box.y2
  }

  lemma {:induction false} MovedTerms(cfg: Settings, d0: Detection, ts0: real, d: Detection)
    requires cfg.displacement > 0.0
    ensures var dx, dy, least := Across(d0, d), Down(d0, d), Least(cfg, d0, d);
            least > 0.0 && (MovedFar(cfg, AnchorFor(d0, ts0), d) <==> Square(dx) + Square(dy) >= least * least)
  {
    var mean := (Height(d) + Height(d0)) as real / 2.0;
    HeightsAgree(d);
    HeightsAgree(d0);
    Reals.PositiveProduct(cfg.displacement, mean, cfg.displacement * mean);
    var a, g := AnchorFor(d0, ts0), AnchorFor(d, 0.0);
    assert g.cx - a.cx == Across(d0, d) && g.bottom - a.bottom == Down(d0, d);
    assert RealMax(0.000001, (g.h + a.h) / 2.0) == mean;
    hide Square, HeightOf, AreaOf;
  }

  lemma {:induction false} MovedByHeights(cfg: Settings, d0: Detection, ts0: real, d: Detection)
    requires cfg.displacement > 0.0
    ensures FarOff(cfg, d0, d) ==> MovedFar(cfg, AnchorFor(d0, ts0), d)
    ensures NearBy(cfg, d0, d) ==> !MovedFar(cfg, AnchorFor(d0, ts0), d)
    ensures SameFoot(d0, d) ==> NearBy(cfg, d0, d)
  {
    MovedTerms(cfg, d0, ts0, d);
    hide Least, MovedFar, AnchorFor, Square;
    Far(Across(d0, d), Down(d0, d), Least(cfg, d0, d));
  }

  /** With suppression on and a positive displacement setting, of an observation of a recorded
      track: within the interval it is left out. After it, one whose bottom centre is off, in
      either direction, by the setting times the mean height is always recorded as displaced;
      one off by less than half that in both directions never is, so neither is one in the
      same place. */
  lemma {:induction false} DisplacementByHeights(
    p: Policy, id: string, d0: Detection, ts0: real, d: Detection, ts: real)
    requires Anchored(p, id, d0, ts0) && p.cfg.displacement > 0.0
    ensures InInterval(p, ts0, ts) ==> Decision(p, id, d, ts) == None
    ensures !InInterval(p, ts0, ts) && FarOff(p.cfg, d0, d) ==> Decision(p, id, d, ts) == Some(Displacement)
    ensures NearBy(p.cfg, d0, d) || SameFoot(d0, d) ==> Decision(p, id, d, ts) != Some(Displacement)
  {
    MovedByHeights(p.cfg, d0, ts0, d);
    assert p.anchors[id].ts == ts0;
    hide MovedFar, ScaleDiffers, AreaOf, AnchorFor, FarOff, NearBy, SameFoot;
  }

  // ---- scale --------------------------------------------------------------------------------------------

  /** The scale count of a track goes up by one when the one height is at least the ratio times
      the other, whichever is larger, and is forgotten when it is not; no other track's moves.
      A record for change of scale is only made with the count, this observation among it, at
      the setting. */
  lemma {:induction false} ScaleByHeights(p: Policy, id: string, d0: Detection, ts0: real, d: Detection, ts: real)
    requires Anchored(p, id, d0, ts0) && p.cfg.persist >= 1
    ensures var h, h0 := Height(d) as real, Height(d0) as real;
            var differs := if h0 <= h then h >= p.cfg.ratio * h0 else h0 >= p.cfg.ratio * h;
            var held := if id in p.pending then p.pending[id] else 0;
            var q := AfterDecide(p, id, d);
            && q.pending == (if differs then p.pending[id := held + 1] else p.pending - {id})
            && q.anchors == p.anchors
            && (Decision(p, id, d, ts) == Some(ScaleChange) ==> differs && held + 1 >= p.cfg.persist)
            && (differs && held + 1 >= p.cfg.persist && !InInterval(p, ts0, ts) ==>
                  Decision(p, id, d, ts) == Some(ScaleChange) || Decision(p, id, d, ts) == Some(Displacement))
  {
    HeightsAgree(d);
    HeightsAgree(d0);
    assert p.anchors[id].ts == ts0 && p.anchors[id].h == Height(d0) as real;
    hide MovedFar, AreaOf, HeightOf;
  }

  // ---- heartbeat and quality ---------------------------------------------------------------------------------

  lemma {:induction false} LargerArea(w: int, h: int, w0: int, h0: int)
    requires h >= h0 >= 1 && w >= w0 >= 0
    ensures w * h >= w0 * h0
  {
    assert w * h - w0 * h0 == (w - w0) * h + w0 * (h - h0);
    NonNegative(w - w0, h);
    NonNegative(w0, h - h0);
  }

  lemma {:induction false} NonNegative(x: int, y: int)
    requires x >= 0 && y >= 0
    ensures x * y >= 0
  {
  }

  function Pixels(d: Detection): int {
    Width(d) * Height(d)
  }

  lemma {:induction false} AreaInPixels(d: Detection)
    ensures AreaOf(d) == if Pixels(d) > 1 then Pixels(d) as real else 1.0
  {
    HeightsAgree(d);
    assert Width(d) as real * (Height(d) as real) == (Width(d) * Height(d)) as real;
  }

  /** More confident by the setting, and no narrower and no lower a box. */
  predicate Clearer(cfg: Settings, d0: Detection, d: Detection) {
    d.confidence >= d0.confidence + cfg.gain && Width(d) >= Width(d0) && Height(d) >= Height(d0)
  }

  predicate Beats(p: Policy, since: real, ts: real) {
    p.cfg.heartbeat > 0.0 && ts - since >= p.cfg.heartbeat
  }

  lemma {:induction false} PixelsGrow(d0: Detection, d: Detection)
    requires Width(d0) >= 1
    ensures Pixels(d0) >= 1 && (Width(d) >= Width(d0) && Height(d) >= Height(d0) ==> Pixels(d) >= Pixels(d0))
  {
    LargerArea(Width(d0), Height(d0), 1, 1);
    if Width(d) >= Width(d0) && Height(d) >= Height(d0) {
      LargerArea(Width(d), Height(d), Width(d0), Height(d0));
    }
  }

  lemma {:induction false} AreaGrows(d0: Detection, d: Detection)
    requires Width(d0) >= 1
    ensures Width(d) >= Width(d0) && Height(d) >= Height(d0) ==> AreaOf(d) >= AreaOf(d0)
    ensures AreaOf(d) >= AreaOf(d0) ==> Pixels(d) >= Pixels(d0) || Pixels(d0) == 1
  {
    AreaInPixels(d);
    AreaInPixels(d0);
    PixelsGrow(d0, d);
    hide AreaOf, Pixels, Width, Height;
  }

  /** After the interval an observation is recorded, for one reason or another, once the
      heartbeat has passed since the record; and when it is clearer. It is recorded for quality
      only when it is that much more confident and its box has no fewer pixels. */
  lemma {:induction false} HeartbeatAndQuality(p: Policy, id: string, d0: Detection, ts0: real, d: Detection, ts: real)
    requires Anchored(p, id, d0, ts0) && Width(d0) >= 1
    ensures !InInterval(p, ts0, ts) && (Beats(p, ts0, ts) || Clearer(p.cfg, d0, d)) ==> Decision(p, id, d, ts).Some?
    ensures Decision(p, id, d, ts) == Some(Heartbeat) ==> Beats(p, ts0, ts)
    ensures Decision(p, id, d, ts) == Some(QualityGain) ==>
              && d.confidence >= d0.confidence + p.cfg.gain
              && (Pixels(d) >= Pixels(d0) || Pixels(d0) == 1)
  {
    AreaGrows(d0, d);
    assert p.anchors[id].ts == ts0 && p.anchors[id].confidence == d0.confidence && p.anchors[id].area == AreaOf(d0);
    hide MovedFar, ScaleDiffers, AreaOf, AnchorFor, Width, Height, Pixels;
  }

  // ---- what is recorded, what is counted -----------------------------------------------------------------------

  datatype Look = Look(id: string, d: Detection, ts: real)

  function Onward(p: Policy, looks: seq<Look>): Policy {
    if looks == [] then p
    else
      var x := looks[|looks| - 1];
      AfterObserve(Onward(p, looks[..|looks| - 1]), x.id, x.d, x.ts)
  }

  /** What was decided of each, in order. */
  function Decisions(p: Policy, looks: seq<Look>): seq<Option<Reason>> {
    if looks == [] then []
    else
      var x, init := looks[|looks| - 1], looks[..|looks| - 1];
      Decisions(p, init) + [Decision(Onward(p, init), x.id, x.d, x.ts)]
  }

  function Times(rs: seq<Option<Reason>>, r: Option<Reason>): nat {
    if rs == [] then 0 else Times(rs[..|rs| - 1], r) + (if rs[|rs| - 1] == r then 1 else 0)
  }

  function Counted(p: Policy, r: Reason): nat {
    if r in p.byReason then p.byReason[r] else 0
  }

  lemma {:induction false} OneObservationCounts(p: Policy, id: string, d: Detection, ts: real, r: Reason)
    ensures var q, decided := AfterObserve(p, id, d, ts), Decision(p, id, d, ts);
            && q.suppressed == p.suppressed + (if decided == None then 1 else 0)
            && q.indexed == p.indexed + (if decided == None then 0 else 1)
            && Counted(q, r) == Counted(p, r) + (if decided == Some(r) then 1 else 0)
            && (decided.Some? ==> id in q.anchors && q.anchors[id] == AnchorFor(d, ts) && id !in q.pending)
  {
    hide ScaleDiffers, Verdict, AnchorFor;
  }

  /** Over any run of observations, suppressed and indexed say how many were left out and how
      many were recorded, and each reason's count how many were recorded for it. */
  lemma {:induction false} CountersTally(p: Policy, looks: seq<Look>, r: Reason)
    ensures var q, decided := Onward(p, looks), Decisions(p, looks);
            && |decided| == |looks|
            && q.suppressed == p.suppressed + Times(decided, None)
            && q.indexed == p.indexed + |looks| - Times(decided, None)
            && Counted(q, r) == Counted(p, r) + Times(decided, Some(r))
  {
    if looks != [] {
      hide AfterObserve, Decision, Counted;
      var x, init := looks[|looks| - 1], looks[..|looks| - 1];
      CountersTally(p, init, r);
      OneObservationCounts(Onward(p, init), x.id, x.d, x.ts, r);
      var last := Decision(Onward(p, init), x.id, x.d, x.ts);
      assert (Decisions(p, init) + [last])[..|init|] == Decisions(p, init);
    }
  }
}
