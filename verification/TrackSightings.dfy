/** tracking.py: what a sighting makes of a track and when two boxes can be one object, told
    from the boxes and the times alone. */
module TrackSightings {
  import opened Association
  import opened MergeBoxes
  import opened NestedBoxes
  import opened OrderedDict
  import opened Reals
  import opened TrackIdentity
  import TL = TrackLiveness
  import opened Tracking

  // ---- the cost of an association ----------------------------------------------------------------------

  lemma {:induction false} NoExcess(a: real)
    requires a >= 1.0
    ensures Excess(a, a) == 0.0
  {
  }

  lemma {:induction false} ExcessIsRatio(a: real, r: real)
    requires a >= 1.0 && r >= 1.0
    ensures r * a >= a && Excess(a, r * a) == r - 1.0 && Excess(r * a, a) == r - 1.0
  {
    Monotone(1.0, r, a);
    QuotientOf(r, a);
  }

  /** The mean of two heights, kept off zero. */
  function MeanHeight(p: Geometry, g: Geometry): real {
    RealMax(0.000001, (p.h + g.h) / 2.0)
  }

  /** The four terms, on the mean of the two heights. */
  lemma {:induction false} CostTerms(p: Geometry, g: Geometry, s: real)
    requires s == MeanHeight(p, g)
    ensures CostSquared(p, g)
         == Square((g.cx - p.cx) / s) + Square((g.bottom - p.bottom) / s) + Square(Excess(p.w, g.w))
           + Square(Excess(p.h, g.h))
  {
    hide Square, Excess;
  }

  lemma {:induction false} ZeroOf(s: real)
    requires s > 0.0
    ensures 0.0 / s == 0.0 && Square(0.0) == 0.0
  {
  }

  lemma {:induction false} DisplacedCost(g: Geometry, kx: real, ky: real)
    requires g.w >= 1.0 && g.h >= 1.0
    ensures CostSquared(g, g.(cx := g.cx + kx * g.h, bottom := g.bottom + ky * g.h)) == Square(kx) + Square(ky)
  {
    var d := g.(cx := g.cx + kx * g.h, bottom := g.bottom + ky * g.h);
    NoExcess(g.w);
    NoExcess(g.h);
    ZeroOf(g.h);
    QuotientOf(kx, g.h);
    QuotientOf(ky, g.h);
    assert (g.h + g.h) / 2.0 == g.h;
    CostTerms(g, d, g.h);
    assert d.cx - g.cx == kx * g.h && d.bottom - g.bottom == ky * g.h;
    hide Square, Excess, CostSquared;
  }

  lemma {:induction false} ResizedCost(g: Geometry, rx: real, ry: real)
    requires g.w >= 1.0 && g.h >= 1.0 && rx >= 1.0 && ry >= 1.0
    ensures CostSquared(g, g.(w := rx * g.w, h := ry * g.h)) == Square(rx - 1.0) + Square(ry - 1.0)
    ensures CostSquared(g.(w := rx * g.w, h := ry * g.h), g) == Square(rx - 1.0) + Square(ry - 1.0)
  {
    var d := g.(w := rx * g.w, h := ry * g.h);
    ExcessIsRatio(g.w, rx);
    ExcessIsRatio(g.h, ry);
    var s := (g.h + d.h) / 2.0;
    ZeroOf(s);
    CostTerms(g, d, s);
    CostTerms(d, g, s);
    assert d.cx - g.cx == 0.0 && d.bottom - g.bottom == 0.0;
    assert g.cx - d.cx == 0.0 && g.bottom - d.bottom == 0.0;
    hide Square, Excess, CostSquared;
  }

  /** At the same size, displaced by kx and ky heights: the squares of the two. In the same
      place, rx times as wide and ry times as high, or that much smaller: the squares of the
      two excesses. So equal geometry costs nothing. */
  lemma {:induction false} CostIsByHeights(g: Geometry, kx: real, ky: real, rx: real, ry: real)
    requires g.w >= 1.0 && g.h >= 1.0 && rx >= 1.0 && ry >= 1.0
    ensures CostSquared(g, g.(cx := g.cx + kx * g.h, bottom := g.bottom + ky * g.h)) == Square(kx) + Square(ky)
    ensures CostSquared(g, g.(w := rx * g.w, h := ry * g.h)) == Square(rx - 1.0) + Square(ry - 1.0)
    ensures CostSquared(g.(w := rx * g.w, h := ry * g.h), g) == Square(rx - 1.0) + Square(ry - 1.0)
    ensures CostSquared(g, g) == 0.0
  {
    DisplacedCost(g, kx, ky);
    ResizedCost(g, rx, ry);
    DisplacedCost(g, 0.0, 0.0);
    assert g.(cx := g.cx + 0.0 * g.h, bottom := g.bottom + 0.0 * g.h) == g;
    hide CostSquared;
    ZeroOf(1.0);
  }

  /** No further apart, in either direction, than so many mean heights, and neither side of the
      one larger than the other's by more than that factor. */
  ghost predicate Close(p: Geometry, g: Geometry, maxCost: real) {
    && Reaches(g.cx - p.cx, maxCost, MeanHeight(p, g)) && Reaches(g.bottom - p.bottom, maxCost, MeanHeight(p, g))
    && Alike(p.w, g.w, maxCost) && Alike(p.h, g.h, maxCost)
  }

  predicate Reaches(d: real, limit: real, s: real) {
    -(limit * s) <= d <= limit * s
  }

  predicate Alike(a: real, b: real, limit: real) {
    a <= (limit + 1.0) * RealMax(0.000001, b) && b <= (limit + 1.0) * RealMax(0.000001, a)
  }

  lemma {:induction false} AxisReaches(d: real, s: real, limit: real)
    requires s > 0.0 && limit >= 0.0 && Square(d / s) <= limit * limit
    ensures Reaches(d, limit, s)
  {
    SquareWithin(d / s, limit);
    ScaledWithin(d, s, limit);
  }

  lemma {:induction false} SizesAlike(a: real, b: real, limit: real)
    requires limit >= 0.0 && Square(Excess(a, b)) <= limit * limit
    ensures Alike(a, b, limit)
  {
    SquareWithin(Excess(a, b), limit);
    var hi, lo := RealMax(a, b), RealMin(a, b);
    QuotientWithin(hi, RealMax(0.000001, lo), limit + 1.0);
    Monotone(1.0, limit + 1.0, RealMax(0.000001, hi));
  }

  /** A pair within the maximum cost is that close. */
  lemma {:induction false} CheapIsClose(p: Geometry, g: Geometry, maxCost: real)
    requires Cheap(CostSquared(p, g), maxCost)
    ensures Close(p, g, maxCost)
  {
    var s := MeanHeight(p, g);
    CostTerms(p, g, s);
    hide CostSquared, Excess, Square, Reaches, Alike;
    AxisReaches(g.cx - p.cx, s, maxCost);
    AxisReaches(g.bottom - p.bottom, s, maxCost);
    SizesAlike(p.w, g.w, maxCost);
    SizesAlike(p.h, g.h, maxCost);
  }

  // ---- where a box is and where a track should be ----------------------------------------------------------

  /** The geometry of a box: the middle of its bottom edge, its width and height, each at least one. */
  ghost predicate StandsAt(g: Geometry, b: Box) {
    && g.cx * 2.0 == (b.x1 + b.x2) as real && g.bottom == b.y2 as real
    && g.w == (if b.x2 > b.x1 + 1 then (b.x2 - b.x1) as real else 1.0)
    && g.h == (if b.y2 > b.y1 + 1 then (b.y2 - b.y1) as real else 1.0)
  }

  lemma {:induction false} GeometryStands(b: Box)
    ensures StandsAt(GeometryOf(b), b)
  {
  }

  /** A track moves on at its velocity, and not back for a time before it was seen. */
  lemma {:induction false} PredictedMoves(t: Track, ts: real)
    ensures var p := Predicted(t, ts);
            && p.w == t.w && p.h == t.h
            && (ts <= t.lastSeen ==> p.cx == t.cx && p.bottom == t.bottom)
            && (ts >= t.lastSeen ==>
                  p.cx - t.cx == t.vx * (ts - t.lastSeen) && p.bottom - t.bottom == t.vy * (ts - t.lastSeen))
  {
  }

  /** Every match is of a track and a detection that close. */
  lemma {:induction false} MatchedAreClose(maxCost: real, tracks: seq<Track>, ds: seq<Detection>, ts: real, d: nat)
    requires d in Matched(maxCost, tracks, Geometries(ds), ts).trackOf
    ensures var k := Matched(maxCost, tracks, Geometries(ds), ts).trackOf[d];
            && d < |ds| && k < |tracks|
            && maxCost >= 0.0 && Close(Predicted(tracks[k], ts), GeometryOf(ds[d].box), maxCost)
  {
    hide Matched, CostSquared, OneToOne, Covered, Even;
    MatchingIsOneToOne(maxCost, tracks, Geometries(ds), ts);
    var k := Matched(maxCost, tracks, Geometries(ds), ts).trackOf[d];
    assert Admissible(maxCost, tracks, Geometries(ds), ts, Pair(d, k));
    hide Predicted, GeometryOf, Close;
    CheapIsClose(Predicted(tracks[k], ts), GeometryOf(ds[d].box), maxCost);
  }

  lemma {:induction false} AdmissibleIsMatched(
    maxCost: real, tracks: seq<Track>, gs: seq<Geometry>, ts: real, d: nat, k: nat)
    requires Admissible(maxCost, tracks, gs, ts, Pair(d, k))
    ensures var m := Matched(maxCost, tracks, gs, ts); d in m.trackOf || k in m.taken
  {
    hide Matched, CostSquared, Predicted, Cheap;
    var q := MatchingIsStable(maxCost, tracks, gs, ts, Pair(d, k));
    MatchingIsOneToOne(maxCost, tracks, gs, ts);
  }

  /** Off by so many heights at the same size, with the squares within the limit's. */
  predicate DisplacedBy(p: Geometry, g: Geometry, kx: real, ky: real, limit: real) {
    g == p.(cx := p.cx + kx * p.h, bottom := p.bottom + ky * p.h) && Square(kx) + Square(ky) <= limit * limit
  }

  /** So many times the size in the same place, with the squares of the excesses within it. */
  predicate ResizedBy(p: Geometry, g: Geometry, rx: real, ry: real, limit: real) {
    && rx >= 1.0 && ry >= 1.0 && g == p.(w := rx * p.w, h := ry * p.h)
    && Square(rx - 1.0) + Square(ry - 1.0) <= limit * limit
  }

  lemma {:induction false} CostsThat(cost: real, c: real, limit: real)
    requires cost == c && limit >= 0.0 && c <= limit * limit
    ensures Cheap(cost, limit)
  {
  }

  lemma {:induction false} DisplacedIsCheap(p: Geometry, g: Geometry, kx: real, ky: real, maxCost: real)
    requires maxCost >= 0.0 && p.w >= 1.0 && p.h >= 1.0 && DisplacedBy(p, g, kx, ky, maxCost)
    ensures Cheap(CostSquared(p, g), maxCost)
  {
    DisplacedCost(p, kx, ky);
    hide Square, CostSquared, Cheap;
    CostsThat(CostSquared(p, g), Square(kx) + Square(ky), maxCost);
  }

  lemma {:induction false} ResizedIsCheap(p: Geometry, g: Geometry, rx: real, ry: real, maxCost: real)
    requires maxCost >= 0.0 && p.w >= 1.0 && p.h >= 1.0 && ResizedBy(p, g, rx, ry, maxCost)
    ensures Cheap(CostSquared(p, g), maxCost)
  {
    ResizedCost(p, rx, ry);
    hide Square, CostSquared, Cheap;
    CostsThat(CostSquared(p, g), Square(rx - 1.0) + Square(ry - 1.0), maxCost);
  }

  lemma {:induction false} NearIsCheap(p: Geometry, g: Geometry, kx: real, ky: real, maxCost: real)
    requires maxCost >= 0.0 && p.w >= 1.0 && p.h >= 1.0
    requires DisplacedBy(p, g, kx, ky, maxCost) || ResizedBy(p, g, kx, ky, maxCost)
    ensures Cheap(CostSquared(p, g), maxCost)
  {
    hide CostSquared, Cheap, DisplacedBy, ResizedBy;
    if DisplacedBy(p, g, kx, ky, maxCost) {
      DisplacedIsCheap(p, g, kx, ky, maxCost);
    } else {
      ResizedIsCheap(p, g, kx, ky, maxCost);
    }
  }

  /** A detection of the size a track is expected in and off by kx and ky of its heights, or in
      the place and kx and ky times the size, does not leave both of them unmatched when the
      squares of the two make no more than the square of the maximum cost. */
  lemma {:induction false} NearIsMatched(
    maxCost: real, tracks: seq<Track>, ds: seq<Detection>, ts: real, d: nat, k: nat, kx: real, ky: real)
    requires maxCost >= 0.0 && d < |ds| && k < |tracks|
    requires var p, g := Predicted(tracks[k], ts), GeometryOf(ds[d].box);
             && p.w >= 1.0 && p.h >= 1.0
             && (DisplacedBy(p, g, kx, ky, maxCost) || ResizedBy(p, g, kx, ky, maxCost))
    ensures var m := Matched(maxCost, tracks, Geometries(ds), ts); d in m.trackOf || k in m.taken
  {
    hide Matched, CostSquared, Predicted, GeometryOf, DisplacedBy, ResizedBy, Cheap;
    NearIsCheap(Predicted(tracks[k], ts), GeometryOf(ds[d].box), kx, ky, maxCost);
    AdmissibleIsMatched(maxCost, tracks, Geometries(ds), ts, d, k);
  }

  // ---- what is returned -------------------------------------------------------------------------------------

  /** The returned track is of the detection's box, sighted now; one that is new is of its
      domain, was first seen now, does not move yet and is still from here on. */
  ghost predicate Carries(o: Tracked, ts: real) {
    && StandsAt(Geometry(o.track.cx, o.track.bottom, o.track.w, o.track.h), o.det.box) && o.track.lastSeen == ts
    && (o.isNew ==>
          && o.track.firstSeen == ts && o.track.vx == 0.0 && o.track.vy == 0.0 && o.track.hits == 1
          && o.track.domain == o.det.domain && o.track.stillSince == ts
          && o.track.stillCx == o.track.cx && o.track.stillBottom == o.track.bottom)
  }

  function NewCount(out: seq<Tracked>): nat {
    if out == [] then 0 else NewCount(out[..|out| - 1]) + (if out[|out| - 1].isNew then 1 else 0)
  }

  /** How many were confirmed by this sighting: they are in that phase on no other frame. */
  function ConfirmedCount(out: seq<Tracked>): nat {
    if out == [] then 0
    else ConfirmedCount(out[..|out| - 1]) + (if out[|out| - 1].track.phase == Confirmed then 1 else 0)
  }

  lemma {:induction false} CountsThen(out: seq<Tracked>, x: Tracked)
    ensures NewCount(out + [x]) == NewCount(out) + (if x.isNew then 1 else 0)
    ensures ConfirmedCount(out + [x]) == ConfirmedCount(out) + (if x.track.phase == Confirmed then 1 else 0)
  {
    assert (out + [x])[..|out|] == out;
  }

  lemma {:induction false} CountsJoin(a: seq<Tracked>, b: seq<Tracked>)
    ensures NewCount(a + b) == NewCount(a) + NewCount(b)
    ensures ConfirmedCount(a + b) == ConfirmedCount(a) + ConfirmedCount(b)
  {
    if b == [] {
      assert a + b == a;
    } else {
      var init, x := b[..|b| - 1], b[|b| - 1];
      assert a + b == (a + init) + [x] && b == init + [x];
      CountsThen(a + init, x);
      CountsThen(init, x);
      CountsJoin(a, init);
    }
  }

  /** The phase after a sighting, and what a track is by then. */
  lemma {:induction false} SightedCarries(cfg: Config, t: Track, d: Detection, ts: real)
    ensures Carries(Tracked(d, Advanced(cfg, t, GeometryOf(d.box), ts), false), ts)
    ensures Advanced(cfg, t, GeometryOf(d.box), ts).phase == Confirmed <==> Confirms(cfg, t, ts)
  {
    GeometryStands(d.box);
    hide StandsAt, GeometryOf, HasMoved;
  }

  lemma {:induction false} BornCarries(cfg: Config, id: string, domain: string, d: Detection, ts: real)
    requires d.domain == domain
    ensures Carries(Tracked(d, Born(cfg, id, domain, GeometryOf(d.box), ts), true), ts)
  {
    GeometryStands(d.box);
    hide StandsAt, GeometryOf;
  }

  ghost predicate AllCarry(out: seq<Tracked>, ts: real) {
    forall i :: 0 <= i < |out| ==> Carries(out[i], ts)
  }

  lemma {:induction false} AllCarryThen(out: seq<Tracked>, x: Tracked, ts: real)
    requires AllCarry(out, ts) && Carries(x, ts)
    ensures AllCarry(out + [x], ts)
  {
    hide Carries;
  }

  /** The detections of what is returned, in order. */
  function Dets(out: seq<Tracked>): (ds: seq<Detection>)
    ensures |ds| == |out| && forall i :: 0 <= i < |ds| ==> ds[i] == out[i].det
  {
    seq(|out|, i requires 0 <= i < |out| => out[i].det)
  }

  /** What seating n detections in a list does, each in turn, to what is returned and counted. */
  ghost predicate SeatedWell(s: Setting, ds: seq<Detection>, m: Matching, w: Working, n: nat, r: Working)
    requires n <= |ds|
  {
    && Dets(r.out) == ds[..n] && AllCarry(r.out, s.ts)
    && r.created == w.created + NewCount(r.out) && r.counter == w.counter + NewCount(r.out)
    && r.confirmed == w.confirmed + ConfirmedCount(r.out)
    && NewCount(r.out) == TL.Unmatched(m, n)
  }

  /** One more returned, counted as such, keeps all that is said of what is returned. */
  lemma {:induction false} ReturnsOneMore(
    s: Setting, ds: seq<Detection>, m: Matching, w: Working, n: nat, r: Working, x: Tracked, r': Working)
    requires n < |ds| && SeatedWell(s, ds, m, w, n, r) && Carries(x, s.ts) && x.det == ds[n]
    requires r'.out == r.out + [x] && x.isNew == (n !in m.trackOf)
    requires r'.created == r.created + (if x.isNew then 1 else 0)
    requires r'.counter == r.counter + (if x.isNew then 1 else 0)
    requires r'.confirmed == r.confirmed + (if x.track.phase == Confirmed then 1 else 0)
    ensures SeatedWell(s, ds, m, w, n + 1, r')
  {
    hide Carries, AllCarry, Dets, NewCount, ConfirmedCount;
    AllCarryThen(r.out, x, s.ts);
    CountsThen(r.out, x);
    DetsThen(r.out, x);
    assert ds[..n + 1] == ds[..n] + [ds[n]];
  }

  lemma {:induction false} SeatStepNew(s: Setting, ds: seq<Detection>, m: Matching, w: Working, n: nat, r: Working)
    requires n < |ds| && SeatedWell(s, ds, m, w, n, r) && n !in m.trackOf && ds[n].domain == s.domain
    ensures SeatedWell(s, ds, m, w, n + 1, SeatNew(s, ds[n], r))
  {
    hide SeatedWell, IdOf, Born, Carries, GeometryOf;
    var id := IdOf(s.camera, s.cfg.nonce, s.epoch, r.counter + 1);
    var x := Tracked(ds[n], Born(s.cfg, id, s.domain, GeometryOf(ds[n].box), s.ts), true);
    BornCarries(s.cfg, id, s.domain, ds[n], s.ts);
    ReturnsOneMore(s, ds, m, w, n, r, x, SeatNew(s, ds[n], r));
  }

  lemma {:induction false} SeatStepMatched(
    s: Setting, ds: seq<Detection>, m: Matching, w: Working, n: nat, r: Working, i: nat)
    requires n < |ds| && SeatedWell(s, ds, m, w, n, r) && i < |r.tracks| && n in m.trackOf
    ensures SeatedWell(s, ds, m, w, n + 1, SeatMatched(s, ds[n], i, r))
  {
    hide SeatedWell, Advanced, Confirms, Carries, GeometryOf;
    var x := Tracked(ds[n], Advanced(s.cfg, r.tracks[i], GeometryOf(ds[n].box), s.ts), false);
    SightedCarries(s.cfg, r.tracks[i], ds[n], s.ts);
    ReturnsOneMore(s, ds, m, w, n, r, x, SeatMatched(s, ds[n], i, r));
  }

  lemma {:induction false} SeatNone(s: Setting, ds: seq<Detection>, m: Matching, w: Working)
    requires w.out == []
    ensures SeatedWell(s, ds, m, w, 0, w)
  {
    NothingReturned(s.ts);
    assert ds[..0] == [];
  }

  lemma {:induction false} SeatIsWell(s: Setting, ds: seq<Detection>, m: Matching, w: Working, n: nat)
    requires n <= |ds| && w.out == [] && TL.InRange(m, |w.tracks|)
    requires forall i :: 0 <= i < |ds| ==> ds[i].domain == s.domain
    ensures SeatedWell(s, ds, m, w, n, Seat(s, ds, m, w, n))
  {
    hide SeatedWell, SeatNew, SeatMatched;
    if n == 0 {
      SeatNone(s, ds, m, w);
    } else {
      SeatIsWell(s, ds, m, w, n - 1);
      var before := Seat(s, ds, m, w, n - 1);
      if n - 1 in m.trackOf {
        SeatStepMatched(s, ds, m, w, n - 1, before, m.trackOf[n - 1]);
      } else {
        SeatStepNew(s, ds, m, w, n - 1, before);
      }
    }
  }

  /** Every detection of a domain is counted: matched as an association, new as a failure. */
  lemma {:induction false} MatchesAreCounted(t: Tracker, camera: string, domain: string, ds: seq<Detection>, ts: real)
    ensures var m := TL.DomainMatching(t, camera, domain, ds, ts);
            && TL.InRange(m, |Held(t, (camera, domain))|) && |m.trackOf| + TL.Unmatched(m, |ds|) == |ds|
  {
    var tracks, m := Held(t, (camera, domain)), TL.DomainMatching(t, camera, domain, ds, ts);
    TL.MatchedFits(t.cfg.maxCost, tracks, Geometries(ds), ts);
    assert TL.Fits(m, |ds|, |tracks|);
    hide Matched, OneToOne, Covered, TL.DomainMatching;
    TL.UnmatchedIsOutside(m, |ds|);
    TL.OutsideIsRest(m.trackOf.Keys, |ds|);
    assert |m.trackOf.Keys| == |m.trackOf|;
  }

  /** A domain's detections are each returned once, in order, each on a track of its own box
      sighted now, and counted: as an association, or as a failure and a new track. */
  lemma {:induction false} DomainReturns(t: Tracker, camera: string, domain: string, ds: seq<Detection>, ts: real)
    requires forall i :: 0 <= i < |ds| ==> ds[i].domain == domain
    ensures var u := AfterDomain(t, camera, domain, ds, ts);
            && Dets(u.out) == ds && AllCarry(u.out, ts)
            && u.tracker.created == t.created + NewCount(u.out)
            && u.tracker.confirmed == t.confirmed + ConfirmedCount(u.out)
            && u.tracker.failures == t.failures + NewCount(u.out)
            && u.tracker.associations == t.associations + |ds| - NewCount(u.out)
  {
    MatchesAreCounted(t, camera, domain, ds, ts);
    hide Seat, Matched, Trimmed, Dropped, AllCarry;
    var tracks := Held(t, (camera, domain));
    var w := Working(tracks, t.counter, t.created, t.confirmed, []);
    SeatIsWell(SettingOf(t, camera, domain, ts), ds, Matched(t.cfg.maxCost, tracks, Geometries(ds), ts), w, |ds|);
    assert ds[..|ds|] == ds;
  }

  /** The detections of the first n domains, domain by domain. */
  function Grouped(ds: seq<Detection>, domains: seq<string>, n: nat): seq<Detection>
    requires n <= |domains|
  {
    if n == 0 then [] else Grouped(ds, domains, n - 1) + OfDomains(ds, {domains[n - 1]})
  }

  lemma {:induction false} JoinCarry(a: seq<Tracked>, b: seq<Tracked>, ts: real)
    requires AllCarry(a, ts) && AllCarry(b, ts)
    ensures AllCarry(a + b, ts)
  {
    hide Carries;
  }

  lemma {:induction false} OfOneDomain(ds: seq<Detection>, domain: string)
    ensures forall i :: 0 <= i < |OfDomains(ds, {domain})| ==> OfDomains(ds, {domain})[i].domain == domain
  {
    if ds != [] {
      OfOneDomain(ds[..|ds| - 1], domain);
    }
  }

  lemma {:induction false} DomainsReturn(
    t: Tracker, camera: string, ds: seq<Detection>, domains: seq<string>, ts: real, n: nat)
    requires n <= |domains|
    ensures var u := AfterDomains(t, camera, ds, domains, ts, n);
            && Dets(u.out) == Grouped(ds, domains, n) && AllCarry(u.out, ts)
            && u.tracker.created == t.created + NewCount(u.out)
            && u.tracker.confirmed == t.confirmed + ConfirmedCount(u.out)
            && u.tracker.failures == t.failures + NewCount(u.out)
            && u.tracker.associations == t.associations + |u.out| - NewCount(u.out)
  {
    hide AfterDomain, OfDomains, AllCarry, NewCount, ConfirmedCount, Dets;
    if n == 0 {
      NothingReturned(ts);
    } else {
      var before := AfterDomains(t, camera, ds, domains, ts, n - 1);
      var own := OfDomains(ds, {domains[n - 1]});
      var one := AfterDomain(before.tracker, camera, domains[n - 1], own, ts);
      DomainsReturn(t, camera, ds, domains, ts, n - 1);
      OfOneDomain(ds, domains[n - 1]);
      DomainReturns(before.tracker, camera, domains[n - 1], own, ts);
      CountsJoin(before.out, one.out);
      JoinCarry(before.out, one.out, ts);
      DetsJoin(before.out, one.out);
    }
  }

  lemma {:induction false} DetsThen(out: seq<Tracked>, x: Tracked)
    ensures Dets(out + [x]) == Dets(out) + [x.det]
  {
  }

  lemma {:induction false} DetsJoin(a: seq<Tracked>, b: seq<Tracked>)
    ensures Dets(a + b) == Dets(a) + Dets(b)
  {
  }

  lemma {:induction false} GroupedBag(ds: seq<Detection>, domains: seq<string>, n: nat, d: Detection)
    requires n <= |domains| && Distinct(domains)
    ensures multiset(Grouped(ds, domains, n))[d] == if d.domain in domains[..n] then multiset(ds)[d] else 0
  {
    if n > 0 {
      hide OfDomains, Distinct;
      var before, own := Grouped(ds, domains, n - 1), OfDomains(ds, {domains[n - 1]});
      GroupedBag(ds, domains, n - 1, d);
      OfDomainBag(ds, domains[n - 1], d);
      OnlyThere(domains, n, d.domain);
      assert multiset(before + own)[d] == multiset(before)[d] + multiset(own)[d];
    }
  }

  lemma {:induction false} OnlyThere(domains: seq<string>, n: nat, domain: string)
    requires 0 < n <= |domains| && Distinct(domains)
    ensures domain in domains[..n] <==> domain in domains[..n - 1] || domain == domains[n - 1]
    ensures domains[n - 1] !in domains[..n - 1]
  {
    assert domains[..n] == domains[..n - 1] + [domains[n - 1]];
  }

  lemma {:induction false} OfDomainBag(ds: seq<Detection>, domain: string, d: Detection)
    ensures multiset(OfDomains(ds, {domain}))[d] == if d.domain == domain then multiset(ds)[d] else 0
  {
    if ds != [] {
      var init, last := ds[..|ds| - 1], ds[|ds| - 1];
      OfDomainBag(init, domain, d);
      assert ds == init + [last];
      if last.domain != domain {
        assert OfDomains(ds, {domain}) == OfDomains(init, {domain});
      }
    }
  }

  lemma {:induction false} DomainsAre(ds: seq<Detection>, domain: string)
    ensures domain in Domains(ds) <==> exists i :: 0 <= i < |ds| && ds[i].domain == domain
    ensures Distinct(Domains(ds))
  {
    if ds != [] {
      DomainsAre(ds[..|ds| - 1], domain);
      DomainsAre(ds[..|ds| - 1], ds[|ds| - 1].domain);
    }
  }

  /** The domains come in order of first appearance: those of a frame's start are the start of
      the frame's. */
  lemma {:induction false} DomainsAppear(ds: seq<Detection>, n: nat)
    requires n <= |ds|
    ensures Domains(ds[..n]) <= Domains(ds)
  {
    if n < |ds| {
      DomainsAppear(ds[..|ds| - 1], n);
      assert ds[..|ds| - 1][..n] == ds[..n];
    } else {
      assert ds[..n] == ds;
    }
  }

  lemma {:induction false} ThrowawaysCarry(t: Tracker, camera: string, ds: seq<Detection>, ts: real, n: nat)
    requires n <= |ds|
    ensures var u := Throwaways(t, camera, ds, ts, n);
            && Dets(u.out) == ds[..n] && AllCarry(u.out, ts)
            && forall i :: 0 <= i < |u.out| ==> u.out[i].isNew && u.out[i].track.phase == Active
  {
    if n == 0 {
      assert Dets([]) == [] && ds[..0] == [];
    } else {
      ThrowawaysCarry(t, camera, ds, ts, n - 1);
      var before, d := Throwaways(t, camera, ds, ts, n - 1), ds[n - 1];
      var x := Tracked(d, Fresh(NextId(before.tracker, camera), d.domain, Active, GeometryOf(d.box), ts), true);
      GeometryStands(d.box);
      assert Carries(x, ts);
      hide Carries, AllCarry, NextId, GeometryOf, StandsAt, Dets;
      AllCarryThen(before.out, x, ts);
      DetsThen(before.out, x);
      assert ds[..n] == ds[..n - 1] + [d];
    }
  }

  /** Whatever the frame, each of its detections is returned exactly as often as it was given,
      on a track of its own box sighted now, known at once and new when identity is off; and
      with identity on the counters say how many were associated, how many were not and made
      tracks, and how many tracks were confirmed. */
  lemma {:induction false} UpdateReturns(t: Tracker, camera: string, ds: seq<Detection>, ts: real)
    ensures var u := AfterUpdate(t, camera, ds, ts);
            && multiset(Dets(u.out)) == multiset(ds) && AllCarry(u.out, ts)
            && (!t.cfg.enabled ==>
                  forall i :: 0 <= i < |u.out| ==> u.out[i].isNew && u.out[i].track.phase == Active)
            && (t.cfg.enabled ==>
                  && u.tracker.created == t.created + NewCount(u.out)
                  && u.tracker.confirmed == t.confirmed + ConfirmedCount(u.out)
                  && u.tracker.failures == t.failures + NewCount(u.out)
                  && u.tracker.associations == t.associations + |u.out| - NewCount(u.out))
  {
    hide AllCarry, AgeKeys, AfterDomains, Throwaways, Dets, Domains, Grouped;
    if ds == [] {
      NothingReturned(ts);
      AgeKeysAside(t, camera, t.tracks.keys, ts, |t.tracks.keys|);
    } else if !t.cfg.enabled {
      ThrowawaysCarry(t, camera, ds, ts, |ds|);
      assert ds[..|ds|] == ds;
    } else {
      DomainsReturn(t, camera, ds, Domains(ds), ts, |Domains(ds)|);
      AllGrouped(ds);
      var u := AfterDomains(t, camera, ds, Domains(ds), ts, |Domains(ds)|).tracker;
      AgeKeysAside(u, camera, u.tracks.keys, ts, |u.tracks.keys|);
    }
  }

  lemma {:induction false} AgeKeysAside(t: Tracker, camera: string, keys: seq<Key>, ts: real, n: nat)
    requires n <= |keys|
    ensures var t' := AgeKeys(t, camera, keys, ts, n);
            && t'.created == t.created && t'.confirmed == t.confirmed
            && t'.failures == t.failures && t'.associations == t.associations
  {
    hide Remaining, Aged;
    if n > 0 {
      AgeKeysAside(t, camera, keys, ts, n - 1);
    }
  }

  /** Grouped by domain, the detections are those of the frame. */
  lemma {:induction false} AllGrouped(ds: seq<Detection>)
    ensures multiset(Grouped(ds, Domains(ds), |Domains(ds)|)) == multiset(ds)
  {
    var domains := Domains(ds);
    DomainsAre(ds, "");
    hide Domains, Grouped;
    forall d: Detection
      ensures multiset(Grouped(ds, domains, |domains|))[d] == multiset(ds)[d]
    {
      GroupedBag(ds, domains, |domains|, d);
      assert domains[..|domains|] == domains;
      DomainsAre(ds, d.domain);
      if d in ds {
        var i :| 0 <= i < |ds| && ds[i] == d;
      } else {
        assert d !in multiset(ds);
      }
    }
  }

  lemma {:induction false} NothingReturned(ts: real)
    ensures Dets([]) == [] && AllCarry([], ts) && NewCount([]) == 0 && ConfirmedCount([]) == 0
  {
  }

  // ---- motion and stillness -------------------------------------------------------------------------------------

  /** A later sighting corrects the velocity by alpha times what the prediction was out, per
      second; one that is not later leaves it. */
  lemma {:induction false} VelocityIsCorrected(cfg: Config, t: Track, g: Geometry, ts: real)
    ensures var r, dt := Advanced(cfg, t, g, ts), ts - t.lastSeen;
            && (dt > 0.0 ==> (r.vx - t.vx) * dt == cfg.alpha * (g.cx - (t.cx + t.vx * dt)))
            && (dt > 0.0 ==> (r.vy - t.vy) * dt == cfg.alpha * (g.bottom - (t.bottom + t.vy * dt)))
            && (dt <= 0.0 ==> r.vx == t.vx && r.vy == t.vy)
            && r.hits == t.hits + 1 && r.firstSeen == t.firstSeen
  {
    var dt := ts - t.lastSeen;
    if dt > 0.0 {
      Innovation(cfg.alpha, t.cx, t.vx, g.cx, dt);
      Innovation(cfg.alpha, t.bottom, t.vy, g.bottom, dt);
    }
    hide HasMoved;
  }

  lemma {:induction false} Innovation(alpha: real, x: real, v: real, y: real, dt: real)
    requires dt > 0.0
    ensures (alpha * ((y - x) / dt) + (1.0 - alpha) * v - v) * dt == alpha * (y - (x + v * dt))
  {
    var q := (y - x) / dt;
    assert q * dt == y - x;
    assert (alpha * q + (1.0 - alpha) * v - v) * dt == alpha * (q * dt) - alpha * (v * dt);
  }

  /** Off by so many heights in one direction is far; by less than half that in both is not. */
  lemma {:induction false} FarByHeights(dx: real, dy: real, least: real)
    requires least > 0.0
    ensures dx >= least || dx <= -least || dy >= least || dy <= -least ==> Square(dx) + Square(dy) >= least * least
    ensures -least < 2.0 * dx < least && -least < 2.0 * dy < least ==> Square(dx) + Square(dy) < least * least
  {
    AtLeast(dx, least);
    AtLeast(dy, least);
    LessThanHalf(dx, least);
    LessThanHalf(dy, least);
    PositiveProduct(least, least, least * least);
    assert Square(dx) == dx * dx && Square(dy) == dy * dy;
  }

  /** A tentative track stays so, and still from where it was, until the time to confirm it is
      over; the sighting that confirms it is the place and time it is still from. */
  lemma {:induction false} ConfirmedIsStillHere(cfg: Config, t: Track, g: Geometry, ts: real)
    requires t.phase == Tentative
    ensures var r := Advanced(cfg, t, g, ts);
            if ts - t.firstSeen >= cfg.confirmAfter
            then r.phase == Confirmed && r.stillCx == g.cx && r.stillBottom == g.bottom && r.stillSince == ts
            else r.phase == Tentative && r.stillCx == t.stillCx && r.stillBottom == t.stillBottom
                 && r.stillSince == t.stillSince
  {
    hide HasMoved;
  }

  /** Of a known track sighted at g: off by the stationary distance, in heights, in either
      direction from where it last counted as moved, it is active and counts as moved; off by
      less than half of it in both, it does not, and by then is stationary exactly when it
      was already or it has been still long enough. */
  lemma {:induction false} StillnessByHeights(cfg: Config, t: Track, g: Geometry, ts: real)
    requires t.phase != Tentative && cfg.stationaryDistance > 0.0 && g.h >= 1.0
    ensures var r := Advanced(cfg, t, g, ts);
            var least := cfg.stationaryDistance * g.h;
            var dx, dy := g.cx - t.stillCx, g.bottom - t.stillBottom;
            && (dx >= least || dx <= -least || dy >= least || dy <= -least ==>
                  r.phase == Active && r.stillCx == g.cx && r.stillBottom == g.bottom && r.stillSince == ts)
            && (-least < 2.0 * dx < least && -least < 2.0 * dy < least ==>
                  && r.stillCx == t.stillCx && r.stillBottom == t.stillBottom && r.stillSince == t.stillSince
                  && r.phase == if ts - t.stillSince >= cfg.stationaryAfter then Stationary
                                else if t.phase == Confirmed then Active else t.phase)
  {
    var least := cfg.stationaryDistance * g.h;
    assert least > 0.0;
    FarByHeights(g.cx - t.stillCx, g.bottom - t.stillBottom, least);
    hide Square;
  }
}
