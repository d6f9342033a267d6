/** tracking.py: which of a frame's detections continues which track. */
module Association {
  import opened MergeBoxes
  import opened Sorting

  datatype Phase = Tentative | Confirmed | Active | Stationary | Lost

  /** One physical object: bottom centre, size, velocity per second. */
  datatype Track = Track(
    id: string, domain: string, phase: Phase, firstSeen: real, lastSeen: real,
    cx: real, bottom: real, w: real, h: real, vx: real, vy: real, hits: nat,
    stillCx: real, stillBottom: real, stillSince: real)

  datatype Geometry = Geometry(cx: real, bottom: real, w: real, h: real)

  /** A detection and a track, by position. */
  datatype Pair = Pair(det: nat, trk: nat)

  function RealMax(a: real, b: real): real { if a < b then b else a }

  function RealMin(a: real, b: real): real { if b < a then b else a }

  function GeometryOf(b: Box): Geometry {
    Geometry((b.x1 + b.x2) as real / 2.0, b.y2 as real,
             RealMax(1.0, (b.x2 - b.x1) as real), RealMax(1.0, (b.y2 - b.y1) as real))
  }

  /** Where a track should be at ts, size included. */
  function Predicted(t: Track, ts: real): Geometry {
    var dt := RealMax(0.0, ts - t.lastSeen);
    Geometry(t.cx + t.vx * dt, t.bottom + t.vy * dt, t.w, t.h)
  }

  function Square(x: real): (r: real)
    ensures r >= 0.0
  {
    x * x
  }

  /** How much larger the larger is. */
  function Excess(a: real, b: real): real {
    RealMax(a, b) / RealMax(0.000001, RealMin(a, b)) - 1.0
  }

  /** The square of the association cost: displacement in object heights, change of
      size as ratios. */
  function CostSquared(p: Geometry, g: Geometry): (c: real)
    ensures c >= 0.0
  {
    var scale := RealMax(0.000001, (p.h + g.h) / 2.0);
    Square((g.cx - p.cx) / scale) + Square((g.bottom - p.bottom) / scale) + Square(Excess(p.w, g.w))
      + Square(Excess(p.h, g.h))
  }

  function PairCost(tracks: seq<Track>, gs: seq<Geometry>, ts: real, p: Pair): real
    requires p.det < |gs| && p.trk < |tracks|
  {
    CostSquared(Predicted(tracks[p.trk], ts), gs[p.det])
  }

  /** cost <= max_cost, on squares: a negative maximum admits nothing. */
  predicate Cheap(cost: real, maxCost: real) {
    maxCost >= 0.0 && cost <= maxCost * maxCost
  }

  /** The pair exists and costs no more than the maximum. */
  predicate Admissible(maxCost: real, tracks: seq<Track>, gs: seq<Geometry>, ts: real, p: Pair) {
    p.det < |gs| && p.trk < |tracks| && Cheap(PairCost(tracks, gs, ts, p), maxCost)
  }

  /** The candidate pairs of track t with the first n detections. */
  function PairsOfTrack(
    maxCost: real, tracks: seq<Track>, gs: seq<Geometry>, ts: real, t: nat, n: nat): seq<Keyed<Pair>>
    requires t < |tracks| && n <= |gs|
  {
    if n == 0 then []
    else
      var cost := PairCost(tracks, gs, ts, Pair(n - 1, t));
      PairsOfTrack(maxCost, tracks, gs, ts, t, n - 1)
      + (if Cheap(cost, maxCost) then [Keyed(cost, Pair(n - 1, t))] else [])
  }

  /** The candidate pairs of the first n tracks. */
  function Pairs(maxCost: real, tracks: seq<Track>, gs: seq<Geometry>, ts: real, n: nat): seq<Keyed<Pair>>
    requires n <= |tracks|
  {
    if n == 0 then []
    else Pairs(maxCost, tracks, gs, ts, n - 1) + PairsOfTrack(maxCost, tracks, gs, ts, n - 1, |gs|)
  }

  /** Cheapest first; equal costs stay in track, then detection order. */
  function Ranked(maxCost: real, tracks: seq<Track>, gs: seq<Geometry>, ts: real): seq<Keyed<Pair>> {
    Sort(Pairs(maxCost, tracks, gs, ts, |tracks|))
  }

  /** The track of each matched detection, and the tracks already spoken for. */
  datatype Matching = Matching(trackOf: map<nat, nat>, taken: set<nat>)

  function Claim(m: Matching, p: Pair): Matching {
    if p.det in m.trackOf || p.trk in m.taken then m
    else Matching(m.trackOf[p.det := p.trk], m.taken + {p.trk})
  }

  /** Greedy over the first n ranked pairs. */
  function Greedy(ranked: seq<Keyed<Pair>>, n: nat): Matching
    requires n <= |ranked|
  {
    if n == 0 then Matching(map[], {}) else Claim(Greedy(ranked, n - 1), ranked[n - 1].val)
  }

  function Matched(maxCost: real, tracks: seq<Track>, gs: seq<Geometry>, ts: real): Matching {
    var ranked := Ranked(maxCost, tracks, gs, ts);
    Greedy(ranked, |ranked|)
  }

  // ---- the candidates are the admissible pairs ------------------------------------------------

  ghost predicate IsCandidate(maxCost: real, tracks: seq<Track>, gs: seq<Geometry>, ts: real, x: Keyed<Pair>) {
    Admissible(maxCost, tracks, gs, ts, x.val) && x.key == PairCost(tracks, gs, ts, x.val)
  }

  lemma {:induction false} PairsOfTrackAre(
    maxCost: real, tracks: seq<Track>, gs: seq<Geometry>, ts: real, t: nat, n: nat, x: Keyed<Pair>)
    requires t < |tracks| && n <= |gs|
    ensures x in PairsOfTrack(maxCost, tracks, gs, ts, t, n)
            <==> IsCandidate(maxCost, tracks, gs, ts, x) && x.val.trk == t && x.val.det < n
  {
    hide PairCost, Cheap;
    if n > 0 {
      PairsOfTrackAre(maxCost, tracks, gs, ts, t, n - 1, x);
      assert x.val.det == n - 1 && x.val.trk == t ==> x.val == Pair(n - 1, t);
    }
  }

  lemma {:induction false} CandidateInRange(
    maxCost: real, tracks: seq<Track>, gs: seq<Geometry>, ts: real, x: Keyed<Pair>)
    ensures IsCandidate(maxCost, tracks, gs, ts, x) ==> x.val.det < |gs| && x.val.trk < |tracks|
  {
  }

  lemma {:induction false} PairsAre(
    maxCost: real, tracks: seq<Track>, gs: seq<Geometry>, ts: real, n: nat, x: Keyed<Pair>)
    requires n <= |tracks|
    ensures x in Pairs(maxCost, tracks, gs, ts, n) <==> IsCandidate(maxCost, tracks, gs, ts, x) && x.val.trk < n
  {
    hide IsCandidate, PairsOfTrack;
    CandidateInRange(maxCost, tracks, gs, ts, x);
    if n > 0 {
      PairsAre(maxCost, tracks, gs, ts, n - 1, x);
      PairsOfTrackAre(maxCost, tracks, gs, ts, n - 1, |gs|, x);
    }
  }

  lemma {:induction false} RankedAre(maxCost: real, tracks: seq<Track>, gs: seq<Geometry>, ts: real, x: Keyed<Pair>)
    ensures x in Ranked(maxCost, tracks, gs, ts) <==> IsCandidate(maxCost, tracks, gs, ts, x)
  {
    SortMembers(Pairs(maxCost, tracks, gs, ts, |tracks|));
    PairsAre(maxCost, tracks, gs, ts, |tracks|, x);
  }

  // ---- ties ----------------------------------------------------------------------------------------

  /** In the order the candidates are listed: by track, then by detection. */
  predicate Listed(p: Pair, q: Pair) {
    p.trk < q.trk || (p.trk == q.trk && p.det < q.det)
  }

  ghost predicate InTurn(s: seq<Keyed<Pair>>) {
    forall i, j :: 0 <= i < j < |s| ==> Listed(s[i].val, s[j].val)
  }

  /** By cost, and at equal cost in the order listed. */
  ghost predicate RankedInTurn(s: seq<Keyed<Pair>>) {
    forall i, j :: 0 <= i < j < |s| ==> s[i].key < s[j].key || (s[i].key == s[j].key && Listed(s[i].val, s[j].val))
  }

  lemma {:induction false} InsertInTurn(s: seq<Keyed<Pair>>, x: Keyed<Pair>)
    requires RankedInTurn(s) && forall i :: 0 <= i < |s| ==> Listed(s[i].val, x.val)
    ensures RankedInTurn(Insert(s, x))
  {
    var p, r := Slot(s, x.key), Insert(s, x);
    assert forall i :: 0 <= i < p ==> s[i].key <= s[p - 1].key;
    hide Slot, Ascending, Insert, Listed;
    forall i, j | 0 <= i < j < |r|
      ensures r[i].key < r[j].key || (r[i].key == r[j].key && Listed(r[i].val, r[j].val))
    {
      InsertAt(s, x, i);
      InsertAt(s, x, j);
    }
  }

  lemma {:induction false} SortInTurn(s: seq<Keyed<Pair>>)
    requires InTurn(s)
    ensures RankedInTurn(Sort(s))
  {
    if s != [] {
      var init, last := s[..|s| - 1], s[|s| - 1];
      hide Listed;
      assert InTurn(init);
      SortInTurn(init);
      SortMembers(init);
      forall i | 0 <= i < |init|
        ensures Listed(Sort(init)[i].val, last.val)
      {
        assert Sort(init)[i] in init;
        var k :| 0 <= k < |init| && init[k] == Sort(init)[i];
        assert Listed(s[k].val, s[|s| - 1].val);
      }
      InsertInTurn(Sort(init), last);
    }
  }

  lemma {:induction false} TurnsJoin(a: seq<Keyed<Pair>>, b: seq<Keyed<Pair>>)
    requires InTurn(a) && InTurn(b)
    requires forall i, j :: 0 <= i < |a| && 0 <= j < |b| ==> Listed(a[i].val, b[j].val)
    ensures InTurn(a + b)
  {
    hide Listed;
  }

  lemma {:induction false} PairsOfTrackInTurn(
    maxCost: real, tracks: seq<Track>, gs: seq<Geometry>, ts: real, t: nat, n: nat)
    requires t < |tracks| && n <= |gs|
    ensures var ps := PairsOfTrack(maxCost, tracks, gs, ts, t, n);
            InTurn(ps) && forall i :: 0 <= i < |ps| ==> ps[i].val.trk == t && ps[i].val.det < n
  {
    hide PairCost, Cheap;
    if n > 0 {
      PairsOfTrackInTurn(maxCost, tracks, gs, ts, t, n - 1);
    }
  }

  lemma {:induction false} PairsInTurn(maxCost: real, tracks: seq<Track>, gs: seq<Geometry>, ts: real, n: nat)
    requires n <= |tracks|
    ensures var ps := Pairs(maxCost, tracks, gs, ts, n);
            InTurn(ps) && forall i :: 0 <= i < |ps| ==> ps[i].val.trk < n
  {
    hide PairsOfTrack;
    if n > 0 {
      PairsInTurn(maxCost, tracks, gs, ts, n - 1);
      PairsOfTrackInTurn(maxCost, tracks, gs, ts, n - 1, |gs|);
      TurnsJoin(Pairs(maxCost, tracks, gs, ts, n - 1), PairsOfTrack(maxCost, tracks, gs, ts, n - 1, |gs|));
    }
  }

  // ---- greedy ------------------------------------------------------------------------------------

  ghost predicate Chosen(p: Pair, m: Matching) {
    p.det in m.trackOf && m.trackOf[p.det] == p.trk
  }

  ghost predicate Meets(p: Pair, q: Pair) {
    p.det == q.det || p.trk == q.trk
  }

  ghost predicate OneToOne(m: Matching) {
    && (forall d :: d in m.trackOf ==> m.trackOf[d] in m.taken)
    && (forall d, e :: d in m.trackOf && e in m.trackOf && m.trackOf[d] == m.trackOf[e] ==> d == e)
  }

  /** Some pair ranked no later was chosen and shares the detection or the track. */
  ghost predicate Beaten(ranked: seq<Keyed<Pair>>, k: nat, m: Matching)
    requires k < |ranked|
  {
    exists j: nat :: j <= k && Chosen(ranked[j].val, m) && Meets(ranked[j].val, ranked[k].val)
  }

  ghost predicate Sourced(ranked: seq<Keyed<Pair>>, n: nat, p: Pair)
    requires n <= |ranked|
  {
    exists j: nat :: j < n && ranked[j].val == p
  }

  /** Every match comes from a ranked pair, and every taken track from a match. */
  ghost predicate FromRanked(ranked: seq<Keyed<Pair>>, n: nat, m: Matching)
    requires n <= |ranked|
  {
    && (forall d :: d in m.trackOf ==> Sourced(ranked, n, Pair(d, m.trackOf[d])))
    && (forall t :: t in m.taken ==> exists d :: d in m.trackOf && m.trackOf[d] == t)
  }

  lemma {:induction false} ClaimKeepsChosen(m: Matching, p: Pair, q: Pair)
    requires Chosen(q, m)
    ensures Chosen(q, Claim(m, p))
  {
  }

  lemma {:induction false} SourcedLater(ranked: seq<Keyed<Pair>>, n: nat, p: Pair)
    requires 0 < n <= |ranked|
    ensures Sourced(ranked, n - 1, p) || ranked[n - 1].val == p <==> Sourced(ranked, n, p)
  {
  }

  lemma {:induction false} ClaimKeepsOneToOne(m: Matching, p: Pair)
    requires OneToOne(m)
    ensures OneToOne(Claim(m, p))
  {
  }

  lemma {:induction false} ClaimKeepsSource(ranked: seq<Keyed<Pair>>, n: nat, m: Matching)
    requires 0 < n <= |ranked| && FromRanked(ranked, n - 1, m)
    ensures FromRanked(ranked, n, Claim(m, ranked[n - 1].val))
  {
    var p := ranked[n - 1].val;
    var m' := Claim(m, p);
    forall d | d in m'.trackOf
      ensures Sourced(ranked, n, Pair(d, m'.trackOf[d]))
    {
      SourcedLater(ranked, n, Pair(d, m'.trackOf[d]));
    }
    forall t | t in m'.taken
      ensures exists d :: d in m'.trackOf && m'.trackOf[d] == t
    {
      if t in m.taken {
        var d :| d in m.trackOf && m.trackOf[d] == t;
        assert d in m'.trackOf && m'.trackOf[d] == t;
      } else {
        assert m'.trackOf[p.det] == t;
      }
    }
  }

  lemma {:induction false} GreedyIsOneToOne(ranked: seq<Keyed<Pair>>, n: nat)
    requires n <= |ranked|
    ensures OneToOne(Greedy(ranked, n)) && FromRanked(ranked, n, Greedy(ranked, n))
  {
    if n > 0 {
      GreedyIsOneToOne(ranked, n - 1);
      ClaimKeepsOneToOne(Greedy(ranked, n - 1), ranked[n - 1].val);
      ClaimKeepsSource(ranked, n, Greedy(ranked, n - 1));
    }
  }

  lemma {:induction false} GreedyBeats(ranked: seq<Keyed<Pair>>, n: nat, k: nat)
    requires k < n <= |ranked|
    ensures Beaten(ranked, k, Greedy(ranked, n))
  {
    var m := Greedy(ranked, n - 1);
    var last := ranked[n - 1].val;
    GreedyIsOneToOne(ranked, n - 1);
    if k < n - 1 {
      GreedyBeats(ranked, n - 1, k);
      var j: nat :| j <= k && Chosen(ranked[j].val, m) && Meets(ranked[j].val, ranked[k].val);
      ClaimKeepsChosen(m, last, ranked[j].val);
    } else if last.det in m.trackOf {
      ChosenEarlier(ranked, n, Pair(last.det, m.trackOf[last.det]));
    } else if last.trk in m.taken {
      var d :| d in m.trackOf && m.trackOf[d] == last.trk;
      ChosenEarlier(ranked, n, Pair(d, last.trk));
    } else {
      assert Chosen(last, Greedy(ranked, n));
    }
  }

  lemma {:induction false} ChosenEarlier(ranked: seq<Keyed<Pair>>, n: nat, q: Pair)
    requires 0 < n <= |ranked| && Chosen(q, Greedy(ranked, n - 1)) && Meets(q, ranked[n - 1].val)
    ensures Beaten(ranked, n - 1, Greedy(ranked, n))
  {
    GreedyIsOneToOne(ranked, n - 1);
    assert Sourced(ranked, n - 1, Pair(q.det, q.trk));
    var j: nat :| j < n - 1 && ranked[j].val == q;
    ClaimKeepsChosen(Greedy(ranked, n - 1), ranked[n - 1].val, q);
  }

  // ---- the matching ---------------------------------------------------------------------------------

  /** Every taken track is somebody's match. */
  ghost predicate Covered(m: Matching) {
    forall t :: t in m.taken ==> exists d :: d in m.trackOf && m.trackOf[d] == t
  }

  /** As many detections matched as tracks taken. */
  ghost predicate Even(m: Matching) {
    |m.trackOf| == |m.taken|
  }

  lemma {:induction false} ClaimIsEven(m: Matching, p: Pair)
    requires Even(m)
    ensures Even(Claim(m, p))
  {
    if p.det !in m.trackOf && p.trk !in m.taken {
      assert m.trackOf[p.det := p.trk].Keys == m.trackOf.Keys + {p.det};
      assert |m.trackOf[p.det := p.trk].Keys| == |m.trackOf.Keys| + 1;
      assert |m.taken + {p.trk}| == |m.taken| + 1;
    }
  }

  lemma {:induction false} NothingIsEven()
    ensures Even(Matching(map[], {}))
  {
  }

  lemma {:induction false} GreedyIsEven(ranked: seq<Keyed<Pair>>, n: nat)
    requires n <= |ranked|
    ensures Even(Greedy(ranked, n))
  {
    hide Even, Claim;
    if n == 0 {
      NothingIsEven();
    } else {
      GreedyIsEven(ranked, n - 1);
      ClaimIsEven(Greedy(ranked, n - 1), ranked[n - 1].val);
    }
  }

  /** No track and no detection is used twice, and every matched pair is within the
      maximum cost. */
  lemma {:induction false} MatchingIsOneToOne(maxCost: real, tracks: seq<Track>, gs: seq<Geometry>, ts: real)
    ensures var m := Matched(maxCost, tracks, gs, ts);
            && OneToOne(m) && Covered(m) && Even(m)
            && forall d :: d in m.trackOf ==> Admissible(maxCost, tracks, gs, ts, Pair(d, m.trackOf[d]))
  {
    var ranked := Ranked(maxCost, tracks, gs, ts);
    var m := Matched(maxCost, tracks, gs, ts);
    GreedyIsOneToOne(ranked, |ranked|);
    GreedyIsEven(ranked, |ranked|);
    forall d | d in m.trackOf
      ensures Admissible(maxCost, tracks, gs, ts, Pair(d, m.trackOf[d]))
    {
      assert Sourced(ranked, |ranked|, Pair(d, m.trackOf[d]));
      var j: nat :| j < |ranked| && ranked[j].val == Pair(d, m.trackOf[d]);
      RankedAre(maxCost, tracks, gs, ts, ranked[j]);
    }
  }

  lemma {:induction false} RankedTakeTurns(maxCost: real, tracks: seq<Track>, gs: seq<Geometry>, ts: real)
    ensures RankedInTurn(Ranked(maxCost, tracks, gs, ts))
  {
    PairsInTurn(maxCost, tracks, gs, ts, |tracks|);
    hide Sort, Pairs, InTurn, RankedInTurn;
    SortInTurn(Pairs(maxCost, tracks, gs, ts, |tracks|));
  }

  lemma {:induction false} EarlierIsCheaper(ranked: seq<Keyed<Pair>>, j: nat, k: nat)
    requires RankedInTurn(ranked) && j <= k < |ranked|
    ensures ranked[j].key <= ranked[k].key
    ensures ranked[j].key == ranked[k].key ==> j == k || Listed(ranked[j].val, ranked[k].val)
  {
    hide Listed;
  }

  lemma {:induction false} RankOf(
    maxCost: real, tracks: seq<Track>, gs: seq<Geometry>, ts: real, p: Pair) returns (k: nat)
    requires Admissible(maxCost, tracks, gs, ts, p)
    ensures var ranked := Ranked(maxCost, tracks, gs, ts);
            k < |ranked| && ranked[k] == Keyed(PairCost(tracks, gs, ts, p), p)
  {
    hide PairCost, Ranked;
    var ranked := Ranked(maxCost, tracks, gs, ts);
    var x := Keyed(PairCost(tracks, gs, ts, p), p);
    RankedAre(maxCost, tracks, gs, ts, x);
    k :| k < |ranked| && ranked[k] == x;
  }

  lemma {:induction false} RankedCosts(maxCost: real, tracks: seq<Track>, gs: seq<Geometry>, ts: real, j: nat)
    requires j < |Ranked(maxCost, tracks, gs, ts)|
    ensures var x := Ranked(maxCost, tracks, gs, ts)[j];
            x.val.det < |gs| && x.val.trk < |tracks| && x.key == PairCost(tracks, gs, ts, x.val)
  {
    hide PairCost, Ranked;
    RankedAre(maxCost, tracks, gs, ts, Ranked(maxCost, tracks, gs, ts)[j]);
  }

  /** Every admissible pair that is not matched has its detection or its track matched
      at a cost no greater, and at the same cost to an earlier track or, with the same
      track, detection: the matching is maximal, and no such pair would rather have each
      other. */
  lemma {:induction false} MatchingIsStable(maxCost: real, tracks: seq<Track>, gs: seq<Geometry>, ts: real, p: Pair)
    returns (q: Pair)
    requires Admissible(maxCost, tracks, gs, ts, p)
    ensures Chosen(q, Matched(maxCost, tracks, gs, ts)) && Meets(q, p)
    ensures q.det < |gs| && q.trk < |tracks| && PairCost(tracks, gs, ts, q) <= PairCost(tracks, gs, ts, p)
    ensures PairCost(tracks, gs, ts, q) == PairCost(tracks, gs, ts, p) ==> q == p || Listed(q, p)
  {
    var ranked := Ranked(maxCost, tracks, gs, ts);
    hide PairCost, Cheap, Ranked, Greedy, Listed, RankedInTurn, Meets, Chosen;
    RankedTakeTurns(maxCost, tracks, gs, ts);
    var k := RankOf(maxCost, tracks, gs, ts, p);
    GreedyBeats(ranked, |ranked|, k);
    var j: nat :| j <= k && Chosen(ranked[j].val, Greedy(ranked, |ranked|)) && Meets(ranked[j].val, ranked[k].val);
    RankedCosts(maxCost, tracks, gs, ts, j);
    EarlierIsCheaper(ranked, j, k);
    q := ranked[j].val;
  }
}
