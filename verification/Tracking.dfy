/** tracking.py: ObjectTracker, per-camera and per-domain object identity.

    A Track is a value here: the tracker's own list holds its latest state, and what
    an update returns is the state at that moment. */
module Tracking {
  import opened Association
  import opened Decimal
  import opened NestedBoxes
  import opened OrderedDict
  import opened Sorting

  type Key = (string, string)

  datatype Config = Config(
    enabled: bool, maxCost: real, alpha: real, confirmAfter: real, maxAge: real,
    stationaryAfter: real, stationaryDistance: real, cap: int, nonce: string)

  datatype Tracker = Tracker(
    cfg: Config, tracks: Dict<Key, seq<Track>>, epochs: map<string, nat>, counter: nat, expired: seq<string>,
    created: nat, confirmed: nat, retired: nat, associations: nat, failures: int)

  /** A detection and its track; isNew on the frame that made the track. */
  datatype Tracked = Tracked(det: Detection, track: Track, isNew: bool)

  datatype Updated = Updated(tracker: Tracker, out: seq<Tracked>)

  function Start(cfg: Config): Tracker {
    Tracker(cfg, Dict([], map[]), map[], 0, [], 0, 0, 0, 0, 0)
  }

  // ---- identity ------------------------------------------------------------------------------

  /** `camera:nonce.epoch:n`. */
  function IdOf(camera: string, nonce: string, epoch: nat, n: nat): string {
    camera + ":" + nonce + "." + Render(epoch) + ":" + Render(n)
  }

  function Epoch(t: Tracker, camera: string): nat {
    if camera in t.epochs then t.epochs[camera] else 0
  }

  function NextId(t: Tracker, camera: string): string {
    IdOf(camera, t.cfg.nonce, Epoch(t, camera), t.counter + 1)
  }

  // ---- one track -------------------------------------------------------------------------------

  predicate Known(t: Track) { !t.phase.Tentative? }

  function Fresh(id: string, domain: string, phase: Phase, g: Geometry, ts: real): Track {
    Track(id, domain, phase, ts, ts, g.cx, g.bottom, g.w, g.h, 0.0, 0.0, 1, g.cx, g.bottom, ts)
  }

  function Born(cfg: Config, id: string, domain: string, g: Geometry, ts: real): Track {
    Fresh(id, domain, if cfg.confirmAfter <= 0.0 then Confirmed else Tentative, g, ts)
  }

  /** The velocity smoothed in, the box moved, the sighting counted. */
  function Moved(cfg: Config, t: Track, g: Geometry, ts: real): Track {
    var dt := ts - t.lastSeen;
    var vx := if dt > 0.0 then cfg.alpha * ((g.cx - t.cx) / dt) + (1.0 - cfg.alpha) * t.vx else t.vx;
    var vy := if dt > 0.0 then cfg.alpha * ((g.bottom - t.bottom) / dt) + (1.0 - cfg.alpha) * t.vy else t.vy;
    t.(vx := vx, vy := vy, cx := g.cx, bottom := g.bottom, w := g.w, h := g.h, lastSeen := ts, hits := t.hits + 1)
  }

  /** Far enough from where it last counted as having moved, in its own heights. */
  predicate HasMoved(cfg: Config, t: Track) {
    var least := cfg.stationaryDistance * RealMax(0.000001, t.h);
    least <= 0.0 || Square(t.cx - t.stillCx) + Square(t.bottom - t.stillBottom) >= least * least
  }

  function StillHere(t: Track, ts: real): Track {
    t.(stillCx := t.cx, stillBottom := t.bottom, stillSince := ts)
  }

  predicate Confirms(cfg: Config, t: Track, ts: real) {
    !Known(t) && ts - t.firstSeen >= cfg.confirmAfter
  }

  function Advanced(cfg: Config, t: Track, g: Geometry, ts: real): (r: Track)
    ensures r.id == t.id && r.domain == t.domain && r.lastSeen == ts
  {
    var m := Moved(cfg, t, g, ts);
    if Confirms(cfg, t, ts) then StillHere(m, ts).(phase := Confirmed)
    else if !Known(t) then m
    else if HasMoved(cfg, m) then StillHere(m, ts).(phase := Active)
    else if ts - m.stillSince >= cfg.stationaryAfter then m.(phase := Stationary)
    else if m.phase.Confirmed? then m.(phase := Active)
    else m
  }

  lemma {:induction false} MeanOfSame(alpha: real, v: real)
    ensures alpha * v + (1.0 - alpha) * v == v
  {
  }

  lemma {:induction false} SpeedBack(x: real, v: real, dt: real)
    requires dt > 0.0
    ensures (x + v * dt - x) / dt == v
  {
    assert v * dt / dt == v;
  }

  /** A detection exactly where the track was expected leaves its velocity as it was,
      whatever the smoothing: constant motion is tracked without lag. */
  lemma {:induction false} ExpectedKeepsVelocity(cfg: Config, t: Track, g: Geometry, ts: real)
    requires g.cx == Predicted(t, ts).cx && g.bottom == Predicted(t, ts).bottom
    ensures Advanced(cfg, t, g, ts).vx == t.vx && Advanced(cfg, t, g, ts).vy == t.vy
    ensures Advanced(cfg, t, g, ts).cx == g.cx && Advanced(cfg, t, g, ts).bottom == g.bottom
  {
    var dt := ts - t.lastSeen;
    if dt > 0.0 {
      SpeedBack(t.cx, t.vx, dt);
      SpeedBack(t.bottom, t.vy, dt);
      MeanOfSame(cfg.alpha, t.vx);
      MeanOfSame(cfg.alpha, t.vy);
    }
  }

  /** A tentative track becomes known at its first sighting `confirm_after` or more after
      it was first seen; a known one is never tentative again, seen or unseen. */
  lemma {:induction false} KnownForGood(cfg: Config, t: Track, g: Geometry, ts: real)
    ensures Known(Advanced(cfg, t, g, ts)) <==> Known(t) || ts - t.firstSeen >= cfg.confirmAfter
    ensures Known(MarkedLost(t, ts)) <==> Known(t)
    ensures Advanced(cfg, t, g, ts).firstSeen == t.firstSeen && Advanced(cfg, t, g, ts).hits == t.hits + 1
  {
    hide HasMoved;
  }

  /** Sighted at g, the track is far from where it last counted as having moved. */
  predicate Drifted(cfg: Config, t: Track, g: Geometry) {
    HasMoved(cfg, t.(cx := g.cx, bottom := g.bottom, h := g.h))
  }

  lemma {:induction false} OneDrift(cfg: Config, t: Track, g: Geometry, ts: real)
    requires Known(t)
    ensures var r := Advanced(cfg, t, g, ts);
            && Known(r)
            && if Drifted(cfg, t, g)
               then r.phase.Active? && r.stillCx == g.cx && r.stillBottom == g.bottom && r.stillSince == ts
               else r.stillCx == t.stillCx && r.stillBottom == t.stillBottom && r.stillSince == t.stillSince
                    && (ts - t.stillSince >= cfg.stationaryAfter ==> r.phase.Stationary?)
  {
    var m := Moved(cfg, t, g, ts);
    assert HasMoved(cfg, m) == Drifted(cfg, t, g);
    hide Moved, HasMoved;
  }

  datatype Sighting = Sighting(g: Geometry, ts: real)

  /** The track after a run of sightings. */
  function Sighted(cfg: Config, t: Track, seen: seq<Sighting>): Track {
    if seen == [] then t
    else Advanced(cfg, Sighted(cfg, t, seen[..|seen| - 1]), seen[|seen| - 1].g, seen[|seen| - 1].ts)
  }

  lemma {:induction false} SamePlace(cfg: Config, t: Track, r: Track, g: Geometry)
    requires r.stillCx == t.stillCx && r.stillBottom == t.stillBottom
    ensures Drifted(cfg, r, g) == Drifted(cfg, t, g)
  {
  }

  /** Slow drift adds up: over any run of sightings of a known track, none but perhaps the
      last far from the place where it last counted as having moved, that place stays
      the same however the steps between sightings fall; the last, if it is far from it,
      makes the track active and is the new place, and otherwise, once stationary_after
      past the last move, the track is stationary. */
  lemma {:induction false} DriftAddsUp(cfg: Config, t: Track, seen: seq<Sighting>)
    requires Known(t) && seen != [] && forall i :: 0 <= i < |seen| - 1 ==> !Drifted(cfg, t, seen[i].g)
    ensures var r, last := Sighted(cfg, t, seen), seen[|seen| - 1];
            && Known(r)
            && if Drifted(cfg, t, last.g)
               then r.phase.Active? && r.stillCx == last.g.cx && r.stillBottom == last.g.bottom
                    && r.stillSince == last.ts
               else r.stillCx == t.stillCx && r.stillBottom == t.stillBottom && r.stillSince == t.stillSince
                    && (last.ts - t.stillSince >= cfg.stationaryAfter ==> r.phase.Stationary?)
  {
    hide Advanced, Drifted, Known;
    var init, last := seen[..|seen| - 1], seen[|seen| - 1];
    var before := Sighted(cfg, t, init);
    if init != [] {
      assert !Drifted(cfg, t, init[|init| - 1].g);
      DriftAddsUp(cfg, t, init);
    }
    OneDrift(cfg, before, last.g, last.ts);
    SamePlace(cfg, t, before, last.g);
  }

  // ---- one domain of one frame --------------------------------------------------------------------

  function Geometries(ds: seq<Detection>): (gs: seq<Geometry>)
    ensures |gs| == |ds| && forall i :: 0 <= i < |ds| ==> gs[i] == GeometryOf(ds[i].box)
  {
    seq(|ds|, i requires 0 <= i < |ds| => GeometryOf(ds[i].box))
  }

  /** The domain's list while a frame's detections are seated one by one. */
  datatype Working = Working(tracks: seq<Track>, counter: nat, created: nat, confirmed: nat, out: seq<Tracked>)

  /** What is fixed while one domain of one frame is seated. */
  datatype Setting = Setting(cfg: Config, camera: string, epoch: nat, domain: string, ts: real)

  function SeatNew(s: Setting, det: Detection, w: Working): Working {
    var id := IdOf(s.camera, s.cfg.nonce, s.epoch, w.counter + 1);
    var track := Born(s.cfg, id, s.domain, GeometryOf(det.box), s.ts);
    Working(w.tracks + [track], w.counter + 1, w.created + 1,
            w.confirmed + (if track.phase.Confirmed? then 1 else 0), w.out + [Tracked(det, track, true)])
  }

  function SeatMatched(s: Setting, det: Detection, i: nat, w: Working): Working
    requires i < |w.tracks|
  {
    var track := Advanced(s.cfg, w.tracks[i], GeometryOf(det.box), s.ts);
    w.(tracks := w.tracks[i := track],
       confirmed := w.confirmed + (if Confirms(s.cfg, w.tracks[i], s.ts) then 1 else 0),
       out := w.out + [Tracked(det, track, false)])
  }

  /** The first n detections seated: each on the track it matched, or on a new one. */
  function Seat(s: Setting, ds: seq<Detection>, m: Matching, w: Working, n: nat): (r: Working)
    requires n <= |ds|
    ensures |r.tracks| >= |w.tracks| && |r.out| == |w.out| + n
  {
    if n == 0 then w
    else
      var before := Seat(s, ds, m, w, n - 1);
      if n - 1 in m.trackOf && m.trackOf[n - 1] < |w.tracks| then SeatMatched(s, ds[n - 1], m.trackOf[n - 1], before)
      else SeatNew(s, ds[n - 1], before)
  }

  /** Where `tracks[:-cap]` ends and `tracks[-cap:]` begins. */
  function Cut(n: nat, cap: int): (c: nat)
    ensures c <= n
  {
    if cap > 0 then (if n > cap then n - cap else 0) else if -cap <= n then -cap else n
  }

  function ByLastSeen(tracks: seq<Track>): (ks: seq<Keyed<Track>>)
    ensures |ks| == |tracks| && forall i :: 0 <= i < |ks| ==> ks[i] == Keyed(tracks[i].lastSeen, tracks[i])
  {
    seq(|tracks|, i requires 0 <= i < |tracks| => Keyed(tracks[i].lastSeen, tracks[i]))
  }

  function TracksOf(ks: seq<Keyed<Track>>): (tracks: seq<Track>)
    ensures |tracks| == |ks| && forall i :: 0 <= i < |ks| ==> tracks[i] == ks[i].val
  {
    seq(|ks|, i requires 0 <= i < |ks| => ks[i].val)
  }

  /** Longest unseen first. */
  function OldestFirst(tracks: seq<Track>): (r: seq<Track>)
    ensures |r| == |tracks|
  {
    TracksOf(Sort(ByLastSeen(tracks)))
  }

  function Trimmed(cap: int, tracks: seq<Track>): seq<Track> {
    if |tracks| <= cap then tracks else OldestFirst(tracks)[Cut(|tracks|, cap)..]
  }

  function Dropped(cap: int, tracks: seq<Track>): seq<Track> {
    if |tracks| <= cap then [] else OldestFirst(tracks)[..Cut(|tracks|, cap)]
  }

  function Ids(tracks: seq<Track>): (ids: seq<string>)
    ensures |ids| == |tracks| && forall i :: 0 <= i < |ids| ==> ids[i] == tracks[i].id
  {
    seq(|tracks|, i requires 0 <= i < |tracks| => tracks[i].id)
  }

  function Retire(t: Tracker, ids: seq<string>): Tracker {
    t.(expired := t.expired + ids, retired := t.retired + |ids|)
  }

  function Held(t: Tracker, key: Key): seq<Track> {
    Get(t.tracks, key, [])
  }

  function SettingOf(t: Tracker, camera: string, domain: string, ts: real): Setting {
    Setting(t.cfg, camera, Epoch(t, camera), domain, ts)
  }

  function Seated(t: Tracker, camera: string, domain: string, ds: seq<Detection>, ts: real): Working {
    var tracks := Held(t, (camera, domain));
    Seat(SettingOf(t, camera, domain, ts), ds, Matched(t.cfg.maxCost, tracks, Geometries(ds), ts),
         Working(tracks, t.counter, t.created, t.confirmed, []), |ds|)
  }

  function AfterDomain(t: Tracker, camera: string, domain: string, ds: seq<Detection>, ts: real): Updated {
    var m := Matched(t.cfg.maxCost, Held(t, (camera, domain)), Geometries(ds), ts);
    var w := Seated(t, camera, domain, ds, ts);
    var t' := t.(tracks := Put(t.tracks, (camera, domain), Trimmed(t.cfg.cap, w.tracks)),
                 counter := w.counter, created := w.created, confirmed := w.confirmed,
                 associations := t.associations + |m.trackOf|, failures := t.failures + |ds| - |m.trackOf|);
    Updated(Retire(t', Ids(Dropped(t.cfg.cap, w.tracks))), w.out)
  }

  /** The domains of a frame, in order of first appearance. */
  function Domains(ds: seq<Detection>): seq<string> {
    if ds == [] then []
    else
      var before := Domains(ds[..|ds| - 1]);
      if ds[|ds| - 1].domain in before then before else before + [ds[|ds| - 1].domain]
  }

  function AfterDomains(t: Tracker, camera: string, ds: seq<Detection>, domains: seq<string>, ts: real, n: nat): Updated
    requires n <= |domains|
  {
    if n == 0 then Updated(t, [])
    else
      var before := AfterDomains(t, camera, ds, domains, ts, n - 1);
      var one := AfterDomain(before.tracker, camera, domains[n - 1], OfDomains(ds, {domains[n - 1]}), ts);
      Updated(one.tracker, before.out + one.out)
  }

  // ---- ageing ------------------------------------------------------------------------------------------

  predicate TooOld(cfg: Config, t: Track, ts: real) { ts - t.lastSeen > cfg.maxAge }

  function MarkedLost(t: Track, ts: real): (r: Track)
    ensures r.id == t.id && r.lastSeen == t.lastSeen && r.domain == t.domain
  {
    if ts - t.lastSeen > 0.0 && Known(t) then t.(phase := Lost) else t
  }

  /** The tracks not too old among the first n, unseen ones marked lost. */
  function Remaining(cfg: Config, tracks: seq<Track>, ts: real, n: nat): seq<Track>
    requires n <= |tracks|
  {
    if n == 0 then []
    else Remaining(cfg, tracks, ts, n - 1)
         + (if TooOld(cfg, tracks[n - 1], ts) then [] else [MarkedLost(tracks[n - 1], ts)])
  }

  function Aged(cfg: Config, tracks: seq<Track>, ts: real, n: nat): seq<string>
    requires n <= |tracks|
  {
    if n == 0 then []
    else Aged(cfg, tracks, ts, n - 1) + (if TooOld(cfg, tracks[n - 1], ts) then [tracks[n - 1].id] else [])
  }

  function AgeKey(t: Tracker, key: Key, ts: real): Tracker {
    var tracks := Held(t, key);
    Retire(t.(tracks := Put(t.tracks, key, Remaining(t.cfg, tracks, ts, |tracks|))), Aged(t.cfg, tracks, ts, |tracks|))
  }

  function AgeKeys(t: Tracker, camera: string, keys: seq<Key>, ts: real, n: nat): Tracker
    requires n <= |keys|
  {
    if n == 0 then t
    else
      var before := AgeKeys(t, camera, keys, ts, n - 1);
      if keys[n - 1].0 == camera then AgeKey(before, keys[n - 1], ts) else before
  }

  function AfterAgeOut(t: Tracker, camera: string, ts: real): Tracker {
    AgeKeys(t, camera, t.tracks.keys, ts, |t.tracks.keys|)
  }

  // ---- the operations ---------------------------------------------------------------------------------------

  /** Identity switched off: a throwaway track for each of the first n detections. */
  function Throwaways(t: Tracker, camera: string, ds: seq<Detection>, ts: real, n: nat): Updated
    requires n <= |ds|
  {
    if n == 0 then Updated(t, [])
    else
      var before := Throwaways(t, camera, ds, ts, n - 1);
      var d := ds[n - 1];
      var track := Fresh(NextId(before.tracker, camera), d.domain, Active, GeometryOf(d.box), ts);
      Updated(before.tracker.(counter := before.tracker.counter + 1), before.out + [Tracked(d, track, true)])
  }

  function AfterUpdate(t: Tracker, camera: string, ds: seq<Detection>, ts: real): Updated {
    if ds == [] then Updated(AfterAgeOut(t, camera, ts), [])
    else if !t.cfg.enabled then Throwaways(t, camera, ds, ts, |ds|)
    else
      var u := AfterDomains(t, camera, ds, Domains(ds), ts, |Domains(ds)|);
      Updated(AfterAgeOut(u.tracker, camera, ts), u.out)
  }

  function ResetKey(t: Tracker, key: Key): Tracker {
    Retire(t.(tracks := Drop(t.tracks, key)), Ids(Held(t, key)))
  }

  function ResetKeys(t: Tracker, camera: string, keys: seq<Key>, n: nat): Tracker
    requires n <= |keys|
  {
    if n == 0 then t
    else
      var before := ResetKeys(t, camera, keys, n - 1);
      if keys[n - 1].0 == camera then ResetKey(before, keys[n - 1]) else before
  }

  function AfterReset(t: Tracker, camera: string): Tracker {
    ResetKeys(t.(epochs := t.epochs[camera := Epoch(t, camera) + 1]), camera, t.tracks.keys, |t.tracks.keys|)
  }

  function AfterForget(t: Tracker, camera: string): Tracker {
    var r := AfterReset(t, camera);
    r.(epochs := r.epochs - {camera})
  }

  function AfterDrain(t: Tracker): Tracker {
    t.(expired := [])
  }

  // ---- the tracker --------------------------------------------------------------------------------------

  class ObjectTracker {
    const cfg: Config
    var tracks: Dict<Key, seq<Track>>
    var epochs: map<string, nat>
    var counter: nat
    var expired: seq<string>
    var created: nat
    var confirmed: nat
    var retired: nat
    var associations: nat
    var failures: int

    function View(): Tracker
      reads this
    {
      Tracker(cfg, tracks, epochs, counter, expired, created, confirmed, retired, associations, failures)
    }

    /** The smoothing factor is clamped to the unit interval. */
    constructor (cfg: Config)
      ensures View() == Start(cfg.(alpha := RealMin(1.0, RealMax(0.0, cfg.alpha))))
    {
      this.cfg := cfg.(alpha := RealMin(1.0, RealMax(0.0, cfg.alpha)));
      tracks, epochs, counter, expired := Dict([], map[]), map[], 0, [];
      created, confirmed, retired, associations, failures := 0, 0, 0, 0, 0;
    }

    method NewId(camera: string) returns (id: string)
      modifies `counter
      ensures counter == old(counter) + 1 && id == IdOf(camera, cfg.nonce, Epoch(View(), camera), counter)
    {
      counter := counter + 1;
      id := IdOf(camera, cfg.nonce, if camera in epochs then epochs[camera] else 0, counter);
    }

    /** The pairs of track and detection under the cost threshold. */
    method Candidates(known: seq<Track>, gs: seq<Geometry>, ts: real) returns (pairs: seq<Keyed<Pair>>)
      ensures pairs == Pairs(cfg.maxCost, known, gs, ts, |known|)
    {
      pairs := [];
      for t := 0 to |known|
        invariant pairs == Pairs(cfg.maxCost, known, gs, ts, t)
      {
        var found := CandidatesOf(known, gs, ts, t);
        pairs := pairs + found;
      }
    }

    method CandidatesOf(known: seq<Track>, gs: seq<Geometry>, ts: real, t: nat) returns (pairs: seq<Keyed<Pair>>)
      requires t < |known|
      ensures pairs == PairsOfTrack(cfg.maxCost, known, gs, ts, t, |gs|)
    {
      pairs := [];
      var p := Predicted(known[t], ts);
      for d := 0 to |gs|
        invariant pairs == PairsOfTrack(cfg.maxCost, known, gs, ts, t, d)
      {
        var cost := CostSquared(p, gs[d]);
        assert cost == PairCost(known, gs, ts, Pair(d, t));
        if Cheap(cost, cfg.maxCost) {
          pairs := pairs + [Keyed(cost, Pair(d, t))];
        }
      }
    }

    /** Greedy, cheapest first: one track claims at most one detection. */
    method Associate(known: seq<Track>, gs: seq<Geometry>, ts: real) returns (m: Matching)
      ensures m == Matched(cfg.maxCost, known, gs, ts)
    {
      var pairs := Candidates(known, gs, ts);
      var ranked := Sort(pairs);
      m := Matching(map[], {});
      for k := 0 to |ranked|
        invariant m == Greedy(ranked, k)
      {
        var p := ranked[k].val;
        if p.det in m.trackOf || p.trk in m.taken {
          continue;
        }
        m := Matching(m.trackOf[p.det := p.trk], m.taken + {p.trk});
      }
    }

    /** The matched track moves to the detection. */
    method Advance(s: Setting, det: Detection, i: nat, w: Working) returns (r: Working)
      requires i < |w.tracks| && s.cfg == cfg && w.confirmed == confirmed
      modifies `confirmed
      ensures r == SeatMatched(s, det, i, w) && confirmed == r.confirmed
      ensures r.counter == w.counter && r.created == w.created && |r.tracks| == |w.tracks|
    {
      if Confirms(cfg, w.tracks[i], s.ts) {
        confirmed := confirmed + 1;
      }
      var track := Advanced(cfg, w.tracks[i], GeometryOf(det.box), s.ts);
      r := w.(tracks := w.tracks[i := track], confirmed := confirmed, out := w.out + [Tracked(det, track, false)]);
    }

    /** A new track for a detection that matched nothing. */
    method Admit(s: Setting, det: Detection, w: Working) returns (r: Working)
      requires s.cfg == cfg && s.epoch == Epoch(View(), s.camera)
      requires w.counter == counter && w.created == created && w.confirmed == confirmed
      modifies `counter, `created, `confirmed
      ensures r == SeatNew(s, det, w) && counter == r.counter && created == r.created && confirmed == r.confirmed
      ensures |r.tracks| == |w.tracks| + 1
    {
      var id := NewId(s.camera);
      var track := Born(cfg, id, s.domain, GeometryOf(det.box), s.ts);
      if track.phase.Confirmed? {
        confirmed := confirmed + 1;
      }
      created := created + 1;
      r := Working(w.tracks + [track], counter, created, confirmed, w.out + [Tracked(det, track, true)]);
    }

    /** Seats each detection on the track it matched, or on a new one. */
    method SeatAll(s: Setting, ds: seq<Detection>, m: Matching, known: seq<Track>) returns (w: Working)
      requires s.cfg == cfg && s.epoch == Epoch(View(), s.camera)
      modifies `counter, `created, `confirmed
      ensures w == Seat(s, ds, m, Working(known, old(counter), old(created), old(confirmed), []), |ds|)
      ensures counter == w.counter && created == w.created && confirmed == w.confirmed
    {
      hide SeatMatched, SeatNew;
      w := Working(known, counter, created, confirmed, []);
      for d := 0 to |ds|
        invariant |w.tracks| >= |known| && counter == w.counter && created == w.created && confirmed == w.confirmed
        invariant w == Seat(s, ds, m, Working(known, old(counter), old(created), old(confirmed), []), d)
      {
        if d in m.trackOf && m.trackOf[d] < |known| {
          w := Advance(s, ds[d], m.trackOf[d], w);
        } else {
          w := Admit(s, ds[d], w);
        }
      }
    }

    method RetireAll(gone: seq<Track>)
      modifies `expired, `retired
      ensures View() == Retire(old(View()), Ids(gone))
    {
      for i := 0 to |gone|
        invariant expired == old(expired) + Ids(gone)[..i] && retired == old(retired) + i
      {
        expired := expired + [gone[i].id];
        retired := retired + 1;
      }
      assert Ids(gone)[..|gone|] == Ids(gone);
    }

    /** One domain of one frame: associate, seat, and trim to the cap. */
    method UpdateDomain(camera: string, domain: string, ds: seq<Detection>, ts: real) returns (out: seq<Tracked>)
      modifies this
      ensures View() == AfterDomain(old(View()), camera, domain, ds, ts).tracker
      ensures out == AfterDomain(old(View()), camera, domain, ds, ts).out
    {
      hide Seat, Matched, Trimmed, Dropped, Put, Geometries;
      var known := Get(tracks, (camera, domain), []);
      var m := Associate(known, Geometries(ds), ts);
      associations := associations + |m.trackOf|;
      failures := failures + |ds| - |m.trackOf|;
      var w := SeatAll(SettingOf(View(), camera, domain, ts), ds, m, known);
      var dead := Dropped(cfg.cap, w.tracks);
      tracks := Put(tracks, (camera, domain), Trimmed(cfg.cap, w.tracks));
      RetireAll(dead);
      out := w.out;
    }

    /** Every detection comes back with its track; the tracker drops none. */
    method Update(camera: string, ds: seq<Detection>, ts: real) returns (out: seq<Tracked>)
      modifies this
      ensures View() == AfterUpdate(old(View()), camera, ds, ts).tracker
      ensures out == AfterUpdate(old(View()), camera, ds, ts).out
    {
      out := [];
      if ds == [] {
        AgeOut(camera, ts);
        return;
      }
      if !cfg.enabled {
        out := Unidentified(camera, ds, ts);
        return;
      }
      var domains := Domains(ds);
      for n := 0 to |domains|
        invariant AfterDomains(old(View()), camera, ds, domains, ts, n) == Updated(View(), out)
      {
        var one := UpdateDomain(camera, domains[n], OfDomains(ds, {domains[n]}), ts);
        out := out + one;
      }
      AgeOut(camera, ts);
    }

    /** Identity off: every detection is its own single-hit track. */
    method Unidentified(camera: string, ds: seq<Detection>, ts: real) returns (out: seq<Tracked>)
      modifies `counter
      ensures Updated(View(), out) == Throwaways(old(View()), camera, ds, ts, |ds|)
    {
      out := [];
      for n := 0 to |ds|
        invariant Updated(View(), out) == Throwaways(old(View()), camera, ds, ts, n)
      {
        var id := NewId(camera);
        out := out + [Tracked(ds[n], Fresh(id, ds[n].domain, Active, GeometryOf(ds[n].box), ts), true)];
      }
    }

    /** Marks the camera's unseen tracks lost and expires those past max_age. */
    method AgeOut(camera: string, ts: real)
      modifies `tracks, `expired, `retired
      ensures View() == AfterAgeOut(old(View()), camera, ts)
    {
      var keys := tracks.keys;
      for n := 0 to |keys|
        invariant View() == AgeKeys(old(View()), camera, keys, ts, n)
      {
        if keys[n].0 == camera {
          AgeOne(keys[n], ts);
        }
      }
    }

    method AgeOne(key: Key, ts: real)
      modifies `tracks, `expired, `retired
      ensures View() == AgeKey(old(View()), key, ts)
    {
      var list := Get(tracks, key, []);
      var keep: seq<Track> := [];
      for i := 0 to |list|
        invariant keep == Remaining(cfg, list, ts, i) && tracks == old(tracks)
        invariant expired == old(expired) + Aged(cfg, list, ts, i)
        invariant retired == old(retired) + |Aged(cfg, list, ts, i)|
      {
        if TooOld(cfg, list[i], ts) {
          expired := expired + [list[i].id];
          retired := retired + 1;
          continue;
        }
        keep := keep + [MarkedLost(list[i], ts)];
      }
      tracks := Put(tracks, key, keep);
    }

    /** A new epoch for the camera, and all its tracks retired. */
    method Reset(camera: string)
      modifies this
      ensures View() == AfterReset(old(View()), camera)
    {
      epochs := epochs[camera := (if camera in epochs then epochs[camera] else 0) + 1];
      var keys := tracks.keys;
      ghost var start := View();
      for n := 0 to |keys|
        invariant View() == ResetKeys(start, camera, keys, n)
      {
        if keys[n].0 == camera {
          ResetOne(keys[n]);
        }
      }
    }

    method ResetOne(key: Key)
      modifies `tracks, `expired, `retired
      ensures View() == ResetKey(old(View()), key)
    {
      var gone := Get(tracks, key, []);
      tracks := Drop(tracks, key);
      RetireAll(gone);
    }

    method Forget(camera: string)
      modifies this
      ensures View() == AfterForget(old(View()), camera)
    {
      Reset(camera);
      epochs := epochs - {camera};
    }

    /** The ids retired since the last call. */
    method DrainExpired() returns (ids: seq<string>)
      modifies `expired
      ensures ids == old(expired) && View() == AfterDrain(old(View()))
    {
      ids := expired;
      expired := [];
    }
  }
}
