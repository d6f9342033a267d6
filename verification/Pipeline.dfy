/** pipeline.py: one frame through the detection pipeline. Detections are named by the
    tracker, judged by the policy and collected in the best-frame buffer, and whatever
    the tracker retires is forgotten by the other two. */
module Pipeline {
  import opened Association
  import opened NestedBoxes
  import BF = BestFrames
  import IP = Policy
  import TR = Tracking

  const PERSON := "person"
  const PLATE := "plate"

  /** `threshold` is the containment above which a box is nested in another. */
  datatype Settings = Settings(tracking: bool, indexTentative: bool, minWidth: int, minHeight: int, threshold: real)

  datatype Counters = Counters(nested: int, seen: nat, tooSmall: int, tentative: nat, suppressed: nat)

  /** `trace` is history: every observation judged so far. */
  datatype Pipe = Pipe(
    cfg: Settings, tracker: TR.Tracker, policy: IP.Policy, best: BF.Buffer, counters: Counters, trace: seq<IP.Obs>)

  /** One camera's frame: what the detector found (nothing when the gate closed), the
      domains the camera contributes, and whether a plate reader is active. */
  datatype Frame = Frame(camera: string, found: seq<Detection>, wanted: set<string>, plates: bool, ts: real)

  /** An observation handed to the sink. */
  datatype Emission = Untracked(d: Detection) | Recorded(d: Detection, id: string, reason: IP.Reason)

  datatype Worked = Worked(pipe: Pipe, emitted: seq<Emission>)

  // ---- before the tracker ---------------------------------------------------------------------

  ghost function Collapsed(cfg: Settings, found: seq<Detection>): seq<Detection> {
    if |found| < 2 then found else Suppressed(found, cfg.threshold)
  }

  predicate LargeEnough(cfg: Settings, d: Detection) {
    d.box.x2 - d.box.x1 >= cfg.minWidth && d.box.y2 - d.box.y1 >= cfg.minHeight
  }

  function Large(cfg: Settings, ds: seq<Detection>): seq<Detection> {
    if ds == [] then []
    else Large(cfg, ds[..|ds| - 1]) + (if LargeEnough(cfg, ds[|ds| - 1]) then [ds[|ds| - 1]] else [])
  }

  /** The detections of a frame the tracker is given. */
  ghost function Contributed(cfg: Settings, f: Frame): seq<Detection> {
    Large(cfg, OfDomains(Collapsed(cfg, f.found), f.wanted))
  }

  ghost function Count(cfg: Settings, c: Counters, f: Frame): Counters {
    var collapsed := Collapsed(cfg, f.found);
    var ds := OfDomains(collapsed, f.wanted);
    c.(nested := c.nested + |f.found| - |collapsed|, seen := c.seen + |ds|,
       tooSmall := c.tooSmall + |ds| - |Large(cfg, ds)|)
  }

  // ---- one tracked detection ---------------------------------------------------------------------

  /** Too young a track is not recorded unless tentative ones are indexed. */
  predicate Eligible(cfg: Settings, t: Track) {
    TR.Known(t) || cfg.indexTentative
  }

  /** A vehicle's look is worth keeping for the plate reader. */
  predicate Collects(f: Frame, d: Detection) {
    f.plates && d.domain != PERSON && PLATE in f.wanted && d.nbytes > 0
  }

  function LookAt(f: Frame, d: Detection): BF.Candidate {
    BF.Candidate(f.ts, d.score, d.confidence, d.nbytes)
  }

  function Judge(p: Pipe, f: Frame, d: Detection, id: string): Pipe {
    var reason := IP.Decision(p.policy, id, d, f.ts);
    p.(best := if Collects(f, d) then BF.AfterOffer(p.best, id, LookAt(f, d)) else p.best,
       policy := IP.AfterObserve(p.policy, id, d, f.ts),
       counters := p.counters.(suppressed := p.counters.suppressed + (if reason.None? then 1 else 0)),
       trace := IP.Observed(p.policy, p.trace, id, d, f.ts))
  }

  function Emit(d: Detection, e: Emission): seq<Emission> {
    if d.nbytes > 0 then [e] else []
  }

  function EmittedFor(p: Pipe, f: Frame, d: Detection, id: string): seq<Emission> {
    var reason := IP.Decision(p.policy, id, d, f.ts);
    if reason.None? then [] else Emit(d, Recorded(d, id, reason.value))
  }

  /** The first n tracked detections judged. */
  function JudgeEach(p: Pipe, f: Frame, tds: seq<TR.Tracked>, n: nat): Worked
    requires n <= |tds|
  {
    if n == 0 then Worked(p, [])
    else
      var before := JudgeEach(p, f, tds, n - 1);
      var td := tds[n - 1];
      if !Eligible(p.cfg, td.track) then
        var counters := before.pipe.counters;
        before.(pipe := before.pipe.(counters := counters.(tentative := counters.tentative + 1)))
      else
        Worked(Judge(before.pipe, f, td.det, td.track.id),
               before.emitted + EmittedFor(before.pipe, f, td.det, td.track.id))
  }

  function AllUntracked(ds: seq<Detection>): seq<Emission> {
    if ds == [] then [] else AllUntracked(ds[..|ds| - 1]) + Emit(ds[|ds| - 1], Untracked(ds[|ds| - 1]))
  }

  // ---- retired tracks -------------------------------------------------------------------------------

  /** Drained once and shared: both holders of per-track state forget the retired ids. */
  function Pruned(p: Pipe, t: TR.Tracker): Pipe {
    var q := p.(tracker := TR.AfterDrain(t));
    if t.expired == [] then q
    else q.(policy := IP.AfterForget(p.policy, t.expired), best := BF.AfterForget(p.best, t.expired))
  }

  // ---- the two steps -----------------------------------------------------------------------------------

  ghost function AfterFrame(p: Pipe, f: Frame): Worked {
    var ds := Contributed(p.cfg, f);
    var counted := p.(counters := Count(p.cfg, p.counters, f));
    if ds == [] then Worked(counted, [])
    else if !p.cfg.tracking then Worked(counted, AllUntracked(ds))
    else
      var u := TR.AfterUpdate(p.tracker, f.camera, ds, f.ts);
      JudgeEach(Pruned(counted, u.tracker), f, u.out, |u.out|)
  }

  /** After a reconnect nothing of the camera's identity is kept. */
  function AfterResetGate(p: Pipe, camera: string): Pipe {
    if !p.cfg.tracking then p else Pruned(p, TR.AfterForget(p.tracker, camera))
  }

  // ---- the pipeline ----------------------------------------------------------------------------------------

  class DetectionPipeline {
    const cfg: Settings
    const tracker: TR.ObjectTracker
    const policy: IP.IndexingPolicy
    const best: BF.BestFrameBuffer
    var nested: int
    var seen: nat
    var tooSmall: int
    var tentative: nat
    var suppressed: nat
    ghost var trace: seq<IP.Obs>

    ghost function View(): Pipe
      reads this, tracker, policy, best
    {
      Pipe(cfg, tracker.View(), policy.View(), best.View(), Counters(nested, seen, tooSmall, tentative, suppressed),
           trace)
    }

    ghost predicate Valid()
      reads this, best
    {
      BF.Sound(best.View()) && BF.WithinCeiling(best.View())
    }

    constructor (cfg: Settings, tracking: TR.Config, policy: IP.Settings, perTrack: int, maxBytes: int)
      ensures fresh(tracker) && fresh(this.policy) && fresh(best) && Valid()
      ensures View() == Pipe(cfg, TR.Start(tracking.(alpha := RealMin(1.0, RealMax(0.0, tracking.alpha)))),
                             IP.Start(policy), BF.Empty(perTrack, maxBytes), Counters(0, 0, 0, 0, 0), [])
    {
      this.cfg := cfg;
      tracker := new TR.ObjectTracker(tracking);
      this.policy := new IP.IndexingPolicy(policy);
      best := new BF.BestFrameBuffer(perTrack, maxBytes);
      nested, seen, tooSmall, tentative, suppressed, trace := 0, 0, 0, 0, 0, [];
      new;
      BF.EveryRunIsSound(perTrack, maxBytes, []);
    }

    method Collapse(found: seq<Detection>) returns (ds: seq<Detection>)
      modifies `nested
      ensures ds == Collapsed(cfg, found) && nested == old(nested) + |found| - |ds|
    {
      if |found| < 2 {
        return found;
      }
      ds := SuppressNested(found, cfg.threshold);
      nested := nested + |found| - |ds|;
    }

    /** Forgets what the tracker has retired. */
    method Prune()
      requires Valid()
      modifies tracker`expired, policy, best
      ensures Valid() && View() == Pruned(old(View()), old(tracker.View()))
    {
      var gone := tracker.DrainExpired();
      if gone != [] {
        policy.Forget(gone);
        best.Forget(gone);
      }
    }

    /** Collapse, then drop the domains the camera does not contribute, then the small. */
    method Contribute(f: Frame) returns (ds: seq<Detection>)
      modifies this
      ensures ds == Contributed(cfg, f) && View() == old(View()).(counters := Count(cfg, old(View()).counters, f))
    {
      var found := Collapse(f.found);
      var wanted := OfDomains(found, f.wanted);
      seen := seen + |wanted|;
      ds := Large(cfg, wanted);
      tooSmall := tooSmall + |wanted| - |ds|;
    }

    /** Names the detections; the state of whatever was retired goes at once. */
    method Follow(f: Frame, ds: seq<Detection>) returns (tds: seq<TR.Tracked>)
      requires Valid()
      modifies tracker, policy, best
      ensures Valid() && tds == TR.AfterUpdate(old(tracker.View()), f.camera, ds, f.ts).out
      ensures View() == Pruned(old(View()), TR.AfterUpdate(old(tracker.View()), f.camera, ds, f.ts).tracker)
    {
      hide TR.AfterUpdate, BF.Sound, BF.WithinCeiling, BF.AfterForget, IP.AfterForget;
      tds := tracker.Update(f.camera, ds, f.ts);
      Prune();
    }

    /** One frame: what leaves for the sink. */
    method Process(f: Frame) returns (emitted: seq<Emission>)
      requires Valid()
      modifies this, tracker, policy, best
      ensures Valid() && Worked(View(), emitted) == AfterFrame(old(View()), f)
    {
      hide BF.Sound, BF.WithinCeiling, Contributed, Count, Pruned, JudgeEach, TR.AfterUpdate;
      var ds := Contribute(f);
      if ds == [] {
        return [];
      }
      if !cfg.tracking {
        return AllUntracked(ds);
      }
      var tds := Follow(f, ds);
      emitted := JudgeAll(f, tds);
    }

    method JudgeAll(f: Frame, tds: seq<TR.Tracked>) returns (emitted: seq<Emission>)
      requires Valid()
      modifies this, policy, best
      ensures Valid() && Worked(View(), emitted) == JudgeEach(old(View()), f, tds, |tds|)
    {
      hide BF.Sound, BF.WithinCeiling, Judge, EmittedFor;
      emitted := [];
      for n := 0 to |tds|
        invariant Valid() && Worked(View(), emitted) == JudgeEach(old(View()), f, tds, n)
      {
        if !Eligible(cfg, tds[n].track) {
          tentative := tentative + 1;
          continue;
        }
        var more := JudgeOne(f, tds[n].det, tds[n].track.id);
        emitted := emitted + more;
      }
    }

    /** Collects the look, asks the policy, and records or suppresses. */
    method JudgeOne(f: Frame, d: Detection, id: string) returns (emitted: seq<Emission>)
      requires Valid()
      modifies this, policy, best
      ensures Valid() && View() == Judge(old(View()), f, d, id) && emitted == EmittedFor(old(View()), f, d, id)
    {
      hide BF.Sound, BF.WithinCeiling;
      if Collects(f, d) {
        best.Offer(id, LookAt(f, d));
      }
      var reason := policy.Decide(id, d, f.ts);
      trace := trace + [IP.Obs(id, d, f.ts, reason)];
      if reason.None? {
        policy.Suppress();
        suppressed := suppressed + 1;
        return [];
      }
      policy.Record(id, d, f.ts, reason.value);
      emitted := Emit(d, Recorded(d, id, reason.value));
    }

    /** After a reconnect or a change of scene. */
    method ResetGate(camera: string)
      requires Valid()
      modifies tracker, policy, best
      ensures Valid() && View() == AfterResetGate(old(View()), camera)
    {
      if cfg.tracking {
        tracker.Forget(camera);
        Prune();
      }
    }
  }
}
