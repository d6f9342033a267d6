/** pipeline.py over whole runs: what holds of the tracker, the policy and the best-frame
    buffer together after any sequence of frames and resets. */
module PipelineRuns {
  import opened Association
  import opened NestedBoxes
  import opened Pipeline
  import BF = BestFrames
  import IP = Policy
  import TC = TrackClock
  import TI = TrackIdentity
  import TL = TrackLiveness
  import TR = Tracking

  datatype Step = Process(f: Frame) | ResetGate(camera: string)

  /** The pipeline with its history: ids issued, ids drained, and the time of each
      camera's latest tracked frame. */
  datatype World = World(pipe: Pipe, issued: seq<string>, drained: seq<string>, clock: map<string, real>)

  function Idents(w: World): TI.World {
    TI.World(w.pipe.tracker, w.issued, w.drained)
  }

  ghost function After(w: World, step: Step): World {
    match step
    case Process(f) =>
      var ds := Contributed(w.pipe.cfg, f);
      if ds == [] then w.(pipe := AfterFrame(w.pipe, f).pipe)
      else
        var ids := TI.After(TI.After(Idents(w), TI.Update(f.camera, ds, f.ts)), TI.Drain);
        World(AfterFrame(w.pipe, f).pipe, ids.issued, ids.drained, TC.Later(w.clock, f.camera, f.ts))
    case ResetGate(camera) =>
      var ids := TI.After(TI.After(Idents(w), TI.Forget(camera)), TI.Drain);
      World(AfterResetGate(w.pipe, camera), ids.issued, ids.drained, w.clock)
  }

  /** What the tracker makes of the frame. */
  ghost function Updated(w: World, f: Frame): TR.Updated {
    TR.AfterUpdate(w.pipe.tracker, f.camera, Contributed(w.pipe.cfg, f), f.ts)
  }

  /** The tracks held leave room, in every domain of the frame, for each track the frame
      returns and judges: each known one, or each one when tentative tracks are indexed. */
  ghost predicate Roomy(w: World, step: Step) {
    match step
    case Process(f) =>
      TL.AllRoomy(w.pipe.tracker, f.camera, Contributed(w.pipe.cfg, f), f.ts, w.pipe.cfg.indexTentative)
    case ResetGate(_) => true
  }

  /** A frame that contributes anything comes later than its camera's others, with no
      domain over the cap. */
  ghost predicate Timely(w: World, step: Step) {
    match step
    case Process(f) =>
      var ds := Contributed(w.pipe.cfg, f);
      ds != [] ==> (f.camera in w.clock ==> w.clock[f.camera] < f.ts) && TL.WithinCap(ds, w.pipe.tracker.cfg.cap)
    case ResetGate(_) => true
  }

  // ---- what every step keeps ---------------------------------------------------------------------

  ghost predicate Live(p: Pipe, id: string) {
    id in TI.Pool(p.tracker)
  }

  /** Everything the policy and the buffer hold belongs to a live track. */
  ghost predicate NoLeak(p: Pipe) {
    && (forall id :: id in p.policy.anchors ==> Live(p, id))
    && (forall id :: id in p.policy.pending ==> Live(p, id))
    && (forall id :: id in p.best.byTrack.at ==> Live(p, id))
  }

  ghost predicate Configured(p: Pipe) {
    && p.cfg.tracking && p.tracker.cfg.enabled && p.tracker.cfg.cap > 0 && p.tracker.cfg.maxAge >= 0.0
    && p.policy.cfg.persist >= 1
  }

  /** Of every track not yet drained, the policy remembers its history exactly. */
  ghost predicate Recalls(p: Pipe, drained: seq<string>) {
    forall id :: id !in drained ==> IP.Remembers(p.policy, p.trace, id)
  }

  ghost predicate Orderly(p: Pipe, drained: seq<string>) {
    && Configured(p) && NoLeak(p) && BF.Sound(p.best) && BF.WithinCeiling(p.best)
    && (p.policy.cfg.suppression ==> Recalls(p, drained) && IP.AllDisciplined(p.policy.cfg, p.trace))
  }

  ghost predicate Sound(w: World) {
    && Orderly(w.pipe, w.drained)
    && TI.Accounted(Idents(w)) && TI.AllNumbered(w.issued) && w.pipe.tracker.expired == []
    && TC.Clocked(w.pipe.tracker, w.clock)
  }

  // ---- retired ids are forgotten --------------------------------------------------------------------

  /** A live id is live or retired after an operation that conserves ids. */
  lemma {:induction false} StillLive(t: TR.Tracker, t': TR.Tracker, born: seq<string>, id: string)
    requires TI.Conserves(t, t', born) && id in TI.Pool(t) && id !in t'.expired
    ensures id in TI.Pool(t')
  {
    hide TI.Pool;
    assert (TI.Pool(t') + multiset(t'.expired))[id] == (TI.Pool(t) + multiset(t.expired) + multiset(born))[id];
    assert id !in multiset(t'.expired);
  }

  lemma {:induction false} PruneKeepsPolicy(p: Pipe, t: TR.Tracker, id: string)
    ensures var q := Pruned(p, t).policy;
            && q.cfg == p.policy.cfg
            && (id in q.anchors <==> id in p.policy.anchors && id !in t.expired)
            && (id in q.pending <==> id in p.policy.pending && id !in t.expired)
            && (id in q.anchors ==> q.anchors[id] == p.policy.anchors[id])
            && (id in q.pending ==> q.pending[id] == p.policy.pending[id])
  {
    IP.ForgetDropsExactly(p.policy, t.expired, id);
  }

  lemma {:induction false} PruneKeepsBest(p: Pipe, t: TR.Tracker)
    requires BF.Sound(p.best) && BF.WithinCeiling(p.best)
    ensures var b := Pruned(p, t).best;
            && BF.Sound(b) && BF.WithinCeiling(b)
            && b.byTrack.at == p.best.byTrack.at - BF.Members(t.expired)
  {
    hide BF.Sound, BF.WithinCeiling, BF.AfterForget;
    BF.ForgetRemovesExactly(p.best, t.expired);
    if t.expired == [] {
      assert p.best.byTrack.at - BF.Members(t.expired) == p.best.byTrack.at;
    }
  }

  lemma {:induction false} PruneRest(p: Pipe, t: TR.Tracker)
    ensures var q := Pruned(p, t);
            q.cfg == p.cfg && q.tracker == TR.AfterDrain(t) && q.trace == p.trace && q.policy.cfg == p.policy.cfg
  {
    PruneKeepsPolicy(p, t, "");
  }

  lemma {:induction false} DrainKeepsPool(t: TR.Tracker)
    ensures TI.Pool(TR.AfterDrain(t)) == TI.Pool(t)
  {
  }

  lemma {:induction false} PruneLeavesNoLeak(p: Pipe, t: TR.Tracker, born: seq<string>)
    requires NoLeak(p) && BF.Sound(p.best) && BF.WithinCeiling(p.best) && TI.Conserves(p.tracker, t, born)
    ensures NoLeak(Pruned(p, t))
  {
    hide Pruned, TI.Pool, TI.Conserves, BF.Sound, BF.WithinCeiling;
    var q := Pruned(p, t);
    PruneRest(p, t);
    PruneKeepsBest(p, t);
    DrainKeepsPool(t);
    forall id | id in q.policy.anchors || id in q.policy.pending || id in q.best.byTrack.at
      ensures Live(q, id)
    {
      PruneKeepsPolicy(p, t, id);
      assert Live(p, id);
      StillLive(p.tracker, t, born, id);
    }
  }

  lemma {:induction false} PruneRecalls(p: Pipe, t: TR.Tracker, drained: seq<string>)
    requires Recalls(p, drained)
    ensures Recalls(Pruned(p, t), drained + t.expired)
  {
    hide Pruned;
    PruneRest(p, t);
    forall id | id !in drained + t.expired
      ensures IP.Remembers(Pruned(p, t).policy, p.trace, id)
    {
      PruneKeepsPolicy(p, t, id);
      assert IP.Remembers(p.policy, p.trace, id);
    }
  }

  lemma {:induction false} PruneIsOrderly(p: Pipe, t: TR.Tracker, born: seq<string>, drained: seq<string>)
    requires Orderly(p, drained) && TI.Conserves(p.tracker, t, born)
    ensures Orderly(Pruned(p, t), drained + t.expired)
  {
    PruneRest(p, t);
    PruneKeepsBest(p, t);
    PruneLeavesNoLeak(p, t, born);
    if p.policy.cfg.suppression {
      PruneRecalls(p, t, drained);
    }
    hide Pruned, NoLeak, Recalls, BF.Sound, BF.WithinCeiling, IP.AllDisciplined, TI.Pool;
  }

  // ---- judging ------------------------------------------------------------------------------------------

  lemma {:induction false} JudgeLeavesNoLeak(p: Pipe, f: Frame, d: Detection, id: string)
    requires NoLeak(p) && Live(p, id)
    ensures NoLeak(Judge(p, f, d, id))
  {
    hide TI.Pool, IP.Decision, BF.AfterOffer, IP.ScaleDiffers;
    BF.OfferTouchesOne(p.best, id, LookAt(f, d));
    forall other
      ensures Live(p, other) ==> Live(Judge(p, f, d, id), other)
    {
    }
  }

  lemma {:induction false} JudgeRecalls(p: Pipe, f: Frame, d: Detection, id: string, drained: seq<string>)
    requires Recalls(p, drained) && id !in drained && p.policy.cfg.suppression
    ensures Recalls(Judge(p, f, d, id), drained)
  {
    hide IP.AfterObserve, IP.Observed, IP.Remembers, BF.AfterOffer;
    var q := Judge(p, f, d, id);
    forall other | other !in drained
      ensures IP.Remembers(q.policy, q.trace, other)
    {
      if other == id {
        IP.ObserveRemembers(p.policy, p.trace, id, d, f.ts);
      } else {
        IP.ObserveSparesOthers(p.policy, p.trace, id, d, f.ts, other);
      }
    }
  }

  lemma {:induction false} DisciplineExtends(cfg: IP.Settings, trace: seq<IP.Obs>, o: IP.Obs)
    requires IP.AllDisciplined(cfg, trace) && IP.Disciplined(cfg, trace, o)
    ensures IP.AllDisciplined(cfg, trace + [o])
  {
    hide IP.Disciplined;
    var longer := trace + [o];
    forall k: nat | k < |longer|
      ensures IP.Disciplined(cfg, longer[..k], longer[k])
    {
      if k < |trace| {
        assert longer[..k] == trace[..k];
      } else {
        assert longer[..k] == trace;
      }
    }
  }

  lemma {:induction false} JudgeIsDisciplined(p: Pipe, f: Frame, d: Detection, id: string)
    requires IP.Remembers(p.policy, p.trace, id) && p.policy.cfg.suppression && p.policy.cfg.persist >= 1
    requires IP.AllDisciplined(p.policy.cfg, p.trace)
    ensures IP.AllDisciplined(p.policy.cfg, Judge(p, f, d, id).trace)
  {
    hide IP.Remembers, IP.AllDisciplined, IP.Disciplined, IP.Decision, BF.AfterOffer, IP.AfterObserve;
    IP.ObserveIsDisciplined(p.policy, p.trace, id, d, f.ts);
    DisciplineExtends(p.policy.cfg, p.trace, IP.Obs(id, d, f.ts, IP.Decision(p.policy, id, d, f.ts)));
  }

  lemma {:induction false} JudgeKeepsBest(p: Pipe, f: Frame, d: Detection, id: string)
    requires BF.Sound(p.best) && BF.WithinCeiling(p.best)
    ensures BF.Sound(Judge(p, f, d, id).best) && BF.WithinCeiling(Judge(p, f, d, id).best)
  {
    hide BF.Sound, BF.WithinCeiling, IP.AfterObserve, IP.Decision, BF.AfterOffer;
    BF.OfferIsSound(p.best, id, LookAt(f, d));
  }

  lemma {:induction false} JudgeRest(p: Pipe, f: Frame, d: Detection, id: string)
    ensures var q := Judge(p, f, d, id); q.cfg == p.cfg && q.tracker == p.tracker && q.policy.cfg == p.policy.cfg
  {
    hide IP.Decision, BF.AfterOffer, IP.ScaleDiffers;
  }

  lemma {:induction false} JudgeIsOrderly(p: Pipe, f: Frame, d: Detection, id: string, drained: seq<string>)
    requires Orderly(p, drained) && Live(p, id) && id !in drained
    ensures Orderly(Judge(p, f, d, id), drained)
  {
    JudgeRest(p, f, d, id);
    JudgeLeavesNoLeak(p, f, d, id);
    if p.policy.cfg.suppression {
      assert IP.Remembers(p.policy, p.trace, id);
      JudgeRecalls(p, f, d, id, drained);
      JudgeIsDisciplined(p, f, d, id);
    }
    JudgeKeepsBest(p, f, d, id);
    hide Judge, NoLeak, Recalls, BF.Sound, BF.WithinCeiling, IP.AllDisciplined, TI.Pool;
  }

  lemma {:induction false} JudgeEachIsOrderly(p: Pipe, f: Frame, tds: seq<TR.Tracked>, n: nat, drained: seq<string>)
    requires n <= |tds| && Orderly(p, drained)
    requires forall i :: 0 <= i < |tds| && Eligible(p.cfg, tds[i].track) ==>
               Live(p, tds[i].track.id) && tds[i].track.id !in drained
    ensures Orderly(JudgeEach(p, f, tds, n).pipe, drained)
    ensures JudgeEach(p, f, tds, n).pipe.tracker == p.tracker && JudgeEach(p, f, tds, n).pipe.cfg == p.cfg
  {
    hide Orderly, Judge, EmittedFor, TI.Pool;
    if n > 0 {
      JudgeEachIsOrderly(p, f, tds, n - 1, drained);
      var before := JudgeEach(p, f, tds, n - 1).pipe;
      if Eligible(p.cfg, tds[n - 1].track) {
        assert Live(p, tds[n - 1].track.id);
        JudgeIsOrderly(before, f, tds[n - 1].det, tds[n - 1].track.id, drained);
        JudgeRest(before, f, tds[n - 1].det, tds[n - 1].track.id);
      } else {
        CountedIsOrderly(before, before.counters.(tentative := before.counters.tentative + 1), drained);
      }
    }
  }

  lemma {:induction false} CountedIsOrderly(p: Pipe, counters: Counters, drained: seq<string>)
    requires Orderly(p, drained)
    ensures Orderly(p.(counters := counters), drained)
  {
    var q := p.(counters := counters);
    assert forall id :: Live(p, id) <==> Live(q, id);
    hide TI.Pool, BF.Sound, BF.WithinCeiling, IP.AllDisciplined;
  }

  // ---- the two steps ------------------------------------------------------------------------------------

  lemma {:induction false} AccountedThenDrain(w: World, op: TI.Op)
    requires Sound(w) && !op.Drain?
    ensures var ids := TI.After(TI.After(Idents(w), op), TI.Drain);
            var t := TI.Applied(w.pipe.tracker, op);
            && TI.Accounted(ids) && TI.AllNumbered(ids.issued)
            && ids.t == TR.AfterDrain(t) && ids.drained == w.drained + t.expired
  {
    TI.AfterIsAccounted(Idents(w), op);
    TI.AfterIsNumbered(Idents(w), op);
    hide Orderly, TC.Clocked, TI.Accounted, TI.AllNumbered, TI.Applied, TI.Issues;
    var once := TI.After(Idents(w), op);
    DrainStep(once);
    assert once.drained == w.drained + [] == w.drained;
  }

  lemma {:induction false} DrainStep(w: TI.World)
    requires TI.Accounted(w) && TI.AllNumbered(w.issued) && w.t.cfg.enabled
    ensures var ids := TI.After(w, TI.Drain);
            && TI.Accounted(ids) && TI.AllNumbered(ids.issued)
            && ids.t == TR.AfterDrain(w.t) && ids.drained == w.drained + w.t.expired
  {
    TI.AfterIsAccounted(w, TI.Drain);
    TI.AfterIsNumbered(w, TI.Drain);
  }

  lemma {:induction false} LiveIsNotDrained(w: TI.World, id: string)
    requires TI.Accounted(w) && TI.AllNumbered(w.issued) && id in TI.Pool(w.t)
    ensures id !in w.drained
  {
    TI.OnePlace(w, id);
    hide TI.Pool, TI.Accounted, TI.AllNumbered;
    assert id in w.drained <==> id in multiset(w.drained);
  }

  /** With room for the frame, every track it judges is held. */
  lemma {:induction false} RoomKeepsLive(w: World, f: Frame, i: nat)
    requires Sound(w) && Roomy(w, Process(f)) && Contributed(w.pipe.cfg, f) != []
    requires i < |Updated(w, f).out| && Eligible(w.pipe.cfg, Updated(w, f).out[i].track)
    ensures Updated(w, f).out[i].track.id in TI.Pool(Updated(w, f).tracker)
  {
    hide Contributed, NoLeak, TC.Clocked, TI.Pool, TR.AfterUpdate, TR.Known, TL.AllRoomy, BF.Sound, BF.WithinCeiling;
    TL.ReturnedTracksAreLive(w.pipe.tracker, f.camera, Contributed(w.pipe.cfg, f), f.ts, w.pipe.cfg.indexTentative, i);
  }

  /** The frame counted, followed, and what was retired forgotten. */
  ghost function Followed(w: World, f: Frame): Pipe {
    Pruned(w.pipe.(counters := Count(w.pipe.cfg, w.pipe.counters, f)), Updated(w, f).tracker)
  }

  lemma {:induction false} FollowedIsOrderly(w: World, f: Frame, ids: TI.World)
    requires Sound(w)
    requires ids == TI.After(TI.After(Idents(w), TI.Update(f.camera, Contributed(w.pipe.cfg, f), f.ts)), TI.Drain)
    ensures TI.Accounted(ids) && TI.AllNumbered(ids.issued) && TI.Pool(ids.t) == TI.Pool(Updated(w, f).tracker)
    ensures Followed(w, f).tracker == ids.t && Followed(w, f).cfg == w.pipe.cfg && Orderly(Followed(w, f), ids.drained)
  {
    var ds, u := Contributed(w.pipe.cfg, f), Updated(w, f);
    var op := TI.Update(f.camera, ds, f.ts);
    AccountedThenDrain(w, op);
    TI.UpdateConserves(w.pipe.tracker, f.camera, ds, f.ts);
    var counted := w.pipe.(counters := Count(w.pipe.cfg, w.pipe.counters, f));
    CountedIsOrderly(w.pipe, counted.counters, w.drained);
    hide Contributed, Count, TR.AfterUpdate, Orderly, Pruned, TI.Pool, TI.Accounted, TI.AllNumbered, TI.Issues;
    PruneIsOrderly(counted, u.tracker, TI.Issues(w.pipe.tracker, op), w.drained);
    PruneRest(counted, u.tracker);
    DrainKeepsPool(u.tracker);
  }

  lemma {:induction false} FrameIsOrderly(w: World, f: Frame, ids: TI.World)
    requires Sound(w) && Roomy(w, Process(f)) && Contributed(w.pipe.cfg, f) != []
    requires ids == TI.After(TI.After(Idents(w), TI.Update(f.camera, Contributed(w.pipe.cfg, f), f.ts)), TI.Drain)
    ensures Orderly(AfterFrame(w.pipe, f).pipe, ids.drained)
    ensures AfterFrame(w.pipe, f).pipe.tracker == ids.t
  {
    var u, p := Updated(w, f), Followed(w, f);
    FollowedIsOrderly(w, f, ids);
    forall i | 0 <= i < |u.out| && Eligible(p.cfg, u.out[i].track)
      ensures u.out[i].track.id in TI.Pool(u.tracker)
    {
      RoomKeepsLive(w, f, i);
    }
    assert AfterFrame(w.pipe, f) == JudgeEach(p, f, u.out, |u.out|);
    hide Sound, Orderly, Contributed, TR.AfterUpdate, JudgeEach, AfterFrame, Followed;
    hide TI.Pool, TI.Accounted, TI.AllNumbered, TI.After;
    forall i | 0 <= i < |u.out| && Eligible(p.cfg, u.out[i].track)
      ensures Live(p, u.out[i].track.id) && u.out[i].track.id !in ids.drained
    {
      LiveIsNotDrained(ids, u.out[i].track.id);
    }
    JudgeEachIsOrderly(p, f, u.out, |u.out|, ids.drained);
  }

  lemma {:induction false} FrameIsSound(w: World, f: Frame)
    requires Sound(w) && Roomy(w, Process(f)) && Contributed(w.pipe.cfg, f) != []
    ensures Sound(After(w, Process(f)))
  {
    var ds := Contributed(w.pipe.cfg, f);
    var op := TI.Update(f.camera, ds, f.ts);
    var ids := TI.After(TI.After(Idents(w), op), TI.Drain);
    AccountedThenDrain(w, op);
    FrameIsOrderly(w, f, ids);
    TC.UpdateIsClocked(w.pipe.tracker, w.clock, f.camera, ds, f.ts);
    var w' := After(w, Process(f));
    assert Idents(w') == ids;
    ClockedByHeld(TR.AfterUpdate(w.pipe.tracker, f.camera, ds, f.ts).tracker, ids.t, w'.clock);
  }

  lemma {:induction false} ClockedByHeld(t: TR.Tracker, t': TR.Tracker, clock: map<string, real>)
    requires TC.Clocked(t, clock) && t'.tracks == t.tracks
    ensures TC.Clocked(t', clock)
  {
    forall c, d
      ensures TC.HeldUpTo(t', c, d, clock)
    {
      assert TC.HeldUpTo(t, c, d, clock);
    }
  }

  lemma {:induction false} EmptyFrameIsSound(w: World, f: Frame)
    requires Sound(w) && Contributed(w.pipe.cfg, f) == []
    ensures Sound(After(w, Process(f)))
  {
    CountedIsOrderly(w.pipe, Count(w.pipe.cfg, w.pipe.counters, f), w.drained);
  }

  lemma {:induction false} ResetIsSound(w: World, camera: string)
    requires Sound(w)
    ensures Sound(After(w, ResetGate(camera)))
  {
    var op := TI.Forget(camera);
    var ids := TI.After(TI.After(Idents(w), op), TI.Drain);
    var t := TR.AfterForget(w.pipe.tracker, camera);
    AccountedThenDrain(w, op);
    TI.ResetConserves(w.pipe.tracker, camera);
    PruneIsOrderly(w.pipe, t, [], w.drained);
    PruneRest(w.pipe, t);
    TC.ForgetIsClocked(w.pipe.tracker, w.clock, camera);
    ClockedByHeld(t, ids.t, w.clock);
    assert Idents(After(w, ResetGate(camera))) == ids;
  }

  lemma {:induction false} AfterIsSound(w: World, step: Step)
    requires Sound(w) && Roomy(w, step)
    ensures Sound(After(w, step))
  {
    match step
    case ResetGate(camera) => ResetIsSound(w, camera);
    case Process(f) =>
      if Contributed(w.pipe.cfg, f) == [] {
        EmptyFrameIsSound(w, f);
      } else {
        FrameIsSound(w, f);
      }
  }

  // ---- when a frame leaves state behind -------------------------------------------------------------------

  lemma {:induction false} JudgeAnchors(p: Pipe, f: Frame, d: Detection, id: string)
    ensures p.policy.anchors.Keys <= Judge(p, f, d, id).policy.anchors.Keys
    ensures id in Judge(p, f, d, id).policy.anchors
  {
    hide BF.AfterOffer, IP.ScaleDiffers, IP.Verdict;
  }

  lemma {:induction false} JudgeEachAnchors(p: Pipe, f: Frame, tds: seq<TR.Tracked>, n: nat, i: nat)
    requires i < n <= |tds| && Eligible(p.cfg, tds[i].track)
    ensures tds[i].track.id in JudgeEach(p, f, tds, n).pipe.policy.anchors
  {
    hide Judge, EmittedFor;
    var before := JudgeEach(p, f, tds, n - 1).pipe;
    JudgeEachKeepsSettings(p, f, tds, n - 1);
    JudgeAnchors(before, f, tds[n - 1].det, tds[n - 1].track.id);
    if i < n - 1 {
      JudgeEachAnchors(p, f, tds, n - 1, i);
    }
  }

  lemma {:induction false} JudgeEachTracks(p: Pipe, f: Frame, tds: seq<TR.Tracked>, n: nat)
    requires n <= |tds|
    ensures JudgeEach(p, f, tds, n).pipe.tracker == p.tracker
  {
    hide Judge, EmittedFor;
    if n > 0 {
      JudgeEachTracks(p, f, tds, n - 1);
      JudgeRest(JudgeEach(p, f, tds, n - 1).pipe, f, tds[n - 1].det, tds[n - 1].track.id);
    }
  }

  /** Judging a track already retired makes its state anew. */
  lemma {:induction false} RetiredLeaks(w: World, f: Frame, i: nat)
    requires Sound(w) && Contributed(w.pipe.cfg, f) != [] && i < |Updated(w, f).out|
    requires Eligible(w.pipe.cfg, Updated(w, f).out[i].track)
    requires Updated(w, f).out[i].track.id !in TI.Pool(Updated(w, f).tracker)
    ensures !NoLeak(AfterFrame(w.pipe, f).pipe)
  {
    var u := Updated(w, f);
    var counted := w.pipe.(counters := Count(w.pipe.cfg, w.pipe.counters, f));
    var p := Pruned(counted, u.tracker);
    PruneRest(counted, u.tracker);
    DrainKeepsPool(u.tracker);
    hide TI.Pool, TI.Accounted, TI.AllNumbered, TC.Clocked, BF.Sound;
    hide BF.WithinCeiling, Pruned, JudgeEach, TR.AfterUpdate, Eligible;
    JudgeEachAnchors(p, f, u.out, |u.out|, i);
    JudgeEachTracks(p, f, u.out, |u.out|);
    assert !Live(AfterFrame(w.pipe, f).pipe, u.out[i].track.id);
  }

  /** Without room for the frame, some track it judges has been retired by then. */
  lemma {:induction false} NoRoomLeaks(w: World, f: Frame)
    requires Sound(w) && !Roomy(w, Process(f))
    ensures !NoLeak(AfterFrame(w.pipe, f).pipe)
  {
    var ds, u, tentative := Contributed(w.pipe.cfg, f), Updated(w, f), w.pipe.cfg.indexTentative;
    hide NoLeak, Recalls, TC.Clocked, TI.Pool, TR.AfterUpdate, BF.Sound, BF.WithinCeiling, IP.AllDisciplined;
    hide Contributed, AfterFrame, TL.AllRoomy, TR.Known;
    NothingIsRoomy(w.pipe.tracker, f.camera, ds, f.ts, tentative);
    var i := TL.OneReturnedIsRetired(w.pipe.tracker, f.camera, ds, f.ts, tentative);
    RetiredIsNotLive(Idents(w), u.tracker, TI.Update(f.camera, ds, f.ts), u.out[i].track.id);
    RetiredLeaks(w, f, i);
  }

  /** A step keeps state and tracks together exactly when the tracks held leave room for
      every track it judges. */
  lemma {:induction false} LeaksExactly(w: World, step: Step)
    requires Sound(w)
    ensures NoLeak(After(w, step).pipe) <==> Roomy(w, step)
  {
    if Roomy(w, step) {
      AfterIsSound(w, step);
    } else {
      var f := step.f;
      NothingIsRoomy(w.pipe.tracker, f.camera, Contributed(w.pipe.cfg, f), f.ts, w.pipe.cfg.indexTentative);
      NoRoomLeaks(w, f);
    }
  }

  lemma {:induction false} NothingIsRoomy(t: TR.Tracker, camera: string, ds: seq<Detection>, ts: real, tentative: bool)
    requires !TL.AllRoomy(t, camera, ds, ts, tentative)
    ensures ds != []
  {
    assert TR.Domains([]) == [];
  }

  lemma {:induction false} RetiredIsNotLive(w: TI.World, t: TR.Tracker, op: TI.Op, id: string)
    requires TI.Accounted(w) && TI.AllNumbered(w.issued) && w.t.cfg.enabled && t == TI.Applied(w.t, op)
    requires id in t.expired
    ensures id !in TI.Pool(t)
  {
    TI.AfterIsAccounted(w, op);
    TI.AfterIsNumbered(w, op);
    TI.OnePlace(TI.After(w, op), id);
    hide TI.Pool, TI.Accounted, TI.AllNumbered, TI.Applied;
    assert id in multiset(t.expired);
  }

  /** Later than the camera's other frames, there is room when no domain is over the cap. */
  lemma {:induction false} TimelyIsRoomy(w: World, step: Step)
    requires Sound(w) && Timely(w, step)
    ensures Roomy(w, step)
  {
    if step.Process? {
      var f := step.f;
      var ds := Contributed(w.pipe.cfg, f);
      hide Contributed, TL.AllRoomy, TL.WithinCap, TL.StrictlyLater;
      if ds == [] {
        EmptyIsRoomy(w.pipe.tracker, f.camera, ds, f.ts, w.pipe.cfg.indexTentative);
      } else {
        TC.LaterFrame(w.pipe.tracker, w.clock, f.camera, f.ts);
        TL.LaterFrameIsRoomy(w.pipe.tracker, f.camera, ds, f.ts);
      }
    }
  }

  lemma {:induction false} EmptyIsRoomy(t: TR.Tracker, camera: string, ds: seq<Detection>, ts: real, tentative: bool)
    requires ds == []
    ensures TL.AllRoomy(t, camera, ds, ts, tentative)
  {
    assert TR.Domains(ds) == [];
  }

  // ---- whole runs -----------------------------------------------------------------------------------------

  /** A pipeline as it is built. */
  function Begin(cfg: Settings, tracking: TR.Config, policy: IP.Settings, perTrack: int, maxBytes: int): World {
    World(Pipe(cfg, TR.Start(tracking), IP.Start(policy), BF.Empty(perTrack, maxBytes), Counters(0, 0, 0, 0, 0), []),
          [], [], map[])
  }

  /** Tracking on, a cap of at least one track, an age limit not negative. */
  predicate Tracked(cfg: Settings, tracking: TR.Config) {
    cfg.tracking && tracking.enabled && tracking.cap > 0 && tracking.maxAge >= 0.0
  }

  ghost function Run(w: World, steps: seq<Step>): World {
    if steps == [] then w else After(Run(w, steps[..|steps| - 1]), steps[|steps| - 1])
  }

  ghost predicate RoomyRun(w: World, steps: seq<Step>) {
    steps != [] ==> RoomyRun(w, steps[..|steps| - 1]) && Roomy(Run(w, steps[..|steps| - 1]), steps[|steps| - 1])
  }

  ghost predicate TimelyRun(w: World, steps: seq<Step>) {
    steps != [] ==> TimelyRun(w, steps[..|steps| - 1]) && Timely(Run(w, steps[..|steps| - 1]), steps[|steps| - 1])
  }

  /** After no step of the run has any state outlived its track. */
  ghost predicate NeverLeaks(w: World, steps: seq<Step>) {
    NoLeak(Run(w, steps).pipe) && (steps != [] ==> NeverLeaks(w, steps[..|steps| - 1]))
  }

  lemma {:induction false} BeginIsSound(
    cfg: Settings, tracking: TR.Config, policy: IP.Settings, perTrack: int, maxBytes: int)
    requires Tracked(cfg, tracking)
    ensures Sound(Begin(cfg, tracking, policy, perTrack, maxBytes))
  {
    BF.EveryRunIsSound(perTrack, maxBytes, []);
  }

  lemma {:induction false} RunIsSound(w: World, steps: seq<Step>)
    requires Sound(w) && RoomyRun(w, steps)
    ensures Sound(Run(w, steps))
  {
    hide Sound, After, Roomy;
    if steps != [] {
      RunIsSound(w, steps[..|steps| - 1]);
      AfterIsSound(Run(w, steps[..|steps| - 1]), steps[|steps| - 1]);
    }
  }

  lemma {:induction false} SoundLeaksNothing(w: World)
    requires Sound(w)
    ensures NoLeak(w.pipe)
  {
  }

  lemma {:induction false} RoomyExactly(w: World, steps: seq<Step>)
    requires Sound(w)
    ensures NeverLeaks(w, steps) <==> RoomyRun(w, steps)
  {
    hide Sound, After, Roomy, NoLeak;
    if steps == [] {
      SoundLeaksNothing(w);
    } else {
      var init := steps[..|steps| - 1];
      RoomyExactly(w, init);
      if RoomyRun(w, init) {
        RunIsSound(w, init);
        LeaksExactly(Run(w, init), steps[|steps| - 1]);
      }
    }
  }

  lemma {:induction false} TimelyRunIsRoomy(w: World, steps: seq<Step>)
    requires Sound(w) && TimelyRun(w, steps)
    ensures RoomyRun(w, steps)
  {
    hide Sound, After, Roomy, Timely;
    if steps != [] {
      var init := steps[..|steps| - 1];
      TimelyRunIsRoomy(w, init);
      RunIsSound(w, init);
      TimelyIsRoomy(Run(w, init), steps[|steps| - 1]);
    }
  }

  /** No per-track state outlives its track exactly when the tracks held always leave room
      for the frame: over any run every anchor, every pending scale count and every
      shortlist belongs to a track the tracker still holds, after every step, if and only
      if no frame needs more of the cap than what stands ahead of the tracks it judges;
      and then nothing waits to be drained. */
  lemma {:induction false} NoStateOutlivesItsTrack(
    cfg: Settings, tracking: TR.Config, policy: IP.Settings, perTrack: int, maxBytes: int, steps: seq<Step>)
    requires Tracked(cfg, tracking)
    ensures var w := Begin(cfg, tracking, policy, perTrack, maxBytes);
            var p := Run(w, steps).pipe;
            && (NeverLeaks(w, steps) <==> RoomyRun(w, steps))
            && (NeverLeaks(w, steps) ==> p.tracker.expired == [] && BF.Sound(p.best) && BF.WithinCeiling(p.best))
  {
    var w := Begin(cfg, tracking, policy, perTrack, maxBytes);
    BeginIsSound(cfg, tracking, policy, perTrack, maxBytes);
    hide Roomy, After;
    RoomyExactly(w, steps);
    if RoomyRun(w, steps) {
      RunIsSound(w, steps);
    }
  }

  /** In particular when every frame that contributes anything comes later than its
      camera's others and brings no domain more detections than the cap. */
  lemma {:induction false} TimelyRunsNeverLeak(
    cfg: Settings, tracking: TR.Config, policy: IP.Settings, perTrack: int, maxBytes: int, steps: seq<Step>)
    requires Tracked(cfg, tracking)
    requires TimelyRun(Begin(cfg, tracking, policy, perTrack, maxBytes), steps)
    ensures NeverLeaks(Begin(cfg, tracking, policy, perTrack, maxBytes), steps)
  {
    BeginIsSound(cfg, tracking, policy, perTrack, maxBytes);
    TimelyRunIsRoomy(Begin(cfg, tracking, policy, perTrack, maxBytes), steps);
    RoomyExactly(Begin(cfg, tracking, policy, perTrack, maxBytes), steps);
  }

  /** Over a run that leaves nothing behind, with suppression on: an observation is recorded
      as first sight exactly when it is the first of its track, and otherwise recorded
      exactly when it is due; the reason given is the first whose rule holds; two records
      of one track are at least the interval apart; and a record for change of scale closes
      a run of at least `persist` qualifying observations of the track since its last record. */
  lemma {:induction false} RecordingDiscipline(
    cfg: Settings, tracking: TR.Config, policy: IP.Settings, perTrack: int, maxBytes: int, steps: seq<Step>,
    i: nat, j: nat)
    returns (at: seq<nat>)
    requires Tracked(cfg, tracking) && policy.suppression
    requires RoomyRun(Begin(cfg, tracking, policy, perTrack, maxBytes), steps)
    requires j < |Run(Begin(cfg, tracking, policy, perTrack, maxBytes), steps).pipe.trace|
    ensures var trace := Run(Begin(cfg, tracking, policy, perTrack, maxBytes), steps).pipe.trace;
            var kept := IP.Bounded(policy);
            var o := trace[j];
            && (o.reason == IP.Some(IP.FirstSight) <==> forall k :: 0 <= k < j ==> trace[k].id != o.id)
            && (o.reason.Some? <==> o.reason == IP.Some(IP.FirstSight) || IP.Due(kept, trace[..j], o))
            && (forall reason :: o.reason == IP.Some(reason) <==> IP.Justified(kept, trace[..j], o, reason))
            && (i < j && trace[i].id == o.id && trace[i].reason.Some? && o.reason.Some? && kept.interval > 0.0
                ==> o.ts - trace[i].ts >= kept.interval)
            && (o.reason == IP.Some(IP.ScaleChange) ==>
                  |at| + 1 >= kept.persist && IP.LastRun(kept, trace, o.id, at, j) && IP.Qualifies(kept, trace[..j], o))
  {
    var w := Begin(cfg, tracking, policy, perTrack, maxBytes);
    BeginIsSound(cfg, tracking, policy, perTrack, maxBytes);
    RunIsSound(w, steps);
    RunKeepsSettings(w, steps);
    var trace := Run(w, steps).pipe.trace;
    var kept := IP.Bounded(policy);
    assert IP.AllDisciplined(kept, trace);
    RecordedWhenDue(kept, trace, j);
    hide Run, RoomyRun, Sound, IP.LastRun, IP.Qualifies, IP.AllDisciplined, IP.Due, IP.Justified;
    IP.FirstSightExactly(kept, trace, j);
    if i < j && trace[i].id == trace[j].id && trace[i].reason.Some? && trace[j].reason.Some? && kept.interval > 0.0 {
      IP.RecordsAreApart(kept, trace, i, j);
    }
    at := [];
    if trace[j].reason == IP.Some(IP.ScaleChange) {
      at := IP.ScaleChangePersisted(kept, trace, j);
    }
  }

  lemma {:induction false} RecordedWhenDue(cfg: IP.Settings, trace: seq<IP.Obs>, j: nat)
    requires IP.AllDisciplined(cfg, trace) && j < |trace|
    ensures var o := trace[j];
            && (o.reason.Some? <==> o.reason == IP.Some(IP.FirstSight) || IP.Due(cfg, trace[..j], o))
            && (forall reason :: o.reason == IP.Some(reason) <==> IP.Justified(cfg, trace[..j], o, reason))
  {
    hide IP.Due;
    assert IP.Disciplined(cfg, trace[..j], trace[j]);
  }

  lemma {:induction false} JudgeEachKeepsSettings(p: Pipe, f: Frame, tds: seq<TR.Tracked>, n: nat)
    requires n <= |tds|
    ensures JudgeEach(p, f, tds, n).pipe.policy.cfg == p.policy.cfg && JudgeEach(p, f, tds, n).pipe.cfg == p.cfg
  {
    hide Judge, EmittedFor;
    if n > 0 {
      JudgeEachKeepsSettings(p, f, tds, n - 1);
      JudgeRest(JudgeEach(p, f, tds, n - 1).pipe, f, tds[n - 1].det, tds[n - 1].track.id);
    }
  }

  lemma {:induction false} AfterKeepsSettings(w: World, step: Step)
    ensures After(w, step).pipe.policy.cfg == w.pipe.policy.cfg && After(w, step).pipe.cfg == w.pipe.cfg
  {
    hide JudgeEach, Pruned, TR.AfterUpdate, TR.AfterForget, Contributed;
    match step
    case ResetGate(camera) =>
      PruneRest(w.pipe, TR.AfterForget(w.pipe.tracker, camera));
    case Process(f) =>
      var counted := w.pipe.(counters := Count(w.pipe.cfg, w.pipe.counters, f));
      var u := TR.AfterUpdate(w.pipe.tracker, f.camera, Contributed(w.pipe.cfg, f), f.ts);
      PruneRest(counted, u.tracker);
      JudgeEachKeepsSettings(Pruned(counted, u.tracker), f, u.out, |u.out|);
  }

  lemma {:induction false} RunKeepsSettings(w: World, steps: seq<Step>)
    ensures Run(w, steps).pipe.policy.cfg == w.pipe.policy.cfg && Run(w, steps).pipe.cfg == w.pipe.cfg
  {
    hide After;
    if steps != [] {
      RunKeepsSettings(w, steps[..|steps| - 1]);
      AfterKeepsSettings(Run(w, steps[..|steps| - 1]), steps[|steps| - 1]);
    }
  }
}
