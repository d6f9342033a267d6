/** pipeline.py: what one frame sends to the sink, what it offers the best-frame buffer and
    what it counts, told from the observations it judged and from the detections it was given. */
module PipelineOutput {
  import opened Association
  import opened NestedBoxes
  import opened Pipeline
  import BF = BestFrames
  import IP = Policy
  import TR = Tracking

  // ---- what the tracker is given ------------------------------------------------------------------

  /** The detections, in order, of the wanted domains and at least so wide and high. */
  function Given(ds: seq<Detection>, wanted: set<string>, w: int, h: int): seq<Detection> {
    if ds == [] then []
    else
      var d := ds[|ds| - 1];
      Given(ds[..|ds| - 1], wanted, w, h)
      + (if d.domain in wanted && d.box.x1 + w <= d.box.x2 && d.box.y1 + h <= d.box.y2 then [d] else [])
  }

  function InDomains(ds: seq<Detection>, wanted: set<string>): nat {
    if ds == [] then 0 else InDomains(ds[..|ds| - 1], wanted) + (if ds[|ds| - 1].domain in wanted then 1 else 0)
  }

  lemma {:induction false} LargeThen(cfg: Settings, ds: seq<Detection>, d: Detection)
    ensures Large(cfg, ds + [d]) == Large(cfg, ds) + (if LargeEnough(cfg, d) then [d] else [])
  {
    assert (ds + [d])[..|ds|] == ds;
  }

  lemma {:induction false} FiltersGive(cfg: Settings, ds: seq<Detection>, wanted: set<string>)
    ensures Large(cfg, OfDomains(ds, wanted)) == Given(ds, wanted, cfg.minWidth, cfg.minHeight)
    ensures |OfDomains(ds, wanted)| == InDomains(ds, wanted)
  {
    if ds != [] {
      var init, d := ds[..|ds| - 1], ds[|ds| - 1];
      FiltersGive(cfg, init, wanted);
      if d.domain in wanted {
        LargeThen(cfg, OfDomains(init, wanted), d);
      } else {
        assert OfDomains(ds, wanted) == OfDomains(init, wanted);
      }
    }
  }

  /** A frame contributes, in order, exactly the detections left after nested ones are
      dropped that are of a wanted domain and large enough in both directions. */
  lemma {:induction false} FrameContributes(cfg: Settings, f: Frame)
    ensures Contributed(cfg, f) == Given(Suppressed(f.found, cfg.threshold), f.wanted, cfg.minWidth, cfg.minHeight)
  {
    FiltersGive(cfg, Collapsed(cfg, f.found), f.wanted);
  }

  // ---- what leaves for the sink -----------------------------------------------------------------------

  /** One report, in order, for each observation with a reason and with pixels. */
  function Reports(judged: seq<IP.Obs>): seq<Emission> {
    if judged == [] then []
    else
      var o := judged[|judged| - 1];
      Reports(judged[..|judged| - 1])
      + (if o.reason.Some? && o.d.nbytes > 0 then [Recorded(o.d, o.id, o.reason.value)] else [])
  }

  /** The tracked detections that are judged: the known, and with the setting the tentative too. */
  function Subjects(tds: seq<TR.Tracked>, tentative: bool): (r: seq<TR.Tracked>)
    ensures |r| <= |tds|
  {
    if tds == [] then []
    else
      var td := tds[|tds| - 1];
      Subjects(tds[..|tds| - 1], tentative) + (if tentative || td.track.phase != Tentative then [td] else [])
  }

  /** The observations are of these tracked detections, in order, at this time. */
  ghost predicate Observes(judged: seq<IP.Obs>, tds: seq<TR.Tracked>, ts: real) {
    |judged| == |tds| && forall i :: 0 <= i < |tds| ==> ObservesOne(judged[i], tds[i], ts)
  }

  predicate ObservesOne(o: IP.Obs, td: TR.Tracked, ts: real) {
    o.id == td.track.id && o.d == td.det && o.ts == ts
  }

  /** Each vehicle with pixels is offered for the plate reader, recorded or not. */
  function Offers(b: BF.Buffer, f: Frame, judged: seq<IP.Obs>): BF.Buffer {
    if judged == [] then b
    else
      var o := judged[|judged| - 1];
      var before := Offers(b, f, judged[..|judged| - 1]);
      if f.plates && o.d.domain != "person" && "plate" in f.wanted && o.d.nbytes > 0
      then BF.AfterOffer(before, o.id, BF.Candidate(o.ts, o.d.score, o.d.confidence, o.d.nbytes))
      else before
  }

  function Unrecorded(judged: seq<IP.Obs>): nat {
    if judged == [] then 0
    else Unrecorded(judged[..|judged| - 1]) + (if judged[|judged| - 1].reason.None? then 1 else 0)
  }

  /** All that judging the first n tracked detections does beyond the policy's own state. */
  ghost predicate Told(p: Pipe, f: Frame, tds: seq<TR.Tracked>, judged: seq<IP.Obs>, r: Worked) {
    var subjects := Subjects(tds, p.cfg.indexTentative);
    && Observes(judged, subjects, f.ts) && r.pipe.trace == p.trace + judged
    && r.emitted == Reports(judged) && r.pipe.best == Offers(p.best, f, judged)
    && r.pipe.counters == p.counters.(
         tentative := p.counters.tentative + |tds| - |subjects|,
         suppressed := p.counters.suppressed + Unrecorded(judged))
    && r.pipe.cfg == p.cfg
  }

  lemma {:induction false} JudgedThen(f: Frame, b: BF.Buffer, judged: seq<IP.Obs>, o: IP.Obs)
    ensures Reports(judged + [o])
         == Reports(judged) + (if o.reason.Some? && o.d.nbytes > 0 then [Recorded(o.d, o.id, o.reason.value)] else [])
    ensures Unrecorded(judged + [o]) == Unrecorded(judged) + (if o.reason.None? then 1 else 0)
    ensures Offers(b, f, judged + [o])
         == if f.plates && o.d.domain != "person" && "plate" in f.wanted && o.d.nbytes > 0
            then BF.AfterOffer(Offers(b, f, judged), o.id, BF.Candidate(o.ts, o.d.score, o.d.confidence, o.d.nbytes))
            else Offers(b, f, judged)
  {
    hide BF.AfterOffer;
    assert (judged + [o])[..|judged|] == judged;
  }

  lemma {:induction false} SubjectsThen(tds: seq<TR.Tracked>, n: nat, tentative: bool)
    requires n < |tds|
    ensures Subjects(tds[..n + 1], tentative)
         == Subjects(tds[..n], tentative) + (if tentative || tds[n].track.phase != Tentative then [tds[n]] else [])
    ensures |Subjects(tds[..n], tentative)| <= |Subjects(tds[..n + 1], tentative)|
  {
    assert tds[..n + 1][..n] == tds[..n];
  }

  lemma {:induction false} JudgeTells(
    p: Pipe, f: Frame, before: Worked, tds: seq<TR.Tracked>, n: nat, judged: seq<IP.Obs>) returns (more: seq<IP.Obs>)
    requires n < |tds| && Told(p, f, tds[..n], judged, before)
    ensures Told(p, f, tds[..n + 1], more,
                 if Eligible(before.pipe.cfg, tds[n].track)
                 then Worked(Judge(before.pipe, f, tds[n].det, tds[n].track.id),
                             before.emitted + EmittedFor(before.pipe, f, tds[n].det, tds[n].track.id))
                 else before.(pipe := before.pipe.(counters :=
                        before.pipe.counters.(tentative := before.pipe.counters.tentative + 1))))
  {
    SubjectsThen(tds, n, p.cfg.indexTentative);
    hide Subjects, Reports, Offers, Unrecorded, IP.Decision, IP.AfterObserve, BF.AfterOffer;
    more := judged;
    if Eligible(before.pipe.cfg, tds[n].track) {
      var d, id := tds[n].det, tds[n].track.id;
      var o := IP.Obs(id, d, f.ts, IP.Decision(before.pipe.policy, id, d, f.ts));
      more := judged + [o];
      JudgedThen(f, p.best, judged, o);
      assert p.trace + more == (p.trace + judged) + [o];
    }
  }

  lemma {:induction false} JudgeEachTells(p: Pipe, f: Frame, tds: seq<TR.Tracked>, n: nat) returns (judged: seq<IP.Obs>)
    requires n <= |tds|
    ensures Told(p, f, tds[..n], judged, JudgeEach(p, f, tds, n))
  {
    if n == 0 {
      judged := [];
      assert p.trace + [] == p.trace;
    } else {
      hide Told, Judge, EmittedFor, Eligible;
      judged := JudgeEachTells(p, f, tds, n - 1);
      judged := JudgeTells(p, f, JudgeEach(p, f, tds, n - 1), tds, n - 1, judged);
    }
  }

  lemma {:induction false} PruneCounts(p: Pipe, t: TR.Tracker)
    ensures var q := Pruned(p, t);
            q.cfg == p.cfg && q.counters == p.counters && q.trace == p.trace
            && q.best == (if t.expired == [] then p.best else BF.AfterForget(p.best, t.expired))
  {
    hide BF.AfterForget, IP.AfterForget;
  }

  /** A frame that contributes anything, with tracking on: the history grows by one observation
      for each tracked detection judged, in the tracker's order; what leaves for the sink is,
      in order, one report for exactly those of them with a reason and with pixels; every
      vehicle with pixels among them is offered for its plate, recorded or not; and the
      counters say how many were nested, seen, too small, tentative and suppressed. */
  lemma {:induction false} FrameReports(p: Pipe, f: Frame) returns (judged: seq<IP.Obs>)
    requires p.cfg.tracking && Contributed(p.cfg, f) != []
    ensures var r := AfterFrame(p, f);
            var u := TR.AfterUpdate(p.tracker, f.camera, Contributed(p.cfg, f), f.ts);
            var subjects := Subjects(u.out, p.cfg.indexTentative);
            var left := Suppressed(f.found, p.cfg.threshold);
            var c := r.pipe.counters;
            && r.pipe.trace == p.trace + judged && Observes(judged, subjects, f.ts)
            && r.emitted == Reports(judged)
            && r.pipe.best
               == Offers(if u.tracker.expired == [] then p.best else BF.AfterForget(p.best, u.tracker.expired),
                         f, judged)
            && c.nested == p.counters.nested + |f.found| - |left|
            && c.seen == p.counters.seen + InDomains(left, f.wanted)
            && c.tooSmall == p.counters.tooSmall + InDomains(left, f.wanted) - |Contributed(p.cfg, f)|
            && c.tentative == p.counters.tentative + |u.out| - |subjects|
            && c.suppressed == p.counters.suppressed + Unrecorded(judged)
  {
    FiltersGive(p.cfg, Collapsed(p.cfg, f.found), f.wanted);
    assert Contributed(p.cfg, f) == Large(p.cfg, OfDomains(Collapsed(p.cfg, f.found), f.wanted));
    var u := TR.AfterUpdate(p.tracker, f.camera, Contributed(p.cfg, f), f.ts);
    var counted := p.(counters := Count(p.cfg, p.counters, f));
    PruneCounts(counted, u.tracker);
    hide Contributed, TR.AfterUpdate, JudgeEach, Pruned, BF.AfterForget, Subjects, Reports, Offers, Unrecorded;
    judged := JudgeEachTells(Pruned(counted, u.tracker), f, u.out, |u.out|);
    assert u.out[..|u.out|] == u.out;
  }

  /** One report, in order, for each detection with pixels. */
  function Plain(ds: seq<Detection>): seq<Emission> {
    if ds == [] then [] else Plain(ds[..|ds| - 1]) + (if ds[|ds| - 1].nbytes > 0 then [Untracked(ds[|ds| - 1])] else [])
  }

  lemma {:induction false} UntrackedArePlain(ds: seq<Detection>)
    ensures AllUntracked(ds) == Plain(ds)
  {
    if ds != [] {
      UntrackedArePlain(ds[..|ds| - 1]);
    }
  }

  /** With tracking off, exactly the contributed detections with pixels leave, in order, and
      nothing is remembered; a frame that contributes nothing sends nothing. */
  lemma {:induction false} PlainFrameReports(p: Pipe, f: Frame)
    requires !p.cfg.tracking || Contributed(p.cfg, f) == []
    ensures AfterFrame(p, f).emitted == Plain(Contributed(p.cfg, f))
    ensures AfterFrame(p, f).pipe == p.(counters := AfterFrame(p, f).pipe.counters)
  {
    hide Contributed, Count;
    UntrackedArePlain(Contributed(p.cfg, f));
  }
}
