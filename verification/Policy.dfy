/** indexing_policy.py: which observations of a track become records. */
module Policy {
  import opened Association
  import opened NestedBoxes

  datatype Option<T> = None | Some(value: T)

  datatype Reason = FirstSight | Displacement | ScaleChange | Heartbeat | QualityGain | SuppressionOff

  /** What was true the last time a track produced a record. */
  datatype Anchor = Anchor(ts: real, cx: real, bottom: real, h: real, confidence: real, area: real)

  datatype Settings = Settings(
    suppression: bool, displacement: real, ratio: real, persist: int, heartbeat: real, gain: real, interval: real)

  datatype Policy = Policy(
    cfg: Settings, anchors: map<string, Anchor>, pending: map<string, nat>, indexed: nat, suppressed: nat,
    byReason: map<Reason, nat>)

  /** The settings as the constructor keeps them. */
  function Bounded(s: Settings): Settings {
    s.(ratio := RealMax(1.000001, s.ratio), persist := if s.persist < 1 then 1 else s.persist,
       interval := RealMax(0.0, s.interval))
  }

  function Start(cfg: Settings): Policy {
    Policy(Bounded(cfg), map[], map[], 0, 0, map[])
  }

  // ---- one observation -----------------------------------------------------------------------

  function HeightOf(d: Detection): real {
    RealMax(1.0, (d.box.y2 - d.box.y1) as real)
  }

  function AreaOf(d: Detection): real {
    RealMax(1.0, (d.box.x2 - d.box.x1) as real * HeightOf(d))
  }

  function AnchorFor(d: Detection, ts: real): Anchor {
    Anchor(ts, (d.box.x1 + d.box.x2) as real / 2.0, d.box.y2 as real, HeightOf(d), d.confidence, AreaOf(d))
  }

  /** Displacement in mean heights, on squares. */
  predicate MovedFar(cfg: Settings, a: Anchor, d: Detection) {
    var g := AnchorFor(d, 0.0);
    var least := cfg.displacement * RealMax(0.000001, (g.h + a.h) / 2.0);
    least <= 0.0 || Square(g.cx - a.cx) + Square(g.bottom - a.bottom) >= least * least
  }

  /** The ratio of the two heights reaches the setting, cross-multiplied. */
  predicate ScaleDiffers(cfg: Settings, a: Anchor, d: Detection) {
    RealMax(HeightOf(d), a.h) >= cfg.ratio * RealMax(0.000001, RealMin(HeightOf(d), a.h))
  }

  /** Consecutive observations for which the scale condition has held, this one included. */
  function HeldFor(p: Policy, id: string, d: Detection): nat
    requires id in p.anchors
  {
    if ScaleDiffers(p.cfg, p.anchors[id], d) then (if id in p.pending then p.pending[id] else 0) + 1 else 0
  }

  predicate TooSoon(cfg: Settings, a: Anchor, ts: real) {
    cfg.interval > 0.0 && ts - a.ts < cfg.interval
  }

  function Verdict(cfg: Settings, a: Anchor, held: nat, d: Detection, ts: real): Option<Reason> {
    if TooSoon(cfg, a, ts) then None
    else if MovedFar(cfg, a, d) then Some(Displacement)
    else if held >= cfg.persist then Some(ScaleChange)
    else if cfg.heartbeat > 0.0 && ts - a.ts >= cfg.heartbeat then Some(Heartbeat)
    else if d.confidence >= a.confidence + cfg.gain && AreaOf(d) >= a.area then Some(QualityGain)
    else None
  }

  function Decision(p: Policy, id: string, d: Detection, ts: real): Option<Reason> {
    if !p.cfg.suppression then Some(SuppressionOff)
    else if id !in p.anchors then Some(FirstSight)
    else Verdict(p.cfg, p.anchors[id], HeldFor(p, id, d), d, ts)
  }

  /** Deciding counts the scale condition, whichever rule then fires. */
  function AfterDecide(p: Policy, id: string, d: Detection): Policy {
    if !p.cfg.suppression || id !in p.anchors then p
    else if ScaleDiffers(p.cfg, p.anchors[id], d) then p.(pending := p.pending[id := HeldFor(p, id, d)])
    else p.(pending := p.pending - {id})
  }

  function AfterRecord(p: Policy, id: string, d: Detection, ts: real, reason: Reason): Policy {
    p.(anchors := p.anchors[id := AnchorFor(d, ts)], pending := p.pending - {id}, indexed := p.indexed + 1,
       byReason := p.byReason[reason := (if reason in p.byReason then p.byReason[reason] else 0) + 1])
  }

  function AfterSuppress(p: Policy): Policy {
    p.(suppressed := p.suppressed + 1)
  }

  /** Decide, then record or suppress: what the pipeline does with every observation. */
  function AfterObserve(p: Policy, id: string, d: Detection, ts: real): Policy {
    var reason := Decision(p, id, d, ts);
    if reason.Some? then AfterRecord(AfterDecide(p, id, d), id, d, ts, reason.value)
    else AfterSuppress(AfterDecide(p, id, d))
  }

  function ForgetEach(p: Policy, ids: seq<string>, n: nat): Policy
    requires n <= |ids|
  {
    if n == 0 then p
    else
      var before := ForgetEach(p, ids, n - 1);
      before.(anchors := before.anchors - {ids[n - 1]}, pending := before.pending - {ids[n - 1]})
  }

  function AfterForget(p: Policy, ids: seq<string>): Policy {
    ForgetEach(p, ids, |ids|)
  }

  // ---- what a history of observations says ------------------------------------------------------

  /** One observation of a track and what was decided. */
  datatype Obs = Obs(id: string, d: Detection, ts: real, reason: Option<Reason>)

  /** The last record of the track, from the history alone. */
  function LastRecord(trace: seq<Obs>, id: string): Option<Obs> {
    if trace == [] then None
    else
      var last := trace[|trace| - 1];
      if last.id == id && last.reason.Some? then Some(last) else LastRecord(trace[..|trace| - 1], id)
  }

  /** The observation differs in scale from the track's last record before it. */
  predicate Qualifies(cfg: Settings, before: seq<Obs>, o: Obs) {
    LastRecord(before, o.id).Some?
    && var r := LastRecord(before, o.id).value; ScaleDiffers(cfg, AnchorFor(r.d, r.ts), o.d)
  }

  /** How many observations of the track, counted back from the end, qualified without
      being recorded. */
  function Trail(cfg: Settings, trace: seq<Obs>, id: string): nat {
    if trace == [] then 0
    else
      var before, last := trace[..|trace| - 1], trace[|trace| - 1];
      if last.id != id then Trail(cfg, before, id)
      else if last.reason.Some? || !Qualifies(cfg, before, last) then 0
      else Trail(cfg, before, id) + 1
  }

  /** The policy remembers of a track exactly its last record and its trail. */
  ghost predicate Remembers(p: Policy, trace: seq<Obs>, id: string) {
    && (id in p.anchors <==> LastRecord(trace, id).Some?)
    && (id in p.anchors ==> var r := LastRecord(trace, id).value; p.anchors[id] == AnchorFor(r.d, r.ts))
    && (if id in p.pending then p.pending[id] else 0) == Trail(p.cfg, trace, id)
  }

  function Observed(p: Policy, trace: seq<Obs>, id: string, d: Detection, ts: real): seq<Obs> {
    trace + [Obs(id, d, ts, Decision(p, id, d, ts))]
  }

  lemma {:induction false} ObserveRemembers(p: Policy, trace: seq<Obs>, id: string, d: Detection, ts: real)
    requires Remembers(p, trace, id) && p.cfg.suppression
    ensures Remembers(AfterObserve(p, id, d, ts), Observed(p, trace, id, d, ts), id)
  {
    hide ScaleDiffers, Verdict, AnchorFor;
    var trace' := Observed(p, trace, id, d, ts);
    assert trace'[..|trace|] == trace;
  }

  lemma {:induction false} ObserveSparesOthers(
    p: Policy, trace: seq<Obs>, id: string, d: Detection, ts: real, other: string)
    requires other != id && Remembers(p, trace, other)
    ensures Remembers(AfterObserve(p, id, d, ts), Observed(p, trace, id, d, ts), other)
  {
    hide ScaleDiffers, Verdict, AnchorFor;
    var trace' := Observed(p, trace, id, d, ts);
    assert trace'[..|trace|] == trace;
  }

  // ---- the discipline of one observation, in terms of the history ------------------------------------

  /** Within the interval of the last record. */
  predicate Soon(cfg: Settings, last: Obs, o: Obs) {
    cfg.interval > 0.0 && o.ts - last.ts < cfg.interval
  }

  predicate Strayed(cfg: Settings, last: Obs, o: Obs) {
    MovedFar(cfg, AnchorFor(last.d, last.ts), o.d)
  }

  /** This observation, and enough of the unrecorded ones just before it, differ in scale. */
  predicate Persisted(cfg: Settings, before: seq<Obs>, o: Obs) {
    Qualifies(cfg, before, o) && Trail(cfg, before, o.id) + 1 >= cfg.persist
  }

  predicate Elapsed(cfg: Settings, last: Obs, o: Obs) {
    cfg.heartbeat > 0.0 && o.ts - last.ts >= cfg.heartbeat
  }

  predicate Better(cfg: Settings, last: Obs, o: Obs) {
    o.d.confidence >= last.d.confidence + cfg.gain && AreaOf(o.d) >= AreaOf(last.d)
  }

  /** Not too soon after the track's last record, and different enough from it. */
  predicate Due(cfg: Settings, before: seq<Obs>, o: Obs) {
    LastRecord(before, o.id).Some?
    && var last := LastRecord(before, o.id).value;
       !Soon(cfg, last, o)
       && (Strayed(cfg, last, o) || Persisted(cfg, before, o) || Elapsed(cfg, last, o) || Better(cfg, last, o))
  }

  /** Each reason says that its own rule held and none of the rules before it did. */
  predicate Justified(cfg: Settings, before: seq<Obs>, o: Obs, reason: Reason) {
    var r := LastRecord(before, o.id);
    if r.None? then reason.FirstSight?
    else
      var last := r.value;
      && !Soon(cfg, last, o)
      && match reason
         case FirstSight => false
         case Displacement => Strayed(cfg, last, o)
         case ScaleChange => !Strayed(cfg, last, o) && Persisted(cfg, before, o)
         case Heartbeat => !Strayed(cfg, last, o) && !Persisted(cfg, before, o) && Elapsed(cfg, last, o)
         case QualityGain =>
           !Strayed(cfg, last, o) && !Persisted(cfg, before, o) && !Elapsed(cfg, last, o) && Better(cfg, last, o)
         case SuppressionOff => false
  }

  /** An observation is recorded exactly when the track has no record yet or it is due,
      and the reason given is the one that is so. */
  ghost predicate Disciplined(cfg: Settings, before: seq<Obs>, o: Obs) {
    && (o.reason.Some? <==> LastRecord(before, o.id).None? || Due(cfg, before, o))
    && (forall reason :: o.reason == Some(reason) <==> Justified(cfg, before, o, reason))
  }

  lemma {:induction false} ObserveIsDisciplined(p: Policy, trace: seq<Obs>, id: string, d: Detection, ts: real)
    requires Remembers(p, trace, id) && p.cfg.suppression && p.cfg.persist >= 1
    ensures Disciplined(p.cfg, trace, Obs(id, d, ts, Decision(p, id, d, ts)))
  {
    hide ScaleDiffers, MovedFar, HeightOf, AreaOf;
  }

  // ---- what discipline amounts to over a history -----------------------------------------------------

  ghost predicate AllDisciplined(cfg: Settings, trace: seq<Obs>) {
    forall k: nat :: k < |trace| ==> Disciplined(cfg, trace[..k], trace[k])
  }

  lemma {:induction false} LastRecordIs(trace: seq<Obs>, id: string) returns (k: nat)
    requires LastRecord(trace, id).Some?
    ensures k < |trace| && trace[k] == LastRecord(trace, id).value && trace[k].id == id && trace[k].reason.Some?
    ensures forall j :: k < j < |trace| && trace[j].id == id ==> trace[j].reason.None?
  {
    if trace[|trace| - 1].id == id && trace[|trace| - 1].reason.Some? {
      k := |trace| - 1;
    } else {
      k := LastRecordIs(trace[..|trace| - 1], id);
    }
  }

  lemma {:induction false} RecordedBefore(trace: seq<Obs>, i: nat)
    requires i < |trace| && trace[i].reason.Some?
    ensures LastRecord(trace, trace[i].id).Some?
  {
    if i < |trace| - 1 {
      RecordedBefore(trace[..|trace| - 1], i);
    }
  }

  /** Any two records of one track are at least the interval apart. */
  lemma {:induction false} RecordsAreApart(cfg: Settings, trace: seq<Obs>, i: nat, j: nat)
    requires AllDisciplined(cfg, trace) && cfg.interval > 0.0 && i < j < |trace|
    requires trace[i].id == trace[j].id && trace[i].reason.Some? && trace[j].reason.Some?
    ensures trace[j].ts - trace[i].ts >= cfg.interval
    decreases j
  {
    assert Disciplined(cfg, trace[..j], trace[j]);
    RecordedBefore(trace[..j], i);
    var k := LastRecordIs(trace[..j], trace[j].id);
    if i < k {
      RecordsAreApart(cfg, trace, i, k);
    }
  }

  ghost predicate Pending(cfg: Settings, trace: seq<Obs>, id: string, k: nat)
    requires k < |trace|
  {
    trace[k].id == id && trace[k].reason.None? && Qualifies(cfg, trace[..k], trace[k])
  }

  /** The positions in `at`, in order, are those of qualifying observations of the track
      that were not recorded, and from the first of them on it has no others before `end`. */
  ghost predicate LastRun(cfg: Settings, trace: seq<Obs>, id: string, at: seq<nat>, end: nat)
    requires end <= |trace|
  {
    && (forall a :: 0 <= a < |at| ==> at[a] < end && Pending(cfg, trace, id, at[a]))
    && (forall a, b :: 0 <= a < b < |at| ==> at[a] < at[b])
    && (|at| > 0 ==> (forall k: nat :: at[0] <= k < end && trace[k].id == id ==> k in at))
  }

  /** The trail is a run of unrecorded, qualifying observations with none of the track between. */
  lemma {:induction false} TrailIsARun(cfg: Settings, trace: seq<Obs>, id: string, end: nat) returns (at: seq<nat>)
    requires end <= |trace|
    ensures |at| == Trail(cfg, trace[..end], id) && LastRun(cfg, trace, id, at, end)
  {
    hide Qualifies;
    at := [];
    if end > 0 {
      assert trace[..end][..end - 1] == trace[..end - 1];
      var last := trace[end - 1];
      if last.id != id {
        at := TrailIsARun(cfg, trace, id, end - 1);
      } else if last.reason.None? && Qualifies(cfg, trace[..end - 1], last) {
        var before := TrailIsARun(cfg, trace, id, end - 1);
        at := before + [end - 1];
        RunOneLonger(cfg, trace, id, before, end - 1);
      }
    }
  }

  lemma {:induction false} RunOneLonger(cfg: Settings, trace: seq<Obs>, id: string, at: seq<nat>, k: nat)
    requires k < |trace| && LastRun(cfg, trace, id, at, k) && Pending(cfg, trace, id, k)
    ensures LastRun(cfg, trace, id, at + [k], k + 1)
  {
    hide Pending;
    var at' := at + [k];
    forall j: nat | at'[0] <= j < k + 1 && trace[j].id == id
      ensures j in at'
    {
      if j == k {
        assert at'[|at|] == k;
      } else {
        assert j in at;
      }
    }
  }

  /** A record for change of scale closes a run of at least `persist` qualifying
      observations of the track, the recorded one among them, with no record in the run. */
  lemma {:induction false} ScaleChangePersisted(cfg: Settings, trace: seq<Obs>, j: nat) returns (at: seq<nat>)
    requires AllDisciplined(cfg, trace) && j < |trace| && trace[j].reason == Some(ScaleChange)
    ensures |at| + 1 >= cfg.persist && LastRun(cfg, trace, trace[j].id, at, j)
    ensures Qualifies(cfg, trace[..j], trace[j])
  {
    assert Disciplined(cfg, trace[..j], trace[j]);
    at := TrailIsARun(cfg, trace, trace[j].id, j);
  }

  lemma {:induction false} NoRecordYet(trace: seq<Obs>, id: string)
    requires forall i :: 0 <= i < |trace| ==> trace[i].id != id
    ensures LastRecord(trace, id).None?
  {
    if trace != [] {
      NoRecordYet(trace[..|trace| - 1], id);
    }
  }

  /** The first observation of a track is recorded, as first sight, and no other is. */
  lemma {:induction false} FirstSightExactly(cfg: Settings, trace: seq<Obs>, j: nat)
    requires AllDisciplined(cfg, trace) && j < |trace|
    ensures trace[j].reason == Some(FirstSight) <==> forall i :: 0 <= i < j ==> trace[i].id != trace[j].id
    decreases j
  {
    var id := trace[j].id;
    assert Disciplined(cfg, trace[..j], trace[j]);
    if forall i :: 0 <= i < j ==> trace[i].id != id {
      NoRecordYet(trace[..j], id);
    } else {
      var i: nat :| i < j && trace[i].id == id && forall k :: 0 <= k < i ==> trace[k].id != id by {
        FirstOf(trace, id, j);
      }
      FirstSightExactly(cfg, trace, i);
      RecordedBefore(trace[..j], i);
    }
  }

  lemma {:induction false} FirstOf(trace: seq<Obs>, id: string, j: nat)
    requires j <= |trace| && exists i :: 0 <= i < j && trace[i].id == id
    ensures exists i: nat :: i < j && trace[i].id == id && forall k :: 0 <= k < i ==> trace[k].id != id
  {
    if exists i :: 0 <= i < j - 1 && trace[i].id == id {
      FirstOf(trace, id, j - 1);
    } else {
      assert trace[j - 1].id == id;
    }
  }

  // ---- forgetting ---------------------------------------------------------------------------------------

  lemma {:induction false} ForgetEachKeeps(p: Policy, ids: seq<string>, n: nat, id: string)
    requires n <= |ids|
    ensures var q := ForgetEach(p, ids, n);
            && q.cfg == p.cfg
            && (id in q.anchors <==> id in p.anchors && id !in ids[..n])
            && (id in q.pending <==> id in p.pending && id !in ids[..n])
            && (id in q.anchors ==> q.anchors[id] == p.anchors[id])
            && (id in q.pending ==> q.pending[id] == p.pending[id])
  {
    if n > 0 {
      ForgetEachKeeps(p, ids, n - 1, id);
      assert ids[..n] == ids[..n - 1] + [ids[n - 1]];
    }
  }

  /** Forgetting drops exactly the named tracks' state. */
  lemma {:induction false} ForgetDropsExactly(p: Policy, ids: seq<string>, id: string)
    ensures var q := AfterForget(p, ids);
            && q.cfg == p.cfg
            && (id in q.anchors <==> id in p.anchors && id !in ids)
            && (id in q.pending <==> id in p.pending && id !in ids)
            && (id in q.anchors ==> q.anchors[id] == p.anchors[id])
            && (id in q.pending ==> q.pending[id] == p.pending[id])
  {
    ForgetEachKeeps(p, ids, |ids|, id);
    assert ids[..|ids|] == ids;
  }

  // ---- the policy itself ----------------------------------------------------------------------------------

  class IndexingPolicy {
    const cfg: Settings
    var anchors: map<string, Anchor>
    var pending: map<string, nat>
    var indexed: nat
    var suppressed: nat
    var byReason: map<Reason, nat>

    function View(): Policy
      reads this
    {
      Policy(cfg, anchors, pending, indexed, suppressed, byReason)
    }

    constructor (settings: Settings)
      ensures View() == Start(settings)
    {
      cfg := Bounded(settings);
      anchors, pending, indexed, suppressed, byReason := map[], map[], 0, 0, map[];
    }

    /** The reason to index this observation, or none to suppress it. The scale count
        moves before any rule can return. */
    method Decide(id: string, d: Detection, ts: real) returns (reason: Option<Reason>)
      modifies `pending
      ensures reason == Decision(old(View()), id, d, ts)
      ensures View() == AfterDecide(old(View()), id, d)
    {
      hide MovedFar, ScaleDiffers, AreaOf;
      if !cfg.suppression {
        return Some(SuppressionOff);
      }
      if id !in anchors {
        return Some(FirstSight);
      }
      var anchor := anchors[id];
      var movedFar := MovedFar(cfg, anchor, d);
      var held := 0;
      if ScaleDiffers(cfg, anchor, d) {
        held := (if id in pending then pending[id] else 0) + 1;
        pending := pending[id := held];
      } else {
        pending := pending - {id};
      }
      if cfg.interval > 0.0 && ts - anchor.ts < cfg.interval {
        return None;
      }
      if movedFar {
        return Some(Displacement);
      }
      if held >= cfg.persist {
        return Some(ScaleChange);
      }
      if cfg.heartbeat > 0.0 && ts - anchor.ts >= cfg.heartbeat {
        return Some(Heartbeat);
      }
      if d.confidence >= anchor.confidence + cfg.gain && AreaOf(d) >= anchor.area {
        return Some(QualityGain);
      }
      return None;
    }

    /** Moves the anchor; a part-completed scale change is measured against nothing now. */
    method Record(id: string, d: Detection, ts: real, reason: Reason)
      modifies this
      ensures View() == AfterRecord(old(View()), id, d, ts, reason)
    {
      anchors := anchors[id := AnchorFor(d, ts)];
      pending := pending - {id};
      indexed := indexed + 1;
      byReason := byReason[reason := (if reason in byReason then byReason[reason] else 0) + 1];
    }

    method Suppress()
      modifies `suppressed
      ensures View() == AfterSuppress(old(View()))
    {
      suppressed := suppressed + 1;
    }

    method Forget(ids: seq<string>)
      modifies `anchors, `pending
      ensures View() == AfterForget(old(View()), ids)
    {
      for n := 0 to |ids|
        invariant View() == ForgetEach(old(View()), ids, n)
      {
        anchors := anchors - {ids[n]};
        pending := pending - {ids[n]};
      }
    }
  }
}
