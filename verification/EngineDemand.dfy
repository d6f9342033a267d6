/** engine.py: when a warm-up is started, what it brings, and when each reader is let go, told
    from the cameras, the settings and the clocks alone. */
module EngineDemand {
  import opened Engine
  import opened EngineRuns

  // ---- who asks for what -------------------------------------------------------------------------

  ghost predicate PlateCamera(cameras: map<string, Camera>) {
    exists c :: c in cameras && Plate in cameras[c].domains
  }

  ghost predicate FaceCamera(cameras: map<string, Camera>) {
    exists c :: c in cameras && Face in cameras[c].domains
  }

  ghost predicate WorkingCamera(cameras: map<string, Camera>) {
    exists c :: c in cameras && cameras[c].work
  }

  lemma {:induction false} AskedFor(s: State)
    ensures PlatesWanted(s) <==> PlateCamera(s.cameras)
    ensures FacesWanted(s) <==> FaceCamera(s.cameras)
    ensures ActivityWanted(s) <==> s.cfg.activities && WorkingCamera(s.cameras)
  {
  }

  /** Something wanted is not there: the detector or its pipeline, the activity pipeline, or a
      reader that is configured, asked for, and not marked as one that could not be had. */
  ghost predicate Missing(
    cfg: Config, cameras: map<string, Camera>, m: Models, platesFailed: bool, facesFailed: bool) {
    || m.pipeline.None? || m.detector.None?
    || (cfg.activities && WorkingCamera(cameras) && m.activity.None?)
    || (cfg.plates && PlateCamera(cameras) && m.plates.None? && !platesFailed)
    || (cfg.faces && FaceCamera(cameras) && m.faces.None? && !facesFailed)
  }

  /** A warm-up may start at all: the stop event is not set, detection is on, none is running,
      and a failed one's waiting time is over. */
  ghost predicate MayStart(s: State, at: real) {
    && s.stopping == Up && s.cfg.detect && !(s.loading.loader.Some? && s.loading.loader.value in s.loading.threads)
    && (s.phase == Failed ==> at >= s.retryAt)
  }

  /** One warm-up was started, and is the loader. */
  ghost predicate Starts(s: State, t: State) {
    && t.phase == WarmingUp && t.loading.loader == Some(s.loading.spawned)
    && t.loading.spawned == s.loading.spawned + 1
    && t.loading.threads == s.loading.threads[s.loading.spawned := Spawned]
  }

  ghost predicate StartsNone(s: State, t: State) {
    t.phase == s.phase && t.loading == s.loading
  }

  lemma {:induction false} EnsureStarts(s: State, at: real)
    requires s.cameras != map[]
    ensures if MayStart(s, at) && Missing(s.cfg, s.cameras, s.models, s.demand.platesFailed, s.demand.facesFailed)
            then Starts(s, EnsureModels(s, at)) else StartsNone(s, EnsureModels(s, at))
  {
    AskedFor(s);
    hide Asks, AnyWork, PlateCamera, FaceCamera, WorkingCamera;
  }

  lemma {:induction false} NotesFor(s: State, at: real)
    ensures var t := NoteAll(s, at);
            && t.cfg == s.cfg && t.cameras == s.cameras && t.loading == s.loading && t.phase == s.phase
            && t.stopping == s.stopping && t.retryAt == s.retryAt
            && t.models.plates == s.models.plates && t.models.activity == s.models.activity
            && t.models.detector == s.models.detector && t.models.pipeline.Some? == s.models.pipeline.Some?
            && t.models.faces == (if FaceCamera(s.cameras) then s.models.faces else None)
            && (PlateCamera(s.cameras) ==> t.demand.platesFailed == (s.demand.platesFailed && s.demand.plates))
            && (FaceCamera(s.cameras) ==> t.demand.facesFailed == (s.demand.facesFailed && s.demand.faces))
  {
    AskedFor(s);
    hide Asks, AnyWork, PlateCamera, FaceCamera, WorkingCamera;
  }

  /** Adding a camera registers it as asked, other cameras as they were, and starts a warm-up
      exactly when one may start and something wanted is missing. A reader that could not be
      had counts as missing again when nobody asked for it before. */
  lemma {:induction false} AddStartsExactly(s: State, slug: string, domains: set<Domain>, work: Option<bool>, at: real)
    ensures var t := Next(s, Add(slug, domains, work), at);
            && t.cameras
               == s.cameras[slug := Camera(domains, match work case Some(w) => w
                                                    case None => slug in s.cameras && s.cameras[slug].work)]
            && if MayStart(s, at)
                  && Missing(s.cfg, t.cameras, s.models, s.demand.platesFailed && s.demand.plates,
                             s.demand.facesFailed && s.demand.faces)
               then Starts(s, t) else StartsNone(s, t)
  {
    var r := Registered(s, slug, domains, work);
    NotesFor(r, at);
    hide NoteAll, EnsureModels, PlateCamera, FaceCamera, WorkingCamera;
    assert slug in r.cameras;
    EnsureStarts(NoteAll(r, at), at);
    EnsureKeepsRest(NoteAll(r, at), at);
  }

  lemma {:induction false} ReadersKeepLoading(s: State, now: real, at: real)
    ensures var t := DropActivity(NoteActivity(DropPlates(NoteFaces(NotePlates(s, at)), now), at), now);
            t.loading == s.loading && t.phase == s.phase && t.cameras == s.cameras
  {
    hide Asks, AnyWork, Expired;
  }

  /** A reaper pass with cameras registered starts a warm-up exactly when one may start and
      something wanted is missing; without cameras it starts none. */
  lemma {:induction false} TickStartsExactly(s: State, now: real, at: real)
    requires Able(s, Tick(now))
    ensures var t := Next(s, Tick(now), at);
            && t.cameras == s.cameras
            && if s.cameras != map[] && MayStart(s, at)
                  && Missing(s.cfg, s.cameras, s.models, s.demand.platesFailed, s.demand.facesFailed)
               then Starts(s, t) else t.loading == s.loading && (s.cameras != map[] ==> t.phase == s.phase)
  {
    if s.cameras != map[] {
      var q := s.(clocks := s.clocks.(idle := None));
      EnsureStarts(q, at);
      EnsureKeepsRest(q, at);
      ReadersKeepLoading(EnsureModels(q, at), now, at);
      hide EnsureModels, NotePlates, NoteFaces, NoteActivity, DropPlates, DropActivity, Missing;
    }
  }

  /** No other step starts one. */
  lemma {:induction false} OthersStartNone(s: State, step: Step, at: real)
    requires Able(s, step) && !step.Add? && !step.Tick?
    ensures Next(s, step, at).loading.spawned == s.loading.spawned
    ensures Next(s, step, at).loading.threads.Keys <= s.loading.threads.Keys
  {
    hide Asks, AnyWork, JobOf, InstallFaces, InstallPlates, InstallPipeline, InstallActivity, NoteFaces;
    if step.Remove? {
      RemoveKeepsDetector(s, step.slug, at);
    } else if step.Commit? {
      CommitKeepsLoading(s, step.id, s.loading.threads[step.id].job, step.built, at);
    }
  }

  /** After a warm-up has failed none starts for the retry time, nor for a second. */
  lemma {:induction false} FailureWaits(s: State, id: nat, failed: real, step: Step, at: real)
    requires Able(s, Fail(id)) && (step.Add? || step.Tick?)
    requires var t := Next(s, Fail(id), failed); Able(t, step)
    requires at < failed + s.cfg.retry || at < failed + 1.0
    ensures var t := Next(s, Fail(id), failed);
            t.phase == Failed && Next(t, step, at).loading.threads == t.loading.threads && id !in t.loading.threads
  {
    var t := Next(s, Fail(id), failed);
    assert !MayStart(t, at);
    hide MayStart, Missing;
    match step
    case Add(slug, domains, work) => AddStartsExactly(t, slug, domains, work, at);
    case Tick(now) => TickStartsExactly(t, now, at);
  }

  // ---- what a warm-up brings ----------------------------------------------------------------------------

  lemma {:induction false} BeginAsks(s: State, id: nat, at: real)
    requires Able(s, Begin(id))
    ensures var t := Next(s, Begin(id), at);
            && t == s.(loading := t.loading) && id in t.loading.threads && t.loading.threads[id].Building?
            && var job := t.loading.threads[id].job;
               && job.needDetector == (s.models.detector.None? || s.models.pipeline.None?)
               && job.detector == s.models.detector
               && job.wantPlates == (s.cfg.plates && PlateCamera(s.cameras) && s.models.plates.None?)
               && job.wantFaces == (s.cfg.faces && FaceCamera(s.cameras) && s.models.faces.None?)
               && job.needActivity == (s.cfg.activities && WorkingCamera(s.cameras) && s.models.activity.None?)
  {
    AskedFor(s);
    hide Asks, AnyWork, PlateCamera, FaceCamera, WorkingCamera;
  }

  /** The readers and detectors after a warm-up that saw the same cameras when it began and
      when it ended: everything wanted is there, new only where it was missing; a reader that
      could not be had is marked so; and the pipeline runs on the engine's detector. */
  ghost predicate Brought(s: State, b: Built, t: State) {
    var plates := s.cfg.plates && PlateCamera(s.cameras) && s.models.plates.None?;
    var faces := s.cfg.faces && FaceCamera(s.cameras) && s.models.faces.None?;
    var activity := s.cfg.activities && WorkingCamera(s.cameras) && s.models.activity.None?;
    && t.cameras == s.cameras && t.phase == Running
    && t.models.detector
       == (if s.models.detector.None? || s.models.pipeline.None? then Some(b.detector) else s.models.detector)
    && t.models.pipeline.Some? && t.models.detector == Some(t.models.pipeline.value.detector)
    && t.models.plates == (if plates then b.plates else s.models.plates)
    && t.models.faces == (if faces then b.faces else s.models.faces)
    && t.models.activity == (if activity then Some(b.activity) else s.models.activity)
    && t.demand.platesFailed == (s.demand.platesFailed || (plates && b.plates.None?))
    && t.demand.facesFailed == (s.demand.facesFailed || (faces && b.faces.None?))
    && t.models.pipeline.value.plates == t.models.plates && t.models.pipeline.value.faces == t.models.faces
  }

  lemma {:induction false} InstallFacesBrings(s: State, job: Job, b: Built)
    requires FaceDemand(s) && job == JobOf(s)
    ensures var f := InstallFaces(s, job, b);
            && f == s.(models := s.models.(faces := f.models.faces),
                       demand := s.demand.(facesFailed := f.demand.facesFailed))
            && f.models.faces == (if job.wantFaces then b.faces else s.models.faces)
            && f.demand.facesFailed == (s.demand.facesFailed || (job.wantFaces && b.faces.None?))
  {
    hide Asks, AnyWork;
  }

  lemma {:induction false} InstallPlatesBrings(s: State, f: State, job: Job, b: Built, at: real)
    requires PlateClock(s) && job == JobOf(s) && f == s.(models := f.models, demand := f.demand)
    requires f.models.plates == s.models.plates && f.demand.plates == s.demand.plates
    requires f.demand.platesFailed == s.demand.platesFailed
    ensures var p := InstallPlates(f, job, b, at);
            && p == f.(models := f.models.(plates := p.models.plates), clocks := p.clocks,
                       demand := f.demand.(platesFailed := p.demand.platesFailed))
            && p.models.plates == (if job.wantPlates then b.plates else s.models.plates)
            && p.demand.platesFailed == (s.demand.platesFailed || (job.wantPlates && b.plates.None?))
  {
    hide Asks, AnyWork;
  }

  lemma {:induction false} InstallPipelineBrings(s: State, m: Models, job: Job, b: Built)
    requires SameDetector(s.models) && FacesAgree(s.models) && PlatesAgree(s.models) && job == JobOf(s)
    requires m.pipeline == s.models.pipeline && m.detector == s.models.detector
    requires m.plates == (if job.wantPlates then b.plates else s.models.plates)
    requires m.faces == (if job.wantFaces then b.faces else s.models.faces)
    ensures var n := InstallPipeline(m, job, b);
            && n == m.(pipeline := n.pipeline, detector := n.detector) && n.pipeline.Some?
            && n.detector
               == (if s.models.detector.None? || s.models.pipeline.None? then Some(b.detector) else s.models.detector)
            && n.pipeline == Some(Pipeline(n.detector.value, n.plates, n.faces))
  {
    hide Asks, AnyWork;
  }

  lemma {:induction false} JobAsks(s: State)
    ensures var job := JobOf(s);
            && job.wantPlates == (s.cfg.plates && PlateCamera(s.cameras) && s.models.plates.None?)
            && job.wantFaces == (s.cfg.faces && FaceCamera(s.cameras) && s.models.faces.None?)
            && job.needActivity == (s.cfg.activities && WorkingCamera(s.cameras) && s.models.activity.None?)
  {
    AskedFor(s);
    hide Asks, AnyWork, PlateCamera, FaceCamera, WorkingCamera;
  }

  /** The three installations before the activity pipeline. */
  lemma {:induction false} ReadersBring(s: State, job: Job, b: Built, at: real)
    requires InStep(s) && SameDetector(s.models) && FacesAgree(s.models) && job == JobOf(s)
    ensures var w := WithDetector(s, job, b, at);
            && w.cameras == s.cameras && w.cfg == s.cfg && w.models.activity == s.models.activity
            && w.models.plates == (if job.wantPlates then b.plates else s.models.plates)
            && w.models.faces == (if job.wantFaces then b.faces else s.models.faces)
            && w.demand.platesFailed == (s.demand.platesFailed || (job.wantPlates && b.plates.None?))
            && w.demand.facesFailed == (s.demand.facesFailed || (job.wantFaces && b.faces.None?))
            && w.models.detector
               == (if s.models.detector.None? || s.models.pipeline.None? then Some(b.detector) else s.models.detector)
            && w.models.pipeline.Some?
            && w.models.pipeline == Some(Pipeline(w.models.detector.value, w.models.plates, w.models.faces))
  {
    InstallFacesBrings(s, job, b);
    var f := InstallFaces(s, job, b);
    InstallPlatesBrings(s, f, job, b, at);
    var p := InstallPlates(f, job, b, at);
    InstallPipelineBrings(s, p.models, job, b);
    hide InstallFaces, InstallPlates, InstallPipeline, InStep, JobOf, SameDetector, FacesAgree;
  }

  lemma {:induction false} InstallBrings(s: State, job: Job, b: Built, at: real)
    requires s.stopping.Up? && InStep(s) && SameDetector(s.models) && FacesAgree(s.models) && job == JobOf(s)
    ensures Brought(s, b, Installed(s, job, b, at))
  {
    JobAsks(s);
    ReadersBring(s, job, b, at);
    var w := WithDetector(s, job, b, at);
    InstallActivityBrings(w, job, b, at);
    var u := InstallActivity(w, job, b, at);
    assert Installed(s, job, b, at) == u.(phase := Running);
    hide WithDetector, Installed, InstallActivity, InStep, JobOf, PlateCamera, FaceCamera, WorkingCamera;
  }

  lemma {:induction false} InstallActivityBrings(s: State, job: Job, b: Built, at: real)
    ensures var t := InstallActivity(s, job, b, at);
            && t == s.(models := s.models.(activity := t.models.activity), clocks := t.clocks)
            && t.models.activity
               == (if job.needActivity && s.models.activity.None? then Some(b.activity) else s.models.activity)
  {
    hide Asks, AnyWork;
  }

  lemma {:induction false} BroughtIsAll(s: State, b: Built, t: State)
    requires Brought(s, b, t)
    ensures !Missing(s.cfg, t.cameras, t.models, t.demand.platesFailed, t.demand.facesFailed)
  {
    hide PlateCamera, FaceCamera, WorkingCamera;
  }

  lemma {:induction false} SameBrings(s: State, mid: State, b: Built, t: State)
    requires mid == s.(loading := mid.loading) && Brought(mid, b, t)
    ensures Brought(s, b, t)
  {
    hide PlateCamera, FaceCamera, WorkingCamera;
  }

  lemma {:induction false} OnlyLoading(s: State, mid: State)
    requires mid == s.(loading := mid.loading)
    ensures JobOf(mid) == JobOf(s) && (InStep(s) ==> InStep(mid))
  {
    hide Asks, AnyWork;
  }

  lemma {:induction false} LoadingAside(s: State, b: Built, t: State, u: State)
    requires Brought(s, b, t) && u == t.(loading := u.loading)
    ensures Brought(s, b, u)
  {
    hide PlateCamera, FaceCamera, WorkingCamera;
  }

  /** A warm-up begun and committed with nothing between brings exactly what was missing, and
      by then nothing wanted is missing: the next one waits for a change. */
  lemma {:induction false} WarmUpBrings(s: State, id: nat, b: Built, begun: real, done: real)
    requires s.stopping == Up && InStep(s) && SameDetector(s.models) && FacesAgree(s.models) && Able(s, Begin(id))
    ensures var mid := Next(s, Begin(id), begun);
            && Able(mid, Commit(id, b))
            && var t := Next(mid, Commit(id, b), done);
               && Brought(s, b, t) && t.loading.loader == None && id !in t.loading.threads
               && !Missing(s.cfg, t.cameras, t.models, t.demand.platesFailed, t.demand.facesFailed)
  {
    BeginAsks(s, id, begun);
    var mid := Next(s, Begin(id), begun);
    var job := mid.loading.threads[id].job;
    assert job == JobOf(s);
    OnlyLoading(s, mid);
    hide JobOf, InStep, Installed, Brought, Missing, PlateCamera, FaceCamera, WorkingCamera;
    InstallBrings(mid, job, b, done);
    var u := Installed(mid, job, b, done);
    SameBrings(s, mid, b, u);
    var t := Next(mid, Commit(id, b), done);
    LoadingAside(s, b, u, t);
    BroughtIsAll(s, b, t);
  }

  // ---- when a reader is let go --------------------------------------------------------------------------------

  /** Looking again at who asks, in step as it was, changes no clock and no model. */
  lemma {:induction false} BusyNotes(s: State, at: real)
    requires InStep(s) && s.cameras != map[]
    ensures var q := EnsureModels(s.(clocks := s.clocks.(idle := None)), at);
            var n := NoteFaces(NotePlates(q, at));
            && n.cameras == s.cameras && n.cfg == s.cfg && n.models == s.models
            && n.clocks.plates == s.clocks.plates && n.clocks.activity == s.clocks.activity
  {
    EnsureKeepsRest(s.(clocks := s.clocks.(idle := None)), at);
    hide Asks, AnyWork, EnsureModels;
  }

  /** The two releases of a pass. */
  lemma {:induction false} BusyDrops(n: State, now: real, at: real)
    requires n.clocks.activity.Some? <==> n.models.activity.Some? && !ActivityWanted(n)
    requires n.clocks.plates.Some? <==> n.models.plates.Some? && !PlatesWanted(n)
    ensures var t := DropActivity(NoteActivity(DropPlates(n, now), at), now);
            && t.cameras == n.cameras && t.cfg == n.cfg && t.models.faces == n.models.faces
            && t.models.detector == n.models.detector && t.models.pipeline.Some? == n.models.pipeline.Some?
            && (t.models.plates, t.clocks.plates)
               == (if n.clocks.plates.Some? && now - n.clocks.plates.value >= n.cfg.timeout then (None, None)
                   else (n.models.plates, n.clocks.plates))
            && (t.models.activity, t.clocks.activity)
               == (if n.clocks.activity.Some? && now - n.clocks.activity.value >= n.cfg.timeout then (None, None)
                   else (n.models.activity, n.clocks.activity))
  {
    hide Asks, AnyWork;
  }

  lemma {:induction false} BusyReleases(s: State, now: real, at: real)
    requires InStep(s) && s.cameras != map[]
    ensures var t := AfterBusyTick(s, now, at);
            && t.models.plates
               == (if !PlateCamera(s.cameras) && s.clocks.plates.Some? && now - s.clocks.plates.value >= s.cfg.timeout
                   then None else s.models.plates)
            && t.models.activity
               == (if !(s.cfg.activities && WorkingCamera(s.cameras)) && s.clocks.activity.Some?
                      && now - s.clocks.activity.value >= s.cfg.timeout
                   then None else s.models.activity)
            && t.models.faces == (if FaceCamera(s.cameras) then s.models.faces else None)
            && t.models.detector == s.models.detector && t.models.pipeline.Some? == s.models.pipeline.Some?
  {
    AskedFor(s);
    BusyNotes(s, at);
    hide Asks, AnyWork, PlateCamera, FaceCamera, WorkingCamera;
    hide EnsureModels, NoteFaces, NotePlates, NoteActivity, DropPlates, DropActivity;
    BusyDrops(NoteFaces(NotePlates(EnsureModels(s.(clocks := s.clocks.(idle := None)), at), at)), now, at);
  }

  /** A reaper pass with cameras registered lets the plate reader go exactly when no camera asks
      for plates and its clock has run for the timeout, the activity pipeline likewise, and the
      face reader as soon as no camera asks for faces; all else stays loaded. */
  lemma {:induction false} TickReleasesExactly(cfg: Config, start: real, events: seq<Event>, now: real, at: real)
    requires var s := Run(cfg, start, events).s; Able(s, Tick(now)) && s.cameras != map[]
    ensures var s := Run(cfg, start, events).s;
            var t := Next(s, Tick(now), at);
            && t.models.plates
               == (if !PlateCamera(s.cameras) && s.clocks.plates.Some? && now - s.clocks.plates.value >= cfg.timeout
                   then None else s.models.plates)
            && t.models.activity
               == (if !(cfg.activities && WorkingCamera(s.cameras)) && s.clocks.activity.Some?
                      && now - s.clocks.activity.value >= cfg.timeout
                   then None else s.models.activity)
            && t.models.faces == (if FaceCamera(s.cameras) then s.models.faces else None)
            && t.models.detector == s.models.detector && t.models.pipeline.Some? == s.models.pipeline.Some?
  {
    RunIsSound(cfg, start, events);
    RunKeepsConfig(cfg, start, events);
    hide Run, PlateCamera, WorkingCamera, FaceCamera, AfterBusyTick, InStep, OneWarmup, Consistent;
    BusyReleases(Run(cfg, start, events).s, now, at);
  }

  /** A reaper pass without cameras lets everything go but the face reader once the idle clock
      has run for the timeout, and nothing before. */
  lemma {:induction false} QuietTickReleases(s: State, now: real, at: real)
    requires Able(s, Tick(now)) && s.cameras == map[]
    ensures var t := Next(s, Tick(now), at);
            if s.clocks.idle.Some? && now - s.clocks.idle.value >= s.cfg.timeout
            then && t.models.pipeline == None && t.models.activity == None && t.models.faces == s.models.faces
                 && (s.models.pipeline.Some? ==> !t.demand.platesFailed)
                 && (s.models.pipeline.Some? ==> t.models.plates == None && t.models.detector == None)
                 && (s.models.pipeline.Some? ==> t.phase == (if s.phase == Disabled then Disabled else Idle))
            else && t.models == s.models && t.phase == s.phase && t.demand == s.demand
                 && t.clocks.idle == (if s.clocks.idle.Some? then s.clocks.idle else Some(now))
  {
  }

  /** Removing a camera leaves the others registered as they were, lets the face reader go when
      no other asks for faces, and lets nothing else go. */
  lemma {:induction false} RemoveUnregisters(s: State, slug: string, at: real)
    ensures var t := Next(s, Remove(slug), at);
            && t.cameras == s.cameras - {slug}
            && t.models.detector == s.models.detector && t.models.pipeline.Some? == s.models.pipeline.Some?
            && t.models.plates == s.models.plates && t.models.activity == s.models.activity
            && (slug in s.cameras ==>
                  t.models.faces == (if FaceCamera(s.cameras - {slug}) then s.models.faces else None))
  {
    var r := s.(cameras := s.cameras - {slug});
    NotesFor(r, at);
    hide NoteAll, FaceCamera, PlateCamera;
    if slug !in s.cameras {
      assert s.cameras - {slug} == s.cameras;
    }
  }

  /** Whatever state the clocks were left in, a reaper pass with cameras registered puts the
      recorded demand and the clocks right: none runs while its reader is wanted, and each does
      while it is loaded and nobody asks. */
  lemma {:induction false} TickRepairs(s: State, now: real, at: real)
    requires Able(s, Tick(now)) && s.cameras != map[]
    ensures var t := Next(s, Tick(now), at);
            && t.clocks.idle == None
            && t.demand.plates == PlateCamera(s.cameras) && t.demand.faces == FaceCamera(s.cameras)
            && (PlateCamera(s.cameras) ==> t.clocks.plates == None)
            && (PlatesIdle(t) ==> t.clocks.plates.Some?)
            && (s.cfg.activities && WorkingCamera(s.cameras) ==> t.clocks.activity == None)
            && (ActivityIdle(t) ==> t.clocks.activity.Some?)
  {
    AskedFor(s);
    var q := s.(clocks := s.clocks.(idle := None));
    EnsureKeepsRest(q, at);
    IdleAre(AfterBusyTick(s, now, at));
    hide EnsureModels, Asks, AnyWork, PlateCamera, FaceCamera, WorkingCamera, PlatesIdle, ActivityIdle;
    NotesRepair(EnsureModels(q, at), now, at);
  }

  lemma {:induction false} NotesRepair(s: State, now: real, at: real)
    ensures var t := DropActivity(NoteActivity(DropPlates(NoteFaces(NotePlates(s, at)), now), at), now);
            && t.cameras == s.cameras && t.cfg == s.cfg && t.clocks.idle == s.clocks.idle
            && t.demand.plates == PlatesWanted(s) && t.demand.faces == FacesWanted(s)
            && (PlatesWanted(s) ==> t.clocks.plates == None)
            && (t.models.plates.Some? && !PlatesWanted(s) ==> t.clocks.plates.Some?)
            && (ActivityWanted(s) ==> t.clocks.activity == None)
            && (t.models.activity.Some? && !ActivityWanted(s) ==> t.clocks.activity.Some?)
  {
    hide Asks, AnyWork;
  }

  // ---- since when ----------------------------------------------------------------------------------------------

  /** A plate reader is loaded and no camera asks for plates. */
  ghost predicate PlatesIdle(s: State) {
    s.models.plates.Some? && !PlateCamera(s.cameras)
  }

  ghost predicate ActivityIdle(s: State) {
    s.models.activity.Some? && !(s.cfg.activities && WorkingCamera(s.cameras))
  }

  /** The time of the step since which it has been so, after every step; none if it is not. */
  ghost function PlatesIdleSince(cfg: Config, start: real, events: seq<Event>): Option<real> {
    if !PlatesIdle(Run(cfg, start, events).s) || events == [] then None
    else
      var init := events[..|events| - 1];
      if PlatesIdle(Run(cfg, start, init).s) then PlatesIdleSince(cfg, start, init)
      else Some(events[|events| - 1].at)
  }

  ghost function ActivityIdleSince(cfg: Config, start: real, events: seq<Event>): Option<real> {
    if !ActivityIdle(Run(cfg, start, events).s) || events == [] then None
    else
      var init := events[..|events| - 1];
      if ActivityIdle(Run(cfg, start, init).s) then ActivityIdleSince(cfg, start, init)
      else Some(events[|events| - 1].at)
  }

  /** While it stays so the clock stands; when it becomes so the clock starts. */
  ghost predicate ClocksMove(s: State, t: State, at: real) {
    && (PlatesIdle(t) ==> t.clocks.plates == if PlatesIdle(s) then s.clocks.plates else Some(at))
    && (ActivityIdle(t) ==> t.clocks.activity == if ActivityIdle(s) then s.clocks.activity else Some(at))
  }

  lemma {:induction false} IdleAre(s: State)
    ensures PlatesIdle(s) <==> s.models.plates.Some? && !PlatesWanted(s)
    ensures ActivityIdle(s) <==> s.models.activity.Some? && !ActivityWanted(s)
  {
    AskedFor(s);
  }

  lemma {:induction false} NoteAllMoves(s: State, r: State, at: real)
    requires InStep(s) && r.models == s.models && r.cfg == s.cfg
    requires r.clocks.plates == s.clocks.plates && r.clocks.activity == s.clocks.activity
    ensures ClocksMove(s, NoteAll(r, at), at)
  {
    IdleAre(s);
    IdleAre(NoteAll(r, at));
    hide Asks, AnyWork, PlatesIdle, ActivityIdle;
  }

  lemma {:induction false} InstallFacesAside(s: State, job: Job, b: Built)
    ensures var f := InstallFaces(s, job, b);
            && f.cameras == s.cameras && f.cfg == s.cfg && f.clocks == s.clocks
            && f.models.plates == s.models.plates && f.models.activity == s.models.activity
  {
    hide Asks, AnyWork;
  }

  lemma {:induction false} InstallPlatesMoves(s: State, job: Job, b: Built, at: real)
    requires s.clocks.plates.Some? <==> s.models.plates.Some? && !PlatesWanted(s)
    ensures var p := InstallPlates(s, job, b, at);
            && p.cameras == s.cameras && p.cfg == s.cfg && p.clocks.activity == s.clocks.activity
            && p.models.activity == s.models.activity
            && (p.models.plates.Some? && !PlatesWanted(s) ==>
                  p.clocks.plates == if s.models.plates.Some? then s.clocks.plates else Some(at))
  {
    hide Asks, AnyWork;
  }

  lemma {:induction false} InstallActivityMoves(s: State, job: Job, b: Built, at: real)
    requires s.clocks.activity.Some? <==> s.models.activity.Some? && !ActivityWanted(s)
    ensures var v := InstallActivity(s, job, b, at);
            && v.cameras == s.cameras && v.cfg == s.cfg && v.clocks.plates == s.clocks.plates
            && v.models.plates == s.models.plates
            && (v.models.activity.Some? && !ActivityWanted(s) ==>
                  v.clocks.activity == if s.models.activity.Some? then s.clocks.activity else Some(at))
  {
    hide AnyWork;
  }

  lemma {:induction false} PipelineAside(m: Models, job: Job, b: Built)
    ensures InstallPipeline(m, job, b).plates == m.plates && InstallPipeline(m, job, b).activity == m.activity
  {
  }

  lemma {:induction false} CommitMoves(s: State, id: nat, job: Job, b: Built, at: real)
    requires InStep(s)
    ensures ClocksMove(s, AfterCommit(s, id, job, b, at), at)
  {
    IdleAre(s);
    IdleAre(AfterCommit(s, id, job, b, at));
    hide Asks, AnyWork, PlatesIdle, ActivityIdle;
    InstallFacesAside(s, job, b);
    var f := InstallFaces(s, job, b);
    InstallPlatesMoves(f, job, b, at);
    var p := InstallPlates(f, job, b, at);
    PipelineAside(p.models, job, b);
    var d := p.(models := InstallPipeline(p.models, job, b));
    InstallActivityMoves(d, job, b, at);
    hide InstallFaces, InstallPlates, InstallPipeline, InstallActivity;
  }

  lemma {:induction false} BusyTickMoves(s: State, now: real, at: real)
    requires InStep(s) && s.cameras != map[]
    ensures ClocksMove(s, AfterBusyTick(s, now, at), at)
  {
    IdleAre(s);
    IdleAre(AfterBusyTick(s, now, at));
    BusyNotes(s, at);
    hide Asks, AnyWork, PlatesIdle, ActivityIdle;
    hide EnsureModels, NoteFaces, NotePlates, NoteActivity, DropPlates, DropActivity;
    BusyDrops(NoteFaces(NotePlates(EnsureModels(s.(clocks := s.clocks.(idle := None)), at), at)), now, at);
  }

  lemma {:induction false} NextMoves(s: State, step: Step, at: real)
    requires InStep(s) && Able(s, step)
    ensures ClocksMove(s, Next(s, step, at), at)
  {
    hide ClocksMove, NoteAll, EnsureModels, AfterBusyTick, AfterCommit, InStep;
    match step
    case Add(slug, domains, work) =>
      var r := Registered(s, slug, domains, work);
      NoteAllMoves(s, r, at);
      EnsureKeepsRest(NoteAll(r, at), at);
      SameMoves(s, NoteAll(r, at), AfterAdd(s, slug, domains, work, at), at);
    case Remove(slug) =>
      if slug in s.cameras {
        var r := s.(cameras := s.cameras - {slug});
        NoteAllMoves(s, r, at);
        SameMoves(s, NoteAll(r, at), AfterRemove(s, slug, at), at);
      } else {
        StillMoves(s, s, at);
      }
    case Commit(id, b) => CommitMoves(s, id, s.loading.threads[id].job, b, at);
    case Tick(now) =>
      if s.cameras != map[] {
        BusyTickMoves(s, now, at);
      } else {
        StillMoves(s, AfterQuietTick(s, now), at);
      }
    case _ => StillMoves(s, Next(s, step, at), at);
  }

  lemma {:induction false} SameMoves(s: State, t: State, u: State, at: real)
    requires ClocksMove(s, t, at) && u.cameras == t.cameras && u.models == t.models && u.cfg == t.cfg
    requires u.clocks.plates == t.clocks.plates && u.clocks.activity == t.clocks.activity
    ensures ClocksMove(s, u, at)
  {
  }

  lemma {:induction false} StillMoves(s: State, t: State, at: real)
    requires t.cameras == s.cameras && t.cfg == s.cfg
    requires t.models.plates.Some? ==> t.models.plates == s.models.plates && t.clocks.plates == s.clocks.plates
    requires t.models.activity.Some? ==>
               t.models.activity == s.models.activity && t.clocks.activity == s.clocks.activity
    ensures ClocksMove(s, t, at)
  {
    hide PlateCamera, WorkingCamera;
  }

  lemma {:induction false} ClockRuns(s: State)
    requires InStep(s)
    ensures s.clocks.plates.Some? <==> PlatesIdle(s)
    ensures s.clocks.activity.Some? <==> ActivityIdle(s)
  {
    IdleAre(s);
    hide Asks, AnyWork, PlatesIdle, ActivityIdle;
  }

  /** Over any run the clocks of the plate reader and of the activity pipeline read the time of
      the step since which each has been loaded with nobody asking for it, after every step. */
  lemma {:induction false} ClocksReadSince(cfg: Config, start: real, events: seq<Event>)
    ensures var s := Run(cfg, start, events).s;
            s.clocks.plates == PlatesIdleSince(cfg, start, events)
            && s.clocks.activity == ActivityIdleSince(cfg, start, events)
  {
    RunIsSound(cfg, start, events);
    var s := Run(cfg, start, events).s;
    ClockRuns(s);
    if events == [] {
      assert s.models.plates.None? && s.models.activity.None?;
    } else {
      var init, e := events[..|events| - 1], events[|events| - 1];
      ClocksReadSince(cfg, start, init);
      RunIsSound(cfg, start, init);
      var w := Run(cfg, start, init);
      ClockRuns(w.s);
      hide InStep, Next, PlatesIdle, ActivityIdle, OneWarmup, StaysDown, Consistent, ClockIsExact;
      if Able(w.s, e.step) {
        NextMoves(w.s, e.step, e.at);
      }
    }
  }
}
