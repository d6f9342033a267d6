/** engine.py: when the detection models are loaded and when they are let go. Every
    section the engine runs under its lock is one step; the loader works between two
    of them. Models and readers are told apart by number. */
module Engine {

  datatype Option<T> = None | Some(value: T)

  type Model = nat

  /** The two domains with a model of their own; every other is the detector's. */
  datatype Domain = Plate | Face | Detected(name: string)

  datatype Config = Config(detect: bool, plates: bool, faces: bool, activities: bool, timeout: real, retry: real)

  /** A registered camera: its domains, and whether it has an activity to run. */
  datatype Camera = Camera(domains: set<Domain>, work: bool)

  datatype Pipeline = Pipeline(detector: Model, plates: Option<Model>, faces: Option<Model>)

  datatype Phase = WarmingUp | Running | Idle | Disabled | Failed

  /** What a warm-up found to do, and the detector it found loaded. */
  datatype Job = Job(needDetector: bool, wantPlates: bool, needActivity: bool, wantFaces: bool, detector: Option<Model>)

  datatype Thread = Spawned | Building(job: Job)

  /** What a warm-up built: a reader that could not be had is missing. */
  datatype Built = Built(detector: Model, plates: Option<Model>, activity: Model, faces: Option<Model>)

  /** What is loaded. `activity` stands for the activity pipeline with its own detector. */
  datatype Models = Models(
    pipeline: Option<Pipeline>, detector: Option<Model>, plates: Option<Model>, faces: Option<Model>,
    activity: Option<Model>)

  /** The demand last seen for each reader, and whether loading it came to nothing. */
  datatype Demand = Demand(plates: bool, faces: bool, platesFailed: bool, facesFailed: bool)

  /** Since when nobody has wanted the detector, the plate reader, the activity pipeline. */
  datatype Clocks = Clocks(idle: Option<real>, plates: Option<real>, activity: Option<real>)

  /** `threads` are the warm-ups not yet committed; `loader` is the engine's reference to one. */
  datatype Loading = Loading(loader: Option<nat>, threads: map<nat, Thread>, spawned: nat)

  datatype Stopping = Up | Signalled | TornDown

  /** The engine's fields, grouped by what they are about. */
  datatype State = State(
    cfg: Config, cameras: map<string, Camera>, models: Models, demand: Demand, clocks: Clocks,
    loading: Loading, phase: Phase, retryAt: real, stopping: Stopping)

  function Start(cfg: Config, now: real): State {
    State(cfg, map[], Models(None, None, None, None, None), Demand(false, false, false, false),
          Clocks(Some(now), None, None), Loading(None, map[], 0), if cfg.detect then Idle else Disabled, 0.0, Up)
  }

  // ---- demand --------------------------------------------------------------------------------

  predicate Asks(cameras: map<string, Camera>, domain: Domain) {
    exists c :: c in cameras && domain in cameras[c].domains
  }

  predicate PlatesWanted(s: State) { Asks(s.cameras, Plate) }

  predicate FacesWanted(s: State) { Asks(s.cameras, Face) }

  predicate AnyWork(cameras: map<string, Camera>) {
    exists c :: c in cameras && cameras[c].work
  }

  predicate ActivityWanted(s: State) { s.cfg.activities && AnyWork(s.cameras) }

  function NotePlates(s: State, now: real): State {
    var wanted := PlatesWanted(s);
    s.(demand := s.demand.(plates := wanted, platesFailed := s.demand.platesFailed && (!wanted || s.demand.plates)),
       clocks := if wanted then s.clocks.(plates := None)
                 else if s.models.plates.Some? && s.clocks.plates.None? then s.clocks.(plates := Some(now))
                 else s.clocks)
  }

  function WithPlates(p: Option<Pipeline>, r: Option<Model>): Option<Pipeline> {
    if p.None? then None else Some(p.value.(plates := r))
  }

  function WithFaces(p: Option<Pipeline>, r: Option<Model>): Option<Pipeline> {
    if p.None? then None else Some(p.value.(faces := r))
  }

  function ReleasePlates(s: State): State {
    if s.models.plates.None? then s
    else s.(models := s.models.(plates := None, pipeline := WithPlates(s.models.pipeline, None)),
            clocks := s.clocks.(plates := None))
  }

  function NoteActivity(s: State, now: real): State {
    if ActivityWanted(s) then s.(clocks := s.clocks.(activity := None))
    else if s.models.activity.Some? && s.clocks.activity.None? then s.(clocks := s.clocks.(activity := Some(now)))
    else s
  }

  function ReleaseFaces(m: Models): Models {
    if m.faces.None? then m else m.(faces := None, pipeline := WithFaces(m.pipeline, None))
  }

  /** Faces are released at once, where plates have a countdown. */
  function NoteFaces(s: State): State {
    var wanted := FacesWanted(s);
    s.(demand := s.demand.(faces := wanted, facesFailed := s.demand.facesFailed && (!wanted || s.demand.faces)),
       models := if wanted then s.models else ReleaseFaces(s.models))
  }

  // ---- warming up ------------------------------------------------------------------------------

  predicate NeedsWarmup(s: State) {
    s.cfg.detect && s.cameras != map[]
    && (|| s.models.pipeline.None? || s.models.detector.None?
        || (ActivityWanted(s) && s.models.activity.None?)
        || (s.cfg.plates && PlatesWanted(s) && s.models.plates.None? && !s.demand.platesFailed)
        || (s.cfg.faces && FacesWanted(s) && s.models.faces.None? && !s.demand.facesFailed))
  }

  /** A warm-up is running. */
  predicate Warming(l: Loading) {
    l.loader.Some? && l.loader.value in l.threads
  }

  function Spawn(l: Loading): Loading {
    Loading(Some(l.spawned), l.threads[l.spawned := Spawned], l.spawned + 1)
  }

  /** Starts a warm-up if one is due and none runs. */
  function EnsureModels(s: State, now: real): State {
    if !s.stopping.Up? || !NeedsWarmup(s) || Warming(s.loading) || (s.phase.Failed? && now < s.retryAt) then s
    else s.(phase := WarmingUp, loading := Spawn(s.loading))
  }

  /** The first lock of a warm-up: what is missing. */
  function JobOf(s: State): Job {
    Job(s.models.detector.None? || s.models.pipeline.None?, s.cfg.plates && PlatesWanted(s) && s.models.plates.None?,
        ActivityWanted(s) && s.models.activity.None?, s.cfg.faces && FacesWanted(s) && s.models.faces.None?,
        s.models.detector)
  }

  function AfterBegin(s: State, id: nat): State {
    s.(loading := s.loading.(threads := s.loading.threads[id := Building(JobOf(s))]))
  }

  function Gone(l: Loading, id: nat): Loading {
    l.(loader := None, threads := l.threads - {id})
  }

  function AfterFail(s: State, id: nat, now: real): State {
    s.(phase := Failed, retryAt := now + (if s.cfg.retry > 1.0 then s.cfg.retry else 1.0),
       loading := Gone(s.loading, id))
  }

  function InstallFaces(s: State, job: Job, b: Built): State {
    if !job.wantFaces then s
    else if b.faces.None? then s.(demand := s.demand.(facesFailed := true))
    else NoteFaces(s.(models := s.models.(faces := b.faces)))
  }

  function InstallPlates(s: State, job: Job, b: Built, now: real): State {
    if !job.wantPlates then s
    else if b.plates.None? then s.(demand := s.demand.(platesFailed := true))
    else NotePlates(s.(models := s.models.(plates := b.plates)), now)
  }

  /** The detector, and a pipeline over it if there is none. */
  function InstallPipeline(m: Models, job: Job, b: Built): Models {
    var detector := if job.needDetector then Some(b.detector) else job.detector;
    var m1 := if detector.Some? then m.(detector := detector) else m;
    var m2 :=
      if m1.pipeline.None? && m1.detector.Some? then
        m1.(pipeline := Some(Pipeline(m1.detector.value, m1.plates, m1.faces)))
      else if m1.pipeline.Some? && job.wantPlates && b.plates.Some? then
        m1.(pipeline := WithPlates(m1.pipeline, b.plates))
      else m1;
    // whether or not anybody still wants it
    if job.wantFaces && b.faces.Some? then m2.(pipeline := WithFaces(m2.pipeline, b.faces)) else m2
  }

  function InstallActivity(s: State, job: Job, b: Built, now: real): State {
    if job.needActivity && s.models.activity.None? then
      NoteActivity(s.(models := s.models.(activity := Some(b.activity))), now)
    else s
  }

  function Installed(s: State, job: Job, b: Built, now: real): State {
    var t := InstallPlates(InstallFaces(s, job, b), job, b, now);
    var u := InstallActivity(t.(models := InstallPipeline(t.models, job, b)), job, b, now);
    if u.models.pipeline.Some? then u.(phase := Running) else u
  }

  /** The last lock of a warm-up: installs what was built, unless the engine is stopping. */
  function AfterCommit(s: State, id: nat, job: Job, b: Built, now: real): State {
    var t := if s.stopping.Up? then Installed(s, job, b, now) else s;
    t.(loading := Gone(t.loading, id))
  }

  // ---- the steps ------------------------------------------------------------------------------------

  function NoteAll(s: State, now: real): State {
    NoteFaces(NoteActivity(NotePlates(s, now), now))
  }

  /** `work` is missing when the registry sent no activity configuration. */
  function Registered(s: State, slug: string, domains: set<Domain>, work: Option<bool>): State {
    var w := if work.Some? then work.value else slug in s.cameras && s.cameras[slug].work;
    s.(cameras := s.cameras[slug := Camera(domains, w)], clocks := s.clocks.(idle := None))
  }

  function AfterAdd(s: State, slug: string, domains: set<Domain>, work: Option<bool>, now: real): State {
    EnsureModels(NoteAll(Registered(s, slug, domains, work), now), now)
  }

  function AfterRemove(s: State, slug: string, now: real): State {
    if slug !in s.cameras then s
    else
      var t := NoteAll(s.(cameras := s.cameras - {slug}), now);
      if t.cameras == map[] && t.clocks.idle.None? then t.(clocks := t.clocks.(idle := Some(now))) else t
  }

  /** Everything but the face reader. */
  function Detach(s: State): State {
    s.(models := s.models.(pipeline := None, detector := None, plates := None), clocks := s.clocks.(plates := None),
       demand := s.demand.(platesFailed := false),
       phase := if s.phase.Running? || s.phase.WarmingUp? || s.phase.Failed? then Idle else s.phase)
  }

  function DetachActivity(s: State): State {
    s.(models := s.models.(activity := None), clocks := s.clocks.(activity := None))
  }

  predicate Expired(since: Option<real>, now: real, timeout: real) {
    since.Some? && now - since.value >= timeout
  }

  function DropPlates(s: State, now: real): State {
    if s.models.plates.Some? && !PlatesWanted(s) && Expired(s.clocks.plates, now, s.cfg.timeout)
    then ReleasePlates(s) else s
  }

  function DropActivity(s: State, now: real): State {
    if s.models.activity.Some? && !ActivityWanted(s) && Expired(s.clocks.activity, now, s.cfg.timeout)
    then DetachActivity(s) else s
  }

  /** A reaper pass. `now` was read before the lock was had at `at`. */
  function AfterBusyTick(s: State, now: real, at: real): State {
    var t := EnsureModels(s.(clocks := s.clocks.(idle := None)), at);
    DropActivity(NoteActivity(DropPlates(NoteFaces(NotePlates(t, at)), now), at), now)
  }

  function Hibernated(s: State): State {
    var t := if s.models.pipeline.Some? then Detach(s) else s;
    if s.models.activity.Some? then DetachActivity(t) else t
  }

  function AfterQuietTick(s: State, now: real): State {
    if s.clocks.idle.None? then s.(clocks := s.clocks.(idle := Some(now)))
    else if Expired(s.clocks.idle, now, s.cfg.timeout) then Hibernated(s)
    else s
  }

  function AfterTick(s: State, now: real, at: real): State {
    if s.cameras != map[] then AfterBusyTick(s, now, at) else AfterQuietTick(s, now)
  }

  function AfterSignal(s: State): State {
    s.(stopping := if s.stopping.Up? then Signalled else s.stopping)
  }

  function AfterStop(s: State): State {
    DetachActivity(Detach(s)).(stopping := TornDown)
  }

  // ---- the engine --------------------------------------------------------------------------------------

  class AnalyticsEngine {
    const cfg: Config
    var cameras: map<string, Camera>
    var models: Models
    var demand: Demand
    var clocks: Clocks
    var loading: Loading
    var phase: Phase
    var retryAt: real
    var stopping: Stopping

    function View(): State
      reads this
    {
      State(cfg, cameras, models, demand, clocks, loading, phase, retryAt, stopping)
    }

    constructor (cfg: Config, now: real)
      ensures View() == Start(cfg, now)
    {
      this.cfg, cameras := cfg, map[];
      models, demand := Models(None, None, None, None, None), Demand(false, false, false, false);
      clocks, loading := Clocks(Some(now), None, None), Loading(None, map[], 0);
      phase, retryAt, stopping := if cfg.detect then Idle else Disabled, 0.0, Up;
    }

    /** Starts or stops the plate reader's own clock. */
    method NotePlateDemand(now: real)
      modifies `demand, `clocks
      ensures View() == NotePlates(old(View()), now)
    {
      hide Asks;
      var wanted := PlatesWanted(View());
      if wanted && !demand.plates {
        demand := demand.(platesFailed := false);
      }
      if wanted {
        clocks := clocks.(plates := None);
      } else if models.plates.Some? && clocks.plates.None? {
        clocks := clocks.(plates := Some(now));
      }
      demand := demand.(plates := wanted);
    }

    method ReleasePlateReader()
      modifies `models, `clocks
      ensures View() == ReleasePlates(old(View()))
    {
      if models.plates.None? {
        return;
      }
      models := models.(plates := None);
      clocks := clocks.(plates := None);
      if models.pipeline.Some? {
        models := models.(pipeline := Some(models.pipeline.value.(plates := None)));
      }
    }

    method NoteActivityDemand(now: real)
      modifies `clocks
      ensures View() == NoteActivity(old(View()), now)
    {
      hide AnyWork;
      if ActivityWanted(View()) {
        clocks := clocks.(activity := None);
      } else if models.activity.Some? && clocks.activity.None? {
        clocks := clocks.(activity := Some(now));
      }
    }

    method NoteFaceDemand()
      modifies `models, `demand
      ensures View() == NoteFaces(old(View()))
    {
      hide Asks;
      var wanted := FacesWanted(View());
      if wanted && !demand.faces {
        demand := demand.(facesFailed := false);
      } else if !wanted && models.faces.Some? {
        models := models.(faces := None);
        if models.pipeline.Some? {
          models := models.(pipeline := Some(models.pipeline.value.(faces := None)));
        }
      }
      demand := demand.(faces := wanted);
    }

    /** Starts a warm-up if one is due and none runs; waits for nothing. */
    method Ensure(now: real)
      modifies `phase, `loading
      ensures View() == EnsureModels(old(View()), now)
    {
      hide NeedsWarmup;
      if !stopping.Up? || !NeedsWarmup(View()) {
        return;
      }
      if loading.loader.Some? && loading.loader.value in loading.threads {
        return;
      }
      if phase.Failed? && now < retryAt {
        return;
      }
      phase := WarmingUp;
      loading := Spawn(loading);
    }

    method NoteDemands(now: real)
      modifies `models, `demand, `clocks
      ensures View() == NoteAll(old(View()), now)
    {
      hide NotePlates, NoteActivity, NoteFaces;
      NotePlateDemand(now);
      NoteActivityDemand(now);
      NoteFaceDemand();
    }

    /** Registers or re-asserts a camera. */
    method AddCamera(slug: string, domains: set<Domain>, work: Option<bool>, now: real)
      modifies this
      ensures View() == AfterAdd(old(View()), slug, domains, work, now)
    {
      hide NoteAll, EnsureModels;
      var w := if work.Some? then work.value else slug in cameras && cameras[slug].work;
      cameras := cameras[slug := Camera(domains, w)];
      clocks := clocks.(idle := None);
      NoteDemands(now);
      Ensure(now);
    }

    /** The clock starts here; the release happens in the reaper. */
    method RemoveCamera(slug: string, now: real) returns (removed: bool)
      modifies this
      ensures View() == AfterRemove(old(View()), slug, now) && removed == (slug in old(cameras))
    {
      hide NoteAll;
      if slug !in cameras {
        return false;
      }
      cameras := cameras - {slug};
      NoteDemands(now);
      if cameras == map[] && clocks.idle.None? {
        clocks := clocks.(idle := Some(now));
      }
      return true;
    }

    /** A warm-up looks at what is missing. */
    method WarmBegin(id: nat) returns (job: Job)
      modifies `loading
      ensures View() == AfterBegin(old(View()), id) && job == JobOf(old(View()))
    {
      hide JobOf;
      job := JobOf(View());
      loading := loading.(threads := loading.threads[id := Building(job)]);
    }

    method WarmFail(id: nat, now: real)
      modifies `phase, `retryAt, `loading
      ensures View() == AfterFail(old(View()), id, now)
    {
      phase := Failed;
      retryAt := now + (if cfg.retry > 1.0 then cfg.retry else 1.0);
      loading := Gone(loading, id);
    }

    method TakeFaces(job: Job, b: Built)
      modifies `models, `demand
      ensures View() == InstallFaces(old(View()), job, b)
    {
      hide NoteFaces;
      if job.wantFaces && b.faces.None? {
        demand := demand.(facesFailed := true);
      }
      if job.wantFaces && b.faces.Some? {
        models := models.(faces := b.faces);
        NoteFaceDemand();
      }
    }

    method TakePlates(job: Job, b: Built, now: real)
      modifies `models, `demand, `clocks
      ensures View() == InstallPlates(old(View()), job, b, now)
    {
      hide NotePlates;
      if job.wantPlates && b.plates.None? {
        demand := demand.(platesFailed := true);
      }
      if job.wantPlates && b.plates.Some? {
        models := models.(plates := b.plates);
        NotePlateDemand(now);
      }
    }

    method TakeDetector(job: Job, b: Built)
      modifies `models
      ensures models == InstallPipeline(old(models), job, b)
    {
      var built := if job.needDetector then Some(b.detector) else job.detector;
      if built.Some? {
        models := models.(detector := built);
      }
      if models.pipeline.None? && models.detector.Some? {
        models := models.(pipeline := Some(Pipeline(models.detector.value, models.plates, models.faces)));
      } else if models.pipeline.Some? && job.wantPlates && b.plates.Some? {
        models := models.(pipeline := Some(models.pipeline.value.(plates := b.plates)));
      }
      if models.pipeline.Some? && job.wantFaces && b.faces.Some? {
        models := models.(pipeline := Some(models.pipeline.value.(faces := b.faces)));
      }
    }

    method TakeActivity(job: Job, b: Built, now: real)
      modifies `models, `clocks
      ensures View() == InstallActivity(old(View()), job, b, now)
    {
      hide NoteActivity;
      if job.needActivity && models.activity.None? {
        models := models.(activity := Some(b.activity));
        NoteActivityDemand(now);
      }
    }

    /** Installs what a warm-up built, under the lock. */
    method WarmCommit(id: nat, job: Job, b: Built, now: real)
      modifies this
      ensures View() == AfterCommit(old(View()), id, job, b, now)
    {
      hide InstallFaces, InstallPlates, InstallPipeline, InstallActivity;
      if stopping.Up? {
        TakeFaces(job, b);
        TakePlates(job, b, now);
        TakeDetector(job, b);
        TakeActivity(job, b, now);
        if models.pipeline.Some? {
          phase := Running;
        }
      }
      loading := Gone(loading, id);
    }

    method DetachModels()
      modifies `models, `clocks, `demand, `phase
      ensures View() == Detach(old(View()))
    {
      models := models.(pipeline := None, detector := None, plates := None);
      clocks := clocks.(plates := None);
      demand := demand.(platesFailed := false);
      if phase.Running? || phase.WarmingUp? || phase.Failed? {
        phase := Idle;
      }
    }

    method DetachActivities()
      modifies `models, `clocks
      ensures View() == DetachActivity(old(View()))
    {
      models := models.(activity := None);
      clocks := clocks.(activity := None);
    }

    method BusyPass(now: real, at: real)
      modifies this
      ensures View() == AfterBusyTick(old(View()), now, at)
    {
      hide EnsureModels, NotePlates, NoteFaces, NoteActivity, ReleasePlates, DetachActivity, AnyWork, Asks;
      clocks := clocks.(idle := None);
      Ensure(at);
      NotePlateDemand(at);
      NoteFaceDemand();
      if models.plates.Some? && !PlatesWanted(View())
         && clocks.plates.Some? && now - clocks.plates.value >= cfg.timeout {
        ReleasePlateReader();
      }
      NoteActivityDemand(at);
      if models.activity.Some? && !ActivityWanted(View())
         && clocks.activity.Some? && now - clocks.activity.value >= cfg.timeout {
        DetachActivities();
      }
    }

    /** A reaper pass: the clocks, and what they release. */
    method Tick(now: real, at: real)
      modifies this
      ensures View() == AfterTick(old(View()), now, at)
    {
      hide AfterBusyTick, Detach, DetachActivity;
      if cameras != map[] {
        BusyPass(now, at);
      } else if clocks.idle.None? {
        clocks := clocks.(idle := Some(now));
      } else if now - clocks.idle.value >= cfg.timeout {
        var held := models.activity.Some?;
        if models.pipeline.Some? {
          DetachModels();
        }
        if held {
          DetachActivities();
        }
      }
    }

    /** The stop event. */
    method Signal()
      modifies `stopping
      ensures View() == AfterSignal(old(View()))
    {
      if stopping.Up? {
        stopping := Signalled;
      }
    }

    /** The rest of stop, under the lock. */
    method Stop()
      modifies this
      ensures View() == AfterStop(old(View()))
    {
      hide Detach, DetachActivity;
      DetachModels();
      DetachActivities();
      stopping := TornDown;
    }
  }
}
