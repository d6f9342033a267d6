/** engine.py: what holds of the models at every release of the lock, in every
    interleaving of camera changes, warm-ups, reaper passes and stop. */
module EngineRuns {
  import opened Engine

  datatype Step =
    | Add(slug: string, domains: set<Domain>, work: Option<bool>)
    | Remove(slug: string)
    | Begin(id: nat)
    | Commit(id: nat, built: Built)
    | Fail(id: nat)
    | Tick(now: real)
    | Signal
    | Stop

  /** A step and the time its lock section ran. */
  datatype Event = Event(step: Step, at: real)

  /** Whether any camera was registered after a step. */
  datatype Entry = Entry(at: real, busy: bool)

  datatype World = World(s: State, log: seq<Entry>)

  predicate Able(s: State, step: Step) {
    match step
    case Begin(id) => id in s.loading.threads && s.loading.threads[id].Spawned?
    case Commit(id, _) => id in s.loading.threads && s.loading.threads[id].Building?
    case Fail(id) => id in s.loading.threads && s.loading.threads[id].Building?
    case Stop => !s.stopping.Up?
    // the reaper runs only with a positive timeout
    case Tick(_) => s.cfg.detect && s.cfg.timeout > 0.0
    case _ => true
  }

  function Next(s: State, step: Step, at: real): State
    requires Able(s, step)
  {
    match step
    case Add(slug, domains, work) => AfterAdd(s, slug, domains, work, at)
    case Remove(slug) => AfterRemove(s, slug, at)
    case Begin(id) => AfterBegin(s, id)
    case Commit(id, built) => AfterCommit(s, id, s.loading.threads[id].job, built, at)
    case Fail(id) => AfterFail(s, id, at)
    case Tick(now) => AfterTick(s, now, at)
    case Signal => AfterSignal(s)
    case Stop => AfterStop(s)
  }

  function After(w: World, e: Event): World
    requires Able(w.s, e.step)
  {
    var s := Next(w.s, e.step, e.at);
    World(s, w.log + [Entry(e.at, s.cameras != map[])])
  }

  /** A step that cannot be taken does nothing. */
  function Run(cfg: Config, start: real, events: seq<Event>): World {
    if events == [] then World(Engine.Start(cfg, start), [Entry(start, false)])
    else
      var w := Run(cfg, start, events[..|events| - 1]);
      var e := events[|events| - 1];
      if Able(w.s, e.step) then After(w, e) else w
  }

  // ---- one warm-up at a time -----------------------------------------------------------------------

  /** The warm-ups not yet committed are the loader, or none. */
  ghost predicate OneWarmup(l: Loading) {
    && l.threads.Keys == (if l.loader.Some? then {l.loader.value} else {})
    && (l.loader.Some? ==> l.loader.value < l.spawned)
  }

  lemma {:induction false} EnsureKeepsRest(s: State, now: real)
    ensures var t := EnsureModels(s, now);
            t.cameras == s.cameras && t.models == s.models && t.demand == s.demand && t.clocks == s.clocks
            && t.stopping == s.stopping && t.cfg == s.cfg
            && (t.loading == s.loading || (!Warming(s.loading) && t.loading == Spawn(s.loading)))
  {
    hide NeedsWarmup;
  }

  lemma {:induction false} SpawnKeepsOne(l: Loading, l': Loading)
    requires OneWarmup(l) && (l' == l || (!Warming(l) && l' == Spawn(l)))
    ensures OneWarmup(l')
  {
    if l' != l {
      assert l.loader.None?;
      assert Spawn(l).threads.Keys == {l.spawned};
    }
  }

  lemma {:induction false} GoneKeepsOne(l: Loading, id: nat)
    requires OneWarmup(l) && id in l.threads
    ensures OneWarmup(Gone(l, id))
  {
    assert Gone(l, id).threads.Keys == {};
  }

  lemma {:induction false} NextKeepsOne(s: State, step: Step, at: real)
    requires OneWarmup(s.loading) && Able(s, step)
    ensures OneWarmup(Next(s, step, at).loading)
  {
    hide OneWarmup, AfterAdd, AfterRemove, AfterCommit, AfterBusyTick, JobOf;
    match step
    case Add(slug, domains, work) =>
      AddKeepsDetector(s, slug, domains, work, at);
      SpawnKeepsOne(s.loading, AfterAdd(s, slug, domains, work, at).loading);
    case Remove(slug) =>
      RemoveKeepsDetector(s, slug, at);
    case Tick(now) =>
      BusyTickKeepsDetector(s, now, at);
      SpawnKeepsOne(s.loading, AfterBusyTick(s, now, at).loading);
    case Begin(id) =>
      BeginKeepsOne(s.loading, id, Building(JobOf(s)));
    case Commit(id, b) =>
      CommitKeepsLoading(s, id, s.loading.threads[id].job, b, at);
      GoneKeepsOne(s.loading, id);
    case Fail(id) =>
      GoneKeepsOne(s.loading, id);
    case _ =>
  }

  lemma {:induction false} BeginKeepsOne(l: Loading, id: nat, t: Thread)
    requires OneWarmup(l) && id in l.threads
    ensures OneWarmup(l.(threads := l.threads[id := t]))
  {
    assert l.threads[id := t].Keys == l.threads.Keys;
  }

  // ---- the clocks --------------------------------------------------------------------------------------

  /** The detector's clock runs exactly while no camera is registered. */
  ghost predicate IdleClock(s: State) {
    s.clocks.idle.None? <==> s.cameras != map[]
  }

  /** The recorded demand is the demand; the plate clock runs exactly while a reader is
      loaded and unwanted; a live pipeline holds the engine's own reader. */
  ghost predicate PlateClock(s: State) {
    && s.demand.plates == PlatesWanted(s)
    && (s.clocks.plates.Some? <==> s.models.plates.Some? && !PlatesWanted(s))
    && PlatesAgree(s.models)
  }

  ghost predicate PlatesAgree(m: Models) {
    m.pipeline.Some? ==> m.pipeline.value.plates == m.plates
  }

  ghost predicate ActivityClock(s: State) {
    s.clocks.activity.Some? <==> s.models.activity.Some? && !ActivityWanted(s)
  }

  /** Engine-side only: the face reader is there only while wanted. */
  ghost predicate FaceDemand(s: State) {
    s.demand.faces == FacesWanted(s) && (s.models.faces.Some? ==> FacesWanted(s))
  }

  ghost predicate InStep(s: State) {
    IdleClock(s) && PlateClock(s) && ActivityClock(s) && FaceDemand(s)
  }

  /** Whatever the clocks were, noting demand puts them right. */
  lemma {:induction false} NoteAllSetsClocks(s: State, now: real)
    requires PlatesAgree(s.models)
    requires s.clocks.plates.Some? ==> s.models.plates.Some?
    requires s.clocks.activity.Some? ==> s.models.activity.Some?
    ensures var t := NoteAll(s, now);
            && PlateClock(t) && ActivityClock(t) && FaceDemand(t)
            && t.cameras == s.cameras && t.clocks.idle == s.clocks.idle
  {
    hide Asks, AnyWork;
  }

  lemma {:induction false} AddInStep(s: State, slug: string, domains: set<Domain>, work: Option<bool>, now: real)
    requires InStep(s)
    ensures InStep(AfterAdd(s, slug, domains, work, now))
  {
    hide Asks, AnyWork, NoteAll, EnsureModels;
    var r := Registered(s, slug, domains, work);
    assert r.cameras[slug].domains == domains;
    assert r.cameras != map[];
    NoteAllSetsClocks(r, now);
    EnsureKeepsRest(NoteAll(r, now), now);
  }

  lemma {:induction false} RemoveInStep(s: State, slug: string, now: real)
    requires InStep(s)
    ensures InStep(AfterRemove(s, slug, now))
  {
    hide Asks, AnyWork, NoteAll;
    if slug in s.cameras {
      assert s.cameras != map[];
      NoteAllSetsClocks(s.(cameras := s.cameras - {slug}), now);
    }
  }

  lemma {:induction false} InstallFacesInStep(s: State, job: Job, b: Built)
    requires InStep(s)
    ensures InStep(InstallFaces(s, job, b))
  {
    hide Asks, AnyWork;
  }

  /** The plate reader in the engine, its clock armed from current demand. */
  lemma {:induction false} InstallPlatesDetails(s: State, job: Job, b: Built, now: real)
    requires InStep(s)
    ensures var t := InstallPlates(s, job, b, now);
            && IdleClock(t) && ActivityClock(t) && FaceDemand(t)
            && t.demand.plates == PlatesWanted(t)
            && (t.clocks.plates.Some? <==> t.models.plates.Some? && !PlatesWanted(t))
            && t.models == (if job.wantPlates && b.plates.Some? then s.models.(plates := b.plates) else s.models)
  {
    hide Asks, AnyWork;
  }

  lemma {:induction false} InstallPipelineAgrees(m: Models, m': Models, job: Job, b: Built)
    requires PlatesAgree(m)
    requires m' == if job.wantPlates && b.plates.Some? then m.(plates := b.plates) else m
    ensures var n := InstallPipeline(m', job, b);
            PlatesAgree(n) && n.plates == m'.plates && n.faces == m'.faces && n.activity == m'.activity
  {
  }

  lemma {:induction false} InstallActivityInStep(s: State, job: Job, b: Built, now: real)
    requires InStep(s)
    ensures InStep(InstallActivity(s, job, b, now))
  {
    hide Asks, AnyWork;
  }

  /** The readers and the detector installed, before the activity pipeline. */
  function WithDetector(s: State, job: Job, b: Built, now: real): State {
    var t := InstallPlates(InstallFaces(s, job, b), job, b, now);
    t.(models := InstallPipeline(t.models, job, b))
  }

  lemma {:induction false} WithDetectorInStep(s: State, job: Job, b: Built, now: real)
    requires InStep(s)
    ensures InStep(WithDetector(s, job, b, now))
  {
    InstallFacesInStep(s, job, b);
    InstallPlatesDetails(InstallFaces(s, job, b), job, b, now);
    hide Asks, AnyWork, InstallFaces, InstallPlates, InstallPipeline;
    InstallPipelineAgrees(InstallFaces(s, job, b).models, InstallPlates(InstallFaces(s, job, b), job, b, now).models,
                          job, b);
  }

  /** A load that lands after its demand has gone still leaves the clocks in step. */
  lemma {:induction false} CommitInStep(s: State, id: nat, job: Job, b: Built, now: real)
    requires InStep(s)
    ensures InStep(AfterCommit(s, id, job, b, now))
  {
    WithDetectorInStep(s, job, b, now);
    var u := WithDetector(s, job, b, now);
    InstallActivityInStep(u, job, b, now);
    hide InStep, InstallFaces, InstallPlates, InstallPipeline, InstallActivity;
    var v := InstallActivity(u, job, b, now);
    SameClocks(if s.stopping.Up? then v else s, AfterCommit(s, id, job, b, now));
  }

  lemma {:induction false} BusyTickInStep(s: State, now: real, at: real)
    requires InStep(s) && s.cameras != map[]
    ensures InStep(AfterBusyTick(s, now, at))
  {
    hide Asks, AnyWork, EnsureModels;
    var q := s.(clocks := s.clocks.(idle := None));
    EnsureKeepsRest(q, at);
    var t := EnsureModels(q, at);
    var u := NoteFaces(NotePlates(t, at));
    assert InStep(u);
    DropsInStep(u, now, at);
  }

  lemma {:induction false} DropsInStep(s: State, now: real, at: real)
    requires InStep(s)
    ensures InStep(DropActivity(NoteActivity(DropPlates(s, now), at), now))
  {
    hide Asks, AnyWork;
    var t := DropPlates(s, now);
    assert InStep(t);
    var u := NoteActivity(t, at);
    assert InStep(u);
  }

  lemma {:induction false} QuietTickInStep(s: State, now: real)
    requires InStep(s) && s.cameras == map[]
    ensures InStep(AfterQuietTick(s, now))
  {
    hide Asks, AnyWork;
  }

  /** At every release of the lock the clocks are in step with demand. */
  lemma {:induction false} NextInStep(s: State, step: Step, at: real)
    requires InStep(s) && Able(s, step)
    ensures InStep(Next(s, step, at))
  {
    hide InStep, AfterAdd, AfterRemove, AfterCommit, AfterBusyTick, AfterQuietTick;
    match step
    case Add(slug, domains, work) => AddInStep(s, slug, domains, work, at);
    case Remove(slug) => RemoveInStep(s, slug, at);
    case Begin(id) => SameClocks(s, AfterBegin(s, id));
    case Commit(id, built) => CommitInStep(s, id, s.loading.threads[id].job, built, at);
    case Fail(id) => SameClocks(s, AfterFail(s, id, at));
    case Tick(now) =>
      if s.cameras != map[] {
        BusyTickInStep(s, now, at);
      } else {
        QuietTickInStep(s, now);
      }
    case Signal => SameClocks(s, AfterSignal(s));
    case Stop => StopInStep(s);
  }

  lemma {:induction false} SameClocks(s: State, t: State)
    requires InStep(s) && t.cfg == s.cfg && t.cameras == s.cameras && t.models == s.models && t.clocks == s.clocks
             && t.demand == s.demand
    ensures InStep(t)
  {
  }

  lemma {:induction false} StopInStep(s: State)
    requires InStep(s)
    ensures InStep(AfterStop(s))
  {
    hide Asks, AnyWork;
  }

  // ---- nothing comes back after stop ---------------------------------------------------------------------

  ghost predicate Empty(m: Models) {
    m.pipeline.None? && m.detector.None? && m.plates.None? && m.activity.None?
  }

  ghost predicate StaysDown(s: State) {
    s.stopping.TornDown? ==> Empty(s.models)
  }

  lemma {:induction false} NextStaysDown(s: State, step: Step, at: real)
    requires StaysDown(s) && Able(s, step)
    ensures StaysDown(Next(s, step, at))
    ensures s.stopping.TornDown? ==> Next(s, step, at).stopping.TornDown?
    ensures !s.stopping.Up? ==> !Next(s, step, at).stopping.Up?
  {
    hide Asks, AnyWork, NeedsWarmup, JobOf, InstallPipeline;
  }

  /** Every model, and every part of the pipeline, is the one it was or has been let go. */
  ghost predicate OnlyReleases(m: Models, m': Models) {
    && SameOrGone(m.detector, m'.detector) && SameOrGone(m.plates, m'.plates)
    && SameOrGone(m.faces, m'.faces) && SameOrGone(m.activity, m'.activity)
    && (m'.pipeline.Some? ==>
          && m.pipeline.Some? && m'.pipeline.value.detector == m.pipeline.value.detector
          && SameOrGone(m.pipeline.value.plates, m'.pipeline.value.plates)
          && SameOrGone(m.pipeline.value.faces, m'.pipeline.value.faces))
  }

  predicate SameOrGone(m: Option<Model>, m': Option<Model>) {
    m' == m || m'.None?
  }

  lemma {:induction false} NoteAllOnlyReleases(s: State, at: real)
    ensures OnlyReleases(s.models, NoteAll(s, at).models)
  {
    hide Asks, AnyWork;
  }

  lemma {:induction false} DropsOnlyRelease(s: State, now: real, at: real)
    ensures OnlyReleases(s.models,
                         DropActivity(NoteActivity(DropPlates(NoteFaces(NotePlates(s, at)), now), at), now).models)
  {
    hide Asks, AnyWork, Expired;
  }

  /** From the stop signal on no step loads anything. */
  lemma {:induction false} SignalledOnlyReleases(s: State, step: Step, at: real)
    requires Able(s, step) && !s.stopping.Up?
    ensures OnlyReleases(s.models, Next(s, step, at).models)
  {
    hide NoteAll, EnsureModels, NotePlates, NoteFaces, NoteActivity, DropPlates, DropActivity, JobOf, Installed;
    match step
    case Add(slug, domains, work) =>
      NoteAllOnlyReleases(Registered(s, slug, domains, work), at);
      EnsureKeepsRest(NoteAll(Registered(s, slug, domains, work), at), at);
    case Remove(slug) =>
      NoteAllOnlyReleases(s.(cameras := s.cameras - {slug}), at);
    case Tick(now) =>
      var q := s.(clocks := s.clocks.(idle := None));
      EnsureKeepsRest(q, at);
      DropsOnlyRelease(EnsureModels(q, at), now, at);
    case _ =>
  }

  // ---- one detector -----------------------------------------------------------------------------------------

  /** A pipeline runs on the engine's own detector. */
  ghost predicate SameDetector(m: Models) {
    m.pipeline.Some? ==> m.detector == Some(m.pipeline.value.detector)
  }

  /** What a warm-up saw still stands, unless the models were released under it. */
  ghost predicate JobStands(m: Models, t: Thread) {
    t.Building? ==>
      if t.job.needDetector then m.pipeline.None?
      else t.job.detector.Some? && (m.pipeline.Some? ==> m.detector == t.job.detector)
  }

  ghost predicate Consistent(s: State) {
    SameDetector(s.models) && forall id :: id in s.loading.threads ==> JobStands(s.models, s.loading.threads[id])
  }

  /** The detector side of the models is untouched. */
  ghost predicate DetectorKept(m: Models, m': Models) {
    && m'.detector == m.detector && m'.pipeline.Some? == m.pipeline.Some?
    && (m.pipeline.Some? ==> m'.pipeline.value.detector == m.pipeline.value.detector)
  }

  lemma {:induction false} NoteAllKeepsDetector(s: State, at: real)
    ensures DetectorKept(s.models, NoteAll(s, at).models)
  {
    hide Asks, AnyWork;
  }

  lemma {:induction false} QuietNotesKeepDetector(s: State, now: real, at: real)
    ensures DetectorKept(s.models,
                         DropActivity(NoteActivity(DropPlates(NoteFaces(NotePlates(s, at)), now), at), now).models)
    ensures DropActivity(NoteActivity(DropPlates(NoteFaces(NotePlates(s, at)), now), at), now).loading == s.loading
  {
    hide Asks, AnyWork;
  }

  lemma {:induction false} KeptIsConsistent(s: State, m: Models, l: Loading)
    requires Consistent(s) && DetectorKept(s.models, m) && OneWarmup(s.loading)
    requires l == s.loading || (!Warming(s.loading) && l == Spawn(s.loading))
    ensures SameDetector(m) && forall id :: id in l.threads ==> JobStands(m, l.threads[id])
  {
    forall id | id in l.threads
      ensures JobStands(m, l.threads[id])
    {
      assert id in s.loading.threads ==> JobStands(s.models, s.loading.threads[id]);
    }
  }

  lemma {:induction false} AddKeepsDetector(s: State, slug: string, domains: set<Domain>, work: Option<bool>, at: real)
    ensures var t := AfterAdd(s, slug, domains, work, at);
            DetectorKept(s.models, t.models)
            && (t.loading == s.loading || (!Warming(s.loading) && t.loading == Spawn(s.loading)))
  {
    hide NoteAll, EnsureModels, DetectorKept;
    var r := Registered(s, slug, domains, work);
    NoteAllKeepsDetector(r, at);
    NoteAllKeepsLoading(r, at);
    EnsureKeepsRest(NoteAll(r, at), at);
  }

  lemma {:induction false} NoteAllKeepsLoading(s: State, now: real)
    ensures NoteAll(s, now).loading == s.loading
  {
    hide Asks, AnyWork, ReleaseFaces;
  }

  lemma {:induction false} RemoveKeepsDetector(s: State, slug: string, at: real)
    ensures var t := AfterRemove(s, slug, at); DetectorKept(s.models, t.models) && t.loading == s.loading
  {
    hide NoteAll;
    NoteAllKeepsDetector(s.(cameras := s.cameras - {slug}), at);
    NoteAllKeepsLoading(s.(cameras := s.cameras - {slug}), at);
  }

  lemma {:induction false} BusyTickKeepsDetector(s: State, now: real, at: real)
    ensures var t := AfterBusyTick(s, now, at);
            DetectorKept(s.models, t.models)
            && (t.loading == s.loading || (!Warming(s.loading) && t.loading == Spawn(s.loading)))
  {
    hide EnsureModels, NotePlates, NoteFaces, NoteActivity, DropPlates, DropActivity;
    var q := s.(clocks := s.clocks.(idle := None));
    EnsureKeepsRest(q, at);
    QuietNotesKeepDetector(EnsureModels(q, at), now, at);
  }

  lemma {:induction false} BeginIsConsistent(s: State, id: nat)
    requires Consistent(s)
    ensures Consistent(AfterBegin(s, id))
  {
    hide Asks, AnyWork;
    var t := AfterBegin(s, id);
    forall other | other in t.loading.threads
      ensures JobStands(t.models, t.loading.threads[other])
    {
      assert other != id ==> other in s.loading.threads && JobStands(s.models, s.loading.threads[other]);
    }
  }

  lemma {:induction false} ReadersKeepDetector(s: State, job: Job, b: Built, now: real)
    ensures DetectorKept(s.models, InstallPlates(InstallFaces(s, job, b), job, b, now).models)
  {
    hide Asks;
  }

  /** What a commit leaves runs on one detector. */
  lemma {:induction false} CommitSameDetector(s: State, id: nat, job: Job, b: Built, now: real)
    requires SameDetector(s.models) && JobStands(s.models, Building(job))
    ensures SameDetector(AfterCommit(s, id, job, b, now).models)
    ensures s.stopping.Up? ==> AfterCommit(s, id, job, b, now).models.pipeline.Some?
  {
    ReadersKeepDetector(s, job, b, now);
    hide Asks, AnyWork, InstallPlates, InstallFaces;
    var t := InstallPlates(InstallFaces(s, job, b), job, b, now);
    InstallPipelineSame(t.models, job, b);
    hide InstallPipeline;
  }

  lemma {:induction false} InstallPipelineSame(m: Models, job: Job, b: Built)
    requires SameDetector(m) && JobStands(m, Building(job))
    ensures SameDetector(InstallPipeline(m, job, b)) && InstallPipeline(m, job, b).pipeline.Some?
  {
  }

  lemma {:induction false} LastThreadGone(s: State, t: State, id: nat)
    requires OneWarmup(s.loading) && id in s.loading.threads && t.loading == Gone(s.loading, id)
             && SameDetector(t.models)
    ensures Consistent(t)
  {
    assert t.loading.threads.Keys == {};
  }

  lemma {:induction false} CommitKeepsLoading(s: State, id: nat, job: Job, b: Built, now: real)
    ensures AfterCommit(s, id, job, b, now).loading == Gone(s.loading, id)
  {
    hide Asks, AnyWork, ReleaseFaces, InstallPipeline;
  }

  lemma {:induction false} DetachIsConsistent(s: State, t: State)
    requires Consistent(s) && t.loading == s.loading && t.models.pipeline.None?
    ensures Consistent(t)
  {
    forall id | id in t.loading.threads
      ensures JobStands(t.models, t.loading.threads[id])
    {
      assert JobStands(s.models, s.loading.threads[id]);
    }
  }

  lemma {:induction false} QuietTickConsistent(s: State, now: real)
    requires Consistent(s)
    ensures Consistent(AfterQuietTick(s, now))
  {
    hide Consistent;
    var t := AfterQuietTick(s, now);
    if s.models.pipeline.Some? && t.models.pipeline.None? {
      DetachIsConsistent(s, t);
    } else {
      SameIsConsistent(s, t);
    }
  }

  lemma {:induction false} SameIsConsistent(s: State, t: State)
    requires Consistent(s) && t.loading == s.loading && t.models.pipeline == s.models.pipeline
             && t.models.detector == s.models.detector
    ensures Consistent(t)
  {
    forall id | id in t.loading.threads
      ensures JobStands(t.models, t.loading.threads[id])
    {
      assert JobStands(s.models, s.loading.threads[id]);
    }
  }

  /** A live pipeline always runs on the engine's own detector. */
  lemma {:induction false} NextIsConsistent(s: State, step: Step, at: real)
    requires Consistent(s) && OneWarmup(s.loading) && Able(s, step)
    ensures Consistent(Next(s, step, at))
  {
    hide Consistent, OneWarmup, AfterAdd, AfterRemove, AfterCommit, AfterBusyTick;
    hide AfterQuietTick, AfterBegin, DetectorKept, SameDetector, JobStands;
    match step
    case Add(slug, domains, work) =>
      AddKeepsDetector(s, slug, domains, work, at);
      KeptStep(s, AfterAdd(s, slug, domains, work, at));
    case Remove(slug) =>
      RemoveKeepsDetector(s, slug, at);
      KeptStep(s, AfterRemove(s, slug, at));
    case Begin(id) => BeginIsConsistent(s, id);
    case Commit(id, b) => CommitIsConsistent(s, id, b, at);
    case Fail(id) => FailIsConsistent(s, id, at);
    case Tick(now) =>
      if s.cameras != map[] {
        BusyTickKeepsDetector(s, now, at);
        KeptStep(s, AfterBusyTick(s, now, at));
      } else {
        QuietTickConsistent(s, now);
      }
    case Signal => SameIsConsistent(s, AfterSignal(s));
    case Stop => DetachIsConsistent(s, AfterStop(s));
  }

  lemma {:induction false} KeptStep(s: State, t: State)
    requires Consistent(s) && OneWarmup(s.loading) && DetectorKept(s.models, t.models)
    requires t.loading == s.loading || (!Warming(s.loading) && t.loading == Spawn(s.loading))
    ensures Consistent(t)
  {
    KeptIsConsistent(s, t.models, t.loading);
  }

  lemma {:induction false} CommitIsConsistent(s: State, id: nat, b: Built, at: real)
    requires Consistent(s) && OneWarmup(s.loading) && id in s.loading.threads && s.loading.threads[id].Building?
    ensures Consistent(AfterCommit(s, id, s.loading.threads[id].job, b, at))
  {
    hide AfterCommit;
    var job := s.loading.threads[id].job;
    assert JobStands(s.models, s.loading.threads[id]);
    CommitSameDetector(s, id, job, b, at);
    CommitKeepsLoading(s, id, job, b, at);
    LastThreadGone(s, AfterCommit(s, id, job, b, at), id);
  }

  lemma {:induction false} FailIsConsistent(s: State, id: nat, at: real)
    requires Consistent(s) && OneWarmup(s.loading) && id in s.loading.threads
    ensures Consistent(AfterFail(s, id, at))
  {
    LastThreadGone(s, AfterFail(s, id, at), id);
  }

  // ---- what a warm-up leaves to do ------------------------------------------------------------------

  lemma {:induction false} FacesSettled(s: State, b: Built)
    ensures var t := InstallFaces(s, JobOf(s), b);
            && (s.cfg.faces && FacesWanted(s) && t.models.faces.None? ==> t.demand.facesFailed)
            && t.cameras == s.cameras && t.cfg == s.cfg
            && t.models.plates == s.models.plates && t.models.activity == s.models.activity
            && t.models.detector == s.models.detector
            && t.models.pipeline.Some? == s.models.pipeline.Some?
            && t.demand.platesFailed == s.demand.platesFailed
  {
    hide Asks, AnyWork;
  }

  lemma {:induction false} PlatesSettled(s: State, t: State, b: Built, now: real)
    requires t.cameras == s.cameras && t.cfg == s.cfg && t.models.plates == s.models.plates
    ensures var u := InstallPlates(t, JobOf(s), b, now);
            && (s.cfg.plates && PlatesWanted(s) && u.models.plates.None? ==> u.demand.platesFailed)
            && u.cameras == t.cameras && u.cfg == t.cfg
            && u.models == t.models.(plates := u.models.plates)
            && u.demand.facesFailed == t.demand.facesFailed
  {
    hide Asks, AnyWork;
  }

  lemma {:induction false} DetectorSettled(m: Models, job: Job, b: Built)
    requires JobStands(m, Building(job))
    ensures var n := InstallPipeline(m, job, b);
            n.pipeline.Some? && n.detector.Some? && n.plates == m.plates && n.faces == m.faces
            && n.activity == m.activity
  {
  }

  lemma {:induction false} ActivitySettled(s: State, job: Job, b: Built, now: real)
    ensures var t := InstallActivity(s, job, b, now);
            && t.cfg == s.cfg && t.cameras == s.cameras && t.demand == s.demand
            && t.models == s.models.(activity := t.models.activity)
            && (s.models.activity.Some? || job.needActivity ==> t.models.activity.Some?)
  {
    hide Asks, AnyWork;
  }

  lemma {:induction false} CommitIsInstalled(s: State, id: nat, job: Job, b: Built, now: real)
    requires s.stopping.Up?
    ensures var t := AfterCommit(s, id, job, b, now);
            var u := InstallActivity(WithDetector(s, job, b, now), job, b, now);
            t.cfg == u.cfg && t.cameras == u.cameras && t.demand == u.demand && t.models == u.models
  {
    hide InstallFaces, InstallPlates, InstallPipeline, InstallActivity;
  }

  /** When nothing changed while it was building, a committed warm-up leaves nothing due,
      whether or not every reader could be had: the next one waits for a change. */
  lemma {:induction false} CommitLeavesNothingDue(s: State, id: nat, b: Built, now: real)
    requires s.stopping.Up? && SameDetector(s.models)
    ensures !NeedsWarmup(AfterCommit(s, id, JobOf(s), b, now))
  {
    var job := JobOf(s);
    FacesSettled(s, b);
    var t := InstallFaces(s, job, b);
    PlatesSettled(s, t, b, now);
    var u := InstallPlates(t, job, b, now);
    DetectorSettled(u.models, job, b);
    hide Asks, AnyWork, InstallFaces, InstallPlates, InstallPipeline, InstallActivity, AfterCommit;
    var v := WithDetector(s, job, b, now);
    ActivitySettled(v, job, b, now);
    CommitIsInstalled(s, id, job, b, now);
  }

  // ---- hibernation ---------------------------------------------------------------------------------------------

  /** The camera set in force at an instant: as the last step by then left it. */
  function BusyAt(log: seq<Entry>, t: real): bool {
    if log == [] then false
    else if log[|log| - 1].at <= t then log[|log| - 1].busy
    else BusyAt(log[..|log| - 1], t)
  }

  /** When the cameras were last all gone: the time of the step that took the last. */
  function QuietStart(log: seq<Entry>): real
    requires log != []
  {
    var init, last := log[..|log| - 1], log[|log| - 1];
    if init == [] || last.busy || init[|init| - 1].busy then last.at else QuietStart(init)
  }

  lemma {:induction false} QuietSinceStart(log: seq<Entry>, t: real)
    requires log != [] && !log[|log| - 1].busy && t >= QuietStart(log)
    ensures !BusyAt(log, t)
  {
    var init := log[..|log| - 1];
    if init != [] && !init[|init| - 1].busy {
      QuietSinceStart(init, t);
    }
  }

  /** The detector's clock reads exactly when the cameras were last all gone. */
  ghost predicate ClockIsExact(w: World) {
    && w.log != [] && w.log[|w.log| - 1].busy == (w.s.cameras != map[])
    && w.s.clocks.idle == (if w.s.cameras != map[] then None else Some(QuietStart(w.log)))
  }

  lemma {:induction false} NotesKeepIdle(s: State, now: real)
    ensures NoteAll(s, now).clocks.idle == s.clocks.idle && NoteAll(s, now).cameras == s.cameras
  {
    hide Asks, AnyWork, ReleaseFaces;
  }

  lemma {:induction false} AddMovesIdle(s: State, slug: string, domains: set<Domain>, work: Option<bool>, at: real)
    ensures var t := AfterAdd(s, slug, domains, work, at); t.cameras != map[] && t.clocks.idle == None
  {
    hide NoteAll, EnsureModels;
    var r := Registered(s, slug, domains, work);
    assert slug in r.cameras;
    NotesKeepIdle(r, at);
    EnsureKeepsRest(NoteAll(r, at), at);
  }

  lemma {:induction false} RemoveMovesIdle(s: State, slug: string, at: real)
    requires IdleClock(s)
    ensures var t := AfterRemove(s, slug, at);
            t.clocks.idle == (if t.cameras != map[] then None
                              else if s.cameras != map[] then Some(at) else s.clocks.idle)
  {
    hide NoteAll;
    NotesKeepIdle(s.(cameras := s.cameras - {slug}), at);
  }

  lemma {:induction false} CommitKeepsIdle(s: State, id: nat, job: Job, b: Built, at: real)
    ensures AfterCommit(s, id, job, b, at).clocks.idle == s.clocks.idle
    ensures AfterCommit(s, id, job, b, at).cameras == s.cameras
  {
    hide Asks, AnyWork, ReleaseFaces, InstallPipeline;
  }

  lemma {:induction false} BusyTickIdle(s: State, now: real, at: real)
    ensures AfterBusyTick(s, now, at).clocks.idle == None && AfterBusyTick(s, now, at).cameras == s.cameras
  {
    hide Asks, AnyWork, ReleaseFaces, EnsureModels;
    EnsureKeepsRest(s.(clocks := s.clocks.(idle := None)), at);
  }

  lemma {:induction false} IdleMoves(s: State, step: Step, at: real)
    requires IdleClock(s) && Able(s, step)
    ensures var t := Next(s, step, at);
            t.clocks.idle == (if t.cameras != map[] then None
                              else if s.cameras != map[] then Some(at) else s.clocks.idle)
  {
    hide AfterAdd, AfterRemove, AfterCommit, AfterBusyTick;
    match step
    case Add(slug, domains, work) => AddMovesIdle(s, slug, domains, work, at);
    case Remove(slug) => RemoveMovesIdle(s, slug, at);
    case Commit(id, b) => CommitKeepsIdle(s, id, s.loading.threads[id].job, b, at);
    case Tick(now) => BusyTickIdle(s, now, at);
    case _ =>
  }

  lemma {:induction false} NextIsExact(w: World, e: Event)
    requires ClockIsExact(w) && IdleClock(w.s) && Able(w.s, e.step)
    ensures ClockIsExact(After(w, e))
  {
    hide Next;
    IdleMoves(w.s, e.step, e.at);
    var log := After(w, e).log;
    assert log[..|log| - 1] == w.log;
  }

  // ---- whole runs ---------------------------------------------------------------------------------------------------

  ghost predicate Sound(w: World) {
    && OneWarmup(w.s.loading) && InStep(w.s) && StaysDown(w.s) && Consistent(w.s) && ClockIsExact(w)
  }

  lemma {:induction false} AfterIsSound(w: World, e: Event)
    requires Sound(w) && Able(w.s, e.step)
    ensures Sound(After(w, e))
  {
    NextKeepsOne(w.s, e.step, e.at);
    NextInStep(w.s, e.step, e.at);
    NextStaysDown(w.s, e.step, e.at);
    NextIsConsistent(w.s, e.step, e.at);
    NextIsExact(w, e);
    hide Next, OneWarmup, InStep, StaysDown, Consistent, ClockIsExact;
  }

  lemma {:induction false} StartIsSound(cfg: Config, start: real)
    ensures Sound(World(Engine.Start(cfg, start), [Entry(start, false)]))
  {
  }

  lemma {:induction false} RunIsSound(cfg: Config, start: real, events: seq<Event>)
    ensures Sound(Run(cfg, start, events))
  {
    hide Sound, After, Able, Engine.Start;
    if events == [] {
      StartIsSound(cfg, start);
    } else {
      RunIsSound(cfg, start, events[..|events| - 1]);
      var w := Run(cfg, start, events[..|events| - 1]);
      if Able(w.s, events[|events| - 1].step) {
        AfterIsSound(w, events[|events| - 1]);
      }
    }
  }

  /** In every interleaving at most one warm-up is uncommitted, and it is the loader. */
  lemma {:induction false} OneWarmupAtATime(cfg: Config, start: real, events: seq<Event>)
    ensures var l := Run(cfg, start, events).s.loading;
            l.threads.Keys == (if l.loader.Some? then {l.loader.value} else {})
  {
    RunIsSound(cfg, start, events);
  }

  /** At every release of the lock: the recorded plate demand is the demand, the plate
      clock runs exactly while a reader is loaded and unwanted, and a live pipeline
      holds exactly the engine's plate reader and runs on the engine's detector. */
  lemma {:induction false} ReadersFollowDemand(cfg: Config, start: real, events: seq<Event>)
    ensures var s := Run(cfg, start, events).s;
            && s.demand.plates == PlatesWanted(s)
            && (s.clocks.plates.Some? <==> s.models.plates.Some? && !PlatesWanted(s))
            && (s.models.pipeline.Some? ==> s.models.pipeline.value.plates == s.models.plates
                                            && s.models.detector == Some(s.models.pipeline.value.detector))
  {
    RunIsSound(cfg, start, events);
  }

  lemma {:induction false} BusyTickKeepsPipeline(s: State, now: real, at: real)
    ensures AfterBusyTick(s, now, at).models.pipeline.Some? == s.models.pipeline.Some?
  {
    BusyTickKeepsDetector(s, now, at);
  }

  /** A reaper pass releases a loaded pipeline exactly when the cameras have all been
      gone for the timeout; and then no camera was registered at any instant of it. */
  lemma {:induction false} HibernatesExactly(cfg: Config, start: real, events: seq<Event>, now: real, at: real)
    requires var s := Run(cfg, start, events).s; s.models.pipeline.Some? && Able(s, Tick(now))
    ensures var w := Run(cfg, start, events);
            var w' := After(w, Event(Tick(now), at));
            && w.log != []
            && (w'.s.models.pipeline.None? <==> w.s.cameras == map[] && now - QuietStart(w.log) >= cfg.timeout)
            && (w'.s.models.pipeline.None? ==>
                  forall t :: t >= now - cfg.timeout ==> !BusyAt(w.log, t) && !BusyAt(w'.log, t))
  {
    RunIsSound(cfg, start, events);
    RunKeepsConfig(cfg, start, events);
    var w := Run(cfg, start, events);
    var e := Event(Tick(now), at);
    BusyTickKeepsPipeline(w.s, now, at);
    AfterIsSound(w, e);
    var w' := After(w, e);
    hide Run, AfterBusyTick, InStep, Consistent, OneWarmup, StaysDown;
    if w'.s.models.pipeline.None? {
      assert w.s.cameras == map[] && w'.s.cameras == map[];
      assert w'.log[..|w.log|] == w.log;
      assert QuietStart(w'.log) == QuietStart(w.log);
      forall t | t >= now - cfg.timeout
        ensures !BusyAt(w.log, t) && !BusyAt(w'.log, t)
      {
        QuietSinceStart(w.log, t);
        QuietSinceStart(w'.log, t);
      }
    }
  }

  lemma {:induction false} NextKeepsConfig(s: State, step: Step, at: real)
    requires Able(s, step)
    ensures Next(s, step, at).cfg == s.cfg
  {
    hide Asks, AnyWork, NeedsWarmup, JobOf, InstallPipeline, ReleaseFaces;
  }

  lemma {:induction false} RunKeepsConfig(cfg: Config, start: real, events: seq<Event>)
    ensures Run(cfg, start, events).s.cfg == cfg
  {
    hide Next;
    if events != [] {
      RunKeepsConfig(cfg, start, events[..|events| - 1]);
      var w := Run(cfg, start, events[..|events| - 1]);
      if Able(w.s, events[|events| - 1].step) {
        NextKeepsConfig(w.s, events[|events| - 1].step, events[|events| - 1].at);
      }
    }
  }

  lemma {:induction false} RunStaysDown(cfg: Config, start: real, events: seq<Event>, more: seq<Event>)
    requires Run(cfg, start, events).s.stopping.TornDown?
    ensures Run(cfg, start, events + more).s.stopping.TornDown?
  {
    hide Next;
    if more == [] {
      assert events + more == events;
    } else {
      var init := more[..|more| - 1];
      RunStaysDown(cfg, start, events, init);
      RunIsSound(cfg, start, events + init);
      assert (events + more)[..|events + more| - 1] == events + init;
      var w := Run(cfg, start, events + init);
      var e := more[|more| - 1];
      if Able(w.s, e.step) {
        NextStaysDown(w.s, e.step, e.at);
      }
    }
  }

  /** Once stop has torn the engine down, whatever still happens - a warm-up committing,
      a camera added, a reaper pass - no pipeline, detector, plate reader or activity
      pipeline is there again. */
  lemma {:induction false} NothingComesBack(cfg: Config, start: real, events: seq<Event>, more: seq<Event>)
    requires Run(cfg, start, events).s.stopping.TornDown?
    ensures Empty(Run(cfg, start, events + more).s.models)
  {
    RunStaysDown(cfg, start, events, more);
    RunIsSound(cfg, start, events + more);
  }

  // ---- the face reader ------------------------------------------------------------------------------------

  ghost predicate FacesAgree(m: Models) {
    m.pipeline.Some? ==> m.pipeline.value.faces == m.faces
  }

  /** The load lands after its demand has gone. */
  predicate LandsUnwanted(s: State, job: Job, b: Built) {
    s.stopping.Up? && job.wantFaces && b.faces.Some? && !FacesWanted(s)
  }

  lemma {:induction false} NoteFacesAgrees(s: State, at: real)
    requires FacesAgree(s.models)
    ensures FacesAgree(NoteFaces(s).models) && FacesAgree(NotePlates(s, at).models)
            && FacesAgree(NoteActivity(s, at).models)
  {
    hide Asks, AnyWork;
  }

  lemma {:induction false} DropsAgree(s: State, now: real)
    requires FacesAgree(s.models)
    ensures FacesAgree(DropPlates(s, now).models) && FacesAgree(DropActivity(s, now).models)
  {
    hide Asks, AnyWork, Expired;
  }

  lemma {:induction false} NotesKeepFaces(s: State, now: real, at: real)
    requires FacesAgree(s.models)
    ensures FacesAgree(NoteAll(s, at).models)
    ensures FacesAgree(DropActivity(NoteActivity(DropPlates(NoteFaces(NotePlates(s, at)), now), at), now).models)
  {
    hide NotePlates, NoteFaces, NoteActivity, DropPlates, DropActivity, FacesAgree;
    NoteFacesAgrees(s, at);
    NoteFacesAgrees(NotePlates(s, at), at);
    NoteFacesAgrees(NoteActivity(NotePlates(s, at), at), at);
    var f := NoteFaces(NotePlates(s, at));
    DropsAgree(f, now);
    NoteFacesAgrees(DropPlates(f, now), at);
    DropsAgree(NoteActivity(DropPlates(f, now), at), now);
  }

  lemma {:induction false} OthersKeepFaces(s: State, step: Step, at: real)
    requires FacesAgree(s.models) && Able(s, step) && !step.Commit?
    ensures FacesAgree(Next(s, step, at).models)
  {
    hide NoteAll, EnsureModels, NotePlates, NoteFaces, NoteActivity, DropPlates, DropActivity, JobOf;
    match step
    case Add(slug, domains, work) =>
      NotesKeepFaces(Registered(s, slug, domains, work), at, at);
      EnsureKeepsRest(NoteAll(Registered(s, slug, domains, work), at), at);
    case Remove(slug) =>
      NotesKeepFaces(s.(cameras := s.cameras - {slug}), at, at);
    case Tick(now) =>
      var q := s.(clocks := s.clocks.(idle := None));
      EnsureKeepsRest(q, at);
      NotesKeepFaces(EnsureModels(q, at), now, at);
    case _ =>
  }

  lemma {:induction false} FacesInstalled(m: Models, job: Job, b: Built)
    requires FacesAgree(m) || (job.wantFaces && b.faces.Some?)
    ensures var n := InstallPipeline(m, job, b);
            n.faces == m.faces
            && (n.pipeline.Some? ==>
                  n.pipeline.value.faces == if job.wantFaces && b.faces.Some? then b.faces else m.faces)
  {
  }

  /** The step commits a face reader nobody wants any more. */
  predicate Strays(s: State, step: Step) {
    Able(s, step) && step.Commit? && LandsUnwanted(s, s.loading.threads[step.id].job, step.built)
  }

  lemma {:induction false} StepFacesAgree(s: State, step: Step, at: real)
    requires FacesAgree(s.models) && Consistent(s) && InStep(s) && Able(s, step)
    ensures FacesAgree(Next(s, step, at).models) <==> !Strays(s, step)
  {
    if step.Commit? {
      CommitFaces(s, step.id, s.loading.threads[step.id].job, step.built, at);
    } else {
      OthersKeepFaces(s, step, at);
    }
  }

  /** The pipeline's face reader is the engine's after each of the first n steps. */
  ghost predicate FacesAgreeTo(cfg: Config, start: real, events: seq<Event>, n: nat)
    requires n <= |events|
  {
    forall k: nat :: k <= n ==> FacesAgree(Run(cfg, start, events[..k]).s.models)
  }

  /** None of the first n steps strays. */
  ghost predicate NoneStrays(cfg: Config, start: real, events: seq<Event>, n: nat)
    requires n <= |events|
  {
    forall k: nat :: k < n ==> !Strays(Run(cfg, start, events[..k]).s, events[k].step)
  }

  lemma {:induction false} RunThen(cfg: Config, start: real, events: seq<Event>, n: nat)
    requires n < |events|
    ensures var w := Run(cfg, start, events[..n]);
            Run(cfg, start, events[..n + 1]) == if Able(w.s, events[n].step) then After(w, events[n]) else w
  {
    assert events[..n + 1][..n] == events[..n];
  }

  lemma {:induction false} FacesAgreeThen(cfg: Config, start: real, events: seq<Event>, n: nat)
    requires n < |events| && FacesAgree(Run(cfg, start, events[..n]).s.models)
    ensures FacesAgree(Run(cfg, start, events[..n + 1]).s.models)
            <==> !Strays(Run(cfg, start, events[..n]).s, events[n].step)
  {
    RunThen(cfg, start, events, n);
    RunIsSound(cfg, start, events[..n]);
    hide Run, Next, FacesAgree, Strays, Able;
    var s := Run(cfg, start, events[..n]).s;
    if Able(s, events[n].step) {
      StepFacesAgree(s, events[n].step, events[n].at);
    } else {
      assert !Strays(s, events[n].step) by {
        StraysIsAble(s, events[n].step);
      }
    }
  }

  lemma {:induction false} StraysIsAble(s: State, step: Step)
    ensures Strays(s, step) ==> Able(s, step)
  {
  }

  lemma {:induction false} FacesAgreeTogether(cfg: Config, start: real, events: seq<Event>, n: nat)
    requires n <= |events|
    ensures FacesAgreeTo(cfg, start, events, n) <==> NoneStrays(cfg, start, events, n)
  {
    hide Run, Strays, FacesAgree;
    if n == 0 {
      assert events[..0] == [];
      StartFacesAgree(cfg, start);
    } else {
      FacesAgreeTogether(cfg, start, events, n - 1);
      if FacesAgreeTo(cfg, start, events, n - 1) {
        FacesAgreeThen(cfg, start, events, n - 1);
      }
    }
  }

  lemma {:induction false} StartFacesAgree(cfg: Config, start: real)
    ensures FacesAgree(Run(cfg, start, []).s.models)
  {
  }

  /** Over any run, the pipeline's face reader is the engine's after every step exactly
      when no step commits a face reader nobody wants any more: such a commit releases it
      from the engine and then hands it to the pipeline. */
  lemma {:induction false} FacesAgreeExactly(cfg: Config, start: real, events: seq<Event>)
    ensures (forall k: nat :: k <= |events| ==> FacesAgree(Run(cfg, start, events[..k]).s.models))
            <==> (forall k: nat :: k < |events| ==> !Strays(Run(cfg, start, events[..k]).s, events[k].step))
  {
    hide Run, Strays, FacesAgree;
    FacesAgreeTogether(cfg, start, events, |events|);
  }

  lemma {:induction false} CommitFaces(s: State, id: nat, job: Job, b: Built, at: real)
    requires FacesAgree(s.models) && SameDetector(s.models) && JobStands(s.models, Building(job))
    requires FaceDemand(s)
    ensures FacesAgree(AfterCommit(s, id, job, b, at).models) <==> !LandsUnwanted(s, job, b)
  {
    hide Asks, AnyWork;
    CommitSameDetector(s, id, job, b, at);
    var t := InstallPlates(InstallFaces(s, job, b), job, b, at);
    assert t.models.faces
        == if job.wantFaces && b.faces.Some? then (if FacesWanted(s) then b.faces else None) else s.models.faces;
    FacesInstalled(t.models, job, b);
    hide InstallPipeline;
  }

  function FaceSite(): Config {
    Config(true, false, true, false, 600.0, 60.0)
  }

  /** A camera asks for faces, and a warm-up is spawned for it. */
  function Asked(): State {
    var s := Engine.Start(FaceSite(), 0.0);
    s.(cameras := map["door" := Camera({Face}, false)], demand := s.demand.(faces := true),
       clocks := s.clocks.(idle := None), loading := Loading(Some(0), map[0 := Spawned], 1), phase := WarmingUp)
  }

  function Wanting(): Job {
    Job(true, false, false, true, None)
  }

  /** The warm-up is building; the camera has left meanwhile. */
  function Left(): State {
    Asked().(cameras := map[], demand := Asked().demand.(faces := false), clocks := Clocks(Some(3.0), None, None),
             loading := Loading(Some(0), map[0 := Building(Wanting())], 1))
  }

  lemma {:induction false} NobodyAsks(cameras: map<string, Camera>)
    requires cameras == map[]
    ensures !Asks(cameras, Plate) && !Asks(cameras, Face) && !AnyWork(cameras)
  {
  }

  lemma {:induction false} DoorAsks(cameras: map<string, Camera>)
    requires cameras == map["door" := Camera({Face}, false)]
    ensures !Asks(cameras, Plate) && Asks(cameras, Face) && !AnyWork(cameras)
  {
    assert "door" in cameras && Face in cameras["door"].domains;
  }

  lemma {:induction false} DoorIsAdded()
    ensures AfterAdd(Engine.Start(FaceSite(), 0.0), "door", {Face}, None, 1.0) == Asked()
  {
    DoorAsks(map["door" := Camera({Face}, false)]);
    hide Asks, AnyWork;
    assert map[]["door" := Camera({Face}, false)] == map["door" := Camera({Face}, false)];
  }

  lemma {:induction false} DoorIsWarming()
    ensures Able(Asked(), Begin(0))
    ensures AfterBegin(Asked(), 0) == Asked().(loading := Loading(Some(0), map[0 := Building(Wanting())], 1))
  {
    DoorAsks(map["door" := Camera({Face}, false)]);
    hide Asks, AnyWork;
    assert map[0 := Spawned][0 := Building(Wanting())] == map[0 := Building(Wanting())];
  }

  lemma {:induction false} DoorLeaves()
    ensures AfterRemove(AfterBegin(Asked(), 0), "door", 3.0) == Left()
  {
    DoorIsWarming();
    NobodyAsks(map[]);
    hide Asks, AnyWork, AfterBegin;
    assert map["door" := Camera({Face}, false)] - {"door"} == map[];
  }

  function Landing(): Built {
    Built(1, None, 2, Some(9))
  }

  /** A camera that asks for faces comes, its warm-up begins, it goes, the load lands. */
  function Visit(): seq<Event> {
    [Event(Add("door", {Face}, None), 1.0), Event(Begin(0), 2.0), Event(Remove("door"), 3.0),
     Event(Commit(0, Landing()), 4.0)]
  }

  lemma {:induction false} VisitEnds()
    ensures Run(FaceSite(), 0.0, Visit()[..3]).s == Left()
  {
    DoorIsAdded();
    DoorIsWarming();
    DoorLeaves();
    RunThen(FaceSite(), 0.0, Visit(), 0);
    RunThen(FaceSite(), 0.0, Visit(), 1);
    RunThen(FaceSite(), 0.0, Visit(), 2);
    assert Visit()[..0] == [];
    assert Run(FaceSite(), 0.0, []).s == Engine.Start(FaceSite(), 0.0);
    hide Run, AfterAdd, AfterBegin, AfterRemove, Asked, Left, FaceSite;
  }

  lemma {:induction false} LandingStrays()
    ensures Able(Left(), Commit(0, Landing())) && Strays(Left(), Commit(0, Landing()))
    ensures var m := AfterCommit(Left(), 0, Wanting(), Landing(), 4.0).models;
            m.faces == None && m.pipeline == Some(Pipeline(1, None, Some(9)))
  {
    NobodyAsks(map[]);
    hide Asks, AnyWork;
  }

  /** The face reader lands after its camera left: the engine lets it go and the new
      pipeline keeps it. */
  lemma {:induction false} FaceReaderIsLeftBehind()
    ensures var m := Run(FaceSite(), 0.0, Visit()).s.models;
            m.faces == None && m.pipeline == Some(Pipeline(1, None, Some(9)))
  {
    VisitEnds();
    LandingStrays();
    RunThen(FaceSite(), 0.0, Visit(), 3);
    assert Visit()[..4] == Visit();
    hide Run, AfterCommit, FaceSite, AfterAdd, AfterBegin, AfterRemove, Asked;
  }
}
