/** frame_source.py: BrokerSubscriber, which hands each camera's frames to two
    consumers: Smart Search, gated by the broker's motion verdict, and the activity
    path, which takes every frame of the cameras it registered. */
module Subscriber {
  import Seqlock
  import RingRestarts

  type Camera = string
  type Shape = RingRestarts.Shape
  type Frame = Seqlock.Frame
  datatype Option<T> = None | Some(value: T)

  /** The `regions` field of a notice: missing, null, or a list of boxes. */
  datatype Regions = Absent | Null | Boxes(boxes: seq<seq<int>>)

  /** A missing motion block reads as a valid baseline and absent regions. */
  datatype Motion = Motion(baselineValid: bool, regions: Regions)

  datatype Notice = Notice(camera: Camera, motion: Motion, shape: Shape, slot: nat, seqNo: nat, ts: real)

  /** A notice with the state of the files when it is handled: the file its camera's
      path opens, and the frame a read of its slot and number gives from each file
      (a file not listed refuses the read). */
  datatype Arrival = Arrival(notice: Notice, path: Option<nat>, stable: map<nat, Frame>)

  datatype Mapped = Mapped(key: Shape, file: nat)

  /** The callbacks made, in order. */
  datatype Effect =
    | Discontinuity(camera: Camera)
    | Gated(camera: Camera)
    | ToActivity(camera: Camera, frame: Frame, ts: real)
    | ToSearch(camera: Camera, frame: Frame, ts: real, motion: Motion)

  /** Which optional callbacks were given. */
  datatype Hears = Hears(discontinuity: bool, gated: bool, activity: bool)

  datatype Counters = Counters(seen: nat, ignored: nat, delivered: nat, refused: nat, gated: nat, activity: nat)

  datatype State = State(
    hears: Hears, wanted: set<Camera>, everyFrame: set<Camera>, readers: map<Camera, Mapped>, counters: Counters)

  datatype Op =
    | Want(camera: Camera)
    | Unwant(camera: Camera)
    | WantEveryFrame(camera: Camera)
    | UnwantEveryFrame(camera: Camera)
    | Handle(arrival: Arrival)

  // ---- one operation ---------------------------------------------------------------------

  function Start(hears: Hears): State {
    State(hears, {}, {}, map[], Counters(0, 0, 0, 0, 0, 0))
  }

  /** Found no motion worth detecting on. Absent regions are not gated. */
  predicate GatedOut(m: Motion) {
    m.regions.Null?
  }

  predicate Searched(s: State, c: Camera) { c in s.wanted }

  predicate Watched(s: State, c: Camera) { c in s.everyFrame && s.hears.activity }

  /** The mapping a notice is read through: the cached one under the same shape, or a
      new one of whatever the path opens. */
  function ReaderFor(s: State, a: Arrival): Option<Mapped> {
    var n := a.notice;
    if n.camera in s.readers && s.readers[n.camera].key == n.shape then Some(s.readers[n.camera])
    else if a.path.None? then None
    else Some(Mapped(n.shape, a.path.value))
  }

  function FrameFrom(a: Arrival, m: Mapped): Option<Frame> {
    if m.file in a.stable then Some(a.stable[m.file]) else None
  }

  function Discontinuities(s: State, n: Notice): seq<Effect> {
    if !n.motion.baselineValid && s.hears.discontinuity then [Discontinuity(n.camera)] else []
  }

  function NotedGated(s: State, c: Camera): seq<Effect> {
    if s.hears.gated then [Gated(c)] else []
  }

  /** What the two consumers are given of a frame that was read. */
  function Deliveries(s: State, n: Notice, frame: Frame): seq<Effect> {
    (if Watched(s, n.camera) then [ToActivity(n.camera, frame, n.ts)] else [])
    + (if !Searched(s, n.camera) then []
       else if GatedOut(n.motion) then NotedGated(s, n.camera)
       else [ToSearch(n.camera, frame, n.ts, n.motion)])
  }

  function CountSeen(s: State): State {
    s.(counters := s.counters.(seen := s.counters.seen + 1))
  }

  function CountDeliveries(s: State, n: Notice): Counters {
    s.counters.(
      activity := s.counters.activity + (if Watched(s, n.camera) then 1 else 0),
      gated := s.counters.gated + (if Searched(s, n.camera) && GatedOut(n.motion) then 1 else 0),
      delivered := s.counters.delivered + (if Searched(s, n.camera) && !GatedOut(n.motion) then 1 else 0))
  }

  /** Dropped unread: nobody's camera, or gated and only Smart Search's. */
  predicate Unread(s: State, n: Notice) {
    !Watched(s, n.camera) && (!Searched(s, n.camera) || GatedOut(n.motion))
  }

  function AfterUnread(s: State, n: Notice): State {
    if Searched(s, n.camera) then s.(counters := s.counters.(gated := s.counters.gated + 1))
    else s.(counters := s.counters.(ignored := s.counters.ignored + 1))
  }

  function AfterRead(s: State, a: Arrival): State {
    var found := ReaderFor(s, a);
    if found.None? then s
    else
      var mapped := s.(readers := s.readers[a.notice.camera := found.value]);
      if FrameFrom(a, found.value).None? then mapped.(counters := s.counters.(refused := s.counters.refused + 1))
      else mapped.(counters := CountDeliveries(s, a.notice))
  }

  function AfterArrival(s: State, a: Arrival): State {
    if Unread(s, a.notice) then AfterUnread(CountSeen(s), a.notice) else AfterRead(CountSeen(s), a)
  }

  function FrameRead(s: State, a: Arrival): Option<Frame> {
    var found := ReaderFor(s, a);
    if found.None? then None else FrameFrom(a, found.value)
  }

  function EffectsOf(s: State, a: Arrival): seq<Effect> {
    var n := a.notice;
    if !Searched(s, n.camera) && !Watched(s, n.camera) then []
    else if Unread(s, n) then Discontinuities(s, n) + NotedGated(s, n.camera)
    else
      var frame := FrameRead(s, a);
      Discontinuities(s, n) + (if frame.None? then [] else Deliveries(s, n, frame.value))
  }

  /** A camera neither consumer wants any more gives its mapping back. */
  function DropReader(s: State, c: Camera, kept: bool): State {
    if kept then s else s.(readers := s.readers - {c})
  }

  function After(s: State, op: Op): State {
    match op
    case Want(c) => s.(wanted := s.wanted + {c})
    case Unwant(c) => DropReader(s.(wanted := s.wanted - {c}), c, c in s.everyFrame)
    case WantEveryFrame(c) => s.(everyFrame := s.everyFrame + {c})
    case UnwantEveryFrame(c) => DropReader(s.(everyFrame := s.everyFrame - {c}), c, c in s.wanted)
    case Handle(a) => AfterArrival(s, a)
  }

  function Effects(s: State, op: Op): seq<Effect> {
    match op
    case Handle(a) => EffectsOf(s, a)
    case _ => []
  }

  // ---- what Smart Search is told -----------------------------------------------------------

  /** The part of the effects that Smart Search acts on, for the cameras it wants. */
  function Heard(s: State, effects: seq<Effect>): seq<Effect> {
    if effects == [] then []
    else
      var e := effects[0];
      (if e.ToSearch? || (e.Discontinuity? && e.camera in s.wanted) then [e] else []) + Heard(s, effects[1..])
  }

  /** Frames and scene changes Smart Search gets over a run. */
  function SearchStream(s: State, ops: seq<Op>): seq<Effect>
    decreases |ops|
  {
    if ops == [] then []
    else Heard(s, Effects(s, ops[0])) + SearchStream(After(s, ops[0]), ops[1..])
  }

  predicate ForActivity(op: Op) {
    op.WantEveryFrame? || op.UnwantEveryFrame?
  }

  /** The same run with nobody registered for every frame. */
  function SearchOnly(ops: seq<Op>): seq<Op> {
    if ops == [] then []
    else if ForActivity(ops[0]) then SearchOnly(ops[1..])
    else [ops[0]] + SearchOnly(ops[1..])
  }

  /** Each notice is handled while its camera's path opens the one file that goes with
      its shape and epoch. */
  predicate AtHome(home: map<(Camera, Shape), nat>, op: Op) {
    op.Handle? ==>
      var n := op.arrival.notice;
      (n.camera, n.shape) in home && op.arrival.path == Some(home[(n.camera, n.shape)])
  }

  predicate AllAtHome(home: map<(Camera, Shape), nat>, ops: seq<Op>) {
    forall i :: 0 <= i < |ops| ==> AtHome(home, ops[i])
  }

  /** Every mapping held is of the file that goes with its shape. */
  predicate Homed(home: map<(Camera, Shape), nat>, s: State) {
    forall c :: c in s.readers ==> (c, s.readers[c].key) in home && s.readers[c].file == home[(c, s.readers[c].key)]
  }

  // ---- noninterference ----------------------------------------------------------------------

  lemma {:induction false} HomedFrame(home: map<(Camera, Shape), nat>, s: State, a: Arrival)
    requires Homed(home, s) && AtHome(home, Handle(a))
    ensures var file := home[(a.notice.camera, a.notice.shape)];
            FrameRead(s, a) == if file in a.stable then Some(a.stable[file]) else None
  {
  }

  lemma {:induction false} StaysHomed(home: map<(Camera, Shape), nat>, s: State, op: Op)
    requires Homed(home, s) && AtHome(home, op)
    ensures Homed(home, After(s, op))
  {
  }

  lemma {:induction false} HeardAppend(s: State, x: seq<Effect>, y: seq<Effect>)
    ensures Heard(s, x + y) == Heard(s, x) + Heard(s, y)
  {
    if x == [] {
      assert x + y == y;
    } else {
      assert (x + y)[1..] == x[1..] + y;
      HeardAppend(s, x[1..], y);
    }
  }

  lemma {:induction false} HeardOne(s: State, e: Effect)
    ensures Heard(s, [e]) == if e.ToSearch? || (e.Discontinuity? && e.camera in s.wanted) then [e] else []
  {
    assert [e][1..] == [];
  }

  /** What Smart Search hears of one arrival, in terms of what it wants and the frame read. */
  function Told(s: State, n: Notice, frame: Option<Frame>): seq<Effect> {
    if !Searched(s, n.camera) then []
    else Discontinuities(s, n)
         + (if GatedOut(n.motion) || frame.None? then [] else [ToSearch(n.camera, frame.value, n.ts, n.motion)])
  }

  lemma {:induction false} HeardDeliveries(s: State, n: Notice, frame: Frame)
    ensures Heard(s, Deliveries(s, n, frame))
            == if Searched(s, n.camera) && !GatedOut(n.motion) then [ToSearch(n.camera, frame, n.ts, n.motion)] else []
  {
    HeardAppend(s, if Watched(s, n.camera) then [ToActivity(n.camera, frame, n.ts)] else [],
                if !Searched(s, n.camera) then []
                else if GatedOut(n.motion) then NotedGated(s, n.camera)
                else [ToSearch(n.camera, frame, n.ts, n.motion)]);
    HeardOne(s, ToActivity(n.camera, frame, n.ts));
    HeardOne(s, Gated(n.camera));
    HeardOne(s, ToSearch(n.camera, frame, n.ts, n.motion));
  }

  lemma {:induction false} HeardDiscontinuities(s: State, n: Notice)
    ensures Heard(s, Discontinuities(s, n)) == if Searched(s, n.camera) then Discontinuities(s, n) else []
  {
    HeardOne(s, Discontinuity(n.camera));
  }

  /** The activity path's registrations do not show in what Smart Search hears of an arrival. */
  lemma {:induction false} HeardIsTold(s: State, a: Arrival)
    ensures Heard(s, EffectsOf(s, a)) == Told(s, a.notice, FrameRead(s, a))
  {
    var n := a.notice;
    HeardDiscontinuities(s, n);
    if !Unread(s, n) {
      var frame := FrameRead(s, a);
      HeardAppend(s, Discontinuities(s, n), if frame.None? then [] else Deliveries(s, n, frame.value));
      if frame.Some? {
        HeardDeliveries(s, n, frame.value);
      }
    } else if Searched(s, n.camera) {
      HeardAppend(s, Discontinuities(s, n), NotedGated(s, n.camera));
      HeardOne(s, Gated(n.camera));
    }
  }

  /** Two subscribers that differ only in what the activity path asked for, and in the
      mappings they happen to hold. */
  predicate Alike(s: State, t: State) {
    s.hears == t.hears && s.wanted == t.wanted
  }

  /** One arrival is heard alike exactly when Smart Search was not due the frame, or both
      read the same one. */
  lemma {:induction false} ArrivalHeardAlike(s: State, t: State, a: Arrival)
    requires Alike(s, t)
    ensures Heard(s, EffectsOf(s, a)) == Heard(t, EffectsOf(t, a))
            <==> (Searched(s, a.notice.camera) && !GatedOut(a.notice.motion) ==> FrameRead(s, a) == FrameRead(t, a))
  {
    hide EffectsOf, FrameRead;
    HeardIsTold(s, a);
    HeardIsTold(t, a);
    var n := a.notice;
    var f, g := FrameRead(s, a), FrameRead(t, a);
    if Searched(s, n.camera) && !GatedOut(n.motion) && f != g {
      var at := |Discontinuities(s, n)|;
      assert f.Some? && g.Some? ==> Told(s, n, f)[at] != Told(t, n, g)[at];
    }
  }

  lemma {:induction false} StaysAlike(s: State, t: State, op: Op)
    requires Alike(s, t)
    ensures Alike(After(s, op), After(t, op))
    ensures ForActivity(op) ==> Alike(After(s, op), t)
  {
  }

  lemma {:induction false} SameHearing(home: map<(Camera, Shape), nat>, s: State, t: State, op: Op)
    requires Alike(s, t) && Homed(home, s) && Homed(home, t) && AtHome(home, op)
    ensures Heard(s, Effects(s, op)) == Heard(t, Effects(t, op))
  {
    hide EffectsOf, FrameRead, Homed;
    if op.Handle? {
      HeardIsTold(s, op.arrival);
      HeardIsTold(t, op.arrival);
      HomedFrame(home, s, op.arrival);
      HomedFrame(home, t, op.arrival);
    }
  }

  lemma {:induction false} SameStream(home: map<(Camera, Shape), nat>, s: State, t: State, ops: seq<Op>)
    requires Alike(s, t) && Homed(home, s) && Homed(home, t) && AllAtHome(home, ops)
    ensures SearchStream(s, ops) == SearchStream(t, SearchOnly(ops))
    decreases |ops|
  {
    if ops != [] {
      var op := ops[0];
      assert AtHome(home, op);
      StaysHomed(home, s, op);
      StaysAlike(s, t, op);
      if ForActivity(op) {
        SameStream(home, After(s, op), t, ops[1..]);
      } else {
        StaysHomed(home, t, op);
        SameHearing(home, s, t, op);
        SameStream(home, After(s, op), After(t, op), ops[1..]);
        assert SearchOnly(ops)[0] == op && SearchOnly(ops)[1..] == SearchOnly(ops[1..]);
      }
    }
  }

  /** While every notice is handled with its own ring at the path, the frames and scene
      changes handed to Smart Search are the same, in the same order, whether or not
      cameras are also registered for every-frame delivery. */
  lemma {:induction false} SearchIsUndisturbed(home: map<(Camera, Shape), nat>, hears: Hears, ops: seq<Op>)
    requires AllAtHome(home, ops)
    ensures SearchStream(Start(hears), ops) == SearchStream(Start(hears), SearchOnly(ops))
  {
    SameStream(home, Start(hears), Start(hears), ops);
  }

  // ---- exactly when the two runs are heard alike -----------------------------------------------------

  /** A run from the start, or the same run alone: without the activity path's operations. */
  datatype Course = Course(hears: Hears, ops: seq<Op>, alone: bool)

  /** The state after n operations. */
  function At(r: Course, n: nat): State
    requires n <= |r.ops|
  {
    if n == 0 then Start(r.hears)
    else if r.alone && ForActivity(r.ops[n - 1]) then At(r, n - 1)
    else After(At(r, n - 1), r.ops[n - 1])
  }

  /** What Smart Search hears at operation i. */
  function HeardAt(r: Course, i: nat): seq<Effect>
    requires i < |r.ops|
  {
    Heard(At(r, i), Effects(At(r, i), r.ops[i]))
  }

  function HeardFrom(r: Course, n: nat): seq<Effect>
    requires n <= |r.ops|
    decreases |r.ops| - n
  {
    if n == |r.ops| then [] else HeardAt(r, n) + HeardFrom(r, n + 1)
  }

  lemma {:induction false} StreamIsHeard(r: Course, n: nat)
    requires n <= |r.ops|
    ensures SearchStream(At(r, n), if r.alone then SearchOnly(r.ops[n..]) else r.ops[n..]) == HeardFrom(r, n)
    decreases |r.ops| - n
  {
    if n < |r.ops| {
      hide After, EffectsOf, Heard;
      var rest := r.ops[n..];
      assert rest[0] == r.ops[n] && rest[1..] == r.ops[n + 1..];
      StreamIsHeard(r, n + 1);
      if r.alone && ForActivity(r.ops[n]) {
        assert HeardAt(r, n) == [] by {
          NothingHeard(At(r, n));
        }
      } else if r.alone {
        OneMoreOp(At(r, n), [rest[0]] + SearchOnly(rest[1..]));
      }
    }
  }

  lemma {:induction false} NothingHeard(s: State)
    ensures Heard(s, []) == []
  {
  }

  /** Whether Smart Search wants the camera, by the operations before n. */
  predicate WantedBy(ops: seq<Op>, n: nat, c: Camera)
    requires n <= |ops|
  {
    n > 0 && (ops[n - 1] == Want(c) || (ops[n - 1] != Unwant(c) && WantedBy(ops, n - 1, c)))
  }

  /** Whether the activity path has the camera registered, by the operations before n. */
  predicate EveryBy(ops: seq<Op>, n: nat, c: Camera)
    requires n <= |ops|
  {
    n > 0 && (ops[n - 1] == WantEveryFrame(c) || (ops[n - 1] != UnwantEveryFrame(c) && EveryBy(ops, n - 1, c)))
  }

  predicate Arrives(r: Course, i: nat, c: Camera)
    requires i < |r.ops|
  {
    r.ops[i].Handle? && r.ops[i].arrival.notice.camera == c
  }

  /** Smart Search is due the frame of the notice at i. */
  predicate DueAt(r: Course, i: nat)
    requires i < |r.ops|
  {
    r.ops[i].Handle?
    && var n := r.ops[i].arrival.notice;
       WantedBy(r.ops, i, n.camera) && !GatedOut(n.motion)
  }

  /** An arrival of the camera whose slot is read, found with a ring at the path. */
  predicate Opens(r: Course, i: nat, c: Camera)
    requires i < |r.ops|
  {
    && Arrives(r, i, c) && r.ops[i].arrival.path.Some?
    && (DueAt(r, i) || (!r.alone && r.hears.activity && EveryBy(r.ops, i, c)))
  }

  /** The last consumer lets the camera go. */
  predicate GivesUp(r: Course, i: nat, c: Camera)
    requires i < |r.ops|
  {
    || (r.ops[i] == Unwant(c) && (r.alone || !EveryBy(r.ops, i, c)))
    || (r.ops[i] == UnwantEveryFrame(c) && !r.alone && !WantedBy(r.ops, i, c))
  }

  /** Two arrivals of rings of one shape and epoch. */
  predicate SameShape(r: Course, j: nat, k: nat)
    requires j < |r.ops| && k < |r.ops|
  {
    r.ops[j].Handle? && r.ops[k].Handle? && r.ops[j].arrival.notice.shape == r.ops[k].arrival.notice.shape
  }

  /** From the arrival j to n the camera is never given up, and no arrival of it opens
      a ring of another shape. */
  predicate Stretches(r: Course, c: Camera, j: nat, n: nat)
    requires j < n <= |r.ops|
  {
    && Opens(r, j, c)
    && forall k: nat :: j < k < n ==>
         !GivesUp(r, k, c) && (Opens(r, k, c) ==> SameShape(r, j, k))
  }

  function FirstFrom(r: Course, c: Camera, j: nat, n: nat): (m: Option<nat>)
    requires j <= n <= |r.ops|
    ensures m.Some? ==> j <= m.value < n && Stretches(r, c, m.value, n) && Opens(r, m.value, c)
    ensures forall k: nat :: j <= k < n && (m.None? || k < m.value) ==> !Stretches(r, c, k, n)
    decreases n - j
  {
    if j == n then None else if Stretches(r, c, j, n) then Some(j) else FirstFrom(r, c, j + 1, n)
  }

  /** The arrival whose mapping is held after n operations: the first read one of the
      current stretch of one shape, since the camera was last given up. */
  function Mapper(r: Course, n: nat, c: Camera): Option<nat>
    requires n <= |r.ops|
  {
    FirstFrom(r, c, 0, n)
  }

  /** The frame of the notice at i, read from the file its mapper found at the path. */
  function FrameThrough(r: Course, i: nat): Option<Frame>
    requires i < |r.ops|
  {
    if !r.ops[i].Handle? then None
    else
      var a := r.ops[i].arrival;
      var m := Mapper(r, i + 1, a.notice.camera);
      if m.None? || !SameShape(r, m.value, i) then None
      else
        var file := r.ops[m.value].arrival.path.value;
        if file in a.stable then Some(a.stable[file]) else None
  }

  lemma {:induction false} MapperIs(r: Course, c: Camera, m: Option<nat>, n: nat)
    requires n <= |r.ops|
    requires m.Some? ==> m.value < n && Stretches(r, c, m.value, n)
    requires forall k: nat :: k < n && (m.None? || k < m.value) ==> !Stretches(r, c, k, n)
    ensures Mapper(r, n, c) == m
  {
    hide Stretches;
  }

  lemma {:induction false} StretchesOn(r: Course, c: Camera, j: nat, n: nat)
    requires j < n < |r.ops|
    ensures Stretches(r, c, j, n + 1)
            <==> Stretches(r, c, j, n) && !GivesUp(r, n, c)
                 && (Opens(r, n, c) ==> SameShape(r, j, n))
  {
    hide Opens, GivesUp;
  }

  lemma {:induction false} StretchBegins(r: Course, c: Camera, n: nat)
    requires n < |r.ops|
    ensures Stretches(r, c, n, n + 1) <==> Opens(r, n, c)
    ensures Opens(r, n, c) ==> !GivesUp(r, n, c)
  {
  }

  /** All the stretches that reach n are of one shape. */
  lemma {:induction false} OneShape(r: Course, c: Camera, j: nat, k: nat, n: nat)
    requires j < k < n <= |r.ops| && Stretches(r, c, j, n) && Stretches(r, c, k, n)
    ensures SameShape(r, j, k)
  {
    hide Opens, GivesUp;
  }

  lemma {:induction false} MapperThen(r: Course, n: nat, c: Camera)
    requires n < |r.ops|
    ensures var m := Mapper(r, n, c);
            Mapper(r, n + 1, c)
            == if GivesUp(r, n, c) then None
               else if Opens(r, n, c) && (m.None? || !SameShape(r, m.value, n)) then Some(n)
               else m
  {
    hide Stretches, Opens, GivesUp;
    var m, next := Mapper(r, n, c), n + 1;
    StretchBegins(r, c, n);
    forall k: nat | k < n
      ensures Stretches(r, c, k, next)
              <==> Stretches(r, c, k, n) && !GivesUp(r, n, c)
                   && (Opens(r, n, c) ==> SameShape(r, k, n))
    {
      StretchesOn(r, c, k, n);
    }
    forall k: nat | k < n && Stretches(r, c, k, n)
      ensures m.Some? && (k == m.value || SameShape(r, m.value, k))
    {
      if m.Some? && m.value < k {
        OneShape(r, c, m.value, k, n);
      }
    }
    var m' := if GivesUp(r, n, c) then None
              else if Opens(r, n, c) && (m.None? || !SameShape(r, m.value, n)) then Some(n)
              else m;
    assert forall k: nat :: k < next && Stretches(r, c, k, next) ==> m'.Some? && m'.value <= k;
    MapperIs(r, c, m', next);
  }

  /** Who is registered is what the operations say. */
  lemma {:induction false} RegisteredAt(r: Course, n: nat, c: Camera)
    requires n <= |r.ops|
    ensures var s := At(r, n);
            && s.hears == r.hears && (c in s.wanted <==> WantedBy(r.ops, n, c))
            && (c in s.everyFrame <==> !r.alone && EveryBy(r.ops, n, c))
  {
    if n > 0 {
      RegisteredAt(r, n - 1, c);
    }
  }

  /** The mapping the operations say is held for the camera. */
  predicate HoldsBy(r: Course, s: State, n: nat, c: Camera)
    requires n <= |r.ops|
  {
    var m := Mapper(r, n, c);
    && (c in s.readers <==> m.Some?)
    && (m.Some? ==>
          var made := r.ops[m.value].arrival;
          s.readers[c] == Mapped(made.notice.shape, made.path.value))
  }

  lemma {:induction false} OpenedAt(r: Course, n: nat, c: Camera)
    requires n < |r.ops| && Arrives(r, n, c)
    ensures Opens(r, n, c)
            <==> !Unread(At(r, n), r.ops[n].arrival.notice) && r.ops[n].arrival.path.Some?
    ensures !GivesUp(r, n, c)
  {
    RegisteredAt(r, n, c);
    hide At;
  }

  lemma {:induction false} HandleHolds(r: Course, n: nat, c: Camera)
    requires n < |r.ops| && HoldsBy(r, At(r, n), n, c) && Arrives(r, n, c)
    ensures HoldsBy(r, At(r, n + 1), n + 1, c)
  {
    MapperThen(r, n, c);
    OpenedAt(r, n, c);
    assert At(r, n + 1) == AfterArrival(At(r, n), r.ops[n].arrival);
    hide At, Mapper, Opens, GivesUp;
  }

  lemma {:induction false} OtherHolds(r: Course, n: nat, c: Camera)
    requires n < |r.ops| && HoldsBy(r, At(r, n), n, c) && !Arrives(r, n, c)
    ensures HoldsBy(r, At(r, n + 1), n + 1, c)
  {
    MapperThen(r, n, c);
    RegisteredAt(r, n, c);
    assert !Opens(r, n, c);
    hide Mapper, Opens;
  }

  /** The mapping held after n operations is the mapper's. */
  lemma {:induction false} HoldsAt(r: Course, n: nat, c: Camera)
    requires n <= |r.ops|
    ensures HoldsBy(r, At(r, n), n, c)
  {
    if n > 0 {
      HoldsAt(r, n - 1, c);
      hide HoldsBy;
      if Arrives(r, n - 1, c) {
        HandleHolds(r, n - 1, c);
      } else {
        OtherHolds(r, n - 1, c);
      }
    }
  }

  lemma {:induction false} ReadThrough(r: Course, i: nat)
    requires i < |r.ops| && DueAt(r, i)
    ensures FrameRead(At(r, i), r.ops[i].arrival) == FrameThrough(r, i)
  {
    var c := r.ops[i].arrival.notice.camera;
    HoldsAt(r, i, c);
    MapperThen(r, i, c);
    OpenedAt(r, i, c);
    assert Opens(r, i, c) <==> r.ops[i].arrival.path.Some?;
    hide At, Mapper, Opens, GivesUp;
  }

  lemma {:induction false} DueIsSearched(r: Course, i: nat)
    requires i < |r.ops| && r.ops[i].Handle?
    ensures var n := r.ops[i].arrival.notice;
            DueAt(r, i) <==> Searched(At(r, i), n.camera) && !GatedOut(n.motion)
  {
    RegisteredAt(r, i, r.ops[i].arrival.notice.camera);
  }

  lemma {:induction false} CoursesAlike(hears: Hears, ops: seq<Op>, n: nat)
    requires n <= |ops|
    ensures Alike(At(Course(hears, ops, false), n), At(Course(hears, ops, true), n))
  {
    if n > 0 {
      CoursesAlike(hears, ops, n - 1);
    }
  }

  lemma {:induction false} OperationHeardAlike(hears: Hears, ops: seq<Op>, i: nat)
    requires i < |ops|
    ensures var both, alone := Course(hears, ops, false), Course(hears, ops, true);
            HeardAt(both, i) == HeardAt(alone, i)
            <==> (DueAt(both, i) ==> FrameThrough(both, i) == FrameThrough(alone, i))
  {
    var both, alone := Course(hears, ops, false), Course(hears, ops, true);
    hide At, FrameThrough, FrameRead, EffectsOf;
    CoursesAlike(hears, ops, i);
    if ops[i].Handle? {
      ArrivalHeardAlike(At(both, i), At(alone, i), ops[i].arrival);
      DueIsSearched(both, i);
      if DueAt(both, i) {
        ReadThrough(both, i);
        ReadThrough(alone, i);
      }
    } else {
      NothingHeard(At(both, i));
      NothingHeard(At(alone, i));
    }
  }

  /** Operation by operation, Smart Search hears the same with the activity path as
      without it exactly when, for every notice it is due, the file found by the arrival
      that mapped its ring in the one run gives the same frame as the file found by the
      arrival that mapped it in the other. */
  lemma {:induction false} HeardAlikeExactly(hears: Hears, ops: seq<Op>)
    ensures var both, alone := Course(hears, ops, false), Course(hears, ops, true);
            (forall i: nat :: i < |ops| ==> HeardAt(both, i) == HeardAt(alone, i))
            <==> (forall i: nat :: i < |ops| && DueAt(both, i) ==> FrameThrough(both, i) == FrameThrough(alone, i))
  {
    hide HeardAt, DueAt, FrameThrough;
    forall i: nat | i < |ops|
      ensures var both, alone := Course(hears, ops, false), Course(hears, ops, true);
              HeardAt(both, i) == HeardAt(alone, i)
              <==> (DueAt(both, i) ==> FrameThrough(both, i) == FrameThrough(alone, i))
    {
      OperationHeardAlike(hears, ops, i);
    }
  }

  /** Heard operation by operation, a run is its stream, and alone the stream of what is
      left of it. */
  lemma {:induction false} StreamsAreHeard(hears: Hears, ops: seq<Op>)
    ensures SearchStream(Start(hears), ops) == HeardFrom(Course(hears, ops, false), 0)
    ensures SearchStream(Start(hears), SearchOnly(ops)) == HeardFrom(Course(hears, ops, true), 0)
  {
    assert ops[0..] == ops;
    StreamIsHeard(Course(hears, ops, false), 0);
    StreamIsHeard(Course(hears, ops, true), 0);
  }

  // ---- the activity path ------------------------------------------------------------------------

  function HeardByActivity(effects: seq<Effect>): seq<Effect> {
    if effects == [] then []
    else (if effects[0].ToActivity? then [effects[0]] else []) + HeardByActivity(effects[1..])
  }

  lemma {:induction false} ActivityAppend(x: seq<Effect>, y: seq<Effect>)
    ensures HeardByActivity(x + y) == HeardByActivity(x) + HeardByActivity(y)
  {
    if x == [] {
      assert x + y == y;
    } else {
      var first := if x[0].ToActivity? then [x[0]] else [];
      assert (x + y)[0] == x[0] && (x + y)[1..] == x[1..] + y;
      ActivityAppend(x[1..], y);
      assert HeardByActivity(x + y) == first + (HeardByActivity(x[1..]) + HeardByActivity(y));
      assert HeardByActivity(x) == first + HeardByActivity(x[1..]);
      Associates(first, HeardByActivity(x[1..]), HeardByActivity(y));
    }
  }

  lemma {:induction false} Associates(a: seq<Effect>, b: seq<Effect>, c: seq<Effect>)
    ensures a + (b + c) == (a + b) + c
  {
  }

  lemma {:induction false} ActivityOne(e: Effect)
    ensures HeardByActivity([e]) == if e.ToActivity? then [e] else []
  {
    assert [e][1..] == [];
  }

  lemma {:induction false} ActivityDeliveries(s: State, n: Notice, frame: Frame)
    ensures HeardByActivity(Deliveries(s, n, frame))
            == if Watched(s, n.camera) then [ToActivity(n.camera, frame, n.ts)] else []
  {
    ActivityAppend(if Watched(s, n.camera) then [ToActivity(n.camera, frame, n.ts)] else [],
                   if !Searched(s, n.camera) then []
                   else if GatedOut(n.motion) then NotedGated(s, n.camera)
                   else [ToSearch(n.camera, frame, n.ts, n.motion)]);
    ActivityOne(ToActivity(n.camera, frame, n.ts));
    ActivityOne(Gated(n.camera));
    ActivityOne(ToSearch(n.camera, frame, n.ts, n.motion));
  }

  /** The activity path is given every frame that can be read of the cameras it
      registered, whatever the motion verdict and whether or not Smart Search wants them. */
  lemma {:induction false} ActivityGetsEveryFrame(s: State, a: Arrival)
    ensures HeardByActivity(EffectsOf(s, a))
         == if Watched(s, a.notice.camera) && FrameRead(s, a).Some?
            then [ToActivity(a.notice.camera, FrameRead(s, a).value, a.notice.ts)] else []
  {
    hide FrameRead, Deliveries;
    var n := a.notice;
    ActivityOne(Discontinuity(n.camera));
    ActivityOne(Gated(n.camera));
    ActivityAppend(Discontinuities(s, n), NotedGated(s, n.camera));
    if !Unread(s, n) && FrameRead(s, a).Some? {
      ActivityDeliveries(s, n, FrameRead(s, a).value);
      ActivityAppend(Discontinuities(s, n), Deliveries(s, n, FrameRead(s, a).value));
    }
    assert Discontinuities(s, n) + [] == Discontinuities(s, n);
  }

  // ---- why the ring must still be at the path ----------------------------------------------------

  function Ring(): Shape { RingRestarts.Shape(1, 2, 0) }

  /** A still notice that finds its ring, and a moving one after that ring was removed. */
  function LateRun(): seq<Op> {
    [Want("gate"), WantEveryFrame("gate"),
     Handle(Arrival(Notice("gate", Motion(true, Null), Ring(), 1, 1, 0.0), Some(0), map[0 := [7]])),
     Handle(Arrival(Notice("gate", Motion(true, Boxes([])), Ring(), 0, 2, 0.2), None, map[0 := [8]]))]
  }

  function Both(): State {
    Start(Hears(true, true, true)).(wanted := {"gate"}, everyFrame := {"gate"})
  }

  lemma {:induction false} OneMoreOp(s: State, ops: seq<Op>)
    requires ops != []
    ensures SearchStream(s, ops) == Heard(s, Effects(s, ops[0])) + SearchStream(After(s, ops[0]), ops[1..])
  {
  }

  lemma {:induction false} LateRunWithActivity(ops: seq<Op>)
    requires ops == LateRun()[2..]
    ensures SearchStream(Both(), ops) == [ToSearch("gate", [8], 0.2, Motion(true, Boxes([])))]
  {
    var s := Both();
    HeardIsTold(s, ops[0].arrival);
    var s' := After(s, ops[0]);
    assert s'.readers == map["gate" := Mapped(Ring(), 0)];
    assert FrameRead(s', ops[1].arrival) == Some([8]);
    HeardIsTold(s', ops[1].arrival);
    OneMoreOp(s, ops);
    OneMoreOp(s', ops[1..]);
    assert ops[1..][1..] == [];
  }

  lemma {:induction false} LateRunAlone(ops: seq<Op>)
    requires ops == LateRun()[2..]
    ensures SearchStream(Both().(everyFrame := {}), ops) == []
  {
    var s := Both().(everyFrame := {});
    HeardIsTold(s, ops[0].arrival);
    var s' := After(s, ops[0]);
    assert s'.readers == map[];
    HeardIsTold(s', ops[1].arrival);
    OneMoreOp(s, ops);
    OneMoreOp(s', ops[1..]);
    assert ops[1..][1..] == [];
  }

  /** The activity path maps the ring on the still notice, so the moving one is read
      from it after the file is gone. Without the activity path the ring was never
      mapped and the frame is lost. */
  lemma {:induction false} EarlyMappingShows()
    ensures SearchStream(Start(Hears(true, true, true)), LateRun())
            == [ToSearch("gate", [8], 0.2, Motion(true, Boxes([])))]
    ensures SearchStream(Start(Hears(true, true, true)), SearchOnly(LateRun())) == []
  {
    var s := Start(Hears(true, true, true));
    var ops := LateRun();
    var last := ops[2..];
    var w := After(s, ops[0]);
    assert After(w, ops[1]) == Both();
    OneMoreOp(s, ops);
    OneMoreOp(w, ops[1..]);
    assert ops[1..][1..] == last;
    LateRunWithActivity(last);
    assert w == Both().(everyFrame := {});
    LateRunAlone(last);
    OnlyFour(ops);
    OneMoreOp(s, [ops[0]] + last);
    assert ([ops[0]] + last)[1..] == last;
  }

  lemma {:induction false} OnlyFour(ops: seq<Op>)
    requires |ops| == 4 && !ForActivity(ops[0]) && ForActivity(ops[1]) && !ForActivity(ops[2]) && !ForActivity(ops[3])
    ensures SearchOnly(ops) == [ops[0]] + ops[2..]
  {
    assert ops[1..][0] == ops[1] && ops[1..][1..] == ops[2..];
    assert ops[2..][0] == ops[2] && ops[2..][1..] == ops[3..];
    assert ops[3..][0] == ops[3] && ops[3..][1..] == [];
    assert SearchOnly(ops[3..]) == [ops[3]];
    assert SearchOnly(ops[2..]) == [ops[2]] + [ops[3]] == ops[2..];
    assert SearchOnly(ops[1..]) == SearchOnly(ops[2..]);
  }

  // ---- the subscriber ------------------------------------------------------------------------------

  class BrokerSubscriber {
    const hears: Hears
    var wanted: set<Camera>
    var everyFrame: set<Camera>
    var readers: map<Camera, Mapped>
    var seen: nat
    var ignored: nat
    var delivered: nat
    var refused: nat
    var gatedUnread: nat
    var activity: nat

    function View(): State
      reads this
    {
      State(hears, wanted, everyFrame, readers, Counters(seen, ignored, delivered, refused, gatedUnread, activity))
    }

    constructor (hears: Hears)
      ensures View() == Start(hears)
    {
      this.hears := hears;
      wanted, everyFrame, readers := {}, {}, map[];
      seen, ignored, delivered, refused, gatedUnread, activity := 0, 0, 0, 0, 0, 0;
    }

    method Want(c: Camera)
      modifies this
      ensures View() == After(old(View()), Op.Want(c))
    {
      wanted := wanted + {c};
    }

    method Unwant(c: Camera)
      modifies this
      ensures View() == After(old(View()), Op.Unwant(c))
    {
      wanted := wanted - {c};
      if c !in everyFrame {
        readers := readers - {c};
      }
    }

    method WantEveryFrame(c: Camera)
      modifies this
      ensures View() == After(old(View()), Op.WantEveryFrame(c))
    {
      everyFrame := everyFrame + {c};
    }

    method UnwantEveryFrame(c: Camera)
      modifies this
      ensures View() == After(old(View()), Op.UnwantEveryFrame(c))
    {
      everyFrame := everyFrame - {c};
      if c !in wanted {
        readers := readers - {c};
      }
    }

    /** The reader for a notice, mapped now unless it is held already. */
    method Open(c: Camera, shape: Shape, path: Option<nat>) returns (found: Option<Mapped>)
      modifies `readers
      ensures found == if c in old(readers) && old(readers)[c].key == shape then Some(old(readers)[c])
                       else if path.None? then None else Some(Mapped(shape, path.value))
      ensures readers == if found.Some? then old(readers)[c := found.value] else old(readers)
    {
      if c in readers && readers[c].key == shape {
        assert readers[c := readers[c]] == readers;
        return Some(readers[c]);
      }
      if path.None? {
        return None;
      }
      readers := readers[c := Mapped(shape, path.value)];
      return Some(readers[c]);
    }

    method NoteGated(c: Camera) returns (told: seq<Effect>)
      modifies `gatedUnread
      ensures gatedUnread == old(gatedUnread) + 1 && told == NotedGated(old(View()), c)
    {
      gatedUnread := gatedUnread + 1;
      told := if hears.gated then [Gated(c)] else [];
    }

    /** One notice: who is told what, in order, and what is counted. */
    method Handle(a: Arrival) returns (told: seq<Effect>)
      modifies this
      ensures View() == After(old(View()), Op.Handle(a))
      ensures told == Effects(old(View()), Op.Handle(a))
    {
      var n := a.notice;
      seen := seen + 1;
      var search := n.camera in wanted;
      var every := n.camera in everyFrame && hears.activity;
      if !(search || every) {
        ignored := ignored + 1;
        return [];
      }
      told := if !n.motion.baselineValid && hears.discontinuity then [Discontinuity(n.camera)] else [];
      var gated := GatedOut(n.motion);
      if gated && !every {
        var noted := NoteGated(n.camera);
        return told + noted;
      }
      var more := Read(a, search, every, gated);
      told := told + more;
    }

    /** Reads the notice's slot and hands on what comes of it. */
    method Read(a: Arrival, search: bool, every: bool, gated: bool) returns (told: seq<Effect>)
      requires search == Searched(View(), a.notice.camera) && every == Watched(View(), a.notice.camera)
      requires gated == GatedOut(a.notice.motion)
      modifies this
      ensures View() == AfterRead(old(View()), a)
      ensures told == var frame := FrameRead(old(View()), a);
                      if frame.None? then [] else Deliveries(old(View()), a.notice, frame.value)
    {
      var found := Open(a.notice.camera, a.notice.shape, a.path);
      if found.None? {
        return [];
      }
      if found.value.file !in a.stable {
        refused := refused + 1;
        return [];
      }
      told := Deliver(a.notice, a.stable[found.value.file], search, every, gated);
    }

    /** Hands a frame that was read to whoever is due it. */
    method Deliver(n: Notice, frame: Frame, search: bool, every: bool, gated: bool) returns (told: seq<Effect>)
      requires search == Searched(View(), n.camera) && every == Watched(View(), n.camera) && gated == GatedOut(n.motion)
      modifies `delivered, `gatedUnread, `activity
      ensures View() == old(View()).(counters := CountDeliveries(old(View()), n))
      ensures told == Deliveries(old(View()), n, frame)
    {
      told := [];
      if every {
        activity := activity + 1;
        told := [ToActivity(n.camera, frame, n.ts)];
      }
      if !search {
        return;
      }
      if gated {
        var noted := NoteGated(n.camera);
        return told + noted;
      }
      delivered := delivered + 1;
      told := told + [ToSearch(n.camera, frame, n.ts, n.motion)];
    }
  }
}
