/** frame_source.py: every callback one notice makes and every counter it moves, told from the
    notice's fields, from who registered for its camera and from the frame read. */
module SubscriberCallbacks {
  import opened Subscriber

  // ---- what one notice makes -----------------------------------------------------------------------

  /** All the callbacks of one arrival, in order: a change of scene first, for any camera either
      consumer registered; the activity path's frame, for its cameras, whatever the verdict; then
      for a camera Smart Search wants either the frame, unless the verdict is null, or the note
      that it was gated, which is made unread when the activity path does not ask. */
  lemma {:induction false} EveryCallback(s: State, a: Arrival)
    ensures var n, frame := a.notice, FrameRead(s, a);
            var wanted := n.camera in s.wanted;
            var watched := s.hears.activity && n.camera in s.everyFrame;
            EffectsOf(s, a)
            == (if (wanted || watched) && !n.motion.baselineValid && s.hears.discontinuity
                then [Discontinuity(n.camera)] else [])
               + (if watched && frame.Some? then [ToActivity(n.camera, frame.value, n.ts)] else [])
               + (match n.motion.regions
                  case Null =>
                    if wanted && s.hears.gated && (frame.Some? || !watched) then [Gated(n.camera)] else []
                  case _ =>
                    if wanted && frame.Some? then [ToSearch(n.camera, frame.value, n.ts, n.motion)] else [])
  {
    hide FrameRead;
  }

  function SearchCount(effects: seq<Effect>): nat {
    if effects == [] then 0
    else SearchCount(effects[..|effects| - 1]) + (if effects[|effects| - 1].ToSearch? then 1 else 0)
  }

  function ActivityCount(effects: seq<Effect>): nat {
    if effects == [] then 0
    else ActivityCount(effects[..|effects| - 1]) + (if effects[|effects| - 1].ToActivity? then 1 else 0)
  }

  function GatedCount(effects: seq<Effect>): nat {
    if effects == [] then 0 else GatedCount(effects[..|effects| - 1]) + (if effects[|effects| - 1].Gated? then 1 else 0)
  }

  lemma {:induction false} CountsThen(effects: seq<Effect>, e: Effect)
    ensures SearchCount(effects + [e]) == SearchCount(effects) + (if e.ToSearch? then 1 else 0)
    ensures ActivityCount(effects + [e]) == ActivityCount(effects) + (if e.ToActivity? then 1 else 0)
    ensures GatedCount(effects + [e]) == GatedCount(effects) + (if e.Gated? then 1 else 0)
  {
    assert (effects + [e])[..|effects|] == effects;
  }

  lemma {:induction false} CountsJoin(a: seq<Effect>, b: seq<Effect>)
    ensures SearchCount(a + b) == SearchCount(a) + SearchCount(b)
    ensures ActivityCount(a + b) == ActivityCount(a) + ActivityCount(b)
    ensures GatedCount(a + b) == GatedCount(a) + GatedCount(b)
  {
    if b == [] {
      assert a + b == a;
    } else {
      var init, e := b[..|b| - 1], b[|b| - 1];
      assert a + b == (a + init) + [e] && b == init + [e];
      CountsThen(a + init, e);
      CountsThen(init, e);
      CountsJoin(a, init);
    }
  }

  lemma {:induction false} CountsOfOne(e: Effect)
    ensures SearchCount([e]) == (if e.ToSearch? then 1 else 0)
    ensures ActivityCount([e]) == (if e.ToActivity? then 1 else 0)
    ensures GatedCount([e]) == (if e.Gated? then 1 else 0)
    ensures SearchCount([]) == 0 && ActivityCount([]) == 0 && GatedCount([]) == 0
  {
    CountsThen([], e);
    assert [] + [e] == [e];
  }

  /** Smart Search is handed exactly one frame of a wanted camera whose frame can be read and
      whose regions are absent or any list of boxes, and none otherwise. */
  lemma {:induction false} SearchGetsItsFrames(s: State, a: Arrival)
    ensures var n, frame := a.notice, FrameRead(s, a);
            var due := n.camera in s.wanted && frame.Some? && !n.motion.regions.Null?;
            && SearchCount(EffectsOf(s, a)) == (if due then 1 else 0)
            && (due ==> ToSearch(n.camera, frame.value, n.ts, n.motion) in EffectsOf(s, a))
  {
    EveryCallback(s, a);
    EffectCounts(s, a);
  }

  lemma {:induction false} EffectCounts(s: State, a: Arrival)
    ensures var n, frame, effects := a.notice, FrameRead(s, a), EffectsOf(s, a);
            var wanted := n.camera in s.wanted;
            var watched := s.hears.activity && n.camera in s.everyFrame;
            && SearchCount(effects) == (if wanted && frame.Some? && !n.motion.regions.Null? then 1 else 0)
            && ActivityCount(effects) == (if watched && frame.Some? then 1 else 0)
            && GatedCount(effects)
               == (if wanted && n.motion.regions.Null? && s.hears.gated && (frame.Some? || !watched) then 1 else 0)
  {
    EveryCallback(s, a);
    hide EffectsOf, FrameRead, SearchCount, ActivityCount, GatedCount;
    var n, frame := a.notice, FrameRead(s, a);
    var wanted := n.camera in s.wanted;
    var watched := s.hears.activity && n.camera in s.everyFrame;
    var first := if (wanted || watched) && !n.motion.baselineValid && s.hears.discontinuity
                 then [Discontinuity(n.camera)] else [];
    var second := if watched && frame.Some? then [ToActivity(n.camera, frame.value, n.ts)] else [];
    var third := if n.motion.regions.Null?
                 then (if wanted && s.hears.gated && (frame.Some? || !watched) then [Gated(n.camera)] else [])
                 else if wanted && frame.Some? then [ToSearch(n.camera, frame.value, n.ts, n.motion)] else [];
    assert EffectsOf(s, a) == first + second + third;
    CountsJoin(first + second, third);
    CountsJoin(first, second);
    CountsOfOne(if first == [] then Gated("") else first[0]);
    CountsOfOne(if second == [] then Gated("") else second[0]);
    CountsOfOne(if third == [] then Gated("") else third[0]);
  }

  // ---- what it counts -------------------------------------------------------------------------------------

  /** Every arrival is seen; one nobody registered for is ignored; one whose slot could be
      mapped and not read is refused; and the rest of the counters count the callbacks, the
      gated notes also when nobody listens for them. */
  lemma {:induction false} ArrivalCounts(s: State, a: Arrival)
    ensures var n, frame := a.notice, FrameRead(s, a);
            var t, effects := After(s, Handle(a)), EffectsOf(s, a);
            var wanted := n.camera in s.wanted;
            var watched := s.hears.activity && n.camera in s.everyFrame;
            var noted := wanted && n.motion.regions.Null? && (frame.Some? || !watched);
            var tried := watched || (wanted && !n.motion.regions.Null?);
            && t.counters.seen == s.counters.seen + 1
            && t.counters.ignored == s.counters.ignored + (if wanted || watched then 0 else 1)
            && t.counters.delivered == s.counters.delivered + SearchCount(effects)
            && t.counters.activity == s.counters.activity + ActivityCount(effects)
            && t.counters.gated == s.counters.gated + (if noted then 1 else 0)
            && (s.hears.gated ==> t.counters.gated == s.counters.gated + GatedCount(effects))
            && t.counters.refused
               == s.counters.refused + (if tried && frame.None? && ReaderFor(s, a).Some? then 1 else 0)
            && t.wanted == s.wanted && t.everyFrame == s.everyFrame && t.hears == s.hears
  {
    EffectCounts(s, a);
    hide EffectsOf, SearchCount, ActivityCount, GatedCount;
  }

  /** All the callbacks of a run, in order. */
  function Callbacks(s: State, ops: seq<Op>): seq<Effect>
    decreases |ops|
  {
    if ops == [] then [] else Effects(s, ops[0]) + Callbacks(After(s, ops[0]), ops[1..])
  }

  function Onward(s: State, ops: seq<Op>): State
    decreases |ops|
  {
    if ops == [] then s else Onward(After(s, ops[0]), ops[1..])
  }

  lemma {:induction false} OthersCount(s: State, op: Op)
    requires !op.Handle?
    ensures After(s, op).counters == s.counters && After(s, op).hears == s.hears && Effects(s, op) == []
  {
  }

  /** Over any run, the frames delivered, the frames given to the activity path and, when they
      are listened for, the gated notes are as many as their counters say. */
  lemma {:induction false} CountersCountCallbacks(s: State, ops: seq<Op>)
    ensures var t, effects := Onward(s, ops), Callbacks(s, ops);
            && t.counters.delivered == s.counters.delivered + SearchCount(effects)
            && t.counters.activity == s.counters.activity + ActivityCount(effects)
            && (s.hears.gated ==> t.counters.gated == s.counters.gated + GatedCount(effects))
    decreases |ops|
  {
    hide EffectsOf, SearchCount, ActivityCount, GatedCount, AfterArrival;
    CountsOfOne(Gated(""));
    if ops != [] {
      var s', rest := After(s, ops[0]), ops[1..];
      CountersCountCallbacks(s', rest);
      CountsJoin(Effects(s, ops[0]), Callbacks(s', rest));
      if ops[0].Handle? {
        ArrivalCounts(s, ops[0].arrival);
      } else {
        OthersCount(s, ops[0]);
      }
    }
  }
}
