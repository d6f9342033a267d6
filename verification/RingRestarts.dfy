/** ring.py and frame_source.py: one camera's ring file replaced again and again by
    a restarting broker, under a subscriber that maps it by the epoch its notices name.

    Incarnation j of the ring is `rings[j]`, and j stands for its creation time: each
    incarnation is a fresh file with a later epoch, made where the path names no file,
    and the path opens the last one. */
module RingRestarts {
  import opened Seqlock

  /** What a notice says about the ring, and where in it the frame is. */
  datatype Shape = Shape(size: nat, slots: nat, epoch: nat)
  datatype Notice = Notice(shape: Shape, slot: nat, seqNo: nat)

  /** A mapped ring: the file behind the mapping and the shape it is filed under. */
  datatype Mapped = Mapped(key: Shape, file: nat)

  /** A notice being handled through a mapping of `file`; reader 0 of that ring is ours. */
  datatype Handling = Handling(notice: Notice, file: nat)

  datatype Delivery = Delivery(notice: Notice, file: nat, frame: Frame)

  datatype World = World(
    rings: seq<Ring>, linked: bool, cache: Option<Mapped>, handling: Option<Handling>, delivered: seq<Delivery>)

  datatype Move =
    | RingStep(file: nat, step: Step)
    | Restart(slots: nat, size: nat)
    | Unlink
    | Unwant
    | Handle(notice: Notice)
    | Copy(i: nat)
    | Finish

  // ---- opening a ring -------------------------------------------------------------------------

  /** The cached mapping when its shape is the notice's; otherwise whatever the path
      opens now, filed under the notice's shape. No file at the path, or a file too
      short for the mapping asked for, and the notice is dropped. */
  function ReaderFor(w: World, key: Shape): Option<Mapped> {
    if w.cache.Some? && w.cache.value.key == key then w.cache
    else if !w.linked || w.rings == [] then None
    else
      var live := |w.rings| - 1;
      if key.slots * key.size > w.rings[live].slots * w.rings[live].size then None
      else Some(Mapped(key, live))
  }

  /** The broker sends a notice after the frame it names was completed in its ring. */
  ghost predicate Issued(w: World, n: Notice) {
    && n.shape.epoch < |w.rings|
    && var r := w.rings[n.shape.epoch];
       && Shaped(r) && r.size == n.shape.size && r.slots == n.shape.slots
       && n.seqNo >= 1 && n.seqNo in r.stable && n.slot == SlotOf(n.seqNo, r.slots)
  }

  // ---- what every move keeps -----------------------------------------------------------------

  /** The reader at work is reading what the notice names, or has been refused. */
  ghost predicate ReadsFor(c: Reader, n: Notice) {
    && c.slot == n.slot && c.size == n.shape.size && c.want == n.seqNo
    && (c.Done? ==> c.result.None?)
  }

  /** Until its slot is taken again, a notice read from its own ring is still being copied. */
  ghost predicate Pending(r: Ring, c: Reader, n: Notice) {
    r.last < n.seqNo + r.slots ==> c.Copying?
  }

  ghost predicate HandlingOk(w: World, h: Handling) {
    && h.notice.shape.epoch <= h.file < |w.rings| && Issued(w, h.notice)
    && var r := w.rings[h.file];
       && 0 in r.readers && ReadsFor(r.readers[0], h.notice)
       && (h.file == h.notice.shape.epoch ==> Pending(r, r.readers[0], h.notice))
  }

  ghost predicate FrameOf(r: Ring, seqNo: nat, frame: Frame) {
    seqNo in r.stable && seqNo in r.begun && r.begun[seqNo] == frame
  }

  /** The delivered frame is the whole frame its ring published with the notice's
      number, exactly when that ring has the frame size the notice speaks of. */
  ghost predicate DeliveryOk(w: World, d: Delivery) {
    && d.notice.shape.epoch <= d.file < |w.rings| && Issued(w, d.notice)
    && |d.frame| == d.notice.shape.size
    && (w.rings[d.file].size == d.notice.shape.size ==> FrameOf(w.rings[d.file], d.notice.seqNo, d.frame))
  }

  /** A completed publication is a frame of the ring's own size. */
  ghost predicate WellSized(r: Ring) {
    forall k :: k in r.stable ==> k in r.begun && |r.begun[k]| == r.size
  }

  ghost predicate RingOk(r: Ring) {
    Inv(r) && WellSized(r)
  }

  ghost predicate Sound(w: World) {
    && (forall j :: 0 <= j < |w.rings| ==> RingOk(w.rings[j]))
    && (w.cache.Some? ==> w.cache.value.key.epoch <= w.cache.value.file < |w.rings|)
    && (w.handling.Some? ==> HandlingOk(w, w.handling.value))
    && (forall d :: 0 <= d < |w.delivered| ==> DeliveryOk(w, w.delivered[d]))
  }

  // ---- the moves --------------------------------------------------------------------------------

  predicate Writes(step: Step) {
    step.Begin? || step.CopyByte? || step.End? || step.Abort?
  }

  /** Reader 0 of a ring is ours alone. */
  predicate Spares(step: Step) {
    Writes(step) || step.id != 0
  }

  /** The reader a notice is being read with. */
  ghost function Ours(w: World): Reader
    requires w.handling.Some? && HandlingOk(w, w.handling.value)
  {
    w.rings[w.handling.value.file].readers[0]
  }

  /** Only the running broker writes. */
  ghost predicate Able(w: World, m: Move)
    requires Sound(w)
  {
    match m
    case RingStep(file, step) =>
      file < |w.rings| && Enabled(w.rings[file], step) && Spares(step) && (Writes(step) ==> file == |w.rings| - 1)
    // a closed ring was unlinked; one left behind would be truncated in place
    case Restart(slots, _) => !w.linked && slots >= 2
    case Unlink => true
    case Unwant => w.handling.None?
    case Handle(n) => w.handling.None? && Issued(w, n)
    case Copy(i) => w.handling.Some? && Ours(w).Copying? && i < Ours(w).size
    case Finish => w.handling.Some? && (Ours(w).Copying? ==> Ours(w).got.Keys == Positions(Ours(w).size))
  }

  function WithReader(r: Ring, c: Reader): Ring {
    r.(readers := r.readers[0 := c])
  }

  /** What reader 0 ends with. */
  ghost function Finished(r: Ring, c: Reader): (d: Reader)
    requires c.Copying? ==> c.got.Keys == Positions(c.size)
    ensures d.Done?
  {
    if c.Copying? then EndRead(WordAt(r, c.slot), c) else c
  }

  ghost function AfterHandle(w: World, n: Notice): World
    requires Sound(w)
  {
    var found := ReaderFor(w, n.shape);
    if found.None? then w
    else
      var file := found.value.file;
      var r := w.rings[file];
      var c := BeginRead(WordAt(r, n.slot), n.slot, n.shape.size, n.seqNo);
      w.(rings := w.rings[file := WithReader(r, c)], cache := found, handling := Some(Handling(n, file)))
  }

  ghost function AfterCopy(w: World, i: nat): World
    requires Sound(w) && Able(w, Copy(i))
  {
    var file := w.handling.value.file;
    var r := w.rings[file];
    var c := Ours(w);
    w.(rings := w.rings[file := WithReader(r, c.(got := c.got[i := ByteAt(r, c.slot * c.size + i)]))])
  }

  ghost function AfterFinish(w: World): World
    requires Sound(w) && Able(w, Finish)
  {
    var h := w.handling.value;
    var r := w.rings[h.file];
    var c := Finished(r, Ours(w));
    w.(rings := w.rings[h.file := WithReader(r, c)], handling := None,
       delivered := if c.result.Some? then w.delivered + [Delivery(h.notice, h.file, c.result.value)] else w.delivered)
  }

  ghost function Moved(w: World, m: Move): World
    requires Sound(w) && Able(w, m)
  {
    match m
    case RingStep(file, step) => w.(rings := w.rings[file := Next(w.rings[file], step)])
    case Restart(slots, size) => w.(rings := w.rings + [Fresh(slots, size)], linked := true)
    case Unlink => w.(linked := false)
    case Unwant => w.(cache := None)
    case Handle(n) => AfterHandle(w, n)
    case Copy(i) => AfterCopy(w, i)
    case Finish => AfterFinish(w)
  }

  // ---- preservation -------------------------------------------------------------------------------

  ghost predicate Grows(w: World, w': World) {
    && |w.rings| <= |w'.rings|
    && forall j :: 0 <= j < |w.rings| ==> Shaped(w'.rings[j]) && Extends(w.rings[j], w'.rings[j])
  }

  lemma {:induction false} IssuedGrows(w: World, w': World, n: Notice)
    requires Grows(w, w') && Issued(w, n)
    ensures Issued(w', n)
  {
    assert Extends(w.rings[n.shape.epoch], w'.rings[n.shape.epoch]);
  }

  lemma {:induction false} DeliveriesGrow(w: World, w': World, d: Delivery)
    requires Grows(w, w') && DeliveryOk(w, d)
    ensures DeliveryOk(w', d)
  {
    IssuedGrows(w, w', d.notice);
    assert Extends(w.rings[d.file], w'.rings[d.file]);
  }

  lemma {:induction false} HandlingGrows(w: World, w': World, h: Handling)
    requires Grows(w, w') && HandlingOk(w, h)
    requires 0 in w'.rings[h.file].readers && w'.rings[h.file].readers[0] == w.rings[h.file].readers[0]
    ensures HandlingOk(w', h)
  {
    IssuedGrows(w, w', h.notice);
    assert Extends(w.rings[h.file], w'.rings[h.file]);
  }

  lemma {:induction false} NextKeepsWellSized(r: Ring, step: Step)
    requires RingOk(r) && Enabled(r, step)
    ensures WellSized(Next(r, step))
  {
  }

  lemma {:induction false} SparedReader(r: Ring, step: Step)
    requires Shaped(r) && Enabled(r, step) && Spares(step) && 0 in r.readers
    ensures 0 in Next(r, step).readers && Next(r, step).readers[0] == r.readers[0]
  {
  }

  /** One ring stepping, with our reader left alone. */
  lemma {:induction false} RingStepKeepsSound(w: World, file: nat, step: Step)
    requires Sound(w) && Able(w, RingStep(file, step))
    ensures Sound(Moved(w, RingStep(file, step)))
  {
    var w' := Moved(w, RingStep(file, step));
    NextKeepsInv(w.rings[file], step);
    NextKeepsWellSized(w.rings[file], step);
    NextExtends(w.rings[file], step);
    assert Grows(w, w');
    if w.handling.Some? {
      if w.handling.value.file == file {
        SparedReader(w.rings[file], step);
      }
      HandlingGrows(w, w', w.handling.value);
    }
    forall d | 0 <= d < |w.delivered|
      ensures DeliveryOk(w', w.delivered[d])
    {
      DeliveriesGrow(w, w', w.delivered[d]);
    }
  }

  lemma {:induction false} RestartKeepsSound(w: World, slots: nat, size: nat)
    requires Sound(w) && Able(w, Restart(slots, size))
    ensures Sound(Moved(w, Restart(slots, size)))
  {
    var w' := Moved(w, Restart(slots, size));
    FreshInv(slots, size);
    assert Grows(w, w');
    if w.handling.Some? {
      HandlingGrows(w, w', w.handling.value);
    }
    forall d | 0 <= d < |w.delivered|
      ensures DeliveryOk(w', w.delivered[d])
    {
      DeliveriesGrow(w, w', w.delivered[d]);
    }
  }

  lemma {:induction false} WithReaderOk(r: Ring, c: Reader)
    requires RingOk(r) && ReaderInv(r, c)
    ensures RingOk(WithReader(r, c)) && Extends(r, WithReader(r, c))
  {
    var r' := WithReader(r, c);
    SameHistory(r, r');
    forall s: nat | s < r'.slots
      ensures CellInv(r', s)
    {
      assert CellInv(r, s);
    }
    forall id | id in r'.readers
      ensures ReaderInv(r', r'.readers[id])
    {
      ReaderIgnoresReaders(r, r', r'.readers[id]);
    }
  }

  /** Our reader moves on in its ring: everything already delivered stands. */
  lemma {:induction false} OurReaderMoves(w: World, file: nat, c: Reader, w': World)
    requires Sound(w) && file < |w.rings| && ReaderInv(w.rings[file], c)
    requires w'.rings == w.rings[file := WithReader(w.rings[file], c)]
    ensures Grows(w, w') && forall j :: 0 <= j < |w'.rings| ==> RingOk(w'.rings[j])
    ensures forall d :: 0 <= d < |w.delivered| ==> DeliveryOk(w', w.delivered[d])
  {
    WithReaderOk(w.rings[file], c);
    assert forall j :: 0 <= j < |w.rings| ==> RingOk(w.rings[j]);
    assert Grows(w, w');
    forall d | 0 <= d < |w.delivered|
      ensures DeliveryOk(w', w.delivered[d])
    {
      DeliveriesGrow(w, w', w.delivered[d]);
    }
  }

  lemma {:induction false} BeginReadAnywhere(r: Ring, slot: nat, size: nat, want: nat)
    requires Inv(r)
    ensures ReaderInv(r, BeginRead(WordAt(r, slot), slot, size, want))
  {
    if slot < r.slots {
      ReadBeginOk(r, slot, size, want);
    }
  }

  lemma {:induction false} HandleKeepsSound(w: World, n: Notice)
    requires Sound(w) && Able(w, Handle(n))
    ensures Sound(AfterHandle(w, n))
  {
    var found := ReaderFor(w, n.shape);
    if found.Some? {
      var file := found.value.file;
      var r := w.rings[file];
      var c := BeginRead(WordAt(r, n.slot), n.slot, n.shape.size, n.seqNo);
      var w' := AfterHandle(w, n);
      BeginReadAnywhere(r, n.slot, n.shape.size, n.seqNo);
      OurReaderMoves(w, file, c, w');
      IssuedGrows(w, w', n);
      if file == n.shape.epoch {
        BeginReadExactly(r, n.shape.size, n.seqNo);
      }
      assert HandlingOk(w', Handling(n, file));
    }
  }

  lemma {:induction false} CopyKeepsSound(w: World, i: nat)
    requires Sound(w) && Able(w, Copy(i))
    ensures Sound(AfterCopy(w, i))
  {
    var h := w.handling.value;
    var r := w.rings[h.file];
    var c := Ours(w);
    var w' := AfterCopy(w, i);
    assert ReaderInv(r, c);
    ReadByteOk(r, c, i);
    OurReaderMoves(w, h.file, c.(got := c.got[i := ByteAt(r, c.slot * c.size + i)]), w');
    IssuedGrows(w, w', h.notice);
    assert HandlingOk(w', h);
  }

  lemma {:induction false} FinishedOk(r: Ring, c: Reader)
    requires Inv(r) && ReaderInv(r, c) && (c.Copying? ==> c.got.Keys == Positions(c.size))
    ensures ReaderInv(r, Finished(r, c))
  {
    if c.Copying? {
      ReadEndOk(r, c);
    }
  }

  lemma {:induction false} FinishKeepsSound(w: World)
    requires Sound(w) && Able(w, Finish)
    ensures Sound(AfterFinish(w))
  {
    var h := w.handling.value;
    var r := w.rings[h.file];
    var c := Finished(r, Ours(w));
    var w' := AfterFinish(w);
    FinishedOk(r, Ours(w));
    OurReaderMoves(w, h.file, c, w');
    IssuedGrows(w, w', h.notice);
    if c.result.Some? {
      assert DeliveryOk(w', Delivery(h.notice, h.file, c.result.value));
    }
  }

  lemma {:induction false} MovedKeepsSound(w: World, m: Move)
    requires Sound(w) && Able(w, m)
    ensures Sound(Moved(w, m))
  {
    match m
    case RingStep(file, step) => RingStepKeepsSound(w, file, step);
    case Restart(slots, size) => RestartKeepsSound(w, slots, size);
    case Unlink => SameRings(w, w.(linked := false));
    case Unwant => SameRings(w, w.(cache := None));
    case Handle(n) => HandleKeepsSound(w, n);
    case Copy(i) => CopyKeepsSound(w, i);
    case Finish => FinishKeepsSound(w);
  }

  lemma {:induction false} SameRings(w: World, w': World)
    requires Sound(w) && w' == w.(linked := w'.linked, cache := w'.cache)
    requires w'.cache == w.cache || w'.cache == None
    ensures Sound(w')
  {
    forall d | 0 <= d < |w.delivered|
      ensures DeliveryOk(w', w.delivered[d])
    {
      assert DeliveryOk(w, w.delivered[d]);
    }
  }

  // ---- whole runs -----------------------------------------------------------------------------------

  function Start(): World {
    World([], false, None, None, [])
  }

  /** The moves in order from a world; one that cannot be made does nothing. */
  ghost function Onward(w: World, moves: seq<Move>): (w': World)
    requires Sound(w)
    ensures Sound(w')
  {
    if moves == [] then w
    else
      var before := Onward(w, moves[..|moves| - 1]);
      var m := moves[|moves| - 1];
      if Able(before, m) then
        MovedKeepsSound(before, m);
        Moved(before, m)
      else before
  }

  ghost function Run(moves: seq<Move>): (w: World)
    ensures Sound(w)
  {
    Onward(Start(), moves)
  }

  lemma {:induction false} CopyGrows(w: World, i: nat)
    requires Sound(w) && Able(w, Copy(i))
    ensures Grows(w, AfterCopy(w, i))
  {
    var h := w.handling.value;
    var c := Ours(w);
    assert ReaderInv(w.rings[h.file], c);
    ReadByteOk(w.rings[h.file], c, i);
    var c' := c.(got := c.got[i := ByteAt(w.rings[h.file], c.slot * c.size + i)]);
    OurReaderMoves(w, h.file, c', AfterCopy(w, i));
  }

  lemma {:induction false} FinishGrows(w: World)
    requires Sound(w) && Able(w, Finish)
    ensures Grows(w, AfterFinish(w))
  {
    var h := w.handling.value;
    FinishedOk(w.rings[h.file], Ours(w));
    OurReaderMoves(w, h.file, Finished(w.rings[h.file], Ours(w)), AfterFinish(w));
  }

  lemma {:induction false} RingStepGrows(w: World, file: nat, step: Step)
    requires Sound(w) && Able(w, RingStep(file, step))
    ensures Grows(w, Moved(w, RingStep(file, step)))
  {
    assert RingOk(w.rings[file]);
    NextExtends(w.rings[file], step);
    NextKeepsShape(w.rings[file], step);
  }

  lemma {:induction false} MovedGrows(w: World, m: Move)
    requires Sound(w) && Able(w, m)
    ensures Grows(w, Moved(w, m))
  {
    match m
    case RingStep(file, step) => RingStepGrows(w, file, step);
    case Handle(n) => HandleGrows(w, n);
    case Copy(i) => CopyGrows(w, i);
    case Finish => FinishGrows(w);
    case _ => SameRingsGrow(w, Moved(w, m));
  }

  lemma {:induction false} SameRingsGrow(w: World, w': World)
    requires Sound(w) && w.rings <= w'.rings
    ensures Grows(w, w')
  {
  }

  lemma {:induction false} HandleGrows(w: World, n: Notice)
    requires Sound(w) && Able(w, Handle(n))
    ensures Grows(w, AfterHandle(w, n))
  {
    var found := ReaderFor(w, n.shape);
    if found.Some? {
      var r := w.rings[found.value.file];
      BeginReadAnywhere(r, n.slot, n.shape.size, n.seqNo);
      OurReaderMoves(w, found.value.file, BeginRead(WordAt(r, n.slot), n.slot, n.shape.size, n.seqNo),
                     AfterHandle(w, n));
    }
  }

  lemma {:induction false} GrowsFurther(a: World, b: World, c: World)
    requires Grows(a, b) && Grows(b, c)
    ensures Grows(a, c)
  {
    forall j | 0 <= j < |a.rings|
      ensures Shaped(c.rings[j]) && Extends(a.rings[j], c.rings[j])
    {
      assert Extends(a.rings[j], b.rings[j]) && Extends(b.rings[j], c.rings[j]);
    }
  }

  lemma {:induction false} GrowsItself(w: World)
    requires Sound(w)
    ensures Grows(w, w)
  {
  }

  // ---- where a delivered frame comes from -----------------------------------------------------------

  /** Move k found no mapping under the shape and mapped `file`, the live incarnation then. */
  ghost predicate MappedBy(moves: seq<Move>, k: nat, key: Shape, file: nat) {
    && k < |moves| && moves[k].Handle? && moves[k].notice.shape == key
    && var w := Run(moves[..k]);
       && Able(w, moves[k]) && (w.cache.None? || w.cache.value.key != key)
       && w.linked && |w.rings| == file + 1
  }

  ghost predicate MappedOnce(moves: seq<Move>, key: Shape, file: nat) {
    exists k: nat :: MappedBy(moves, k, key, file)
  }

  lemma {:induction false} MappedLater(moves: seq<Move>, m: Move, key: Shape, file: nat)
    requires MappedOnce(moves, key, file)
    ensures MappedOnce(moves + [m], key, file)
  {
    hide Run;
    var k: nat :| MappedBy(moves, k, key, file);
    assert (moves + [m])[..k] == moves[..k];
    assert MappedBy(moves + [m], k, key, file);
  }

  /** Every mapping in use was made while the incarnation behind it was live. */
  ghost predicate MappingsMade(moves: seq<Move>, w: World) {
    && (w.cache.Some? ==> MappedOnce(moves, w.cache.value.key, w.cache.value.file))
    && (w.handling.Some? ==> MappedOnce(moves, w.handling.value.notice.shape, w.handling.value.file))
    && (forall i :: 0 <= i < |w.delivered| ==> MappedOnce(moves, w.delivered[i].notice.shape, w.delivered[i].file))
  }

  lemma {:induction false} SameMappings(moves: seq<Move>, m: Move, w: World, w': World)
    requires MappingsMade(moves, w)
    requires w'.cache == w.cache || w'.cache == None
    requires w'.handling == w.handling || w'.handling == None
    requires w'.delivered == w.delivered || (w.handling.Some? && |w'.delivered| == |w.delivered| + 1
               && w'.delivered[..|w.delivered|] == w.delivered
               && w'.delivered[|w.delivered|].notice == w.handling.value.notice
               && w'.delivered[|w.delivered|].file == w.handling.value.file)
    ensures MappingsMade(moves + [m], w')
  {
    hide MappedOnce;
    if w'.cache.Some? {
      MappedLater(moves, m, w.cache.value.key, w.cache.value.file);
    }
    if w.handling.Some? {
      MappedLater(moves, m, w.handling.value.notice.shape, w.handling.value.file);
    }
    forall i | 0 <= i < |w'.delivered|
      ensures MappedOnce(moves + [m], w'.delivered[i].notice.shape, w'.delivered[i].file)
    {
      if i < |w.delivered| {
        assert w'.delivered[i] == w.delivered[i];
        MappedLater(moves, m, w.delivered[i].notice.shape, w.delivered[i].file);
      }
    }
  }

  lemma {:induction false} HandleMaps(moves: seq<Move>, n: Notice)
    requires var w := Run(moves); Able(w, Handle(n)) && MappingsMade(moves, w)
    ensures MappingsMade(moves + [Handle(n)], AfterHandle(Run(moves), n))
  {
    hide Able, Onward;
    var w := Run(moves);
    var m := Handle(n);
    var found := ReaderFor(w, n.shape);
    var more := moves + [m];
    if found.Some? {
      if found == w.cache {
        MappedLater(moves, m, n.shape, found.value.file);
      } else {
        assert more[..|moves|] == moves;
        assert MappedBy(more, |moves|, n.shape, found.value.file);
      }
      forall i | 0 <= i < |w.delivered|
        ensures MappedOnce(more, w.delivered[i].notice.shape, w.delivered[i].file)
      {
        MappedLater(moves, m, w.delivered[i].notice.shape, w.delivered[i].file);
      }
    } else {
      SameMappings(moves, m, w, w);
    }
  }

  lemma {:induction false} OneMoreMove(w: World, moves: seq<Move>, m: Move)
    requires Sound(w)
    ensures var before := Onward(w, moves);
            Onward(w, moves + [m]) == if Able(before, m) then Moved(before, m) else before
  {
    assert (moves + [m])[..|moves|] == moves;
  }

  lemma {:induction false} EveryMappingIsMade(moves: seq<Move>)
    ensures MappingsMade(moves, Run(moves))
  {
    if moves != [] {
      var init, m := moves[..|moves| - 1], moves[|moves| - 1];
      EveryMappingIsMade(init);
      OneMoreMove(Start(), init, m);
      assert init + [m] == moves;
      var w := Run(init);
      hide Onward, MappingsMade, MappedOnce;
      if Able(w, m) {
        match m
        case Handle(n) => HandleMaps(init, n);
        case _ => SameMappings(init, m, w, Moved(w, m));
      } else {
        SameMappings(init, m, w, w);
      }
    }
  }

  /** Across any number of restarts onto fresh files, every delivered frame comes
      from one incarnation no older than its notice, which was the live one when the
      mapping was made. It is, whole, the frame that incarnation published with the
      notice's number exactly when the incarnation has the frame size of the notice. */
  lemma {:induction false} EveryDelivery(moves: seq<Move>, i: nat) returns (k: nat)
    requires i < |Run(moves).delivered|
    ensures var w := Run(moves);
            var d := w.delivered[i];
            && d.notice.shape.epoch <= d.file < |w.rings|
            && MappedBy(moves, k, d.notice.shape, d.file)
            && (FrameOf(w.rings[d.file], d.notice.seqNo, d.frame) <==> w.rings[d.file].size == d.notice.shape.size)
  {
    var w := Run(moves);
    EveryMappingIsMade(moves);
    assert DeliveryOk(w, w.delivered[i]);
    assert RingOk(w.rings[w.delivered[i].file]);
    k :| MappedBy(moves, k, w.delivered[i].notice.shape, w.delivered[i].file);
  }

  /** A delivered frame is the notice's own exactly when the mapping it was read through
      was made while the notice's epoch was the live one, or the ring mapped later, at the
      same frame size, published the very same bytes under the same number. From a ring of
      another frame size only a chance likeness of bytes can make it so. */
  lemma {:induction false} OwnFrameExactly(moves: seq<Move>, i: nat) returns (k: nat)
    requires i < |Run(moves).delivered|
    ensures var w := Run(moves);
            var d := w.delivered[i];
            var epoch, n := d.notice.shape.epoch, d.notice.seqNo;
            && epoch < |w.rings| && n in w.rings[epoch].begun
            && MappedBy(moves, k, d.notice.shape, d.file)
            && var own := w.rings[epoch].begun[n];
               FrameOf(w.rings[epoch], n, d.frame)
               <==> if |Run(moves[..k]).rings| - 1 == epoch then true
                    else if w.rings[d.file].size == d.notice.shape.size
                    then n in w.rings[d.file].begun && w.rings[d.file].begun[n] == own
                    else d.frame == own
  {
    k := EveryDelivery(moves, i);
    var w := Run(moves);
    var d := w.delivered[i];
    assert DeliveryOk(w, d);
    assert RingOk(w.rings[d.notice.shape.epoch]);
  }

  // ---- a live notice is delivered ---------------------------------------------------------------------

  /** A notice of the live incarnation is read from that incarnation, whatever was
      mapped before: a restart is a remap. */
  lemma {:induction false} LiveNoticeOpensItsOwnRing(w: World, n: Notice)
    requires Sound(w) && Able(w, Handle(n)) && w.linked && n.shape.epoch == |w.rings| - 1
    ensures Moved(w, Handle(n)).handling == Some(Handling(n, n.shape.epoch))
    ensures Moved(w, Handle(n)).delivered == w.delivered
  {
  }

  /** Nothing but its own end takes a notice in hand away. */
  lemma {:induction false} HandlingPersists(w: World, m: Move)
    requires Sound(w) && Able(w, m) && w.handling.Some? && !m.Finish?
    ensures Moved(w, m).handling == w.handling && Moved(w, m).delivered == w.delivered
  {
  }

  lemma {:induction false} HandlingLasts(w: World, moves: seq<Move>)
    requires Sound(w) && w.handling.Some? && forall i :: 0 <= i < |moves| ==> !moves[i].Finish?
    ensures var w' := Onward(w, moves);
            w'.handling == w.handling && w'.delivered == w.delivered && Grows(w, w')
  {
    if moves == [] {
      GrowsItself(w);
    } else {
      var init, m := moves[..|moves| - 1], moves[|moves| - 1];
      HandlingLasts(w, init);
      var before := Onward(w, init);
      hide Sound, Able, Moved, Grows;
      if Able(before, m) {
        HandlingPersists(before, m);
        MovedGrows(before, m);
        GrowsFurther(w, before, Moved(before, m));
      }
    }
  }

  /** A notice read from its own ring ends in a delivery exactly when its slot has
      not been taken again by then, and then it delivers its own frame. */
  lemma {:induction false} OwnRingDeliversExactly(w: World)
    requires Sound(w) && Able(w, Finish) && w.handling.value.file == w.handling.value.notice.shape.epoch
    ensures var h := w.handling.value;
            var r := w.rings[h.file];
            && h.notice.seqNo in r.begun
            && AfterFinish(w).delivered == w.delivered
                 + (if r.last >= h.notice.seqNo + r.slots then []
                    else [Delivery(h.notice, h.file, r.begun[h.notice.seqNo])])
  {
    var h := w.handling.value;
    var r := w.rings[h.file];
    assert RingOk(r) && ReaderInv(r, Ours(w));
    if Ours(w).Copying? {
      EndReadExactly(r, Ours(w));
    }
  }

  lemma {:induction false} IssuedIsBegun(w: World, n: Notice)
    requires Sound(w) && Issued(w, n)
    ensures n.seqNo in w.rings[n.shape.epoch].begun
  {
    assert RingOk(w.rings[n.shape.epoch]);
  }

  /** A notice whose epoch is live when it is handled, whatever else happens until the
      copy is complete - publications, restarts, other readers - is delivered exactly
      when its slot has not been taken again by then, and it is delivered its own frame. */
  lemma {:induction false} LiveNoticeIsDelivered(w: World, n: Notice, moves: seq<Move>)
    requires Sound(w) && Able(w, Handle(n)) && w.linked && n.shape.epoch == |w.rings| - 1
    requires Sound(Moved(w, Handle(n)))
    requires forall i :: 0 <= i < |moves| ==> !moves[i].Finish?
    requires Able(Onward(Moved(w, Handle(n)), moves), Finish)
    ensures var z := Onward(Moved(w, Handle(n)), moves);
            && n.shape.epoch < |z.rings| && n.seqNo in w.rings[n.shape.epoch].begun
            && Moved(z, Finish).delivered == w.delivered
                 + (if z.rings[n.shape.epoch].last < n.seqNo + n.shape.slots
                    then [Delivery(n, n.shape.epoch, w.rings[n.shape.epoch].begun[n.seqNo])] else [])
  {
    var a := Moved(w, Handle(n));
    var z := Onward(a, moves);
    LiveNoticeOpensItsOwnRing(w, n);
    MovedGrows(w, Handle(n));
    HandlingLasts(a, moves);
    GrowsFurther(w, a, z);
    IssuedIsBegun(w, n);
    OwnRingDeliversExactly(z);
    hide Sound, Able, Onward, AfterHandle;
    assert Extends(w.rings[n.shape.epoch], z.rings[n.shape.epoch]);
  }

  // ---- runs of a ring inside a world ------------------------------------------------------------------

  function RingMoves(file: nat, steps: seq<Step>): seq<Move> {
    if steps == [] then [] else RingMoves(file, steps[..|steps| - 1]) + [RingStep(file, steps[|steps| - 1])]
  }

  ghost predicate AllWrites(steps: seq<Step>) {
    forall i :: 0 <= i < |steps| ==> Writes(steps[i])
  }

  /** The live ring runs its writer's steps and nothing else changes. */
  lemma {:induction false} RingRuns(w: World, file: nat, steps: seq<Step>)
    requires Sound(w) && file == |w.rings| - 1 && AllWrites(steps)
    ensures Shaped(w.rings[file])
    ensures Onward(w, RingMoves(file, steps)) == w.(rings := w.rings[file := Seqlock.Run(w.rings[file], steps)])
  {
    assert RingOk(w.rings[file]);
    if steps != [] {
      var init, step := steps[..|steps| - 1], steps[|steps| - 1];
      RingRuns(w, file, init);
      OneMoreMove(w, RingMoves(file, init), RingStep(file, step));
      hide Onward, Sound, Next, Enabled;
      var r := Seqlock.Run(w.rings[file], init);
      assert w.rings[file := r][file := Try(r, step)] == w.rings[file := Try(r, step)];
    }
  }

  lemma {:induction false} OnwardOn(w: World, a: seq<Move>, b: seq<Move>)
    requires Sound(w)
    ensures Onward(w, a + b) == Onward(Onward(w, a), b)
  {
    hide Sound, Able, Moved;
    if b == [] {
      assert a + b == a;
    } else {
      var init := b[..|b| - 1];
      assert (a + b)[..|a + b| - 1] == a + init;
      OnwardOn(w, a, init);
    }
  }

  lemma {:induction false} CopyStepsWrite(frame: Frame, n: nat)
    ensures AllWrites(CopySteps(frame, n))
  {
    if n > 0 {
      CopyStepsWrite(frame, n - 1);
    }
  }

  lemma {:induction false} PublishInWorld(w: World, file: nat, frame: Frame)
    requires Sound(w) && file == |w.rings| - 1 && w.rings[file].writer.Idle? && |frame| == w.rings[file].size
    ensures Shaped(w.rings[file])
    ensures Onward(w, RingMoves(file, PublishSteps(frame)))
            == w.(rings := w.rings[file := Published(w.rings[file], frame)])
  {
    assert RingOk(w.rings[file]);
    CopyStepsWrite(frame, |frame|);
    RingRuns(w, file, PublishSteps(frame));
    PublishRuns(w.rings[file], frame);
  }

  // ---- a small ring ----------------------------------------------------------------------------------

  /** A ring of two two-byte slots whose only publication is `frame`. */
  function OnceWritten(frame: Frame, readers: map<nat, Reader>): Ring {
    Ring(2, 2, [Word(0, true), Word(1, true)], [[0, 0], frame], 1, Idle,
         map[0 := [0, 0], 1 := frame], {0, 1}, readers)
  }

  lemma {:induction false} WriteOnce(frame: Frame, readers: map<nat, Reader>)
    requires |frame| == 2
    ensures Shaped(Fresh(2, 2)) && Shaped(OnceWritten(frame, readers))
    ensures Seqlock.Run(Fresh(2, 2).(readers := readers), PublishSteps(frame)) == OnceWritten(frame, readers)
  {
    var r := Fresh(2, 2).(readers := readers);
    PublishRuns(r, frame);
    assert SlotOf(1, 2) == 1;
    assert Zeros(2) == [0, 0];
    assert r.words == [Word(0, true), Word(0, true)] && r.cells == [[0, 0], [0, 0]];
    assert Published(r, frame).begun == map[0 := [0, 0], 1 := frame];
  }

  lemma {:induction false} SecondSlotBytes(frame: Frame, readers: map<nat, Reader>)
    requires |frame| == 2
    ensures ByteAt(OnceWritten(frame, readers), 2) == frame[0] && ByteAt(OnceWritten(frame, readers), 3) == frame[1]
  {
  }

  lemma {:induction false} TwoBytes(got: map<nat, int>, p: int, q: int)
    requires got == map[0 := p, 1 := q]
    ensures got.Keys == Positions(2) && Copied(got, 2) == [p, q]
  {
    assert Below(0, 2) && Below(1, 2);
    assert got.Keys == {0, 1};
  }

  // ---- stale notices --------------------------------------------------------------------------------------

  /** A ring of two two-byte slots is made, one frame published in it, and it is closed. */
  function FirstLife(): seq<Move> {
    [Restart(2, 2)] + RingMoves(0, PublishSteps([1, 1])) + [Unlink]
  }

  function FirstRing(): Ring {
    OnceWritten([1, 1], map[])
  }

  /** The notice of that frame. */
  function Stale(): Notice {
    Notice(Shape(2, 2, 0), 1, 1)
  }

  lemma {:induction false} FirstRestart()
    ensures Run([Restart(2, 2)]) == World([Fresh(2, 2)], true, None, None, [])
  {
    assert [Restart(2, 2)] == [] + [Restart(2, 2)];
    OneMoreMove(Start(), [], Restart(2, 2));
  }

  lemma {:induction false} FirstPublication(w: World)
    requires w == World([Fresh(2, 2)], true, None, None, []) && Sound(w)
    ensures Onward(w, RingMoves(0, PublishSteps([1, 1]))) == World([FirstRing()], true, None, None, [])
  {
    hide PublishSteps, Sound, Onward;
    PublishInWorld(w, 0, [1, 1]);
    WriteOnce([1, 1], map[]);
    assert Fresh(2, 2) == Fresh(2, 2).(readers := map[]);
    PublishRuns(Fresh(2, 2), [1, 1]);
    assert w.rings[0 := FirstRing()] == [FirstRing()];
  }

  lemma {:induction false} FirstLifeEnds()
    ensures Run(FirstLife()) == World([FirstRing()], false, None, None, [])
  {
    FirstRestart();
    var first, publish := [Restart(2, 2)], RingMoves(0, PublishSteps([1, 1]));
    FirstPublication(Run(first));
    OnwardOn(Start(), first, publish);
    hide PublishSteps, RingMoves, Sound, FirstRing;
    OneMoreMove(Start(), first + publish, Unlink);
  }

  /** The stale notice in hand over the second ring, with these bytes copied. */
  function Reading(r: Ring, got: map<nat, int>): World {
    World([FirstRing(), WithReader(r, Copying(1, 2, 1, got))], true, Some(Mapped(Stale().shape, 1)),
          Some(Handling(Stale(), 1)), [])
  }

  /** The second ring is long enough and its slot 1 holds number 1, with bytes p and q
      where the notice's slot 1 was. */
  ghost predicate Lookalike(r: Ring, p: int, q: int) {
    && r.slots * r.size >= 4 && |r.words| >= 2 && r.words[1] == Word(1, true)
    && ByteAt(r, 2) == p && ByteAt(r, 3) == q
  }

  lemma {:induction false} StaleIsMapped(r: Ring)
    requires Sound(World([FirstRing(), r], true, None, None, []))
    requires r.slots * r.size >= 4 && |r.words| >= 2 && r.words[1] == Word(1, true)
    ensures var w := World([FirstRing(), r], true, None, None, []);
            Able(w, Handle(Stale())) && Moved(w, Handle(Stale())) == Reading(r, map[])
  {
    var w := World([FirstRing(), r], true, None, None, []);
    assert SlotOf(1, 2) == 1;
    assert w.rings[1 := WithReader(r, Copying(1, 2, 1, map[]))] == Reading(r, map[]).rings;
  }

  lemma {:induction false} BytesOfReader(r: Ring, c: Reader, offset: nat)
    ensures ByteAt(WithReader(r, c), offset) == ByteAt(r, offset)
  {
  }

  lemma {:induction false} Reread(r: Ring, c: Reader, d: Reader)
    ensures WithReader(WithReader(r, c), d) == WithReader(r, d)
  {
    assert r.readers[0 := c][0 := d] == r.readers[0 := d];
  }

  lemma {:induction false} StaleByte(r: Ring, got: map<nat, int>, i: nat)
    requires Sound(Reading(r, got)) && i < 2
    ensures Able(Reading(r, got), Copy(i))
    ensures Moved(Reading(r, got), Copy(i)) == Reading(r, got[i := ByteAt(r, 2 + i)])
  {
    hide Sound;
    var c := Copying(1, 2, 1, got);
    var c' := Copying(1, 2, 1, got[i := ByteAt(r, 2 + i)]);
    ReadingIsSound(r, got);
    BytesOfReader(r, c, 2 + i);
    Reread(r, c, c');
    assert Reading(r, got).rings[1 := WithReader(r, c')] == Reading(r, c'.got).rings;
  }

  lemma {:induction false} ReadingIsSound(r: Ring, got: map<nat, int>)
    requires Sound(Reading(r, got))
    ensures HandlingOk(Reading(r, got), Handling(Stale(), 1)) && Ours(Reading(r, got)) == Copying(1, 2, 1, got)
  {
  }

  lemma {:induction false} StaleEnds(r: Ring, p: int, q: int)
    requires Sound(Reading(r, map[0 := p, 1 := q])) && |r.words| >= 2 && r.words[1] == Word(1, true)
    ensures var w := Reading(r, map[0 := p, 1 := q]);
            Able(w, Finish) && Moved(w, Finish).delivered == [Delivery(Stale(), 1, [p, q])]
  {
    TwoBytes(map[0 := p, 1 := q], p, q);
    ReadingIsSound(r, map[0 := p, 1 := q]);
  }

  function StaleRead(): seq<Move> {
    [Handle(Stale()), Copy(0), Copy(1), Finish]
  }

  lemma {:induction false} MoveOn(w: World, m: Move, w': World, rest: seq<Move>)
    requires Sound(w) && Able(w, m) && Moved(w, m) == w'
    ensures Sound(w') && Onward(w, [m] + rest) == Onward(w', rest)
  {
    hide Sound, Able, Moved;
    MovedKeepsSound(w, m);
    assert [m] == [] + [m];
    OneMoreMove(w, [], m);
    OnwardOn(w, [m], rest);
  }

  /** Read over a lookalike, the stale notice is delivered what lies there. */
  lemma {:induction false} StaleIsDelivered(r: Ring, p: int, q: int)
    requires Sound(World([FirstRing(), r], true, None, None, [])) && Lookalike(r, p, q)
    ensures Onward(World([FirstRing(), r], true, None, None, []), StaleRead()).delivered
            == [Delivery(Stale(), 1, [p, q])]
  {
    hide Sound, Able, Moved, Onward;
    var w := World([FirstRing(), r], true, None, None, []);
    StaleIsMapped(r);
    var rest := [Copy(0)] + ([Copy(1)] + ([Finish] + []));
    assert StaleRead() == [Handle(Stale())] + rest;
    MoveOn(w, Handle(Stale()), Reading(r, map[]), rest);
    StaleByte(r, map[], 0);
    MoveOn(Reading(r, map[]), Copy(0), Reading(r, map[0 := p]), [Copy(1)] + ([Finish] + []));
    StaleByte(r, map[0 := p], 1);
    assert map[0 := p][1 := q] == map[0 := p, 1 := q];
    var last := Reading(r, map[0 := p, 1 := q]);
    MoveOn(Reading(r, map[0 := p]), Copy(1), last, [Finish] + []);
    StaleEnds(r, p, q);
    MoveOn(last, Finish, Moved(last, Finish), []);
    NoMoves(Moved(last, Finish));
  }

  lemma {:induction false} NoMoves(w: World)
    requires Sound(w)
    ensures Onward(w, []) == w
  {
  }

  /** A second ring is made after the first was closed, and these frames published in it. */
  function SecondLife(slots: nat, size: nat, frames: seq<Frame>): seq<Move> {
    if frames == [] then [Restart(slots, size)]
    else SecondLife(slots, size, frames[..|frames| - 1]) + RingMoves(1, PublishSteps(frames[|frames| - 1]))
  }

  function AllPublished(r: Ring, frames: seq<Frame>): (r': Ring)
    requires Shaped(r) && forall i :: 0 <= i < |frames| ==> |frames[i]| == r.size
    ensures Shaped(r') && r'.size == r.size && r'.slots == r.slots
  {
    if frames == [] then r else Published(AllPublished(r, frames[..|frames| - 1]), frames[|frames| - 1])
  }

  lemma {:induction false} AllPublishedIdle(r: Ring, frames: seq<Frame>)
    requires Shaped(r) && r.writer.Idle? && forall i :: 0 <= i < |frames| ==> |frames[i]| == r.size
    ensures AllPublished(r, frames).writer.Idle?
  {
  }

  lemma {:induction false} SecondLifeEnds(slots: nat, size: nat, frames: seq<Frame>)
    requires slots >= 2 && forall i :: 0 <= i < |frames| ==> |frames[i]| == size
    ensures Sound(World([FirstRing()], false, None, None, []))
    ensures Onward(World([FirstRing()], false, None, None, []), SecondLife(slots, size, frames))
         == World([FirstRing(), AllPublished(Fresh(slots, size), frames)], true, None, None, [])
  {
    FirstLifeEnds();
    var w := World([FirstRing()], false, None, None, []);
    hide Sound, FirstRing, Published, PublishSteps;
    if frames == [] {
      assert [Restart(slots, size)] == [] + [Restart(slots, size)];
      OneMoreMove(w, [], Restart(slots, size));
      NoMoves(w);
    } else {
      var init, frame := frames[..|frames| - 1], frames[|frames| - 1];
      SecondLifeEnds(slots, size, init);
      var r := AllPublished(Fresh(slots, size), init);
      var z := World([FirstRing(), r], true, None, None, []);
      AllPublishedIdle(Fresh(slots, size), init);
      OnwardOn(w, SecondLife(slots, size, init), RingMoves(1, PublishSteps(frame)));
      PublishInWorld(z, 1, frame);
      assert z.rings[1 := Published(r, frame)] == [FirstRing(), Published(r, frame)];
    }
  }

  lemma {:induction false} StaleRun(slots: nat, size: nat, frames: seq<Frame>, p: int, q: int)
    requires slots >= 2 && forall i :: 0 <= i < |frames| ==> |frames[i]| == size
    requires Lookalike(AllPublished(Fresh(slots, size), frames), p, q)
    ensures Run(FirstLife() + (SecondLife(slots, size, frames) + StaleRead())).delivered
            == [Delivery(Stale(), 1, [p, q])]
  {
    var w := World([FirstRing()], false, None, None, []);
    FirstLifeEnds();
    SecondLifeEnds(slots, size, frames);
    hide Sound, Onward, FirstLife, SecondLife, StaleRead, FirstRing, Lookalike, AllPublished;
    OnwardOn(Start(), FirstLife(), SecondLife(slots, size, frames) + StaleRead());
    OnwardOn(w, SecondLife(slots, size, frames), StaleRead());
    StaleIsDelivered(AllPublished(Fresh(slots, size), frames), p, q);
  }

  lemma {:induction false} LookalikeOfOtherSize()
    ensures Lookalike(AllPublished(Fresh(4, 1), [[10], [20], [30]]), 20, 30)
  {
    var r0 := Fresh(4, 1);
    assert Zeros(1) == [0];
    assert SlotOf(1, 4) == 1 && SlotOf(2, 4) == 2 && SlotOf(3, 4) == 3;
    assert [[10], [20], [30]][..2] == [[10], [20]] && [[10], [20]][..1] == [[10]] && [[10]][..0] == [];
    var r1 := AllPublished(r0, [[10]]);
    assert r1 == Published(r0, [10]);
    var r2 := AllPublished(r0, [[10], [20]]);
    assert r2 == Published(r1, [20]);
  }

  /** A notice that outlives its ring can map the next one at the old size. The two
      checks still pass, and what is delivered under number 1 is the second frame of
      the new ring followed by the third. */
  lemma {:induction false} StaleNoticeIsStitched()
    ensures Run(FirstLife() + (SecondLife(4, 1, [[10], [20], [30]]) + StaleRead())).delivered
         == [Delivery(Stale(), 1, [20, 30])]
  {
    LookalikeOfOtherSize();
    hide Lookalike, AllPublished, Onward;
    StaleRun(4, 1, [[10], [20], [30]], 20, 30);
  }

  lemma {:induction false} LookalikeOfSameSize()
    ensures Lookalike(AllPublished(Fresh(2, 2), [[9, 9]]), 9, 9)
  {
    assert Zeros(2) == [0, 0];
    assert SlotOf(1, 2) == 1;
    assert [[9, 9]][..0] == [];
    var r := AllPublished(Fresh(2, 2), [[9, 9]]);
    assert r == Published(Fresh(2, 2), [9, 9]);
    SecondSlotBytes([9, 9], map[]);
    assert r.cells == OnceWritten([9, 9], map[]).cells;
  }

  /** Even at the same size a notice that outlives its ring is delivered whole, under
      its number, a frame that is not its own: [1, 1] was published, [9, 9] arrives. */
  lemma {:induction false} StaleNoticeIsMistaken()
    ensures Run(FirstLife()).rings == [FirstRing()] && FirstRing().begun[1] == [1, 1]
    ensures Run(FirstLife() + (SecondLife(2, 2, [[9, 9]]) + StaleRead())).delivered == [Delivery(Stale(), 1, [9, 9])]
  {
    FirstLifeEnds();
    LookalikeOfSameSize();
    hide Lookalike, AllPublished, Onward;
    StaleRun(2, 2, [[9, 9]], 9, 9);
  }
}
