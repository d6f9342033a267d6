/** ring.py: a ring file still at the path, as a broker that died leaves it, is truncated
    where it stands, under whoever has it mapped. Its numbers start again on the same
    pages, and this is what then becomes of the reads under way and of those begun since. */
module RingTruncation {
  import opened Seqlock

  /** The file truncated and zeroed where it stands, so that a mapping of it stays
      valid: the writer starts over, the readers go on. */
  function Truncated(r: Ring): Ring {
    Fresh(r.slots, r.size).(readers := r.readers)
  }

  /** A copy in hand at the start that is still the reader's last: it has not begun
      another read since. */
  ghost predicate InHand(r: Ring, steps: seq<Step>, id: nat)
    requires Shaped(r)
  {
    if steps == [] then id in r.readers && r.readers[id].Copying?
    else
      var init, last := steps[..|steps| - 1], steps[|steps| - 1];
      InHand(r, init, id) && !(Begins(last, id) && Enabled(Run(r, init), last))
  }

  /** The read has returned a frame, at the ring's own size. */
  ghost predicate Delivers(r: Ring, id: nat) {
    id in r.readers && r.readers[id].Done? && r.readers[id].result.Some? && r.readers[id].size == r.size
  }

  /** One of the frames begun before the truncation or since. */
  ghost predicate Whole(before: map<nat, Frame>, now: Ring, frame: Frame) {
    frame in before.Values || frame in now.begun.Values
  }

  /** The frame begun under the number, before the truncation or since. */
  ghost predicate Right(before: map<nat, Frame>, now: Ring, want: nat, frame: Frame) {
    (want in before && before[want] == frame) || (want in now.begun && now.begun[want] == frame)
  }

  // ---- the ring itself starts over --------------------------------------------------------------------

  /** All that the protocol keeps, but for what it promises its readers. */
  ghost predicate Sane(r: Ring) {
    HistoryInv(r) && CellsInv(r) && WriterInv(r)
  }

  lemma {:induction false} TruncatedIsSane(r: Ring)
    requires r.slots > 0
    ensures Shaped(Truncated(r)) && Sane(Truncated(r))
  {
    var blank := Fresh(r.slots, r.size);
    FreshInv(r.slots, r.size);
    SameHistory(blank, Truncated(r));
    SameCells(blank, Truncated(r));
  }

  lemma {:induction false} TryKeepsSane(r: Ring, step: Step)
    requires Sane(r)
    ensures Sane(Try(r, step)) && Extends(r, Try(r, step))
  {
    if Enabled(r, step) {
      NextKeepsHistory(r, step);
      NextKeepsCells(r, step);
      NextExtends(r, step);
    }
  }

  lemma {:induction false} RunKeepsSane(r: Ring, steps: seq<Step>)
    requires Sane(r)
    ensures Sane(Run(r, steps)) && Extends(r, Run(r, steps))
  {
    assert Shaped(r);
    hide Sane, Try, Extends;
    if steps == [] {
      ExtendsItself(r);
    } else {
      var before := Run(r, steps[..|steps| - 1]);
      RunKeepsSane(r, steps[..|steps| - 1]);
      TryKeepsSane(before, steps[|steps| - 1]);
      ExtendsFurther(r, before, Run(r, steps));
    }
  }

  // ---- reads begun since are right ------------------------------------------------------------------------

  /** The reader has its promise of the new ring, or was done with the old. */
  ghost predicate Trusts(before: Ring, r: Ring, id: nat)
    requires Shaped(r)
  {
    id in r.readers ==>
      || ReaderInv(r, r.readers[id])
      || (id in before.readers && before.readers[id].Done? && r.readers[id] == before.readers[id])
  }

  lemma {:induction false} NextTrusts(before: Ring, r: Ring, step: Step, id: nat)
    requires Sane(r) && Enabled(r, step) && (Trusts(before, r, id) || Begins(step, id))
    ensures Shaped(Next(r, step)) && Trusts(before, Next(r, step), id)
  {
    NextKeepsShape(r, step);
    var r' := Next(r, step);
    if id in r'.readers {
      if Begins(step, id) || (id in r.readers ==> ReaderInv(r, r.readers[id])) {
        NextKeepsReaders(r, step, id);
      }
    }
  }

  lemma {:induction false} NotInHandTrusts(before: Ring, r: Ring, steps: seq<Step>, id: nat)
    requires Sane(r) && r.readers == before.readers && !InHand(r, steps, id)
    ensures Trusts(before, Run(r, steps), id)
  {
    if steps != [] {
      var init, last := steps[..|steps| - 1], steps[|steps| - 1];
      var mid := Run(r, init);
      RunKeepsSane(r, init);
      hide Sane, Trusts, Next;
      if !InHand(r, init, id) {
        NotInHandTrusts(before, r, init, id);
      }
      if Enabled(mid, last) {
        NextTrusts(before, mid, last, id);
      }
    }
  }

  /** A read that was not in hand when the file was truncated returns the frame published
      under its number: since, or, if it was over by then, before. */
  lemma {:induction false} ReadSinceIsRight(slots: nat, size: nat, steps: seq<Step>, more: seq<Step>, id: nat)
    requires slots > 0
    requires var r := Truncated(History(slots, size, steps));
             Shaped(r) && !InHand(r, more, id) && Delivers(Run(r, more), id)
    ensures var b := History(slots, size, steps);
            var r := Run(Truncated(b), more);
            && Right(b.begun, r, r.readers[id].want, r.readers[id].result.value)
            && Whole(b.begun, r, r.readers[id].result.value)
  {
    var b := History(slots, size, steps);
    var blank := Truncated(b);
    FreshInv(slots, size);
    RunKeepsInv(Fresh(slots, size), steps);
    TruncatedIsSane(b);
    RunKeepsSane(blank, more);
    NotInHandTrusts(b, blank, more, id);
    var r := Run(blank, more);
    hide Run, History;
    if id in b.readers {
      assert ReaderInv(b, b.readers[id]);
    }
    assert b.size == r.size;
  }

  // ---- up to one byte nothing can be torn -------------------------------------------------------------------

  ghost predicate SmallReader(before: map<nat, Frame>, r: Ring, c: Reader) {
    c.size == r.size ==>
      match c
      case Copying(slot, size, _, got) =>
        slot < r.slots && forall i: nat :: i in got && i < size ==> Whole(before, r, [got[i]])
      case Done(_, size, want, result) =>
        result.Some? ==> Whole(before, r, result.value) && (size == 0 ==> Right(before, r, want, result.value))
  }

  /** Every cell, and every byte copied, is by itself a whole frame. */
  ghost predicate Small(before: map<nat, Frame>, r: Ring) {
    && r.size <= 1 && Shaped(r)
    && (forall s: nat :: s < r.slots ==> Whole(before, r, r.cells[s]))
    && (forall id :: id in r.readers ==> SmallReader(before, r, r.readers[id]))
  }

  lemma {:induction false} StaysWhole(before: map<nat, Frame>, r: Ring, r': Ring, frame: Frame)
    requires Extends(r, r') && Whole(before, r, frame)
    ensures Whole(before, r', frame)
  {
    if frame in r.begun.Values {
      var k :| k in r.begun && r.begun[k] == frame;
      assert r'.begun[k] == frame;
    }
  }

  lemma {:induction false} StaysSmall(before: map<nat, Frame>, r: Ring, r': Ring, c: Reader)
    requires Extends(r, r') && SmallReader(before, r, c)
    ensures SmallReader(before, r', c)
  {
    hide Whole;
    if c.size == r.size {
      match c
      case Copying(_, size, _, got) =>
        forall i: nat | i in got && i < size
          ensures Whole(before, r', [got[i]])
        {
          StaysWhole(before, r, r', [got[i]]);
        }
      case Done(_, _, _, result) =>
        if result.Some? {
          StaysWhole(before, r, r', result.value);
        }
    }
  }

  lemma {:induction false} SmallCells(before: map<nat, Frame>, r: Ring, step: Step, s: nat)
    requires Small(before, r) && Sane(r) && Enabled(r, step) && s < r.slots && Shaped(Next(r, step))
    ensures Whole(before, Next(r, step), Next(r, step).cells[s])
  {
    var r' := Next(r, step);
    NextExtends(r, step);
    assert r'.slots == r.slots && Whole(before, r, r.cells[s]);
    if r'.cells[s] == r.cells[s] {
      StaysWhole(before, r, r', r.cells[s]);
    } else {
      assert step.CopyByte? && s == Here(r);
      assert r'.cells[s] == r.writer.frame == r.begun[r.last];
      assert r.last in r'.begun;
    }
  }

  /** What a byte is read from is a whole cell. */
  lemma {:induction false} SmallByte(before: map<nat, Frame>, r: Ring, c: Reader, i: nat)
    requires Small(before, r) && c.Copying? && i < c.size && SmallReader(before, r, c)
    ensures SmallReader(before, r, c.(got := c.got[i := ByteAt(r, c.slot * c.size + i)]))
  {
    if c.size == r.size {
      OwnByte(r, c.slot, i);
      assert Whole(before, r, r.cells[c.slot]);
      assert r.cells[c.slot] == [r.cells[c.slot][i]];
    }
  }

  lemma {:induction false} SmallEnd(before: map<nat, Frame>, r: Ring, c: Reader)
    requires Small(before, r) && Sane(r) && c.Copying? && c.got.Keys == Positions(c.size) && SmallReader(before, r, c)
    ensures SmallReader(before, r, EndRead(WordAt(r, c.slot), c))
  {
    if c.size == r.size && WordAt(r, c.slot) == Word(c.want, true) {
      assert CellInv(r, c.slot) && Whole(before, r, r.cells[c.slot]);
      var frame := Copied(c.got, c.size);
      if c.size == 0 {
        assert frame == r.cells[c.slot];
      } else {
        assert Below(0, 1);
        assert 0 in c.got && frame == [c.got[0]];
      }
    }
  }

  lemma {:induction false} SmallReaders(before: map<nat, Frame>, r: Ring, step: Step, id: nat)
    requires Small(before, r) && Sane(r) && Enabled(r, step) && id in Next(r, step).readers
    ensures SmallReader(before, Next(r, step), Next(r, step).readers[id])
  {
    var r' := Next(r, step);
    NextExtends(r, step);
    if id in r.readers {
      assert SmallReader(before, r, r.readers[id]);
    }
    if id in r.readers && r'.readers[id] == r.readers[id] {
      StaysSmall(before, r, r', r.readers[id]);
    } else {
      match step
      case ReadBegin(_, _, _, _) =>
      case ReadByte(_, i) =>
        SmallByte(before, r, r.readers[id], i);
        StaysSmall(before, r, r', r'.readers[id]);
      case ReadEnd(_) =>
        SmallEnd(before, r, r.readers[id]);
        StaysSmall(before, r, r', r'.readers[id]);
    }
  }

  lemma {:induction false} NextIsSmall(before: map<nat, Frame>, r: Ring, step: Step)
    requires Small(before, r) && Sane(r) && Enabled(r, step)
    ensures Small(before, Next(r, step))
  {
    NextKeepsShape(r, step);
    var r' := Next(r, step);
    NextExtends(r, step);
    hide Sane, Next, Whole, SmallReader;
    forall s: nat | s < r'.slots
      ensures Whole(before, r', r'.cells[s])
    {
      SmallCells(before, r, step, s);
    }
    forall id | id in r'.readers
      ensures SmallReader(before, r', r'.readers[id])
    {
      SmallReaders(before, r, step, id);
    }
  }

  lemma {:induction false} RunIsSmall(before: map<nat, Frame>, r: Ring, steps: seq<Step>)
    requires Small(before, r) && Sane(r)
    ensures Small(before, Run(r, steps))
  {
    if steps != [] {
      var init, last := steps[..|steps| - 1], steps[|steps| - 1];
      hide Small, Sane;
      RunIsSmall(before, r, init);
      RunKeepsSane(r, init);
      if Enabled(Run(r, init), last) {
        NextIsSmall(before, Run(r, init), last);
      }
    }
  }

  lemma {:induction false} BlankIsSmall(slots: nat, size: nat)
    requires slots > 0 && size <= 1
    ensures Small(map[], Fresh(slots, size)) && Sane(Fresh(slots, size))
  {
    FreshInv(slots, size);
    var r := Fresh(slots, size);
    assert r.begun[0] == Zeros(size);
  }

  /** What was whole before is whole under the next life. */
  lemma {:induction false} TruncatedIsSmall(b: Ring)
    requires Small(map[], b)
    ensures Shaped(Truncated(b)) && Small(b.begun, Truncated(b))
  {
    TruncatedIsSane(b);
    var r := Truncated(b);
    assert r.begun[0] == Zeros(b.size);
    forall id | id in r.readers
      ensures SmallReader(b.begun, r, r.readers[id])
    {
      assert SmallReader(map[], b, b.readers[id]);
    }
  }

  lemma {:induction false} SmallIsWhole(slots: nat, size: nat, steps: seq<Step>, more: seq<Step>, id: nat)
    requires slots > 0 && size <= 1
    requires var r := Truncated(History(slots, size, steps)); Shaped(r) && Delivers(Run(r, more), id)
    ensures var b := History(slots, size, steps);
            var r := Run(Truncated(b), more);
            && Whole(b.begun, r, r.readers[id].result.value)
            && (size == 0 ==> Right(b.begun, r, r.readers[id].want, r.readers[id].result.value))
  {
    var b := History(slots, size, steps);
    BlankIsSmall(slots, size);
    RunIsSmall(map[], Fresh(slots, size), steps);
    TruncatedIsSmall(b);
    TruncatedIsSane(b);
    RunIsSmall(b.begun, Truncated(b), more);
    RunKeepsSane(Truncated(b), more);
    RunKeepsSane(Fresh(slots, size), steps);
    var r := Run(Truncated(b), more);
    assert SmallReader(b.begun, r, r.readers[id]);
  }

  // ---- a copy that spans the truncation ------------------------------------------------------------------------

  /** The first bytes of a frame, as a reader has them. */
  function Gets(bytes: Frame): map<nat, int> {
    map i: nat | i in Positions(|bytes|) :: bytes[i]
  }

  lemma {:induction false} GetsMore(bytes: Frame, x: int)
    ensures Gets(bytes)[|bytes| := x] == Gets(bytes + [x])
  {
    OnePositionMore(|bytes|);
    var a, b := Gets(bytes)[|bytes| := x], Gets(bytes + [x]);
    assert a.Keys == Positions(|bytes|) + {|bytes|};
    assert b.Keys == Positions(|bytes| + 1);
  }

  lemma {:induction false} GetsAll(frame: Frame)
    ensures Gets(frame).Keys == Positions(|frame|) && Copied(Gets(frame), |frame|) == frame
  {
    assert Gets(frame).Keys == Positions(|frame|);
    forall i: nat | i < |frame|
      ensures Copied(Gets(frame), |frame|)[i] == frame[i]
    {
      assert Below(i, |frame|);
      assert i in Positions(|frame|);
    }
  }

  /** Reader 7 copies the bytes from one position to another. */
  function Reads(from: nat, end: nat): seq<Step> {
    if end <= from then [] else Reads(from, end - 1) + [ReadByte(7, end - 1)]
  }

  /** The ring with reader 7 at its copy of number 1, so many bytes into it. */
  function Halfway(r: Ring, bytes: Frame): Ring
    requires r.slots > 0
  {
    r.(readers := map[7 := Copying(SlotOf(1, r.slots), r.size, 1, Gets(bytes))])
  }

  lemma {:induction false} ReadsOneMore(r: Ring, bytes: Frame)
    requires Shaped(r) && |bytes| < r.size
    ensures var n := |bytes|;
            var h := Halfway(r, bytes);
            && Shaped(h) && Enabled(h, ReadByte(7, n))
            && Next(h, ReadByte(7, n)) == Halfway(r, bytes + [r.cells[SlotOf(1, r.slots)][n]])
  {
    var n, s := |bytes|, SlotOf(1, r.slots);
    var h := Halfway(r, bytes);
    OwnByte(h, s, n);
    GetsMore(bytes, r.cells[s][n]);
    assert h.readers[7].slot == s && h.readers[7].size == h.size;
  }

  lemma {:induction false} OneByteMore(bytes: Frame, cell: Frame, end: nat)
    requires |bytes| < end <= |cell|
    ensures var got := bytes + cell[|bytes|..end - 1];
            |got| == end - 1 && got + [cell[end - 1]] == bytes + cell[|bytes|..end]
  {
  }

  lemma {:induction false} NoByteMore(bytes: Frame, cell: Frame)
    requires |bytes| <= |cell|
    ensures bytes + cell[|bytes|..|bytes|] == bytes
  {
  }

  lemma {:induction false} ReadsRun(r: Ring, bytes: Frame, end: nat)
    requires Shaped(r) && |bytes| <= end <= r.size
    ensures Shaped(Halfway(r, bytes))
    ensures var cell := r.cells[SlotOf(1, r.slots)];
            Run(Halfway(r, bytes), Reads(|bytes|, end)) == Halfway(r, bytes + cell[|bytes|..end])
    decreases end
  {
    var cell := r.cells[SlotOf(1, r.slots)];
    assert |cell| == r.size;
    if end == |bytes| {
      NoByteMore(bytes, cell);
    } else {
      var got := bytes + cell[|bytes|..end - 1];
      ReadsRun(r, bytes, end - 1);
      OneByteMore(bytes, cell, end);
      ReadsOneMore(r, got);
      hide Run, Halfway, Next, Enabled, Shaped;
      RunThen(Halfway(r, bytes), Reads(|bytes|, end - 1), ReadByte(7, end - 1), Halfway(r, got));
    }
  }

  /** Before the truncation: one frame is published and its first m bytes are copied. */
  function Early(slots: nat, one: Frame, m: nat): seq<Step>
    requires slots > 0
  {
    PublishSteps(one) + ([ReadBegin(7, SlotOf(1, slots), |one|, 1)] + Reads(0, m))
  }

  /** After it: the copy goes on to byte k, another frame is published, the copy is finished. */
  function Late(two: Frame, m: nat, k: nat): seq<Step> {
    Reads(m, k) + (PublishSteps(two) + (Reads(k, |two|) + [ReadEnd(7)]))
  }

  /** A blank ring after its first publication. */
  function Once(slots: nat, frame: Frame): Ring
    requires slots > 0
  {
    var s := SlotOf(1, slots);
    var r := Fresh(slots, |frame|);
    r.(last := 1, words := r.words[s := Word(1, true)], cells := r.cells[s := frame],
       begun := map[0 := Zeros(|frame|), 1 := frame], stable := {0, 1})
  }

  lemma {:induction false} OncePublished(slots: nat, frame: Frame, readers: map<nat, Reader>)
    requires slots > 0
    ensures var r := Fresh(slots, |frame|).(readers := readers);
            Shaped(r) && Run(r, PublishSteps(frame)) == Once(slots, frame).(readers := readers)
  {
    var r := Fresh(slots, |frame|).(readers := readers);
    PublishRuns(r, frame);
    hide Run;
    assert map[0 := Zeros(|frame|)][1 := frame] == map[0 := Zeros(|frame|), 1 := frame];
    assert {0} + {1} == {0, 1};
  }

  lemma {:induction false} EarlyRuns(slots: nat, one: Frame, m: nat)
    requires slots > 0 && m <= |one|
    ensures History(slots, |one|, Early(slots, one, m)) == Halfway(Once(slots, one), one[..m])
  {
    var blank, r, s := Fresh(slots, |one|), Once(slots, one), SlotOf(1, slots);
    var begin := ReadBegin(7, s, |one|, 1);
    OncePublished(slots, one, map[]);
    assert blank.(readers := map[]) == blank && r.(readers := map[]) == r;
    assert Next(r, begin) == Halfway(r, []) by {
      assert Gets([]) == map[];
    }
    RunThen(r, [], begin, r);
    assert [] + [begin] == [begin];
    ReadsRun(r, [], m);
    assert r.cells[s] == one && [] + one[0..m] == one[..m];
    hide Run, Halfway, Once, Next;
    RunOn(r, [begin], Reads(0, m));
    RunOn(blank, PublishSteps(one), [begin] + Reads(0, m));
  }

  /** The bytes reader 7 ends up with. */
  function Stitched(one: Frame, two: Frame, m: nat, k: nat): Frame
    requires m <= k <= |one| == |two|
  {
    one[..m] + Zeros(|one|)[m..k] + two[k..]
  }

  lemma {:induction false} FinishRuns(slots: nat, two: Frame, bytes: Frame)
    requires slots > 0 && |bytes| <= |two|
    ensures var k := |bytes|;
            var h := Halfway(Once(slots, two), bytes);
            && Shaped(h)
            && Run(h, Reads(k, |two|) + [ReadEnd(7)])
               == Once(slots, two).(readers := map[7 := Done(SlotOf(1, slots), |two|, 1, Some(bytes + two[k..]))])
  {
    var r, k := Once(slots, two), |bytes|;
    var all := bytes + two[k..];
    ReadsRun(r, bytes, |two|);
    assert r.cells[SlotOf(1, slots)] == two && two[k..|two|] == two[k..];
    GetsAll(all);
    var h := Halfway(r, all);
    assert Enabled(h, ReadEnd(7));
    RunThen(Halfway(r, bytes), Reads(k, |two|), ReadEnd(7), h);
  }

  /** The blank file read on to byte k, and the second frame published over it. */
  lemma {:induction false} BlankReads(slots: nat, one: Frame, m: nat, k: nat)
    requires slots > 0 && m <= k <= |one|
    ensures var h := Halfway(Fresh(slots, |one|), one[..m]);
            && Shaped(h) && Run(h, Reads(m, k)) == Halfway(Fresh(slots, |one|), one[..m] + Zeros(|one|)[m..k])
  {
    var blank := Fresh(slots, |one|);
    assert |one[..m]| == m && blank.cells[SlotOf(1, slots)] == Zeros(|one|);
    ReadsRun(blank, one[..m], k);
  }

  lemma {:induction false} PublishesUnder(slots: nat, two: Frame, bytes: Frame)
    requires slots > 0
    ensures var h := Halfway(Fresh(slots, |two|), bytes);
            Shaped(h) && Run(h, PublishSteps(two)) == Halfway(Once(slots, two), bytes)
  {
    var blank := Fresh(slots, |two|);
    var h := Halfway(blank, bytes);
    OncePublished(slots, two, h.readers);
    assert blank.(readers := h.readers) == h;
    assert Once(slots, two).(readers := h.readers) == Halfway(Once(slots, two), bytes);
  }

  lemma {:induction false} LateRuns(slots: nat, one: Frame, two: Frame, m: nat, k: nat)
    requires slots > 0 && m <= k <= |one| == |two|
    ensures var r := Halfway(Fresh(slots, |one|), one[..m]);
            && Shaped(r)
            && Run(r, Late(two, m, k))
               == Once(slots, two).(
                    readers := map[7 := Done(SlotOf(1, slots), |two|, 1, Some(Stitched(one, two, m, k)))])
  {
    var start := Halfway(Fresh(slots, |one|), one[..m]);
    var bytes := one[..m] + Zeros(|one|)[m..k];
    assert |bytes| == k;
    hide Run, Halfway, Once, Reads, Shaped, Fresh, PublishSteps;
    BlankReads(slots, one, m, k);
    PublishesUnder(slots, two, bytes);
    FinishRuns(slots, two, bytes);
    RunOn(Run(start, Reads(m, k)), PublishSteps(two), Reads(k, |two|) + [ReadEnd(7)]);
    RunOn(start, Reads(m, k), PublishSteps(two) + (Reads(k, |two|) + [ReadEnd(7)]));
  }

  ghost predicate BeginsNothing(steps: seq<Step>) {
    forall i :: 0 <= i < |steps| ==> !steps[i].ReadBegin?
  }

  lemma {:induction false} ReadsBeginNothing(from: nat, end: nat)
    ensures BeginsNothing(Reads(from, end))
  {
    if end > from {
      ReadsBeginNothing(from, end - 1);
    }
  }

  lemma {:induction false} CopiesBeginNothing(frame: Frame, n: nat)
    ensures BeginsNothing(CopySteps(frame, n))
  {
    if n > 0 {
      CopiesBeginNothing(frame, n - 1);
    }
  }

  lemma {:induction false} LateBeginsNothing(two: Frame, m: nat, k: nat)
    ensures BeginsNothing(Late(two, m, k))
  {
    ReadsBeginNothing(m, k);
    ReadsBeginNothing(k, |two|);
    CopiesBeginNothing(two, |two|);
    hide Reads, CopySteps;
  }

  lemma {:induction false} StillInHand(r: Ring, steps: seq<Step>, id: nat)
    requires Shaped(r) && BeginsNothing(steps) && id in r.readers && r.readers[id].Copying?
    ensures InHand(r, steps, id)
  {
    if steps != [] {
      StillInHand(r, steps[..|steps| - 1], id);
    }
  }

  /** Truncation in place breaks the promise, in a ring of any shape. A copy of one frame
      stands at byte m; the file is truncated where it stands; the copy goes on to byte k
      in the blank file; another frame is published, under the same number. The rest of
      the copy passes both checks, and the reader is given the first frame up to m, zeros
      up to k, and the second frame from there. */
  lemma {:induction false} TruncationInPlaceTears(slots: nat, one: Frame, two: Frame, m: nat, k: nat)
    requires slots > 0 && m <= k <= |one| == |two|
    ensures var b := History(slots, |one|, Early(slots, one, m));
            var r := Run(Truncated(b), Late(two, m, k));
            && b.begun == map[0 := Zeros(|one|), 1 := one] && r.begun == map[0 := Zeros(|one|), 1 := two]
            && InHand(Truncated(b), Late(two, m, k), 7) && Delivers(r, 7)
            && r.readers[7].want == 1 && r.readers[7].result == Some(one[..m] + Zeros(|one|)[m..k] + two[k..])
  {
    EarlyRuns(slots, one, m);
    LateRuns(slots, one, two, m, k);
    LateBeginsNothing(two, m, k);
    var b := History(slots, |one|, Early(slots, one, m));
    assert Truncated(b) == Halfway(Fresh(slots, |one|), one[..m]);
    hide Run, History, Late, Early;
    StillInHand(Truncated(b), Late(two, m, k), 7);
  }

  // ---- exactly when a read is torn -----------------------------------------------------------------------------

  /** A ring's life until its file is truncated in place, what happens since, and a reader. */
  datatype Lives = Lives(slots: nat, size: nat, steps: seq<Step>, more: seq<Step>, id: nat)

  ghost predicate Started(l: Lives) {
    l.slots > 0 && Shaped(Truncated(History(l.slots, l.size, l.steps)))
  }

  /** The reader's copy was in hand at the truncation. */
  ghost predicate Spans(l: Lives)
    requires Started(l)
  {
    InHand(Truncated(History(l.slots, l.size, l.steps)), l.more, l.id)
  }

  /** The reader is given what no publication of either life was. */
  ghost predicate Torn(l: Lives)
    requires Started(l)
  {
    var b := History(l.slots, l.size, l.steps);
    var r := Run(Truncated(b), l.more);
    Delivers(r, l.id) && !Whole(b.begun, r, r.readers[l.id].result.value)
  }

  /** The reader is given what neither life published under the number asked for. */
  ghost predicate Mistaken(l: Lives)
    requires Started(l)
  {
    var b := History(l.slots, l.size, l.steps);
    var r := Run(Truncated(b), l.more);
    Delivers(r, l.id) && !Right(b.begun, r, r.readers[l.id].want, r.readers[l.id].result.value)
  }

  function Filled(size: nat, x: int): (frame: Frame)
    ensures |frame| == size && forall i :: 0 <= i < size ==> frame[i] == x
  {
    seq(size, _ => x)
  }

  lemma {:induction false} SomeTorn(slots: nat, size: nat) returns (l: Lives)
    requires slots > 0 && size >= 2
    ensures l.slots == slots && l.size == size && Started(l) && Torn(l)
  {
    var one, two := Filled(size, 1), Filled(size, 2);
    TruncationInPlaceTears(slots, one, two, 1, 1);
    l := Lives(slots, size, Early(slots, one, 1), Late(two, 1, 1), 7);
    var b := History(slots, size, l.steps);
    var frame := one[..1] + Zeros(size)[1..1] + two[1..];
    assert frame[0] == 1 && frame[1] == 2;
    assert Zeros(size)[0] == 0 && one[1] == 1 && two[0] == 2;
  }

  lemma {:induction false} SomeMistaken(slots: nat, size: nat) returns (l: Lives)
    requires slots > 0 && size >= 1
    ensures l.slots == slots && l.size == size && Started(l) && Mistaken(l)
  {
    var one, two := Filled(size, 1), Filled(size, 2);
    TruncationInPlaceTears(slots, one, two, 0, size);
    l := Lives(slots, size, Early(slots, one, 0), Late(two, 0, size), 7);
    var frame := one[..0] + Zeros(size)[0..size] + two[size..];
    assert frame[0] == 0 && one[0] == 1 && two[0] == 2;
  }

  /** Truncated in place, whatever is published and read before and since, no read is given
      a mix of frames exactly when no copy in hand spans the truncation or a frame is at
      most one byte. */
  lemma {:induction false} TornExactly(slots: nat, size: nat, spanning: bool)
    requires slots > 0
    ensures (forall l: Lives ::
               l.slots == slots && l.size == size && Started(l) && (Spans(l) ==> spanning) ==> !Torn(l))
            <==> !spanning || size <= 1
  {
    forall l: Lives | l.slots == slots && l.size == size && Started(l) && Torn(l)
      ensures Spans(l) && size >= 2
    {
      if !Spans(l) {
        ReadSinceIsRight(slots, size, l.steps, l.more, l.id);
      }
      if size <= 1 {
        SmallIsWhole(slots, size, l.steps, l.more, l.id);
      }
    }
    if size >= 2 {
      var l := SomeTorn(slots, size);
    }
  }

  /** And no read is given another frame than one of its number exactly when no copy in
      hand spans the truncation or a frame has no bytes. */
  lemma {:induction false} MistakenExactly(slots: nat, size: nat, spanning: bool)
    requires slots > 0
    ensures (forall l: Lives ::
               l.slots == slots && l.size == size && Started(l) && (Spans(l) ==> spanning) ==> !Mistaken(l))
            <==> !spanning || size == 0
  {
    forall l: Lives | l.slots == slots && l.size == size && Started(l) && Mistaken(l)
      ensures Spans(l) && size >= 1
    {
      if !Spans(l) {
        ReadSinceIsRight(slots, size, l.steps, l.more, l.id);
      }
      if size == 0 {
        SmallIsWhole(slots, size, l.steps, l.more, l.id);
      }
    }
    if size >= 1 {
      var l := SomeMistaken(slots, size);
    }
  }
}
