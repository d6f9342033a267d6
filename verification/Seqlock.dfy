/** ring.py: the sequence-lock protocol between the one writer of a frame ring and
    any number of readers, as interleaved steps that each touch one word or one byte.

    Memory is sequentially consistent and the 8-byte sequence word is read and
    written in one step. The bytes of a frame are copied in any order. */
module Seqlock {

  type Frame = seq<int>

  datatype Option<T> = None | Some(value: T)

  /** A sequence word: 2 * seq when even (stable), 2 * seq - 1 when odd (being written). */
  datatype Word = Word(seqNo: nat, even: bool)

  /** What the writer is in the middle of: the bytes still to copy are `left`. */
  datatype Writer = Idle | Writing(frame: Frame, left: set<nat>)

  /** A `read(slot, expect_seq)` under way or finished. `size` is the frame size
      the reader mapped the ring with. */
  datatype Reader =
    | Copying(slot: nat, size: nat, want: nat, got: map<nat, int>)
    | Done(slot: nat, size: nat, want: nat, result: Option<Frame>)

  /** `begun` and `stable` are history: the frame each sequence number was begun
      with, and the sequence numbers whose copy was completed. Number 0 stands for
      the zero bytes of the fresh file. */
  datatype Ring = Ring(
    slots: nat, size: nat, words: seq<Word>, cells: seq<Frame>, last: nat, writer: Writer,
    begun: map<nat, Frame>, stable: set<nat>, readers: map<nat, Reader>)

  datatype Step =
    | Begin(frame: Frame)
    | CopyByte(i: nat)
    | End
    | Abort
    | ReadBegin(id: nat, slot: nat, size: nat, want: nat)
    | ReadByte(id: nat, i: nat)
    | ReadEnd(id: nat)

  predicate Below(i: nat, n: nat) { i < n }

  function Positions(n: nat): set<nat> { set i: nat | i < n && Below(i, n) }

  function Zeros(n: nat): Frame { seq(n, _ => 0) }

  /** A fresh file: every control entry and every frame slot is zero. */
  function Fresh(slots: nat, size: nat): Ring {
    Ring(slots, size, seq(slots, _ => Word(0, true)), seq(slots, _ => Zeros(size)), 0, Idle,
         map[0 := Zeros(size)], {0}, map[])
  }

  // ---- slots and offsets ----------------------------------------------------------------

  /** `seq % slots`. */
  function SlotOf(k: nat, slots: nat): (s: nat)
    requires slots > 0
    ensures s < slots
  {
    if k < slots then k else SlotOf(k - slots, slots)
  }

  lemma {:induction false} QuotientIsUnique(a: nat, b: nat, q: nat, r: nat)
    requires b > 0 && r < b && a == q * b + r
    ensures a / b == q && a % b == r
  {
    var d := q - a / b;
    assert d * b == a % b - r by {
      assert a == a / b * b + a % b;
    }
    Multiples(d, b);
  }

  lemma {:induction false} Multiples(d: int, b: int)
    requires b >= 0
    ensures d >= 1 ==> d * b >= b
    ensures d <= -1 ==> d * b <= -b
  {
    if d >= 1 {
      assert (d - 1) * b >= 0;
    } else if d <= -1 {
      assert (-d - 1) * b >= 0;
    }
  }

  lemma {:induction false} SlotOfIsModulo(k: nat, slots: nat)
    requires slots > 0
    ensures SlotOf(k, slots) == k % slots
  {
    if k >= slots {
      SlotOfIsModulo(k - slots, slots);
      QuotientIsUnique(k, slots, (k - slots) / slots + 1, (k - slots) % slots);
    } else {
      QuotientIsUnique(k, slots, 0, k);
    }
  }

  /** Two different numbers of one slot are at least a whole ring apart. */
  lemma {:induction false} SameSlotFarApart(a: nat, b: nat, slots: nat)
    requires slots > 0 && a < b && SlotOf(a, slots) == SlotOf(b, slots)
    ensures a + slots <= b
  {
    if a >= slots {
      SameSlotFarApart(a - slots, b - slots, slots);
    }
  }

  lemma {:induction false} OffsetOfByte(slot: nat, size: nat, i: nat, slots: nat)
    requires i < size && slot < slots
    ensures slot * size + i < slots * size
    ensures (slot * size + i) / size == slot && (slot * size + i) % size == i
  {
    QuotientIsUnique(slot * size + i, size, slot, i);
    assert (slot + 1) * size <= slots * size;
  }

  /** The byte at an offset into the frame area, whichever slot that lies in. */
  function ByteAt(r: Ring, offset: nat): int {
    if r.size > 0 && offset / r.size < |r.cells| && offset % r.size < |r.cells[offset / r.size]|
    then r.cells[offset / r.size][offset % r.size] else 0
  }

  lemma {:induction false} OwnByte(r: Ring, slot: nat, i: nat)
    requires Shaped(r) && slot < r.slots && i < r.size
    ensures ByteAt(r, slot * r.size + i) == r.cells[slot][i]
  {
    OffsetOfByte(slot, r.size, i, r.slots);
  }

  // ---- the steps ------------------------------------------------------------------------

  ghost predicate Shaped(r: Ring) {
    && r.slots > 0 && |r.words| == r.slots && |r.cells| == r.slots
    && forall s :: 0 <= s < r.slots ==> |r.cells[s]| == r.size
  }

  ghost predicate Enabled(r: Ring, step: Step)
    requires Shaped(r)
  {
    match step
    case Begin(_) => r.writer.Idle?
    case CopyByte(i) => r.writer.Writing? && |r.writer.frame| == r.size && i in r.writer.left && i < r.size
    case End => r.writer.Writing? && |r.writer.frame| == r.size && r.writer.left == {}
    case Abort => r.writer.Writing?
    case ReadBegin(id, slot, size, want) => slot < r.slots && (id in r.readers ==> r.readers[id].Done?)
    case ReadByte(id, i) => id in r.readers && r.readers[id].Copying? && i < r.readers[id].size
    case ReadEnd(id) =>
      id in r.readers && r.readers[id].Copying? && r.readers[id].got.Keys == Positions(r.readers[id].size)
  }

  /** The slot the writer is at. */
  function Here(r: Ring): (s: nat)
    requires r.slots > 0
    ensures s < r.slots
  {
    SlotOf(r.last, r.slots)
  }

  /** seq -> ODD. */
  function AfterBegin(r: Ring, frame: Frame): Ring
    requires r.slots > 0 && |r.words| == r.slots
  {
    var q := r.last + 1;
    r.(last := q, words := r.words[SlotOf(q, r.slots) := Word(q, false)], begun := r.begun[q := frame],
       writer := Writing(frame, Positions(r.size)))
  }

  function AfterCopyByte(r: Ring, i: nat): Ring
    requires r.slots > 0 && |r.cells| == r.slots && i < |r.cells[Here(r)]|
    requires r.writer.Writing? && i < |r.writer.frame|
  {
    r.(cells := r.cells[Here(r) := r.cells[Here(r)][i := r.writer.frame[i]]],
       writer := Writing(r.writer.frame, r.writer.left - {i}))
  }

  /** seq -> EVEN. */
  function AfterEnd(r: Ring): Ring
    requires r.slots > 0 && |r.words| == r.slots
  {
    r.(words := r.words[Here(r) := Word(r.last, true)], stable := r.stable + {r.last}, writer := Idle)
  }

  /** The first check: odd, or not the number asked for, and the frame is refused. */
  function BeginRead(word: Word, slot: nat, size: nat, want: nat): Reader {
    if !word.even || word.seqNo != want then Done(slot, size, want, None) else Copying(slot, size, want, map[])
  }

  /** The second check: the word has moved, and the copy is discarded. */
  ghost function EndRead(word: Word, c: Reader): Reader
    requires c.Copying? && c.got.Keys == Positions(c.size)
  {
    Done(c.slot, c.size, c.want, if word == Word(c.want, true) then Some(Copied(c.got, c.size)) else None)
  }

  ghost function Copied(got: map<nat, int>, size: nat): (f: Frame)
    requires got.Keys == Positions(size)
    ensures |f| == size && forall i :: 0 <= i < size ==> f[i] == got[i]
  {
    assert forall i: nat :: i < size ==> i in Positions(size);
    seq(size, i requires 0 <= i < size => got[i])
  }

  ghost function WordAt(r: Ring, s: nat): Word {
    if s < |r.words| then r.words[s] else Word(0, false)
  }

  ghost function Next(r: Ring, step: Step): Ring
    requires Shaped(r) && Enabled(r, step)
  {
    match step
    case Begin(frame) => AfterBegin(r, frame)
    case CopyByte(i) => AfterCopyByte(r, i)
    case End => AfterEnd(r)
    case Abort => r.(writer := Idle)
    case ReadBegin(id, slot, size, want) => r.(readers := r.readers[id := BeginRead(WordAt(r, slot), slot, size, want)])
    case ReadByte(id, i) =>
      var c := r.readers[id];
      r.(readers := r.readers[id := c.(got := c.got[i := ByteAt(r, c.slot * c.size + i)])])
    case ReadEnd(id) =>
      var c := r.readers[id];
      r.(readers := r.readers[id := EndRead(WordAt(r, c.slot), c)])
  }

  // ---- what every step keeps -------------------------------------------------------------

  ghost predicate Stands(r: Ring, k: nat)
    requires Shaped(r)
  {
    var w := r.words[SlotOf(k, r.slots)];
    w.seqNo > k || w == Word(k, true)
  }

  ghost predicate Reached(r: Ring, k: nat)
    requires Shaped(r)
  {
    k <= r.words[SlotOf(k, r.slots)].seqNo
  }

  ghost predicate Belongs(r: Ring, s: nat)
    requires Shaped(r) && s < r.slots
  {
    && r.words[s].seqNo <= r.last
    && (r.words[s].seqNo > 0 ==> SlotOf(r.words[s].seqNo, r.slots) == s)
    && (r.words[s].even ==> r.words[s].seqNo in r.stable)
  }

  /** History and control words agree: a word names a publication of its own slot,
      none begun in that slot is later, and completed ones were made even. */
  ghost predicate HistoryInv(r: Ring) {
    && Shaped(r)
    && (forall k :: k in r.begun <==> 0 <= k <= r.last)
    && (forall k :: k in r.stable ==> k <= r.last)
    && (forall s: nat :: s < r.slots ==> Belongs(r, s))
    && (forall k: nat :: 1 <= k <= r.last ==> Reached(r, k))
    && (forall k: nat :: k in r.stable && k > 0 ==> Stands(r, k))
  }

  /** An even word vouches for the whole cell. */
  ghost predicate CellInv(r: Ring, s: nat)
    requires Shaped(r) && s < r.slots
  {
    var w := r.words[s];
    w.even ==> w.seqNo in r.begun && r.cells[s] == r.begun[w.seqNo]
  }

  ghost predicate CopiedSoFar(cell: Frame, frame: Frame, left: set<nat>) {
    |cell| == |frame| ==> forall i: nat :: i < |cell| && i !in left ==> cell[i] == frame[i]
  }

  ghost predicate WriterInv(r: Ring)
    requires Shaped(r)
  {
    r.writer.Writing? ==>
      && r.last > 0 && r.words[Here(r)] == Word(r.last, false)
      && r.last in r.begun && r.begun[r.last] == r.writer.frame
      && CopiedSoFar(r.cells[Here(r)], r.writer.frame, r.writer.left)
  }

  /** A reader that mapped the ring at its own size: while the word has not moved
      its bytes are those of the cell; once finished, its frame is the one asked for. */
  ghost predicate ReaderInv(r: Ring, c: Reader)
    requires Shaped(r)
  {
    match c
    case Copying(slot, size, want, got) =>
      && slot < r.slots && want <= r.words[slot].seqNo
      && (r.words[slot] == Word(want, true) && size == r.size ==> Matches(got, r.cells[slot]))
      && (r.words[slot].seqNo == want ==> r.words[slot].even)
    case Done(slot, size, want, result) =>
      result.Some? && size == r.size ==> want in r.stable && want in r.begun && result.value == r.begun[want]
  }

  ghost predicate Matches(got: map<nat, int>, cell: Frame) {
    forall i: nat :: i in got && i < |cell| ==> got[i] == cell[i]
  }

  ghost predicate CellsInv(r: Ring)
    requires Shaped(r)
  {
    forall s: nat :: s < r.slots ==> CellInv(r, s)
  }

  ghost predicate Inv(r: Ring) {
    && HistoryInv(r)
    && CellsInv(r)
    && WriterInv(r)
    && (forall id :: id in r.readers ==> ReaderInv(r, r.readers[id]))
  }

  lemma {:induction false} FreshInv(slots: nat, size: nat)
    requires slots > 0
    ensures Inv(Fresh(slots, size))
  {
  }

  /** The word of a slot is even at k exactly when publication k was completed and
      publication k + slots has not begun. */
  lemma {:induction false} SlotHolds(r: Ring, k: nat)
    requires HistoryInv(r) && k >= 1
    ensures r.words[SlotOf(k, r.slots)] == Word(k, true) <==> k in r.stable && r.last < k + r.slots
  {
    var s := SlotOf(k, r.slots);
    var w := r.words[s];
    assert Belongs(r, s);
    if r.last >= k + r.slots {
      assert SlotOf(k + r.slots, r.slots) == s;
      assert Reached(r, k + r.slots);
    } else if k in r.stable {
      assert Stands(r, k);
      if w.seqNo > k {
        SameSlotFarApart(k, w.seqNo, r.slots);
      }
    }
  }

  // ---- preservation ---------------------------------------------------------------------------

  lemma {:induction false} BeginKeepsHistory(r: Ring, frame: Frame)
    requires HistoryInv(r)
    ensures HistoryInv(AfterBegin(r, frame))
  {
    var r' := AfterBegin(r, frame);
    forall s: nat | s < r'.slots
      ensures Belongs(r', s)
    {
      assert Belongs(r, s);
    }
    forall k: nat | 1 <= k <= r'.last
      ensures Reached(r', k)
    {
      assert k <= r.last ==> Reached(r, k);
    }
    forall k: nat | k in r'.stable && k > 0
      ensures Stands(r', k)
    {
      assert Stands(r, k);
    }
  }

  lemma {:induction false} EndKeepsHistory(r: Ring)
    requires HistoryInv(r) && WriterInv(r) && r.writer.Writing?
    ensures HistoryInv(AfterEnd(r))
  {
    var r' := AfterEnd(r);
    forall s: nat | s < r'.slots
      ensures Belongs(r', s)
    {
      assert Belongs(r, s);
    }
    forall k: nat | 1 <= k <= r'.last
      ensures Reached(r', k)
    {
      assert Reached(r, k);
    }
    forall k: nat | k in r'.stable && k > 0
      ensures Stands(r', k)
    {
      assert k in r.stable ==> Stands(r, k);
    }
  }

  lemma {:induction false} SameHistory(r: Ring, r': Ring)
    requires HistoryInv(r) && Shaped(r')
    requires r' == r.(cells := r'.cells, writer := r'.writer, readers := r'.readers)
    ensures HistoryInv(r')
  {
    forall s: nat | s < r'.slots
      ensures Belongs(r', s)
    {
      assert Belongs(r, s);
    }
    forall k: nat | 1 <= k <= r'.last
      ensures Reached(r', k)
    {
      assert Reached(r, k);
    }
    forall k: nat | k in r'.stable && k > 0
      ensures Stands(r', k)
    {
      assert Stands(r, k);
    }
  }

  lemma {:induction false} NextKeepsHistory(r: Ring, step: Step)
    requires HistoryInv(r) && WriterInv(r) && Enabled(r, step)
    ensures HistoryInv(Next(r, step))
  {
    match step
    case Begin(frame) => BeginKeepsHistory(r, frame);
    case End => EndKeepsHistory(r);
    case _ => SameHistory(r, Next(r, step));
  }

  lemma {:induction false} BeginKeepsRest(r: Ring, frame: Frame)
    requires HistoryInv(r) && CellsInv(r)
    ensures CellsInv(AfterBegin(r, frame)) && WriterInv(AfterBegin(r, frame))
  {
    var r' := AfterBegin(r, frame);
    forall s: nat | s < r'.slots
      ensures CellInv(r', s)
    {
      assert CellInv(r, s) && Belongs(r, s);
    }
    forall i: nat | i < r.size
      ensures i in Positions(r.size)
    {
      assert Below(i, r.size);
    }
  }

  lemma {:induction false} CopyKeepsRest(r: Ring, i: nat)
    requires Shaped(r) && CellsInv(r) && WriterInv(r) && Enabled(r, CopyByte(i))
    ensures CellsInv(AfterCopyByte(r, i)) && WriterInv(AfterCopyByte(r, i))
  {
    var r' := AfterCopyByte(r, i);
    forall s: nat | s < r'.slots
      ensures CellInv(r', s)
    {
      assert CellInv(r, s);
    }
  }

  lemma {:induction false} EndKeepsRest(r: Ring)
    requires Shaped(r) && CellsInv(r) && WriterInv(r) && Enabled(r, End)
    ensures CellsInv(AfterEnd(r)) && WriterInv(AfterEnd(r))
  {
    assert r.cells[Here(r)] == r.writer.frame;
    forall s: nat | s < r.slots
      ensures CellInv(AfterEnd(r), s)
    {
      assert CellInv(r, s);
    }
  }

  lemma {:induction false} NextKeepsCells(r: Ring, step: Step)
    requires HistoryInv(r) && CellsInv(r) && WriterInv(r) && Enabled(r, step)
    ensures CellsInv(Next(r, step)) && WriterInv(Next(r, step))
  {
    match step
    case Begin(frame) => BeginKeepsRest(r, frame);
    case CopyByte(i) => CopyKeepsRest(r, i);
    case End => EndKeepsRest(r);
    case _ => SameCells(r, Next(r, step));
  }

  lemma {:induction false} SameCells(r: Ring, r': Ring)
    requires Shaped(r) && CellsInv(r) && WriterInv(r)
    requires r' == r.(readers := r'.readers) || r' == r.(writer := Idle)
    ensures CellsInv(r') && WriterInv(r')
  {
    forall s: nat | s < r.slots
      ensures CellInv(r', s)
    {
      assert CellInv(r, s);
    }
  }

  /** A reader keeps its guarantee while others move. */
  lemma {:induction false} NextKeepsReader(r: Ring, step: Step, c: Reader)
    requires HistoryInv(r) && WriterInv(r) && Enabled(r, step) && Shaped(Next(r, step)) && ReaderInv(r, c)
    ensures ReaderInv(Next(r, step), c)
  {
    match step
    case Begin(frame) =>
      if c.Copying? {
        assert Belongs(r, c.slot);
      }
    case CopyByte(i) =>
    case End =>
    case _ =>
  }

  lemma {:induction false} ReadBeginOk(r: Ring, slot: nat, size: nat, want: nat)
    requires Shaped(r) && slot < r.slots
    ensures ReaderInv(r, BeginRead(WordAt(r, slot), slot, size, want))
  {
  }

  lemma {:induction false} ReadByteOk(r: Ring, c: Reader, i: nat)
    requires Shaped(r) && c.Copying? && i < c.size && ReaderInv(r, c)
    ensures ReaderInv(r, c.(got := c.got[i := ByteAt(r, c.slot * c.size + i)]))
  {
    if c.size == r.size {
      OwnByte(r, c.slot, i);
    }
  }

  lemma {:induction false} ReadEndOk(r: Ring, c: Reader)
    requires HistoryInv(r) && CellsInv(r) && c.Copying? && c.got.Keys == Positions(c.size) && ReaderInv(r, c)
    ensures ReaderInv(r, EndRead(WordAt(r, c.slot), c))
  {
    assert CellInv(r, c.slot) && Belongs(r, c.slot);
    if r.words[c.slot] == Word(c.want, true) && c.size == r.size {
      assert forall i: nat :: i < c.size ==> Below(i, c.size);
      assert Copied(c.got, c.size) == r.cells[c.slot];
    }
  }

  lemma {:induction false} ReaderIgnoresReaders(r: Ring, r': Ring, c: Reader)
    requires Shaped(r) && r' == r.(readers := r'.readers) && ReaderInv(r, c)
    ensures ReaderInv(r', c)
  {
  }

  predicate Begins(step: Step, id: nat) {
    step.ReadBegin? && step.id == id
  }

  /** A reader keeps its guarantee, or gets one by beginning to read. */
  lemma {:induction false} NextKeepsReaders(r: Ring, step: Step, id: nat)
    requires HistoryInv(r) && CellsInv(r) && WriterInv(r) && Enabled(r, step)
    requires Shaped(Next(r, step)) && id in Next(r, step).readers
    requires id in r.readers && !Begins(step, id) ==> ReaderInv(r, r.readers[id])
    ensures ReaderInv(Next(r, step), Next(r, step).readers[id])
  {
    var r' := Next(r, step);
    if Begins(step, id) {
      ReadBeginOk(r, step.slot, step.size, step.want);
      ReaderIgnoresReaders(r, r', r'.readers[id]);
    } else if r'.readers[id] == r.readers[id] {
      NextKeepsReader(r, step, r.readers[id]);
    } else {
      match step
      case ReadByte(_, i) =>
        ReadByteOk(r, r.readers[id], i);
        ReaderIgnoresReaders(r, r', r'.readers[id]);
      case ReadEnd(_) =>
        ReadEndOk(r, r.readers[id]);
        ReaderIgnoresReaders(r, r', r'.readers[id]);
    }
  }

  lemma {:induction false} NextKeepsInv(r: Ring, step: Step)
    requires Inv(r) && Enabled(r, step)
    ensures Inv(Next(r, step))
  {
    NextKeepsHistory(r, step);
    NextKeepsCells(r, step);
    forall id | id in Next(r, step).readers
      ensures ReaderInv(Next(r, step), Next(r, step).readers[id])
    {
      NextKeepsReaders(r, step, id);
    }
  }

  /** Publications already recorded are never rewritten, and none is forgotten. */
  ghost predicate Extends(r: Ring, r': Ring) {
    && r'.slots == r.slots && r'.size == r.size && r.last <= r'.last && r.stable <= r'.stable
    && forall k :: k in r.begun ==> k in r'.begun && r'.begun[k] == r.begun[k]
  }

  lemma {:induction false} NextExtends(r: Ring, step: Step)
    requires HistoryInv(r) && Enabled(r, step)
    ensures Extends(r, Next(r, step))
  {
  }

  // ---- whole runs ------------------------------------------------------------------------------

  lemma {:induction false} NextKeepsShape(r: Ring, step: Step)
    requires Shaped(r) && Enabled(r, step)
    ensures Shaped(Next(r, step))
  {
  }

  ghost function Try(r: Ring, step: Step): (r': Ring)
    requires Shaped(r)
    ensures Shaped(r')
  {
    if Enabled(r, step) then
      NextKeepsShape(r, step);
      Next(r, step)
    else r
  }

  /** The steps in order; a step that is not enabled does nothing. */
  ghost function Run(r: Ring, steps: seq<Step>): (r': Ring)
    requires Shaped(r)
    ensures Shaped(r')
  {
    if steps == [] then r else Try(Run(r, steps[..|steps| - 1]), steps[|steps| - 1])
  }

  lemma {:induction false} TryKeepsInv(r: Ring, step: Step)
    requires Inv(r)
    ensures Inv(Try(r, step)) && Extends(r, Try(r, step))
  {
    if Enabled(r, step) {
      NextKeepsInv(r, step);
      NextExtends(r, step);
    }
  }

  lemma {:induction false} ExtendsFurther(a: Ring, b: Ring, c: Ring)
    requires Extends(a, b) && Extends(b, c)
    ensures Extends(a, c)
  {
  }

  lemma {:induction false} RunKeepsInv(r: Ring, steps: seq<Step>)
    requires Inv(r)
    ensures Inv(Run(r, steps)) && Extends(r, Run(r, steps))
  {
    assert Shaped(r);
    hide Inv, Try, Extends;
    if steps == [] {
      ExtendsItself(r);
    } else {
      var before := Run(r, steps[..|steps| - 1]);
      RunKeepsInv(r, steps[..|steps| - 1]);
      TryKeepsInv(before, steps[|steps| - 1]);
      ExtendsFurther(r, before, Run(r, steps));
    }
  }

  lemma {:induction false} ExtendsItself(r: Ring)
    ensures Extends(r, r)
  {
  }

  /** What a ring has become since its file was made. */
  ghost function History(slots: nat, size: nat, steps: seq<Step>): Ring
    requires slots > 0
  {
    Run(Fresh(slots, size), steps)
  }

  /** Under every interleaving of writer steps with any number of readers, a read
      that returns a frame returns exactly the frame published with the sequence
      number asked for, whole: never a mix of two, never one still being written.
      Number 0 was never published and stands for the zeros of a fresh slot. */
  lemma {:induction false} NoTornRead(slots: nat, size: nat, steps: seq<Step>, id: nat)
    requires slots > 0
    requires var r := History(slots, size, steps);
             id in r.readers && r.readers[id].Done? && r.readers[id].result.Some? && r.readers[id].size == r.size
    ensures var r := History(slots, size, steps);
            var c := r.readers[id];
            c.want in r.stable && c.want in r.begun && c.result.value == r.begun[c.want]
  {
    FreshInv(slots, size);
    RunKeepsInv(Fresh(slots, size), steps);
    var r := History(slots, size, steps);
    assert ReaderInv(r, r.readers[id]);
  }

  /** The first check passes exactly when the frame was completed and its slot has
      not been taken again. */
  lemma {:induction false} BeginReadExactly(r: Ring, size: nat, want: nat)
    requires HistoryInv(r) && want >= 1
    ensures BeginRead(WordAt(r, SlotOf(want, r.slots)), SlotOf(want, r.slots), size, want).Copying?
            <==> want in r.stable && r.last < want + r.slots
  {
    SlotHolds(r, want);
  }

  /** A finished copy is delivered exactly when the slot has still not been taken again. */
  lemma {:induction false} EndReadExactly(r: Ring, c: Reader)
    requires Inv(r) && c.Copying? && ReaderInv(r, c) && c.got.Keys == Positions(c.size)
    requires c.want >= 1 && c.slot == SlotOf(c.want, r.slots) && c.size == r.size
    ensures EndRead(WordAt(r, c.slot), c).result.Some? <==> c.want in r.stable && r.last < c.want + r.slots
    ensures EndRead(WordAt(r, c.slot), c).result.Some? ==>
              c.want in r.begun && EndRead(WordAt(r, c.slot), c).result.value == r.begun[c.want]
  {
    SlotHolds(r, c.want);
    ReadEndOk(r, c);
  }

  // ---- a publication run alone ---------------------------------------------------------------------

  /** The writer's steps for one frame up to its first n bytes. */
  function CopySteps(frame: Frame, n: nat): seq<Step> {
    if n == 0 then [Begin(frame)] else CopySteps(frame, n - 1) + [CopyByte(n - 1)]
  }

  /** The writer's steps for one frame. */
  function PublishSteps(frame: Frame): seq<Step> {
    CopySteps(frame, |frame|) + [End]
  }

  /** What they leave behind. */
  function Published(r: Ring, frame: Frame): Ring
    requires Shaped(r) && |frame| == r.size
  {
    var q := r.last + 1;
    var s := SlotOf(q, r.slots);
    r.(last := q, words := r.words[s := Word(q, true)], cells := r.cells[s := frame],
       begun := r.begun[q := frame], stable := r.stable + {q}, writer := Idle)
  }

  lemma {:induction false} RunThen(r: Ring, steps: seq<Step>, step: Step, m: Ring)
    requires Shaped(r) && Run(r, steps) == m && Enabled(m, step)
    ensures Run(r, steps + [step]) == Next(m, step)
  {
    var all := steps + [step];
    assert all[..|all| - 1] == steps;
  }

  lemma {:induction false} CopyOneMore(cell: Frame, frame: Frame, n: nat)
    requires |cell| == |frame| && n < |frame|
    ensures (frame[..n] + cell[n..])[n := frame[n]] == frame[..n + 1] + cell[n + 1..]
  {
  }

  /** The ring with the first n bytes of its next frame written. */
  function Midway(r: Ring, frame: Frame, n: nat): Ring
    requires Shaped(r) && |frame| == r.size && n <= r.size
  {
    var s := SlotOf(r.last + 1, r.slots);
    AfterBegin(r, frame).(cells := r.cells[s := frame[..n] + r.cells[s][n..]],
                          writer := Writing(frame, Positions(r.size) - Positions(n)))
  }

  lemma {:induction false} OnePositionMore(n: nat)
    ensures Positions(n + 1) == Positions(n) + {n}
  {
    forall i: nat
      ensures i in Positions(n + 1) <==> i in Positions(n) + {n}
    {
      assert Below(i, n + 1) <==> i < n + 1;
      assert Below(i, n) <==> i < n;
    }
  }

  lemma {:induction false} MidwayStep(r: Ring, frame: Frame, n: nat)
    requires Shaped(r) && |frame| == r.size && n < r.size
    ensures Shaped(Midway(r, frame, n)) && Enabled(Midway(r, frame, n), CopyByte(n))
    ensures Next(Midway(r, frame, n), CopyByte(n)) == Midway(r, frame, n + 1)
  {
    var s := SlotOf(r.last + 1, r.slots);
    CopyOneMore(r.cells[s], frame, n);
    assert Below(n, r.size);
    OnePositionMore(n);
    assert Positions(r.size) - Positions(n) - {n} == Positions(r.size) - Positions(n + 1);
    assert n in Positions(r.size);
    assert n !in Positions(n);
  }

  lemma {:induction false} MidwayBegins(r: Ring, frame: Frame)
    requires Shaped(r) && |frame| == r.size
    ensures Midway(r, frame, 0) == AfterBegin(r, frame)
  {
    var s := SlotOf(r.last + 1, r.slots);
    assert frame[..0] + r.cells[s][0..] == r.cells[s];
    assert Positions(r.size) - Positions(0) == Positions(r.size);
  }

  lemma {:induction false} FirstStep(r: Ring, frame: Frame)
    requires Shaped(r) && r.writer.Idle? && |frame| == r.size
    ensures Run(r, CopySteps(frame, 0)) == Midway(r, frame, 0)
  {
    assert CopySteps(frame, 0) == [] + [Begin(frame)];
    RunThen(r, [], Begin(frame), r);
    MidwayBegins(r, frame);
  }

  lemma {:induction false} CopyStepsCopy(r: Ring, frame: Frame, n: nat)
    requires Shaped(r) && r.writer.Idle? && |frame| == r.size && n <= r.size
    ensures Run(r, CopySteps(frame, n)) == Midway(r, frame, n)
  {
    hide Run, Midway;
    if n == 0 {
      FirstStep(r, frame);
    } else {
      CopyStepsCopy(r, frame, n - 1);
      MidwayStep(r, frame, n - 1);
      RunThen(r, CopySteps(frame, n - 1), CopyByte(n - 1), Midway(r, frame, n - 1));
    }
  }

  lemma {:induction false} MidwayEnds(r: Ring, frame: Frame)
    requires Shaped(r) && |frame| == r.size
    ensures var m := Midway(r, frame, r.size); Shaped(m) && Enabled(m, End) && Next(m, End) == Published(r, frame)
  {
    var q := r.last + 1;
    var s := SlotOf(q, r.slots);
    assert frame[..r.size] + r.cells[s][r.size..] == frame;
    assert Positions(r.size) - Positions(r.size) == {};
    assert r.words[s := Word(q, false)][s := Word(q, true)] == r.words[s := Word(q, true)];
  }

  /** A publication run alone puts its frame in the next slot under the next number. */
  lemma {:induction false} PublishRuns(r: Ring, frame: Frame)
    requires Shaped(r) && r.writer.Idle? && |frame| == r.size
    ensures Run(r, PublishSteps(frame)) == Published(r, frame)
  {
    hide Run, Midway;
    CopyStepsCopy(r, frame, r.size);
    MidwayEnds(r, frame);
    RunThen(r, CopySteps(frame, r.size), End, Midway(r, frame, r.size));
  }

  lemma {:induction false} RunOn(r: Ring, a: seq<Step>, b: seq<Step>)
    requires Shaped(r)
    ensures Run(r, a + b) == Run(Run(r, a), b)
  {
    hide Shaped, Try;
    if b == [] {
      assert a + b == a;
    } else {
      var init := b[..|b| - 1];
      assert (a + b)[..|a + b| - 1] == a + init;
      RunOn(r, a, init);
    }
  }
}
