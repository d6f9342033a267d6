/** ring.py and frame_source.py: the bytes of a frame ring. One mapped block holds a
    16-byte control entry per slot (sequence word, timestamp) and then the frame slots.

    Each method here runs with nobody beside it; Seqlock interleaves the same steps. */
module RingBytes {
  import opened Seqlock

  type Byte = b: int | 0 <= b < 256

  const CTRL_BYTES: nat := 4096
  const ENTRY: nat := 16
  const WORD_LIMIT: nat := 0x1_0000_0000_0000_0000

  /** A frame as the decoder hands it over: its rows and columns, and its bytes. */
  datatype Image = Image(rows: nat, cols: nat, data: seq<Byte>)

  datatype Outcome = Published(seqNo: nat, slot: nat) | WrongShape | WrongLength | Overflow

  // ---- little-endian words ------------------------------------------------------------------

  function Le(v: nat, n: nat): (b: seq<Byte>)
    ensures |b| == n
  {
    if n == 0 then [] else [v % 256] + Le(v / 256, n - 1)
  }

  function FromLe(b: seq<Byte>): nat {
    if b == [] then 0 else b[0] + 256 * FromLe(b[1..])
  }

  function Pow256(n: nat): nat {
    if n == 0 then 1 else 256 * Pow256(n - 1)
  }

  lemma {:induction false} FromLeInvertsLe(v: nat, n: nat)
    requires v < Pow256(n)
    ensures FromLe(Le(v, n)) == v
  {
    if n > 0 {
      FromLeInvertsLe(v / 256, n - 1);
      assert Le(v, n)[1..] == Le(v / 256, n - 1);
    }
  }

  /** The eight bytes of a word, least significant first. */
  function Packed(n: nat): (b: seq<Byte>)
    requires n < WORD_LIMIT
    ensures |b| == 8 && FromLe(b) == n
  {
    EightBytes();
    FromLeInvertsLe(n, 8);
    Le(n, 8)
  }

  lemma {:induction false} EightBytes()
    ensures Pow256(8) == WORD_LIMIT
  {
    assert Pow256(4) == 0x1_0000_0000;
    assert Pow256(8) == 256 * (256 * (256 * (256 * Pow256(4))));
  }

  /** What a stored number says: odd while the frame is being written. */
  function WordOf(n: nat): Word {
    if n % 2 == 1 then Word((n + 1) / 2, false) else Word(n / 2, true)
  }

  /** The reader's arithmetic on the stored number is the test of the word it stands for. */
  lemma {:induction false} StoredWord(n: nat, q: nat)
    ensures WordOf(2 * q) == Word(q, true)
    ensures q > 0 ==> WordOf(2 * q - 1) == Word(q, false)
    ensures n % 2 == 1 || n / 2 != q <==> WordOf(n) != Word(q, true)
  {
  }

  // ---- parts of the block -----------------------------------------------------------------------

  /** `block[at : at + |b|] = b`. */
  function Splice(block: seq<Byte>, at: nat, b: seq<Byte>): (r: seq<Byte>)
    requires at + |b| <= |block|
    ensures |r| == |block|
  {
    block[..at] + b + block[at + |b|..]
  }

  lemma {:induction false} SpliceThere(block: seq<Byte>, at: nat, b: seq<Byte>)
    requires at + |b| <= |block|
    ensures Splice(block, at, b)[at..at + |b|] == b
  {
  }

  lemma {:induction false} SpliceElsewhere(block: seq<Byte>, at: nat, b: seq<Byte>, from: nat, to: nat)
    requires at + |b| <= |block| && from <= to <= |block|
    requires to <= at || at + |b| <= from
    ensures Splice(block, at, b)[from..to] == block[from..to]
  {
    var r := Splice(block, at, b);
    forall k | from <= k < to
      ensures r[k] == block[k]
    {
    }
  }

  /** Where the frame of slot s starts: CTRL_BYTES + s * size. */
  function Base(s: nat, size: nat): (at: nat)
    ensures at >= CTRL_BYTES
  {
    if s == 0 then CTRL_BYTES else Base(s - 1, size) + size
  }

  lemma {:induction false} BaseIsProduct(s: nat, size: nat)
    ensures Base(s, size) == CTRL_BYTES + s * size
  {
    if s > 0 {
      BaseIsProduct(s - 1, size);
      assert s * size == (s - 1) * size + size;
    }
  }

  lemma {:induction false} SlotsApart(s: nat, t: nat, size: nat)
    requires s < t
    ensures Base(s, size) + size <= Base(t, size)
  {
    if s < t - 1 {
      SlotsApart(s, t - 1, size);
    }
  }

  predicate Fits(block: seq<Byte>, slots: nat, size: nat) {
    slots * ENTRY <= CTRL_BYTES && |block| == Base(slots, size)
  }

  function WordIn(block: seq<Byte>, s: nat): Word {
    if s * ENTRY + 8 <= |block| then WordOf(FromLe(block[s * ENTRY..s * ENTRY + 8])) else Word(0, false)
  }

  function CellIn(block: seq<Byte>, size: nat, s: nat): seq<Byte> {
    var at := Base(s, size);
    if at + size <= |block| then block[at..at + size] else []
  }

  function StampIn(block: seq<Byte>, s: nat): seq<Byte> {
    if s * ENTRY + 16 <= |block| then block[s * ENTRY + 8..s * ENTRY + 16] else []
  }

  function WordsIn(block: seq<Byte>, slots: nat): (w: seq<Word>)
    ensures |w| == slots && forall s :: 0 <= s < slots ==> w[s] == WordIn(block, s)
  {
    seq(slots, s requires 0 <= s => WordIn(block, s))
  }

  function CellsIn(block: seq<Byte>, slots: nat, size: nat): (c: seq<Frame>)
    ensures |c| == slots && forall s :: 0 <= s < slots ==> c[s] == CellIn(block, size, s)
  {
    seq(slots, s requires 0 <= s => CellIn(block, size, s))
  }

  /** The number in eight bytes, least significant first. */
  function Eight(b: seq<Byte>): nat
    requires |b| == 8
  {
    b[0] as int + 0x100 * (b[1] as int) + 0x1_0000 * (b[2] as int) + 0x100_0000 * (b[3] as int)
    + 0x1_0000_0000 * (b[4] as int) + 0x100_0000_0000 * (b[5] as int) + 0x1_0000_0000_0000 * (b[6] as int)
    + 0x100_0000_0000_0000 * (b[7] as int)
  }

  lemma {:induction false} EightIsLe(b: seq<Byte>)
    requires |b| == 8
    ensures FromLe(b) == Eight(b)
  {
    assert b[7..][1..] == [];
    assert FromLe(b[7..]) == b[7];
    assert FromLe(b[6..]) == b[6] + 256 * FromLe(b[6..][1..]) && b[6..][1..] == b[7..];
    assert FromLe(b[5..]) == b[5] + 256 * FromLe(b[5..][1..]) && b[5..][1..] == b[6..];
    assert FromLe(b[4..]) == b[4] + 256 * FromLe(b[4..][1..]) && b[4..][1..] == b[5..];
    assert FromLe(b[3..]) == b[3] + 256 * FromLe(b[3..][1..]) && b[3..][1..] == b[4..];
    assert FromLe(b[2..]) == b[2] + 256 * FromLe(b[2..][1..]) && b[2..][1..] == b[3..];
    assert FromLe(b[1..]) == b[1] + 256 * FromLe(b[1..][1..]) && b[1..][1..] == b[2..];
  }

  /** The layout both sides share: the word of slot s is the little-endian number in the eight
      bytes from 16 s on, twice the sequence number while stable and one less while written; its
      stamp is the next eight; and its frame is the bytes from 4096 + s * size on. */
  lemma {:induction false} BlockLayout(block: seq<Byte>, slots: nat, size: nat, s: nat, q: nat)
    requires Fits(block, slots, size) && s < slots && q > 0
    ensures |block| == 4096 + slots * size && 16 * s + 16 <= 4096 && 4096 + s * size + size <= |block|
    ensures WordIn(block, s) == Word(q, true) <==> Eight(block[16 * s..16 * s + 8]) == 2 * q
    ensures WordIn(block, s) == Word(q, false) <==> Eight(block[16 * s..16 * s + 8]) == 2 * q - 1
    ensures StampIn(block, s) == block[16 * s + 8..16 * s + 16]
    ensures CellIn(block, size, s) == block[4096 + s * size..4096 + s * size + size]
  {
    BaseIsProduct(s, size);
    BaseIsProduct(slots, size);
    SlotsApart(s, slots, size);
    assert s * ENTRY == 16 * s;
    EightIsLe(block[16 * s..16 * s + 8]);
  }

  // ---- what a write to one part leaves alone ------------------------------------------------------

  lemma {:induction false} ControlWriteSparesCell(block: seq<Byte>, size: nat, at: nat, b: seq<Byte>, t: nat)
    requires at + |b| <= CTRL_BYTES && Base(t, size) + size <= |block|
    ensures CellIn(Splice(block, at, b), size, t) == CellIn(block, size, t)
  {
    SpliceElsewhere(block, at, b, Base(t, size), Base(t, size) + size);
  }

  lemma {:induction false} WriteSparesWord(block: seq<Byte>, at: nat, b: seq<Byte>, t: nat)
    requires at + |b| <= |block| && t * ENTRY + 8 <= |block|
    requires at + |b| <= t * ENTRY || t * ENTRY + 8 <= at
    ensures WordIn(Splice(block, at, b), t) == WordIn(block, t)
  {
    SpliceElsewhere(block, at, b, t * ENTRY, t * ENTRY + 8);
  }

  lemma {:induction false} OwnWord(block: seq<Byte>, s: nat, b: seq<Byte>)
    requires s * ENTRY + |b| <= |block| && |b| == 8
    ensures WordIn(Splice(block, s * ENTRY, b), s) == WordOf(FromLe(b))
  {
    SpliceThere(block, s * ENTRY, b);
  }

  lemma {:induction false} FrameWriteCell(block: seq<Byte>, size: nat, s: nat, data: seq<Byte>, t: nat)
    requires |data| == size && Base(s, size) + size <= |block| && Base(t, size) + size <= |block|
    ensures CellIn(Splice(block, Base(s, size), data), size, t) == if t == s then data else CellIn(block, size, t)
  {
    if t == s {
      SpliceThere(block, Base(s, size), data);
    } else {
      SlotsApart(if t < s then t else s, if t < s then s else t, size);
      SpliceElsewhere(block, Base(s, size), data, Base(t, size), Base(t, size) + size);
    }
  }

  // ---- the writes of a publication ------------------------------------------------------------------

  lemma {:induction false} WriteWord(block: seq<Byte>, slots: nat, size: nat, s: nat, b: seq<Byte>)
    requires Fits(block, slots, size) && s < slots && |b| == 8
    ensures WordsIn(Splice(block, s * ENTRY, b), slots) == WordsIn(block, slots)[s := WordOf(FromLe(b))]
    ensures CellsIn(Splice(block, s * ENTRY, b), slots, size) == CellsIn(block, slots, size)
  {
    var r := Splice(block, s * ENTRY, b);
    OwnWord(block, s, b);
    forall t: nat | t < slots && t != s
      ensures WordIn(r, t) == WordIn(block, t)
    {
      WriteSparesWord(block, s * ENTRY, b, t);
    }
    forall t: nat | t < slots
      ensures CellIn(r, size, t) == CellIn(block, size, t)
    {
      SlotsApart(t, slots, size);
      ControlWriteSparesCell(block, size, s * ENTRY, b, t);
    }
  }

  lemma {:induction false} WriteStamp(block: seq<Byte>, slots: nat, size: nat, s: nat, ts: seq<Byte>)
    requires Fits(block, slots, size) && s < slots && |ts| == 8
    ensures WordsIn(Splice(block, s * ENTRY + 8, ts), slots) == WordsIn(block, slots)
    ensures CellsIn(Splice(block, s * ENTRY + 8, ts), slots, size) == CellsIn(block, slots, size)
    ensures StampIn(Splice(block, s * ENTRY + 8, ts), s) == ts
  {
    var r := Splice(block, s * ENTRY + 8, ts);
    SpliceThere(block, s * ENTRY + 8, ts);
    forall t: nat | t < slots
      ensures WordIn(r, t) == WordIn(block, t)
    {
      WriteSparesWord(block, s * ENTRY + 8, ts, t);
    }
    forall t: nat | t < slots
      ensures CellIn(r, size, t) == CellIn(block, size, t)
    {
      SlotsApart(t, slots, size);
      ControlWriteSparesCell(block, size, s * ENTRY + 8, ts, t);
    }
  }

  lemma {:induction false} WriteFrame(block: seq<Byte>, slots: nat, size: nat, s: nat, data: seq<Byte>)
    requires Fits(block, slots, size) && s < slots && |data| == size
    ensures Base(s, size) + size <= |block|
    ensures WordsIn(Splice(block, Base(s, size), data), slots) == WordsIn(block, slots)
    ensures CellsIn(Splice(block, Base(s, size), data), slots, size) == CellsIn(block, slots, size)[s := data]
  {
    SlotsApart(s, slots, size);
    var r := Splice(block, Base(s, size), data);
    forall t: nat | t < slots
      ensures WordIn(r, t) == WordIn(block, t)
    {
      WriteSparesWord(block, Base(s, size), data, t);
    }
    forall t: nat | t < slots
      ensures CellIn(r, size, t) == if t == s then data else CellIn(block, size, t)
    {
      SlotsApart(t, slots, size);
      FrameWriteCell(block, size, s, data, t);
    }
  }

  /** The stamp of a slot lies between its word and the next entry. */
  lemma {:induction false} StampKept(block: seq<Byte>, s: nat, b: seq<Byte>)
    requires s * ENTRY + 16 <= |block| && |b| == 8
    ensures StampIn(Splice(block, s * ENTRY, b), s) == StampIn(block, s)
  {
    SpliceElsewhere(block, s * ENTRY, b, s * ENTRY + 8, s * ENTRY + 16);
  }

  // ---- the writer and the reader ------------------------------------------------------------------------

  /** `block[at : at + |b|] = b`. */
  method Put(mm: array<Byte>, at: nat, b: seq<Byte>)
    requires at + |b| <= mm.Length
    modifies mm
    ensures mm[..] == Splice(old(mm[..]), at, b)
  {
    forall k | at <= k < at + |b| {
      mm[k] := b[k - at];
    }
  }

  /** Writer side of one camera's ring. */
  class FrameRing {
    const height: nat
    const width: nat
    const slots: nat
    const frameBytes: nat
    const mm: array<Byte>
    var seqNo: nat
    var bytesWritten: nat

    ghost predicate Valid()
      reads mm
    {
      slots >= 2 && Fits(mm[..], slots, frameBytes)
    }

    ghost function Words(): seq<Word>
      reads mm
    {
      WordsIn(mm[..], slots)
    }

    ghost function Cells(): seq<Frame>
      reads mm
    {
      CellsIn(mm[..], slots, frameBytes)
    }

    /** A fresh file: every word and every byte zero, as the protocol starts. */
    constructor (width: nat, height: nat, channels: nat, slots: nat)
      requires slots * ENTRY <= CTRL_BYTES
      ensures Valid() && fresh(mm) && seqNo == 0 && bytesWritten == 0
      ensures this.slots == (if slots < 2 then 2 else slots) && frameBytes == width * height * channels
      ensures this.width == width && this.height == height
      ensures Words() == Fresh(this.slots, frameBytes).words && Cells() == Fresh(this.slots, frameBytes).cells
    {
      var count := if slots < 2 then 2 else slots;
      var size := width * height * channels;
      BaseIsProduct(count, size);
      this.width, this.height, this.slots, this.frameBytes := width, height, count, size;
      mm := new Byte[CTRL_BYTES + count * size](_ => 0);
      seqNo, bytesWritten := 0, 0;
      new;
      ZeroBlock(mm[..], this.slots, frameBytes);
    }

    /** One word. */
    method Mark(slot: nat, n: nat)
      requires Valid() && slot < slots && n < WORD_LIMIT
      modifies mm
      ensures Valid() && Words() == old(Words())[slot := WordOf(n)] && Cells() == old(Cells())
      ensures StampIn(mm[..], slot) == old(StampIn(mm[..], slot))
    {
      WriteWord(mm[..], slots, frameBytes, slot, Packed(n));
      StampKept(mm[..], slot, Packed(n));
      Put(mm, slot * ENTRY, Packed(n));
    }

    /** One frame's bytes, then its timestamp. */
    method Fill(slot: nat, data: seq<Byte>, ts: seq<Byte>)
      requires Valid() && slot < slots && |data| == frameBytes && |ts| == 8
      modifies mm
      ensures Valid() && Words() == old(Words()) && Cells() == old(Cells())[slot := data]
      ensures StampIn(mm[..], slot) == ts
    {
      BaseIsProduct(slot, frameBytes);
      WriteFrame(mm[..], slots, frameBytes, slot, data);
      Put(mm, CTRL_BYTES + slot * frameBytes, data);
      WriteStamp(mm[..], slots, frameBytes, slot, ts);
      Put(mm, slot * ENTRY + 8, ts);
    }

    /** Writes one frame under the odd/even bracket. A frame of another shape is
        refused untouched. A frame of the right shape and the wrong length costs a
        number and leaves its slot odd until the slot comes round again, as does a
        number too large for its word. */
    method Publish(image: Image, ts: seq<Byte>) returns (outcome: Outcome)
      requires Valid() && |ts| == 8
      modifies this, mm
      ensures Valid()
      ensures outcome.WrongShape? <==> image.rows != height || image.cols != width
      ensures outcome.WrongShape? ==> seqNo == old(seqNo) && mm[..] == old(mm[..])
      ensures !outcome.WrongShape? ==> seqNo == old(seqNo) + 1
      ensures !outcome.WrongShape? ==>
                (outcome.Published? <==> |image.data| == frameBytes && 2 * seqNo < WORD_LIMIT)
      ensures outcome.Published? ==>
                && outcome == Published(seqNo, seqNo % slots)
                && Words() == old(Words())[seqNo % slots := Word(seqNo, true)]
                && Cells() == old(Cells())[seqNo % slots := image.data]
                && StampIn(mm[..], seqNo % slots) == ts
      ensures outcome.WrongLength? ==>
                && |image.data| != frameBytes && Cells() == old(Cells())
                && Words() == old(Words())[seqNo % slots := Word(seqNo, false)]
      ensures outcome.Overflow? ==> 2 * seqNo >= WORD_LIMIT
      ensures bytesWritten == old(bytesWritten) + (if outcome.Published? then frameBytes else 0)
    {
      if image.rows != height || image.cols != width {
        return WrongShape;
      }
      seqNo := seqNo + 1;
      var slot := seqNo % slots;
      if 2 * seqNo - 1 >= WORD_LIMIT {
        return Overflow;
      }
      StoredWord(0, seqNo);
      Mark(slot, 2 * seqNo - 1);
      if |image.data| != frameBytes {
        return WrongLength;
      }
      Fill(slot, image.data, ts);
      if 2 * seqNo >= WORD_LIMIT {
        return Overflow;
      }
      Mark(slot, 2 * seqNo);
      bytesWritten := bytesWritten + frameBytes;
      return Published(seqNo, slot);
    }
  }

  lemma {:induction false} ZeroBytes(b: seq<Byte>)
    requires forall i :: 0 <= i < |b| ==> b[i] == 0
    ensures FromLe(b) == 0
  {
    if b != [] {
      ZeroBytes(b[1..]);
    }
  }

  lemma {:induction false} ZeroBlock(block: seq<Byte>, slots: nat, size: nat)
    requires Fits(block, slots, size) && forall i :: 0 <= i < |block| ==> block[i] == 0
    ensures WordsIn(block, slots) == Fresh(slots, size).words && CellsIn(block, slots, size) == Fresh(slots, size).cells
  {
    forall s: nat | s < slots
      ensures WordIn(block, s) == Word(0, true) && CellIn(block, size, s) == Zeros(size)
    {
      ZeroBytes(block[s * ENTRY..s * ENTRY + 8]);
      SlotsApart(s, slots, size);
    }
  }

  /** Consumer side: a mapping of a ring's block. */
  class FrameReader {
    const slots: nat
    const frameBytes: nat
    const mm: array<Byte>
    var refused: nat

    ghost predicate Valid()
      reads mm
    {
      Fits(mm[..], slots, frameBytes)
    }

    constructor (mm: array<Byte>, slots: nat, frameBytes: nat)
      requires Fits(mm[..], slots, frameBytes)
      ensures Valid() && this.mm == mm && this.slots == slots && this.frameBytes == frameBytes && refused == 0
    {
      this.mm, this.slots, this.frameBytes, refused := mm, slots, frameBytes, 0;
    }

    /** The number stored for a slot. */
    method Stored(slot: nat) returns (n: nat)
      requires Valid() && slot < slots
      ensures n == FromLe(mm[..][slot * ENTRY..slot * ENTRY + 8]) && WordOf(n) == WordIn(mm[..], slot)
    {
      n := FromLe(mm[slot * ENTRY..slot * ENTRY + 8]);
      assert mm[..][slot * ENTRY..slot * ENTRY + 8] == mm[slot * ENTRY..slot * ENTRY + 8];
    }

    /** The first check: refused when the word is odd or another number. */
    method Check(slot: nat, want: nat) returns (ok: bool, before: nat)
      requires Valid() && slot < slots
      modifies `refused
      ensures ok <==> WordIn(mm[..], slot) == Word(want, true)
      ensures before == FromLe(mm[..][slot * ENTRY..slot * ENTRY + 8])
      ensures refused == old(refused) + (if ok then 0 else 1)
    {
      before := Stored(slot);
      StoredWord(before, want);
      ok := !(before % 2 == 1 || before / 2 != want);
      if !ok {
        refused := refused + 1;
      }
    }

    method CopyOut(slot: nat) returns (copy: Frame)
      requires Valid() && slot < slots
      ensures copy == CellsIn(mm[..], slots, frameBytes)[slot]
    {
      SlotsApart(slot, slots, frameBytes);
      BaseIsProduct(slot, frameBytes);
      var base := CTRL_BYTES + slot * frameBytes;
      copy := mm[base..base + frameBytes];
      assert copy == CellIn(mm[..], frameBytes, slot);
    }

    /** The second check: whatever the writer did since, the copy survives only if the
        word has not moved. */
    method Recheck(slot: nat, before: nat, copy: Frame) returns (frame: Option<Frame>)
      requires Valid() && slot < slots
      modifies `refused
      ensures frame == if FromLe(mm[..][slot * ENTRY..slot * ENTRY + 8]) == before then Some(copy) else None
      ensures refused == old(refused) + (if frame.None? then 1 else 0)
    {
      var after := Stored(slot);
      if after != before {
        refused := refused + 1;
        return None;
      }
      return Some(copy);
    }

    /** A private copy of the slot, exactly when its word is the stable one asked for. */
    method Read(slot: nat, want: nat) returns (frame: Option<Frame>)
      requires Valid() && slot < slots
      modifies `refused
      ensures frame == if WordIn(mm[..], slot) == Word(want, true)
              then Some(CellsIn(mm[..], slots, frameBytes)[slot]) else None
      ensures refused == old(refused) + (if frame.None? then 1 else 0)
    {
      var ok, before := Check(slot, want);
      if !ok {
        return None;
      }
      var copy := CopyOut(slot);
      frame := Recheck(slot, before, copy);
    }
  }

  // ---- a publication is its interleaved steps, run alone --------------------------------------------------

  /** Run alone, the writer's steps leave the words and cells that Publish leaves. */
  lemma {:induction false} PublishIsItsSteps(r: Ring, frame: Frame)
    requires Shaped(r) && r.writer.Idle? && |frame| == r.size
    ensures var q := r.last + 1;
            var r' := Run(r, PublishSteps(frame));
            && r'.last == q && r'.writer.Idle?
            && r'.words == r.words[q % r.slots := Word(q, true)] && r'.cells == r.cells[q % r.slots := frame]
            && q in r'.stable && q in r'.begun && r'.begun[q] == frame
  {
    SlotOfIsModulo(r.last + 1, r.slots);
    PublishRuns(r, frame);
  }
}
