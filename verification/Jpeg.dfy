/** models.py: the size of a JPEG image, read by walking its marker segments. */
module Jpeg {

  predicate IsByte(b: int) { 0 <= b < 256 }

  ghost predicate IsBytes(data: seq<int>) { forall i :: 0 <= i < |data| ==> IsByte(data[i]) }

  datatype Option<T> = None | Some(value: T)

  datatype Size = Size(width: nat, height: nat)

  /** The start-of-frame markers. */
  predicate IsFrame(marker: int) {
    0xC0 <= marker <= 0xCF && marker != 0xC4 && marker != 0xC8 && marker != 0xCC
  }

  /** Markers that carry no length field. */
  predicate Standalone(marker: int) {
    marker == 0xD8 || marker == 0x01 || 0xD0 <= marker <= 0xD7
  }

  /** Table B.1 of ITU-T T.81: the frame markers are SOF0 to SOF15 without DHT, JPG and DAC,
      and the markers without a length are SOI, TEM and RST0 to RST7. */
  lemma {:induction false} MarkersAre(m: int)
    ensures IsFrame(m)
            <==> m in {0xC0, 0xC1, 0xC2, 0xC3, 0xC5, 0xC6, 0xC7, 0xC9, 0xCA, 0xCB, 0xCD, 0xCE, 0xCF}
    ensures Standalone(m) <==> m in {0xD8, 0x01, 0xD0, 0xD1, 0xD2, 0xD3, 0xD4, 0xD5, 0xD6, 0xD7}
  {
  }

  /** Two bytes, most significant first. */
  function Word(hi: int, lo: int): int { hi * 256 + lo }

  // ---- the walk -------------------------------------------------------------------

  /** The walk over what is left of the data. */
  function Walk(d: seq<int>): Option<Size> {
    if |d| < 9 then None
    else if d[0] != 0xFF then Walk(d[1..])
    else if Standalone(d[1]) then Walk(d[2..])
    else
      var length := Word(d[2], d[3]);
      if length < 2 then None
      else if IsFrame(d[1]) then SizeOf(Word(d[5], d[6]), Word(d[7], d[8]))
      else if 2 + length > |d| then None
      else Walk(d[2 + length..])
  }

  function SizeOf(h: int, w: int): Option<Size> {
    if w > 0 && h > 0 then Some(Size(w, h)) else None
  }

  // ---- the grammar -------------------------------------------------------------------

  /** What may stand before the frame header: a stray byte, a marker alone, or a
      marker segment with its length field. */
  datatype Item = Stray(byte: int) | Alone(marker: int) | Segment(marker: int, payload: seq<int>)

  datatype Header = Header(marker: int, length: int, precision: int, height: int, width: int)

  ghost predicate ItemOk(item: Item) {
    match item
    case Stray(b) => IsByte(b) && b != 0xFF
    case Alone(m) => IsByte(m) && Standalone(m)
    case Segment(m, p) => IsByte(m) && !Standalone(m) && !IsFrame(m) && IsBytes(p) && |p| + 2 < 65536
  }

  ghost predicate ItemsOk(items: seq<Item>) { forall i :: 0 <= i < |items| ==> ItemOk(items[i]) }

  ghost predicate HeaderOk(h: Header) {
    && IsFrame(h.marker) && 2 <= h.length < 65536 && IsByte(h.precision)
    && 0 < h.height < 65536 && 0 < h.width < 65536
  }

  function Hi(n: int): int { n / 256 }
  function Lo(n: int): int { n % 256 }

  function ItemBytes(item: Item): seq<int> {
    match item
    case Stray(b) => [b]
    case Alone(m) => [0xFF, m]
    case Segment(m, p) => [0xFF, m, Hi(|p| + 2), Lo(|p| + 2)] + p
  }

  function ItemsBytes(items: seq<Item>): seq<int> {
    if items == [] then [] else ItemBytes(items[0]) + ItemsBytes(items[1..])
  }

  function HeaderBytes(h: Header): seq<int> {
    [0xFF, h.marker, Hi(h.length), Lo(h.length), h.precision, Hi(h.height), Lo(h.height), Hi(h.width), Lo(h.width)]
  }

  /** A chain of items, a frame header and anything at all after it. */
  ghost predicate ParsesAs(d: seq<int>, items: seq<Item>, h: Header, tail: seq<int>) {
    d == ItemsBytes(items) + (HeaderBytes(h) + tail)
  }

  // ---- the walk finds exactly what the grammar describes ---------------------------------

  lemma {:induction false} WordOfHalves(n: int)
    requires 0 <= n < 65536
    ensures IsByte(Hi(n)) && IsByte(Lo(n)) && Word(Hi(n), Lo(n)) == n
  {
  }

  lemma {:induction false} HalvesOfWord(hi: int, lo: int)
    requires IsByte(hi) && IsByte(lo)
    ensures 0 <= Word(hi, lo) < 65536 && Hi(Word(hi, lo)) == hi && Lo(Word(hi, lo)) == lo
  {
  }

  /** The walk at a frame header reads its size. */
  lemma {:induction false} WalkReadsHeader(h: Header, tail: seq<int>)
    requires HeaderOk(h)
    ensures Walk(HeaderBytes(h) + tail) == Some(Size(h.width, h.height))
  {
    WordOfHalves(h.length);
    WordOfHalves(h.height);
    WordOfHalves(h.width);
  }

  /** The walk passes over one item when a header's worth of bytes follows it. */
  lemma {:induction false} WalkSkipsItem(item: Item, rest: seq<int>)
    requires ItemOk(item) && |rest| >= 9
    ensures Walk(ItemBytes(item) + rest) == Walk(rest)
  {
    var d := ItemBytes(item) + rest;
    match item
    case Stray(b) =>
      assert d[1..] == rest;
    case Alone(m) =>
      assert d[2..] == rest;
    case Segment(m, p) =>
      WordOfHalves(|p| + 2);
      assert d[4 + |p|..] == rest;
  }

  lemma {:induction false} Associates(a: seq<int>, b: seq<int>, c: seq<int>)
    ensures (a + b) + c == a + (b + c)
  {
  }

  /** The walk passes over a whole chain of items. */
  lemma {:induction false} WalkSkipsItems(items: seq<Item>, rest: seq<int>)
    requires ItemsOk(items) && |rest| >= 9
    ensures Walk(ItemsBytes(items) + rest) == Walk(rest)
  {
    if items == [] {
      assert [] + rest == rest;
    } else {
      var head, more := ItemBytes(items[0]), ItemsBytes(items[1..]);
      Associates(head, more, rest);
      WalkSkipsItem(items[0], more + rest);
      WalkSkipsItems(items[1..], rest);
    }
  }

  lemma {:induction false} WalkFollowsGrammar(d: seq<int>, items: seq<Item>, h: Header, tail: seq<int>)
    requires ItemsOk(items) && HeaderOk(h) && ParsesAs(d, items, h, tail)
    ensures Walk(d) == Some(Size(h.width, h.height))
  {
    WalkSkipsItems(items, HeaderBytes(h) + tail);
    WalkReadsHeader(h, tail);
  }

  /** The item the walk passes over at the front of d. */
  function FirstItem(d: seq<int>): Item
    requires |d| >= 9
  {
    if d[0] != 0xFF then Stray(d[0])
    else if Standalone(d[1]) then Alone(d[1])
    else
      var end := 2 + Word(d[2], d[3]);
      Segment(d[1], if 4 <= end <= |d| then d[4..end] else [])
  }

  lemma {:induction false} SegmentIsThere(d: seq<int>, length: int)
    requires |d| >= 4 && 2 <= length && 2 + length <= |d| && Hi(length) == d[2] && Lo(length) == d[3] && d[0] == 0xFF
    ensures d == ItemBytes(Segment(d[1], d[4..2 + length])) + d[2 + length..]
    ensures |ItemBytes(Segment(d[1], d[4..2 + length]))| == 2 + length
  {
    hide Hi, Lo;
    assert |d[4..2 + length]| + 2 == length;
    assert d[..4] == [0xFF, d[1], d[2], d[3]];
    assert d == d[..4] + d[4..2 + length] + d[2 + length..];
  }

  lemma {:induction false} SomeBytes(d: seq<int>, from: nat, end: nat)
    requires IsBytes(d) && from <= end <= |d|
    ensures IsBytes(d[from..end])
  {
  }

  lemma {:induction false} FirstItemIsThere(d: seq<int>)
    requires IsBytes(d) && |d| >= 9 && Walk(d).Some?
    requires d[0] == 0xFF && !Standalone(d[1]) ==> !IsFrame(d[1])
    ensures var item := FirstItem(d);
            ItemOk(item) && |ItemBytes(item)| <= |d| && d == ItemBytes(item) + d[|ItemBytes(item)|..]
            && Walk(d) == Walk(d[|ItemBytes(item)|..])
  {
    var length := Word(d[2], d[3]);
    HalvesOfWord(d[2], d[3]);
    hide IsFrame, Standalone, Word, Hi, Lo;
    if d[0] != 0xFF {
      assert d == [d[0]] + d[1..];
    } else if Standalone(d[1]) {
      assert d == [0xFF, d[1]] + d[2..];
    } else {
      assert 2 <= length && 2 + length <= |d| && Walk(d) == Walk(d[2 + length..]);
      hide Walk;
      SegmentIsThere(d, length);
      SomeBytes(d, 4, 2 + length);
    }
  }

  lemma {:induction false} FrameIsThere(d: seq<int>) returns (h: Header)
    requires IsBytes(d) && |d| >= 9 && Walk(d).Some?
    requires d[0] == 0xFF && !Standalone(d[1]) && IsFrame(d[1])
    ensures HeaderOk(h) && d == HeaderBytes(h) + d[9..] && Walk(d) == Some(Size(h.width, h.height))
  {
    HalvesOfWord(d[2], d[3]);
    HalvesOfWord(d[5], d[6]);
    HalvesOfWord(d[7], d[8]);
    h := Header(d[1], Word(d[2], d[3]), d[4], Word(d[5], d[6]), Word(d[7], d[8]));
    assert HeaderBytes(h) == d[..9];
  }

  lemma {:induction false} OneMoreItem(
    d: seq<int>, item: Item, rest: seq<int>, items: seq<Item>, h: Header, tail: seq<int>)
    requires d == ItemBytes(item) + rest && ParsesAs(rest, items, h, tail)
    requires ItemOk(item) && ItemsOk(items)
    ensures ParsesAs(d, [item] + items, h, tail) && ItemsOk([item] + items)
  {
    assert ([item] + items)[1..] == items;
    Associates(ItemBytes(item), ItemsBytes(items), HeaderBytes(h) + tail);
  }

  lemma {:induction false} NoItems(d: seq<int>, h: Header, tail: seq<int>)
    requires d == HeaderBytes(h) + tail
    ensures ParsesAs(d, [], h, tail)
  {
  }

  /** What the walk read was there to be read. */
  lemma {:induction false} WalkIsGrammatical(d: seq<int>) returns (items: seq<Item>, h: Header, tail: seq<int>)
    requires IsBytes(d) && Walk(d).Some?
    ensures ItemsOk(items) && HeaderOk(h) && ParsesAs(d, items, h, tail)
    ensures Walk(d) == Some(Size(h.width, h.height))
    decreases |d|
  {
    if d[0] == 0xFF && !Standalone(d[1]) && IsFrame(d[1]) {
      h := FrameIsThere(d);
      items, tail := [], d[9..];
      NoItems(d, h, tail);
    } else {
      FirstItemIsThere(d);
      var item := FirstItem(d);
      var rest := d[|ItemBytes(item)|..];
      items, h, tail := WalkIsGrammatical(rest);
      OneMoreItem(d, item, rest, items, h, tail);
      items := [item] + items;
    }
  }

  /** What the code walks over: everything after the first two bytes. */
  function AfterStart(data: seq<int>): seq<int> {
    if |data| < 2 then [] else data[2..]
  }

  /** `_jpeg_dimensions` returns a size exactly when the bytes after the first two
      are a chain of items, a frame header with that size, and anything after it. */
  lemma {:induction false} SizeExactlyWhenGrammatical(data: seq<int>, size: Size)
    requires IsBytes(data)
    ensures Walk(AfterStart(data)) == Some(size) <==>
            exists items, h, tail :: ItemsOk(items) && HeaderOk(h) && ParsesAs(AfterStart(data), items, h, tail)
                                     && size == Size(h.width, h.height)
  {
    if Walk(AfterStart(data)) == Some(size) {
      var items, h, tail := WalkIsGrammatical(AfterStart(data));
    }
    if items, h, tail :| ItemsOk(items) && HeaderOk(h) && ParsesAs(AfterStart(data), items, h, tail)
                         && size == Size(h.width, h.height) {
      WalkFollowsGrammar(AfterStart(data), items, h, tail);
    }
  }

  /** The writer of a JFIF-style header: start of image, then segments, then the frame. */
  function Written(items: seq<Item>, h: Header, rest: seq<int>): seq<int> {
    [0xFF, 0xD8] + (ItemsBytes(items) + (HeaderBytes(h) + rest))
  }

  /** Reading back what was written gives the size that was written. */
  lemma {:induction false} WalkInvertsWriter(items: seq<Item>, h: Header, rest: seq<int>)
    requires ItemsOk(items) && HeaderOk(h)
    ensures Walk(AfterStart(Written(items, h, rest))) == Some(Size(h.width, h.height))
  {
    var body := ItemsBytes(items) + (HeaderBytes(h) + rest);
    assert AfterStart([0xFF, 0xD8] + body) == body;
    WalkFollowsGrammar(body, items, h, rest);
  }

  /** Section B.1.1.2 of ITU-T T.81 allows fill bytes 0xFF before any marker. The walk
      takes one before the frame header for a segment marker, and the header's own first
      bytes for its length, at least 49152: the header is passed over whole, and what the
      walk then finds, if anything, stands that much further on. */
  lemma {:induction false} FillByteHidesFrame(items: seq<Item>, h: Header, rest: seq<int>)
    requires ItemsOk(items) && HeaderOk(h)
    ensures var skip := Word(h.marker, Hi(h.length)) - 8;
            skip >= 49_144
            && Walk(ItemsBytes(items) + ([0xFF] + HeaderBytes(h) + rest))
               == if skip <= |rest| then Walk(rest[skip..]) else None
  {
    var d := [0xFF] + HeaderBytes(h) + rest;
    WalkSkipsItems(items, d);
    WordOfHalves(h.length);
    assert d[0] == 0xFF && d[1] == 0xFF && d[2] == h.marker >= 0xC0 && d[3] == Hi(h.length);
    assert |d| == 10 + |rest|;
    var length := Word(d[2], d[3]);
    if 2 + length <= |d| {
      assert d[2 + length..] == rest[length - 8..];
    }
  }

  /** `_jpeg_dimensions(data)`: terminates, and stays inside the data, on any bytes. */
  method JpegDimensions(data: seq<int>) returns (r: Option<Size>)
    requires IsBytes(data)
    ensures r == Walk(AfterStart(data))
    ensures r.Some? ==> r.value.width > 0 && r.value.height > 0
  {
    var i, n := 2, |data|;
    while i + 9 <= n
      invariant 2 <= i
      invariant Walk(AfterStart(data)) == if i <= n then Walk(data[i..]) else None
      decreases n - i
    {
      ghost var d := data[i..];
      assert d[0] == data[i] && d[1] == data[i + 1] && d[2] == data[i + 2] && d[3] == data[i + 3];
      if data[i] != 0xFF {
        assert d[1..] == data[i + 1..];
        i := i + 1;
        continue;
      }
      var marker := data[i + 1];
      if marker == 0xD8 || marker == 0x01 || 0xD0 <= marker <= 0xD7 {
        assert d[2..] == data[i + 2..];
        i := i + 2;
        continue;
      }
      var length := Word(data[i + 2], data[i + 3]);
      if length < 2 {
        return None;
      }
      if IsFrame(marker) {
        var h, w := Word(data[i + 5], data[i + 6]), Word(data[i + 7], data[i + 8]);
        return if w != 0 && h != 0 then Some(Size(w, h)) else None;
      }
      if 2 + length <= |d| {
        assert d[2 + length..] == data[i + 2 + length..];
      }
      i := i + 2 + length;
    }
    r := None;
  }
}
