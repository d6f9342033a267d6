/** tracking.py: when the tracks an update returns are still the tracker's own. Trimming
    a domain to its cap drops the longest unseen, in a stable order; whether that can be a
    track just returned is decided by the tracks held before and the matching alone. */
module TrackLiveness {
  import opened Association
  import MergeBoxes
  import opened NestedBoxes
  import opened OrderedDict
  import opened Sorting
  import opened TrackIdentity
  import opened Tracking

  predicate Seen(t: Track, ts: real) { t.lastSeen == ts }

  ghost predicate AllBefore(tracks: seq<Track>, ts: real) {
    forall i :: 0 <= i < |tracks| ==> tracks[i].lastSeen < ts
  }

  ghost predicate NoneAfter(tracks: seq<Track>, ts: real) {
    forall i :: 0 <= i < |tracks| ==> tracks[i].lastSeen <= ts
  }

  // ---- seating -------------------------------------------------------------------------------------

  /** How many of the first n detections matched nothing. */
  function Unmatched(m: Matching, n: nat): (u: nat)
    ensures u <= n
  {
    if n == 0 then 0 else Unmatched(m, n - 1) + (if n - 1 in m.trackOf then 0 else 1)
  }

  /** Where detection d sits: on its match, or on a new track after the `size` old ones. */
  function SeatOf(m: Matching, size: nat, d: nat): nat {
    if d in m.trackOf then m.trackOf[d] else size + Unmatched(m, d)
  }

  predicate MatchedBefore(m: Matching, n: nat, k: nat) {
    exists d :: d in m.trackOf && d < n && m.trackOf[d] == k
  }

  ghost predicate HasTrack(tracks: seq<Track>, t: Track) { t in tracks }

  /** Every match names a track that was there at the start. */
  ghost predicate InRange(m: Matching, n: nat) {
    forall d :: d in m.trackOf ==> m.trackOf[d] < n
  }

  /** Sighted at ts, the track is known. */
  predicate KnownAt(cfg: Config, t: Track, ts: real) {
    Known(t) || ts - t.firstSeen >= cfg.confirmAfter
  }

  /** The track of seat k is known once it is seated. */
  predicate KnownSeat(cfg: Config, start: seq<Track>, k: nat, ts: real) {
    if k < |start| then KnownAt(cfg, start[k], ts) else cfg.confirmAfter <= 0.0
  }

  ghost predicate SitsAt(cfg: Config, ts: real, start: seq<Track>, w: Working, d: nat, k: nat) {
    && d < |w.out| && k < |w.tracks| && w.out[d].track == w.tracks[k] && Seen(w.tracks[k], ts)
    && (Known(w.tracks[k]) <==> KnownSeat(cfg, start, k, ts))
  }

  /** The list after n detections were seated in the list `start`. */
  ghost predicate Placed(cfg: Config, ts: real, start: seq<Track>, m: Matching, n: nat, w: Working) {
    && |w.tracks| == |start| + Unmatched(m, n) && |w.out| == n
    && (forall d: nat :: d < n ==> SitsAt(cfg, ts, start, w, d, SeatOf(m, |start|, d)))
    && (forall k: nat :: k < |start| && !MatchedBefore(m, n, k) ==> w.tracks[k] == start[k])
  }

  lemma {:induction false} MatchedThen(m: Matching, n: nat, k: nat)
    ensures MatchedBefore(m, n + 1, k) <==> MatchedBefore(m, n, k) || (n in m.trackOf && m.trackOf[n] == k)
  {
    if MatchedBefore(m, n, k) {
      var d :| d in m.trackOf && d < n && m.trackOf[d] == k;
      assert d in m.trackOf && d < n + 1 && m.trackOf[d] == k;
    }
    if MatchedBefore(m, n + 1, k) {
      var d :| d in m.trackOf && d < n + 1 && m.trackOf[d] == k;
      assert d in m.trackOf && (d < n || d == n) && m.trackOf[d] == k;
    }
    if n in m.trackOf && m.trackOf[n] == k {
      assert n in m.trackOf && n < n + 1 && m.trackOf[n] == k;
    }
  }

  lemma {:induction false} UnmatchedGrows(m: Matching, d: nat, n: nat)
    requires d <= n
    ensures Unmatched(m, d) <= Unmatched(m, n) && (d < n && d !in m.trackOf ==> Unmatched(m, d) < Unmatched(m, n))
  {
    if d < n {
      UnmatchedGrows(m, d, n - 1);
    }
  }

  lemma {:induction false} PlacedMatch(s: Setting, start: seq<Track>, m: Matching, n: nat, w: Working, d: Detection)
    requires Placed(s.cfg, s.ts, start, m, n, w) && OneToOne(m) && n in m.trackOf && m.trackOf[n] < |start|
    ensures Placed(s.cfg, s.ts, start, m, n + 1, SeatMatched(s, d, m.trackOf[n], w))
  {
    var w' := SeatMatched(s, d, m.trackOf[n], w);
    assert !MatchedBefore(m, n, m.trackOf[n]);
    KnownForGood(s.cfg, start[m.trackOf[n]], GeometryOf(d.box), s.ts);
    hide Geometries, Advanced, MatchedBefore, Known, GeometryOf, MarkedLost;
    forall k: nat | k < |start| && !MatchedBefore(m, n + 1, k)
      ensures w'.tracks[k] == start[k]
    {
      MatchedThen(m, n, k);
    }
    forall e: nat | e < n + 1
      ensures SitsAt(s.cfg, s.ts, start, w', e, SeatOf(m, |start|, e))
    {
      assert e < n ==> SitsAt(s.cfg, s.ts, start, w, e, SeatOf(m, |start|, e)) && SeatOf(m, |start|, e) != m.trackOf[n];
    }
  }

  lemma {:induction false} PlacedNew(s: Setting, start: seq<Track>, m: Matching, n: nat, w: Working, d: Detection)
    requires Placed(s.cfg, s.ts, start, m, n, w) && n !in m.trackOf
    ensures Placed(s.cfg, s.ts, start, m, n + 1, SeatNew(s, d, w))
  {
    hide IdOf, GeometryOf, MatchedBefore;
    var w' := SeatNew(s, d, w);
    forall k: nat | k < |start| && !MatchedBefore(m, n + 1, k)
      ensures w'.tracks[k] == start[k]
    {
      MatchedThen(m, n, k);
    }
    forall e: nat | e < n + 1
      ensures SitsAt(s.cfg, s.ts, start, w', e, SeatOf(m, |start|, e))
    {
      assert e < n ==> SitsAt(s.cfg, s.ts, start, w, e, SeatOf(m, |start|, e));
    }
  }

  lemma {:induction false} SeatIsPlaced(s: Setting, ds: seq<Detection>, m: Matching, w: Working, n: nat)
    requires n <= |ds| && OneToOne(m) && InRange(m, |w.tracks|) && w.out == []
    ensures Placed(s.cfg, s.ts, w.tracks, m, n, Seat(s, ds, m, w, n))
  {
    if n > 0 {
      hide Placed, SeatMatched, SeatNew, OneToOne;
      SeatIsPlaced(s, ds, m, w, n - 1);
      if n - 1 in m.trackOf {
        PlacedMatch(s, w.tracks, m, n - 1, Seat(s, ds, m, w, n - 1), ds[n - 1]);
      } else {
        PlacedNew(s, w.tracks, m, n - 1, Seat(s, ds, m, w, n - 1), ds[n - 1]);
      }
    }
  }

  // ---- which places are returned --------------------------------------------------------------------

  /** Place k of the seated list is one the frame returns. */
  predicate ReturnedPlace(m: Matching, size: nat, k: nat) {
    k >= size || k in m.taken
  }

  /** The matching of n detections with `size` tracks. */
  ghost predicate Fits(m: Matching, n: nat, size: nat) {
    && OneToOne(m) && Covered(m) && InRange(m, size)
    && (forall d :: d in m.trackOf ==> d < n) && Even(m)
  }

  lemma {:induction false} MatchedFits(maxCost: real, tracks: seq<Track>, gs: seq<Geometry>, ts: real)
    ensures Fits(Matched(maxCost, tracks, gs, ts), |gs|, |tracks|)
  {
    hide Matched, Cheap, OneToOne, Covered, Even;
    var m := Matched(maxCost, tracks, gs, ts);
    MatchingIsOneToOne(maxCost, tracks, gs, ts);
    forall d | d in m.trackOf
      ensures d < |gs| && m.trackOf[d] < |tracks|
    {
      assert Admissible(maxCost, tracks, gs, ts, Pair(d, m.trackOf[d]));
    }
  }

  lemma {:induction false} NthNew(m: Matching, n: nat, j: nat) returns (d: nat)
    requires j < Unmatched(m, n)
    ensures d < n && d !in m.trackOf && Unmatched(m, d) == j
  {
    if j < Unmatched(m, n - 1) {
      d := NthNew(m, n - 1, j);
    } else {
      d := n - 1;
    }
  }

  lemma {:induction false} WhoSits(m: Matching, n: nat, size: nat, k: nat) returns (d: nat)
    requires Fits(m, n, size) && ReturnedPlace(m, size, k) && k < size + Unmatched(m, n)
    ensures d < n && SeatOf(m, size, d) == k
  {
    if k >= size {
      d := NthNew(m, n, k - size);
    } else {
      d :| d in m.trackOf && m.trackOf[d] == k;
    }
  }

  lemma {:induction false} SitsReturned(m: Matching, n: nat, size: nat, d: nat)
    requires Fits(m, n, size) && d < n
    ensures ReturnedPlace(m, size, SeatOf(m, size, d))
  {
  }

  lemma {:induction false} UntouchedPlace(
    cfg: Config, ts: real, start: seq<Track>, m: Matching, n: nat, w: Working, k: nat)
    requires Placed(cfg, ts, start, m, n, w) && Fits(m, n, |start|) && k < |w.tracks|
    ensures if ReturnedPlace(m, |start|, k) then Seen(w.tracks[k], ts) else k < |start| && w.tracks[k] == start[k]
  {
    if ReturnedPlace(m, |start|, k) {
      var d := WhoSits(m, n, |start|, k);
      assert SitsAt(cfg, ts, start, w, d, SeatOf(m, |start|, d));
    } else {
      assert !MatchedBefore(m, n, k);
    }
  }

  // ---- which of them are asked about -----------------------------------------------------------------

  /** Some of the places a frame returns: which of the old ones, and whether the new. */
  datatype Places = Places(held: set<nat>, born: bool)

  predicate Asked(j: Places, size: nat, k: nat) {
    if k < size then k in j.held else j.born
  }

  /** Every track returned, or only those known once they are seated. */
  predicate Judges(tentative: bool, t: Track) {
    tentative || Known(t)
  }

  /** The places of those tracks, from the tracks held before and the matching alone. */
  function Judged(cfg: Config, tentative: bool, tracks: seq<Track>, m: Matching, ts: real): Places {
    var held := set k | k in m.taken && k < |tracks| && (tentative || KnownAt(cfg, tracks[k], ts));
    Places(held, tentative || cfg.confirmAfter <= 0.0)
  }

  /** A place is one of theirs exactly when the track seated there is. */
  lemma {:induction false} JudgedSeat(
    cfg: Config, tentative: bool, ts: real, start: seq<Track>, m: Matching, n: nat, w: Working, d: nat)
    requires Placed(cfg, ts, start, m, n, w) && Fits(m, n, |start|) && d < n
    ensures SitsAt(cfg, ts, start, w, d, SeatOf(m, |start|, d))
    ensures Asked(Judged(cfg, tentative, start, m, ts), |start|, SeatOf(m, |start|, d))
            <==> Judges(tentative, w.out[d].track)
  {
    SitsReturned(m, n, |start|, d);
    hide Known;
  }

  // ---- the first of them in order of last sighting ------------------------------------------------------

  /** A track, and whether it is asked about. */
  type Marked = Keyed<(Track, bool)>

  /** The position of the first marked entry, or the length. */
  function FirstMark(ks: seq<Marked>): (f: nat)
    ensures f <= |ks| && (f < |ks| ==> ks[f].val.1)
    ensures forall i :: 0 <= i < f ==> !ks[i].val.1
  {
    if ks == [] then 0
    else
      var f := FirstMark(ks[..|ks| - 1]);
      if f < |ks| - 1 || ks[|ks| - 1].val.1 then f else f + 1
  }

  /** How many entries a stable sort puts ahead of the first marked one: the unmarked
      with a smaller key than ts, and those at ts that stand before every mark. */
  function Ahead(ks: seq<Marked>, ts: real): nat {
    if ks == [] then 0
    else
      var init, last := ks[..|ks| - 1], ks[|ks| - 1];
      Ahead(init, ts)
      + (if last.val.1 then 0
         else if last.key < ts || (last.key == ts && FirstMark(init) == |init|) then 1 else 0)
  }

  lemma {:induction false} FirstMarkIs(ks: seq<Marked>, f: nat)
    requires f <= |ks| && (f < |ks| ==> ks[f].val.1) && forall i :: 0 <= i < f ==> !ks[i].val.1
    ensures FirstMark(ks) == f
  {
  }

  lemma {:induction false} SlotIs<T>(s: seq<Keyed<T>>, key: real, p: nat)
    requires Ascending(s) && p <= |s| && (p > 0 ==> s[p - 1].key <= key) && (p < |s| ==> key < s[p].key)
    ensures Slot(s, key) == p
  {
  }

  lemma {:induction false} SlotAfterInsert<T>(s: seq<Keyed<T>>, x: Keyed<T>, key: real)
    requires Ascending(s)
    ensures Slot(Insert(s, x), key) == Slot(s, key) + (if x.key <= key then 1 else 0)
  {
    var p, q := Slot(s, x.key), Slot(s, key);
    var r := Insert(s, x);
    var q' := q + (if x.key <= key then 1 else 0);
    assert q' > 0 ==> r[q' - 1].key <= key by {
      if q' > 0 {
        InsertAt(s, x, q' - 1);
      }
    }
    assert q' < |r| ==> key < r[q'].key by {
      if q' < |r| {
        InsertAt(s, x, q');
      }
    }
    SlotIs(r, key, q');
  }

  lemma {:induction false} MarkAfterInsert(s: seq<Marked>, x: Marked)
    requires Ascending(s) && FirstMark(s) < |s|
    ensures FirstMark(Insert(s, x))
         == if Slot(s, x.key) > FirstMark(s) then FirstMark(s)
            else if x.val.1 then Slot(s, x.key) else FirstMark(s) + 1
  {
    hide Slot, Ascending;
    var p, f := Slot(s, x.key), FirstMark(s);
    var f' := if p <= f then (if x.val.1 then p else f + 1) else f;
    forall i | 0 <= i <= f'
      ensures Insert(s, x)[i] == if i < p then s[i] else if i == p then x else s[i - 1]
    {
      InsertAt(s, x, i);
    }
    FirstMarkIs(Insert(s, x), f');
  }

  lemma {:induction false} FirstMarkedInsert(s: seq<Marked>, x: Marked)
    requires Ascending(s) && FirstMark(s) == |s|
    ensures FirstMark(Insert(s, x)) == if x.val.1 then Slot(s, x.key) else |s| + 1
  {
    hide Slot, Ascending;
    var p := Slot(s, x.key);
    var f' := if x.val.1 then p else |s| + 1;
    forall i | 0 <= i <= f' && i <= |s|
      ensures Insert(s, x)[i] == if i < p then s[i] else if i == p then x else s[i - 1]
    {
      InsertAt(s, x, i);
    }
    FirstMarkIs(Insert(s, x), f');
  }

  ghost predicate MarkedAt(ks: seq<Marked>, ts: real) {
    forall i :: 0 <= i < |ks| && ks[i].val.1 ==> ks[i].key == ts
  }

  lemma {:induction false} SlotAgainst(s: seq<Marked>, key: real, f: nat)
    requires Ascending(s) && f < |s|
    ensures Slot(s, key) <= f <==> key < s[f].key
  {
  }

  /** Past a mark, only what is smaller goes in front of it. */
  lemma {:induction false} LeadMarked(s: seq<Marked>, x: Marked, ts: real)
    requires Ascending(s) && FirstMark(s) < |s| && s[FirstMark(s)].key == ts && (x.val.1 ==> x.key == ts)
    ensures FirstMark(Insert(s, x)) == FirstMark(s) + (if !x.val.1 && x.key < ts then 1 else 0)
  {
    hide FirstMark, Insert, Slot, Ascending;
    MarkAfterInsert(s, x);
    SlotAgainst(s, x.key, FirstMark(s));
  }

  /** With no mark yet, the first one goes after everything no larger. */
  lemma {:induction false} LeadUnmarked(s: seq<Marked>, x: Marked, ts: real)
    requires Ascending(s) && FirstMark(s) == |s| && (x.val.1 ==> x.key == ts)
    ensures FirstMark(Insert(s, x)) == if x.val.1 then Slot(s, ts) else |s| + 1
    ensures Slot(Insert(s, x), ts) == Slot(s, ts) + (if x.key <= ts then 1 else 0)
  {
    hide FirstMark, Insert, Slot, Ascending;
    FirstMarkedInsert(s, x);
    SlotAfterInsert(s, x, ts);
  }

  lemma {:induction false} FirstMarkThen(init: seq<Marked>, x: Marked)
    ensures FirstMark(init + [x])
         == if FirstMark(init) < |init| then FirstMark(init) else if x.val.1 then |init| else |init| + 1
  {
    assert (init + [x])[..|init|] == init;
  }

  lemma {:induction false} AheadThen(init: seq<Marked>, x: Marked, ts: real)
    ensures Ahead(init + [x], ts)
         == Ahead(init, ts)
            + (if x.val.1 then 0 else if x.key < ts || (x.key == ts && FirstMark(init) == |init|) then 1 else 0)
  {
    assert (init + [x])[..|init|] == init;
  }

  lemma {:induction false} SortThen<T>(init: seq<Keyed<T>>, x: Keyed<T>)
    ensures Sort(init + [x]) == Insert(Sort(init), x)
  {
    assert (init + [x])[..|init|] == init;
  }

  lemma {:induction false} MarkedFront(init: seq<Marked>, x: Marked, ts: real)
    requires MarkedAt(init + [x], ts)
    ensures MarkedAt(init, ts) && (x.val.1 ==> x.key == ts)
  {
    assert (init + [x])[|init|] == x;
    assert forall i :: 0 <= i < |init| ==> (init + [x])[i] == init[i];
  }

  /** Sorted by last sighting, exactly `Ahead` entries stand before the first marked one. */
  lemma {:induction false} LeadOfSort(ks: seq<Marked>, ts: real)
    requires MarkedAt(ks, ts)
    ensures FirstMark(ks) < |ks| ==> FirstMark(Sort(ks)) == Ahead(ks, ts) < |ks|
    ensures FirstMark(ks) == |ks| ==> FirstMark(Sort(ks)) == |ks| && Slot(Sort(ks), ts) == Ahead(ks, ts)
  {
    if ks != [] {
      var init, x := ks[..|ks| - 1], ks[|ks| - 1];
      assert ks == init + [x];
      hide FirstMark, Sort, Ahead, Slot, Insert, MarkedAt, Ascending;
      MarkedFront(init, x, ts);
      LeadOfSort(init, ts);
      SortThen(init, x);
      FirstMarkThen(init, x);
      AheadThen(init, x, ts);
      if FirstMark(init) < |init| {
        MarkStands(init, Sort(init), ts);
        LeadMarked(Sort(init), x, ts);
      } else {
        LeadUnmarked(Sort(init), x, ts);
      }
    }
  }

  /** Sorting keeps a mark's key. */
  lemma {:induction false} MarkStands(ks: seq<Marked>, s: seq<Marked>, ts: real)
    requires MarkedAt(ks, ts) && s == Sort(ks)
    ensures FirstMark(s) < |s| ==> s[FirstMark(s)].key == ts
  {
    SortMembers(ks);
    if FirstMark(s) < |s| {
      assert s[FirstMark(s)] in ks;
    }
  }

  // ---- trimming ---------------------------------------------------------------------------------------

  function Marks(tracks: seq<Track>, j: Places, size: nat): (ks: seq<Marked>)
    ensures |ks| == |tracks|
    ensures forall i :: 0 <= i < |ks| ==> ks[i] == Keyed(tracks[i].lastSeen, (tracks[i], Asked(j, size, i)))
  {
    seq(|tracks|, i requires 0 <= i < |tracks| => Keyed(tracks[i].lastSeen, (tracks[i], Asked(j, size, i))))
  }

  function Unmark(ks: seq<Marked>): (r: seq<Keyed<Track>>)
    ensures |r| == |ks| && forall i :: 0 <= i < |ks| ==> r[i] == Keyed(ks[i].key, ks[i].val.0)
  {
    seq(|ks|, i requires 0 <= i < |ks| => Keyed(ks[i].key, ks[i].val.0))
  }

  lemma {:induction false} SlotUnmarked(ks: seq<Marked>, key: real)
    ensures Slot(Unmark(ks), key) == Slot(ks, key)
  {
    if ks != [] {
      assert Unmark(ks)[..|ks| - 1] == Unmark(ks[..|ks| - 1]);
      SlotUnmarked(ks[..|ks| - 1], key);
    }
  }

  lemma {:induction false} InsertUnmarked(s: seq<Marked>, x: Marked)
    ensures Insert(Unmark(s), Keyed(x.key, x.val.0)) == Unmark(Insert(s, x))
  {
    SlotUnmarked(s, x.key);
    hide Slot;
    var y := Keyed(x.key, x.val.0);
    forall i: nat | i <= |s|
      ensures Insert(Unmark(s), y)[i] == Unmark(Insert(s, x))[i]
    {
      InsertAt(s, x, i);
      InsertAt(Unmark(s), y, i);
    }
  }

  /** Marks do not change the order. */
  lemma {:induction false} SortUnmarked(ks: seq<Marked>)
    ensures Sort(Unmark(ks)) == Unmark(Sort(ks))
  {
    if ks != [] {
      var init, x := ks[..|ks| - 1], ks[|ks| - 1];
      assert ks == init + [x];
      assert Unmark(ks) == Unmark(init) + [Keyed(x.key, x.val.0)];
      hide Unmark, Sort, Insert;
      SortUnmarked(init);
      SortThen(init, x);
      SortThen(Unmark(init), Keyed(x.key, x.val.0));
      InsertUnmarked(Sort(init), x);
    } else {
      assert Unmark(ks) == [];
    }
  }

  lemma {:induction false} OrderedMarks(tracks: seq<Track>, j: Places, size: nat)
    ensures var s := Sort(Marks(tracks, j, size));
            |s| == |tracks| && forall r :: 0 <= r < |s| ==> OldestFirst(tracks)[r] == s[r].val.0
  {
    var ks := Marks(tracks, j, size);
    assert Unmark(ks) == ByLastSeen(tracks);
    SortUnmarked(ks);
  }

  /** Of the tracks held before the frame, those a stable order by last sighting puts
      ahead of the first one asked about, once the frame has sighted the taken ones. */
  function AheadOf(tracks: seq<Track>, taken: set<nat>, asked: set<nat>, ts: real, n: nat): nat
    requires n <= |tracks|
  {
    if n == 0 then 0
    else
      var seen := if n - 1 in taken then ts else tracks[n - 1].lastSeen;
      AheadOf(tracks, taken, asked, ts, n - 1)
      + (if n - 1 in asked then 0 else if seen < ts || (seen == ts && FreeBelow(asked, n - 1)) then 1 else 0)
  }

  predicate FreeBelow(asked: set<nat>, n: nat) {
    forall k :: k in asked ==> k >= n
  }

  /** The entry of place k of the seated list. */
  function MarkOf(tracks: seq<Track>, j: Places, size: nat, k: nat): Marked
    requires k < |tracks|
  {
    Keyed(tracks[k].lastSeen, (tracks[k], Asked(j, size, k)))
  }

  lemma {:induction false} MarksThen(tracks: seq<Track>, j: Places, size: nat, k: nat)
    requires 0 < k <= |tracks|
    ensures Marks(tracks, j, size)[..k] == Marks(tracks, j, size)[..k - 1] + [MarkOf(tracks, j, size, k - 1)]
  {
  }

  lemma {:induction false} FreeThen(asked: set<nat>, k: nat)
    ensures FreeBelow(asked, k + 1) <==> FreeBelow(asked, k) && k !in asked
  {
  }

  lemma {:induction false} NoMarks(
    tracks: seq<Track>, j: Places, size: nat, start: seq<Track>, taken: set<nat>, ts: real)
    ensures var ks := Marks(tracks, j, size)[..0];
            Ahead(ks, ts) == AheadOf(start, taken, j.held, ts, 0) && FirstMark(ks) == 0 && FreeBelow(j.held, 0)
  {
    assert Marks(tracks, j, size)[..0] == [];
  }

  /** The entry of an old place is at ts when the frame took it, else where it was. */
  lemma {:induction false} OldMark(
    cfg: Config, ts: real, start: seq<Track>, m: Matching, n: nat, w: Working, j: Places, k: nat)
    requires Placed(cfg, ts, start, m, n, w) && Fits(m, n, |start|) && k < |start|
    ensures k < |w.tracks| && MarkOf(w.tracks, j, |start|, k).key == (if k in m.taken then ts else start[k].lastSeen)
    ensures MarkOf(w.tracks, j, |start|, k).val.1 == (k in j.held)
  {
    assert |start| <= |w.tracks|;
    hide Placed, Fits;
    UntouchedPlace(cfg, ts, start, m, n, w, k);
  }

  lemma {:induction false} MarksBelow(
    cfg: Config, ts: real, start: seq<Track>, m: Matching, n: nat, w: Working, j: Places, k: nat)
    requires Placed(cfg, ts, start, m, n, w) && Fits(m, n, |start|) && k <= |start| <= |w.tracks|
    ensures var ks := Marks(w.tracks, j, |start|)[..k];
            Ahead(ks, ts) == AheadOf(start, m.taken, j.held, ts, k) && (FirstMark(ks) == k <==> FreeBelow(j.held, k))
  {
    hide Placed, Fits, Marks, Ahead, FirstMark, FreeBelow;
    if k == 0 {
      NoMarks(w.tracks, j, |start|, start, m.taken, ts);
    } else {
      var init := Marks(w.tracks, j, |start|)[..k - 1];
      var x := MarkOf(w.tracks, j, |start|, k - 1);
      MarksBelow(cfg, ts, start, m, n, w, j, k - 1);
      OldMark(cfg, ts, start, m, n, w, j, k - 1);
      hide MarkOf;
      MarksThen(w.tracks, j, |start|, k);
      AheadThen(init, x, ts);
      FirstMarkThen(init, x);
      FreeThen(j.held, k - 1);
    }
  }

  /** The new tracks stand ahead of no old one asked about, nor, when asked about, of each other. */
  lemma {:induction false} MarksAbove(
    cfg: Config, ts: real, start: seq<Track>, m: Matching, n: nat, w: Working, j: Places, k: nat)
    requires Placed(cfg, ts, start, m, n, w) && Fits(m, n, |start|) && j.held <= m.taken && |start| <= k <= |w.tracks|
    requires j.born || !FreeBelow(j.held, |start|)
    ensures var ks := Marks(w.tracks, j, |start|)[..k];
            && Ahead(ks, ts) == AheadOf(start, m.taken, j.held, ts, |start|)
            && (!FreeBelow(j.held, |start|) ==> FirstMark(ks) < k)
    decreases k
  {
    hide Placed, Fits, Marks, Ahead, FirstMark, FreeBelow;
    if k == |start| {
      MarksBelow(cfg, ts, start, m, n, w, j, k);
    } else {
      var init := Marks(w.tracks, j, |start|)[..k - 1];
      var x := MarkOf(w.tracks, j, |start|, k - 1);
      MarksAbove(cfg, ts, start, m, n, w, j, k - 1);
      UntouchedPlace(cfg, ts, start, m, n, w, k - 1);
      MarksThen(w.tracks, j, |start|, k);
      AheadThen(init, x, ts);
      FirstMarkThen(init, x);
    }
  }

  lemma {:induction false} MarksAreSeen(
    cfg: Config, ts: real, start: seq<Track>, m: Matching, n: nat, w: Working, j: Places)
    requires Placed(cfg, ts, start, m, n, w) && Fits(m, n, |start|) && j.held <= m.taken
    ensures MarkedAt(Marks(w.tracks, j, |start|), ts)
  {
    hide Placed, Fits;
    forall i: nat | i < |w.tracks| && Asked(j, |start|, i)
      ensures w.tracks[i].lastSeen == ts
    {
      UntouchedPlace(cfg, ts, start, m, n, w, i);
    }
  }

  /** Nothing returned is asked about. */
  predicate AsksNothing(m: Matching, n: nat, j: Places) {
    j.held == {} && (!j.born || Unmatched(m, n) == 0)
  }

  /** Nothing is asked about, or the list a frame leaves fits the cap, or enough of it
      stands ahead of the first track asked about. It speaks only of the tracks held
      before and the matching. */
  predicate Spares(tracks: seq<Track>, m: Matching, n: nat, j: Places, cap: int, ts: real) {
    AsksNothing(m, n, j) || |tracks| + Unmatched(m, n) <= cap + AheadOf(tracks, m.taken, j.held, ts, |tracks|)
  }

  lemma {:induction false} SomeMark(
    cfg: Config, ts: real, start: seq<Track>, m: Matching, n: nat, w: Working, j: Places)
    requires Placed(cfg, ts, start, m, n, w) && Fits(m, n, |start|) && j.held <= m.taken && !AsksNothing(m, n, j)
    ensures FirstMark(Marks(w.tracks, j, |start|)) < |w.tracks| && (j.born || !FreeBelow(j.held, |start|))
  {
    TakenInRange(m, |start|);
    var ks := Marks(w.tracks, j, |start|);
    var k: nat;
    if j.held != {} {
      k :| k in j.held;
    } else {
      k := |start|;
    }
    assert |w.tracks| == |start| + Unmatched(m, n);
    hide Placed, Fits, FirstMark;
    assert ks[k].val.1;
  }

  lemma {:induction false} TakenInRange(m: Matching, n: nat)
    requires Covered(m) && InRange(m, n)
    ensures forall k :: k in m.taken ==> k < n
  {
  }

  /** With something asked about, the first of it stands `AheadOf` places down. */
  lemma {:induction false} FirstAsked(
    cfg: Config, ts: real, start: seq<Track>, m: Matching, n: nat, w: Working, j: Places)
    requires Placed(cfg, ts, start, m, n, w) && Fits(m, n, |start|) && j.held <= m.taken && !AsksNothing(m, n, j)
    ensures var s := Sort(Marks(w.tracks, j, |start|));
            FirstMark(s) == AheadOf(start, m.taken, j.held, ts, |start|) && FirstMark(s) < |s|
  {
    assert |start| <= |w.tracks|;
    SomeMark(cfg, ts, start, m, n, w, j);
    hide Placed, Fits, FirstMark, Sort, Ahead, AheadOf, FreeBelow, AsksNothing;
    var ks := Marks(w.tracks, j, |start|);
    MarksAreSeen(cfg, ts, start, m, n, w, j);
    MarksAbove(cfg, ts, start, m, n, w, j, |w.tracks|);
    assert ks[..|w.tracks|] == ks;
    LeadOfSort(ks, ts);
  }

  lemma {:induction false} InTail(s: seq<Track>, c: nat, i: nat)
    requires c <= i < |s|
    ensures s[i] in s[c..]
  {
    assert s[c..][i - c] == s[i];
  }

  /** What is cut off stands ahead of every mark, so no marked track is. */
  lemma {:induction false} MarkedIsKept(tracks: seq<Track>, j: Places, size: nat, cap: int, k: nat)
    requires k < |tracks| && Asked(j, size, k) && 0 < cap < |tracks|
    requires Cut(|tracks|, cap) <= FirstMark(Sort(Marks(tracks, j, size)))
    ensures HasTrack(Trimmed(cap, tracks), tracks[k])
  {
    var ks := Marks(tracks, j, size);
    OrderedMarks(tracks, j, size);
    SortMembers(ks);
    hide OldestFirst, Sort;
    assert ks[k] in Sort(ks);
    var r: nat :| r < |Sort(ks)| && Sort(ks)[r] == ks[k];
    assert r >= FirstMark(Sort(ks));
    InTail(OldestFirst(tracks), Cut(|tracks|, cap), r);
  }

  /** When the frame spares them, trimming keeps every track asked about. */
  lemma {:induction false} SparedIsKept(
    cfg: Config, ts: real, start: seq<Track>, m: Matching, n: nat, w: Working, j: Places, k: nat)
    requires Placed(cfg, ts, start, m, n, w) && Fits(m, n, |start|) && j.held <= m.taken
    requires k < |w.tracks| && Asked(j, |start|, k) && cfg.cap > 0 && Spares(start, m, n, j, cfg.cap, ts)
    ensures HasTrack(Trimmed(cfg.cap, w.tracks), w.tracks[k])
  {
    if |w.tracks| > cfg.cap {
      assert |w.tracks| == |start| + Unmatched(m, n) && !AsksNothing(m, n, j);
      hide Placed, Fits, AheadOf, AsksNothing, Sort, FirstMark, HasTrack;
      FirstAsked(cfg, ts, start, m, n, w, j);
      MarkedIsKept(w.tracks, j, |start|, cfg.cap, k);
    }
  }

  /** The first entry in order of last sighting that carries a mark, by place. */
  lemma {:induction false} FirstMarkPlace(tracks: seq<Track>, j: Places, size: nat) returns (k: nat)
    requires FirstMark(Sort(Marks(tracks, j, size))) < |tracks|
    ensures k < |tracks| && Asked(j, size, k)
    ensures OldestFirst(tracks)[FirstMark(Sort(Marks(tracks, j, size)))] == tracks[k]
  {
    var ks := Marks(tracks, j, size);
    var f := FirstMark(Sort(ks));
    OrderedMarks(tracks, j, size);
    SortMembers(ks);
    hide OldestFirst, Sort;
    assert Sort(ks)[f] in ks;
    k :| k < |ks| && ks[k] == Sort(ks)[f];
  }

  lemma {:induction false} MarkedIsCut(tracks: seq<Track>, j: Places, size: nat, cap: int) returns (k: nat)
    requires 0 < cap < |tracks| && FirstMark(Sort(Marks(tracks, j, size))) < Cut(|tracks|, cap)
    ensures k < |tracks| && Asked(j, size, k) && tracks[k] in Dropped(cap, tracks)
  {
    hide FirstMark, Sort, Marks, OldestFirst, Asked;
    k := FirstMarkPlace(tracks, j, size);
    assert Dropped(cap, tracks)[FirstMark(Sort(Marks(tracks, j, size)))] == tracks[k];
  }

  /** When it does not, trimming drops one. */
  lemma {:induction false} UnsparedIsDropped(
    cfg: Config, ts: real, start: seq<Track>, m: Matching, n: nat, w: Working, j: Places) returns (d: nat)
    requires Placed(cfg, ts, start, m, n, w) && Fits(m, n, |start|) && j.held <= m.taken
    requires cfg.cap > 0 && !Spares(start, m, n, j, cfg.cap, ts)
    ensures d < n && d < |w.out| && Asked(j, |start|, SeatOf(m, |start|, d))
            && w.out[d].track in Dropped(cfg.cap, w.tracks)
  {
    assert |w.tracks| == |start| + Unmatched(m, n) && !AsksNothing(m, n, j);
    FirstAsked(cfg, ts, start, m, n, w, j);
    hide FirstMark, Sort, Marks, AheadOf, AsksNothing, Dropped;
    var k := MarkedIsCut(w.tracks, j, |start|, cfg.cap);
    assert ReturnedPlace(m, |start|, k);
    d := WhoSits(m, n, |start|, k);
    assert SitsAt(cfg, ts, start, w, d, SeatOf(m, |start|, d));
  }

  // ---- one domain ----------------------------------------------------------------------------------------

  function DomainMatching(t: Tracker, camera: string, domain: string, ds: seq<Detection>, ts: real): Matching {
    Matched(t.cfg.maxCost, Held(t, (camera, domain)), Geometries(ds), ts)
  }

  /** The frame's detections of one domain, against the tracks held for it: whether there is
      room for every track returned, or for every known one. */
  predicate Roomy(t: Tracker, camera: string, domain: string, ds: seq<Detection>, ts: real, tentative: bool) {
    var tracks, m := Held(t, (camera, domain)), DomainMatching(t, camera, domain, ds, ts);
    Spares(tracks, m, |ds|, Judged(t.cfg, tentative, tracks, m, ts), t.cfg.cap, ts)
  }

  lemma {:induction false} DomainPlaces(t: Tracker, camera: string, domain: string, ds: seq<Detection>, ts: real)
    ensures var tracks, m := Held(t, (camera, domain)), DomainMatching(t, camera, domain, ds, ts);
            Fits(m, |ds|, |tracks|) && Placed(t.cfg, ts, tracks, m, |ds|, Seated(t, camera, domain, ds, ts))
  {
    var tracks := Held(t, (camera, domain));
    MatchedFits(t.cfg.maxCost, tracks, Geometries(ds), ts);
    hide Placed, Matched, Seat, OneToOne, Covered;
    SeatIsPlaced(SettingOf(t, camera, domain, ts), ds, DomainMatching(t, camera, domain, ds, ts),
                 Working(tracks, t.counter, t.created, t.confirmed, []), |ds|);
  }

  lemma {:induction false} DomainHeld(t: Tracker, camera: string, domain: string, ds: seq<Detection>, ts: real)
    ensures var u := AfterDomain(t, camera, domain, ds, ts);
            && u.out == Seated(t, camera, domain, ds, ts).out
            && Held(u.tracker, (camera, domain)) == Trimmed(t.cfg.cap, Seated(t, camera, domain, ds, ts).tracks)
            && u.tracker.expired == t.expired + Ids(Dropped(t.cfg.cap, Seated(t, camera, domain, ds, ts).tracks))
            && u.tracker.cfg == t.cfg
  {
  }

  lemma {:induction false} DomainElsewhere(
    t: Tracker, camera: string, domain: string, ds: seq<Detection>, ts: real, key: Key)
    requires key != (camera, domain)
    ensures Held(AfterDomain(t, camera, domain, ds, ts).tracker, key) == Held(t, key)
  {
    hide Seated, Trimmed, Dropped, Matched;
  }

  /** With room, every such track returned for a domain is in its list. */
  lemma {:induction false} DomainKeeps(
    t: Tracker, camera: string, domain: string, ds: seq<Detection>, ts: real, tentative: bool, i: nat)
    requires t.cfg.cap > 0 && Roomy(t, camera, domain, ds, ts, tentative)
    requires i < |AfterDomain(t, camera, domain, ds, ts).out|
    requires Judges(tentative, AfterDomain(t, camera, domain, ds, ts).out[i].track)
    ensures var u := AfterDomain(t, camera, domain, ds, ts);
            Seen(u.out[i].track, ts) && HasTrack(Held(u.tracker, (camera, domain)), u.out[i].track)
  {
    DomainHeld(t, camera, domain, ds, ts);
    DomainPlaces(t, camera, domain, ds, ts);
    var tracks, m := Held(t, (camera, domain)), DomainMatching(t, camera, domain, ds, ts);
    var w := Seated(t, camera, domain, ds, ts);
    hide AfterDomain, Seated, Trimmed, DomainMatching, Fits, Spares, Judges;
    assert |w.out| == |ds|;
    hide Placed;
    JudgedSeat(t.cfg, tentative, ts, tracks, m, |ds|, w, i);
    SparedIsKept(t.cfg, ts, tracks, m, |ds|, w, Judged(t.cfg, tentative, tracks, m, ts), SeatOf(m, |tracks|, i));
  }

  /** Without it, some such track returned for the domain has just been retired. */
  lemma {:induction false} DomainDrops(
    t: Tracker, camera: string, domain: string, ds: seq<Detection>, ts: real, tentative: bool) returns (i: nat)
    requires t.cfg.cap > 0 && !Roomy(t, camera, domain, ds, ts, tentative)
    ensures var u := AfterDomain(t, camera, domain, ds, ts);
            i < |u.out| && Judges(tentative, u.out[i].track) && u.out[i].track.id in u.tracker.expired
  {
    DomainHeld(t, camera, domain, ds, ts);
    DomainPlaces(t, camera, domain, ds, ts);
    var tracks, m := Held(t, (camera, domain)), DomainMatching(t, camera, domain, ds, ts);
    var w := Seated(t, camera, domain, ds, ts);
    hide AfterDomain, Seated, Dropped, DomainMatching, Placed, Fits, Spares, Judges;
    i := UnsparedIsDropped(t.cfg, ts, tracks, m, |ds|, w, Judged(t.cfg, tentative, tracks, m, ts));
    JudgedSeat(t.cfg, tentative, ts, tracks, m, |ds|, w, i);
    var dropped := Dropped(t.cfg.cap, w.tracks);
    var j: nat :| j < |dropped| && dropped[j] == w.out[i].track;
    assert Ids(dropped)[j] == w.out[i].track.id;
  }

  // ---- the whole frame ---------------------------------------------------------------------------------------

  /** Every domain of the frame has room for it. */
  predicate AllRoomy(t: Tracker, camera: string, ds: seq<Detection>, ts: real, tentative: bool) {
    forall d :: d in Domains(ds) ==> Roomy(t, camera, d, OfDomains(ds, {d}), ts, tentative)
  }

  /** Held in one of the first n domains. */
  ghost predicate Stands(t: Tracker, camera: string, domains: seq<string>, n: nat, track: Track)
    requires n <= |domains|
  {
    exists k: nat :: k < n && HasTrack(Held(t, (camera, domains[k])), track)
  }

  lemma {:induction false} DomainsElsewhere(
    t: Tracker, camera: string, ds: seq<Detection>, domains: seq<string>, ts: real, n: nat, key: Key)
    requires n <= |domains| && forall k :: 0 <= k < n ==> key != (camera, domains[k])
    ensures Held(AfterDomains(t, camera, ds, domains, ts, n).tracker, key) == Held(t, key)
  {
    hide AfterDomain, Held;
    if n > 0 {
      DomainsElsewhere(t, camera, ds, domains, ts, n - 1, key);
      DomainElsewhere(AfterDomains(t, camera, ds, domains, ts, n - 1).tracker, camera, domains[n - 1],
                      OfDomains(ds, {domains[n - 1]}), ts, key);
    }
  }

  lemma {:induction false} DomainsConfigured(
    t: Tracker, camera: string, ds: seq<Detection>, domains: seq<string>, ts: real, n: nat)
    requires n <= |domains|
    ensures AfterDomains(t, camera, ds, domains, ts, n).tracker.cfg == t.cfg
  {
    hide AfterDomain;
    if n > 0 {
      DomainsConfigured(t, camera, ds, domains, ts, n - 1);
      DomainHeld(AfterDomains(t, camera, ds, domains, ts, n - 1).tracker, camera, domains[n - 1],
                 OfDomains(ds, {domains[n - 1]}), ts);
    }
  }

  lemma {:induction false} StandsOn(
    t: Tracker, t': Tracker, camera: string, domains: seq<string>, n: nat, track: Track)
    requires 0 < n <= |domains| && Distinct(domains) && Stands(t, camera, domains, n - 1, track)
    requires forall key: Key :: key != (camera, domains[n - 1]) ==> Held(t', key) == Held(t, key)
    ensures Stands(t', camera, domains, n, track)
  {
    hide Held;
    var k: nat :| k < n - 1 && HasTrack(Held(t, (camera, domains[k])), track);
    assert domains[k] != domains[n - 1];
    assert HasTrack(Held(t', (camera, domains[k])), track);
  }

  lemma {:induction false} DomainsKeep(
    t: Tracker, camera: string, ds: seq<Detection>, domains: seq<string>, ts: real, tentative: bool, n: nat, i: nat)
    requires n <= |domains| && Distinct(domains) && t.cfg.cap > 0
    requires forall d :: d in domains ==> Roomy(t, camera, d, OfDomains(ds, {d}), ts, tentative)
    requires i < |AfterDomains(t, camera, ds, domains, ts, n).out|
    requires Judges(tentative, AfterDomains(t, camera, ds, domains, ts, n).out[i].track)
    ensures var u := AfterDomains(t, camera, ds, domains, ts, n);
            Seen(u.out[i].track, ts) && Stands(u.tracker, camera, domains, n, u.out[i].track)
  {
    hide AfterDomain, Held, OfDomains, Spares, Matched, Geometries, Judges, Judged;
    if n > 0 {
      var before := AfterDomains(t, camera, ds, domains, ts, n - 1);
      var own := OfDomains(ds, {domains[n - 1]});
      var one := AfterDomain(before.tracker, camera, domains[n - 1], own, ts);
      if i < |before.out| {
        DomainsKeep(t, camera, ds, domains, ts, tentative, n - 1, i);
        forall key: Key | key != (camera, domains[n - 1])
          ensures Held(one.tracker, key) == Held(before.tracker, key)
        {
          DomainElsewhere(before.tracker, camera, domains[n - 1], own, ts, key);
        }
        StandsOn(before.tracker, one.tracker, camera, domains, n, before.out[i].track);
      } else {
        DomainsElsewhere(t, camera, ds, domains, ts, n - 1, (camera, domains[n - 1]));
        DomainsConfigured(t, camera, ds, domains, ts, n - 1);
        DomainKeeps(before.tracker, camera, domains[n - 1], own, ts, tentative, i - |before.out|);
      }
    }
  }

  lemma {:induction false} DomainsDrop(
    t: Tracker, camera: string, ds: seq<Detection>, domains: seq<string>, ts: real, tentative: bool, n: nat, k: nat)
    returns (i: nat)
    requires k < n <= |domains| && Distinct(domains) && t.cfg.cap > 0
    requires !Roomy(t, camera, domains[k], OfDomains(ds, {domains[k]}), ts, tentative)
    ensures var u := AfterDomains(t, camera, ds, domains, ts, n);
            i < |u.out| && Judges(tentative, u.out[i].track) && u.out[i].track.id in u.tracker.expired
  {
    hide AfterDomain, Held, OfDomains, Spares, Matched, Geometries, Judges, Judged;
    var before := AfterDomains(t, camera, ds, domains, ts, n - 1);
    var own := OfDomains(ds, {domains[n - 1]});
    if k < n - 1 {
      i := DomainsDrop(t, camera, ds, domains, ts, tentative, n - 1, k);
      RetiredStays(before.tracker, camera, domains[n - 1], own, ts, before.out[i].track.id);
    } else {
      DomainsElsewhere(t, camera, ds, domains, ts, n - 1, (camera, domains[n - 1]));
      DomainsConfigured(t, camera, ds, domains, ts, n - 1);
      i := DomainDrops(before.tracker, camera, domains[n - 1], own, ts, tentative);
      i := i + |before.out|;
    }
  }

  lemma {:induction false} RetiredStays(
    t: Tracker, camera: string, domain: string, ds: seq<Detection>, ts: real, id: string)
    requires id in t.expired
    ensures id in AfterDomain(t, camera, domain, ds, ts).tracker.expired
  {
    hide Seated, Trimmed, Dropped;
    DomainHeld(t, camera, domain, ds, ts);
  }

  lemma {:induction false} DomainsAreDistinct(ds: seq<Detection>)
    ensures Distinct(Domains(ds))
  {
    if ds != [] {
      DomainsAreDistinct(ds[..|ds| - 1]);
    }
  }

  // ---- ageing leaves them ---------------------------------------------------------------------------------------

  lemma {:induction false} RemainingHas(cfg: Config, tracks: seq<Track>, ts: real, n: nat, i: nat)
    requires i < n <= |tracks| && Seen(tracks[i], ts) && cfg.maxAge >= 0.0
    ensures HasTrack(Remaining(cfg, tracks, ts, n), tracks[i])
  {
    if i < n - 1 {
      RemainingHas(cfg, tracks, ts, n - 1, i);
    }
  }

  lemma {:induction false} AgeKeyKeeps(t: Tracker, k: Key, ts: real, key: Key, track: Track)
    requires HasTrack(Held(t, key), track) && Seen(track, ts) && t.cfg.maxAge >= 0.0
    ensures HasTrack(Held(AgeKey(t, k, ts), key), track)
  {
    if k == key {
      var tracks := Held(t, key);
      var i: nat :| i < |tracks| && tracks[i] == track;
      RemainingHas(t.cfg, tracks, ts, |tracks|, i);
    }
  }

  lemma {:induction false} AgeKeysKeep(
    t: Tracker, camera: string, keys: seq<Key>, ts: real, n: nat, key: Key, track: Track)
    requires n <= |keys| && HasTrack(Held(t, key), track) && Seen(track, ts) && t.cfg.maxAge >= 0.0
    ensures AgeKeys(t, camera, keys, ts, n).cfg == t.cfg
    ensures HasTrack(Held(AgeKeys(t, camera, keys, ts, n), key), track)
  {
    hide HasTrack, Held;
    if n > 0 {
      AgeKeysKeep(t, camera, keys, ts, n - 1, key, track);
      AgeKeyKeeps(AgeKeys(t, camera, keys, ts, n - 1), keys[n - 1], ts, key, track);
    }
  }

  lemma {:induction false} AgeKeysRetire(t: Tracker, camera: string, keys: seq<Key>, ts: real, n: nat, id: string)
    requires n <= |keys| && id in t.expired
    ensures id in AgeKeys(t, camera, keys, ts, n).expired
  {
    if n > 0 {
      AgeKeysRetire(t, camera, keys, ts, n - 1, id);
    }
  }

  // ---- main results -------------------------------------------------------------------------------------------------

  /** Every track returned, or every known one, is one of the tracker's own. */
  ghost predicate AllLive(u: Updated, tentative: bool) {
    forall i :: 0 <= i < |u.out| && Judges(tentative, u.out[i].track) ==> u.out[i].track.id in Pool(u.tracker)
  }

  lemma {:induction false} HeldIsPooled(t: Tracker, key: Key, track: Track)
    requires t.tracks.Ok() && HasTrack(Held(t, key), track)
    ensures track.id in Pool(t)
  {
    var i: nat :| i < |Held(t, key)| && Held(t, key)[i] == track;
    assert Ids(Held(t, key))[i] == track.id;
    HeldInPool(t.tracks.keys, t.tracks.at, key, track.id);
  }

  /** With room in every domain, each such track an update returns is one of the tracker's own. */
  lemma {:induction false} ReturnedTracksAreLive(
    t: Tracker, camera: string, ds: seq<Detection>, ts: real, tentative: bool, i: nat)
    requires t.tracks.Ok() && t.cfg.enabled && t.cfg.cap > 0 && t.cfg.maxAge >= 0.0
    requires AllRoomy(t, camera, ds, ts, tentative) && i < |AfterUpdate(t, camera, ds, ts).out|
    requires Judges(tentative, AfterUpdate(t, camera, ds, ts).out[i].track)
    ensures AfterUpdate(t, camera, ds, ts).out[i].track.id in Pool(AfterUpdate(t, camera, ds, ts).tracker)
  {
    hide AfterDomains, AgeKeys, Held, HasTrack, Pool, Roomy, Judges;
    var domains := Domains(ds);
    var u := AfterDomains(t, camera, ds, domains, ts, |domains|);
    var track := u.out[i].track;
    DomainsAreDistinct(ds);
    DomainsKeep(t, camera, ds, domains, ts, tentative, |domains|, i);
    DomainsConfigured(t, camera, ds, domains, ts, |domains|);
    var k: nat :| k < |domains| && HasTrack(Held(u.tracker, (camera, domains[k])), track);
    var keys := u.tracker.tracks.keys;
    AgeKeysKeep(u.tracker, camera, keys, ts, |keys|, (camera, domains[k]), track);
    UpdateConserves(t, camera, ds, ts);
    HeldIsPooled(AfterUpdate(t, camera, ds, ts).tracker, (camera, domains[k]), track);
  }

  /** Without it, some such track the update returns has already been retired by it. */
  lemma {:induction false} OneReturnedIsRetired(
    t: Tracker, camera: string, ds: seq<Detection>, ts: real, tentative: bool) returns (i: nat)
    requires t.cfg.enabled && t.cfg.cap > 0 && !AllRoomy(t, camera, ds, ts, tentative)
    ensures var u := AfterUpdate(t, camera, ds, ts);
            i < |u.out| && Judges(tentative, u.out[i].track) && u.out[i].track.id in u.tracker.expired
  {
    hide AfterDomains, AgeKeys, Roomy, Judges;
    var domains := Domains(ds);
    DomainsAreDistinct(ds);
    var k: nat :| k < |domains| && !Roomy(t, camera, domains[k], OfDomains(ds, {domains[k]}), ts, tentative);
    i := DomainsDrop(t, camera, ds, domains, ts, tentative, |domains|, k);
    var u := AfterDomains(t, camera, ds, domains, ts, |domains|);
    AgeKeysRetire(u.tracker, camera, u.tracker.tracks.keys, ts, |u.tracker.tracks.keys|, u.out[i].track.id);
  }

  /** After any run and at any time, a frame returns only live tracks - of all it returns,
      or of those known - exactly when every domain of it has room: what the cap would cut
      off stands, by last sighting, ahead of every one of them. */
  lemma {:induction false} ReturnedLiveExactly(
    cfg: Config, ops: seq<Op>, camera: string, ds: seq<Detection>, ts: real, tentative: bool)
    requires cfg.enabled && cfg.cap > 0 && cfg.maxAge >= 0.0
    ensures var t := Run(World(Start(cfg), [], []), ops).t;
            AllRoomy(t, camera, ds, ts, tentative) <==> AllLive(AfterUpdate(t, camera, ds, ts), tentative)
  {
    hide AfterUpdate, Pool, AllRoomy, Judges;
    RunIsAccounted(cfg, ops);
    var w := Run(World(Start(cfg), [], []), ops);
    var u := AfterUpdate(w.t, camera, ds, ts);
    if AllRoomy(w.t, camera, ds, ts, tentative) {
      forall i | 0 <= i < |u.out| && Judges(tentative, u.out[i].track)
        ensures u.out[i].track.id in Pool(u.tracker)
      {
        ReturnedTracksAreLive(w.t, camera, ds, ts, tentative, i);
      }
    } else {
      var i := OneReturnedIsRetired(w.t, camera, ds, ts, tentative);
      var more := ops + [Update(camera, ds, ts)];
      assert more[..|ops|] == ops;
      IdentitiesAreConserved(cfg, more, u.out[i].track.id);
      assert Run(World(Start(cfg), [], []), more).t == u.tracker;
      assert u.out[i].track.id !in Pool(u.tracker);
    }
  }

  // ---- a frame later than every sighting ----------------------------------------------------------------

  /** No domain of the frame has more detections than the cap. */
  predicate WithinCap(ds: seq<Detection>, cap: int) {
    forall d :: d in Domains(ds) ==> |OfDomains(ds, {d})| <= cap
  }

  /** Every track of the camera was last seen before ts. */
  ghost predicate StrictlyLater(t: Tracker, camera: string, ts: real) {
    forall domain :: AllBefore(Held(t, (camera, domain)), ts)
  }

  function Outside(x: set<nat>, n: nat): nat {
    if n == 0 then 0 else Outside(x, n - 1) + (if n - 1 in x then 0 else 1)
  }

  lemma {:induction false} SameOutside(x: set<nat>, y: set<nat>, n: nat)
    requires forall k :: k < n ==> (k in x <==> k in y)
    ensures Outside(x, n) == Outside(y, n)
  {
    if n > 0 {
      SameOutside(x, y, n - 1);
    }
  }

  lemma {:induction false} OutsideIsRest(x: set<nat>, n: nat)
    requires forall k :: k in x ==> k < n
    ensures Outside(x, n) + |x| == n
  {
    if n == 0 {
      assert x == {};
    } else {
      var y := x - {n - 1};
      SameOutside(x, y, n - 1);
      OutsideIsRest(y, n - 1);
      if n - 1 in x {
        assert x == y + {n - 1};
      } else {
        assert x == y;
      }
    }
  }

  lemma {:induction false} UnmatchedIsOutside(m: Matching, n: nat)
    ensures Unmatched(m, n) == Outside(m.trackOf.Keys, n)
  {
    if n > 0 {
      UnmatchedIsOutside(m, n - 1);
    }
  }

  lemma {:induction false} AheadIsOutside(tracks: seq<Track>, taken: set<nat>, ts: real, n: nat)
    requires n <= |tracks| && AllBefore(tracks, ts)
    ensures AheadOf(tracks, taken, taken, ts, n) == Outside(taken, n)
  {
    if n > 0 {
      AheadIsOutside(tracks, taken, ts, n - 1);
    }
  }

  lemma {:induction false} AllTaken(cfg: Config, tracks: seq<Track>, m: Matching, ts: real)
    requires Covered(m) && InRange(m, |tracks|)
    ensures Judged(cfg, true, tracks, m, ts) == Places(m.taken, true)
  {
    TakenInRange(m, |tracks|);
    hide KnownAt;
  }

  /** Later than every sighting, a domain has room for all it returns exactly when it is
      within the cap. */
  lemma {:induction false} LaterIsRoomy(t: Tracker, camera: string, domain: string, ds: seq<Detection>, ts: real)
    requires AllBefore(Held(t, (camera, domain)), ts) && ds != []
    ensures Roomy(t, camera, domain, ds, ts, true) <==> |ds| <= t.cfg.cap
  {
    var tracks, m := Held(t, (camera, domain)), DomainMatching(t, camera, domain, ds, ts);
    MatchedFits(t.cfg.maxCost, tracks, Geometries(ds), ts);
    AllTaken(t.cfg, tracks, m, ts);
    TakenInRange(m, |tracks|);
    hide DomainMatching, AllBefore, OneToOne, Covered, Judged;
    UnmatchedIsOutside(m, |ds|);
    AheadIsOutside(tracks, m.taken, ts, |tracks|);
    OutsideIsRest(m.trackOf.Keys, |ds|);
    OutsideIsRest(m.taken, |tracks|);
    assert |m.trackOf.Keys| == |m.trackOf|;
  }

  lemma {:induction false} FewerFree(asked: set<nat>, more: set<nat>, n: nat)
    requires asked <= more && FreeBelow(more, n)
    ensures FreeBelow(asked, n)
  {
  }

  /** Asking about fewer leaves more ahead. */
  lemma {:induction false} FewerAhead(tracks: seq<Track>, taken: set<nat>, asked: set<nat>, ts: real, n: nat)
    requires n <= |tracks| && asked <= taken
    ensures AheadOf(tracks, taken, taken, ts, n) <= AheadOf(tracks, taken, asked, ts, n)
  {
    if n > 0 {
      hide FreeBelow;
      FewerAhead(tracks, taken, asked, ts, n - 1);
      if FreeBelow(taken, n - 1) {
        FewerFree(asked, taken, n - 1);
      }
    }
  }

  /** Room for all is room for the known. */
  lemma {:induction false} RoomForAll(
    t: Tracker, camera: string, domain: string, ds: seq<Detection>, ts: real, tentative: bool)
    requires Roomy(t, camera, domain, ds, ts, true)
    ensures Roomy(t, camera, domain, ds, ts, tentative)
  {
    var tracks, m := Held(t, (camera, domain)), DomainMatching(t, camera, domain, ds, ts);
    MatchedFits(t.cfg.maxCost, tracks, Geometries(ds), ts);
    AllTaken(t.cfg, tracks, m, ts);
    FewerAhead(tracks, m.taken, Judged(t.cfg, tentative, tracks, m, ts).held, ts, |tracks|);
    hide DomainMatching, OneToOne, Covered, KnownAt, AheadOf;
  }

  lemma {:induction false} DomainHasOne(ds: seq<Detection>, d: string)
    requires d in Domains(ds)
    ensures OfDomains(ds, {d}) != []
  {
    var init := ds[..|ds| - 1];
    if ds[|ds| - 1].domain != d {
      DomainHasOne(init, d);
    }
  }

  lemma {:induction false} LaterFrameIsRoomy(t: Tracker, camera: string, ds: seq<Detection>, ts: real)
    requires StrictlyLater(t, camera, ts)
    ensures AllRoomy(t, camera, ds, ts, true) <==> WithinCap(ds, t.cfg.cap)
    ensures WithinCap(ds, t.cfg.cap) ==> AllRoomy(t, camera, ds, ts, false)
  {
    hide Roomy;
    forall d | d in Domains(ds)
      ensures Roomy(t, camera, d, OfDomains(ds, {d}), ts, true) <==> |OfDomains(ds, {d})| <= t.cfg.cap
      ensures Roomy(t, camera, d, OfDomains(ds, {d}), ts, true) ==> Roomy(t, camera, d, OfDomains(ds, {d}), ts, false)
    {
      DomainHasOne(ds, d);
      LaterIsRoomy(t, camera, d, OfDomains(ds, {d}), ts);
      if Roomy(t, camera, d, OfDomains(ds, {d}), ts, true) {
        RoomForAll(t, camera, d, OfDomains(ds, {d}), ts, false);
      }
    }
  }

  /** After any run, a frame later than every sighting returns only live tracks exactly
      when no domain of it exceeds the cap. */
  lemma {:induction false} ReturnedLiveExactlyWithinCap(
    cfg: Config, ops: seq<Op>, camera: string, ds: seq<Detection>, ts: real)
    requires cfg.enabled && cfg.cap > 0 && cfg.maxAge >= 0.0
    requires StrictlyLater(Run(World(Start(cfg), [], []), ops).t, camera, ts)
    ensures var u := AfterUpdate(Run(World(Start(cfg), [], []), ops).t, camera, ds, ts);
            WithinCap(ds, cfg.cap) <==> AllLive(u, true)
  {
    RunIsAccounted(cfg, ops);
    hide AfterUpdate, AllLive, AllRoomy, StrictlyLater, WithinCap, Run;
    ReturnedLiveExactly(cfg, ops, camera, ds, ts, true);
    LaterFrameIsRoomy(Run(World(Start(cfg), [], []), ops).t, camera, ds, ts);
  }

  // ---- a frame at a time already seen ----------------------------------------------------------------------------

  function Tied(): Config {
    Config(true, 0.0, 0.5, 1.0, 3.0, 4.0, 0.15, 2, "n")
  }

  function At(x: int): Detection {
    Detection("car", MergeBoxes.Box(x, 0, x + 2, 2), 1.0, 1.0, 1)
  }

  function Parked(n: nat, x: int): Track {
    Fresh(IdOf("gate", "n", 0, n), "car", Tentative, GeometryOf(At(x).box), 0.0)
  }

  /** What the first frame leaves: two tracks, the first where a car is found again. */
  function Two(): seq<Track> {
    [Parked(1, 0), Parked(2, 200)]
  }

  function FirstCars(): seq<Detection> {
    [At(0), At(200)]
  }

  function TwoCars(): seq<Detection> {
    [At(0), At(100)]
  }

  lemma {:induction false} SameSigns(x: real, y: real, r: real)
    requires r == x * y && ((x > 0.0 && y > 0.0) || (x < 0.0 && y < 0.0))
    ensures r > 0.0
  {
  }

  lemma {:induction false} NonZeroSquare(x: real)
    requires x != 0.0
    ensures Square(x) > 0.0
  {
    SameSigns(x, x, Square(x));
  }

  lemma {:induction false} NonZeroRatio(d: real, scale: real)
    requires d != 0.0 && scale > 0.0
    ensures d / scale != 0.0
  {
    assert d == (d / scale) * scale;
  }

  /** Not straight above one another: some cost. */
  lemma {:induction false} ApartCostsSomething(p: Geometry, g: Geometry)
    requires p.cx != g.cx
    ensures CostSquared(p, g) > 0.0
  {
    var scale := RealMax(0.000001, (p.h + g.h) / 2.0);
    NonZeroRatio(g.cx - p.cx, scale);
    NonZeroSquare((g.cx - p.cx) / scale);
  }

  lemma {:induction false} SameSize(a: real)
    requires a >= 1.0
    ensures Excess(a, a) == 0.0
  {
  }

  /** In the very same place: none. */
  lemma {:induction false} SamePlaceCostsNothing(g: Geometry)
    requires g.w >= 1.0 && g.h >= 1.0
    ensures CostSquared(g, g) == 0.0
  {
    SameSize(g.w);
    SameSize(g.h);
    hide Excess;
    assert (g.h + g.h) / 2.0 == g.h;
    assert 0.0 / g.h == 0.0;
  }

  lemma {:induction false} CarPlaces()
    ensures GeometryOf(At(0).box) == Geometry(1.0, 2.0, 2.0, 2.0)
    ensures GeometryOf(At(100).box) == Geometry(101.0, 2.0, 2.0, 2.0)
    ensures GeometryOf(At(200).box) == Geometry(201.0, 2.0, 2.0, 2.0)
  {
  }

  lemma {:induction false} ParkedStays(n: nat, x: int)
    ensures Predicted(Parked(n, x), 0.0) == GeometryOf(At(x).box)
  {
    hide GeometryOf, IdOf;
  }

  lemma {:induction false} TiedCosts()
    ensures var gs := Geometries(TwoCars());
            && PairCost(Two(), gs, 0.0, Pair(0, 0)) == 0.0 && PairCost(Two(), gs, 0.0, Pair(1, 0)) > 0.0
            && PairCost(Two(), gs, 0.0, Pair(0, 1)) > 0.0 && PairCost(Two(), gs, 0.0, Pair(1, 1)) > 0.0
  {
    CarPlaces();
    hide CostSquared, GeometryOf, Predicted, IdOf;
    ParkedStays(1, 0);
    ParkedStays(2, 200);
    SamePlaceCostsNothing(GeometryOf(At(0).box));
    ApartCostsSomething(GeometryOf(At(0).box), GeometryOf(At(100).box));
    ApartCostsSomething(GeometryOf(At(200).box), GeometryOf(At(0).box));
    ApartCostsSomething(GeometryOf(At(200).box), GeometryOf(At(100).box));
  }

  lemma {:induction false} TiedMatch()
    ensures Matched(0.0, Two(), Geometries(TwoCars()), 0.0) == Matching(map[0 := 0], {0})
  {
    hide PairCost, IdOf;
    TiedCosts();
    var gs := Geometries(TwoCars());
    var only := [Keyed(0.0, Pair(0, 0))];
    assert PairsOfTrack(0.0, Two(), gs, 0.0, 0, 1) == only;
    assert PairsOfTrack(0.0, Two(), gs, 0.0, 0, 2) == only;
    assert PairsOfTrack(0.0, Two(), gs, 0.0, 1, 1) == [];
    assert PairsOfTrack(0.0, Two(), gs, 0.0, 1, 2) == [];
    assert Pairs(0.0, Two(), gs, 0.0, 1) == only;
    assert Pairs(0.0, Two(), gs, 0.0, 2) == only;
    SortFixesSorted(only);
    assert Greedy(only, 1) == Claim(Greedy(only, 0), Pair(0, 0));
  }

  lemma {:induction false} OneOf(domain: string, ds: seq<Detection>, d: Detection)
    requires ds != [] && ds[|ds| - 1] == d && d.domain == domain
    ensures OfDomains(ds, {domain}) == OfDomains(ds[..|ds| - 1], {domain}) + [d]
  {
  }

  lemma {:induction false} OneDomain(x: int)
    ensures Domains([At(0), At(x)]) == ["car"] && OfDomains([At(0), At(x)], {"car"}) == [At(0), At(x)]
  {
    CarsAreCars(0);
    CarsAreCars(x);
    hide At;
    var ds := [At(0), At(x)];
    assert ds[..1] == [At(0)] && [At(0)][..0] == [];
    OneOf("car", [At(0)], At(0));
    OneOf("car", ds, At(x));
    assert OfDomains([], {"car"}) == [];
    assert Domains([]) == [];
    assert Domains([At(0)]) == ["car"];
    assert [At(0)] + [At(x)] == ds;
  }

  lemma {:induction false} CarsAreCars(x: int)
    ensures At(x).domain == "car"
  {
  }

  lemma {:induction false} NothingToMatch(ds: seq<Detection>)
    ensures Matched(0.0, [], Geometries(ds), 0.0) == Matching(map[], {})
  {
    assert Pairs(0.0, [], Geometries(ds), 0.0, 0) == [];
  }

  lemma {:induction false} FirstCarsSeated()
    ensures Seated(Start(Tied()), "gate", "car", FirstCars(), 0.0).tracks == Two()
  {
    NothingToMatch(FirstCars());
    hide Matched, IdOf, GeometryOf, Geometries;
    var s := SettingOf(Start(Tied()), "gate", "car", 0.0);
    var w := Working([], 0, 0, 0, []);
    var m := Matching(map[], {});
    var one := Seat(s, FirstCars(), m, w, 1);
    assert one == SeatNew(s, At(0), Seat(s, FirstCars(), m, w, 0));
    assert Seat(s, FirstCars(), m, w, 2) == SeatNew(s, At(200), one);
    assert one.tracks == [Parked(1, 0)];
  }

  lemma {:induction false} NoneAges(tracks: seq<Track>, n: nat)
    requires n <= |tracks| && forall i :: 0 <= i < |tracks| ==> tracks[i].lastSeen == 0.0
    ensures Remaining(Tied(), tracks, 0.0, n) == tracks[..n]
  {
    if n > 0 {
      NoneAges(tracks, n - 1);
      assert tracks[..n] == tracks[..n - 1] + [tracks[n - 1]];
    }
  }

  /** The first frame, from a new tracker. */
  lemma {:induction false} FirstFrame()
    ensures var t := AfterUpdate(Start(Tied()), "gate", FirstCars(), 0.0).tracker;
            Held(t, ("gate", "car")) == Two() && t.cfg == Tied()
  {
    var start := Start(Tied());
    var key := ("gate", "car");
    OneDomain(200);
    FirstCarsSeated();
    DomainHeld(start, "gate", "car", FirstCars(), 0.0);
    hide Seated, IdOf, GeometryOf, Remaining, Aged;
    var one := AfterDomain(start, "gate", "car", FirstCars(), 0.0).tracker;
    assert Held(one, key) == Two() && one.tracks.keys == [key] && one.cfg == Tied();
    assert AfterDomains(start, "gate", FirstCars(), ["car"], 0.0, 0).tracker == start;
    assert AfterDomains(start, "gate", FirstCars(), ["car"], 0.0, 1).tracker == one;
    assert AgeKeys(one, "gate", [key], 0.0, 0) == one;
    assert AgeKeys(one, "gate", [key], 0.0, 1) == AgeKey(one, key, 0.0);
    NoneAges(Two(), 2);
    assert Two()[..2] == Two();
  }

  lemma {:induction false} TiedIsNotRoomy(t: Tracker)
    requires t.cfg == Tied() && Held(t, ("gate", "car")) == Two()
    ensures WithinCap(TwoCars(), 2) && !AllRoomy(t, "gate", TwoCars(), 0.0, true)
  {
    OneDomain(100);
    TiedMatch();
    hide Matched, IdOf, GeometryOf, Geometries;
    var m := Matching(map[0 := 0], {0});
    assert Unmatched(m, 1) == 0 && Unmatched(m, 2) == 1;
    assert m.trackOf[0] == 0;
    AllTaken(t.cfg, Two(), m, 0.0);
    assert AheadOf(Two(), m.taken, m.taken, 0.0, 1) == 0;
    assert AheadOf(Two(), m.taken, m.taken, 0.0, 2) == 0;
    assert "car" in Domains(TwoCars());
  }

  lemma {:induction false} OneRun(t: Tracker, op: Op)
    ensures Run(World(t, [], []), [op]).t == Applied(t, op)
  {
    hide Applied, Issues;
    assert [op][..0] == [];
    assert Run(World(t, [], []), []) == World(t, [], []);
  }

  lemma {:induction false} NotAllLive(u: Updated) returns (i: nat)
    requires !AllLive(u, true)
    ensures i < |u.out| && u.out[i].track.id !in Pool(u.tracker)
  {
    hide Pool;
    i :| i < |u.out| && u.out[i].track.id !in Pool(u.tracker);
  }

  lemma {:induction false} AfterFirstCars()
    ensures var t := Run(World(Start(Tied()), [], []), [Update("gate", FirstCars(), 0.0)]).t;
            Held(t, ("gate", "car")) == Two() && t.cfg == Tied()
  {
    FirstFrame();
    OneRun(Start(Tied()), Update("gate", FirstCars(), 0.0));
    hide AfterUpdate, FirstCars, Two, Tied, Run;
  }

  lemma {:induction false} WithinTwo()
    ensures WithinCap(FirstCars(), 2) && WithinCap(TwoCars(), 2)
  {
    OneDomain(200);
    OneDomain(100);
    hide At, Domains, OfDomains;
  }

  /** Two frames at one time, each within the cap: the second matches the first car and
      adds a third, and trimming, with all three tied, retires a track it returns. */
  lemma {:induction false} TiedTimeRetiresReturned() returns (i: nat)
    ensures WithinCap(FirstCars(), 2) && WithinCap(TwoCars(), 2)
    ensures var w := Run(World(Start(Tied()), [], []), [Update("gate", FirstCars(), 0.0)]);
            var u := AfterUpdate(w.t, "gate", TwoCars(), 0.0);
            i < |u.out| && u.out[i].track.id !in Pool(u.tracker)
  {
    WithinTwo();
    AfterFirstCars();
    var ops := [Update("gate", FirstCars(), 0.0)];
    var t := Run(World(Start(Tied()), [], []), ops).t;
    assert Tied().enabled && Tied().cap > 0 && Tied().maxAge >= 0.0;
    hide *;
    TiedIsNotRoomy(t);
    ReturnedLiveExactly(Tied(), ops, "gate", TwoCars(), 0.0, true);
    i := NotAllLive(AfterUpdate(t, "gate", TwoCars(), 0.0));
  }
}
