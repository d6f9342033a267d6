/** best_frames.py: the best few looks at each track under a global byte ceiling. */
module BestFrames {
  import opened OrderedDict
  import opened Sorting

  /** One stored look. The pixels themselves matter only through their size and
      the score `score_crop` gives them. */
  datatype Candidate = Candidate(ts: real, score: real, confidence: real, nbytes: nat)

  type Held = seq<Candidate>

  /** The abstract state of a buffer. */
  datatype Buffer = Buffer(
    perTrack: nat, maxBytes: int, byTrack: Dict<string, Held>, bytes: int,
    offered: nat, accepted: nat, evictedForBudget: nat)

  // ---- what a sound buffer is -------------------------------------------

  ghost function Bytes(held: Held): int {
    if held == [] then 0 else Bytes(held[..|held| - 1]) + held[|held| - 1].nbytes
  }

  ghost function TotalBytes(byTrack: Dict<string, Held>): int {
    Total(byTrack.keys, byTrack.at, Bytes)
  }

  ghost predicate Descending(held: Held) {
    forall i, j :: 0 <= i < j < |held| ==> held[j].score <= held[i].score
  }

  ghost predicate Shapely(held: Held, perTrack: nat) {
    1 <= |held| <= perTrack && Descending(held)
  }

  ghost predicate AllShapely(byTrack: Dict<string, Held>, perTrack: nat) {
    forall t :: t in byTrack.at ==> Shapely(byTrack.at[t], perTrack)
  }

  ghost predicate Sound(b: Buffer) {
    && b.perTrack >= 1
    && b.byTrack.Ok()
    && AllShapely(b.byTrack, b.perTrack)
    && b.bytes == TotalBytes(b.byTrack)
  }

  /** The promise of `_enforce_budget`: inside the ceiling, or nothing left to give up. */
  ghost predicate WithinCeiling(b: Buffer) {
    b.bytes <= b.maxBytes || b.byTrack.at == map[]
  }

  // ---- the operations -----------------------------------------------------

  function Keys(held: Held): (r: seq<Keyed<Candidate>>)
    ensures |r| == |held|
    ensures forall i :: 0 <= i < |held| ==> r[i] == Keyed(-held[i].score, held[i])
  {
    seq(|held|, i requires 0 <= i < |held| => Keyed(-held[i].score, held[i]))
  }

  function Vals(ks: seq<Keyed<Candidate>>): (r: Held)
    ensures |r| == |ks|
    ensures forall i :: 0 <= i < |ks| ==> r[i] == ks[i].val
  {
    seq(|ks|, i requires 0 <= i < |ks| => ks[i].val)
  }

  /** `held.sort(key=score, reverse=True)`. */
  function SortedByScore(held: Held): Held {
    Vals(Sort(Keys(held)))
  }

  /** Every held score with its track, track by track in dict order. */
  function Listing(keys: seq<string>, at: map<string, Held>): seq<Keyed<string>> {
    if keys == [] then []
    else
      var t := keys[|keys| - 1];
      Listing(keys[..|keys| - 1], at) + (if t in at then Tagged(at[t], t) else [])
  }

  function Tagged(held: Held, t: string): (r: seq<Keyed<string>>)
    ensures |r| == |held|
    ensures forall i :: 0 <= i < |held| ==> r[i] == Keyed(held[i].score, t)
  {
    seq(|held|, i requires 0 <= i < |held| => Keyed(held[i].score, t))
  }

  /** Drops the last held candidate of one track, and the track with it when it was the only one. */
  function PopWeakest(b: Buffer, t: string): Buffer {
    var held := Get(b.byTrack, t, []);
    if held == [] then b
    else
      var rest := held[..|held| - 1];
      b.(bytes := b.bytes - held[|held| - 1].nbytes,
         evictedForBudget := b.evictedForBudget + 1,
         byTrack := if rest == [] then Drop(b.byTrack, t) else Put(b.byTrack, t, rest))
  }

  /** The first n entries of the ranking visited, each only while over the ceiling. */
  function Visit(b: Buffer, ranked: seq<Keyed<string>>, n: nat): Buffer
    requires n <= |ranked|
  {
    if n == 0 then b
    else
      var p := Visit(b, ranked, n - 1);
      if p.bytes <= b.maxBytes then p else PopWeakest(p, ranked[n - 1].val)
  }

  function AfterEnforce(b: Buffer): Buffer {
    if b.bytes <= b.maxBytes then b
    else
      var ranked := Sort(Listing(b.byTrack.keys, b.byTrack.at));
      Visit(b, ranked, |ranked|)
  }

  /** The shortlist with one more look in it, before the byte ceiling is applied. */
  function AfterShelve(b: Buffer, t: string, c: Candidate): Buffer {
    var held := SortedByScore(Get(b.byTrack, t, []) + [c]);
    var kept := Take(held, b.perTrack);
    b.(byTrack := Put(b.byTrack, t, kept),
       bytes := b.bytes + c.nbytes - Freed(held, |kept|),
       accepted := b.accepted + 1)
  }

  /** The bytes of everything from position n on. */
  function Freed(held: Held, n: nat): int
    requires n <= |held|
    decreases |held| - n
  {
    if n == |held| then 0 else held[|held| - 1].nbytes + Freed(held[..|held| - 1], n)
  }

  predicate Rejects(b: Buffer, t: string, c: Candidate) {
    var held := Get(b.byTrack, t, []);
    c.score < 0.0 || (|held| >= b.perTrack && (held == [] || c.score <= held[|held| - 1].score))
  }

  function AfterOffer(b: Buffer, t: string, c: Candidate): Buffer {
    var b := b.(offered := b.offered + 1);
    if Rejects(b, t, c) then b else AfterEnforce(AfterShelve(b, t, c))
  }

  function ForgetOne(b: Buffer, t: string): Buffer {
    b.(byTrack := Drop(b.byTrack, t), bytes := b.bytes - Freed(Get(b.byTrack, t, []), 0))
  }

  function AfterForget(b: Buffer, ts: seq<string>): Buffer {
    var b := ForgetEach(b, ts, |ts|);
    b.(bytes := if b.bytes < 0 then 0 else b.bytes)
  }

  function ForgetEach(b: Buffer, ts: seq<string>, n: nat): Buffer
    requires n <= |ts|
  {
    if n == 0 then b else ForgetOne(ForgetEach(b, ts, n - 1), ts[n - 1])
  }

  // ---- bytes ----------------------------------------------------------------

  lemma {:induction false} FreedIsBytes(held: Held, n: nat)
    requires n <= |held|
    ensures Freed(held, n) == Bytes(held) - Bytes(held[..n])
    decreases |held| - n
  {
    if n == |held| {
      assert held[..n] == held;
    } else {
      FreedIsBytes(held[..|held| - 1], n);
      assert held[..|held| - 1][..n] == held[..n];
    }
  }

  ghost function WeightOf(ks: seq<Keyed<Candidate>>): int {
    if ks == [] then 0 else WeightOf(ks[..|ks| - 1]) + ks[|ks| - 1].val.nbytes
  }

  lemma {:induction false} WeightSplit(a: seq<Keyed<Candidate>>, b: seq<Keyed<Candidate>>)
    ensures WeightOf(a + b) == WeightOf(a) + WeightOf(b)
  {
    if b == [] {
      assert a + b == a;
    } else {
      assert (a + b)[..|a + b| - 1] == a + b[..|b| - 1];
      WeightSplit(a, b[..|b| - 1]);
    }
  }

  lemma {:induction false} WeightIsBytes(ks: seq<Keyed<Candidate>>)
    ensures WeightOf(ks) == Bytes(Vals(ks))
  {
    if ks != [] {
      WeightIsBytes(ks[..|ks| - 1]);
      assert Vals(ks)[..|ks| - 1] == Vals(ks[..|ks| - 1]);
    }
  }

  lemma {:induction false} InsertWeighs(s: seq<Keyed<Candidate>>, x: Keyed<Candidate>)
    ensures WeightOf(Insert(s, x)) == WeightOf(s) + x.val.nbytes
  {
    var front, back := s[..Slot(s, x.key)], s[Slot(s, x.key)..];
    assert s == front + back;
    WeightSplit(front, back);
    WeightSplit(front + [x], back);
    WeightSplit(front, [x]);
    assert [x][..0] == [];
  }

  /** A shortlist that is already in order takes one more look by insertion. */
  lemma {:induction false} SortedOnce(held: Held, c: Candidate)
    requires Descending(held)
    ensures SortedByScore(held + [c]) == Vals(Insert(Keys(held), Keyed(-c.score, c)))
    ensures Descending(SortedByScore(held + [c]))
    ensures Bytes(SortedByScore(held + [c])) == Bytes(held) + c.nbytes
    ensures |SortedByScore(held + [c])| == |held| + 1
  {
    var x := Keyed(-c.score, c);
    assert Keys(held + [c]) == Keys(held) + [x];
    SortAppended(Keys(held), x);
    InsertedValues(Keys(held), x);
    InsertWeighs(Keys(held), x);
    WeightIsBytes(Insert(Keys(held), x));
    WeightIsBytes(Keys(held));
    assert Vals(Keys(held)) == held;
  }

  lemma {:induction false} InsertedValues(s: seq<Keyed<Candidate>>, x: Keyed<Candidate>)
    requires Ascending(s) && forall i :: 0 <= i < |s| ==> s[i].key == -s[i].val.score
    requires x.key == -x.val.score
    ensures Descending(Vals(Insert(s, x)))
  {
    var r := Insert(s, x);
    forall i | 0 <= i < |r|
      ensures r[i].key == -r[i].val.score
    {
      InsertAt(s, x, i);
    }
  }

  lemma {:induction false} TopIsShapely(sorted: Held, n: nat)
    requires sorted != [] && n >= 1 && Descending(sorted)
    ensures Shapely(Take(sorted, n), n)
    ensures Freed(sorted, |Take(sorted, n)|) == Bytes(sorted) - Bytes(Take(sorted, n))
  {
    var kept := Take(sorted, n);
    FreedIsBytes(sorted, |kept|);
    assert sorted[..|kept|] == kept;
  }

  /** What `Shelve` leaves of one track, and what it costs in bytes. */
  lemma {:induction false} ShelvedHeld(b: Buffer, t: string, c: Candidate)
    requires b.perTrack >= 1 && Descending(Get(b.byTrack, t, []))
    ensures var kept := Get(AfterShelve(b, t, c).byTrack, t, []);
            && Shapely(kept, b.perTrack)
            && AfterShelve(b, t, c).bytes == b.bytes + Bytes(kept) - Bytes(Get(b.byTrack, t, []))
  {
    SortedOnce(Get(b.byTrack, t, []), c);
    TopIsShapely(SortedByScore(Get(b.byTrack, t, []) + [c]), b.perTrack);
  }

  lemma {:induction false} ReplaceWeighs(byTrack: Dict<string, Held>, t: string, held: Held)
    requires byTrack.Ok()
    ensures TotalBytes(Put(byTrack, t, held)) == TotalBytes(byTrack) + Bytes(held) - Bytes(Get(byTrack, t, []))
  {
    TotalPut(byTrack, t, held, Bytes);
  }

  /** Replacing one shortlist by a sound one, with the bytes accounted for. */
  lemma {:induction false} ReplaceIsSound(b: Buffer, t: string, held: Held, b': Buffer)
    requires Sound(b) && Shapely(held, b.perTrack)
    requires b'.byTrack == Put(b.byTrack, t, held) && b'.perTrack == b.perTrack
    requires b'.bytes == b.bytes + Bytes(held) - Bytes(Get(b.byTrack, t, []))
    ensures Sound(b')
  {
    ReplaceWeighs(b.byTrack, t, held);
    ReplaceShapely(b.byTrack, t, held, b.perTrack);
    UpdatesAreOk(b.byTrack, t, held);
  }

  lemma {:induction false} ReplaceShapely(byTrack: Dict<string, Held>, t: string, held: Held, perTrack: nat)
    requires AllShapely(byTrack, perTrack) && Shapely(held, perTrack)
    ensures AllShapely(Put(byTrack, t, held), perTrack)
  {
  }

  lemma {:induction false} ShelveIsSound(b: Buffer, t: string, c: Candidate)
    requires Sound(b)
    ensures Sound(AfterShelve(b, t, c))
  {
    assert t in b.byTrack.at ==> Shapely(b.byTrack.at[t], b.perTrack);
    ShelvedHeld(b, t, c);
    var b' := AfterShelve(b, t, c);
    ReplaceIsSound(b, t, Get(b'.byTrack, t, []), b');
  }

  lemma {:induction false} PopIsSound(b: Buffer, t: string)
    requires Sound(b)
    ensures Sound(PopWeakest(b, t))
  {
    var held := Get(b.byTrack, t, []);
    if |held| > 1 {
      ReplaceIsSound(b, t, held[..|held| - 1], PopWeakest(b, t));
    } else if held != [] {
      UpdatesAreOk(b.byTrack, t, held);
      TotalDrop(b.byTrack, t, Bytes);
    }
  }

  lemma {:induction false} ForgetOneIsSound(b: Buffer, t: string)
    requires Sound(b)
    ensures Sound(ForgetOne(b, t))
  {
    FreedIsBytes(Get(b.byTrack, t, []), 0);
    UpdatesAreOk(b.byTrack, t, []);
    TotalDrop(b.byTrack, t, Bytes);
  }

  lemma {:induction false} BytesNonNegative(held: Held)
    ensures Bytes(held) >= 0
  {
    if held != [] {
      BytesNonNegative(held[..|held| - 1]);
    }
  }

  lemma {:induction false} TotalNonNegative(keys: seq<string>, at: map<string, Held>)
    ensures Total(keys, at, Bytes) >= 0
  {
    if keys != [] {
      TotalNonNegative(keys[..|keys| - 1], at);
      if keys[|keys| - 1] in at {
        BytesNonNegative(at[keys[|keys| - 1]]);
      }
    }
  }

  lemma {:induction false} ForgetEachIsSound(b: Buffer, ts: seq<string>, n: nat)
    requires Sound(b) && n <= |ts|
    ensures Sound(ForgetEach(b, ts, n)) && ForgetEach(b, ts, n).bytes <= b.bytes
    ensures ForgetEach(b, ts, n) == b.(byTrack := ForgetEach(b, ts, n).byTrack, bytes := ForgetEach(b, ts, n).bytes)
  {
    if n > 0 {
      ForgetEachIsSound(b, ts, n - 1);
      var p := ForgetEach(b, ts, n - 1);
      ForgetOneIsSound(p, ts[n - 1]);
      FreedIsBytes(Get(p.byTrack, ts[n - 1], []), 0);
      BytesNonNegative(Get(p.byTrack, ts[n - 1], []));
    }
  }

  lemma {:induction false} ForgetEachDrops(b: Buffer, ts: seq<string>, n: nat)
    requires n <= |ts|
    ensures ForgetEach(b, ts, n).byTrack.at == b.byTrack.at - Members(ts[..n])
  {
    if n > 0 {
      ForgetEachDrops(b, ts, n - 1);
      assert ts[..n] == ts[..n - 1] + [ts[n - 1]];
    }
  }

  function Members(ts: seq<string>): set<string> {
    set t | t in ts
  }

  /** Forgetting removes exactly the named tracks, and the clamp at zero never acts. */
  lemma {:induction false} ForgetRemovesExactly(b: Buffer, ts: seq<string>)
    requires Sound(b)
    ensures Sound(AfterForget(b, ts))
    ensures AfterForget(b, ts).byTrack.at == b.byTrack.at - Members(ts)
    ensures AfterForget(b, ts).bytes <= b.bytes
    ensures WithinCeiling(b) ==> WithinCeiling(AfterForget(b, ts))
  {
    ForgetEachIsSound(b, ts, |ts|);
    ForgetEachDrops(b, ts, |ts|);
    assert ts[..|ts|] == ts;
    var r := ForgetEach(b, ts, |ts|);
    TotalNonNegative(r.byTrack.keys, r.byTrack.at);
  }

  // ---- weakest first --------------------------------------------------------

  /** The scores a ranking still lists for one track. */
  ghost function Listed(ranked: seq<Keyed<string>>, t: string): multiset<real> {
    if ranked == [] then multiset{}
    else
      var last := ranked[|ranked| - 1];
      Listed(ranked[..|ranked| - 1], t) + (if last.val == t then multiset{last.key} else multiset{})
  }

  ghost function Scores(held: Held): multiset<real> {
    if held == [] then multiset{} else Scores(held[..|held| - 1]) + multiset{held[|held| - 1].score}
  }

  lemma {:induction false} ListedSplit(a: seq<Keyed<string>>, b: seq<Keyed<string>>, t: string)
    ensures Listed(a + b, t) == Listed(a, t) + Listed(b, t)
  {
    if b == [] {
      assert a + b == a;
    } else {
      assert (a + b)[..|a + b| - 1] == a + b[..|b| - 1];
      ListedSplit(a, b[..|b| - 1], t);
    }
  }

  lemma {:induction false} ListedOne(x: Keyed<string>, t: string)
    ensures Listed([x], t) == if x.val == t then multiset{x.key} else multiset{}
  {
    assert [x][..0] == [];
  }

  lemma {:induction false} ListedInsert(r: seq<Keyed<string>>, x: Keyed<string>, t: string)
    ensures Listed(Insert(r, x), t) == Listed(r, t) + Listed([x], t)
  {
    var front, back := r[..Slot(r, x.key)], r[Slot(r, x.key)..];
    calc {
      Listed(Insert(r, x), t);
      { assert Insert(r, x) == front + [x] + back; }
      Listed(front + [x] + back, t);
      { ListedThree(front, [x], back, t); }
      Listed(front, t) + Listed([x], t) + Listed(back, t);
      { ListedSplit(front, back, t); }
      Listed(front + back, t) + Listed([x], t);
      { assert front + back == r; }
      Listed(r, t) + Listed([x], t);
    }
  }

  lemma {:induction false} ListedThree(a: seq<Keyed<string>>, x: seq<Keyed<string>>, b: seq<Keyed<string>>, t: string)
    ensures Listed(a + x + b, t) == Listed(a, t) + Listed(x, t) + Listed(b, t)
  {
    ListedSplit(a + x, b, t);
    ListedSplit(a, x, t);
  }

  lemma {:induction false} ListedSorted(s: seq<Keyed<string>>, t: string)
    ensures Listed(Sort(s), t) == Listed(s, t)
  {
    if s != [] {
      var init, x := s[..|s| - 1], s[|s| - 1];
      ListedSorted(init, t);
      ListedInsert(Sort(init), x, t);
      ListedOne(x, t);
    }
  }

  lemma {:induction false} ListedTagged(held: Held, t: string, u: string)
    ensures Listed(Tagged(held, t), u) == if t == u then Scores(held) else multiset{}
  {
    if held != [] {
      ListedTagged(held[..|held| - 1], t, u);
      assert Tagged(held, t)[..|held| - 1] == Tagged(held[..|held| - 1], t);
    }
  }

  lemma {:induction false} ListingLists(keys: seq<string>, at: map<string, Held>, t: string)
    requires Distinct(keys) && forall k :: k in keys ==> k in at
    ensures Listed(Listing(keys, at), t) == if t in keys then Scores(at[t]) else multiset{}
  {
    if keys != [] {
      var init, last := keys[..|keys| - 1], keys[|keys| - 1];
      assert keys == init + [last];
      assert last !in init;
      ListingLists(init, at, t);
      ListedSplit(Listing(init, at), Tagged(at[last], last), t);
      ListedTagged(at[last], last, t);
    }
  }

  lemma {:induction false} ListedMember(ranked: seq<Keyed<string>>, t: string, score: real) returns (i: nat)
    requires score in Listed(ranked, t)
    ensures i < |ranked| && ranked[i] == Keyed(score, t)
  {
    var last := ranked[|ranked| - 1];
    if last.val == t && last.key == score {
      i := |ranked| - 1;
    } else {
      i := ListedMember(ranked[..|ranked| - 1], t, score);
    }
  }

  lemma {:induction false} ScoreMember(held: Held, score: real) returns (i: nat)
    requires score in Scores(held)
    ensures i < |held| && held[i].score == score
  {
    if held[|held| - 1].score == score {
      i := |held| - 1;
    } else {
      i := ScoreMember(held[..|held| - 1], score);
    }
  }

  lemma {:induction false} ScoreOfEach(held: Held, i: nat)
    requires i < |held|
    ensures held[i].score in Scores(held)
  {
    if i < |held| - 1 {
      ScoreOfEach(held[..|held| - 1], i);
    }
  }

  /** The first n entries of the ranking popped, whatever the byte count says. */
  ghost function Pops(b: Buffer, ranked: seq<Keyed<string>>, n: nat): Buffer
    requires n <= |ranked|
  {
    if n == 0 then b else PopWeakest(Pops(b, ranked, n - 1), ranked[n - 1].val)
  }

  /** Visiting with the early exit is popping some number of entries, and no
      entry is popped unless the buffer is still over the ceiling. */
  lemma {:induction false} VisitPops(b: Buffer, ranked: seq<Keyed<string>>, n: nat) returns (m: nat)
    requires n <= |ranked|
    ensures m <= n && Visit(b, ranked, n) == Pops(b, ranked, m)
    ensures m < n ==> Pops(b, ranked, m).bytes <= b.maxBytes
    ensures forall k :: 0 <= k < m ==> Pops(b, ranked, k).bytes > b.maxBytes
    ensures Visit(b, ranked, n).maxBytes == b.maxBytes
  {
    m := 0;
    if n > 0 {
      m := VisitPops(b, ranked, n - 1);
      if Visit(b, ranked, n - 1).bytes > b.maxBytes {
        m := n;
      }
    }
  }

  /** After n pops, exactly the scores of the rest of the ranking are held. */
  ghost predicate InStep(b: Buffer, b': Buffer, rest: seq<Keyed<string>>) {
    Sound(b') && forall t :: TrackInStep(b.byTrack, b'.byTrack, rest, t)
  }

  ghost predicate TrackInStep(before: Dict<string, Held>, after: Dict<string, Held>,
      rest: seq<Keyed<string>>, t: string)
  {
    && Scores(Get(after, t, [])) == Listed(rest, t)
    && Get(after, t, []) <= Get(before, t, [])
  }

  lemma {:induction false} ListedFront(rest: seq<Keyed<string>>, t: string)
    requires rest != []
    ensures Listed(rest, t) == (if rest[0].val == t then multiset{rest[0].key} else multiset{}) + Listed(rest[1..], t)
  {
    assert rest == [rest[0]] + rest[1..];
    ListedSplit([rest[0]], rest[1..], t);
    ListedOne(rest[0], t);
  }

  /** The last of a descending list is the first entry the ranking still has for it. */
  lemma {:induction false} LastIsNext(held: Held, rest: seq<Keyed<string>>)
    requires rest != [] && Ascending(rest) && Descending(held)
    requires Scores(held) == Listed(rest, rest[0].val)
    ensures held != [] && held[|held| - 1].score == rest[0].key
  {
    ListedFront(rest, rest[0].val);
    var i := ScoreMember(held, rest[0].key);
    ScoreOfEach(held, |held| - 1);
    var j := ListedMember(rest, rest[0].val, held[|held| - 1].score);
  }

  lemma {:induction false} PopMatchesNext(held: Held, rest: seq<Keyed<string>>)
    requires rest != [] && held != [] && held[|held| - 1].score == rest[0].key
    requires Scores(held) == Listed(rest, rest[0].val)
    ensures Scores(held[..|held| - 1]) == Listed(rest[1..], rest[0].val)
  {
    ListedFront(rest, rest[0].val);
    var one := multiset{rest[0].key};
    assert Scores(held[..|held| - 1]) == Scores(held) - one;
    assert Listed(rest[1..], rest[0].val) == Listed(rest, rest[0].val) - one;
  }

  lemma {:induction false} PopTouchesOne(b: Buffer, t: string)
    requires Get(b.byTrack, t, []) != []
    ensures var held := Get(b.byTrack, t, []);
            Get(PopWeakest(b, t).byTrack, t, []) == held[..|held| - 1]
    ensures forall u :: u != t ==> Get(PopWeakest(b, t).byTrack, u, []) == Get(b.byTrack, u, [])
  {
  }

  lemma {:induction false} PopKeepsTrack(b: Buffer, b': Buffer, rest: seq<Keyed<string>>, t: string)
    requires rest != [] && Ascending(rest) && Sound(b')
    requires TrackInStep(b.byTrack, b'.byTrack, rest, t)
    requires TrackInStep(b.byTrack, b'.byTrack, rest, rest[0].val)
    ensures TrackInStep(b.byTrack, PopWeakest(b', rest[0].val).byTrack, rest[1..], t)
  {
    var held := Get(b'.byTrack, rest[0].val, []);
    LastIsNext(held, rest);
    PopTouchesOne(b', rest[0].val);
    if t == rest[0].val {
      PopMatchesNext(held, rest);
    } else {
      ListedFront(rest, t);
    }
  }

  lemma {:induction false} PopKeepsStep(b: Buffer, b': Buffer, rest: seq<Keyed<string>>)
    requires rest != [] && Ascending(rest) && InStep(b, b', rest)
    ensures InStep(b, PopWeakest(b', rest[0].val), rest[1..])
  {
    PopIsSound(b', rest[0].val);
    forall t
      ensures TrackInStep(b.byTrack, PopWeakest(b', rest[0].val).byTrack, rest[1..], t)
    {
      PopKeepsTrack(b, b', rest, t);
    }
  }

  lemma {:induction false} PopsInStep(b: Buffer, ranked: seq<Keyed<string>>, n: nat)
    requires n <= |ranked| && Ascending(ranked) && InStep(b, b, ranked)
    ensures InStep(b, Pops(b, ranked, n), ranked[n..])
  {
    if n == 0 {
      assert ranked[0..] == ranked;
    } else {
      PopsInStep(b, ranked, n - 1);
      PopKeepsStep(b, Pops(b, ranked, n - 1), ranked[n - 1..]);
      assert ranked[n - 1..][1..] == ranked[n..];
    }
  }

  /** Each pop takes one look away and changes no setting. */
  lemma {:induction false} PopsCount(b: Buffer, ranked: seq<Keyed<string>>, n: nat)
    requires n <= |ranked| && Ascending(ranked) && InStep(b, b, ranked)
    ensures var r := Pops(b, ranked, n);
            && r.evictedForBudget == b.evictedForBudget + n
            && r.perTrack == b.perTrack && r.maxBytes == b.maxBytes
            && r.offered == b.offered && r.accepted == b.accepted
  {
    if n > 0 {
      var before, rest := Pops(b, ranked, n - 1), ranked[n - 1..];
      PopsCount(b, ranked, n - 1);
      PopsInStep(b, ranked, n - 1);
      hide Pops, InStep;
      NextIsHeld(b, before, rest);
    }
    assert n > 0 ==> Pops(b, ranked, n) == PopWeakest(Pops(b, ranked, n - 1), ranked[n - 1].val);
  }

  lemma {:induction false} NextIsHeld(b: Buffer, b': Buffer, rest: seq<Keyed<string>>)
    requires rest != [] && Ascending(rest) && InStep(b, b', rest)
    ensures Get(b'.byTrack, rest[0].val, []) != []
  {
    assert TrackInStep(b.byTrack, b'.byTrack, rest, rest[0].val);
    LastIsNext(Get(b'.byTrack, rest[0].val, []), rest);
  }

  lemma {:induction false} RankingInStep(b: Buffer)
    requires Sound(b)
    ensures InStep(b, b, Sort(Listing(b.byTrack.keys, b.byTrack.at)))
  {
    var l := Listing(b.byTrack.keys, b.byTrack.at);
    forall t
      ensures TrackInStep(b.byTrack, b.byTrack, Sort(l), t)
    {
      ListedSorted(l, t);
      ListingLists(b.byTrack.keys, b.byTrack.at, t);
    }
  }

  /** Every survivor scores at least as high as everything given up, on any track. */
  ghost predicate WeakestFirst(b: Buffer, b': Buffer) {
    && (forall t :: Get(b'.byTrack, t, []) <= Get(b.byTrack, t, []))
    && (forall t, i, u, j ::
          0 <= i < |Get(b'.byTrack, t, [])| && |Get(b'.byTrack, u, [])| <= j < |Get(b.byTrack, u, [])|
          ==> Get(b.byTrack, u, [])[j].score <= Get(b'.byTrack, t, [])[i].score)
  }

  lemma {:induction false} SurvivorIsListed(kept: Held, ranked: seq<Keyed<string>>, m: nat, t: string, i: nat)
      returns (x: nat)
    requires m <= |ranked| && i < |kept| && Scores(kept) == Listed(ranked[m..], t)
    ensures m <= x < |ranked| && ranked[x].key == kept[i].score
  {
    ScoreOfEach(kept, i);
    x := ListedMember(ranked[m..], t, kept[i].score);
    x := m + x;
  }

  lemma {:induction false} SurvivorsOutrank(b: Buffer, b': Buffer, ranked: seq<Keyed<string>>, m: nat,
      t: string, i: nat, u: string, j: nat)
    requires m <= |ranked| && Ascending(ranked)
    requires TrackInStep(b.byTrack, b.byTrack, ranked, u)
    requires TrackInStep(b.byTrack, b'.byTrack, ranked[m..], t) && TrackInStep(b.byTrack, b'.byTrack, ranked[m..], u)
    requires i < |Get(b'.byTrack, t, [])|
    requires |Get(b'.byTrack, u, [])| <= j < |Get(b.byTrack, u, [])|
    ensures Get(b.byTrack, u, [])[j].score <= Get(b'.byTrack, t, [])[i].score
  {
    var x := SurvivorIsListed(Get(b'.byTrack, t, []), ranked, m, t, i);
    var before, after := Get(b.byTrack, u, []), Get(b'.byTrack, u, []);
    assert before == after + before[|after|..];
    var y := EvictedIsListed(after, before[|after|..], ranked, m, u, j - |after|);
    assert ranked[y].key <= ranked[x].key;
  }

  /** What a track lost was listed in the part of the ranking already visited. */
  lemma {:induction false} EvictedIsListed(
    kept: Held, lost: Held, ranked: seq<Keyed<string>>, m: nat, u: string, j: nat) returns (y: nat)
    requires m <= |ranked| && j < |lost|
    requires Scores(kept + lost) == Listed(ranked, u) && Scores(kept) == Listed(ranked[m..], u)
    ensures y < m && ranked[y] == Keyed(lost[j].score, u)
  {
    assert ranked == ranked[..m] + ranked[m..];
    ListedSplit(ranked[..m], ranked[m..], u);
    ScoresSplit(kept, lost);
    assert Scores(lost) == Scores(kept + lost) - Scores(kept);
    assert Listed(ranked[..m], u) == Listed(ranked, u) - Listed(ranked[m..], u);
    ScoreOfEach(lost, j);
    y := ListedMember(ranked[..m], u, lost[j].score);
  }

  lemma {:induction false} ScoresSplit(a: Held, b: Held)
    ensures Scores(a + b) == Scores(a) + Scores(b)
  {
    if b == [] {
      assert a + b == a;
    } else {
      assert (a + b)[..|a + b| - 1] == a + b[..|b| - 1];
      ScoresSplit(a, b[..|b| - 1]);
    }
  }

  lemma {:induction false} NothingListed(before: Dict<string, Held>, after: Dict<string, Held>, n: nat, t: string)
    requires AllShapely(after, n) && TrackInStep(before, after, [], t)
    ensures t !in after.at
  {
    assert Scores(Get(after, t, [])) == multiset{};
  }

  lemma {:induction false} NothingListedNothingHeld(b: Buffer, b': Buffer)
    requires InStep(b, b', [])
    ensures b'.byTrack.at == map[]
  {
    forall t
      ensures t !in b'.byTrack.at
    {
      NothingListed(b.byTrack, b'.byTrack, b'.perTrack, t);
    }
  }

  /** Every look held, lowest score first. */
  function Ranking(b: Buffer): seq<Keyed<string>> {
    Sort(Listing(b.byTrack.keys, b.byTrack.at))
  }

  lemma {:induction false} PoppedIsWeakestFirst(b: Buffer, r: Buffer, m: nat)
    requires Sound(b) && m <= |Ranking(b)| && r == Pops(b, Ranking(b), m)
    ensures Sound(r) && WeakestFirst(b, r) && (m == |Ranking(b)| ==> r.byTrack.at == map[])
  {
    var ranked := Ranking(b);
    RankingInStep(b);
    PopsInStep(b, ranked, m);
    if m == |ranked| {
      assert ranked[m..] == [];
      NothingListedNothingHeld(b, r);
    }
    forall t
      ensures Get(r.byTrack, t, []) <= Get(b.byTrack, t, [])
    {
      assert TrackInStep(b.byTrack, r.byTrack, ranked[m..], t);
    }
    forall t, i, u, j |
        0 <= i < |Get(r.byTrack, t, [])| && |Get(r.byTrack, u, [])| <= j < |Get(b.byTrack, u, [])|
      ensures Get(b.byTrack, u, [])[j].score <= Get(r.byTrack, t, [])[i].score
    {
      assert TrackInStep(b.byTrack, b.byTrack, ranked, u);
      assert TrackInStep(b.byTrack, r.byTrack, ranked[m..], t);
      assert TrackInStep(b.byTrack, r.byTrack, ranked[m..], u);
      SurvivorsOutrank(b, r, ranked, m, t, i, u, j);
    }
  }

  /** Budget enforcement keeps the buffer sound, ends inside the ceiling or empty, and
      gives up the m weakest looks anywhere: with any fewer of them gone the buffer was
      still over the ceiling. Nothing else of it changes. */
  lemma {:induction false} EnforceGivesUpWeakest(b: Buffer) returns (m: nat)
    requires Sound(b)
    ensures Sound(AfterEnforce(b)) && WithinCeiling(AfterEnforce(b)) && WeakestFirst(b, AfterEnforce(b))
    ensures m <= |Ranking(b)| && AfterEnforce(b) == Pops(b, Ranking(b), m)
    ensures forall k :: 0 <= k < m ==> Pops(b, Ranking(b), k).bytes > b.maxBytes
    ensures var r := AfterEnforce(b);
            && r.evictedForBudget == b.evictedForBudget + m
            && r.perTrack == b.perTrack && r.maxBytes == b.maxBytes
            && r.offered == b.offered && r.accepted == b.accepted
  {
    m := 0;
    var ranked := Ranking(b);
    if b.bytes > b.maxBytes {
      m := VisitPops(b, ranked, |ranked|);
    }
    RankingInStep(b);
    hide InStep, Sound, WeakestFirst, Visit;
    PoppedIsWeakestFirst(b, AfterEnforce(b), m);
    PopsCount(b, ranked, m);
  }

  // ---- whole runs -------------------------------------------------------------

  datatype Event = Offered(track: string, look: Candidate) | Forgotten(tracks: seq<string>)

  function Apply(b: Buffer, e: Event): Buffer {
    match e
    case Offered(t, c) => AfterOffer(b, t, c)
    case Forgotten(ts) => AfterForget(b, ts)
  }

  function Run(b: Buffer, events: seq<Event>): Buffer {
    if events == [] then b else Apply(Run(b, events[..|events| - 1]), events[|events| - 1])
  }

  function Empty(perTrack: int, maxBytes: int): Buffer {
    Buffer(if perTrack < 1 then 1 else perTrack, maxBytes, Dict([], map[]), 0, 0, 0, 0)
  }

  lemma {:induction false} AcceptedIsSound(b: Buffer, t: string, c: Candidate)
    requires Sound(b)
    ensures Sound(AfterEnforce(AfterShelve(b, t, c))) && WithinCeiling(AfterEnforce(AfterShelve(b, t, c)))
  {
    ShelveIsSound(b, t, c);
    var _ := EnforceGivesUpWeakest(AfterShelve(b, t, c));
  }

  lemma {:induction false} RejectsExactly(b: Buffer, t: string, c: Candidate)
    requires Sound(b)
    ensures var held := Get(b.byTrack, t, []);
            Rejects(b, t, c)
            <==> c.score < 0.0 || (|held| >= b.perTrack && forall i :: 0 <= i < |held| ==> c.score <= held[i].score)
  {
    var held := Get(b.byTrack, t, []);
    assert held != [] ==> Shapely(held, b.perTrack);
  }

  lemma {:induction false} ShelveCounts(b: Buffer, t: string, c: Candidate)
    requires Sound(b)
    ensures var r := AfterEnforce(AfterShelve(b, t, c)); r.accepted == b.accepted + 1 && r.offered == b.offered
  {
    ShelveIsSound(b, t, c);
    hide AfterEnforce, Sound;
    var _ := EnforceGivesUpWeakest(AfterShelve(b, t, c));
  }

  /** Every offer is counted. A look is accepted exactly when it has a score, and its track has
      a place free or holds one that scores less; rejected, it changes nothing else. */
  lemma {:induction false} AcceptedExactly(b: Buffer, t: string, c: Candidate)
    requires Sound(b)
    ensures var r, held := AfterOffer(b, t, c), Get(b.byTrack, t, []);
            var beaten := |held| >= b.perTrack && forall i :: 0 <= i < |held| ==> c.score <= held[i].score;
            && r.offered == b.offered + 1
            && r.accepted == b.accepted + (if c.score >= 0.0 && !beaten then 1 else 0)
            && (c.score < 0.0 || beaten ==> r == b.(offered := b.offered + 1))
  {
    var counted := b.(offered := b.offered + 1);
    RejectsExactly(counted, t, c);
    ShelveCounts(counted, t, c);
    hide AfterEnforce, AfterShelve, Rejects, Sound;
  }

  /** A new buffer is empty, keeps at least one look a track, and has the ceiling it is given. */
  lemma {:induction false} EmptyKeepsOne(perTrack: int, maxBytes: int)
    ensures var b := Empty(perTrack, maxBytes);
            && b.perTrack == (if perTrack >= 1 then perTrack else 1) && b.maxBytes == maxBytes
            && b.byTrack.at == map[] && b.bytes == 0 && b.offered == b.accepted == b.evictedForBudget == 0
  {
  }

  lemma {:induction false} OfferIsSound(b: Buffer, t: string, c: Candidate)
    requires Sound(b) && WithinCeiling(b)
    ensures Sound(AfterOffer(b, t, c)) && WithinCeiling(AfterOffer(b, t, c))
  {
    var counted := b.(offered := b.offered + 1);
    if Rejects(counted, t, c) {
      assert AfterOffer(b, t, c) == counted;
    } else {
      AcceptedIsSound(counted, t, c);
      assert AfterOffer(b, t, c) == AfterEnforce(AfterShelve(counted, t, c));
    }
  }

  lemma {:induction false} VisitKeys(b: Buffer, ranked: seq<Keyed<string>>, n: nat)
    requires n <= |ranked|
    ensures Visit(b, ranked, n).byTrack.at.Keys <= b.byTrack.at.Keys
  {
    if n > 0 {
      VisitKeys(b, ranked, n - 1);
    }
  }

  lemma {:induction false} EnforceKeys(b: Buffer)
    ensures AfterEnforce(b).byTrack.at.Keys <= b.byTrack.at.Keys
  {
    hide Visit, Listing;
    var ranked := Sort(Listing(b.byTrack.keys, b.byTrack.at));
    VisitKeys(b, ranked, |ranked|);
  }

  lemma {:induction false} ShelveKeys(b: Buffer, t: string, c: Candidate)
    ensures AfterShelve(b, t, c).byTrack.at.Keys == b.byTrack.at.Keys + {t}
  {
    hide SortedByScore, Take, Freed;
  }

  /** An offer can add no track but its own. */
  lemma {:induction false} OfferTouchesOne(b: Buffer, t: string, c: Candidate)
    ensures AfterOffer(b, t, c).byTrack.at.Keys <= b.byTrack.at.Keys + {t}
  {
    hide AfterEnforce, AfterShelve, Rejects;
    var counted := b.(offered := b.offered + 1);
    ShelveKeys(counted, t, c);
    EnforceKeys(AfterShelve(counted, t, c));
  }

  /** After any run of offers and forgets: the byte count is the true sum, every
      shortlist is non-empty, best first and no longer than `per_track`, and the
      ceiling holds unless the buffer is empty. */
  lemma {:induction false} EveryRunIsSound(perTrack: int, maxBytes: int, events: seq<Event>)
    ensures Sound(Run(Empty(perTrack, maxBytes), events))
    ensures WithinCeiling(Run(Empty(perTrack, maxBytes), events))
  {
    if events != [] {
      EveryRunIsSound(perTrack, maxBytes, events[..|events| - 1]);
      var b := Run(Empty(perTrack, maxBytes), events[..|events| - 1]);
      match events[|events| - 1]
      case Offered(t, c) => OfferIsSound(b, t, c);
      case Forgotten(ts) => ForgetRemovesExactly(b, ts);
    }
  }

  /** Everything `score_crop` did not refuse for t since t was last forgotten. */
  function OfferedSince(events: seq<Event>, t: string): Held {
    if events == [] then []
    else
      var before := OfferedSince(events[..|events| - 1], t);
      match events[|events| - 1]
      case Offered(u, c) => if u == t && c.score >= 0.0 then before + [c] else before
      case Forgotten(ts) => if t in ts then [] else before
  }

  /** No offer of the run ever brings the buffer over its ceiling. */
  ghost predicate NeverBinds(b: Buffer, events: seq<Event>) {
    events == [] ||
    var before := Run(b, events[..|events| - 1]);
    && NeverBinds(b, events[..|events| - 1])
    && match events[|events| - 1]
       case Offered(t, c) => Rejects(before, t, c) || AfterShelve(before, t, c).bytes <= b.maxBytes
       case Forgotten(_) => true
  }

  function TopLooks(looks: Held, n: nat): Held {
    Take(SortedByScore(looks), n)
  }

  ghost predicate Negated(ks: seq<Keyed<Candidate>>) {
    forall i :: 0 <= i < |ks| ==> ks[i].key == -ks[i].val.score
  }

  lemma {:induction false} SortedNegated(looks: Held)
    ensures Negated(Sort(Keys(looks)))
  {
    var ks := Sort(Keys(looks));
    SortMembers(Keys(looks));
    forall i | 0 <= i < |ks|
      ensures ks[i].key == -ks[i].val.score
    {
      assert ks[i] in Keys(looks);
    }
  }

  lemma {:induction false} KeysOfValues(ks: seq<Keyed<Candidate>>)
    requires Negated(ks)
    ensures Keys(Vals(ks)) == ks
    ensures Ascending(ks) ==> Descending(Vals(ks))
  {
  }

  lemma {:induction false} TopLooksKeys(looks: Held, n: nat)
    ensures Keys(TopLooks(looks, n)) == Take(Sort(Keys(looks)), n)
    ensures Descending(TopLooks(looks, n))
  {
    var ks := Sort(Keys(looks));
    SortedNegated(looks);
    KeysOfValues(Take(ks, n));
    assert TopLooks(looks, n) == Vals(Take(ks, n));
  }

  lemma {:induction false} OneMoreKey(looks: Held, c: Candidate, n: nat)
    ensures TopLooks(looks + [c], n) == Vals(Take(Insert(Sort(Keys(looks)), Keyed(-c.score, c)), n))
  {
    var all := Keys(looks + [c]);
    assert all == Keys(looks) + [Keyed(-c.score, c)];
    assert all[..|all| - 1] == Keys(looks);
    assert Sort(all) == Insert(Sort(Keys(looks)), Keyed(-c.score, c));
    TakeOfValues(Sort(all), n);
  }

  lemma {:induction false} TakeOfValues(ks: seq<Keyed<Candidate>>, n: nat)
    ensures Take(Vals(ks), n) == Vals(Take(ks, n))
  {
  }

  /** Keeping the best n as looks arrive is the same as sorting them all and taking n. */
  lemma {:induction false} StreamingTop(looks: Held, c: Candidate, n: nat)
    requires n >= 1
    ensures TopLooks(looks + [c], n) == TopLooks(TopLooks(looks, n) + [c], n)
  {
    var top := TopLooks(looks, n);
    TopLooksKeys(looks, n);
    OneMoreKey(looks, c, n);
    OneMoreKey(top, c, n);
    SortFixesSorted(Keys(top));
    TakeInsert(Sort(Keys(looks)), Keyed(-c.score, c), n);
  }

  /** A look no better than the worst of n held is not among the best n. */
  lemma {:induction false} StreamingTopRejects(looks: Held, c: Candidate, n: nat)
    requires n >= 1 && |TopLooks(looks, n)| >= n && c.score <= TopLooks(looks, n)[n - 1].score
    ensures TopLooks(looks + [c], n) == TopLooks(looks, n)
  {
    var ks := Sort(Keys(looks));
    TopLooksKeys(looks, n);
    assert Keys(TopLooks(looks, n))[n - 1].key <= -c.score;
    OneMoreKey(looks, c, n);
    TakeRejects(ks, Keyed(-c.score, c), n);
    assert Vals(Take(ks, n)) == TopLooks(looks, n);
  }

  lemma {:induction false} SettingsStay(b: Buffer, events: seq<Event>)
    requires NeverBinds(b, events)
    ensures Run(b, events).perTrack == b.perTrack && Run(b, events).maxBytes == b.maxBytes
  {
    if events != [] {
      SettingsStay(b, events[..|events| - 1]);
      if events[|events| - 1].Forgotten? {
        ForgetKeepsSettings(Run(b, events[..|events| - 1]), events[|events| - 1].tracks, |events[|events| - 1].tracks|);
      }
    }
  }

  lemma {:induction false} ForgetKeepsSettings(b: Buffer, ts: seq<string>, n: nat)
    requires n <= |ts|
    ensures ForgetEach(b, ts, n).perTrack == b.perTrack && ForgetEach(b, ts, n).maxBytes == b.maxBytes
  {
    if n > 0 {
      ForgetKeepsSettings(b, ts, n - 1);
    }
  }

  /** While the ceiling never binds, a track holds exactly the `per_track` best
      looks offered for it since it was last forgotten, best first, earliest
      first among equals. */
  lemma {:induction false} ShortlistIsSortAndTake(perTrack: int, maxBytes: int, events: seq<Event>, t: string)
    requires NeverBinds(Empty(perTrack, maxBytes), events)
    ensures var b := Empty(perTrack, maxBytes);
            Get(Run(b, events).byTrack, t, []) == TopLooks(OfferedSince(events, t), b.perTrack)
  {
    var b := Empty(perTrack, maxBytes);
    if events == [] {
      assert Sort(Keys([])) == [];
    } else {
      var init := events[..|events| - 1];
      ShortlistIsSortAndTake(perTrack, maxBytes, init, t);
      SettingsStay(b, init);
      var before := Run(b, init);
      match events[|events| - 1]
      case Offered(u, c) =>
        UnboundOffer(before, u, c);
        if u == t {
          OneMoreLook(before, t, c, OfferedSince(init, t));
        }
      case Forgotten(ts) =>
        NoneAfterForget(before, ts, t, OfferedSince(init, t));
    }
  }

  lemma {:induction false} NoneAfterForget(b: Buffer, ts: seq<string>, t: string, looks: Held)
    requires Get(b.byTrack, t, []) == TopLooks(looks, b.perTrack)
    ensures Get(AfterForget(b, ts).byTrack, t, []) == TopLooks(if t in ts then [] else looks, b.perTrack)
  {
    ForgetEachDrops(b, ts, |ts|);
    assert ts[..|ts|] == ts;
    assert Sort(Keys([])) == [];
  }

  /** An offer that does not bring the buffer over its ceiling either changes
      nothing but the count of offers or shelves the look. */
  lemma {:induction false} UnboundOffer(b: Buffer, t: string, c: Candidate)
    requires Rejects(b, t, c) || AfterShelve(b, t, c).bytes <= b.maxBytes
    ensures AfterOffer(b, t, c).byTrack == if Rejects(b, t, c) then b.byTrack else AfterShelve(b, t, c).byTrack
  {
    var counted := b.(offered := b.offered + 1);
    if !Rejects(b, t, c) {
      assert AfterOffer(b, t, c) == AfterShelve(counted, t, c);
    }
  }

  lemma {:induction false} OneMoreLook(b: Buffer, t: string, c: Candidate, looks: Held)
    requires b.perTrack >= 1
    requires Get(b.byTrack, t, []) == TopLooks(looks, b.perTrack)
    requires Rejects(b, t, c) || AfterShelve(b, t, c).bytes <= b.maxBytes
    ensures Get(AfterOffer(b, t, c).byTrack, t, [])
         == TopLooks(if c.score >= 0.0 then looks + [c] else looks, b.perTrack)
  {
    UnboundOffer(b, t, c);
    if !Rejects(b, t, c) {
      StreamingTop(looks, c, b.perTrack);
    } else if c.score >= 0.0 {
      StreamingTopRejects(looks, c, b.perTrack);
    }
  }

  // ---- the buffer itself -----------------------------------------------------

  class BestFrameBuffer {
    const perTrack: nat
    const maxBytes: int
    var byTrack: Dict<string, Held>
    var bytes: int
    var offered: nat
    var accepted: nat
    var evictedForBudget: nat

    ghost function View(): Buffer
      reads this
    {
      Buffer(perTrack, maxBytes, byTrack, bytes, offered, accepted, evictedForBudget)
    }

    constructor (perTrack: int, maxBytes: int)
      ensures View() == Empty(perTrack, maxBytes)
    {
      this.perTrack := if perTrack < 1 then 1 else perTrack;
      this.maxBytes := maxBytes;
      byTrack := Dict([], map[]);
      bytes, offered, accepted, evictedForBudget := 0, 0, 0, 0;
    }

    /** Considers one look for a track's shortlist. */
    method Offer(t: string, c: Candidate)
      requires Sound(View()) && WithinCeiling(View())
      modifies this
      ensures View() == AfterOffer(old(View()), t, c)
      ensures Sound(View()) && WithinCeiling(View())
    {
      OfferIsSound(View(), t, c);
      offered := offered + 1;
      ghost var counted := View();
      if c.score < 0.0 {
        assert Rejects(counted, t, c);
        return;
      }
      var held := Get(byTrack, t, []);
      if |held| >= perTrack && c.score <= held[|held| - 1].score {
        assert Rejects(counted, t, c);
        return;
      }
      assert !Rejects(counted, t, c);
      Shelve(t, c);
      EnforceBudget();
      assert View() == AfterEnforce(AfterShelve(counted, t, c));
    }

    method Shelve(t: string, c: Candidate)
      modifies this
      ensures View() == AfterShelve(old(View()), t, c)
    {
      var held := SortedByScore(Get(byTrack, t, []) + [c]);
      bytes := bytes + c.nbytes;
      ghost var sorted, kept := held, |Take(held, perTrack)|;
      while |held| > perTrack
        invariant kept <= |held| && held <= sorted
        invariant bytes - Freed(held, kept) == old(bytes) + c.nbytes - Freed(sorted, kept)
        invariant View() == old(View()).(bytes := bytes)
      {
        bytes := bytes - held[|held| - 1].nbytes;
        held := held[..|held| - 1];
      }
      assert held == Take(sorted, kept) == Take(sorted, perTrack);
      byTrack := Put(byTrack, t, held);
      accepted := accepted + 1;
    }

    /** Drops the weakest candidates anywhere until inside the ceiling. */
    method EnforceBudget()
      modifies this
      ensures View() == AfterEnforce(old(View()))
    {
      if bytes <= maxBytes {
        return;
      }
      var ranked := Sort(Listing(byTrack.keys, byTrack.at));
      var i := 0;
      while i < |ranked|
        invariant i <= |ranked|
        invariant View() == Visit(old(View()), ranked, i)
      {
        if bytes <= maxBytes {
          VisitRests(old(View()), ranked, i);
          break;
        }
        var t := ranked[i].val;
        var held := Get(byTrack, t, []);
        if held != [] {
          bytes := bytes - held[|held| - 1].nbytes;
          held := held[..|held| - 1];
          evictedForBudget := evictedForBudget + 1;
          byTrack := if held == [] then Drop(byTrack, t) else Put(byTrack, t, held);
        }
        i := i + 1;
      }
    }

    method Best(t: string) returns (found: bool, look: Candidate)
      requires Sound(View())
      ensures found == (t in byTrack.at)
      ensures found ==> look == byTrack.at[t][0]
      ensures found ==> forall c :: c in byTrack.at[t] ==> c.score <= look.score
    {
      var held := Get(byTrack, t, []);
      found, look := held != [], if held != [] then held[0] else Candidate(0.0, 0.0, 0.0, 0);
    }

    /** Drops everything held for the named tracks. */
    method Forget(ts: seq<string>)
      requires Sound(View()) && WithinCeiling(View())
      modifies this
      ensures View() == AfterForget(old(View()), ts)
      ensures Sound(View()) && WithinCeiling(View())
    {
      ForgetRemovesExactly(View(), ts);
      var i := 0;
      while i < |ts|
        invariant i <= |ts|
        invariant View() == ForgetEach(old(View()), ts, i)
      {
        ForgetTrack(ts[i]);
        i := i + 1;
      }
      bytes := if bytes < 0 then 0 else bytes;
    }

    method ForgetTrack(t: string)
      modifies this
      ensures View() == ForgetOne(old(View()), t)
    {
      var held := Get(byTrack, t, []);
      var j := 0;
      while j < |held|
        invariant j <= |held|
        invariant bytes == old(bytes) - Bytes(held[..j])
        invariant View() == old(View()).(bytes := bytes)
      {
        assert held[..j + 1][..j] == held[..j];
        bytes := bytes - held[j].nbytes;
        j := j + 1;
      }
      assert held[..j] == held && held[..0] == [];
      FreedIsBytes(held, 0);
      byTrack := Drop(byTrack, t);
    }
  }

  /** Once inside the ceiling, the rest of the ranking changes nothing. */
  lemma {:induction false} VisitRests(b: Buffer, ranked: seq<Keyed<string>>, n: nat)
    requires n <= |ranked| && Visit(b, ranked, n).bytes <= b.maxBytes
    requires Visit(b, ranked, n).maxBytes == b.maxBytes
    ensures Visit(b, ranked, |ranked|) == Visit(b, ranked, n)
    decreases |ranked| - n
  {
    if n < |ranked| {
      VisitRests(b, ranked, n + 1);
    }
  }
}
