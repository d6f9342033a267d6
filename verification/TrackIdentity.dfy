/** tracking.py: what becomes of the identities the tracker hands out. Over any run
    every id ever issued is in exactly one of three places: live, retired and waiting
    to be drained, or drained. */
module TrackIdentity {
  import opened Association
  import opened Decimal
  import opened NestedBoxes
  import opened OrderedDict
  import opened Sorting
  import opened Tracking

  // ---- the ids of the live tracks -----------------------------------------------------------

  ghost function IdBag(tracks: seq<Track>): multiset<string> {
    multiset(Ids(tracks))
  }

  ghost function PoolOf(keys: seq<Key>, at: map<Key, seq<Track>>): multiset<string> {
    if keys == [] then multiset{}
    else
      var last := keys[|keys| - 1];
      PoolOf(keys[..|keys| - 1], at) + (if last in at then IdBag(at[last]) else multiset{})
  }

  /** Every id of every list the tracker holds. */
  ghost function Pool(t: Tracker): multiset<string> {
    PoolOf(t.tracks.keys, t.tracks.at)
  }

  lemma {:induction false} PoolFrame(keys: seq<Key>, at: map<Key, seq<Track>>, at': map<Key, seq<Track>>)
    requires forall k :: k in keys ==> (k in at <==> k in at') && (k in at ==> at[k] == at'[k])
    ensures PoolOf(keys, at) == PoolOf(keys, at')
  {
    if keys != [] {
      PoolFrame(keys[..|keys| - 1], at, at');
    }
  }

  lemma {:induction false} PoolUpdate(keys: seq<Key>, at: map<Key, seq<Track>>, k: Key, v: seq<Track>)
    requires Distinct(keys) && k in keys && k in at
    ensures PoolOf(keys, at[k := v]) + IdBag(at[k]) == PoolOf(keys, at) + IdBag(v)
  {
    var init, last := keys[..|keys| - 1], keys[|keys| - 1];
    assert keys == init + [last];
    if last == k {
      PoolFrame(init, at, at[k := v]);
    } else {
      PoolUpdate(init, at, k, v);
      var bag := if last in at then IdBag(at[last]) else multiset{};
      assert PoolOf(keys, at) == PoolOf(init, at) + bag && PoolOf(keys, at[k := v]) == PoolOf(init, at[k := v]) + bag;
      Rearranged(PoolOf(init, at[k := v]), bag, IdBag(at[k]));
      Rearranged(PoolOf(init, at), bag, IdBag(v));
    }
  }

  lemma {:induction false} PoolAppend(keys: seq<Key>, at: map<Key, seq<Track>>, k: Key, v: seq<Track>)
    requires k !in keys
    ensures PoolOf(keys + [k], at[k := v]) == PoolOf(keys, at) + IdBag(v)
  {
    assert (keys + [k])[..|keys|] == keys;
    PoolFrame(keys, at, at[k := v]);
  }

  lemma {:induction false} PoolPut(d: Dict<Key, seq<Track>>, k: Key, v: seq<Track>)
    requires d.Ok()
    ensures PoolOf(Put(d, k, v).keys, Put(d, k, v).at) + IdBag(Get(d, k, [])) == PoolOf(d.keys, d.at) + IdBag(v)
  {
    hide PoolOf, IdBag;
    if k in d.at {
      PoolUpdate(d.keys, d.at, k, v);
    } else {
      PoolAppend(d.keys, d.at, k, v);
      NoIds();
    }
  }

  lemma {:induction false} NoIds()
    ensures IdBag([]) == multiset{}
  {
    assert Ids([]) == [];
  }

  lemma {:induction false} PoolWithout(keys: seq<Key>, at: map<Key, seq<Track>>, k: Key)
    requires Distinct(keys) && k in at
    ensures PoolOf(Without(keys, k), at - {k}) + (if k in keys then IdBag(at[k]) else multiset{}) == PoolOf(keys, at)
  {
    hide IdBag;
    if keys != [] {
      var init, last := keys[..|keys| - 1], keys[|keys| - 1];
      assert keys == init + [last];
      PoolWithout(init, at, k);
      if last != k {
        var r := Without(init, k) + [last];
        assert r[..|r| - 1] == Without(init, k);
      }
    }
  }

  lemma {:induction false} PoolDrop(d: Dict<Key, seq<Track>>, k: Key)
    requires d.Ok()
    ensures PoolOf(Drop(d, k).keys, Drop(d, k).at) + IdBag(Get(d, k, [])) == PoolOf(d.keys, d.at)
  {
    if k in d.at {
      PoolWithout(d.keys, d.at, k);
    } else {
      NoIds();
    }
  }

  lemma {:induction false} HeldInPool(keys: seq<Key>, at: map<Key, seq<Track>>, k: Key, id: string)
    requires k in keys && k in at && id in Ids(at[k])
    ensures id in PoolOf(keys, at)
  {
    if keys[|keys| - 1] != k {
      HeldInPool(keys[..|keys| - 1], at, k, id);
    }
  }

  // ---- what each part of an operation does with ids ----------------------------------------------

  /** The ids numbered from + 1 to `to`. */
  function NewIds(camera: string, nonce: string, epoch: nat, from: nat, to: nat): (ids: seq<string>)
    ensures |ids| == if from <= to then to - from else 0
  {
    if to <= from then [] else NewIds(camera, nonce, epoch, from, to - 1) + [IdOf(camera, nonce, epoch, to)]
  }

  lemma {:induction false} NewIdsJoin(camera: string, nonce: string, epoch: nat, a: nat, b: nat, c: nat)
    requires a <= b <= c
    ensures NewIds(camera, nonce, epoch, a, c)
            == NewIds(camera, nonce, epoch, a, b) + NewIds(camera, nonce, epoch, b, c)
  {
    if b < c {
      NewIdsJoin(camera, nonce, epoch, a, b, c - 1);
      assert NewIds(camera, nonce, epoch, a, c)
          == (NewIds(camera, nonce, epoch, a, b) + NewIds(camera, nonce, epoch, b, c - 1))
            + [IdOf(camera, nonce, epoch, c)];
    }
  }

  lemma {:induction false} SeatMatchedIds(s: Setting, d: Detection, i: nat, w: Working)
    requires i < |w.tracks|
    ensures Ids(SeatMatched(s, d, i, w).tracks) == Ids(w.tracks)
  {
    hide Advanced;
  }

  lemma {:induction false} SeatNewIds(s: Setting, d: Detection, w: Working)
    ensures Ids(SeatNew(s, d, w).tracks) == Ids(w.tracks) + [IdOf(s.camera, s.cfg.nonce, s.epoch, w.counter + 1)]
  {
    hide IdOf;
  }

  /** Seating keeps every id and adds one for each detection that matched nothing. */
  lemma {:induction false} SeatIds(s: Setting, ds: seq<Detection>, m: Matching, w: Working, n: nat)
    requires n <= |ds|
    ensures var r := Seat(s, ds, m, w, n);
            && w.counter <= r.counter && r.created - w.created == r.counter - w.counter
            && Ids(r.tracks) == Ids(w.tracks) + NewIds(s.camera, s.cfg.nonce, s.epoch, w.counter, r.counter)
  {
    hide SeatMatched, SeatNew;
    if n > 0 {
      var before := Seat(s, ds, m, w, n - 1);
      SeatIds(s, ds, m, w, n - 1);
      if n - 1 in m.trackOf && m.trackOf[n - 1] < |w.tracks| {
        SeatMatchedIds(s, ds[n - 1], m.trackOf[n - 1], before);
        SeatMatchedCounts(s, ds[n - 1], m.trackOf[n - 1], before);
      } else {
        SeatNewIds(s, ds[n - 1], before);
        SeatNewCounts(s, ds[n - 1], before);
        assert (Ids(w.tracks) + NewIds(s.camera, s.cfg.nonce, s.epoch, w.counter, before.counter))
               + [IdOf(s.camera, s.cfg.nonce, s.epoch, before.counter + 1)]
            == Ids(w.tracks) + NewIds(s.camera, s.cfg.nonce, s.epoch, w.counter, before.counter + 1);
      }
    }
  }

  lemma {:induction false} SeatMatchedCounts(s: Setting, d: Detection, i: nat, w: Working)
    requires i < |w.tracks|
    ensures SeatMatched(s, d, i, w).counter == w.counter && SeatMatched(s, d, i, w).created == w.created
  {
  }

  lemma {:induction false} SeatNewCounts(s: Setting, d: Detection, w: Working)
    ensures SeatNew(s, d, w).counter == w.counter + 1 && SeatNew(s, d, w).created == w.created + 1
  {
  }

  ghost function KeyedIds(ks: seq<Keyed<Track>>): multiset<string> {
    IdBag(TracksOf(ks))
  }

  lemma {:induction false} KeyedIdsSplit(a: seq<Keyed<Track>>, b: seq<Keyed<Track>>)
    ensures KeyedIds(a + b) == KeyedIds(a) + KeyedIds(b)
  {
    assert Ids(TracksOf(a + b)) == Ids(TracksOf(a)) + Ids(TracksOf(b));
  }

  lemma {:induction false} InsertIds(ks: seq<Keyed<Track>>, x: Keyed<Track>)
    ensures KeyedIds(Insert(ks, x)) == KeyedIds(ks) + KeyedIds([x])
  {
    hide KeyedIds;
    var front, back := ks[..Slot(ks, x.key)], ks[Slot(ks, x.key)..];
    assert Insert(ks, x) == (front + [x]) + back;
    KeyedIdsSplit(front + [x], back);
    KeyedIdsSplit(front, [x]);
    assert ks == front + back;
    KeyedIdsSplit(front, back);
    Rearranged(KeyedIds(front), KeyedIds([x]), KeyedIds(back));
  }

  lemma {:induction false} Rearranged(a: multiset<string>, b: multiset<string>, c: multiset<string>)
    ensures a + b + c == a + c + b
  {
  }

  lemma {:induction false} SortIds(ks: seq<Keyed<Track>>)
    ensures KeyedIds(Sort(ks)) == KeyedIds(ks)
  {
    hide KeyedIds;
    if ks != [] {
      var init, last := ks[..|ks| - 1], ks[|ks| - 1];
      SortIds(init);
      InsertIds(Sort(init), last);
      KeyedIdsSplit(init, [last]);
      assert init + [last] == ks;
    }
  }

  lemma {:induction false} IdsSplit(tracks: seq<Track>, n: nat)
    requires n <= |tracks|
    ensures IdBag(tracks) == IdBag(tracks[..n]) + IdBag(tracks[n..])
  {
    assert Ids(tracks) == Ids(tracks[..n]) + Ids(tracks[n..]);
  }

  /** Trimming splits the list: what is kept and what is dropped. */
  lemma {:induction false} TrimIds(cap: int, tracks: seq<Track>)
    ensures IdBag(Trimmed(cap, tracks)) + IdBag(Dropped(cap, tracks)) == IdBag(tracks)
  {
    if |tracks| <= cap {
      assert Ids(Dropped(cap, tracks)) == [];
    } else {
      SortIds(ByLastSeen(tracks));
      assert TracksOf(ByLastSeen(tracks)) == tracks;
      IdsSplit(OldestFirst(tracks), Cut(|tracks|, cap));
    }
  }

  lemma {:induction false} AgeOneMore(cfg: Config, tracks: seq<Track>, ts: real, n: nat)
    requires 0 < n <= |tracks|
    ensures var last := tracks[n - 1];
            && Ids(Remaining(cfg, tracks, ts, n))
               == Ids(Remaining(cfg, tracks, ts, n - 1)) + (if TooOld(cfg, last, ts) then [] else [last.id])
            && Ids(tracks[..n]) == Ids(tracks[..n - 1]) + [last.id]
  {
  }

  lemma {:induction false} Split(a: seq<string>, b: seq<string>, c: seq<string>, id: string, gone: bool)
    requires multiset(a) + multiset(b) == multiset(c)
    ensures multiset(a + if gone then [] else [id]) + multiset(b + if gone then [id] else []) == multiset(c + [id])
  {
    if gone {
      assert a + [] == a;
    } else {
      assert b + [] == b;
    }
  }

  /** Ageing splits the list the same way. */
  lemma {:induction false} AgeIds(cfg: Config, tracks: seq<Track>, ts: real, n: nat)
    requires n <= |tracks|
    ensures IdBag(Remaining(cfg, tracks, ts, n)) + multiset(Aged(cfg, tracks, ts, n)) == IdBag(tracks[..n])
  {
    hide Remaining;
    if n == 0 {
      NothingRemains(cfg, tracks, ts);
      NoIds();
    } else {
      var last := tracks[n - 1];
      AgeIds(cfg, tracks, ts, n - 1);
      AgeOneMore(cfg, tracks, ts, n);
      Split(Ids(Remaining(cfg, tracks, ts, n - 1)), Aged(cfg, tracks, ts, n - 1), Ids(tracks[..n - 1]),
            last.id, TooOld(cfg, last, ts));
    }
  }

  lemma {:induction false} NothingRemains(cfg: Config, tracks: seq<Track>, ts: real)
    ensures Remaining(cfg, tracks, ts, 0) == [] && tracks[..0] == []
  {
  }

  // ---- conservation ----------------------------------------------------------------------------------

  /** From t to t' the ids in `born` were issued; every id of t, and they, are live or
      retired in t'; and the lifetime counters say so. */
  ghost predicate Conserves(t: Tracker, t': Tracker, born: seq<string>) {
    && t'.cfg == t.cfg && t'.tracks.Ok()
    && Pool(t') + multiset(t'.expired) == Pool(t) + multiset(t.expired) + multiset(born)
    && t'.retired - |t'.expired| == t.retired - |t.expired|
    && t'.created == t.created + |born| && t'.counter == t.counter + |born|
  }

  lemma {:induction false} ConservesThen(t: Tracker, t': Tracker, t'': Tracker, a: seq<string>, b: seq<string>)
    requires Conserves(t, t', a) && Conserves(t', t'', b)
    ensures Conserves(t, t'', a + b)
  {
  }

  lemma {:induction false} RetireMoves(
    t: Tracker, t': Tracker, key: Key, kept: seq<Track>, gone: seq<string>, born: seq<string>)
    requires t.tracks.Ok() && t'.cfg == t.cfg && t'.tracks == Put(t.tracks, key, kept)
    requires IdBag(kept) + multiset(gone) == IdBag(Held(t, key)) + multiset(born)
    requires t'.expired == t.expired + gone && t'.retired == t.retired + |gone|
    requires t'.created == t.created + |born| && t'.counter == t.counter + |born|
    ensures Conserves(t, t', born)
  {
    hide IdBag, PoolOf, Put;
    PoolPut(t.tracks, key, kept);
    UpdatesAreOk(t.tracks, key, kept);
    assert multiset(t'.expired) == multiset(t.expired) + multiset(gone);
    Exchange(Pool(t), Pool(t'), IdBag(Held(t, key)), IdBag(kept), multiset(gone), multiset(born), multiset(t.expired));
  }

  /** A list replaced in the pool: what left it went to the retired ids. */
  lemma {:induction false} Exchange(
    pool: multiset<string>, pool': multiset<string>, held: multiset<string>, kept: multiset<string>,
    gone: multiset<string>, born: multiset<string>, expired: multiset<string>)
    requires pool' + held == pool + kept && kept + gone == held + born
    ensures pool' + (expired + gone) == pool + expired + born
  {
    forall id
      ensures (pool' + (expired + gone))[id] == (pool + expired + born)[id]
    {
      assert (pool' + held)[id] == (pool + kept)[id];
      assert (kept + gone)[id] == (held + born)[id];
    }
  }

  lemma {:induction false} DomainConserves(t: Tracker, camera: string, domain: string, ds: seq<Detection>, ts: real)
    requires t.tracks.Ok()
    ensures var t' := AfterDomain(t, camera, domain, ds, ts).tracker;
            && t.counter <= t'.counter && t'.epochs == t.epochs
            && Conserves(t, t', NewIds(camera, t.cfg.nonce, Epoch(t, camera), t.counter, t'.counter))
  {
    hide Seat, Matched, Trimmed, Dropped, Geometries, NewIds;
    var key := (camera, domain);
    var m := Matched(t.cfg.maxCost, Held(t, key), Geometries(ds), ts);
    SeatIds(SettingOf(t, camera, domain, ts), ds, m,
            Working(Held(t, key), t.counter, t.created, t.confirmed, []), |ds|);
    var w := Seated(t, camera, domain, ds, ts);
    var born := NewIds(camera, t.cfg.nonce, Epoch(t, camera), t.counter, w.counter);
    TrimIds(t.cfg.cap, w.tracks);
    assert IdBag(w.tracks) == IdBag(Held(t, key)) + multiset(born);
    RetireMoves(t, AfterDomain(t, camera, domain, ds, ts).tracker, key,
                Trimmed(t.cfg.cap, w.tracks), Ids(Dropped(t.cfg.cap, w.tracks)), born);
  }

  lemma {:induction false} DomainsConserve(
    t: Tracker, camera: string, ds: seq<Detection>, domains: seq<string>, ts: real, n: nat)
    requires t.tracks.Ok() && n <= |domains|
    ensures var t' := AfterDomains(t, camera, ds, domains, ts, n).tracker;
            && t.counter <= t'.counter && t'.epochs == t.epochs
            && Conserves(t, t', NewIds(camera, t.cfg.nonce, Epoch(t, camera), t.counter, t'.counter))
  {
    hide AfterDomain, OfDomains;
    if n > 0 {
      var before := AfterDomains(t, camera, ds, domains, ts, n - 1).tracker;
      var after := AfterDomains(t, camera, ds, domains, ts, n).tracker;
      DomainsConserve(t, camera, ds, domains, ts, n - 1);
      DomainConserves(before, camera, domains[n - 1], OfDomains(ds, {domains[n - 1]}), ts);
      ConservesThen(t, before, after, NewIds(camera, t.cfg.nonce, Epoch(t, camera), t.counter, before.counter),
                    NewIds(camera, t.cfg.nonce, Epoch(t, camera), before.counter, after.counter));
      NewIdsJoin(camera, t.cfg.nonce, Epoch(t, camera), t.counter, before.counter, after.counter);
    }
  }

  lemma {:induction false} AgeKeyConserves(t: Tracker, key: Key, ts: real)
    requires t.tracks.Ok()
    ensures Conserves(t, AgeKey(t, key, ts), [])
  {
    var tracks := Held(t, key);
    AgeIds(t.cfg, tracks, ts, |tracks|);
    assert tracks[..|tracks|] == tracks;
    RetireMoves(t, AgeKey(t, key, ts), key, Remaining(t.cfg, tracks, ts, |tracks|),
                Aged(t.cfg, tracks, ts, |tracks|), []);
  }

  lemma {:induction false} AgeKeysConserve(t: Tracker, camera: string, keys: seq<Key>, ts: real, n: nat)
    requires t.tracks.Ok() && n <= |keys|
    ensures Conserves(t, AgeKeys(t, camera, keys, ts, n), [])
  {
    hide AgeKey;
    if n > 0 {
      AgeKeysConserve(t, camera, keys, ts, n - 1);
      AgeKeyConserves(AgeKeys(t, camera, keys, ts, n - 1), keys[n - 1], ts);
      ConservesThen(t, AgeKeys(t, camera, keys, ts, n - 1), AgeKeys(t, camera, keys, ts, n), [], []);
    }
  }

  lemma {:induction false} ResetKeyConserves(t: Tracker, key: Key)
    requires t.tracks.Ok()
    ensures Conserves(t, ResetKey(t, key), [])
  {
    PoolDrop(t.tracks, key);
    UpdatesAreOk(t.tracks, key, []);
    var gone := Ids(Held(t, key));
    assert multiset(t.expired + gone) == multiset(t.expired) + multiset(gone);
  }

  lemma {:induction false} ResetKeysConserve(t: Tracker, camera: string, keys: seq<Key>, n: nat)
    requires t.tracks.Ok() && n <= |keys|
    ensures Conserves(t, ResetKeys(t, camera, keys, n), [])
  {
    hide ResetKey;
    if n > 0 {
      ResetKeysConserve(t, camera, keys, n - 1);
      ResetKeyConserves(ResetKeys(t, camera, keys, n - 1), keys[n - 1]);
      ConservesThen(t, ResetKeys(t, camera, keys, n - 1), ResetKeys(t, camera, keys, n), [], []);
    }
  }

  // ---- whole runs ---------------------------------------------------------------------------------------

  datatype Op =
    | Update(camera: string, ds: seq<Detection>, ts: real)
    | Reset(camera: string)
    | Forget(camera: string)
    | Drain

  /** A tracker with the history of the ids it issued and the ids drained from it. */
  datatype World = World(t: Tracker, issued: seq<string>, drained: seq<string>)

  /** The ids an operation issues. */
  function Issues(t: Tracker, op: Op): seq<string> {
    match op
    case Update(camera, ds, ts) =>
      NewIds(camera, t.cfg.nonce, Epoch(t, camera), t.counter, AfterUpdate(t, camera, ds, ts).tracker.counter)
    case _ => []
  }

  function Applied(t: Tracker, op: Op): Tracker {
    match op
    case Update(camera, ds, ts) => AfterUpdate(t, camera, ds, ts).tracker
    case Reset(camera) => AfterReset(t, camera)
    case Forget(camera) => AfterForget(t, camera)
    case Drain => AfterDrain(t)
  }

  function After(w: World, op: Op): World {
    World(Applied(w.t, op), w.issued + Issues(w.t, op), w.drained + (if op.Drain? then w.t.expired else []))
  }

  function Run(w: World, ops: seq<Op>): World {
    if ops == [] then w else After(Run(w, ops[..|ops| - 1]), ops[|ops| - 1])
  }

  /** Every id ever issued is live, waiting or drained, once. */
  ghost predicate Accounted(w: World) {
    && w.t.tracks.Ok()
    && Pool(w.t) + multiset(w.t.expired) + multiset(w.drained) == multiset(w.issued)
    && w.t.retired == |w.t.expired| + |w.drained|
    && w.t.created == |w.issued| && w.t.counter == |w.issued|
  }

  lemma {:induction false} UpdateConserves(t: Tracker, camera: string, ds: seq<Detection>, ts: real)
    requires t.tracks.Ok() && t.cfg.enabled
    ensures Conserves(t, AfterUpdate(t, camera, ds, ts).tracker, Issues(t, Update(camera, ds, ts)))
  {
    hide AfterDomains, AgeKeys, NewIds, PoolOf;
    if ds == [] {
      AgeKeysConserve(t, camera, t.tracks.keys, ts, |t.tracks.keys|);
    } else {
      var u := AfterDomains(t, camera, ds, Domains(ds), ts, |Domains(ds)|);
      DomainsConserve(t, camera, ds, Domains(ds), ts, |Domains(ds)|);
      AgeKeysConserve(u.tracker, camera, u.tracker.tracks.keys, ts, |u.tracker.tracks.keys|);
      var born := NewIds(camera, t.cfg.nonce, Epoch(t, camera), t.counter, u.tracker.counter);
      ConservesThen(t, u.tracker, AfterAgeOut(u.tracker, camera, ts), born, []);
      assert born + [] == born;
    }
  }

  lemma {:induction false} ResetConserves(t: Tracker, camera: string)
    requires t.tracks.Ok()
    ensures Conserves(t, AfterReset(t, camera), []) && Conserves(t, AfterForget(t, camera), [])
  {
    ResetKeysConserve(t.(epochs := t.epochs[camera := Epoch(t, camera) + 1]), camera, t.tracks.keys, |t.tracks.keys|);
  }

  lemma {:induction false} AfterIsAccounted(w: World, op: Op)
    requires Accounted(w) && w.t.cfg.enabled
    ensures Accounted(After(w, op)) && After(w, op).t.cfg == w.t.cfg
  {
    hide AfterUpdate, AfterReset, AfterForget;
    var w' := After(w, op);
    match op
    case Drain =>
      assert multiset(w'.drained) == multiset(w.drained) + multiset(w.t.expired);
    case Update(camera, ds, ts) =>
      UpdateConserves(w.t, camera, ds, ts);
      IssuesAdd(w, op);
    case Reset(camera) =>
      ResetConserves(w.t, camera);
      IssuesAdd(w, op);
    case Forget(camera) =>
      ResetConserves(w.t, camera);
      IssuesAdd(w, op);
  }

  lemma {:induction false} IssuesAdd(w: World, op: Op)
    requires Accounted(w) && Conserves(w.t, Applied(w.t, op), Issues(w.t, op)) && !op.Drain?
    ensures Accounted(After(w, op)) && After(w, op).t.cfg == w.t.cfg
  {
    hide Applied, Issues;
    assert multiset(w.issued + Issues(w.t, op)) == multiset(w.issued) + multiset(Issues(w.t, op));
    assert w.drained + [] == w.drained;
  }

  // ---- no id is issued twice --------------------------------------------------------------------------------

  /** The id ends in the number n after its last colon. */
  ghost predicate Numbered(id: string, n: nat) {
    exists front :: id == front + [':'] + Render(n)
  }

  ghost predicate AllNumbered(issued: seq<string>) {
    forall i: nat :: i < |issued| ==> Numbered(issued[i], i + 1)
  }

  lemma {:induction false} IdIsNumbered(camera: string, nonce: string, epoch: nat, n: nat)
    ensures Numbered(IdOf(camera, nonce, epoch, n), n)
  {
    var front := camera + ":" + nonce + "." + Render(epoch);
    assert IdOf(camera, nonce, epoch, n) == front + [':'] + Render(n);
  }

  lemma {:induction false} NumbersDiffer(a: string, b: string, m: nat, n: nat)
    requires Numbered(a, m) && Numbered(b, n) && a == b
    ensures m == n
  {
    var f :| a == f + [':'] + Render(m);
    var g :| b == g + [':'] + Render(n);
    ParseInvertsRender(m);
    ParseInvertsRender(n);
    SameEnding(f, g, ':', Render(m), Render(n));
  }

  lemma {:induction false} NewIdsNumbered(camera: string, nonce: string, epoch: nat, from: nat, to: nat, i: nat)
    requires from + i < to
    ensures Numbered(NewIds(camera, nonce, epoch, from, to)[i], from + i + 1)
  {
    if from + i == to - 1 {
      IdIsNumbered(camera, nonce, epoch, to);
    } else {
      NewIdsNumbered(camera, nonce, epoch, from, to - 1, i);
    }
  }

  /** The counter is the number of ids issued, and the ids are numbered in order. */
  ghost predicate Numbering(w: World) {
    w.t.counter == |w.issued| && AllNumbered(w.issued)
  }

  lemma {:induction false} AgeKeysCount(t: Tracker, camera: string, keys: seq<Key>, ts: real, n: nat)
    requires n <= |keys|
    ensures AgeKeys(t, camera, keys, ts, n).counter == t.counter
  {
    if n > 0 {
      AgeKeysCount(t, camera, keys, ts, n - 1);
    }
  }

  lemma {:induction false} ResetKeysCount(t: Tracker, camera: string, keys: seq<Key>, n: nat)
    requires n <= |keys|
    ensures ResetKeys(t, camera, keys, n).counter == t.counter
  {
    if n > 0 {
      ResetKeysCount(t, camera, keys, n - 1);
    }
  }

  lemma {:induction false} UpdateGrows(t: Tracker, camera: string, ds: seq<Detection>, ts: real)
    ensures t.counter <= AfterUpdate(t, camera, ds, ts).tracker.counter
  {
    hide AfterDomains, AgeKeys, Throwaways, NewOnes, NewIds;
    ThrowawaysReturnNew(t, camera, ds, ts, |ds|);
    DomainsReturnNew(t, camera, ds, Domains(ds), ts, |Domains(ds)|);
    var u := AfterDomains(t, camera, ds, Domains(ds), ts, |Domains(ds)|).tracker;
    AgeKeysCount(t, camera, t.tracks.keys, ts, |t.tracks.keys|);
    AgeKeysCount(u, camera, u.tracks.keys, ts, |u.tracks.keys|);
  }

  lemma {:induction false} ResetCounts(t: Tracker, camera: string)
    ensures AfterReset(t, camera).counter == t.counter && AfterForget(t, camera).counter == t.counter
  {
    hide ResetKeys;
    ResetKeysCount(t.(epochs := t.epochs[camera := Epoch(t, camera) + 1]), camera, t.tracks.keys, |t.tracks.keys|);
  }

  /** The ids of the tracks returned as new, in order. */
  function NewOnes(out: seq<Tracked>): seq<string> {
    if out == [] then []
    else NewOnes(out[..|out| - 1]) + (if out[|out| - 1].isNew then [out[|out| - 1].track.id] else [])
  }

  lemma {:induction false} NewOnesThen(out: seq<Tracked>, x: Tracked)
    ensures NewOnes(out + [x]) == NewOnes(out) + (if x.isNew then [x.track.id] else [])
  {
    assert (out + [x])[..|out|] == out;
  }

  lemma {:induction false} NewOnesJoin(a: seq<Tracked>, b: seq<Tracked>)
    ensures NewOnes(a + b) == NewOnes(a) + NewOnes(b)
  {
    if b == [] {
      assert a + b == a;
    } else {
      var init, x := b[..|b| - 1], b[|b| - 1];
      assert a + b == (a + init) + [x];
      NewOnesThen(a + init, x);
      NewOnesJoin(a, init);
      assert b == init + [x];
      NewOnesThen(init, x);
    }
  }

  lemma {:induction false} SeatReturnsNew(s: Setting, ds: seq<Detection>, m: Matching, w: Working, n: nat)
    requires n <= |ds| && w.out == []
    ensures var r := Seat(s, ds, m, w, n);
            w.counter <= r.counter && NewOnes(r.out) == NewIds(s.camera, s.cfg.nonce, s.epoch, w.counter, r.counter)
  {
    hide IdOf, Advanced, GeometryOf, NewOnes;
    if n == 0 {
      NothingNew();
    } else {
      SeatReturnsNew(s, ds, m, w, n - 1);
      var before, r := Seat(s, ds, m, w, n - 1), Seat(s, ds, m, w, n);
      NewOnesThen(before.out, r.out[|before.out|]);
    }
  }

  lemma {:induction false} NothingNew()
    ensures NewOnes([]) == []
  {
  }

  lemma {:induction false} DomainReturnsNew(t: Tracker, camera: string, domain: string, ds: seq<Detection>, ts: real)
    ensures var u := AfterDomain(t, camera, domain, ds, ts);
            && u.tracker.cfg == t.cfg && u.tracker.epochs == t.epochs && t.counter <= u.tracker.counter
            && NewOnes(u.out) == NewIds(camera, t.cfg.nonce, Epoch(t, camera), t.counter, u.tracker.counter)
  {
    hide Seat, Matched, Trimmed, Dropped, NewOnes, NewIds;
    var tracks := Held(t, (camera, domain));
    SeatReturnsNew(SettingOf(t, camera, domain, ts), ds, Matched(t.cfg.maxCost, tracks, Geometries(ds), ts),
                   Working(tracks, t.counter, t.created, t.confirmed, []), |ds|);
  }

  lemma {:induction false} DomainsReturnNew(
    t: Tracker, camera: string, ds: seq<Detection>, domains: seq<string>, ts: real, n: nat)
    requires n <= |domains|
    ensures var u := AfterDomains(t, camera, ds, domains, ts, n);
            && u.tracker.cfg == t.cfg && u.tracker.epochs == t.epochs && t.counter <= u.tracker.counter
            && NewOnes(u.out) == NewIds(camera, t.cfg.nonce, Epoch(t, camera), t.counter, u.tracker.counter)
  {
    hide AfterDomain, OfDomains, NewOnes;
    if n == 0 {
      NothingNew();
    } else {
      var before := AfterDomains(t, camera, ds, domains, ts, n - 1);
      var one := AfterDomain(before.tracker, camera, domains[n - 1], OfDomains(ds, {domains[n - 1]}), ts);
      DomainsReturnNew(t, camera, ds, domains, ts, n - 1);
      DomainReturnsNew(before.tracker, camera, domains[n - 1], OfDomains(ds, {domains[n - 1]}), ts);
      hide NewIds;
      NewOnesJoin(before.out, one.out);
      NewIdsJoin(camera, t.cfg.nonce, Epoch(t, camera), t.counter, before.tracker.counter, one.tracker.counter);
    }
  }

  lemma {:induction false} ThrowawaysReturnNew(t: Tracker, camera: string, ds: seq<Detection>, ts: real, n: nat)
    requires n <= |ds|
    ensures var u := Throwaways(t, camera, ds, ts, n);
            && u.tracker.cfg == t.cfg && u.tracker.epochs == t.epochs && u.tracker.counter == t.counter + n
            && NewOnes(u.out) == NewIds(camera, t.cfg.nonce, Epoch(t, camera), t.counter, t.counter + n)
  {
    hide IdOf, GeometryOf, NewOnes;
    if n == 0 {
      NothingNew();
    } else {
      ThrowawaysReturnNew(t, camera, ds, ts, n - 1);
      var before, u := Throwaways(t, camera, ds, ts, n - 1), Throwaways(t, camera, ds, ts, n);
      NewOnesThen(before.out, u.out[|before.out|]);
    }
  }

  /** What an update issues is on the tracks it returns as new, in order: with identity on,
      those that matched nothing, with identity off, all of them. */
  lemma {:induction false} IssuedAreReturned(t: Tracker, camera: string, ds: seq<Detection>, ts: real)
    ensures NewOnes(AfterUpdate(t, camera, ds, ts).out) == Issues(t, Update(camera, ds, ts))
    ensures !t.cfg.enabled ==> |NewOnes(AfterUpdate(t, camera, ds, ts).out)| == |ds|
  {
    hide AfterDomains, AgeKeys, Throwaways, NewOnes;
    NothingNew();
    ThrowawaysReturnNew(t, camera, ds, ts, |ds|);
    DomainsReturnNew(t, camera, ds, Domains(ds), ts, |Domains(ds)|);
    var u := AfterDomains(t, camera, ds, Domains(ds), ts, |Domains(ds)|).tracker;
    AgeKeysCount(t, camera, t.tracks.keys, ts, |t.tracks.keys|);
    AgeKeysCount(u, camera, u.tracks.keys, ts, |u.tracks.keys|);
  }

  lemma {:induction false} AfterIsNumbered(w: World, op: Op)
    requires Numbering(w)
    ensures Numbering(After(w, op))
  {
    hide AfterUpdate, AfterReset, AfterForget, IdOf;
    var issued := After(w, op).issued;
    match op
    case Update(camera, ds, ts) =>
      UpdateGrows(w.t, camera, ds, ts);
      var to := AfterUpdate(w.t, camera, ds, ts).tracker.counter;
      forall i: nat | i < |issued|
        ensures Numbered(issued[i], i + 1)
      {
        if i >= |w.issued| {
          NewIdsNumbered(camera, w.t.cfg.nonce, Epoch(w.t, camera), w.t.counter, to, i - |w.issued|);
        }
      }
    case Reset(camera) => ResetCounts(w.t, camera);
    case Forget(camera) => ResetCounts(w.t, camera);
    case Drain =>
  }

  lemma {:induction false} RunIsNumbered(cfg: Config, ops: seq<Op>)
    ensures Numbering(Run(World(Start(cfg), [], []), ops))
  {
    if ops != [] {
      hide After, AllNumbered;
      RunIsNumbered(cfg, ops[..|ops| - 1]);
      AfterIsNumbered(Run(World(Start(cfg), [], []), ops[..|ops| - 1]), ops[|ops| - 1]);
    } else {
      assert Run(World(Start(cfg), [], []), ops) == World(Start(cfg), [], []);
    }
  }

  lemma {:induction false} RunIsAccounted(cfg: Config, ops: seq<Op>)
    requires cfg.enabled
    ensures var w := Run(World(Start(cfg), [], []), ops); Accounted(w) && AllNumbered(w.issued) && w.t.cfg == cfg
  {
    RunIsNumbered(cfg, ops);
    if ops != [] {
      RunIsAccounted(cfg, ops[..|ops| - 1]);
      AfterIsAccounted(Run(World(Start(cfg), [], []), ops[..|ops| - 1]), ops[|ops| - 1]);
    }
  }

  lemma {:induction false} DistinctBag(s: seq<string>, x: string)
    requires Distinct(s)
    ensures multiset(s)[x] <= 1
  {
    if s != [] {
      var init, last := s[..|s| - 1], s[|s| - 1];
      assert s == init + [last];
      DistinctBag(init, x);
      assert x in init <==> x in multiset(init);
    }
  }

  lemma {:induction false} NumberedAreDistinct(issued: seq<string>)
    requires AllNumbered(issued)
    ensures Distinct(issued)
  {
    forall i, j | 0 <= i < j < |issued|
      ensures issued[i] != issued[j]
    {
      if issued[i] == issued[j] {
        NumbersDiffer(issued[i], issued[j], i + 1, j + 1);
      }
    }
  }

  /** No id is in two places, or twice in one. */
  lemma {:induction false} OnePlace(w: World, id: string)
    requires Accounted(w) && AllNumbered(w.issued)
    ensures Pool(w.t)[id] + multiset(w.t.expired)[id] + multiset(w.drained)[id] == (if id in w.issued then 1 else 0)
  {
    hide Pool;
    NumberedAreDistinct(w.issued);
    DistinctBag(w.issued, id);
    assert id in w.issued <==> id in multiset(w.issued);
    assert (Pool(w.t) + multiset(w.t.expired) + multiset(w.drained))[id] == multiset(w.issued)[id];
  }

  /** Over any run no id is issued twice, though forgetting a camera takes its epoch
      back to zero, and with identity switched off too. */
  lemma {:induction false} NoIdIsIssuedTwice(cfg: Config, ops: seq<Op>)
    ensures Distinct(Run(World(Start(cfg), [], []), ops).issued)
  {
    RunIsNumbered(cfg, ops);
    NumberedAreDistinct(Run(World(Start(cfg), [], []), ops).issued);
  }

  /** Over any run, each id issued is live once, waiting once or drained once, and in
      only one of the three; tracks created are tracks live plus tracks expired. */
  lemma {:induction false} IdentitiesAreConserved(cfg: Config, ops: seq<Op>, id: string)
    requires cfg.enabled
    ensures var w := Run(World(Start(cfg), [], []), ops);
            && Pool(w.t)[id] + multiset(w.t.expired)[id] + multiset(w.drained)[id] == (if id in w.issued then 1 else 0)
            && w.t.created == |Pool(w.t)| + w.t.retired
  {
    RunIsAccounted(cfg, ops);
    var w := Run(World(Start(cfg), [], []), ops);
    OnePlace(w, id);
    assert |Pool(w.t) + multiset(w.t.expired) + multiset(w.drained)| == |w.issued|;
  }
}
