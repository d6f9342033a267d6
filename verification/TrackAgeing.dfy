/** tracking.py: which tracks expire, which are lost, and what a reset clears, told from the
    times and cameras alone. */
module TrackAgeing {
  import opened Association
  import opened NestedBoxes
  import opened OrderedDict
  import opened Sorting
  import opened TrackIdentity
  import opened Tracking

  /** Known and unseen at ts, the track is lost; otherwise it is as it was. */
  function Unseen(t: Track, ts: real): Track {
    if t.phase != Tentative && t.lastSeen < ts then t.(phase := Lost) else t
  }

  /** The list after ageing holds, in order, exactly the tracks at these places. */
  ghost predicate AgedAt(before: seq<Track>, after: seq<Track>, at: seq<nat>, ts: real, maxAge: real) {
    && |at| == |after| && (forall a, b :: 0 <= a < b < |at| ==> at[a] < at[b])
    && (forall a :: 0 <= a < |at| ==> at[a] < |before| && after[a] == Unseen(before[at[a]], ts))
    && (forall i: nat :: i < |before| ==> (i in at <==> ts - before[i].lastSeen <= maxAge))
  }

  lemma {:induction false} AgedAtThen(
    before: seq<Track>, after: seq<Track>, at: seq<nat>, x: Track, ts: real, maxAge: real)
    requires AgedAt(before, after, at, ts, maxAge)
    ensures ts - x.lastSeen <= maxAge ==> AgedAt(before + [x], after + [Unseen(x, ts)], at + [|before|], ts, maxAge)
    ensures ts - x.lastSeen > maxAge ==> AgedAt(before + [x], after, at, ts, maxAge)
  {
    var more := before + [x];
    hide Unseen;
    if ts - x.lastSeen <= maxAge {
      forall i: nat | i < |more|
        ensures i in at + [|before|] <==> ts - more[i].lastSeen <= maxAge
      {
        assert i < |before| ==> more[i] == before[i];
      }
    } else {
      forall i: nat | i < |more|
        ensures i in at <==> ts - more[i].lastSeen <= maxAge
      {
        assert i < |before| ==> more[i] == before[i];
      }
    }
  }

  lemma {:induction false} RemainingAt(cfg: Config, tracks: seq<Track>, ts: real, n: nat) returns (at: seq<nat>)
    requires n <= |tracks|
    ensures AgedAt(tracks[..n], Remaining(cfg, tracks, ts, n), at, ts, cfg.maxAge)
  {
    if n == 0 {
      at := [];
    } else {
      at := RemainingAt(cfg, tracks, ts, n - 1);
      var x := tracks[n - 1];
      assert MarkedLost(x, ts) == Unseen(x, ts);
      assert TooOld(cfg, x, ts) <==> ts - x.lastSeen > cfg.maxAge;
      hide AgedAt, MarkedLost, Unseen, TooOld;
      assert tracks[..n] == tracks[..n - 1] + [x];
      AgedAtThen(tracks[..n - 1], Remaining(cfg, tracks, ts, n - 1), at, x, ts, cfg.maxAge);
      assert Remaining(cfg, tracks, ts, n - 1) + [] == Remaining(cfg, tracks, ts, n - 1);
      if ts - x.lastSeen <= cfg.maxAge {
        at := at + [n - 1];
      }
    }
  }

  /** Some track of the list has this id and is past the limit. */
  ghost predicate Expires(tracks: seq<Track>, ts: real, maxAge: real, id: string) {
    exists i :: 0 <= i < |tracks| && tracks[i].id == id && ts - tracks[i].lastSeen > maxAge
  }

  lemma {:induction false} ExpiresThen(tracks: seq<Track>, x: Track, ts: real, maxAge: real, id: string)
    ensures Expires(tracks + [x], ts, maxAge, id)
            <==> Expires(tracks, ts, maxAge, id) || (x.id == id && ts - x.lastSeen > maxAge)
  {
    var more := tracks + [x];
    assert more[|tracks|] == x;
    if i :| 0 <= i < |tracks| && tracks[i].id == id && ts - tracks[i].lastSeen > maxAge {
      assert more[i] == tracks[i];
    }
  }

  lemma {:induction false} AgedAre(cfg: Config, tracks: seq<Track>, ts: real, n: nat, id: string)
    requires n <= |tracks|
    ensures id in Aged(cfg, tracks, ts, n) <==> Expires(tracks[..n], ts, cfg.maxAge, id)
  {
    if n > 0 {
      AgedAre(cfg, tracks, ts, n - 1, id);
      ExpiresThen(tracks[..n - 1], tracks[n - 1], ts, cfg.maxAge, id);
      assert tracks[..n] == tracks[..n - 1] + [tracks[n - 1]];
      hide Expires;
    }
  }

  /** The ids retired from the lists of the camera among the first n keys. */
  function GoneFrom(t: Tracker, camera: string, keys: seq<Key>, ts: real, n: nat): seq<string>
    requires n <= |keys|
  {
    if n == 0 then []
    else
      var tracks := Held(t, keys[n - 1]);
      GoneFrom(t, camera, keys, ts, n - 1) + (if keys[n - 1].0 == camera then Aged(t.cfg, tracks, ts, |tracks|) else [])
  }

  lemma {:induction false} AgeKeyHeld(t: Tracker, k: Key, ts: real, key: Key)
    ensures var t' := AgeKey(t, k, ts);
            && t'.cfg == t.cfg && t'.expired == t.expired + Aged(t.cfg, Held(t, k), ts, |Held(t, k)|)
            && t'.retired == t.retired + |Aged(t.cfg, Held(t, k), ts, |Held(t, k)|)|
            && Held(t', key) == if key == k then Remaining(t.cfg, Held(t, k), ts, |Held(t, k)|) else Held(t, key)
  {
    hide Remaining, Aged;
  }

  lemma {:induction false} AgeKeysAre(t: Tracker, camera: string, keys: seq<Key>, ts: real, n: nat, key: Key)
    requires n <= |keys| && Distinct(keys)
    ensures var t' := AgeKeys(t, camera, keys, ts, n);
            && t'.cfg == t.cfg && t'.expired == t.expired + GoneFrom(t, camera, keys, ts, n)
            && t'.retired == t.retired + |GoneFrom(t, camera, keys, ts, n)|
            && Held(t', key)
               == if key.0 == camera && key in keys[..n] then Remaining(t.cfg, Held(t, key), ts, |Held(t, key)|)
                  else Held(t, key)
  {
    hide Held, AgeKey, Remaining, Aged;
    if n > 0 {
      var k := keys[n - 1];
      var before := AgeKeys(t, camera, keys, ts, n - 1);
      AgeKeysAre(t, camera, keys, ts, n - 1, key);
      AgeKeysAre(t, camera, keys, ts, n - 1, k);
      AgeKeyHeld(before, k, ts, key);
      assert keys[..n] == keys[..n - 1] + [k];
      assert k !in keys[..n - 1];
    }
  }

  lemma {:induction false} GoneAre(t: Tracker, camera: string, keys: seq<Key>, ts: real, n: nat, id: string)
    requires n <= |keys|
    ensures id in GoneFrom(t, camera, keys, ts, n)
            <==> exists k: nat :: k < n && keys[k].0 == camera && Expires(Held(t, keys[k]), ts, t.cfg.maxAge, id)
  {
    hide Held, Aged, Expires;
    if n > 0 {
      GoneAre(t, camera, keys, ts, n - 1, id);
      var tracks := Held(t, keys[n - 1]);
      AgedAre(t.cfg, tracks, ts, |tracks|, id);
      assert tracks[..|tracks|] == tracks;
    }
  }

  /** After ageing, each list of the camera holds, in order, exactly its tracks unseen for no
      more than the limit, those known and unseen now lost; other cameras' lists are untouched. */
  lemma {:induction false} AgeingKeepsExactly(t: Tracker, camera: string, ts: real, key: Key) returns (at: seq<nat>)
    requires t.tracks.Ok()
    ensures var t' := AfterAgeOut(t, camera, ts);
            if key.0 == camera then AgedAt(Held(t, key), Held(t', key), at, ts, t.cfg.maxAge)
            else Held(t', key) == Held(t, key)
  {
    var keys, tracks := t.tracks.keys, Held(t, key);
    AgeKeysAre(t, camera, keys, ts, |keys|, key);
    assert keys[..|keys|] == keys;
    at := RemainingAt(t.cfg, tracks, ts, |tracks|);
    assert tracks[..|tracks|] == tracks;
    if key !in keys {
      assert tracks == [];
    }
  }

  /** The ids it retires are exactly those of the camera's tracks unseen for longer. */
  lemma {:induction false} AgeingRetiresExactly(
    t: Tracker, camera: string, ts: real, id: string) returns (gone: seq<string>)
    requires t.tracks.Ok()
    ensures var t' := AfterAgeOut(t, camera, ts);
            && t'.expired == t.expired + gone && t'.retired == t.retired + |gone|
            && (id in gone
                <==> exists domain: string :: Expires(Held(t, (camera, domain)), ts, t.cfg.maxAge, id))
  {
    var keys := t.tracks.keys;
    AgeKeysAre(t, camera, keys, ts, |keys|, ("", ""));
    GoneAre(t, camera, keys, ts, |keys|, id);
    gone := GoneFrom(t, camera, keys, ts, |keys|);
    if k: nat :| k < |keys| && keys[k].0 == camera && Expires(Held(t, keys[k]), ts, t.cfg.maxAge, id) {
      assert keys[k] == (camera, keys[k].1);
    }
    if domain: string :| Expires(Held(t, (camera, domain)), ts, t.cfg.maxAge, id) {
      assert (camera, domain) in keys;
      var k: nat :| k < |keys| && keys[k] == (camera, domain);
    }
  }

  /** After any update with identity on, and after an empty frame with it off, every track the
      camera has left was seen within the limit, and those known and not seen now are lost. */
  lemma {:induction false} UpdateAges(t: Tracker, camera: string, ds: seq<Detection>, ts: real, domain: string)
    requires t.tracks.Ok() && (t.cfg.enabled || ds == [])
    ensures var tracks := Held(AfterUpdate(t, camera, ds, ts).tracker, (camera, domain));
            forall i :: 0 <= i < |tracks| ==>
              && ts - tracks[i].lastSeen <= t.cfg.maxAge
              && (tracks[i].phase != Tentative && tracks[i].lastSeen < ts ==> tracks[i].phase == Lost)
  {
    hide AfterDomains, AgeKeys;
    var u := if ds == [] then t else AfterDomains(t, camera, ds, Domains(ds), ts, |Domains(ds)|).tracker;
    DomainsConserve(t, camera, ds, Domains(ds), ts, |Domains(ds)|);
    var at := AgeingKeepsExactly(u, camera, ts, (camera, domain));
    AgedAreYoung(Held(u, (camera, domain)), Held(AfterAgeOut(u, camera, ts), (camera, domain)), at, ts, u.cfg.maxAge);
  }

  lemma {:induction false} AgedAreYoung(
    before: seq<Track>, after: seq<Track>, at: seq<nat>, ts: real, maxAge: real)
    requires AgedAt(before, after, at, ts, maxAge)
    ensures forall i :: 0 <= i < |after| ==>
              && ts - after[i].lastSeen <= maxAge
              && (after[i].phase != Tentative && after[i].lastSeen < ts ==> after[i].phase == Lost)
  {
    forall i | 0 <= i < |after|
      ensures ts - after[i].lastSeen <= maxAge
      ensures after[i].phase != Tentative && after[i].lastSeen < ts ==> after[i].phase == Lost
    {
      assert after[i] == Unseen(before[at[i]], ts) && at[i] in at;
    }
  }

  // ---- what trimming retires -------------------------------------------------------------------------

  lemma {:induction false} OldestComeFirst(tracks: seq<Track>, i: nat, j: nat)
    requires i <= j < |tracks|
    ensures OldestFirst(tracks)[i].lastSeen <= OldestFirst(tracks)[j].lastSeen
  {
    var ks := ByLastSeen(tracks);
    var s := Sort(ks);
    SortMembers(ks);
    assert s[i] in ks && s[j] in ks;
    hide Sort;
    var a :| 0 <= a < |ks| && ks[a] == s[i];
    var b :| 0 <= b < |ks| && ks[b] == s[j];
  }

  /** A list over its cap is cut to it, and none of what goes was seen later than any that
      stays. A cap of zero retires nothing, and one below zero that many. */
  lemma {:induction false} TrimRetiresOldest(cap: int, tracks: seq<Track>)
    requires |tracks| > cap
    ensures var gone, kept := Dropped(cap, tracks), Trimmed(cap, tracks);
            && |gone| + |kept| == |tracks|
            && (cap > 0 ==> |kept| == cap)
            && (cap <= 0 ==> |gone| == if -cap <= |tracks| then -cap else |tracks|)
            && forall i, j :: 0 <= i < |gone| && 0 <= j < |kept| ==> gone[i].lastSeen <= kept[j].lastSeen
  {
    hide OldestFirst;
    var gone, kept, c := Dropped(cap, tracks), Trimmed(cap, tracks), Cut(|tracks|, cap);
    forall i, j | 0 <= i < |gone| && 0 <= j < |kept|
      ensures gone[i].lastSeen <= kept[j].lastSeen
    {
      assert gone[i] == OldestFirst(tracks)[i] && kept[j] == OldestFirst(tracks)[c + j];
      OldestComeFirst(tracks, i, c + j);
    }
  }

  /** A list within its cap stays as it is. */
  lemma {:induction false} TrimSparesFew(cap: int, tracks: seq<Track>)
    requires |tracks| <= cap
    ensures Dropped(cap, tracks) == [] && Trimmed(cap, tracks) == tracks
  {
  }

  // ---- what a reset clears -------------------------------------------------------------------------------

  lemma {:induction false} ResetKeysAre(t: Tracker, camera: string, keys: seq<Key>, n: nat, key: Key)
    requires n <= |keys|
    ensures var t' := ResetKeys(t, camera, keys, n);
            && t'.epochs == t.epochs && t'.cfg == t.cfg
            && Held(t', key) == if key.0 == camera && key in keys[..n] then [] else Held(t, key)
  {
    if n > 0 {
      ResetKeysAre(t, camera, keys, n - 1, key);
      assert keys[..n] == keys[..n - 1] + [keys[n - 1]];
    }
  }

  /** A reset leaves the camera no track and the next epoch, a forget its first; other cameras
      keep their tracks and epochs. */
  lemma {:induction false} ResetClears(t: Tracker, camera: string, key: Key)
    requires t.tracks.Ok()
    ensures Held(AfterReset(t, camera), key) == if key.0 == camera then [] else Held(t, key)
    ensures Held(AfterForget(t, camera), key) == if key.0 == camera then [] else Held(t, key)
    ensures Epoch(AfterReset(t, camera), key.0) == Epoch(t, key.0) + (if key.0 == camera then 1 else 0)
    ensures Epoch(AfterForget(t, camera), key.0) == if key.0 == camera then 0 else Epoch(t, key.0)
  {
    var keys := t.tracks.keys;
    ResetKeysAre(t.(epochs := t.epochs[camera := Epoch(t, camera) + 1]), camera, keys, |keys|, key);
    assert keys[..|keys|] == keys;
    if key !in keys {
      assert Held(t, key) == [];
    }
  }
}
