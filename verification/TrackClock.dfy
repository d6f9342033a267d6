/** tracking.py: the times a camera's tracks were last seen never run ahead of the last
    frame the camera sent. */
module TrackClock {
  import opened Association
  import opened NestedBoxes
  import opened OrderedDict
  import opened Sorting
  import opened TrackLiveness
  import opened Tracking

  /** No track of a camera was last seen after the camera's last frame. */
  ghost predicate Clocked(t: Tracker, clock: map<string, real>) {
    forall camera, domain :: HeldUpTo(t, camera, domain, clock)
  }

  ghost predicate HeldUpTo(t: Tracker, camera: string, domain: string, clock: map<string, real>) {
    Held(t, (camera, domain)) != [] ==> camera in clock && NoneAfter(Held(t, (camera, domain)), clock[camera])
  }

  lemma {:induction false} LaterFrame(t: Tracker, clock: map<string, real>, camera: string, ts: real)
    requires Clocked(t, clock) && (camera in clock ==> clock[camera] < ts)
    ensures StrictlyLater(t, camera, ts)
  {
    forall domain
      ensures AllBefore(Held(t, (camera, domain)), ts)
    {
      assert HeldUpTo(t, camera, domain, clock);
    }
  }

  lemma {:induction false} OldestFirstMembers(tracks: seq<Track>, t: Track)
    requires t in OldestFirst(tracks)
    ensures t in tracks
  {
    var ks := Sort(ByLastSeen(tracks));
    SortMembers(ByLastSeen(tracks));
    var i :| 0 <= i < |ks| && OldestFirst(tracks)[i] == t;
    assert ks[i] in ByLastSeen(tracks);
  }

  lemma {:induction false} TrimUpTo(cap: int, tracks: seq<Track>, limit: real)
    requires NoneAfter(tracks, limit)
    ensures NoneAfter(Trimmed(cap, tracks), limit)
  {
    hide OldestFirst;
    var kept := Trimmed(cap, tracks);
    if |tracks| > cap {
      forall i | 0 <= i < |kept|
        ensures kept[i].lastSeen <= limit
      {
        assert OldestFirst(tracks)[Cut(|tracks|, cap) + i] == kept[i];
        OldestFirstMembers(tracks, kept[i]);
      }
    }
  }

  lemma {:induction false} PlacedUpTo(
    cfg: Config, ts: real, start: seq<Track>, m: Matching, n: nat, w: Working, limit: real)
    requires Placed(cfg, ts, start, m, n, w) && Fits(m, n, |start|) && NoneAfter(start, limit) && ts <= limit
    ensures NoneAfter(w.tracks, limit)
  {
    hide Placed, Fits;
    forall k: nat | k < |w.tracks|
      ensures w.tracks[k].lastSeen <= limit
    {
      UntouchedPlace(cfg, ts, start, m, n, w, k);
    }
  }

  lemma {:induction false} RemainUpTo(cfg: Config, tracks: seq<Track>, ts: real, n: nat, limit: real)
    requires n <= |tracks| && NoneAfter(tracks, limit)
    ensures NoneAfter(Remaining(cfg, tracks, ts, n), limit)
  {
    if n > 0 {
      RemainUpTo(cfg, tracks, ts, n - 1, limit);
    }
  }

  lemma {:induction false} DomainUpTo(
    t: Tracker, camera: string, domain: string, ds: seq<Detection>, ts: real, limit: real)
    requires NoneAfter(Held(t, (camera, domain)), limit) && ts <= limit
    ensures NoneAfter(Held(AfterDomain(t, camera, domain, ds, ts).tracker, (camera, domain)), limit)
  {
    hide AfterDomain, Seated, Trimmed, Matched, Placed, Fits;
    DomainHeld(t, camera, domain, ds, ts);
    DomainPlaces(t, camera, domain, ds, ts);
    var tracks := Held(t, (camera, domain));
    var w := Seated(t, camera, domain, ds, ts);
    PlacedUpTo(t.cfg, ts, tracks, DomainMatching(t, camera, domain, ds, ts), |ds|, w, limit);
    TrimUpTo(t.cfg.cap, w.tracks, limit);
  }

  lemma {:induction false} DomainsUpTo(
    t: Tracker, camera: string, ds: seq<Detection>, domains: seq<string>, ts: real, n: nat, d: string, limit: real)
    requires n <= |domains| && NoneAfter(Held(t, (camera, d)), limit) && ts <= limit
    ensures NoneAfter(Held(AfterDomains(t, camera, ds, domains, ts, n).tracker, (camera, d)), limit)
  {
    hide AfterDomain, Held, OfDomains, NoneAfter;
    if n > 0 {
      var before := AfterDomains(t, camera, ds, domains, ts, n - 1).tracker;
      var own := OfDomains(ds, {domains[n - 1]});
      DomainsUpTo(t, camera, ds, domains, ts, n - 1, d, limit);
      if d == domains[n - 1] {
        DomainUpTo(before, camera, d, own, ts, limit);
      } else {
        DomainElsewhere(before, camera, domains[n - 1], own, ts, (camera, d));
      }
    }
  }

  lemma {:induction false} AgeKeyUpTo(t: Tracker, k: Key, ts: real, key: Key, limit: real)
    requires NoneAfter(Held(t, key), limit)
    ensures NoneAfter(Held(AgeKey(t, k, ts), key), limit)
    ensures key != k ==> Held(AgeKey(t, k, ts), key) == Held(t, key)
  {
    if key == k {
      RemainUpTo(t.cfg, Held(t, k), ts, |Held(t, k)|, limit);
    }
  }

  lemma {:induction false} AgeKeysUpTo(
    t: Tracker, camera: string, keys: seq<Key>, ts: real, n: nat, key: Key, limit: real)
    requires n <= |keys| && NoneAfter(Held(t, key), limit)
    ensures NoneAfter(Held(AgeKeys(t, camera, keys, ts, n), key), limit)
    ensures key.0 != camera ==> Held(AgeKeys(t, camera, keys, ts, n), key) == Held(t, key)
  {
    hide Held, AgeKey, NoneAfter;
    if n > 0 {
      AgeKeysUpTo(t, camera, keys, ts, n - 1, key, limit);
      AgeKeyUpTo(AgeKeys(t, camera, keys, ts, n - 1), keys[n - 1], ts, key, limit);
    }
  }

  lemma {:induction false} AgeKeysElsewhere(t: Tracker, camera: string, keys: seq<Key>, ts: real, n: nat, key: Key)
    requires n <= |keys| && key.0 != camera
    ensures Held(AgeKeys(t, camera, keys, ts, n), key) == Held(t, key)
  {
    if n > 0 {
      AgeKeysElsewhere(t, camera, keys, ts, n - 1, key);
    }
  }

  /** The clock after a frame: it never goes back. */
  function Later(clock: map<string, real>, camera: string, ts: real): map<string, real> {
    clock[camera := if camera in clock && clock[camera] > ts then clock[camera] else ts]
  }

  lemma {:induction false} ThrowawaysHold(t: Tracker, camera: string, ds: seq<Detection>, ts: real, n: nat)
    requires n <= |ds|
    ensures Throwaways(t, camera, ds, ts, n).tracker.tracks == t.tracks
  {
    hide GeometryOf, NextId;
    if n > 0 {
      ThrowawaysHold(t, camera, ds, ts, n - 1);
    }
  }

  /** What the update leaves under one key of its own camera. */
  lemma {:induction false} UpdateUpTo(t: Tracker, camera: string, ds: seq<Detection>, ts: real, d: string, limit: real)
    requires NoneAfter(Held(t, (camera, d)), limit) && ts <= limit
    ensures NoneAfter(Held(AfterUpdate(t, camera, ds, ts).tracker, (camera, d)), limit)
  {
    hide AfterDomains, AgeKeys, Throwaways, NoneAfter;
    ThrowawaysHold(t, camera, ds, ts, |ds|);
    AgeKeysUpTo(t, camera, t.tracks.keys, ts, |t.tracks.keys|, (camera, d), limit);
    DomainsUpTo(t, camera, ds, Domains(ds), ts, |Domains(ds)|, d, limit);
    var u := AfterDomains(t, camera, ds, Domains(ds), ts, |Domains(ds)|).tracker;
    AgeKeysUpTo(u, camera, u.tracks.keys, ts, |u.tracks.keys|, (camera, d), limit);
  }

  lemma {:induction false} UpdateElsewhere(t: Tracker, camera: string, ds: seq<Detection>, ts: real, key: Key)
    requires key.0 != camera
    ensures Held(AfterUpdate(t, camera, ds, ts).tracker, key) == Held(t, key)
  {
    hide AfterDomains, AgeKeys, Throwaways;
    ThrowawaysHold(t, camera, ds, ts, |ds|);
    AgeKeysElsewhere(t, camera, t.tracks.keys, ts, |t.tracks.keys|, key);
    DomainsElsewhere(t, camera, ds, Domains(ds), ts, |Domains(ds)|, key);
    var u := AfterDomains(t, camera, ds, Domains(ds), ts, |Domains(ds)|).tracker;
    AgeKeysElsewhere(u, camera, u.tracks.keys, ts, |u.tracks.keys|, key);
  }

  lemma {:induction false} UpToLater(tracks: seq<Track>, limit: real, more: real)
    requires NoneAfter(tracks, limit) && limit <= more
    ensures NoneAfter(tracks, more)
  {
  }

  /** Whatever the frame and its time, an update leaves its own camera's tracks no later
      than the latest frame so far, and touches no other camera's. */
  lemma {:induction false} UpdateIsClocked(
    t: Tracker, clock: map<string, real>, camera: string, ds: seq<Detection>, ts: real)
    requires Clocked(t, clock)
    ensures Clocked(AfterUpdate(t, camera, ds, ts).tracker, Later(clock, camera, ts))
  {
    hide AfterUpdate, Held, NoneAfter;
    var t' := AfterUpdate(t, camera, ds, ts).tracker;
    var later := Later(clock, camera, ts);
    forall c, d
      ensures HeldUpTo(t', c, d, later)
    {
      assert HeldUpTo(t, c, d, clock);
      if c != camera {
        UpdateElsewhere(t, camera, ds, ts, (c, d));
      } else {
        var tracks := Held(t, (c, d));
        if tracks == [] {
          NothingUpTo(tracks, later[camera]);
        } else {
          UpToLater(tracks, clock[camera], later[camera]);
        }
        UpdateUpTo(t, camera, ds, ts, d, later[camera]);
      }
    }
  }

  lemma {:induction false} NothingUpTo(tracks: seq<Track>, limit: real)
    requires tracks == []
    ensures NoneAfter(tracks, limit)
  {
  }

  lemma {:induction false} ResetKeysHeld(t: Tracker, camera: string, keys: seq<Key>, n: nat, key: Key)
    requires n <= |keys|
    ensures Held(ResetKeys(t, camera, keys, n), key) == Held(t, key) || Held(ResetKeys(t, camera, keys, n), key) == []
  {
    if n > 0 {
      ResetKeysHeld(t, camera, keys, n - 1, key);
    }
  }

  lemma {:induction false} ForgetIsClocked(t: Tracker, clock: map<string, real>, camera: string)
    requires Clocked(t, clock)
    ensures Clocked(AfterForget(t, camera), clock)
  {
    hide ResetKeys;
    var r := t.(epochs := t.epochs[camera := Epoch(t, camera) + 1]);
    forall c, d
      ensures HeldUpTo(AfterForget(t, camera), c, d, clock)
    {
      ResetKeysHeld(r, camera, t.tracks.keys, |t.tracks.keys|, (c, d));
      assert HeldUpTo(t, c, d, clock);
    }
  }
}
