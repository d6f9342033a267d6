# Verified models of the frame broker and the analytics service

This project models the stateful core of the video system's frame broker and analytics
service, and two small parsers beside them, and proves what their design relies on.

* **Frame ring** (`Seqlock`, `RingTruncation`, `RingBytes`, `RingRestarts`): frames cross from the
  broker to its readers through shared memory under a sequence lock. `Seqlock` is the protocol as
  interleaved steps, one word or one byte each, of one writer and any number of readers.
  `RingTruncation` truncates the file under them. `RingBytes` is the writer and the reader over the
  bytes of the mapped block. `RingRestarts` adds a broker that restarts onto fresh files under a
  subscriber that caches its mapping by epoch.
* **Subscriber** (`Subscriber`, `SubscriberCallbacks`): each notice feeds two consumers, Smart
  Search behind the motion verdict and the activity path without it.
* **Tracker** (`Association`, `Tracking`, `TrackSightings`, `TrackAgeing`, `TrackIdentity`,
  `TrackLiveness`, `TrackClock`): greedy association, ageing, trimming, and what becomes of the
  identities handed out.
* **Policy, best frames and their composition** (`Policy`, `PolicyRules`, `BestFrames`, `Pipeline`,
  `PipelineOutput`, `PipelineRuns`): which observations are recorded, which looks are kept under a
  byte ceiling, what leaves for the sink, and what holds of all the per-track state together over
  whole runs.
* **Model lifecycle** (`Engine`, `EngineDemand`, `EngineRuns`): a lock-protected state machine with
  a loader that works off the lock, a reaper and a stop.
* **Drop-oldest queue** (`DropQueue`): put, evict, put again, against a racing consumer and other
  producers.
* **Geometry** (`MergeBoxes`, `NestedBoxes`): bounded-pass union and largest-first suppression.
* **Parsers** (`Jpeg`, `Timecode`): the JPEG segment walk and the nearest-glyph decoder.
* `Sorting`, `OrderedDict`, `Decimal` and `Reals` are Python's stable sort, insertion-ordered
  dictionary and decimal text, and facts about products of reals.

An object that updates its fields is a class; each method's contract ties its new state to a
specification function of the old one, and the lemmas are about those functions. Concurrent code
is a state machine over its atomic steps. A step that cannot be taken does nothing, so a run is any
sequence of steps. What each rule and each counter means is said a second time, from boxes, times,
fields and callbacks alone, in `TrackSightings`, `TrackAgeing`, `PolicyRules`, `PipelineOutput`,
`EngineDemand` and `SubscriberCallbacks`.

## Assumptions

* Memory is sequentially consistent and an 8-byte sequence word is read and written in one step.
* `slots * 16 <= 4096`, so control entries and frame slots are disjoint; reader and writer of a ring
  agree on the slot count.
* In `RingRestarts` each ring incarnation is a fresh file, its predecessor's having been unlinked. A
  file left behind at the path is the case of `RingTruncation`.
* Every section the engine runs under its lock is one step. A counter increment is one step.
* Arithmetic is over the reals; distances are compared by their squares and ratios cross-multiplied.

## Where the code falls short of what one might expect

Each of these is a lemma with a concrete input, beside one that says when the code does meet the
property.

* A notice that outlives its ring can map the next incarnation at the old frame size; both checks
  pass and two neighbouring frames are delivered as one (`RingRestarts.StaleNoticeIsStitched`). At
  the same size it is delivered another frame whole (`RingRestarts.StaleNoticeIsMistaken`). The
  frame is the notice's own exactly when the mapping was made while the notice's incarnation was
  live, or the bytes coincide (`RingRestarts.OwnFrameExactly`); a notice handled while its
  incarnation is live is delivered unless its slot is reused (`RingRestarts.LiveNoticeIsDelivered`).
* A broker that died leaves its file behind, and the next one truncates it in place (`ring.py`,
  line 85) under whoever has it mapped. The sequence numbers start again on the same pages, so a
  copy under way can pass both checks and be torn (`RingTruncation.TruncationInPlaceTears`). No read
  can be torn exactly when no copy in hand spans the truncation or frames are at most one byte
  (`RingTruncation.TornExactly`), and none can be another number's exactly when no copy in hand
  spans it or frames are empty (`RingTruncation.MistakenExactly`).
* Registering a camera for every frame can show in what Smart Search gets, because the ring is
  then mapped earlier (`Subscriber.EarlyMappingShows`). `Subscriber.HeardAlikeExactly` says for any
  operations when it does not, and `Subscriber.SearchIsUndisturbed` that it does not while each
  notice finds its own ring at the path.
* A frame with more detections of a domain than `max_tracks_per_key` returns a track that has just
  been retired, and so can a frame at a time already seen (`TrackLiveness.TiedTimeRetiresReturned`);
  when such a track is judged, state is made anew for it. When it happens is decided by the tracks
  held and the matching (`TrackLiveness.ReturnedLiveExactly`,
  `PipelineRuns.NoStateOutlivesItsTrack`).
* A face reader whose load lands after its demand has gone is released by the engine and then handed
  to the pipeline all the same (`EngineRuns.FaceReaderIsLeftBehind`, `EngineRuns.FacesAgreeExactly`).
* With two producers a drop-oldest queue of any capacity can drop the newer item
  (`DropQueue.TwoProducersCanDrop`, `DropQueue.NeverDropsExactly`).
* `merge_boxes` with any number of passes can leave two boxes more than that, five for three, still
  touching (`MergeBoxes.OneMoreBoxCanStillTouch`, `MergeBoxes.MergeSeparatesExactly`).
* A JPEG fill byte before the frame header hides the size (`Jpeg.FillByteHidesFrame`).

## Model

| member | source | states |
|---|---|---|
| Seqlock.NoTornRead | services/frames/broker/ring.py:112-202 | Under every interleaving of byte-level writer steps with any number of readers, a read that returns a frame returns exactly the whole frame published with the number asked for |
| Seqlock.NextKeepsInv | services/frames/broker/ring.py:112-137 | Every step of the writer or of a reader keeps: words name publications of their own slot, an even word vouches for its whole cell, unfinished copies match while the word stands |
| Seqlock.BeginReadExactly | services/frames/broker/ring.py:190-194 | The first check passes exactly when the frame was completed and its slot has not begun to be reused |
| Seqlock.EndReadExactly | services/frames/broker/ring.py:195-202 | A finished copy is delivered exactly when the slot has still not been reused, and then it is the frame published |
| Seqlock.SlotHolds | services/frames/broker/ring.py:122-135 | A slot's word is even at k exactly when publication k is complete and k + slots has not begun |
| Seqlock.SlotOfIsModulo | services/frames/broker/ring.py:124 | The slot function of the protocol is the remainder by the slot count |
| RingTruncation.TornExactly | services/frames/broker/ring.py:85-90 | A file left behind by a broker that died is truncated where it stands. Over all lives before and since, no read is given a mix of frames exactly when no copy in hand spans the truncation or a frame is at most one byte |
| RingTruncation.MistakenExactly | services/frames/broker/ring.py:85-90 | Over the same lives, no read is given another frame than one of its number exactly when no copy in hand spans the truncation or a frame has no bytes |
| RingTruncation.ReadSinceIsRight | services/frames/broker/ring.py:85-137 | A read not in hand when the file was truncated returns whole the frame published under its number |
| RingTruncation.TruncationInPlaceTears | services/frames/broker/ring.py:85-90 | In a ring of any shape, for any two frames and any m <= k, a copy that spans the truncation passes both checks and is the one frame up to byte m, zeros up to k, the other from there |
| RingBytes.FrameRing.constructor | services/frames/broker/ring.py:76-106 | A new ring has at least two slots and is all zero words and zero frames, as the protocol starts |
| RingBytes.FrameRing.Publish | services/frames/broker/ring.py:112-137 | Publishing changes one slot's word, frame and stamp; a wrong shape changes nothing; a wrong length costs a number and leaves the slot odd |
| RingBytes.PublishIsItsSteps | services/frames/broker/ring.py:122-137 | The protocol's writer steps, run alone, leave exactly the words and frames that publishing leaves |
| RingBytes.FrameReader.Read | services/analytics/analytics/frame_source.py:101-118 | A read returns the slot's frame exactly when its word is the even one of the number asked for, and counts every refusal |
| RingBytes.FrameReader.Check | services/frames/broker/ring.py:190-194 | The stored number's arithmetic is the test of the word, against any state of the block |
| RingBytes.FrameReader.Recheck | services/frames/broker/ring.py:198-202 | Whatever the writer did meanwhile, the copy survives only if the stored number is the same |
| RingBytes.FromLeInvertsLe | services/frames/broker/ring.py:127-135 | Unpacking a little-endian word inverts packing it |
| RingBytes.BlockLayout | services/frames/broker/ring.py:122-137 | Slot s has its little-endian word at byte 16 s, twice the number while stable and one less while written, its stamp at 16 s + 8 and its frame at 4096 + s times the frame size |
| RingBytes.WriteFrame | services/frames/broker/ring.py:128-133 | Writing a frame's bytes changes that cell and no other cell and no word |
| RingBytes.WriteWord | services/frames/broker/ring.py:127 | Writing a word changes that word and no other word and no cell |
| RingRestarts.EveryDelivery | services/analytics/analytics/frame_source.py:305-319 | Over any run with restarts, each delivered frame comes from one incarnation no older than its notice, live when the mapping was made, and is the whole frame that incarnation published with the notice's number exactly when its frame size is the notice's |
| RingRestarts.OwnFrameExactly | services/analytics/analytics/frame_source.py:357-381 | The delivered frame is the notice's own exactly when the mapping was made while the notice's incarnation was live, or the one mapped published the same bytes under the same number |
| RingRestarts.LiveNoticeIsDelivered | services/analytics/analytics/frame_source.py:305-319 | A notice of the live incarnation, whatever happens until its copy is complete, is delivered its own frame exactly when its slot has not been reused by then |
| RingRestarts.LiveNoticeOpensItsOwnRing | services/analytics/analytics/frame_source.py:357-381 | A notice of the live incarnation is read from that incarnation, whatever was mapped before |
| RingRestarts.HandlingPersists | services/analytics/analytics/frame_source.py:315-319 | Nothing but its own end takes a notice in hand away |
| RingRestarts.OwnRingDeliversExactly | services/analytics/analytics/frame_source.py:315-319 | A notice read from its own ring delivers its own frame exactly when its slot has not been reused by then |
| RingRestarts.MovedKeepsSound | services/analytics/analytics/frame_source.py:305-381 | Every ring step, restart, unlink, mapping, copy and delivery keeps the invariant of rings, mapping, reader and deliveries |
| RingRestarts.StaleNoticeIsStitched | services/analytics/analytics/frame_source.py:362-370 | A run from the start in which a stale notice maps a ring of another frame size and is delivered two frames as one |
| RingRestarts.StaleNoticeIsMistaken | services/analytics/analytics/frame_source.py:362-370 | A run from the start in which a stale notice maps a ring of its own size and is delivered another frame under its number |
| Subscriber.SearchIsUndisturbed | services/analytics/analytics/frame_source.py:256-334 | While every notice finds its own ring at the path, the frames and scene changes given to Smart Search are the same whether or not cameras are registered for every frame |
| Subscriber.HeardAlikeExactly | services/analytics/analytics/frame_source.py:256-381 | Over any operations, Smart Search hears each of them alike with and without the activity path exactly when, for every notice it is due, the first arrival to open the current stretch of its ring in the one run and in the other found files that give the same frame |
| Subscriber.StreamsAreHeard | services/analytics/analytics/frame_source.py:256-334 | Heard operation by operation, a run is the stream Smart Search is given, and alone the stream of the run without the activity path's operations |
| Subscriber.HoldsAt | services/analytics/analytics/frame_source.py:171-202 | The mapping held after any operations is of the file found by the first arrival read since the camera was last given up with all later ones of its shape, told from the operations alone |
| Subscriber.ActivityGetsEveryFrame | services/analytics/analytics/frame_source.py:321-327 | The activity path is given every readable frame of the cameras it registered, whatever the verdict |
| SubscriberCallbacks.EveryCallback | services/analytics/analytics/frame_source.py:256-355 | All the callbacks of one notice in order, from its fields, who registered and the frame read: scene change, activity frame, then the frame for Smart Search unless the regions are null, or the gated note |
| SubscriberCallbacks.SearchGetsItsFrames | services/analytics/analytics/frame_source.py:295-355 | Exactly one frame is handed to Smart Search for a wanted camera whose frame can be read and whose regions are absent or any list, and none otherwise |
| SubscriberCallbacks.ArrivalCounts | services/analytics/analytics/frame_source.py:256-334 | What each notice adds to every counter, from its fields and the callbacks made |
| SubscriberCallbacks.CountersCountCallbacks | services/analytics/analytics/frame_source.py:166-176 | Over any run the delivered, activity and gated counters are the numbers of those callbacks |
| Subscriber.EarlyMappingShows | services/analytics/analytics/frame_source.py:299-317 | A ring mapped early for the activity path can save a frame for Smart Search that it would have lost alone |
| Subscriber.BrokerSubscriber.Handle | services/analytics/analytics/frame_source.py:256-334 | One notice: who is told what, in order, which reader is held and what is counted |
| Subscriber.BrokerSubscriber.Open | services/analytics/analytics/frame_source.py:357-381 | The held reader when its shape and epoch are the notice's, otherwise a new mapping, or none |
| Association.MatchingIsOneToOne | services/analytics/analytics/tracking.py:245-269 | No track and no detection is matched twice, and every matched pair is within the maximum cost |
| Association.MatchingIsStable | services/analytics/analytics/tracking.py:253-269 | Every admissible unmatched pair has its detection or its track matched at a cost no greater, and at the same cost to an earlier track or detection |
| Association.RankedAre | services/analytics/analytics/tracking.py:245-253 | The ranked candidates are exactly the admissible pairs with their costs |
| Tracking.ObjectTracker.Associate | services/analytics/analytics/tracking.py:245-269 | The candidate loops, the sort and the greedy loop compute the matching |
| Tracking.ObjectTracker.UpdateDomain | services/analytics/analytics/tracking.py:239-305 | One domain of one frame: the new tracks, what is returned, what is trimmed and retired, every counter |
| Tracking.ObjectTracker.Update | services/analytics/analytics/tracking.py:205-237 | A frame's update, domain by domain in order of appearance, then ageing; with identity off, throwaway tracks |
| Tracking.ObjectTracker.AgeOut | services/analytics/analytics/tracking.py:349-369 | The camera's unseen tracks are marked lost and those past the age limit retired |
| TrackAgeing.AgeingKeepsExactly | services/analytics/analytics/tracking.py:349-369 | After ageing each list of the camera holds, in order, exactly its tracks unseen for no more than max_age, those known and unseen now lost, and no other list changes |
| TrackAgeing.AgeingRetiresExactly | services/analytics/analytics/tracking.py:349-369 | The ids retired are exactly those of the camera's tracks unseen for longer |
| TrackAgeing.UpdateAges | services/analytics/analytics/tracking.py:205-237 | After any update with identity on every track the camera has left was seen within max_age, and those known and not seen now are lost |
| TrackAgeing.TrimRetiresOldest | services/analytics/analytics/tracking.py:296-304 | A list over its cap is cut to it, and nothing that goes was seen later than anything that stays |
| TrackAgeing.ResetClears | services/analytics/analytics/tracking.py:372-388 | A reset leaves the camera no track and its next epoch, a forget its first; other cameras keep both |
| Tracking.ObjectTracker.Reset | services/analytics/analytics/tracking.py:372-383 | A new epoch, and every track of the camera retired |
| Tracking.ExpectedKeepsVelocity | services/analytics/analytics/tracking.py:307-322 | A detection exactly where the track was expected leaves the velocity unchanged for every smoothing factor |
| TrackSightings.CostIsByHeights | services/analytics/analytics/tracking.py:121-145 | Displaced by kx and ky heights at one size a pair costs the squares of the two, resized by rx and ry in one place the squares of the excesses, and the same geometry costs nothing |
| TrackSightings.MatchedAreClose | services/analytics/analytics/tracking.py:245-269 | Every match is of a prediction and a box within so many mean heights in both directions and so much larger or smaller |
| TrackSightings.NearIsMatched | services/analytics/analytics/tracking.py:245-269 | A detection of the expected size off by kx and ky heights, or in the place and so many times the size, does not leave it and the track both unmatched when the squares are within the maximum cost's |
| TrackSightings.PredictedMoves | services/analytics/analytics/tracking.py:245-252 | A track is expected to move on at its velocity, and not back |
| TrackSightings.UpdateReturns | services/analytics/analytics/tracking.py:205-305 | Each detection of a frame is returned exactly as often as given, on a track of its own box sighted now; the counters say how many were associated, how many made tracks and how many were confirmed |
| TrackSightings.DomainsAppear | services/analytics/analytics/tracking.py:205-237 | The domains of a frame are served in order of first appearance |
| TrackSightings.VelocityIsCorrected | services/analytics/analytics/tracking.py:307-322 | A later sighting corrects the velocity by the smoothing factor times the error of the prediction, per second |
| TrackSightings.StillnessByHeights | services/analytics/analytics/tracking.py:335-347 | Off by the stationary distance in heights in either direction a known track is active; by less than half of it in both it is not moved, and stationary once still long enough |
| TrackSightings.ConfirmedIsStillHere | services/analytics/analytics/tracking.py:324-333 | A tentative track is confirmed exactly once the time to is over, and is still from there on |
| Tracking.DriftAddsUp | services/analytics/analytics/tracking.py:335-347 | Over any run of sightings, stillness is measured from the last place that counted as a move: steps however small add up, and the first sighting far from that place makes the track active |
| TrackIdentity.IdentitiesAreConserved | services/analytics/analytics/tracking.py:239-393 | Over any run each id issued is live once, waiting once or drained once, in only one of the three; created equals live plus expired |
| TrackIdentity.NoIdIsIssuedTwice | services/analytics/analytics/tracking.py:192-202 | Over any run, identity on or off, no id is issued twice, though forgetting a camera takes its epoch back to zero |
| TrackIdentity.IssuedAreReturned | services/analytics/analytics/tracking.py:205-292 | The ids an update issues are, in order, those of the tracks it returns as new; with identity off, of all it returns |
| TrackIdentity.UpdateConserves | services/analytics/analytics/tracking.py:205-305 | An update accounts for every id: live before or just issued, it is live or retired after |
| TrackIdentity.ResetConserves | services/analytics/analytics/tracking.py:372-388 | A reset or a forget moves every id of the camera to the retired ones |
| TrackIdentity.TrimIds | services/analytics/analytics/tracking.py:296-304 | Trimming splits a list into what is kept and what is retired, losing nothing |
| TrackIdentity.OnePlace | services/analytics/analytics/tracking.py:349-393 | No id is in two places, or twice in one |
| TrackLiveness.ReturnedLiveExactly | services/analytics/analytics/tracking.py:239-305 | After any run and at any time, all the tracks a frame returns are live, or all the known ones, exactly when in each of its domains the list left fits the cap, or what is cut stands ahead of them by last sighting, told from the tracks held and the matching |
| TrackLiveness.JudgedSeat | services/analytics/analytics/tracking.py:324-333 | Which of the tracks returned are known is decided by the tracks held before, the matching and the time |
| TrackLiveness.ReturnedLiveExactlyWithinCap | services/analytics/analytics/tracking.py:239-305 | After any run, a frame later than every sighting returns only live tracks exactly when no domain of it exceeds the cap |
| TrackLiveness.LaterFrameIsRoomy | services/analytics/analytics/tracking.py:296-304 | Later than every sighting, there is room for all that is returned exactly when no domain exceeds the cap, and then for the known ones too |
| TrackLiveness.ReturnedTracksAreLive | services/analytics/analytics/tracking.py:205-237 | With room in every domain, at any time, each track asked about is one of the tracker's own |
| TrackLiveness.OneReturnedIsRetired | services/analytics/analytics/tracking.py:296-304 | Without room in some domain, some track asked about has already been retired by the same update |
| TrackLiveness.LeadOfSort | services/analytics/analytics/tracking.py:300 | Where the first track asked about stands once a stable sort has ordered the list by last sighting |
| TrackLiveness.TiedTimeRetiresReturned | services/analytics/analytics/tracking.py:300-304 | From a new tracker, two frames at one time, each within the cap: the second returns a track it retires |
| TrackClock.UpdateIsClocked | services/analytics/analytics/tracking.py:205-237 | Any update, whatever its time, leaves its camera's tracks last seen no later than the latest frame so far and touches no other camera's |
| Policy.RecordsAreApart | services/analytics/analytics/indexing_policy.py:140-142 | In a disciplined history any two records of one track are at least the interval apart |
| Policy.ScaleChangePersisted | services/analytics/analytics/indexing_policy.py:119-147 | A scale-change record closes a run of at least persist qualifying observations since the last record |
| Policy.FirstSightExactly | services/analytics/analytics/indexing_policy.py:95-100 | An observation is recorded as first sight exactly when it is the first of its track |
| Policy.ObserveRemembers | services/analytics/analytics/indexing_policy.py:90-176 | The anchor is the track's last record and the pending count its trail of unrecorded qualifying observations |
| Policy.ObserveIsDisciplined | services/analytics/analytics/indexing_policy.py:90-161 | An observation is recorded exactly when the track's own history has no record or makes one due, and for exactly the reason whose rule is the first to hold |
| PolicyRules.AlwaysRecorded | services/analytics/analytics/indexing_policy.py:90-100 | With suppression off every observation is recorded for that reason; with it on, first sight is exactly of a track with no record |
| PolicyRules.DisplacementByHeights | services/analytics/analytics/indexing_policy.py:102-145 | After the interval, a bottom centre off by the setting times the mean height in either direction is always recorded as displaced; off by less than half in both, or in place, never |
| PolicyRules.ScaleByHeights | services/analytics/analytics/indexing_policy.py:113-147 | The scale count goes up exactly when one height is at least the ratio times the other and is forgotten otherwise, and only a full count is recorded for scale |
| PolicyRules.HeartbeatAndQuality | services/analytics/analytics/indexing_policy.py:149-161 | A passed heartbeat or a clearer look is recorded; quality only for more confidence and no fewer pixels |
| PolicyRules.CountersTally | services/analytics/analytics/indexing_policy.py:163-180 | Over any run the counters say how many were left out, how many recorded, and how many for each reason |
| PolicyRules.SettingsAreBounded | services/analytics/analytics/indexing_policy.py:60-88 | The settings are kept as given but for their bounds |
| Policy.ForgetDropsExactly | services/analytics/analytics/indexing_policy.py:182-191 | Forgetting drops the named tracks' anchors and counts and nothing else |
| Policy.IndexingPolicy.Decide | services/analytics/analytics/indexing_policy.py:90-161 | The reason found and the scale count left, the count moving before any rule returns |
| Policy.IndexingPolicy.Forget | services/analytics/analytics/indexing_policy.py:182-191 | The named tracks are forgotten one by one |
| BestFrames.EveryRunIsSound | services/analytics/analytics/best_frames.py:107-162 | After any run the byte count is the true sum, shortlists are non-empty, best first and bounded, and the ceiling holds unless the buffer is empty |
| BestFrames.EnforceGivesUpWeakest | services/analytics/analytics/best_frames.py:140-162 | Enforcement gives up some number of the weakest looks, every survivor scoring at least as high as every one given up; with any fewer gone the buffer was still over the ceiling; the eviction count grows by as many and nothing else changes |
| BestFrames.ShortlistIsSortAndTake | services/analytics/analytics/best_frames.py:107-125 | While the budget never binds, a shortlist holds the largest scores offered since the track was last forgotten |
| BestFrames.OfferTouchesOne | services/analytics/analytics/best_frames.py:107-125 | An offer can add no track but its own |
| BestFrames.AcceptedExactly | services/analytics/analytics/best_frames.py:107-125 | Every offer is counted; a look is accepted exactly when it has a score and its track has a place free or holds one that scores less |
| BestFrames.ForgetRemovesExactly | services/analytics/analytics/best_frames.py:134-138 | Forgetting removes exactly the named tracks, and the clamp at zero never acts |
| BestFrames.BestFrameBuffer.Offer | services/analytics/analytics/best_frames.py:107-125 | One look considered: rejected, or shelved in order with the budget enforced |
| BestFrames.BestFrameBuffer.EnforceBudget | services/analytics/analytics/best_frames.py:140-162 | The weakest-first loop with its early stop |
| BestFrames.BestFrameBuffer.Best | services/analytics/analytics/best_frames.py:127-129 | The best look scores at least as high as every look held |
| BestFrames.BestFrameBuffer.Forget | services/analytics/analytics/best_frames.py:134-138 | The named tracks' looks go and the byte count with them |
| Pipeline.DetectionPipeline.Process | services/analytics/analytics/pipeline.py:379-487 | One frame through collapse, filters, tracker, pruning, collecting, judging and emission |
| PipelineOutput.FrameReports | services/analytics/analytics/pipeline.py:395-487 | The history grows by one observation for each tracked detection judged; what leaves for the sink is, in order, one report for exactly those with a reason and with pixels; every vehicle with pixels is offered for its plate; and what each counter adds |
| PipelineOutput.PlainFrameReports | services/analytics/analytics/pipeline.py:395-487 | With tracking off exactly the contributed detections with pixels leave, in order, and nothing is remembered |
| PipelineOutput.FrameContributes | services/analytics/analytics/pipeline.py:379-407 | A frame contributes exactly the detections, nested ones dropped, of a wanted domain and wide and high enough |
| Pipeline.DetectionPipeline.Prune | services/analytics/analytics/pipeline.py:416-421 | The retired ids are drained once and shared by policy and buffer |
| PipelineRuns.NoStateOutlivesItsTrack | services/analytics/analytics/pipeline.py:379-479 | Over any run, suppression on or off, every anchor, pending count and shortlist belongs to a live track after every step exactly when the tracks held always left room for the tracks each frame judges; then nothing waits to be drained |
| PipelineRuns.TimelyRunsNeverLeak | services/analytics/analytics/pipeline.py:379-479 | So it is over any run whose frames come later than their camera's others with no domain over the cap |
| PipelineRuns.LeaksExactly | services/analytics/analytics/pipeline.py:411-479 | One frame or reset keeps state and tracks together exactly when the tracks held leave room for every track it judges |
| PipelineRuns.RecordingDiscipline | services/analytics/analytics/pipeline.py:456-479 | Over a run that leaves nothing behind, with suppression on, every observation is first sight exactly when it is the first of its track and otherwise recorded exactly when due, for the first reason that holds; records of one track are an interval apart and scale changes persisted |
| PipelineRuns.AfterIsSound | services/analytics/analytics/pipeline.py:198-479 | Every frame with room for the tracks it judges, and every reset, keeps the joint invariant of tracker, policy, buffer and history |
| PipelineRuns.ResetIsSound | services/analytics/analytics/pipeline.py:198-210 | A reset keeps the joint invariant |
| Engine.AnalyticsEngine.WarmCommit | services/analytics/analytics/engine.py:648-712 | A finished warm-up installs what it built, or nothing once the engine is stopping |
| Engine.AnalyticsEngine.Tick | services/analytics/analytics/engine.py:803-845 | A reaper pass: every clock, and what it releases |
| EngineRuns.HibernatesExactly | services/analytics/analytics/engine.py:838-845 | A reaper pass releases the pipeline exactly when the cameras have all been gone for the timeout; then no camera was registered at any instant of it |
| EngineRuns.OneWarmupAtATime | services/analytics/analytics/engine.py:571-587 | In every interleaving at most one warm-up is uncommitted, and it is the loader |
| EngineRuns.NothingComesBack | services/analytics/analytics/engine.py:648-878 | Once stop has torn the engine down no later step installs a pipeline, detector, plate reader or activity pipeline |
| EngineRuns.SignalledOnlyReleases | services/analytics/analytics/engine.py:648-654 | From the stop signal on every step leaves each model, readers and faces included, and each part of the pipeline as it was or gone |
| EngineRuns.ReadersFollowDemand | services/analytics/analytics/engine.py:463-496 | At every lock release the plate demand is recorded truly, its clock runs exactly while a reader is loaded and unwanted, and a live pipeline holds the engine's reader and detector |
| EngineRuns.CommitInStep | services/analytics/analytics/engine.py:655-708 | A load that lands after its demand has gone leaves every clock in step with demand |
| EngineRuns.CommitLeavesNothingDue | services/analytics/analytics/engine.py:557-569 | When nothing changed meanwhile a committed warm-up leaves nothing due, readers had or not |
| EngineDemand.AddStartsExactly | services/analytics/analytics/engine.py:307-337 | Adding a camera registers it and starts a warm-up exactly when none runs, none is barred and the detector, the activity pipeline or a configured reader some camera asks for is missing |
| EngineDemand.TickStartsExactly | services/analytics/analytics/engine.py:803-812 | A reaper pass starts one exactly then, and none without cameras |
| EngineDemand.FailureWaits | services/analytics/analytics/engine.py:638-646 | After a failed warm-up none starts for the retry time, nor for a second |
| EngineDemand.WarmUpBrings | services/analytics/analytics/engine.py:589-712 | A warm-up with nothing changed meanwhile brings exactly what was missing, marks what could not be had, and leaves nothing wanted missing |
| EngineDemand.TickReleasesExactly | services/analytics/analytics/engine.py:817-836 | Over any run, a pass lets the plate reader and the activity pipeline go exactly when nobody asks and their clock has run for the timeout, the face reader as soon as nobody asks, and nothing else |
| EngineDemand.QuietTickReleases | services/analytics/analytics/engine.py:838-845 | Without cameras everything but the face reader goes once the idle clock has run for the timeout, and nothing before |
| EngineDemand.TickRepairs | services/analytics/analytics/engine.py:809-832 | Whatever state the clocks were left in, a pass with cameras puts the recorded demand and the clocks right |
| EngineDemand.RemoveUnregisters | services/analytics/analytics/engine.py:357-380 | Removing a camera leaves the others as they were and lets go only the face reader, when no other asks for faces |
| EngineDemand.ClocksReadSince | services/analytics/analytics/engine.py:463-521 | Over any run those two clocks read the time of the step since which each has been loaded with nobody asking |
| EngineRuns.FacesAgreeExactly | services/analytics/analytics/engine.py:666-699 | Over any run, the pipeline's face reader is the engine's after every step exactly when no step commits a face reader nobody wants any more |
| EngineRuns.FaceReaderIsLeftBehind | services/analytics/analytics/engine.py:666-699 | A run from the start in which a face reader landing after its camera left is dropped by the engine and kept by the pipeline |
| DropQueue.NothingIsLost | services/analytics/analytics/pipeline.py:222-245 | In every interleaving items leave in the order accepted, and at rest submissions are queued plus dropped, queued are consumed plus evicted plus waiting |
| DropQueue.OneProducerLosesNothing | services/analytics/analytics/sink.py:84-108 | A single producer never drops, and as each submit returns its item is waiting or was consumed |
| DropQueue.NeverDropsExactly | services/analytics/analytics/pipeline.py:222-245 | No interleaving ever drops an item exactly when the queue has no bound or at most one producer |
| DropQueue.TwoProducersCanDrop | services/analytics/analytics/pipeline.py:239-245 | For every capacity and any two or more producers, an interleaving from the empty queue that drops |
| DropQueue.SubmittedSettles | services/analytics/analytics/activity_pipeline.py:78-95 | Whatever the consumer and other producers put, evict or fail to put between its operations, a submit leaves every acceptance, eviction and refusal counted once |
| DropQueue.SubmittedStaysWithin | services/analytics/analytics/activity_pipeline.py:78-95 | Whoever else is at work a submit keeps a bounded queue within its bound, and its last put goes to the end or is dropped and counted |
| DropQueue.UndisturbedPrefersNewest | services/analytics/analytics/activity_pipeline.py:78-95 | Undisturbed, a submit queues its item last and only a full queue loses its oldest |
| DropQueue.NeverOverCapacity | services/analytics/analytics/pipeline.py:222-245 | In every interleaving a bounded queue stays within its bound |
| DropQueue.PutsWhileRoom | services/analytics/analytics/pipeline.py:222-245 | A put goes to the end exactly when there is no bound or the queue is short of it |
| DropQueue.DropOldestQueue.Submit | services/analytics/analytics/pipeline.py:222-245 | Put, evict, put again, with the consumer and other producers at work in between |
| MergeBoxes.MergeGroups | services/analytics/analytics/motion.py:349-364 | The result is the bounding boxes of a partition of the input |
| MergeBoxes.TouchIsSharedPoint | services/analytics/analytics/motion.py:349-364 | Two boxes touch exactly when some point lies in both |
| MergeBoxes.MergeSeparates | services/analytics/analytics/motion.py:361-362 | The result is pairwise apart when it stops early or has at most passes + 1 boxes to start from |
| MergeBoxes.MergeSeparatesExactly | services/analytics/analytics/motion.py:351-364 | The result is pairwise apart exactly when one of the first passes + 1 passes over the input finds nothing to merge |
| MergeBoxes.MergeNeverGrows | services/analytics/analytics/motion.py:349-364 | The count never grows |
| MergeBoxes.OneMoreBoxCanStillTouch | services/analytics/analytics/motion.py:349-364 | For every number of passes there are passes + 2 boxes that end still touching |
| MergeBoxes.UnionTouching | services/analytics/analytics/motion.py:349-364 | The nested loops with early return compute the merge |
| NestedBoxes.SuppressedIsApart | services/analytics/analytics/nested_boxes.py:90-128 | No two results of one domain are nested to the threshold |
| NestedBoxes.DroppedIsCovered | services/analytics/analytics/nested_boxes.py:115-127 | Every dropped box is nested in a kept one of its domain at least as large |
| NestedBoxes.ContainmentIsShare | services/analytics/analytics/nested_boxes.py:72-87 | Containment is the shared rectangle's share of the smaller box: none when they share nothing, all when one lies inside the other |
| NestedBoxes.KeptIsSubsequence | services/analytics/analytics/nested_boxes.py:128 | The result is the input with some left out, order unchanged |
| NestedBoxes.SuppressedIsIdempotent | services/analytics/analytics/nested_boxes.py:90-128 | Suppressing twice is suppressing once |
| NestedBoxes.SuppressionCommutesWithFilter | services/analytics/analytics/activity_pipeline.py:146-150 | Suppress-then-filter and filter-then-suppress by domain agree |
| NestedBoxes.SuppressNested | services/analytics/analytics/nested_boxes.py:90-128 | The largest-first loop keeps exactly the survivors |
| Jpeg.WalkInvertsWriter | services/camera-mgmt/backend/models.py:1526-1547 | For any chain of standalone markers and length-bearing segments before a frame header, the walk returns the encoded size |
| Jpeg.SizeExactlyWhenGrammatical | services/camera-mgmt/backend/models.py:1526-1547 | The walk finds a size exactly when the bytes follow the grammar it accepts |
| Jpeg.MarkersAre | services/camera-mgmt/backend/models.py:1526-1547 | Which markers are frame headers and which carry no length |
| Jpeg.FillByteHidesFrame | services/camera-mgmt/backend/models.py:1531-1546 | After any chain of items, a fill byte makes the walk pass over the whole frame header: it gives what the bytes at least 49144 past the header give, or nothing |
| Jpeg.JpegDimensions | services/camera-mgmt/backend/models.py:1526-1547 | The index loop ends on every input, stays in bounds and computes the walk |
| Timecode.DecodingIsUnique | e2e/fixtures/rtsp-cam/timecode.py:125-135 | With references more than 2t apart and digits within t, the number is decoded exactly when it has at least nine digits |
| Timecode.NearestIsNearest | e2e/fixtures/rtsp-cam/timecode.py:129-133 | The digit chosen is the first at the least distance |
| Timecode.DistanceCounts | e2e/fixtures/rtsp-cam/timecode.py:129-133 | The distance is the number of positions at which two signatures differ |
| Timecode.Decode | e2e/fixtures/rtsp-cam/timecode.py:125-135 | The loops over cells and references compute the decoding |
| Timecode.GlyphColumns | e2e/fixtures/rtsp-cam/timecode.py:61-79 | The runs returned cover every lit column, apart by at least the gap, none with a gap inside |
| Sorting.SortIsStable | services/analytics/analytics/nested_boxes.py:110-114 | Equal keys keep their order |
| Decimal.ParseInvertsRender | e2e/fixtures/rtsp-cam/timecode.py:134-135 | Reading back the decimal text of a number gives the number |

## Left out

- Track objects as shared references: a returned track is the value at that moment; a caller that keeps one does not see later updates through it.
- The best_score field of a track, which nothing reads, and the session, logging, snapshot and health parts of every class.
- Subscriber.SearchIsUndisturbed: covers frames and scene changes handed over, not the gated count, which misses a gated frame whose read is refused when the camera is also read for the activity path.
- Races between giving a camera up and a notice in hand, and between a scene change and the frame being processed: each operation is one step.
- Callbacks that raise, malformed notices, the Redis subscription and its reconnects.
- Mapping, descriptors and unlinking beyond which file a path opens; a mapping longer than its file is refused.
- RingBytes.FrameRing.Publish: one byte per array element and no other view of the block; two writers of one ring are not modelled.
- RingRestarts stands for a frame's width, height and channels by their product, since an incarnation never changes them.
- The detector, the gate, region cropping, plate and face reading and crop scoring: detections, scores and sizes are inputs.
- Pipeline.DetectionPipeline.Process: the picture, the boxes drawn on it and which look is read for a plate are not part of what is emitted here.
- Whole-run claims about recording assume suppression is on; with it off every observation is recorded (PolicyRules.AlwaysRecorded).
- Restarts onto a file left behind at the path are in `RingTruncation` and not among the moves of `RingRestarts`, which takes the path to have been unlinked; a file truncated to another frame size or slot count, and the instant at which it is empty, are not modelled.
- DropQueue.SubmittedSettles: takes an operation of another thread and its count as one step between two operations of a submit; `NothingIsLost` separates them.
- EngineRuns states no lifetime counters, which dip between a release and the folding of its counts.
- A warm-up thread that dies outside its own error handling, an exception while installing under the lock, samplers, sinks and the activity engine's own configuration.
- ActivityPipeline's own tracker and activities, which repeat the tracker modelled here.
- `_png_dimensions`, `_webp_dimensions` and `image_dimensions`, which would add only fixed-offset reads.
- Timecode's image operations: lit columns and signatures are inputs.
- CanonicalMotion, MotionGate and the region padding around `merge_boxes`.
- The user interface, migrations, access control, reconcile clients and site-map checks of the rest of the repository.
