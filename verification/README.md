# Tobimaru, modelled and proved in Dafny

Tobimaru is a WiFi intrusion detection daemon. Its core is a set of small stateful stream processors: flood
detectors, a login limiter, a deduplicating event engine, a client table, a fan-out hub, a channel hopper and
an element parser. Each has a short mathematical meaning and an implementation that prunes, caps, resets or
sweeps its memory. This project proves that the housekeeping never changes the answer over a whole run, says
exactly when that fails, and bounds what is kept.

Every component is one module:

| module | source | what is proved |
|---|---|---|
| `Flood` | internal/detector/rule_flood.go | the pruned, capped, reset and swept window is a filter over the full history; conservation of frames |
| `LoginLimiter` | internal/api/auth.go | lockouts as a naive history says; which attempts are refused; at most five failures in fifteen minutes |
| `Dedup` | internal/detector/detector.go | which events pass, as a statement about earlier ones, and reach the queue; the size of the cache at every moment |
| `EvilTwin` | internal/detector/rule_evil_twin.go | records are folds of announcements; list order; the score off the records; alert spacing per unordered pair |
| `BeaconFlood` | internal/detector/rule_beacon_flood.go | what windows share; events count distinct BSSIDs; what an event says of its frames; the dominant RSSI |
| `ClientState` | internal/state/client.go, internal/state/state.go | every field of a client read off the frames since it became known; eviction as one filter |
| `Elements` | internal/parser/parser.go | the bounded walk is the inverse of the encoder of section 9.4.2.1 of IEEE Std 802.11-2020 |
| `Hub` | internal/api/sse.go | safety, registration, order and accounting of the fan-out over every interleaving |
| `Hopper` | internal/capture/channel.go | round robin and the closed form of the backoff |

`Basics`, `Mac` and `Frames` hold the shared vocabulary: instants, the one filter `From` every window is
measured against, addresses and the injectivity of their text, and the parsed frame.

The modules share one shape. A function `Step` (or the functions it is made of) is the bookkeeping of one
atomic operation on values, and `Run` folds it over a log of operations. The specification reads the whole log:
`Pending`, `Naive`, `PassedAt`, `Since`, `History`, `Windows` or `Accepted` keep every entry until an event, a reset or
an eviction of the specification itself ends it. The main lemmas relate the two for every log. A class with the fields of the source then updates them in place,
and the contract of each entry point that changes what a specification reads says that it follows the log: its abstract value is `Run` of the log before the
call and `Run` of the longer log after it, so every lemma about runs is a statement about the object.

Conventions. An instant is a number of nanoseconds since Go's zero time, so 0 is the zero time. A MAC address is
absent or six bytes. Frames, clock readings, the outcomes of channel switches and the order in which a sort leaves ties are inputs. Where a theorem
needs timestamps that do not go back it says so with `Ordered`; where it does not, it holds for all of them.
Methods take the log as a ghost argument.

## Where the code and its description differ

The model follows the code.

- `specs/domains/detection.md:211` promises at most 10000 deduplication entries. A run keeps that promise at every moment
  exactly when no event with a new key passes while the cache is full (`Dedup.WithinMaximumIff`), and some runs do not
  (`Dedup.DocumentedMaximumExceeded`). The bound that holds at every moment of every run is `Dedup.CacheBounded`, and 10000 holds
  after each frame-count sweep when a frame yields at most ten events (`Dedup.SweepRestoresMaximum`).
- `specs/domains/detection.md:189` describes sending the event and then recording its time; the code records first. In both
  orders an event that a full queue drops is recorded, so it still suppresses its repetitions (`Dedup.Engine.Emit`).
- Sweeps can make deduplication forget. `Dedup.PassesIff` says exactly what passes in every run. Compared with a map that is
  never swept, no decision of a run changes if and only if no emission meets a pass within its window of which sweeps have
  dropped every trace (`Dedup.SweepsChangeNothingIff`, one decision at a time `Dedup.AgreesIff`). With a constant window and no
  overflow nothing ever changes (`Dedup.ConstantWindowAgrees`); with a window that changes, twice plus one of it at a sweep
  is the exact bound on its later growth (`Dedup.CoveredNeverMisses`, `Dedup.GrownWindowForgets`).
- Windows of one channel in the beacon flood rule are not always pairwise disjoint. A BSSID whose own beacon finds its window
  expired is counted again by the next window, because it is checked against the known set before the old window is promoted
  (internal/detector/rule_beacon_flood.go:92-102). `BeaconFlood.WindowsMayOverlap` is the example, `BeaconFlood.WindowsDisjointIff`
  the exact condition, `BeaconFlood.WindowsAlmostDisjoint` the exact overlap. Windows that raise an event are always disjoint, so the count of
  distinct BSSIDs stands.
- `specs/domains/detection.md:284` reports a common RSSI above 80%; the code reports it from exactly 80% on.
- The comments at internal/detector/rule_flood.go:71-100 expect the two length caps to cut and the event to count more than the
  threshold. In every run neither cap cuts anything and an event counts exactly the threshold (`Flood.CapsNeverCut`, `Flood.EventsCountThreshold`).
- The comments at internal/api/auth.go:225 and 279 speak of exceeding the threshold; the fifth failure already locks out.
- `specs/domains/state.md:75` and `:95` describe one eviction pass; the code runs two, and probe-only clients go after two minutes
  (`ClientState.TickIsOneFilter`).

## Model

| member | source | states |
|---|---|---|
| `Flood.EmitsIffWindowFull` | internal/detector/rule_flood.go:46-130 | With timestamps in order, a matching frame raises an event if and only if the same source's frames since its last event that are no older than the window, this one included, reach the threshold; the event's count and duration are those of that full-history window |
| `Flood.Conservation` | internal/detector/rule_flood.go:69-127 | For arbitrary timestamps and every key: frames = threshold times events, plus frames that aged out, plus frames buffered |
| `Flood.BuffersBelowThreshold` | internal/detector/rule_flood.go:87-127 | After every call of every run each buffer is strictly below the threshold |
| `Flood.EventsCountThreshold` | internal/detector/rule_flood.go:95-110 | Every event of every run, for any timestamps, counts exactly threshold frames |
| `Flood.EventCarries` | internal/detector/rule_flood.go:104-127 | Every other field of an event is that of its frame or of the configuration, the tracking key is the text of source and BSSID, and broadcast means all ones |
| `Flood.CapsNeverCut` | internal/detector/rule_flood.go:71-102 | In every reachable state the cap at twice the threshold and the cap on emission leave the slice as it is |
| `Flood.FloodKeyInjective` | internal/detector/rule_flood.go:142-148 | Two frames share a tracker only when both source and BSSID agree, present or absent |
| `Flood.RunTracks` | internal/detector/rule_flood.go:57-127 | Through every ordered run the truncated buffer and the full pending history agree on every frame the window can still see; a buffer that its source has not touched since may hold older ones too |
| `Flood.SweepKeepsTracks` | internal/detector/rule_flood.go:132-140 | Dropping trackers idle for five windows, whenever it happens, loses no frame a later window could count |
| `Flood.SweepsEvery` | internal/detector/rule_flood.go:57-60 | The sweep runs with every ten-thousandth matching frame |
| `Flood.FloodRule.Process` | internal/detector/rule_flood.go:46-130 | On the live object: after any log of frames the call raises the specified events, each counting threshold frames and carrying its frame's fields, if and only if the full-history window is full, and the object then follows the longer log |
| `Flood.FloodRule.Handle` | internal/detector/rule_flood.go:51-129 | The body under the lock takes the trackers from any separate state to the specified next state and event |
| `Flood.FloodTracker.Record` | internal/detector/rule_flood.go:68-85 | Append, cap and the index loop leave the capped slice without its expired prefix |
| `Flood.FloodRule.Track` | internal/detector/rule_flood.go:57-66 | The tracker found or created is the one of the key in the swept map, and no other tracker is touched |
| `Flood.FloodRule.CleanupStale` | internal/detector/rule_flood.go:132-140 | The deleting loop removes exactly the trackers idle for more than five windows |
| `LoginLimiter.LockedIffLockedOut` | internal/api/auth.go:246-313 | Under a clock that does not go back an address is reported locked if and only if a lockout since its last success began less than fifteen minutes ago, where a failure begins a lockout when it is the fifth since the last reset newer than fifteen minutes |
| `LoginLimiter.AtMostFiveFailures` | internal/api/auth.go:246-301 | Sequential attempts of one address without a success record at most five failures within any fifteen minutes, whatever sweeps and other addresses do in between |
| `LoginLimiter.RefusedIffFifthWithin` | internal/api/auth.go:120-301 | Over every sequence of attempts made one after another: an attempt is refused if and only if, less than fifteen minutes before it, one of its address was the fifth wrong attempt within fifteen minutes that was not refused, counted since the last grant or the last such fifth |
| `LoginLimiter.LoginsAreSequential` | internal/api/auth.go:121-164 | Attempts handled one after another, with any outcomes, meet the premise of the rate bound: every recorded failure follows its own passed check |
| `LoginLimiter.RunTracks` | internal/api/auth.go:246-313 | Pruning in place, resets and sweeps keep the entry and the full history in agreement on countable failures and running lockouts |
| `LoginLimiter.CheckExcludesLockout` | internal/api/auth.go:246-258 | A passed check excludes that any lockout began less than its length before the failure recorded next |
| `LoginLimiter.FailuresBounded` | internal/api/auth.go:121-134 | Overlapping attempts: when at most c attempts of an address that go on to record a failure are between check and record at any time, its failures within any fifteen minutes without a success are at most 4 + c |
| `LoginLimiter.SequentialInFlight` | internal/api/auth.go:121-134 | Sequential attempts are in flight one at a time, so the bound of five is the case c = 1 |
| `LoginLimiter.UnlockedSpan` | internal/api/auth.go:280-292 | In a span within one window, as long as no failure locks the address out, every failure is still pending and they are fewer than five |
| `LoginLimiter.LockedSpan` | internal/api/auth.go:246-258 | After a lockout within the window only attempts checked before it record failures |
| `LoginLimiter.LockStays` | internal/api/auth.go:289-300 | A lockout stays in the history until a success |
| `LoginLimiter.LockoutsComeFromFailures` | internal/api/auth.go:280-300 | A stretch without a recorded failure of the address leaves its lockouts as they were, unless a success ends them all |
| `LoginLimiter.PruneFailures` | internal/api/auth.go:302-313 | The in-place compaction leaves at the front exactly the instants after the cutoff, in their order |
| `LoginLimiter.FailureRecord.Fail` | internal/api/auth.go:288-292 | One record prunes, appends, and on the fifth failure locks and clears |
| `LoginLimiter.LoginRateLimiter.Locked` | internal/api/auth.go:242-264 | The live check follows the log and answers as the full history does; records and slices are only ever removed |
| `LoginLimiter.LoginRateLimiter.SweepStale` | internal/api/auth.go:266-276 | The sweep prunes every record and deletes exactly those left empty and no longer locked |
| `LoginLimiter.LoginRateLimiter.VisitEntry` | internal/api/auth.go:259-262 | One record is pruned in place and deleted when empty and unlocked; no other address is affected |
| `LoginLimiter.LoginRateLimiter.RecordFailure` | internal/api/auth.go:278-293 | Recording a failure follows the log; only the address's own record changes |
| `LoginLimiter.LoginRateLimiter.RecordSuccess` | internal/api/auth.go:295-301 | A success forgets the address and nothing else |
| `LoginLimiter.LoginRateLimiter.HandleLogin` | internal/api/auth.go:120-164 | An uninterrupted attempt is refused exactly when the check says so; after a passed check wrong credentials record a failure, a granted login records a success, and any other outcome records nothing. After any steady sequence of attempts it is refused exactly when the attempts before it hold a fifth wrong one less than fifteen minutes ago |
| `Dedup.PassesIff` | internal/detector/detector.go:196-279 | For every run, with any sweeps, overflows and changes of the window: an event passes if and only if the engine is enabled and every earlier event of the same type, source and BSSID that passed was stored at least one window ago or has since been dropped by a sweep, for its age or among the oldest half |
| `Dedup.PassesIffSpaced` | internal/detector/detector.go:196-279 | Measured against the passes of the run itself, spacing alone decides if and only if it is not the case that the engine is enabled and passes within the window exist but sweeps have dropped all of them |
| `Dedup.AgreesIff` | internal/detector/detector.go:196-279 | Compared with the same run on a map that is never swept: while all earlier decisions agree, the next one agrees if and only if it is not such a miss |
| `Dedup.SweepsChangeNothingIff` | internal/detector/detector.go:196-279 | Over a whole run or any prefix, sweeping changes no decision, compared with a map that is never swept, if and only if no emission of it is such a miss |
| `Dedup.UnsweptDecides` | internal/detector/detector.go:196-213 | On the map that is never swept an event passes if and only if the engine is enabled and every earlier pass there is at least the window ago |
| `Dedup.CoveredNeverMisses` | internal/detector/detector.go:196-259 | Spacing alone decides when each sweep after a pass of the event did not overflow and ran under a window whose double, plus one, covers the current one |
| `Dedup.ConstantWindowDecides` | internal/detector/detector.go:196-259 | With a constant window and no overflow an event passes if and only if the engine is enabled and every earlier pass of it is at least the window ago |
| `Dedup.ConstantWindowAgrees` | internal/detector/detector.go:196-259 | With a constant window and no overflow every decision is the one of a map that is never swept |
| `Dedup.GrownWindowForgets` | internal/detector/detector.go:73-78 | For every larger growth of the window after a sweep some run lets the same event pass twice within one window, and so decides otherwise than a map that is never swept |
| `Dedup.DedupKeyInjective` | internal/detector/detector.go:226-245 | Two events share a key only when type, source and BSSID are equal, whatever characters the type holds |
| `Dedup.RunRemembers` | internal/detector/detector.go:196-279 | After every prefix of a run the cache holds the last pass of an event or a sweep dropped it, and every entry is a pass that no sweep dropped |
| `Dedup.OverflowDropsOldest` | internal/detector/detector.go:261-278 | The overflow pass removes half of the entries, rounded down, and none it removes is newer than any it keeps |
| `Dedup.SweepSize` | internal/detector/detector.go:247-279 | A sweep leaves at most the larger of 10000 and half of the entries, rounded up |
| `Dedup.Growth` | internal/detector/detector.go:194-213 | Between any two moments the cache grows by at most the emissions between them |
| `Dedup.BoundBetween` | internal/detector/detector.go:157-174 | Between inputs the cache holds at most its peak and the per-frame events of the frames since the last frame-count sweep |
| `Dedup.CacheBounded` | internal/detector/detector.go:157-279 | At every moment of every run, for any number r of events per frame, the cache holds at most max(10000, 1000 r) + 1000 r entries |
| `Dedup.SweepRestoresMaximum` | internal/detector/detector.go:170-173 | With at most ten events a frame, every frame-count sweep leaves at most 10000 entries |
| `Dedup.WithinMaximumIff` | internal/detector/detector.go:206-262 | A run keeps the documented maximum of 10000 at every moment if and only if no event with a new key ever passes while the cache is full |
| `Dedup.StepWithinMaximum` | internal/detector/detector.go:206-262 | From a cache within the maximum, exactly that operation leaves it |
| `Dedup.DocumentedMaximumExceeded` | internal/detector/detector.go:247-262 | The example: for every window some run of one event a frame has more than 10000 entries between two sweeps |
| `Dedup.Engine.Register` | internal/detector/detector.go:87-106 | A rule joins the list exactly when the engine has not started, no registered rule has its name and its Init succeeds; names stay distinct |
| `Dedup.Engine.CacheWithin` | internal/detector/detector.go:157-279 | On the live engine, after any inputs with at most r events a frame: at most max(10000, 1000 r) entries plus r for each frame since the last frame-count sweep; with r at most ten, 10000 after each such sweep |
| `Dedup.Engine.SetDedupWindow` | internal/detector/detector.go:71-78 | Follows the inputs: a positive window replaces the old one, any other value is ignored |
| `Dedup.Engine.SetEnabled` | internal/detector/detector.go:80-82 | Follows the inputs: the flag is the one given |
| `Dedup.Engine.Start` | internal/detector/detector.go:117-121 | The first call closes the rule list, every other one changes nothing |
| `Dedup.Engine.Emit` | internal/detector/detector.go:194-224 | An event that passes is stored and then enters the queue, or is dropped when the queue is full; the queue stays within its capacity |
| `Dedup.Engine.SweepDedup` | internal/detector/detector.go:247-279 | The sweep on the live map is the specified one, for an order that lists the surviving keys oldest first |
| `Dedup.Engine.DropStale` | internal/detector/detector.go:254-259 | The deleting loop removes exactly the entries older than twice the window |
| `Dedup.Engine.Dispatch` | internal/detector/detector.go:157-174 | Follows the inputs: the frame is counted, the events of every rule are emitted in order, every thousandth frame ends in a sweep, and the cache keeps its bound. The alert queue is what it was, followed by the events that passed during the frame, in the order of emission, as many as there is room for |
| `Dedup.Engine.ProcessRules` | internal/detector/detector.go:166-192 | The events of the rules that do not panic are emitted, rule by rule, and those that pass are queued while there is room |
| `Dedup.Engine.ProcessRule` | internal/detector/detector.go:176-192 | The events of one rule are emitted; a rule that panics changes neither the cache nor the queue |
| `Dedup.Engine.EmitAll` | internal/detector/detector.go:189-224 | The events that pass, each in the state its predecessors left, join the queue in order while there is room |
| `Dedup.RoomDelivers` | internal/detector/detector.go:194-224 | An event that passes at its place in the run, while the queue still has room for it, is in the queue after the frame |
| `Dedup.PassesListed` | internal/detector/detector.go:194-216 | Every emission that passes is listed among the passed events, at the place that the passes before it leave to it |
| `Dedup.ListedPass` | internal/detector/detector.go:194-216 | Every listed event is that of an emission that passed, with exactly its place of passes before it |
| `Dedup.DispatchPasses` | internal/detector/detector.go:157-192 | Of the operations of a frame only its emissions pass, in the state that everything before the frame left |
| `Dedup.EmissionsAppend` | internal/detector/detector.go:166-192 | The events of a frame are those of its rules in order; a rule that panics loses its own and no other rule's |
| `Dedup.EmissionsBounded` | internal/detector/detector.go:166-192 | With at most m events a rule a frame emits at most m times the number of rules |
| `Dedup.Engine.Tick` | internal/detector/detector.go:134-135 | Follows the inputs: the periodic sweep of the loop |
| `Dedup.SortByTime` | internal/detector/detector.go:263-274 | The list holds every key once, oldest entry first |
| `EvilTwin.AlertsIffSpaced` | internal/detector/rule_evil_twin.go:74-149 | For every frame of an ordered run: an alert is raised if and only if the frame is relevant, its comparison calls for one, and every earlier alert for the same SSID and the same unordered pair is at least the timeout old, across any cleanup passes |
| `EvilTwin.AlertsFromHistory` | internal/detector/rule_evil_twin.go:74-149 | On the frames alone: an alert is raised if and only if for some other access point learning is over, both have been announced often enough since insertion, that one was announced first of all others, their summaries differ enough, and earlier alerts for the pair are old enough |
| `EvilTwin.SuspectFromHistory` | internal/detector/rule_evil_twin.go:97-138 | For any timestamps the comparison points at an access point if and only if those conditions on the frames hold for it |
| `EvilTwin.StartedAtIs` | internal/detector/rule_evil_twin.go:89-91 | The rule starts at the timestamp of the first announcement that has one |
| `EvilTwin.EmittedIff` | internal/detector/rule_evil_twin.go:115-159 | The event names the SSID of the frame, the access point the comparison points at, and the frame's own |
| `EvilTwin.AlertSays` | internal/detector/rule_evil_twin.go:130-177 | For any timestamps an alert's fields are read off the announcements of the two access points since insertion: latest channels, number of announcements, time since the first one, and the comparison of the two summaries |
| `EvilTwin.SuppressedIff` | internal/detector/rule_evil_twin.go:140-149 | The swept map of alert times suppresses a pair exactly while some alert for it in the whole run is younger than the timeout |
| `EvilTwin.AlertsSpaced` | internal/detector/rule_evil_twin.go:140-149 | Any two alerts for the same SSID and unordered pair, whichever was the candidate, are at least the timeout apart |
| `EvilTwin.AlertKeyIff` | internal/detector/rule_evil_twin.go:140-144 | Alert keys are equal if and only if the SSIDs are equal and the unordered pairs are; the SSID may hold any characters |
| `EvilTwin.GreaterTotal` | internal/detector/rule_evil_twin.go:140-143 | The string order that sorts the pair is antisymmetric and total |
| `EvilTwin.RecordsAreSummaries` | internal/detector/rule_evil_twin.go:179-211 | Through any run and any timestamps a listed record is read off its announcements since insertion: BeaconCount is their number, FirstSeen the first one's time, LastSeen and RSSI the last one's, each other field the latest value announced; no record when there are none |
| `EvilTwin.LatestNonZeroIs` | internal/detector/rule_evil_twin.go:194-211 | The latest known value is that of an announcement after which none had one to give |
| `EvilTwin.CallsCounted` | internal/detector/rule_evil_twin.go:95-98 | The cleanup pass runs with every ten-thousandth announcement |
| `EvilTwin.ComparisonFromHistory` | internal/detector/rule_evil_twin.go:97-138 | For any timestamps the record a frame is judged by, and the one it is compared with, are summaries of announcements since insertion, and the latter's first announcement is the earliest among all other BSSIDs announcing the SSID |
| `EvilTwin.ListsInOrder` | internal/detector/rule_evil_twin.go:194-318 | Through any ordered run, compaction included, every list has distinct BSSIDs in non-decreasing FirstSeen order |
| `EvilTwin.ListsByInsertion` | internal/detector/rule_evil_twin.go:97-110 | For any timestamps every list is in the order of the frames that inserted its records |
| `EvilTwin.InsertedFirst` | internal/detector/rule_evil_twin.go:179-192 | The inserting frame is the first of the announcements since insertion |
| `EvilTwin.FirstObservedIs` | internal/detector/rule_evil_twin.go:213-227 | For any timestamps the scan returns the summary of the access point announced first among the others, by timestamp and then by frame, and none exactly when no other one is announced |
| `EvilTwin.RunDistinct` | internal/detector/rule_evil_twin.go:97-110 | For any timestamps no SSID lists a BSSID twice |
| `EvilTwin.ScanFindsFirst` | internal/detector/rule_evil_twin.go:213-227 | On such a list the scan for the smallest FirstSeen returns the earliest listed record of another BSSID |
| `EvilTwin.ActiveHeld` | internal/detector/rule_evil_twin.go:302-318 | Compaction keeps a BSSID's record unchanged when it was seen within the timeout and drops it otherwise |
| `EvilTwin.EvilTwinRule.Process` | internal/detector/rule_evil_twin.go:74-113 | On the live object: after any log of frames the call raises the specified events, and in ordered runs exactly when the frames alone call for one; the object follows the longer log |
| `EvilTwin.EvilTwinRule.Note` | internal/detector/rule_evil_twin.go:97-112 | The announcing BSSID's record is updated in place or a new one appended, every other record is left alone, and the candidate is that record |
| `EvilTwin.EvilTwinAPRecord.Update` | internal/detector/rule_evil_twin.go:194-211 | An announcement overwrites LastSeen and RSSI, counts, and replaces only the fields it carries |
| `EvilTwin.EvilTwinRule.Evaluate` | internal/detector/rule_evil_twin.go:115-177 | The event is the specified verdict, and the alert time is stored exactly when an event is raised |
| `EvilTwin.EvilTwinRule.FindSuspect` | internal/detector/rule_evil_twin.go:122-138 | The checks on learning period, beacon counts and score select the specified access point to compare with, or none |
| `EvilTwin.EvilTwinRule.FirstObservedAP` | internal/detector/rule_evil_twin.go:213-227 | The pointer scan returns the specified record, or null when no other BSSID is listed |
| `EvilTwin.ScoreOf` | internal/detector/rule_evil_twin.go:229-285 | Adding up mismatch by mismatch gives the list of everything that differs, in order, and its total weight, as read off the fields of the two records |
| `EvilTwin.ScoreIs` | internal/detector/rule_evil_twin.go:229-285 | Read off the two records: the BSSID is always listed (50); the channel when both are known and differ (30); elements 48 (40), 221 (20), 45 (10), 191 (10) and 127 (5) when exactly one side carries them or their bytes differ, an absent map being empty; the capability when it differs (20); the score is the sum |
| `EvilTwin.ComparisonSymmetric` | internal/detector/rule_evil_twin.go:229-285 | Mismatches and score do not depend on which of the two access points was known first |
| `EvilTwin.ScoreBounds` | internal/detector/rule_evil_twin.go:229-285 | A score lies between 50 and 185, and is 50 exactly when only the BSSIDs differ |
| `EvilTwin.EvilTwinRule.Compact` | internal/detector/rule_evil_twin.go:303-310 | Compaction selects, without repetition and in order, exactly the records seen within the timeout |
| `EvilTwin.EvilTwinRule.CleanupStale` | internal/detector/rule_evil_twin.go:302-325 | The pass compacts every list, deletes the empty ones, and forgets exactly the alerts older than the timeout |
| `BeaconFlood.EventsCountDistinctBSSIDs` | internal/detector/rule_beacon_flood.go:87-145 | In any run segment without a cleanup pass, from any reachable state, threshold times the events of a channel is at most the number of distinct BSSIDs its window held at the start or that were seen there |
| `BeaconFlood.FiresIff` | internal/detector/rule_beacon_flood.go:87-116 | In a segment without a cleanup pass a frame raises an event if and only if learning is over, its BSSID was not known, and the BSSIDs counted since the open window of its channel began, or its own alone when that window has expired, reach the threshold |
| `BeaconFlood.CurrentIsOpenWindow` | internal/detector/rule_beacon_flood.go:97-143 | The open window of a channel holds exactly the BSSIDs counted since it began |
| `BeaconFlood.WindowBegan` | internal/detector/rule_beacon_flood.go:97-102 | A window begins with the frame that closed the one before it, or with the first counted frame of its channel |
| `BeaconFlood.KnownIsKnowledge` | internal/detector/rule_beacon_flood.go:87-143 | The rule knows exactly what it knew before, what it saw while learning, and every BSSID of a window it closed |
| `BeaconFlood.CountsIff` | internal/detector/rule_beacon_flood.go:87-97 | A frame is counted if and only if it is a beacon with a BSSID, learning is over and the BSSID is not known |
| `BeaconFlood.WindowsAlmostDisjoint` | internal/detector/rule_beacon_flood.go:92-143 | Two windows of a channel share exactly this: nothing, or, when they are consecutive and a BSSID of the first found it expired, that BSSID |
| `BeaconFlood.WindowsDisjointIff` | internal/detector/rule_beacon_flood.go:92-102 | The windows of a segment, the open one included, are pairwise disjoint if and only if no BSSID that a window counted is the one whose beacon found that window expired |
| `BeaconFlood.WindowsMayOverlap` | internal/detector/rule_beacon_flood.go:92-102 | The example: one BSSID seen twice, more than a window apart, is in the closed window and in the open one, which are therefore not disjoint |
| `BeaconFlood.EventMeaning` | internal/detector/rule_beacon_flood.go:104-140 | From any reachable state an event counts exactly threshold BSSIDs, its frame count is the sum of the RSSI counts, and its common RSSI is the value holding 80%, present if and only if there is one |
| `BeaconFlood.EventSays` | internal/detector/rule_beacon_flood.go:97-140 | In a segment without a cleanup pass an event is read off the frames counted since its window began: their number, their SSIDs up to the fifth different one, the signal strength that four fifths of them carry, and the time since the window began; its other fields are those of the last frame |
| `BeaconFlood.WindowSummarises` | internal/detector/rule_beacon_flood.go:104-112 | The open window counts exactly the frames counted on its channel since it began, in all and for each signal strength, and samples their SSIDs |
| `BeaconFlood.SamplesFill` | internal/detector/rule_beacon_flood.go:108-110 | As long as fewer than five different SSIDs were named all of them are sampled |
| `BeaconFlood.CleanupEvery` | internal/detector/rule_beacon_flood.go:82-85 | The cleanup pass runs with every ten-thousandth beacon |
| `BeaconFlood.DominantUnique` | internal/detector/rule_beacon_flood.go:200-216 | At most one value can hold 80% of a total that is the sum of the counts |
| `BeaconFlood.DominantRSSI` | internal/detector/rule_beacon_flood.go:200-216 | For every order of iteration the loop reports a value if and only if some value holds 80%, and reports such a value |
| `BeaconFlood.StepInv` | internal/detector/rule_beacon_flood.go:97-143 | Every frame keeps each window below the threshold and its RSSI counts summing to its beacon count |
| `BeaconFlood.FiredSizes` | internal/detector/rule_beacon_flood.go:114-143 | Windows that raised events are pairwise disjoint, so their sizes add up to threshold times their number |
| `BeaconFlood.StepSound` | internal/detector/rule_beacon_flood.go:97-143 | Each frame closes only windows of BSSIDs seen, and those that raise an event have exactly threshold members |
| `BeaconFlood.WindowsCountEvents` | internal/detector/rule_beacon_flood.go:114-145 | The windows closed by being full are as many as the events |
| `BeaconFlood.BeaconFloodRule.Process` | internal/detector/rule_beacon_flood.go:64-146 | On the live object: after any log of frames the call raises the specified event, counting threshold BSSIDs, and without a cleanup pass exactly when the frames seen fill a window; the object follows the longer log |
| `BeaconFlood.BeaconFloodRule.CountNew` | internal/detector/rule_beacon_flood.go:97-145 | A new BSSID grows its channel's window, and a full window raises the event, is promoted and starts afresh; other channels stay |
| `BeaconFlood.BeaconFloodRule.Grow` | internal/detector/rule_beacon_flood.go:97-112 | The window found, created or renewed on expiry, with the frame added, is the specified one |
| `BeaconFlood.BeaconFloodRule.Promote` | internal/detector/rule_beacon_flood.go:142-172 | The window's BSSIDs become known and its channel is reset; no other channel changes |
| `BeaconFlood.BeaconFloodRule.CleanupStale` | internal/detector/rule_beacon_flood.go:174-188 | The loops remove exactly the BSSIDs and channels last seen longer ago than the learning period and ten windows |
| `ClientState.ClientsAreSummaries` | internal/state/state.go:66-317 | Over every run of frames and ticks a client exists exactly while its history since it became known is non-empty, and each field is read off that history: data frames counted, probed SSIDs without repetition in first-seen order, latest channel, RSSI, BSSID and SSID, first and last time, association |
| `ClientState.AssociatedIff` | internal/state/state.go:220-317 | A known client is associated if and only if an association, or data that introduced it, was not followed by a deauthentication or disassociation |
| `ClientState.LatestIff` | internal/state/client.go:54-73 | The latest value is the one of an entry after which no entry has anything to say |
| `ClientState.FirstOccurrencesMeaning` | internal/state/client.go:146-163 | The duplicate-free list holds exactly the probed SSIDs, ordered by their first occurrence |
| `ClientState.FrameActs` | internal/state/state.go:66-88 | A frame changes what is known of an address exactly as its sighting says, and leaves every address it does not concern untouched |
| `ClientState.FrameChanges` | internal/state/state.go:66-317 | What one frame makes of one client, field by field: requests introduce or associate, successful responses confirm a known client, deauthentication and disassociation at either end clear the association, data by the direction flags counts, probes update and are remembered, and every other frame changes nothing |
| `ClientState.StepKeeps` | internal/state/client.go:54-73 | While a client stays known its FirstSeen and address are fixed, its counter never drops and its probed SSIDs only grow |
| `ClientState.TickIsOneFilter` | internal/state/state.go:112-123 | For any two cutoffs the two eviction passes keep exactly the clients not older than the TTL cutoff and not probe-only and older than the short one, and they commute |
| `ClientState.TickActs` | internal/state/state.go:112-123 | The same for one address, which is otherwise left unchanged |
| `ClientState.TickKeeps` | internal/state/state.go:112-123 | A tick drops a client exactly when it was last seen before the time to live, or never sent data, is not associated and was last seen more than two minutes ago, and leaves any other as it is |
| `ClientState.Engine.ProcessFrame` | internal/state/state.go:66-88 | On the live maps: after any log of frames and ticks the call leads to the specified table |
| `ClientState.Engine.Evict` | internal/state/state.go:112-123 | A tick follows the log, and the two counts it adds sum to the decrease in size |
| `ClientState.Engine.ProcessProbeRequest` | internal/state/state.go:183-217 | Known clients are merged, unknown ones inserted with the probed SSID, and a non-empty SSID is remembered |
| `ClientState.Engine.ProcessAssocRequest` | internal/state/state.go:220-239 | The requesting client is inserted or merged as associated |
| `ClientState.Engine.ProcessAssocResponse` | internal/state/state.go:242-256 | Only a successful response confirms, and only a known client |
| `ClientState.Engine.ProcessDeauthDisassoc` | internal/state/state.go:259-273 | Both ends are marked as disassociated when known, present and not broadcast |
| `ClientState.Engine.ProcessDataFrame` | internal/state/state.go:276-317 | The client end by the direction flags is counted when known and inserted as associated with count one when not |
| `ClientState.ClientMap.Update` | internal/state/client.go:38-73 | Merging keeps FirstSeen and whatever the update leaves empty; other entries and their objects are untouched |
| `ClientState.ClientMap.AddProbeSSID` | internal/state/client.go:146-163 | A new non-empty SSID is appended to a known client's list, once |
| `ClientState.ClientMap.MarkAssociated` | internal/state/client.go:168-187 | A known client is marked, its times and, when given, its BSSID updated; the result says whether it was known |
| `ClientState.ClientMap.MarkDisassociated` | internal/state/client.go:191-207 | The same for leaving |
| `ClientState.ClientMap.IncrementFrame` | internal/state/client.go:212-232 | A known client's counter grows by one with its time, channel and BSSID; the result says whether it was known |
| `ClientState.ClientMap.EvictWhere` | internal/state/client.go:129-143 | For any optional predicate the deleting loop removes exactly the stale entries it admits and returns how many |
| `ClientState.ClientMap.EvictStale` | internal/state/client.go:112-114 | Without a predicate all stale entries go |
| `ClientState.ClientMap.EvictProbeOnly` | internal/state/client.go:120-124 | With the probe-only predicate only stale entries without data and association go |
| `Elements.RoundTrip` | internal/parser/parser.go:467-478 | Walking an encoded list of elements, followed by anything unreadable, visits exactly its first n, and leaves what followed when there are no more |
| `Elements.Reencodes` | internal/parser/parser.go:467-478 | For arbitrary bytes the visited elements, encoded again, and the unread rest are the input; the rest is under two bytes, truncated, or past the cap |
| `Elements.WalkIffEncoding` | internal/parser/parser.go:467-478 | The visited list and the rest are the only pair with that property |
| `Elements.VisitedAt` | internal/parser/parser.go:467-478 | Read off the bytes: each visited element is the identifier at its place and the bytes that the length after it announces, one element starting where the one before ends |
| `Elements.IterateIEs` | internal/parser/parser.go:467-478 | The loop feeds any callback the visited elements, in order, until it declines or they end |
| `Elements.ParseIEForSSID` | internal/parser/parser.go:483-495 | The result is the first visited element 0, absent when there is none |
| `Elements.ParseIEsRaw` | internal/parser/parser.go:532-540 | From an empty map each identifier is stored with its last visited occurrence, and none is left out |
| `Elements.FirstIff` | internal/parser/parser.go:483-495 | The first occurrence is one with none of the same identifier before it |
| `Elements.LastIff` | internal/parser/parser.go:532-540 | The last occurrence is one with none of the same identifier after it |
| `Elements.FeedStore` | internal/parser/parser.go:533-539 | The callback's own cap never fires while the map and the elements to come fit under it |
| `Elements.ConsumersAgree` | internal/parser/parser.go:483-540 | Both consumers find an identifier or neither does, and they agree on its value when it is visited at most once |
| `Elements.RepeatedSSID` | internal/parser/parser.go:483-540 | With two SSID elements one consumer keeps the first and the other the last |
| `Hub.NeverPanics` | internal/api/sse.go:148-222 | Over every interleaving no message is sent to a closed channel, no channel is closed twice, and every buffer keeps its bound |
| `Hub.StepSafe` | internal/api/sse.go:148-222 | The invariant behind it is kept by every action |
| `Hub.RegisteredIff` | internal/api/sse.go:157-222 | Over every run, from the actions alone: id is registered if and only if the id-th subscription happened and was followed by neither its own unsubscription nor the shutdown of a running hub; the hub runs if and only if a start was not followed by a shutdown; a channel is closed if and only if its subscriber was registered at such a shutdown |
| `Hub.Delivery` | internal/api/sse.go:198-211 | For each subscriber, received plus waiting messages are an in-order selection of those broadcast while the actions say it was registered, and received + waiting + dropped = broadcast |
| `Hub.DropOnlyWhenFull` | internal/api/sse.go:203-209 | A broadcast passes a registered subscriber by only when its buffer holds 64 messages |
| `Hub.NoLoss` | internal/api/sse.go:198-211 | A subscriber that lost nothing has exactly what was broadcast while it was registered |
| `Hub.QueueIsFifo` | internal/api/sse.go:146-195 | Broadcast plus queued messages are exactly the accepted ones, in their order |
| `Hub.AddressedIsBroadcast` | internal/api/sse.go:198-211 | What a subscriber is offered is an in-order selection of what is broadcast |
| `Hub.ReceivedInPublicationOrder` | internal/api/sse.go:146-211 | End to end: a subscriber receives only published messages, each at most once, in the order of publication |
| `Hub.Broadcaster.Publish` | internal/api/sse.go:146-155 | Publishing follows the actions and never waits: the message joins the queue when that holds fewer than 256, and is dropped otherwise |
| `Hub.Broadcaster.Subscribe` | internal/api/sse.go:157-179 | A subscriber gets the next id and a fresh open channel, and joins the registered ones |
| `Hub.Broadcaster.Unsubscribe` | internal/api/sse.go:173-177 | Unsubscribing removes its own registration and no other, and closes nothing, however often it is called |
| `Hub.Broadcaster.Broadcast` | internal/api/sse.go:191-211 | One turn takes the oldest message and offers it to every registered channel: each gets it at the end when it holds fewer than 64, and no other channel changes |
| `Hub.Broadcaster.SendAll` | internal/api/sse.go:202-210 | The loop offers the message once to each registered channel and touches no other |
| `Hub.Broadcaster.CloseAll` | internal/api/sse.go:213-222 | Shutdown closes every registered channel, touches no other and no waiting message, and empties the map |
| `Hub.Broadcaster.Receive` | internal/api/sse.go:157-179 | The subscriber's end takes the oldest waiting message and learns of the closing only when none waits |
| `Hopper.RoundTriesAll` | internal/capture/channel.go:87-122 | Wherever a round of the hops that a run makes starts, its channels are the configured list, rotated, each as often as it is listed |
| `Hopper.EachEntryOnce` | internal/capture/channel.go:87-122 | Any n consecutive hops of a run over n entries try each entry exactly once, whatever fails |
| `Hopper.BacksOffAlways` | internal/capture/channel.go:124-132 | In every scheduled run, for every hop and m at least five such that exactly the last m switches failed in a row, the wait is min(d 2^(m-4), 30 s) for the non-zero dwell d of the fifth |
| `Hopper.FailureRunIs` | internal/capture/channel.go:120-152 | The failure counter is m if and only if the last m switches failed and the one before them, if there is one, did not |
| `Hopper.KeepsDwellAlways` | internal/capture/channel.go:124-152 | A hop whose last five outcomes are not all failures, the first four hops included, waits as configured |
| `Hopper.BackoffDoubles` | internal/capture/channel.go:124-132 | From the fifth failure in a row on, a wait is twice the one before, up to 30 s; the fifth, and any that follows a wait of zero, doubles its own dwell |
| `Hopper.SuccessRestoresDwell` | internal/capture/channel.go:145-152 | After a hop that succeeds, it and the next four hops wait as configured, whatever their outcome |
| `Hopper.BackoffStep` | internal/capture/channel.go:127-132 | Doubling under the cap, or seeding from the first non-zero dwell, follows the closed form |
| `Hopper.ChannelHopper.Next` | internal/capture/channel.go:87-95 | The entries come in list order, round and round, and the current channel is the one returned |
| `Hopper.ChannelHopper.Run` | internal/capture/channel.go:116-164 | For any outcomes of the switches the i-th hop tries entry i modulo n, waits what the schedule says, backs off in the closed form from the fifth failure in a row on, and waits as configured otherwise |
| `Hopper.NewEntries` | internal/capture/channel.go:46-80 | The list is the 2.4 GHz channels, the primary ones with a scaled dwell, then the 5 GHz ones when included; it fails exactly when hopping is off or no channel is left |
| `Mac.MacStringInjective` | internal/state/client.go:27-29 | The text of an address, used as a map key, determines it |
| `Mac.SuffixInjective` | internal/detector/detector.go:237-244 | An address appended to a key after a colon can be read back, so composed keys determine their parts |

## Left out

- Packet capture, monitor-mode commands, CoreWLAN and the decoding of packet layers: input and output and foreign code; the model starts from parsed frames and raw element bytes.
- Storage: its behaviour lives in SQLite and in the formatting of timestamps.
- HTTP plumbing, cookies, password hashing, middleware and the dashboard: only the order of limiter calls in the login handler is kept.
- Configuration loading: its positivity checks appear as the types of the configuration fields.
- The unauthorized device rule, the whitelist, auto-learning, shutdown hooks and the access point table: simpler maps and cooldowns that would add easy members.
- Mutexes and goroutines below one step: each locked method, each frame and each hub action is atomic. In particular the lookup and the update of a probe request (internal/state/state.go:192-212), which are two critical sections, are one step.
- Nil frames and nil events; log messages; the descriptions of events, and metadata that repeats a configuration value or a field of the event.
- Liveness, the accuracy of tickers, the wrap-around of 64-bit counters and of durations, and time zones.
- BeaconFlood.EventsCountDistinctBSSIDs: not across a cleanup pass, because the pass forgets known BSSIDs on purpose.
- Flood.FloodRule.Process: the event carries every field but its formatted description and the rule's name.
- Flood.FloodRule.Handle: the same.
- EvilTwin.EvilTwinRule.Process: the event carries its mismatches as values of a datatype and leaves out the formatted description and the metadata that repeats its own fields or the configured number of beacons.
- EvilTwin.EvilTwinRule.Evaluate: the same.
- Dedup.Engine.Dispatch: takes what each registered rule made of the frame, its events or a panic, as an argument, because what a rule computes is the subject of its own module.
- BeaconFlood.BeaconFloodRule.Process: the event leaves out the formatted description and the metadata that repeats configuration values.
- ClientState.Engine.ProcessFrame: covers the client table; the access point table, which beacons and probe responses update, is a plain merge per BSSID and would add easy members.
- ClientState.Engine.Evict: covers the two passes over the client table; the pass over access points is the same filter with one cutoff.
- Hopper.NewEntries: scales the dwell with exact reals, because the rounding of a float64 product is not the point; the truncation to whole nanoseconds is kept.
- EvilTwin.EvilTwinRule.Compact: returns the selection as a new list and does not capture that the program overwrites the front of the old slice.
- Flood.FloodTracker.Record: reslicing is modelled on values, so that a later append may reuse the capacity of the slice is not captured.
- ClientState.ClientMap.Update: requires an object that the map does not own yet, as every caller passes one; that the stored BSSID slice may be shared with the frame is not captured.
