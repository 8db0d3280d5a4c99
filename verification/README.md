# kaviri-cloud, modelled and proved in Dafny

This project models the parts of kaviri-cloud whose decisions are made by arithmetic, state machines and
text formats, and proves what they promise over all inputs, all runs and all interleavings. `dafny verify
dfyconfig.toml` checks it.

- **The playground's camera.** `Simulation` turns a script into timed marks and beats, `Planner` and
  `Thinning` turn marks into zoom events, `Camera` samples them. The loops are methods proved against
  recursive functions; `PlannerFacts`, `ZoomFacts`, `ThinningFacts`, `CameraMotion`, `EaseFacts`, `Framing`,
  `SimulationFacts`, `ClickFacts`, `GlideFacts`, `BeatFacts` and `ReplayFacts` prove that no interaction is
  lost, that each is zoomed on as closely as it may be, that the camera never jumps and eases straight in and
  out, that what was clicked is in the picture, and when the replay shows what the script did.
- **The rate limiter.** `Bucket` is the arithmetic, `ClockFacts` says which clocks it may be run by, `RateLimit`
  is the durable object and the isolate's fallback map as classes, `RateLimitFacts` and `DegradedFacts`
  their bounds over whole runs.
- **The render worker and its queue.** `Supervision` is the container loop and its stop ladder, `Runner`
  the order of calls a take makes, `Leases` the queue's SQL functions as one state machine shared by any
  number of workers. `StopFacts` says why a container is stopped, `ReportFacts` what a take reports and
  `LeaseTimes` how long leases and retries last. `RunnerFacts` composes the first two: its theorems about
  silence and abandonment are about every run of the real loop. `Fleet` composes the last two: what a take
  says the queue hears, and what the queue records as done was delivered.
- **The edge.** `Canonical` prints canonical JSON, which `JsonFacts` reads back, `Idempotency` interleaves
  submissions over a stale cache and callers who see several orgs, `ConflictFacts` says when a submission is
  refused by its own job, `Cursor`, `Pagination` and `Listing` list jobs page by page, `SignedPath` mints and
  verifies links to the keys `KeyFacts` describes (over `Strings`, `Utf8`, `Base64` and `Percent`), `Range`
  and `Delivery` serve bytes through a cache, and `AnswerFacts` says what every answer is.

Times, coordinates, tokens and pixel distances are exact reals; squared distance stands for `hypot`. HMAC,
JSON.parse, the fingerprint hash, text measurement and the pointer's easing curve are arbitrary functions,
and each lemma that leans on one says what it asks of it.

## What the proofs found

Where the code and what is said of it disagree, the model follows the code.

- `docs/LIFECYCLE.md:71-74` says `complete_job` refuses an expired lease. It does not look at the expiry
  (`LeasesFacts.ExpiredHolderIsStillHeard`). Safety does not need it to: until the reaper has been by,
  nobody else can hold the job, and from then on the old holder is refused
  (`LeasesFacts.HolderIsHeardExactlyUntilReaped`).
- A requested cancel can be lost. A flagged job whose lease lapses and is reaped, or whose live holder
  reports a retryable failure, goes back to `queued` with its flag up while attempts are left, and
  `lease_next_job` skips flagged jobs. A client may also raise the flag of a queued job itself, since
  `0005_render_jobs.sql:306` grants it that column. Those are the only ways in
  (`LeasesFacts.StrandsExactlyWhen`); the job waits until the cancel is asked for again or a client takes
  the flag down (`LeasesFacts.StrandedLeavesExactlyBy`).
- One idempotency key can make two jobs. `routes/jobs.ts:222-232` looks a key up without naming the org, and
  so does the fetch at `:68-80`; a signed-in person's session (`auth.ts:139-154`) sees the rows of every org
  they belong to (`0001_foundation.sql:106-134`), while the unique index is on org and key. A member of two
  orgs can so be answered with the other org's job, and that answer is cached under this org's key; another
  caller of this org who misses the cache then creates a second job, or is told of a conflict over a key the
  org never used. It happens exactly when another org that the key's callers can see has a row under it,
  and so never to API keys (`IdempotencyFacts.GuaranteeHoldsExactlyWhen`).
- A submission can be told 409 about the very job it just created, when the defaults it hashed with are not
  those `submit_job` merges (`ConflictFacts.CreatorConflictsExactlyWhen`). There are three ways to it: the
  cache remembers older defaults, the defaults change before the insert, or, with nothing stale at all,
  `routes/jobs.ts:204-206` asks for the project by slug without naming the org, and a member of two orgs
  (`0004_projects_and_api_keys.sql:28-30`) is answered with the other org's project. Those defaults are then
  cached under this org, so its API keys can be refused as well (`ConflictFacts.OtherOrgsDefaultsRefuse`,
  `ConflictFacts.OtherOrgsDefaultsAreRemembered`).
- The branch of `classify` for a killed container can decide nothing the container loop returns
  (`RunnerFacts.KilledBranchNeverDecides`), and `classify` alone would report an abandoned take as done; the
  early return before it is what protects it (`RunnerFacts.ClassifyAloneWouldReportIt`).
- A range whose end or suffix exceeds 2^53 - 1 is answered 416 where section 14.1.2 of RFC 9110 would clamp
  it (`Range.UnsafeNumbersAreRefused`).
- `PATH_BUDGET_TOTAL` is not a cap (`ThinningFacts.TotalIsNotACap`); the lengths of the paths say when it can be
  exceeded (`ThinningFacts.LengthsCanExceedExactlyWhen`).
- The replay shows text a later beat will build on before it was typed. It is right at a moment exactly when
  every field that is yet to be typed into for the last time already shows what it will then hold
  (`ReplayFacts.ReplayAgreesExactlyWhen`): without a navigation, when no such field gains text until then
  (`ReplayFacts.ReplayAgreesWithoutGains`). A script that types twice into one field is replayed wrongly
  until its second op (`ReplayFacts.TypesTwiceIsWrongUntil`).
- The first move of a take's pointer starts inside the viewport, where the simulator has it, though the replay
  has shown it below the fold until then (`GlideFacts.PointerGoesOnwards`).
- A clock that goes back lets a bucket refill the same minute twice; the bound that holds for every clock
  counts its forward steps (`Bucket.SpendingIsBounded`). Where no single step forward fills the bucket, the
  elapsed time bounds every load exactly if the clock never goes back
  (`ClockFacts.ElapsedBoundNeedsForwardClock`).
- `mintSignedPath` rounds down the lifetime but not `maxTtlSeconds`; a ceiling with a fraction can mint a link
  that never verifies (`SignedPathFacts.MintedLinkOpensItsKey`). Its one caller, `routes/jobs.ts:340`, rounds
  it down first.
- A key holding half a surrogate pair passes `isValidObjectKey` and then cannot be minted, because encoding
  it throws (`SignedPathFacts.MintsExactlyWhen`).

## Model

| member | source | states |
|---|---|---|
| Planner.CollectTargets | playground/js/planner.js:55-77 | the target loop yields exactly one target per click or type mark that has a box, in order, each as the target function defines it |
| Planner.GrowEvent | playground/js/planner.js:81-101 | the inner merge loop swallows targets up to the first that starts after the grown event's rest and gap, measured from the event's first centre and its own pan clock |
| Planner.MergeTargets | playground/js/planner.js:79-124 | the outer loop's events and warnings are those of the recursive plan, for every list of targets and every duration |
| Planner.DurationFor | playground/js/planner.js:261-271 | the take length is the padded one; its exactness is SimulationFacts.TakeIsLongEnough |
| ZoomFacts.TargetGoesAsCloseAsItMay | playground/js/planner.js:59-76 | a boxed mark asks for the greatest zoom from 1 to 1.85 that its box's height and a margin of 15 in 100 on both axes allow, centred on the box, leaning left as far as 6 in 100 of the crop beyond it allow, and brought inside the frame |
| ZoomFacts.BiggerIsNoTighter | playground/js/planner.js:59-65 | a taller or wider box never gets a tighter zoom |
| ZoomFacts.EventZoomIsItsLoosest | playground/js/planner.js:81-101 | an event's zoom is that of one target of its own cluster, and no target of the cluster asks for a looser one |
| ZoomFacts.PlannedZoomIsAskedFor | playground/js/planner.js:51-128 | so every event of every thinned plan zooms to the least of what the marks of its cluster ask for |
| ZoomFacts.PansToTheFarTargets | playground/js/planner.js:93-98 | before its end is closed an event pans, in order, to exactly those targets of its cluster that lie more than six pixels from its first, each at its own moment or 0.04s after the waypoint before |
| ZoomFacts.EventRestsNoLonger | playground/js/planner.js:92-101 | it rests for the full hold after its last interaction, and at most one ease longer |
| ZoomFacts.MergesNeighbours | playground/js/planner.js:92 | interactions in a row less than 3.4s apart are always in one event, and 4.1s apart never |
| PlannerFacts.EventsSeparated | playground/js/planner.js:79-124 | for all targets and durations, even unsorted ones, events start in order and rest at least 0.85s apart |
| PlannerFacts.EventsPlayable | playground/js/planner.js:79-124 | every emitted event lasts two eases and a rest, has its centre and waypoints in the frame, and its waypoints at least 0.04s apart strictly inside its hold |
| PlannerFacts.PanLag | playground/js/planner.js:92-101 | the pan clock never lags the interaction it follows by more than one ease, so the event still rests a full hold after the last interaction |
| PlannerFacts.ExactlyOneCluster | playground/js/planner.js:80-123 | the clusters' ascending boundaries put every target in one cluster and no other |
| PlannerFacts.NothingLost | playground/js/planner.js:79-124 | for interactions at least 0.04s apart in a long enough take: no warning, one event per cluster, and each event is its cluster with only its end pulled in |
| Thinning.FindWorst | playground/js/planner.js:154-167 | the scan between two kept points finds the furthest waypoint, the first of equals |
| Thinning.FindBest | playground/js/planner.js:149-169 | the scan over windows finds the one whose furthest waypoint is worst, the first of equals |
| Thinning.ThinPath | playground/js/planner.js:145-175 | the splice loop ends and returns the budgeted Ramer-Douglas-Peucker reduction |
| Thinning.ThinKeepsTheShape | playground/js/planner.js:145-175 | a thinned path is an increasing pick of at most the budget with both ends, and if it stopped early every dropped waypoint is within one pixel of its window's straight pan |
| ThinningFacts.EachStepKeepsTheFurthest | playground/js/planner.js:145-175 | with budget left, the refinement keeps the dropped waypoint furthest off its gap's straight pan, the first of equals, if that is over a pixel, and is done otherwise |
| Thinning.ThinPaced | playground/js/planner.js:145-175 | thinning keeps the waypoints' spacing, their place in the frame and their identity |
| Thinning.ThinEvents | playground/js/planner.js:131-138 | the loop over events thins exactly those over the squeezed budget |
| Thinning.WaypointBudget | playground/js/planner.js:131-138 | every event keeps at most 16 waypoints and n events keep T with T <= 192, or T <= 2n, or T*T <= 16*192*n |
| ThinningFacts.AllowanceIsTheGreatest | playground/js/planner.js:131-138 | each event's allowance is sixteen while all want no more than 192, and else the greatest number that keeps what they want within sixteen times 192, or two |
| ThinningFacts.TotalBudgetKeptWhen | playground/js/planner.js:131-138 | the total budget of 192 is kept if what the events want at their own allowance fits it, and only then unless some path stops early |
| ThinningFacts.LengthsCanExceedExactlyWhen | playground/js/planner.js:131-138 | paths of given lengths can keep more than 192 waypoints, for some shape of theirs, if and only if those lengths, each cut to the allowance they get, come to more than 192 |
| ThinningFacts.TotalIsNotACap | playground/js/planner.js:51-138 | 192 is not a cap: a plan of 97 events, made from 291 boxed clicks, keeps 194 waypoints |
| Thinning.EventsFromMarks | playground/js/planner.js:51-128 | the whole planner is the merged plan with its paths thinned |
| Camera.PlannedIsPlayable | playground/js/planner.js:51-128 | every plan, for any marks and duration, meets the sampler's needs after thinning: separated, in frame, paced |
| Camera.SortedAlready | playground/js/planner.js:199 | the sampler's sort changes nothing on a plan |
| Camera.OneEventAtATime | playground/js/planner.js:200 | at most one event of a plan covers any moment |
| Camera.DrawnZoomIsSampledZoom | playground/js/timeline.js:178-190 | the timeline's inline zoom equals the sampled camera's zoom at every real moment |
| CameraMotion.PanSlow | playground/js/planner.js:211-218 | along a paced list of pan points the pan moves at most its top speed, waypoints included |
| CameraMotion.CameraIsLipschitz | playground/js/planner.js:197-236 | over all real time and every plan the centre moves at most 25 frames a second on each axis and the zoom at most 2 a second: no jump at any seam |
| EaseFacts.EasesInOnwards | playground/js/planner.js:197-236 | easing in, zoom and centre go straight on from the whole frame to the event's first view, never past it or back |
| EaseFacts.EasesOutOnwards | playground/js/planner.js:197-236 | easing out, from its last view to the whole frame |
| Framing.CropInsideFrame | playground/js/planner.js:245-254 | at every moment of every plan the crop is inside the frame, magnified between 1 and 1.85 times |
| Framing.TargetIsShown | playground/js/planner.js:55-77 | a camera at a target's clamped centre, no tighter than the target's own zoom, shows the target's whole box, for every box inside the frame |
| Framing.HoldView | playground/js/planner.js:206-222 | during the hold the camera is at the event's zoom and where its pan is held |
| Framing.HoldAtWaypoint | playground/js/planner.js:206-222 | at each waypoint's own time the pan is exactly at that waypoint |
| Framing.OpeningMarkIsFramed | playground/js/planner.js:92-101 | when the ease-in ends, and throughout a single-target hold, the crop holds the whole box of the mark whose target is the first of the event's own cluster, though later merges loosened the zoom |
| Framing.WaypointMarkIsFramed | playground/js/planner.js:92-101 | at each surviving waypoint's time the crop holds the whole box of that waypoint's own mark: the one of its event's cluster whose target's centre and pan clock made the waypoint |
| Framing.ThinnedPanIsClose | playground/js/planner.js:170-172 | when thinning stopped below its budget, the thinned pan passes within a pixel of each dropped waypoint at its own time |
| Simulation.SampleCarets | playground/js/sim.js:321-332 | the caret loop yields n caret marks at even steps of the typed span |
| Simulation.Simulate | playground/js/sim.js:98-445 | the op loop ends in the state of the stepwise run and stops at the first fatal op |
| Simulation.StateAt | playground/js/sim.js:482-552 | the replay loop folds the beats in order |
| GlideFacts.ScrollGoesOnwards | playground/js/sim.js:507-513 | while an op scrolls, the replayed page goes from the scroll the script had to the one it has after, reaching both and never turning back, evenly if it is instant, whatever comes later |
| GlideFacts.SmoothScrollIsEven | playground/js/sim.js:507-513 | a smooth scroll is halfway at half its time and slows down as it sped up |
| GlideFacts.PointerGoesOnwards | playground/js/sim.js:520-532 | while an op moves the pointer, it goes on both axes from where the script had it to where it has it after and never back, for any easing curve that rises from 0 to 1; only before the first move of all it waits below the fold |
| ClickFacts.ClickLandsInItsMark | playground/js/sim.js:190-226 | when a click on a node is marked, the replay shows the pointer in the middle of the very box that is marked, that box where the page then has the node, and the node focused exactly if it is a field |
| ClickFacts.NodeIsBroughtIntoView | playground/js/sim.js:200-205 | a node that fits the viewport is scrolled wholly into it, and to its middle where the page is long enough |
| ClickFacts.ScrollStopsAtTheEnd | playground/js/sim.js:337-367 | a scroll goes as far as it was told to and no further than the page is long |
| ClickFacts.OpTakesItsTime | playground/js/sim.js:98-445 | each op that does not fail takes exactly its own time |
| ClickFacts.CaretsFollowTheTyping | playground/js/sim.js:306-331 | text typed over more than 0.2s and a pixel is followed by its caret, a mark about every 0.12s, two to forty of them, at even steps from where it stood to where it comes to stand; anything shorter leaves only the op's own mark |
| ClickFacts.ScriptTakesItsTime | playground/js/sim.js:98-445 | and a script that does not fail takes exactly the time of its ops, a fifth of a second more if it does not say when recording starts |
| ClickFacts.OpFailsExactlyWhen | playground/js/sim.js:98-445 | an op fails exactly for what it is not given, a node that is not there, text with nowhere to land, a bad number or a wait for both or neither, and then the page and the clock stay as they were |
| SimulationFacts.ScriptIsTimed | playground/js/sim.js:98-445 | for every script, marks are in time order inside [0, script end] and boxed marks never closer than the planner's waypoint gap |
| SimulationFacts.TargetsSpaced | playground/js/sim.js:292-332 | so the targets of any script's marks are at least the planner's waypoint gap apart |
| SimulationFacts.TakeIsLongEnough | playground/js/planner.js:261-271 | the take is padded exactly to the last interaction's hold and margin, and never beyond it or below the script |
| SimulationFacts.NoInteractionIsLost | playground/js/sim.js:98-445 | planning any script's marks with its own duration warns of nothing, drops no event and no waypoint before thinning, and makes one event per cluster |
| SimulationFacts.OneEventPerInteraction | playground/js/planner.js:79-124 | every boxed mark of a script is in exactly one event of its plan |
| SimulationFacts.RunReplays | playground/js/sim.js:482-552 | after every op, replaying the beats at or after the clock gives the simulator's own scroll, text, focus and pointer |
| SimulationFacts.ReplayEndsWhereTheScriptDid | playground/js/sim.js:482-552 | once every beat has passed, replay and simulator agree on scroll, text, focus and pointer |
| SimulationFacts.ReplayLooksAhead | playground/js/sim.js:482-552 | beats still to come change nothing of the replay but the text of the fields they type into |
| BeatFacts.BeatsInOrder | playground/js/sim.js:98-445 | over any script beats never overlap, and an op's beats begin no sooner than it does |
| BeatFacts.LaterBeatsSay | playground/js/sim.js:292-332 | what the later beats remember of the text is, field by field, what it was before the last later op that types there, over any script |
| ReplayFacts.ReplayAgreesExactlyWhen | playground/js/sim.js:482-552 | for every script and every moment, inside an op or not, the replay shows the page that the beats begun by then have made exactly when each field that is yet to be typed into for the last time already shows the text it will then hold |
| ReplayFacts.SoFarBetweenOps | playground/js/sim.js:482-552 | between two ops what the beats begun by then have made is the page the script had there |
| ReplayFacts.ReplayBetweenOpsAgreesExactlyWhen | playground/js/sim.js:482-552 | and the replay shows it exactly when every field typed into later holds, at the last op that types there, the text it held there |
| ReplayFacts.TextGrows | playground/js/sim.js:292-332 | between two navigations a field keeps its text and gains exactly what ops type into it |
| ReplayFacts.TextWhileTyping | playground/js/sim.js:538-545 | while an op types, its field shows what it held before and some, but not all, of the op's text |
| ReplayFacts.ReplayAgreesWithoutGains | playground/js/sim.js:482-552 | where the script does not navigate again, the replay is right at a moment exactly when no field that is yet to be typed into for the last time gains text from the op of that moment up to that last op |
| ReplayFacts.TypesTwiceIsWrongUntil | playground/js/sim.js:544 | a script that types twice into one field is replayed wrongly at exactly the moments before its second op |
| SimulationFacts.ReplayCanRunAhead | playground/js/sim.js:544 | a script that types twice into one field shows its first text before any beat has begun |
| CanonicalFacts.CanonicalJsonIsCanonical | workers/api/src/canonical.ts:9-18 | canonical texts are equal if and only if the values are equal up to key order, undefined members and spellings of null, at every depth |
| JsonFacts.CanonicalJsonSpells | workers/api/src/canonical.ts:9-18 | the text printed is JSON, by the grammar of RFC 8259, for what the value means: names, numerals, escaped strings, lists and objects with their keys in code unit order |
| JsonFacts.EscapeReadsBack | workers/api/src/canonical.ts:10 | undoing a string's escapes by section 7 of RFC 8259 gives back the string, for every sequence of code units |
| JsonFacts.FingerprintInputSpells | workers/api/src/canonical.ts:40-42 | what is hashed is JSON for an object whose members are called script and options |
| CanonicalFacts.ValueReadsBack | workers/api/src/canonical.ts:9-18 | the printer is unambiguous: a text read from one place means one thing and stops in one place, whatever follows it |
| CanonicalFacts.StringReadsBack | workers/api/src/canonical.ts:10 | a quoted string's end and contents are determined, through short escapes, code escapes and lone surrogates |
| CanonicalFacts.SortedIsUnique | workers/api/src/canonical.ts:16 | two strictly sorted entry lists with the same keys list them in the same order, so no sort algorithm can matter |
| CanonicalFacts.ObjectsAgree | workers/api/src/canonical.ts:12-17 | objects mean the same exactly when their kept entries, in key order, do |
| CanonicalFacts.FingerprintInputDecides | workers/api/src/canonical.ts:40-42 | two submissions have one fingerprint input exactly when script and options mean the same, undefined being absence |
| CanonicalFacts.KeyOrderIsNotContent | workers/api/src/canonical.ts:8-18 | reordering an object's keys never changes its text |
| Bucket.TakeLevel | workers/api/src/bucket.ts:44-50 | a take removes its cost if granted and nothing otherwise, and is granted exactly if the refilled level covers it |
| Bucket.TokensStayInRange | workers/api/src/bucket.ts:44-50 | over any run, tokens stay between zero and the burst |
| Bucket.SpendingIsBounded | workers/api/src/bucket.ts:44-50 | between any two requests of any run, whatever the clock does, no more is granted than a burst and what the clock's forward steps refilled; if it never goes back, than a burst and the refill of the time between |
| Bucket.ForwardIsElapsed | workers/api/src/bucket.ts:45-50 | the forward steps come to the elapsed time exactly when the clock never went back, and otherwise to more |
| Bucket.RewoundClockRefillsTwice | workers/api/src/bucket.ts:45-50 | one bucket that grants twice a burst in no elapsed time, because updatedAt follows the clock back |
| ClockFacts.EmptyingSpendsAll | workers/api/src/bucket.ts:44-50 | by any clock, a load that asks each time for all there is is granted exactly a burst and what each forward step refilled, none counted for more than a full bucket |
| ClockFacts.ElapsedBoundKeptExactlyWhen | workers/api/src/bucket.ts:44-50 | a clock keeps every load within a burst and the refill of the elapsed time if and only if its forward steps, so counted, refill no more than the elapsed time |
| ClockFacts.ElapsedBoundNeedsForwardClock | workers/api/src/bucket.ts:45-50 | a clock that never goes back always does, and where no single step forward fills the bucket no other clock does |
| Bucket.RetryAfterIsExact | workers/api/src/bucket.ts:52-54 | Retry-After is the least whole number of seconds, at least one, after which the refused request is granted |
| Bucket.ResetIsExact | workers/api/src/bucket.ts:55-62 | the reset is the first whole second at which the bucket is full |
| Bucket.WholeTokensLeft | workers/api/src/bucket.ts:60 | remaining is exactly how many more unit requests would be granted at once |
| Bucket.LostWriteIsCheap | workers/api/src/do/token-bucket.ts:37-40 | losing one state write never helps the service and is worth to the caller at most what that take was granted, at any later moment |
| Bucket.SpendingWithLostWrites | workers/api/src/do/token-bucket.ts:37-40 | over any run with any number of crashes, each losing any number of the last writes, no more is granted than a burst, the refill of the time and the costs of the lost takes |
| RateLimit.TokenBucket.Fetch | workers/api/src/do/token-bucket.ts:19-51 | each answer is a take from the last stored state, which memory and storage then both hold |
| DegradedFacts.BucketIsAsAsked | workers/api/src/do/token-bucket.ts:21-36 | a bucket is kept for the rate, burst and cost asked for, each rounded down and at least one; an absent rate is 60, an absent burst the rate and an absent cost one |
| RateLimit.Serve | workers/api/src/do/token-bucket.ts:19-51 | however often the object is dropped from memory between requests, while its writes land it answers as one bucket that is never lost |
| RateLimitFacts.AnswersAreOneRun | workers/api/src/do/token-bucket.ts:19-51 | under one configuration those answers are one run of take from a full bucket |
| RateLimitFacts.DurableObjectIsBounded | workers/api/src/do/token-bucket.ts:19-51 | so what the object charges between two requests is at most a burst and the refill |
| RateLimit.DegradedConfig | workers/api/src/ratelimit.ts:100-110 | the degraded burst is one minute's rate, at least one token |
| RateLimitFacts.DegradedIsAFraction | workers/api/src/ratelimit.ts:100-110 | and never more than the real rate |
| DegradedFacts.DegradedIsTheShare | workers/api/src/ratelimit.ts:100-110 | it is the greatest whole number within the configured percentage of the real rate, 20 where none is configured and never over 100, or one token where that is nothing |
| RateLimit.Isolate.EvictIdle | workers/api/src/ratelimit.ts:125-127 | the sweep removes exactly the entries idle for two minutes, in whatever order it meets them |
| RateLimit.Isolate.RememberFallback | workers/api/src/ratelimit.ts:120-134 | a known key is found as it is; a newcomer gets a full bucket after a sweep only when the map is full, or none |
| RateLimit.Isolate.Consume | workers/api/src/ratelimit.ts:144-205 | the first durable answer of two attempts decides and leaves the map alone; otherwise one degraded step does |
| RateLimitFacts.EvictionChangesNoAnswer | workers/api/src/ratelimit.ts:82-134 | over any run with a forward clock and any degraded budgets, the bounded map answers every call it has room for as an unbounded one that never forgets |
| RateLimitFacts.MapStaysUnderCeiling | workers/api/src/ratelimit.ts:120-134 | the map never holds more than ten thousand entries |
| RateLimitFacts.NoRoomExactlyWhen | workers/api/src/ratelimit.ts:120-134 | over any run, a call is turned away for room exactly when ten thousand keys were answered within the two minutes before it and its own was not among them |
| RateLimitFacts.IsolateIsBounded | workers/api/src/ratelimit.ts:99-134 | in any window one isolate grants a key at most a minute's budget and the refill, evictions included |
| RateLimitFacts.OutageIsBounded | workers/api/src/ratelimit.ts:52-56 | n isolates together grant at most n times that |
| DegradedFacts.IsolateKeepsToItsShare | workers/api/src/ratelimit.ts:99-134 | so one isolate grants a key, in any window, at most that share of the real budget, or one token, for each minute of the window and one more |
| DegradedFacts.OutageKeepsToTheShare | workers/api/src/ratelimit.ts:52-56 | and n isolates n times that |
| Supervision.CeilingLeavesRoom | render-worker/src/backend/docker.rs:913-918 | the saturating ceiling leaves room for a full spool beside a full artifact exactly below a 2^62-byte spool cap, or when the artifact cap alone reaches the end of the range |
| Supervision.CeilingIsAQuarterMore | render-worker/src/backend/docker.rs:913-918 | below the end of the range it is the spool cap, a quarter of it and the artifact cap |
| Supervision.StopLadder.Next | render-worker/src/backend/docker.rs:892-902 | three kills, then abandonment |
| Supervision.Supervise | render-worker/src/backend/docker.rs:582-724 | the select loop is the biased step function run over the wakes its environment delivers |
| SupervisionFacts.EveryRunIsHonest | render-worker/src/backend/docker.rs:588-724 | on every run cancelled and truncated exclude each other, a full spool is a truncation, stopping means one of them, killed means at least one kill, and abandoned means three kills and no exit |
| SupervisionFacts.ReportIsHonest | render-worker/src/backend/docker.rs:726-752 | what the backend returns keeps that, with abandoned exactly when the child never ended |
| SupervisionFacts.FirstReasonStands | render-worker/src/backend/docker.rs:615-673 | why a take was stopped is decided once |
| StopFacts.FirstReasonDecides | render-worker/src/backend/docker.rs:608-672 | the first wake that is a reason to stop decides: an exit ends the loop unasked, the wall clock and a full disk ask with the render's grace, a raised cancel with five seconds, at that very moment |
| StopFacts.CancelledExactlyWhen | render-worker/src/backend/docker.rs:628-639 | a take is cancelled exactly if its cancel was up before it began or was raised, before the wall clock, while nothing else had been a reason to stop |
| StopFacts.SpoolLimitExactlyWhen | render-worker/src/backend/docker.rs:641-672 | it hit its spool limit exactly if the first reason was a disk over the ceiling |
| StopFacts.TruncatedExactlyWhen | render-worker/src/backend/docker.rs:613-626 | it was truncated exactly if the first reason was that or the wall clock |
| StopFacts.EscalatesExactlyWhenDue | render-worker/src/backend/docker.rs:684-722 | once asked to stop, each wake before the last command's time is up is passed over, the next one kills, and after three kills gives up; an exit ends it at any moment |
| StopFacts.ReportSaysHowItEnded | render-worker/src/backend/docker.rs:726-752 | the report carries the code the child exited with and the flags it had then, and fails exactly if waiting on it failed |
| SupervisionFacts.CommandsArePatient | render-worker/src/backend/docker.rs:595-722 | one stop and at most three kills are sent, each no sooner than the grace and margin or thirty seconds after the one before |
| SupervisionFacts.LoopEndsInTime | render-worker/src/backend/docker.rs:582-724 | no wake the loop sees is later than soft deadline, render grace and 120 seconds; timers that fire late cost five times their lateness |
| SupervisionFacts.FifthExpiryEnds | render-worker/src/backend/docker.rs:684-722 | the fifth timer to expire ends the loop, whatever else wakes it |
| Runner.Worker.RunInner | render-worker/src/job.rs:95-436 | the take makes exactly the calls of the call function, marks the box unhealthy exactly for an unstoppable container, and succeeds exactly if it reported and was heard |
| Runner.Worker.Deliver | render-worker/src/job.rs:321-388 | a finished take says uploading, stores its video, then its sidecar if asked, then reports |
| Runner.Worker.Fail | render-worker/src/job.rs:391-435 | a failed take stores its video only as the last word, then reports |
| Runner.Heartbeat | render-worker/src/job.rs:585-632 | the heartbeat stops at the first refusal and only there, and sends a cancel exactly for a refusal or a request seen by then |
| RunnerFacts.ReportsOnceOrNotAtAll | render-worker/src/job.rs:95-436 | every take reports once, last of all its calls, or not at all; and not at all exactly in four named cases |
| RunnerFacts.DoneMeansDelivered | render-worker/src/job.rs:321-388 | done is said only of a usable video already stored, first among the artifacts, with no error |
| RunnerFacts.SuccessHasVideo | render-worker/src/job.rs:664-727 | classification succeeds exactly with a usable video, no spool limit, and truncation or a clean unkilled exit |
| ReportFacts.DoneExactlyWhen | render-worker/src/job.rs:321-388 | done is reported exactly for a take that ran, left a fit video, filled no spool, was cut short or ended well, was heard uploading and had its video stored, with that video and the sidecar stored for it |
| ReportFacts.SidecarIsStoredExactlyWhen | render-worker/src/job.rs:349-380 | the sidecar is stored exactly for such a take that was asked for it and has it, between the video and the report |
| ReportFacts.RetriedExactlyWhenNotTheScriptsFault | render-worker/src/job.rs:664-727 | a failure may be tried again exactly if it is not the script's own: bad script or options, a full spool, no video within the limit, or a failed op |
| ReportFacts.CodeSaysWhy | render-worker/src/job.rs:664-727 | each error code is reported exactly for its own cause |
| ReportFacts.ContainsExactlyWhenMentioned | render-worker/src/script.rs:234-243 | a word is found in a message exactly if it stands there, in whatever case |
| RunnerFacts.CancelledKeepsNothing | render-worker/src/job.rs:302-317 | a cancelled report carries nothing |
| RunnerFacts.FailureCarriesNothingIfRetried | render-worker/src/job.rs:400-435 | a failure that will be retried carries nothing; one with a video is the last word and stored it first |
| RunnerFacts.UnstoppableContainerIsHandedOverBySilence | render-worker/src/job.rs:283-295 | every run of the loop that gave up leads to silence and an unhealthy box, whatever the video and flags |
| RunnerFacts.ClassifyAloneWouldReportIt | render-worker/src/job.rs:664-686 | classification alone would call such a run a success: a truncated, abandoned run with a usable video |
| RunnerFacts.KilledBranchNeverDecides | render-worker/src/job.rs:687-693 | for every outcome the container loop can return, the killed branch of classification decides nothing: no retryable job_timeout is ever reported |
| RunnerFacts.CleanExitIsDelivered | render-worker/src/job.rs:694-696 | an exit of zero with a usable video, neither cancelled nor over its spool, is reported done when the uploads succeed |
| RunnerFacts.BoxIsBoundedByItsOwnCap | render-worker/src/job.rs:236-254 | no lease row can keep a box filming past its own cap, grace and two minutes |
| LeasesFacts.EveryRunIsSound | supabase/migrations/0005_render_jobs.sql:95-108 | over any interleaving of workers, customers, reaper and clock: a lease exactly while in flight, attempts within their maximum, and at most one accepted outcome per attempt and per token |
| LeasesFacts.OnlyHoldersWereHeard | supabase/migrations/0008_worker_functions.sql:223-296 | over any interleaving, everything ever recorded was reported by the worker whose lease the job was under at that moment, on the attempt it is entered under |
| LeasesFacts.ExpiredHolderIsStillHeard | supabase/migrations/0008_worker_functions.sql:225-234 | complete_job does not look at the expiry: on a run from the empty queue a lapsed, unreaped holder still reports, though its heartbeat would be refused |
| LeasesFacts.SilentLeaseEndsExactlyWhenReaped | supabase/migrations/0009_maintenance.sql:30-66 | over any run a silent holder's lease ends exactly when the reaper comes by for its job after the lease's expiry; until then nobody else holds the job and it stands where it stood |
| LeasesFacts.HolderIsHeardExactlyUntilReaped | supabase/migrations/0008_worker_functions.sql:225-234 | so complete_job refuses a silent holder exactly when the reaper has been by since the expiry, or the report was never one it would take; a heartbeat is refused by the clock as well |
| LeasesFacts.StepForward | supabase/migrations/0005_render_jobs.sql:155-188 | every call moves a job along the trigger's own edges and never back an attempt |
| LeasesFacts.RunForward | supabase/migrations/0005_render_jobs.sql:190-233 | over any run attempts never fall, nothing accepted is lost, and terminal states stay, but for done becoming expired |
| LeasesFacts.ReportsNeverExceedAttempts | docs/LIFECYCLE.md:103-106 | no job is reported more often than it may be attempted |
| LeasesFacts.StaleTokenStaysStale | supabase/migrations/0008_worker_functions.sql:9-12 | a token that is not a job's own never becomes it again, for its heartbeats or its report |
| LeasesFacts.LeaseHoldsUntilItExpires | supabase/migrations/0009_maintenance.sql:30-39 | until its own moment has passed, nobody can take a silent worker's lease |
| LeasesFacts.LostBeatsAreSurvived | render-worker/src/config.rs:159-163 | with a lease of three beats, any beat less than three intervals after the last one heard is heard |
| LeasesFacts.QuietWorkerLosesItsJob | supabase/migrations/0009_maintenance.sql:12-47 | a worker that has gone quiet, as after an abandonment, can be reaped once its lease is over: to the queue while attempts remain, else to failed |
| LeasesFacts.OfferedUnlessCancelled | supabase/migrations/0008_worker_functions.sql:68-83 | a queued job is offered again in time exactly if no cancel was asked for |
| LeaseTimes.NewJobIsOfferedAtOnce | supabase/migrations/0005_render_jobs.sql:60 | a new job that may be attempted one to ten times is offered at once, and no other is taken |
| LeaseTimes.LeaseLastsAsAsked | supabase/migrations/0008_worker_functions.sql:51-92 | a lease is a new attempt under a token nobody had, and lasts as long as was asked, between 15 and 900 seconds, or 120 |
| LeaseTimes.BeatRenews | supabase/migrations/0008_worker_functions.sql:142-156 | a heard heartbeat makes it last so long again from then |
| LeaseTimes.RetryIsOfferedExactlyAfter | supabase/migrations/0008_worker_functions.sql:297-302 | whatever else the queue does, a job handed back is offered again 15, 60, then 240 seconds later and not before |
| LeaseTimes.ReapedIsOfferedExactlyAfter | supabase/migrations/0009_maintenance.sql:41-44 | and a reaped one ten seconds later for each attempt it has had |
| LeasesFacts.StrandsExactlyWhen | supabase/migrations/0009_maintenance.sql:41-66 | a job comes to wait in the queue with its cancel flag up by exactly these calls: the reap of its lapsed lease or its holder's retryable failure, flagged and with attempts left, or a client raising the flag of a queued job |
| LeasesFacts.StrandedLeavesExactlyBy | supabase/migrations/0005_render_jobs.sql:306 | and leaves by exactly two: the cancel asked for again, which cancels it, or the flag taken down by a client |
| LeasesFacts.StrandedStays | supabase/migrations/0008_worker_functions.sql:68-83 | until then, over any run, it stays as it is and is offered to nobody |
| LeasesFacts.LostCancelStrands | supabase/migrations/0009_maintenance.sql:41-66 | so from such a call on a requested cancel takes no effect until it is asked for again or taken back |
| Fleet.SilentTakeIsUnheard | render-worker/src/job.rs:263-295 | once its container is found unstoppable, or its lease lost, the queue hears nothing more of the take among everybody's calls |
| Fleet.RefusedTakeIsUnheard | render-worker/src/job.rs:585-632 | nor after a refused heartbeat, which is what loses the lease |
| Fleet.AbandonedTakeComesBack | render-worker/src/job.rs:283-295 | so once the lease such a take last had is over, its job can be reaped from under it, to the queue while attempts remain, else to failed, and its token is worth nothing |
| Fleet.ConversationIsAllowed | render-worker/src/job.rs:95-436 | every call a take makes, beats included, is an edge the queue's trigger allows from where the calls before it left the job |
| Fleet.LiveTakeIsHeard | render-worker/src/job.rs:95-436 | whatever every other worker, client and reaper does, each call of a take that finds its lease live and unexpired is accepted |
| Fleet.DoneWasDelivered | render-worker/src/job.rs:321-388 | over any run of the queue, where it records a job done under a token that only a take spoke with, the take had stored a usable video before it said so |
| IdempotencyFacts.SuccessIsFingerprinted | workers/api/src/routes/jobs.ts:109-181 | under any interleaving and any stale or missing cache answer, a success names a job under the request's own key with the request's fingerprint, in its org or in one that a request under the key could see |
| IdempotencyFacts.OneKeyOneJob | workers/api/src/routes/jobs.ts:109-181 | if no request under an org's key can see that key in another org, as none with an API key can, its successes name one job and carry one fingerprint |
| IdempotencyFacts.ForeignRowMakesTwoJobs | workers/api/src/routes/jobs.ts:222-232 | otherwise, for any project and script, one submission by someone who sees both orgs and one by someone who sees only this one succeed under one key with two jobs |
| IdempotencyFacts.GuaranteeHoldsExactlyWhen | workers/api/src/routes/jobs.ts:222-232 | from any reachable state, some run of an org's requests makes two jobs under a key if and only if another org that its callers can see has a row under that key |
| IdempotencyFacts.ConflictIsReal | workers/api/src/routes/jobs.ts:121-158 | every conflict is about a job that stands under that key with another fingerprint, and about the org's own if the key is not seen in another org |
| IdempotencyFacts.CacheTellsTheTruth | workers/api/src/routes/jobs.ts:216-220 | every record ever cached under a key names a job with that key and its own fingerprint, of the org or of one that a request under the key could see, for good |
| ConflictFacts.CreatorConflictsExactlyWhen | workers/api/src/routes/jobs.ts:117-158 | whatever happens between a request's read of its defaults and its insert, the request that makes its key's job is refused by that job, and leaves it behind, exactly when what it read hashes otherwise than what its own project then has |
| ConflictFacts.LoneSubmissionConflictsExactlyWhen | workers/api/src/routes/jobs.ts:112-158 | the same for a submission that sees no row under its key, from the cache or from any visible project of that name, with any change of defaults in between |
| ConflictFacts.EveryReadAgreesExactlyWhen | workers/api/src/routes/jobs.ts:199-214 | no read that a request can make refuses it so exactly when all its org's cache remembers for the project, and the project of that name in every org it sees, hash as its own project's defaults do |
| ConflictFacts.OtherOrgsDefaultsRefuse | workers/api/src/routes/jobs.ts:204-206 | with nothing cached and nothing changed, the first submission by someone who belongs to another org with a project of that name is refused by its own job exactly when that org's defaults matter to the hash |
| ConflictFacts.OtherOrgsDefaultsAreRemembered | workers/api/src/routes/jobs.ts:210-213 | and from then on the org's cache may answer its API keys with those defaults, which can refuse them too |
| Strings.SplitOfJoin | workers/dl/src/sign.ts:121-127 | splitting undoes joining for parts without the separator |
| Strings.JoinOfSplit | workers/dl/src/sign.ts:121-127 | joining undoes splitting for every text |
| Utf8.Utf8RoundTrip | workers/dl/src/sign.ts:25 | text without lone surrogates survives UTF-8 |
| Base64.BinaryString | workers/api/src/validate.ts:421-423 | the encoder's loop copies the bytes |
| Base64.FillBytes | workers/api/src/validate.ts:430-431 | the decoder's loop fills its buffer with the string |
| Base64.Base64UrlRoundTrip | workers/api/src/validate.ts:420-433 | base64url text decodes to the bytes it was made from, for all bytes |
| Percent.EncodeRoundTrip | workers/dl/src/sign.ts:121-127 | decoding a component undoes encoding it, through multi-byte characters |
| Percent.EncodesExactlyWhenPaired | workers/dl/src/sign.ts:121-123 | a component encodes exactly when no half of a surrogate pair is alone in it |
| SignedPath.TimingSafeEqual | workers/dl/src/sign.ts:84-89 | the accumulating comparison is string equality |
| SignedPath.TryAll | workers/dl/src/sign.ts:224-230 | the loop over every secret matches exactly if one of them signs the same |
| SignedPath.VerifySignedPath | workers/dl/src/sign.ts:198-240 | verification gives the answer, or the first failure in its order, of the specification |
| SignedPathFacts.MintsExactlyWhen | workers/dl/src/sign.ts:158-177 | a link is minted exactly for a valid key without a lone surrogate and a secret, and lives one second to the lesser of a year and the caller's ceiling |
| SignedPathFacts.LinkLivesAsLongAsItMay | workers/dl/src/sign.ts:166-169 | it lives as long as the whole seconds asked for, a year and the caller's ceiling all allow, and a second where they allow no more |
| KeyFacts.ValidKeyExactlyWhen | workers/dl/src/sign.ts:97-105 | a key may be signed exactly if it is 1 to 1024 units long, holds no control character, and splits into no empty part and into nothing that removing dot segments as RFC 3986 does would change |
| KeyFacts.MessageIsThreeLines | workers/dl/src/sign.ts:107-109 | what is signed is the scheme's name and version, the expiry and the key, a line each |
| SignedPathFacts.ReadableKeyStays | workers/dl/src/sign.ts:121-123 | a key of unreserved characters encodes to itself |
| SignedPathFacts.MintedLinkOpensItsKey | workers/dl/src/sign.ts:158-240 | with its secret anywhere in the list a minted link verifies to its own key and expiry until then and is expired from then on; it is malformed exactly if its expiry is past twelve base-36 digits or ends on a fraction |
| SignedPathFacts.ExpiryIsWholeExactlyWhen | workers/dl/src/sign.ts:166-170 | the expiry has a fraction exactly when the caller's ceiling has one and lies over a second, under a year and under the whole seconds asked for |
| SignedPathFacts.Base36RoundTrip | workers/dl/src/sign.ts:170-233 | the expiry segment parses to the expiry it prints |
| SignedPathFacts.KeyRoundTrip | workers/dl/src/sign.ts:121-133 | a key comes back from the segments of its encoding |
| SignedPathFacts.MessageDecides | workers/dl/src/sign.ts:107-109 | the signed bytes decide the expiry segment and the key |
| SignedPathFacts.AcceptedElsewhereIsACollision | workers/dl/src/sign.ts:198-240 | a signature issued for one expiry and key is accepted for no other pair unless the MAC gives two different messages one digest |
| SignedPathFacts.RespelledExpiryIsAnotherMessage | workers/dl/src/sign.ts:20-23 | a different spelling of an expiry is a different message |
| Cursor.CursorRoundTrip | workers/api/src/validate.ts:405-418 | decoding a cursor undoes encoding it, whatever the two strings hold |
| Cursor.CursorTextIsInjective | workers/api/src/validate.ts:405-407 | no two positions are written alike |
| Pagination.ExpandStatuses | workers/api/src/routes/jobs.ts:260-270 | the expanded database states are exactly those shown under an asked-for status |
| Pagination.PageIsExact | workers/api/src/routes/jobs.ts:280-289 | a page holds the newest wanted rows up to the limit, has a cursor exactly if it left a wanted row out, and that cursor wants exactly the rows left out |
| Pagination.FilterIsExact | workers/api/src/routes/jobs.ts:257-270 | a listing is filtered to exactly the rows of the asked project under the asked statuses |
| Pagination.NoRowTwice | workers/api/src/routes/jobs.ts:241-290 | following the cursor to the end lists strictly descending rows, whatever the table did between pages |
| Pagination.NothingIsSkipped | workers/api/src/routes/jobs.ts:241-290 | every row there and matching at each request is listed |
| Pagination.StayedRowsAreListedOnce | workers/api/src/routes/jobs.ts:241-290 | such a row is listed exactly once |
| Listing.TextFollowsKeys | workers/api/src/validate.ts:405-418 | sending back the cursor text of each page is following its keys: no cursor this service issued is refused or read as another |
| Listing.ClientListsStayedRowsOnce | workers/api/src/routes/jobs.ts:241-290 | so a client that does lists every row that stayed exactly once, in descending order |
| Range.ParsesWhatIsNamed | workers/dl/src/range.ts:28-75 | for safe integers, a satisfied range is inside the object and exactly the bytes the standard says it names, and a range is satisfied exactly if it names any |
| Range.PartialIsInside | workers/dl/src/range.ts:28-75 | whatever the numbers, 0 <= start <= end < size |
| Range.UnsafeNumbersAreRefused | workers/dl/src/range.ts:55-70 | past the safe integers a range that names bytes is refused as unsatisfiable, exactly when the unsafe number is its end or its suffix |
| Range.RangeRoundTrip | workers/dl/src/range.ts:28-75 | a written range is parsed as itself |
| Range.RangesReassemble | workers/dl/src/range.ts:92-94 | back-to-back ranges read as one, with no byte lost or repeated at the seam |
| Delivery.ClientMaxAge | workers/dl/src/index.ts:109-112 | the age is at most a year and at most the link's remaining life |
| Delivery.Sanitised | workers/dl/src/http.ts:113-116 | a filename is never empty, at most 120 characters, all of them safe |
| Delivery.Edge.Answer | workers/dl/src/index.ts:240-339 | the handler answers as specified and leaves only a full, cacheable object's copy to be stored |
| DeliveryFacts.HitAnswersAsMiss | workers/dl/src/index.ts:291-338 | a stored copy of an object answers any request for it as the bucket would, but for X-Kaviri-Cache |
| DeliveryFacts.CacheKeyIsInjective | workers/dl/src/index.ts:85-88 | one cache key is one object on one host |
| DeliveryFacts.CacheIsInvisible | workers/dl/src/index.ts:240-339 | after any requests, late or lost puts and evictions over immutable objects, an answer is the one an empty cache would give, but for X-Kaviri-Cache |
| AnswerFacts.AnswerIsTheObject | workers/dl/src/index.ts:240-339 | over such runs the answer is 404 exactly for what is not there, 304 exactly for a tag the client has, and else the one its range asks for; a whole object, cached or not, is that object's bytes, with its length, tag and type |
| AnswerFacts.TagMatchesExactlyWhen | workers/dl/src/index.ts:90-95 | If-None-Match matches a strong tag exactly if an entry of its list is that tag, weak or strong and however padded, or all of it is a star |
| AnswerFacts.StoredExactlyWhen | workers/dl/src/index.ts:318-333 | a whole object is left to be stored exactly if there is a cache, it is not empty and within its size, and the edge may keep it for a time, and the answer says miss exactly then |
| AnswerFacts.StoredIsHit | workers/dl/src/index.ts:291-308 | and once stored it is what the next request on that host is answered from |
| AnswerFacts.OnlyEightTypesAreShown | workers/dl/src/http.ts:71-106 | an object is shown as one of eight types or handed back as an opaque attachment |
| AnswerFacts.FileKeepsItsName | workers/dl/src/http.ts:93-116 | a safe file name is kept, and is the key's last segment |
| AnswerFacts.KeptForTheLinksLife | workers/dl/src/index.ts:109-112 | a client may keep an answer for exactly the link's remaining life, up to a year |
| DeliveryFacts.PartialIsExact | workers/dl/src/index.ts:274-284 | a 206 carries exactly the bytes its Content-Range names, inside the object, and their count |
| DeliveryFacts.NoAnswerOutlivesItsLink | workers/dl/src/index.ts:109-112 | whatever the cache holds, every answer carries its own request id and may be kept no longer than its link lives, or not at all |
| DeliveryFacts.HeadTellsWhatGetWould | workers/dl/src/index.ts:253-257 | HEAD gives GET's status and headers, but for X-Kaviri-Cache, and no body |

## Left out

- Floating point: reals are exact, so rounding in the planner, the bucket and `parseInt` of segments above 2^53 is not modelled.
- The playground's canvas, DOM, cursor ripples and presses, step list, notes, script parsing and the page's own layout; a scene is any map from selectors to boxes.
- Labels of scroll and wait marks, which nothing reads; a script's text is counted in characters.
- `eventsFromMarks` and its helpers update event objects in place; here they build new values, since nothing else holds those objects. Frame sizes are positive.
- Docker, ffprobe, disks and networks: they are whatever exit, size or answer they give.
- The watchdog's disk measurement takes time in the program and none in the model; a late wake covers it.
- Report messages, error details, log lines and render-second metering.
- Supervision.Supervise: it is given the wakes of its environment as a sequence, because an async select has no counterpart; the environment is any sequence.
- The queue's concurrency limit per org, its ordering by priority, artifact rows and retention; a lease may be offered for any eligible job, and every call is one transaction.
- Row deletion, entitlements, validation and usage counters around `submit_job`. Which orgs a caller can see does not change during one request.
- KV and storage transport beyond stale, missing and failed answers; the queue nudge after a submission.
- RateLimit.Serve: takes every storage write to land before the object is dropped; writes that are lost are bounded over runs of `take` by Bucket.SpendingWithLostWrites.
- RateLimitFacts.DurableObjectIsBounded: states the bound for one configuration per object, as a plan change in mid-window moves the bound with it.
- ThinningFacts.TotalBudgetKeptWhen: one half holds only while no path stops early, since a path that stops early keeps as many waypoints as its own shape needs; ThinningFacts.LengthsCanExceedExactlyWhen is exact over all shapes.
- Minting at a moment that is not a whole second, which production never does.
- URL parsing before `verifySignedPath`; a pathname is any text, ASCII where the collision lemma needs it, as `URL.pathname` is.
- SignedPathFacts.AcceptedElsewhereIsACollision: states a reduction to a MAC collision, because no function to 256 bits is injective.
- TextDecoder's replacement of malformed bytes is a single U+FFFD here rather than one for each bad run.
- Preflight, health, method and signature errors of the download worker, and its environment parsing; `DL_EDGE_CACHE_SECONDS` and `DL_CACHE_MAX_BYTES` are natural numbers.
- Redaction, options, error mapping, retention classes and response shaping: single-branch facts that would only add easy members.
