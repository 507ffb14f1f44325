# jerrycan: verified models of its hard parts

A Dafny model of five components of the jerrycan web framework, with proofs of what they are for.
`dafny verify dfyconfig.toml` checks everything.

- **Multipart** (`Search`, `Text`, `PartHeaders`, `HeaderText`, `MultipartParser`, `MultipartStream`, `MultipartChunks`,
  `MultipartRoundTrip`, `MultipartReader`): the incremental form-data parser as a mutable state machine, proved
  against a value-level step function, and whole runs of it against a reference parse of the undivided body.
- **Cron and civil time** (`Civil`, `CronField`, `CronSchedule`, `CronText`, `CronFiring`): integer calendar arithmetic,
  the field parser, the two scans and how long a schedule can take to fire.
- **Job queue** (`JobStore`, `JobRuns`, `Worker`, `Fleet`, `FleetTheft`, `FleetPosition`, `CronLeader`, `RedisStore`,
  `RedisPlacement`, `RedisRefinement`, `RedisOrder`): the in-memory store as the reference, runs of arbitrary callers, a fleet of
  workers, cron leaders, and the Redis scripts as atomic steps that refine the reference.
- **Realtime hub** (`Channel`, `Presence`, `HubSpec`, `Hub`, `HubSafety`, `HubPresence`, `HubPhantom`, `HubDrops`,
  `HubShown`, `HubSharedKey`, `HubReach`): thirteen operations of a node as a relation, the mutable hub proved to be it, and runs of them on
  any number of nodes, each with connections, a presence map and an inbox on one totally ordered bus.
- **Routes and limits** (`Paths`, `RouteTrie`, `Router`, `RouteText`, `Deps`, `AppModule`, `RateLimit`): the segment trie against
  the list of patterns, module flattening against the module tree, the fixed-window counter against the log of hits.

Code that updates state in place is modelled by classes and loops, each proved equal to a specification function;
the properties are proved about those functions, over every input and every run. `now`, the replies of the Redis
server, a store error and the outcome of running a job are parameters.

## Where the code and its documentation part

Each of these is a theorem with the exact condition, not a reading of a comment.

- The chunking of a body can change what is parsed: by a bare boundary inside the preamble, or a header block past the
  cap (`ChunkInvariance`, `ChunkingCanMatter`). Buffering a body first can change which error is reported
  (`BufferedLaneAgrees`, `BufferingCanMatter`).
- The header scan cursor is documented as reset on every hit, but is reset only after the block parses. A caller that
  asks a reader for the next part again after such an error can make it panic (`PollAfterHeaderError`,
  `AskedAgainItPanics`); runs in the model therefore end at their first error.
- "Four years guarantees a leap day has been seen" fails from 1 March 2096 on (`WindowSuffices`,
  `LeapDayScheduleStillFires`, `SentinelIsWrongExactly`).
- "A still-running job is never reclaimed" holds exactly when `batch * exec_timeout` fits the effective lease; it
  does not for the defaults (`LeaseRuleIsExact`, `DefaultsAndSingles`). That (j+1) timeouts fit protects the j-th job of
  a batch only until the first job is taken from some worker (`CoveredPositionsAreSafe`): after that a stale worker can
  put a job back while it runs elsewhere, since settling carries no lease token (`PositionRuleIsExact`,
  `PositionRuleWithoutRequeues`).
- Slow consumers of a broadcast are removed without their presence leaves, although every other drop path publishes
  them (`BareRemovalIsExact`, `PhantomIsReached`).
- Connections of one user share a presence key, so the first to leave takes the user off the display
  (`ShownExactlyFromFresh`, `TeardownIsExact`, `FirstToLeaveTakesOff`).
- The limiter cuts its window to whole milliseconds, so "twice the limit per window" needs the cut to be at most one
  nanosecond (`TwiceIsExact`).
- A Redis job enqueued under the empty idempotency key reads back with no key (`EnqueueRefines`), and a lease with more
  candidates than room need not take the ones the reference takes (`ClaimsAgreeWithRoom`, `OrdersCanDiffer`).

## Model

| member | source | states |
|---|---|---|
| `MultipartChunks.ChunkInvariance` | crates/jerrycan-core/src/multipart.rs:86-220 | all cuttings of a body into chunks give the same merged events and outcome if and only if, from each offset at which a cutting may leave the preamble, no header block is over-long and the rest of the body means the same |
| `MultipartChunks.PremisesSuffice` | crates/jerrycan-core/src/multipart.rs:86-220 | no stray bare boundary in the preamble and every header block within the cap is enough for that |
| `MultipartChunks.StrayCanBeHarmless` | crates/jerrycan-core/src/multipart.rs:92-111 | but not necessary: a body with a stray boundary that every cutting parses alike |
| `MultipartChunks.DifferenceIsSeen` | crates/jerrycan-core/src/multipart.rs:86-220 | where the condition fails, a cutting whose trace differs from that of the whole body |
| `MultipartChunks.ChunkingCanMatter` | crates/jerrycan-core/src/multipart.rs:92-111 | a body for which it fails: fed whole it has no boundary, cut before its last byte it is a complete form |
| `MultipartChunks.WholeBodyRun` | crates/jerrycan-core/src/multipart.rs:86-220 | fed whole, a run is always the reference parse from the first boundary |
| `MultipartChunks.BoundaryInvariance` | crates/jerrycan-core/src/multipart.rs:86-220 | all cuttings also take the same first boundary if and only if the two simple conditions hold |
| `MultipartChunks.EveryChunking` | crates/jerrycan-core/src/multipart.rs:86-220 | under those two conditions every chunking shows what a buffer-free reference parse of the whole body says |
| `MultipartChunks.StrayIsSeen` | crates/jerrycan-core/src/multipart.rs:92-111 | a stray bare boundary in the preamble is taken for the first boundary by some two-chunk cutting |
| `MultipartChunks.OverlongIsSeen` | crates/jerrycan-core/src/multipart.rs:161-191 | an over-long header block, accepted when fed whole, always has a two-chunk cutting that rejects it |
| `MultipartChunks.BufferedLaneAgrees` | crates/jerrycan-core/src/multipart.rs:355-367 | a body buffered first parses as the same body streamed whole, except exactly when its only boundary is a bare one a byte before the end |
| `MultipartChunks.BufferingCanMatter` | crates/jerrycan-core/src/multipart.rs:355-367 | a body on which the two lanes report different errors |
| `MultipartChunks.PollAfterHeaderError` | crates/jerrycan-core/src/multipart.rs:168-174 | after a header block fails to parse, the next poll slices out of range exactly when the stale scan cursor passes what is left |
| `MultipartReader.AskedAgainItPanics` | crates/jerrycan-core/src/multipart.rs:377-410 | a fresh reader, a body in two chunks: the first next_part fails on the bad header block, the second panics |
| `MultipartReader.PullMeaning` | crates/jerrycan-core/src/multipart.rs:414-444 | from an honest state a pull gives the head of the run and never stalls or crashes |
| `MultipartReader.PullConsumes` | crates/jerrycan-core/src/multipart.rs:414-444 | from any state, every event but the last consumes input |
| `MultipartStream.RunIs` | crates/jerrycan-core/src/multipart.rs:86-220 | from any honest state past the preamble a run over any chunks is the reference parse of the bytes ahead |
| `MultipartParser.ScanIsComplete` | crates/jerrycan-core/src/multipart.rs:161-169 | resuming the blank-line scan three bytes before the cursor finds what a scan from 0 finds |
| `MultipartParser.NextKeeps` | crates/jerrycan-core/src/multipart.rs:79-220 | every event but the last consumes input; waiting never follows end of input and leaves at most max(delimiter - 1, header cap + 1) bytes; no slice is out of range |
| `MultipartParser.Parser.NextEvent` | crates/jerrycan-core/src/multipart.rs:86-220 | the mutable state machine computes the specified step |
| `MultipartParser.Parser.InPreamble` | crates/jerrycan-core/src/multipart.rs:90-115 | the preamble branch: bare boundary at offset 0, first delimiter, holdback |
| `MultipartParser.Parser.InAfterBoundary` | crates/jerrycan-core/src/multipart.rs:116-160 | the boundary line: padding cap, closing dashes, part count |
| `MultipartParser.Parser.InHeaders` | crates/jerrycan-core/src/multipart.rs:161-193 | the header branch with its resumed scan and cap |
| `MultipartParser.Parser.InBody` | crates/jerrycan-core/src/multipart.rs:194-217 | the data branch with its delimiter holdback |
| `Search.FindIs` | crates/jerrycan-core/src/multipart.rs:223-228 | the first occurrence is the one offset that matches with none before it |
| `MultipartReader.RunGrammar` | crates/jerrycan-core/src/multipart.rs:79-220 | the trace is a prefix of (PartHeaders Data* EndOfPart)* Done, has at most as many events as bytes, and neither stalls nor crashes |
| `MultipartReader.BytesAreChunkFree` | crates/jerrycan-core/src/multipart.rs:491-505 | a part read whole, with its cap, does not depend on how its data was cut |
| `MultipartReader.Multipart.PullEvent` | crates/jerrycan-core/src/multipart.rs:414-444 | in any state, after errors too, feeds the parser as it asks and reports what it polls; from an honest state that is the head of the run |
| `MultipartReader.Multipart.NextPart` | crates/jerrycan-core/src/multipart.rs:377-410 | returns the next part of the trace after skipping the rest of the current one; its internal-error arms are unreachable |
| `MultipartReader.Multipart.Chunk` | crates/jerrycan-core/src/multipart.rs:469-488 | returns the data of the current part piece by piece up to its end |
| `MultipartReader.Multipart.Bytes` | crates/jerrycan-core/src/multipart.rs:491-505 | the concatenated data of the part, or too-large exactly when it passes the cap |
| `MultipartRoundTrip.RoundTrip` | crates/jerrycan-core/src/multipart.rs:194-284 | parts of any lawful header lines, whose data is free of the delimiter, printed behind any preamble, with padding after boundaries and any epilogue, and delivered in any chunks, are read back exactly; the first part beyond 256 is the too-many error |
| `MultipartRoundTrip.DataEndsAtDelimiter` | crates/jerrycan-core/src/multipart.rs:194-217 | with no CR inside the boundary, the first delimiter after the data is exactly where the data ends |
| `MultipartRoundTrip.BoundaryRoundTrip` | crates/jerrycan-core/src/multipart.rs:535-562 | every valid boundary survives being quoted into a content type, and being written plainly unless it starts with a space |
| `MultipartRoundTrip.BoundaryMeans` | crates/jerrycan-core/src/multipart.rs:535-562 | of a content type in any letter case, with any spacing, with other parameters around, quoted or not: it has a boundary exactly when it is form-data and the first parameter called boundary is valid |
| `MultipartRoundTrip.BoundaryFromContentType` | crates/jerrycan-core/src/multipart.rs:535-562 | the first boundary parameter decides, and what is returned is a valid boundary |
| `HeaderText.HeadersRoundTrip` | crates/jerrycan-core/src/multipart.rs:230-263 | a printed header block, under any spelling of the two field names up to letter case, parses to the name, filename and content type it was printed from |
| `HeaderText.HeadersMean` | crates/jerrycan-core/src/multipart.rs:230-263 | of any lines as a client may write them (field names in any case, whitespace, parameters quoted or plain in any order, repeated or unknown fields, empty lines): a line without a colon spoils the block, and otherwise the last name, filename and content type written are what is read, and a name is required |
| `HeaderText.MarkedUnescapes` | crates/jerrycan-core/src/multipart.rs:266-284 | a backslash before any characters, and at least before each backslash, is removed again |
| `PartHeaders.ParsePartHeaders` | crates/jerrycan-core/src/multipart.rs:230-263 | the header loop is the fold over the lines of which HeadersMean says what it reads |
| `PartHeaders.Unquote` | crates/jerrycan-core/src/multipart.rs:266-284 | the backslash loop computes the specified unescaping |
| `HeaderText.UnescapeEscape` | crates/jerrycan-core/src/multipart.rs:266-284 | unescaping undoes escaping for every string |
| `PartHeaders.BlockErrorsAreMalformed` | crates/jerrycan-core/src/multipart.rs:230-263 | a header block can fail only as malformed |
| `Text.DecodeEncode` | crates/jerrycan-core/src/multipart.rs:230-232 | strict UTF-8 decoding undoes encoding for every string |
| `Text.EncodeDecode` | crates/jerrycan-core/src/router.rs:188-188 | only the shortest form of each character decodes: no two byte strings decode to one text |
| `Civil.CivilIsRight` | crates/jerrycan-jobs/src/cron.rs:74-104 | for every day number the arithmetic gives a valid Gregorian date, and the one with that day number |
| `Civil.CivilInverts` | crates/jerrycan-jobs/src/cron.rs:74-104 | every valid date is the decomposition of its own day number |
| `Civil.CivilAdvances` | crates/jerrycan-jobs/src/cron.rs:74-104 | the next day number gives the calendar successor, and the weekday advances by one modulo 7 |
| `Civil.InstantIsRight` | crates/jerrycan-jobs/src/cron.rs:74-104 | the whole instant: date, weekday, hour, minute rebuild the seconds |
| `Civil.ClockAgrees` | crates/jerrycan-core/src/clock.rs:45-65 | the clock module and cron agree on all non-negative seconds |
| `CronField.FieldMeaning` | crates/jerrycan-jobs/src/cron.rs:234-260 | an accepted field is the strictly ascending list of exactly the values its elements denote, never empty, never out of range |
| `CronField.ExpandMeaning` | crates/jerrycan-jobs/src/cron.rs:263-314 | a stepped range expands to exactly its members |
| `CronField.StarMeaning` | crates/jerrycan-jobs/src/cron.rs:263-314 | a star is the whole range |
| `CronField.ParseElement` | crates/jerrycan-jobs/src/cron.rs:263-314 | the element loop, with its saturating 8-bit counter, appends exactly the expansion or returns the first complaint |
| `CronField.ParseField` | crates/jerrycan-jobs/src/cron.rs:234-260 | the field loop computes the specified values or error |
| `CronSchedule.ParsedIsWellFormed` | crates/jerrycan-jobs/src/cron.rs:113-135 | every schedule that parses has non-empty sorted in-range fields, and an unrestricted field is full; what each field holds is ExpressionMeans |
| `CronText.ExpressionMeans` | crates/jerrycan-jobs/src/cron.rs:113-219 | an expression of five fields, however spaced, parses exactly if every element is legal for its field, and then matches a minute exactly if words 0, 1 and 3 name its minute, hour and month and its day obeys words 2 and 4: the one that is not a star, either if neither is, any day if both are |
| `CronText.AcceptedExactly` | crates/jerrycan-jobs/src/cron.rs:113-135 | every text: accepted exactly if it has five words, each the text of legal elements of its range |
| `CronText.FiveWords` | crates/jerrycan-jobs/src/cron.rs:113-121 | any other number of words is the field-count error, and only that |
| `CronText.FieldReads` | crates/jerrycan-jobs/src/cron.rs:234-260 | a list of elements as written is accepted exactly if all are legal, and holds exactly the values some element names |
| `CronText.ElementReads` | crates/jerrycan-jobs/src/cron.rs:263-314 | a star, number or range with an optional step is accepted exactly if its numbers are in order and in range and its step is 1 to 255 (1 on a single number), and spans exactly the values it names |
| `CronText.AcceptedIsShaped` | crates/jerrycan-jobs/src/cron.rs:263-314 | no other text is accepted as an element |
| `CronSchedule.NextAfter` | crates/jerrycan-jobs/src/cron.rs:142-161 | the forward scan returns the least matching minute after t within the window, else the sentinel |
| `CronSchedule.PrevAtOrBefore` | crates/jerrycan-jobs/src/cron.rs:174-196 | the backward scan returns the greatest matching minute at or before t within the window |
| `CronSchedule.FirstMatch` | crates/jerrycan-jobs/src/cron.rs:142-161 | the least matching minute: it matches and none before it does |
| `CronSchedule.LastMatch` | crates/jerrycan-jobs/src/cron.rs:174-196 | the greatest matching minute: it matches and none after it does |
| `CronSchedule.ScansSpanFourYears` | crates/jerrycan-jobs/src/cron.rs:142-196 | in seconds: the forward scan finds a tick exactly if there is one within four years of 366 days after the instant, and it is the first; the backward scan likewise, up to and including the instant, and it is the last |
| `CronSchedule.ScansMirror` | crates/jerrycan-jobs/src/cron.rs:142-196 | a found next tick is its own most recent tick |
| `CronSchedule.NothingBetween` | crates/jerrycan-jobs/src/cron.rs:142-196 | nothing becomes due between an instant and its next tick |
| `CronFiring.FiringBound` | crates/jerrycan-jobs/src/cron.rs:113-161 | a schedule that restricts the weekday or permits a date of every year fires within 366 days of any instant |
| `CronFiring.NextDate` | crates/jerrycan-jobs/src/cron.rs:202-219 | a given month and day recurs within 366 days |
| `CronFiring.NextWeekdayInMonth` | crates/jerrycan-jobs/src/cron.rs:202-219 | a given weekday in a given month recurs within 365 days |
| `CronFiring.WindowSuffices` | crates/jerrycan-jobs/src/cron.rs:19-25 | the search finds a tick from every instant if and only if the schedule restricts the weekday or permits a date of every year |
| `CronFiring.LeapOnlyMisses` | crates/jerrycan-jobs/src/cron.rs:19-25 | every other schedule gets the sentinel on 1 March 2096 |
| `CronFiring.SentinelIsWrongExactly` | crates/jerrycan-jobs/src/cron.rs:142-161 | for such schedules, exactly which instants get the sentinel although the schedule fires again: those with no permitted minute of a 29 February in the search window |
| `CronFiring.LeapDayScheduleStillFires` | crates/jerrycan-jobs/src/cron.rs:19-25 | counterexample: the leap-day schedule gets the sentinel in 2096 and matches in 2104 |
| `JobStore.LeaseIsExact` | crates/jerrycan-jobs/src/store.rs:238-284 | a job is claimed if and only if it is due and fewer than max due jobs come before it by (run_at, id) |
| `JobStore.RankedMeaning` | crates/jerrycan-jobs/src/store.rs:238-284 | the claim order is a sorted enumeration of exactly the due ids |
| `JobStore.InMemoryStore.EnqueueJob` | crates/jerrycan-jobs/src/store.rs:205-236 | one new row and key under a fresh id, or the id that already has the key |
| `JobStore.InMemoryStore.LeaseJobs` | crates/jerrycan-jobs/src/store.rs:238-284 | the first max due rows become leased with one more attempt and are returned in order; nothing else changes |
| `JobStore.InMemoryStore.AckJob` | crates/jerrycan-jobs/src/store.rs:286-294 | marks the row done; a missing id changes nothing |
| `JobStore.InMemoryStore.RetryJob` | crates/jerrycan-jobs/src/store.rs:296-306 | makes the row pending at the given time with no lease |
| `JobStore.InMemoryStore.DeadLetterJob` | crates/jerrycan-jobs/src/store.rs:308-316 | parks the row as dead |
| `JobStore.InMemoryStore.RequeueDeadJob` | crates/jerrycan-jobs/src/store.rs:333-345 | makes the row pending at once with a fresh budget |
| `JobStore.InMemoryStore.ListDead` | crates/jerrycan-jobs/src/store.rs:318-331 | exactly the dead rows of the queue with the smallest ids, in id order, up to the limit |
| `JobRuns.NothingIsLost` | crates/jerrycan-jobs/src/store.rs:205-346 | over every run no job, identity or key is ever lost, and every leased row has an expiry |
| `JobRuns.OneJobPerKey` | crates/jerrycan-jobs/src/store.rs:205-236 | in every reachable state a key names at most one job |
| `JobRuns.LeaseExclusivity` | crates/jerrycan-jobs/src/store.rs:238-316 | a job leased at t for d is returned by no lease up to t + d unless retried or requeued |
| `JobRuns.AlwaysClaimable` | crates/jerrycan-jobs/src/store.rs:238-284 | an unfinished job is claimed exactly once its instant has come and fewer than max due jobs come first |
| `JobRuns.LeaseTakesTheFirst` | crates/jerrycan-jobs/src/store.rs:238-284 | row by row: a lease takes ready jobs of its own queue only, at most max, in (run_at, id) order, and leaves a ready one behind only if max others come before it |
| `JobRuns.EnqueuedIsLeased` | crates/jerrycan-jobs/src/store.rs:205-284 | a job handed in is what a wide enough lease of its queue, and of no other, returns once its time has come: same name, queue, payload, key and attempt limit, first attempt, expiry at the end of the lease |
| `JobRuns.RequeueStartsOver` | crates/jerrycan-jobs/src/store.rs:333-345 | a requeued job is claimable at once with no attempt used |
| `JobRuns.DoneStays` | crates/jerrycan-jobs/src/store.rs:286-316 | a finished job stays finished exactly until someone retries, parks or requeues it |
| `JobRuns.DoneOverRuns` | crates/jerrycan-jobs/src/store.rs:286-316 | over every run it is finished throughout if and only if no operation retries, parks or requeues it |
| `Worker.BackoffGrows` | crates/jerrycan-jobs/src/worker.rs:164-172 | retry delays never shrink and never exceed the cap: the first is the base, each next one is twice the last up to the cap, and from the 21st on they are equal |
| `Worker.QueueWorker.Tick` | crates/jerrycan-jobs/src/worker.rs:108-144 | leases one batch, each row until the later of now + lease_duration and now + exec_timeout, and settles each job by its outcome |
| `Worker.TickIsExclusive` | crates/jerrycan-jobs/src/worker.rs:108-121 | a job leased by a tick is returned by no lease until lease_duration is over, nor until exec_timeout is over, in any run in which nobody retries or requeues it |
| `Worker.TickIsReclaimed` | crates/jerrycan-jobs/src/worker.rs:108-121 | left alone, it is claimed again exactly when both are over |
| `Worker.QueueWorker.Fail` | crates/jerrycan-jobs/src/worker.rs:146-162 | parks a job whose attempts are used up, else retries it after its backoff |
| `Fleet.EventKeeps` | crates/jerrycan-jobs/src/worker.rs:108-162 | every step of a prompt fleet keeps: each held job is leased by one worker only, within budget |
| `Fleet.AttemptBudget` | crates/jerrycan-jobs/src/worker.rs:108-162 | over every run settled before leases expire, attempts never exceed max(1, max_attempts) |
| `Fleet.FailureIsBudgeted` | crates/jerrycan-jobs/src/worker.rs:146-162 | a failing run parks the job exactly when it used the last attempt, else it waits its backoff |
| `Fleet.SettledExactly` | crates/jerrycan-jobs/src/worker.rs:122-162 | a settled job is done exactly on success, dead exactly without a handler or with its last attempt failed; no other row changes |
| `Fleet.DeadAtExactlyTheBudget` | crates/jerrycan-jobs/src/worker.rs:108-162 | a job that always fails is dead exactly when it was started max(1, max_attempts) times |
| `Fleet.DelaysRise` | crates/jerrycan-jobs/src/worker.rs:146-172 | over every prompt run the retry delays of a job that keeps failing never shrink and never exceed the cap |
| `Fleet.DelayIsWaited` | crates/jerrycan-jobs/src/worker.rs:146-162 | a retried job is due exactly that delay after the tick that leased it |
| `Fleet.CoveredRunsAreSafe` | crates/jerrycan-jobs/src/worker.rs:26-36 | with a lease that covers the batch no run ever takes a held job |
| `FleetTheft.LeaseRuleIsExact` | crates/jerrycan-jobs/src/worker.rs:26-36 | no job that a worker holds, running or waiting its turn, is taken by another, in any run, if and only if batch * exec_timeout is at most lease_duration or at most exec_timeout |
| `FleetPosition.CoveredPositionsAreSafe` | crates/jerrycan-jobs/src/worker.rs:108-138 | the j-th job of a batch is not taken while it runs if (j+1) * exec_timeout is at most lease_duration or exec_timeout, in every run up to and including the first taking of a held job; position 0 always fits |
| `FleetPosition.PositionRuleIsExact` | crates/jerrycan-jobs/src/worker.rs:108-138 | over all runs the job running at position j is never taken if and only if the lease covers the whole batch |
| `FleetPosition.PositionRuleWithoutRequeues` | crates/jerrycan-jobs/src/worker.rs:108-162 | over runs without requeues, if and only if the lease covers the batch, or covers position j while the shortest backoff outlasts a batch and that position after it |
| `FleetPosition.StaleRun` | crates/jerrycan-jobs/src/worker.rs:108-162 | the counterexample for every other configuration: a worker whose job was taken settles it late, and a third worker takes it from the second that is running it |
| `FleetPosition.NoDefaultPositionIsSafe` | crates/jerrycan-jobs/src/worker.rs:56-70 | with the defaults no position is safe, even without requeues |
| `FleetTheft.UncoveredLeaseIsStolen` | crates/jerrycan-jobs/src/worker.rs:108-138 | for every other configuration a run in which a held job is taken |
| `FleetTheft.DefaultsAndSingles` | crates/jerrycan-jobs/src/worker.rs:56-70 | a batch of one is always covered, the default configuration is not |
| `CronLeader.KeyIsInjective` | crates/jerrycan-jobs/src/lib.rs:259-269 | different (job, instant) pairs never share an idempotency key |
| `CronLeader.Leader.CronTickOnce` | crates/jerrycan-jobs/src/lib.rs:174-236 | the poll loop enqueues what is due, counts inserts, and records what the store accepted |
| `CronLeader.PollIsSound` | crates/jerrycan-jobs/src/lib.rs:174-236 | what a leader remembers firing is in the store, is a tick and is not in the future |
| `CronLeader.FireIsTick` | crates/jerrycan-jobs/src/cron.rs:351-361 | what is due is a tick, not in the future, newer than the last fired |
| `CronLeader.FiredAdvances` | crates/jerrycan-jobs/src/lib.rs:174-236 | a recorded advance is strictly later than what the leader remembered of the job, and is what it remembers afterwards |
| `CronLeader.FiresOnce` | crates/jerrycan-jobs/src/lib.rs:174-269 | whoever polls, at most one row per (job, fire) exists in any reachable state |
| `CronLeader.PollIsARun` | crates/jerrycan-jobs/src/lib.rs:174-236 | to the store a poll is a run of enqueues, so any number of leaders is more operations |
| `CronLeader.NoTickIsLost` | crates/jerrycan-jobs/src/lib.rs:174-236 | a leader that polls while a tick is the most recent one has its job in the store at the end of any run |
| `CronLeader.PollStoresTheTick` | crates/jerrycan-jobs/src/lib.rs:174-236 | a tick that nobody has enqueued before is stored, by the poll at which it is the most recent, as one fresh job with the cron's name and queue, due at the tick, keyed for it, with the default attempts |
| `CronLeader.CountIsJobsAdded` | crates/jerrycan-jobs/src/lib.rs:200-236 | the number a poll reports is the number of jobs it added |
| `CronLeader.BetweenTicks` | crates/jerrycan-jobs/src/cron.rs:174-196 | polling between consecutive ticks means polling while the earlier one is the most recent |
| `RedisPlacement.ExactlyOnePlace` | crates/jerrycan-jobs/src/redis_store.rs:120-263 | a placed job is in exactly one of stream, scheduled set and dead set, and its stream id names its entry exactly when it is in the stream |
| `RedisPlacement.EnqueueKeeps` | crates/jerrycan-jobs/src/redis_store.rs:120-160 | enqueueing keeps placement |
| `RedisPlacement.PromoteAllKeeps` | crates/jerrycan-jobs/src/redis_store.rs:162-181 | promoting due members keeps placement |
| `RedisPlacement.ReadGroupKeeps` | crates/jerrycan-jobs/src/redis_store.rs:438-520 | a group read opens exactly the entries it delivers |
| `RedisPlacement.LeaseEntriesKeeps` | crates/jerrycan-jobs/src/redis_store.rs:183-195 | marking the delivered entries restores placement |
| `RedisPlacement.AckKeeps` | crates/jerrycan-jobs/src/redis_store.rs:197-211 | acknowledging keeps placement if and only if the job is in the stream |
| `RedisPlacement.RetryKeeps` | crates/jerrycan-jobs/src/redis_store.rs:213-231 | retrying keeps placement if and only if the job is not dead |
| `RedisPlacement.DeadLetterKeeps` | crates/jerrycan-jobs/src/redis_store.rs:233-252 | parking keeps placement if and only if the job is not scheduled |
| `RedisPlacement.RequeueKeeps` | crates/jerrycan-jobs/src/redis_store.rs:254-263 | requeueing keeps placement if and only if the job is dead |
| `RedisStore.Client.Lease` | crates/jerrycan-jobs/src/redis_store.rs:438-561 | the promote, reclaim, read and mark sequence computes the specified lease |
| `RedisRefinement.EnqueueRefines` | crates/jerrycan-jobs/src/redis_store.rs:120-160 | the outcome is the reference store's; the rows are too, exactly unless a job is inserted under the empty key |
| `RedisRefinement.RetryRefines` | crates/jerrycan-jobs/src/redis_store.rs:213-231 | on the job rows, the reference retry |
| `RedisRefinement.DeadLetterRefines` | crates/jerrycan-jobs/src/redis_store.rs:233-252 | on the job rows, the reference parking |
| `RedisRefinement.RequeueRefines` | crates/jerrycan-jobs/src/redis_store.rs:254-263 | on the job rows, the reference requeue |
| `RedisRefinement.AckRefines` | crates/jerrycan-jobs/src/redis_store.rs:197-211 | the reference acknowledgement, with the row deleted rather than kept |
| `RedisRefinement.LeaseRefines` | crates/jerrycan-jobs/src/redis_store.rs:438-561 | a lease returns at most max jobs in id order, each pending and due or leased and idle, changes exactly their rows, and keeps placement |
| `RedisRefinement.LeaseIsGreedy` | crates/jerrycan-jobs/src/redis_store.rs:438-561 | a lease that returns fewer than max jobs returns every job of its queue that was pending and due |
| `RedisOrder.ClaimsAgreeWithRoom` | crates/jerrycan-jobs/src/redis_store.rs:438-561 | with room for every candidate the Redis store claims exactly the jobs the reference store claims once the leases handed back as idle have expired in it |
| `RedisOrder.OrdersCanDiffer` | crates/jerrycan-jobs/src/redis_store.rs:438-561 | without room they can differ: of two due jobs Redis takes the one enqueued first, the reference the one due first |
| `RedisRefinement.PlacementOverRuns` | crates/jerrycan-jobs/src/redis_store.rs:120-263 | every disciplined run keeps placement |
| `RedisRefinement.OnePlaceInEveryRun` | crates/jerrycan-jobs/src/redis_store.rs:120-263 | in every disciplined run from an empty server each job is in exactly one place |
| `RedisRefinement.RedisLosesNothing` | crates/jerrycan-jobs/src/redis_store.rs:120-263 | over every disciplined run a job that is never acknowledged keeps its row and identity and ends in exactly one place |
| `RedisRefinement.RedisKeysStay` | crates/jerrycan-jobs/src/redis_store.rs:120-160 | over every run a key once taken names the same job for ever |
| `Channel.ChannelRoundTrip` | crates/jerrycan-realtime/src/channel.rs:17-40 | parsing a printed channel gives it back |
| `Channel.ChannelTextIsUnique` | crates/jerrycan-realtime/src/channel.rs:17-40 | no two texts name one channel |
| `Channel.GateIsExact` | crates/jerrycan-realtime/src/channel.rs:53-101 | the gate lets in exactly those entitled by the declarations (first declaration of the name; everyone, users, or users of a tenant; entities for users), and names what is missing |
| `Presence.DiffsReplay` | crates/jerrycan-realtime/src/presence.rs:31-116 | over every sequence of set, clear, touch and sweep, replaying the diffs on an earlier partition state gives the current one |
| `Presence.OwnersSeenOverRuns` | crates/jerrycan-realtime/src/presence.rs:31-116 | every entry's owner keeps a heartbeat on record |
| `Presence.SweepLookup` | crates/jerrycan-realtime/src/presence.rs:84-116 | after a sweep every entry's node was heard from within the TTL |
| `Presence.SweepIsExact` | crates/jerrycan-realtime/src/presence.rs:84-116 | a sweep keeps exactly the entries, and the heartbeats, of the nodes whose last heartbeat is at most the TTL old |
| `Presence.ShownUntilSilent` | crates/jerrycan-realtime/src/presence.rs:31-116 | an entry set, or whose node is touched, at an instant survives a sweep exactly until the TTL is over |
| `Presence.PresenceMap.Put` | crates/jerrycan-realtime/src/presence.rs:31-49 | sets the entry, touches its node, announces the join |
| `Presence.PresenceMap.Clear` | crates/jerrycan-realtime/src/presence.rs:51-66 | removes the entry only for its owner and announces the leave |
| `Presence.PresenceMap.TouchNode` | crates/jerrycan-realtime/src/presence.rs:78-80 | refreshes a node |
| `Presence.PresenceMap.Sweep` | crates/jerrycan-realtime/src/presence.rs:84-116 | the retain loop expires dead nodes' entries with one leave diff per partition that lost any |
| `Presence.PresenceMap.LocalEntries` | crates/jerrycan-realtime/src/presence.rs:470-480 | each entry the node owns, once |
| `HubSafety.TenantsNeverMix` | crates/jerrycan-realtime/src/broadcast.rs:86-256 | over every run of every hub operation on any number of nodes, bare removals included: a broadcast in flight for a tenant-scoped topic names a tenant, and every event, presence state and presence diff of a tenant-scoped topic queued to a connection is of its own tenant |
| `HubSafety.OpKeepsTenants` | crates/jerrycan-realtime/src/broadcast.rs:86-256 | every operation keeps joined channels joinable and queued messages of the connection's own tenant |
| `HubSafety.OpPublishesStamped` | crates/jerrycan-realtime/src/broadcast.rs:148-213 | every broadcast an operation puts on the bus for a tenant-scoped topic carries a tenant |
| `HubSafety.BroadcastIsTenantSafe` | crates/jerrycan-realtime/src/broadcast.rs:216-256 | a stamped broadcast on a tenant-scoped topic reaches only its own tenant |
| `HubReach.ClientBroadcastReaches` | crates/jerrycan-realtime/src/broadcast.rs:148-256 | over every run: a client's publish on a topic it has joined puts one message on the bus, and its delivery at any node appends the event to exactly the open connections with room that are on the topic, are not the sender, and on a tenant-scoped topic have its tenant; those without room go, and nobody else changes; not joined, nothing is broadcast |
| `HubReach.ServerBroadcastReaches` | crates/jerrycan-realtime/src/broadcast.rs:86-142 | a server's publish, plain or for one tenant, reaches everyone on a declared topic of the right kind, or of that tenant, and is refused otherwise |
| `HubReach.JoinIsExact` | crates/jerrycan-realtime/src/lib.rs:316-389 | a join is let in exactly if the client is entitled and the source is up, else answered with the code of what is missing; nobody else changes |
| `HubReach.JoinedIsEntitled` | crates/jerrycan-realtime/src/channel.rs:53-101 | over every run: whoever is on a channel is entitled to it, so auth-scoped and changes channels have a user and tenant-scoped ones a tenant |
| `HubReach.JoinerSeesItsSlice` | crates/jerrycan-realtime/src/presence.rs:245-266 | who joins a presence topic is sent exactly who is shown there for its tenant |
| `HubReach.TrackReaches` | crates/jerrycan-realtime/src/presence.rs:157-207 | a client that tracks itself is shown, at every node the message is delivered to, under its user id or connection, for its slice of the topic; exactly that slice's watchers are told; not joined, nothing is published |
| `HubReach.UntrackReaches` | crates/jerrycan-realtime/src/presence.rs:210-241 | a client that takes itself off is no longer shown as its node's, and the slice's watchers are told exactly if it was |
| `HubReach.DisconnectLeaves` | crates/jerrycan-realtime/src/presence.rs:269-297 | a connection that ends publishes one leave for each key it tracked, for its slice, and nothing else |
| `HubReach.TickIsExact` | crates/jerrycan-realtime/src/presence.rs:444-465 | a tick announces exactly what the node owns, keeps it, and keeps of others exactly what was heard from within 90 seconds |
| `HubPresence.NoPhantomExactly` | crates/jerrycan-realtime/src/presence.rs:157-341 | over every run from nothing there is never a phantom if and only if each broadcast delivery is harmless: no slow receiver it removes is the only one behind a key shown as its node's |
| `HubPresence.OpAccounts` | crates/jerrycan-realtime/src/presence.rs:157-341 | every operation but a broadcast delivery publishes a leave for each key that loses its last tracker and sets only keys that have one |
| `HubPresence.EventuallyExactly` | crates/jerrycan-realtime/src/presence.rs:344-465 | what a node will show changes by the published messages only, and by expiry at its own tick |
| `HubPresence.BareRemovalIsExact` | crates/jerrycan-realtime/src/broadcast.rs:253-255 | from a state without phantoms a broadcast delivery leaves none if and only if each key that some node will show as this node's, and that a slow receiver tracks, has a tracker that keeps up |
| `HubPhantom.PhantomIsReached` | crates/jerrycan-realtime/src/broadcast.rs:253-255 | counterexample by a run from nothing: a member stops reading, broadcasts fill its queue, and the one that removes it leaves it on display |
| `HubShown.ShownExactlyFromFresh` | crates/jerrycan-realtime/src/presence.rs:157-465 | over every run from nothing, whatever is tracked anywhere is always shown everywhere if and only if each operation, judged in the state it begins in, spares everyone: no key it clears that some node shows as its node's, and none it forgets for silence, is tracked by a connection that stays |
| `HubShown.ShownIsExact` | crates/jerrycan-realtime/src/presence.rs:157-465 | the same for one operation, with everyone shown before it |
| `HubDrops.GoesExactly` | crates/jerrycan-realtime/src/presence.rs:401-440 | which connections an operation removes, read off the state before it; at a tick, in whatever order the diffs go out, those whose queue overflows |
| `HubDrops.ClearsExactly` | crates/jerrycan-realtime/src/presence.rs:314-341 | which leaves it publishes, read off the state before it |
| `HubShown.TeardownIsExact` | crates/jerrycan-realtime/src/presence.rs:269-297 | a disconnect keeps everyone shown if and only if no key it tracks, shown as its node's, is tracked by another live connection |
| `HubSharedKey.FirstToLeaveTakesOff` | crates/jerrycan-realtime/src/presence.rs:269-297 | counterexample by a run from nothing: of two connections of one user the first to leave takes the user off the display |
| `Hub.Hub.Connect` | crates/jerrycan-realtime/src/lib.rs:239-255 | adds a fresh connection and disturbs no other |
| `Hub.Hub.DropConnection` | crates/jerrycan-realtime/src/presence.rs:314-341 | removes the connection and publishes each presence leave it owes once; a second teardown publishes nothing |
| `Hub.Hub.Disconnect` | crates/jerrycan-realtime/src/presence.rs:269-297 | the same teardown when a connection's own loop ends |
| `Hub.Hub.SendTo` | crates/jerrycan-realtime/src/lib.rs:263-281 | queues the message, or tears down a connection whose queue is full or closed, with exactly its leaves |
| `Hub.Hub.Join` | crates/jerrycan-realtime/src/lib.rs:316-389 | the gate decides; the joiner is told and on a presence channel is sent the partition state; nothing is published but the leaves of a joiner that was torn down |
| `Hub.Hub.Leave` | crates/jerrycan-realtime/src/lib.rs:391-405 | removes the channel and keeps what is tracked; publishes only the leaves of a connection torn down |
| `Hub.Hub.Track` | crates/jerrycan-realtime/src/presence.rs:157-207 | on a joined presence channel records the key and publishes it; otherwise replies and publishes no presence |
| `Hub.Hub.Untrack` | crates/jerrycan-realtime/src/presence.rs:210-241 | publishes the leave exactly when the key was tracked |
| `Hub.Hub.Publish` | crates/jerrycan-realtime/src/broadcast.rs:148-213 | puts a broadcast on the bus only for a joined channel, stamped with the sender's tenant on tenant-scoped topics |
| `Hub.Hub.PublishFromServer` | crates/jerrycan-realtime/src/broadcast.rs:86-109 | accepted exactly on declared topics that are not tenant-scoped |
| `Hub.Hub.PublishToTenant` | crates/jerrycan-realtime/src/broadcast.rs:118-142 | accepted exactly on tenant-scoped topics, stamped with the tenant |
| `Hub.Hub.DeliverBroadcast` | crates/jerrycan-realtime/src/broadcast.rs:216-256 | the loop over the connections is the delivery of which ClientBroadcastReaches and ServerBroadcastReaches say whom it reaches |
| `Hub.Hub.BroadcastDiff` | crates/jerrycan-realtime/src/presence.rs:401-440 | watchers of the partition with room get the diff, slow ones are torn down with exactly their leaves |
| `Hub.Hub.Deliver` | crates/jerrycan-realtime/src/lib.rs:409-456 | the presence map takes the message and its watchers the diff |
| `Hub.Hub.PresenceTick` | crates/jerrycan-realtime/src/presence.rs:444-465 | announces what the node owns, refreshes it, expires silent nodes and tells their watchers |
| `Paths.JoinConcatenates` | crates/jerrycan-core/src/module.rs:85-94 | joining paths concatenates their segments, whatever slashes either side has |
| `Paths.DecodeSegment` | crates/jerrycan-core/src/router.rs:161-189 | the byte loop and its no-escape shortcut compute the same decoding |
| `Paths.DecodesExactly` | crates/jerrycan-core/src/router.rs:161-189 | a segment decodes to a text if and only if it is one of the ways of writing that text with escapes |
| `Paths.UnescapeRender` | crates/jerrycan-core/src/router.rs:161-189 | every way of escaping decodes back |
| `Paths.OnlyRendersUnescape` | crates/jerrycan-core/src/router.rs:161-189 | nothing else decodes to the same bytes |
| `Paths.PlainPathDecodes` | crates/jerrycan-core/src/router.rs:223-227 | a path with no escape decodes to its own segments |
| `RouteTrie.BuildIsExact` | crates/jerrycan-core/src/router.rs:196-221 | a list of routes is accepted if and only if no two patterns clash, and the trie then holds exactly the list |
| `RouteTrie.InsertedAt` | crates/jerrycan-core/src/router.rs:196-221 | an accepted insertion registers its pattern and disturbs no other; a refused one registers nothing |
| `RouteTrie.AcceptedUnlessBlocked` | crates/jerrycan-core/src/router.rs:196-221 | insertion is refused exactly when the pattern is taken or wants another parameter name |
| `RouteTrie.WinnerIsBest` | crates/jerrycan-core/src/router.rs:292-313 | the search fails exactly when no pattern fits, else finds the one that prefers a literal at the first segment where it parts from any other |
| `RouteTrie.ResolutionIsByContents` | crates/jerrycan-core/src/router.rs:292-313 | tries that hold the same routes resolve alike |
| `RouteTrie.OrderIsIrrelevant` | crates/jerrycan-core/src/router.rs:196-313 | in any insertion order a set of routes is accepted or rejected alike and every path resolves alike |
| `Router.RouterAgreesWithList` | crates/jerrycan-core/src/router.rs:223-285 | the router answers as the list of patterns does: not found, method missing, or found with the captures in order |
| `Router.MethodsAreThoseFound` | crates/jerrycan-core/src/router.rs:245-265 | the advertised methods are exactly those that are found |
| `Router.FindNode` | crates/jerrycan-core/src/router.rs:292-313 | a failed branch leaves the parameter stack unchanged; a successful one adds its captures |
| `Router.Trie.Insert` | crates/jerrycan-core/src/router.rs:196-221 | the in-place walk, with the nodes it leaves behind on an error, is the specified insertion of the pattern of which PatternIsRead says how it is written |
| `RouteText.WrittenRoutesResolve` | crates/jerrycan-core/src/router.rs:196-285 | texts registered, a text requested: registration fails exactly if two texts clash; the request is not found exactly when no text fits in length and in every unbraced segment, else answered by the one that beats all others that fit, each braced name bound to the request's segment at its place |
| `RouteText.OneRouteResolves` | crates/jerrycan-core/src/router.rs:196-285 | one route alone: a request is found exactly if it has the route's length and its unbraced segments |
| `RouteText.PatternIsRead` | crates/jerrycan-core/src/router.rs:196-215 | a path text whose segments are names in braces or text that does not stand in braces is read as those parameters and that text; a lone brace is text |
| `Router.Trie.Find` | crates/jerrycan-core/src/router.rs:223-237 | decodes unless there is nothing to decode, then resolves; a malformed escape is reported as such |
| `Router.Trie.FindIn` | crates/jerrycan-core/src/router.rs:267-285 | resolves segments against the method table |
| `Router.Trie.MethodsFor` | crates/jerrycan-core/src/router.rs:245-265 | the methods of the path in ascending order, each once, or none if it is unknown or malformed |
| `Deps.InnerWins` | crates/jerrycan-core/src/dep.rs:48-57 | in a merge the inner provider of a type wins, of either kind, and one provider a type is kept |
| `Deps.MergeFrom` | crates/jerrycan-core/src/dep.rs:48-57 | the two merge loops compute the specified merge |
| `Deps.RegistrationIsSound` | crates/jerrycan-core/src/dep.rs:29-45 | registering a value or factory replaces the provider of its type and no other |
| `AppModule.Flatten` | crates/jerrycan-core/src/module.rs:99-134 | the recursive loops compute the specified flat list |
| `AppModule.FlattenMeans` | crates/jerrycan-core/src/module.rs:96-134 | one flat route per leaf of the module tree, in order, at the concatenated segments, with the innermost provider of each type and middleware from the outside in |
| `AppModule.MountedRoutesResolve` | crates/jerrycan-core/src/module.rs:96-134 | a path in a mounted module tree is not found exactly when it fits no leaf; otherwise some leaf wins and the answer is that leaf's table, captures, providers, middleware, limits and timeouts |
| `AppModule.BuildTrie` | crates/jerrycan-core/src/app.rs:218-315 | the build succeeds exactly on distinct methods and compatible patterns, and gives the trie of the list |
| `AppModule.TableOf` | crates/jerrycan-core/src/app.rs:292-302 | the method table, refused exactly on a duplicate method |
| `AppModule.TableIsExact` | crates/jerrycan-core/src/app.rs:292-302 | registered once each, every method has its own handler, and no other has any |
| `RateLimit.LimiterIsTheLog` | crates/jerrycan-ratelimit/src/store.rs:60-128 | a hit is allowed exactly when at most limit hits of its key, itself included, fall in its window (always, for the largest limit), and it reports what is left |
| `RateLimit.RunsAreFaithful` | crates/jerrycan-ratelimit/src/store.rs:105-140 | from the current window on, the stored counts are those of the log |
| `RateLimit.PruneIsInvisible` | crates/jerrycan-ratelimit/src/store.rs:130-140 | runs with the same hits give the next hit the same outcome, however pruned |
| `RateLimit.WindowAdmits` | crates/jerrycan-ratelimit/src/store.rs:105-128 | a window admits its first limit hits and no more |
| `RateLimit.AtMostTwiceTheLimit` | crates/jerrycan-ratelimit/src/store.rs:60-128 | any stretch of one counted window admits at most twice the limit |
| `RateLimit.TwiceIsExact` | crates/jerrycan-ratelimit/src/store.rs:60-70 | for the configured window the bound holds if and only if truncation to milliseconds cuts off at most one nanosecond |
| `RateLimit.RetryAfterReachesNextWindow` | crates/jerrycan-ratelimit/src/store.rs:60-70 | waiting out retry_after lands in the next window if and only if the clock is not before the epoch |
| `RateLimit.WindowsAreLaidFromTheEpoch` | crates/jerrycan-ratelimit/src/store.rs:60-70 | in nanoseconds: counted windows lie end to end from the epoch, so two instants share a counter exactly when their quotients by the window agree; retry_after reaches the next window with less than a millisecond to spare; whole milliseconds are counted as they are |
| `RateLimit.PruneIsExact` | crates/jerrycan-ratelimit/src/store.rs:130-140 | over every run pruning forgets exactly the counters whose window is over |
| `RateLimit.InMemoryStore.Hit` | crates/jerrycan-ratelimit/src/store.rs:105-128 | counts the hit in its window with a saturating counter and reports the outcome |
| `RateLimit.InMemoryStore.Prune` | crates/jerrycan-ratelimit/src/store.rs:130-140 | drops exactly the slots whose window is over |

## Left out

- Crypto and authentication (sessions, tokens, passwords, webhooks, OAuth), SQL stores, HTTP serving, extractors, CORS, security headers, metrics, macros, fixtures and fuzz drivers: foreign primitives, I/O or single branches.
- Integer widths: ids, attempts, part counts, window numbers and times are unbounded, so overflow of i64, u64 and u32 counters is not modelled, except the saturating 32-bit hit count and the saturating 8-bit cron step.
- `Duration` saturation in the backoff: the product is unbounded and then capped, which is the same value below the largest duration.
- Multipart transport errors, trailers and the request extractor: the body is a list of chunks that arrive; `Part::text` only adds a UTF-8 check.
- HeaderText.HeadersRoundTrip: names and filenames with `;` or with CR directly before LF are excluded, because the source splits on those before it looks at quotes.
- Worker.QueueWorker.Tick: handlers, their panics, forked contexts and the wall clock during a batch are a function from job to outcome; `Fleet` puts time back in, with every job ending within its timeout and no scheduling delay between jobs, on one clock shared by all workers.
- Fleet.AttemptBudget: stated for runs in which every lease is settled before it expires, as the design intends; `LeaseRuleIsExact` says when that is guaranteed.
- CronLeader.NoTickIsLost: polls are in time order and their enqueues succeed; other callers are arbitrary store operations.
- Redis connections, replies and error mapping; `XAUTOCLAIM` idle times and the tie order of sorted sets are inputs; stream ids come from one counter instead of one per stream; lease calls are serialised and each script is atomic.
- Interleavings inside one hub operation (between releasing a lock and the publish), a bus that drops messages for a lagging node, and messages lost when a publish fails.
- The realtime `changes` channels beyond the join gate: change events, resync, source health and their delivery.
- Hub.Hub.Join: reply texts and client references are reduced to their error code.
- Router.Trie.Insert: trie nodes are values replaced from the root, so aliasing between nodes is not modelled; error texts are reduced to their kind.
- Dependency resolution, handlers and middleware are opaque values; only which provider and which chain a route gets is modelled.
- The Redis rate-limit store and clocks that run backwards; `RateLimit` takes non-decreasing times.
- Clock::advance and Clock::set: only the calendar arithmetic of the clock module is modelled.
