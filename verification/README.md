# A verified model of the L0 draft engine

The L0 draft engine turns two-lane recordings into draft transcripts. A coordinator takes requests, tries official
backends for a bounded phase, and then leases the job to one volunteer worker under a deadline. Inside an engine,
requests pass one at a time through a first-in first-out gate; audio is cut into segments at long silences, words from
the recognizer are placed into rows by midpoint, and a label model punctuates the rows.

This project models the parts of that system whose correctness spans many functions or whole runs, and proves what
they are meant to guarantee. `dafny verify dfyconfig.toml` checks all of it.

How it is modelled:

- A concurrent part is a state machine. Each stretch of the program between two awaits is one atomic step, steps of
  all handlers interleave freely, and the theorems speak of every reachable state or of whole runs. Inside one step
  the clock is read once.
- An object that updates its fields in place is a class whose methods are proved equal to functions of the old state
  (`CoordinatorObject.Coordinator`, `TimingCache.Cache`, `InferenceQueueObject.InferenceQueue`,
  `Residency.DraftEngine`); the state machines are built from those same functions. Loops of the program are loops
  here, proved against a specification function.
- Jobs, workers, flights and uploads are records in tables under unique ids; an id stands for the identity of the
  object, and `Lease.State.store` keeps a job that handlers still refer to after it left the `jobs` table. Counters
  such as `grants`, `resolutions`, `returned` and `registered` only record history; no step depends on them.
- Tokens and UUIDs are given to the steps as values. Digests are taken to be injective, so a digest stands for what
  was digested. Seconds are exact rationals. The level threshold on a frame of audio is a boolean.
- Python's case tables, folding and `isspace` are parameters of the rendering module. Reading a text back assumes of
  them only that upper-casing a character that is no separator gives nonempty text without separators.

Where the code turned out to be stronger or weaker than one would expect:

- Rows cut at segment boundaries conserve all words even when midpoints are not sorted, because no midpoint lies
  between two segments. For preserved rows, whose bounds are arbitrary, the bisected slice is the right one for every
  row exactly when midpoints are sorted (`Words.PreservedRowsAreExactIffMidpointsAreSorted`), and a long word around
  a short one breaks it (`Words.ALongWordIsMisplaced`).
- The timing cache can lose the record just stored: among equal time stamps the order is that of the directory
  listing (`TimingCache.ATieCanLoseTheNewRecord`). A put keeps its record under every listing exactly when the files
  stamped at or after its own time, itself included, fit together (`TimingCache.PutIsSafeExactlyWhenNotOlderFit`); a
  strictly newest one therefore always survives.
- The temporary directory of an enhancement request is not always removed under `io_lock`. When a cleanup is cancelled
  while it waits for the lock, the finalizer of `TemporaryDirectory` removes the directory without it, and
  `EnhancementIo.TheFinalizerCanMeetAHandler` is a run in which a volunteer's handler is still inside. That is the
  only way: a removal meets a handler exactly when it is the finalizer of a cleanup cancelled while that handler held
  the lock, and the handler has not left (`EnhancementIo.RemovalMeetsAHandlerExactlyWhenCancelled`).
- Official attempts share their phase fairly only if each ends by its timeout; what is lost to lateness is subtracted
  in `Deadlines.SharesStayFair`.

The files follow the components: `Lease`, `LeaseSafety`, `LeaseTheorems`, `Preference`, `Registrations`, `Deliveries`,
`Queueing`, `Coordinator` and `EnhancementIo` for the lease protocol, `TimingCache`, `SingleFlight` and `SharedAnswers`
for cached timing, `Deadlines` for the budget, `Progress`, `Wav` and `FloatSamples` for enhancement, `Fifo`,
`InferenceQueue` and `Handlers` for the gate, `Residency` and `ResidencyRuns` for the models, `Activity`, `Stretches`,
`Segments`, `Words`, `Rendering`, `RowText` and `Drafting` for the path from audio to text, `Windowing` for long audio,
`Basics` and `Memory` for shared vocabulary.

## Model

| member | source | states |
|---|---|---|
| LeaseSafety.RunsAreSound | l0_draft_engine/coordinator.py:541-643 | In every reachable state, under any schedule: `jobs` and `by_request_id` hold the same jobs; a worker holds job j exactly when j is live and its lease names that worker; waiting ids are distinct, live, never leased and unresolved; finished request ids are apart from active ones; no result was set twice. |
| LeaseSafety.StepKeeps | l0_draft_engine/coordinator.py:1004-1175 | Each step keeps all of that: register, poll, progress, both completions, error, expiry, owner's finish and cleanup, prune; also a late `fail` on a finished job whose worker now holds another lease. |
| LeaseSafety.FailKeeps | l0_draft_engine/coordinator.py:627-631 | `fail` keeps the invariant for any job ever created, live or finished, that is neither waiting nor with the official backends, or is about to be finished. |
| LeaseSafety.FinishKeeps | l0_draft_engine/coordinator.py:633-643 | `finish` keeps it and discharges the one job that was allowed to be resolved while still listed. |
| LeaseSafety.CommitKeeps | l0_draft_engine/coordinator.py:1135-1138 | When a lease holder's result is committed the future is still pending, so the unguarded `set_result` cannot raise. |
| LeaseSafety.WorkerJobChecksLease | l0_draft_engine/coordinator.py:1042-1088 | A worker route passes if and only if the worker is authentic and names its own unexpired lease with its token; passing changes nothing. |
| LeaseSafety.ScanFindsFirst | l0_draft_engine/coordinator.py:1024-1040 | The lease loop hands out the first job of its snapshot that suits the worker, or nothing. |
| LeaseTheorems.StepEffect | l0_draft_engine/coordinator.py:612-643 | Seen from one job, a step either changes neither lease nor result beyond release or failure, or grants its first lease, or settles it for its lease holder; a new job starts unleased and pending. |
| LeaseTheorems.OnlyTheHolderSettles | l0_draft_engine/coordinator.py:1083-1088 | In any run, a result other than None is set only by the authentic worker that holds the job's unexpired lease. |
| LeaseTheorems.CountsMatchHistory | l0_draft_engine/coordinator.py:1017-1040 | The counters of leases and results of a job equal the number of steps of the run in which it got one. |
| LeaseTheorems.LeasedOnceResolvedOnce | l0_draft_engine/coordinator.py:1102-1175 | Over any run a job is leased at most once and its result set at most once; a leased job is pending; no step sets a result twice. |
| Preference.DeferredExactlyForAFasterReadyWorker | l0_draft_engine/coordinator.py:565-575 | A worker is given a job if and only if it does that operation, takes a lease of that size and, for an enhancement, runs the model asked for and is not the asking client, and no strictly faster idle worker that can do it polled within three seconds. |
| Preference.AReadyWorkerTakesAJob | l0_draft_engine/coordinator.py:565-576 | Preference never starves: if some idle, accepting, recently seen worker exists for a waiting job, one such worker polling at this instant gets that job or one that waited longer. |
| Preference.PollTakesEarliestSuitable | l0_draft_engine/coordinator.py:1017-1040 | An idle worker's poll leases the earliest waiting job that suits it, removes exactly that one from the queue, and otherwise only records the visit. |
| Preference.FreshLeaseHoldsForItsTime | l0_draft_engine/coordinator.py:1031-1051 | After a poll that leases a job, its worker passes the worker routes with that lease token and no other, for exactly the lease time. |
| Preference.ScoresApproachTheRate | l0_draft_engine/coordinator.py:577-590 | After n further successes at one rate, a worker's distance from that rate is (3/4)^n of what it was. |
| Preference.ScoresStayAmongTheRates | l0_draft_engine/coordinator.py:577-590 | However the rates of its successes vary, a worker's score stays between the slowest and the fastest of them. |
| Registrations.PruneKeepsWhoIsUsed | l0_draft_engine/coordinator.py:541-545 | After pruning a worker is in the table if and only if it was and holds a job or was seen within the idle time, with its record unchanged; nothing but the two pruned tables changes. |
| Registrations.RegisteredUntilCaughtAway | l0_draft_engine/coordinator.py:541-545 | Over any run a worker stays registered with its token, stamped with its last contact, exactly until a pruning step meets it out of contact, without a visit or a job, for longer than the idle time. |
| Registrations.WhoVisitsInTimeIsNeverRefused | l0_draft_engine/coordinator.py:645-649 | A worker never out of contact for longer than the idle time stays registered, and neither the lease route nor the routes of jobs answer `Unauthorized` to its token. |
| Registrations.PollStampsTheWorker | l0_draft_engine/coordinator.py:1019-1023 | A visit with the right token is not refused and sets both time stamps; any other poll leaves this worker as it was. |
| Registrations.NewcomersAreIdle | l0_draft_engine/coordinator.py:1004-1015 | A worker enters the table by registering and in no other way, with the record it gave and without a job. |
| Deliveries.AdmittedExactlyWhenUnknown | l0_draft_engine/coordinator.py:604-610 | In any run a request is registered if and only if no unfinished job has its id and no entry of it is remembered that is in time and one of the newest 1024; then as a new job, running, unleased and unresolved. |
| Deliveries.FinishLeaves | l0_draft_engine/coordinator.py:633-643 | The end of a job takes it off all tables, touches no other job and leaves its result; its id is remembered for 45 seconds if and only if it was completed. |
| Deliveries.CleanupLeaves | l0_draft_engine/coordinator.py:1237-1239 | A cleanup does the same and resolves a pending result to None. |
| Deliveries.TheHoldersResultIsDelivered | l0_draft_engine/coordinator.py:1159-1175 | What the holder of an unexpired lease reports reaches the owner: a valid result as its value, an error or an invalid result as None; the worker is free and seen now, and no other job or worker changes. |
| Deliveries.TheHoldersUploadIsDelivered | l0_draft_engine/coordinator.py:1135-1138 | So does the holder's upload. |
| Deliveries.AnExpiredLeaseFailsItsJob | l0_draft_engine/coordinator.py:1048-1050 | Naming an expired lease with its token is answered as not found; the owner gets None and the worker is free. |
| Deliveries.ReportsAreStoredExactlyWhenAccepted | l0_draft_engine/coordinator.py:1090-1100 | A progress report is stored if and only if the lease holder of an enhancement sends it and it follows the last one; it changes nothing else. |
| Deliveries.ALeaseStaysOrGoes | l0_draft_engine/coordinator.py:1031-1036 | In any continuation a lease is as it was granted or gone, and its request is the same. |
| Deliveries.SuccessIsTimedFromItsLease | l0_draft_engine/coordinator.py:577-590 | Whatever happens between the poll that leased a job and its delivery, the worker's rate learns the work by exactly that time: the first as it is, later ones by a quarter; other operations' rates stay. |
| Deliveries.LeasesRespectCapabilities | l0_draft_engine/coordinator.py:456-462 | In every reachable state a worker can do the job it holds: operation, lease size and, for an enhancement, model and client. |
| Queueing.TheQueueIsFirstInFirstOut | l0_draft_engine/coordinator.py:612-615 | In every reachable state the deque holds exactly the live queued jobs, in the order in which they were sent to the swarm. |
| Queueing.OwnersAreWokenExactlyWhenDue | l0_draft_engine/coordinator.py:627-631 | In every reachable state the event an owner waits on is set if and only if its job has been leased or resolved. |
| CoordinatorObject.Coordinator.Prune | l0_draft_engine/coordinator.py:541-550 | The loops keep exactly the workers that hold a job or were seen within the idle time, each as it was, and drop finished ids as `Memory.PrunedKeepsTheFresh` says. |
| CoordinatorObject.Coordinator.Enqueue | l0_draft_engine/coordinator.py:604-610 | The new state and the duplicate answer are those of `Lease.Enqueue`; the invariant is kept. |
| CoordinatorObject.Coordinator.QueueForSwarm | l0_draft_engine/coordinator.py:612-615 | The new state is `Lease.QueueForSwarm` of the old one. |
| CoordinatorObject.Coordinator.Release | l0_draft_engine/coordinator.py:617-625 | The new state is `Lease.Release` of the old one: the worker is freed only if it still holds this very job. |
| CoordinatorObject.Coordinator.Fail | l0_draft_engine/coordinator.py:627-631 | The new state is `Lease.Fail` of the old one. |
| CoordinatorObject.Coordinator.Finish | l0_draft_engine/coordinator.py:633-643 | The new state is `Lease.Finish` of the old one; the invariant holds after it even for a job just failed. |
| CoordinatorObject.Coordinator.PollForJob | l0_draft_engine/coordinator.py:1017-1040 | The lease route does what `Lease.Poll` says, answer included; the invariant is kept. |
| CoordinatorObject.Coordinator.ScanQueue | l0_draft_engine/coordinator.py:1024-1040 | The loop over the snapshot of the queue computes `Lease.Scan`. |
| CoordinatorObject.Coordinator.AuthorizedJob | l0_draft_engine/coordinator.py:1042-1051 | Same answer and state as `Lease.AuthorizedJob`, which fails an expired lease. |
| CoordinatorObject.Coordinator.CompleteUpload | l0_draft_engine/coordinator.py:1135-1138 | Same answer and state as `Lease.CompleteUpload`; from a sound state the unguarded result never faults. |
| CoordinatorObject.Coordinator.CompleteJson | l0_draft_engine/coordinator.py:1159-1175 | Same answer and state as `Lease.CompleteJson` for good results, errors and invalid results; the invariant is kept. |
| CoordinatorObject.Coordinator.StatusOf | l0_draft_engine/coordinator.py:651-672 | A status request changes nothing beyond pruning. It is answered as active if and only if the id is active and without an owner or asked by its owner, with its phase and, if queued, its place counted from one (the search cannot fail); as completed if and only if it is not active but remembered, again for its owner only; as unknown if and only if it is neither. |
| EnhancementIo.EventsAreLeaseSteps | l0_draft_engine/coordinator.py:1231-1251 | Downloads, uploads and cleanup refine the lease protocol: each event is one of its steps or leaves it alone. |
| EnhancementIo.IoRunsAreSound | l0_draft_engine/coordinator.py:1113-1152 | Every interleaving of lease steps, volunteer handlers, owners and cleanups keeps the lease invariant and that of files, locks and slots. |
| EnhancementIo.HandlersEnterExactlyWithALiveLease | l0_draft_engine/coordinator.py:1056-1058 | A handler gets inside `io_lock` if and only if, at the re-check, the job is live and its lease has that token and has not expired; otherwise it leaves the lock as it found it. |
| EnhancementIo.InsideAfterCleanup | l0_draft_engine/coordinator.py:1244-1251 | In any run, once a cleanup is over a handler is inside `io_lock` if and only if that cleanup was cancelled while the handler held the lock, and the handler has not left since. |
| EnhancementIo.FilesArePresentUntilFinalized | l0_draft_engine/coordinator.py:1053-1062 | A handler inside `io_lock` is alone inside for its job; its directory is present unless, and gone exactly if, the finalizer ran after a cleanup cancelled under it. |
| EnhancementIo.RemovalMeetsAHandlerExactlyWhenCancelled | l0_draft_engine/coordinator.py:1244-1249 | Any removal of a directory, of whatever kind, finds a handler inside if and only if it is the finalizer of a cleanup cancelled while that handler held the lock, and the handler has not left. |
| EnhancementIo.RemovalIsExclusive | l0_draft_engine/coordinator.py:1244-1249 | When a job's directory goes, the job has left `jobs`, and it goes by its cleanup, with the lock free and nobody inside, or by the finalizer. |
| EnhancementIo.TheFinalizerCanMeetAHandler | l0_draft_engine/coordinator.py:1244-1251 | A concrete run, from admission to a cancelled cleanup, after which the finalizer removes the directory while a volunteer's handler is inside and the slot is already free. |
| EnhancementIo.NobodyEntersAfterCleanupBegan | l0_draft_engine/coordinator.py:1053-1057 | From the beginning of a cleanup on, hence after any removal of either kind, no handler ever enters, in any continuation; a removed directory stays removed. |
| EnhancementIo.NothingTouchesRemovedFiles | l0_draft_engine/coordinator.py:1244-1249 | After a removal by an uncancelled cleanup no handler of that job is inside, in any continuation. |
| EnhancementIo.SlotsAreReturnedOnce | l0_draft_engine/coordinator.py:1231-1251 | `inflight` is the number of admitted requests whose cleanup is not over, never above the limit, and each gives its slot back at most once, at the end of its cleanup. |
| EnhancementIo.EveryOwnerCanFinish | l0_draft_engine/coordinator.py:1231-1251 | From every reachable state each request can be brought to its end in at most three steps without cancelling its cleanup: slot returned, files gone. |
| TimingCache.RotationEvictsShortestOldestPrefix | l0_draft_engine/coordinator.py:431-441 | After a rotation what is left fits; what went is a least-recently-used prefix and no shorter prefix would do. |
| TimingCache.SurvivesExactlyWhenItFitsWithNewer | l0_draft_engine/coordinator.py:431-441 | A file survives a rotation if and only if it and everything after it in age order fit together. |
| TimingCache.StrictlyNewestSurvives | l0_draft_engine/coordinator.py:401-426 | A put whose time stamp is later than every other is never lost to its own rotation. |
| TimingCache.PutIsSafeExactlyWhenNotOlderFit | l0_draft_engine/coordinator.py:401-441 | A put keeps its record under every directory listing if and only if the files stamped at or after its time, itself included, fit into `max_bytes`. |
| TimingCache.ATieCanLoseTheNewRecord | l0_draft_engine/coordinator.py:431-441 | With equal time stamps it can be lost: a concrete directory where the stored record is evicted at once. |
| TimingCache.CacheAgreesWithAPlainMap | l0_draft_engine/coordinator.py:363-426 | After any sequence of puts and gets each file holds the last record put under its key and is stamped with its last use. |
| TimingCache.HitsAreTheLastPut | l0_draft_engine/coordinator.py:367-399 | A hit is the last record put under that same task and capability, with the asked input digest if one was asked; a miss means no file or another input. |
| TimingCache.CacheAlwaysFits | l0_draft_engine/coordinator.py:401-441 | The total size is within `max_bytes` after every operation. |
| TimingCache.Cache.TotalSize | l0_draft_engine/coordinator.py:436-436 | The summing loop computes the size of the listing. |
| TimingCache.Cache.RotateFiles | l0_draft_engine/coordinator.py:431-441 | The deleting loop computes `Rotate`, about which the lemmas above speak. |
| TimingCache.Cache.PutTiming | l0_draft_engine/coordinator.py:401-426 | New directory and answer are those of `Put`, the refusal of an oversized record included. |
| TimingCache.Cache.GetTiming | l0_draft_engine/coordinator.py:367-399 | New time stamps and hit are those of `Get`. |
| SingleFlight.RunsKeepFlights | l0_draft_engine/coordinator.py:1448-1491 | Every interleaving of uploads, lookups, failures and cancellations keeps the join table, the flights' futures and the cache consistent. |
| SingleFlight.OneFlightPerKey | l0_draft_engine/coordinator.py:1454-1472 | A key has at most one unfinished flight, whose leader is at work, and a key in flight is not cached. |
| SingleFlight.AnswersBelongToTheirInput | l0_draft_engine/coordinator.py:1448-1487 | No upload is answered with a timing computed for another input digest, whether cached, joined or led. |
| SingleFlight.LeaderRemovesItsOwnEntry | l0_draft_engine/coordinator.py:1488-1491 | A returning leader finds its own flight pending in the table and removes that entry and no other; no other flight changes. |
| SingleFlight.RefusedExactlyWhenBoundElsewhere | l0_draft_engine/coordinator.py:1449-1472 | An upload is refused if and only if its key stands for another input, leads if and only if it stands for none, and otherwise the key stands for its input afterwards. |
| SingleFlight.BoundNeverSwitches | l0_draft_engine/coordinator.py:1448-1491 | Cache and flights together act as one map: a key never passes from one input to another without being free in between. |
| SharedAnswers.LeadersAreAnsweredWithTheirContent | l0_draft_engine/coordinator.py:1474-1491 | A leader that returns with content the cache takes is answered with that content under its own input, and its flight resolves to the same record; any other is told nothing is available, its flight resolves to None and the cache stays. |
| SharedAnswers.CachedArrivalsAreAnsweredAtOnce | l0_draft_engine/coordinator.py:1449-1453 | An arrival is answered with a timing if and only if its key is cached for its input: at once, with the cached record, which is stamped. |
| SharedAnswers.ArrivalsJoinTheirFlight | l0_draft_engine/coordinator.py:1454-1463 | An arrival joins if and only if a flight for its key and input is under way, and then that one. |
| SharedAnswers.ResolvedFlightsStay | l0_draft_engine/coordinator.py:1485-1489 | A resolved flight keeps its result, however the run goes on. |
| SharedAnswers.JoinersShareTheLeadersRecord | l0_draft_engine/coordinator.py:1459-1467 | An upload joined to a flight whose leader succeeded can wake, whatever has happened since, and is answered with the leader's record. |
| SharedAnswers.EveryTimingComesFromALeader | l0_draft_engine/coordinator.py:1448-1491 | In any run a timing an upload is answered with, from cache or flight, was returned by a leader of the same task and capability, for that upload's own input. |
| SharedAnswers.FlightsEndWithTheirLeader | l0_draft_engine/coordinator.py:1485-1491 | A flight is over if and only if its leader has returned, and has a record if and only if the leader succeeded. |
| SharedAnswers.UnavailableExactlyWhenDisappointed | l0_draft_engine/coordinator.py:1464-1491 | In any run an upload has been told nothing is available if and only if it led and the backend gave nothing or more than the cache takes, or it gave up waiting, or it woke on a flight whose leader had failed so. |
| SharedAnswers.PutAddsItsRecord | l0_draft_engine/coordinator.py:401-426 | A put is refused if and only if its record exceeds the bound, and then nothing changes; otherwise no record but its own is new. |
| Deadlines.TryBackends | l0_draft_engine/coordinator.py:711-756 | The attempt loop computes `Attempts`: shares of what remains, skips and early ends included. |
| Deadlines.SearchesProceed | l0_draft_engine/coordinator.py:711-756 | Attempts follow one another without pause but lateness, each with the lesser of the backend timeout and its share; the search is answered if and only if the last backend tried answers within its time, none before it did, and it stops unanswered only with no backend or no time left. |
| Deadlines.SharesStayFair | l0_draft_engine/coordinator.py:711-716 | When attempt i of n begins, n - i fair shares are left less the time lost to lateness, however earlier endpoints stalled. |
| Deadlines.PunctualSearchReachesEveryBackend | l0_draft_engine/coordinator.py:857-864 | If attempts end by their timeouts, the search ends inside its phase and, unless answered, tries every backend. |
| Deadlines.OfficialPhaseIsFairAndLeavesTheReserve | l0_draft_engine/coordinator.py:596-599 | Each attempt's share is at least phase / n, the search ends inside its phase, and the phase leaves exactly the lesser of queue and lease time and half of what remained. |
| EnhancementProgress.AnyReportsStoreARun | l0_draft_engine/enhancement.py:127-152 | Whatever updates are sent, those accepted form a run of the transition relation. |
| EnhancementProgress.AcceptedExactlyWhenItContinues | l0_draft_engine/enhancement.py:127-152 | A report is accepted if and only if it describes its track within bounds, with counts its phase can have, and begins with the first track or continues the last report. |
| EnhancementProgress.MaxChunksIsTheCeiling | l0_draft_engine/enhancement.py:129-129 | The largest chunk total is two more than the least number of three-second chunks that hold the track. |
| EnhancementProgress.RunsRise | l0_draft_engine/enhancement.py:127-152 | Any two reports of a run, however far apart, rise weakly in track, phase and completed chunks and agree on an established chunk total. |
| EnhancementProgress.SecondTrackNeedsFinishedFirst | l0_draft_engine/enhancement.py:127-152 | Track 1 is reported only after a stored, finished encoding of track 0. |
| EnhancementProgress.NewReportsAreBounded | l0_draft_engine/coordinator.py:1090-1100 | The number of non-repeating updates is bounded by the two frame counts alone. |
| EnhancementProgress.BoundIsReached | l0_draft_engine/enhancement.py:127-152 | The bound is exact: some run reaches every count up to it. |
| Wav.WalkFindsTheTiling | l0_draft_engine/enhancement.py:201-222 | The chunk walk ends, and succeeds if and only if chunks tile the bytes to the end of the file; it returns that one tiling. |
| Wav.OutputIsAcceptedIffCanonical | l0_draft_engine/enhancement.py:192-232 | With `output` a file is accepted if and only if it is the 44-byte header determined by rate and frame count followed by two bytes a frame, and the header's size fields can hold their values. |
| Wav.AcceptedOutputHasItsDeclaredSize | l0_draft_engine/enhancement.py:96-102 | Metadata that passes `canonical_size` declares exactly the size of that file, and its chunks just cover it. |
| Wav.AllFinite | l0_draft_engine/enhancement.py:233-240 | The block-wise loop is true if and only if every sample of the chunk passes `FiniteAt`, which `FloatSamples` ties to the sample's exponent. |
| Wav.WalkChunks | l0_draft_engine/enhancement.py:199-222 | The loop over stream positions keeps the sole format and audio chunks, and refuses only files that cannot be accepted. |
| Wav.ValidateWav | l0_draft_engine/enhancement.py:192-240 | The validator computes `Accepts`: files are those of `Wav.OutputIsAcceptedIffCanonical` with `output` and those of `FloatSamples.SourcesAreAcceptedExactly` without. |
| FloatSamples.FieldsComeBack | l0_draft_engine/enhancement.py:238-238 | Sign, exponent and fraction of a binary32 word, taken by division, are those it was made of. |
| FloatSamples.EveryWordIsAFloat | l0_draft_engine/enhancement.py:238-238 | And every 32-bit word is made of its own three fields. |
| FloatSamples.FiniteExactlyBelowTheLastExponent | l0_draft_engine/enhancement.py:238-238 | A float sample is let through if and only if its eight-bit exponent is below 255. |
| FloatSamples.EncodedSamplesAreJudgedByTheirExponent | l0_draft_engine/enhancement.py:238-238 | The encoding of every finite number passes and that of every infinity and NaN does not. |
| FloatSamples.SomeSamples | l0_draft_engine/enhancement.py:238-238 | The bytes of 1.0 pass, those of infinity and of a NaN do not. |
| FloatSamples.SourcesAreAcceptedExactly | l0_draft_engine/enhancement.py:192-240 | Without `output` a file is accepted if and only if chunks tile it behind a RIFF header of its size, with one format chunk of PCM16 or float32 that has the declared rate and consistent sizes, one audio chunk of the declared frames, and all float samples finite. |
| FloatSamples.PlainFloatFilesAreAcceptedExactlyWhenFinite | l0_draft_engine/enhancement.py:233-240 | A float file of a 16-byte format chunk and one audio chunk is accepted if and only if all its samples are finite. |
| Fifo.CompleteDropsTheHead | l0_draft_engine/inference_queue.py:94-103 | Completing removes the head if it is that ticket, else nothing; nothing waits while nothing runs. |
| Fifo.AbandonRemovesOne | l0_draft_engine/inference_queue.py:78-92 | Abandoning removes that one ticket from the sequence, wherever it stands. |
| Fifo.PushAppends | l0_draft_engine/inference_queue.py:69-76 | Registering appends at the end. |
| InferenceQueueObject.InferenceQueue.PromoteNext | l0_draft_engine/inference_queue.py:125-131 | The first waiting ticket still active runs and is told so; those before it are passed over. |
| InferenceQueueObject.InferenceQueue.PruneCompleted | l0_draft_engine/inference_queue.py:133-140 | Completed ids and their reports are dropped from the front as `Pruned` says. |
| Memory.PrunedKeepsTheFresh | l0_draft_engine/inference_queue.py:133-140 | A completed id, here and in the coordinator's `prune`, survives if and only if it is in time and among the newest allowed. |
| Memory.PrunedAndDropped | l0_draft_engine/inference_queue.py:133-140 | Pruning splits the remembered ids in two: kept, and dropped with their reports. |
| InferenceQueueObject.InferenceQueue.Register | l0_draft_engine/inference_queue.py:64-76 | Refused if and only if the id is in the line or remembered as completed; else a fresh ticket stands at the end of the line; active table, reports and memory stay consistent. |
| InferenceQueueObject.InferenceQueue.Abandon | l0_draft_engine/inference_queue.py:78-92 | The line loses exactly that ticket and its report goes; a stale ticket changes nothing. |
| InferenceQueueObject.InferenceQueue.Complete | l0_draft_engine/inference_queue.py:94-103 | The running ticket leaves the head and its id is remembered for the time to live; any other ticket changes nothing. |
| InferenceQueueObject.InferenceQueue.UpdateProgress | l0_draft_engine/inference_queue.py:105-108 | Only the running ticket's report is stored, so reports exist for the running and completed ids alone. |
| InferenceQueueObject.InferenceQueue.StatusOf | l0_draft_engine/inference_queue.py:110-123 | A live id is answered with its index in the line, a remembered one as completed, any other with nothing. |
| Handlers.RunsAreSound | l0_draft_engine/app.py:346-387 | Any interleaving of handlers, engine returns and cancellations keeps line, events, slots, ids and ranks consistent. |
| Handlers.OneEngineCall | l0_draft_engine/app.py:82-94 | Whatever is cancelled when, at most one engine call is in progress, for the head of the line, and no other can start meanwhile. |
| Handlers.CallsBeginInOrder | l0_draft_engine/app.py:439-468 | Engine calls begin in the order in which their tickets were registered. |
| Handlers.LiveIdsAreDistinct | l0_draft_engine/app.py:488-511 | No two registered handlers share a request id. |
| Handlers.RegisteredExactlyWhenFree | l0_draft_engine/app.py:346-351 | A handler is refused if and only if another one in the line has its id or it is remembered as completed; otherwise it waits at the end of the line, and is told to go on at once if the line was empty. |
| Handlers.SlotsMatchHandlers | l0_draft_engine/app.py:41-63 | The admission counter equals the handlers that hold a slot, stays within capacity, and is never released without one. |
| Handlers.SomeoneCanGoOn | l0_draft_engine/app.py:346-387 | Until all handlers are gone one of them can go on without a failure, a cancellation or a new request. |
| Handlers.EverythingDrains | l0_draft_engine/app.py:346-387 | Without new requests, whatever fails or is cancelled, there are at most six steps for each request; only cancelling again a call already cancelled is not counted. |
| Handlers.EveryRunCanDrain | l0_draft_engine/app.py:346-387 | From every reachable state some continuation without new request, failure or cancellation ends with every handler released and no slot taken. |
| Handlers.EveryTicketCanBeServed | l0_draft_engine/app.py:352-361 | From every reachable state, for every waiting ticket, some continuation without new request, failure or cancellation brings the engine to work for it. |
| Residency.DraftEngine.CancelIdleTimer | l0_draft_engine/engine.py:99-103 | The generation rises and the timer on record is cancelled. |
| Residency.DraftEngine.EnterSession | l0_draft_engine/engine.py:106-112 | Refused if and only if closed; otherwise one more session and no timer. |
| Residency.DraftEngine.LeaveSession | l0_draft_engine/engine.py:115-132 | The last session to leave unloads a closed engine, or starts a fresh timer of the current generation when models are held and the timeout is positive. |
| Residency.DraftEngine.TakeGpu | l0_draft_engine/engine.py:541-543 | Inside a session the free lock is taken; nothing else changes. |
| Residency.DraftEngine.GiveGpu | l0_draft_engine/engine.py:541-551 | The lock is given back before the session ends. |
| Residency.DraftEngine.GetAsr | l0_draft_engine/engine.py:188-196 | Afterwards the recognizer is loaded, and nothing else has changed. |
| Residency.DraftEngine.GetFormatter | l0_draft_engine/engine.py:198-204 | Afterwards the formatter is loaded, and nothing else has changed. |
| Residency.DraftEngine.EvictIdleModels | l0_draft_engine/engine.py:134-143 | Unloads only on an open engine without sessions and for the current generation. |
| Residency.DraftEngine.UnloadModels | l0_draft_engine/engine.py:145-150 | Every caller can show that the GPU lock is free. |
| Residency.DraftEngine.Close | l0_draft_engine/engine.py:164-170 | Closed, timer cancelled, and unloaded if no session is open. |
| ResidencyRuns.RunsAreSound | l0_draft_engine/engine.py:99-170 | Any interleaving of sessions, GPU hand-overs, loads, timer threads and close keeps sessions, timers and models consistent. |
| ResidencyRuns.UnloadingDisturbsNobody | l0_draft_engine/engine.py:145-150 | Models go only in `_unload_models`; when it runs no session is left and the GPU lock is free. |
| ResidencyRuns.GenerationsAreDistinct | l0_draft_engine/engine.py:125-132 | No two timers share a generation. |
| ResidencyRuns.LoadedAndIdleHasOneTimer | l0_draft_engine/engine.py:118-132 | An engine that holds models without a session, with a positive timeout, is open and has exactly one timer under way that will be heeded. |
| ResidencyRuns.ClosedAndIdleHoldsNothing | l0_draft_engine/engine.py:118-120 | A closed engine without a session holds no model. |
| ResidencyRuns.ClosedExactlyAfterClose | l0_draft_engine/engine.py:164-170 | The engine is closed exactly from its first `close` on, and no session is entered after that. |
| ResidencyRuns.ModelsStayUntilUnloaded | l0_draft_engine/engine.py:145-151 | Both models are gone after `_unload_models`; in every other step a model stays from the one that loads it. |
| ResidencyRuns.StaleTimersNeverEvict | l0_draft_engine/engine.py:134-143 | A timer's callback unloads if and only if nobody entered and nobody closed since the timer was set; otherwise it changes nothing, even past the reach of `cancel`. |
| Activity.Runs | l0_draft_engine/pipeline.py:198-207 | The scanning loop lists the runs of the target value. |
| Activity.RunsOfListsEveryRun | l0_draft_engine/pipeline.py:198-207 | The listing holds exactly the maximal runs. |
| Activity.RunsOfIsRunList | l0_draft_engine/pipeline.py:198-207 | They are in order, apart from each other, and cover every frame of the target value. |
| Activity.RunPass | l0_draft_engine/pipeline.py:210-218 | One pass of slice assignments flips exactly the runs it selects. |
| Activity.SmoothActivity | l0_draft_engine/pipeline.py:210-218 | The two passes in sequence compute `Smooth`, which `Stretches` ties to the raw activity. |
| Activity.RunsAfterAPass | l0_draft_engine/pipeline.py:210-218 | After a pass, the runs of its target are exactly those it did not remove. |
| Activity.SmoothIsNormal | l0_draft_engine/pipeline.py:210-218 | After smoothing every active run has the minimum length and every interior gap is longer than the bridge, both at once. |
| Activity.SmoothFixesExactlyNormal | l0_draft_engine/pipeline.py:210-218 | Smoothing leaves a sequence alone if and only if it is in that form. |
| Activity.SmoothIsIdempotent | l0_draft_engine/pipeline.py:210-218 | Smoothing twice is smoothing once. |
| Stretches.BridgedRunsAreMaximalStretches | l0_draft_engine/pipeline.py:210-214 | After bridging the active runs are exactly the maximal stretches of the raw activity that begin and end active and hold no gap longer than the bridge. |
| Stretches.SmoothRunsAreSpeech | l0_draft_engine/pipeline.py:210-218 | After smoothing they are exactly those of these stretches that have the minimum length. |
| Stretches.ActiveExactlyInSpeech | l0_draft_engine/pipeline.py:210-218 | A frame is active after smoothing if and only if it lies in such a stretch of the raw activity. |
| Stretches.SpeechIsSegmented | l0_draft_engine/pipeline.py:240-323 | Every sample of a frame of such a stretch lies in exactly one segment of the track. |
| Stretches.NothingIsSegmentedExactlyWithoutSpeech | l0_draft_engine/pipeline.py:256-263 | A track has no segment if and only if its raw activity has no such stretch. |
| Segments.SegmentTrack | l0_draft_engine/pipeline.py:240-323 | The whole of `segment_track`: one segment for each chunk between long silences, none if there is no speech; the skipped range and the invalid segment are unreachable. |
| Segments.CoarseRanges | l0_draft_engine/pipeline.py:278-311 | Every pair of neighbouring boundaries yields its range; the searches for active frames always succeed. |
| Segments.MakeSegments | l0_draft_engine/pipeline.py:226-235 | Raises exactly for a range that is negative or empty. |
| Segments.NoPlanMeansSilence | l0_draft_engine/pipeline.py:256-263 | There is nothing to segment if and only if no frame is active. |
| Segments.SegmentShape | l0_draft_engine/pipeline.py:305-311 | Each segment is nonempty, within its boundaries and the track, and reaches over its whole active extent; without padding it is that extent. |
| Segments.SegmentsAreDisjointAndInRange | l0_draft_engine/pipeline.py:265-311 | There is one more segment than interior long silences; each is nonempty and in range, and any two are strictly ordered and disjoint. |
| Segments.ActiveSamplesAreCovered | l0_draft_engine/pipeline.py:278-311 | Every sample of an active frame lies in a segment. |
| Segments.SpeechIsInExactlyOneSegment | l0_draft_engine/pipeline.py:265-316 | And in no other. |
| Segments.UnpaddedSegmentsAreTight | l0_draft_engine/pipeline.py:305-311 | With zero padding segments begin and end on active frames and contain no long silence. |
| Segments.PaddingIsExact | l0_draft_engine/pipeline.py:265-311 | A segment reaches the padding beyond its active extent on either side, but only to the middle of the silence next to it, and not beyond the first and last activity of the track. |
| Words.TranscribeLane | l0_draft_engine/engine.py:317-342 | The nested loops keep, each once and in order, exactly the heard words that, moved by their segment's start, lie inside the segment with positive length and a surface; none is kept otherwise. |
| Words.KeptIsWhatFits | l0_draft_engine/engine.py:322-341 | The kept words correspond one to one, in order, to the heard words that fit, each moved by its segment's start. |
| Words.SortedKeptWordsArePlaced | l0_draft_engine/engine.py:556-559 | Any sort of the kept words by start gives a lane in which each word lies inside a segment. |
| Words.SegmentRowIsItsFilter | l0_draft_engine/engine.py:423-427 | The bisected slice of a segment equals the filter "midpoint in [start, end)". |
| Words.RowsSpellTheLane | l0_draft_engine/engine.py:413-439 | A lane's rows, one after the other, are exactly its words: none lost, doubled or moved. |
| Words.GroupLane | l0_draft_engine/engine.py:413-439 | The grouping loop computes the spoken rows of a lane, or the error when there are words but no row holds any. |
| Words.SpokenRowsSpellTheLane | l0_draft_engine/engine.py:413-439 | For words kept by the segments that error cannot occur; the rows spell the lane and their starts rise strictly. |
| Words.DraftSpellsEveryLane | l0_draft_engine/engine.py:664-675 | Sorting the draft's rows by time leaves each lane's rows in order, whatever the other lanes hold and however ties between lanes fall. |
| Words.PreservedRowsAreExactIffMidpointsAreSorted | l0_draft_engine/engine.py:368-376 | For rows with arbitrary bounds the bisected slice is the filter for every row if and only if midpoints are sorted. |
| Words.EndsRisingSortMidpoints | l0_draft_engine/engine.py:363-366 | They are when words sorted by start also end in that order. |
| Words.ALongWordIsMisplaced | l0_draft_engine/engine.py:368-376 | They need not be: a long word around a short one lands in a row that ends before its midpoint. |
| Rendering.CapitalizeToken | l0_draft_engine/production_text.py:31-38 | The scanning loop computes `Capitalized`. |
| Rendering.CapitalizedTouchesTheFirstCased | l0_draft_engine/production_text.py:31-38 | Only the first character that has case is replaced, by its upper case. |
| Rendering.ApplyBoundaryLabels | l0_draft_engine/production_text.py:43-78 | The loop returns the glued pieces and the next start, or the first error in the order the code checks. |
| Rendering.FormatLanes | l0_draft_engine/production_text.py:81-96 | Rows are rendered one after the other, each from the state the last one left; the first error ends it. |
| Rendering.RenderingIsLossless | l0_draft_engine/production_text.py:43-78 | For words free of blanks and marks, tokenizing the rendered row gives back the words in order, up to capitalization and with the same folded signature. |
| Rendering.RowsAreAcceptedAsOne | l0_draft_engine/production_text.py:81-96 | Rows with as many labels as words are accepted if and only if the same words and labels are accepted as one row; other rows are refused. |
| Rendering.RowPiecesAreTheLanes | l0_draft_engine/production_text.py:81-96 | However a lane is split into rows, empty rows included, every word gets the same capitalization and mark as in one row. |
| Rendering.RowTextsAreTheirPieces | l0_draft_engine/production_text.py:81-96 | Each returned text is that of its row's pieces. |
| Rendering.LanesAreLossless | l0_draft_engine/production_text.py:81-96 | Tokenizing all texts of a lane gives back all its words in order, up to capitalization. |
| RowText.MarksOfTheLabels | l0_draft_engine/production_text.py:6-19 | The marks of the twelve labels. |
| RowText.RowsAreAcceptedWordByWord | l0_draft_engine/production_text.py:43-78 | A row is accepted if and only if there is a label for each word, every word is visible, every label one of the twelve, and no word that is capitalized changes its fold. |
| RowText.TheFirstFaultIsRaised | l0_draft_engine/production_text.py:60-65 | The first word that is blank or has an unknown label decides the error. |
| RowText.EmptyRowsReadEmpty | l0_draft_engine/production_text.py:53-54 | A row without words has no text and leaves the sentence state. |
| RowText.OneMoreWordReads | l0_draft_engine/production_text.py:60-78 | One more word adds a space unless it is first or joined by a hyphen, the word, capitalized if the row begins a sentence there or the mark before it is ".", "?" or "!", and its mark. |
| RowText.LanesCapitalizeSentences | l0_draft_engine/production_text.py:81-96 | Across the rows of a lane a word is capitalized if and only if it is the first or the mark before it is ".", "?" or "!". |
| Drafting.SegmentsStandInOrder | l0_draft_engine/pipeline.py:278-316 | The segments of any track, in seconds, are nonempty, ordered and disjoint: what word placement needs. |
| Drafting.EveryKeptWordIsInTheDraft | l0_draft_engine/engine.py:413-477 | From activity to text: reading the texts of a lane's rows gives every kept word exactly once, in order of start, up to capitalization. |
| Drafting.TheDraftReadsBack | l0_draft_engine/engine.py:658-675 | The whole draft: with both lanes' rows sorted by time and their texts looked up by row id, reading either lane's rows in the order of the draft gives every word kept in that lane exactly once, in order of start, up to capitalization. |
| Windowing.SearchRangeIsRoomy | l0_draft_engine/gigaam_asr.py:57-62 | While more than 24 seconds remain, the search covers 20 to 24 seconds on and every energy slice is in range, so the fallback cut is unreachable. |
| Windowing.SilenceBoundaries | l0_draft_engine/gigaam_asr.py:43-75 | The loop ends and returns a windowing; "failed to advance" is unreachable. |
| Windowing.QuietestCut | l0_draft_engine/gigaam_asr.py:64-69 | The search returns what Python's `min` over the range does. |
| Windowing.WidthIsNearest | l0_draft_engine/gigaam_asr.py:56-56 | The energy window is the sample count nearest to 0.12 seconds, without ties. |
| Windowing.StrideIsHalfTheWidth | l0_draft_engine/gigaam_asr.py:65-65 | Places are tried at half that distance, rounded down, but never at none. |
| Windowing.SquaresAdd | l0_draft_engine/gigaam_asr.py:66-68 | Sums of squares add up over slices, and that of one sample is its square. |
| Windowing.EnergyIsAMeanSquare | l0_draft_engine/gigaam_asr.py:66-68 | The energy of a slice lies between its least and its greatest square. |
| Windowing.CutsAreQuiet | l0_draft_engine/gigaam_asr.py:64-69 | A cut is at most as loud as any place tried and quieter than any tried before it. |
| Windowing.WindowsAreBounded | l0_draft_engine/gigaam_asr.py:55-75 | Windows are contiguous, at most 24 seconds, all but the last at least 20, strictly advancing for nonempty audio; empty audio gives [0, 0]. |
| Windowing.WindowingIsUnique | l0_draft_engine/gigaam_asr.py:55-75 | No other list of boundaries is a windowing of the same audio. |
| Windowing.WindowsSpellTheRecording | l0_draft_engine/gigaam_asr.py:131-138 | The windows put together are the recording. |

## Left out

- HTTP routing, middleware, multipart parsing, streaming and header checks: framework plumbing.
- Calls to backends, to the recognizer, to the label model and to audio tools: their outcomes and durations are arbitrary inputs. The throughput order of backends is an arbitrary order of the list of backends.
- The decibel computation and its threshold: a frame is active or not.
- File-system failures, fsync and the recovery from corrupt cache files: the cache is an in-memory store. The listing of its directory is an arbitrary permutation of it.
- Floating-point rounding in timestamps, averages and energies: exact arithmetic throughout.
- `idle_capacity` only decides whether a job goes on to the queue after the official backends; the steps let it go on in either case.
- Settings validation, schema field checks, authentication of owners, health reports, install and launch scripts.
- The draft route takes timing from the client: words it sends that no segment kept are grouped as the code groups them (`Words.GroupLane`), and conservation is stated for words the segments kept.
- EnhancementIo.FilesArePresentUntilFinalized: speaks of the handlers that take `io_lock`. The owner's own coroutine also writes to the directory, without the lock, when it receives an official result (coordinator.py:827-846); it ends before the cleanup begins and is no handler here.
- LeaseSafety.StepKeeps: the progress route's extra check that a report fits its payload's schema is taken as given by the schema.
- Handlers.SomeoneCanGoOn: `asyncio.create_task` itself is taken not to fail; the draft route, unlike the other two, would then keep its ticket. The loop that waits for a cancelled handler's worker is the step from a cancelled call to its return.
- Windowing.SilenceBoundaries: only the default target, maximum and search lengths, which are the only ones used.
- ResidencyRuns.RunsAreSound: what loading and unloading do to device memory.
- The browser engine's own session handling and its remote calls.
