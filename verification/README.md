# Race event state machine of sunny_5_skiers, in Dafny

This project models the core of a biathlon-style race replayer. A feed of timed
events (registration, start draw, start, firing range, shots, penalty loop, lap
completion, withdrawal) is processed one event at a time against a map of
competitor records and a race-wide current lap. The state machine emits two
synthesized events: Finished (kind 33) and Disqualified (kind 32).

Everything is pure. The race state is the datatype `Race.RaceState`: a
`map<int, Competitor>` plus the current lap. `Race.Step` is `ProcessEvent`:
`EnsureCompetitor` (`getCompetitor`) followed by `Race.Handle`, the dispatch on
the event kind. Each handler of `processor.go` is one function in `Handlers` or
`Shooting`. It returns the new competitor record, or the error the source
returns.

Modules:

- `Wrappers`: `Option`, `Result`, `Max`.
- `Models`: the competitor record and its zero value, the configuration, and
  clock times as milliseconds since midnight. `Instant` places stored times on
  Go's absolute time line.
- `Events`: the event kinds (1–11 inbound; 32 and 33 outbound), the errors, the
  outbound trace, and the hit decision `HitOracle`.
- `Shooting`: the three-level statistics (lap → firing line → shot outcomes),
  the range-entry growth, and hit counting.
- `Handlers`: one function per handler.
- `Race`: `Handle`, `Step`, the feed loop `Run`, and the invariant `Valid`
  with its preservation proofs.
- `Scenarios`: short feeds replayed through `Step`, and range visits and a
  two-lap race proved over the handlers.

Modelling choices:

- **Failed events still create the competitor.** The source creates the
  competitor before it dispatches. So `Step` returns a `StepResult(race, out, err)`
  and not a bare `Result`. When an event fails after a well-formed timestamp,
  the race is `EnsureCompetitor(race, id)`. Nothing else changes.
- **Unset times are `None`.** An unset `ScheduledStart`, like every unset time
  field, is Go's zero `time.Time`: 0001-01-01. Every parsed clock time lies on
  0000-01-01, which is 366 days earlier. `Handlers.Start` states lateness on
  these absolute instants. As a result, a start without a drawn start time is
  never late.
- **Go's parsers are parameters.** `time.Parse` with the event layout and
  `fmt.Sscanf("%d")` are the partial functions `Env.clock` and `Env.toInt`.
  `determineHit` is `Env.hit`. The source's version is `Events.AlwaysHit`.
  The `startDelta` of `Config` is the already-parsed "15:04:05" window in
  seconds. A window that does not parse counts as zero.
- **Finished and disqualified competitors are not blocked.** Any event is still
  processed for them, and `Finished` can be emitted again on a later lap.

Behaviours of the code worth knowing:

- A range entry appends at most one statistics entry, and only while there
  are no more entries than the current lap. That entry can land below the
  current lap, and the shots that follow are then rejected.
  `Shooting.InitReachesCurrentLapIff` states when an entry for the current lap
  exists, and `Scenarios.EntryBehindCurrentLapScenario` shows a rejected shot.
- Both the shot handler and the range-exit handler charge misses. With the
  source's always-hit decision, only shots that were never fired are charged,
  at the exit. With a decision that can miss, one miss is charged twice
  (`Scenarios.MissChargedTwice`). The model keeps both charges.

## Model

| member | source | states |
|---|---|---|
| Models.NewCompetitor | sunny_5_skiers/core/models.go:7-21 | a new record carries only its id: not registered, finished or disqualified; no laps, no penalty laps, no statistics; unset times; zero bookkeeping |
| Models.ZeroTimeSortsLast | sunny_5_skiers/core/models.go:10 | the unset (zero) time lies after every parsed clock time, even when either is shifted by a start window |
| Handlers.Register | sunny_5_skiers/core/processor.go:103-110 | fails with AlreadyRegistered exactly when the competitor is already registered, changing nothing; otherwise sets the flag and changes nothing else |
| Handlers.SetStartTime | sunny_5_skiers/core/processor.go:113-121 | fails exactly when the start-time parameter does not parse; otherwise only the scheduled start changes, to the parsed time |
| Handlers.Start | sunny_5_skiers/core/processor.go:123-141 | the actual start is always the event time; the competitor is disqualified, with one Disqualified event carrying the deadline, iff the start instant is strictly after the scheduled instant plus the window; a start exactly at the deadline is not late; an unparsable window counts as zero |
| Handlers.DeltaMillis | sunny_5_skiers/core/processor.go:127-133 | the start window is its hours, minutes and seconds in milliseconds; a window that does not parse counts as zero |
| Handlers.Disqualify | sunny_5_skiers/core/processor.go:249-253 | sets only the disqualified flag and emits one kind-32 event for the competitor with the given reason |
| Handlers.EnterRange | sunny_5_skiers/core/processor.go:143-150 | fails with no change iff the line number is outside 1..FiringLines; on success only the statistics change: one new entry of FiringLines empty lines when the entries do not go past the current lap, and no change otherwise |
| Shooting.InitShootingStats | sunny_5_skiers/core/processor.go:152-156 | keeps every existing entry and appends exactly one empty entry iff the entry count is at most the current lap |
| Shooting.InitReachesCurrentLapIff | sunny_5_skiers/core/processor.go:152-156 | after the range entry, an entry for the current lap exists iff the statistics already had at least current-lap entries |
| Handlers.Shot | sunny_5_skiers/core/processor.go:158-180 | fails with no change iff the current lap has no entry (InvalidLap) or that entry has no lines (InvalidLine 0); otherwise appends the decided outcome to line 0 of the current lap only, adds one hit for a hit, adds one penalty lap iff the shot misses, and changes nothing else |
| Handlers.LeaveRange | sunny_5_skiers/core/processor.go:187-200 | fails under the same missing-entry condition; otherwise penalty laps grow by 5 minus the hits on line 0 when fewer than five hits were recorded, and by nothing otherwise; the statistics are never modified |
| Shooting.Hits | sunny_5_skiers/core/processor.go:202-210 | the number of hits never exceeds the number of shots |
| Shooting.CountHits | sunny_5_skiers/core/processor.go:202-210 | the counting loop returns the number of true outcomes, which is at most the number of shots |
| Shooting.HitsIsTrueCount | sunny_5_skiers/core/processor.go:202-210 | the hit count equals the multiplicity of true among the outcomes |
| Shooting.HitsAppend | sunny_5_skiers/core/processor.go:168-172 | recording one more outcome raises the hit count by one exactly for a hit |
| Shooting.HitsAllTrue | sunny_5_skiers/core/processor.go:202-210 | a line of n hits counts n |
| Handlers.EnterPenalty | sunny_5_skiers/core/processor.go:212-218 | fails with NoPenaltyOwed iff no penalty lap is owed; never changes the record |
| Handlers.LeavePenalty | sunny_5_skiers/core/processor.go:220-227 | fails iff no penalty lap is owed; otherwise exactly one penalty lap is paid off, the count stays non-negative, and nothing else changes |
| Handlers.CompleteLap | sunny_5_skiers/core/processor.go:229-247 | one more completed lap; the competitor finishes and exactly one kind-33 event stamped with the lap time is emitted iff the lap count reaches the configured laps with no penalty lap owed; an earlier finish does not prevent a new one |
| Race.EnsureCompetitor | sunny_5_skiers/core/processor.go:263-268 | afterwards the id has a record; an existing record is kept; a missing one is created as the zero record; no other id is added |
| Race.Handle | sunny_5_skiers/core/processor.go:68-101 | the dispatch on the event kind: an unknown kind fails with UnknownEventKind; a range entry or shot whose parameter is not an integer fails with InvalidInt; a successful handler never clears a flag or lowers the lap count or changes the id; only a lap completion changes the lap count, and it always succeeds with one more lap |
| Race.Step | sunny_5_skiers/core/processor.go:60-102 | a malformed timestamp fails before any record is created; otherwise the record exists afterwards; a failed event leaves only the created record and emits nothing; unknown kinds fail; a range entry or shot whose parameter is not an integer fails with InvalidInt; other competitors never change; the current lap only grows, and only a lap completion moves it, to that competitor's lap count |
| Race.StepPreservesValid | sunny_5_skiers/core/processor.go:60-102 | every event, successful or not, keeps the race invariant: records filed under their ids, penalty laps never negative, every lap count at most the current lap, statistics no longer than current lap + 1 and shaped by FiringLines, finished implies all laps done, bookkeeping at zero, and the current lap equal to the largest lap count |
| Race.HandleKeepsOk | sunny_5_skiers/core/processor.go:68-101 | every successful handler keeps a record healthy at the lap the race has afterwards: the current lap, or for a lap completion the larger of the current lap and the new lap count |
| Race.EnterRangeKeepsOk | sunny_5_skiers/core/processor.go:143-156 | a range entry keeps a healthy record healthy: at most one entry is added, with FiringLines lines |
| Race.ShotKeepsOk | sunny_5_skiers/core/processor.go:158-180 | a shot keeps the shape of the statistics and never lowers the penalty laps |
| Race.Run | sunny_5_skiers/core/processor.go:284-311 | the loop processes events in order and drops each error: no record disappears, the current lap never falls, and every new record belongs to an id some event names; RunAppend and RunFollowsSteps state how the replay composes and that it follows the steps |
| Race.RunPreservesValid | sunny_5_skiers/core/processor.go:284-311 | replaying any feed, with per-event errors dropped, keeps the invariant |
| Race.FeedInvariants | sunny_5_skiers/core/processor.go:212-247 | after any feed from the empty race: penalty laps are never negative, finished competitors have completed all laps, the current lap is the maximum of the lap counts, and TotalTime, FirstEvent, LastEvent and EventsCount stay at their zero values |
| Race.RunAppend | sunny_5_skiers/core/processor.go:284-311 | replaying a feed in two pieces gives the same state and the same outbound events as replaying it whole |
| Race.RunFollowsSteps | sunny_5_skiers/core/processor.go:284-311 | a feed whose events all succeed replays to its last state and emits the outbound events of each step, in order |
| Race.StepAdvances | sunny_5_skiers/core/processor.go:60-102 | no event removes a record, clears a registered, finished or disqualified flag, lowers a lap count, or lowers the current lap |
| Race.RunAdvances | sunny_5_skiers/core/processor.go:284-311 | over a whole feed no record disappears, no flag is cleared, and no lap count or current lap falls |
| Race.RegistrationTwiceRejected | sunny_5_skiers/core/processor.go:103-110 | a second registration of the same id always fails with AlreadyRegistered and changes nothing |
| Race.OnStartLineOnlyCreates | sunny_5_skiers/core/processor.go:73-74 | OnStartLine succeeds, emits nothing and only creates the record |
| Race.CannotContinueDisqualifies | sunny_5_skiers/core/processor.go:97-98 | CannotContinue always succeeds and disqualifies, emitting one kind-32 event with reason "NotFinished: " followed by the parameter |
| Race.LapCompletedOutcome | sunny_5_skiers/core/processor.go:229-241 | a lap completion adds one lap, sets the current lap to the maximum of the old value and the new count, and emits Finished iff all laps are done with no penalty lap owed |
| Race.InitialValid | sunny_5_skiers/core/processor.go:52-57 | the empty race satisfies the invariant |
| Scenarios.LateStartScenario | sunny_5_skiers/core/processor.go:123-141 | start drawn at 10:00:00.000 with a 5 s window, started at 10:00:06.000: disqualified, with deadline 10:00:05.000 |
| Scenarios.StartAtDeadlineScenario | sunny_5_skiers/core/processor.go:135-140 | a start exactly at the deadline is recorded and not disqualified |
| Scenarios.UndrawnStartScenario | sunny_5_skiers/core/models.go:10 | with no start time drawn, a start at 23:59:59.999 is not late |
| Scenarios.ShotBeforeRangeScenario | sunny_5_skiers/core/processor.go:158-191 | a shot or a range exit before any range entry fails (InvalidLap 0 / InvalidLine 0) and leaves the state as it was |
| Scenarios.EntryAfterOtherLap | sunny_5_skiers/core/processor.go:143-156 | after another competitor's lap the current lap is 1, and a first range entry succeeds with a single statistics entry |
| Scenarios.EntryBehindCurrentLapScenario | sunny_5_skiers/core/processor.go:152-161 | after another competitor's lap, a first range entry adds only the lap-0 entry, so the next shot fails with InvalidLap 1 |
| Scenarios.AllHitShots | sunny_5_skiers/core/processor.go:158-180 | k shots that all hit append k hits to line 0 and change nothing else, no penalty included |
| Scenarios.VisitPenalty | sunny_5_skiers/core/processor.go:187-199 | a range visit with k hits leaves 5 − k penalty laps when k < 5 and none otherwise |
| Scenarios.Visit | sunny_5_skiers/core/processor.go:143-200 | a full range visit with k hits adds one statistics entry, leaves 5 − k penalty laps when k < 5 and none otherwise, and changes nothing else |
| Scenarios.TwoLapRace | sunny_5_skiers/core/processor.go:229-247 | two laps, one firing line, five hits then k hits: the competitor finishes on lap 2 iff k = 5; otherwise 5 − k penalty laps are owed and no finish is emitted |
| Scenarios.MissChargedTwice | sunny_5_skiers/core/processor.go:176-195 | with a decision that misses, one missed shot on an empty line costs 1 + 5 penalty laps: once at the shot and again at the exit |

## Left out

- Reading the event file (`ProcessEventsFromFile`, processor.go:276-318): this is file I/O. Only its loop is modelled, as `Race.Run`, which processes events in order and drops their errors. Splitting lines into fields, and the panic on an empty prefix before `"] "`, are not modelled.
- `main.go`: it only wires things together.
- `config.LoadConfig`: it is JSON file I/O. `Config` is an immutable parameter. `LapLen`, `PenaltyLen` and `Start` are never read by the state machine, so they are omitted.
- The `Logger` and every console message: output only. Synthesized events are kept as the abstract trace `Outbound`.
- The late-start reason text, including its formatted deadline: console wording. The deadline itself is kept in `LateStart`.
- The `time.Now()` stamp on a disqualification: it is a wall-clock read. `Disqualified` carries no time.
- Go's `time.Parse` and `fmt.Sscanf`: library behaviour, supplied as the parameters `Env.clock` and `Env.toInt`. The `Scenarios` fixture parsers read only the well-formed texts the scenarios use.
- The shot's target number: the source only parses it and prints it, so the model parses it and then ignores it.
- 64-bit wrap-around of `LapsCompleted`, `PenaltyLaps` and `CurrentLap`: these counters are unbounded integers here. No event adds more than five to any of them, so overflow would take more than 2^60 events.
