# ADTickPlatform in Dafny

A model, in Dafny 4.11, of the rules that ADTickPlatform (an attack-defence capture-the-flag
engine) plays by, with machine-checked proofs about them. `dafny verify dfyconfig.toml` checks
the whole project.

| part | files |
|---|---|
| game core: store, submissions and ticks as interleaved atomic steps, one submission call | `GameStore.dfy`, `GameRun.dfy`, `SubmitFlags.dfy`, `CaptureRuns.dfy` |
| scoring over exact reals: postings, what the numbers are, the ranked board, the recomputation | `Postings.dfy`, `Scoring.dfy`, `Scoreboard.dfy`, `Recompute.dfy` |
| small concurrent protocols: debounced recompute, interval scheduler, match window and its monitor | `Debounce.dfy`, `Scheduler.dfy`, `MatchWindow.dfy`, `MatchMonitor.dfy` |
| firewall policy compiler, in its nftables and its iptables form | `Firewall.dfy` |
| token-bucket rate limiter | `TokenBucket.dfy` |
| checker pipeline: frame codec, batch results, service states, ticks, paged listing | `CheckerBatch.dfy`, `BatchRunner.dfy`, `ServiceState.dfy`, `TickRun.dfy`, `CheckerPipeline.dfy`, `SlaScan.dfy` |
| codecs: flags, base64url, CSV | `FlagCodec.dfy`, `Base64Url.dfy`, `Csv.dfy` |
| shared text and option helpers | `Text.dfy`, `Common.dfy` |

How it is built:

- Code that updates things step by step is imperative here too (classes for the store, the
  limiter, the scheduler, the monitor and the debouncer; methods with loops for renderers,
  parsers, scans and the scoreboard), and each such method is proved equal to a function of
  its inputs or of the old state. The theorems are about those functions.
- A lock-protected method is one atomic step, and a function that takes the lock several
  times (a submission, a tick, a monitor poll) is several steps that others may fall between.
  Concurrent behaviour is a list of actions, and a theorem "over every run" quantifies over
  every such list.
- Maps are ranged over in any order: each round of a loop takes an arbitrary key that is left.
- Scores are `real`; the 0.75-th power, the square root, the keyed hash (to 64 hex characters)
  and the event digest are arbitrary functions.

Findings, each with an input that shows it and the exact condition under which the property holds:

- The two firewall backends agree on every packet exactly when no open service has a zero
  port; with a zero port iptables emits rules that nftables leaves out (`BackendsAgreeIff`,
  `ZeroPortSeparates`).
- Policy order matters for a packet exactly when it opens a connection between two different
  listed services whose policies contradict each other: the sender blocks its way out and the
  receiver admits it, or it leaves by WireGuard from the sender's service port and the receiver
  refuses it (`OrderMattersIff`; an instance is `OrderMattersBetweenServices`).
- A monitor poll that an organiser's command falls into can leave a finished match with access
  applied for a running one only, or undo a pause (`StopDuringPoll`, `PauseDuringPoll`). A poll
  ends in the state it set out for, with access settled for it, exactly if no command stopped
  the match before the poll started it and those after its last write lead back to that state
  (`PollEnds`, `StaysRunningIff`); the next undisturbed poll puts it right (`NextPollSettles`).
- The effective match status is a fixed point exactly unless the window closes before it
  opens and both times have passed (`IdempotentIff`, `BackwardsWindowIsNotIdempotent`).
- A rate that prints as `0.000000` makes key expiry visible; for every other rate, and for
  all declared policies, it is not (`TtlRefillsIff`, `ZeroRateExpiryMatters`).
- The memory and Postgres refresh rules differ on a skipped run with an unrecognised report
  over an existing state, and on nothing else (`RefreshAgreesIff`, `UnrecognizedReportSeparates`);
  the tick code never emits such a run.
- In a store that a run can reach, the in-memory scoreboard recomputation dereferences nil
  exactly when a submission was accepted from a team the store does not list (`PanicsIff`);
  the submission is then already stored. `UnlistedTeamPanics` gives such a run for every store
  with an open service, and `ListedTeamsNeverPanic` rules it out when only listed teams submit.
- A configured checker order can end in `recovering` exactly when it has all three phases with
  put last, and does so exactly when put alone fails (`CanRecoverIff`, `RecoveringIff`).

## Model

| member | source | states |
|---|---|---|
| `GameRun.EveryRunIsSafe` | services/game-core/store.go:333-437 | over every interleaving of submissions, ticks, checker runs, match commands, maintenance, prefix reloads and reaping: tick ids are 1..n with only the last possibly running; every accepted submission is filed under its own (flag, team) key, is for an issued flag of another team and was accepted in the tick that issued the flag; feed events and accepted submissions correspond one to one |
| `GameRun.StepKeepsSafe` | services/game-core/server.go:1360-1455 | the invariant behind it, kept by each atomic step from any state that satisfies it, including half-finished submissions and ticks |
| `CaptureRuns.CapturableIsAccepted` | services/game-core/server.go:1395-1450 | the other direction: a flag issued this tick under the prefix in force, not owned by the submitter, on an open service of a running match, not yet submitted by that team, is accepted when its parse, lookup, maintenance check and acceptance run undisturbed |
| `CaptureRuns.AnyTeamCanCapture` | services/game-core/server.go:1379-1450 | from boot, for every store with an open service, an explicit run in which any team but the owner, listed or not, has its flag accepted |
| `CaptureRuns.UnlistedTeamPanics` | services/game-core/store.go:485-497 | that run by an unlisted team leaves a store on which the recomputation fails |
| `CaptureRuns.ListedTeamsNeverPanic` | services/game-core/store.go:485-518 | over every run whose submitting teams are all listed, the recomputation never fails |
| `GameRun.OnlyWhileOpen` | services/game-core/store.go:393-418 | a submission enters the store only in an acceptance step, while the stored match is running and accepting, with its service neither in maintenance nor deferred, and is stamped with the current tick |
| `GameRun.SubmissionsComeAndGo` | services/game-core/server.go:1360-1378 | over any action, a submission call is admitted only while the match is effectively running, and goes only by its own last step |
| `GameRun.TicksComeAndGo` | services/game-core/server.go:857-884 | a tick is admitted only while the match is effectively running, and goes only when another is in progress, when it is completed or when it is given up |
| `GameRun.TeamNameReads` | services/game-core/store.go:322-331 | a submitter goes by the name of its team's first target, or by its number if it has none |
| `GameRun.TickLists` | services/game-core/store.go:239-268 | a tick works on exactly the targets whose service is neither in maintenance nor deferred past every tick there is |
| `GameRun.TickPlants` | services/game-core/server.go:1249-1343 | per target a tick makes up one flag under the prefix in force, for the target's owner and service, that expires with the tick |
| `GameRun.FlagsAreMadeUp` | services/game-core/server.go:1332-1346 | flags enter the store only when the tick that made them up persists them |
| `GameRun.OrganizersTouchStoreOnly` | services/game-core/store.go:620-733 | an organiser's action changes no call under way and nothing that has been recorded |
| `GameRun.AcceptedForever` | services/game-core/store.go:418-424 | what has been accepted stays recorded unchanged over every later run |
| `GameRun.DuplicateIff` | services/game-core/store.go:420-423 | an otherwise acceptable submission is turned away as a duplicate if and only if the same team already has the same flag accepted |
| `GameRun.SameTextSameClaims` | services/game-core/store.go:376-381 | two genuine flag records with the same text carry the same owner, challenge and ticks, even across a change of prefix, so overwriting a flag record changes no claim |
| `GameRun.AcceptedInIssuingTick` | services/game-core/store.go:402-408 | the tick re-read under the lock equals the flag's issuing tick, since it is neither later than the expiry nor earlier than the issue |
| `GameRun.GatesAgree` | services/game-core/store.go:409-418 | acceptance applies exactly the gate the maintenance check reads, and only to challenge ids above zero |
| `GameRun.PanicsIff` | services/game-core/store.go:485-518 | in a reachable store the recomputation succeeds if and only if every accepted submission comes from a listed team |
| `GameRun.CaptureMovesScores` | services/game-core/store.go:393-437 | in a reachable store, one accepted submission of a flag with c earlier captures gives the submitter 1+1/(c+1), takes 1/(c(c+1)) from each earlier capturer, moves the owner's defence by p(c)-p(c+1), all on that service only, raises total attack by 2 if c = 0 and by 1 otherwise, and changes no other number |
| `SubmitFlags.SubmitFlags` | services/game-core/server.go:1360-1455 | the loop over submitted texts refuses exactly when the effective match is not running, and otherwise leaves the store and gives the answers of the turn-by-turn function; it crashes exactly at the first text that is accepted and leaves the recomputation with an unlisted team |
| `SubmitFlags.SubmitText` | services/game-core/server.go:1390-1448 | one text: blank, repeated, unparsable, expired, own, unissued, in maintenance, no longer valid, duplicate or accepted, with the new store |
| `SubmitFlags.BatchIsRun` | services/game-core/server.go:1388-1450 | undisturbed, the texts of a call are a run of the interleaved steps, so the safety theorem covers them |
| `SubmitFlags.CallIsRun` | services/game-core/server.go:1360-1455 | the same for the whole call, from its reads of match, tick and team name on |
| `SubmitFlags.AnswersAreTrue` | services/game-core/server.go:1416-1450 | for every list of texts: as many "accepted" answers as new entries, each for the entry of its own text and team, never two for the same text |
| `SubmitFlags.TurnSays` | services/game-core/server.go:1390-1448 | what each answer means, from store and text: "duplicate" iff the trimmed text was seen in this call or passes every check with an entry of the same flag and team on record; "maintenance" iff it parses, matches its issued record and its service is gated; "accepted" iff it passes every check with no such entry, and then it is stored with its attacker, victim, service and the current tick; "invalid" in exactly the remaining cases |
| `SubmitFlags.AnswersSay` | services/game-core/server.go:1388-1450 | every answer of a call of any length is what the store just before it, the texts before it and its own text say in that sense |
| `GameStore.AcceptIsOneEntry` | services/game-core/store.go:418-424 | an accepted submission adds exactly one new entry to what the scores are computed from |
| `GameStore.AcceptReads` | services/game-core/store.go:393-434 | the acceptance function in the store's own fields: no longer valid exactly unless the match is running and accepting, the highest tick is no later than the expiry and the service is open; otherwise a duplicate exactly when the `flag:team` key is taken; otherwise one stamped entry under that key and one feed event in front |
| `GameStore.MemoryGameStore.AcceptFlagSubmission` | services/game-core/store.go:393-437 | verdict, accepted map and feed are those of the acceptance function of the old store; after acceptance the board is the board of the new store, unless the recomputation fails, and then the board is the old one |
| `GameStore.MemoryGameStore.FileSubmission` | services/game-core/store.go:393-434 | verdict and new store are exactly those of the acceptance function, nothing else changes, and the verdict is "no longer valid" exactly when the match, the highest tick or the service does not admit the submission now |
| `GameStore.MemoryGameStore.Recompute` | services/game-core/store.go:446-452 | fails exactly on unknown teams or services and otherwise installs a correct board |
| `GameStore.MemoryGameStore.BeginTick` | services/game-core/store.go:333-348 | appends a running tick with the next id, or reports one in progress, exactly when a tick is running, and changes nothing |
| `GameStore.MemoryGameStore.CompleteTick` | services/game-core/store.go:704-716 | replaces the first tick with that id, changes no other, and says whether there was one |
| `GameStore.MemoryGameStore.ReapRunningTicks` | services/game-core/store.go:718-733 | marks every running tick failed, leaves the others, and returns how many were running |
| `GameStore.MemoryGameStore.IsChallengeInMaintenance` | services/game-core/store.go:271-293 | true exactly for a listed challenge in maintenance or deferred past the highest tick |
| `GameStore.SwitchingReads` | services/game-core/store.go:297-320 | maintenance closes a service at every tick and clears its deferral, a deferral opens it from its tick on, and no other service is touched |
| `GameStore.MemoryGameStore.IssueFlag` | services/game-core/store.go:376-381 | stores the record under its flag text |
| `GameStore.MemoryGameStore.LookupIssuedFlag` | services/game-core/store.go:383-391 | finds a record exactly when the flag text is on record |
| `GameRun.CompleteKeepsOrder` | services/game-core/store.go:704-716 | completing any tick with a final status keeps ids 1..n and the rule that only the last may run |
| `Scoring.SubmissionKeyInjective` | services/game-core/store.go:2450-2452 | `flag:team` keys are equal only for equal flags and equal teams, whatever characters the flag holds |
| `Scoring.TotalAttack` | services/game-core/store.go:485-497 | all attack postings together are worth the number of accepted submissions plus the number of distinct captured flags |
| `Scoring.AcceptMovesAttack` | services/game-core/store.go:485-497 | attack change of every team and every cell on one more capture: 1+1/(c+1), -1/(c(c+1)) or nothing |
| `Scoring.AcceptMovesDefense` | services/game-core/store.go:499-508 | defence change of every team and every cell on one more capture: the owner gains p(c) - p(c+1), p being the given power of the capture count and zero at none |
| `Scoring.AcceptKeepsSla` | services/game-core/store.go:510-524 | a capture changes no SLA number |
| `Scoring.AcceptRaisesTotalAttack` | services/game-core/store.go:485-497 | total attack rises by 2 on a first capture and by 1 otherwise |
| `Scoring.SlaIsScaledSum` | services/game-core/store.go:510-524 | scaling each posting equals scaling the sums, as the recomputation does |
| `Scoring.SlaCounts` | services/game-core/store.go:510-524 | the SLA number of every team and every cell is the number of its ticks that are ok plus half the number that are recovering, times the root of the number of teams; other states count nothing |
| `Scoring.NothingCaptured` | services/game-core/store.go:485-508 | without captures every attack and defence number is zero |
| `Postings.SumTakes` | services/game-core/store.go:485-524 | a sum over a book of postings may take any key first, so it does not depend on map order |
| `Postings.SumSharedOut` | services/game-core/store.go:485-524 | if scopes share out every posting, their sums add up to the whole sum |
| `Scoreboard.BoardUnique` | services/game-core/store.go:526-564 | with distinct team names any two boards for the same records and the same previous board are equal row for row: map order cannot show |
| `Scoreboard.RowIsSumOfServices` | services/game-core/store.go:526-546 | every row's attack, defence and SLA are the sums over its services |
| `Scoreboard.AttackColumn` | services/game-core/store.go:485-546 | the attack column of the board adds up to accepted submissions plus distinct captured flags |
| `Scoreboard.RecomputeAgain` | services/game-core/store.go:558-561 | recomputing over unchanged records gives the same rows with every movement `0` |
| `Scoreboard.BoardReads` | services/game-core/store.go:544-556 | on every board, of any two rows the earlier has the higher total, on equal totals the higher attack, on equal attack the higher defence, and with all equal a name that is a proper beginning of the other or smaller at their first differing character |
| `Scoreboard.RowReads` | services/game-core/store.go:526-561 | each row carries its position as rank, its team's name, attack + defence + SLA as total, and the services in ascending id under their names |
| `Scoreboard.BoardMoves` | services/game-core/store.go:558-561 | a team not on the previous board is `new`; any other shows the difference of its ranks with its sign, upwards positive |
| `Scoreboard.KnownReads` | services/game-core/store.go:485-518 | the recomputation is defined exactly when every captured flag's submitter and owner, its service and every service state belong to listed teams and services |
| `Recompute.RecomputeScoreboard` | services/game-core/store.go:454-564 | loops over maps in arbitrary order, panics exactly on an unknown team or service, and otherwise returns a board: every team once, its sums in every team and service number, sorted by total, attack, defence and name, ranked from 1, movement against the previous ranks |
| `Recompute.ComputeScores` | services/game-core/store.go:470-524 | after posting and scaling every team and every cell holds exactly its sums |
| `Recompute.PostAttacks` | services/game-core/store.go:485-497 | posting flag by flag credits each capture once to its team and its cell, or stops at a missing one |
| `Recompute.PostDefenses` | services/game-core/store.go:499-508 | each captured flag costs its owner the penalty once, in team and cell |
| `Recompute.PostSla` | services/game-core/store.go:510-516 | each service state is credited once, in team and cell |
| `Recompute.SortRows` | services/game-core/store.go:544-556 | the result is sorted by the comparison, whose direction `BoardReads` states, and holds the same teams' rows |
| `Recompute.RankRows` | services/game-core/store.go:558-561 | ranks are positions and movements compare with the last rank under the same name |
| `Debounce.ReachableIsSafe` | services/game-core/server.go:1457-1516 | in every interleaving, with timers that fire despite being stopped: at most one recompute in flight; pending implies one in flight or a callback outstanding; every request not covered by a later successful recompute is held by pending or by a recompute that started after it |
| `Debounce.QuietMeansCovered` | services/game-core/server.go:1457-1516 | nothing pending and nothing in flight means every request has been covered |
| `Debounce.Drain` | services/game-core/server.go:1471-1516 | from any safe state at most three steps without a new request cover everything and go quiet |
| `Debounce.CoveredOnlyBySuccess` | services/game-core/server.go:1490-1516 | in every state that holds by the protocol, a request counts as covered only by a successful recompute that began after it |
| `Debounce.ScoringRecompute.ScheduleScoreboardRecompute` | services/game-core/server.go:1457-1469 | the critical section of a request equals the request step of the protocol |
| `Debounce.ScoringRecompute.BeginScheduledRecompute` | services/game-core/server.go:1471-1481 | the callback's first critical section; it proceeds exactly when none is in flight |
| `Debounce.ScoringRecompute.EndScheduledRecompute` | services/game-core/server.go:1490-1516 | the callback's last critical section: retry after failure, rearm if pending |
| `Scheduler.OneLiveLoop` | services/game-core/scheduler.go:84-186 | in every interleaving of start, stop, update, close, timers and tick completions, exactly one loop is uncancelled when a cancel function is stored and none otherwise, and a stored one implies state running |
| `Scheduler.CancelledLoopIsSilent` | services/game-core/scheduler.go:205-261 | a cancelled loop never writes status again, whenever its tick finishes |
| `Scheduler.LoopRound` | services/game-core/scheduler.go:205-261 | one round of the live loop leaves it waiting and has written when it ran, when it runs next, the tick or the error; the same round of a cancelled loop ends it and writes nothing |
| `Scheduler.LiveLoopIsRetired` | services/game-core/scheduler.go:134-203 | stop, close and a valid update retire the loop that was live |
| `Scheduler.StoppedStaysStopped` | services/game-core/scheduler.go:134-151 | after stop no leftover loop changes the status |
| `Scheduler.IntervalScheduler.StartLocked` | services/game-core/scheduler.go:84-120 | equals the start step: launches one loop or reports why not |
| `Scheduler.IntervalScheduler.StopLocked` | services/game-core/scheduler.go:134-151 | equals the stop step |
| `Scheduler.IntervalScheduler.UpdateInterval` | services/game-core/scheduler.go:153-186 | equals the update step: a running scheduler swaps its loop for a new one |
| `Scheduler.IntervalScheduler.WorkOutWait` | services/game-core/scheduler.go:215-225 | equals the step in which a loop works out its next wait before it takes the mutex |
| `Scheduler.IntervalScheduler.FinishTick` | services/game-core/scheduler.go:227-261 | equals the tick-completion step, which a cancelled loop leaves without writing |
| `Scheduler.StartReads` | services/game-core/scheduler.go:84-120 | a start is refused unless no match is consulted or the match is running, does nothing over a live loop, and otherwise puts exactly one new loop in charge that announces its first run one interval ahead |
| `Scheduler.OtherOperationsRead` | services/game-core/scheduler.go:134-203 | stop and close leave no live loop; an update below a second changes nothing, and any other sets the interval and replaces the loop of a running scheduler |
| `Scheduler.WrittenWaitIsCurrent` | services/game-core/scheduler.go:220-233 | though the interval is read outside the mutex, in every run the next run time a loop writes is the one the interval in force asks for |
| `MatchWindow.NeverBackwards` | services/game-core/server.go:221-286 | for a fixed stored match the effective state never moves backwards as time advances |
| `MatchWindow.IdempotentIff` | services/game-core/server.go:221-286 | applying the window twice changes nothing if and only if it is not a closed-before-open window whose times have both passed on an unstarted match |
| `MatchWindow.IdempotentForOrderedWindow` | services/game-core/server.go:221-286 | with start not after end, applying the window twice changes nothing |
| `MatchWindow.AcceptsExactlyWhenRunning` | services/game-core/server.go:221-286 | the effective status accepts submissions exactly when it is running |
| `MatchWindow.EffectiveIff` | services/game-core/server.go:221-286 | a stored state is its own effective state exactly when no window edge it reacts to has been reached |
| `MatchWindow.EffectiveReads` | services/game-core/server.go:221-286 | the effective state and times in the fields: the stored schedule counts, or the configured window while none has been stored; finished and paused stay; a reached end finishes, and a reached start runs, a match |
| `MatchWindow.ApplyReads` | services/game-core/store.go:620-702 | which organiser commands are refused and with which error, and what any other command does to times and schedule |
| `MatchMonitor.PollEnds` | services/game-core/match_monitor.go:72-165 | in every interleaving of organiser commands with the poll's read, start, stop and access steps, the poll ends in the state it set out for if and only if no command disturbed it, access for that state is then applied or pending, and a match left running or finished has its access settled if and only if the poll was undisturbed |
| `MatchMonitor.EffectiveAtEndIff` | services/game-core/match_monitor.go:72-148 | the state a poll leaves behind, as a function of what it read and the commands heard, and exactly when that is the effective state of the schedule those commands left |
| `MatchMonitor.StaysRunningIff` | services/game-core/store.go:620-684 | commands leave a running match running if and only if none stops it and every pause is followed by a start or resume |
| `MatchMonitor.PlanRecords` | services/game-core/match_monitor.go:72-148 | the commands a poll is said to have heard are the commands of the run since its read, in order |
| `MatchMonitor.StopDuringPoll` | services/game-core/match_monitor.go:89-126 | a run in which a stop falls between a poll's read and its start: the match ends finished with access settled for running only |
| `MatchMonitor.PauseDuringPoll` | services/game-core/match_monitor.go:89-96 | a run in which a poll sets a match running that was started and paused after its read |
| `MatchMonitor.NextPollSettles` | services/game-core/match_monitor.go:72-165 | after any run that leaves the monitor between polls, one undisturbed poll brings the match to its effective state and settles its access |
| `MatchMonitor.PollIsRun` | services/game-core/match_monitor.go:72-148 | with no command in between, the steps add up to the whole poll |
| `MatchMonitor.PollReachesEffectiveState` | services/game-core/match_monitor.go:72-148 | an undisturbed poll leaves the stored match in its effective state, with the start and end times the window implies, whatever the access service does |
| `MatchMonitor.PollSettlesAccess` | services/game-core/match_monitor.go:72-165 | after an undisturbed poll of a configured match in running or finished, access for that state is applied or pending, and applied if the call succeeds |
| `MatchMonitor.FinishedForever` | services/game-core/store.go:620-702 | finished is absorbing under every interleaving of organiser commands and poll steps, and its end time is fixed |
| `MatchMonitor.FinishedAccessSettles` | services/game-core/match_monitor.go:150-165 | access settled for a finished match stays settled over every later run |
| `MatchMonitor.AcceptingIffRunning` | services/game-core/store.go:620-702 | over every interleaving the stored match accepts submissions exactly when running |
| `GameStore.MemoryGameStore.Perform` | services/game-core/store.go:620-702 | start, pause, resume, stop and reschedule equal the lifecycle function, error cases included |
| `MatchMonitor.MatchWindowMonitor.ReconcileMatchWindowState` | services/game-core/match_monitor.go:72-148 | left to itself, equals the poll function, and fails exactly when the access call of a state that is pending fails |
| `Firewall.RenderControllerAccessRules` | services/controller-service/access.go:516-540 | the rendered forward and output chains are the specified rule lists, in order |
| `Firewall.ApplyDockerUserRules` | services/controller-service/access.go:308-432 | the issued iptables commands are the specified rule list, in order |
| `Firewall.WireGuardDefaultDeny` | services/controller-service/access.go:516-640 | on the WireGuard path to a service from outside, a packet is accepted exactly when a closed service lists its source as a peer, or an open service sees an established packet, its service port or unlocked SSH from a peer; everything else is dropped |
| `Firewall.ForwardIngress` | services/controller-service/access.go:542-640 | the verdict of the whole chain on any packet from outside to a service, as a table of that service's policy alone |
| `Firewall.ForwardEgress` | services/controller-service/access.go:570-640 | the verdict on any packet from a service to the outside |
| `Firewall.ForwardTransit` | services/controller-service/access.go:516-640 | packets between non-services pass, or are accepted if established |
| `Firewall.PolicyOrderIrrelevant` | services/controller-service/access.go:516-640 | any permutation of the policies gives the same verdict on every packet with at most one service end |
| `Firewall.OrderMattersIff` | services/controller-service/access.go:516-640 | for every list with distinct services and every packet, some reordering changes the verdict if and only if the packet opens a connection between two different listed services and the sender's egress drop meets the receiver's port or SSH accept, or the sender's reply accept meets the receiver's SSH or WireGuard drop |
| `Firewall.ForwardBetween` | services/controller-service/access.go:516-640 | the verdict of the whole chain on a packet between two services, by which of the two comes first |
| `Firewall.OrderMattersBetweenServices` | services/controller-service/access.go:570-640 | a packet between two services can be accepted in one order and dropped in the other |
| `Firewall.OutputDropsOnlySsh` | services/controller-service/access.go:570-640 | the output chain drops nothing but disallowed SSH to open services |
| `Firewall.OutputToService` | services/controller-service/access.go:570-640 | with distinct services, the verdict of the whole output chain on any packet to a service: accept if established; for an open service accept on its positive service port and on allowed SSH, drop on its positive SSH port; pass otherwise |
| `Firewall.OutputElsewhere` | services/controller-service/access.go:570-640 | on any other packet the output chain accepts what is established and passes the rest |
| `Firewall.BackendsAgree` | services/controller-service/access.go:308-432 | with ports set, the iptables sequence and the nftables forward chain give every packet the same verdict, for every policy list |
| `Firewall.BackendsAgreeIff` | services/controller-service/access.go:308-432 | with distinct services the two backends agree on all packets if and only if no open service has a zero port |
| `TokenBucket.Limiter.Allow` | internal/services/apigateway/ratelimit.go:45-84 | decision and stored bucket of one call are those of the refill and decision functions; a policy without limits allows and stores nothing |
| `TokenBucket.Rate` | internal/services/apigateway/ratelimit.go:146 | the integer rate is the policy's num/den tokens per second in millionths of a token per millisecond, rounded to the nearest |
| `TokenBucket.Ttl` | internal/services/apigateway/ratelimit.go:128-135 | the time to live is the least whole number of milliseconds in which num/den tokens per second bring twice the capacity, and at least five seconds |
| `TokenBucket.TokensInRange` | internal/services/apigateway/ratelimit.go:67-80 | over every run the stored tokens stay in [0, capacity] |
| `TokenBucket.WindowBound` | internal/services/apigateway/ratelimit.go:45-84 | in every window of every run with a non-decreasing clock at most capacity + rate x length calls are allowed |
| `TokenBucket.PolicyWindow` | internal/services/apigateway/ratelimit.go:45-84 | the same bound in the policy's own num/den tokens per second, with half a millionth of a token per millisecond for the rounding |
| `TokenBucket.PolicyRefill` | internal/services/apigateway/ratelimit.go:67-68 | between two calls the bucket gains what num/den tokens per second bring, within the same rounding, up to the capacity |
| `TokenBucket.RetryAfterIsExact` | internal/services/apigateway/ratelimit.go:69-83 | a denied caller is denied at every poll before the returned retry-after, and the next call is allowed exactly when it comes no earlier |
| `TokenBucket.PolicyRetryAfter` | internal/services/apigateway/ratelimit.go:69-83 | a denied caller is told the time in which num/den tokens per second make up what is missing of one token, within the same rounding, whole milliseconds rounded up |
| `TokenBucket.RetryAfterHeader` | internal/services/apigateway/ratelimit.go:361-368 | the whole-second Retry-After header (section 10.2.3 of RFC 9110) is at least one, always suffices and is the least such number above one |
| `TokenBucket.TtlRefillsIff` | internal/services/apigateway/ratelimit.go:128-149 | time to live times the six-decimal rate covers the capacity if and only if that rate is not zero |
| `TokenBucket.ExpiryChangesNoDecision` | internal/services/apigateway/ratelimit.go:128-149 | over every run, with stale keys vanishing or not before each call, every decision is the same |
| `TokenBucket.ZeroRateExpiryMatters` | internal/services/apigateway/ratelimit.go:128-149 | at rate zero an expired key allows what the kept one denies |
| `TokenBucket.DeclaredPoliciesRefill` | internal/services/apigateway/ratelimit.go:402-422 | every declared policy refills within its time to live |
| `CheckerBatch.ParseCheckerBatchFrames` | services/checker-runner/server.go:611-661 | the cursor loop computes the frame-by-frame parse, with its eight error cases |
| `CheckerBatch.FramesRoundTrip` | services/checker-runner/server.go:695-713 | parsing the printed frames of any non-empty list of distinct phases returns exactly that list, whatever the payloads hold |
| `CheckerBatch.AcceptedOutput` | services/checker-runner/server.go:611-661 | any output that parses is cut completely into one to three frames whose headers announce their payloads |
| `CheckerBatch.HeaderReads` | services/checker-runner/server.go:611-661 | which of the five header faults a line has, decided by its prefix, its fields, the phases seen before, the exit code range and the bytes that remain |
| `CheckerBatch.FrameReads` | services/checker-runner/server.go:695-713 | the text of a frame as the batch script prints it |
| `BatchRunner.NormalizeCheckerPhases` | services/checker-runner/server.go:801-819 | accepts exactly non-empty lists of known, pairwise different phases and returns them in order |
| `BatchRunner.ResultsAreHaltedPrefix` | services/checker-runner/server.go:422-454 | results are a prefix of the requested phases in which all but the last succeeded, and stop only at a missing frame or a failure |
| `BatchRunner.CollectPhaseResults` | services/checker-runner/server.go:422-454 | the loop with its two early exits computes that prefix |
| `BatchRunner.ExecuteCheckerBatch` | services/checker-runner/server.go:373-454 | infrastructure and framing failures give one failed result for the first phase; otherwise the results of the parsed frames |
| `BatchRunner.RunBatch` | services/checker-runner/server.go:373-454 | end to end, the executor reports exactly the phases the script ran, up to the first failure |
| `ServiceState.CollectTickPhaseStates` | internal/services/apigateway/service_state_summary.go:84-109 | one pass keeps, for every phase, the run of highest rank and whether any succeeded or failed |
| `ServiceState.PhaseOfReads` | internal/services/apigateway/service_state_summary.go:84-109 | success and failure of a phase mean that some run of it succeeded or failed; the kept run is the first among those of highest rank, failed over skipped over success over anything else |
| `ServiceState.SummaryReads` | internal/services/apigateway/service_state_summary.go:18-63 | the status of any non-empty group of runs as a table of which phases have runs, successes and failures |
| `ServiceState.SummaryPointsAt` | internal/services/apigateway/service_state_summary.go:18-63 | the phase a summary names: the first without a run while the cycle is running, the deciding one when it has finished |
| `ServiceState.DownPointsAt` | internal/services/apigateway/service_state_summary.go:18-131 | a service that is down has a broken phase, and its summary names the first |
| `ServiceState.SummarySays` | internal/services/apigateway/service_state_summary.go:18-63 | a finding speaks in the trimmed words of the run kept for the phase it names, if there are any |
| `ServiceState.ReportOverrules` | services/game-core/store.go:1482-1550 | in either store a recognised report replaces status, phase and message of the state of its own key, and no other |
| `GameStore.MemoryGameStore.RecordCheckerRun` | services/game-core/store.go:1335-1366 | runs and states after recording are those of the memory refresh rule |
| `ServiceState.UnrecognizedReportSeparates` | services/game-core/store.go:1335-1366 | two records from the empty store after which the two stores differ |
| `ServiceState.RefreshAgreesIff` | services/game-core/store.go:1482-1550 | memory and Postgres rules give the same states on a record if and only if it is not a skipped, unrecognised report over a state that regrouping would change |
| `ServiceState.StoresAgree` | services/game-core/store.go:1335-1366 | over every sequence of records with recognised reports both stores keep the same runs and states |
| `CheckerPipeline.StoresAgreeOnTargets` | services/game-core/server.go:1278-1329 | over every sequence of records that checking targets can emit, in any interleaving, both stores keep the same runs and states |
| `CheckerPipeline.FinalServiceState` | internal/services/apigateway/service_state_summary.go:18-131 | for put, get, check and results listed up to the first failure, the final state is ok, down, flag_not_found or faulty according to what failed first, never recovering |
| `CheckerPipeline.BatchErrorMeansDown` | services/game-core/server.go:1298-1303 | a batch that never ran leaves the service down |
| `CheckerPipeline.RecoveringIff` | internal/services/apigateway/service_state_summary.go:18-63 | for every order of distinct phases and every batch listed up to its first failure without reports, the service ends recovering if and only if all three phases ran, put last, and put failed |
| `CheckerPipeline.CanRecoverIff` | services/game-core/main.go:161-185 | a configured order can end in recovering if and only if it has all three phases with put last |
| `TickRun.RunCheckerTarget` | services/game-core/server.go:1249-1358 | records, whether the flag is issued, and as counts the numbers of records that succeeded, were skipped, and did neither, for every batch outcome |
| `TickRun.RecordsAreOrderly` | services/game-core/server.go:1278-1329 | one record per phase in order; at most one failure, and only skipped phases after it |
| `TickRun.RecordReads` | services/game-core/server.go:1278-1329 | what is recorded for each phase, in terms of the results alone: the first failed and the others skipped after a batch error, skipped from a missing phase or after a failed one on, and otherwise as reported |
| `TickRun.CountsMean` | services/game-core/server.go:1347-1355 | counting a list of records gives its length and the numbers of indices whose status is success, is skipped, and is neither |
| `TickRun.RotationIsFair` | services/game-core/server.go:1177-1192 | over any n consecutive ticks each of n targets stands in each position exactly once |
| `TickRun.RotatesForward` | services/game-core/server.go:1177-1192 | in tick t position k holds target (t + k) mod n |
| `TickRun.EveryTargetOnce` | services/game-core/server.go:1194-1247 | however workers interleave, none checks a target twice, at most the parallelism run at once, and a drained pool has checked each once and holds its counts |
| `TickRun.AddResults` | services/game-core/server.go:904-913 | the tick's totals are the sums of the targets' counts |
| `TickRun.TickAccounting` | services/game-core/server.go:904-913 | adding up targets that each account for their phases gives total = targets x phases = success + failed + skipped, with at most one failure per target |
| `TickRun.TargetIsFull` | services/game-core/server.go:1249-1358 | every target accounts for its phases, whatever its batch brings |
| `TickRun.TickAddsUp` | services/game-core/server.go:896-913 | end to end: for any batches and any interleaving of the workers, a drained pool has checked each target once and the tick has total = targets x phases = success + failed + skipped, each being the number of records of all targets with that status, with at most one failed phase per target |
| `SlaScan.EnrichServiceStates` | internal/services/apigateway/server.go:855-920 | for every page size and every list in descending ticks the paged early-exit scan ends with each challenge's first row carrying the summary of all its runs in its highest tick, as a group-by over the whole list gives; an unavailable page leaves each row either at its fallback or final |
| `SlaScan.LatestReads` | internal/services/apigateway/server.go:949-963 | a challenge has a summary exactly when it has a run; the summary is that of its highest tick: the state attached to the first run of that tick that has one, or else the summary of exactly its runs in that tick, in list order |
| `SlaScan.ListingReads` | internal/services/apigateway/server.go:855-947 | every expected row in its fields: the first row of a challenge with runs carries that summary, stable and passing if ok or recovering, degraded and warning if down, faulty or without its flag; every other row keeps what it has, with a missing status or message guessed from its light |
| `SlaScan.ApplySlaSummary` | internal/services/apigateway/server.go:922-943 | fills the first row of the challenge and no other |
| `SlaScan.LatestKnown` | internal/services/apigateway/server.go:892-907 | when a lower tick of a challenge turns up, the runs collected so far are its whole latest tick |
| `FlagCodec.ParseOfIssue` | services/game-core/flags.go:45-106 | parsing an issued flag returns exactly its owner, challenge and ticks, for all 64-bit integers and any trimmed prefix |
| `FlagCodec.ParseAuthentic` | services/game-core/flags.go:54-106 | whatever parses is, after trimming, the current prefix around a payload and the keyed hash of that very payload |
| `FlagCodec.IssueInjective` | services/game-core/flags.go:45-52 | issued flags are equal only for equal prefixes and equal claims |
| `FlagCodec.NewCodec` | services/game-core/flags.go:28-43 | the prefix in force is the configured one without surrounding white space, and `PLAYIT` for a blank one |
| `FlagCodec.FlagLayout` | services/game-core/flags.go:45-52 | the text of a flag, with a worked example: owner, challenge, issue and expiry tick in that order inside prefix, braces, dot and hash |
| `Base64Url.DecodeOfEncode` | services/game-core/flags.go:45-75 | unpadded base64url (section 5 of RFC 4648) decodes what it encodes, for all byte strings |
| `Base64Url.KnownTexts` | services/game-core/flags.go:45-52 | the test vectors of section 10 of RFC 4648 and the URL-safe alphabet |
| `Csv.SplitCsvLine` | apps/web/lib/team-csv.ts:75-101 | the character loop computes the scan of the line |
| `Csv.PrintThenSplit` | apps/web/lib/team-csv.ts:113-128 | splitting a printed row gives every cell back neutralised and trimmed, quotes, commas and line breaks included (section 2 of RFC 4180); an empty row comes back as one empty cell |
| `Csv.ToCsvLines` | apps/web/lib/team-csv.ts:113-128 | a file is its rows in order with line feeds between them and none at the end |
| `Csv.Neutralize` | apps/web/lib/team-csv.ts:106-111 | a plain number or a cell that starts no formula is returned unchanged; any other gets one leading apostrophe and then starts no formula |
| `Csv.StartsFormulaMeans` | apps/web/lib/team-csv.ts:103-111 | a cell starts a formula exactly when its first character that is not white space, or a tab or carriage return among the white space, is a trigger |
| `Csv.PlainNumberMeans` | apps/web/lib/team-csv.ts:103-111 | a plain number is an optional sign, digits and at most one fraction of digits; `IntegersAndFractions` states the converse |
| `Csv.RendersPlain` | apps/web/lib/team-csv.ts:113-123 | a harmless cell is printed as it is, in quotes with its quotes doubled exactly if it holds a quote, a comma or a line break |

## Left out

- HTTP handlers, JSON, authentication, Docker, `nft` and `iptables` execution and its failures, file artifacts, metrics, the web UI: plumbing around the rules.
- Warmup, scoring audit, attack-feed and event listings, realtime counters, name sanitizers: they would only add easy members.
- Submission and check times: the source sorts a flag's captures by time before adding, which only fixes the order of floating-point additions; the model adds exact reals in any order.
- Floating-point rounding, and the values of the 0.75-th power, the square root, the keyed hash and the event digest: exact arithmetic and arbitrary functions.
- GameRun.EveryRunIsSafe: the actions include reaping at any moment, which the program does only at start-up; the worker pool inside a tick is in `TickRun.dfy`, and a request lost to a panic or a cancellation is the action that drops its thread.
- SubmitFlags.SubmitFlags: store errors are not modelled; the recompute it schedules afterwards is the request step of `Debounce.dfy`.
- Recompute.SortRows: sorts by insertion where the source calls a library sort; what is proved is what any sort by that comparison promises.
- SQL of the Postgres store, except the decision logic of the service-state refresh.
- Firewall.RenderControllerAccessRules: rules are data, not text; an address is valid or not, IPv4 and textual forms are not told apart, interface names are already trimmed and ports are not negative.
- TokenBucket.Limiter.Allow: one clock for gateway and Redis; network failures of the limiter are not modelled; the window bound is not claimed for a clock that steps back.
- CheckerBatch.ParseCheckerBatchFrames: one character is one byte; lower-casing and white space in headers are ASCII with the Latin-1 spaces; padding that some `wc` versions print is covered only as extra white space in the header.
- BatchRunner.ExecuteCheckerBatch: output truncation, reported-state extraction and message redaction are not modelled.
- ServiceState.CollectTickPhaseStates: phases are already one of put, get, check.
- TickRun.RunCheckerTarget: persistence errors, which abort a target, are not modelled.
- TickRun.EveryTargetOnce: runs without error or cancellation only; workers are counted, not named.
- TickRun.RotationIsFair: tick ids are not negative.
- SlaScan.EnrichServiceStates: the participant message filter is a parameter, and the list does not change while it is read.
- MatchMonitor.MatchWindowMonitor.ReconcileMatchWindowState: the class runs a poll from beginning to end; the interleaved steps are modelled on values, and the scheduler that the monitor starts or stops is in `Scheduler.dfy`.
- MatchMonitor.PollReachesEffectiveState: times are whole seconds and always parse; store errors and the automatic first tick after a start are not modelled.
- Csv.SplitCsvLine: importing a whole file splits lines before it looks at quotes, so a quoted line break does not survive `parseTeamCsv`, which is not part of this model.
