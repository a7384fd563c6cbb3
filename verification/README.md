# Verification of the attack/defence game server

In an attack/defence game every team runs the same services. In every tick a scorebot plants a signed flag in each
service of each team and checks that the service works; teams steal flags from one another and submit them. The server
keeps a scoreboard for the open tick, an archive of closed ticks, and a summary of the archive, from which duplicate
submissions are recognised and the ranking is made. This project models that core of the server, and the parts around
it that have invariants of their own, and proves what they guarantee.

| file | subject |
|---|---|
| `Collections` | sequences without duplicates, sizes of finite sets |
| `GoValues`, `Text` | truncating division, floating point without rounding but with not-a-number, string functions |
| `Codec` | the text of a flag |
| `Scoreboard` | boards as values: summing, scoring, ranking |
| `GameRules` | the game as a state machine with interleaved submissions, checks and rollovers, and a log of the run |
| `GameLog`, `GameInvariant` | replay of the log; what every step keeps |
| `GameTheorems`, `GameScores`, `GameBounds` | what holds of every run and every reachable state |
| `GameWitness`, `GameFailures` | runs that exist: any check results, every tick, and the failures below |
| `GameDays` | one tick after the other: checks, submissions in between, and the archive that a whole game leaves |
| `ScoreboardObjects`, `Summarize`, `OpenTick`, `GameObjects` | the same program on mutable objects, proved to take the steps of the rules |
| `Slices`, `GameLists` | the lists of the boards as Go slices on shared memory, and their agreement with the boards |
| `ForkJoin`, `Proxy` | goroutines, bounded channels and joins as step systems |
| `AddressPlan`, `FlowRouter` | addresses in byte arithmetic, and the two places that decide who may connect |
| `WireguardText` | filtering and translating configuration texts |
| `Timeline`, `FlagWindow` | events per tick, and the window of flag ids |

How the main results fit together. `Scoreboard` says what a summary is; `Summarize.SummarizeState` is the loop nest of
the source, proved to compute one. `GameRules` says what a step of the game is; `GameInvariant` shows that every step
keeps every board equal to the replay of its part of a log, although each rollover summarizes the archive afresh. At
most once scoring, conservation, exact uptime, linearity of scores and the bounds are consequences. `GameObjects` holds
the game's own fields and proves that each of its methods takes one step of the rules, so that its validity includes
being reachable and all these theorems apply to it. `Slices` works on arrays with spare capacity as the source does and
keeps all lists apart; `GameLists` shows that along every run these slices have exactly the contents that the boards of
the rules have, so that the in-place `append` of the source never reaches a list that is not meant.

Findings about the code as it is:

- A submission that carries another team's flag dereferences nil before the first tick is archived, and at any time when
  the submitter is on no board (`GameTheorems.PanicsExactly`). The flag service turns a bot tag into a bot's id without
  asking whether bots are enabled, while boards have bots only when they are (`cmd/ad/services.go:73-105`).
  `GameFailures.FailuresExactly` says in which games this can be received. The status for an invalid team is never used.
- A submission that passed the running check and is judged after the final rollover is answered with acceptance and never
  counts (`GameTheorems.AcceptedCountsExactly`, `GameWitness.FlagsCanBeLostExactly`).
- A flag is accepted for one tick more than the configured number of valid ticks, because the current tick counts too.
- `ForAllTeams` with bots sizes its error channel for the teams only, and `ForEachService` sizes it by the scorebot's
  services instead of its checks; with more failures than places neither ever returns (`ForkJoin.ReturnsExactly`). In
  `Tick` this cannot happen (`ForkJoin.TickAlwaysJoins`).
- The proxy can wait for ever when two errors occur (`Proxy.HangsExactly`).
- The source-tag test of a flow compares the source's tags with themselves, so it only asks for a tag at all.
- The ranking compares points after truncation, so the order of two teams is decided only by whole points
  (`Scoreboard.OrderDecidedExactly`); a lead below two points may not count (`GoValues.TruncationThreshold`), and there
  are games in which one is lost (`GameWitness.LeadCanBeLost`).

What the rules assume: check ids name configured services by index and differ (the code indexes boards by list
position but checks by id); the number of teams does not exceed the offset of bot ids; the tick rate is positive; a
signature that verifies was made by the game itself. Submissions are atomic under the scoreboard lock after the
unlocked test of `Running`, and their submitter may be anyone. Counting the tick up and rolling over are one step,
because submissions read only the tick number on the board. The timer may fire at any moment, and the game may end
before all ticks have been played.

## Model

| member | source | states |
|---|---|---|
| `Text.AtoiOfPrint` | cmd/ad/crypto.go:82-95 | Reading a printed integer gives it back, for every 64-bit integer. |
| `Text.AtoiExactly` | cmd/ad/crypto.go:82-95 | Exactly the texts that are read as a given number: an optional plus or minus sign, any zeros, and its decimal digits, for numbers from -2^63 to 2^63-1. |
| `Text.PrintedDigit` | cmd/ad/crypto.go:57 | A number is printed in decimals: each place has the digit of its power of ten. |
| `Text.PrefixExactly` | cmd/ad/crypto.go:77-81 | A text has a prefix if and only if it is that prefix and a rest, and trimming leaves the rest; without the prefix trimming changes nothing. |
| `Text.SuffixExactly` | cmd/ad/crypto.go:77-81 | The same for suffixes. |
| `Codec.FlagText` | cmd/ad/crypto.go:56-62 | A flag is the prefix, the tick, the team and the service in decimals, the signature of these three numbers, and the suffix, with dots between the four parts. |
| `Codec.VerifyAccepts` | cmd/ad/crypto.go:69-111 | A string is accepted as a triple if and only if, after prefix and suffix are cut off, it is four dotted parts: any spellings of the three numbers, then a valid signature of the canonical text of the triple. |
| `Codec.VerifyOfGenerate` | cmd/ad/crypto.go:56-111 | A generated flag verifies as exactly the tick, team and service it was made for, for every integer triple, prefix and suffix. |
| `Codec.GenerateInjective` | cmd/ad/crypto.go:56-62 | Two triples with the same flag are the same triple. |
| `Codec.PayloadTokens` | cmd/ad/crypto.go:57 | The signed text is the tick, the team and the service, in this order, in canonical decimals between dots. |
| `Codec.PayloadInjective` | cmd/ad/crypto.go:57-59 | The text that a signature covers determines the triple, so no signature covers two. |
| `Codec.SpelledFlagVerifies` | cmd/ad/crypto.go:82-108 | Every text whose three parts parse to the numbers of a triple, whatever zeros and signs it has, verifies as that triple under the same signature. |
| `Codec.TwoSpellings` | cmd/ad/crypto.go:82-95 | A triple with a tick that is not negative has at least two different such texts under one signature. |
| `GoValues.TruncDiv` | cmd/ad/game.go:415-421 | Integer division that truncates toward zero, bounded on both sides. |
| `GoValues.Ratio` | cmd/ad/game.go:511 | Uptime is not-a-number exactly for a service without checks, and otherwise the exact quotient, between 0 and 1. |
| `GoValues.Truncate` | cmd/ad/game.go:586 | Conversion to an integer drops the fraction, toward zero on both sides of zero. |
| `Scoreboard.GatherRaw` | cmd/ad/game.go:537-572 | Merging boards, in whatever order their maps are met, gives each service of each team its own raw data added up in tick order. |
| `Scoreboard.SummarizesRaw` | cmd/ad/game.go:531-595 | Every possible result of summarizing has exactly those sums as raw data; scoring and ranking change none of it. |
| `Scoreboard.ResummarizingIsMerging` | cmd/ad/game.go:603-607 | Summarizing the whole archive again gives the raw data of one incremental merge into the previous summary. |
| `Scoreboard.PublicPointsExtend` | cmd/ad/game.go:517-527 | The points of a team do not depend on the order in which its services are visited; private services add nothing. |
| `Scoreboard.PositionsAreBijective` | cmd/ad/game.go:575-592 | Positions are a bijection between the teams and 1 to n, for every map order and tie-break. |
| `Scoreboard.PositionsAreSorted` | cmd/ad/game.go:585-592 | A team with a better position has at least as many points after the fraction is dropped. |
| `Scoreboard.TwoPointsDecide` | cmd/ad/game.go:585-587 | A team at least two points ahead is always placed before the other. |
| `Scoreboard.OrderDecidedExactly` | cmd/ad/game.go:585-587 | A team comes before another in every possible ranking of a board if and only if it has more points after the fraction is dropped, with not-a-number counted as what the platform converts it to. |
| `GoValues.TruncationThreshold` | cmd/ad/game.go:586 | Points that differ by a positive amount can have the same whole part if and only if the amount is below two. |
| `GameWitness.LeadCanBeLost` | cmd/ad/game.go:575-592 | In every game of one public checked service worth less than a point per tick, some run ends with a team that passed its check placed behind one that failed it. |
| `GameTheorems.TeamIdsCount` | cmd/ad/team.go:31 | There are twice as many ids with bots as without, because a bot id is never a team id. |
| `GameTheorems.BoardsNameTeams` | cmd/ad/game.go:618-650 | On every board of every reachable state: team n under id n with its name, its bot, if there are bots, under id 65535+n with that name and _bot, nobody else, and the configured services under their names. |
| `GameRules.TicksFit` | cmd/ad/game.go:415-417 | A tick number is within the total if and only if so many ticks fit into the duration of the game. |
| `GameRules.TooOldInTicks` | cmd/ad/game.go:419-421 | A flag is older than the valid ticks if and only if its age, in ticks, takes more time than flags are valid; a flag of the open tick only if they are valid for minus one tick or less. |
| `GameLog.StolenIffLogged` | cmd/ad/game.go:286-287 | A flag is on a thief's list if and only if the log has its theft. |
| `GameLog.StolenEqualsLost` | cmd/ad/game.go:286-291 | For every log, thief, victim, tick and service: stolen entries on one side equal lost entries on the other. |
| `GameLog.ReplayCounts` | cmd/ad/game.go:286-291 | List lengths and the success counter of a service are the numbers of thefts, losses and passed checks in the log. |
| `GameInvariant.StepKeepsInv` | cmd/ad/game.go:245-745 | Every step of every goroutine keeps the whole invariant: shapes, scores, alignment, replay, uniqueness, check counts, signatures. |
| `GameInvariant.RolloverKeepsInv` | cmd/ad/game.go:597-655 | A rollover, at a tick or at the end, keeps the invariant although the whole archive is summarized again. |
| `GameInvariant.FlagKeepsInv` | cmd/ad/game.go:286-291 | An accepted flag keeps the invariant. |
| `GameInvariant.CheckKeepsInv` | cmd/ad/game.go:720-726 | A recorded uptime check keeps the invariant. |
| `GameInvariant.ReachableInv` | cmd/ad/game.go:1027-1061 | The invariant holds in every reachable state of every interleaving. |
| `GameWitness.PlayChecks` | cmd/ad/game.go:687-736 | The checks of a tick can have any results: some run records exactly the given ones. |
| `GameWitness.TicksOfGames` | cmd/ad/game.go:657-672 | The ticks that some run begins are exactly those that fit into the duration of the game. |
| `GameInvariant.StolenByIsHistory` | cmd/ad/game.go:238-243 | What the duplicate check reads, the summary and the open tick, contains a flag if and only if the log of the whole run has its theft. |
| `GameInvariant.AcceptedIsSound` | cmd/ad/game.go:257-293 | An accepted flag is one of another team, of a checked service and of a tick in the window, and its theft is not in the log yet. |
| `GameTheorems.ScoredFlagsAreHistory` | cmd/ad/game.go:238-243 | Summary and open tick together hold exactly the replay of the whole log, in order. |
| `GameTheorems.NoFlagScoresTwice` | cmd/ad/game.go:277-282 | In every reachable state no team has the same flag twice in its summary and open lists together. |
| `GameTheorems.AcceptedAtMostOnce` | cmd/ad/game.go:245-294 | In every run, a team is given points for one signed triple at most once, across all rollovers and whatever texts it submits. |
| `GameTheorems.SpellingsScoreOnce` | cmd/ad/crypto.go:82-108 | Two texts that spell the same numbers differently under one signature are not both accepted. |
| `GameTheorems.AnswersExactly` | cmd/ad/game.go:245-294 | In every reachable state, also before the first tick is archived, exactly when each answer is given: not verified; own flag; older than the configured time; nil dereference, when nothing is archived or the submitter is on no board; stolen before in this run; accepted. The locked part never answers that service or team are invalid or that the flag is not valid yet. |
| `GameTheorems.ForgedFlagsGainNothing` | cmd/ad/game.go:265-275 | Even if signatures could be forged: another team's flag is answered as of an invalid service, as expired or as not yet valid exactly when its service is not configured, its age takes too long, or its tick is still to come. |
| `GameTheorems.SubmissionsAreJudgedOnce` | cmd/ad/game.go:246-252 | Along every run: submissions that entered are those judged and those in flight, and none enters unless the game is running. |
| `GameTheorems.NobodyEntersLate` | cmd/ad/game.go:246-252 | After the game is over only submissions that had passed the running check are judged, each once. |
| `GameTheorems.PanicsExactly` | cmd/ad/game.go:238-276 | A submission dereferences nil if and only if it carries another team's flag that is not too old, and either no tick is archived or the submitter is on no board; from the second tick on some tick is archived. |
| `GameWitness.TeamsCanPanicExactly` | cmd/ad/game.go:238-243 | Some run receives such a submission from a given team if and only if flags are valid for zero ticks or more, there is a tick to play, and some text is another team's flag of the first tick. |
| `GameWitness.OutsidersCanPanicExactly` | cmd/ad/game.go:238-243 | Some run receives such a submission from a given submitter on no board if and only if flags are valid for zero ticks or more and some text is a flag of any tick to be played. |
| `GameTheorems.VerifiedIsSigned` | cmd/ad/crypto.go:107-110 | With an unforgeable signature, a flag that verifies names a real team, a checked service and a tick that has begun. |
| `GameTheorems.OpenBoardIsComplete` | cmd/ad/game.go:286-291 | No check and no accepted flag ever meets a team or a service that the open board lacks. |
| `GameTheorems.BoardsAreReplays` | cmd/ad/game.go:531-615 | Every archived tick, the open tick and the summary hold exactly the replay of their own part of the log. |
| `GameTheorems.ArchiveIsAligned` | cmd/ad/game.go:597-663 | Archived ticks are numbered 1, 2, ... without gaps; the summary, the open tick and the counter agree with them, and the counter never passes the configured number of ticks. |
| `GameTheorems.ArchiveOnlyGrows` | cmd/ad/game.go:605 | Along every run the archive is only extended; an archived tick never changes. |
| `GameTheorems.FinalBoardIsFrozen` | cmd/ad/game.go:1052-1058 | After the final rollover archive, summary and counter stay as they are. |
| `GameTheorems.AcceptedCountsExactly` | cmd/ad/game.go:246-251 | Of the flags a run accepts, exactly those are in the final summary that were judged before the final rollover; a submission that passed the running check in time but is judged later is accepted and gains nothing. |
| `GameWitness.FlagsCanBeLostExactly` | cmd/ad/game.go:1052-1058 | Some run accepts a flag of a given submitter that never counts if and only if the submitter is a team, flags are valid for zero ticks or more, and some text is another team's flag of a tick to be played. |
| `GameFailures.FailuresExactly` | cmd/ad/game.go:238-251 | With the game's own signer, whether a given submitter can run into the nil dereference or lose an accepted flag is decided by the configuration alone: flags valid for more than minus one tick, a duration of at least one tick, a check, another team; a flag is lost only by a team. |
| `GameFailures.FlagsCanBeRespelled` | cmd/ad/crypto.go:82-108 | In every game of two ticks, two teams and one check some run has one signature submitted in two different texts, the first accepted and the second answered as stolen. |
| `GameTheorems.StolenIsLost` | cmd/ad/game.go:286-291 | In the open tick, every archived tick and the summary, what one team stole is what the other lost, entry by entry. |
| `GameScores.EarnedExactly` | cmd/ad/game.go:498-515 | The score of a checked service, counted on the log: archived ticks, thefts and losses each at their price, all weighted by the share of passed checks. |
| `GameScores.PartsAddUp` | cmd/ad/game.go:498-509 | Overall tick, attack and defence points are the sums of those of the archived ticks. |
| `GameScores.PointsAddUp` | cmd/ad/game.go:511-514 | So are the total points of a service that was checked successfully in every tick. |
| `GameScores.TeamPointsAddUp` | cmd/ad/game.go:517-529 | So are the points of a team whose public services all were. |
| `GameScores.FlagPointsBalance` | cmd/ad/game.go:502-508 | For all rates: attack and defence points of a service over all teams are its stolen flags times the sum of the two rates, in every archived tick and in the summary; they cancel if and only if nothing was stolen or the rates are opposite. |
| `GameScores.UptimeIsExact` | cmd/ad/game.go:687-736 | In every interleaving each archived tick has one result per team and checked service, so overall checks equal archived ticks, tick points are that times the rate, and uptime lies between 0 and 1. |
| `GameScores.SummaryIsRanked` | cmd/ad/game.go:575-592 | When all public services are checked, the summary of every reachable state places a team with more whole points before another. |
| `GameScores.PointsAreNumbers` | cmd/ad/game.go:511-527 | The points of a team are not-a-number if and only if some public service has no check. |
| `GameBounds.Pigeonhole` | cmd/ad/game.go:261-282 | A list without duplicates, from given teams and a given range of ticks, has at most teams times ticks entries. |
| `GameBounds.WindowHolds` | cmd/ad/game.go:269-275 | The window has V+1 ticks, V being the valid ticks: those ages at which a flag is not too old. |
| `GameBounds.StolenBounds` | cmd/ad/game.go:261-282 | With T teams and bots, a team steals at most T-1 flags of a service per tick of the window in one tick, and T-1 times the tick number over the run. |
| `ScoreboardObjects.ServiceState.Absorb` | cmd/ad/game.go:562-566 | The lists and counters of another tick are added in place. |
| `ScoreboardObjects.ServiceState.SetOverallScore` | cmd/ad/game.go:498-515 | The five point fields become the score of the raw data, which does not change. |
| `ScoreboardObjects.TeamState.EnsureService` | cmd/ad/game.go:552-560 | A service object is made once, without data, and no other changes. |
| `ScoreboardObjects.TeamState.Absorb` | cmd/ad/game.go:552-567 | The services of a team are added, in any order of the map. |
| `ScoreboardObjects.TeamState.SetOverallScore` | cmd/ad/game.go:517-529 | All services are scored and the public ones summed, in any order of the map. |
| `ScoreboardObjects.ScoreStep` | cmd/ad/game.go:520-526 | Scoring one more service changes that service only and adds its points when it is public. |
| `ScoreboardObjects.MergeTeamsStep` | cmd/ad/game.go:539-567 | Merging one more team changes that team only. |
| `ScoreboardObjects.MergeServicesStep` | cmd/ad/game.go:552-567 | Merging one more service changes that service only. |
| `ScoreboardObjects.ScoreboardState.Absorb` | cmd/ad/game.go:538-572 | One archived tick is added to the sums; the archived tick does not change. |
| `ScoreboardObjects.ScoreboardState.AppendStolen` | cmd/ad/game.go:286-287 | The thief's list of one service grows by one entry and nothing else on the board changes. |
| `ScoreboardObjects.ScoreboardState.AppendLost` | cmd/ad/game.go:289-291 | The victim's list of one service grows by one entry and nothing else on the board changes. |
| `ScoreboardObjects.ScoreboardState.CountCheck` | cmd/ad/game.go:720-726 | One of the two counters of one service grows by one and nothing else on the board changes. |
| `Summarize.GatherTicks` | cmd/ad/game.go:532-573 | The loop over the ticks leaves the specified sums in fresh objects. |
| `Summarize.ScoreBoard` | cmd/ad/game.go:576-582 | All teams are scored and listed once each, in any order of the map. |
| `Summarize.Sort` | cmd/ad/game.go:585-587 | A permutation of the teams, non-increasing in whole points. |
| `Summarize.RankingRanks` | cmd/ad/game.go:590-592 | Numbering a sorted list of all teams ranks the board and changes nothing but positions. |
| `Summarize.RankBoard` | cmd/ad/game.go:585-592 | Sorting and numbering gives a ranked board with everything but the positions as before. |
| `Summarize.SummarizeState` | cmd/ad/game.go:531-595 | The whole of `summarizeState`: a fresh board that is a possible summary of the given ticks, none of which changes. |
| `OpenTick.NewScoreboard` | cmd/ad/game.go:610-652 | A fresh board with every team and bot, every service, no data, no points and no positions. |
| `GameObjects.AttackDefenseGame.constructor` | cmd/ad/game.go:245-1061 | A new game is in the initial state of the rules. |
| `GameObjects.AttackDefenseGame.UpdateScoreboard` | cmd/ad/game.go:597-655 | `updateScoreboard` is the rollover of the rules. |
| `GameObjects.AttackDefenseGame.BeginTick` | cmd/ad/game.go:657-672 | The start of `Tick` is a step of the rules: nothing after the last tick, else the next tick begins. |
| `GameObjects.AttackDefenseGame.GenerateFlag` | cmd/ad/game.go:704-705 | Making the flag of a check is a step of the rules, and its text is the generated flag of the current tick. |
| `GameObjects.AttackDefenseGame.RecordCheck` | cmd/ad/game.go:720-726 | Recording a check is a step of the rules. |
| `GameObjects.AttackDefenseGame.FlagsStolenBy` | cmd/ad/game.go:238-243 | The archived thefts followed by those of the open tick. |
| `GameObjects.AttackDefenseGame.JudgeFlag` | cmd/ad/game.go:254-282 | The checks of `submitFlag` in their order, with its answer or its nil dereference. |
| `GameObjects.AttackDefenseGame.EnterSubmit` | cmd/ad/game.go:246-248 | The unlocked check of `Running`. |
| `GameObjects.AttackDefenseGame.SubmitFlag` | cmd/ad/game.go:250-293 | The locked part of `submitFlag` is a step of the rules, with the same outcome. |
| `GameObjects.AttackDefenseGame.FinalRollover` | cmd/ad/game.go:1052-1054 | The rollover after the game loop is a step of the rules. |
| `GameObjects.AttackDefenseGame.Serve` | cmd/ad/game.go:245-294 | Submissions one after the other: each passes the running check and is judged in its turn, with its own answer. |
| `GameObjects.AttackDefenseGame.RunCheck` | cmd/ad/game.go:700-726 | One uptime check makes the flag of its team, service and tick and records the result it got. |
| `GameObjects.AttackDefenseGame.Tick` | cmd/ad/game.go:657-745 | A tick rolls over, triggers its events and runs every check once in some order, with submissions judged before, between and after them; after the last tick nothing happens. |
| `GameDays.DayResults` | cmd/ad/game.go:687-736 | However checks and submissions interleave, at the end of a tick each pending check has left exactly its own result, and nothing else has changed any count. |
| `GameDays.TickRecorded` | cmd/ad/game.go:657-745 | If the archive and the open tick hold exactly the results of the days played so far, they do so after one more firing of the timer, whatever is submitted. |
| `GameObjects.AttackDefenseGame.Start` | cmd/ad/game.go:1027-1061 | A whole game of n timer ticks with submissions during the ticks and after the last rollover: the archive has n ticks, or as many as fit into the duration of the game if these are fewer; each has for every team, bot and check the result of its own day; late submissions are judged; the events of all ticks have been triggered in order; the game is over. |
| `GameRules.ReachableStep` | cmd/ad/game.go:1027-1061 | A step from a reachable state leads to a reachable one, so all theorems hold of the object after every method. |
| `Slices.Append` | cmd/ad/game.go:239-242 | `append` writes in place when there is room and copies otherwise; the old slice still reads the same, and spare capacity beyond the new length is untouched. |
| `Slices.AppendToPrefix` | cmd/ad/game.go:239-242 | Why sharing would be wrong: appending to a shorter slice of the same array overwrites the longer one. |
| `Slices.ListTable.NothingShared` | cmd/ad/game.go:286-291 | No two lists on any board share a backing array. |
| `Slices.ListTable.Together` | cmd/ad/game.go:238-243 | The result of `flagsStolenBy` may lie in the summary's spare capacity, and still no list changes. |
| `Slices.ListTable.Score` | cmd/ad/game.go:277-291 | Duplicate check and the two entries, on slices: accepted if and only if the flag is in neither list, and only the two entries are added. |
| `Slices.ListTable.SumUp` | cmd/ad/game.go:562-563 | Summing boards up appends their lists to fresh ones and keeps all arrays apart. |
| `Slices.ListTable.Rollover` | cmd/ad/game.go:597-614 | A rollover keeps all arrays apart and leaves the lists that the next lemma describes. |
| `Slices.RolledListsAt` | cmd/ad/game.go:603-614 | After a rollover the new closed tick has the old open lists, the summary has all closed lists in order, the open tick has none, and older ticks have not changed. |
| `Slices.ListsAreSums` | cmd/ad/game.go:562-563 | Lists joined in this way are the lists of the summed raw data. |
| `GameLists.RolloverMirrors` | cmd/ad/game.go:603-614 | When the slices mirror the boards, a rollover of the slices mirrors the boards after a rollover: open, closed and summary lists. |
| `GameLists.FlagMirrors` | cmd/ad/game.go:286-291 | The two entries appended to slices are the two entries of the board. |
| `GameLists.StepKeepsMirror` | cmd/ad/game.go:238-655 | After every step of the game the slices can follow, and then have exactly the lists of the boards with their contents. |
| `GameLists.RunIsMirrored` | cmd/ad/game.go:238-655 | Along every run, starting from no slices, they do. |
| `GameLists.RollSlices` | cmd/ad/game.go:597-614 | The code of the rollover on arrays keeps the table a mirror of the game. |
| `GameLists.SubmitSlices` | cmd/ad/game.go:277-291 | The duplicate test on arrays decides as the one on boards, and the two appends keep the mirror. |
| `ForkJoin.StepKeepsInv` | cmd/ad/game.go:461-495 | Each callback runs at most once, and the channel holds each failed worker's error at most once. |
| `ForkJoin.StepsEnd` | cmd/ad/game.go:461-495 | Every run is finite. |
| `ForkJoin.ReturnsTheTruth` | cmd/ad/game.go:486-492 | When the call returns, every callback has run exactly once, and the result is an error if and only if one of them failed. |
| `ForkJoin.ReturnsExactly` | cmd/ad/game.go:461-495 | The call returns if and only if the errors fit into the channel; otherwise it waits for ever in every interleaving. |
| `ForkJoin.AllTeamsReturn` | cmd/ad/game.go:461-495 | `ForAllTeams` starts one callback per team and one per bot, returns if and only if no more callbacks fail than there are teams, and without bots always returns. |
| `ForkJoin.EachServiceReturns` | cmd/ad/scorebot.go:144-166 | `ForEachService` returns if and only if no more checks fail than the scorebot has services. |
| `ForkJoin.BotsMayStick` | cmd/ad/game.go:462-484 | With bots there are outcomes for which it never returns, as soon as there is a team. |
| `ForkJoin.ServicesMayStick` | cmd/ad/scorebot.go:144-166 | `ForEachService` can wait for ever if and only if the scorebot has fewer services than checks. |
| `ForkJoin.TickAlwaysJoins` | cmd/ad/game.go:687-736 | Both joins of a tick always return without an error, whatever the capacities, because the inner callback never fails. |
| `Proxy.StepKeepsInv` | pkg/common/proxy.go:16-87 | Every step of the two brokers and the caller keeps the account of errors, signals and closes. |
| `Proxy.NilMeansBothDone` | pkg/common/proxy.go:59-66 | A nil result means that both brokers have finished copying, closed their sources and signalled, and that at most one error occurred. |
| `Proxy.ErrorsAreReal` | pkg/common/proxy.go:46-56 | An error result means that some copy or close failed. |
| `Proxy.OneErrorNeverBlocks` | pkg/common/proxy.go:78-86 | With at most one error no broker ever waits for room. |
| `Proxy.NoErrorsAlwaysNil` | pkg/common/proxy.go:16-66 | Without errors every run ends with a nil result and both brokers finished. |
| `Proxy.HangsExactly` | pkg/common/proxy.go:16-66 | Some interleaving leaves the caller waiting for ever if and only if at least two errors occur and one side makes at most one of them. |
| `Proxy.LeaksExactly` | pkg/common/proxy.go:69-87 | Some interleaving leaves a broker blocked for ever if and only if at least two errors occur. |
| `AddressPlan.ToStringInjective` | cmd/ad/flow.go:308 | Addresses with the same text are the same. |
| `AddressPlan.LastByteOf` | cmd/ad/team.go:43-53 | The last byte of every machine's address counts up from its base modulo 256, for every id. |
| `AddressPlan.AddressText` | cmd/ad/team.go:43-53 | The text of every planned address: 10.40.10.x for teams, 10.40.20.x for SOCs, 10.40.30.x for bots and devices, with x counted from 10, for devices from 1, modulo 256. |
| `AddressPlan.DifferentExactly` | cmd/ad/game.go:1063-1073 | All addresses of a game differ if and only if it has at most 256 teams and devices, and, when both bots and devices exist, at most 247 teams and 9 devices. |
| `FlowRouter.ContainsMatchingPrefix` | cmd/ad/common.go:91-98 | Found if and only if some tag has the prefix. |
| `FlowRouter.ContainsAny` | cmd/ad/common.go:100-107 | Found if and only if the lists share a tag. |
| `FlowRouter.ParseFlows` | cmd/ad/flow.go:120-132 | All flows in order, or nothing as soon as one is malformed. |
| `FlowRouter.ParseFlowExactly` | cmd/ad/flow.go:54-85 | Exactly the texts `tag/part:service` are flows, without further slashes or colons, where the part stands for itself or, in braces, for what its name is replaced by. |
| `FlowRouter.ParseTagExactly` | cmd/ad/flow.go:87-109 | Exactly the texts `kind/part` are tags, and they become `kind/instance` in the same sense. |
| `FlowRouter.FlowRoundTrip` | cmd/ad/flow.go:54-116 | A printed flow parses back to itself if and only if its instance is named and not by a placeholder. |
| `FlowRouter.ParsedFlowPrints` | cmd/ad/flow.go:54-116 | A parsed text is printed back unchanged if and only if it names an instance. |
| `FlowRouter.ParseTagIdempotent` | cmd/ad/flow.go:87-109 | A second parse leaves a parsed tag alone if and only if the part after its first slash has no further slash and is not a placeholder for something else. |
| `FlowRouter.HandleConnection` | cmd/ad/flow.go:207-239 | Accepted if and only if the source has a tag and some flow of it names a tag of the service and a tag of the target: the flow's tag, a slash, and the flow's instance or, for a star, anything. |
| `FlowRouter.DialService` | cmd/ad/flow.go:241-277 | Dialled if and only if the router itself dials or the same condition holds. |
| `FlowRouter.AllowedExactly` | cmd/ad/flow.go:207-277 | Both decisions amount to that one condition. |
| `FlowRouter.Router.HandleConn` | cmd/ad/flow.go:170-201 | In any order of the map: the first allowed service of an addressed target, or closed when there is none. |
| `FlowRouter.Router.DialContext` | cmd/ad/flow.go:279-320 | In any order of the map: the first service that the text means on some named target, allowed or not, or no target. |
| `FlowRouter.Router.AddInstance` | cmd/ad/flow.go:322-335 | A host name is taken once; a second instance of that name changes nothing. |
| `FlowRouter.HandledExactly` | cmd/ad/flow.go:170-201 | With one instance of the address: the first of its services with the port that is allowed, whatever other services have the same port. |
| `FlowRouter.DialledExactly` | cmd/ad/flow.go:295-317 | With one instance of the name or address: the first of its services that has the name or the port number decides, and no later one is tried. |
| `FlowRouter.RoutersAgree` | cmd/ad/flow.go:170-320 | For unambiguous instances both decisions are determined whatever the map order, and reach the same service of the same target if and only if it is allowed, dialled by host name or address and by service name or port. |
| `FlowRouter.NeverWithoutFlow` | cmd/ad/flow.go:228-231 | However ambiguous names and numbers are, no instance reaches a service whose tags none of its flows names. |
| `FlowRouter.NothingThere` | cmd/ad/flow.go:196-200 | When nothing is addressed, and no host or service name looks like the address or the port number, the connection is closed and dialling these finds no target. |
| `FlowRouter.PlannedMachinesDiffer` | cmd/ad/team.go:43-53 | Machines of a small enough game have different addresses, as the agreement needs. |
| `WireguardText.FilterConfigToKeys` | cmd/ad/wireguard.go:256-277 | The lines with wanted keys in order, or an error for the first line that is neither empty nor has a key. |
| `WireguardText.FirstBadExactly` | cmd/ad/wireguard.go:259-267 | Refused is the first line that is neither empty nor has an equals sign, and nothing else is. |
| `WireguardText.KeptExactly` | cmd/ad/wireguard.go:269-274 | Kept is a line that consists of a wanted key, an equals sign and anything. |
| `WireguardText.KeptInOrder` | cmd/ad/wireguard.go:269-274 | Lines are kept one by one, in their order and as often as they occur. |
| `WireguardText.RestoredLines` | cmd/ad/wireguard.go:283 | A restored device keeps exactly the lines of five keys. |
| `WireguardText.FilterIdempotent` | cmd/ad/wireguard.go:256-277 | A filtered text is valid, and filtering it again changes nothing. |
| `WireguardText.TranslateToDeviceConfig` | cmd/ad/wireguard.go:145-219 | The device file of the text, or an error for a bad line or key, as the next lemma spells out. |
| `WireguardText.DeviceFile` | cmd/ad/wireguard.go:145-219 | The ten lines of the file from the last values of the keys: the decoded private key in the interface section, the decoded public key in the peer section, and as endpoint the external address with the port when there is one; a bad line or an undecodable key gives the error instead. |
| `WireguardText.LastValueExactly` | cmd/ad/wireguard.go:153-173 | The value of a key is what follows it in the last line that starts with it, and nothing when there is none. |
| `WireguardText.SettingsAreLastValues` | cmd/ad/wireguard.go:153-173 | Of repeated keys the last value counts. |
| `WireguardText.KeptLastValue` | cmd/ad/wireguard.go:269-274 | Filtering keeps the last value of every wanted key and forgets all others. |
| `WireguardText.FilteredTranslation` | cmd/ad/wireguard.go:279-301 | Why a restored device's file is made from the original text: the filtered one would give the same file if and only if the keys do not decode, or there is a listen port, or there is no endpoint. |
| `Timeline.RunEvents` | cmd/ad/game.go:678-684 | The scan of one tick triggers the events of that tick in queue order. |
| `Timeline.DueIsContiguous` | cmd/ad/game.go:944-948 | In a sorted queue the events of a range of ticks stand together. |
| `Timeline.TriggeredIsContiguous` | cmd/ad/game.go:678-684 | What has been triggered when a tick has begun is the contiguous part of the queue with ticks 1 to that one. |
| `Timeline.EventTick` | cmd/ad/config.go:131-133 | The tick of an event is reached when so many ticks fit before it, and is negative only below minus one tick. |
| `Timeline.TriggeredOnce` | cmd/ad/game.go:678-684 | When tick n has begun, an event has been triggered as often as it is listed if it is due at one tick length or later and before n+1 tick lengths, and never otherwise, however the sort orders ties. |
| `Timeline.RunBeginsTicks` | cmd/ad/game.go:657-672 | Every run of the game begins the ticks 1, 2, ... up to its counter, each once and in order. |
| `Timeline.RunTriggers` | cmd/ad/game.go:678-684 | So what a run has triggered at any point is the contiguous part of the sorted queue with the ticks up to its counter. |
| `FlagWindow.GetService` | cmd/ad/config.go:82-89 | The first service with an id, or nothing exactly when there is none. |
| `FlagWindow.ListFlagIds` | cmd/ad/private.go:187-220 | The three nested loops, with the error for a check without a service. |
| `FlagWindow.ListedExactly` | cmd/ad/private.go:202-215 | Listed are exactly the flags of every team and check with ticks max(1, current-V+1) to current-1. |
| `FlagWindow.ListedOnce` | cmd/ad/private.go:188-217 | No flag is listed twice. |
| `FlagWindow.WindowExactly` | cmd/ad/private.go:202-215 | A closed tick is listed if and only if another team's submission of its flag is not answered as expired in any state of the next tick. |
| `FlagWindow.ListedFlagsAreInTime` | cmd/ad/game.go:269-275 | A listed flag passes both tick checks of a submission in this tick and in the next, also when the counter the handler read was one ahead of the board. |
| `FlagWindow.ListedFlagsAreSigned` | cmd/ad/private.go:198-215 | The open tick is never listed, and every listed flag was already made by its check. |

## Left out

- Ed25519, SHA-256, hexadecimal and base64: functions given from outside, with a signature alphabet that has no dot; unforgeability is the set of signed triples.
- Codec.VerifyAccepts: the numbers that the source returns beside a rejection are not modelled, because no caller reads them.
- Scoreboard.TwoPointsDecide: points are assumed to fit into an integer, so that the comparator's subtraction does not overflow; the platform's conversion of not-a-number is a parameter.
- GameScores.PartsAddUp: real arithmetic instead of IEEE rounding; not-a-number is kept, since it comes from a quotient of zeros.
- Summarize.Sort: insertion instead of the library's sort, whose order of ties is not promised; teams are handled by id instead of by reference.
- GameObjects.AttackDefenseGame.Tick: its checks and submissions come one after the other in any order; finer interleavings, such as a submission between the running check and the lock, are in the state machine.
- GameObjects.AttackDefenseGame.Start: submissions before the first tick and between ticks are in the state machine only, which also covers a timer that never fires.
- The objects of the boards hold their lists as sequences; the arrays behind them are in `Slices`, and `GameLists` proves that both have the same contents.
- The background mode of `ForAllTeams`, which joins nothing.
- Proxy: what closing or shutting down a connection does to the other copy (the end of a copy may come at any moment; the shadowed variable that makes two branches close the server side only is therefore not visible), and the data copied.
- FlagWindow.ListFlagIds: reads the tick counter once; the handler reads it in every iteration without the lock.
- Splitting a dialled address into host and port, listeners and real connections.
- FlowRouter.RoutersAgree: names that look like numbers or addresses of others are excluded by an assumption, since the two lookups differ on them.
- Virtual machines, SSH, HTTP handlers and pages, WireGuard servers and peers, YAML, persistence, logging and time.
- `PublicServices`, `Info` and similar getters: they would only add easy members.
- Strings are sequences of characters, not UTF-8 bytes.
