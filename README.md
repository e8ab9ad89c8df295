# AI Werewolf Moderator — a Dafny model of the game engine

The AI Werewolf Moderator runs a nine-player game of Werewolf on one device.
Some seats are human, the rest are played by a language model. The engine
does the following:

- **Deal:** three Werewolves, three Villagers, a Seer, a Witch and a Hunter go
  to seats 1..9, and the humans take the first seats.
- **Reveal:** the device is passed round so each human can see their card.
- **Night:** the moderator runs the werewolves, the Witch (one save potion and
  one poison potion per game) and the Seer.
- **Dawn:** it announces the night's deaths.
- **Discussion:** the living players speak in ascending id order.
- **Vote:** every living human votes by hand, then every living AI player
  votes. Only a single front-runner is eliminated; a tie kills nobody.
- **Deaths:** every death goes through one cascade. The cascade marks the
  dead and checks for a winner. If a Hunter who was not poisoned has died,
  it detours to that Hunter's revenge shot. Otherwise it continues to the
  requested phase.

The model has nine modules.

- `Types`: the records (player, potions, night scratch data, log entry,
  game state). Log text is represented by a structured `Message` value.
- `Constants`: the standard deal, the personality labels and the team of
  each role.
- `Roster`: head counts, the roster filters, look-up by id, and the deal.
  `Cast` is the shape of a dealt roster: ids 1..9, humans first, and each
  role held as often as the standard deal holds it.
- `Victory`: the win check, with lemmas on when the game goes on.
- `Speakers`: the discussion order. The next speaker is the living player
  with the next higher id, with no wrap-around.
- `Cascade`: the death cascade, the dawn death list and the delayed dawn
  step.
- `Voting`: the next human voter, the AI ballot round (a loop), the tally
  (a loop) and the front-runner scan (a loop). `Eliminated` is the
  reference definition the scan is proved against.
- `Advisor`: the pure parts of the AI service: the board view a player is
  shown, the fallback target when the model call fails, and the history
  windows.
- `Moderator`: the game itself. It holds:
  - the invariant `Sound` on game states;
  - the value-level steps (vote, ballot, Hunter's miss) with their lemmas;
  - class `Game`, which holds the game state and the screen state. Each
    human click and each resolved AI turn is one method. Every method
    preserves `Valid()`, which is `Sound` plus the screen's own invariants,
    and states the whole new state. Every method after `StartGame` also
    ensures `Evolves(old(gs), gs)`: the seats and roles stay, the dead stay
    dead, potions are only spent, the log only grows and the day count never
    goes back. `StartGame` itself replaces the empty roster with the dealt
    one.

External inputs become parameters:

- the language model's answers are `Option<int>` targets, a `choice`
  function for the vote, and the speech text;
- the shuffle is any permutation of the standard deal;
- the random draws are `Draw` values in [0, 1), or booleans for the Witch's
  coin flips.

Each delayed transition (the 2–6 s timers) happens at once, in the event
that arms it. Only the dawn timer stays a separate event, `DawnTimer`,
because the source captures its death list when the phase is entered.
React runs the phase-entry effect before the next event can happen. This is
modelled by the field `effectPhase`. `Settled()` holds once
`RunPhaseEffect` has run for the current phase. Every event method after
the setup screen requires it, except `RunPhaseEffect` itself. On the setup
screen `Valid()` already implies it. `ResolveIfComplete` and `ApplyBallots`
are not events of their own. They are internal steps of `HumanVote`, which
calls them only after a ballot was recorded. Both require `Settled()`, and
`ResolveIfComplete` also requires a recorded ballot. `ApplyBallots` is called
only from `ResolveIfComplete`.

One branch follows the corrected behaviour rather than the code as written:
the AI Hunter's empty shot (see "## Findings").

## Model

| member | source | states |
|---|---|---|
| Constants.TeamOf | constants.ts:23-29 | a role is Bad exactly when it is a Werewolf; every other role is Good |
| Constants.StandardComposition | constants.ts:4-8 | the deal has nine roles: three Werewolves, three Villagers, and one each of Seer, Witch and Hunter (each role's count is its quota) |
| Roster.Select | App.tsx:518 | a roster filter keeps exactly the players that satisfy the selector and never grows the list |
| Roster.SelectAppend | App.tsx:518 | filtering distributes over concatenation, so the filter keeps roster order |
| Roster.FindPlayer | App.tsx:358 | look-up by id returns a listed player with that id, or none when no player has it |
| Roster.SeatsAreMultiplicity | App.tsx:57-63 | counting the seats that hold a role equals that role's multiplicity in the dealt roles |
| Roster.CastSurvivesDeaths | App.tsx:122-135 | a dealt roster keeps its shape (ids, humans, quotas, personalities) through any deaths |
| Roster.CastIds | App.tsx:57-58 | a dealt roster has distinct, positive ids |
| Roster.SameCastTransitive | App.tsx:122-135 | two rounds of deaths compose into one |
| Roster.CountAliveNeverGrows | App.tsx:122-135 | deaths never raise the living count of any category |
| Roster.CensusPartition | App.tsx:96-99 | the living Good players are the living gods plus the living villagers; all the living are the wolves plus the Good |
| Roster.CountAlivePositive | App.tsx:96-99 | a category's living count is positive exactly when one of its players is alive |
| Roster.SelectDistinct | App.tsx:108 | filtering keeps ids distinct |
| Roster.CountAliveByRoles | App.tsx:96-99 | with everyone alive, a head count is read off the bag of dealt roles |
| Roster.RandomIndex | App.tsx:60 | a draw in [0, 1) scaled by n and rounded down is an index below n |
| Roster.Deal | App.tsx:57-63 | the deal gives one seat per shuffled role, in that order, with everyone alive |
| Roster.DealIsCast | App.tsx:52-63 | any permutation of the standard roles deals a roster of the required shape: seat i has id i + 1, is human iff i < humanCount, and has a personality from the list; each role fills its quota |
| Victory.CheckWin | App.tsx:95-105 | Good wins iff no wolf is alive; Bad wins iff a wolf is alive and either the wolves are at least as many as the Good players or all gods or all villagers are dead; otherwise the game goes on |
| Victory.GameOnMeansContest | App.tsx:101-104 | while the game goes on, a wolf, a god and a villager are alive, Good outnumbers the wolves, and at least three players are alive |
| Victory.GameOnHasSurvivor | App.tsx:101-104 | while the game goes on somebody is alive |
| Victory.GoodWinIsFinal | App.tsx:101 | once Good has won, further deaths cannot change the verdict |
| Victory.NoWolvesGoodWins | App.tsx:101 | a table whose only wolf is dead is a Good win |
| Victory.WolvesMatchGoodBadWins | App.tsx:102 | two wolves against two Good players is a Bad win |
| Victory.FreshDealUndecided | App.tsx:95-104 | a freshly dealt standard table, everyone alive, is undecided |
| Speakers.Insert | App.tsx:108 | inserting adds exactly one element and keeps the others, with their multiplicities |
| Speakers.SortById | App.tsx:108 | the sort is a permutation: the same players with the same multiplicities |
| Speakers.FindIndex | App.tsx:109 | returns the first position holding the id, or -1 exactly when no position holds it |
| Speakers.InsertAscending | App.tsx:108 | inserting a new id into an ascending list keeps it ascending |
| Speakers.AscendingCons | App.tsx:108 | putting an id below all others in front keeps the list ascending |
| Speakers.SortAscending | App.tsx:108 | sorting a roster with distinct ids gives strictly ascending ids |
| Speakers.SpeakingOrderIds | App.tsx:108 | the speaking order holds exactly the living players' ids |
| Speakers.NextInAscending | App.tsx:109-112 | the successor rule on an ascending list: the next higher id after a listed speaker (none after the last), the lowest id for anyone else (none on an empty list) |
| Speakers.NextSpeakerOrder | App.tsx:107-113 | the next speaker is always a living player. From a living speaker it is the next higher living id, or none after the highest. From anyone else it is the lowest living id, or none when nobody is alive |
| Speakers.SampleTableAlive | App.tsx:108 | the sample table has distinct ids and living ids {2, 3, 5, 9} |
| Speakers.SampleTableAfterThree | App.tsx:107-113 | with living ids {2, 3, 5, 9} the speaker after 3 is 5 |
| Speakers.SampleTableAfterLast | App.tsx:111 | nobody speaks after the highest living id |
| Cascade.MarkDead | App.tsx:122-135 | exactly the living listed players die; seats, order and every other field are unchanged |
| Cascade.TriggeredHunter | App.tsx:123-131 | a revenge shot is triggered exactly when a living, listed Hunter was not the poison target, and the one returned is such a Hunter |
| Cascade.ProcessDeaths | App.tsx:115-179 | the cascade only kills the listed players, leaves potions and the day count alone, and ends in game over, the Hunter's turn, the requested phase, or the vote when discussion was requested |
| Cascade.CascadeWinnerFirst | App.tsx:137-141 | a decided roster ends the game with the winner recorded, before any Hunter detour, and adds no log line |
| Cascade.CascadeHunterDetour | App.tsx:143-155 | on an undecided roster, a revenge-eligible Hunter takes the turn; the night data and ballots are left as they were and one log line is added |
| Cascade.PoisonedHunterIsSilent | App.tsx:125-126 | a Hunter killed by the poison takes nobody along |
| Cascade.CascadeContinues | App.tsx:157-178 | with no winner and no revenge the cascade lands on the requested phase and clears the ballots. Discussion opens with the lowest living id; a new night gets fresh night data |
| Cascade.FirstSpeakerExists | App.tsx:159-163 | while the game goes on there is a first speaker, and it is the lowest living id |
| Cascade.CascadeNeverSkipsDiscussion | App.tsx:161-163 | on a dealt roster the "nobody to speak" fallback to voting never fires |
| Cascade.TriggeredHunterBySet | App.tsx:123 | only the set of listed ids decides the revenge |
| Cascade.CascadeBySet | App.tsx:123 | reordering or repeating ids in the death list changes nothing |
| Cascade.CascadeIdempotent | App.tsx:122-135 | applying a death list twice kills nobody new and triggers no second revenge |
| Cascade.DawnDeaths | App.tsx:196-199 | the dawn list has at most two entries: the wolves' victim when not saved, and the poisoned player |
| Cascade.DawnStep | App.tsx:209-218 | the delayed dawn step does nothing once the phase has moved on; otherwise it kills the listed players and adds a day exactly when discussion opens |
| Cascade.DawnUnsavedVictim | App.tsx:198 | an unsaved victim dies |
| Cascade.DawnSavedVictim | App.tsx:198 | a saved victim lives |
| Cascade.DawnTwoDeaths | App.tsx:198-199 | the victim and the poisoned player both die |
| Cascade.DawnSavedThenPoisoned | App.tsx:198-199 | a saved victim who is also poisoned dies, once |
| Cascade.DefaultTableUndecided | App.tsx:95-104 | the unshuffled standard table is undecided |
| Cascade.DefaultTableIds | App.tsx:57-58 | the standard table has distinct positive ids and a living seat 1 |
| Cascade.QuietDawn | App.tsx:209-218 | after a night without deaths the dawn step opens discussion one day later, with the lowest living id speaking first |
| Cascade.FirstNightSaved | App.tsx:196-218 | first night, the victim is saved: discussion opens on day 2 with Player 1 |
| Voting.FirstUnvoted | App.tsx:500-502 | the next voter is the first listed human without a ballot; there is none exactly when every listed human has voted |
| Voting.AllBallots | App.tsx:517-534 | every AI that names a (non-zero) target holds that ballot; a human ballot survives unless that id also voted as an AI; no one else gains a ballot |
| Voting.CollectAiBallots | App.tsx:517-534 | the loop gathers exactly the reference ballots and logs one line per AI in roster order |
| Voting.AllBallotsStep | App.tsx:528-529 | one more AI's ballot overwrites the map gathered so far |
| Voting.TallyPositiveIff | App.tsx:536-539 | a target has a positive count exactly when some ballot names it |
| Voting.TallyMap | App.tsx:536-539 | the counts cover exactly the named targets, each between 1 and the number of ballots |
| Voting.TallyOverStep | App.tsx:537-538 | one more ballot adds one to its target's count and nothing to the others |
| Voting.CountVotes | App.tsx:536-539 | the tally loop computes the reference counts |
| Voting.AtMaxStep | App.tsx:544-549 | a higher count restarts the front-runners, an equal one joins them, a lower one changes nothing |
| Voting.AtMaxIsLeaders | App.tsx:541-550 | once every count is seen, the targets at the running maximum are the leaders |
| Voting.Visit | App.tsx:544-549 | one step of the scan keeps the running maximum and the list of targets at it |
| Voting.PickCandidates | App.tsx:541-550 | the scan returns the highest count and, once each, exactly the targets that hold it (in any entry order) |
| Voting.ScanComplete | App.tsx:541-550 | a finished scan holds exactly the leaders |
| Voting.Eliminated | App.tsx:554-555 | someone is eliminated exactly when there is a single leader, and it is that leader |
| Voting.EliminatedOfCandidates | App.tsx:554-564 | one candidate means that candidate is eliminated; otherwise nobody is |
| Voting.UniqueLeaderIff | App.tsx:541-555 | a target is voted out exactly when its count is strictly above every other target's |
| Voting.NoBallotsNoElimination | App.tsx:554-564 | with no ballots nobody is eliminated |
| Voting.ConsensusVote | App.tsx:554-555 | four ballots for Player 4 eliminate Player 4 |
| Voting.SplitVote | App.tsx:563-564 | one ballot each for two players is a tie |
| Advisor.BoardView | services/geminiService.ts:65-70 | one entry per seat in seat order, with the seat's id and status; a shown role is the seat's real role |
| Advisor.BoardShowsSelf | services/geminiService.ts:69 | the acting player's own seat shows its role |
| Advisor.WolfSeesPack | services/geminiService.ts:69 | a Werewolf sees exactly its own seat and the other Werewolves |
| Advisor.OthersSeeOnlySelf | services/geminiService.ts:69 | any other role sees only its own seat |
| Advisor.GoodRolesStayHidden | services/geminiService.ts:69 | no other player's Good role is ever disclosed |
| Advisor.FallbackTarget | services/geminiService.ts:116-117 | the fallback is a living player other than the actor, and is missing exactly when there is no such player |
| Advisor.FallbackReachesEveryone | services/geminiService.ts:117 | every living other player is the fallback for some draw |
| Advisor.DrawFor | services/geminiService.ts:117 | the draw k / n is in [0, 1) and lands on index k |
| Advisor.Recent | services/geminiService.ts:77 | the window is the last n entries (all of them when fewer), a suffix of the history |
| Advisor.ActionWindowWithinSpeechWindow | services/geminiService.ts:23 | the action prompt's 5-entry window is the tail of the speech prompt's 10-entry window |
| Advisor.History | App.tsx:279 | the prompt history is the log's contents, entry for entry |
| Advisor.RecentHistory | services/geminiService.ts:23 | a prompt's window over the history is the content of the last n log entries (all of them when fewer) |
| Moderator.ClampHumanCount | App.tsx:774 | the count is always 1..9: in-range values are kept, a failed parse or a value of at most 1 gives 1, and a value of 9 or more gives 9 |
| Moderator.DealKeepsSound | App.tsx:52-72 | dealing from the setup screen gives a sound, undecided game in the reveal |
| Moderator.EvolvesTransitive | App.tsx:115-179 | two steps that only kill, spend potions, append to the log and advance the day compose into one |
| Moderator.CascadeKeepsSound | App.tsx:115-179 | the cascade towards discussion or night keeps the game sound |
| Moderator.LoggingKeepsSound | App.tsx:44-49 | appending to the log keeps the game sound |
| Moderator.ShotKeepsSound | App.tsx:577-583 | a logged shot put through the cascade evolves the game and keeps it sound |
| Moderator.DawnKeepsSound | App.tsx:209-218 | the dawn step keeps the game sound |
| Moderator.PassTurn | App.tsx:385-391 | the turn passes to the next speaker, or discussion ends: vote phase, no speaker, ballots cleared, one log line |
| Moderator.SeerVerdict | App.tsx:441-442 | the reading is Unknown exactly when no player has the id |
| Moderator.SeerSeesTruth | App.tsx:441-442 | on distinct ids the Seer sees the target's true team, and Bad exactly when the target is a Werewolf |
| Moderator.BallotLog | App.tsx:528-533 | one line per AI in roster order: a vote exactly for the AI players with a set answer, an abstention for the others |
| Moderator.BallotLogAgreesWithBallots | App.tsx:528-533 | every logged vote is the ballot counted for that AI player |
| Moderator.ApplyVote | App.tsx:554-574 | a single front-runner dies through the cascade towards night; a tie kills nobody and starts a fresh night with the ballots cleared; both evolve the game |
| Moderator.ApplyVoteKeepsSound | App.tsx:554-574 | resolving the vote keeps the game sound |
| Moderator.BallotLogIs | App.tsx:528-533 | the collected log lines are the reference ballot log |
| Moderator.Ballot | App.tsx:506-508 | the voter's ballot is recorded for the target and every other ballot is kept |
| Moderator.BallotKeepsSound | App.tsx:499-508 | a ballot from the next human voter keeps the game sound and evolves it |
| Moderator.DistinctIdsCount | App.tsx:500 | helper: a list with distinct ids has as many ids as entries |
| Moderator.SubsetSameSize | App.tsx:510 | helper: a subset as large as its finite superset is the whole set |
| Moderator.BallotsCompleteIff | App.tsx:510 | the ballot count equals the number of living humans exactly when no human is left to vote |
| Moderator.AllVotedIff | App.tsx:502-504 | nobody is left to vote exactly when every living human holds a ballot |
| Moderator.HumanIdsSelected | App.tsx:500 | the living humans' ids are the ids of the filtered list |
| Moderator.HumansCount | App.tsx:500 | on distinct ids, the living humans are as many as their ids |
| Moderator.NextVoterInSeatOrder | App.tsx:500-502 | the next voter is the first living human in seat order without a ballot: every living human seated before them has voted |
| Moderator.VoterSeat | App.tsx:500-502 | helper: the seat of the next voter, with every living human before it holding a ballot |
| Moderator.TallyRound | App.tsx:517-550 | the AI ballot loop, the tally and the front-runner scan log the reference ballots and find the reference outcome: a single front-runner or none |
| Moderator.HunterMissAsWritten | App.tsx:420-422 | as written: the empty shot moves on to night with the seats, the log, the ballots and the old night data unchanged |
| Moderator.HunterMissKeepsStaleSave | App.tsx:420-422 | as written, the empty shot carries a recorded save into the new night, so the game is no longer sound |
| Moderator.StaleSaveSparesVictim | App.tsx:196-199 | as written, the next night's victim survives a save nobody made that night |
| Moderator.HunterMiss | App.tsx:420-422 | corrected: the empty shot starts the night with fresh night data and the same seats |
| Moderator.HunterMissKeepsSound | App.tsx:420-422 | corrected: the empty shot keeps the game sound, and the next night's victim dies unless saved that night |
| Moderator.Game.constructor | App.tsx:10-31 | the game opens on the setup screen with one human and the welcome line, and is valid |
| Moderator.Game.SetHumanCount | App.tsx:774 | the human count becomes the clamped input; nothing else changes |
| Moderator.Game.StartGame | App.tsx:52-72 | the dealt roster enters the reveal with one log line; the game stays valid (so it is a Cast and undecided) |
| Moderator.Game.RevealClick | App.tsx:75-91 | the card is shown, or hidden and the device passed on, or night falls after the last human |
| Moderator.Game.RunPhaseEffect | App.tsx:183-220 | once per phase change: log the cue, open the Witch's save step, and at dawn arm the timer with the night's death list |
| Moderator.Game.DawnTimer | App.tsx:209-218 | the armed death list goes through the dawn step; the game stays valid and evolves |
| Moderator.Game.AiWerewolfTurn | App.tsx:263-289 | with no living human wolf, the night records the AI leader's target (none without AI wolves) and the Witch wakes |
| Moderator.Game.HumanWolfAction | App.tsx:435-437 | the human wolves' victim, a living non-wolf, is recorded and the Witch wakes |
| Moderator.Game.AiWitchTurn | App.tsx:292-336 | with no living human Witch: a save is recorded iff a living AI Witch holds the potion, there is a victim and the coin says so. A poisoning needs the poison, the coin and no save. Each potion is spent iff used |
| Moderator.Game.WitchDecision | App.tsx:457-481 | save or poison spends that potion and ends the turn; skip moves from the save step to the poison step, then ends it |
| Moderator.Game.AiSeerTurn | App.tsx:339-348 | with no living human Seer, dawn comes with nothing changed |
| Moderator.Game.HumanSeerAction | App.tsx:439-447 | the reading is recorded, and it is Bad exactly when the target is a Werewolf |
| Moderator.Game.ConfirmSeerResult | App.tsx:449-455 | the reading is cleared and dawn comes |
| Moderator.Game.DiscussionTurn | App.tsx:351-393 | with no speaker the vote opens; a missing or dead speaker is skipped; an AI speaker's line is logged and the turn moves to a higher id or to the vote; a human speaker is waited for |
| Moderator.Game.HumanChat | App.tsx:483-497 | blank input changes nothing; otherwise the line is logged and the turn passes on |
| Moderator.Game.HumanVote | App.tsx:499-513 | the ballot goes to the first human without one; once every living human has voted the vote is resolved; the game stays valid and evolves |
| Moderator.Game.ResolveIfComplete | App.tsx:510-512 | the vote is resolved, to the reference resolution `ResolveVote`, exactly when no living human is left to vote |
| Moderator.Game.ApplyBallots | App.tsx:552-574 | the tallied ballots and outcome are applied to the game; the game stays valid and evolves |
| Moderator.Game.AiHunterTurn | App.tsx:396-425 | the AI Hunter's shot is logged; a named target goes through the cascade towards night, and an empty shot starts a fresh night |
| Moderator.Game.HunterShoot | App.tsx:577-583 | the human Hunter's target dies through the cascade towards night; the game stays valid and evolves |

## Left out

- Rendering, speech synthesis and the React component structure are not modelled. Their guards become `requires` on the human event methods:
  - the phase;
  - a living human actor of the role;
  - the offered buttons.
- The delays of the timers (2–6 s) and the `isProcessingAi` flag are not modelled. Each delayed phase change happens in the event that schedules it, so clicks that the source would accept during a delay are not modelled.
- Calls to the language model are not modelled; their answers are parameters:
  - `getAiAction`'s target;
  - the `choice` function of the vote;
  - `getAiSpeech`'s text.

  The prompt text, the JSON parsing and the speech fallback strings are left out. Of the AI service only the board view, the fallback target and the history windows are modelled.
- Randomness is not modelled; its results are parameters:
  - the shuffle is any permutation of the standard deal;
  - the personality draws and the fallback draw are `Draw` values;
  - the Witch's two coin flips are booleans.
- Log entries carry a structured `Message` instead of the rendered sentence. Their ids (time stamp plus random number) are not modelled, and neither are the role descriptions of constants.ts.
- Voting.PickCandidates: the source visits the vote counts in the object's key order (ascending for integer keys); the model visits them in an unspecified order. So the candidate list is stated as a set, with its length, not as a sequence in a fixed order. The engine only reads the list when it has exactly one element, so the order does not affect the outcome.
- Moderator.Blank: trimming is approximated by four white-space characters (space, tab, newline, carriage return); the other Unicode white space that trim removes is not.
- Speakers.SortById: the engine's sort is modelled as a stable insertion sort by id. On the distinct ids of a dealt roster every correct sort gives the same order.
- The optional fields of the source's player type are not modelled: isWolfTarget, isProtected, isPoisoned and voteTarget. The engine never reads or writes them.
- With no living human, the vote phase never resolves, because the AI ballot round starts only from a human ballot. The model has this behaviour as well: `HumanVote` records no ballot, and `ResolveIfComplete`, the only caller of `ApplyBallots`, requires one.

## Findings

| source | as written | input that shows it | evidently intended | confidence | as-written member | corrected member |
|---|---|---|---|---|---|---|
| App.tsx:420-422 | When the AI Hunter names no target, only the phase is set to NIGHT_WEREWOLF. The night scratch data keeps the last night's witchSaveUsed and witchPoisonTarget. | A human Witch saves on one night. The next day the AI Hunter is voted out and returns a null target. On the following night the Witch has no save potion left and skips. The wolves' victim then survives, because witchSaveUsed is still true. | Every other way into a new night resets the night data: the cascade (App.tsx:172-174) and the tied vote (App.tsx:570). | medium, not executed | Moderator.HunterMissKeepsStaleSave, Moderator.StaleSaveSparesVictim (about Moderator.HunterMissAsWritten) | Moderator.HunterMiss, Moderator.HunterMissKeepsSound, Moderator.Game.AiHunterTurn |
