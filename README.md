# Color Memory Chain — a Dafny model of the game engine and the player table

This project models two things in Dafny, and proves properties of them:

- The turn engine of the browser game "Color Memory Chain" (`ColorMemoryGame` in
  `scripts/color-memory.js`). The computer shows a growing sequence of colours, and the player
  presses the buttons back in the same order.
  - From level 5 on, "twists" remap what each button means.
  - The flash speed rises by level band.
  - Clearing a level pays a five-term award.
  - Achievements unlock from a fixed catalogue of 13 entries.
- The player table of the landing page (`UserManager` in `scripts/main.js`). It holds player
  profiles by name. Players are created on first use, selected, and updated after each game.
  Typed names are trimmed and checked first.

Modules, in dependency order:

- `Seqs` and `Wrappers`: sequence helpers (repeat-freedom, `IndexOf`, `RemoveAt` as the
  game's `splice`) and an `Option`.
- `Palette`: the six-constructor `Color` type and the `colors` array as `Colors`. It also
  defines the colour-meaning map (button colour to the colour it counts as) and what it means
  for the map to be a permutation.
- `Twists`: the four remappings and the level band that picks one. The random draws are
  parameters.
- `Difficulty`: the speed formula, the two sticky flags, and the level award.
- `Achievements`: the catalogue, the de-duplicating append pass, and the lookup by id.
- `Profiles`: the profile record and the two record updates it receives after a game.
- `GameRules`: the game's fields as a `GameState` value, with every operation as a function
  from the state before to the state after. The game's promises are proved as lemmas here.
- `ColorMemory`: class `ColorMemoryGame`, with the source's fields and methods. Each method
  changes the fields in place and is proved to leave `State()` as the matching `GameRules`
  function, so every lemma of `GameRules` applies to the object.
- `Users`: trimming and the name checks, the table updates as functions, and class
  `UserManager`, whose methods update the table in place.

How the model stands in for I/O and randomness:

- `Math.random` becomes a parameter with a precondition:
  - `nextLevel`'s colour is an index `newColor < 6`;
  - the swap and chain indices are bounded by 6, 5 and 4;
  - the sorted-by-random-comparator palette is any rearrangement of `Colors` (`Draws`,
    `ValidDraws`).
- `Date.now()` becomes a parameter `now`.
- The asynchronous `playSequence` is reduced to its one state change, `startPlayerTurn`.
  `nextLevel` therefore ends with `isPlayerTurn` false, and the turn begins when
  `PlaySequence` is called.
- The `localStorage` table read by `updatePlayerProgress` is the field `storedPlayers` of
  the game. The session copy of the current player is the field `currentPlayer`.

Note on `startGame`: it sets `gameSpeed` to 1000 and empties `sequence`, then calls
`nextLevel`. A started game therefore has a one-colour target and level 1's speed, 960 ms.
`StartGameFacts` states both the state after the resets and the state after `nextLevel`.

## Model

| member | source | states |
|---|---|---|
| Seqs.IndexOf | scripts/color-memory.js:400 | `indexOf`: -1 exactly when the value is absent, otherwise a position holding it with no earlier occurrence |
| Seqs.RemoveAt | scripts/color-memory.js:400 | `splice(i, 1)`: one element shorter, the elements before `i` kept, the ones after shifted down by one |
| Palette.Identity | scripts/color-memory.js:189-195 | the map `resetColorMeanings` builds sends every colour to itself and is a permutation |
| Palette.ArrangementFacts | scripts/color-memory.js:437 | a rearrangement of the palette has six entries, no repeats and every colour |
| Palette.UniqueAnswer | scripts/color-memory.js:516-527 | under a permutation each target colour has exactly one button that means it |
| Twists.PickTwo | scripts/color-memory.js:397-402 | the first pick is `colors[i]`; the second, taken from the list with it spliced out, differs from it |
| Twists.PickThree | scripts/color-memory.js:415-423 | the chain swap's three picks are pairwise distinct, the first being `colors[i]` |
| Twists.PickTwoReachesEveryPair | scripts/color-memory.js:397-402 | every ordered pair of distinct colours is produced by some pair of in-range draws |
| Twists.ChooseTwist | scripts/color-memory.js:379-394 | level < 15 gives the swap, < 25 the chain swap, < 35 the shuffle, otherwise the reverse, each well-formed |
| Twists.Swapped | scripts/color-memory.js:405-407 | the two colours exchange meanings; every other key keeps its meaning |
| Twists.Rotated | scripts/color-memory.js:426-429 | for distinct colours, c1 takes c2's meaning, c2 takes c3's, c3 takes c1's old one; the rest are unchanged |
| Twists.Arranged | scripts/color-memory.js:438-440 | the k-th palette colour means the k-th colour of the shuffled list; the map is total |
| Twists.Squared | scripts/color-memory.js:453-455 | the reverse twist keeps the same keys |
| Twists.SquaredNeverFallsBack | scripts/color-memory.js:454 | on a total map the `\|\| color` fallback is never taken: each colour gets old[old[c]] |
| Twists.ShuffleMeanings | scripts/color-memory.js:438-440 | the `forEach` loop leaves exactly the map `Arranged(order)` |
| Twists.ReverseMeanings | scripts/color-memory.js:447-455 | the snapshot loop and the assignment loop leave exactly `Squared` of the old map |
| Twists.ApplyTwist | scripts/color-memory.js:379-455 | every twist leaves the map total |
| Twists.SwappedInjective | scripts/color-memory.js:405-407 | the swap keeps the map one-to-one |
| Twists.SwappedOnto | scripts/color-memory.js:405-407 | the swap keeps every colour meant by some button |
| Twists.SwappedIsPermutation | scripts/color-memory.js:405-407 | the swap keeps the map a permutation |
| Twists.RotatedInjective | scripts/color-memory.js:426-429 | the 3-cycle keeps the map one-to-one |
| Twists.RotatedAt | scripts/color-memory.js:426-429 | after the 3-cycle, some button takes over each old meaning |
| Twists.RotatedOnto | scripts/color-memory.js:426-429 | the 3-cycle keeps every colour meant |
| Twists.RotatedIsPermutation | scripts/color-memory.js:426-429 | the 3-cycle keeps the map a permutation |
| Twists.ArrangedInjectiveAt | scripts/color-memory.js:438-440 | two buttons with the same shuffled meaning are the same button |
| Twists.ArrangedInjective | scripts/color-memory.js:437-440 | the shuffle's map is one-to-one |
| Twists.ArrangedOnto | scripts/color-memory.js:437-440 | the shuffle's map reaches every colour |
| Twists.ArrangedIsPermutation | scripts/color-memory.js:437-440 | the shuffle's map is a permutation |
| Twists.SquaredInjective | scripts/color-memory.js:453-455 | the square of a one-to-one total map is one-to-one |
| Twists.SquaredOnto | scripts/color-memory.js:453-455 | the square of an onto total map is onto |
| Twists.SquaredIsPermutation | scripts/color-memory.js:453-455 | the reverse twist keeps the map a permutation |
| Twists.TwistKeepsPermutation | scripts/color-memory.js:379-455 | every twist the engine can choose keeps the map a permutation |
| Twists.SwapOfIdentityIsInvolution | scripts/color-memory.js:405-407 | a single exchange applied to the identity undoes itself |
| Twists.SquaredInvolution | scripts/color-memory.js:453-455 | squaring a self-inverse map gives the identity |
| Twists.ReverseOfSwapIsIdentity | scripts/color-memory.js:445-455 | the "reverse" twist squares the map and does not invert it: after one exchange it restores the identity, although the exchange is its own inverse |
| Difficulty.Speed | scripts/color-memory.js:308-318 | for every level ≥ 1 the flash time lies in [150, 960] ms |
| Difficulty.FloorsNeverBind | scripts/color-memory.js:308-316 | inside each band the `Math.max` floor never binds: the speed is the band's linear formula |
| Difficulty.SpeedNonIncreasing | scripts/color-memory.js:308-318 | a higher level never flashes slower |
| Difficulty.SpeedSpotValues | scripts/color-memory.js:308-318 | levels 1, 10, 11, 20, 21, 35 and 36 give 960, 600, 570, 300, 290, 150 and 150 |
| Difficulty.BoostAfter | scripts/color-memory.js:314-318 | speed boost is on afterwards exactly when it was on or the level is ≥ 36; it is never cleared |
| Difficulty.ColorBlindAfter | scripts/color-memory.js:320-324 | colour-blind mode is on afterwards exactly when it was on or the level is ≥ 40 |
| Difficulty.LevelAward | scripts/color-memory.js:544-551 | the award is at least level·10 + length·5 and positive; the speed, difficulty and perfect bonuses are non-zero exactly under their conditions |
| Difficulty.AwardExamples | scripts/color-memory.js:544-551 | level 12 with length 12 pays 230; level 1 with length 1 pays 15 |
| Difficulty.AwardGrows | scripts/color-memory.js:544-551 | the next level with its one-longer target always pays more |
| Achievements.CatalogueShape | scripts/color-memory.js:36-110 | 13 entries, ten with a level threshold followed by three with a score threshold, with distinct ids |
| Achievements.Qualifies | scripts/color-memory.js:116-120 | the entry's non-zero level or score threshold is met; its properties over a pass are stated by `Unlocked` and `EvaluateMembership` |
| Achievements.Unlocked | scripts/color-memory.js:112-127 | every entry taken is in the catalogue, was not yet earned, and meets its threshold |
| Achievements.Evaluate | scripts/color-memory.js:112-127 | the earned list the pass leaves; stated by `CheckPass`, `EvaluateExtends`, `EvaluateMembership`, `EvaluateDistinct` and `EvaluateIdempotent` |
| Achievements.EvaluateStep | scripts/color-memory.js:112-126 | one iteration of the `forEach` appends the head's id exactly when it is new and qualifies |
| Achievements.CheckPass | scripts/color-memory.js:112-127 | the loop leaves the earned list and the unlocked entries that the pass specifies |
| Achievements.EvaluateExtends | scripts/color-memory.js:112-127 | the earned list only grows: the old list is a prefix of the new one |
| Achievements.EvaluateMembership | scripts/color-memory.js:112-127 | an id is earned afterwards iff it was earned before or some entry with that id qualifies |
| Achievements.EvaluateDistinct | scripts/color-memory.js:112-127 | a list without duplicates stays without duplicates |
| Achievements.NothingLeftToUnlock | scripts/color-memory.js:112-127 | when every qualifying entry is already earned, the pass unlocks nothing |
| Achievements.EvaluateIdempotent | scripts/color-memory.js:112-127 | a second pass with the same level and score adds nothing |
| Achievements.LevelFiftyWithoutPoints | scripts/color-memory.js:86-127 | level 50 with score 0 earns `level_50`, and `score_1000` only if it was already earned |
| Achievements.NothingBeforeFirstThreshold | scripts/color-memory.js:36-127 | below level 5 and 1000 points the pass leaves the list as it was |
| Achievements.Find | scripts/color-memory.js:768 | `getAchievementData` returns a catalogue entry with that id, or nothing exactly when no entry has it |
| Achievements.FindCatalogue | scripts/color-memory.js:691-769 | every catalogue id is found and yields its own entry |
| Profiles.Raised | scripts/color-memory.js:250-255 | "raise if larger" yields the maximum of the record and the candidate |
| Profiles.NewProfile | scripts/main.js:48-58 | the new record has the name, zero counters and play time, no achievements, and both stamps at `now` |
| Profiles.ProgressRecorded | scripts/color-memory.js:248-261 | one more game, best level and high score raised to the game's, achievements replaced, `lastPlayed` stamped, elapsed time added |
| Profiles.StatsUpdated | scripts/main.js:79-86 | one more game, both records raised to the game's, achievements and play time kept, `lastPlayed` stamped |
| Profiles.UpdatesKeepSane | scripts/main.js:79-86 | neither update makes a counter negative |
| Profiles.AfterGames | scripts/main.js:76-89 | the record after a run of `updatePlayerStats` calls; stated by `AfterGamesRecords` |
| Profiles.AfterGamesRecords | scripts/main.js:76-89 | over a run of games, the count grows by their number and each record is the maximum of the old one and the games' values |
| GameRules.Initial | scripts/color-memory.js:3-31 | a fresh game is idle at level 1 with an empty target, with identity meanings and speed 1000, and takes its achievements and high score from the session profile |
| GameRules.ProgressSaved | scripts/color-memory.js:242-272 | with a stored session player, one game is recorded in the table and the session copy becomes the new record; otherwise nothing changes |
| GameRules.Tuned | scripts/color-memory.js:306-325 | only speed and the two flags change; the speed is in band; the flags are only ever switched on |
| GameRules.Advanced | scripts/color-memory.js:274-290 | exactly one colour is appended; the turn is reset; level and score are kept; the speed is the level's; without a twist level the meanings are kept |
| GameRules.Restarted | scripts/color-memory.js:221-227 | the resets at the head of `startGame`; stated by `StartGameFacts` |
| GameRules.Started | scripts/color-memory.js:220-240 | a started game is on, valid, at level 1 with score 0, identity meanings and a one-colour target, waiting for the flashes |
| GameRules.TurnStarted | scripts/color-memory.js:503-504 | `startPlayerTurn` raises `isPlayerTurn`; stated by `TurnKeepsInv` and `AdvancedTracks` |
| GameRules.Replayed | scripts/color-memory.js:771-775 | ignored when no game is on; otherwise the turn is handed back to the player |
| GameRules.Scored | scripts/color-memory.js:540-553 | the turn ends, the award is added and the level increments; nothing else changes |
| GameRules.Rewarded | scripts/color-memory.js:590-598 | the achievements are the pass's result and the high score is raised to the score |
| GameRules.Cleared | scripts/color-memory.js:540-599 | `levelComplete`; stated by `ClearedScores`, `ClearedBelowMax`, `ClearedAtMax` and `ClearedKeepsInv` |
| GameRules.Completed | scripts/color-memory.js:601-603 | `gameComplete` lowers both flags; stated by `ClearedAtMax` |
| GameRules.Lost | scripts/color-memory.js:622-627 | `gameOver` lowers both flags and records the game; stated by `LostFacts` and `LostKeepsInv` |
| GameRules.Clicked | scripts/color-memory.js:512-538 | a click never changes the meanings or the target |
| GameRules.Clicks | scripts/color-memory.js:512-538 | no run of clicks changes the meanings or the target |
| GameRules.StartGameFacts | scripts/color-memory.js:220-240 | the resets give an empty target, level 1, score 0, speed 1000 and identity meanings; the started game then holds a one-colour target at speed 960 and keeps both modifier flags |
| GameRules.OneGameCountsTwice | scripts/color-memory.js:235-237 | starting a game counts it once and losing it (line 627) counts it again |
| GameRules.AdvancedKeepsInv | scripts/color-memory.js:274-290 | `nextLevel` keeps the meanings a permutation and the typed colours a prefix |
| GameRules.AdvancedTwistBand | scripts/color-memory.js:288-290 | on even levels from 5 the level band's twist is applied |
| GameRules.ClickIgnored | scripts/color-memory.js:513 | outside the player's turn a click changes nothing |
| GameRules.ClickMismatch | scripts/color-memory.js:526-530 | a colour that breaks the prefix ends in `gameOver` |
| GameRules.ClickContinues | scripts/color-memory.js:532-538 | a matching colour short of the end only records the step |
| GameRules.ClickCompletes | scripts/color-memory.js:535-537 | the colour that completes the target runs `levelComplete` |
| GameRules.ClickJudged | scripts/color-memory.js:512-538 | the level advances iff the target is completed; a mismatch stops the game and keeps level and score; a prefix keeps it going below level 50 |
| GameRules.ClickKeepsInv | scripts/color-memory.js:512-538 | every click keeps the invariant, so while the turn lasts the typed colours are a prefix of the target |
| GameRules.ClearedKeepsInv | scripts/color-memory.js:540-599 | `levelComplete` keeps the invariant |
| GameRules.TurnKeepsInv | scripts/color-memory.js:503-504 | starting or replaying the turn keeps the invariant |
| GameRules.FollowingPrefix | scripts/color-memory.js:512-538 | pressing buttons that mean the target keeps the turn going through every proper prefix |
| GameRules.CorrectInputClearsLevel | scripts/color-memory.js:512-553 | the correct buttons clear the level: the level goes up by one and the score strictly increases |
| GameRules.ButtonFor | scripts/color-memory.js:516 | under a permutation some button means any given colour |
| GameRules.Answer | scripts/color-memory.js:516-527 | a button sequence whose meanings are the target, colour by colour |
| GameRules.EveryLevelClearable | scripts/color-memory.js:512-538 | whatever the twists did, every level can be cleared |
| GameRules.ClearedScores | scripts/color-memory.js:540-559 | the award is added, the score strictly increases and the level increments, while the target, meanings and profiles are left alone |
| GameRules.ClearedBelowMax | scripts/color-memory.js:555-598 | below level 50 the game goes on, the achievements are evaluated at the new level and score, and the high score is raised |
| GameRules.ClearedAtMax | scripts/color-memory.js:555-559 | clearing level 50 ends the game with no achievement check, no high-score update and no profile update |
| GameRules.FirstLevelCleared | scripts/color-memory.js:512-553 | in a new game, the single correct press clears level 1 for 15 points |
| GameRules.FirstLevelScenario | scripts/color-memory.js:512-598 | in a new game, clearing level 1 earns no achievement |
| GameRules.LostFacts | scripts/color-memory.js:622-627 | `gameOver` stops the game and keeps level, score, target, meanings, achievements and high score |
| GameRules.LostKeepsInv | scripts/color-memory.js:622-627 | `gameOver` keeps the invariant |
| GameRules.StartedTracks | scripts/color-memory.js:220-227 | a game begins with the session high score at least the score: it is the larger of the starting high score and the score |
| GameRules.AdvancedTracks | scripts/color-memory.js:274-290 | `nextLevel`, `startPlayerTurn` and `replaySequence` keep the high score the larger of the starting one and the score |
| GameRules.ClickedTracks | scripts/color-memory.js:512-598 | a click keeps the high score the larger of the starting one and the score, since `levelComplete` raises it after each award |
| GameRules.NewRecordAsWritten | scripts/color-memory.js:627-654 | the flag as the code computes it, after the game was recorded; stated by `NewRecordAsWrittenNeverFires` and `NewRecordAsWrittenGuestNeverFires` |
| GameRules.NewRecordAsWrittenNeverFires | scripts/color-memory.js:638-648 | as written, a stored player is never told of a new personal best |
| GameRules.NewRecordAsWrittenGuestNeverFires | scripts/color-memory.js:649-654 | as written, a guest is never told of a new high score during a game, because the high score already covers the score |
| GameRules.ClearAndAdvance | scripts/color-memory.js:512-553 | under identity meanings, pressing the target clears the level for its award and `nextLevel` appends one colour and keeps the meanings below the twist levels |
| GameRules.AnnStarts | scripts/color-memory.js:220-240 | a new player's first game starts with the record already at best level 1 and high score 0 |
| GameRules.AnnReachesLevelTwo | scripts/color-memory.js:512-553 | clearing level 1 of that game gives level 2, 15 points and a red-red target |
| GameRules.AnnReachesLevelThree | scripts/color-memory.js:512-553 | clearing level 2 gives level 3, 45 points and a red-red-red target |
| GameRules.WrongFirstPress | scripts/color-memory.js:526-648 | a wrong first press ends the game, raises the stored records to the level and score reached, and as written shows no message |
| GameRules.NewRecordAsWrittenMissesFirstGame | scripts/color-memory.js:638-648 | a first game reaching level 3 shows no message, although the intended flag is raised |
| GameRules.NewRecordMeansRaised | scripts/color-memory.js:638-648 | the corrected flag is raised iff `gameOver` strictly raises the stored high score or best level |
| GameRules.NewRecordGuestMeansRaised | scripts/color-memory.js:649-654 | for a guest, the corrected flag is raised iff this game lifted the session high score above the one it began with |
| ColorMemory.ColorMemoryGame.constructor | scripts/color-memory.js:3-31 | the object starts in `Initial` state, with the catalogue as its achievement list |
| ColorMemory.ColorMemoryGame.ResetColorMeanings | scripts/color-memory.js:189-195 | only the meanings change, and they become the identity |
| ColorMemory.ColorMemoryGame.StartGame | scripts/color-memory.js:220-240 | the new state is `Started` of the old one and the invariant holds |
| ColorMemory.ColorMemoryGame.ResetRound | scripts/color-memory.js:221-227 | the new state is `Restarted` of the old one |
| ColorMemory.ColorMemoryGame.UpdatePlayerProgress | scripts/color-memory.js:242-272 | the new state is `ProgressSaved` of the old one |
| ColorMemory.ColorMemoryGame.NextLevel | scripts/color-memory.js:274-290 | the new state is `Advanced` of the old one; a valid object stays valid |
| ColorMemory.ColorMemoryGame.BeginLevel | scripts/color-memory.js:275-282 | the colour is pushed and the turn reset; nothing else changes |
| ColorMemory.ColorMemoryGame.ApplyLevelDifficulty | scripts/color-memory.js:306-325 | the new state is `Tuned` of the old one |
| ColorMemory.ColorMemoryGame.AddColorTwist | scripts/color-memory.js:379-394 | the twist is the band's choice, and only the meanings change, by that twist |
| ColorMemory.ColorMemoryGame.SimpleColorSwap | scripts/color-memory.js:396-407 | the colours are `PickTwo` of the draws and the meanings are swapped |
| ColorMemory.ColorMemoryGame.ChainColorSwap | scripts/color-memory.js:414-429 | the colours are `PickThree` of the draws and the meanings are rotated |
| ColorMemory.ColorMemoryGame.ShuffleAllColors | scripts/color-memory.js:436-440 | the meanings become `Arranged(order)` |
| ColorMemory.ColorMemoryGame.ReverseColorMappings | scripts/color-memory.js:445-455 | the meanings become the square of the old map |
| ColorMemory.ColorMemoryGame.StartPlayerTurn | scripts/color-memory.js:503-504 | only `isPlayerTurn` changes, to true |
| ColorMemory.ColorMemoryGame.PlaySequence | scripts/color-memory.js:472-486 | once the flashes end, the effect is `startPlayerTurn`'s |
| ColorMemory.ColorMemoryGame.PlayerClick | scripts/color-memory.js:512-538 | the new state is `Clicked` of the old one and the invariant is kept |
| ColorMemory.ColorMemoryGame.LevelComplete | scripts/color-memory.js:540-599 | the new state is `Cleared` of the old one; a valid object stays valid |
| ColorMemory.ColorMemoryGame.AwardLevel | scripts/color-memory.js:541-553 | the new state is `Scored` of the old one |
| ColorMemory.ColorMemoryGame.GameComplete | scripts/color-memory.js:601-603 | both flags go down; nothing else changes |
| ColorMemory.ColorMemoryGame.GameOver | scripts/color-memory.js:622-654 | the new state is `Lost` of the old one; the returned flag is `NewRecordAsWritten`, read after the game was recorded, as the code does; a settled state stays valid |
| ColorMemory.ColorMemoryGame.ReplaySequence | scripts/color-memory.js:771-775 | the new state is `Replayed` of the old one, and the invariant is kept |
| ColorMemory.ColorMemoryGame.CheckAchievements | scripts/color-memory.js:33-136 | the returned entries are those the pass unlocks, and only the achievements change |
| Users.LeadEnd | scripts/main.js:127 | the leading white space runs up to the result, and the next character is not white space |
| Users.TrailStart | scripts/main.js:127 | the trailing white space starts at the result, and the character before it is not white space |
| Users.Trim | scripts/main.js:127 | `trim`; stated by `TrimIsSlice`, `TrimUnique` and `TrimIdempotent` |
| Users.TrimIsSlice | scripts/main.js:127 | the trimmed name is a slice with only white space around it and no white space at either end |
| Users.TrimUnique | scripts/main.js:127 | any such slice is what trimming returns |
| Users.TrimIdempotent | scripts/main.js:127 | trimming twice is trimming once |
| Users.CheckName | scripts/main.js:125-140 | empty iff nothing is left after trimming; too short iff one character is left; accepted iff at least two, and then the trimmed text |
| Users.AcceptedNames | scripts/main.js:125-147 | an accepted name has at least two characters, is its own trim, and is accepted again as typed |
| Users.TrimPadded | scripts/main.js:127 | white space around a name trims back to the name |
| Users.PaddingIgnored | scripts/main.js:125-140 | white space around a name never changes the verdict |
| Users.Selected | scripts/main.js:65-74 | the name is added if absent, with a new profile; an existing entry only has `lastPlayed` restamped; other names are untouched |
| Users.SelectKeepsStats | scripts/main.js:65-74 | selecting a stored player keeps every statistic of the record |
| Users.StatsApplied | scripts/main.js:76-89 | no change without a current player; otherwise only that entry changes, by `StatsUpdated` |
| Users.StatsOnlyRaise | scripts/main.js:76-89 | other entries are untouched, no record falls, and the current player has one more game with both records at least the game's |
| Users.TableAfterGames | scripts/main.js:76-89 | a run of stats updates keeps the table's names |
| Users.TableAfterGamesIsProfileRun | scripts/main.js:76-89 | over a run of games the player's entry is the profile's run of games, and the others are untouched |
| Users.UserManager.constructor | scripts/main.js:3-7 | the manager holds the stored table with no player selected |
| Users.UserManager.CreatePlayer | scripts/main.js:48-63 | the new profile is returned and stored under the name; nothing else changes |
| Users.UserManager.SelectPlayer | scripts/main.js:65-74 | the table becomes `Selected` of the old one and the name becomes the current player |
| Users.UserManager.UpdatePlayerStats | scripts/main.js:76-89 | the table becomes `StatsApplied` of the old one; the current player is kept |
| Users.UserManager.SubmitPlayerName | scripts/main.js:125-148 | the verdict is `CheckName` of the input; only an accepted name is selected; otherwise nothing changes |

## Left out

- DOM work, CSS and messages are not modelled:
  - `updateDisplay`, `updateProgress`, `displayColorMeanings`, `showTwistNotification`,
    `checkSpecialEvents`, `applySimilarColors` and `showAchievements`;
  - `displayGameAchievements` and the badges;
  - the name input's border, placeholder and clearing;
  - the landing page's effects.
- Timers and awaited promises are collapsed: `setTimeout`, `delay`, `flashColor` and the
  flash loop of `playSequence`. Only the final `startPlayerTurn` is kept. `submitPlayerName`
  selects the player at once instead of after 150 ms.
- Overlapping `replaySequence` calls that start parallel playbacks are not modelled. They are
  a race between timers; the model runs one playback at a time.
- `localStorage`, `sessionStorage` and JSON are not modelled.
  - The stored table is a map held by the object.
  - `updatePlayerProgress` reads that map instead of re-parsing storage, which is the same
    as long as no other page writes it meanwhile.
  - The high-score and achievement keys the game also writes are omitted.
- `Math.random` and `Date.now` are parameters. Only "any in-range draw" and "any
  rearrangement" are modelled, not the distribution of the random-comparator sort.
- A method that calls `Date.now()` more than once receives one `now`.
  `updatePlayerProgress` stamps `lastPlayed` and measures play time with the same instant.
- Aliasing is not modelled. The game's `achievements` array is the session player's own
  array, so pushes in the JavaScript also grow `currentPlayer.achievements`. The model keeps
  them as separate values, and the profile takes the game's list when it is recorded.
- Users.UserManager: `currentPlayer` is held as the selected name, not as a reference to the
  table entry. The entry is always looked up through the table, which is what the shared
  reference gives.
- Object truthiness is not modelled. A name such as `constructor` that matches an inherited
  property of `{}` counts as absent in the model, while `!this.players[name]` treats it as
  present.
- Users.CheckName: lengths count Unicode scalar values, whereas `String.length` counts UTF-16
  code units. A name made of one character outside the Basic Multilingual Plane is too short
  here, but long enough in the page.
- Global instance wiring, key-to-colour dispatch, `startColorGame`, `changePlayer`,
  `loadSavedPlayers` and page navigation are not modelled. `server.js` is not part of this
  model.
- Five methods are internal splits of single source methods, not source methods of their own:
  - ColorMemory.ColorMemoryGame.ResetRound is the first statements of `startGame`;
  - ColorMemory.ColorMemoryGame.BeginLevel is the start of `nextLevel`;
  - ColorMemory.ColorMemoryGame.AwardLevel is the start of `levelComplete`;
  - Twists.ShuffleMeanings and Twists.ReverseMeanings are the loops of the shuffle and
    reverse twists. They build a local map and write it back once.
- ColorMemory.ColorMemoryGame.ResetColorMeanings also builds the map locally and writes it
  once, where the source writes it in place.
- The catalogue literal that `checkAchievements` and `getAchievementData` each rebuild is the
  constant `Achievements.Catalogue`. The game holds it in `achievementList`, and the rules
  functions take it as a parameter `cat`.

## Findings

| source | as written | input that shows it | evidently intended | confidence | as-written member | corrected member |
|---|---|---|---|---|---|---|
| scripts/color-memory.js:627-648 | `gameOver` calls `updatePlayerProgress` first. That raises the session profile's `highScore` and `bestLevel` to this game's values, so the later test `score > highScore \|\| level > bestLevel` is never true for a stored player. | a new player "ann" clears levels 1 and 2 (best level 1 after `startGame`, high score 0; 45 points) and presses a wrong button at level 3: the record rises to level 3 and 45 points, but no "New Personal Best!" is shown | compare against the records as they stood before this game was recorded | not executed | GameRules.NewRecordAsWrittenMissesFirstGame | GameRules.NewRecordMeansRaised |
| scripts/color-memory.js:649-654 | For a guest the test is `score > highScore`, but `levelComplete` (lines 594-598) has already raised `highScore` to the score after every cleared level, and nothing else changes the score. The test is never true during a game. | a guest with session high score 0 clears level 1 (15 points, high score now 15) and presses a wrong button at level 2: 15 > 15 is false, so no "New High Score!" is shown | compare the score against the session high score as it stood when the game began | not executed | GameRules.NewRecordAsWrittenGuestNeverFires | GameRules.NewRecordGuestMeansRaised |

The game object reproduces both messages as written: `ColorMemoryGame.GameOver` returns
`NewRecordAsWritten`. The corrected flag `NewRecord` is defined and proved beside it.
