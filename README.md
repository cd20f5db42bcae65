# Schluck mal — a verified model of the game core

Schluck mal is a drinking card game that runs in the browser. Players are entered on a setup screen
and categories of cards are chosen (Wahrheit, Aufgabe, Gruppe, Duell, Wildcard). A shuffled deck is
then played card by card. On each turn the current player swipes the card left, to drink what it
asks, or right, to complete it. A statistics screen ranks the players by drinks at the end. This
project models that core in Dafny and proves what it promises:

- deck construction (`card_utils.dfy`): the category filter, the Fisher–Yates shuffle on an array and
  the forward Wildcard repair pass, with the multiset of cards kept;
- persistence (`local_storage.dfy`): a class over the key/value store, with a throwing storage
  modelled as `available == false` and the clock passed in;
- the game screen (`game.dfy`): a class with the screen's state, its handlers and timers, and the CSS
  length reader (`css_value.dfy`);
- the gesture hooks (`use_swipe.dfy`, `use_card_swipe.dfy`, `use_vertical_swipe.dfy`): classes whose
  handlers return the callbacks and haptics they fire as a sequence of effects;
- the setup screen, its category and player pickers, the two tutorials, the statistics screen, the
  card image lookup, the feature flags and the safe-area insets.

Each source file is one module. Record types shared by several screens are in `types.dfy`, and the
gesture and route vocabulary is in `events.dfy`. Where the code updates state step by step (the
hooks, the screens, the store, the in-place shuffle and repair), the model is a class with
`modifies` clauses. Each method is proved against specification functions whose properties are
lemmas. Pure rules are functions with lemmas.

Randomness (`Math.random()`), the clock (`Date.now()`), the window and screen sizes, and browser
probes are parameters. Timers and animation frames are explicit event methods (`SafetyTimeoutFires`,
`AnimationFrame`, `FinishTimerFires`, ...). Sounds, rendering and styling are left out.

The comment above the Wildcard repair pass (src/utils/cardUtils.ts:18) says that no two Wildcards
end up consecutive. The pass only looks forward, so a deck ending in two Wildcards keeps them, and the
model follows the code. `CardUtils.ForwardOnlyRepairKeepsTrailingPair` exhibits this on a four-card
deck with two Wildcards. What the pass does guarantee is proved instead (`CardUtils.RepairedSound`): any adjacent Wildcard
pair that survives starts an all-Wildcard tail.

## Model

| member | source | states |
|---|---|---|
| Types.TotalDrinksAppend | src/pages/Statistics.tsx:43 | the left-fold total of a concatenation is the sum of the two totals |
| Types.TotalDrinksUpdate | src/pages/Game.tsx:271-272 | replacing one player changes the total by exactly the difference of that player's totals |
| Types.TotalDrinksRemove | src/pages/Statistics.tsx:43 | taking a player out of the list takes exactly its total out of the sum |
| Types.TotalDrinksPermutation | src/pages/Statistics.tsx:40-43 | the total depends only on the multiset of players, not their order |
| Events.Callback | src/hooks/useSwipe.ts:19-23 | each swipe direction maps to its own callback, one to one |
| CardUtils.KeepCategories | src/utils/cardUtils.ts:8-10 | the filtered list is never longer than the catalog |
| CardUtils.KeepCategoriesCount | src/utils/cardUtils.ts:8-10 | each card occurs after filtering as often as in the catalog if its category is selected, else not at all |
| CardUtils.FilterDeckExact | src/utils/cardUtils.ts:5-10 | a non-empty selection keeps exactly the cards of the selected categories; a missing or empty selection keeps the whole catalog |
| CardUtils.PickIndex | src/utils/cardUtils.ts:14 | `Math.floor(r * (i + 1))` for r in [0, 1) is an index in [0, i] |
| CardUtils.PicksFromDraws | src/utils/cardUtils.ts:13-16 | the draws give one valid swap index per loop iteration |
| CardUtils.SwapFacts | src/utils/cardUtils.ts:15 | the destructuring swap exchanges two positions, keeps every other and keeps the multiset |
| CardUtils.ShuffleFromPermutes | src/utils/cardUtils.ts:13-16 | the shuffle loop keeps the length and the multiset of cards |
| CardUtils.FisherYatesInPlace | src/utils/cardUtils.ts:13-16 | the in-place loop on the array leaves exactly the Fisher–Yates result of the picks |
| CardUtils.FirstNonWildcard | src/utils/cardUtils.ts:22-27 | the forward search finds the first non-Wildcard at or after a position, or the end |
| CardUtils.FirstNonWildcardUnique | src/utils/cardUtils.ts:22-27 | that search result is the only index with those properties |
| CardUtils.RepairStep | src/utils/cardUtils.ts:20-30 | one repair iteration keeps the multiset and the prefix and changes nothing without a Wildcard pair; on a pair (i, i+1) it swaps the first non-Wildcard after the pair into position i+1 and changes no other position, or leaves the deck as it is when only Wildcards follow |
| CardUtils.RepairStepResolves | src/utils/cardUtils.ts:19-32 | after iteration i, every Wildcard pair starting at or below i lies in an all-Wildcard tail |
| CardUtils.RepairFromResolves | src/utils/cardUtils.ts:19-32 | the rest of the loop keeps that invariant up to the end of the deck |
| CardUtils.RepairFromPermutes | src/utils/cardUtils.ts:19-32 | the repair loop keeps the length and the multiset |
| CardUtils.RepairedSound | src/utils/cardUtils.ts:19-32 | the repaired deck is a permutation in which any adjacent Wildcard pair starts an all-Wildcard tail |
| CardUtils.NoAdjacentWildcardsWithoutWildTail | src/utils/cardUtils.ts:19-32 | if the last card of a repaired deck is not a Wildcard, no two Wildcards are adjacent |
| CardUtils.RepairFromNoWildcards | src/utils/cardUtils.ts:19-32 | from any position, the loop leaves a deck without Wildcards unchanged |
| CardUtils.RepairedNoWildcards | src/utils/cardUtils.ts:19-32 | a deck without Wildcards is left exactly as shuffled |
| CardUtils.ForwardOnlyRepairKeepsTrailingPair | src/utils/cardUtils.ts:19-32 | a deck of two other cards then two Wildcards is left as it is, so the final pair stays adjacent |
| CardUtils.RepairAt | src/utils/cardUtils.ts:20-30 | the loop body, with its inner search, in place on the array, equals one repair step |
| CardUtils.RepairInPlace | src/utils/cardUtils.ts:19-32 | the in-place repair loop equals the repair specification |
| CardUtils.ShuffleDeck | src/utils/cardUtils.ts:4-35 | the deck is the repaired shuffle of the filtered catalog: same length, same multiset, no stray Wildcard pair |
| CardUtils.GetCategoryCount | src/utils/cardUtils.ts:41-44 | a count never exceeds the catalog size |
| CardUtils.CategoryCountIsFilterLength | src/utils/cardUtils.ts:41-44 | the count of a category equals the length of the deck filtered to that category |
| CardUtils.GetAllCategoryCounts | src/utils/cardUtils.ts:46-52 | five entries, the categories in fixed order, each with its count |
| CardUtils.CountsPartition | src/utils/cardUtils.ts:41-52 | the five counts add up to the catalog size |
| CardUtils.AllCategoryCountsCoverCatalog | src/utils/cardUtils.ts:46-52 | the counts listed add up to the catalog size |
| LocalStorage.WriteItem | src/utils/localStorage.ts:18-27 | a write sets its key only and changes nothing when the storage throws |
| LocalStorage.RemoveItem | src/utils/localStorage.ts:50-56 | a removal drops its key only and changes nothing when the storage throws |
| LocalStorage.IsStaleExactly | src/utils/localStorage.ts:37-41 | the floating-point "older than 24 hours" test is the strict integer test against 86 400 000 ms |
| LocalStorage.LoadGame | src/utils/localStorage.ts:29-48 | a loaded state is the stored game document and is not stale |
| LocalStorage.SaveThenLoad | src/utils/localStorage.ts:18-48 | saving then loading within 24 hours returns the saved fields with the save time |
| LocalStorage.StaleBoundary | src/utils/localStorage.ts:37-41 | a state exactly 24 hours old loads; one a millisecond older loads as null and is removed |
| LocalStorage.ClearThenLoad | src/utils/localStorage.ts:29-56 | after clearGameState nothing loads |
| LocalStorage.LastSelectionsRoundTrip | src/utils/localStorage.ts:59-94 | saved players and categories load back unchanged; removed players load as null |
| LocalStorage.TutorialFlagRoundTrip | src/utils/localStorage.ts:97-119 | after marking, the tutorial counts as shown; after a reset or with nothing stored, it does not |
| LocalStorage.UnavailableLoadsNothing | src/utils/localStorage.ts:44-47 | a throwing storage makes every load return null or false and changes nothing |
| LocalStorage.LocalStore.constructor | src/utils/localStorage.ts:12-15 | the store starts with the given entries and availability |
| LocalStorage.LocalStore.SaveGameState | src/utils/localStorage.ts:18-27 | stores the state with its timestamp replaced by the clock |
| LocalStorage.LocalStore.LoadGameState | src/utils/localStorage.ts:29-48 | returns the loadable state and removes a stale one |
| LocalStorage.LocalStore.ClearGameState | src/utils/localStorage.ts:50-56 | removes the game key |
| LocalStorage.LocalStore.SaveLastPlayers | src/utils/localStorage.ts:59-65 | writes the players under their key |
| LocalStorage.LocalStore.LoadLastPlayers | src/utils/localStorage.ts:67-75 | returns the stored players, or null |
| LocalStorage.LocalStore.SaveLastCategories | src/utils/localStorage.ts:78-84 | writes the categories under their key |
| LocalStorage.LocalStore.LoadLastCategories | src/utils/localStorage.ts:86-94 | returns the stored categories, or null |
| LocalStorage.LocalStore.HasShownInteractiveTutorial | src/utils/localStorage.ts:97-103 | true exactly when the stored text is "true" |
| LocalStorage.LocalStore.MarkInteractiveTutorialAsShown | src/utils/localStorage.ts:105-111 | writes "true" under the tutorial key |
| LocalStorage.LocalStore.ResetInteractiveTutorial | src/utils/localStorage.ts:113-119 | removes the tutorial key |
| LocalStorage.SaveAndRestore | src/utils/localStorage.ts:18-48 | on one working store, a save then a load within 24 hours returns the saved game |
| CssValue.AllTokens | src/pages/Game.tsx:33 | the global regular-expression matches of `<number><unit>`, in order |
| CssValue.FirstTokenIsFirstOfAll | src/pages/Game.tsx:33-38 | the first match is the head of the list of all matches |
| CssValue.Max | src/pages/Game.tsx:36 | `Math.max` is a member of the list and at least every element |
| CssValue.ParseFloat | src/pages/Game.tsx:42 | parseFloat yields a number only when the text holds a digit |
| CssValue.SkipSpaces | src/pages/Game.tsx:42 | parseFloat's white-space skip stops at the first character that is not ECMAScript white space or a line terminator |
| CssValue.ParseNumber | src/pages/Game.tsx:42 | the number read after the white space is present only when the text holds a digit |
| CssValue.ParseFloatSkipsWhiteSpace | src/pages/Game.tsx:42 | any prefix of ECMAScript white space, line and paragraph separators included, leaves parseFloat's result unchanged |
| CssValue.LineSeparatorBeforeNumber | src/pages/Game.tsx:42 | a number after U+2028 is still read: "\u20285" gives 5 |
| CssValue.ParseCssValue | src/pages/Game.tsx:32-44 | the largest px value if any; else the first rem value times 16; else the leading number, or 0 |
| CssValue.NoDigitsIsZero | src/pages/Game.tsx:42-43 | text without digits reads as 0 |
| CssValue.RemAloneIsSixteen | src/pages/Game.tsx:38-41 | "1rem" reads as 16 pixels |
| CssValue.PixelsAlone | src/pages/Game.tsx:33-36 | "<digits>px" reads as that number |
| CssValue.RemFloorWithPixels | src/pages/Game.tsx:33-36 | "max(1rem, <digits>px)" reads as the pixel number, the rem floor playing no part |
| GameScreen.DrawnIndex | src/pages/Game.tsx:206-214 | a draw advances the index by one unless the last card is showing, in which case nothing changes |
| GameScreen.DrawTimesClamps | src/pages/Game.tsx:206-214 | repeated draws walk forward one card each and stop at the last card |
| GameScreen.FinishedExactlyAfterDeck | src/pages/Game.tsx:185-214 | a fresh game over n cards is finished after exactly n draws and not before |
| GameScreen.CardDrinks | src/pages/Game.tsx:267 | the showing card's drinks, or 0 when there is no card at the index |
| GameScreen.NextPlayer | src/pages/Game.tsx:260 | the successor is the next player, wrapping from the last to the first |
| GameScreen.RotateTimes | src/pages/Game.tsx:260 | repeated turns stay within the players |
| GameScreen.RotateTimesAdd | src/pages/Game.tsx:260 | a turns then b turns are a + b turns |
| GameScreen.RotationWithinRound | src/pages/Game.tsx:260 | within one round the turn wraps around exactly once |
| GameScreen.RotationReturnsAfterRound | src/pages/Game.tsx:260 | every other player has a turn before the current one comes back, after exactly n turns |
| GameScreen.AddDrinks | src/pages/Game.tsx:270-273 | only the current player's total grows, by the drinks; everything else is kept |
| GameScreen.AddDrinksTotal | src/pages/Game.tsx:270-273 | the table's total grows by exactly the card's drinks |
| GameScreen.Game.constructor | src/pages/Game.tsx:70-81 | the initial state takes the router's fields, else the defaults |
| GameScreen.Game.Snapshot | src/pages/Game.tsx:129-136 | the saved record holds the live fields and the clock |
| GameScreen.Game.Mount | src/pages/Game.tsx:151-182 | without incoming players, restores the saved game behind the initial transition or goes to setup; otherwise deals a fresh shuffled deck if none came |
| GameScreen.Game.RestoreSaved | src/pages/Game.tsx:153-168 | a loadable saved game comes back with its deck, position, players and turn behind the initial transition; otherwise the screen goes to setup and nothing else changes |
| GameScreen.Game.StartFromIncoming | src/pages/Game.tsx:171-181 | a missing or empty deck is dealt as a permutation of the filtered catalog with no stray Wildcard pair; a resumed game opens on the initial transition |
| GameScreen.Game.DrawCard | src/pages/Game.tsx:206-214 | the index follows DrawnIndex and a new card is not yet accepted |
| GameScreen.Game.ShowCurrentCard | src/pages/Game.tsx:217-226 | the restored card shows again, not accepted, with the same deck |
| GameScreen.Game.HandleAccept | src/pages/Game.tsx:239-243 | the card is accepted |
| GameScreen.Game.HandleComplete | src/pages/Game.tsx:245-264 | no drinks; the card hides and the next player is announced |
| GameScreen.Game.HandleDrink | src/pages/Game.tsx:266-286 | the current player drinks the card's drinks, the total grows by them, and the next player is announced |
| GameScreen.Game.OnSwipeLeft | src/pages/Game.tsx:323-328 | drinking happens only once a card has been drawn |
| GameScreen.Game.OnSwipeRight | src/pages/Game.tsx:329-333 | completing happens only once a card has been drawn |
| GameScreen.Game.HandlePlayerTransitionTap | src/pages/Game.tsx:336-342 | the announced player becomes current and the next card is drawn |
| GameScreen.Game.HandleInitialTransitionTap | src/pages/Game.tsx:344-356 | a restored card shows again; otherwise the first card is drawn |
| GameScreen.Game.FinishTimerFires | src/pages/Game.tsx:185-203 | a finished game navigates to the statistics with the whole game and gameFinished true |
| GameScreen.Game.ShowStatistics | src/pages/Game.tsx:288-299 | the statistics open with the whole game and without gameFinished |
| GameScreen.Game.AutoSaveTick | src/pages/Game.tsx:126-141 | the interval writes the snapshot only during a game with players, cards and a drawn card |
| GameScreen.Game.HandleExitGame | src/pages/Game.tsx:372-376 | the exit dialog opens |
| GameScreen.Game.ConfirmExit | src/pages/Game.tsx:378-389 | the game is saved unconditionally, then the home screen opens |
| GameScreen.Game.NavigateToSettings | src/pages/Game.tsx:301-320 | the game is saved unconditionally, then the settings open |
| GameScreen.Game.HandleTripleTap | src/pages/Game.tsx:87-107 | the third tap inside the window opens the developer menu and resets the count; earlier taps count and arm the timer |
| GameScreen.Game.TapTimerFires | src/pages/Game.tsx:104-106 | the window elapsing resets the count |
| GameScreen.ThreeQuickTaps | src/pages/Game.tsx:87-107 | three taps within the window open the developer menu |
| GameScreen.PlayThrough | src/pages/Game.tsx:206-356 | a whole round, one swipe and one tap per card, ends on the last card, finished, with no total decreased |
| CategorySelector.OfferedIsFixed | src/components/CategorySelector.tsx:10 | all five categories are offered, each once, in display order |
| CategorySelector.Without | src/components/CategorySelector.tsx:24 | the filter drops every occurrence of the category and keeps the count of every other |
| CategorySelector.WithoutKeepsOrder | src/components/CategorySelector.tsx:24 | in a selection without repeats, removal cuts out exactly one position and keeps the order |
| CategorySelector.ToggleEffect | src/components/CategorySelector.tsx:21-29 | a tap removes a selected category from its place, refuses to remove the last one, and appends an unselected one |
| CategorySelector.ToggleKeepsSelectionValid | src/components/CategorySelector.tsx:21-29 | taps keep the selection free of repeats and never empty a non-empty one |
| CategorySelector.ToggleTwiceRestores | src/components/CategorySelector.tsx:21-29 | selecting then deselecting a category restores the selection, unless it was the only one |
| CategorySelector.RepeatedCategoryCanEmpty | src/components/CategorySelector.tsx:22-25 | the only-one guard counts entries, so a selection holding one category twice can be emptied |
| PlayerSetup.TrimStart | src/components/PlayerSetup.tsx:25 | drops exactly the leading white space |
| PlayerSetup.TrimEnd | src/components/PlayerSetup.tsx:25 | drops exactly the trailing white space |
| PlayerSetup.TrimShape | src/components/PlayerSetup.tsx:25 | trim keeps a contiguous middle that starts and ends on non-blank characters and drops only white space |
| PlayerSetup.TrimEmptyIffBlank | src/components/PlayerSetup.tsx:25-27 | a name is refused as empty exactly when it is all white space |
| PlayerSetup.TrimIdempotent | src/components/PlayerSetup.tsx:25 | trimming twice is trimming once |
| PlayerSetup.UpperCase | src/components/PlayerSetup.tsx:34 | upper-casing at least keeps and at most doubles the length |
| PlayerSetup.UpperCaseAppend | src/components/PlayerSetup.tsx:34 | upper-casing works character by character |
| PlayerSetup.UpperCharFixed | src/components/PlayerSetup.tsx:34 | an upper-cased character is fixed by upper-casing and is no ASCII lower-case letter |
| PlayerSetup.UpperCaseIdempotent | src/components/PlayerSetup.tsx:34 | upper-casing is idempotent and leaves no ASCII lower-case letter |
| PlayerSetup.NatToString | src/components/PlayerSetup.tsx:33 | the id is a non-empty string of decimal digits |
| PlayerSetup.NatToStringReadsBack | src/components/PlayerSetup.tsx:33 | the id reads back as the clock value |
| PlayerSetup.IdsDistinct | src/components/PlayerSetup.tsx:33 | different clock values give different ids |
| PlayerSetup.AddPlayer | src/components/PlayerSetup.tsx:24-39 | the add is refused exactly for a blank name or a full list of ten |
| PlayerSetup.AddPlayerAppends | src/components/PlayerSetup.tsx:32-39 | the new player comes last, with the clock id, the trimmed upper-cased name, the avatar and no drinks; the others are kept |
| PlayerSetup.AddPlayerCapped | src/components/PlayerSetup.tsx:28-30 | adding never takes the list beyond ten players |
| PlayerSetup.AddPlayerNormalises | src/components/PlayerSetup.tsx:25-34 | surrounding blanks make no difference to the player added |
| PlayerSetup.RemovePlayer | src/components/PlayerSetup.tsx:46-49 | no player with the id remains and every other player does |
| PlayerSetup.RemovePlayerAppend | src/components/PlayerSetup.tsx:46-49 | removal works segment by segment, so the order is kept |
| PlayerSetup.RemoveAbsentId | src/components/PlayerSetup.tsx:46-49 | removing an unknown id changes nothing |
| PlayerSetup.RemoveUndoesAdd | src/components/PlayerSetup.tsx:24-49 | removing a player just added under a fresh id restores the list |
| PlayerSetup.NextAvatar | src/components/PlayerSetup.tsx:41 | the preselected avatar is one of the ten options |
| Setup.Restore | src/pages/Setup.tsx:26-37 | some category is always selected; players come only from a non-empty saved list |
| Setup.RestoreAfterSave | src/pages/Setup.tsx:26-37 | what the last game saved comes back, except that an empty category list leaves the defaults |
| Setup.RestoreFromNothing | src/pages/Setup.tsx:16-23 | with nothing saved, or a throwing storage, there are no players and all five categories |
| Setup.Start | src/pages/Setup.tsx:64-78 | the start succeeds exactly with two players and a category, forwards the selections, and goes to the game iff the tutorial was shown |
| Setup.WarningMeansRefusal | src/components/PlayerSetup.tsx:105 | whenever the too-few-players warning shows, the start is refused |
| Setup.RouteFollowsStoredFlag | src/pages/Setup.tsx:74-77 | the route is the game exactly when the stored tutorial flag is "true"; a throwing storage leads to the tutorial |
| Setup.TapsKeepCategoriesStartable | src/components/CategorySelector.tsx:21-29 | no series of taps from a valid selection reaches the no-categories error |
| Setup.DefaultsStartWithEnoughPlayers | src/pages/Setup.tsx:64-78 | from the defaults, the start is refused exactly when there are fewer than two players |
| Statistics.Insert | src/pages/Statistics.tsx:40 | inserting adds exactly the one player |
| Statistics.InsertSorted | src/pages/Statistics.tsx:40 | insertion keeps the ranking in non-increasing order of drinks |
| Statistics.SortByDrinksSorts | src/pages/Statistics.tsx:40 | the ranking is a permutation of the players in non-increasing order of drinks |
| Statistics.WithDrinksAppend | src/pages/Statistics.tsx:40 | selecting one total distributes over concatenation |
| Statistics.InsertStable | src/pages/Statistics.tsx:40 | an inserted player goes after every earlier player with the same total |
| Statistics.SortByDrinksStable | src/pages/Statistics.tsx:40 | the sort is stable: equal totals keep their list order |
| Statistics.TopOfRanking | src/pages/Statistics.tsx:40 | the first of the ranking has the most drinks |
| Statistics.RankingKeepsTotal | src/pages/Statistics.tsx:40-43 | the ranking has the same total as the players |
| Statistics.Percentage | src/pages/Statistics.tsx:124 | a share is 0 when nobody drank, lies in [0, 100], and is 100 for the only drinker |
| Statistics.SumSharesIsShareOfSum | src/pages/Statistics.tsx:124 | the shares of a list add up to its total's share |
| Statistics.SharesAddUp | src/pages/Statistics.tsx:121-154 | whenever somebody drank, the shares of all rows add up to 100 percent in exact real arithmetic |
| Statistics.RankMarkAt | src/pages/Statistics.tsx:45-56 | crown and medals for the first three rows; later rows show their place number |
| Statistics.RankMarksDistinct | src/pages/Statistics.tsx:45-56 | different rows get different marks |
| Statistics.LoserBannerIffSomebodyDrank | src/pages/Statistics.tsx:178 | the loser banner and the confetti show exactly when some player drank |
| Statistics.Actions | src/pages/Statistics.tsx:192-211 | one button: a new game after a finished game, otherwise back to the game |
| Statistics.NewGameFeedsSetup | src/pages/Statistics.tsx:71-85 | after a new game, the setup screen restores the game's players and categories and no saved game loads |
| Statistics.HandleNewGame | src/pages/Statistics.tsx:71-85 | remembers the players and categories, clears the saved game and goes to setup |
| Statistics.BackToGame | src/pages/Statistics.tsx:205 | without a state, the game screen receives nothing |
| Statistics.VisitStatisticsAndReturn | src/pages/Statistics.tsx:203-211 | opening the statistics and going back resumes the same deck, position, players and turn |
| Tutorial.SeenFlag.constructor | src/components/Tutorial.tsx:55-60 | the flag starts with the given value |
| Tutorial.NextStep | src/components/Tutorial.tsx:62-68 | "next" moves one step forward within the five steps |
| Tutorial.PreviousStep | src/components/Tutorial.tsx:70-74 | "back" moves one step back, never below the first |
| Tutorial.PreviousUndoesNext | src/components/Tutorial.tsx:62-74 | "back" undoes "next" |
| Tutorial.Dialog.constructor | src/components/Tutorial.tsx:52-53 | closed, on the first step |
| Tutorial.Dialog.Mount | src/components/Tutorial.tsx:55-60 | opens unless the tutorial was seen |
| Tutorial.Dialog.HandleComplete | src/components/Tutorial.tsx:76-80 | records the tutorial as seen, closes, and notifies exactly when a callback was given |
| Tutorial.Dialog.HandleSkip | src/components/Tutorial.tsx:82-86 | the same as completing |
| Tutorial.Dialog.HandleNext | src/components/Tutorial.tsx:62-68 | one step forward, or completion on the last step |
| Tutorial.Dialog.HandlePrevious | src/components/Tutorial.tsx:70-74 | one step back, never below the first |
| Tutorial.Dialog.OpenChange | src/components/Tutorial.tsx:91 | the dialog's own close and open requests set the state without recording anything |
| Tutorial.WalkThrough | src/components/Tutorial.tsx:55-86 | a first-time user tapping through five steps is notified exactly once, and the dialog never opens again |
| InteractiveTutorial.EachDirectionTaughtOnce | src/components/InteractiveTutorial.tsx:21-45 | the welcome step asks for nothing; each direction is taught by exactly one later step |
| InteractiveTutorial.OneDirectionPerSwipeStep | src/components/InteractiveTutorial.tsx:59-78 | on a swipe step exactly one direction is accepted |
| InteractiveTutorial.Forwarded | src/components/InteractiveTutorial.tsx:106 | the game receives the setup screen's players and categories, and nothing else |
| InteractiveTutorial.Leave | src/components/InteractiveTutorial.tsx:97-108 | the exit is the settings screen exactly when the tutorial was opened from there |
| InteractiveTutorial.Tutorial.constructor | src/components/InteractiveTutorial.tsx:51-53 | on the welcome step, not armed, not left |
| InteractiveTutorial.Tutorial.HandleSwipe | src/components/InteractiveTutorial.tsx:59-78 | an accepted swipe arms the step with a medium haptic, a light one on the welcome step; a wrong swipe gives only a light haptic; with the haptic setting off no haptic is requested |
| InteractiveTutorial.Tutorial.CompleteTutorial | src/components/InteractiveTutorial.tsx:97-108 | marks the tutorial as shown and leaves |
| InteractiveTutorial.Tutorial.HandleNext | src/components/InteractiveTutorial.tsx:86-95 | refused on an unarmed swipe step; otherwise the next step, disarmed, or completion on the last |
| InteractiveTutorial.Tutorial.HandleSkip | src/components/InteractiveTutorial.tsx:110-118 | from the settings it goes back without marking; otherwise it marks and goes to the game |
| InteractiveTutorial.Tutorial.AutoAdvanceFires | src/components/InteractiveTutorial.tsx:121-128 | the timer on an armed swipe step acts as "next" |
| InteractiveTutorial.FollowInstructions | src/components/InteractiveTutorial.tsx:59-128 | the welcome button and the three requested swipes from setup open the game with the selections, with three medium haptics when the setting is on, and a working store sends the next start straight to the game |
| CardImageMapper.Table | src/utils/cardImageMapper.ts:114-143 | each category's table holds its images numbered from 1, in order |
| CardImageMapper.CardImagesCoverAll | src/utils/cardImageMapper.ts:114-143 | every category has its table |
| CardImageMapper.TableSizes | src/utils/cardImageMapper.ts:114-143 | 24, 12, 12, 32 and 20 images for Aufgabe, Duell, Gruppe, Wahrheit and Wildcard |
| CardImageMapper.JsRem | src/utils/cardImageMapper.ts:160 | JavaScript's remainder takes the dividend's sign and the magnitude of the Euclidean remainder |
| CardImageMapper.GetCardImage | src/utils/cardImageMapper.ts:151-162 | the empty path exactly for a missing or empty table; any image found is in the table |
| CardImageMapper.PositiveIdsFindAnImage | src/utils/cardImageMapper.ts:160-161 | every id from 1 up finds an image |
| CardImageMapper.IdsPickNumberedImages | src/utils/cardImageMapper.ts:160-161 | ids 1 to n pick the image with that number; ids n apart pick the same image |
| CardImageMapper.EmptyTableGivesEmptyPath | src/utils/cardImageMapper.ts:152-157 | a missing or empty table gives the empty path whatever the id |
| CardImageMapper.NonPositiveIdIsUndefined | src/utils/cardImageMapper.ts:160-161 | an id of 0 or below not a multiple away from 1 gives a negative index and so undefined |
| CardImageMapper.ZeroIdIsUndefined | src/utils/cardImageMapper.ts:160-161 | id 0 in the Wahrheit table gives undefined |
| CardImageMapper.GetCardImageCycling | src/utils/cardImageMapper.ts:151-162 | with a non-negative remainder every lookup in a non-empty table finds an image |
| CardImageMapper.CyclingAgreesOnPositiveIds | src/utils/cardImageMapper.ts:160-161 | the corrected lookup agrees with the original on every id from 1 up |
| CardImageMapper.CyclingAlwaysFindsAnImage | src/utils/cardImageMapper.ts:160-161 | every id finds an image of its own category, periodic in the table size |
| CardImageMapper.GetRandomCardImage | src/utils/cardImageMapper.ts:169-179 | the random pick is the empty path exactly for a missing or empty table, else an image of the table |
| CardImageMapper.EveryImageCanComeUp | src/utils/cardImageMapper.ts:169-179 | every image of a table is picked by some random number |
| FeatureFlags.Cores | src/utils/featureFlags.ts:56 | a missing or zero core count counts as 4 |
| FeatureFlags.Memory | src/utils/featureFlags.ts:59 | a missing or zero memory size counts as 4 GB |
| FeatureFlags.DetectCapabilities | src/utils/featureFlags.ts:30-49 | advanced animations are never supported on a low-end device |
| FeatureFlags.ModernMobileNeverLowEnd | src/utils/featureFlags.ts:62-76 | a modern mobile is never low-end; it animates unless reduced motion is preferred |
| FeatureFlags.LowEndCriteria | src/utils/featureFlags.ts:78-82 | any other device is low-end exactly with under 2 cores, under 2 GB, or a slow connection and under 4 cores |
| FeatureFlags.UnknownDeviceIsCapable | src/utils/featureFlags.ts:51-104 | a browser that reveals nothing counts as capable with a good network |
| FeatureFlags.ZeroReportsCountAsUnknown | src/utils/featureFlags.ts:56-59 | a reported 0 is treated like a missing value |
| FeatureFlags.InitializeFlags | src/utils/featureFlags.ts:106-125 | effects follow the device class, animations and reduced motion are opposite, sounds and haptics are on, lazy loading on weak devices or networks |
| FeatureFlags.DefaultFlagsFollowDevice | src/utils/featureFlags.ts:106-125 | a low-end device gets no expensive effect and lazy images; preferring reduced motion turns complex animations off |
| FeatureFlags.Set | src/utils/featureFlags.ts:137 | setting a key changes that flag only |
| FeatureFlags.FlagsExtensional | src/utils/featureFlags.ts:11-19 | flag sets agreeing on every key are equal |
| FeatureFlags.Override | src/utils/featureFlags.ts:162 | every saved key overrides and every other flag stays |
| FeatureFlags.OverrideIdempotent | src/utils/featureFlags.ts:160-163 | applying the preferences twice is applying them once, and flags agreeing with them are unchanged |
| FeatureFlags.PrefsStorage.constructor | src/utils/featureFlags.ts:150-157 | the storage starts with the given content and availability |
| FeatureFlags.UserPreferences | src/utils/featureFlags.ts:150-157 | nothing stored, unparsable text or a throwing storage gives no preferences |
| FeatureFlags.FeatureFlagManager.constructor | src/utils/featureFlags.ts:25-28 | capabilities from the probes, flags from the capabilities |
| FeatureFlags.FeatureFlagManager.GetFlags | src/utils/featureFlags.ts:127-129 | returns the flags |
| FeatureFlags.FeatureFlagManager.GetCapabilities | src/utils/featureFlags.ts:131-133 | returns the capabilities |
| FeatureFlags.FeatureFlagManager.SetFlag | src/utils/featureFlags.ts:136-147 | the flag changes in any case; the override is saved on top of the stored ones when the storage works |
| FeatureFlags.FeatureFlagManager.ApplyUserPreferences | src/utils/featureFlags.ts:160-163 | the saved preferences override the flags |
| FeatureFlags.SetFlagKeepsConsistent | src/utils/featureFlags.ts:136-163 | after setting a flag, the flags agree with the saved overrides, which hold the new value |
| FeatureFlags.Startup | src/utils/featureFlags.ts:181-185 | the shared manager starts with the device's flags under the saved preferences |
| FeatureFlags.PreferenceSurvivesRestart | src/utils/featureFlags.ts:136-185 | a flag set on a working storage is in force after the next start-up |
| UseSwipe.MinSwipeDistance | src/hooks/useSwipe.ts:49-52 | 40 percent of the screen width, 156 pixels without a window |
| UseSwipe.Hint | src/hooks/useSwipe.ts:117-133 | the live hint names a direction only beyond 30 pixels: right or left for a horizontal drag, up for an upward vertical one |
| UseSwipe.Classify | src/hooks/useSwipe.ts:224-248 | a release commits right or left when horizontal and beyond the distance, up when vertical, upward and beyond it |
| UseSwipe.ReleaseEffects | src/hooks/useSwipe.ts:224-248 | a commit issues a medium haptic and its callback; the end callback comes last in any case |
| UseSwipe.AtMostOneCallback | src/hooks/useSwipe.ts:224-248 | a release fires at most one directional callback, and one exactly when it commits |
| UseSwipe.ThresholdIsStrict | src/hooks/useSwipe.ts:229-236 | a drag of exactly the commit distance does not commit |
| UseSwipe.DownwardNeverFires | src/hooks/useSwipe.ts:233-236 | a mostly downward drag never fires |
| UseSwipe.MirrorSymmetry | src/hooks/useSwipe.ts:229-236 | mirroring a drag swaps right and left and keeps up |
| UseSwipe.HintAnnouncesCommit | src/hooks/useSwipe.ts:117-133 | a committed swipe was announced by the live hint in the same direction |
| UseSwipe.Tracking | src/hooks/useSwipe.ts:202-218 | the frame shows the horizontal distance, the larger absolute distance and the hint |
| UseSwipe.SwipeRecognizer.constructor | src/hooks/useSwipe.ts:34-47 | idle, with no timers pending |
| UseSwipe.SwipeRecognizer.Reset | src/hooks/useSwipe.ts:66-81 | cancels both timers and shows the idle state |
| UseSwipe.SwipeRecognizer.Begin | src/hooks/useSwipe.ts:177-190 | a gesture starts at the point, arms the safety timeout and reports its start |
| UseSwipe.SwipeRecognizer.TouchStart | src/hooks/useSwipe.ts:177-190 | a touch starts a gesture |
| UseSwipe.SwipeRecognizer.MouseDown | src/hooks/useSwipe.ts:255-269 | a mouse press starts a gesture and holds the button |
| UseSwipe.SwipeRecognizer.Track | src/hooks/useSwipe.ts:192-202 | a move records the point and requests a frame |
| UseSwipe.SwipeRecognizer.TouchMove | src/hooks/useSwipe.ts:192-222 | a touch move counts only while a swipe is shown |
| UseSwipe.SwipeRecognizer.MouseMove | src/hooks/useSwipe.ts:107-137 | a mouse move counts only while the button is down |
| UseSwipe.SwipeRecognizer.AnimationFrame | src/hooks/useSwipe.ts:117-133 | the frame shows the tracking state of the latest point |
| UseSwipe.SwipeRecognizer.TouchEnd | src/hooks/useSwipe.ts:224-248 | a touch end classifies the drag whether or not a swipe is shown, then resets |
| UseSwipe.SwipeRecognizer.TouchCancel | src/hooks/useSwipe.ts:250-253 | a cancel only ends the gesture |
| UseSwipe.SwipeRecognizer.MouseUp | src/hooks/useSwipe.ts:139-166 | a release with the button down classifies and resets; otherwise nothing happens |
| UseSwipe.SwipeRecognizer.SafetyTimeoutFires | src/hooks/useSwipe.ts:83-104 | the timeout abandons the gesture with the end callback and no direction |
| UseSwipe.TouchSwipe | src/hooks/useSwipe.ts:177-248 | a touch from start to release fires the start, then what the drag classifies as |
| UseCardSwipe.Clamp | src/hooks/useCardSwipe.ts:74 | the clamp keeps values inside the bounds and moves others to the nearer bound |
| UseCardSwipe.Rotation | src/hooks/useCardSwipe.ts:73-74 | the tilt stays within 15 degrees either way |
| UseCardSwipe.RotationShape | src/hooks/useCardSwipe.ts:73-74 | the tilt has the drag's sign, is proportional within the threshold and saturates beyond it |
| UseCardSwipe.RotationMonotone | src/hooks/useCardSwipe.ts:73-74 | the tilt never decreases as the card moves further right |
| UseCardSwipe.Decide | src/hooks/useCardSwipe.ts:87-93 | a release at or beyond the threshold commits to the side of the drag, otherwise it snaps back |
| UseCardSwipe.ThresholdIsInclusive | src/hooks/useCardSwipe.ts:91 | a drag of exactly the threshold commits |
| UseCardSwipe.FlyOut | src/hooks/useCardSwipe.ts:93-101 | a committed card flies one screen width to its side, tilted 30 degrees |
| UseCardSwipe.CardSwipe.constructor | src/hooks/useCardSwipe.ts:33-44 | at rest, with the threshold the given fraction of the screen width |
| UseCardSwipe.CardSwipe.DragStart | src/hooks/useCardSwipe.ts:52-63 | remembers the point, re-reads the width and starts dragging |
| UseCardSwipe.CardSwipe.DragMove | src/hooks/useCardSwipe.ts:66-81 | while dragging the card follows the pointer and tilts; otherwise nothing changes |
| UseCardSwipe.CardSwipe.DragEnd | src/hooks/useCardSwipe.ts:84-128 | a committed release flies out with a haptic and queues its callback; otherwise the card snaps back and queues the reset |
| UseCardSwipe.CardSwipe.CallbackTimerFires | src/hooks/useCardSwipe.ts:107-113 | the oldest fly-out timer fires its direction's callback |
| UseCardSwipe.CardSwipe.SnapTimerFires | src/hooks/useCardSwipe.ts:124-126 | a snap-back timer ends the animation |
| UseCardSwipe.DragAndRelease | src/hooks/useCardSwipe.ts:52-128 | a drag and release fires exactly the callback the decision names, after the haptic |
| UseVerticalSwipe.ReleaseEffects | src/hooks/useVerticalSwipe.ts:52-70 | a release fires the up callback with a medium haptic exactly when it is vertical, upward and over 100 pixels |
| UseVerticalSwipe.OnlyUpFires | src/hooks/useVerticalSwipe.ts:52-70 | a downward or mostly horizontal release never fires |
| UseVerticalSwipe.FiringIsNotAborting | src/hooks/useVerticalSwipe.ts:36-70 | a drag that fires was not horizontal enough to be abandoned |
| UseVerticalSwipe.VerticalSwipe.constructor | src/hooks/useVerticalSwipe.ts:19-24 | at rest, not taken as vertical |
| UseVerticalSwipe.VerticalSwipe.TouchStart | src/hooks/useVerticalSwipe.ts:28-34 | the gesture starts at the point and is taken as vertical |
| UseVerticalSwipe.VerticalSwipe.Follow | src/hooks/useVerticalSwipe.ts:42-49 | a move is recorded, and a move that turned horizontal abandons the gesture |
| UseVerticalSwipe.VerticalSwipe.TouchMove | src/hooks/useVerticalSwipe.ts:36-50 | moves are ignored once the gesture was abandoned |
| UseVerticalSwipe.VerticalSwipe.TouchEnd | src/hooks/useVerticalSwipe.ts:52-70 | an abandoned gesture fires nothing; either way the next one is armed |
| UseVerticalSwipe.VerticalSwipe.MouseDown | src/hooks/useVerticalSwipe.ts:72-79 | a press starts a vertical gesture with the button down |
| UseVerticalSwipe.VerticalSwipe.MouseMove | src/hooks/useVerticalSwipe.ts:81-95 | moves count only with the button down and the gesture still vertical |
| UseVerticalSwipe.VerticalSwipe.MouseUp | src/hooks/useVerticalSwipe.ts:97-119 | a release with the button down acts as a touch end and lifts the button |
| UseVerticalSwipe.AbandonedGesture | src/hooks/useVerticalSwipe.ts:36-70 | once a touch gesture turns horizontal it fires nothing, wherever it is released |
| SafeAreaInsets.AtLeastRem | src/hooks/useSafeAreaInsets.ts:54-57 | the floored value wraps the given text in `max(1rem, ...)` |
| SafeAreaInsets.Calculate | src/hooks/useSafeAreaInsets.ts:45-100 | every inset has the one-rem floor; usable probes give all four sides floored; the estimate keeps left and right at one rem |
| SafeAreaInsets.FallbackReadsAsTable | src/hooks/useSafeAreaInsets.ts:64-100 | read as pixels, the estimate is 44/34 on a notched device in portrait, 32/21 in landscape, 20/16 on other iOS devices, 16 elsewhere, and 16 on the sides |
| SafeAreaInsets.FallbackNeverBelowRem | src/hooks/useSafeAreaInsets.ts:64-100 | no estimate is below one rem, and the top is 44 pixels exactly for a notched device in portrait |
| SafeAreaInsets.OtherDevicesKeepDefaults | src/hooks/useSafeAreaInsets.ts:73-100 | off iOS without usable probes every inset stays one rem |
| SafeAreaInsets.RotationSwapsNotchEstimates | src/hooks/useSafeAreaInsets.ts:70-88 | turning a notched device swaps its portrait and landscape estimates |
| SafeAreaInsets.ZeroProbeFallsBack | src/hooks/useSafeAreaInsets.ts:45-49 | a probe of `0px` or nothing is ignored; the top stays one rem exactly off iOS |
| SafeAreaInsets.InsetsHook.constructor | src/hooks/useSafeAreaInsets.ts:10-19 | every inset starts at one rem |
| SafeAreaInsets.InsetsHook.Recalculate | src/hooks/useSafeAreaInsets.ts:21-101 | the insets become those calculated from the probe |
| SafeAreaInsets.Mount | src/hooks/useSafeAreaInsets.ts:103-108 | after mount and any resizes the insets follow the latest probe and keep their floor |

## Left out

- Sounds, rendering, styling and animation classes are left out, including the statistics row colours of `getRankBgColor`. Haptics are kept as effects only in the gesture hooks and the interactive tutorial.
- Stored documents are values of a datatype. A document of the wrong shape loads as null in the model, while the code would return it. JSON text encoding is not modelled.
- `Date.now()` and `Math.random()` are parameters. Player ids created within the same millisecond collide; the model assumes distinct clock values where it says so.
- React re-rendering is not modelled: stale closures, a ref lagging one render behind its state, and effect ordering. Each handler acts on the current state.
- Player records are values. `handleDrink` mutates the shared player object in place; the model replaces it, so aliasing between screens is not captured.
- Totals are integers. An undefined total, which would turn into NaN on `+=`, is not modelled.
- The game screen calls `resetSwipeState` on the swipe hook from its transition taps. The model keeps the two classes apart and leaves that call out.
- Wiring defects of the screens are not modelled. `GameCard` ignores the swipe handlers passed to it, and the settings screen's restart confirmation is not modelled. Callers destructure `{ insets }` from a hook that returns the inset object itself.
- UseCardSwipe.CardSwipe.constructor: requires a positive screen width and threshold fraction. With 0 the source divides by zero and produces NaN or Infinity rotations.
- UseCardSwipe.CardSwipe.DragStart: requires a positive window width, for the same reason as the constructor: the threshold it recomputes from that width is the divisor of the rotation in DragMove, so a width of 0 gives NaN or Infinity rotations in the source.
- The 300 ms, 800 ms, 1 s, 3 s and 10 s timers are explicit events. Overlapping callback timers fire oldest first.
- The vertical swipe hook re-arms on every touch end. A second touch end without a start fires again on the old points; the model does the same and proves nothing about it.
- CssValue.ParseFloat: exponents, `Infinity` and hexadecimal forms are not read; numbers are exact decimals rather than doubles.
- PlayerSetup.UpperChar: `toUpperCase` is modelled for ASCII and Latin-1 (with ß, ÿ and µ). Other scripts are left as they are.
- The WebGL probe, the user-agent tests and `matchMedia` are boolean inputs.
- `logDiagnostics` (console output in development builds) is left out. So are the `storage` listener and `updateFlag` of the `useFeatureFlags` hook (src/utils/featureFlags.ts:195-219), which only re-read the manager.
- Statistics.SharesAddUp: shares are exact reals in the model. The source divides and multiplies in IEEE doubles, so its shares sum to 100 only up to rounding (three players with one drink each give 99.99999999999999). The other promises of `Statistics.Percentage` (0, the [0, 100] bounds and 100 for the only drinker) hold for doubles as well.
- FeatureFlags.UserPreferences: stored JSON with non-boolean values or unknown keys is treated as unreadable rather than merged.
- The DOM probe element of the safe-area hook and the removal of its listeners on unmount are not modelled; the probed paddings are inputs.
- Tutorial.tsx imports `hasShownTutorial` and `markTutorialAsShown`, which src/utils/localStorage.ts does not define. The "seen" record is therefore its own flag object, `Tutorial.SeenFlag`.
- The interactive tutorial's `showPlayerTransition` state is never set to true and is left out.
- The interactive tutorial attaches its swipe handlers only to the card of a swipe step (src/components/InteractiveTutorial.tsx:171), so the welcome-step branch of `handleSwipe` cannot be reached from the screen. `HandleSwipe` still models that branch as written, and `FollowInstructions` leaves the welcome step by its button.
- The haptic setting of the interactive tutorial is an input; the settings store behind it is not modelled.
- GameScreen.Game.NavigateToSettings: the router state passed to the settings screen is not modelled, only the save and the destination.
- GameScreen.Game.HandleAccept: its light haptic is not part of the model.

## Findings

| source | as written | input that shows it | evidently intended | confidence | as-written member | corrected member |
|---|---|---|---|---|---|---|
| src/utils/cardImageMapper.ts:160-161 | the index is `(cardId - 1) % images.length` with JavaScript's sign-keeping remainder, so an id of 0 or below gives a negative index and the function returns `undefined` despite its `string` result type | `getCardImage("Wahrheit", 0)` | every id picks an image, cycling through the table | low (catalog ids probably start at 1); not executed | CardImageMapper.ZeroIdIsUndefined | CardImageMapper.CyclingAlwaysFindsAnImage |
