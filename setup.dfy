/** The setup screen: its initial selections, their restoration from the last game, and the start
    button's validation and routing. */
module Setup {
  import opened Types
  import opened Events
  import opened LocalStorage
  import CategorySelector
  import PlayerSetup

  /** All five categories are selected before anything is restored. */
  const DefaultCategories: seq<Category> := [Wahrheit, Aufgabe, Gruppe, Duell, Wildcard]

  datatype Selections = Selections(players: seq<Player>, categories: seq<Category>)

  /** The selections after the mount effect: saved players and categories replace the empty player
      list and the default categories, each only when the saved list is non-empty. */
  function Restore(m: map<string, Doc>, available: bool): (s: Selections)
    ensures |s.categories| > 0
    ensures (LoadPlayers(m, available).Some? && |LoadPlayers(m, available).value| > 0)
      || s.players == []
  {
    var lastPlayers := LoadPlayers(m, available);
    var lastCategories := LoadCategories(m, available);
    Selections(
      if lastPlayers.Some? && |lastPlayers.value| > 0 then lastPlayers.value else [],
      if lastCategories.Some? && |lastCategories.value| > 0 then lastCategories.value else DefaultCategories)
  }

  /** Whatever the last game saved comes back, except that an empty list leaves the default. */
  lemma RestoreAfterSave(m: map<string, Doc>, players: seq<Player>, categories: seq<Category>)
    ensures var m1 := WriteItem(WriteItem(m, true, LastPlayersKey, PlayersDoc(players)),
                                true, LastCategoriesKey, CategoriesDoc(categories));
      Restore(m1, true)
        == Selections(players, if |categories| > 0 then categories else DefaultCategories)
  {
    var m0 := WriteItem(m, true, LastPlayersKey, PlayersDoc(players));
    LastSelectionsRoundTrip(m, players, categories);
    LastSelectionsRoundTrip(m0, players, categories);
    assert LastPlayersKey != LastCategoriesKey;
  }

  /** With nothing saved, or a storage that throws, the screen starts with no players and all
      categories. */
  lemma RestoreFromNothing(m: map<string, Doc>, available: bool)
    requires !available || (LastPlayersKey !in m && LastCategoriesKey !in m)
    ensures Restore(m, available) == Selections([], DefaultCategories)
  {
  }

  datatype StartOutcome =
    | ErrorSound
    | Navigate(route: Route, players: seq<Player>, categories: seq<Category>)

  /** The start button: the error sound for too few players or no categories, otherwise navigation
      (after the success sound) to the game, or to the interactive tutorial when it was not shown. */
  function Start(players: seq<Player>, categories: seq<Category>, tutorialShown: bool): (o: StartOutcome)
    ensures o.Navigate? <==> |players| >= PlayerSetup.MinPlayers && |categories| > 0
    ensures o.Navigate? ==> o.players == players && o.categories == categories
    ensures o.Navigate? ==> (o.route == GameRoute <==> tutorialShown)
    ensures o.Navigate? ==> (o.route == TutorialRoute <==> !tutorialShown)
  {
    if |players| < 2 then ErrorSound
    else if |categories| == 0 then ErrorSound
    else Navigate(if tutorialShown then GameRoute else TutorialRoute, players, categories)
  }

  /** The player check comes first: whenever the warning under the player list shows, the start is
      refused whatever the categories. */
  lemma WarningMeansRefusal(players: seq<Player>, categories: seq<Category>, tutorialShown: bool)
    ensures PlayerSetup.ShowMinimumWarning(players) <==> |players| < 2
    ensures PlayerSetup.ShowMinimumWarning(players) ==> Start(players, categories, tutorialShown) == ErrorSound
  {
  }

  /** The route follows the stored tutorial flag. */
  lemma RouteFollowsStoredFlag(players: seq<Player>, categories: seq<Category>, m: map<string, Doc>)
    requires |players| >= 2 && |categories| > 0
    ensures Start(players, categories, TutorialShown(m, true)).route == GameRoute
      <==> InteractiveTutorialShownKey in m && m[InteractiveTutorialShownKey] == Text("true")
    ensures Start(players, categories, TutorialShown(m, false)).route == TutorialRoute
  {
  }

  /** The selection after a series of taps on the category buttons (a refused tap leaves it). */
  function ApplyTaps(selected: seq<Category>, taps: seq<Category>): seq<Category>
    decreases |taps|
  {
    if |taps| == 0 then selected
    else
      var t := CategorySelector.Toggle(selected, taps[0]);
      ApplyTaps(if t.Some? then t.value else selected, taps[1..])
  }

  /** Starting from a valid selection, no series of taps can reach the "no categories" error: only
      the player count can refuse a start. */
  lemma {:induction false} TapsKeepCategoriesStartable(selected: seq<Category>, taps: seq<Category>)
    requires CategorySelector.NoDuplicates(selected) && |selected| > 0
    ensures CategorySelector.NoDuplicates(ApplyTaps(selected, taps)) && |ApplyTaps(selected, taps)| > 0
    decreases |taps|
  {
    if |taps| > 0 {
      var t := CategorySelector.Toggle(selected, taps[0]);
      CategorySelector.ToggleKeepsSelectionValid(selected, taps[0]);
      TapsKeepCategoriesStartable(if t.Some? then t.value else selected, taps[1..]);
    }
  }

  /** From the defaults, the start is refused exactly when there are fewer than two players. */
  lemma DefaultsStartWithEnoughPlayers(players: seq<Player>, taps: seq<Category>, tutorialShown: bool)
    ensures Start(players, ApplyTaps(DefaultCategories, taps), tutorialShown) == ErrorSound <==> |players| < 2
  {
    CategorySelector.OfferedIsFixed();
    TapsKeepCategoriesStartable(DefaultCategories, taps);
  }
}
