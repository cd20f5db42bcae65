/** The turn engine of the game screen: drawing cards, charging drinks, rotating players, the finish
    condition, restoring a saved game and the auto-save. Sounds are left out; timers (the finish
    delay, the auto-save interval, the triple-tap window) are explicit event methods. */
module GameScreen {
  import opened Types
  import CardUtils
  import LocalStorage

  /** The router state the screen is opened with; `None` is a field the caller did not pass
      (an absent router state is all `None`). */
  datatype NavState = NavState(
    players: Option<seq<Player>>,
    selectedCategories: Option<seq<Category>>,
    deck: Option<seq<Card>>,
    currentIndex: Option<int>,
    currentPlayerIndex: Option<int>,
    cardAccepted: Option<bool>)

  /** Where the screen navigated to, with the router state that matters downstream. */
  datatype Navigation =
    | ToSetup
    | ToHome
    | ToSettings
    | ToStatistics(stats: StatisticsState)

  /** The router state handed to the statistics screen: the whole game, and `gameFinished` only from
      the finish effect (the statistics button leaves it out). */
  datatype StatisticsState = StatisticsState(
    players: seq<Player>,
    deck: seq<Card>,
    currentIndex: int,
    currentPlayerIndex: int,
    cardAccepted: bool,
    gameFinished: Option<bool>,
    selectedCategories: seq<Category>)

  /** Milliseconds between two auto-saves and the triple-tap window; kept as documentation of the
      events below, which the model fires explicitly. */
  const AutoSaveIntervalMs: int := 10000
  const TripleTapWindowMs: int := 500

  // ---------------------------------------------------------------------------------------------
  // Pure rules

  /** The finish effect's condition: a card has been drawn and it is the last one. */
  predicate IsFinished(currentIndex: int, deckLength: int) {
    currentIndex >= 0 && currentIndex >= deckLength - 1
  }

  /** drawCard's effect on the index: one step forward unless the last card is showing. */
  function DrawnIndex(currentIndex: int, deckLength: int): (r: int)
    ensures r == currentIndex || r == currentIndex + 1
    ensures r == currentIndex <==> currentIndex >= deckLength - 1
  {
    if currentIndex >= deckLength - 1 then currentIndex else currentIndex + 1
  }

  /** The index after `k` draws. */
  function DrawTimes(currentIndex: int, deckLength: int, k: nat): int
    decreases k
  {
    if k == 0 then currentIndex else DrawTimes(DrawnIndex(currentIndex, deckLength), deckLength, k - 1)
  }

  /** Drawing from any index in [-1, n-1] walks forward one card per draw and stops at the last. */
  lemma {:induction false} DrawTimesClamps(c: int, n: nat, k: nat)
    requires -1 <= c <= n - 1
    ensures DrawTimes(c, n, k) == if c + k <= n - 1 then c + k else n - 1
    decreases k
  {
    if k > 0 {
      DrawTimesClamps(DrawnIndex(c, n), n, k - 1);
    }
  }

  /** A fresh game (index -1) over a deck of `n` cards is finished after exactly `n` draws and not
      before; an empty deck never finishes. */
  lemma FinishedExactlyAfterDeck(n: nat, k: nat)
    ensures IsFinished(DrawTimes(-1, n, k), n) <==> n >= 1 && k >= n
    ensures DrawTimes(-1, n, k) == (if k <= n then k else n) - 1
  {
    DrawTimesClamps(-1, n, k);
  }

  /** Drinks the showing card asks for; 0 when no card is at the index. */
  function CardDrinks(deck: seq<Card>, currentIndex: int): (d: int)
    ensures 0 <= currentIndex < |deck| ==> d == deck[currentIndex].drinks
    ensures !(0 <= currentIndex < |deck|) ==> d == 0
  {
    if 0 <= currentIndex < |deck| then deck[currentIndex].drinks else 0
  }

  /** The round-robin successor of player `i` among `n`. */
  function NextPlayer(i: int, n: int): (r: int)
    requires 0 <= i < n
    ensures 0 <= r < n
    ensures r == i + 1 || (i == n - 1 && r == 0)
  {
    (i + 1) % n
  }

  function RotateTimes(i: int, n: int, k: nat): (r: int)
    requires 0 <= i < n
    ensures 0 <= r < n
    decreases k
  {
    if k == 0 then i else RotateTimes(NextPlayer(i, n), n, k - 1)
  }

  /** `a` turns followed by `b` turns are `a + b` turns. */
  lemma {:induction false} RotateTimesAdd(i: int, n: int, a: nat, b: nat)
    requires 0 <= i < n
    ensures RotateTimes(RotateTimes(i, n, a), n, b) == RotateTimes(i, n, a + b)
    decreases a
  {
    if a > 0 {
      RotateTimesAdd(NextPlayer(i, n), n, a - 1, b);
    }
  }

  /** Within one round the rotation wraps around once, past the last player to the first. */
  lemma {:induction false} RotationWithinRound(i: int, n: int, k: nat)
    requires 0 <= i < n && k <= n
    ensures RotateTimes(i, n, k) == if i + k < n then i + k else i + k - n
    decreases k
  {
    if k > 0 {
      var j := NextPlayer(i, n);
      if i == n - 1 {
        RotationWithinRound(0, n, k - 1);
      } else {
        RotationWithinRound(i + 1, n, k - 1);
      }
    }
  }

  /** Each of the other players has a turn before the current player's turn comes back. */
  lemma RotationReturnsAfterRound(i: int, n: int)
    requires 0 <= i < n
    ensures RotateTimes(i, n, n) == i
    ensures forall k: nat :: 0 < k < n ==> RotateTimes(i, n, k) != i
    ensures forall k: nat :: RotateTimes(i, n, k + n) == RotateTimes(i, n, k)
  {
    RotationWithinRound(i, n, n);
    forall k: nat
      ensures RotateTimes(i, n, k + n) == RotateTimes(i, n, k)
    {
      RotateTimesAdd(i, n, n, k);
    }
    forall k: nat | 0 < k < n
      ensures RotateTimes(i, n, k) != i
    {
      RotationWithinRound(i, n, k);
    }
  }

  /** handleDrink's update of the players: only the current player's total grows. */
  function AddDrinks(players: seq<Player>, i: int, drinks: int): (r: seq<Player>)
    requires 0 <= i < |players|
    ensures |r| == |players|
    ensures r[i].totalDrinks == players[i].totalDrinks + drinks
    ensures r[i].id == players[i].id && r[i].name == players[i].name && r[i].avatar == players[i].avatar
    ensures forall j :: 0 <= j < |players| && j != i ==> r[j] == players[j]
  {
    players[i := players[i].(totalDrinks := players[i].totalDrinks + drinks)]
  }

  /** The table's total grows by exactly the card's drinks. */
  lemma AddDrinksTotal(players: seq<Player>, i: int, drinks: int)
    requires 0 <= i < |players|
    ensures TotalDrinks(AddDrinks(players, i, drinks)) == TotalDrinks(players) + drinks
  {
    TotalDrinksUpdate(players, i, players[i].(totalDrinks := players[i].totalDrinks + drinks));
  }

  /** The auto-save interval writes only during a game with players, cards and a drawn card. */
  predicate AutoSaveGuard(players: seq<Player>, deck: seq<Card>, currentIndex: int) {
    |players| > 0 && |deck| > 0 && currentIndex >= 0
  }

  // ---------------------------------------------------------------------------------------------
  // The screen

  class Game {
    const incoming: NavState

    var deck: seq<Card>
    var currentIndex: int
    var cardAccepted: bool
    var players: seq<Player>
    var selectedCategories: seq<Category>
    var currentPlayerIndex: int
    var showExitDialog: bool
    var showPlayerTransition: bool
    var nextPlayerIndex: int
    var showCard: bool
    var showInitialTransition: bool
    var showDevMenu: bool
    var tapCount: int
    var tapTimerPending: bool
    var navigation: Option<Navigation>

    /** The initial state: what the router passed, else the defaults. */
    constructor(nav: NavState)
      ensures incoming == nav
      ensures deck == (if nav.deck.Some? then nav.deck.value else [])
      ensures currentIndex == (if nav.currentIndex.Some? then nav.currentIndex.value else -1)
      ensures cardAccepted == (nav.cardAccepted.Some? && nav.cardAccepted.value)
      ensures players == (if nav.players.Some? then nav.players.value else [])
      ensures selectedCategories == (if nav.selectedCategories.Some? then nav.selectedCategories.value else [])
      ensures currentPlayerIndex == (if nav.currentPlayerIndex.Some? then nav.currentPlayerIndex.value else 0)
      ensures !showExitDialog && !showPlayerTransition && nextPlayerIndex == 0
      ensures showCard && !showInitialTransition && !showDevMenu
      ensures tapCount == 0 && !tapTimerPending && navigation == None
    {
      incoming := nav;
      deck := if nav.deck.Some? then nav.deck.value else [];
      currentIndex := if nav.currentIndex.Some? then nav.currentIndex.value else -1;
      cardAccepted := nav.cardAccepted.Some? && nav.cardAccepted.value;
      players := if nav.players.Some? then nav.players.value else [];
      selectedCategories := if nav.selectedCategories.Some? then nav.selectedCategories.value else [];
      currentPlayerIndex := if nav.currentPlayerIndex.Some? then nav.currentPlayerIndex.value else 0;
      showExitDialog := false;
      showPlayerTransition := false;
      nextPlayerIndex := 0;
      showCard := true;
      showInitialTransition := false;
      showDevMenu := false;
      tapCount := 0;
      tapTimerPending := false;
      navigation := None;
    }

    predicate HasIncomingPlayers()
      reads this
    {
      incoming.players.Some? && |incoming.players.value| > 0
    }

    /** The fields the auto-save and the explicit saves write, stamped with `now`. */
    function Snapshot(now: int): (s: LocalStorage.GameState)
      reads this
      ensures s.players == players && s.deck == deck && s.currentIndex == currentIndex
      ensures s.currentPlayerIndex == currentPlayerIndex && s.cardAccepted == cardAccepted && s.timestamp == now
    {
      LocalStorage.GameState(players, deck, currentIndex, currentPlayerIndex, cardAccepted, now)
    }

    /** The mount effect. Without incoming players the saved game is restored behind the initial
        transition, or the screen goes to setup when there is none. With incoming players a missing
        deck is shuffled from the incoming categories, and a game already under way opens on the
        initial transition. `draws` are the random numbers the shuffle consumes. */
    method Mount(store: LocalStorage.LocalStore, now: int, catalog: seq<Card>, draws: seq<real>)
      requires CardUtils.ValidDraws(draws)
      requires |CardUtils.FilterDeck(catalog, incoming.selectedCategories)| <= |draws| + 1
      modifies this, store
      ensures store.available == old(store.available)
      ensures selectedCategories == old(selectedCategories) && showExitDialog == old(showExitDialog)
      ensures showPlayerTransition == old(showPlayerTransition) && nextPlayerIndex == old(nextPlayerIndex)
      ensures showDevMenu == old(showDevMenu) && tapCount == old(tapCount) && tapTimerPending == old(tapTimerPending)
      // restored from storage
      ensures !HasIncomingPlayers() ==>
        store.entries == LocalStorage.AfterLoadGame(old(store.entries), store.available, now)
      ensures !HasIncomingPlayers() && LocalStorage.LoadGame(old(store.entries), store.available, now).Some? ==>
        var s := LocalStorage.LoadGame(old(store.entries), store.available, now).value;
        players == s.players && deck == s.deck && currentIndex == s.currentIndex
        && currentPlayerIndex == s.currentPlayerIndex && cardAccepted == s.cardAccepted
        && !showCard && showInitialTransition && navigation == old(navigation)
      ensures !HasIncomingPlayers() && LocalStorage.LoadGame(old(store.entries), store.available, now).None? ==>
        navigation == Some(ToSetup) && players == old(players) && deck == old(deck)
        && currentIndex == old(currentIndex) && currentPlayerIndex == old(currentPlayerIndex)
        && cardAccepted == old(cardAccepted) && showCard == old(showCard)
        && showInitialTransition == old(showInitialTransition)
      // started from the setup or resumed from another screen
      ensures HasIncomingPlayers() ==>
        store.entries == old(store.entries) && navigation == old(navigation)
        && players == old(players) && currentIndex == old(currentIndex)
        && currentPlayerIndex == old(currentPlayerIndex) && cardAccepted == old(cardAccepted)
      ensures HasIncomingPlayers() && (incoming.deck.None? || |incoming.deck.value| == 0) ==>
        var filtered := CardUtils.FilterDeck(catalog, incoming.selectedCategories);
        multiset(deck) == multiset(filtered) && CardUtils.NoStrayWildcardPairs(deck)
      ensures HasIncomingPlayers() && incoming.deck.Some? && |incoming.deck.value| > 0 ==> deck == old(deck)
      ensures HasIncomingPlayers() ==>
        var resumed := incoming.currentIndex.Some? && incoming.currentIndex.value >= 0;
        showCard == (old(showCard) && !resumed) && showInitialTransition == (old(showInitialTransition) || resumed)
    {
      if !HasIncomingPlayers() {
        RestoreSaved(store, now);
      } else {
        StartFromIncoming(catalog, draws);
      }
    }

    /** The mount effect without incoming players: the saved game, if it loads, comes back behind
        the initial transition; otherwise the screen goes to setup. */
    method RestoreSaved(store: LocalStorage.LocalStore, now: int)
      modifies this`players, this`deck, this`currentIndex, this`currentPlayerIndex, this`cardAccepted
      modifies this`showCard, this`showInitialTransition, this`navigation, store
      ensures store.available == old(store.available)
      ensures store.entries == LocalStorage.AfterLoadGame(old(store.entries), store.available, now)
      ensures LocalStorage.LoadGame(old(store.entries), store.available, now).Some? ==>
        var s := LocalStorage.LoadGame(old(store.entries), store.available, now).value;
        players == s.players && deck == s.deck && currentIndex == s.currentIndex
        && currentPlayerIndex == s.currentPlayerIndex && cardAccepted == s.cardAccepted
        && !showCard && showInitialTransition && navigation == old(navigation)
      ensures LocalStorage.LoadGame(old(store.entries), store.available, now).None? ==>
        navigation == Some(ToSetup) && players == old(players) && deck == old(deck)
        && currentIndex == old(currentIndex) && currentPlayerIndex == old(currentPlayerIndex)
        && cardAccepted == old(cardAccepted) && showCard == old(showCard)
        && showInitialTransition == old(showInitialTransition)
    {
      var saved := store.LoadGameState(now);
      if saved.Some? {
        players := saved.value.players;
        deck := saved.value.deck;
        currentIndex := saved.value.currentIndex;
        currentPlayerIndex := saved.value.currentPlayerIndex;
        cardAccepted := saved.value.cardAccepted;
        showCard := false;
        showInitialTransition := true;
      } else {
        navigation := Some(ToSetup);
      }
    }

    /** The mount effect with incoming players: a missing or empty deck is dealt afresh from the
        incoming categories, and a game already under way opens on the initial transition. */
    method StartFromIncoming(catalog: seq<Card>, draws: seq<real>)
      requires CardUtils.ValidDraws(draws)
      requires |CardUtils.FilterDeck(catalog, incoming.selectedCategories)| <= |draws| + 1
      modifies this`deck, this`showCard, this`showInitialTransition
      ensures incoming.deck.None? || |incoming.deck.value| == 0 ==>
        var filtered := CardUtils.FilterDeck(catalog, incoming.selectedCategories);
        multiset(deck) == multiset(filtered) && CardUtils.NoStrayWildcardPairs(deck)
      ensures incoming.deck.Some? && |incoming.deck.value| > 0 ==> deck == old(deck)
      ensures var resumed := incoming.currentIndex.Some? && incoming.currentIndex.value >= 0;
        showCard == (old(showCard) && !resumed) && showInitialTransition == (old(showInitialTransition) || resumed)
    {
      if incoming.deck.None? || |incoming.deck.value| == 0 {
        deck := CardUtils.ShuffleDeck(catalog, incoming.selectedCategories, draws);
      }
      if incoming.currentIndex.Some? && incoming.currentIndex.value >= 0 {
        showCard := false;
        showInitialTransition := true;
      }
    }

    /** drawCard: advances to the next card and clears its acceptance, unless the last card shows. */
    method DrawCard()
      modifies this`currentIndex, this`cardAccepted
      ensures currentIndex == DrawnIndex(old(currentIndex), |deck|)
      ensures cardAccepted == (old(cardAccepted) && currentIndex == old(currentIndex))
    {
      if currentIndex >= |deck| - 1 {
        return;
      }
      cardAccepted := false;
      currentIndex := currentIndex + 1;
    }

    /** showCurrentCard: the restored card is shown again, not yet accepted. */
    method ShowCurrentCard()
      modifies this`cardAccepted, this`deck
      ensures !cardAccepted && deck == old(deck)
    {
      cardAccepted := false;
      if 0 <= currentIndex < |deck| {
        deck := deck[..];
      }
    }

    method HandleAccept()
      modifies this`cardAccepted
      ensures cardAccepted
    {
      cardAccepted := true;
    }

    /** handleComplete: no drinks are charged; the card is hidden and the transition announces the
        next player, who is not yet current. */
    method HandleComplete()
      requires 0 <= currentPlayerIndex < |players|
      modifies this`showCard, this`nextPlayerIndex, this`showPlayerTransition
      ensures !showCard && showPlayerTransition
      ensures nextPlayerIndex == NextPlayer(currentPlayerIndex, |players|)
    {
      // `totalDrinks || 0` is the identity on the integer totals of this model.
      showCard := false;
      nextPlayerIndex := (currentPlayerIndex + 1) % |players|;
      showPlayerTransition := true;
    }

    /** handleDrink: the current player drinks what the card says; then as handleComplete. */
    method HandleDrink()
      requires 0 <= currentPlayerIndex < |players|
      modifies this`players, this`showCard, this`nextPlayerIndex, this`showPlayerTransition
      ensures players == AddDrinks(old(players), currentPlayerIndex, CardDrinks(deck, currentIndex))
      ensures TotalDrinks(players) == TotalDrinks(old(players)) + CardDrinks(deck, currentIndex)
      ensures !showCard && showPlayerTransition
      ensures nextPlayerIndex == NextPlayer(currentPlayerIndex, |players|)
    {
      var drinks := if 0 <= currentIndex < |deck| then deck[currentIndex].drinks else 0;
      var p := players[currentPlayerIndex];
      AddDrinksTotal(players, currentPlayerIndex, drinks);
      players := players[currentPlayerIndex := p.(totalDrinks := p.totalDrinks + drinks)];
      showCard := false;
      nextPlayerIndex := (currentPlayerIndex + 1) % |players|;
      showPlayerTransition := true;
    }

    /** The swipe recogniser's left callback: drink, once a card has been drawn. */
    method OnSwipeLeft()
      requires currentIndex >= 0 ==> 0 <= currentPlayerIndex < |players|
      modifies this`players, this`showCard, this`nextPlayerIndex, this`showPlayerTransition
      ensures currentIndex < 0 ==> (players == old(players) && showCard == old(showCard)
        && nextPlayerIndex == old(nextPlayerIndex) && showPlayerTransition == old(showPlayerTransition))
      ensures currentIndex >= 0 ==>
        players == AddDrinks(old(players), currentPlayerIndex, CardDrinks(deck, currentIndex))
        && TotalDrinks(players) == TotalDrinks(old(players)) + CardDrinks(deck, currentIndex)
        && !showCard && showPlayerTransition && nextPlayerIndex == NextPlayer(currentPlayerIndex, |players|)
    {
      if currentIndex >= 0 {
        HandleDrink();
      }
    }

    /** The swipe recogniser's right callback: complete, once a card has been drawn. */
    method OnSwipeRight()
      requires currentIndex >= 0 ==> 0 <= currentPlayerIndex < |players|
      modifies this`showCard, this`nextPlayerIndex, this`showPlayerTransition
      ensures currentIndex < 0 ==> (showCard == old(showCard)
        && nextPlayerIndex == old(nextPlayerIndex) && showPlayerTransition == old(showPlayerTransition))
      ensures currentIndex >= 0 ==>
        !showCard && showPlayerTransition && nextPlayerIndex == NextPlayer(currentPlayerIndex, |players|)
    {
      if currentIndex >= 0 {
        HandleComplete();
      }
    }

    /** Tapping the player transition commits the announced player and draws the next card. */
    method HandlePlayerTransitionTap()
      modifies this`showPlayerTransition, this`currentPlayerIndex, this`showCard, this`currentIndex, this`cardAccepted
      ensures !showPlayerTransition && showCard
      ensures currentPlayerIndex == old(nextPlayerIndex)
      ensures currentIndex == DrawnIndex(old(currentIndex), |deck|)
      ensures cardAccepted == (old(cardAccepted) && currentIndex == old(currentIndex))
    {
      showPlayerTransition := false;
      currentPlayerIndex := nextPlayerIndex;
      showCard := true;
      DrawCard();
    }

    /** Tapping the initial transition shows the restored card, or draws the first one. */
    method HandleInitialTransitionTap()
      modifies this`showInitialTransition, this`showCard, this`currentIndex, this`cardAccepted, this`deck
      ensures !showInitialTransition && showCard && deck == old(deck)
      ensures old(currentIndex) >= 0 ==> currentIndex == old(currentIndex) && !cardAccepted
      ensures old(currentIndex) < 0 ==> (currentIndex == DrawnIndex(old(currentIndex), |deck|)
        && cardAccepted == (old(cardAccepted) && currentIndex == old(currentIndex)))
    {
      showInitialTransition := false;
      showCard := true;
      if currentIndex >= 0 {
        ShowCurrentCard();
      } else {
        DrawCard();
      }
    }

    /** The finish effect's timer: a finished game goes to the statistics with gameFinished. */
    method FinishTimerFires()
      modifies this`navigation
      ensures IsFinished(currentIndex, |deck|) ==> navigation == Some(ToStatistics(StatisticsState(
        players, deck, currentIndex, currentPlayerIndex, cardAccepted, Some(true), selectedCategories)))
      ensures !IsFinished(currentIndex, |deck|) ==> navigation == old(navigation)
    {
      if currentIndex >= 0 && currentIndex >= |deck| - 1 {
        navigation := Some(ToStatistics(StatisticsState(
          players, deck, currentIndex, currentPlayerIndex, cardAccepted, Some(true), selectedCategories)));
      }
    }

    /** The statistics button: the same screen, without gameFinished. */
    method ShowStatistics()
      modifies this`navigation
      ensures navigation == Some(ToStatistics(StatisticsState(
        players, deck, currentIndex, currentPlayerIndex, cardAccepted, None, selectedCategories)))
    {
      navigation := Some(ToStatistics(StatisticsState(
        players, deck, currentIndex, currentPlayerIndex, cardAccepted, None, selectedCategories)));
    }

    /** One tick of the auto-save interval. */
    method AutoSaveTick(store: LocalStorage.LocalStore, now: int)
      modifies store
      ensures store.available == old(store.available)
      ensures AutoSaveGuard(players, deck, currentIndex) ==>
        store.entries == LocalStorage.WriteItem(old(store.entries), store.available,
                                                LocalStorage.GameStateKey, LocalStorage.GameDoc(Snapshot(now)))
      ensures !AutoSaveGuard(players, deck, currentIndex) ==> store.entries == old(store.entries)
    {
      if |players| > 0 && |deck| > 0 && currentIndex >= 0 {
        store.SaveGameState(Snapshot(now), now);
      }
    }

    method HandleExitGame()
      modifies this`showExitDialog
      ensures showExitDialog
    {
      showExitDialog := true;
    }

    /** Leaving through the exit dialog saves unconditionally, then goes home. */
    method ConfirmExit(store: LocalStorage.LocalStore, now: int)
      modifies this`navigation, store
      ensures store.available == old(store.available)
      ensures store.entries == LocalStorage.WriteItem(old(store.entries), store.available,
                                                      LocalStorage.GameStateKey, LocalStorage.GameDoc(Snapshot(now)))
      ensures navigation == Some(ToHome)
    {
      store.SaveGameState(Snapshot(now), now);
      navigation := Some(ToHome);
    }

    /** The settings button saves unconditionally, then opens the settings. */
    method NavigateToSettings(store: LocalStorage.LocalStore, now: int)
      modifies this`navigation, store
      ensures store.available == old(store.available)
      ensures store.entries == LocalStorage.WriteItem(old(store.entries), store.available,
                                                      LocalStorage.GameStateKey, LocalStorage.GameDoc(Snapshot(now)))
      ensures navigation == Some(ToSettings)
    {
      store.SaveGameState(Snapshot(now), now);
      navigation := Some(ToSettings);
    }

    /** A tap on the screen: the third tap inside the window opens the developer menu and starts
        counting afresh; any other tap (re)starts the window. */
    method HandleTripleTap()
      requires 0 <= tapCount <= 2
      modifies this`tapCount, this`tapTimerPending, this`showDevMenu
      ensures 0 <= tapCount <= 2
      ensures old(tapCount) == 2 ==> showDevMenu && tapCount == 0 && !tapTimerPending
      ensures old(tapCount) < 2 ==> showDevMenu == old(showDevMenu) && tapCount == old(tapCount) + 1 && tapTimerPending
    {
      tapCount := tapCount + 1;
      if tapCount == 3 {
        showDevMenu := true;
        tapCount := 0;
        tapTimerPending := false;
        return;
      }
      tapTimerPending := true;
    }

    /** The triple-tap window elapsed without a third tap. */
    method TapTimerFires()
      requires tapTimerPending
      modifies this`tapCount, this`tapTimerPending
      ensures tapCount == 0 && !tapTimerPending
    {
      tapCount := 0;
      tapTimerPending := false;
    }
  }

  /** Three taps with no elapsed window open the developer menu. */
  method ThreeQuickTaps(g: Game)
    requires g.tapCount == 0
    modifies g
    ensures g.showDevMenu && g.tapCount == 0
  {
    g.HandleTripleTap();
    g.HandleTripleTap();
    g.HandleTripleTap();
  }

  /** A whole round over a deck of `n` cards starting fresh: one initial tap, then alternating
      swipes and transition taps; the game is finished exactly when the last card shows. */
  method PlayThrough(g: Game)
    requires g.currentIndex == -1 && |g.deck| > 0
    requires 0 <= g.currentPlayerIndex < |g.players|
    requires forall c :: c in g.deck ==> c.drinks >= 0
    modifies g
    ensures g.currentIndex == |g.deck| - 1 && IsFinished(g.currentIndex, |g.deck|)
    ensures 0 <= g.currentPlayerIndex < |g.players|
    ensures TotalDrinks(g.players) >= TotalDrinks(old(g.players))
  {
    g.HandleInitialTransitionTap();
    while g.currentIndex < |g.deck| - 1
      invariant 0 <= g.currentIndex <= |g.deck| - 1
      invariant 0 <= g.currentPlayerIndex < |g.players| && |g.players| == |old(g.players)|
      invariant g.deck == old(g.deck)
      invariant TotalDrinks(g.players) >= TotalDrinks(old(g.players))
      decreases |g.deck| - g.currentIndex
    {
      assert CardDrinks(g.deck, g.currentIndex) >= 0 by {
        assert g.deck[g.currentIndex] in g.deck;
      }
      g.OnSwipeLeft();
      g.HandlePlayerTransitionTap();
    }
  }
}
