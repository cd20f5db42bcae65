/** The statistics screen: the ranking by drinks, the total and each player's share, the place
    marks, the loser banner, and the two ways out (a new game, or back to the running one). */
module Statistics {
  import opened Types
  import opened Events
  import opened LocalStorage
  import GameScreen
  import Setup

  // ---------------------------------------------------------------------------------------------
  // The ranking: `[...players].sort((a, b) => b.totalDrinks - a.totalDrinks)`, a stable sort

  predicate SortedByDrinks(s: seq<Player>) {
    forall i, j :: 0 <= i < j < |s| ==> s[i].totalDrinks >= s[j].totalDrinks
  }

  /** Places `p` after every player with at least as many drinks. */
  function Insert(sorted: seq<Player>, p: Player): (r: seq<Player>)
    ensures |r| == |sorted| + 1
    ensures multiset(r) == multiset(sorted) + multiset{p}
  {
    if |sorted| == 0 then [p]
    else if sorted[|sorted| - 1].totalDrinks >= p.totalDrinks then sorted + [p]
    else
      assert sorted == sorted[..|sorted| - 1] + [sorted[|sorted| - 1]];
      Insert(sorted[..|sorted| - 1], p) + [sorted[|sorted| - 1]]
  }

  /** The ranking, an insertion sort that keeps players with equal totals in list order. */
  function SortByDrinks(players: seq<Player>): seq<Player> {
    if |players| == 0 then []
    else Insert(SortByDrinks(players[..|players| - 1]), players[|players| - 1])
  }

  lemma {:induction false} InsertSorted(sorted: seq<Player>, p: Player)
    requires SortedByDrinks(sorted)
    ensures SortedByDrinks(Insert(sorted, p))
    decreases |sorted|
  {
    if |sorted| > 0 && sorted[|sorted| - 1].totalDrinks < p.totalDrinks {
      var init := sorted[..|sorted| - 1];
      var last := sorted[|sorted| - 1];
      InsertSorted(init, p);
      var r' := Insert(init, p);
      forall k | 0 <= k < |r'| ensures r'[k].totalDrinks >= last.totalDrinks {
        assert r'[k] in multiset(init) + multiset{p};
        if r'[k] != p {
          assert r'[k] in init;
        }
      }
    }
  }

  /** The ranking is a permutation of the players, in non-increasing order of drinks. */
  lemma {:induction false} SortByDrinksSorts(players: seq<Player>)
    ensures SortedByDrinks(SortByDrinks(players))
    ensures multiset(SortByDrinks(players)) == multiset(players)
    ensures |SortByDrinks(players)| == |players|
  {
    SortByDrinksSorted(players);
    SortByDrinksPermutes(players);
  }

  lemma {:induction false} SortByDrinksSorted(players: seq<Player>)
    ensures SortedByDrinks(SortByDrinks(players))
  {
    if |players| > 0 {
      var init := players[..|players| - 1];
      SortByDrinksSorted(init);
      InsertSorted(SortByDrinks(init), players[|players| - 1]);
    }
  }

  lemma {:induction false} SortByDrinksPermutes(players: seq<Player>)
    ensures multiset(SortByDrinks(players)) == multiset(players)
    ensures |SortByDrinks(players)| == |players|
  {
    if |players| > 0 {
      var init := players[..|players| - 1];
      SortByDrinksPermutes(init);
      MultisetOfLast(players);
    }
  }

  /** `p` alone if it has exactly `d` drinks, else nothing. */
  function Match(p: Player, d: int): seq<Player> {
    if p.totalDrinks == d then [p] else []
  }

  /** The players with exactly `d` drinks, in list order. */
  function WithDrinks(s: seq<Player>, d: int): seq<Player> {
    if |s| == 0 then [] else WithDrinks(s[..|s| - 1], d) + Match(s[|s| - 1], d)
  }

  lemma WithDrinksSingle(p: Player, d: int)
    ensures WithDrinks([p], d) == Match(p, d)
  {
    assert [p][..0] == [];
  }

  lemma {:induction false} WithDrinksAppend(a: seq<Player>, b: seq<Player>, d: int)
    ensures WithDrinks(a + b, d) == WithDrinks(a, d) + WithDrinks(b, d)
    decreases |b|
  {
    if |b| > 0 {
      assert (a + b)[..|a + b| - 1] == a + b[..|b| - 1];
      assert (a + b)[|a + b| - 1] == b[|b| - 1];
      WithDrinksAppend(a, b[..|b| - 1], d);
    } else {
      assert a + b == a;
    }
  }

  lemma {:induction false} InsertStable(sorted: seq<Player>, p: Player, d: int)
    requires SortedByDrinks(sorted)
    ensures WithDrinks(Insert(sorted, p), d) == WithDrinks(sorted, d) + Match(p, d)
    decreases |sorted|
  {
    if |sorted| == 0 {
      WithDrinksSingle(p, d);
    } else if sorted[|sorted| - 1].totalDrinks >= p.totalDrinks {
      WithDrinksAppend(sorted, [p], d);
      WithDrinksSingle(p, d);
    } else {
      var init := sorted[..|sorted| - 1];
      var last := sorted[|sorted| - 1];
      var inserted := Insert(init, p);
      var w := WithDrinks(init, d);
      assert SortedByDrinks(init);
      InsertStable(init, p, d);
      calc {
        WithDrinks(Insert(sorted, p), d);
        WithDrinks(inserted + [last], d);
        { WithDrinksAppend(inserted, [last], d); WithDrinksSingle(last, d); }
        w + Match(p, d) + Match(last, d);
        // `last` has fewer drinks than `p`, so at most one of them matches `d`.
        { SwapAroundEmpty(w, Match(p, d), Match(last, d)); }
        w + Match(last, d) + Match(p, d);
        WithDrinks(sorted, d) + Match(p, d);
      }
    }
  }

  lemma SwapAroundEmpty(w: seq<Player>, x: seq<Player>, y: seq<Player>)
    requires x == [] || y == []
    ensures w + x + y == w + y + x
  {
    if x == [] {
      assert w + x == w && w + y + x == w + y;
    } else {
      assert w + x + y == w + x && w + y == w;
    }
  }

  /** The sort is stable: players with the same total appear in the ranking in list order. */
  lemma {:induction false} SortByDrinksStable(players: seq<Player>, d: int)
    ensures WithDrinks(SortByDrinks(players), d) == WithDrinks(players, d)
  {
    if |players| > 0 {
      var init := players[..|players| - 1];
      SortByDrinksSorts(init);
      SortByDrinksStable(init, d);
      InsertStable(SortByDrinks(init), players[|players| - 1], d);
    }
  }

  /** The first of the ranking has the most drinks of all players. */
  lemma TopOfRanking(players: seq<Player>)
    requires |players| > 0
    ensures SortByDrinks(players)[0] in players
    ensures forall p :: p in players ==> SortByDrinks(players)[0].totalDrinks >= p.totalDrinks
  {
    var r := SortByDrinks(players);
    SortByDrinksSorts(players);
    assert r[0] in multiset(players);
    forall p | p in players ensures r[0].totalDrinks >= p.totalDrinks {
      assert p in multiset(r);
      var k :| 0 <= k < |r| && r[k] == p;
    }
  }

  // ---------------------------------------------------------------------------------------------
  // Total and shares

  /** Sorting changes nothing about the displayed total. */
  lemma RankingKeepsTotal(players: seq<Player>)
    ensures TotalDrinks(SortByDrinks(players)) == TotalDrinks(players)
  {
    SortByDrinksSorts(players);
    TotalDrinksPermutation(SortByDrinks(players), players);
  }

  /** A player's share of the total, in percent; 0 when nobody drank. */
  function Percentage(drinks: int, total: int): (r: real)
    ensures total <= 0 ==> r == 0.0
    ensures 0 <= drinks <= total ==> 0.0 <= r <= 100.0
    ensures 0 < drinks == total ==> r == 100.0
  {
    if total > 0 then drinks as real / total as real * 100.0 else 0.0
  }

  /** The shares of a list of players against a fixed total. */
  function SumShares(players: seq<Player>, total: int): real {
    if |players| == 0 then 0.0
    else SumShares(players[..|players| - 1], total) + Percentage(players[|players| - 1].totalDrinks, total)
  }

  lemma {:induction false} SumSharesIsShareOfSum(players: seq<Player>, total: int)
    requires total > 0
    ensures SumShares(players, total) == TotalDrinks(players) as real / total as real * 100.0
  {
    if |players| > 0 {
      var init := players[..|players| - 1];
      SumSharesIsShareOfSum(init, total);
      var a := TotalDrinks(init) as real;
      var b := players[|players| - 1].totalDrinks as real;
      ShareOfSum(a, b, total as real);
    }
  }

  lemma ShareOfSum(a: real, b: real, t: real)
    requires t > 0.0
    ensures a / t * 100.0 + b / t * 100.0 == (a + b) / t * 100.0
  {
    var x := a / t;
    var y := b / t;
    assert x * t == a && y * t == b;
    assert (x + y) * t == a + b;
  }

  /** Whenever somebody drank, the shares of all rows add up to 100 percent in exact real arithmetic.
      The source computes each share in floating point, where the sum is 100 only up to rounding. */
  lemma SharesAddUp(players: seq<Player>)
    requires TotalDrinks(players) > 0
    ensures SumShares(SortByDrinks(players), TotalDrinks(players)) == 100.0
  {
    var t := TotalDrinks(players);
    var r := SortByDrinks(players);
    RankingKeepsTotal(players);
    SumSharesIsShareOfSum(r, t);
    WholeShare(t as real);
  }

  lemma WholeShare(t: real)
    requires t > 0.0
    ensures t / t * 100.0 == 100.0
  {
  }

  // ---------------------------------------------------------------------------------------------
  // Places and the banner

  datatype RankMark = Crown | SilverMedal | BronzeMedal | Place(n: int)

  /** getRankIcon, with the place number shown where it gives no icon. */
  function RankMarkAt(index: nat): (m: RankMark)
    ensures index < 3 <==> !m.Place?
    ensures m.Place? ==> m.n == index + 1
  {
    match index
    case 0 => Crown
    case 1 => SilverMedal
    case 2 => BronzeMedal
    case _ => Place(index + 1)
  }

  /** Every row of the ranking gets a different mark. */
  lemma RankMarksDistinct(i: nat, j: nat)
    requires i != j
    ensures RankMarkAt(i) != RankMarkAt(j)
  {
  }

  /** The loser banner and the confetti: the top of the ranking drank something. */
  predicate ShowsLoser(sorted: seq<Player>) {
    |sorted| > 0 && sorted[0].totalDrinks > 0
  }

  lemma LoserBannerIffSomebodyDrank(players: seq<Player>)
    ensures ShowsLoser(SortByDrinks(players)) <==> exists p :: p in players && p.totalDrinks > 0
  {
    SortByDrinksSorts(players);
    if |players| > 0 {
      TopOfRanking(players);
    }
  }

  // ---------------------------------------------------------------------------------------------
  // Leaving the screen

  /** `state?.gameFinished || false`. */
  predicate GameFinished(state: Option<GameScreen.StatisticsState>) {
    state.Some? && state.value.gameFinished == Some(true)
  }

  datatype Action = NewGameButton | BackToGameButton

  /** The buttons under the ranking: a new game after a finished game, otherwise back to it. */
  function Actions(state: Option<GameScreen.StatisticsState>): (r: seq<Action>)
    ensures |r| == 1
    ensures r[0] == NewGameButton <==> GameFinished(state)
  {
    if GameFinished(state) then [NewGameButton] else [BackToGameButton]
  }

  /** The storage after handleNewGame: the players and categories of the game are remembered and
      the saved game is removed. */
  function NewGameEntries(m: map<string, Doc>, available: bool, state: Option<GameScreen.StatisticsState>)
    : map<string, Doc>
  {
    var m1 := if state.Some? then WriteItem(m, available, LastPlayersKey, PlayersDoc(state.value.players)) else m;
    var m2 := if state.Some? then WriteItem(m1, available, LastCategoriesKey, CategoriesDoc(state.value.selectedCategories)) else m1;
    RemoveItem(m2, available, GameStateKey)
  }

  /** After a new game is asked for, the setup screen starts with the players and categories of the
      game just played (categories falling back to all when none were recorded), and no saved game
      loads any more. */
  lemma NewGameFeedsSetup(m: map<string, Doc>, s: GameScreen.StatisticsState, now: int)
    ensures var m' := NewGameEntries(m, true, Some(s));
      Setup.Restore(m', true)
        == Setup.Selections(s.players, if |s.selectedCategories| > 0 then s.selectedCategories else Setup.DefaultCategories)
      && LoadGame(m', true, now) == None
  {
    var m2 := WriteItem(WriteItem(m, true, LastPlayersKey, PlayersDoc(s.players)),
                        true, LastCategoriesKey, CategoriesDoc(s.selectedCategories));
    Setup.RestoreAfterSave(m, s.players, s.selectedCategories);
    assert RemoveItem(m2, true, GameStateKey) == m2 - {GameStateKey};
    assert GameStateKey != LastPlayersKey && GameStateKey != LastCategoriesKey;
    ClearThenLoad(m2, now);
  }

  /** handleNewGame: remember the selections, clear the saved game, go to the setup screen. */
  method HandleNewGame(store: LocalStore, state: Option<GameScreen.StatisticsState>) returns (route: Route)
    modifies store
    ensures route == SetupRoute
    ensures store.available == old(store.available)
    ensures store.entries == NewGameEntries(old(store.entries), old(store.available), state)
  {
    if state.Some? {
      store.SaveLastPlayers(state.value.players);
      store.SaveLastCategories(state.value.selectedCategories);
    }
    store.ClearGameState();
    route := SetupRoute;
  }

  /** The router state the back button hands to the game screen: the state this screen received. */
  function BackToGame(state: Option<GameScreen.StatisticsState>): (nav: GameScreen.NavState)
    ensures state.None? ==> nav == GameScreen.NavState(None, None, None, None, None, None)
  {
    if state.None? then GameScreen.NavState(None, None, None, None, None, None)
    else
      var s := state.value;
      GameScreen.NavState(Some(s.players), Some(s.selectedCategories), Some(s.deck),
                          Some(s.currentIndex), Some(s.currentPlayerIndex), Some(s.cardAccepted))
  }

  /** Opening the statistics and going back resumes the same game: deck, position, players, turn,
      acceptance and categories are all as they were. */
  method VisitStatisticsAndReturn(g: GameScreen.Game) returns (back: GameScreen.Game)
    modifies g`navigation
    ensures back.deck == g.deck && back.currentIndex == g.currentIndex
    ensures back.players == g.players && back.currentPlayerIndex == g.currentPlayerIndex
    ensures back.cardAccepted == g.cardAccepted && back.selectedCategories == g.selectedCategories
  {
    g.ShowStatistics();
    var s := g.navigation.value.stats;
    back := new GameScreen.Game(BackToGame(Some(s)));
  }
}
