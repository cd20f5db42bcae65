/** Persistence of the game over the browser's key-value storage. The storage is a map from key to the
    document stored there, seen through what JSON.parse makes of its text; `available == false` stands
    for a storage that throws on every call (disabled, private mode, quota). The clock is the `now`
    argument, in epoch milliseconds. */
module LocalStorage {
  import opened Types

  const GameStateKey: string := "schluck-mal-game-state"
  const LastPlayersKey: string := "schluck-mal-last-players"
  const LastCategoriesKey: string := "schluck-mal-last-categories"
  const InteractiveTutorialShownKey: string := "schluck-mal-interactive-tutorial-shown"

  /** Milliseconds in one hour and the 24-hour staleness window. */
  const HourMs: int := 1000 * 60 * 60
  const StaleAfterMs: int := 24 * HourMs

  /** The saved snapshot of a running game. */
  datatype GameState = GameState(
    players: seq<Player>,
    deck: seq<Card>,
    currentIndex: int,
    currentPlayerIndex: int,
    cardAccepted: bool,
    timestamp: int)

  /** A stored value. `Text` is a raw string written without JSON encoding (the tutorial flag);
      `Malformed` is text on which JSON.parse throws. */
  datatype Doc =
    | GameDoc(state: GameState)
    | PlayersDoc(players: seq<Player>)
    | CategoriesDoc(categories: seq<Category>)
    | Text(text: string)
    | Malformed

  // ---------------------------------------------------------------------------------------------
  // The storage operations as functions of the map

  /** setItem inside try/catch: a throwing storage leaves the map unchanged. */
  function WriteItem(m: map<string, Doc>, available: bool, key: string, d: Doc): (r: map<string, Doc>)
    ensures available ==> key in r && r[key] == d
    ensures forall k :: k != key ==> (k in r <==> k in m) && (k in r ==> r[k] == m[k])
    ensures !available ==> r == m
  {
    if available then m[key := d] else m
  }

  /** removeItem inside try/catch. */
  function RemoveItem(m: map<string, Doc>, available: bool, key: string): (r: map<string, Doc>)
    ensures available ==> key !in r
    ensures forall k :: k != key ==> (k in r <==> k in m) && (k in r ==> r[k] == m[k])
    ensures !available ==> r == m
  {
    if available then m - {key} else m
  }

  /** The hours since the save, computed in floating point, exceed 24. */
  predicate IsStale(now: int, timestamp: int) {
    (now - timestamp) as real / HourMs as real > 24.0
  }

  /** The floating-point comparison is the strict integer comparison against 24 hours. */
  lemma IsStaleExactly(now: int, timestamp: int)
    ensures IsStale(now, timestamp) <==> now - timestamp > StaleAfterMs
  {
    var d := (now - timestamp) as real;
    var h := HourMs as real;
    assert d / h > 24.0 <==> d > 24.0 * h;
  }

  /** What loadGameState returns: nothing stored, an unparsable or foreign document and a throwing
      storage give null; a state saved more than 24 hours ago gives null. */
  function LoadGame(m: map<string, Doc>, available: bool, now: int): (r: Option<GameState>)
    ensures r.Some? ==> available && GameStateKey in m && m[GameStateKey] == GameDoc(r.value)
    ensures r.Some? ==> !IsStale(now, r.value.timestamp)
  {
    if !available || GameStateKey !in m then None
    else match m[GameStateKey]
      case GameDoc(st) => if IsStale(now, st.timestamp) then None else Some(st)
      case _ => None
  }

  /** The map after loadGameState: a stale state is removed. */
  function AfterLoadGame(m: map<string, Doc>, available: bool, now: int): map<string, Doc> {
    if available && GameStateKey in m && m[GameStateKey].GameDoc? && IsStale(now, m[GameStateKey].state.timestamp)
    then RemoveItem(m, available, GameStateKey)
    else m
  }

  /** What loadLastPlayers returns. An empty list is stored as "[]", which is truthy, so it loads. */
  function LoadPlayers(m: map<string, Doc>, available: bool): Option<seq<Player>> {
    if available && LastPlayersKey in m && m[LastPlayersKey].PlayersDoc? then Some(m[LastPlayersKey].players) else None
  }

  function LoadCategories(m: map<string, Doc>, available: bool): Option<seq<Category>> {
    if available && LastCategoriesKey in m && m[LastCategoriesKey].CategoriesDoc? then Some(m[LastCategoriesKey].categories) else None
  }

  /** hasShownInteractiveTutorial: the stored string is exactly "true". */
  function TutorialShown(m: map<string, Doc>, available: bool): bool {
    available && InteractiveTutorialShownKey in m && m[InteractiveTutorialShownKey] == Text("true")
  }

  // ---------------------------------------------------------------------------------------------
  // Round trips

  /** Saving stamps the clock; loading within 24 hours returns the saved fields with that stamp. */
  lemma SaveThenLoad(m: map<string, Doc>, state: GameState, saved: int, now: int)
    requires now - saved <= StaleAfterMs
    ensures LoadGame(WriteItem(m, true, GameStateKey, GameDoc(state.(timestamp := saved))), true, now)
         == Some(state.(timestamp := saved))
  {
    IsStaleExactly(now, saved);
  }

  /** A state saved more than 24 hours ago loads as null and is removed; exactly 24 hours still loads. */
  lemma StaleBoundary(m: map<string, Doc>, state: GameState, now: int)
    ensures var m1 := WriteItem(m, true, GameStateKey, GameDoc(state.(timestamp := now - StaleAfterMs)));
      LoadGame(m1, true, now) == Some(state.(timestamp := now - StaleAfterMs))
    ensures var m2 := WriteItem(m, true, GameStateKey, GameDoc(state.(timestamp := now - StaleAfterMs - 1)));
      LoadGame(m2, true, now) == None && GameStateKey !in AfterLoadGame(m2, true, now)
  {
    IsStaleExactly(now, now - StaleAfterMs);
    IsStaleExactly(now, now - StaleAfterMs - 1);
  }

  /** After clearGameState nothing loads (unless the storage threw and kept a state). */
  lemma ClearThenLoad(m: map<string, Doc>, now: int)
    ensures LoadGame(RemoveItem(m, true, GameStateKey), true, now) == None
  {
  }

  lemma LastSelectionsRoundTrip(m: map<string, Doc>, players: seq<Player>, categories: seq<Category>)
    ensures LoadPlayers(WriteItem(m, true, LastPlayersKey, PlayersDoc(players)), true) == Some(players)
    ensures LoadCategories(WriteItem(m, true, LastCategoriesKey, CategoriesDoc(categories)), true) == Some(categories)
    ensures LoadPlayers(RemoveItem(m, true, LastPlayersKey), true) == None
  {
  }

  lemma TutorialFlagRoundTrip(m: map<string, Doc>)
    ensures TutorialShown(WriteItem(m, true, InteractiveTutorialShownKey, Text("true")), true)
    ensures !TutorialShown(RemoveItem(m, true, InteractiveTutorialShownKey), true)
    ensures InteractiveTutorialShownKey !in m ==> !TutorialShown(m, true)
  {
  }

  /** A throwing storage makes every load return null or false. */
  lemma UnavailableLoadsNothing(m: map<string, Doc>, now: int)
    ensures LoadGame(m, false, now) == None && AfterLoadGame(m, false, now) == m
    ensures LoadPlayers(m, false) == None && LoadCategories(m, false) == None
    ensures !TutorialShown(m, false)
  {
  }

  // ---------------------------------------------------------------------------------------------
  // The storage object

  class LocalStore {
    var entries: map<string, Doc>
    var available: bool

    constructor(initial: map<string, Doc>, working: bool)
      ensures entries == initial && available == working
    {
      entries := initial;
      available := working;
    }

    /** saveGameState: stores the state with its timestamp replaced by the current time. */
    method SaveGameState(state: GameState, now: int)
      modifies this
      ensures available == old(available)
      ensures entries == WriteItem(old(entries), available, GameStateKey, GameDoc(state.(timestamp := now)))
    {
      if available {
        entries := entries[GameStateKey := GameDoc(state.(timestamp := now))];
      }
    }

    /** loadGameState: returns the stored state unless it is absent, unreadable or stale; a stale
        state is removed. */
    method LoadGameState(now: int) returns (r: Option<GameState>)
      modifies this
      ensures available == old(available)
      ensures r == LoadGame(old(entries), available, now)
      ensures entries == AfterLoadGame(old(entries), available, now)
    {
      if !available || GameStateKey !in entries {
        return None;
      }
      match entries[GameStateKey]
      case GameDoc(st) =>
        if IsStale(now, st.timestamp) {
          ClearGameState();
          r := None;
        } else {
          r := Some(st);
        }
      case _ =>
        r := None;
    }

    method ClearGameState()
      modifies this
      ensures available == old(available)
      ensures entries == RemoveItem(old(entries), available, GameStateKey)
    {
      if available {
        entries := entries - {GameStateKey};
      }
    }

    method SaveLastPlayers(players: seq<Player>)
      modifies this
      ensures available == old(available)
      ensures entries == WriteItem(old(entries), available, LastPlayersKey, PlayersDoc(players))
    {
      if available {
        entries := entries[LastPlayersKey := PlayersDoc(players)];
      }
    }

    method LoadLastPlayers() returns (r: Option<seq<Player>>)
      ensures r == LoadPlayers(entries, available)
      ensures r.Some? ==> available && entries[LastPlayersKey] == PlayersDoc(r.value)
    {
      if available && LastPlayersKey in entries && entries[LastPlayersKey].PlayersDoc? {
        r := Some(entries[LastPlayersKey].players);
      } else {
        r := None;
      }
    }

    method SaveLastCategories(categories: seq<Category>)
      modifies this
      ensures available == old(available)
      ensures entries == WriteItem(old(entries), available, LastCategoriesKey, CategoriesDoc(categories))
    {
      if available {
        entries := entries[LastCategoriesKey := CategoriesDoc(categories)];
      }
    }

    method LoadLastCategories() returns (r: Option<seq<Category>>)
      ensures r == LoadCategories(entries, available)
      ensures r.Some? ==> available && entries[LastCategoriesKey] == CategoriesDoc(r.value)
    {
      if available && LastCategoriesKey in entries && entries[LastCategoriesKey].CategoriesDoc? {
        r := Some(entries[LastCategoriesKey].categories);
      } else {
        r := None;
      }
    }

    method HasShownInteractiveTutorial() returns (shown: bool)
      ensures shown == TutorialShown(entries, available)
      ensures shown ==> entries[InteractiveTutorialShownKey] == Text("true")
    {
      shown := available && InteractiveTutorialShownKey in entries && entries[InteractiveTutorialShownKey] == Text("true");
    }

    method MarkInteractiveTutorialAsShown()
      modifies this
      ensures available == old(available)
      ensures entries == WriteItem(old(entries), available, InteractiveTutorialShownKey, Text("true"))
    {
      if available {
        entries := entries[InteractiveTutorialShownKey := Text("true")];
      }
    }

    method ResetInteractiveTutorial()
      modifies this
      ensures available == old(available)
      ensures entries == RemoveItem(old(entries), available, InteractiveTutorialShownKey)
    {
      if available {
        entries := entries - {InteractiveTutorialShownKey};
      }
    }
  }

  /** Save then load on one store, as the game screen and its restore do. */
  method SaveAndRestore(store: LocalStore, state: GameState, saved: int, now: int) returns (r: Option<GameState>)
    requires store.available && now - saved <= StaleAfterMs
    modifies store
    ensures r == Some(state.(timestamp := saved))
  {
    store.SaveGameState(state, saved);
    r := store.LoadGameState(now);
    SaveThenLoad(old(store.entries), state, saved, now);
  }
}
